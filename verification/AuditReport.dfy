/** The audit report and the findings extracted from it. */
module AuditReport {
  import opened Wrappers

  // ----- JSON values as Python sees them --------------------------------------------------

  datatype Json =
    | JNull
    | JBool(b: bool)
    | JNum(n: int)
    | JStr(s: string)
    | JArr(items: seq<Json>)
    | JObj(fields: seq<(string, Json)>)

  /** What evaluates to false: null, false, zero and everything empty. */
  predicate Truthy(j: Json) {
    match j
    case JNull => false
    case JBool(b) => b
    case JNum(n) => n != 0
    case JStr(s) => s != ""
    case JArr(items) => items != []
    case JObj(fields) => fields != []
  }

  lemma FalsyAre(j: Json)
    ensures !Truthy(j) <==>
              j == JNull || j == JBool(false) || j == JNum(0) || j == JStr("") || j == JArr([]) || j == JObj([])
  {
  }

  /** `a or b`. */
  function Or(a: Json, b: Json): Json {
    if Truthy(a) then a else b
  }

  /** `fields.get(key, default)`. */
  function Get(fields: seq<(string, Json)>, key: string, default: Json := JNull): Json {
    if fields == [] then default
    else if fields[0].0 == key then fields[0].1
    else Get(fields[1..], key, default)
  }

  /** A finding; the title only matters for messages. */
  datatype Finding = Finding(name: Json, severity: Json, advisory: Json)

  /** The script ends with an exception, and so with a non-zero exit code. */
  datatype Crash = Crash

  // ----- the advisories form --------------------------------------------------------------

  /** `(advisory.get("cves") or [None])[0]` */
  function FirstCve(cves: Json): Option<Json> {
    if !Truthy(cves) then Some(JNull)
    else match cves
      case JArr(items) => Some(items[0])
      case JStr(s) => Some(JStr(s[..1]))
      case _ => None
  }

  /** `str(advisory["id"])`, unless the id is null. `show` renders a value that is not a string. */
  function IdText(id: Json, show: Json -> string): Json {
    match id
    case JNull => JNull
    case JStr(s) => JStr(s)
    case _ => JStr(show(id))
  }

  function PickAdvisoryId(a: seq<(string, Json)>, show: Json -> string): Option<Json> {
    var first := Or(Get(a, "github_advisory_id"), Get(a, "url"));
    if Truthy(first) then Some(first)
    else
      var cve := FirstCve(Get(a, "cves"));
      if cve.None? then None
      else Some(Or(cve.value, Or(IdText(Get(a, "id"), show),
             Or(Get(a, "title"), Or(Get(a, "advisory"), Get(a, "overview"))))))
  }

  function AdvisoryFinding(advisory: Json, show: Json -> string): Option<Finding> {
    if !advisory.JObj? then None
    else
      var a := advisory.fields;
      var id := PickAdvisoryId(a, show);
      if id.None? then None
      else Some(Finding(Or(Get(a, "module_name"), Get(a, "name")), Get(a, "severity"), id.value))
  }

  // ----- the vulnerabilities form ---------------------------------------------------------

  function ViaAdvisory(item: Json): Option<Json> {
    match item
    case JObj(f) =>
      Some(Or(Get(f, "github_advisory_id"), Or(Get(f, "url"), Or(Get(f, "source"), Or(Get(f, "title"), Get(f, "name"))))))
    case JStr(_) => Some(item)
    case _ => None
  }

  function ViaTitle(item: Json): Option<Json> {
    match item
    case JObj(f) => Some(Or(Get(f, "title"), Or(Get(f, "url"), Or(Get(f, "advisory"), Get(f, "source")))))
    case JStr(_) => Some(item)
    case _ => None
  }

  /** The items that count: those of a list, or the one string. */
  function ViaItems(via: Json): seq<Json> {
    match via
    case JArr(items) => items
    case JStr(_) => [via]
    case _ => []
  }

  predicate Identified(item: Json) {
    ViaAdvisory(item).Some? && Truthy(ViaAdvisory(item).value)
  }

  /** Joining the titles raises on one that is neither empty nor a string. */
  predicate TitleJoins(item: Json) {
    ViaTitle(item).Some? && Truthy(ViaTitle(item).value) ==> ViaTitle(item).value.JStr?
  }

  function ViaFindings(name: string, severity: Json, items: seq<Json>): seq<Finding> {
    if items == [] then []
    else
      var n := |items| - 1;
      ViaFindings(name, severity, items[..n]) +
      (if Identified(items[n]) then [Finding(JStr(name), severity, ViaAdvisory(items[n]).value)] else [])
  }

  /** `vuln.get("via", [])`, item by item. */
  function Via(entry: (string, Json)): seq<Json> {
    if entry.1.JObj? then ViaItems(Get(entry.1.fields, "via", JArr([]))) else []
  }

  function VulnerabilityFindings(entry: (string, Json)): Option<seq<Finding>> {
    if !entry.1.JObj? then None
    else
      var items := Via(entry);
      if exists i | 0 <= i < |items| :: !TitleJoins(items[i]) then None
      else Some(ViaFindings(entry.0, Get(entry.1.fields, "severity"), items))
  }

  // ----- the whole report -----------------------------------------------------------------

  function AdvisoriesFindings(entries: seq<(string, Json)>, show: Json -> string): Option<seq<Finding>> {
    if entries == [] then Some([])
    else
      var n := |entries| - 1;
      var init, last := AdvisoriesFindings(entries[..n], show), AdvisoryFinding(entries[n].1, show);
      if init.None? || last.None? then None else Some(init.value + [last.value])
  }

  function VulnerabilitiesFindings(entries: seq<(string, Json)>): Option<seq<Finding>> {
    if entries == [] then Some([])
    else
      var n := |entries| - 1;
      var init, last := VulnerabilitiesFindings(entries[..n]), VulnerabilityFindings(entries[n]);
      if init.None? || last.None? then None else Some(init.value + last.value)
  }

  /** The entries of a section, if it is there and is an object. */
  function Section(data: seq<(string, Json)>, key: string): seq<(string, Json)> {
    if Get(data, key).JObj? then Get(data, key).fields else []
  }

  /** All findings in order, or none if extracting them raises. */
  function Findings(data: Json, show: Json -> string): Option<seq<Finding>> {
    if !data.JObj? then None
    else
      var a := AdvisoriesFindings(Section(data.fields, "advisories"), show);
      var v := VulnerabilitiesFindings(Section(data.fields, "vulnerabilities"));
      if a.None? || v.None? then None else Some(a.value + v.value)
  }

  method IterAdvisories(advisories: seq<(string, Json)>, show: Json -> string) returns (r: Option<seq<Finding>>)
    ensures r == AdvisoriesFindings(advisories, show)
  {
    var found: seq<Finding> := [];
    for i := 0 to |advisories|
      invariant AdvisoriesFindings(advisories[..i], show) == Some(found)
    {
      assert advisories[..i + 1][..i] == advisories[..i];
      var f := AdvisoryFinding(advisories[i].1, show);
      if f.None? {
        AdvisoriesCrash(advisories, i + 1, show);
        return None;
      }
      found := found + [f.value];
    }
    assert advisories[..|advisories|] == advisories;
    return Some(found);
  }

  method IterVulnerabilities(vulnerabilities: seq<(string, Json)>) returns (r: Option<seq<Finding>>)
    ensures r == VulnerabilitiesFindings(vulnerabilities)
  {
    var found: seq<Finding> := [];
    for i := 0 to |vulnerabilities|
      invariant VulnerabilitiesFindings(vulnerabilities[..i]) == Some(found)
    {
      assert vulnerabilities[..i + 1][..i] == vulnerabilities[..i];
      var fs := IterVulnerability(vulnerabilities[i]);
      if fs.None? {
        VulnerabilitiesCrash(vulnerabilities, i + 1);
        return None;
      }
      found := found + fs.value;
    }
    assert vulnerabilities[..|vulnerabilities|] == vulnerabilities;
    return Some(found);
  }

  method IterVulns(data: Json, show: Json -> string) returns (r: Option<seq<Finding>>)
    ensures r == Findings(data, show)
  {
    if !data.JObj? {
      return None;
    }
    var a := IterAdvisories(Section(data.fields, "advisories"), show);
    if a.None? {
      return None;
    }
    var v := IterVulnerabilities(Section(data.fields, "vulnerabilities"));
    return if v.None? then None else Some(a.value + v.value);
  }

  method IterVulnerability(entry: (string, Json)) returns (r: Option<seq<Finding>>)
    ensures r == VulnerabilityFindings(entry)
  {
    if !entry.1.JObj? {
      return None;
    }
    var severity := Get(entry.1.fields, "severity");
    var items := Via(entry);
    for i := 0 to |items|
      invariant forall j | 0 <= j < i :: TitleJoins(items[j])
    {
      if !TitleJoins(items[i]) {
        return None;
      }
    }
    var found := [];
    for i := 0 to |items|
      invariant found == ViaFindings(entry.0, severity, items[..i])
    {
      assert items[..i + 1][..i] == items[..i];
      var advisory := ViaAdvisory(items[i]);
      if advisory.Some? && Truthy(advisory.value) {
        found := found + [Finding(JStr(entry.0), severity, advisory.value)];
      }
    }
    assert items[..|items|] == items;
    return Some(found);
  }

  lemma {:induction false} AdvisoriesCrash(entries: seq<(string, Json)>, i: nat, show: Json -> string)
    requires i <= |entries| && AdvisoriesFindings(entries[..i], show).None?
    ensures AdvisoriesFindings(entries, show).None?
  {
    if i < |entries| {
      assert entries[..|entries| - 1][..i] == entries[..i];
      AdvisoriesCrash(entries[..|entries| - 1], i, show);
    } else {
      assert entries[..i] == entries;
    }
  }

  lemma {:induction false} VulnerabilitiesCrash(entries: seq<(string, Json)>, i: nat)
    requires i <= |entries| && VulnerabilitiesFindings(entries[..i]).None?
    ensures VulnerabilitiesFindings(entries).None?
  {
    if i < |entries| {
      assert entries[..|entries| - 1][..i] == entries[..i];
      VulnerabilitiesCrash(entries[..|entries| - 1], i);
    } else {
      assert entries[..i] == entries;
    }
  }

  // ----- which identifier is taken --------------------------------------------------------

  /** `picked` is the first candidate that is not empty, and empty if they all are. */
  ghost predicate FirstNonEmpty(picked: Json, candidates: seq<Json>) {
    if Truthy(picked) then
      exists k | 0 <= k < |candidates| :: picked == candidates[k] && forall j | 0 <= j < k :: !Truthy(candidates[j])
    else
      forall j | 0 <= j < |candidates| :: !Truthy(candidates[j])
  }

  lemma OrTakesFirst(a: Json, b: Json, rest: seq<Json>)
    requires FirstNonEmpty(b, rest)
    ensures FirstNonEmpty(Or(a, b), [a] + rest)
  {
    var all := [a] + rest;
    assert forall j | 1 <= j < |all| :: all[j] == rest[j - 1];
    if Truthy(a) {
      assert all[0] == a;
    } else if Truthy(b) {
      var k :| 0 <= k < |rest| && b == rest[k] && forall j | 0 <= j < k :: !Truthy(rest[j]);
      assert all[k + 1] == b;
    }
  }

  lemma OrTakesLast(a: Json)
    ensures FirstNonEmpty(a, [a])
  {
    assert [a][0] == a;
  }

  lemma OrOfFive(a: Json, b: Json, c: Json, d: Json, e: Json)
    ensures FirstNonEmpty(Or(a, Or(b, Or(c, Or(d, e)))), [a, b, c, d, e])
  {
    OrTakesLast(e);
    OrTakesFirst(d, e, [e]);
    OrTakesFirst(c, Or(d, e), [d] + [e]);
    OrTakesFirst(b, Or(c, Or(d, e)), [c] + ([d] + [e]));
    OrTakesFirst(a, Or(b, Or(c, Or(d, e))), [b] + ([c] + ([d] + [e])));
    assert [a] + ([b] + ([c] + ([d] + [e]))) == [a, b, c, d, e];
  }

  lemma OrOfSeven(x: Json, y: Json, a: Json, b: Json, c: Json, d: Json, e: Json)
    ensures FirstNonEmpty(Or(x, Or(y, Or(a, Or(b, Or(c, Or(d, e)))))), [x, y] + [a, b, c, d, e])
  {
    OrOfFive(a, b, c, d, e);
    TwoMore(x, y, Or(a, Or(b, Or(c, Or(d, e)))), [a, b, c, d, e]);
  }

  lemma TwoMore(x: Json, y: Json, picked: Json, rest: seq<Json>)
    requires FirstNonEmpty(picked, rest)
    ensures FirstNonEmpty(Or(x, Or(y, picked)), [x, y] + rest)
  {
    OrTakesFirst(y, picked, rest);
    OrTakesFirst(x, Or(y, picked), [y] + rest);
    assert [x] + ([y] + rest) == [x, y] + rest;
  }

  /** The first CVE of a list or text of them, null if there are none; anything else is malformed and raises. */
  ghost predicate IsFirstCve(cves: Json, cve: Option<Json>) {
    match cves
    case JArr(items) => cve == Some(if items == [] then JNull else items[0])
    case JStr(s) => cve == Some(if s == "" then JNull else JStr([s[0]]))
    case _ => if Truthy(cves) then cve == None else cve == Some(JNull)
  }

  /** An id as text, null if there is none. */
  ghost predicate IsIdText(id: Json, show: Json -> string, text: Json) {
    text == if id.JNull? || id.JStr? then id else JStr(show(id))
  }

  /** The identifiers of an advisory that are looked at: malformed CVEs hide what comes after them. */
  function Identifiers(a: seq<(string, Json)>, cve: Option<Json>, idText: Json): seq<Json> {
    [Get(a, "github_advisory_id"), Get(a, "url")] +
    (if cve.None? then []
     else [cve.value, idText, Get(a, "title"), Get(a, "advisory"), Get(a, "overview")])
  }

  /**
   The advisory id is the first of the identifiers given, the stable ones before the descriptive ones.
   Malformed CVEs raise exactly when neither a GHSA id nor a URL comes before them.
   */
  lemma {:induction false} PicksFirstIdentifier(a: seq<(string, Json)>, show: Json -> string, cve: Option<Json>,
                                                idText: Json)
    requires IsFirstCve(Get(a, "cves"), cve) && IsIdText(Get(a, "id"), show, idText)
    ensures PickAdvisoryId(a, show).None? <==>
            cve.None? && !Truthy(Get(a, "github_advisory_id")) && !Truthy(Get(a, "url"))
    ensures PickAdvisoryId(a, show).Some? ==> FirstNonEmpty(PickAdvisoryId(a, show).value, Identifiers(a, cve, idText))
  {
    var g, u := Get(a, "github_advisory_id"), Get(a, "url");
    FirstCveIs(Get(a, "cves"), cve);
    assert IdText(Get(a, "id"), show) == idText;
    if cve.Some? {
      OrOfSeven(g, u, cve.value, idText, Get(a, "title"), Get(a, "advisory"), Get(a, "overview"));
    } else {
      OrTakesLast(u);
      OrTakesFirst(g, u, [u]);
      assert [g] + [u] == [g, u] && [g, u] + [] == [g, u];
    }
  }

  lemma FirstCveIs(cves: Json, cve: Option<Json>)
    requires IsFirstCve(cves, cve)
    ensures FirstCve(cves) == cve
  {
    if cves.JStr? && cves.s != "" {
      assert cves.s[..1] == [cves.s[0]];
    }
  }

  /**
   An advisory's finding, from its own fields: named by the first of two names that is not empty, of its
   own severity, and with the identifier above. There is none exactly when the advisory is not an object
   or picking the identifier raises.
   */
  lemma {:induction false} AdvisoryFindingIs(a: seq<(string, Json)>, show: Json -> string, cve: Option<Json>,
                                             idText: Json)
    requires IsFirstCve(Get(a, "cves"), cve) && IsIdText(Get(a, "id"), show, idText)
    ensures AdvisoryFinding(JObj(a), show).None? <==>
            cve.None? && !Truthy(Get(a, "github_advisory_id")) && !Truthy(Get(a, "url"))
    ensures AdvisoryFinding(JObj(a), show).Some? ==>
              var f := AdvisoryFinding(JObj(a), show).value;
              && FirstNonEmpty(f.name, [Get(a, "module_name"), Get(a, "name")])
              && f.severity == Get(a, "severity")
              && FirstNonEmpty(f.advisory, Identifiers(a, cve, idText))
    ensures forall j: Json | !j.JObj? :: AdvisoryFinding(j, show).None?
  {
    PicksFirstIdentifier(a, show, cve, idText);
    OrOfTwo(Get(a, "module_name"), Get(a, "name"));
  }

  lemma OrOfTwo(a: Json, b: Json)
    ensures FirstNonEmpty(Or(a, b), [a, b])
  {
    OrTakesLast(b);
    OrTakesFirst(a, b, [b]);
    assert [a] + [b] == [a, b];
  }

  /** A field is the value of its key's first entry, or the default. */
  lemma {:induction false} GetFinds(fields: seq<(string, Json)>, key: string, default: Json)
    ensures (forall i | 0 <= i < |fields| :: fields[i].0 != key) ==> Get(fields, key, default) == default
    ensures forall i | 0 <= i < |fields| && fields[i].0 == key && (forall j | 0 <= j < i :: fields[j].0 != key) ::
              Get(fields, key, default) == fields[i].1
  {
    if fields != [] {
      GetFinds(fields[1..], key, default);
      forall i | 0 <= i < |fields| && fields[i].0 == key && (forall j | 0 <= j < i :: fields[j].0 != key)
        ensures Get(fields, key, default) == fields[i].1
      {
        if i > 0 {
          assert fields[1..][i - 1] == fields[i];
          assert forall j | 0 <= j < i - 1 :: fields[1..][j] == fields[j + 1];
        }
      }
    }
  }

  /** And so it is for an item of the vulnerabilities form. */
  lemma {:induction false} PicksFirstViaIdentifier(f: seq<(string, Json)>)
    ensures ViaAdvisory(JObj(f)).Some?
    ensures FirstNonEmpty(ViaAdvisory(JObj(f)).value,
                          [Get(f, "github_advisory_id"), Get(f, "url"), Get(f, "source"), Get(f, "title"), Get(f, "name")])
  {
    OrOfFive(Get(f, "github_advisory_id"), Get(f, "url"), Get(f, "source"), Get(f, "title"), Get(f, "name"));
  }

  /** The identifiers of a `via` item, in the order they are looked at. */
  function ItemIdentifiers(item: Json): seq<Json> {
    match item
    case JObj(f) =>
      [Get(f, "github_advisory_id"), Get(f, "url"), Get(f, "source"), Get(f, "title"), Get(f, "name")]
    case JStr(_) => [item]
    case _ => []
  }

  function ItemTitles(item: Json): seq<Json> {
    match item
    case JObj(f) => [Get(f, "title"), Get(f, "url"), Get(f, "advisory"), Get(f, "source")]
    case JStr(_) => [item]
    case _ => []
  }

  ghost predicate HasIdentifier(item: Json) {
    exists k | 0 <= k < |ItemIdentifiers(item)| :: Truthy(ItemIdentifiers(item)[k])
  }

  /** The first title that is not empty is not a string. */
  ghost predicate BadTitle(item: Json) {
    exists picked: Json :: FirstNonEmpty(picked, ItemTitles(item)) && Truthy(picked) && !picked.JStr?
  }

  lemma FirstIsUnique(a: Json, b: Json, candidates: seq<Json>)
    requires FirstNonEmpty(a, candidates) && FirstNonEmpty(b, candidates) && Truthy(a)
    ensures a == b
  {
    var k :| 0 <= k < |candidates| && a == candidates[k] && forall j | 0 <= j < k :: !Truthy(candidates[j]);
    var l :| 0 <= l < |candidates| && b == candidates[l] && forall j | 0 <= j < l :: !Truthy(candidates[j]);
    assert k <= l && l <= k;
  }

  lemma PickedIsTruthyIff(picked: Json, candidates: seq<Json>)
    requires FirstNonEmpty(picked, candidates)
    ensures Truthy(picked) <==> exists k | 0 <= k < |candidates| :: Truthy(candidates[k])
  {
  }

  lemma ItemIsIdentified(item: Json)
    ensures Identified(item) <==> HasIdentifier(item)
    ensures Identified(item) ==> FirstNonEmpty(ViaAdvisory(item).value, ItemIdentifiers(item))
  {
    match item {
      case JObj(f) =>
        PicksFirstViaIdentifier(f);
        PickedIsTruthyIff(ViaAdvisory(item).value, ItemIdentifiers(item));
      case JStr(_) =>
        OrTakesLast(item);
        assert ItemIdentifiers(item)[0] == item;
      case _ =>
    }
  }

  lemma ItemTitleJoins(item: Json)
    ensures TitleJoins(item) <==> !BadTitle(item)
  {
    match item {
      case JObj(f) =>
        OrOfFour(Get(f, "title"), Get(f, "url"), Get(f, "advisory"), Get(f, "source"));
        OnlyTitle(ViaTitle(item).value, item);
      case JStr(_) =>
        OrTakesLast(item);
        OnlyTitle(item, item);
      case _ =>
    }
  }

  lemma OnlyTitle(title: Json, item: Json)
    requires FirstNonEmpty(title, ItemTitles(item))
    ensures BadTitle(item) <==> Truthy(title) && !title.JStr?
  {
    if picked: Json :| FirstNonEmpty(picked, ItemTitles(item)) && Truthy(picked) && !picked.JStr? {
      FirstIsUnique(picked, title, ItemTitles(item));
    }
  }

  lemma OrOfFour(a: Json, b: Json, c: Json, d: Json)
    ensures FirstNonEmpty(Or(a, Or(b, Or(c, d))), [a, b, c, d])
  {
    OrOfTwo(c, d);
    TwoMore(a, b, Or(c, d), [c, d]);
    assert [a, b] + [c, d] == [a, b, c, d];
  }

  /**
   The findings are those of the items at the positions `at`: in order, one for each item that has an
   identifier, with the first of its identifiers that is not empty.
   */
  ghost predicate ExaminedInOrder(name: string, severity: Json, items: seq<Json>, fs: seq<Finding>, at: seq<nat>) {
    && |at| == |fs| && IdentifiedAt(items, at)
    && forall k | 0 <= k < |fs| :: at[k] < |items| && ItemFinding(name, severity, items[at[k]], fs[k])
  }

  /** The positions of the items that have an identifier, in order. */
  ghost predicate IdentifiedAt(items: seq<Json>, at: seq<nat>) {
    && (forall k, l | 0 <= k < l < |at| :: at[k] < at[l])
    && (forall i: nat :: i in at <==> i < |items| && HasIdentifier(items[i]))
  }

  ghost predicate ItemFinding(name: string, severity: Json, item: Json, f: Finding) {
    f.name == JStr(name) && f.severity == severity && FirstNonEmpty(f.advisory, ItemIdentifiers(item))
  }

  lemma OneMorePosition(items: seq<Json>, at: seq<nat>)
    requires items != [] && IdentifiedAt(items[..|items| - 1], at)
    ensures IdentifiedAt(items, if HasIdentifier(items[|items| - 1]) then at + [|items| - 1] else at)
  {
    var n := |items| - 1;
    assert forall k | 0 <= k < |at| :: at[k] in at;
    forall i: nat ensures i in at <==> i < n && HasIdentifier(items[i]) {
      if i < n { assert items[..n][i] == items[i]; }
    }
    assert forall i: nat :: i in at + [n] <==> i in at || i == n;
  }

  lemma {:induction false} ItemsExamined(name: string, severity: Json, items: seq<Json>) returns (at: seq<nat>)
    ensures ExaminedInOrder(name, severity, items, ViaFindings(name, severity, items), at)
  {
    at := [];
    if items != [] {
      var n := |items| - 1;
      var before := ItemsExamined(name, severity, items[..n]);
      ItemIsIdentified(items[n]);
      var id := if Identified(items[n]) then [ViaAdvisory(items[n]).value] else [];
      OneMoreExamined(name, severity, items, ViaFindings(name, severity, items[..n]), before, id);
      at := if Identified(items[n]) then before + [n] else before;
    }
  }

  /** One more item, with the identifier picked from it, if any. */
  lemma OneMoreExamined(name: string, severity: Json, items: seq<Json>, fs: seq<Finding>, at: seq<nat>, id: seq<Json>)
    requires items != [] && ExaminedInOrder(name, severity, items[..|items| - 1], fs, at)
    requires if HasIdentifier(items[|items| - 1]) then |id| == 1 && FirstNonEmpty(id[0], ItemIdentifiers(items[|items| - 1]))
             else id == []
    ensures var n := |items| - 1;
            if id == [] then ExaminedInOrder(name, severity, items, fs, at)
            else ExaminedInOrder(name, severity, items, fs + [Finding(JStr(name), severity, id[0])], at + [n])
  {
    var n := |items| - 1;
    OneMorePosition(items, at);
    forall k | 0 <= k < |fs| ensures at[k] < n && ItemFinding(name, severity, items[at[k]], fs[k]) {
      assert items[..n][at[k]] == items[at[k]];
    }
    if id != [] {
      assert ItemFinding(name, severity, items[n], Finding(JStr(name), severity, id[0]));
    }
  }

  // ----- which entries are examined -------------------------------------------------------

  /** An advisory always yields one finding of its own, even without any identifier. */
  lemma {:induction false} EveryAdvisoryIsExamined(entries: seq<(string, Json)>, show: Json -> string, i: nat)
    requires AdvisoriesFindings(entries, show).Some? && i < |entries|
    ensures var fs := AdvisoriesFindings(entries, show).value;
            |fs| == |entries| && AdvisoryFinding(entries[i].1, show) == Some(fs[i])
  {
    var n := |entries| - 1;
    if i < n {
      EveryAdvisoryIsExamined(entries[..n], show, i);
    } else if n > 0 {
      EveryAdvisoryIsExamined(entries[..n], show, 0);
    }
  }

  lemma {:induction false} ViaFindingsMeaning(name: string, severity: Json, items: seq<Json>, f: Finding)
    ensures f in ViaFindings(name, severity, items) <==>
            exists i | 0 <= i < |items| :: Identified(items[i]) && f == Finding(JStr(name), severity, ViaAdvisory(items[i]).value)
  {
    if items != [] {
      var n := |items| - 1;
      ViaFindingsMeaning(name, severity, items[..n], f);
      assert forall i | 0 <= i < n :: items[..n][i] == items[i];
    }
  }

  /**
   An entry of the vulnerabilities form is examined exactly when one of its `via` items has an
   identifier. Without one it yields nothing, whatever its severity.
   */
  lemma VulnerabilityIsExaminedIff(entry: (string, Json))
    requires VulnerabilityFindings(entry).Some?
    ensures VulnerabilityFindings(entry).value != [] <==>
            exists item | item in Via(entry) :: Identified(item)
    ensures forall f | f in VulnerabilityFindings(entry).value ::
              f.name == JStr(entry.0) && f.severity == Get(entry.1.fields, "severity") && Truthy(f.advisory)
  {
    var items := Via(entry);
    var fs, severity := VulnerabilityFindings(entry).value, Get(entry.1.fields, "severity");
    if fs != [] {
      ViaFindingsMeaning(entry.0, severity, items, fs[0]);
      var i :| 0 <= i < |items| && Identified(items[i]);
      assert items[i] in items;
    }
    if item :| item in items && Identified(item) {
      var i :| 0 <= i < |items| && items[i] == item;
      ViaFindingsMeaning(entry.0, severity, items, Finding(JStr(entry.0), severity, ViaAdvisory(items[i]).value));
    }
    forall f | f in fs ensures f.name == JStr(entry.0) && f.severity == severity && Truthy(f.advisory) {
      ViaFindingsMeaning(entry.0, severity, items, f);
    }
  }

  /**
   A list under `via`: joining the titles raises exactly when the first title of some item is not a string;
   otherwise the items with an identifier are the findings, in order.
   */
  lemma ViaListIsExamined(entry: (string, Json), fields: seq<(string, Json)>, items: seq<Json>) returns (at: seq<nat>)
    requires entry.1 == JObj(fields) && Get(fields, "via", JArr([])) == JArr(items)
    ensures VulnerabilityFindings(entry).None? <==> exists i | 0 <= i < |items| :: BadTitle(items[i])
    ensures VulnerabilityFindings(entry).Some? ==>
              ExaminedInOrder(entry.0, Get(fields, "severity"), items, VulnerabilityFindings(entry).value, at)
  {
    at := ItemsExamined(entry.0, Get(fields, "severity"), items);
    forall i | 0 <= i < |items| ensures TitleJoins(items[i]) <==> !BadTitle(items[i]) {
      ItemTitleJoins(items[i]);
    }
  }

  lemma {:induction false} OneItemExamined(name: string, severity: Json, item: Json)
    ensures ViaFindings(name, severity, [item]) ==
            if Identified(item) then [Finding(JStr(name), severity, ViaAdvisory(item).value)] else []
  {
    assert [item][..0] == [] && ViaFindings(name, severity, [item][..0]) == [];
  }

  /** A text under `via` is one finding unless it is empty; anything else there is none. */
  lemma {:induction false} OtherViaIsExamined(entry: (string, Json), fields: seq<(string, Json)>)
    requires entry.1 == JObj(fields) && !Get(fields, "via", JArr([])).JArr?
    ensures VulnerabilityFindings(entry) ==
            match Get(fields, "via", JArr([]))
            case JStr(s) => Some(if s == "" then [] else [Finding(JStr(entry.0), Get(fields, "severity"), JStr(s))])
            case _ => Some([])
  {
    var via, severity := Get(fields, "via", JArr([])), Get(fields, "severity");
    if via.JStr? {
      OneItemExamined(entry.0, severity, via);
      assert Via(entry) == [via] && TitleJoins(via);
    }
  }

  /** The findings of the report are those of its entries, each entry's own. */
  lemma {:induction false} VulnerabilityFindingsCollected(entries: seq<(string, Json)>, f: Finding)
    requires VulnerabilitiesFindings(entries).Some?
    ensures f in VulnerabilitiesFindings(entries).value <==>
            exists i | 0 <= i < |entries| :: VulnerabilityFindings(entries[i]).Some? && f in VulnerabilityFindings(entries[i]).value
  {
    if entries != [] {
      VulnerabilityFindingsCollected(entries[..|entries| - 1], f);
    }
  }

  /**
   Entries are examined one after the other: the findings of a list of them are those of any first part,
   then those of the rest, and none at all if some entry's raise.
   */
  lemma {:induction false} EntriesAreExaminedInOrder(a: seq<(string, Json)>, b: seq<(string, Json)>)
    ensures VulnerabilitiesFindings(a + b) == Both(VulnerabilitiesFindings(a), VulnerabilitiesFindings(b))
    ensures |a| == 1 ==> VulnerabilitiesFindings(a) == VulnerabilityFindings(a[0])
  {
    if |a| == 1 {
      BothWithNone(VulnerabilityFindings(a[0]));
      assert a[..0] == [] && VulnerabilitiesFindings(a[..0]) == Some([]);
    }
    if b == [] {
      assert a + b == a;
      BothWithNone(VulnerabilitiesFindings(a));
    } else {
      var n := |b| - 1;
      assert (a + b)[..|a| + n] == a + b[..n] && (a + b)[|a| + n] == b[n];
      EntriesAreExaminedInOrder(a, b[..n]);
      BothThree(VulnerabilitiesFindings(a), VulnerabilitiesFindings(b[..n]), VulnerabilityFindings(b[n]));
      assert VulnerabilitiesFindings(b) == Both(VulnerabilitiesFindings(b[..n]), VulnerabilityFindings(b[n]));
    }
  }

  /** One list of findings after the other, unless extracting either raises. */
  function Both(x: Option<seq<Finding>>, y: Option<seq<Finding>>): Option<seq<Finding>> {
    if x.Some? && y.Some? then Some(x.value + y.value) else None
  }

  lemma BothWithNone(x: Option<seq<Finding>>)
    ensures Both(x, Some([])) == x == Both(Some([]), x)
  {
    if x.Some? {
      assert x.value + [] == x.value == [] + x.value;
    }
  }

  lemma BothThree(x: Option<seq<Finding>>, y: Option<seq<Finding>>, z: Option<seq<Finding>>)
    ensures Both(Both(x, y), z) == Both(x, Both(y, z))
  {
    if x.Some? && y.Some? && z.Some? {
      assert x.value + y.value + z.value == x.value + (y.value + z.value);
    }
  }

  /** Of the advisories likewise: extracting raises exactly if it does for one of them. */
  lemma {:induction false} AdvisoriesRaiseIff(entries: seq<(string, Json)>, show: Json -> string)
    ensures AdvisoriesFindings(entries, show).None? <==>
            exists i | 0 <= i < |entries| :: AdvisoryFinding(entries[i].1, show).None?
  {
    if entries != [] {
      AdvisoriesRaiseIff(entries[..|entries| - 1], show);
    }
  }

  /** The two sections of the report, each counted only if it is an object. */
  lemma {:induction false} ReportIsExamined(data: seq<(string, Json)>, show: Json -> string)
    ensures var a, v := Get(data, "advisories"), Get(data, "vulnerabilities");
            var fromA := if a.JObj? then AdvisoriesFindings(a.fields, show) else Some([]);
            var fromV := if v.JObj? then VulnerabilitiesFindings(v.fields) else Some([]);
            Findings(JObj(data), show) == Both(fromA, fromV)
    ensures forall j: Json | !j.JObj? :: Findings(j, show).None?
  {
  }
}
