/** Whether the order of exceptions and findings matters to the gate, and what its verdict covers. */
module AuditOrder {
  import opened Wrappers
  import opened PyText
  import opened AuditReport
  import opened AuditGate
  import opened AuditVerdict
  import opened AuditExceptions

  // ----- the exceptions -------------------------------------------------------------------

  /** Distinct keys, said without positions. */
  ghost predicate KeysDistinct(exceptions: seq<Dict>) {
    && (forall e | e in exceptions :: multiset(exceptions)[e] == 1)
    && (forall d, e | d in exceptions && e in exceptions && d != e :: ExcKey(d) != ExcKey(e))
  }

  lemma OccursTwice<T>(s: seq<T>, i: nat, j: nat)
    requires i < j < |s| && s[i] == s[j]
    ensures multiset(s)[s[i]] >= 2
  {
    assert s == s[..j] + [s[j]] + s[j + 1..];
    assert s[i] in s[..j];
    assert s[i] in multiset(s[..j]);
  }

  lemma DistinctKeysMean(exceptions: seq<Dict>)
    requires Distinct(Keys(exceptions))
    ensures KeysDistinct(exceptions)
  {
    assert Distinct(exceptions) by {
      assert forall i | 0 <= i < |exceptions| :: Keys(exceptions)[i] == ExcKey(exceptions[i]);
    }
    forall e | e in exceptions ensures multiset(exceptions)[e] == 1 {
      DistinctCount(exceptions, e);
    }
    forall d, e | d in exceptions && e in exceptions && d != e ensures ExcKey(d) != ExcKey(e) {
      var i, j :| 0 <= i < |exceptions| && 0 <= j < |exceptions| && exceptions[i] == d && exceptions[j] == e;
      assert i < j || j < i;
      assert Keys(exceptions)[i] == ExcKey(d) && Keys(exceptions)[j] == ExcKey(e);
    }
  }

  lemma DistinctKeysFrom(exceptions: seq<Dict>)
    requires KeysDistinct(exceptions)
    ensures Distinct(Keys(exceptions))
  {
    forall i, j | 0 <= i < j < |exceptions| ensures Keys(exceptions)[i] != Keys(exceptions)[j] {
      var d, e := exceptions[i], exceptions[j];
      assert d in exceptions && e in exceptions;
      if d == e {
        OccursTwice(exceptions, i, j);
      }
    }
  }

  /** The verdict does not depend on the order of the exception records. */
  lemma ExceptionOrderIsIrrelevant(w: World, a: seq<Dict>, b: seq<Dict>, findings: seq<Finding>)
    requires multiset(a) == multiset(b)
    ensures Accepted(w, a, findings) <==> Accepted(w, b, findings)
  {
    SameBag(a, b);
    assert KeysDistinct(a) <==> KeysDistinct(b);
    if Distinct(Keys(a)) {
      DistinctKeysMean(a);
      DistinctKeysFrom(b);
    }
    if Distinct(Keys(b)) {
      DistinctKeysMean(b);
      DistinctKeysFrom(a);
    }
    forall key: Key, severity ensures Covered(w, a, key, severity) <==> Covered(w, b, key, severity) { }
  }

  // ----- the findings ---------------------------------------------------------------------

  /** A finding that would be all right as the first of its key. */
  ghost predicate Matches(w: World, exceptions: seq<Dict>, f: Finding) {
    && Severity(f).Some?
    && (Relevant(f) ==> FindingKey(w, f).1 != "" && Covered(w, exceptions, FindingKey(w, f), Severity(f).value))
  }

  lemma MovedToFront<T>(s: seq<T>, i: nat)
    requires i < |s|
    ensures multiset([s[i]] + s[..i] + s[i + 1..]) == multiset(s)
  {
    assert s == s[..i] + [s[i]] + s[i + 1..];
  }

  lemma AcceptedIfAllMatch(w: World, exceptions: seq<Dict>, findings: seq<Finding>)
    requires ExceptionsOk(w, exceptions) && forall f | f in findings :: Matches(w, exceptions, f)
    ensures Accepted(w, exceptions, findings)
  {
    forall f | f in findings ensures FindingOk(w, exceptions, findings, f) {
      if Relevant(f) {
        FirstSeverityExists(w, findings, FindingKey(w, f));
        var g :| g in findings && Relevant(g) && FindingKey(w, g) == FindingKey(w, f) &&
                 Severity(g) == FirstSeverity(w, findings, FindingKey(w, f));
        assert Matches(w, exceptions, g);
      }
    }
  }

  /** Accepted in every order of the findings, exactly when every single finding matches its exception. */
  lemma AcceptedInEveryOrderIff(w: World, exceptions: seq<Dict>, findings: seq<Finding>)
    ensures (forall order: seq<Finding> | multiset(order) == multiset(findings) :: Accepted(w, exceptions, order)) <==>
            ExceptionsOk(w, exceptions) && forall f | f in findings :: Matches(w, exceptions, f)
  {
    if ExceptionsOk(w, exceptions) && forall f | f in findings :: Matches(w, exceptions, f) {
      forall order: seq<Finding> | multiset(order) == multiset(findings) ensures Accepted(w, exceptions, order) {
        SameBag(order, findings);
        AcceptedIfAllMatch(w, exceptions, order);
      }
    }
    if forall order: seq<Finding> | multiset(order) == multiset(findings) :: Accepted(w, exceptions, order) {
      assert Accepted(w, exceptions, findings);
      forall f | f in findings ensures Matches(w, exceptions, f) {
        var i :| 0 <= i < |findings| && findings[i] == f;
        var order := [f] + findings[..i] + findings[i + 1..];
        MovedToFront(findings, i);
        assert Accepted(w, exceptions, order);
        assert order[0] == f && f in order;
        assert FindingOk(w, exceptions, order, f);
      }
    }
  }

  /** Some relevant finding of the key matches its exception. */
  ghost predicate CanMatch(w: World, exceptions: seq<Dict>, findings: seq<Finding>, key: Key) {
    exists g | g in findings :: Relevant(g) && FindingKey(w, g) == key && Matches(w, exceptions, g)
  }

  /** Every relevant key has a finding that matches. */
  ghost predicate EachKeyCanMatch(w: World, exceptions: seq<Dict>, findings: seq<Finding>) {
    && (forall f | f in findings :: Severity(f).Some?)
    && forall f | f in findings && Relevant(f) :: CanMatch(w, exceptions, findings, FindingKey(w, f))
  }

  lemma {:induction false} PartitionIsAll<T>(s: seq<T>, p: T -> bool, q: T -> bool)
    requires forall x | x in s :: p(x) != q(x)
    ensures multiset(Filter(s, p) + Filter(s, q)) == multiset(s)
  {
    if s != [] {
      var n := |s| - 1;
      var init, last := s[..n], s[n];
      assert s == init + [last];
      PartitionIsAll(init, p, q);
      var a, b := Filter(init, p), Filter(init, q);
      assert last in s;
      if p(last) {
        assert multiset(a + [last] + b) == multiset(a) + multiset{last} + multiset(b);
      } else {
        assert multiset(a + (b + [last])) == multiset(a) + multiset(b) + multiset{last};
      }
      assert multiset(a + b) == multiset(a) + multiset(b);
    }
  }

  lemma {:induction false} FirstSeverityAppend(w: World, a: seq<Finding>, b: seq<Finding>, key: Key)
    ensures FirstSeverity(w, a + b, key) ==
            if FirstSeverity(w, a, key).Some? then FirstSeverity(w, a, key) else FirstSeverity(w, b, key)
  {
    if a == [] {
      assert a + b == b;
    } else {
      assert (a + b)[1..] == a[1..] + b;
      FirstSeverityAppend(w, a[1..], b, key);
    }
  }

  /** Accepted in some order of the findings, exactly when every relevant key has a finding that matches. */
  lemma AcceptedInSomeOrderIff(w: World, exceptions: seq<Dict>, findings: seq<Finding>)
    ensures (exists order: seq<Finding> :: multiset(order) == multiset(findings) && Accepted(w, exceptions, order)) <==>
            ExceptionsOk(w, exceptions) && EachKeyCanMatch(w, exceptions, findings)
  {
    if order: seq<Finding> :| multiset(order) == multiset(findings) && Accepted(w, exceptions, order) {
      SameBag(order, findings);
      forall f | f in findings && Relevant(f)
        ensures CanMatch(w, exceptions, findings, FindingKey(w, f))
      {
        assert FindingOk(w, exceptions, order, f);
        FirstSeverityExists(w, order, FindingKey(w, f));
        var g :| g in order && Relevant(g) && FindingKey(w, g) == FindingKey(w, f) &&
                 Severity(g) == FirstSeverity(w, order, FindingKey(w, f));
        assert Matches(w, exceptions, g);
      }
    }
    if ExceptionsOk(w, exceptions) && EachKeyCanMatch(w, exceptions, findings) {
      var order := MatchingFirst(w, exceptions, findings);
    }
  }

  /** With the findings satisfying `p` in front, the first of a key they have satisfies `p`. */
  lemma {:induction false} FrontDecides(w: World, findings: seq<Finding>, p: Finding -> bool, rest: seq<Finding>,
                                        key: Key)
    requires exists g | g in findings :: p(g) && Relevant(g) && FindingKey(w, g) == key
    ensures exists h | h in findings :: p(h) && Relevant(h) && FindingKey(w, h) == key &&
              Severity(h) == FirstSeverity(w, Filter(findings, p) + rest, key)
  {
    var front := Filter(findings, p);
    var g :| g in findings && p(g) && Relevant(g) && FindingKey(w, g) == key;
    assert g in front;
    FirstSeverityExists(w, front, key);
    FirstSeverityAppend(w, front, rest, key);
    var h :| h in front && Relevant(h) && FindingKey(w, h) == key && Severity(h) == FirstSeverity(w, front, key);
  }

  /** Some finding of the key matches and has the severity that decides. */
  ghost predicate MatchDecides(w: World, exceptions: seq<Dict>, findings: seq<Finding>, key: Key, first: Option<string>) {
    exists h | h in findings :: Matches(w, exceptions, h) && Relevant(h) && FindingKey(w, h) == key && Severity(h) == first
  }

  lemma {:induction false} AcceptedIfMatchesDecide(w: World, exceptions: seq<Dict>, findings: seq<Finding>,
                                                   order: seq<Finding>)
    requires multiset(order) == multiset(findings) && ExceptionsOk(w, exceptions)
    requires forall f | f in findings :: Severity(f).Some?
    requires forall f | f in findings && Relevant(f) ::
               MatchDecides(w, exceptions, findings, FindingKey(w, f), FirstSeverity(w, order, FindingKey(w, f)))
    ensures Accepted(w, exceptions, order)
  {
    SameBag(order, findings);
  }

  lemma {:induction false} FrontMatchDecides(w: World, exceptions: seq<Dict>, findings: seq<Finding>,
                                             p: Finding -> bool, rest: seq<Finding>, key: Key)
    requires forall f :: p(f) <==> Matches(w, exceptions, f)
    requires CanMatch(w, exceptions, findings, key)
    ensures MatchDecides(w, exceptions, findings, key, FirstSeverity(w, Filter(findings, p) + rest, key))
  {
    FrontDecides(w, findings, p, rest, key);
  }

  lemma {:induction false} FrontAccepted(w: World, exceptions: seq<Dict>, findings: seq<Finding>, p: Finding -> bool,
                                         q: Finding -> bool)
    requires ExceptionsOk(w, exceptions) && EachKeyCanMatch(w, exceptions, findings)
    requires forall f :: p(f) <==> Matches(w, exceptions, f)
    requires multiset(Filter(findings, p) + Filter(findings, q)) == multiset(findings)
    ensures Accepted(w, exceptions, Filter(findings, p) + Filter(findings, q))
  {
    var rest := Filter(findings, q);
    var order := Filter(findings, p) + rest;
    forall f | f in findings && Relevant(f)
      ensures MatchDecides(w, exceptions, findings, FindingKey(w, f), FirstSeverity(w, order, FindingKey(w, f)))
    {
      FrontMatchDecides(w, exceptions, findings, p, rest, FindingKey(w, f));
    }
    AcceptedIfMatchesDecide(w, exceptions, findings, order);
  }

  lemma MatchingFirst(w: World, exceptions: seq<Dict>, findings: seq<Finding>) returns (order: seq<Finding>)
    requires ExceptionsOk(w, exceptions) && EachKeyCanMatch(w, exceptions, findings)
    ensures multiset(order) == multiset(findings) && Accepted(w, exceptions, order)
  {
    var p: Finding -> bool, q: Finding -> bool := f => Matches(w, exceptions, f), f => !Matches(w, exceptions, f);
    PartitionIsAll(findings, p, q);
    FrontAccepted(w, exceptions, findings, p, q);
    order := Filter(findings, p) + Filter(findings, q);
  }

  /** If findings of the same key agree on severity, their order is irrelevant. */
  lemma FindingOrderIsIrrelevant(w: World, exceptions: seq<Dict>, a: seq<Finding>, b: seq<Finding>)
    requires multiset(a) == multiset(b)
    requires forall f, g | f in a && g in a && Relevant(f) && Relevant(g) && FindingKey(w, f) == FindingKey(w, g) ::
               Severity(f) == Severity(g)
    ensures Accepted(w, exceptions, a) <==> Accepted(w, exceptions, b)
  {
    SameBag(a, b);
    forall f | f in a && Relevant(f)
      ensures FirstSeverity(w, a, FindingKey(w, f)) == Severity(f) == FirstSeverity(w, b, FindingKey(w, f))
    {
      FirstSeverityExists(w, a, FindingKey(w, f));
      FirstSeverityExists(w, b, FindingKey(w, f));
    }
  }

  /** In general the first-seen rule does make order matter. */
  lemma FindingOrderMatters(w: World, exceptions: seq<Dict>, f: Finding, g: Finding)
    requires ExceptionsOk(w, exceptions) && Relevant(f) && Relevant(g) && FindingKey(w, f) == FindingKey(w, g)
    requires Matches(w, exceptions, f) && !Matches(w, exceptions, g)
    ensures Accepted(w, exceptions, [f, g]) && !Accepted(w, exceptions, [g, f])
  {
    var key := FindingKey(w, f);
    assert f in [f, g] && g in [g, f];
    assert FirstSeverity(w, [f, g], key) == Severity(f);
    assert FirstSeverity(w, [g, f], key) == Severity(g);
    assert !FindingOk(w, exceptions, [g, f], g);
    assert forall x | x in [f, g] :: x == f || x == g;
  }

  /** Trimmed lower-case text is normalised already. */
  lemma Normalised(s: string)
    requires Trimmed(s) && forall c | c in s :: !('A' <= c <= 'Z')
    ensures Lower(Strip(s)) == s && Strip(s) == s
  {
    StripTrims(s);
    LowerIsLower(s);
  }

  /** An exception for high findings of package p with advisory a, expiring on day d. */
  const HIGH_ONLY: Dict :=
    map["package" := "p", "advisory" := "a", "severity" := "high", "mitigation" := "m", "expires_on" := "d"]

  function Found(severity: string): Finding {
    Finding(JStr("p"), JStr(severity), JStr("a"))
  }

  lemma HighOnlyIs()
    ensures ExcKey(HIGH_ONLY) == ("p", "a") && ExcSeverity(HIGH_ONLY) == "high"
  {
    Normalised("p");
    Normalised("a");
    Normalised("high");
  }

  lemma HighOnlyComplete(w: World)
    requires w.parseDate("d") == Some(w.today)
    ensures Complete(HIGH_ONLY) && Expiry(w, HIGH_ONLY) == Some(w.today)
  {
  }

  lemma HighOnlyFits(w: World)
    requires w.parseDate("d") == Some(w.today)
    ensures ExceptionsOk(w, [HIGH_ONLY])
    ensures forall severity :: Covered(w, [HIGH_ONLY], ("p", "a"), severity) <==> severity == "high"
  {
    HighOnlyIs();
    HighOnlyComplete(w);
    assert WellFormed(w, HIGH_ONLY);
    assert HIGH_ONLY in [HIGH_ONLY] && |Keys([HIGH_ONLY])| == 1;
    assert ExceptionAccepts(w, HIGH_ONLY, ("p", "a"), "high");
  }

  /** A severity that matters, written plainly. */
  predicate Plain(severity: string) {
    Trimmed(severity) && (forall c | c in severity :: !('A' <= c <= 'Z')) && severity in HIGH_SEVERITIES
  }

  lemma FoundIs(w: World, severity: string)
    requires Plain(severity)
    ensures Severity(Found(severity)) == Some(severity) && Relevant(Found(severity))
    ensures FindingKey(w, Found(severity)) == ("p", "a")
  {
    Normalised("p");
    Normalised("a");
    Normalised(severity);
    assert severity != "";
  }

  lemma FoundMatchesIff(w: World, severity: string)
    requires w.parseDate("d") == Some(w.today)
    requires Plain(severity)
    ensures Matches(w, [HIGH_ONLY], Found(severity)) <==> severity == "high"
  {
    HighOnlyFits(w);
    FoundIs(w, severity);
  }

  /** One exception for high findings and two findings of its key: in one order accepted, in the other not. */
  lemma OrderExample(w: World, high: string, critical: string)
    requires w.parseDate("d") == Some(w.today) && high == "high" && critical == "critical"
    ensures Accepted(w, [HIGH_ONLY], [Found(high), Found(critical)])
    ensures !Accepted(w, [HIGH_ONLY], [Found(critical), Found(high)])
  {
    HighOnlyFits(w);
    FoundMatchesIff(w, high);
    FoundMatchesIff(w, critical);
    FoundOrder(w, HIGH_ONLY, high, critical);
  }

  lemma FoundOrder(w: World, e: Dict, x: string, y: string)
    requires ExceptionsOk(w, [e]) && Plain(x) && Plain(y)
    requires Matches(w, [e], Found(x)) && !Matches(w, [e], Found(y))
    ensures Accepted(w, [e], [Found(x), Found(y)]) && !Accepted(w, [e], [Found(y), Found(x)])
  {
    FoundIs(w, x);
    FoundIs(w, y);
    FindingOrderMatters(w, [e], Found(x), Found(y));
  }

  // ----- the whole script -----------------------------------------------------------------

  method RunGate(w: World, report: Json, exceptionFile: string) returns (code: int)
    ensures code == 0 || code == 1
    ensures code == 0 <==>
              && Parsed(ReadLines(exceptionFile)).Success? && Findings(report, w.show).Some?
              && Passed(w, Parsed(ReadLines(exceptionFile)).value, Findings(report, w.show).value)
  {
    var exceptions := ParseExceptions(ReadLines(exceptionFile));
    if exceptions.Failure? {
      return 1;
    }
    var findings := IterVulns(report, w.show);
    if findings.Some? {
      AcceptedIff(w, exceptions.value, findings.value);
    }
    code := Gate(w, exceptions.value, findings);
  }

  /** An accepted finding that matters has its exception, unexpired. */
  lemma PassedIsCurrent(w: World, exceptions: seq<Dict>, findings: seq<Finding>, f: Finding)
    requires Passed(w, exceptions, findings) && f in findings && Matters(f)
    ensures exists e | e in exceptions :: Current(w, e, f)
  {
    var i :| 0 <= i < |findings| && findings[i] == f;
    assert FindingPasses(w, exceptions, findings, i);
    var k: nat :| IsFirst(w, findings, i, k) && Granted(w, exceptions, findings[k]);
    var e :| e in exceptions && Grants(w, e, findings[k]);
    LikeIsCurrent(w, e, findings[k], f);
  }

  lemma LikeIsCurrent(w: World, e: Dict, g: Finding, f: Finding)
    requires Current(w, e, g) && SameFinding(w, g, f)
    ensures Current(w, e, f)
  {
    LowerMeetsIff(Strip(e["advisory"]), Words(w, g.advisory));
    LowerMeetsIff(Words(w, g.advisory), Words(w, f.advisory));
    LowerMeetsIff(Strip(e["advisory"]), Words(w, f.advisory));
  }

  /** The report is examined without raising, and its findings pass. */
  ghost predicate Clean(w: World, exceptions: seq<Dict>, report: Json) {
    Findings(report, w.show).Some? && Passed(w, exceptions, Findings(report, w.show).value)
  }

  /**
   A clean report has every advisory covered that has a name and is of high or critical severity, whatever
   identifiers it has: some unexpired exception is for that name and identifier.
   */
  lemma CleanCoversAdvisories(w: World, exceptions: seq<Dict>, data: seq<(string, Json)>, advisories: seq<(string, Json)>,
                              i: nat, a: seq<(string, Json)>, cve: Option<Json>, idText: Json) returns (f: Finding)
    requires Clean(w, exceptions, JObj(data)) && Get(data, "advisories") == JObj(advisories)
    requires i < |advisories| && advisories[i].1 == JObj(a)
    requires IsFirstCve(Get(a, "cves"), cve) && IsIdText(Get(a, "id"), w.show, idText)
    ensures FirstNonEmpty(f.name, [Get(a, "module_name"), Get(a, "name")]) && f.severity == Get(a, "severity")
    ensures FirstNonEmpty(f.advisory, Identifiers(a, cve, idText))
    ensures Matters(f) ==> exists e | e in exceptions :: Current(w, e, f)
  {
    EveryAdvisoryIsExamined(advisories, w.show, i);
    f := AdvisoriesFindings(advisories, w.show).value[i];
    AdvisoryFindingIs(a, w.show, cve, idText);
    assert f in Findings(JObj(data), w.show).value;
    if Matters(f) {
      PassedIsCurrent(w, exceptions, Findings(JObj(data), w.show).value, f);
    }
  }

  /** `item` is what an entry's `via` is, or is one of a list of items. */
  ghost predicate IsVia(via: Json, item: Json) {
    match via
    case JArr(items) => item in items
    case JStr(_) => item == via
    case _ => false
  }

  /** And so is every item under `via` of a named entry of such a severity, by the first of its identifiers. */
  lemma {:induction false} CleanCoversVulnerabilities(w: World, exceptions: seq<Dict>, data: seq<(string, Json)>,
                                   entries: seq<(string, Json)>, i: nat, fields: seq<(string, Json)>, item: Json, id: Json)
    requires Clean(w, exceptions, JObj(data)) && Get(data, "vulnerabilities") == JObj(entries)
    requires i < |entries| && entries[i].1 == JObj(fields) && IsVia(Get(fields, "via", JArr([])), item)
    requires FirstNonEmpty(id, ItemIdentifiers(item)) && Truthy(id)
    requires Matters(Finding(JStr(entries[i].0), Get(fields, "severity"), id))
    ensures exists e | e in exceptions :: Current(w, e, Finding(JStr(entries[i].0), Get(fields, "severity"), id))
  {
    var f := Finding(JStr(entries[i].0), Get(fields, "severity"), id);
    EntryRaisesNot(entries, i);
    ItemIsFinding(entries[i], fields, item, id);
    VulnerabilityFindingsCollected(entries, f);
    assert f in Findings(JObj(data), w.show).value;
    PassedIsCurrent(w, exceptions, Findings(JObj(data), w.show).value, f);
  }

  lemma {:induction false} EntryRaisesNot(entries: seq<(string, Json)>, i: nat)
    requires VulnerabilitiesFindings(entries).Some? && i < |entries|
    ensures VulnerabilityFindings(entries[i]).Some?
  {
    if i < |entries| - 1 {
      EntryRaisesNot(entries[..|entries| - 1], i);
    }
  }

  /** Every identified item is among its entry's findings. */
  lemma {:induction false} ItemIsFinding(entry: (string, Json), fields: seq<(string, Json)>, item: Json, id: Json)
    requires entry.1 == JObj(fields) && VulnerabilityFindings(entry).Some?
    requires IsVia(Get(fields, "via", JArr([])), item) && FirstNonEmpty(id, ItemIdentifiers(item)) && Truthy(id)
    ensures Finding(JStr(entry.0), Get(fields, "severity"), id) in VulnerabilityFindings(entry).value
  {
    var via := Get(fields, "via", JArr([]));
    if via.JArr? {
      var at := ViaListIsExamined(entry, fields, via.items);
      ExaminedItemIsFinding(entry.0, Get(fields, "severity"), via.items, VulnerabilityFindings(entry).value, at, item, id);
    } else {
      OtherViaIsExamined(entry, fields);
      OrTakesLast(item);
      AuditReport.FirstIsUnique(id, item, [item]);
    }
  }

  lemma ExaminedItemIsFinding(name: string, severity: Json, items: seq<Json>, fs: seq<Finding>, at: seq<nat>,
                              item: Json, id: Json)
    requires ExaminedInOrder(name, severity, items, fs, at) && item in items
    requires FirstNonEmpty(id, ItemIdentifiers(item)) && Truthy(id)
    ensures Finding(JStr(name), severity, id) in fs
  {
    var n :| 0 <= n < |items| && items[n] == item;
    PickedIsTruthyIff(id, ItemIdentifiers(item));
    assert HasIdentifier(items[n]);
    var k :| 0 <= k < |at| && at[k] == n;
    AuditReport.FirstIsUnique(id, fs[k].advisory, ItemIdentifiers(item));
    assert fs[k] == Finding(JStr(name), severity, id);
  }

  /** But a high entry with no `via` item is accepted without any exception. */
  lemma UnidentifiedVulnerabilityIsAccepted(w: World, name: string)
    ensures var entry := (name, JObj([("severity", JStr("high")), ("via", JArr([]))]));
            var report := JObj([("vulnerabilities", JObj([entry]))]);
            Findings(report, w.show) == Some([]) && Clean(w, [], report)
  {
    var severity, via := ("severity", JStr("high")), ("via", JArr([]));
    var entry := (name, JObj([severity, via]));
    var fields := [("vulnerabilities", JObj([entry]))];
    assert [severity, via][1..] == [via] && "severity"[0] != "via"[0];
    assert Get([severity, via], "via", JArr([])) == JArr([]);
    assert Via(entry) == [];
    assert VulnerabilityFindings(entry) == Some([]);
    assert [entry][..0] == [];
    assert VulnerabilitiesFindings([entry][..0]) == Some([]);
    assert VulnerabilitiesFindings([entry]) == Some([] + []);
    assert fields[1..] == [] && "vulnerabilities"[0] != "advisories"[0];
    assert Get(fields, "advisories") == JNull;
    assert Section(fields, "advisories") == [];
    assert Section(fields, "vulnerabilities") == [entry];
    assert AdvisoriesFindings([], w.show) == Some([]);
    var none: seq<Finding> := [];
    assert none + none == none;
    assert Findings(JObj(fields), w.show) == Some(none + none);
    assert Passed(w, [], none);
  }
}
