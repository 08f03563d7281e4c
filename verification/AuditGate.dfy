/** The verdict of the audit gate: exceptions indexed, findings checked, an exit code returned. */
module AuditGate {
  import opened Wrappers
  import opened PyText
  import opened AuditReport
  import AuditExceptions

  type Dict = AuditExceptions.Dict
  type Key = (string, string)

  const HIGH_SEVERITIES: set<string> := {"high", "critical"}
  const REQUIRED_FIELDS: seq<string> := ["package", "advisory", "severity", "mitigation", "expires_on"]

  /** Today, ISO dates as day numbers, and Python's rendering of values that are not strings. */
  datatype World = World(today: int, parseDate: string -> Option<int>, show: Json -> string)

  // ----- normalising ----------------------------------------------------------------------

  function Field(exc: Dict, name: string): string {
    if name in exc then exc[name] else ""
  }

  predicate Complete(exc: Dict) {
    forall f | f in REQUIRED_FIELDS :: Field(exc, f) != ""
  }

  function ExcKey(exc: Dict): Key {
    (Strip(Field(exc, "package")), Lower(Strip(Field(exc, "advisory"))))
  }

  function ExcSeverity(exc: Dict): string {
    Lower(Strip(Field(exc, "severity")))
  }

  function Expiry(w: World, exc: Dict): Option<int> {
    w.parseDate(Field(exc, "expires_on"))
  }

  /** The severity of a finding; none if it is neither empty nor a string, which raises. */
  function Severity(f: Finding): Option<string> {
    if !Truthy(f.severity) then Some("")
    else if f.severity.JStr? then Some(Lower(Strip(f.severity.s)))
    else None
  }

  function Text(w: World, j: Json): string {
    match j
    case JNull => ""
    case JStr(s) => s
    case _ => w.show(j)
  }

  function FindingKey(w: World, f: Finding): Key {
    (Strip(Text(w, f.name)), Lower(Strip(Text(w, f.advisory))))
  }

  /** Named findings of high or critical severity are the ones that matter. */
  predicate Relevant(f: Finding) {
    Severity(f).Some? && Severity(f).value in HIGH_SEVERITIES && Truthy(f.name)
  }

  // ----- the specification ----------------------------------------------------------------

  predicate WellFormed(w: World, exc: Dict) {
    Complete(exc) && Expiry(w, exc).Some? && ExcKey(exc).0 != "" && ExcKey(exc).1 != ""
  }

  /** Every exception is well formed and no two have the same package and advisory. */
  ghost predicate ExceptionsOk(w: World, exceptions: seq<Dict>) {
    (forall e | e in exceptions :: WellFormed(w, e)) && Distinct(Keys(exceptions))
  }

  function Keys(exceptions: seq<Dict>): (r: seq<Key>)
    ensures |r| == |exceptions| && forall i | 0 <= i < |exceptions| :: r[i] == ExcKey(exceptions[i])
  {
    seq(|exceptions|, i requires 0 <= i < |exceptions| => ExcKey(exceptions[i]))
  }

  /** Some unexpired exception for the key accepts this severity; a blank one accepts any. */
  ghost predicate Covered(w: World, exceptions: seq<Dict>, key: Key, severity: string) {
    exists e | e in exceptions :: ExceptionAccepts(w, e, key, severity)
  }

  predicate ExceptionAccepts(w: World, e: Dict, key: Key, severity: string) {
    && WellFormed(w, e) && ExcKey(e) == key && w.today <= Expiry(w, e).value
    && (ExcSeverity(e) == "" || ExcSeverity(e) == severity)
  }

  /** The severity of the first relevant finding with that key. */
  function FirstSeverity(w: World, findings: seq<Finding>, key: Key): Option<string> {
    if findings == [] then None
    else if Relevant(findings[0]) && FindingKey(w, findings[0]) == key then Severity(findings[0])
    else FirstSeverity(w, findings[1..], key)
  }

  ghost predicate FindingOk(w: World, exceptions: seq<Dict>, findings: seq<Finding>, f: Finding) {
    var key := FindingKey(w, f);
    && Severity(f).Some?
    && (Relevant(f) ==>
          key.1 != "" && FirstSeverity(w, findings, key).Some? &&
          Covered(w, exceptions, key, FirstSeverity(w, findings, key).value))
  }

  /** The gate's verdict. */
  ghost predicate Accepted(w: World, exceptions: seq<Dict>, findings: seq<Finding>) {
    ExceptionsOk(w, exceptions) && forall f | f in findings :: FindingOk(w, exceptions, findings, f)
  }

  // ----- building the index ---------------------------------------------------------------

  datatype GateError =
    | MissingFields | InvalidDate | BlankKey | Duplicate(key: Key)
    | NoAdvisory | SeverityMismatch(key: Key) | MissingException(key: Key) | Expired(key: Key)

  datatype Indexed = Indexed(severity: string, expires: int)

  /** The index has the exception's entry. */
  ghost predicate Entered(w: World, index: map<Key, Indexed>, e: Dict, key: Key) {
    key in index && Expiry(w, e) == Some(index[key].expires) && index[key].severity == ExcSeverity(e)
  }

  ghost predicate IndexOf(w: World, exceptions: seq<Dict>, index: map<Key, Indexed>) {
    && (forall k :: k in index <==> k in Keys(exceptions))
    && (forall i | 0 <= i < |exceptions| :: Entered(w, index, exceptions[i], Keys(exceptions)[i]))
  }

  /** The loop body for one exception: the error it gives rise to, or its index entry. */
  method CheckException(w: World, exc: Dict, index: map<Key, Indexed>) returns (error: Option<GateError>, entry: Indexed)
    ensures error.None? <==> WellFormed(w, exc) && ExcKey(exc) !in index
    ensures error.None? ==> Expiry(w, exc) == Some(entry.expires) && entry.severity == ExcSeverity(exc)
  {
    entry := Indexed("", 0);
    var missing := MissingOf(exc);
    if missing {
      return Some(MissingFields), entry;
    }
    var expires := Expiry(w, exc);
    if expires.None? {
      return Some(InvalidDate), entry;
    }
    var key := ExcKey(exc);
    if key.0 == "" || key.1 == "" {
      return Some(BlankKey), entry;
    }
    if key in index {
      return Some(Duplicate(key)), entry;
    }
    return None, Indexed(ExcSeverity(exc), expires.value);
  }

  method BuildIndex(w: World, exceptions: seq<Dict>) returns (index: map<Key, Indexed>, errors: seq<GateError>)
    ensures errors == [] <==> ExceptionsOk(w, exceptions)
    ensures errors == [] ==> IndexOf(w, exceptions, index)
  {
    index, errors := map[], [];
    for i := 0 to |exceptions|
      invariant Built(w, exceptions[..i], index, errors == [])
    {
      var exc := exceptions[i];
      var error, entry := CheckException(w, exc, index);
      BuildStep(w, exceptions[..i], exc, index, errors == [], error.None?, entry);
      assert exceptions[..i + 1] == exceptions[..i] + [exc];
      if error.Some? {
        errors := errors + [error.value];
      } else {
        index := index[ExcKey(exc) := entry];
      }
    }
    assert exceptions[..|exceptions|] == exceptions;
  }

  /** Without errors so far the exceptions are all right and the index holds exactly them. */
  ghost predicate Built(w: World, exceptions: seq<Dict>, index: map<Key, Indexed>, clean: bool) {
    (clean <==> ExceptionsOk(w, exceptions)) && (clean ==> IndexOf(w, exceptions, index))
  }

  lemma BuildStep(w: World, exceptions: seq<Dict>, e: Dict, index: map<Key, Indexed>, clean: bool, good: bool,
                  entry: Indexed)
    requires Built(w, exceptions, index, clean)
    requires good <==> WellFormed(w, e) && ExcKey(e) !in index
    requires good ==> Expiry(w, e) == Some(entry.expires) && entry.severity == ExcSeverity(e)
    ensures Built(w, exceptions + [e], if good then index[ExcKey(e) := entry] else index, clean && good)
  {
    ExceptionsStep(w, exceptions, e);
    if clean && good {
      IndexStep(w, exceptions, e, index);
    }
  }

  method MissingOf(exc: Dict) returns (missing: bool)
    ensures missing <==> !Complete(exc)
  {
    missing := false;
    for i := 0 to |REQUIRED_FIELDS|
      invariant missing <==> exists j | 0 <= j < i :: Field(exc, REQUIRED_FIELDS[j]) == ""
    {
      if Field(exc, REQUIRED_FIELDS[i]) == "" {
        missing := true;
      }
    }
  }

  lemma DistinctAppend<T>(s: seq<T>, x: T)
    ensures Distinct(s + [x]) <==> Distinct(s) && x !in s
  {
    var t := s + [x];
    if Distinct(t) {
      assert forall i | 0 <= i < |s| :: t[i] == s[i];
      assert t[|s|] == x;
    }
  }

  /** One more exception: what it needs, and how the index takes it in. */
  lemma ExceptionsStep(w: World, exceptions: seq<Dict>, e: Dict)
    ensures Keys(exceptions + [e]) == Keys(exceptions) + [ExcKey(e)]
    ensures ExceptionsOk(w, exceptions + [e]) <==>
              ExceptionsOk(w, exceptions) && WellFormed(w, e) && ExcKey(e) !in Keys(exceptions)
  {
    assert Keys(exceptions + [e]) == Keys(exceptions) + [ExcKey(e)];
    DistinctAppend(Keys(exceptions), ExcKey(e));
    assert forall d :: d in exceptions + [e] <==> d in exceptions || d == e;
  }

  lemma IndexStep(w: World, exceptions: seq<Dict>, e: Dict, index: map<Key, Indexed>)
    requires IndexOf(w, exceptions, index) && ExcKey(e) !in index && Expiry(w, e).Some?
    ensures IndexOf(w, exceptions + [e], index[ExcKey(e) := Indexed(ExcSeverity(e), Expiry(w, e).value)])
  {
    var index' := index[ExcKey(e) := Indexed(ExcSeverity(e), Expiry(w, e).value)];
    var all := exceptions + [e];
    ExceptionsStep(w, exceptions, e);
    forall i | 0 <= i < |all| ensures Entered(w, index', all[i], Keys(all)[i]) {
      if i < |exceptions| {
        assert Entered(w, index, exceptions[i], Keys(exceptions)[i]);
        assert Keys(all)[i] == Keys(exceptions)[i];
      }
    }
  }

  // ----- checking the findings ------------------------------------------------------------

  /** A relevant finding for a key that has been seen is passed over, so the first one decides. */
  ghost predicate Seen(w: World, findings: seq<Finding>, seen: set<Key>) {
    && (forall k | k in seen :: k.1 != "" && FirstSeverity(w, findings, k).Some?)
    && (forall f | f in findings && Relevant(f) && FindingKey(w, f).1 != "" :: FindingKey(w, f) in seen)
  }

  lemma {:induction false} FirstSeverityPrefix(w: World, findings: seq<Finding>, n: nat, key: Key)
    requires n <= |findings|
    ensures FirstSeverity(w, findings[..n], key).Some? ==>
              FirstSeverity(w, findings, key) == FirstSeverity(w, findings[..n], key)
    ensures n < |findings| && FirstSeverity(w, findings[..n], key).None? ==>
              Relevant(findings[n]) && FindingKey(w, findings[n]) == key ==>
                FirstSeverity(w, findings, key) == Severity(findings[n])
  {
    if n > 0 && !(Relevant(findings[0]) && FindingKey(w, findings[0]) == key) {
      assert findings[..n][1..] == findings[1..][..n - 1];
      FirstSeverityPrefix(w, findings[1..], n - 1, key);
    }
  }

  lemma {:induction false} FirstSeverityExists(w: World, findings: seq<Finding>, key: Key)
    ensures FirstSeverity(w, findings, key).Some? <==>
              exists f | f in findings :: Relevant(f) && FindingKey(w, f) == key
    ensures FirstSeverity(w, findings, key).Some? ==>
              exists f | f in findings :: Relevant(f) && FindingKey(w, f) == key && Severity(f) == FirstSeverity(w, findings, key)
  {
    if findings != [] {
      assert findings[0] in findings;
      FirstSeverityExists(w, findings[1..], key);
      assert findings == [findings[0]] + findings[1..];
    }
  }

  /** What the loop body asks of the first relevant finding of a key. */
  predicate EntryAccepts(w: World, index: map<Key, Indexed>, key: Key, severity: string) {
    key in index && w.today <= index[key].expires && (index[key].severity == "" || index[key].severity == severity)
  }

  lemma IndexCovers(w: World, exceptions: seq<Dict>, index: map<Key, Indexed>, key: Key, severity: string)
    requires ExceptionsOk(w, exceptions) && IndexOf(w, exceptions, index)
    ensures EntryAccepts(w, index, key, severity) <==> Covered(w, exceptions, key, severity)
  {
    if EntryAccepts(w, index, key, severity) {
      var i :| 0 <= i < |exceptions| && Keys(exceptions)[i] == key;
      var e := exceptions[i];
      assert e in exceptions;
      EntryIs(w, exceptions, index, e);
      assert ExceptionAccepts(w, e, key, severity);
    }
    if Covered(w, exceptions, key, severity) {
      var e :| e in exceptions && ExceptionAccepts(w, e, key, severity);
      EntryIs(w, exceptions, index, e);
    }
  }

  lemma EntryIs(w: World, exceptions: seq<Dict>, index: map<Key, Indexed>, e: Dict)
    requires ExceptionsOk(w, exceptions) && IndexOf(w, exceptions, index) && e in exceptions
    ensures WellFormed(w, e)
    ensures ExcKey(e) in index && Expiry(w, e) == Some(index[ExcKey(e)].expires)
    ensures index[ExcKey(e)].severity == ExcSeverity(e)
  {
    var i :| 0 <= i < |exceptions| && exceptions[i] == e;
    assert Entered(w, index, exceptions[i], Keys(exceptions)[i]);
  }

  /** The errors one relevant, identified, not yet seen finding gives rise to. */
  function EntryErrors(w: World, index: map<Key, Indexed>, key: Key, severity: string): (r: seq<GateError>)
    ensures r == [] <==> EntryAccepts(w, index, key, severity)
  {
    if key !in index then [MissingException(key)]
    else
      (if index[key].severity != "" && index[key].severity != severity then [SeverityMismatch(key)] else []) +
      (if index[key].expires < w.today then [Expired(key)] else [])
  }

  /** Findings processed so far are all right, judged by the first of each key. */
  ghost predicate ProcessedOk(w: World, index: map<Key, Indexed>, findings: seq<Finding>) {
    && (forall f | f in findings :: Severity(f).Some?)
    && (forall f | f in findings && Relevant(f) ::
          FindingKey(w, f).1 != "" && FirstSeverity(w, findings, FindingKey(w, f)).Some? &&
          EntryAccepts(w, index, FindingKey(w, f), FirstSeverity(w, findings, FindingKey(w, f)).value))
  }

  lemma {:induction false} ProcessedStep(w: World, index: map<Key, Indexed>, findings: seq<Finding>)
    requires findings != []
    ensures var n := |findings| - 1;
            var f, init := findings[n], findings[..n];
            var key := FindingKey(w, f);
            ProcessedOk(w, index, findings) <==>
              && ProcessedOk(w, index, init) && Severity(f).Some?
              && (Relevant(f) ==>
                    key.1 != "" && (FirstSeverity(w, init, key).Some? || EntryAccepts(w, index, key, Severity(f).value)))
  {
    var n := |findings| - 1;
    var f, init := findings[n], findings[..n];
    assert findings == init + [f];
    forall g | g in init && Relevant(g)
      ensures FirstSeverity(w, findings, FindingKey(w, g)) == FirstSeverity(w, init, FindingKey(w, g))
    {
      FirstSeverityExists(w, init, FindingKey(w, g));
      FirstSeverityPrefix(w, findings, n, FindingKey(w, g));
    }
    FirstSeverityPrefix(w, findings, n, FindingKey(w, f));
    FirstSeverityExists(w, init, FindingKey(w, f));
  }

  /** The loop body for a finding whose severity can be read. */
  method CheckFinding(w: World, index: map<Key, Indexed>, f: Finding, seen: set<Key>)
    returns (errors: seq<GateError>, seen': set<Key>)
    requires Severity(f).Some?
    ensures var key := FindingKey(w, f);
            && (errors == [] <==>
                  (Relevant(f) ==> key.1 != "" && (key in seen || EntryAccepts(w, index, key, Severity(f).value))))
            && seen' == (if Relevant(f) && key.1 != "" then seen + {key} else seen)
  {
    errors, seen' := [], seen;
    if Severity(f).value !in HIGH_SEVERITIES || !Truthy(f.name) {
      return;
    }
    var key := FindingKey(w, f);
    if key.1 == "" {
      errors := [NoAdvisory];
    } else if key !in seen {
      seen' := seen + {key};
      errors := EntryErrors(w, index, key, Severity(f).value);
    }
  }

  method CheckFindings(w: World, index: map<Key, Indexed>, findings: seq<Finding>)
    returns (errors: seq<GateError>, crashed: bool)
    ensures errors == [] && !crashed <==> ProcessedOk(w, index, findings)
  {
    errors, crashed := [], false;
    var seen: set<Key> := {};
    for i := 0 to |findings|
      invariant !crashed
      invariant errors == [] <==> ProcessedOk(w, index, findings[..i])
      invariant forall f | f in findings[..i] :: Severity(f).Some?
      invariant Seen(w, findings[..i], seen)
    {
      var f := findings[i];
      assert findings[..i + 1] == findings[..i] + [f];
      assert findings[..i + 1][..i] == findings[..i];
      ProcessedStep(w, index, findings[..i + 1]);
      SeenStep(w, findings[..i + 1], seen);
      if Severity(f).None? {
        NotProcessed(w, index, findings, f);
        return errors, true;
      }
      var found;
      found, seen := CheckFinding(w, index, f, seen);
      errors := errors + found;
    }
    assert findings[..|findings|] == findings;
  }

  lemma NotProcessed(w: World, index: map<Key, Indexed>, findings: seq<Finding>, f: Finding)
    requires f in findings && Severity(f).None?
    ensures !ProcessedOk(w, index, findings)
  {
  }

  lemma {:induction false} SeenStep(w: World, findings: seq<Finding>, seen: set<Key>)
    requires findings != [] && Seen(w, findings[..|findings| - 1], seen)
    ensures var n := |findings| - 1;
            var f := findings[n];
            var key := FindingKey(w, f);
            && (!Relevant(f) || key.1 == "" || key in seen ==> Seen(w, findings, seen))
            && (Relevant(f) && key.1 != "" ==> Seen(w, findings, seen + {key}))
            && (key.1 != "" ==> (key in seen <==> FirstSeverity(w, findings[..n], key).Some?))
  {
    var n := |findings| - 1;
    var f, init := findings[n], findings[..n];
    var key := FindingKey(w, f);
    assert findings == init + [f];
    forall k | k in seen ensures FirstSeverity(w, findings, k).Some? {
      FirstSeverityPrefix(w, findings, n, k);
    }
    FirstSeverityPrefix(w, findings, n, key);
    FirstSeverityExists(w, init, key);
  }

  /** `main`, from the exception records and the findings on; a raised exception is exit code 1 too. */
  method Gate(w: World, exceptions: seq<Dict>, findings: Option<seq<Finding>>) returns (code: int)
    ensures code == 0 || code == 1
    ensures code == 0 <==> findings.Some? && Accepted(w, exceptions, findings.value)
  {
    var index, errors := BuildIndex(w, exceptions);
    if findings.None? {
      return 1;
    }
    var found, crashed := CheckFindings(w, index, findings.value);
    errors := errors + found;
    if ExceptionsOk(w, exceptions) {
      IndexVerdict(w, exceptions, index, findings.value);
    }
    if crashed || errors != [] {
      return 1;
    }
    return 0;
  }

  lemma IndexVerdict(w: World, exceptions: seq<Dict>, index: map<Key, Indexed>, findings: seq<Finding>)
    requires ExceptionsOk(w, exceptions) && IndexOf(w, exceptions, index)
    ensures ProcessedOk(w, index, findings) <==> Accepted(w, exceptions, findings)
  {
    forall f | f in findings && FirstSeverity(w, findings, FindingKey(w, f)).Some?
      ensures EntryAccepts(w, index, FindingKey(w, f), FirstSeverity(w, findings, FindingKey(w, f)).value) <==>
              Covered(w, exceptions, FindingKey(w, f), FirstSeverity(w, findings, FindingKey(w, f)).value)
    {
      IndexCovers(w, exceptions, index, FindingKey(w, f), FirstSeverity(w, findings, FindingKey(w, f)).value);
    }
  }
}
