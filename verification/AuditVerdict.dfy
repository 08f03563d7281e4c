/** The gate's verdict, said from the fields of the exceptions and findings alone. */
module AuditVerdict {
  import opened Wrappers
  import opened PyText
  import opened AuditReport
  import opened AuditGate

  // ----- text up to case ------------------------------------------------------------------

  /** Equal, or the two cases of one ASCII letter. */
  predicate SameLetter(c: char, d: char) {
    || c == d
    || ('A' <= c <= 'Z' && d as int == c as int + 32)
    || ('A' <= d <= 'Z' && c as int == d as int + 32)
  }

  predicate SameButCase(a: string, b: string) {
    |a| == |b| && forall i | 0 <= i < |a| :: SameLetter(a[i], b[i])
  }

  lemma LowerMeetsIff(a: string, b: string)
    ensures Lower(a) == Lower(b) <==> SameButCase(a, b)
  {
    if Lower(a) == Lower(b) {
      assert |a| == |b|;
      forall i | 0 <= i < |a| ensures SameLetter(a[i], b[i]) {
        assert Lower(a)[i] == Lower(b)[i];
      }
    }
  }

  lemma LowerIsLower(s: string)
    requires forall c | c in s :: !('A' <= c <= 'Z')
    ensures Lower(s) == s
  {
    forall i | 0 <= i < |s| ensures Lower(s)[i] == s[i] {
      assert s[i] in s;
    }
  }

  lemma LowerIsIff(a: string, word: string)
    requires forall c | c in word :: !('A' <= c <= 'Z')
    ensures Lower(a) == word <==> SameButCase(a, word)
  {
    LowerIsLower(word);
    LowerMeetsIff(a, word);
  }

  // ----- exceptions -----------------------------------------------------------------------

  ghost predicate Has(e: Dict, field: string) {
    field in e && e[field] != ""
  }

  /** All five fields are there, the date is one, and package and advisory are more than blanks. */
  ghost predicate Fit(w: World, e: Dict) {
    && Has(e, "package") && Has(e, "advisory") && Has(e, "severity") && Has(e, "mitigation") && Has(e, "expires_on")
    && w.parseDate(e["expires_on"]).Some? && Strip(e["package"]) != "" && Strip(e["advisory"]) != ""
  }

  lemma CompleteIff(e: Dict)
    ensures Complete(e) <==>
              Has(e, "package") && Has(e, "advisory") && Has(e, "severity") && Has(e, "mitigation") && Has(e, "expires_on")
  {
    assert forall field :: Field(e, field) != "" <==> Has(e, field);
    RequiredAre(e, REQUIRED_FIELDS);
  }

  lemma RequiredAre(e: Dict, fields: seq<string>)
    requires |fields| == 5
    ensures (forall f | f in fields :: Field(e, f) != "") <==>
              && Field(e, fields[0]) != "" && Field(e, fields[1]) != "" && Field(e, fields[2]) != ""
              && Field(e, fields[3]) != "" && Field(e, fields[4]) != ""
  {
  }

  lemma FitIff(w: World, e: Dict)
    ensures WellFormed(w, e) <==> Fit(w, e)
  {
    CompleteIff(e);
  }

  /** For the same package and advisory. */
  ghost predicate Twins(d: Dict, e: Dict) {
    && Has(d, "package") && Has(d, "advisory") && Has(e, "package") && Has(e, "advisory")
    && Strip(d["package"]) == Strip(e["package"]) && SameButCase(Strip(d["advisory"]), Strip(e["advisory"]))
  }

  lemma TwinsIff(w: World, d: Dict, e: Dict)
    requires Fit(w, d) && Fit(w, e)
    ensures ExcKey(d) == ExcKey(e) <==> Twins(d, e)
  {
    LowerMeetsIff(Strip(d["advisory"]), Strip(e["advisory"]));
  }

  // ----- findings -------------------------------------------------------------------------

  /** A JSON value as text without outer blanks, empty for null. */
  ghost function Words(w: World, j: Json): string {
    Strip(if j.JNull? then "" else if j.JStr? then j.s else w.show(j))
  }

  /** The severity can be lower-cased. */
  ghost predicate Readable(f: Finding) {
    f.severity.JStr? || !Truthy(f.severity)
  }

  /** It has a name, and its severity is high or critical in any case. */
  ghost predicate Matters(f: Finding) {
    && f.severity.JStr? && Truthy(f.name)
    && (SameButCase(Strip(f.severity.s), "high") || SameButCase(Strip(f.severity.s), "critical"))
  }

  /** Of the same package and advisory. */
  ghost predicate SameFinding(w: World, f: Finding, g: Finding) {
    Words(w, f.name) == Words(w, g.name) && SameButCase(Words(w, f.advisory), Words(w, g.advisory))
  }

  lemma EmptyIsNot(word: string)
    requires word != ""
    ensures !SameButCase(Strip(""), word)
  {
  }

  lemma MattersIff(f: Finding, high: string, critical: string)
    requires high == "high" && critical == "critical"
    ensures Relevant(f) <==> Matters(f)
    ensures Severity(f).Some? <==> Readable(f)
  {
    EmptyIsNot(high);
    EmptyIsNot(critical);
    if f.severity.JStr? {
      assert HIGH_SEVERITIES == {high, critical};
      LowerIsIff(Strip(f.severity.s), high);
      LowerIsIff(Strip(f.severity.s), critical);
    }
  }

  lemma KeyWords(w: World, f: Finding)
    ensures FindingKey(w, f) == (Words(w, f.name), Lower(Words(w, f.advisory)))
  {
  }

  lemma SameFindingIff(w: World, f: Finding, g: Finding)
    ensures FindingKey(w, f) == FindingKey(w, g) <==> SameFinding(w, f, g)
  {
    KeyWords(w, f);
    KeyWords(w, g);
    LowerMeetsIff(Words(w, f.advisory), Words(w, g.advisory));
  }

  // ----- exceptions for findings ----------------------------------------------------------

  /** The exception is for the finding's package and advisory, and has not expired. */
  ghost predicate Current(w: World, e: Dict, f: Finding) {
    && Fit(w, e) && Strip(e["package"]) == Words(w, f.name)
    && SameButCase(Strip(e["advisory"]), Words(w, f.advisory))
    && w.today <= w.parseDate(e["expires_on"]).value
  }

  /** And is meant for the finding's severity, or for any if it names none. */
  ghost predicate Grants(w: World, e: Dict, f: Finding) {
    && Current(w, e, f)
    && (Strip(e["severity"]) == "" || SameButCase(Strip(e["severity"]), Words(w, f.severity)))
  }

  lemma AcceptsIff(w: World, e: Dict, f: Finding, severity: string)
    ensures ExceptionAccepts(w, e, FindingKey(w, f), severity) <==>
            Current(w, e, f) && (Strip(e["severity"]) == "" || Lower(Strip(e["severity"])) == severity)
  {
    FitIff(w, e);
    if Fit(w, e) {
      LowerMeetsIff(Strip(e["advisory"]), Words(w, f.advisory));
    }
  }

  lemma GrantsIff(w: World, e: Dict, f: Finding)
    requires f.severity.JStr?
    ensures ExceptionAccepts(w, e, FindingKey(w, f), Lower(Strip(f.severity.s))) <==> Grants(w, e, f)
  {
    AcceptsIff(w, e, f, Lower(Strip(f.severity.s)));
    if Current(w, e, f) {
      LowerMeetsIff(Strip(e["severity"]), Strip(f.severity.s));
    }
  }

  // ----- the verdict ----------------------------------------------------------------------

  /** Position `k` has the first finding that matters of those like the `i`-th. */
  ghost predicate IsFirst(w: World, findings: seq<Finding>, i: nat, k: nat)
    requires i < |findings|
  {
    && k < |findings| && Matters(findings[k]) && SameFinding(w, findings[k], findings[i])
    && forall j | 0 <= j < k :: !(Matters(findings[j]) && SameFinding(w, findings[j], findings[i]))
  }

  /** Some exception grants the finding at position `k`. */
  ghost predicate Granted(w: World, exceptions: seq<Dict>, f: Finding) {
    exists e | e in exceptions :: Grants(w, e, f)
  }

  ghost predicate FindingPasses(w: World, exceptions: seq<Dict>, findings: seq<Finding>, i: nat)
    requires i < |findings|
  {
    && Readable(findings[i])
    && (Matters(findings[i]) ==>
          && Words(w, findings[i].advisory) != ""
          && exists k: nat :: IsFirst(w, findings, i, k) && Granted(w, exceptions, findings[k]))
  }

  /**
   Every exception is fit and no two are for the same package and advisory; every severity can be read; and
   of every finding that matters the advisory is known and some exception grants the first finding like it.
   */
  ghost predicate Passed(w: World, exceptions: seq<Dict>, findings: seq<Finding>) {
    && (forall i | 0 <= i < |exceptions| :: Fit(w, exceptions[i]))
    && (forall i, j | 0 <= i < j < |exceptions| :: !Twins(exceptions[i], exceptions[j]))
    && (forall i | 0 <= i < |findings| :: FindingPasses(w, exceptions, findings, i))
  }

  lemma ExceptionsIff(w: World, exceptions: seq<Dict>)
    ensures ExceptionsOk(w, exceptions) <==>
              && (forall i | 0 <= i < |exceptions| :: Fit(w, exceptions[i]))
              && (forall i, j | 0 <= i < j < |exceptions| :: !Twins(exceptions[i], exceptions[j]))
  {
    forall e ensures WellFormed(w, e) <==> Fit(w, e) {
      FitIff(w, e);
    }
    var keys := Keys(exceptions);
    if forall i | 0 <= i < |exceptions| :: Fit(w, exceptions[i]) {
      forall i, j | 0 <= i < j < |exceptions|
        ensures keys[i] == keys[j] <==> Twins(exceptions[i], exceptions[j])
      {
        TwinsIff(w, exceptions[i], exceptions[j]);
      }
    }
  }

  ghost predicate OfKey(w: World, f: Finding, key: Key) {
    Relevant(f) && FindingKey(w, f) == key
  }

  lemma {:induction false} FirstSeverityStep(w: World, findings: seq<Finding>, key: Key)
    requires findings != []
    ensures FirstSeverity(w, findings, key) ==
            if OfKey(w, findings[0], key) then Severity(findings[0]) else FirstSeverity(w, findings[1..], key)
  {
  }

  lemma {:induction false} FirstPosition(w: World, findings: seq<Finding>, key: Key) returns (k: nat)
    requires FirstSeverity(w, findings, key).Some?
    ensures k < |findings| && OfKey(w, findings[k], key) && FirstSeverity(w, findings, key) == Severity(findings[k])
    ensures forall j | 0 <= j < k :: !OfKey(w, findings[j], key)
  {
    FirstSeverityStep(w, findings, key);
    if OfKey(w, findings[0], key) {
      k := 0;
    } else {
      var l := FirstPosition(w, findings[1..], key);
      k := l + 1;
      forall j | 0 <= j < k ensures !OfKey(w, findings[j], key) {
        assert j > 0 ==> findings[1..][j - 1] == findings[j];
      }
    }
  }

  lemma FirstIsUnique(w: World, findings: seq<Finding>, i: nat, k: nat, l: nat)
    requires i < |findings| && IsFirst(w, findings, i, k) && IsFirst(w, findings, i, l)
    ensures k == l
  {
  }

  lemma CoveredIff(w: World, exceptions: seq<Dict>, f: Finding)
    requires f.severity.JStr?
    ensures Covered(w, exceptions, FindingKey(w, f), Lower(Strip(f.severity.s))) <==> Granted(w, exceptions, f)
  {
    forall e ensures ExceptionAccepts(w, e, FindingKey(w, f), Lower(Strip(f.severity.s))) <==> Grants(w, e, f) {
      GrantsIff(w, e, f);
    }
  }

  /** The first finding like one that matters decides the severity. */
  lemma FirstLike(w: World, findings: seq<Finding>, i: nat) returns (k: nat)
    requires i < |findings| && Matters(findings[i])
    ensures IsFirst(w, findings, i, k) && FindingKey(w, findings[k]) == FindingKey(w, findings[i])
    ensures FirstSeverity(w, findings, FindingKey(w, findings[i])) == Some(Lower(Strip(findings[k].severity.s)))
  {
    var key := FindingKey(w, findings[i]);
    MattersIff(findings[i], "high", "critical");
    FirstSeverityExists(w, findings, key);
    k := FirstPosition(w, findings, key);
    MattersIff(findings[k], "high", "critical");
    SeverityIs(findings[k]);
    SameFindingIff(w, findings[k], findings[i]);
    forall j | 0 <= j < k ensures !(Matters(findings[j]) && SameFinding(w, findings[j], findings[i])) {
      MattersIff(findings[j], "high", "critical");
      SameFindingIff(w, findings[j], findings[i]);
      assert !OfKey(w, findings[j], key);
    }
  }

  lemma FindingIff(w: World, exceptions: seq<Dict>, findings: seq<Finding>, i: nat)
    requires i < |findings|
    ensures FindingOk(w, exceptions, findings, findings[i]) <==> FindingPasses(w, exceptions, findings, i)
  {
    MattersIff(findings[i], "high", "critical");
    if Matters(findings[i]) {
      var k := FirstLike(w, findings, i);
      CoveredIff(w, exceptions, findings[k]);
      AdvisoryKnownIff(w, findings[i]);
      OnlyFirst(w, exceptions, findings, i, k);
    }
  }

  lemma AdvisoryKnownIff(w: World, f: Finding)
    ensures FindingKey(w, f).1 != "" <==> Words(w, f.advisory) != ""
  {
  }

  lemma OnlyFirst(w: World, exceptions: seq<Dict>, findings: seq<Finding>, i: nat, k: nat)
    requires i < |findings| && IsFirst(w, findings, i, k)
    ensures (exists l: nat :: IsFirst(w, findings, i, l) && Granted(w, exceptions, findings[l])) <==>
            Granted(w, exceptions, findings[k])
  {
    if l: nat :| IsFirst(w, findings, i, l) && Granted(w, exceptions, findings[l]) {
      FirstIsUnique(w, findings, i, k, l);
    }
  }

  lemma SeverityIs(f: Finding)
    requires Matters(f)
    ensures Severity(f) == Some(Lower(Strip(f.severity.s)))
  {
    EmptyIsNot("high");
    EmptyIsNot("critical");
  }

  /** The verdict, from the fields alone. */
  lemma AcceptedIff(w: World, exceptions: seq<Dict>, findings: seq<Finding>)
    ensures Accepted(w, exceptions, findings) <==> Passed(w, exceptions, findings)
  {
    ExceptionsIff(w, exceptions);
    forall i | 0 <= i < |findings|
      ensures FindingOk(w, exceptions, findings, findings[i]) <==> FindingPasses(w, exceptions, findings, i)
    {
      FindingIff(w, exceptions, findings, i);
    }
  }

  /** Blanks around a package or an advisory, in the list or in the report, never keep the two apart. */
  lemma BlanksDoNotMatter(w: World, e: Dict, f: Finding, front: string, s: string, back: string)
    requires Blank(front) && Blank(back) && s != ""
    ensures Current(w, e["package" := front + s + back], f) <==> Current(w, e["package" := s], f)
    ensures Current(w, e["advisory" := front + s + back], f) <==> Current(w, e["advisory" := s], f)
    ensures Words(w, JStr(front + s + back)) == Words(w, JStr(s))
  {
    PaddingIsStripped(front, s, back);
    SameWhenStripped(w, e, f, "package", front + s + back, s);
    SameWhenStripped(w, e, f, "advisory", front + s + back, s);
  }

  lemma SameWhenStripped(w: World, e: Dict, f: Finding, field: string, a: string, b: string)
    requires field in {"package", "advisory"} && a != "" && b != "" && Strip(a) == Strip(b)
    ensures Current(w, e[field := a], f) <==> Current(w, e[field := b], f)
  {
    var x, y := e[field := a], e[field := b];
    assert forall k :: Has(x, k) <==> Has(y, k);
  }
}
