/** Creating one account: defaults, checks, and the insert specification with its in-memory node. */
module AccountCreate {
  import opened Wrappers
  import opened AccountSchema
  import opened RowScan
  import opened Projection

  // ----- defaults and checks --------------------------------------------------------------

  /**
   The package variables of the account entity. A column missing from `defaults` is a default
   function that has not been initialised; `valid` is the outcome of a column's validator.
   */
  datatype Runtime = Runtime(defaults: map<Column, Value>, valid: (Column, Value) -> bool)

  /** The columns with a default, in the order `defaults` visits them. */
  const DEFAULTED: seq<Column> := [
    CreatedAt, UpdatedAt, Credentials, Extra, Concurrency, Priority, RateMultiplier, Status,
    AutoPauseOnExpired, Schedulable, QuotaDimension]

  datatype Rule = Rule(column: Column, required: bool, validated: bool)

  /** The checks in the order `check` makes them. */
  const RULES: seq<Rule> := [
    Rule(CreatedAt, true, false), Rule(UpdatedAt, true, false), Rule(Name, true, true),
    Rule(Platform, true, true), Rule(Type, true, true), Rule(Credentials, true, false),
    Rule(Extra, true, false), Rule(Concurrency, true, false), Rule(Priority, true, false),
    Rule(RateMultiplier, true, false), Rule(Status, true, true), Rule(AutoPauseOnExpired, true, false),
    Rule(Schedulable, true, false), Rule(SessionWindowStatus, false, true), Rule(QuotaDimension, true, true)]

  datatype CreateError = Uninitialized(column: Column) | MissingField(column: Column) | InvalidField(column: Column)

  /** The first uninitialised default that is needed. */
  function DefaultsFault(rt: Runtime, f: Fields, columns: seq<Column>): Option<CreateError> {
    if columns == [] then None
    else if columns[0] !in f && columns[0] !in rt.defaults then Some(Uninitialized(columns[0]))
    else DefaultsFault(rt, f, columns[1..])
  }

  /** The fields once the columns have been defaulted, up to the first that cannot be. */
  function WithDefaults(rt: Runtime, f: Fields, columns: seq<Column>): Fields
    decreases |columns|
  {
    if columns == [] then f
    else if columns[0] in f then WithDefaults(rt, f, columns[1..])
    else if columns[0] in rt.defaults then
      WithDefaults(rt, f[columns[0] := rt.defaults[columns[0]]], columns[1..])
    else f
  }

  function RuleFault(rt: Runtime, f: Fields, rule: Rule): Option<CreateError> {
    if rule.required && rule.column !in f then Some(MissingField(rule.column))
    else if rule.validated && rule.column in f && !rt.valid(rule.column, f[rule.column])
    then Some(InvalidField(rule.column))
    else None
  }

  function RulesFault(rt: Runtime, f: Fields, rules: seq<Rule>): Option<CreateError> {
    if rules == [] then None
    else if RuleFault(rt, f, rules[0]).Some? then RuleFault(rt, f, rules[0])
    else RulesFault(rt, f, rules[1..])
  }

  function Check(rt: Runtime, f: Fields): Option<CreateError> {
    RulesFault(rt, f, RULES)
  }

  /** Setting one default does not change which of the later columns are missing theirs. */
  lemma {:induction false} DefaultsMeaning(rt: Runtime, f: Fields, columns: seq<Column>, c: Column)
    requires Distinct(columns)
    ensures var g := WithDefaults(rt, f, columns);
            && (c in f ==> c in g && g[c] == f[c])
            && (c !in f && c in g ==> c in columns && c in rt.defaults && g[c] == rt.defaults[c])
            && (DefaultsFault(rt, f, columns) == None ==> c in columns ==> c in g)
            && (DefaultsFault(rt, f, columns).Some? ==>
                  var u := DefaultsFault(rt, f, columns).value.column; u in columns && u !in g && u !in rt.defaults)
    decreases |columns|
  {
    if columns != [] {
      if columns[0] in f {
        DefaultsMeaning(rt, f, columns[1..], c);
      } else if columns[0] in rt.defaults {
        var g := f[columns[0] := rt.defaults[columns[0]]];
        DefaultsMeaning(rt, g, columns[1..], c);
        DefaultsFaultKept(rt, f, columns[0], columns[1..]);
      }
    }
  }

  lemma {:induction false} DefaultsFaultKept(rt: Runtime, f: Fields, d: Column, columns: seq<Column>)
    requires d !in columns && d in rt.defaults
    ensures DefaultsFault(rt, f[d := rt.defaults[d]], columns) == DefaultsFault(rt, f, columns)
  {
    if columns != [] {
      DefaultsFaultKept(rt, f, d, columns[1..]);
    }
  }

  lemma DefaultedDistinct()
    ensures Distinct(DEFAULTED)
  {
  }

  lemma {:induction false} RulesFaultMeaning(rt: Runtime, f: Fields, rules: seq<Rule>)
    ensures RulesFault(rt, f, rules) == None <==> forall r | r in rules :: RuleFault(rt, f, r) == None
    ensures RulesFault(rt, f, rules).Some? ==>
              exists r | r in rules :: RulesFault(rt, f, rules) == RuleFault(rt, f, r)
  {
    if rules != [] {
      assert rules == [rules[0]] + rules[1..];
      RulesFaultMeaning(rt, f, rules[1..]);
    }
  }

  /** `check` passes exactly when every required field is set and every validated field present is valid. */
  lemma CheckPassesIff(rt: Runtime, f: Fields)
    ensures Check(rt, f) == None <==>
              && (forall r | r in RULES && r.required :: r.column in f)
              && (forall r | r in RULES && r.validated && r.column in f :: rt.valid(r.column, f[r.column]))
  {
    RulesFaultMeaning(rt, f, RULES);
  }

  // The check, column by column.

  function Missing(f: Fields, c: Column): Option<CreateError> {
    if c in f then None else Some(MissingField(c))
  }

  function Invalid(rt: Runtime, f: Fields, c: Column): Option<CreateError> {
    if c in f && !rt.valid(c, f[c]) then Some(InvalidField(c)) else None
  }

  lemma {:induction false} CheckFrom(rt: Runtime, f: Fields, k: nat)
    requires k < |RULES|
    ensures RulesFault(rt, f, RULES[k..]) == RuleFault(rt, f, RULES[k]).OrElse(RulesFault(rt, f, RULES[k + 1..]))
  {
    assert RULES[k..][1..] == RULES[k + 1..];
  }

  lemma {:induction false} FirstChecks(rt: Runtime, f: Fields)
    ensures Check(rt, f) ==
            Missing(f, CreatedAt).OrElse(Missing(f, UpdatedAt))
            .OrElse(Missing(f, Name)).OrElse(Invalid(rt, f, Name))
            .OrElse(Missing(f, Platform)).OrElse(Invalid(rt, f, Platform))
            .OrElse(RulesFault(rt, f, RULES[4..]))
  {
    assert RULES[0..] == RULES;
    CheckFrom(rt, f, 0);
    CheckFrom(rt, f, 1);
    CheckFrom(rt, f, 2);
    CheckFrom(rt, f, 3);
  }

  lemma {:induction false} TypeChecks(rt: Runtime, f: Fields)
    ensures RulesFault(rt, f, RULES[4..]) ==
            Missing(f, Type).OrElse(Invalid(rt, f, Type)).OrElse(Missing(f, Credentials))
            .OrElse(RulesFault(rt, f, RULES[6..]))
  {
    CheckFrom(rt, f, 4);
    CheckFrom(rt, f, 5);
  }

  lemma {:induction false} MiddleChecks(rt: Runtime, f: Fields)
    ensures RulesFault(rt, f, RULES[6..]) ==
            Missing(f, Extra).OrElse(Missing(f, Concurrency)).OrElse(Missing(f, Priority))
            .OrElse(RulesFault(rt, f, RULES[9..]))
  {
    CheckFrom(rt, f, 6);
    CheckFrom(rt, f, 7);
    CheckFrom(rt, f, 8);
  }

  lemma {:induction false} LastChecks(rt: Runtime, f: Fields)
    ensures RulesFault(rt, f, RULES[9..]) ==
            Missing(f, RateMultiplier).OrElse(Missing(f, Status)).OrElse(Invalid(rt, f, Status))
            .OrElse(Missing(f, AutoPauseOnExpired)).OrElse(Missing(f, Schedulable))
            .OrElse(Invalid(rt, f, SessionWindowStatus))
            .OrElse(Missing(f, QuotaDimension)).OrElse(Invalid(rt, f, QuotaDimension))
  {
    CheckFrom(rt, f, 9);
    CheckFrom(rt, f, 10);
    CheckFrom(rt, f, 11);
    CheckFrom(rt, f, 12);
    CheckFrom(rt, f, 13);
    CheckFrom(rt, f, 14);
    assert RULES[15..] == [];
  }

  /** What has to be set, and what has to be valid. */
  ghost predicate Passes(rt: Runtime, f: Fields) {
    && CreatedAt in f && UpdatedAt in f && Name in f && Platform in f && Type in f && Credentials in f
    && Extra in f && Concurrency in f && Priority in f && RateMultiplier in f && Status in f
    && AutoPauseOnExpired in f && Schedulable in f && QuotaDimension in f
    && Validated(rt, f)
  }

  ghost predicate Validated(rt: Runtime, f: Fields) {
    forall c | c in {Name, Platform, Type, Status, SessionWindowStatus, QuotaDimension} && c in f :: rt.valid(c, f[c])
  }

  /** The error is that of the first column, in this order, that is missing or invalid. */
  lemma CheckInOrder(rt: Runtime, f: Fields)
    ensures Check(rt, f) ==
            Missing(f, CreatedAt).OrElse(Missing(f, UpdatedAt))
            .OrElse(Missing(f, Name)).OrElse(Invalid(rt, f, Name))
            .OrElse(Missing(f, Platform)).OrElse(Invalid(rt, f, Platform))
            .OrElse(Missing(f, Type)).OrElse(Invalid(rt, f, Type))
            .OrElse(Missing(f, Credentials)).OrElse(Missing(f, Extra)).OrElse(Missing(f, Concurrency))
            .OrElse(Missing(f, Priority)).OrElse(Missing(f, RateMultiplier))
            .OrElse(Missing(f, Status)).OrElse(Invalid(rt, f, Status))
            .OrElse(Missing(f, AutoPauseOnExpired)).OrElse(Missing(f, Schedulable))
            .OrElse(Invalid(rt, f, SessionWindowStatus))
            .OrElse(Missing(f, QuotaDimension)).OrElse(Invalid(rt, f, QuotaDimension))
  {
    FirstChecks(rt, f);
    TypeChecks(rt, f);
    MiddleChecks(rt, f);
    LastChecks(rt, f);
  }

  /** And there is none exactly when all of them are set and valid. */
  lemma CheckPassesWhen(rt: Runtime, f: Fields)
    ensures Check(rt, f) == None <==> Passes(rt, f)
  {
    CheckInOrder(rt, f);
  }

  // The defaults, column by column.

  /** The columns that have a default. */
  ghost predicate HasDefault(c: Column) {
    match c
    case CreatedAt | UpdatedAt | Credentials | Extra | Concurrency | Priority | RateMultiplier | Status
       | AutoPauseOnExpired | Schedulable | QuotaDimension => true
    case _ => false
  }

  lemma DefaultedAre(c: Column)
    ensures c in DEFAULTED <==> HasDefault(c)
  {
    match c
    case CreatedAt => assert DEFAULTED[0] == c;
    case UpdatedAt => assert DEFAULTED[1] == c;
    case Credentials => assert DEFAULTED[2] == c;
    case Extra => assert DEFAULTED[3] == c;
    case Concurrency => assert DEFAULTED[4] == c;
    case Priority => assert DEFAULTED[5] == c;
    case RateMultiplier => assert DEFAULTED[6] == c;
    case Status => assert DEFAULTED[7] == c;
    case AutoPauseOnExpired => assert DEFAULTED[8] == c;
    case Schedulable => assert DEFAULTED[9] == c;
    case QuotaDimension => assert DEFAULTED[10] == c;
    case _ =>
  }

  /** A default that is needed and has not been initialised. */
  function Lacking(rt: Runtime, f: Fields, c: Column): Option<CreateError> {
    if c in f || c in rt.defaults then None else Some(Uninitialized(c))
  }

  lemma {:induction false} DefaultsFrom(rt: Runtime, f: Fields, k: nat)
    requires k < |DEFAULTED|
    ensures DefaultsFault(rt, f, DEFAULTED[k..]) ==
            Lacking(rt, f, DEFAULTED[k]).OrElse(DefaultsFault(rt, f, DEFAULTED[k + 1..]))
  {
    assert DEFAULTED[k..][1..] == DEFAULTED[k + 1..];
  }

  lemma {:induction false} FirstDefaults(rt: Runtime, f: Fields)
    ensures DefaultsFault(rt, f, DEFAULTED) ==
            Lacking(rt, f, CreatedAt).OrElse(Lacking(rt, f, UpdatedAt)).OrElse(Lacking(rt, f, Credentials))
            .OrElse(Lacking(rt, f, Extra)).OrElse(Lacking(rt, f, Concurrency)).OrElse(Lacking(rt, f, Priority))
            .OrElse(DefaultsFault(rt, f, DEFAULTED[6..]))
  {
    assert DEFAULTED[0..] == DEFAULTED;
    DefaultsFrom(rt, f, 0);
    DefaultsFrom(rt, f, 1);
    DefaultsFrom(rt, f, 2);
    DefaultsFrom(rt, f, 3);
    DefaultsFrom(rt, f, 4);
    DefaultsFrom(rt, f, 5);
  }

  lemma {:induction false} LastDefaults(rt: Runtime, f: Fields)
    ensures DefaultsFault(rt, f, DEFAULTED[6..]) ==
            Lacking(rt, f, RateMultiplier).OrElse(Lacking(rt, f, Status)).OrElse(Lacking(rt, f, AutoPauseOnExpired))
            .OrElse(Lacking(rt, f, Schedulable)).OrElse(Lacking(rt, f, QuotaDimension))
  {
    DefaultsFrom(rt, f, 6);
    DefaultsFrom(rt, f, 7);
    DefaultsFrom(rt, f, 8);
    DefaultsFrom(rt, f, 9);
    DefaultsFrom(rt, f, 10);
    assert DEFAULTED[11..] == [];
  }

  /** The error of `defaults` is the first default, in this order, that is needed and not initialised. */
  lemma {:induction false} DefaultsInOrder(rt: Runtime, f: Fields)
    ensures DefaultsFault(rt, f, DEFAULTED) ==
            Lacking(rt, f, CreatedAt).OrElse(Lacking(rt, f, UpdatedAt)).OrElse(Lacking(rt, f, Credentials))
            .OrElse(Lacking(rt, f, Extra)).OrElse(Lacking(rt, f, Concurrency)).OrElse(Lacking(rt, f, Priority))
            .OrElse(Lacking(rt, f, RateMultiplier)).OrElse(Lacking(rt, f, Status))
            .OrElse(Lacking(rt, f, AutoPauseOnExpired)).OrElse(Lacking(rt, f, Schedulable))
            .OrElse(Lacking(rt, f, QuotaDimension))
  {
    FirstDefaults(rt, f);
    LastDefaults(rt, f);
  }

  /** Then the columns before it have been filled in, and those behind it have not. */
  lemma {:induction false} DefaultsStopThere(rt: Runtime, f: Fields, columns: seq<Column>, k: nat)
    requires Distinct(columns) && k < |columns| && Lacking(rt, f, columns[k]).Some?
    requires forall i | 0 <= i < k :: Lacking(rt, f, columns[i]) == None
    ensures forall i | 0 <= i < k :: columns[i] in WithDefaults(rt, f, columns)
    ensures forall i | k <= i < |columns| :: columns[i] in WithDefaults(rt, f, columns) <==> columns[i] in f
    decreases |columns|
  {
    if k > 0 {
      var c, rest := columns[0], columns[1..];
      var next := if c in f then f else f[c := rt.defaults[c]];
      assert Lacking(rt, f, columns[0]) == None;
      forall i | 0 <= i < k - 1 ensures Lacking(rt, next, rest[i]) == None {
        assert Lacking(rt, f, columns[i + 1]) == None;
      }
      assert rest[k - 1] == columns[k] != c;
      DefaultsStopThere(rt, next, rest, k - 1);
      DefaultsMeaning(rt, next, rest, c);
      forall i | 0 <= i < |columns|
        ensures i < k ==> columns[i] in WithDefaults(rt, f, columns)
        ensures i >= k ==> (columns[i] in WithDefaults(rt, f, columns) <==> columns[i] in f)
      {
        if i > 0 { assert rest[i - 1] == columns[i]; }
      }
    }
  }

  /** Every default has been initialised. */
  ghost predicate Initialised(rt: Runtime) {
    forall c | HasDefault(c) :: c in rt.defaults
  }

  /** `got` is what the caller has set, and the default of every other column that has one. */
  ghost predicate CompletedFrom(rt: Runtime, own: Fields, got: Fields)
    requires Initialised(rt)
  {
    && (forall c :: c in got <==> c in own || HasDefault(c))
    && (forall c | c in got :: got[c] == if c in own then own[c] else rt.defaults[c])
  }

  /** With every default initialised `defaults` succeeds and completes the fields. */
  lemma {:induction false} DefaultsComplete(rt: Runtime, f: Fields)
    requires Initialised(rt)
    ensures DefaultsFault(rt, f, DEFAULTED) == None
    ensures CompletedFrom(rt, f, WithDefaults(rt, f, DEFAULTED))
  {
    DefaultedDistinct();
    if DefaultsFault(rt, f, DEFAULTED).Some? {
      var u := DefaultsFault(rt, f, DEFAULTED).value.column;
      DefaultsMeaning(rt, f, DEFAULTED, u);
      DefaultedAre(u);
    }
    var g := WithDefaults(rt, f, DEFAULTED);
    forall c
      ensures c in g <==> c in f || HasDefault(c)
      ensures c in g ==> g[c] == if c in f then f[c] else rt.defaults[c]
    {
      DefaultsMeaning(rt, f, DEFAULTED, c);
      DefaultedAre(c);
    }
  }

  lemma AllDefaulted(own: Fields, got: Fields)
    requires forall c :: c in got <==> c in own || HasDefault(c)
    ensures CreatedAt in got && UpdatedAt in got && Credentials in got && Extra in got && Concurrency in got
    ensures Priority in got && RateMultiplier in got && Status in got && AutoPauseOnExpired in got
    ensures Schedulable in got && QuotaDimension in got
  {
  }

  /** Of completed fields the check asks no more than a name, a platform, a type and the validators. */
  lemma CompletedPassesIff(rt: Runtime, own: Fields, got: Fields)
    requires Initialised(rt) && CompletedFrom(rt, own, got)
    ensures Check(rt, got) == None <==> Name in own && Platform in own && Type in own && Validated(rt, got)
  {
    CheckPassesWhen(rt, got);
    assert Name in got <==> Name in own;
    assert Platform in got <==> Platform in own;
    assert Type in got <==> Type in own;
    AllDefaulted(own, got);
  }

  /** Where the required columns with a default stand among the rules. */
  const RULE_OF_DEFAULT: seq<nat> := [0, 1, 5, 6, 7, 8, 9, 10, 11, 12, 14]

  lemma DefaultHasRule(i: nat)
    requires i < |DEFAULTED|
    ensures var k := RULE_OF_DEFAULT[i]; k < |RULES| && RULES[k] == Rule(DEFAULTED[i], true, RULES[k].validated)
  {
  }

  lemma DefaultedIsRequired(c: Column)
    requires c in DEFAULTED
    ensures exists r | r in RULES :: r.column == c && r.required
  {
    var i :| 0 <= i < |DEFAULTED| && DEFAULTED[i] == c;
    DefaultHasRule(i);
    assert RULES[RULE_OF_DEFAULT[i]] in RULES;
  }

  /**
   The bulk path ignores the error of `defaults`. That is harmless: whichever default functions are
   uninitialised, if `defaults` fails then the check of the fields it leaves fails too.
   */
  lemma {:induction false} IgnoredDefaultsErrorIsCaught(rt: Runtime, f: Fields)
    requires DefaultsFault(rt, f, DEFAULTED).Some?
    ensures Check(rt, WithDefaults(rt, f, DEFAULTED)).Some?
  {
    var u := DefaultsFault(rt, f, DEFAULTED).value.column;
    DefaultedDistinct();
    DefaultsMeaning(rt, f, DEFAULTED, u);
    DefaultedIsRequired(u);
    var r :| r in RULES && r.column == u && r.required;
    CheckPassesIff(rt, WithDefaults(rt, f, DEFAULTED));
  }

  lemma RuleAt(k: nat)
    requires k < |RULES| && RULES[k].required
    ensures RULES[k].column in {Name, Platform, Type} ||
            exists i | 0 <= i < |DEFAULTED| :: DEFAULTED[i] == RULES[k].column
  {
    if i :| 0 <= i < |DEFAULTED| && RULE_OF_DEFAULT[i] == k {
      DefaultHasRule(i);
    } else {
      assert RULE_OF_DEFAULT[0] == 0 && RULE_OF_DEFAULT[1] == 1 && RULE_OF_DEFAULT[2] == 5 && RULE_OF_DEFAULT[3] == 6
          && RULE_OF_DEFAULT[4] == 7 && RULE_OF_DEFAULT[5] == 8 && RULE_OF_DEFAULT[6] == 9 && RULE_OF_DEFAULT[7] == 10
          && RULE_OF_DEFAULT[8] == 11 && RULE_OF_DEFAULT[9] == 12 && RULE_OF_DEFAULT[10] == 14;
      assert k in {2, 3, 4, 13};
    }
  }

  lemma RequiredWithoutDefault(r: Rule)
    requires r in RULES && r.required && r.column !in DEFAULTED
    ensures r.column in {Name, Platform, Type}
  {
    var k :| 0 <= k < |RULES| && RULES[k] == r;
    RuleAt(k);
  }

  /** After `defaults` has succeeded, only a missing name, platform or type or a validator can fail the check. */
  lemma {:induction false} CheckAfterDefaults(rt: Runtime, f: Fields)
    requires DefaultsFault(rt, f, DEFAULTED) == None
    ensures var g := WithDefaults(rt, f, DEFAULTED);
            Check(rt, g).Some? ==>
              var e := Check(rt, g).value;
              || (e.MissingField? && e.column in {Name, Platform, Type} && e.column !in f)
              || (e.InvalidField? && e.column in g && !rt.valid(e.column, g[e.column]))
  {
    var g := WithDefaults(rt, f, DEFAULTED);
    RulesFaultMeaning(rt, g, RULES);
    if Check(rt, g).Some? {
      var r :| r in RULES && Check(rt, g) == RuleFault(rt, g, r);
      DefaultedDistinct();
      DefaultsMeaning(rt, f, DEFAULTED, r.column);
      if r.required && r.column !in g {
        RequiredWithoutDefault(r);
      }
    }
  }

  /** Running `defaults` again changes nothing. */
  lemma {:induction false} DefaultsIdempotent(rt: Runtime, f: Fields)
    requires DefaultsFault(rt, f, DEFAULTED) == None
    ensures var g := WithDefaults(rt, f, DEFAULTED);
            WithDefaults(rt, g, DEFAULTED) == g && DefaultsFault(rt, g, DEFAULTED) == None
  {
    var g := WithDefaults(rt, f, DEFAULTED);
    DefaultedDistinct();
    forall c | c in DEFAULTED ensures c in g {
      DefaultsMeaning(rt, f, DEFAULTED, c);
    }
    NothingToDefault(rt, g, DEFAULTED);
  }

  lemma {:induction false} NothingToDefault(rt: Runtime, g: Fields, columns: seq<Column>)
    requires forall c | c in columns :: c in g
    ensures WithDefaults(rt, g, columns) == g && DefaultsFault(rt, g, columns) == None
  {
    if columns != [] {
      NothingToDefault(rt, g, columns[1..]);
    }
  }

  // ----- the insert specification ---------------------------------------------------------

  datatype FieldType = TypeTime | TypeString | TypeJSON | TypeInt | TypeInt64 | TypeFloat64 | TypeBool | TypeEnum

  datatype FieldSpec = FieldSpec(column: Column, fieldType: FieldType, value: Value)

  datatype CreateSpec = CreateSpec(fields: seq<FieldSpec>, edges: seq<EdgeSpec>)

  /** The plain fields, in the order `createSpec` visits them, with the type it declares for each. */
  const SPEC_FIELDS: seq<(Column, FieldType)> := [
    (CreatedAt, TypeTime), (UpdatedAt, TypeTime), (DeletedAt, TypeTime), (Name, TypeString),
    (Notes, TypeString), (Platform, TypeString), (Type, TypeString), (Credentials, TypeJSON),
    (Extra, TypeJSON), (ProxyFallbackOriginID, TypeInt64), (Concurrency, TypeInt), (LoadFactor, TypeInt),
    (Priority, TypeInt), (RateMultiplier, TypeFloat64), (Status, TypeString), (ErrorMessage, TypeString),
    (LastUsedAt, TypeTime), (ExpiresAt, TypeTime), (AutoPauseOnExpired, TypeBool), (Schedulable, TypeBool),
    (RateLimitedAt, TypeTime), (RateLimitResetAt, TypeTime), (OverloadUntil, TypeTime),
    (TempUnschedulableUntil, TypeTime), (TempUnschedulableReason, TypeString), (SessionWindowStart, TypeTime),
    (SessionWindowEnd, TypeTime), (SessionWindowStatus, TypeString), (QuotaDimension, TypeEnum)]

  /** A mutation: its fields, the two foreign keys among them, and the ids of its to-many edges. */
  datatype Mutation = Mutation(fields: Fields, groups: seq<int>, children: seq<int>, usageLogs: seq<int>)

  function SpecFields(f: Fields, table: seq<(Column, FieldType)>): seq<FieldSpec> {
    if table == [] then []
    else
      var n := |table| - 1;
      var c := table[n].0;
      SpecFields(f, table[..n]) + (if c in f then [FieldSpec(c, table[n].1, f[c])] else [])
  }

  /** The foreign key of a single-neighbour edge of the mutation. */
  function EdgeIds(f: Fields, c: Column): seq<int> {
    if c in f && f[c].VInt? then [f[c].n] else []
  }

  function EdgeIfAny(relation: Relation, ids: seq<int>): seq<EdgeSpec> {
    if ids == [] then [] else [EdgeSpec(relation, ids)]
  }

  function SpecOf(m: Mutation): CreateSpec {
    CreateSpec(SpecFields(m.fields, SPEC_FIELDS), SpecEdges(m))
  }

  function SpecEdges(m: Mutation): seq<EdgeSpec> {
    EdgeIfAny(Groups, m.groups) + EdgeIfAny(Proxy, EdgeIds(m.fields, ProxyID)) +
    EdgeIfAny(Parent, EdgeIds(m.fields, ParentAccountID)) +
    EdgeIfAny(Children, m.children) + EdgeIfAny(UsageLogs, m.usageLogs)
  }

  /** What the mutation says of each relation. */
  ghost predicate Connects(m: Mutation, r: Relation, n: int) {
    match r
    case Groups => n in m.groups
    case Proxy => ProxyID in m.fields && m.fields[ProxyID] == VInt(n)
    case Parent => ParentAccountID in m.fields && m.fields[ParentAccountID] == VInt(n)
    case Children => n in m.children
    case UsageLogs => n in m.usageLogs
  }

  lemma EdgeIfAnyNames(relation: Relation, ids: seq<int>, r: Relation, n: int)
    ensures NamedBy(EdgeIfAny(relation, ids), r, n) <==> relation == r && n in ids
  {
    if relation == r && n in ids {
      assert EdgeIfAny(relation, ids)[0] == EdgeSpec(relation, ids);
    }
  }

  /** Some edge of the relation names `n`. */
  ghost predicate NamedBy(edges: seq<EdgeSpec>, r: Relation, n: int) {
    exists i | 0 <= i < |edges| :: edges[i].relation == r && n in edges[i].nodes
  }

  lemma NamedByEither(a: seq<EdgeSpec>, b: seq<EdgeSpec>, r: Relation, n: int)
    ensures NamedBy(a + b, r, n) <==> NamedBy(a, r, n) || NamedBy(b, r, n)
  {
    var all := a + b;
    if i :| 0 <= i < |a| && a[i].relation == r && n in a[i].nodes {
      assert all[i] == a[i];
    }
    if i :| 0 <= i < |b| && b[i].relation == r && n in b[i].nodes {
      assert all[|a| + i] == b[i];
    }
  }

  lemma NamedByParts(g: seq<EdgeSpec>, x: seq<EdgeSpec>, y: seq<EdgeSpec>, c: seq<EdgeSpec>, u: seq<EdgeSpec>,
                     r: Relation, n: int)
    ensures NamedBy(g + x + y + c + u, r, n) <==>
              NamedBy(g, r, n) || NamedBy(x, r, n) || NamedBy(y, r, n) || NamedBy(c, r, n) || NamedBy(u, r, n)
  {
    NamedByEither(g + x + y + c, u, r, n);
    NamedByEither(g + x + y, c, r, n);
    NamedByEither(g + x, y, r, n);
    NamedByEither(g, x, r, n);
  }

  /**
   For every mutation, relation and id: the specification has an edge of the relation naming the id
   exactly when the mutation connects them.
   */
  lemma SpecConnectsIff(m: Mutation, r: Relation, n: int)
    ensures NamedBy(SpecOf(m).edges, r, n) <==> Connects(m, r, n)
  {
    var proxies, parents := EdgeIds(m.fields, ProxyID), EdgeIds(m.fields, ParentAccountID);
    NamedByParts(EdgeIfAny(Groups, m.groups), EdgeIfAny(Proxy, proxies), EdgeIfAny(Parent, parents),
                 EdgeIfAny(Children, m.children), EdgeIfAny(UsageLogs, m.usageLogs), r, n);
    EdgeIfAnyNames(Groups, m.groups, r, n);
    EdgeIfAnyNames(Proxy, proxies, r, n);
    EdgeIfAnyNames(Parent, parents, r, n);
    EdgeIfAnyNames(Children, m.children, r, n);
    EdgeIfAnyNames(UsageLogs, m.usageLogs, r, n);
  }

  /** No edge is without nodes, no two are of one relation, and all are of these relations. */
  ghost predicate OneEach(edges: seq<EdgeSpec>, relations: set<Relation>) {
    && (forall i | 0 <= i < |edges| :: edges[i].nodes != [] && edges[i].relation in relations)
    && (forall i, j | 0 <= i < j < |edges| :: edges[i].relation != edges[j].relation)
  }

  lemma OneEachAppend(edges: seq<EdgeSpec>, relations: set<Relation>, relation: Relation, ids: seq<int>)
    requires OneEach(edges, relations) && relation !in relations
    ensures OneEach(edges + EdgeIfAny(relation, ids), relations + {relation})
  {
  }

  lemma SpecHasOneEach(m: Mutation)
    ensures OneEach(SpecOf(m).edges, {Groups, Proxy, Parent, Children, UsageLogs})
  {
    var proxies, parents := EdgeIds(m.fields, ProxyID), EdgeIds(m.fields, ParentAccountID);
    var g, x, y := EdgeIfAny(Groups, m.groups), EdgeIfAny(Proxy, proxies), EdgeIfAny(Parent, parents);
    assert [] + g == g;
    OneEachAppend([], {}, Groups, m.groups);
    OneEachAppend(g, {Groups}, Proxy, proxies);
    OneEachAppend(g + x, {Groups, Proxy}, Parent, parents);
    OneEachAppend(g + x + y, {Groups, Proxy, Parent}, Children, m.children);
    OneEachAppend(g + x + y + EdgeIfAny(Children, m.children), {Groups, Proxy, Parent, Children}, UsageLogs, m.usageLogs);
  }

  /** A node with the foreign keys of the mutation's single-neighbour edges. */
  function WithForeignKeys(plain: Fields, f: Fields): Fields {
    var one := if EdgeIds(f, ProxyID) != [] then plain[ProxyID := VInt(EdgeIds(f, ProxyID)[0])] else plain;
    if EdgeIds(f, ParentAccountID) != [] then one[ParentAccountID := VInt(EdgeIds(f, ParentAccountID)[0])] else one
  }

  /** The builder of one account. */
  class Builder {
    var mutation: Mutation

    constructor (mutation: Mutation)
      ensures this.mutation == mutation
    {
      this.mutation := mutation;
    }

    method Defaults(rt: Runtime) returns (err: Option<CreateError>)
      modifies this
      ensures err == DefaultsFault(rt, old(mutation.fields), DEFAULTED)
      ensures mutation == old(mutation).(fields := WithDefaults(rt, old(mutation.fields), DEFAULTED))
    {
      for i := 0 to |DEFAULTED|
        invariant mutation == old(mutation).(fields := mutation.fields)
        invariant DefaultsFault(rt, old(mutation.fields), DEFAULTED) == DefaultsFault(rt, mutation.fields, DEFAULTED[i..])
        invariant WithDefaults(rt, old(mutation.fields), DEFAULTED) == WithDefaults(rt, mutation.fields, DEFAULTED[i..])
      {
        var c := DEFAULTED[i];
        if c !in mutation.fields {
          if c !in rt.defaults {
            return Some(Uninitialized(c));
          }
          DefaultedDistinct();
          DefaultsFaultKept(rt, mutation.fields, c, DEFAULTED[i + 1..]);
          mutation := mutation.(fields := mutation.fields[c := rt.defaults[c]]);
        }
      }
      return None;
    }

    method RunCheck(rt: Runtime) returns (err: Option<CreateError>)
      ensures err == Check(rt, mutation.fields)
    {
      for i := 0 to |RULES|
        invariant Check(rt, mutation.fields) == RulesFault(rt, mutation.fields, RULES[i..])
      {
        var rule := RULES[i];
        if rule.required && rule.column !in mutation.fields {
          return Some(MissingField(rule.column));
        }
        if rule.validated && rule.column in mutation.fields {
          if !rt.valid(rule.column, mutation.fields[rule.column]) {
            return Some(InvalidField(rule.column));
          }
        }
      }
      return None;
    }

    /** `createSpec`: the specification to insert and the node handed back to the caller. */
    method MakeSpec() returns (node: Fields, spec: CreateSpec)
      requires Settable(mutation.fields) && WellTyped(mutation.fields)
      ensures spec == SpecOf(mutation)
      ensures forall r, n :: NamedBy(spec.edges, r, n) <==> Connects(mutation, r, n)
      ensures node == mutation.fields
    {
      var plain, fields := SetFields(SPEC_FIELDS);
      var edges;
      node, edges := SetEdges(plain);
      spec := CreateSpec(fields, edges);
      forall r, n ensures NamedBy(spec.edges, r, n) <==> Connects(mutation, r, n) {
        SpecConnectsIff(mutation, r, n);
      }
      ForeignKeysAreInts(mutation.fields);
      forall c | c in mutation.fields ensures c in plain || c == ProxyID || c == ParentAccountID {
        SettableIsWritten(mutation.fields, c);
      }
      NodeComplete(mutation.fields, plain);
    }

    method SetEdges(plain: Fields) returns (node: Fields, edges: seq<EdgeSpec>)
      ensures node == WithForeignKeys(plain, mutation.fields)
      ensures edges == SpecEdges(mutation)
    {
      node, edges := plain, [];
      if |mutation.groups| > 0 {
        edges := edges + [EdgeSpec(Groups, mutation.groups)];
      }
      assert edges == EdgeIfAny(Groups, mutation.groups);
      ghost var toGroups := edges;
      var proxies := EdgeIds(mutation.fields, ProxyID);
      if |proxies| > 0 {
        node := node[ProxyID := VInt(proxies[0])];
        edges := edges + [EdgeSpec(Proxy, proxies)];
      }
      assert edges == toGroups + EdgeIfAny(Proxy, proxies);
      ghost var toProxy := edges;
      var parents := EdgeIds(mutation.fields, ParentAccountID);
      if |parents| > 0 {
        node := node[ParentAccountID := VInt(parents[0])];
        edges := edges + [EdgeSpec(Parent, parents)];
      }
      assert edges == toProxy + EdgeIfAny(Parent, parents);
      edges := AddToManyEdges(edges);
    }

    method AddToManyEdges(before: seq<EdgeSpec>) returns (edges: seq<EdgeSpec>)
      ensures edges == before + EdgeIfAny(Children, mutation.children) + EdgeIfAny(UsageLogs, mutation.usageLogs)
    {
      edges := before;
      if |mutation.children| > 0 {
        edges := edges + [EdgeSpec(Children, mutation.children)];
      }
      if |mutation.usageLogs| > 0 {
        edges := edges + [EdgeSpec(UsageLogs, mutation.usageLogs)];
      }
    }

    /** The plain fields of `createSpec`, set on the specification and on the node alike. */
    method SetFields(table: seq<(Column, FieldType)>) returns (node: Fields, fields: seq<FieldSpec>)
      ensures fields == SpecFields(mutation.fields, table)
      ensures forall c :: c in node <==> c in mutation.fields && ListedIn(c, table)
      ensures forall c | c in node :: node[c] == mutation.fields[c]
    {
      var f := mutation.fields;
      node, fields := map[], [];
      for i := 0 to |table|
        invariant fields == SpecFields(f, table[..i])
        invariant forall c :: c in node <==> c in f && ListedIn(c, table[..i])
        invariant forall c | c in node :: node[c] == f[c]
      {
        var c := table[i].0;
        assert table[..i + 1][..i] == table[..i];
        ListedStep(table[..i + 1]);
        if c in f {
          fields := fields + [FieldSpec(c, table[i].1, f[c])];
          node := node[c := f[c]];
        }
      }
      assert table[..|table|] == table;
    }
  }

  lemma ListedStep(table: seq<(Column, FieldType)>)
    requires table != []
    ensures forall c :: ListedIn(c, table) <==> ListedIn(c, table[..|table| - 1]) || c == table[|table| - 1].0
  {
    forall c ensures ListedIn(c, table) <==> ListedIn(c, table[..|table| - 1]) || c == table[|table| - 1].0 {
      if ListedIn(c, table[..|table| - 1]) {
        var i :| 0 <= i < |table| - 1 && table[..|table| - 1][i].0 == c;
        assert table[i].0 == c;
      }
      if ListedIn(c, table) {
        var i :| 0 <= i < |table| && table[i].0 == c;
        assert i < |table| - 1 ==> table[..|table| - 1][i].0 == c;
      }
    }
  }

  lemma ForeignKeysAreInts(f: Fields)
    requires WellTyped(f)
    ensures ProxyID in f ==> f[ProxyID].VInt?
    ensures ParentAccountID in f ==> f[ParentAccountID].VInt?
  {
    assert KindOf(ProxyID) == KInt && KindOf(ParentAccountID) == KInt;
  }

  /** The plain fields and the two foreign keys make up the whole node. */
  lemma NodeComplete(f: Fields, plain: Fields)
    requires ProxyID in f ==> f[ProxyID].VInt?
    requires ParentAccountID in f ==> f[ParentAccountID].VInt?
    requires forall c | c in f :: c in plain || c == ProxyID || c == ParentAccountID
    requires forall c | c in plain :: c in f && plain[c] == f[c]
    ensures WithForeignKeys(plain, f) == f
  {
    var node := WithForeignKeys(plain, f);
    assert forall c | c in f :: c in node && node[c] == f[c];
    assert forall c | c in node :: c in f;
  }

  predicate ListedIn(c: Column, table: seq<(Column, FieldType)>) {
    exists i | 0 <= i < |table| :: table[i].0 == c
  }

  /** The fields a create mutation can carry: every column of the account but its id. */
  ghost predicate Settable(f: Fields) {
    forall c | c in f :: !c.Unknown? && c != ID
  }

  /** Each of them is written, as a plain field or as the key of an edge. */
  lemma SettableIsWritten(f: Fields, c: Column)
    requires Settable(f) && c in f
    ensures ListedIn(c, SPEC_FIELDS) || c == ProxyID || c == ParentAccountID
  {
    if c != ProxyID && c != ParentAccountID {
      PlainColumnListed(c);
    }
  }

  lemma PlainColumnListed(c: Column)
    requires !c.Unknown? && c != ID && c != ProxyID && c != ParentAccountID
    ensures ListedIn(c, SPEC_FIELDS)
  {
    match c
    case CreatedAt => assert SPEC_FIELDS[0].0 == c;
    case UpdatedAt => assert SPEC_FIELDS[1].0 == c;
    case DeletedAt => assert SPEC_FIELDS[2].0 == c;
    case Name => assert SPEC_FIELDS[3].0 == c;
    case Notes => assert SPEC_FIELDS[4].0 == c;
    case Platform => assert SPEC_FIELDS[5].0 == c;
    case Type => assert SPEC_FIELDS[6].0 == c;
    case Credentials => assert SPEC_FIELDS[7].0 == c;
    case Extra => assert SPEC_FIELDS[8].0 == c;
    case ProxyFallbackOriginID => assert SPEC_FIELDS[9].0 == c;
    case Concurrency => assert SPEC_FIELDS[10].0 == c;
    case LoadFactor => assert SPEC_FIELDS[11].0 == c;
    case Priority => assert SPEC_FIELDS[12].0 == c;
    case RateMultiplier => assert SPEC_FIELDS[13].0 == c;
    case Status => assert SPEC_FIELDS[14].0 == c;
    case ErrorMessage => assert SPEC_FIELDS[15].0 == c;
    case LastUsedAt => assert SPEC_FIELDS[16].0 == c;
    case ExpiresAt => assert SPEC_FIELDS[17].0 == c;
    case AutoPauseOnExpired => assert SPEC_FIELDS[18].0 == c;
    case Schedulable => assert SPEC_FIELDS[19].0 == c;
    case RateLimitedAt => assert SPEC_FIELDS[20].0 == c;
    case RateLimitResetAt => assert SPEC_FIELDS[21].0 == c;
    case OverloadUntil => assert SPEC_FIELDS[22].0 == c;
    case TempUnschedulableUntil => assert SPEC_FIELDS[23].0 == c;
    case TempUnschedulableReason => assert SPEC_FIELDS[24].0 == c;
    case SessionWindowStart => assert SPEC_FIELDS[25].0 == c;
    case SessionWindowEnd => assert SPEC_FIELDS[26].0 == c;
    case SessionWindowStatus => assert SPEC_FIELDS[27].0 == c;
    case QuotaDimension => assert SPEC_FIELDS[28].0 == c;
  }

  // ----- create, then scan ----------------------------------------------------------------

  /** The row an insert stores: the plain fields, and a single-neighbour edge as its key column. */
  function StoredFields(fields: seq<FieldSpec>): Fields {
    if fields == [] then map[]
    else var n := |fields| - 1; StoredFields(fields[..n])[fields[n].column := fields[n].value]
  }

  function StoredEdges(row: Fields, edges: seq<EdgeSpec>): Fields {
    if edges == [] then row
    else
      var n := |edges| - 1;
      var before := StoredEdges(row, edges[..n]);
      if edges[n].nodes == [] then before
      else match edges[n].relation
        case Proxy => before[ProxyID := VInt(edges[n].nodes[0])]
        case Parent => before[ParentAccountID := VInt(edges[n].nodes[0])]
        case _ => before
  }

  function InsertedRow(spec: CreateSpec, id: int): Fields {
    StoredEdges(StoredFields(spec.fields), spec.edges)[ID := VInt(id)]
  }

  lemma {:induction false} StoredFieldsMeaning(f: Fields, table: seq<(Column, FieldType)>)
    ensures var r := StoredFields(SpecFields(f, table));
            && (forall c :: c in r <==> c in f && ListedIn(c, table))
            && (forall c | c in r :: r[c] == f[c])
  {
    if table != [] {
      var n := |table| - 1;
      var c, init := table[n].0, SpecFields(f, table[..n]);
      StoredFieldsMeaning(f, table[..n]);
      ListedStep(table);
      if c in f {
        assert SpecFields(f, table)[..|init|] == init;
        assert StoredFields(SpecFields(f, table)) == StoredFields(init)[c := f[c]];
      } else {
        assert SpecFields(f, table) == init;
      }
    }
  }

  lemma {:induction false} StoredEdgesAppend(row: Fields, a: seq<EdgeSpec>, relation: Relation, ids: seq<int>)
    ensures StoredEdges(row, a + EdgeIfAny(relation, ids)) ==
            var before := StoredEdges(row, a);
            if ids == [] then before
            else match relation
              case Proxy => before[ProxyID := VInt(ids[0])]
              case Parent => before[ParentAccountID := VInt(ids[0])]
              case _ => before
  {
    if ids == [] {
      assert a + EdgeIfAny(relation, ids) == a;
    } else {
      assert (a + EdgeIfAny(relation, ids))[..|a|] == a;
    }
  }

  lemma {:induction false} StoredEdgesMeaning(row: Fields, m: Mutation)
    ensures StoredEdges(row, SpecEdges(m)) == WithForeignKeys(row, m.fields)
  {
    var e1 := EdgeIfAny(Groups, m.groups);
    var e2 := e1 + EdgeIfAny(Proxy, EdgeIds(m.fields, ProxyID));
    var e3 := e2 + EdgeIfAny(Parent, EdgeIds(m.fields, ParentAccountID));
    var e4 := e3 + EdgeIfAny(Children, m.children);
    assert [] + e1 == e1;
    StoredEdgesAppend(row, [], Groups, m.groups);
    StoredEdgesAppend(row, e1, Proxy, EdgeIds(m.fields, ProxyID));
    StoredEdgesAppend(row, e2, Parent, EdgeIds(m.fields, ParentAccountID));
    StoredEdgesAppend(row, e3, Children, m.children);
    StoredEdgesAppend(row, e4, UsageLogs, m.usageLogs);
  }

  /** The row inserted for a mutation holds exactly the mutation's fields, and the id. */
  lemma InsertedRowIsMutation(m: Mutation, id: int)
    requires Settable(m.fields) && WellTyped(m.fields)
    ensures InsertedRow(SpecOf(m), id) == m.fields[ID := VInt(id)]
  {
    StoredFieldsMeaning(m.fields, SPEC_FIELDS);
    var plain := StoredFields(SpecFields(m.fields, SPEC_FIELDS));
    StoredEdgesMeaning(plain, m);
    ForeignKeysAreInts(m.fields);
    forall c | c in m.fields ensures c in plain || c == ProxyID || c == ParentAccountID {
      SettableIsWritten(m.fields, c);
    }
    NodeComplete(m.fields, plain);
  }

  lemma KnownColumnListed(c: Column)
    requires !c.Unknown?
    ensures c in COLUMNS
  {
    match c
    case ID => assert COLUMNS[0] == c;
    case CreatedAt => assert COLUMNS[1] == c;
    case UpdatedAt => assert COLUMNS[2] == c;
    case DeletedAt => assert COLUMNS[3] == c;
    case Name => assert COLUMNS[4] == c;
    case Notes => assert COLUMNS[5] == c;
    case Platform => assert COLUMNS[6] == c;
    case Type => assert COLUMNS[7] == c;
    case Credentials => assert COLUMNS[8] == c;
    case Extra => assert COLUMNS[9] == c;
    case ProxyID => assert COLUMNS[10] == c;
    case ProxyFallbackOriginID => assert COLUMNS[11] == c;
    case Concurrency => assert COLUMNS[12] == c;
    case LoadFactor => assert COLUMNS[13] == c;
    case Priority => assert COLUMNS[14] == c;
    case RateMultiplier => assert COLUMNS[15] == c;
    case Status => assert COLUMNS[16] == c;
    case ErrorMessage => assert COLUMNS[17] == c;
    case LastUsedAt => assert COLUMNS[18] == c;
    case ExpiresAt => assert COLUMNS[19] == c;
    case AutoPauseOnExpired => assert COLUMNS[20] == c;
    case Schedulable => assert COLUMNS[21] == c;
    case RateLimitedAt => assert COLUMNS[22] == c;
    case RateLimitResetAt => assert COLUMNS[23] == c;
    case OverloadUntil => assert COLUMNS[24] == c;
    case TempUnschedulableUntil => assert COLUMNS[25] == c;
    case TempUnschedulableReason => assert COLUMNS[26] == c;
    case SessionWindowStart => assert COLUMNS[27] == c;
    case SessionWindowEnd => assert COLUMNS[28] == c;
    case SessionWindowStatus => assert COLUMNS[29] == c;
    case ParentAccountID => assert COLUMNS[30] == c;
    case QuotaDimension => assert COLUMNS[31] == c;
  }

  /**
   Create-then-scan round trip, for every mutation: scanning the inserted row rebuilds the node that
   the create call returned, with the id it was given.
   */
  lemma CreateThenScan(m: Mutation, id: int)
    requires Settable(m.fields) && WellTyped(m.fields)
    ensures ScanRow(InsertedRow(SpecOf(m), id), COLUMNS) == m.fields[ID := VInt(id)]
  {
    var row := m.fields[ID := VInt(id)];
    InsertedRowIsMutation(m, id);
    assert KindOf(ID) == KInt;
    assert WellTyped(row);
    var r := ScanRow(row, COLUMNS);
    forall c ensures c in r <==> c in row {
      ScanReadsRow(row, COLUMNS, c);
      if c in row { KnownColumnListed(c); }
    }
    forall c | c in r ensures r[c] == row[c] {
      ScanReadsRow(row, COLUMNS, c);
    }
  }

  /** The declared type suits the buffer the column is read into and its Go type. */
  predicate TypesMatch(c: Column, t: FieldType) {
    match NewBuffer(c)
    case NullTime(_, _) => t == TypeTime && KindOf(c) == KTime
    case NullString(_, _) => t == (if c == QuotaDimension then TypeEnum else TypeString) && KindOf(c) == KString
    case Bytes(_) => t == TypeJSON && KindOf(c) == KJson
    case NullInt64(_, _) => t == (if c == ProxyFallbackOriginID then TypeInt64 else TypeInt) && KindOf(c) == KInt
    case NullFloat64(_, _) => t == TypeFloat64 && KindOf(c) == KFloat
    case NullBool(_, _) => t == TypeBool && KindOf(c) == KBool
    case UnknownType(_) => false
  }

  lemma FirstTypesMatch(i: nat)
    requires i < 10
    ensures TypesMatch(SPEC_FIELDS[i].0, SPEC_FIELDS[i].1)
  {
  }

  lemma MiddleTypesMatch(i: nat)
    requires 10 <= i < 20
    ensures TypesMatch(SPEC_FIELDS[i].0, SPEC_FIELDS[i].1)
  {
  }

  lemma LastTypesMatch(i: nat)
    requires 20 <= i < 29
    ensures TypesMatch(SPEC_FIELDS[i].0, SPEC_FIELDS[i].1)
  {
  }

  /** The type a field is written with, the buffer it is read into and its Go type agree. */
  lemma DeclaredTypesMatchBuffers(i: nat)
    requires i < |SPEC_FIELDS|
    ensures TypesMatch(SPEC_FIELDS[i].0, SPEC_FIELDS[i].1)
  {
    if i < 10 {
      FirstTypesMatch(i);
    } else if i < 20 {
      MiddleTypesMatch(i);
    } else {
      LastTypesMatch(i);
    }
  }
}
