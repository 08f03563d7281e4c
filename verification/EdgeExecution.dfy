/**
 Executing an edge program on the database as the migrations leave it. On top of the generated schema
 the accounts table has two checks, a parent exactly with a dimension other than global and never the
 account itself, and a unique index, one live spark shadow per parent. They are tested after every
 statement, and a violation undoes the whole update.
 */
module EdgeExecution {
  import opened Wrappers
  import opened AccountSchema
  import opened EdgeUpdate
  import opened EdgeStatements

  // ----- the checks -----------------------------------------------------------------------

  datatype Dimension = Global | Spark

  /** The tables of the edges, with what else the checks read of an account: its dimension and whether it is deleted. */
  datatype Store = Store(db: Db, dimensionOf: map<int, Dimension>, deleted: set<int>)

  predicate RowFits(parent: Option<int>, dimension: Dimension, c: int) {
    (parent.None? <==> dimension.Global?) && parent != Some(c)
  }

  /** Accounts that count for the index. */
  predicate LiveShadow(s: Store, c: int) {
    c in s.dimensionOf && s.dimensionOf[c].Spark? && c !in s.deleted
  }

  predicate ChecksHold(s: Store) {
    && (forall c | c in s.db.parentOf :: c in s.dimensionOf && RowFits(s.db.parentOf[c], s.dimensionOf[c], c))
    && (forall c, d | c in s.db.parentOf && d in s.db.parentOf && c != d && s.db.parentOf[c].Some? ::
          s.db.parentOf[c] == s.db.parentOf[d] ==> !LiveShadow(s, c) || !LiveShadow(s, d))
  }

  /** What the constraints keep true of the stored rows. */
  ghost predicate Valid(s: Store) {
    SameAccounts(s.db) && s.dimensionOf.Keys == s.db.parentOf.Keys && ChecksHold(s)
  }

  // ----- executing ------------------------------------------------------------------------

  /** The other columns of the account's own statement that the checks read, if the mutation sets them. */
  datatype OwnFields = OwnFields(dimension: Option<Dimension>, deleted: Option<bool>)

  datatype Refused = ByStatement(refusal: Refusal) | ByCheck

  type Execution = Result<Store, Refused>

  function Tested(s: Store): Execution {
    if ChecksHold(s) then Success(s) else Failure(ByCheck)
  }

  /** A statement's outcome, tested. */
  function After(s: Store, r: Outcome): Execution {
    if r.Failure? then Failure(ByStatement(r.error)) else Tested(s.(db := r.value))
  }

  function WithFields(s: Store, a: int, f: OwnFields): Store {
    s.(dimensionOf := if f.dimension.Some? then s.dimensionOf[a := f.dimension.value] else s.dimensionOf,
       deleted := match f.deleted case None => s.deleted case Some(gone) => if gone then s.deleted + {a} else s.deleted - {a})
  }

  function TestedClears(s: Store, a: int, specs: seq<EdgeSpec>): Execution
    decreases |specs|
  {
    if specs == [] then Success(s)
    else
      var r := After(s, ClearSpec(s.db, a, specs[0]));
      if r.Failure? then r else TestedClears(r.value, a, specs[1..])
  }

  function TestedAdds(s: Store, a: int, specs: seq<EdgeSpec>): Execution
    decreases |specs|
  {
    if specs == [] then Success(s)
    else
      var r := After(s, AddSpec(s.db, a, specs[0]));
      if r.Failure? then r else TestedAdds(r.value, a, specs[1..])
  }

  /** The account's own columns are one statement, its memberships touch no account. */
  function Execute(s: Store, a: int, f: OwnFields, p: EdgeProgram): Execution {
    if a !in s.db.parentOf then Failure(ByStatement(NoSuchAccount))
    else
      var own := After(WithFields(s, a, f), RunStep(OwnColumns, s.db, a, p));
      if own.Failure? then own
      else
        var joined := After(own.value, RunStep(Memberships, own.value.db, a, p));
        if joined.Failure? then joined else RunHeld(joined.value, a, p)
  }

  /** The statements on rows that hold the account's key, one by one. */
  function RunHeld(s: Store, a: int, p: EdgeProgram): Execution {
    var cleared := TestedClears(s, a, OfStep(KeysHeldByOthers, p.clears));
    if cleared.Failure? then cleared else TestedAdds(cleared.value, a, OfStep(KeysHeldByOthers, p.adds))
  }

  // ----- the specification ----------------------------------------------------------------

  function ParentIn(s: Store, a: int, m: EdgeChanges): Option<int>
    requires a in s.db.parentOf
  {
    AppliedTarget(m.parent, s.db.parentOf[a])
  }

  function DimensionIn(s: Store, a: int, f: OwnFields): Dimension
    requires a in s.dimensionOf
  {
    f.dimension.GetOr(s.dimensionOf[a])
  }

  /**
   The account's own row after its statement: a parent exactly with the spark dimension, not itself, and,
   unless the account is deleted, not one that has another live shadow.
   */
  ghost predicate OwnRowAllowed(s: Store, a: int, f: OwnFields, m: EdgeChanges)
    requires a in s.db.parentOf && a in s.dimensionOf
  {
    && RowFits(ParentIn(s, a, m), DimensionIn(s, a, f), a)
    && (ParentIn(s, a, m).Some? && !f.deleted.GetOr(a in s.deleted) ==>
          forall c | c in s.db.parentOf && c != a && s.db.parentOf[c] == ParentIn(s, a, m) :: c in s.deleted)
  }

  /** Like usage logs, children can neither be added nor taken away: neither change suits their dimension. */
  ghost predicate ChildrenKept(fk: map<int, Option<int>>, a: int, d: Delta) {
    d.added == {} && NoneFreed(fk, a, d)
  }

  ghost predicate NoneFreed(fk: map<int, Option<int>>, a: int, d: Delta) {
    forall c | c in fk && fk[c] == Some(a) :: !d.cleared && c !in d.removed
  }

  /** When the database takes an update of account `a`. */
  ghost predicate Allowed(s: Store, a: int, f: OwnFields, m: EdgeChanges) {
    && a in s.db.parentOf && a in s.db.proxyOf && a in s.dimensionOf
    && (m.proxy.id.Some? ==> m.proxy.id.value in s.db.proxies)
    && (m.parent.id.Some? ==> m.parent.id.value in s.db.parentOf)
    && OwnRowAllowed(s, a, f, m)
    && MembershipsAllowed(s.db, a, m.groups)
    && ChildrenKept(s.db.parentOf, a, m.children)
    && LogsAllowed(s.db, a, m.usageLogs)
  }

  /** What it then makes of the database. */
  function Updated(s: Store, a: int, f: OwnFields, m: EdgeChanges): Store
    requires a in s.db.parentOf && a in s.db.proxyOf
  {
    WithFields(s, a, f).(db := s.db.(
      members := Grouped(Ungrouped(s.db.members, a, m.groups), a, m.groups.added),
      proxyOf := Retargeted(s.db.proxyOf, a, m.proxy),
      parentOf := Retargeted(s.db.parentOf, a, m.parent)))
  }

  // ----- the account's own statement ------------------------------------------------------

  /** The accounts table after the own statement. */
  function OwnUpdated(s: Store, a: int, f: OwnFields, m: EdgeChanges): Store
    requires a in s.db.parentOf && a in s.db.proxyOf
  {
    WithFields(s, a, f).(db := s.db.(proxyOf := Retargeted(s.db.proxyOf, a, m.proxy),
                                     parentOf := Retargeted(s.db.parentOf, a, m.parent)))
  }

  lemma OwnRowOf(s: Store, a: int, f: OwnFields, m: EdgeChanges)
    requires Valid(s) && a in s.db.parentOf && a in s.db.proxyOf && a in s.dimensionOf
    ensures var t := OwnUpdated(s, a, f, m);
            && t.db.parentOf.Keys == s.db.parentOf.Keys && t.dimensionOf.Keys == s.dimensionOf.Keys
            && t.db.parentOf[a] == ParentIn(s, a, m) && t.dimensionOf[a] == DimensionIn(s, a, f)
            && (a in t.deleted <==> f.deleted.GetOr(a in s.deleted))
            && (forall c | c in s.db.parentOf && c != a ::
                  && t.db.parentOf[c] == s.db.parentOf[c] && t.dimensionOf[c] == s.dimensionOf[c]
                  && (c in t.deleted <==> c in s.deleted))
  {
  }

  /** The checks hold after the own statement exactly when they hold of the account's own row. */
  lemma OwnChecksIff(s: Store, a: int, f: OwnFields, m: EdgeChanges)
    requires Valid(s) && a in s.db.parentOf && a in s.db.proxyOf && a in s.dimensionOf
    ensures ChecksHold(OwnUpdated(s, a, f, m)) <==> OwnRowAllowed(s, a, f, m)
  {
    OwnRowOf(s, a, f, m);
    if ChecksHold(OwnUpdated(s, a, f, m)) {
      OwnRowFrom(s, a, f, m);
    }
    if OwnRowAllowed(s, a, f, m) {
      OwnChecksFrom(s, a, f, m);
    }
  }

  lemma OwnRowFrom(s: Store, a: int, f: OwnFields, m: EdgeChanges)
    requires Valid(s) && a in s.db.parentOf && a in s.db.proxyOf && a in s.dimensionOf
    requires ChecksHold(OwnUpdated(s, a, f, m))
    ensures OwnRowAllowed(s, a, f, m)
  {
    var t, parent := OwnUpdated(s, a, f, m), ParentIn(s, a, m);
    OwnRowOf(s, a, f, m);
    assert RowFits(t.db.parentOf[a], t.dimensionOf[a], a);
    if parent.Some? && !f.deleted.GetOr(a in s.deleted) {
      forall c | c in s.db.parentOf && c != a && s.db.parentOf[c] == parent ensures c in s.deleted {
        assert RowFits(t.db.parentOf[c], t.dimensionOf[c], c);
        assert LiveShadow(t, a);
        assert !LiveShadow(t, c);
      }
    }
  }

  lemma OwnChecksFrom(s: Store, a: int, f: OwnFields, m: EdgeChanges)
    requires Valid(s) && a in s.db.parentOf && a in s.db.proxyOf && a in s.dimensionOf
    requires OwnRowAllowed(s, a, f, m)
    ensures ChecksHold(OwnUpdated(s, a, f, m))
  {
    var t := OwnUpdated(s, a, f, m);
    OwnRowOf(s, a, f, m);
    forall c | c in t.db.parentOf ensures c in t.dimensionOf && RowFits(t.db.parentOf[c], t.dimensionOf[c], c) {
      if c != a { assert RowFits(s.db.parentOf[c], s.dimensionOf[c], c); }
    }
    forall c, d | c in t.db.parentOf && d in t.db.parentOf && c != d && t.db.parentOf[c].Some? &&
                  t.db.parentOf[c] == t.db.parentOf[d]
      ensures !LiveShadow(t, c) || !LiveShadow(t, d)
    {
      if c != a && d != a {
        assert !LiveShadow(s, c) || !LiveShadow(s, d);
      }
    }
  }

  // ----- the children's statements --------------------------------------------------------

  /** Freeing a child leaves it without a parent in the spark dimension, so nothing may be freed. */
  lemma FreeingFits(s: Store, a: int, d: Delta)
    requires ChecksHold(s)
    ensures ChecksHold(s.(db := s.db.(parentOf := Freeing(s.db.parentOf, a, d)))) <==> NoneFreed(s.db.parentOf, a, d)
    ensures NoneFreed(s.db.parentOf, a, d) ==> Freeing(s.db.parentOf, a, d) == s.db.parentOf
  {
    var freed := Freeing(s.db.parentOf, a, d);
    if c :| c in s.db.parentOf && s.db.parentOf[c] == Some(a) && (d.cleared || c in d.removed) {
      assert RowFits(s.db.parentOf[c], s.dimensionOf[c], c);
      assert freed[c] == None && !RowFits(freed[c], s.dimensionOf[c], c);
    } else {
      assert freed == s.db.parentOf;
    }
  }

  /** An account without a parent is global, so it may not be given one from outside its own statement. */
  lemma ClaimingFits(s: Store, a: int, added: set<int>)
    requires ChecksHold(s) && added != {} && forall c | c in added :: c in s.db.parentOf && s.db.parentOf[c].None?
    ensures !ChecksHold(s.(db := s.db.(parentOf := Claimed(s.db.parentOf, a, added))))
  {
    var c := SomeMember(added);
    var claimed := Claimed(s.db.parentOf, a, added);
    assert RowFits(s.db.parentOf[c], s.dimensionOf[c], c);
    assert claimed[c] == Some(a) && !RowFits(claimed[c], s.dimensionOf[c], c);
  }

  lemma {:induction false} TestedClearsInTurn(s: Store, a: int, x: seq<EdgeSpec>, y: seq<EdgeSpec>)
    requires |x| <= 1 && |y| <= 1
    ensures TestedClears(s, a, x) == if x == [] then Success(s) else After(s, ClearSpec(s.db, a, x[0]))
    ensures var r := TestedClears(s, a, x);
            TestedClears(s, a, x + y) == if r.Failure? then r else TestedClears(r.value, a, y)
  {
    if x == [] {
      assert x + y == y;
    } else {
      assert x[1..] == [] && (x + y)[1..] == y;
    }
  }

  lemma {:induction false} TestedAddsInTurn(s: Store, a: int, x: seq<EdgeSpec>, y: seq<EdgeSpec>)
    requires |x| <= 1 && |y| <= 1
    ensures TestedAdds(s, a, x) == if x == [] then Success(s) else After(s, AddSpec(s.db, a, x[0]))
    ensures var r := TestedAdds(s, a, x);
            TestedAdds(s, a, x + y) == if r.Failure? then r else TestedAdds(r.value, a, y)
  {
    if x == [] {
      assert x + y == y;
    } else {
      assert x[1..] == [] && (x + y)[1..] == y;
    }
  }

  lemma {:induction false} ChildClearsTested(s: Store, a: int, part: seq<EdgeSpec>, d: Delta)
    requires ChecksHold(s) && ClearsOf(part, Children, d)
    ensures TestedClears(s, a, part).Success? <==> NoneFreed(s.db.parentOf, a, d)
    ensures TestedClears(s, a, part).Success? ==> TestedClears(s, a, part).value == s
  {
    TestedClearsInTurn(s, a, part, []);
    ClearsInTurn(s.db, a, part, []);
    ChildClears(s.db, a, part, d);
    FreeingFits(s, a, d);
  }

  lemma {:induction false} ChildAddsTested(s: Store, a: int, part: seq<EdgeSpec>, added: set<int>)
    requires ChecksHold(s) && AddsOf(part, Children, added)
    ensures TestedAdds(s, a, part).Success? <==> added == {}
    ensures TestedAdds(s, a, part).Success? ==> TestedAdds(s, a, part).value == s
  {
    TestedAddsInTurn(s, a, part, []);
    AddsInTurn(s.db, a, part, []);
    ChildAdds(s.db, a, part, added);
    if added != {} && forall c | c in added :: c in s.db.parentOf && s.db.parentOf[c].None? {
      ClaimingFits(s, a, added);
    }
  }

  lemma {:induction false} LogClearsTested(s: Store, a: int, part: seq<EdgeSpec>, d: Delta)
    requires ChecksHold(s) && ClearsOf(part, UsageLogs, d)
    ensures TestedClears(s, a, part).Success? <==>
              forall l | l in s.db.ownerOf && s.db.ownerOf[l] == a :: !d.cleared && l !in d.removed
    ensures TestedClears(s, a, part).Success? ==> TestedClears(s, a, part).value == s
  {
    TestedClearsInTurn(s, a, part, []);
    ClearsInTurn(s.db, a, part, []);
    LogClears(s.db, a, part, d);
  }

  lemma {:induction false} LogAddsTested(s: Store, a: int, part: seq<EdgeSpec>, added: set<int>)
    requires ChecksHold(s) && AddsOf(part, UsageLogs, added)
    ensures TestedAdds(s, a, part).Success? <==> added == {}
    ensures TestedAdds(s, a, part).Success? ==> TestedAdds(s, a, part).value == s
  {
    TestedAddsInTurn(s, a, part, []);
    AddsInTurn(s.db, a, part, []);
    LogAdds(s.db, a, part, added);
  }

  /** The statements on rows that hold the account's key never change anything. */
  lemma {:induction false} HeldTested(s: Store, a: int, m: EdgeChanges, c: EdgeProgram, u: EdgeProgram)
    requires ChecksHold(s)
    requires ClearsOf(c.clears, Children, m.children) && AddsOf(c.adds, Children, m.children.added)
    requires ClearsOf(u.clears, UsageLogs, m.usageLogs) && AddsOf(u.adds, UsageLogs, m.usageLogs.added)
    ensures var cleared := TestedClears(s, a, c.clears + u.clears);
            var r := if cleared.Failure? then cleared else TestedAdds(cleared.value, a, c.adds + u.adds);
            && (r.Success? <==> ChildrenKept(s.db.parentOf, a, m.children) && LogsAllowed(s.db, a, m.usageLogs))
            && (r.Success? ==> r.value == s)
  {
    TestedClearsInTurn(s, a, c.clears, u.clears);
    ChildClearsTested(s, a, c.clears, m.children);
    LogClearsTested(s, a, u.clears, m.usageLogs);
    TestedAddsInTurn(s, a, c.adds, u.adds);
    ChildAddsTested(s, a, c.adds, m.children.added);
    LogAddsTested(s, a, u.adds, m.usageLogs.added);
  }

  // ----- what executing means -------------------------------------------------------------

  lemma OwnTested(s: Store, a: int, f: OwnFields, m: EdgeChanges, p: EdgeProgram)
    requires ProgramOf(p, m) && Valid(s) && a in s.db.parentOf && a in s.db.proxyOf && a in s.dimensionOf
    ensures var own := After(WithFields(s, a, f), RunStep(OwnColumns, s.db, a, p));
            && (own.Success? <==> OwnAllowed(s.db, m) && OwnRowAllowed(s, a, f, m))
            && (own.Success? ==> own.value == OwnUpdated(s, a, f, m))
  {
    OwnMeans(s.db, a, m, p);
    OwnChecksIff(s, a, f, m);
  }

  lemma MembershipsTested(s: Store, a: int, m: EdgeChanges, p: EdgeProgram)
    requires ProgramOf(p, m) && ChecksHold(s)
    ensures var joined := After(s, RunStep(Memberships, s.db, a, p));
            && (joined.Success? <==> MembershipsAllowed(s.db, a, m.groups))
            && (joined.Success? ==>
                  joined.value == s.(db := s.db.(members := Grouped(Ungrouped(s.db.members, a, m.groups), a, m.groups.added))))
  {
    MembershipsMean(s.db, a, m, p);
    var r := RunStep(Memberships, s.db, a, p);
    if r.Success? {
      SameChecks(s, s.(db := r.value));
    }
  }

  lemma HeldRun(s: Store, a: int, m: EdgeChanges, p: EdgeProgram)
    requires ProgramOf(p, m) && ChecksHold(s)
    ensures RunHeld(s, a, p).Success? <==> ChildrenKept(s.db.parentOf, a, m.children) && LogsAllowed(s.db, a, m.usageLogs)
    ensures RunHeld(s, a, p).Success? ==> RunHeld(s, a, p).value == s
  {
    var g, c, u := CompiledSteps(p, m);
    HeldTested(s, a, m, c, u);
  }

  /** The memberships and what follows, on an accounts table that fits the checks. */
  lemma RestTested(s: Store, a: int, m: EdgeChanges, p: EdgeProgram)
    requires ProgramOf(p, m) && ChecksHold(s)
    ensures var joined := After(s, RunStep(Memberships, s.db, a, p));
            var r := if joined.Failure? then joined else RunHeld(joined.value, a, p);
            && (r.Success? <==>
                  && MembershipsAllowed(s.db, a, m.groups) && ChildrenKept(s.db.parentOf, a, m.children)
                  && LogsAllowed(s.db, a, m.usageLogs))
            && (r.Success? ==>
                  r.value == s.(db := s.db.(members := Grouped(Ungrouped(s.db.members, a, m.groups), a, m.groups.added))))
  {
    MembershipsTested(s, a, m, p);
    var joined := After(s, RunStep(Memberships, s.db, a, p));
    if joined.Success? {
      SameChecks(s, joined.value);
      HeldRun(joined.value, a, m, p);
    }
  }

  /** The account's own statement neither gives nor takes it children. */
  lemma SameChildren(s: Store, a: int, f: OwnFields, m: EdgeChanges)
    requires Valid(s) && a in s.db.parentOf && a in s.db.proxyOf && a in s.dimensionOf && OwnRowAllowed(s, a, f, m)
    ensures ChildrenKept(Retargeted(s.db.parentOf, a, m.parent), a, m.children) <==>
            ChildrenKept(s.db.parentOf, a, m.children)
  {
    assert RowFits(s.db.parentOf[a], s.dimensionOf[a], a);
  }

  /**
   For any mutation, any program compiled from it, whatever order its ids are listed in, and any stored
   rows: the database takes the update exactly when `Allowed` says so, from the mutation and the rows as
   they are before it, and then changes the account's own keys and memberships as recorded and nothing
   else.
   */
  lemma ExecutionMeans(s: Store, a: int, f: OwnFields, m: EdgeChanges, p: EdgeProgram)
    requires ProgramOf(p, m) && Valid(s)
    ensures Execute(s, a, f, p).Success? <==> Allowed(s, a, f, m)
    ensures Execute(s, a, f, p).Success? ==> Execute(s, a, f, p).value == Updated(s, a, f, m)
  {
    if a in s.db.parentOf {
      assert a in s.db.proxyOf.Keys && a in s.dimensionOf.Keys;
      OwnTested(s, a, f, m, p);
      var own := After(WithFields(s, a, f), RunStep(OwnColumns, s.db, a, p));
      if own.Success? {
        SameChildren(s, a, f, m);
        OwnChecksIff(s, a, f, m);
        RestTested(own.value, a, m, p);
      }
    }
  }

  /** Updates keep the stored rows within the constraints. */
  lemma ExecutionKeepsValid(s: Store, a: int, f: OwnFields, m: EdgeChanges, p: EdgeProgram)
    requires ProgramOf(p, m) && Valid(s) && Execute(s, a, f, p).Success?
    ensures Valid(Execute(s, a, f, p).value)
  {
    ExecutionMeans(s, a, f, m, p);
    OwnChecksIff(s, a, f, m);
    OwnRowOf(s, a, f, m);
    SameChecks(OwnUpdated(s, a, f, m), Updated(s, a, f, m));
  }

  lemma SameChecks(s: Store, t: Store)
    requires s.db.parentOf == t.db.parentOf && s.dimensionOf == t.dimensionOf && s.deleted == t.deleted
    ensures ChecksHold(s) <==> ChecksHold(t)
  {
    assert forall c :: LiveShadow(s, c) <==> LiveShadow(t, c);
  }

  /** The checks only refuse: what the database takes, the statements alone would have done just so. */
  lemma ChecksOnlyRefuse(s: Store, a: int, f: OwnFields, m: EdgeChanges, p: EdgeProgram)
    requires ProgramOf(p, m) && Valid(s) && Execute(s, a, f, p).Success?
    ensures RunProgram(s.db, a, p) == Success(Execute(s, a, f, p).value.db)
  {
    ExecutionMeans(s, a, f, m, p);
    ProgramMeans(s.db, a, m, p);
    SameChildren(s, a, f, m);
    KeptIsAllowed(Retargeted(s.db.parentOf, a, m.parent), a, m.children);
  }

  lemma KeptIsAllowed(fk: map<int, Option<int>>, a: int, d: Delta)
    requires ChildrenKept(fk, a, d)
    ensures ChildrenAllowed(fk, a, d) && Claimed(Freeing(fk, a, d), a, d.added) == fk
  {
    assert Freeing(fk, a, d) == fk;
    assert Claimed(fk, a, {}) == fk;
  }

  // ----- read edge by edge ----------------------------------------------------------------

  /** The groups of the updated account, and those of every other account. */
  lemma GroupsAfter(s: Store, a: int, f: OwnFields, m: EdgeChanges, p: EdgeProgram, b: int)
    requires ProgramOf(p, m) && Valid(s) && Execute(s, a, f, p).Success?
    ensures GroupsIn(Execute(s, a, f, p).value.db, b) ==
            if b == a then Applied(m.groups, GroupsIn(s.db, a)) else GroupsIn(s.db, b)
  {
    ExecutionMeans(s, a, f, m, p);
    JoiningAfter(s.db.members, a, m.groups, b);
  }

  /** From the calls on the mutation to the database, for every sequence of calls on the groups edge. */
  lemma {:induction false} GroupCallsExecuted(s: Store, a: int, f: OwnFields, m: EdgeChanges, p: EdgeProgram,
                                              calls: seq<Call>)
    requires m.groups == Recorded(calls) && ProgramOf(p, m) && Valid(s) && Execute(s, a, f, p).Success?
    ensures GroupsIn(Execute(s, a, f, p).value.db, a) == InTurn(GroupsIn(s.db, a), calls) + Outliving(calls)
  {
    GroupsAfter(s, a, f, m, p, a);
    AppliedIsInTurnPlusOutliving(calls, GroupsIn(s.db, a));
  }

  /** Adding a group and then clearing the edge is taken, and leaves the account in just that group. */
  lemma AddThenClearKeepsTheAddition(s: Store, a: int, p: EdgeProgram, g: int)
    requires ProgramOf(p, EdgeChanges(Recorded([Add([g]), Clear]), NO_TARGET, NO_TARGET, NO_CHANGE, NO_CHANGE))
    requires Valid(s) && a in s.db.parentOf && g in s.db.groups
    ensures Execute(s, a, OwnFields(None, None), p).Success?
    ensures GroupsIn(Execute(s, a, OwnFields(None, None), p).value.db, a) == {g}
    ensures InTurn(GroupsIn(s.db, a), [Add([g]), Clear]) == {}
  {
    var calls, f := [Add([g]), Clear], OwnFields(None, None);
    var m := EdgeChanges(Recorded(calls), NO_TARGET, NO_TARGET, NO_CHANGE, NO_CHANGE);
    assert calls[..1] == [Add([g])] && [Add([g])][..0] == [];
    assert Recorded([Add([g])]) == Delta({g}, {}, false);
    assert Recorded(calls) == Delta({g}, {}, true);
    assert Outliving(calls) == {g};
    UnchangedRowAllowed(s, a, m);
    ExecutionMeans(s, a, f, m, p);
    GroupCallsExecuted(s, a, f, m, p, calls);
  }

  /** An update that leaves an account's parent, dimension and deletion alone passes the checks. */
  lemma UnchangedRowAllowed(s: Store, a: int, m: EdgeChanges)
    requires Valid(s) && a in s.db.parentOf && m.parent == NO_TARGET
    ensures a in s.db.proxyOf && a in s.dimensionOf && OwnRowAllowed(s, a, OwnFields(None, None), m)
  {
    assert a in s.db.proxyOf.Keys && a in s.dimensionOf.Keys;
    assert RowFits(s.db.parentOf[a], s.dimensionOf[a], a);
    if s.db.parentOf[a].Some? && a !in s.deleted {
      forall c | c in s.db.parentOf && c != a && s.db.parentOf[c] == s.db.parentOf[a] ensures c in s.deleted {
        assert RowFits(s.db.parentOf[c], s.dimensionOf[c], c);
        assert LiveShadow(s, a);
        assert !LiveShadow(s, c);
      }
    }
  }

  lemma ProxyAfter(s: Store, a: int, f: OwnFields, m: EdgeChanges, p: EdgeProgram)
    requires ProgramOf(p, m) && Valid(s) && Execute(s, a, f, p).Success?
    ensures a in s.db.proxyOf
    ensures Execute(s, a, f, p).value.db.proxyOf == s.db.proxyOf[a := AppliedTarget(m.proxy, s.db.proxyOf[a])]
  {
    ExecutionMeans(s, a, f, m, p);
  }

  /** The parents of all accounts: only the updated account's own changes, and as its parent edge says. */
  lemma ParentAfter(s: Store, a: int, f: OwnFields, m: EdgeChanges, p: EdgeProgram)
    requires ProgramOf(p, m) && Valid(s) && Execute(s, a, f, p).Success?
    ensures a in s.db.parentOf
    ensures Execute(s, a, f, p).value.db.parentOf == s.db.parentOf[a := AppliedTarget(m.parent, s.db.parentOf[a])]
    ensures AppliedTarget(m.parent, s.db.parentOf[a]) != Some(a)
    ensures a in Execute(s, a, f, p).value.dimensionOf
    ensures AppliedTarget(m.parent, s.db.parentOf[a]).None? <==> Execute(s, a, f, p).value.dimensionOf[a].Global?
  {
    ExecutionMeans(s, a, f, m, p);
  }

  /** From the calls on the mutation to the database, for every sequence of calls on the proxy edge. */
  lemma {:induction false} ProxyCallsExecuted(s: Store, a: int, f: OwnFields, m: EdgeChanges, p: EdgeProgram,
                                              calls: seq<TargetCall>)
    requires m.proxy == RecordedTarget(calls) && ProgramOf(p, m) && Valid(s) && Execute(s, a, f, p).Success?
    ensures a in s.db.proxyOf && a in Execute(s, a, f, p).value.db.proxyOf
    ensures !SetOutlivesClear(calls) ==>
              Execute(s, a, f, p).value.db.proxyOf[a] == TargetInTurn(s.db.proxyOf[a], calls)
    ensures SetOutlivesClear(calls) ==>
              exists i | 0 <= i < |calls| :: StillSet(calls, i) && Execute(s, a, f, p).value.db.proxyOf[a] == Some(calls[i].id)
  {
    ProxyAfter(s, a, f, m, p);
    TargetCallsMean(calls, s.db.proxyOf[a]);
  }

  lemma {:induction false} ParentCallsExecuted(s: Store, a: int, f: OwnFields, m: EdgeChanges, p: EdgeProgram,
                                               calls: seq<TargetCall>)
    requires m.parent == RecordedTarget(calls) && ProgramOf(p, m) && Valid(s) && Execute(s, a, f, p).Success?
    ensures a in s.db.parentOf && a in Execute(s, a, f, p).value.db.parentOf
    ensures !SetOutlivesClear(calls) ==>
              Execute(s, a, f, p).value.db.parentOf[a] == TargetInTurn(s.db.parentOf[a], calls)
    ensures SetOutlivesClear(calls) ==>
              exists i | 0 <= i < |calls| :: StillSet(calls, i) && Execute(s, a, f, p).value.db.parentOf[a] == Some(calls[i].id)
  {
    ParentAfter(s, a, f, m, p);
    TargetCallsMean(calls, s.db.parentOf[a]);
  }

  /**
   An account's children never change through the edge: every addition is refused, and so is every removal
   or clear that would take a child away.
   */
  lemma ChildrenNeverMove(s: Store, a: int, f: OwnFields, m: EdgeChanges, p: EdgeProgram)
    requires ProgramOf(p, m) && Valid(s) && Execute(s, a, f, p).Success?
    ensures m.children.added == {}
    ensures forall c | c in s.db.parentOf && s.db.parentOf[c] == Some(a) :: !m.children.cleared && c !in m.children.removed
    ensures ChildrenIn(Execute(s, a, f, p).value.db, a) == ChildrenIn(s.db, a)
  {
    ExecutionMeans(s, a, f, m, p);
    assert RowFits(s.db.parentOf[a], s.dimensionOf[a], a);
    SamePointing(s.db.parentOf, a, ParentIn(s, a, m));
  }

  lemma SamePointing(fk: map<int, Option<int>>, a: int, parent: Option<int>)
    requires a in fk && fk[a] != Some(a) && parent != Some(a)
    ensures PointingAt(fk[a := parent], a) == PointingAt(fk, a)
  {
  }

  /**
   A usage log's account never changes through the edge: every addition is refused, and so is every
   removal or clear that would take a log away.
   */
  lemma UsageLogsNeverMove(s: Store, a: int, f: OwnFields, m: EdgeChanges, p: EdgeProgram)
    requires ProgramOf(p, m) && Valid(s) && Execute(s, a, f, p).Success?
    ensures Execute(s, a, f, p).value.db.ownerOf == s.db.ownerOf
    ensures m.usageLogs.added == {}
    ensures forall l | l in s.db.ownerOf && s.db.ownerOf[l] == a :: !m.usageLogs.cleared && l !in m.usageLogs.removed
  {
    ExecutionMeans(s, a, f, m, p);
  }

  /** A fresh account becomes a shadow of another exactly when that one exists and has no other live shadow. */
  lemma BecomesShadowIff(s: Store, a: int, p: EdgeProgram, parent: int)
    requires ProgramOf(p, EdgeChanges(NO_CHANGE, NO_TARGET, Target(Some(parent), false, false), NO_CHANGE, NO_CHANGE))
    requires Valid(s) && a in s.db.parentOf && s.db.parentOf[a].None? && a !in s.deleted
    ensures Execute(s, a, OwnFields(Some(Spark), None), p).Success? <==>
            && parent in s.db.parentOf && parent != a
            && forall c | c in s.db.parentOf && s.db.parentOf[c] == Some(parent) :: c in s.deleted
  {
    var m := EdgeChanges(NO_CHANGE, NO_TARGET, Target(Some(parent), false, false), NO_CHANGE, NO_CHANGE);
    assert a in s.db.proxyOf.Keys && a in s.dimensionOf.Keys;
    ExecutionMeans(s, a, OwnFields(Some(Spark), None), m, p);
  }
}
