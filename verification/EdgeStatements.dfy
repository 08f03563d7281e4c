/**
 The statements an edge program is run as, and what they do against the columns, keys and NULL
 constraints of the generated schema alone. An update runs in three steps: the account's own columns, in
 which a set wins over a clear; its memberships; and the foreign keys other rows hold to it. Within a
 step clears come before adds. A refusal at any point undoes everything.
 */
module EdgeStatements {
  import opened Wrappers
  import opened AccountSchema
  import opened EdgeUpdate

  // ----- the database ---------------------------------------------------------------------

  /**
   The tables the edges live in. The two foreign keys of an account may be NULL; that of a usage log
   may not.
   */
  datatype Db = Db(
    groups: set<int>,
    proxies: set<int>,
    members: set<(int, int)>,
    proxyOf: map<int, Option<int>>,
    parentOf: map<int, Option<int>>,
    ownerOf: map<int, int>)

  /** Both columns belong to the same table. */
  ghost predicate SameAccounts(db: Db) {
    db.proxyOf.Keys == db.parentOf.Keys
  }

  datatype Refusal = NoSuchAccount | NoSuchNeighbor | AlreadyMember | OwnerRequired | AlreadyConnected

  type Outcome = Result<Db, Refusal>

  datatype Step = OwnColumns | Memberships | KeysHeldByOthers

  function StepOf(r: Relation): Step {
    match r
    case Proxy | Parent => OwnColumns
    case Groups => Memberships
    case Children | UsageLogs => KeysHeldByOthers
  }

  // ----- executing ------------------------------------------------------------------------

  predicate Named(nodes: seq<int>, i: int) {
    nodes == [] || i in nodes
  }

  /** The rows an add of key `a` touches: those named whose key is NULL. */
  function Unconnected(fk: map<int, Option<int>>, nodes: seq<int>): set<int> {
    set n | n in nodes && n in fk && fk[n].None?
  }

  function ClearSpec(db: Db, a: int, spec: EdgeSpec): Outcome {
    match spec.relation
    case Proxy => Success(db.(proxyOf := db.proxyOf[a := None]))
    case Parent => Success(db.(parentOf := db.parentOf[a := None]))
    case Groups => Success(db.(members := set p | p in db.members && !(p.0 == a && Named(spec.nodes, p.1))))
    case Children =>
      Success(db.(parentOf := map c | c in db.parentOf ::
        if db.parentOf[c] == Some(a) && Named(spec.nodes, c) then None else db.parentOf[c]))
    case UsageLogs =>
      if exists l | l in db.ownerOf :: db.ownerOf[l] == a && Named(spec.nodes, l) then Failure(OwnerRequired)
      else Success(db)
  }

  function AddSpec(db: Db, a: int, spec: EdgeSpec): Outcome {
    match spec.relation
    case Proxy =>
      if spec.nodes == [] then Success(db)
      else if spec.nodes[0] !in db.proxies then Failure(NoSuchNeighbor)
      else Success(db.(proxyOf := db.proxyOf[a := Some(spec.nodes[0])]))
    case Parent =>
      if spec.nodes == [] then Success(db)
      else if spec.nodes[0] !in db.parentOf then Failure(NoSuchNeighbor)
      else Success(db.(parentOf := db.parentOf[a := Some(spec.nodes[0])]))
    case Groups =>
      if exists g | g in spec.nodes :: g !in db.groups then Failure(NoSuchNeighbor)
      else if exists g | g in spec.nodes :: (a, g) in db.members then Failure(AlreadyMember)
      else Success(db.(members := db.members + set g | g in spec.nodes :: (a, g)))
    case Children =>
      var touched := Unconnected(db.parentOf, spec.nodes);
      if |touched| < |spec.nodes| then Failure(AlreadyConnected)
      else Success(db.(parentOf := map c | c in db.parentOf :: if c in touched then Some(a) else db.parentOf[c]))
    case UsageLogs =>
      // No log is without an owner, so the add touches no row.
      if 0 < |spec.nodes| then Failure(AlreadyConnected) else Success(db)
  }

  function RunClears(db: Db, a: int, specs: seq<EdgeSpec>): Outcome
    decreases |specs|
  {
    if specs == [] then Success(db)
    else
      var r := ClearSpec(db, a, specs[0]);
      if r.Failure? then r else RunClears(r.value, a, specs[1..])
  }

  function RunAdds(db: Db, a: int, specs: seq<EdgeSpec>): Outcome
    decreases |specs|
  {
    if specs == [] then Success(db)
    else
      var r := AddSpec(db, a, specs[0]);
      if r.Failure? then r else RunAdds(r.value, a, specs[1..])
  }

  function InStep(step: Step): EdgeSpec -> bool {
    (s: EdgeSpec) => StepOf(s.relation) == step
  }

  function OfStep(step: Step, specs: seq<EdgeSpec>): seq<EdgeSpec> {
    Filter(specs, InStep(step))
  }

  function RunStep(step: Step, db: Db, a: int, p: EdgeProgram): Outcome {
    var r := RunClears(db, a, OfStep(step, p.clears));
    if r.Failure? then r else RunAdds(r.value, a, OfStep(step, p.adds))
  }

  /** The update of account `a`. */
  function RunProgram(db: Db, a: int, p: EdgeProgram): Outcome {
    if a !in db.parentOf then Failure(NoSuchAccount)
    else
      var own := RunStep(OwnColumns, db, a, p);
      if own.Failure? then own
      else
        var joined := RunStep(Memberships, own.value, a, p);
        if joined.Failure? then joined else RunStep(KeysHeldByOthers, joined.value, a, p)
  }

  // ----- the specification ----------------------------------------------------------------

  function Retargeted(fk: map<int, Option<int>>, a: int, t: Target): map<int, Option<int>>
    requires a in fk
  {
    fk[a := AppliedTarget(t, fk[a])]
  }

  /** Whether a key is NULL once the clears of `a`'s edge have run. */
  predicate Freed(key: Option<int>, c: int, a: int, d: Delta) {
    key.None? || (key == Some(a) && (d.cleared || c in d.removed))
  }

  function Freeing(fk: map<int, Option<int>>, a: int, d: Delta): map<int, Option<int>> {
    map c | c in fk :: if Freed(fk[c], c, a, d) then None else fk[c]
  }

  function Claimed(fk: map<int, Option<int>>, a: int, s: set<int>): map<int, Option<int>> {
    map c | c in fk :: if c in s then Some(a) else fk[c]
  }

  function Ungrouped(members: set<(int, int)>, a: int, d: Delta): set<(int, int)> {
    set p | p in members && !(p.0 == a && (d.cleared || p.1 in d.removed))
  }

  function Grouped(members: set<(int, int)>, a: int, s: set<int>): set<(int, int)> {
    members + set g | g in s :: (a, g)
  }

  /** Memberships may be added of groups that exist and that the account is not left a member of. */
  ghost predicate MembershipsAllowed(db: Db, a: int, d: Delta) {
    forall g | g in d.added :: g in db.groups && ((a, g) in db.members ==> d.cleared || g in d.removed)
  }

  /** Children may be added that exist and have no parent, or lose this one. */
  ghost predicate ChildrenAllowed(fk: map<int, Option<int>>, a: int, d: Delta) {
    forall c | c in d.added :: c in fk && Freed(fk[c], c, a, d)
  }

  /** Usage logs can neither be added nor taken away, as each always has an owner. */
  ghost predicate LogsAllowed(db: Db, a: int, d: Delta) {
    d.added == {} && forall l | l in db.ownerOf && db.ownerOf[l] == a :: !d.cleared && l !in d.removed
  }

  /** When the statements of an update of account `a` go through. */
  ghost predicate StatementsAllowed(db: Db, a: int, m: EdgeChanges) {
    && a in db.parentOf && a in db.proxyOf
    && (m.proxy.id.Some? ==> m.proxy.id.value in db.proxies)
    && (m.parent.id.Some? ==> m.parent.id.value in db.parentOf)
    && MembershipsAllowed(db, a, m.groups)
    && ChildrenAllowed(Retargeted(db.parentOf, a, m.parent), a, m.children)
    && LogsAllowed(db, a, m.usageLogs)
  }

  /** What it then makes of the database. */
  function Intended(db: Db, a: int, m: EdgeChanges): Db
    requires a in db.parentOf && a in db.proxyOf
  {
    db.(members := Grouped(Ungrouped(db.members, a, m.groups), a, m.groups.added),
        proxyOf := Retargeted(db.proxyOf, a, m.proxy),
        parentOf := Claimed(Freeing(Retargeted(db.parentOf, a, m.parent), a, m.children), a, m.children.added))
  }

  // ----- running a compiled program -------------------------------------------------------

  lemma {:induction false} FilterAppend<T>(x: seq<T>, y: seq<T>, p: T -> bool)
    ensures Filter(x + y, p) == Filter(x, p) + Filter(y, p)
  {
    if y == [] {
      assert x + y == x;
    } else {
      var n := |y| - 1;
      assert (x + y)[..|x + y| - 1] == x + y[..n];
      FilterAppend(x, y[..n], p);
    }
  }

  lemma PartOfStep(step: Step, part: seq<EdgeSpec>, r: Relation)
    requires IsPart(part, r)
    ensures OfStep(step, part) == if StepOf(r) == step then part else []
  {
    if part != [] {
      assert part[..|part| - 1] == [] && part == [part[0]];
      assert InStep(step)(part[0]) <==> StepOf(r) == step;
      assert Filter(part[..|part| - 1], InStep(step)) == [];
    }
  }

  lemma {:induction false} FilterParts<T>(g: seq<T>, x: seq<T>, y: seq<T>, c: seq<T>, u: seq<T>, p: T -> bool)
    ensures Filter(g + x + y + c + u, p) == Filter(g, p) + Filter(x, p) + Filter(y, p) + Filter(c, p) + Filter(u, p)
  {
    FilterAppend(g + x + y + c, u, p);
    FilterAppend(g + x + y, c, p);
    FilterAppend(g + x, y, p);
    FilterAppend(g, x, p);
  }

  /** The specifications a step runs, of those in relation order. */
  function Parts(step: Step, g: seq<EdgeSpec>, x: seq<EdgeSpec>, y: seq<EdgeSpec>,
                 c: seq<EdgeSpec>, u: seq<EdgeSpec>): seq<EdgeSpec>
  {
    match step
    case OwnColumns => x + y
    case Memberships => g
    case KeysHeldByOthers => c + u
  }

  lemma PartsOfStep(step: Step, g: seq<EdgeSpec>, x: seq<EdgeSpec>, y: seq<EdgeSpec>, c: seq<EdgeSpec>, u: seq<EdgeSpec>)
    requires IsPart(g, Groups) && IsPart(x, Proxy) && IsPart(y, Parent) && IsPart(c, Children) && IsPart(u, UsageLogs)
    ensures OfStep(step, g + x + y + c + u) == Parts(step, g, x, y, c, u)
  {
    FilterParts(g, x, y, c, u, InStep(step));
    PartOfStep(step, g, Groups);
    PartOfStep(step, x, Proxy);
    PartOfStep(step, y, Parent);
    PartOfStep(step, c, Children);
    PartOfStep(step, u, UsageLogs);
    KeptParts(step, g, x, y, c, u);
  }

  lemma KeptParts(step: Step, g: seq<EdgeSpec>, x: seq<EdgeSpec>, y: seq<EdgeSpec>, c: seq<EdgeSpec>, u: seq<EdgeSpec>)
    ensures (if step == Memberships then g else []) + (if step == OwnColumns then x else []) +
            (if step == OwnColumns then y else []) + (if step == KeysHeldByOthers then c else []) +
            (if step == KeysHeldByOthers then u else []) == Parts(step, g, x, y, c, u)
  {
    NoneAround(Parts(step, g, x, y, c, u));
  }

  lemma NoneAround<T>(s: seq<T>)
    ensures [] + s == s && s + [] == s
  {
  }

  /** What each step of a compiled program runs. */
  lemma CompiledSteps(p: EdgeProgram, m: EdgeChanges) returns (g: EdgeProgram, c: EdgeProgram, u: EdgeProgram)
    requires ProgramOf(p, m)
    ensures ClearsOf(g.clears, Groups, m.groups) && AddsOf(g.adds, Groups, m.groups.added)
    ensures ClearsOf(c.clears, Children, m.children) && AddsOf(c.adds, Children, m.children.added)
    ensures ClearsOf(u.clears, UsageLogs, m.usageLogs) && AddsOf(u.adds, UsageLogs, m.usageLogs.added)
    ensures OfStep(OwnColumns, p.clears) == ClearsOfTarget(Proxy, m.proxy) + ClearsOfTarget(Parent, m.parent)
    ensures OfStep(OwnColumns, p.adds) == AddsOfTarget(Proxy, m.proxy) + AddsOfTarget(Parent, m.parent)
    ensures OfStep(Memberships, p.clears) == g.clears && OfStep(Memberships, p.adds) == g.adds
    ensures OfStep(KeysHeldByOthers, p.clears) == c.clears + u.clears
    ensures OfStep(KeysHeldByOthers, p.adds) == c.adds + u.adds
  {
    g, c, u :| Assembled(p, m, g, c, u);
    ClearSteps(p.clears, m, g.clears, c.clears, u.clears);
    AddSteps(p.adds, m, g.adds, c.adds, u.adds);
  }

  lemma ClearSteps(all: seq<EdgeSpec>, m: EdgeChanges, g: seq<EdgeSpec>, c: seq<EdgeSpec>, u: seq<EdgeSpec>)
    requires ClearsOf(g, Groups, m.groups) && ClearsOf(c, Children, m.children) && ClearsOf(u, UsageLogs, m.usageLogs)
    requires all == g + ClearsOfTarget(Proxy, m.proxy) + ClearsOfTarget(Parent, m.parent) + c + u
    ensures OfStep(OwnColumns, all) == ClearsOfTarget(Proxy, m.proxy) + ClearsOfTarget(Parent, m.parent)
    ensures OfStep(Memberships, all) == g
    ensures OfStep(KeysHeldByOthers, all) == c + u
  {
    AllSteps(g, ClearsOfTarget(Proxy, m.proxy), ClearsOfTarget(Parent, m.parent), c, u);
  }

  lemma AddSteps(all: seq<EdgeSpec>, m: EdgeChanges, g: seq<EdgeSpec>, c: seq<EdgeSpec>, u: seq<EdgeSpec>)
    requires AddsOf(g, Groups, m.groups.added) && AddsOf(c, Children, m.children.added)
    requires AddsOf(u, UsageLogs, m.usageLogs.added)
    requires all == g + AddsOfTarget(Proxy, m.proxy) + AddsOfTarget(Parent, m.parent) + c + u
    ensures OfStep(OwnColumns, all) == AddsOfTarget(Proxy, m.proxy) + AddsOfTarget(Parent, m.parent)
    ensures OfStep(Memberships, all) == g
    ensures OfStep(KeysHeldByOthers, all) == c + u
  {
    AllSteps(g, AddsOfTarget(Proxy, m.proxy), AddsOfTarget(Parent, m.parent), c, u);
  }

  lemma AllSteps(g: seq<EdgeSpec>, x: seq<EdgeSpec>, y: seq<EdgeSpec>, c: seq<EdgeSpec>, u: seq<EdgeSpec>)
    requires IsPart(g, Groups) && IsPart(x, Proxy) && IsPart(y, Parent) && IsPart(c, Children) && IsPart(u, UsageLogs)
    ensures OfStep(OwnColumns, g + x + y + c + u) == x + y
    ensures OfStep(Memberships, g + x + y + c + u) == g
    ensures OfStep(KeysHeldByOthers, g + x + y + c + u) == c + u
  {
    PartsOfStep(OwnColumns, g, x, y, c, u);
    PartsOfStep(Memberships, g, x, y, c, u);
    PartsOfStep(KeysHeldByOthers, g, x, y, c, u);
  }

  /** At most one specification each of two relations, one after the other. */
  lemma {:induction false} ClearsInTurn(db: Db, a: int, x: seq<EdgeSpec>, y: seq<EdgeSpec>)
    requires |x| <= 1 && |y| <= 1
    ensures RunClears(db, a, x) == if x == [] then Success(db) else ClearSpec(db, a, x[0])
    ensures var r := RunClears(db, a, x);
            RunClears(db, a, x + y) == if r.Failure? then r else RunClears(r.value, a, y)
  {
    if x == [] {
      assert x + y == y;
    } else {
      assert x[1..] == [] && (x + y)[1..] == y;
    }
  }

  lemma {:induction false} AddsInTurn(db: Db, a: int, x: seq<EdgeSpec>, y: seq<EdgeSpec>)
    requires |x| <= 1 && |y| <= 1
    ensures RunAdds(db, a, x) == if x == [] then Success(db) else AddSpec(db, a, x[0])
    ensures var r := RunAdds(db, a, x);
            RunAdds(db, a, x + y) == if r.Failure? then r else RunAdds(r.value, a, y)
  {
    if x == [] {
      assert x + y == y;
    } else {
      assert x[1..] == [] && (x + y)[1..] == y;
    }
  }

  // ----- the account's own columns --------------------------------------------------------

  ghost predicate OwnAllowed(db: Db, m: EdgeChanges) {
    && (m.proxy.id.Some? ==> m.proxy.id.value in db.proxies)
    && (m.parent.id.Some? ==> m.parent.id.value in db.parentOf)
  }

  lemma {:induction false} OwnClears(db: Db, a: int, m: EdgeChanges)
    requires a in db.proxyOf && a in db.parentOf
    ensures RunClears(db, a, ClearsOfTarget(Proxy, m.proxy) + ClearsOfTarget(Parent, m.parent)) ==
            Success(db.(proxyOf := if IsCleared(m.proxy) then db.proxyOf[a := None] else db.proxyOf,
                        parentOf := if IsCleared(m.parent) then db.parentOf[a := None] else db.parentOf))
  {
    var x, y := ClearsOfTarget(Proxy, m.proxy), ClearsOfTarget(Parent, m.parent);
    ClearsInTurn(db, a, x, y);
    ClearsInTurn(RunClears(db, a, x).value, a, y, []);
  }

  lemma {:induction false} OwnAdds(db: Db, a: int, m: EdgeChanges)
    requires a in db.proxyOf && a in db.parentOf
    ensures var r := RunAdds(db, a, AddsOfTarget(Proxy, m.proxy) + AddsOfTarget(Parent, m.parent));
            && (r.Success? <==> OwnAllowed(db, m))
            && (r.Success? ==>
                  r.value == db.(proxyOf := if m.proxy.id.Some? then db.proxyOf[a := m.proxy.id] else db.proxyOf,
                      parentOf := if m.parent.id.Some? then db.parentOf[a := m.parent.id] else db.parentOf))
  {
    var x, y := AddsOfTarget(Proxy, m.proxy), AddsOfTarget(Parent, m.parent);
    AddsInTurn(db, a, x, y);
    var r := RunAdds(db, a, x);
    if r.Success? {
      AddsInTurn(r.value, a, y, []);
    }
  }

  lemma Overwritten(fk: map<int, Option<int>>, a: int, t: Target)
    requires a in fk
    ensures var cleared := if IsCleared(t) then fk[a := None] else fk;
            (if t.id.Some? then cleared[a := t.id] else cleared) == Retargeted(fk, a, t)
    ensures Retargeted(fk, a, t).Keys == fk.Keys
  {
  }

  lemma {:induction false} OwnRuns(db: Db, a: int, m: EdgeChanges)
    requires a in db.proxyOf && a in db.parentOf
    ensures var cleared := RunClears(db, a, ClearsOfTarget(Proxy, m.proxy) + ClearsOfTarget(Parent, m.parent));
            cleared.Success? &&
            var r := RunAdds(cleared.value, a, AddsOfTarget(Proxy, m.proxy) + AddsOfTarget(Parent, m.parent));
            && (r.Success? <==> OwnAllowed(db, m))
            && (r.Success? ==>
                  r.value == db.(proxyOf := Retargeted(db.proxyOf, a, m.proxy), parentOf := Retargeted(db.parentOf, a, m.parent)))
  {
    OwnClears(db, a, m);
    var cleared := RunClears(db, a, ClearsOfTarget(Proxy, m.proxy) + ClearsOfTarget(Parent, m.parent)).value;
    assert cleared.parentOf.Keys == db.parentOf.Keys;
    OwnAdds(cleared, a, m);
    Overwritten(db.proxyOf, a, m.proxy);
    Overwritten(db.parentOf, a, m.parent);
  }

  lemma OwnMeans(db: Db, a: int, m: EdgeChanges, p: EdgeProgram)
    requires ProgramOf(p, m) && a in db.proxyOf && a in db.parentOf
    ensures var r := RunStep(OwnColumns, db, a, p);
            && (r.Success? <==> OwnAllowed(db, m))
            && (r.Success? ==>
                  r.value == db.(proxyOf := Retargeted(db.proxyOf, a, m.proxy), parentOf := Retargeted(db.parentOf, a, m.parent)))
  {
    OwnStep(db, a, m, p);
    OwnRuns(db, a, m);
  }

  lemma {:induction false} OwnStep(db: Db, a: int, m: EdgeChanges, p: EdgeProgram)
    requires ProgramOf(p, m)
    ensures var cleared := RunClears(db, a, ClearsOfTarget(Proxy, m.proxy) + ClearsOfTarget(Parent, m.parent));
            RunStep(OwnColumns, db, a, p) ==
            if cleared.Failure? then cleared
            else RunAdds(cleared.value, a, AddsOfTarget(Proxy, m.proxy) + AddsOfTarget(Parent, m.parent))
  {
    var g, c, u := CompiledSteps(p, m);
  }

  // ----- the memberships ------------------------------------------------------------------

  /** A clear's node list stands for what is taken away. */
  lemma NamedMeans(part: seq<EdgeSpec>, r: Relation, d: Delta, i: int)
    requires ClearsOf(part, r, d) && part != []
    ensures Named(part[0].nodes, i) <==> d.cleared || i in d.removed
  {
    if !d.cleared {
      ListsSome(part[0].nodes, d.removed);
    }
  }

  lemma {:induction false} MembershipClears(db: Db, a: int, part: seq<EdgeSpec>, d: Delta)
    requires ClearsOf(part, Groups, d)
    ensures RunClears(db, a, part) == Success(db.(members := Ungrouped(db.members, a, d)))
  {
    ClearsInTurn(db, a, part, []);
    if part == [] {
      assert Ungrouped(db.members, a, d) == db.members;
    } else {
      forall p | p in db.members ensures Named(part[0].nodes, p.1) <==> d.cleared || p.1 in d.removed {
        NamedMeans(part, Groups, d, p.1);
      }
      assert RunClears(db, a, part).value.members == Ungrouped(db.members, a, d);
    }
  }

  ghost predicate NewMembers(db: Db, a: int, s: set<int>) {
    forall g | g in s :: g in db.groups && (a, g) !in db.members
  }

  lemma {:induction false} MembershipAdds(db: Db, a: int, part: seq<EdgeSpec>, s: set<int>)
    requires AddsOf(part, Groups, s)
    ensures var r := RunAdds(db, a, part);
            && (r.Success? <==> NewMembers(db, a, s))
            && (r.Success? ==> r.value == db.(members := Grouped(db.members, a, s)))
  {
    AddsInTurn(db, a, part, []);
    if part == [] {
      assert Grouped(db.members, a, s) == db.members;
    } else {
      ListsSome(part[0].nodes, s);
      forall g ensures g in part[0].nodes <==> g in s { }
      assert (set g | g in part[0].nodes :: (a, g)) == set g | g in s :: (a, g);
    }
  }

  lemma MembershipsMean(db: Db, a: int, m: EdgeChanges, p: EdgeProgram)
    requires ProgramOf(p, m)
    ensures var r := RunStep(Memberships, db, a, p);
            && (r.Success? <==> MembershipsAllowed(db, a, m.groups))
            && (r.Success? ==>
                  r.value == db.(members := Grouped(Ungrouped(db.members, a, m.groups), a, m.groups.added)))
  {
    var g, c, u := CompiledSteps(p, m);
    MembershipClears(db, a, g.clears, m.groups);
    var cleared := RunClears(db, a, OfStep(Memberships, p.clears)).value;
    MembershipAdds(cleared, a, g.adds, m.groups.added);
    assert NewMembers(cleared, a, m.groups.added) <==> MembershipsAllowed(db, a, m.groups);
  }

  // ----- the keys other rows hold ---------------------------------------------------------

  lemma {:induction false} DistinctSize<T>(s: seq<T>)
    requires Distinct(s)
    ensures |set x | x in s| == |s|
  {
    if s != [] {
      var n := |s| - 1;
      DistinctSize(s[..n]);
      assert (set x | x in s) == (set x | x in s[..n]) + {s[n]};
    }
  }

  lemma SubsetSize<T>(part: set<T>, whole: set<T>)
    requires part <= whole
    ensures |part| <= |whole| && (|part| == |whole| <==> part == whole)
  {
    assert whole == part + (whole - part);
    if part != whole {
      var x := SomeMember(whole - part);
    }
  }

  /** An add of distinct ids touches as many rows as it names exactly when each exists with a NULL key. */
  lemma AllUnconnected(fk: map<int, Option<int>>, nodes: seq<int>, s: set<int>)
    requires Lists(nodes, s)
    ensures Unconnected(fk, nodes) <= s
    ensures |Unconnected(fk, nodes)| < |nodes| <==> !forall c | c in s :: c in fk && fk[c].None?
    ensures (forall c | c in s :: c in fk && fk[c].None?) ==> Unconnected(fk, nodes) == s
  {
    ListsSome(nodes, s);
    DistinctSize(nodes);
    var free := Unconnected(fk, nodes);
    forall c ensures c in free <==> c in s && c in fk && fk[c].None? {
      assert c in s <==> c in nodes;
    }
    SubsetSize(free, s);
    assert |nodes| == |s|;
    if forall c | c in s :: c in fk && fk[c].None? {
      assert free == s;
    }
  }

  lemma {:induction false} ChildClears(db: Db, a: int, part: seq<EdgeSpec>, d: Delta)
    requires ClearsOf(part, Children, d)
    ensures RunClears(db, a, part) == Success(db.(parentOf := Freeing(db.parentOf, a, d)))
  {
    ClearsInTurn(db, a, part, []);
    if part == [] {
      assert Freeing(db.parentOf, a, d) == db.parentOf;
    } else {
      forall c | c in db.parentOf ensures Named(part[0].nodes, c) <==> d.cleared || c in d.removed {
        NamedMeans(part, Children, d, c);
      }
      assert RunClears(db, a, part).value.parentOf == Freeing(db.parentOf, a, d);
    }
  }

  lemma {:induction false} ChildAdds(db: Db, a: int, part: seq<EdgeSpec>, s: set<int>)
    requires AddsOf(part, Children, s)
    ensures var r := RunAdds(db, a, part);
            && (r.Success? <==> forall c | c in s :: c in db.parentOf && db.parentOf[c].None?)
            && (r.Success? ==> r.value == db.(parentOf := Claimed(db.parentOf, a, s)))
  {
    AddsInTurn(db, a, part, []);
    if part == [] {
      assert Claimed(db.parentOf, a, s) == db.parentOf;
    } else {
      AllUnconnected(db.parentOf, part[0].nodes, s);
    }
  }

  lemma {:induction false} LogClears(db: Db, a: int, part: seq<EdgeSpec>, d: Delta)
    requires ClearsOf(part, UsageLogs, d)
    ensures var r := RunClears(db, a, part);
            && (r.Success? <==> forall l | l in db.ownerOf && db.ownerOf[l] == a :: !d.cleared && l !in d.removed)
            && (r.Success? ==> r.value == db)
  {
    ClearsInTurn(db, a, part, []);
    if part != [] {
      forall l | l in db.ownerOf ensures Named(part[0].nodes, l) <==> d.cleared || l in d.removed {
        NamedMeans(part, UsageLogs, d, l);
      }
    }
  }

  lemma {:induction false} LogAdds(db: Db, a: int, part: seq<EdgeSpec>, s: set<int>)
    requires AddsOf(part, UsageLogs, s)
    ensures RunAdds(db, a, part).Success? <==> s == {}
    ensures RunAdds(db, a, part).Success? ==> RunAdds(db, a, part).value == db
  {
    AddsInTurn(db, a, part, []);
    if part != [] {
      ListsSome(part[0].nodes, s);
    }
  }

  lemma {:induction false} HeldClears(db: Db, a: int, m: EdgeChanges, c: seq<EdgeSpec>, u: seq<EdgeSpec>)
    requires ClearsOf(c, Children, m.children) && ClearsOf(u, UsageLogs, m.usageLogs)
    ensures var r := RunClears(db, a, c + u);
            && (r.Success? <==>
                  forall l | l in db.ownerOf && db.ownerOf[l] == a :: !m.usageLogs.cleared && l !in m.usageLogs.removed)
            && (r.Success? ==> r.value == db.(parentOf := Freeing(db.parentOf, a, m.children)))
  {
    ClearsInTurn(db, a, c, u);
    ChildClears(db, a, c, m.children);
    LogClears(RunClears(db, a, c).value, a, u, m.usageLogs);
  }

  lemma {:induction false} HeldAdds(db: Db, a: int, m: EdgeChanges, c: seq<EdgeSpec>, u: seq<EdgeSpec>)
    requires AddsOf(c, Children, m.children.added) && AddsOf(u, UsageLogs, m.usageLogs.added)
    ensures var r := RunAdds(db, a, c + u);
            && (r.Success? <==>
                  && (forall k | k in m.children.added :: k in db.parentOf && db.parentOf[k].None?)
                  && m.usageLogs.added == {})
            && (r.Success? ==> r.value == db.(parentOf := Claimed(db.parentOf, a, m.children.added)))
  {
    AddsInTurn(db, a, c, u);
    ChildAdds(db, a, c, m.children.added);
    var r := RunAdds(db, a, c);
    if r.Success? {
      LogAdds(r.value, a, u, m.usageLogs.added);
    }
  }

  lemma {:induction false} HeldRuns(db: Db, a: int, m: EdgeChanges, c: EdgeProgram, u: EdgeProgram)
    requires ClearsOf(c.clears, Children, m.children) && AddsOf(c.adds, Children, m.children.added)
    requires ClearsOf(u.clears, UsageLogs, m.usageLogs) && AddsOf(u.adds, UsageLogs, m.usageLogs.added)
    ensures var cleared := RunClears(db, a, c.clears + u.clears);
            var r := if cleared.Failure? then cleared else RunAdds(cleared.value, a, c.adds + u.adds);
            && (r.Success? <==> ChildrenAllowed(db.parentOf, a, m.children) && LogsAllowed(db, a, m.usageLogs))
            && (r.Success? ==>
                  r.value == db.(parentOf := Claimed(Freeing(db.parentOf, a, m.children), a, m.children.added)))
  {
    HeldClears(db, a, m, c.clears, u.clears);
    var freed := db.(parentOf := Freeing(db.parentOf, a, m.children));
    HeldAdds(freed, a, m, c.adds, u.adds);
    assert (forall k | k in m.children.added :: k in freed.parentOf && freed.parentOf[k].None?) <==>
           ChildrenAllowed(db.parentOf, a, m.children);
  }

  lemma HeldMean(db: Db, a: int, m: EdgeChanges, p: EdgeProgram)
    requires ProgramOf(p, m)
    ensures var r := RunStep(KeysHeldByOthers, db, a, p);
            && (r.Success? <==> ChildrenAllowed(db.parentOf, a, m.children) && LogsAllowed(db, a, m.usageLogs))
            && (r.Success? ==>
                  r.value == db.(parentOf := Claimed(Freeing(db.parentOf, a, m.children), a, m.children.added)))
  {
    var g, c, u := CompiledSteps(p, m);
    HeldRuns(db, a, m, c, u);
  }

  // ----- what running means --------------------------------------------------------------

  /**
   Against the generated schema alone, edge updates mean what they say, for the whole database: running
   any program compiled from a mutation, whatever order its ids are listed in, succeeds exactly when every
   neighbour named exists and no added one is still connected after the clears, and then changes the edges
   as recorded and nothing else.
   */
  lemma ProgramMeans(db: Db, a: int, m: EdgeChanges, p: EdgeProgram)
    requires ProgramOf(p, m) && SameAccounts(db)
    ensures RunProgram(db, a, p).Success? <==> StatementsAllowed(db, a, m)
    ensures RunProgram(db, a, p).Success? ==> RunProgram(db, a, p).value == Intended(db, a, m)
  {
    if a in db.parentOf {
      assert a in db.proxyOf.Keys;
      OwnMeans(db, a, m, p);
      var own := RunStep(OwnColumns, db, a, p);
      if own.Success? {
        MembershipsMean(own.value, a, m, p);
        var joined := RunStep(Memberships, own.value, a, p);
        if joined.Success? {
          HeldMean(joined.value, a, m, p);
        }
      }
    }
  }

  // ----- read edge by edge ----------------------------------------------------------------

  function Joining(members: set<(int, int)>, a: int): set<int> { set p | p in members && p.0 == a :: p.1 }

  function PointingAt(fk: map<int, Option<int>>, a: int): set<int> { set c | c in fk && fk[c] == Some(a) }

  function GroupsIn(db: Db, a: int): set<int> { Joining(db.members, a) }

  function ChildrenIn(db: Db, a: int): set<int> { PointingAt(db.parentOf, a) }

  lemma JoiningAfter(members: set<(int, int)>, a: int, d: Delta, b: int)
    ensures Joining(Grouped(Ungrouped(members, a, d), a, d.added), b) ==
            if b == a then Applied(d, Joining(members, a)) else Joining(members, b)
  {
    var after := Grouped(Ungrouped(members, a, d), a, d.added);
    var want := if b == a then Applied(d, Joining(members, a)) else Joining(members, b);
    forall g ensures g in Joining(after, b) <==> g in want {
      assert g in Joining(after, b) <==> (b, g) in after;
      assert g in Joining(members, b) <==> (b, g) in members;
    }
  }

  lemma PointingAfter(fk: map<int, Option<int>>, a: int, t: Target, d: Delta)
    requires a in fk && ChildrenAllowed(Retargeted(fk, a, t), a, d)
    ensures var after := Claimed(Freeing(Retargeted(fk, a, t), a, d), a, d.added);
            && PointingAt(after, a) - {a} == Applied(d, PointingAt(fk, a)) - {a}
            && (forall b | b != a :: PointingAt(after, b) - {a} == PointingAt(fk, b) - {a})
            && after[a] == (if a in d.added then Some(a)
                            else if Freed(AppliedTarget(t, fk[a]), a, a, d) then None
                            else AppliedTarget(t, fk[a]))
  {
    var after := Claimed(Freeing(Retargeted(fk, a, t), a, d), a, d.added);
    forall c | c != a
      ensures c in PointingAt(after, a) <==> c in Applied(d, PointingAt(fk, a))
      ensures forall b | b != a :: c in PointingAt(after, b) <==> c in PointingAt(fk, b)
    {
    }
  }

  /**
   The children of the updated account and of every other account, the updated account itself apart:
   no other account's children change, as a child can only be added that has no parent.
   */
  lemma ChildrenAfter(db: Db, a: int, m: EdgeChanges, p: EdgeProgram, b: int)
    requires ProgramOf(p, m) && SameAccounts(db) && RunProgram(db, a, p).Success?
    ensures ChildrenIn(RunProgram(db, a, p).value, b) - {a} ==
            (if b == a then Applied(m.children, ChildrenIn(db, a)) else ChildrenIn(db, b)) - {a}
  {
    ProgramMeans(db, a, m, p);
    PointingAfter(db.parentOf, a, m.parent, m.children);
  }

  /**
   The updated account's parent. It shares its column with the children edge: an account that ends up
   as its own parent in its own statement loses it to a clear of its children.
   */
  lemma ParentAfter(db: Db, a: int, m: EdgeChanges, p: EdgeProgram)
    requires ProgramOf(p, m) && SameAccounts(db) && RunProgram(db, a, p).Success?
    ensures a in db.parentOf && a in RunProgram(db, a, p).value.parentOf
    ensures var own := AppliedTarget(m.parent, db.parentOf[a]);
            RunProgram(db, a, p).value.parentOf[a] ==
            if a in m.children.added then Some(a)
            else if own == Some(a) && (m.children.cleared || a in m.children.removed) then None
            else own
  {
    ProgramMeans(db, a, m, p);
    PointingAfter(db.parentOf, a, m.parent, m.children);
  }

  /** Even so a child of another account is never taken over: the whole update is refused. */
  lemma ConnectedChildIsRefused(db: Db, a: int, m: EdgeChanges, p: EdgeProgram, c: int, b: int)
    requires ProgramOf(p, m) && SameAccounts(db) && a != b && c != a
    requires c in m.children.added && c in db.parentOf && db.parentOf[c] == Some(b)
    ensures RunProgram(db, a, p).Failure?
  {
    ProgramMeans(db, a, m, p);
  }
}
