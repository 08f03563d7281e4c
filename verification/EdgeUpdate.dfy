/**
 Edge updates of accounts: what the mutation's edge calls record, and the clear and add specifications
 they are compiled into.
 */
module EdgeUpdate {
  import opened Wrappers
  import opened AccountSchema

  // ----- recording the calls --------------------------------------------------------------

  /** What a mutation remembers of the calls on one to-many edge. */
  datatype Delta = Delta(added: set<int>, removed: set<int>, cleared: bool)

  const NO_CHANGE := Delta({}, {}, false)

  /** What a mutation remembers of the calls on one single-neighbour edge. */
  datatype Target = Target(id: Option<int>, clearedEdge: bool, clearedField: bool)

  const NO_TARGET := Target(None, false, false)

  datatype Call = Add(ids: seq<int>) | Remove(ids: seq<int>) | Clear

  function Record(d: Delta, call: Call): Delta {
    match call
    case Add(ids) => d.(added := d.added + (set i | i in ids))
    case Remove(ids) => d.(added := d.added - (set i | i in ids), removed := d.removed + (set i | i in ids))
    case Clear => d.(cleared := true)
  }

  function Recorded(calls: seq<Call>): Delta {
    if calls == [] then NO_CHANGE else Record(Recorded(calls[..|calls| - 1]), calls[|calls| - 1])
  }

  class EdgeMutation {
    var added: set<int>
    var removed: set<int>
    var cleared: bool

    function View(): Delta
      reads this
    {
      Delta(added, removed, cleared)
    }

    constructor ()
      ensures View() == NO_CHANGE
    {
      added, removed, cleared := {}, {}, false;
    }

    method AddIDs(ids: seq<int>)
      modifies this
      ensures View() == Record(old(View()), Add(ids))
    {
      for i := 0 to |ids|
        invariant View() == old(View()).(added := old(added) + (set j | j in ids[..i]))
      {
        added := added + {ids[i]};
      }
      assert ids[..|ids|] == ids;
    }

    method RemoveIDs(ids: seq<int>)
      modifies this
      ensures View() == Record(old(View()), Remove(ids))
    {
      for i := 0 to |ids|
        invariant cleared == old(cleared)
        invariant added == old(added) - (set j | j in ids[..i])
        invariant removed == old(removed) + (set j | j in ids[..i])
      {
        added := added - {ids[i]};
        removed := removed + {ids[i]};
      }
      assert ids[..|ids|] == ids;
    }

    method ClearAll()
      modifies this
      ensures View() == Record(old(View()), Clear)
    {
      cleared := true;
    }

    method Reset()
      modifies this
      ensures View() == NO_CHANGE
    {
      added, removed, cleared := {}, {}, false;
    }
  }

  // ----- what the record means ------------------------------------------------------------

  /** The neighbours after the update: the old ones unless cleared, less the removed, with the added. */
  function Applied(d: Delta, before: set<int>): set<int> {
    (if d.cleared then {} else before - d.removed) + d.added
  }

  /** The calls read one after the other. */
  function InTurn(before: set<int>, calls: seq<Call>): set<int> {
    if calls == [] then before
    else
      var s := InTurn(before, calls[..|calls| - 1]);
      match calls[|calls| - 1]
      case Add(ids) => s + (set i | i in ids)
      case Remove(ids) => s - (set i | i in ids)
      case Clear => {}
  }

  /** The ids added before a clear and neither removed nor added again since. */
  function Outliving(calls: seq<Call>): set<int> {
    if calls == [] then {}
    else
      var init := calls[..|calls| - 1];
      match calls[|calls| - 1]
      case Add(ids) => Outliving(init) - (set i | i in ids)
      case Remove(ids) => Outliving(init) - (set i | i in ids)
      case Clear => Recorded(init).added
  }

  /** The update does what the calls say in turn, plus the additions that outlive a later clear. */
  lemma {:induction false} AppliedIsInTurnPlusOutliving(calls: seq<Call>, before: set<int>)
    ensures Applied(Recorded(calls), before) == InTurn(before, calls) + Outliving(calls)
    ensures InTurn(before, calls) !! Outliving(calls)
  {
    if calls != [] {
      AppliedIsInTurnPlusOutliving(calls[..|calls| - 1], before);
    }
  }

  predicate Touches(call: Call, x: int) {
    (call.Add? || call.Remove?) && x in call.ids
  }

  /** The `i`-th call adds `x`, and no later call adds or removes it. */
  ghost predicate AddedAt(calls: seq<Call>, x: int, i: nat)
    requires i < |calls|
  {
    calls[i].Add? && Touches(calls[i], x) && forall k | i < k < |calls| :: !Touches(calls[k], x)
  }

  ghost predicate StillAdded(calls: seq<Call>, x: int) {
    exists i | 0 <= i < |calls| :: AddedAt(calls, x, i)
  }

  /** A clear follows the last call to name `x`, which is an addition. */
  ghost predicate AddedThenCleared(calls: seq<Call>, x: int) {
    exists i, j | 0 <= i < j < |calls| :: AddedAt(calls, x, i) && calls[j].Clear?
  }

  lemma {:induction false} RecordedAdditions(calls: seq<Call>, x: int)
    ensures x in Recorded(calls).added <==> StillAdded(calls, x)
  {
    if calls != [] {
      var n := |calls| - 1;
      RecordedAdditions(calls[..n], x);
      forall i | 0 <= i < n ensures AddedAt(calls, x, i) <==> AddedAt(calls[..n], x, i) && !Touches(calls[n], x) {
        AddedAtPrefix(calls, x, i);
      }
      assert AddedAt(calls, x, n) <==> calls[n].Add? && x in calls[n].ids;
    }
  }

  lemma AddedAtPrefix(calls: seq<Call>, x: int, i: nat)
    requires i < |calls| - 1
    ensures var n := |calls| - 1; AddedAt(calls, x, i) <==> AddedAt(calls[..n], x, i) && !Touches(calls[n], x)
  {
    var n := |calls| - 1;
    assert forall k | 0 <= k < n :: calls[..n][k] == calls[k];
  }

  /** The additions that outlive a clear, said by the positions of the calls. */
  lemma {:induction false} OutlivingIff(calls: seq<Call>, x: int)
    ensures x in Outliving(calls) <==> AddedThenCleared(calls, x)
  {
    if calls != [] {
      var n := |calls| - 1;
      OutlivingIff(calls[..n], x);
      RecordedAdditions(calls[..n], x);
      forall i | 0 <= i < n ensures AddedAt(calls, x, i) <==> AddedAt(calls[..n], x, i) && !Touches(calls[n], x) {
        AddedAtPrefix(calls, x, i);
      }
      if calls[n].Clear? {
        ClearedLast(calls, x);
      } else {
        NotClearedLast(calls, x);
      }
    }
  }

  lemma ClearedLast(calls: seq<Call>, x: int)
    requires calls != [] && calls[|calls| - 1].Clear?
    ensures AddedThenCleared(calls, x) <==> StillAdded(calls[..|calls| - 1], x)
  {
    var n := |calls| - 1;
    if i, j :| 0 <= i < j < |calls| && AddedAt(calls, x, i) && calls[j].Clear? {
      AddedAtPrefix(calls, x, i);
    }
    if i :| 0 <= i < n && AddedAt(calls[..n], x, i) {
      AddedAtPrefix(calls, x, i);
      assert calls[n].Clear?;
    }
  }

  lemma NotClearedLast(calls: seq<Call>, x: int)
    requires calls != [] && !calls[|calls| - 1].Clear?
    ensures AddedThenCleared(calls, x) <==>
            AddedThenCleared(calls[..|calls| - 1], x) && !Touches(calls[|calls| - 1], x)
  {
    var n := |calls| - 1;
    if i, j :| 0 <= i < j < |calls| && AddedAt(calls, x, i) && calls[j].Clear? {
      AddedAtPrefix(calls, x, i);
      assert calls[..n][j].Clear?;
    }
    if i, j :| 0 <= i < j < n && AddedAt(calls[..n], x, i) && calls[..n][j].Clear? {
      AddedAtPrefix(calls, x, i);
      assert calls[j].Clear?;
    }
  }

  lemma {:induction false} NothingOutlives(calls: seq<Call>)
    ensures Outliving(calls) == {} <==> forall x :: !AddedThenCleared(calls, x)
  {
    forall x ensures x in Outliving(calls) <==> AddedThenCleared(calls, x) {
      OutlivingIff(calls, x);
    }
    if Outliving(calls) != {} {
      var x := SomeMember(Outliving(calls));
      assert AddedThenCleared(calls, x);
    }
  }

  /** So the calls mean what they say in turn, on every old edge set, iff no addition is followed by a clear for good. */
  lemma {:induction false} CallsMeanWhatTheySayIff(calls: seq<Call>)
    ensures (forall before :: Applied(Recorded(calls), before) == InTurn(before, calls)) <==>
            forall x :: !AddedThenCleared(calls, x)
  {
    NothingOutlives(calls);
    forall before
      ensures Applied(Recorded(calls), before) == InTurn(before, calls) <==> Outliving(calls) == {}
    {
      AppliedIsInTurnPlusOutliving(calls, before);
      var late := Outliving(calls);
      if late != {} {
        var i := SomeMember(late);
        assert i in Applied(Recorded(calls), before);
      }
    }
    assert Applied(Recorded(calls), {}) == InTurn({}, calls) <==> Outliving(calls) == {};
  }

  // ----- single-neighbour edges -----------------------------------------------------------

  datatype TargetCall = SetID(id: int) | ClearEdge | ClearField

  function RecordTarget(t: Target, call: TargetCall): Target {
    match call
    case SetID(id) => t.(id := Some(id))
    case ClearEdge => t.(clearedEdge := true, clearedField := true)
    case ClearField => t.(id := None, clearedField := true)
  }

  function RecordedTarget(calls: seq<TargetCall>): Target {
    if calls == [] then NO_TARGET
    else RecordTarget(RecordedTarget(calls[..|calls| - 1]), calls[|calls| - 1])
  }

  predicate IsCleared(t: Target) { t.clearedField || t.clearedEdge }

  function AppliedTarget(t: Target, before: Option<int>): Option<int> {
    if t.id.Some? then t.id else if IsCleared(t) then None else before
  }

  function TargetInTurn(before: Option<int>, calls: seq<TargetCall>): Option<int> {
    if calls == [] then before
    else match calls[|calls| - 1]
      case SetID(id) => Some(id)
      case ClearEdge | ClearField => None
  }

  /** The `i`-th call sets an id that no later call replaces or drops. */
  ghost predicate StillSet(calls: seq<TargetCall>, i: nat)
    requires i < |calls|
  {
    calls[i].SetID? && forall k | i < k < |calls| :: calls[k].ClearEdge?
  }

  ghost predicate SomeStillSet(calls: seq<TargetCall>) {
    exists i | 0 <= i < |calls| :: StillSet(calls, i)
  }

  /** The edge is cleared last, behind a set id: only clears of the edge follow the last `SetID`, and at least one. */
  ghost predicate SetOutlivesClear(calls: seq<TargetCall>) {
    calls != [] && calls[|calls| - 1].ClearEdge? && SomeStillSet(calls)
  }

  lemma {:induction false} RecordedID(calls: seq<TargetCall>)
    ensures RecordedTarget(calls).id.Some? <==> SomeStillSet(calls)
    ensures forall i | 0 <= i < |calls| && StillSet(calls, i) :: RecordedTarget(calls).id == Some(calls[i].id)
    ensures RecordedTarget(calls).id.None? ==> calls == [] || IsCleared(RecordedTarget(calls))
  {
    if calls != [] {
      var n := |calls| - 1;
      RecordedID(calls[..n]);
      forall i | 0 <= i < n ensures StillSet(calls, i) <==> StillSet(calls[..n], i) && calls[n].ClearEdge? {
        assert forall k | 0 <= k < n :: calls[..n][k] == calls[k];
      }
      assert StillSet(calls, n) <==> calls[n].SetID?;
    }
  }

  /** What a sequence of calls makes of any old target. */
  lemma {:induction false} TargetCallsMean(calls: seq<TargetCall>, before: Option<int>)
    ensures !SetOutlivesClear(calls) ==> AppliedTarget(RecordedTarget(calls), before) == TargetInTurn(before, calls)
    ensures SetOutlivesClear(calls) ==>
              exists i | 0 <= i < |calls| :: StillSet(calls, i) && AppliedTarget(RecordedTarget(calls), before) == Some(calls[i].id)
  {
    RecordedID(calls);
    if calls != [] {
      var n := |calls| - 1;
      assert calls[n].SetID? ==> StillSet(calls, n);
      assert calls[n].ClearField? ==> forall i | 0 <= i < |calls| :: !StillSet(calls, i);
    }
    if SetOutlivesClear(calls) {
      var i :| 0 <= i < |calls| && StillSet(calls, i);
      assert AppliedTarget(RecordedTarget(calls), before) == Some(calls[i].id);
    }
  }

  /** The last call on a single-neighbour edge decides, on every old target, unless it clears the edge behind a set id. */
  lemma {:induction false} LastTargetCallDecidesIff(calls: seq<TargetCall>)
    ensures (forall before :: AppliedTarget(RecordedTarget(calls), before) == TargetInTurn(before, calls)) <==>
            !SetOutlivesClear(calls)
  {
    forall before
      ensures AppliedTarget(RecordedTarget(calls), before) == TargetInTurn(before, calls) <==> !SetOutlivesClear(calls)
    {
      TargetCallsMean(calls, before);
    }
    assert AppliedTarget(RecordedTarget(calls), None) == TargetInTurn(None, calls) <==> !SetOutlivesClear(calls);
  }

  class TargetMutation {
    var id: Option<int>
    var clearedEdge: bool
    var clearedField: bool

    function View(): Target
      reads this
    {
      Target(id, clearedEdge, clearedField)
    }

    constructor ()
      ensures View() == NO_TARGET
    {
      id, clearedEdge, clearedField := None, false, false;
    }

    method SetTarget(i: int)
      modifies this
      ensures View() == RecordTarget(old(View()), SetID(i))
    {
      id := Some(i);
    }

    method ClearTheEdge()
      modifies this
      ensures View() == RecordTarget(old(View()), ClearEdge)
    {
      clearedEdge := true;
      clearedField := true;
    }

    method ClearTheField()
      modifies this
      ensures View() == RecordTarget(old(View()), ClearField)
    {
      id := None;
      clearedField := true;
    }

    /** `ResetProxy` and `ResetParent`: the field's own mark of being cleared stays behind. */
    method ResetEdge()
      modifies this
      ensures View() == Target(None, false, old(clearedField))
    {
      id := None;
      clearedEdge := false;
    }
  }

  /** Resetting an edge undoes every change exactly when neither kind of clear has been called. */
  lemma {:induction false} ResetUndoesIff(calls: seq<TargetCall>)
    ensures Target(None, false, RecordedTarget(calls).clearedField) == NO_TARGET <==>
            forall i | 0 <= i < |calls| :: calls[i].SetID?
  {
    if calls != [] {
      ResetUndoesIff(calls[..|calls| - 1]);
    }
  }

  // ----- compiling into edge specifications -----------------------------------------------

  datatype EdgeProgram = EdgeProgram(clears: seq<EdgeSpec>, adds: seq<EdgeSpec>)

  datatype EdgeChanges = EdgeChanges(groups: Delta, proxy: Target, parent: Target, children: Delta, usageLogs: Delta)

  /** `ids` lists a map's keys, in whatever order the map is iterated. */
  ghost predicate Lists<T>(ids: seq<T>, s: set<T>) {
    (forall i | i in ids :: i in s) && (forall i | i in s :: i in ids) && Distinct(ids)
  }

  lemma ListsSome<T>(ids: seq<T>, s: set<T>)
    requires Lists(ids, s)
    ensures ids == [] <==> s == {}
    ensures (set i | i in ids) == s
  {
    if s != {} {
      var i := SomeMember(s);
    }
    if ids != [] {
      assert ids[0] in ids;
    }
  }

  method Enumerate<T(==)>(s: set<T>) returns (ids: seq<T>)
    ensures Lists(ids, s)
    ensures ids == [] <==> s == {}
  {
    ids := [];
    var left := s;
    while left != {}
      invariant left <= s && Lists(ids, s - left)
    {
      var i :| i in left;
      ids := ids + [i];
      left := left - {i};
    }
    ListsSome(ids, s);
  }

  ghost predicate OneTarget(spec: EdgeSpec, relation: Relation, s: set<int>) {
    spec.relation == relation && Lists(spec.nodes, s)
  }

  /** The clears a to-many edge contributes: one naming no nodes, one naming the removed, or none. */
  ghost predicate ClearsOf(part: seq<EdgeSpec>, relation: Relation, d: Delta) {
    if d.cleared then part == [EdgeSpec(relation, [])]
    else if d.removed != {} then |part| == 1 && OneTarget(part[0], relation, d.removed)
    else part == []
  }

  ghost predicate AddsOf(part: seq<EdgeSpec>, relation: Relation, s: set<int>) {
    if s != {} then |part| == 1 && OneTarget(part[0], relation, s) else part == []
  }

  method CompileToMany(relation: Relation, d: Delta) returns (clears: seq<EdgeSpec>, adds: seq<EdgeSpec>)
    ensures ClearsOf(clears, relation, d) && AddsOf(adds, relation, d.added)
  {
    clears, adds := [], [];
    if d.cleared {
      clears := [EdgeSpec(relation, [])];
    }
    var removed := Enumerate(d.removed);
    if |removed| > 0 && !d.cleared {
      clears := [EdgeSpec(relation, removed)];
    }
    var added := Enumerate(d.added);
    if |added| > 0 {
      adds := [EdgeSpec(relation, added)];
    }
  }

  function ClearsOfTarget(relation: Relation, t: Target): seq<EdgeSpec> {
    if IsCleared(t) then [EdgeSpec(relation, [])] else []
  }

  function AddsOfTarget(relation: Relation, t: Target): seq<EdgeSpec> {
    if t.id.Some? then [EdgeSpec(relation, [t.id.value])] else []
  }

  /** The programs the generated code may produce for a mutation: they differ in the order of ids only. */
  ghost predicate ProgramOf(p: EdgeProgram, m: EdgeChanges) {
    exists g, c, u :: Assembled(p, m, g, c, u)
  }

  ghost predicate Assembled(p: EdgeProgram, m: EdgeChanges, g: EdgeProgram, c: EdgeProgram, u: EdgeProgram) {
    && ClearsOf(g.clears, Groups, m.groups) && AddsOf(g.adds, Groups, m.groups.added)
    && ClearsOf(c.clears, Children, m.children) && AddsOf(c.adds, Children, m.children.added)
    && ClearsOf(u.clears, UsageLogs, m.usageLogs) && AddsOf(u.adds, UsageLogs, m.usageLogs.added)
    && p.clears == g.clears + ClearsOfTarget(Proxy, m.proxy) + ClearsOfTarget(Parent, m.parent) + c.clears + u.clears
    && p.adds == g.adds + AddsOfTarget(Proxy, m.proxy) + AddsOfTarget(Parent, m.parent) + c.adds + u.adds
  }

  /** The edge part of `sqlSave`, the same in the many-row and the one-row builder. */
  method CompileEdges(m: EdgeChanges) returns (p: EdgeProgram)
    ensures ProgramOf(p, m)
  {
    var gc, ga := CompileToMany(Groups, m.groups);
    var pc, pa := CompileTarget(Proxy, m.proxy);
    var rc, ra := CompileTarget(Parent, m.parent);
    var cc, ca := CompileToMany(Children, m.children);
    var uc, ua := CompileToMany(UsageLogs, m.usageLogs);
    p := EdgeProgram(gc + pc + rc + cc + uc, ga + pa + ra + ca + ua);
    ghost var g, c, u := EdgeProgram(gc, ga), EdgeProgram(cc, ca), EdgeProgram(uc, ua);
    assert Assembled(p, m, g, c, u);
  }

  method CompileTarget(relation: Relation, t: Target) returns (clears: seq<EdgeSpec>, adds: seq<EdgeSpec>)
    ensures clears == ClearsOfTarget(relation, t) && adds == AddsOfTarget(relation, t)
  {
    clears, adds := [], [];
    if IsCleared(t) {
      clears := clears + [EdgeSpec(relation, [])];
    }
    if t.id.Some? {
      adds := adds + [EdgeSpec(relation, [t.id.value])];
    }
  }

  // ----- one specification per relation ---------------------------------------------------

  function Rank(r: Relation): nat {
    match r
    case Groups => 0
    case Proxy => 1
    case Parent => 2
    case Children => 3
    case UsageLogs => 4
  }

  /** Specifications in the fixed order of relations, at most one each, all below `bound`. */
  ghost predicate Ascending(specs: seq<EdgeSpec>, bound: nat) {
    && (forall i, j | 0 <= i < j < |specs| :: Rank(specs[i].relation) < Rank(specs[j].relation))
    && (forall i | 0 <= i < |specs| :: Rank(specs[i].relation) < bound)
  }

  ghost predicate IsPart(part: seq<EdgeSpec>, r: Relation) {
    |part| == 0 || (|part| == 1 && part[0].relation == r)
  }

  lemma AscendingAppend(specs: seq<EdgeSpec>, part: seq<EdgeSpec>, r: Relation)
    requires Ascending(specs, Rank(r)) && IsPart(part, r)
    ensures Ascending(specs + part, Rank(r) + 1)
  {
  }

  lemma AscendingParts(g: seq<EdgeSpec>, x: seq<EdgeSpec>, y: seq<EdgeSpec>, c: seq<EdgeSpec>, u: seq<EdgeSpec>)
    requires IsPart(g, Groups) && IsPart(x, Proxy) && IsPart(y, Parent) && IsPart(c, Children) && IsPart(u, UsageLogs)
    ensures Ascending(g + x + y + c + u, 5)
  {
    AscendingAppend(g, x, Proxy);
    AscendingAppend(g + x, y, Parent);
    AscendingAppend(g + x + y, c, Children);
    AscendingAppend(g + x + y + c, u, UsageLogs);
  }

  /** Every relation is cleared at most once and added to at most once. */
  lemma OneSpecPerRelation(p: EdgeProgram, m: EdgeChanges)
    requires ProgramOf(p, m)
    ensures Ascending(p.clears, 5) && Ascending(p.adds, 5)
  {
    var g, c, u :| Assembled(p, m, g, c, u);
    AscendingParts(g.clears, ClearsOfTarget(Proxy, m.proxy), ClearsOfTarget(Parent, m.parent), c.clears, u.clears);
    AscendingParts(g.adds, AddsOfTarget(Proxy, m.proxy), AddsOfTarget(Parent, m.parent), c.adds, u.adds);
  }
}
