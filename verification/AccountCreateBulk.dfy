/** The bulk builder itself, and what its `Save` guarantees for accounts. */
module AccountCreateBulk {
  import opened Wrappers
  import opened AccountSchema
  import opened AccountCreate
  import opened BulkSave
  import opened BulkOutcome

  function AccountSetup(rt: Runtime, hooks: seq<seq<Hook>>, batch: seq<CreateSpec> -> Option<seq<Option<int>>>): Setup {
    Setup(f => Check(rt, f), SpecOf, hooks, batch)
  }

  /** `defaults` on a mutation; its error is ignored. */
  function FillIn(rt: Runtime): Mutation -> Mutation {
    (m: Mutation) => m.(fields := WithDefaults(rt, m.fields, DEFAULTED))
  }

  /** The builders' mutations once the first `n` builders have filled theirs in, in order. */
  function Prepared(fill: Mutation -> Mutation, s: State, n: nat): (t: State)
    requires n <= |s.current| && forall j | 0 <= j < |s.current| :: s.current[j] < |s.store|
    ensures t == s.(store := t.store) && |t.store| == |s.store|
    ensures forall r | 0 <= r < |s.store| :: t.store[r].done == s.store[r].done && t.store[r].id == s.store[r].id
  {
    if n == 0 then s else Filling(fill, Prepared(fill, s, n - 1), s.current[n - 1])
  }

  /** One mutation filled in. */
  function Filling(fill: Mutation -> Mutation, s: State, r: nat): (t: State)
    requires r < |s.store|
  {
    s.(store := s.store[r := s.store[r].(m := fill(s.store[r].m))])
  }

  class AccountCreateBulk {
    const setup: Setup
    const fill: Mutation -> Mutation
    var current: seq<nat>
    var store: seq<MutationState>
    var nodes: seq<Option<Fields>>
    var specs: seq<Option<CreateSpec>>
    var ids: seq<Option<int>>
    var trace: seq<Event>

    function View(): State
      reads this
    {
      State(current, store, nodes, specs, ids, trace)
    }

    ghost predicate Valid()
      reads this
    {
      SetupOk(setup) && StateOk(setup, View())
    }

    /** One builder for every list of hooks; mutations beyond those of the builders belong to hooks. */
    constructor (rt: Runtime, hooks: seq<seq<Hook>>, batch: seq<CreateSpec> -> Option<seq<Option<int>>>,
                 mutations: seq<Mutation>)
      requires |hooks| <= |mutations|
      requires SetupOk(AccountSetup(rt, hooks, batch))
      requires forall i, h | 0 <= i < |hooks| && 0 <= h < |hooks[i]| && hooks[i][h].Substitute? ::
                 hooks[i][h].other < |mutations|
      ensures Valid() && setup == AccountSetup(rt, hooks, batch) && fill == FillIn(rt)
      ensures current == seq(|hooks|, i => i)
      ensures store == seq(|mutations|, i requires 0 <= i < |mutations| => MutationState(mutations[i], None, false))
      ensures trace == []
    {
      setup := AccountSetup(rt, hooks, batch);
      fill := FillIn(rt);
      current := seq(|hooks|, i => i);
      store := seq(|mutations|, i requires 0 <= i < |mutations| => MutationState(mutations[i], None, false));
      nodes := seq(|hooks|, _ => None);
      specs := seq(|hooks|, _ => None);
      ids := seq(|hooks|, _ => None);
      trace := [];
    }

    /** The mutator of builder `i`, entered at hook `h` with mutation `m`. */
    method Mutate(i: nat, h: nat, m: nat) returns (err: Option<SaveError>)
      requires Valid() && i < |setup.hooks| && h <= |setup.hooks[i]| && m < |store|
      modifies this
      ensures Valid()
      ensures (View(), err) == BulkSave.Mutate(setup, i, h, m, old(View()))
      decreases |setup.hooks| - i, |setup.hooks[i]| - h, 1
    {
      if h < |setup.hooks[i]| {
        trace := trace + [Enter(i, h)];
        match setup.hooks[i][h] {
          case InPlace(edit) =>
            store := store[m := store[m].(m := edit(store[m].m))];
            err := Mutate(i, h + 1, m);
          case Substitute(other) =>
            err := Mutate(i, h + 1, other);
          case Reject =>
            err := Some(HookRejected(i, h));
        }
        trace := trace + [Exit(i, h)];
      } else {
        err := MutateInner(i, m);
      }
    }

    /** The innermost mutator of builder `i`: check, specify, go on with the chain, complete. */
    method MutateInner(i: nat, m: nat) returns (err: Option<SaveError>)
      requires Valid() && i < |setup.hooks| && m < |store|
      modifies this
      ensures Valid()
      ensures (View(), err) == BulkSave.Mutate(setup, i, |setup.hooks[i]|, m, old(View()))
      decreases |setup.hooks| - i, 0, 0
    {
      trace := trace + [Checked(i)];
      var fault := setup.check(store[current[i]].m.fields);
      if fault.Some? {
        return Some(CheckFailed(i, fault.value));
      }
      SpecifyBuilder(i, m);
      if i < |setup.hooks| - 1 {
        err := Mutate(i + 1, 0, current[i + 1]);
      } else {
        err := BatchCreate();
      }
      if err.Some? {
        return;
      }
      MarkDone(i, m);
    }

    /** The builder takes the mutation that arrived and makes its node and specification. */
    method SpecifyBuilder(i: nat, m: nat)
      requires Valid() && i < |setup.hooks| && m < |store|
      modifies this
      ensures Valid() && View() == Specify(setup, old(View()), i, m)
    {
      current := current[i := m];
      nodes := nodes[i := Some(store[m].m.fields)];
      specs := specs[i := Some(setup.specOf(store[m].m))];
      trace := trace + [Specified(i)];
    }

    /** After the insert: the node and the mutation get the id, and the mutation is done. */
    method MarkDone(i: nat, m: nat)
      requires Valid() && i < |setup.hooks| && m < |store| && nodes[i].Some?
      modifies this
      ensures Valid() && View() == Complete(old(View()), i, m)
    {
      if ids[i].Some? {
        nodes := nodes[i := Some(nodes[i].value[ID := VInt(ids[i].value)])];
      }
      store := store[m := store[m].(id := Some(ids[i].GetOr(0)), done := true)];
      trace := trace + [Completed(i)];
    }

    /** The single insert, made by the last builder in the chain. */
    method BatchCreate() returns (err: Option<SaveError>)
      requires Valid()
      modifies this
      ensures Valid()
      ensures (View(), err) == Insert(setup, old(View()))
    {
      var all := Filled(specs);
      trace := trace + [BatchInsert(all)];
      var answer := setup.batch(all);
      if answer.None? {
        return Some(BatchFailed);
      }
      if |answer.value| == |ids| {
        ids := answer.value;
      }
      return None;
    }

    /** Every builder's `defaults`, before any mutator runs. */
    method FillAll()
      requires Valid()
      modifies this
      ensures Valid() && View() == Prepared(fill, old(View()), |setup.hooks|)
    {
      ghost var was := View();
      for i := 0 to |setup.hooks|
        invariant Valid() && current == was.current
        invariant View() == Prepared(fill, was, i)
      {
        FillOne(i);
      }
    }

    method FillOne(i: nat)
      requires Valid() && i < |current|
      modifies this
      ensures Valid() && View() == Filling(fill, old(View()), old(current[i]))
    {
      store := store[current[i] := store[current[i]].(m := fill(store[current[i]].m))];
    }

    method Save() returns (r: Result<seq<Option<Fields>>, SaveError>)
      requires Valid()
      modifies this
      ensures Valid()
      ensures setup.hooks == [] ==> View() == old(View()) && r == Success([])
      ensures setup.hooks != [] ==>
                var s := Prepared(fill, old(View()), |setup.hooks|);
                var (t, err) := BulkSave.Mutate(setup, 0, 0, s.current[0], s);
                View() == t && r == (if err.Some? then Failure(err.value) else Success(t.nodes))
    {
      FillAll();
      if |setup.hooks| > 0 {
        var err := Mutate(0, 0, current[0]);
        return if err.Some? then Failure(err.value) else Success(nodes);
      }
      return Success(nodes);
    }
  }

  // ----- what Save guarantees -------------------------------------------------------------

  lemma {:induction false} PreparedOwn(fill: Mutation -> Mutation, s: State, n: nat, j: nat)
    requires n <= |s.current| && forall k | 0 <= k < |s.current| :: s.current[k] < |s.store|
    requires forall a, b | 0 <= a < b < |s.current| :: s.current[a] != s.current[b]
    requires j < |s.current|
    ensures Prepared(fill, s, n).store[s.current[j]].m ==
            if j < n then fill(s.store[s.current[j]].m) else s.store[s.current[j]].m
  {
    if n > 0 {
      PreparedOwn(fill, s, n - 1, j);
    }
  }

  lemma {:induction false} PreparedIsPlain(c: Setup, fill: Mutation -> Mutation, s: State)
    requires StateOk(c, s) && Plain(c, s)
    ensures StateOk(c, Prepared(fill, s, |c.hooks|)) && Plain(c, Prepared(fill, s, |c.hooks|))
  {
  }

  /** The whole chain, from mutations that have been filled in. */
  lemma {:induction false} ChainAllOrNothing(c: Setup, s: State)
    requires SetupOk(c) && c.hooks != [] && StateOk(c, s) && Plain(c, s)
    ensures var (t, err) := BulkSave.Mutate(c, 0, 0, s.current[0], s);
            var specs := Specs(c, Finals(c, s, 0, 0));
            && s.trace <= t.trace
            && Inserts(NewEvents(s, t)) == (if Passable(c, s, 0, 0) then [specs] else [])
            && (err.None? <==> Passable(c, s, 0, 0) && c.batch(specs).Some?)
            && (err.None? ==> Some(t.ids) == c.batch(specs) && Finished(s, t, 0, Finals(c, s, 0, 0), t.ids))
            && (err.Some? ==> forall r | 0 <= r < |s.store| ::
                  t.store[r].done == s.store[r].done && t.store[r].id == s.store[r].id)
  {
    MutateAchieves(c, 0, 0, s, []);
    assert [] + Specs(c, Finals(c, s, 0, 0)) == Specs(c, Finals(c, s, 0, 0));
    if BulkSave.Mutate(c, 0, 0, s.current[0], s).1.Some? {
      FailureMarksNothing(c, 0, 0, s.current[0], s);
    }
  }

  /**
   All or nothing. For a non-empty list of builders with mutations of their own and hooks that pass
   them on: the insert runs exactly once, with every builder's spec in builder order, if and only if
   no hook rejects and every check passes; the save succeeds exactly when that insert does, and then
   every mutation is done and knows its id and every node carries it.
   */
  lemma {:induction false} SaveAllOrNothing(c: Setup, fill: Mutation -> Mutation, s0: State)
    requires SetupOk(c) && c.hooks != [] && StateOk(c, s0) && Plain(c, s0)
    ensures var s := Prepared(fill, s0, |c.hooks|);
            var (t, err) := BulkSave.Mutate(c, 0, 0, s.current[0], s);
            var specs := Specs(c, Finals(c, s, 0, 0));
            && s0.trace <= t.trace
            && Inserts(NewEvents(s0, t)) == (if Passable(c, s, 0, 0) then [specs] else [])
            && (err.None? <==> Passable(c, s, 0, 0) && c.batch(specs).Some?)
            && (err.None? ==> Some(t.ids) == c.batch(specs) && Finished(s, t, 0, Finals(c, s, 0, 0), t.ids))
            && (err.Some? ==> forall r | 0 <= r < |s0.store| ::
                  t.store[r].done == s0.store[r].done && t.store[r].id == s0.store[r].id)
  {
    PreparedIsPlain(c, fill, s0);
    ChainAllOrNothing(c, Prepared(fill, s0, |c.hooks|));
  }

  lemma {:induction false} FinalOf(c: Setup, s: State, i: nat, j: nat)
    requires StateOk(c, s) && i <= j < |c.hooks|
    ensures Finals(c, s, i, 0)[j - i] == Edited(c.hooks[j], 0, s.store[s.current[j]].m)
    decreases j - i
  {
    var own := Edited(c.hooks[i], 0, s.store[s.current[i]].m);
    if i < j {
      FinalOf(c, s, i + 1, j);
      SecondOn(own, Finals(c, s, i + 1, 0), j - i);
    } else if i + 1 < |c.hooks| {
      assert ([own] + Finals(c, s, i + 1, 0))[0] == own;
    }
  }

  lemma SecondOn<T>(x: T, rest: seq<T>, k: nat)
    requires 0 < k <= |rest|
    ensures ([x] + rest)[k] == rest[k - 1]
  {
  }

  /** Builder `j` inserts its own mutation: filled in first, then edited by its hooks in order. */
  lemma {:induction false} FinalIsFilledThenEdited(c: Setup, fill: Mutation -> Mutation, s0: State, i: nat, j: nat)
    requires StateOk(c, s0) && Plain(c, s0) && i <= j < |c.hooks|
    ensures Finals(c, Prepared(fill, s0, |c.hooks|), i, 0)[j - i] ==
            Edited(c.hooks[j], 0, fill(s0.store[s0.current[j]].m))
  {
    PreparedIsPlain(c, fill, s0);
    FinalOf(c, Prepared(fill, s0, |c.hooks|), i, j);
    PreparedOwn(fill, s0, |c.hooks|, j);
  }

  /** A save goes through only if what every builder inserts passes its check. */
  lemma {:induction false} PassableNeeds(c: Setup, s: State, i: nat, j: nat)
    requires StateOk(c, s) && i <= j < |c.hooks| && Passable(c, s, i, 0)
    ensures c.check(Edited(c.hooks[j], 0, s.store[s.current[j]].m).fields).None?
    decreases j - i
  {
    if i < j {
      PassableNeeds(c, s, i + 1, j);
    }
  }

  /** A defaulted column that is still unset once a builder's hooks are through keeps the batch from being inserted. */
  lemma {:induction false} UnsetDefaultStopsTheBatch(rt: Runtime, hooks: seq<seq<Hook>>,
                                  batch: seq<CreateSpec> -> Option<seq<Option<int>>>, s0: State, j: nat, u: Column)
    requires StateOk(AccountSetup(rt, hooks, batch), s0) && Plain(AccountSetup(rt, hooks, batch), s0)
    requires j < |hooks| && u in DEFAULTED
    requires u !in Edited(hooks[j], 0, FillIn(rt)(s0.store[s0.current[j]].m)).fields
    ensures !Passable(AccountSetup(rt, hooks, batch), Prepared(FillIn(rt), s0, |hooks|), 0, 0)
  {
    var c, s := AccountSetup(rt, hooks, batch), Prepared(FillIn(rt), s0, |hooks|);
    var final := Edited(hooks[j], 0, FillIn(rt)(s0.store[s0.current[j]].m));
    PreparedIsPlain(c, FillIn(rt), s0);
    PreparedOwn(FillIn(rt), s0, |hooks|, j);
    DefaultedIsRequired(u);
    CheckPassesIff(rt, final.fields);
    assert c.check(final.fields) == Check(rt, final.fields);
    if Passable(c, s, 0, 0) {
      PassableNeeds(c, s, 0, j);
    }
  }

  /** None of the hooks sets the column where it is unset. */
  ghost predicate LeaveUnset(hooks: seq<Hook>, u: Column) {
    forall h, m: Mutation | 0 <= h < |hooks| && hooks[h].InPlace? ::
      u in hooks[h].edit(m).fields ==> u in m.fields
  }

  lemma {:induction false} EditedLeavesUnset(hooks: seq<Hook>, h: nat, m: Mutation, u: Column)
    requires h <= |hooks| && LeaveUnset(hooks, u) && u !in m.fields
    ensures u !in Edited(hooks, h, m).fields
    decreases |hooks| - h
  {
    if h < |hooks| {
      EditedLeavesUnset(hooks, h + 1, if hooks[h].InPlace? then hooks[h].edit(m) else m, u);
    }
  }

  /**
   Ignoring the error of `defaults` lets nothing through: if it failed for some builder and none of that
   builder's hooks sets the column it failed on, whatever else they write, the batch is never inserted.
   */
  lemma {:induction false} FailedDefaultsStopTheBatch(rt: Runtime, hooks: seq<seq<Hook>>,
                                   batch: seq<CreateSpec> -> Option<seq<Option<int>>>, s0: State, j: nat)
    requires StateOk(AccountSetup(rt, hooks, batch), s0) && Plain(AccountSetup(rt, hooks, batch), s0)
    requires j < |hooks| && DefaultsFault(rt, s0.store[s0.current[j]].m.fields, DEFAULTED).Some?
    requires LeaveUnset(hooks[j], DefaultsFault(rt, s0.store[s0.current[j]].m.fields, DEFAULTED).value.column)
    ensures !Passable(AccountSetup(rt, hooks, batch), Prepared(FillIn(rt), s0, |hooks|), 0, 0)
  {
    var own := s0.store[s0.current[j]].m;
    var u := DefaultsFault(rt, own.fields, DEFAULTED).value.column;
    DefaultedDistinct();
    DefaultsMeaning(rt, own.fields, DEFAULTED, u);
    EditedLeavesUnset(hooks[j], 0, FillIn(rt)(own), u);
    UnsetDefaultStopsTheBatch(rt, hooks, batch, s0, j, u);
  }
}
