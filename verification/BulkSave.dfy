/**
 Saving many accounts in one batch. Every builder's mutator calls the next builder's mutator from
 inside its own hooks, and the last one issues the single insert; results and errors travel back out
 through the hooks.
 */
module BulkSave {
  import opened Wrappers
  import opened AccountSchema
  import opened AccountCreate

  /**
   What a hook does with the mutation it gets. A mutation is named by its position in the store, the
   way the program shares them by reference; hooks hand the result of `next` back unchanged.
   */
  datatype Hook =
    | InPlace(edit: Mutation -> Mutation) // writes to it, then calls next with it
    | Substitute(other: nat)              // calls next with another mutation
    | Reject                              // returns an error without calling next

  datatype MutationState = MutationState(m: Mutation, id: Option<int>, done: bool)

  datatype SaveError =
    | HookRejected(builder: nat, hook: nat)
    | CheckFailed(builder: nat, error: CreateError)
    | BatchFailed
    | DefaultsFailed(error: CreateError) // of a single save; the bulk save ignores it

  datatype Event =
    | Enter(builder: nat, hook: nat)
    | Checked(builder: nat)
    | Specified(builder: nat)
    | BatchInsert(specs: seq<CreateSpec>)
    | Completed(builder: nat)
    | Exit(builder: nat, hook: nat)

  /**
   The builder's check and specification, the hooks of every builder, and the batch insert: it yields
   an error, or for every spec the id it was given, if any.
   */
  datatype Setup = Setup(
    check: Fields -> Option<CreateError>,
    specOf: Mutation -> CreateSpec,
    hooks: seq<seq<Hook>>,
    batch: seq<CreateSpec> -> Option<seq<Option<int>>>)

  datatype State = State(
    current: seq<nat>,              // builders[i].mutation
    store: seq<MutationState>,
    nodes: seq<Option<Fields>>,
    specs: seq<Option<CreateSpec>>,
    ids: seq<Option<int>>,          // specs[i].ID.Value
    trace: seq<Event>)

  ghost predicate SetupOk(c: Setup) {
    forall specs :: c.batch(specs).Some? ==> |c.batch(specs).value| == |specs|
  }

  ghost predicate StateOk(c: Setup, s: State) {
    && |s.current| == |s.nodes| == |s.specs| == |s.ids| == |c.hooks|
    && (forall j | 0 <= j < |s.current| :: s.current[j] < |s.store|)
    && (forall i, h | 0 <= i < |c.hooks| && 0 <= h < |c.hooks[i]| && c.hooks[i][h].Substitute? ::
          c.hooks[i][h].other < |s.store|)
  }

  function Log(s: State, e: Event): State {
    s.(trace := s.trace + [e])
  }

  /** Leading specs that have been filled in. */
  function Filled(specs: seq<Option<CreateSpec>>): seq<CreateSpec> {
    if specs == [] || specs[0].None? then [] else [specs[0].value] + Filled(specs[1..])
  }

  /** The mutation a hook calls next with, and what it has written before. */
  function PassOn(hook: Hook, m: nat, s: State): (r: (nat, State))
    requires m < |s.store| && !hook.Reject?
    ensures |r.1.store| == |s.store| && r.1 == s.(store := r.1.store)
  {
    match hook
    case InPlace(edit) => (m, s.(store := s.store[m := s.store[m].(m := edit(s.store[m].m))]))
    case Substitute(other) => (other, s)
  }

  /** `createSpec` on the mutation that arrived, and the node it returns. */
  function Specify(c: Setup, s: State, i: nat, m: nat): (t: State)
    requires m < |s.store| && i < |s.current| == |s.nodes| == |s.specs|
    ensures |t.current| == |t.nodes| == |t.specs| == |s.current| && t.store == s.store && t.ids == s.ids
  {
    Log(s.(current := s.current[i := m],
           nodes := s.nodes[i := Some(s.store[m].m.fields)],
           specs := s.specs[i := Some(c.specOf(s.store[m].m))]), Specified(i))
  }

  function Insert(c: Setup, s: State): (State, Option<SaveError>)
    requires |s.ids| == |s.specs|
  {
    var specs := Filled(s.specs);
    var t := Log(s, BatchInsert(specs));
    match c.batch(specs)
    case None => (t, Some(BatchFailed))
    case Some(ids) => (if |ids| == |s.ids| then t.(ids := ids) else t, None)
  }

  /** The id a node ends with: the one the insert returned, or the zero id. */
  function NodeId(s: State, i: nat): int
    requires i < |s.ids|
  {
    s.ids[i].GetOr(0)
  }

  function Complete(s: State, i: nat, m: nat): State
    requires m < |s.store| && i < |s.nodes| == |s.ids| && s.nodes[i].Some?
  {
    var node := s.nodes[i].value;
    Log(s.(nodes := s.nodes[i := Some(if s.ids[i].Some? then node[ID := VInt(s.ids[i].value)] else node)],
           store := s.store[m := s.store[m].(id := Some(NodeId(s, i)), done := true)]), Completed(i))
  }

  /** Builder `i`'s mutator from hook `h` on, called with mutation `m`. */
  function Mutate(c: Setup, i: nat, h: nat, m: nat, s: State): (r: (State, Option<SaveError>))
    requires i < |c.hooks| && h <= |c.hooks[i]| && m < |s.store| && StateOk(c, s)
    ensures StateOk(c, r.0) && |r.0.store| == |s.store|
    ensures forall j | 0 <= j < i :: r.0.current[j] == s.current[j] && r.0.nodes[j] == s.nodes[j] && r.0.specs[j] == s.specs[j]
    decreases |c.hooks| - i, |c.hooks[i]| - h
  {
    if h < |c.hooks[i]| then
      var entered := Log(s, Enter(i, h));
      if c.hooks[i][h].Reject? then (Log(entered, Exit(i, h)), Some(HookRejected(i, h)))
      else
        var next := PassOn(c.hooks[i][h], m, entered);
        var (t, err) := Mutate(c, i, h + 1, next.0, next.1);
        (Log(t, Exit(i, h)), err)
    else
      // The check reads the builder's own mutation; the one that arrived replaces it afterwards.
      var checked := Log(s, Checked(i));
      var fault := c.check(s.store[s.current[i]].m.fields);
      if fault.Some? then (checked, Some(CheckFailed(i, fault.value)))
      else
        var spec := Specify(c, checked, i, m);
        var (t, err) := if i + 1 < |c.hooks| then Mutate(c, i + 1, 0, spec.current[i + 1], spec) else Insert(c, spec);
        if err.Some? then (t, err) else (Complete(t, i, m), None)
  }

  // ----- the trace ------------------------------------------------------------------------

  /** What happens on the way in when nothing fails, from hook `h` of builder `i` to the insert. */
  function WayIn(hooks: seq<seq<Hook>>, i: nat, h: nat): seq<Event>
    requires i < |hooks| && h <= |hooks[i]|
    decreases |hooks| - i, |hooks[i]| - h
  {
    if h < |hooks[i]| then [Enter(i, h)] + WayIn(hooks, i, h + 1)
    else [Checked(i), Specified(i)] + (if i + 1 < |hooks| then WayIn(hooks, i + 1, 0) else [])
  }

  /** The answer to an event on the way in, if it has one. */
  function Closing(e: Event): seq<Event> {
    match e
    case Enter(i, h) => [Exit(i, h)]
    case Specified(i) => [Completed(i)]
    case _ => []
  }

  /** The answers to a list of events, in exactly the opposite order. */
  function Mirror(events: seq<Event>): seq<Event> {
    if events == [] then [] else Mirror(events[1..]) + Closing(events[0])
  }

  /** The exits of the hooks entered, in exactly the opposite order; nothing is completed. */
  function Unwind(events: seq<Event>): seq<Event> {
    if events == [] then []
    else Unwind(events[1..]) + (if events[0].Enter? then Closing(events[0]) else [])
  }

  function NewEvents(before: State, after: State): seq<Event>
    requires |before.trace| <= |after.trace|
  {
    after.trace[|before.trace|..]
  }

  // The three shapes of a run: through, stopped by the insert, stopped on the way in.

  ghost predicate WentThrough(down: seq<Event>, events: seq<Event>) {
    exists specs :: events == down + [BatchInsert(specs)] + Mirror(down)
  }

  ghost predicate StoppedAtInsert(down: seq<Event>, events: seq<Event>) {
    exists specs :: events == down + [BatchInsert(specs)] + Unwind(down)
  }

  ghost predicate StoppedOnWay(down: seq<Event>, events: seq<Event>) {
    exists k | 0 <= k <= |down| :: events == down[..k] + Unwind(down[..k])
  }

  /**
   Every run is perfectly nested. A successful one goes all the way in, inserts once, and comes out
   in mirror order. A failing one stops somewhere on the way in (or at the insert, once everything has
   been specified) and leaves exactly the hooks it had entered, in reverse, completing nothing.
   */
  ghost predicate Nested(hooks: seq<seq<Hook>>, i: nat, h: nat, events: seq<Event>, failed: bool)
    requires i < |hooks| && h <= |hooks[i]|
  {
    var down := WayIn(hooks, i, h);
    if failed then StoppedOnWay(down, events) || StoppedAtInsert(down, events) else WentThrough(down, events)
  }

  lemma Bracketed(e: Event, sub: seq<Event>, middle: seq<Event>, out: seq<Event>, closing: seq<Event>)
    ensures [e] + (sub + middle + out) + closing == ([e] + sub) + middle + (out + closing)
  {
  }

  lemma {:induction false} AnswersOf(e: Event, sub: seq<Event>)
    ensures Mirror([e] + sub) == Mirror(sub) + Closing(e)
    ensures Unwind([e] + sub) == Unwind(sub) + (if e.Enter? then Closing(e) else [])
  {
    assert ([e] + sub)[1..] == sub;
  }

  /** A run wrapped in a hook stays of its shape. */
  lemma WrappedInHook(e: Event, sub: seq<Event>, inner: seq<Event>)
    requires e.Enter?
    ensures WentThrough(sub, inner) ==> WentThrough([e] + sub, [e] + inner + Closing(e))
    ensures StoppedAtInsert(sub, inner) ==> StoppedAtInsert([e] + sub, [e] + inner + Closing(e))
    ensures StoppedOnWay(sub, inner) ==> StoppedOnWay([e] + sub, [e] + inner + Closing(e))
  {
    AnswersOf(e, sub);
    if specs :| inner == sub + [BatchInsert(specs)] + Mirror(sub) {
      Bracketed(e, sub, [BatchInsert(specs)], Mirror(sub), Closing(e));
    }
    if specs :| inner == sub + [BatchInsert(specs)] + Unwind(sub) {
      Bracketed(e, sub, [BatchInsert(specs)], Unwind(sub), Closing(e));
    }
    if k :| 0 <= k <= |sub| && inner == sub[..k] + Unwind(sub[..k]) {
      WrappedStop(e, sub, k);
    }
  }

  lemma WrappedStop(e: Event, sub: seq<Event>, k: nat)
    requires e.Enter? && k <= |sub|
    ensures StoppedOnWay([e] + sub, [e] + (sub[..k] + Unwind(sub[..k])) + Closing(e))
  {
    var down := [e] + sub;
    AnswersOf(e, sub[..k]);
    assert down[..k + 1] == [e] + sub[..k];
    Bracketed(e, sub[..k], [], Unwind(sub[..k]), Closing(e));
    assert sub[..k] + [] + Unwind(sub[..k]) == sub[..k] + Unwind(sub[..k]);
    assert [e] + (sub[..k] + Unwind(sub[..k])) + Closing(e) == down[..k + 1] + Unwind(down[..k + 1]);
  }

  lemma NestedHook(hooks: seq<seq<Hook>>, i: nat, h: nat, inner: seq<Event>, failed: bool)
    requires i < |hooks| && h < |hooks[i]| && Nested(hooks, i, h + 1, inner, failed)
    ensures Nested(hooks, i, h, [Enter(i, h)] + inner + [Exit(i, h)], failed)
  {
    WrappedInHook(Enter(i, h), WayIn(hooks, i, h + 1), inner);
  }

  lemma Prefixed(own: seq<Event>, sub: seq<Event>, middle: seq<Event>, out: seq<Event>, closing: seq<Event>)
    ensures own + (sub + middle + out) + closing == (own + sub) + middle + (out + closing)
    ensures own + (sub + middle + out) == (own + sub) + middle + out
  {
  }

  /** Checking and specifying before a run, and completing after it if it succeeds, keeps its shape too. */
  lemma ThroughBuilder(i: nat, sub: seq<Event>, inner: seq<Event>)
    requires WentThrough(sub, inner)
    ensures WentThrough([Checked(i), Specified(i)] + sub, [Checked(i), Specified(i)] + inner + [Completed(i)])
  {
    var specs :| inner == sub + [BatchInsert(specs)] + Mirror(sub);
    MirrorBuilder(i, sub);
    Prefixed([Checked(i), Specified(i)], sub, [BatchInsert(specs)], Mirror(sub), [Completed(i)]);
  }

  lemma StoppedInBuilder(i: nat, sub: seq<Event>, inner: seq<Event>)
    ensures StoppedAtInsert(sub, inner) ==>
              StoppedAtInsert([Checked(i), Specified(i)] + sub, [Checked(i), Specified(i)] + inner)
    ensures StoppedOnWay(sub, inner) ==>
              StoppedOnWay([Checked(i), Specified(i)] + sub, [Checked(i), Specified(i)] + inner)
  {
    if specs :| inner == sub + [BatchInsert(specs)] + Unwind(sub) {
      MirrorBuilder(i, sub);
      Prefixed([Checked(i), Specified(i)], sub, [BatchInsert(specs)], Unwind(sub), []);
    }
    if k :| 0 <= k <= |sub| && inner == sub[..k] + Unwind(sub[..k]) {
      BuilderStop(i, sub, k);
    }
  }

  lemma BuilderStop(i: nat, sub: seq<Event>, k: nat)
    requires k <= |sub|
    ensures var own := [Checked(i), Specified(i)];
            StoppedOnWay(own + sub, own + (sub[..k] + Unwind(sub[..k])))
  {
    var own := [Checked(i), Specified(i)];
    var down := own + sub;
    MirrorBuilder(i, sub[..k]);
    assert down[..k + 2] == own + sub[..k];
    assert own + (sub[..k] + Unwind(sub[..k])) == down[..k + 2] + Unwind(down[..k + 2]);
  }

  lemma {:induction false} MirrorBuilder(i: nat, sub: seq<Event>)
    ensures Mirror([Checked(i), Specified(i)] + sub) == Mirror(sub) + [Completed(i)]
    ensures Unwind([Checked(i), Specified(i)] + sub) == Unwind(sub)
  {
    AnswersOf(Specified(i), sub);
    AnswersOf(Checked(i), [Specified(i)] + sub);
    assert [Checked(i), Specified(i)] + sub == [Checked(i)] + ([Specified(i)] + sub);
  }

  lemma NestedBuilder(hooks: seq<seq<Hook>>, i: nat, inner: seq<Event>, failed: bool)
    requires i + 1 < |hooks| && Nested(hooks, i + 1, 0, inner, failed)
    ensures Nested(hooks, i, |hooks[i]|,
                   [Checked(i), Specified(i)] + inner + (if failed then [] else [Completed(i)]), failed)
  {
    var sub := WayIn(hooks, i + 1, 0);
    if failed {
      StoppedInBuilder(i, sub, inner);
      assert [Checked(i), Specified(i)] + inner + [] == [Checked(i), Specified(i)] + inner;
    } else {
      ThroughBuilder(i, sub, inner);
    }
  }

  lemma NestedStop(hooks: seq<seq<Hook>>, i: nat, h: nat)
    requires i < |hooks| && h <= |hooks[i]|
    ensures h == |hooks[i]| ==> Nested(hooks, i, h, [Checked(i)], true)
    ensures h < |hooks[i]| ==> Nested(hooks, i, h, [Enter(i, h), Exit(i, h)], true)
  {
    var down := WayIn(hooks, i, h);
    assert down[..1] == [down[0]] && down[..1][1..] == [];
    assert Unwind(down[..1]) == if h < |hooks[i]| then [Exit(i, h)] else [];
    assert h == |hooks[i]| ==> [Checked(i)] == down[..1] + Unwind(down[..1]);
    assert h < |hooks[i]| ==> [Enter(i, h), Exit(i, h)] == down[..1] + Unwind(down[..1]);
  }

  lemma NestedLast(hooks: seq<seq<Hook>>, i: nat, specs: seq<CreateSpec>)
    requires i + 1 == |hooks|
    ensures Nested(hooks, i, |hooks[i]|, [Checked(i), Specified(i), BatchInsert(specs)], true)
    ensures Nested(hooks, i, |hooks[i]|, [Checked(i), Specified(i), BatchInsert(specs), Completed(i)], false)
  {
    var down := WayIn(hooks, i, |hooks[i]|);
    assert down == [Checked(i), Specified(i)] + [];
    MirrorBuilder(i, []);
    assert [Checked(i), Specified(i), BatchInsert(specs)] == down + [BatchInsert(specs)] + Unwind(down);
    assert [Checked(i), Specified(i), BatchInsert(specs), Completed(i)] == down + [BatchInsert(specs)] + Mirror(down);
  }

  /** Every call of a mutator, whatever the hooks, checks and the insert do, leaves a perfectly nested trace. */
  lemma {:induction false} RunIsNested(c: Setup, i: nat, h: nat, m: nat, s: State)
    requires i < |c.hooks| && h <= |c.hooks[i]| && m < |s.store| && StateOk(c, s)
    ensures var (t, err) := Mutate(c, i, h, m, s);
            s.trace <= t.trace && Nested(c.hooks, i, h, NewEvents(s, t), err.Some?)
    decreases |c.hooks| - i, |c.hooks[i]| - h, 1
  {
    if h < |c.hooks[i]| {
      HookIsNested(c, i, h, m, s);
    } else {
      BuilderIsNested(c, i, m, s);
    }
  }

  lemma {:induction false} HookIsNested(c: Setup, i: nat, h: nat, m: nat, s: State)
    requires i < |c.hooks| && h < |c.hooks[i]| && m < |s.store| && StateOk(c, s)
    ensures var (t, err) := Mutate(c, i, h, m, s);
            s.trace <= t.trace && Nested(c.hooks, i, h, NewEvents(s, t), err.Some?)
    decreases |c.hooks| - i, |c.hooks[i]| - h, 0
  {
    var (t, err) := Mutate(c, i, h, m, s);
    var entered := Log(s, Enter(i, h));
    if c.hooks[i][h].Reject? {
      NestedStop(c.hooks, i, h);
      assert NewEvents(s, t) == [Enter(i, h), Exit(i, h)];
    } else {
      var next := PassOn(c.hooks[i][h], m, entered);
      assert next.1.trace == s.trace + [Enter(i, h)];
      RunIsNested(c, i, h + 1, next.0, next.1);
      var t1 := Mutate(c, i, h + 1, next.0, next.1).0;
      NestedHook(c.hooks, i, h, NewEvents(next.1, t1), err.Some?);
      AroundEvents(s.trace, [Enter(i, h)], next.1.trace, t1.trace, [Exit(i, h)], t.trace);
    }
  }

  lemma {:induction false} BuilderIsNested(c: Setup, i: nat, m: nat, s: State)
    requires i < |c.hooks| && m < |s.store| && StateOk(c, s)
    ensures var (t, err) := Mutate(c, i, |c.hooks[i]|, m, s);
            s.trace <= t.trace && Nested(c.hooks, i, |c.hooks[i]|, NewEvents(s, t), err.Some?)
    decreases |c.hooks| - i, 0, 0
  {
    var (t, err) := Mutate(c, i, |c.hooks[i]|, m, s);
    var checked := Log(s, Checked(i));
    if c.check(s.store[s.current[i]].m.fields).Some? {
      NestedStop(c.hooks, i, |c.hooks[i]|);
      assert NewEvents(s, t) == [Checked(i)];
    } else if i + 1 < |c.hooks| {
      var spec := Specify(c, checked, i, m);
      RunIsNested(c, i + 1, 0, spec.current[i + 1], spec);
      var t1 := Mutate(c, i + 1, 0, spec.current[i + 1], spec).0;
      NestedBuilder(c.hooks, i, NewEvents(spec, t1), err.Some?);
      AroundEvents(s.trace, [Checked(i), Specified(i)], spec.trace, t1.trace,
                   if err.Some? then [] else [Completed(i)], t.trace);
    } else {
      LastIsNested(c, i, m, s);
    }
  }

  lemma AroundEvents(s: seq<Event>, head: seq<Event>, inner: seq<Event>, done: seq<Event>, tail: seq<Event>,
                     t: seq<Event>)
    requires inner == s + head && inner <= done && t == done + tail
    ensures s <= t && t[|s|..] == head + done[|inner|..] + tail
  {
  }

  lemma {:induction false} LastIsNested(c: Setup, i: nat, m: nat, s: State)
    requires i + 1 == |c.hooks| && m < |s.store| && StateOk(c, s)
    requires c.check(s.store[s.current[i]].m.fields).None?
    ensures var (t, err) := Mutate(c, i, |c.hooks[i]|, m, s);
            s.trace <= t.trace && Nested(c.hooks, i, |c.hooks[i]|, NewEvents(s, t), err.Some?)
  {
    var (t, err) := Mutate(c, i, |c.hooks[i]|, m, s);
    var spec := Specify(c, Log(s, Checked(i)), i, m);
    var specs := Filled(spec.specs);
    NestedLast(c.hooks, i, specs);
    AroundEvents(s.trace, [Checked(i), Specified(i)], spec.trace, spec.trace + [BatchInsert(specs)],
                 if err.Some? then [] else [Completed(i)], t.trace);
    assert NewEvents(s, t) == [Checked(i), Specified(i), BatchInsert(specs)] +
                              (if err.Some? then [] else [Completed(i)]);
  }

  // ----- nesting, read by a stack machine -------------------------------------------------

  /** Push what must be answered, pop only the matching answer; none if an answer is out of order. */
  function Track(events: seq<Event>, open: seq<Event>): Option<seq<Event>> {
    if events == [] then Some(open)
    else match events[0]
      case Enter(_, _) | Specified(_) => Track(events[1..], open + [events[0]])
      case Exit(_, _) | Completed(_) =>
        if open != [] && Closing(open[|open| - 1]) == [events[0]]
        then Track(events[1..], open[..|open| - 1]) else None
      case _ => Track(events[1..], open)
  }

  lemma {:induction false} TrackAppend(a: seq<Event>, b: seq<Event>, open: seq<Event>)
    ensures Track(a + b, open) == if Track(a, open).None? then None else Track(b, Track(a, open).value)
  {
    if a == [] {
      assert a + b == b;
    } else {
      assert (a + b)[1..] == a[1..] + b;
      match a[0]
      case Enter(_, _) | Specified(_) => TrackAppend(a[1..], b, open + [a[0]]);
      case Exit(_, _) | Completed(_) =>
        if open != [] && Closing(open[|open| - 1]) == [a[0]] {
          TrackAppend(a[1..], b, open[..|open| - 1]);
        }
      case _ => TrackAppend(a[1..], b, open);
    }
  }

  predicate Inward(e: Event) { e.Enter? || e.Checked? || e.Specified? || e.BatchInsert? }

  /** Coming out in mirror order answers every event of the way in, last within first closed. */
  lemma {:induction false} MirrorBalances(down: seq<Event>, middle: seq<Event>, open: seq<Event>)
    requires forall e | e in down :: Inward(e)
    requires forall e | e in middle :: e.BatchInsert?
    ensures Track(down + middle + Mirror(down), open) == Some(open)
  {
    if down == [] {
      assert down + middle + Mirror(down) == middle;
      TrackMiddle(middle, open);
    } else {
      var e, rest := down[0], down[1..];
      MirrorBalances(rest, middle, if Closing(e) != [] then open + [e] else open);
      BalancedAround(e, rest + middle + Mirror(rest), open);
      assert down == [e] + rest;
      AnswersOf(e, rest);
      Outermost(e, rest, middle, Mirror(rest), Closing(e));
    }
  }

  lemma Outermost(e: Event, rest: seq<Event>, middle: seq<Event>, out: seq<Event>, closing: seq<Event>)
    ensures ([e] + rest) + middle + (out + closing) == [e] + ((rest + middle + out) + closing)
  {
  }

  /** Something balanced between an event and its answer is balanced. */
  lemma BalancedAround(e: Event, inner: seq<Event>, open: seq<Event>)
    requires Inward(e)
    requires var within := if Closing(e) != [] then open + [e] else open; Track(inner, within) == Some(within)
    ensures Track([e] + (inner + Closing(e)), open) == Some(open)
  {
    var within := if Closing(e) != [] then open + [e] else open;
    TrackInward(e, inner + Closing(e), open);
    TrackAppend(inner, Closing(e), within);
    TrackClosing(e, open);
  }

  lemma {:induction false} TrackInward(e: Event, rest: seq<Event>, open: seq<Event>)
    requires Inward(e)
    ensures Track([e] + rest, open) == Track(rest, if Closing(e) != [] then open + [e] else open)
  {
    assert ([e] + rest)[1..] == rest;
  }

  lemma {:induction false} TrackClosing(e: Event, open: seq<Event>)
    requires Inward(e)
    ensures Track(Closing(e), if Closing(e) != [] then open + [e] else open) == Some(open)
  {
    if Closing(e) != [] {
      assert (open + [e])[..|open|] == open;
      assert Closing(e)[1..] == [];
    }
  }

  lemma {:induction false} TrackMiddle(middle: seq<Event>, open: seq<Event>)
    requires forall e | e in middle :: e.BatchInsert?
    ensures Track(middle, open) == Some(open)
  {
    if middle != [] {
      TrackMiddle(middle[1..], open);
    }
  }

  lemma {:induction false} WayInIsInward(hooks: seq<seq<Hook>>, i: nat, h: nat)
    requires i < |hooks| && h <= |hooks[i]|
    ensures forall e | e in WayIn(hooks, i, h) :: Inward(e) && !e.BatchInsert?
    decreases |hooks| - i, |hooks[i]| - h
  {
    if h < |hooks[i]| {
      WayInIsInward(hooks, i, h + 1);
    } else if i + 1 < |hooks| {
      WayInIsInward(hooks, i + 1, 0);
    }
  }

  /** A successful save is perfectly nested: every hook exit and completion closes the last one open. */
  lemma {:induction false} SuccessIsBalanced(c: Setup, i: nat, h: nat, m: nat, s: State, open: seq<Event>)
    requires i < |c.hooks| && h <= |c.hooks[i]| && m < |s.store| && StateOk(c, s)
    requires Mutate(c, i, h, m, s).1.None?
    ensures s.trace <= Mutate(c, i, h, m, s).0.trace
    ensures Track(NewEvents(s, Mutate(c, i, h, m, s).0), open) == Some(open)
  {
    RunIsNested(c, i, h, m, s);
    WayInIsInward(c.hooks, i, h);
    var down := WayIn(c.hooks, i, h);
    var specs :| NewEvents(s, Mutate(c, i, h, m, s).0) == down + [BatchInsert(specs)] + Mirror(down);
    MirrorBalances(down, [BatchInsert(specs)], open);
  }

  // ----- how often the insert runs --------------------------------------------------------

  /** The arguments of the inserts in a list of events. */
  function Inserts(events: seq<Event>): seq<seq<CreateSpec>> {
    if events == [] then []
    else (if events[0].BatchInsert? then [events[0].specs] else []) + Inserts(events[1..])
  }

  lemma {:induction false} InsertsAppend(a: seq<Event>, b: seq<Event>)
    ensures Inserts(a + b) == Inserts(a) + Inserts(b)
  {
    if a == [] {
      assert a + b == b;
    } else {
      assert (a + b)[1..] == a[1..] + b;
      InsertsAppend(a[1..], b);
    }
  }

  lemma {:induction false} NoInserts(events: seq<Event>)
    requires forall e | e in events :: !e.BatchInsert?
    ensures Inserts(events) == []
  {
    if events != [] {
      NoInserts(events[1..]);
    }
  }

  // ----- all or nothing -------------------------------------------------------------------

  /** Whatever fails, at whatever depth: no mutation is marked done and none is given an id. */
  lemma {:induction false} FailureMarksNothing(c: Setup, i: nat, h: nat, m: nat, s: State)
    requires i < |c.hooks| && h <= |c.hooks[i]| && m < |s.store| && StateOk(c, s)
    requires Mutate(c, i, h, m, s).1.Some?
    ensures var t := Mutate(c, i, h, m, s).0;
            forall r | 0 <= r < |s.store| :: t.store[r].done == s.store[r].done && t.store[r].id == s.store[r].id
    decreases |c.hooks| - i, |c.hooks[i]| - h
  {
    if h < |c.hooks[i]| {
      if !c.hooks[i][h].Reject? {
        var next := PassOn(c.hooks[i][h], m, Log(s, Enter(i, h)));
        assert forall r | 0 <= r < |s.store| :: next.1.store[r].done == s.store[r].done && next.1.store[r].id == s.store[r].id;
        FailureMarksNothing(c, i, h + 1, next.0, next.1);
      }
    } else if c.check(s.store[s.current[i]].m.fields).None? && i + 1 < |c.hooks| {
      var spec := Specify(c, Log(s, Checked(i)), i, m);
      FailureMarksNothing(c, i + 1, 0, spec.current[i + 1], spec);
    }
  }
}
