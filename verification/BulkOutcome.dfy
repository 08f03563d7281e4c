/** When a bulk save succeeds, and what it inserts, returns and marks done. */
module BulkOutcome {
  import opened Wrappers
  import opened AccountSchema
  import opened AccountCreate
  import opened BulkSave

  // ----- the specification ----------------------------------------------------------------

  /** The mutation after the in-place edits of the hooks from `h` on. */
  function Edited(hooks: seq<Hook>, h: nat, m: Mutation): Mutation
    requires h <= |hooks|
    decreases |hooks| - h
  {
    if h == |hooks| then m
    else Edited(hooks, h + 1, if hooks[h].InPlace? then hooks[h].edit(m) else m)
  }

  /** The mutations to insert, from builder `i` (its hooks from `h` on) to the last. */
  function Finals(c: Setup, s: State, i: nat, h: nat): (r: seq<Mutation>)
    requires StateOk(c, s) && i < |c.hooks| && h <= |c.hooks[i]|
    ensures |r| == |c.hooks| - i
    decreases |c.hooks| - i
  {
    [Edited(c.hooks[i], h, s.store[s.current[i]].m)] + (if i + 1 < |c.hooks| then Finals(c, s, i + 1, 0) else [])
  }

  function Specs(c: Setup, ms: seq<Mutation>): (r: seq<CreateSpec>)
    ensures |r| == |ms| && forall j | 0 <= j < |ms| :: r[j] == c.specOf(ms[j])
  {
    seq(|ms|, j requires 0 <= j < |ms| => c.specOf(ms[j]))
  }

  /** No hook from here on rejects, and every mutation to insert passes its check. */
  ghost predicate Passable(c: Setup, s: State, i: nat, h: nat)
    requires StateOk(c, s) && i < |c.hooks| && h <= |c.hooks[i]|
    decreases |c.hooks| - i
  {
    && (forall k | h <= k < |c.hooks[i]| :: !c.hooks[i][k].Reject?)
    && c.check(Edited(c.hooks[i], h, s.store[s.current[i]].m).fields).None?
    && (i + 1 < |c.hooks| ==> Passable(c, s, i + 1, 0))
  }

  /** Hooks pass on the mutation they get, and the builders have mutations of their own. */
  ghost predicate Plain(c: Setup, s: State)
    requires StateOk(c, s)
  {
    && (forall i, h | 0 <= i < |c.hooks| && 0 <= h < |c.hooks[i]| :: !c.hooks[i][h].Substitute?)
    && (forall i, j | 0 <= i < j < |s.current| :: s.current[i] != s.current[j])
  }

  function WithId(node: Fields, id: Option<int>): Fields {
    if id.Some? then node[ID := VInt(id.value)] else node
  }

  /** Builders `i` on are finished: nodes carry their spec's id, mutations are done and know it. */
  ghost predicate Finished(s: State, t: State, i: nat, finals: seq<Mutation>, ids: seq<Option<int>>)
    requires |s.current| == |t.nodes| == |ids| && i + |finals| == |ids|
    requires forall j | 0 <= j < |s.current| :: s.current[j] < |t.store|
  {
    forall j | i <= j < |ids| ::
      && t.nodes[j] == Some(WithId(finals[j - i].fields, ids[j]))
      && t.store[s.current[j]] == MutationState(finals[j - i], Some(ids[j].GetOr(0)), true)
  }

  /** The specs of the builders before `i`. */
  ghost predicate Before(s: State, i: nat, prior: seq<CreateSpec>) {
    |prior| == i <= |s.specs| && forall j | 0 <= j < i :: s.specs[j] == Some(prior[j])
  }

  // ----- what a call achieves --------------------------------------------------------------

  /** The insert runs once with every spec in builder order if everything passes, and not at all otherwise. */
  ghost predicate InsertsOnce(c: Setup, i: nat, h: nat, s: State, prior: seq<CreateSpec>, t: State, err: Option<SaveError>)
    requires StateOk(c, s) && i < |c.hooks| && h <= |c.hooks[i]| && |prior| == i
  {
    var specs := prior + Specs(c, Finals(c, s, i, h));
    && s.trace <= t.trace
    && Inserts(NewEvents(s, t)) == (if Passable(c, s, i, h) then [specs] else [])
    && (err.None? <==> Passable(c, s, i, h) && c.batch(specs).Some?)
  }

  /** Mutations other than those of the builders from `i` on are never touched. */
  ghost predicate Kept(c: Setup, i: nat, s: State, t: State)
    requires StateOk(c, s)
  {
    && StateOk(c, t) && |t.store| == |s.store| && t.current == s.current
    && (forall r | 0 <= r < |s.store| && (forall j | i <= j < |s.current| :: s.current[j] != r) :: t.store[r] == s.store[r])
  }

  /** The insert has succeeded and the builders from `i` on are finished. */
  ghost predicate Done(c: Setup, i: nat, h: nat, s: State, prior: seq<CreateSpec>, t: State)
    requires SetupOk(c) && StateOk(c, s) && i < |c.hooks| && h <= |c.hooks[i]| && |prior| == i
    requires StateOk(c, t) && t.current == s.current
  {
    var finals := Finals(c, s, i, h);
    c.batch(prior + Specs(c, finals)) == Some(t.ids) && Finished(s, t, i, finals, t.ids)
  }

  ghost predicate FinishesOwn(c: Setup, i: nat, h: nat, s: State, prior: seq<CreateSpec>, t: State, err: Option<SaveError>)
    requires SetupOk(c) && StateOk(c, s) && i < |c.hooks| && h <= |c.hooks[i]| && |prior| == i
  {
    Kept(c, i, s, t) && (err.None? ==> Done(c, i, h, s, prior, t))
  }

  ghost predicate Achieved(c: Setup, i: nat, h: nat, s: State, prior: seq<CreateSpec>, t: State, err: Option<SaveError>)
    requires SetupOk(c) && StateOk(c, s) && i < |c.hooks| && h <= |c.hooks[i]| && |prior| == i
  {
    InsertsOnce(c, i, h, s, prior, t, err) && FinishesOwn(c, i, h, s, prior, t, err)
  }

  lemma {:induction false} FilledPrefix(specs: seq<Option<CreateSpec>>, all: seq<CreateSpec>)
    requires |specs| == |all| && forall j | 0 <= j < |all| :: specs[j] == Some(all[j])
    ensures Filled(specs) == all
  {
    if specs != [] {
      FilledPrefix(specs[1..], all[1..]);
    }
  }

  /** A hook writing in place changes its own mutation only, as the specification foresees. */
  lemma EditForeseen(c: Setup, s: State, s1: State, i: nat, h: nat)
    requires StateOk(c, s) && StateOk(c, s1) && Plain(c, s) && i < |c.hooks| && h < |c.hooks[i]|
    requires c.hooks[i][h].InPlace? && s1.current == s.current
    requires var m := s.current[i];
             s1.store == s.store[m := s.store[m].(m := c.hooks[i][h].edit(s.store[m].m))]
    ensures Finals(c, s1, i, h + 1) == Finals(c, s, i, h)
    ensures Passable(c, s1, i, h + 1) <==> Passable(c, s, i, h)
  {
    var m := s.current[i];
    assert s1.store[m].m == c.hooks[i][h].edit(s.store[m].m);
    assert Edited(c.hooks[i], h, s.store[m].m) == Edited(c.hooks[i], h + 1, s1.store[m].m);
    assert forall k | h < k < |c.hooks[i]| :: !c.hooks[i][k].Reject? <==> h + 1 <= k && !c.hooks[i][k].Reject?;
    if i + 1 < |c.hooks| {
      forall j | i + 1 <= j < |c.hooks| ensures s1.store[s.current[j]].m == s.store[s.current[j]].m {
        assert s.current[i] != s.current[j];
      }
      LaterUnaffected(c, s, s1, i + 1);
    }
  }

  lemma {:induction false} LaterUnaffected(c: Setup, s: State, s1: State, i: nat)
    requires StateOk(c, s) && StateOk(c, s1) && i < |c.hooks| && s1.current == s.current
    requires forall j | i <= j < |c.hooks| :: s1.store[s.current[j]].m == s.store[s.current[j]].m
    ensures Finals(c, s1, i, 0) == Finals(c, s, i, 0)
    ensures Passable(c, s1, i, 0) <==> Passable(c, s, i, 0)
    decreases |c.hooks| - i
  {
    assert s1.store[s.current[i]].m == s.store[s.current[i]].m;
    if i + 1 < |c.hooks| {
      LaterUnaffected(c, s, s1, i + 1);
    }
  }

  lemma {:induction false} MutateAchieves(c: Setup, i: nat, h: nat, s: State, prior: seq<CreateSpec>)
    requires SetupOk(c) && StateOk(c, s) && Plain(c, s) && i < |c.hooks| && h <= |c.hooks[i]|
    requires Before(s, i, prior)
    ensures var (t, err) := Mutate(c, i, h, s.current[i], s);
            Achieved(c, i, h, s, prior, t, err)
    decreases |c.hooks| - i, |c.hooks[i]| - h, 1
  {
    if h < |c.hooks[i]| {
      HookAchieves(c, i, h, s, prior);
    } else if c.check(s.store[s.current[i]].m.fields).Some? {
      var t := Mutate(c, i, h, s.current[i], s).0;
      assert NewEvents(s, t) == [Checked(i)];
    } else if i + 1 < |c.hooks| {
      BuilderAchieves(c, i, s, prior);
    } else {
      LastAchieves(c, i, s, prior);
    }
  }

  lemma {:induction false} HookAchieves(c: Setup, i: nat, h: nat, s: State, prior: seq<CreateSpec>)
    requires SetupOk(c) && StateOk(c, s) && Plain(c, s) && i < |c.hooks| && h < |c.hooks[i]|
    requires Before(s, i, prior)
    ensures var (t, err) := Mutate(c, i, h, s.current[i], s);
            Achieved(c, i, h, s, prior, t, err)
    decreases |c.hooks| - i, |c.hooks[i]| - h, 0
  {
    var (t, err) := Mutate(c, i, h, s.current[i], s);
    if c.hooks[i][h].Reject? {
      assert NewEvents(s, t) == [Enter(i, h), Exit(i, h)];
      NoInserts(NewEvents(s, t));
    } else {
      var s1 := PassOn(c.hooks[i][h], s.current[i], Log(s, Enter(i, h))).1;
      MutateAchieves(c, i, h + 1, s1, prior);
      HookStep(c, i, h, s, s1, Mutate(c, i, h + 1, s.current[i], s1).0, err, prior);
    }
  }

  /** Entering and leaving a hook that writes in place keeps what the call achieves. */
  lemma HookStep(c: Setup, i: nat, h: nat, s: State, s1: State, t1: State, err: Option<SaveError>, prior: seq<CreateSpec>)
    requires SetupOk(c) && StateOk(c, s) && StateOk(c, s1) && Plain(c, s) && i < |c.hooks| && h < |c.hooks[i]|
    requires |prior| == i && c.hooks[i][h].InPlace?
    requires s1 == PassOn(c.hooks[i][h], s.current[i], Log(s, Enter(i, h))).1
    requires Achieved(c, i, h + 1, s1, prior, t1, err)
    ensures Achieved(c, i, h, s, prior, Log(t1, Exit(i, h)), err)
  {
    EditForeseen(c, s, s1, i, h);
    var t := Log(t1, Exit(i, h));
    assert s1.trace == s.trace + [Enter(i, h)];
    AroundEvents(s.trace, [Enter(i, h)], s1.trace, t1.trace, [Exit(i, h)], t.trace);
    AroundInserts([Enter(i, h)], NewEvents(s1, t1), [Exit(i, h)]);
    assert InsertsOnce(c, i, h, s, prior, t, err);
    HookKeeps(c, i, s, s1, t1, t);
    assert FinishesOwn(c, i, h, s, prior, t, err);
  }

  lemma HookKeeps(c: Setup, i: nat, s: State, s1: State, t1: State, t: State)
    requires StateOk(c, s) && StateOk(c, s1) && i < |s.current| && s1.current == s.current && |s1.store| == |s.store|
    requires forall r | 0 <= r < |s.store| && r != s.current[i] :: s1.store[r] == s.store[r]
    requires Kept(c, i, s1, t1) && t == t1.(trace := t.trace)
    ensures Kept(c, i, s, t)
  {
  }

  lemma {:induction false} AroundInserts(head: seq<Event>, events: seq<Event>, tail: seq<Event>)
    requires forall e | e in head + tail :: !e.BatchInsert?
    ensures Inserts(head + events + tail) == Inserts(events)
  {
    InsertsAppend(head + events, tail);
    InsertsAppend(head, events);
    NoInserts(head);
    NoInserts(tail);
  }

  lemma {:induction false} BuilderAchieves(c: Setup, i: nat, s: State, prior: seq<CreateSpec>)
    requires SetupOk(c) && StateOk(c, s) && Plain(c, s) && i + 1 < |c.hooks|
    requires Before(s, i, prior) && c.check(s.store[s.current[i]].m.fields).None?
    ensures var (t, err) := Mutate(c, i, |c.hooks[i]|, s.current[i], s);
            Achieved(c, i, |c.hooks[i]|, s, prior, t, err)
    decreases |c.hooks| - i, 0, 0
  {
    var m := s.current[i];
    var spec := Specify(c, Log(s, Checked(i)), i, m);
    assert spec.current == s.current;
    MutateAchieves(c, i + 1, 0, spec, prior + [c.specOf(s.store[m].m)]);
    var (t1, err) := Mutate(c, i + 1, 0, spec.current[i + 1], spec);
    BuilderStep(c, i, s, spec, t1, err, prior);
  }

  /** Checking, specifying and completing a builder around the rest of the chain. */
  lemma BuilderStep(c: Setup, i: nat, s: State, spec: State, t1: State, err: Option<SaveError>, prior: seq<CreateSpec>)
    requires SetupOk(c) && StateOk(c, s) && StateOk(c, spec) && Plain(c, s) && i + 1 < |c.hooks| && |prior| == i
    requires c.check(s.store[s.current[i]].m.fields).None?
    requires spec == Specify(c, Log(s, Checked(i)), i, s.current[i]) && spec.current == s.current
    requires Achieved(c, i + 1, 0, spec, prior + [c.specOf(s.store[s.current[i]].m)], t1, err)
    requires t1.nodes[i] == spec.nodes[i]
    ensures Achieved(c, i, |c.hooks[i]|, s, prior, if err.Some? then t1 else Complete(t1, i, s.current[i]), err)
  {
    LaterUnaffected(c, s, spec, i + 1);
    SpecsOfFinals(c, s, i, prior);
    var t := if err.Some? then t1 else Complete(t1, i, s.current[i]);
    BuilderTrace(s.trace, spec.trace, t1.trace, t.trace, i);
    assert InsertsOnce(c, i, |c.hooks[i]|, s, prior, t, err);
    BuilderKeeps(c, i, s, spec, t1);
    if err.None? {
      BuilderDone(c, i, s, spec, t1, prior);
    }
  }

  lemma BuilderKeeps(c: Setup, i: nat, s: State, spec: State, t1: State)
    requires StateOk(c, s) && StateOk(c, spec) && Plain(c, s) && i < |c.hooks|
    requires spec.current == s.current && spec.store == s.store
    requires Kept(c, i + 1, spec, t1) && t1.nodes[i].Some?
    ensures t1.store[s.current[i]] == s.store[s.current[i]]
    ensures Kept(c, i, s, t1) && Kept(c, i, s, Complete(t1, i, s.current[i]))
  {
    OthersKept(s.current, s.store, t1.store, t1.store, i);
    OthersKept(s.current, s.store, t1.store, Complete(t1, i, s.current[i]).store, i);
  }

  lemma BuilderDone(c: Setup, i: nat, s: State, spec: State, t1: State, prior: seq<CreateSpec>)
    requires SetupOk(c) && StateOk(c, s) && StateOk(c, spec) && StateOk(c, t1) && Plain(c, s)
    requires i + 1 < |c.hooks| && |prior| == i
    requires spec.current == t1.current == s.current && spec.store == s.store
    requires t1.nodes[i] == Some(s.store[s.current[i]].m.fields) && t1.store[s.current[i]] == s.store[s.current[i]]
    requires Done(c, i + 1, 0, spec, prior + [c.specOf(s.store[s.current[i]].m)], t1)
    requires StateOk(c, Complete(t1, i, s.current[i]))
    ensures Done(c, i, |c.hooks[i]|, s, prior, Complete(t1, i, s.current[i]))
  {
    LaterUnaffected(c, s, spec, i + 1);
    SpecsOfFinals(c, s, i, prior);
    BuilderFinishes(s, t1, i, Finals(c, s, i, |c.hooks[i]|));
  }

  /** Completing builder `i` after the later ones touches its own mutation only. */
  lemma OthersKept(current: seq<nat>, before: seq<MutationState>, inner: seq<MutationState>,
                   after: seq<MutationState>, i: nat)
    requires i < |current| && |before| == |inner| == |after| && forall j | 0 <= j < |current| :: current[j] < |before|
    requires forall j | i < j < |current| :: current[j] != current[i]
    requires forall r | 0 <= r < |before| && (forall j | i + 1 <= j < |current| :: current[j] != r) :: inner[r] == before[r]
    requires forall r | 0 <= r < |before| && r != current[i] :: after[r] == inner[r]
    ensures inner[current[i]] == before[current[i]]
    ensures forall r | 0 <= r < |before| && (forall j | i <= j < |current| :: current[j] != r) :: after[r] == before[r]
  {
  }

  lemma SpecsCons(c: Setup, own: Mutation, rest: seq<Mutation>, prior: seq<CreateSpec>)
    ensures prior + Specs(c, [own] + rest) == prior + [c.specOf(own)] + Specs(c, rest)
  {
    var a, b, n := prior + Specs(c, [own] + rest), prior + [c.specOf(own)] + Specs(c, rest), |prior|;
    assert forall j | 0 <= j < n :: a[j] == b[j];
    assert forall j | 0 < j <= |rest| :: ([own] + rest)[j] == rest[j - 1];
    assert forall j | n < j < |a| :: a[j] == c.specOf(rest[j - n - 1]) == b[j];
    assert a[n] == b[n];
  }

  lemma {:induction false} SpecsOfFinals(c: Setup, s: State, i: nat, prior: seq<CreateSpec>)
    requires StateOk(c, s) && i + 1 < |c.hooks|
    ensures var finals, own := Finals(c, s, i, |c.hooks[i]|), s.store[s.current[i]].m;
            && finals[0] == own && finals[1..] == Finals(c, s, i + 1, 0)
            && prior + Specs(c, finals) == prior + [c.specOf(own)] + Specs(c, Finals(c, s, i + 1, 0))
  {
    SpecsCons(c, s.store[s.current[i]].m, Finals(c, s, i + 1, 0), prior);
  }

  lemma BuilderTrace(s: seq<Event>, spec: seq<Event>, t1: seq<Event>, t: seq<Event>, i: nat)
    requires spec == s + [Checked(i)] + [Specified(i)] && spec <= t1 && (t == t1 || t == t1 + [Completed(i)])
    ensures s <= t && Inserts(t[|s|..]) == Inserts(t1[|spec|..])
  {
    var tail := if t == t1 then [] else [Completed(i)];
    AroundEvents(s, [Checked(i), Specified(i)], spec, t1, tail, t);
    AroundInserts([Checked(i), Specified(i)], t1[|spec|..], tail);
  }

  lemma BuilderFinishes(s: State, t1: State, i: nat, finals: seq<Mutation>)
    requires |s.current| == |t1.nodes| == |t1.ids| && i + |finals| == |t1.ids| && |finals| > 0
    requires forall j | 0 <= j < |s.current| :: s.current[j] < |t1.store|
    requires forall j | i < j < |s.current| :: s.current[j] != s.current[i]
    requires t1.nodes[i] == Some(finals[0].fields) && t1.store[s.current[i]].m == finals[0]
    requires Finished(s, t1, i + 1, finals[1..], t1.ids)
    ensures Finished(s, Complete(t1, i, s.current[i]), i, finals, t1.ids)
  {
  }

  /** The events of the last builder: one insert, between its own. */
  lemma LastTrace(s: seq<Event>, i: nat, specs: seq<CreateSpec>, t: seq<Event>, tail: seq<Event>)
    requires t == s + [Checked(i)] + [Specified(i)] + [BatchInsert(specs)] + tail && (tail == [] || tail == [Completed(i)])
    ensures s <= t && Inserts(t[|s|..]) == [specs]
  {
    var head, batch := [Checked(i), Specified(i)], [BatchInsert(specs)];
    assert t[|s|..] == head + batch + tail;
    AroundInserts(head, batch, tail);
    assert batch[1..] == [];
  }

  lemma {:induction false} LastFinal(c: Setup, i: nat, s: State, prior: seq<CreateSpec>)
    requires StateOk(c, s) && i + 1 == |c.hooks| && Before(s, i, prior)
    ensures var m := s.current[i];
            var spec := Specify(c, Log(s, Checked(i)), i, m);
            && Finals(c, s, i, |c.hooks[i]|) == [s.store[m].m]
            && Filled(spec.specs) == prior + Specs(c, [s.store[m].m]) == prior + [c.specOf(s.store[m].m)]
  {
    var own := s.store[s.current[i]].m;
    var spec := Specify(c, Log(s, Checked(i)), i, s.current[i]);
    FilledPrefix(spec.specs, prior + [c.specOf(own)]);
    assert Specs(c, [own]) == [c.specOf(own)];
  }

  lemma {:induction false} LastAchieves(c: Setup, i: nat, s: State, prior: seq<CreateSpec>)
    requires SetupOk(c) && StateOk(c, s) && Plain(c, s) && i + 1 == |c.hooks|
    requires Before(s, i, prior) && c.check(s.store[s.current[i]].m.fields).None?
    ensures var (t, err) := Mutate(c, i, |c.hooks[i]|, s.current[i], s);
            Achieved(c, i, |c.hooks[i]|, s, prior, t, err)
  {
    var spec := Specify(c, Log(s, Checked(i)), i, s.current[i]);
    LastFinal(c, i, s, prior);
    var (t, err) := Mutate(c, i, |c.hooks[i]|, s.current[i], s);
    LastTrace(s.trace, i, Filled(spec.specs), t.trace, if err.Some? then [] else [Completed(i)]);
    assert InsertsOnce(c, i, |c.hooks[i]|, s, prior, t, err);
    LastFinishes(c, i, s, prior);
  }

  lemma {:induction false} LastFinishes(c: Setup, i: nat, s: State, prior: seq<CreateSpec>)
    requires SetupOk(c) && StateOk(c, s) && Plain(c, s) && i + 1 == |c.hooks|
    requires Before(s, i, prior) && c.check(s.store[s.current[i]].m.fields).None?
    ensures var (t, err) := Mutate(c, i, |c.hooks[i]|, s.current[i], s);
            FinishesOwn(c, i, |c.hooks[i]|, s, prior, t, err)
  {
    var spec := Specify(c, Log(s, Checked(i)), i, s.current[i]);
    LastFinal(c, i, s, prior);
    var (t1, err) := Insert(c, spec);
    BuilderKeeps(c, i, s, spec, t1);
    if err.None? {
      BuilderFinishes(s, t1, i, [s.store[s.current[i]].m]);
    }
  }
}
