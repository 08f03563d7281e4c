/** What a bulk save inserts, said from the callers' mutations and the default values. */
module BulkDefaults {
  import opened Wrappers
  import opened AccountSchema
  import opened AccountCreate
  import opened BulkSave
  import opened BulkOutcome
  import opened AccountCreateBulk

  ghost predicate NoneRejects(hooks: seq<Hook>) {
    forall h | 0 <= h < |hooks| :: !hooks[h].Reject?
  }

  lemma {:induction false} PassableIff(c: Setup, s: State, i: nat)
    requires StateOk(c, s) && i < |c.hooks|
    ensures Passable(c, s, i, 0) <==>
            forall j | i <= j < |c.hooks| ::
              NoneRejects(c.hooks[j]) && c.check(Edited(c.hooks[j], 0, s.store[s.current[j]].m).fields).None?
    decreases |c.hooks| - i
  {
    assert NoneRejects(c.hooks[i]) <==> forall k | 0 <= k < |c.hooks[i]| :: !c.hooks[i][k].Reject?;
    if i + 1 < |c.hooks| {
      PassableIff(c, s, i + 1);
    }
  }

  /** The caller's mutation with every default it lacks, and the same edges. */
  ghost predicate FilledFrom(rt: Runtime, own: Mutation, got: Mutation)
    requires Initialised(rt)
  {
    CompletedFrom(rt, own.fields, got.fields) && got == own.(fields := got.fields)
  }

  /** The builders' mutations as `Save` finds them. */
  function Owns(s: State): (r: seq<Mutation>)
    requires forall j | 0 <= j < |s.current| :: s.current[j] < |s.store|
    ensures |r| == |s.current| && forall j | 0 <= j < |s.current| :: r[j] == s.store[s.current[j]].m
  {
    seq(|s.current|, j requires 0 <= j < |s.current| => s.store[s.current[j]].m)
  }

  function AllEdited(hooks: seq<seq<Hook>>, ms: seq<Mutation>): (r: seq<Mutation>)
    requires |ms| == |hooks|
    ensures |r| == |ms| && forall j | 0 <= j < |ms| :: r[j] == Edited(hooks[j], 0, ms[j])
  {
    seq(|ms|, j requires 0 <= j < |ms| => Edited(hooks[j], 0, ms[j]))
  }

  function SpecsOf(ms: seq<Mutation>): (r: seq<CreateSpec>)
    ensures |r| == |ms| && forall j | 0 <= j < |ms| :: r[j] == SpecOf(ms[j])
  {
    seq(|ms|, j requires 0 <= j < |ms| => SpecOf(ms[j]))
  }

  ghost predicate AllPass(rt: Runtime, hooks: seq<seq<Hook>>, ms: seq<Mutation>)
    requires |ms| == |hooks|
  {
    forall j | 0 <= j < |ms| :: NoneRejects(hooks[j]) && Passes(rt, ms[j].fields)
  }

  /** The nodes are the mutations' fields with the ids the batch has given. */
  ghost predicate Returns(ms: seq<Mutation>, nodes: seq<Option<Fields>>, ids: seq<Option<int>>) {
    |nodes| == |ids| == |ms| && forall j | 0 <= j < |ms| :: nodes[j] == Some(WithId(ms[j].fields, ids[j]))
  }

  /** The save from `s0` to `t` inserts just these mutations, or nothing, and succeeds if the batch takes them. */
  ghost predicate Saves(c: Setup, s0: State, t: State, ms: seq<Mutation>, passes: bool, failed: bool) {
    && s0.trace <= t.trace
    && Inserts(NewEvents(s0, t)) == (if passes then [SpecsOf(ms)] else [])
    && (!failed <==> passes && c.batch(SpecsOf(ms)).Some?)
    && (!failed ==> c.batch(SpecsOf(ms)) == Some(t.ids) && Returns(ms, t.nodes, t.ids))
  }

  ghost predicate AllChecked(c: Setup, ms: seq<Mutation>)
    requires |ms| == |c.hooks|
  {
    forall j | 0 <= j < |ms| :: NoneRejects(c.hooks[j]) && c.check(ms[j].fields).None?
  }

  lemma {:induction false} PassableWhen(c: Setup, s: State, ms: seq<Mutation>)
    requires c.hooks != [] && StateOk(c, s) && |ms| == |c.hooks|
    requires forall j | 0 <= j < |ms| :: ms[j] == Edited(c.hooks[j], 0, s.store[s.current[j]].m)
    ensures Finals(c, s, 0, 0) == ms
    ensures Passable(c, s, 0, 0) <==> AllChecked(c, ms)
  {
    forall j | 0 <= j < |ms| ensures Finals(c, s, 0, 0)[j] == ms[j] {
      FinalOf(c, s, 0, j);
    }
    PassableIff(c, s, 0);
  }

  lemma {:induction false} FinalsAre(c: Setup, fill: Mutation -> Mutation, s0: State, filled: seq<Mutation>)
    requires StateOk(c, s0) && Plain(c, s0) && c.hooks != [] && |filled| == |c.hooks|
    requires forall j | 0 <= j < |filled| :: filled[j] == fill(Owns(s0)[j])
    ensures StateOk(c, Prepared(fill, s0, |c.hooks|))
    ensures Finals(c, Prepared(fill, s0, |c.hooks|), 0, 0) == AllEdited(c.hooks, filled)
    ensures Passable(c, Prepared(fill, s0, |c.hooks|), 0, 0) <==> AllChecked(c, AllEdited(c.hooks, filled))
  {
    var s := Prepared(fill, s0, |c.hooks|);
    PreparedIsPlain(c, fill, s0);
    forall j | 0 <= j < |c.hooks| ensures s.store[s.current[j]].m == filled[j] {
      PreparedOwn(fill, s0, |c.hooks|, j);
    }
    PassableWhen(c, s, AllEdited(c.hooks, filled));
  }

  lemma AllPassWhen(rt: Runtime, hooks: seq<seq<Hook>>, batch: seq<CreateSpec> -> Option<seq<Option<int>>>,
                    ms: seq<Mutation>)
    requires |ms| == |hooks|
    ensures AllPass(rt, hooks, ms) <==> AllChecked(AccountSetup(rt, hooks, batch), ms)
  {
    forall j | 0 <= j < |hooks|
      ensures AccountSetup(rt, hooks, batch).check(ms[j].fields).None? <==> Passes(rt, ms[j].fields)
    {
      CheckPassesWhen(rt, ms[j].fields);
    }
  }

  lemma FillsIn(rt: Runtime, own: Mutation)
    requires Initialised(rt)
    ensures FilledFrom(rt, own, FillIn(rt)(own))
  {
    DefaultsComplete(rt, own.fields);
  }

  lemma AllFilled(rt: Runtime, fill: Mutation -> Mutation, owns: seq<Mutation>) returns (filled: seq<Mutation>)
    requires Initialised(rt) && forall m :: FilledFrom(rt, m, fill(m))
    ensures |filled| == |owns| && forall j | 0 <= j < |owns| :: filled[j] == fill(owns[j])
    ensures forall j | 0 <= j < |owns| :: FilledFrom(rt, owns[j], filled[j])
  {
    filled := seq(|owns|, j requires 0 <= j < |owns| => fill(owns[j]));
  }

  lemma {:induction false} SavesFilled(c: Setup, fill: Mutation -> Mutation, s0: State, filled: seq<Mutation>)
    requires c.hooks != [] && SetupOk(c) && StateOk(c, s0) && Plain(c, s0) && c.specOf == SpecOf
    requires |filled| == |c.hooks| && forall j | 0 <= j < |filled| :: filled[j] == fill(Owns(s0)[j])
    ensures var s, ms := Prepared(fill, s0, |c.hooks|), AllEdited(c.hooks, filled);
            var (t, err) := BulkSave.Mutate(c, 0, 0, s.current[0], s);
            Saves(c, s0, t, ms, AllChecked(c, ms), err.Some?)
  {
    var ms := AllEdited(c.hooks, filled);
    assert Specs(c, ms) == SpecsOf(ms);
    FinalsAre(c, fill, s0, filled);
    SaveAllOrNothing(c, fill, s0);
  }

  /**
   What a bulk save inserts, whatever its hooks write: every builder's own fields, the default of every
   other column that has one, the edges as given; all that edited by the builder's hooks. It is inserted if
   and only if no hook rejects and every builder's outcome has what has to be set, and set validly.
   */
  lemma BulkInsertsFilled(rt: Runtime, hooks: seq<seq<Hook>>, batch: seq<CreateSpec> -> Option<seq<Option<int>>>,
                          s0: State) returns (filled: seq<Mutation>)
    requires hooks != [] && Initialised(rt)
    requires var c := AccountSetup(rt, hooks, batch); SetupOk(c) && StateOk(c, s0) && Plain(c, s0)
    ensures |filled| == |hooks| && forall j | 0 <= j < |hooks| :: FilledFrom(rt, Owns(s0)[j], filled[j])
    ensures var c, s := AccountSetup(rt, hooks, batch), Prepared(FillIn(rt), s0, |hooks|);
            var (t, err) := BulkSave.Mutate(c, 0, 0, s.current[0], s);
            var ms := AllEdited(hooks, filled);
            Saves(c, s0, t, ms, AllPass(rt, hooks, ms), err.Some?)
  {
    var c := AccountSetup(rt, hooks, batch);
    forall m ensures FilledFrom(rt, m, FillIn(rt)(m)) {
      FillsIn(rt, m);
    }
    filled := AllFilled(rt, FillIn(rt), Owns(s0));
    SavesFilled(c, FillIn(rt), s0, filled);
    AllPassWhen(rt, hooks, batch, AllEdited(hooks, filled));
  }

  /** Hooks that call next with the mutation as it is. */
  ghost predicate LeaveAlone(hooks: seq<Hook>) {
    forall h | 0 <= h < |hooks| :: LeavesAlone(hooks[h])
  }

  ghost predicate LeavesAlone(hook: Hook) {
    hook.InPlace? && forall m :: hook.edit(m) == m
  }

  lemma {:induction false} EditedAlone(hooks: seq<Hook>, h: nat, m: Mutation)
    requires h <= |hooks| && LeaveAlone(hooks)
    ensures Edited(hooks, h, m) == m
    decreases |hooks| - h
  {
    if h < |hooks| {
      assert LeavesAlone(hooks[h]);
      EditedAlone(hooks, h + 1, m);
    }
  }

  /** A name, a platform and a type were given, and the outcome is valid. */
  ghost predicate Fit(rt: Runtime, own: Mutation, got: Mutation) {
    Name in own.fields && Platform in own.fields && Type in own.fields && Validated(rt, got.fields)
  }

  ghost predicate AllFit(rt: Runtime, owns: seq<Mutation>, ms: seq<Mutation>)
    requires |ms| == |owns|
  {
    forall j | 0 <= j < |ms| :: Fit(rt, owns[j], ms[j])
  }

  /**
   With hooks that leave the mutations alone: every builder inserts what its caller has set and the
   defaults of the other columns, and the batch goes out if and only if every caller has given a name, a
   platform and a type and the validators accept the values.
   */
  lemma BulkInsertsDefaults(rt: Runtime, hooks: seq<seq<Hook>>, batch: seq<CreateSpec> -> Option<seq<Option<int>>>,
                            s0: State) returns (ms: seq<Mutation>)
    requires hooks != [] && Initialised(rt) && forall j | 0 <= j < |hooks| :: LeaveAlone(hooks[j])
    requires var c := AccountSetup(rt, hooks, batch); SetupOk(c) && StateOk(c, s0) && Plain(c, s0)
    ensures |ms| == |hooks| && forall j | 0 <= j < |hooks| :: FilledFrom(rt, Owns(s0)[j], ms[j])
    ensures var c, s := AccountSetup(rt, hooks, batch), Prepared(FillIn(rt), s0, |hooks|);
            var (t, err) := BulkSave.Mutate(c, 0, 0, s.current[0], s);
            Saves(c, s0, t, ms, AllFit(rt, Owns(s0), ms), err.Some?)
  {
    ms := BulkInsertsFilled(rt, hooks, batch, s0);
    AllEditedAlone(hooks, ms);
    AllPassIfFit(rt, hooks, Owns(s0), ms);
  }

  lemma AllEditedAlone(hooks: seq<seq<Hook>>, ms: seq<Mutation>)
    requires |ms| == |hooks| && forall j | 0 <= j < |hooks| :: LeaveAlone(hooks[j])
    ensures AllEdited(hooks, ms) == ms
  {
    forall j | 0 <= j < |hooks| ensures Edited(hooks[j], 0, ms[j]) == ms[j] {
      EditedAlone(hooks[j], 0, ms[j]);
    }
  }

  lemma AllPassIfFit(rt: Runtime, hooks: seq<seq<Hook>>, owns: seq<Mutation>, ms: seq<Mutation>)
    requires Initialised(rt) && |ms| == |owns| == |hooks| && forall j | 0 <= j < |hooks| :: LeaveAlone(hooks[j])
    requires forall j | 0 <= j < |hooks| :: FilledFrom(rt, owns[j], ms[j])
    ensures AllPass(rt, hooks, ms) <==> AllFit(rt, owns, ms)
  {
    forall j | 0 <= j < |hooks|
      ensures NoneRejects(hooks[j]) && (Passes(rt, ms[j].fields) <==> Fit(rt, owns[j], ms[j]))
    {
      assert forall h | 0 <= h < |hooks[j]| :: LeavesAlone(hooks[j][h]);
      CompletedPassesIff(rt, owns[j].fields, ms[j].fields);
      CheckPassesWhen(rt, ms[j].fields);
    }
  }

  /**
   The whole call, from the callers' mutations on: build the bulk builder and save. For any builders with
   hooks that call next with the mutation they get, and at least one builder.
   */
  method SaveNew(rt: Runtime, hooks: seq<seq<Hook>>, batch: seq<CreateSpec> -> Option<seq<Option<int>>>,
                 mutations: seq<Mutation>)
    returns (bulk: AccountCreateBulk, r: Result<seq<Option<Fields>>, SaveError>, ghost filled: seq<Mutation>)
    requires |mutations| == |hooks| > 0 && Initialised(rt) && SetupOk(AccountSetup(rt, hooks, batch))
    requires forall i, h | 0 <= i < |hooks| && 0 <= h < |hooks[i]| :: !hooks[i][h].Substitute?
    ensures fresh(bulk)
    ensures |filled| == |hooks| && forall j | 0 <= j < |hooks| :: FilledFrom(rt, mutations[j], filled[j])
    ensures var ms := AllEdited(hooks, filled);
            var passes := AllPass(rt, hooks, ms);
            && Inserts(bulk.trace) == (if passes then [SpecsOf(ms)] else [])
            && (r.Success? <==> passes && batch(SpecsOf(ms)).Some?)
            && (r.Success? ==> Returns(ms, r.value, batch(SpecsOf(ms)).value))
  {
    bulk := new AccountCreateBulk(rt, hooks, batch, mutations);
    ghost var s0 := bulk.View();
    assert Owns(s0) == mutations;
    filled := BulkInsertsFilled(rt, hooks, batch, s0);
    r := bulk.Save();
    assert NewEvents(s0, bulk.View()) == bulk.trace;
  }

  // ----- which error a failing save gives ---------------------------------------------------

  /** Where builder `b`'s part of the run begins, of a run that begins at hook `h` of builder `i`. */
  function StartOf(i: nat, h: nat, b: nat): nat {
    if b == i then h else 0
  }

  function FinalFrom(c: Setup, s: State, i: nat, h: nat, b: nat): Mutation
    requires StateOk(c, s) && i <= b < |c.hooks| && h <= |c.hooks[i]|
  {
    Edited(c.hooks[b], StartOf(i, h, b), s.store[s.current[b]].m)
  }

  /** Builder `b`'s hooks let its mutation through. */
  ghost predicate LetsThrough(c: Setup, i: nat, h: nat, b: nat)
    requires b < |c.hooks|
  {
    forall k | StartOf(i, h, b) <= k < |c.hooks[b]| :: !c.hooks[b][k].Reject?
  }

  ghost predicate GetsBy(c: Setup, s: State, i: nat, h: nat, b: nat)
    requires StateOk(c, s) && i <= b < |c.hooks| && h <= |c.hooks[i]|
  {
    LetsThrough(c, i, h, b) && c.check(FinalFrom(c, s, i, h, b).fields).None?
  }

  /** The error names builder `j`, and what stopped it: its first hook that rejects, or else its check; or all got by. */
  ghost predicate StoppedAt(c: Setup, s: State, i: nat, h: nat, err: SaveError, j: nat)
    requires StateOk(c, s) && i <= j <= |c.hooks| && i < |c.hooks| && h <= |c.hooks[i]|
  {
    match err
    case HookRejected(b, g) =>
      && b == j < |c.hooks| && StartOf(i, h, j) <= g < |c.hooks[j]| && c.hooks[j][g].Reject?
      && forall k | StartOf(i, h, j) <= k < g :: !c.hooks[j][k].Reject?
    case CheckFailed(b, e) =>
      b == j < |c.hooks| && LetsThrough(c, i, h, j) && c.check(FinalFrom(c, s, i, h, j).fields) == Some(e)
    case BatchFailed => j == |c.hooks|
    case DefaultsFailed(_) => false
  }

  ghost predicate FirstStopped(c: Setup, s: State, i: nat, h: nat, err: SaveError, j: nat)
    requires StateOk(c, s) && i < |c.hooks| && h <= |c.hooks[i]|
  {
    i <= j <= |c.hooks| && (forall b | i <= b < j :: GetsBy(c, s, i, h, b)) && StoppedAt(c, s, i, h, err, j)
  }

  /** The error of a failing save is the first obstacle on the way, in builder and hook order. */
  lemma {:induction false} FirstObstacle(c: Setup, i: nat, h: nat, s: State) returns (j: nat)
    requires SetupOk(c) && StateOk(c, s) && Plain(c, s) && i < |c.hooks| && h <= |c.hooks[i]|
    requires BulkSave.Mutate(c, i, h, s.current[i], s).1.Some?
    ensures FirstStopped(c, s, i, h, BulkSave.Mutate(c, i, h, s.current[i], s).1.value, j)
    decreases |c.hooks| - i, |c.hooks[i]| - h, 1
  {
    var m := s.current[i];
    var err := BulkSave.Mutate(c, i, h, m, s).1.value;
    if h < |c.hooks[i]| {
      j := FirstObstacleFromHook(c, i, h, s);
    } else if c.check(s.store[m].m.fields).Some? {
      j := i;
    } else if i + 1 < |c.hooks| {
      var spec := Specify(c, Log(s, Checked(i)), i, m);
      j := FirstObstacle(c, i + 1, 0, spec);
      ObstacleThroughBuilder(c, s, spec, i, err, j);
    } else {
      j := i + 1;
    }
  }

  lemma {:induction false} FirstObstacleFromHook(c: Setup, i: nat, h: nat, s: State) returns (j: nat)
    requires SetupOk(c) && StateOk(c, s) && Plain(c, s) && i < |c.hooks| && h < |c.hooks[i]|
    requires BulkSave.Mutate(c, i, h, s.current[i], s).1.Some?
    ensures FirstStopped(c, s, i, h, BulkSave.Mutate(c, i, h, s.current[i], s).1.value, j)
    decreases |c.hooks| - i, |c.hooks[i]| - h, 0
  {
    if c.hooks[i][h].Reject? {
      j := i;
    } else {
      var s1 := PassOn(c.hooks[i][h], s.current[i], Log(s, Enter(i, h))).1;
      j := FirstObstacle(c, i, h + 1, s1);
      ObstacleThroughHook(c, s, s1, i, h, BulkSave.Mutate(c, i, h, s.current[i], s).1.value, j);
    }
  }

  lemma ObstacleThroughHook(c: Setup, s: State, s1: State, i: nat, h: nat, err: SaveError, j: nat)
    requires StateOk(c, s) && StateOk(c, s1) && Plain(c, s) && i < |c.hooks| && h < |c.hooks[i]|
    requires c.hooks[i][h].InPlace? && s1.current == s.current
    requires var m := s.current[i]; s1.store == s.store[m := s.store[m].(m := c.hooks[i][h].edit(s.store[m].m))]
    requires FirstStopped(c, s1, i, h + 1, err, j)
    ensures FirstStopped(c, s, i, h, err, j)
  {
    forall b | i <= b < |c.hooks|
      ensures FinalFrom(c, s, i, h, b) == FinalFrom(c, s1, i, h + 1, b)
      ensures LetsThrough(c, i, h, b) <==> LetsThrough(c, i, h + 1, b)
    {
      if b == i {
        assert s1.store[s.current[i]].m == c.hooks[i][h].edit(s.store[s.current[i]].m);
      } else {
        assert s.current[i] != s.current[b];
      }
    }
    forall b | i <= b < j ensures GetsBy(c, s, i, h, b) {
      assert GetsBy(c, s1, i, h + 1, b);
    }
  }

  lemma ObstacleThroughBuilder(c: Setup, s: State, spec: State, i: nat, err: SaveError, j: nat)
    requires StateOk(c, s) && StateOk(c, spec) && i + 1 < |c.hooks|
    requires spec.current == s.current && spec.store == s.store && c.check(s.store[s.current[i]].m.fields).None?
    requires FirstStopped(c, spec, i + 1, 0, err, j)
    ensures FirstStopped(c, s, i, |c.hooks[i]|, err, j)
  {
    assert GetsBy(c, s, i, |c.hooks[i]|, i);
    forall b | i < b < j ensures GetsBy(c, s, i, |c.hooks[i]|, b) {
      assert GetsBy(c, spec, i + 1, 0, b);
    }
  }
}
