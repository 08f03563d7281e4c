/**
 Is what gets inserted what was checked? A single save copies the mutation a hook hands on into the
 builder and then checks it; the bulk save checks the builder's own mutation first and only then
 takes the one handed on.
 */
module ValidatedSave {
  import opened Wrappers
  import opened AccountSchema
  import opened AccountCreate
  import opened BulkSave
  import opened BulkOutcome
  import opened BulkDefaults

  // ----- the bulk save --------------------------------------------------------------------

  /** The mutation that comes out of a list of hooks. */
  function HandedOn(hooks: seq<Hook>, h: nat, m: nat): nat
    requires h <= |hooks|
    decreases |hooks| - h
  {
    if h == |hooks| then m
    else HandedOn(hooks, h + 1, if hooks[h].Substitute? then hooks[h].other else m)
  }

  /** In a successful run every builder ends with the mutation its hooks have handed on. */
  lemma {:induction false} EndsWithHandedOn(c: Setup, i: nat, h: nat, m: nat, s: State, j: nat)
    requires i < |c.hooks| && h <= |c.hooks[i]| && m < |s.store| && StateOk(c, s) && i <= j < |c.hooks|
    requires Mutate(c, i, h, m, s).1.None?
    ensures Mutate(c, i, h, m, s).0.current[j] ==
            if j == i then HandedOn(c.hooks[i], h, m) else HandedOn(c.hooks[j], 0, s.current[j])
    decreases |c.hooks| - i, |c.hooks[i]| - h
  {
    if h < |c.hooks[i]| {
      if !c.hooks[i][h].Reject? {
        var next := PassOn(c.hooks[i][h], m, Log(s, Enter(i, h)));
        EndsWithHandedOn(c, i, h + 1, next.0, next.1, j);
      }
    } else if i < j {
      var spec := Specify(c, Log(s, Checked(i)), i, m);
      EndsWithHandedOn(c, i + 1, 0, spec.current[i + 1], spec, j);
    }
  }

  /**
   The mutation a builder inserts is the one whose check it ran, for a successful save of any list of
   builders, exactly when its hooks hand its own mutation on.
   */
  lemma {:induction false} ChecksWhatItInsertsIff(c: Setup, s: State, j: nat)
    requires c.hooks != [] && StateOk(c, s) && j < |c.hooks|
    requires Mutate(c, 0, 0, s.current[0], s).1.None?
    ensures Mutate(c, 0, 0, s.current[0], s).0.current[j] == s.current[j] <==>
            HandedOn(c.hooks[j], 0, s.current[j]) == s.current[j]
  {
    EndsWithHandedOn(c, 0, 0, s.current[0], s, j);
  }

  /** The state in which the chain reaches builder `j`'s innermost mutator, if no hook rejects before. */
  function Reached(c: Setup, i: nat, h: nat, m: nat, s: State, j: nat): (r: State)
    requires i < |c.hooks| && h <= |c.hooks[i]| && m < |s.store| && StateOk(c, s) && i <= j < |c.hooks|
    ensures StateOk(c, r)
    decreases |c.hooks| - i, |c.hooks[i]| - h
  {
    if h < |c.hooks[i]| then
      if c.hooks[i][h].Reject? then s
      else
        var next := PassOn(c.hooks[i][h], m, Log(s, Enter(i, h)));
        Reached(c, i, h + 1, next.0, next.1, j)
    else if i == j then s
    else
      var spec := Specify(c, Log(s, Checked(i)), i, m);
      Reached(c, i + 1, 0, spec.current[i + 1], spec, j)
  }

  /** The builder's own mutation as it is when its turn has come. */
  function OwnAt(c: Setup, i: nat, h: nat, m: nat, s: State, j: nat): Mutation
    requires i < |c.hooks| && h <= |c.hooks[i]| && m < |s.store| && StateOk(c, s) && i <= j < |c.hooks|
  {
    var r := Reached(c, i, h, m, s, j);
    r.store[r.current[j]].m
  }

  /** The mutation builder `j`'s hooks hand on, from the call at hand. */
  function Arriving(c: Setup, i: nat, h: nat, m: nat, s: State, j: nat): nat
    requires i < |c.hooks| && h <= |c.hooks[i]| && StateOk(c, s) && i <= j < |c.hooks|
  {
    if j == i then HandedOn(c.hooks[i], h, m) else HandedOn(c.hooks[j], 0, s.current[j])
  }

  /**
   For any list of builders and any hooks: in a successful run every builder has checked its own mutation,
   and has specified the one its hooks handed on, both as they were when its turn came.
   */
  lemma {:induction false} SpecifiesWhatArrives(c: Setup, i: nat, h: nat, m: nat, s: State, j: nat)
    requires i < |c.hooks| && h <= |c.hooks[i]| && m < |s.store| && StateOk(c, s) && i <= j < |c.hooks|
    requires Mutate(c, i, h, m, s).1.None?
    ensures Reached(c, i, h, m, s, j).current[j] == s.current[j]
    ensures c.check(OwnAt(c, i, h, m, s, j).fields).None?
    ensures Arriving(c, i, h, m, s, j) < |Reached(c, i, h, m, s, j).store|
    ensures Mutate(c, i, h, m, s).0.specs[j] ==
            Some(c.specOf(Reached(c, i, h, m, s, j).store[Arriving(c, i, h, m, s, j)].m))
    decreases |c.hooks| - i, |c.hooks[i]| - h
  {
    if h < |c.hooks[i]| {
      var next := PassOn(c.hooks[i][h], m, Log(s, Enter(i, h)));
      assert next.1.current == s.current && HandedOn(c.hooks[i], h + 1, next.0) == HandedOn(c.hooks[i], h, m);
      SpecifiesWhatArrives(c, i, h + 1, next.0, next.1, j);
      assert Mutate(c, i, h, m, s).0.specs == Mutate(c, i, h + 1, next.0, next.1).0.specs;
    } else {
      var spec := Specify(c, Log(s, Checked(i)), i, m);
      if i < j {
        assert spec.current[j] == s.current[j];
        SpecifiesWhatArrives(c, i + 1, 0, spec.current[i + 1], spec, j);
      } else {
        assert spec.specs[i] == Some(c.specOf(s.store[m].m)) && c.check(s.store[s.current[i]].m.fields).None?;
      }
    }
  }

  /**
   If all hooks hand the builders' own mutations on, then in a successful run every builder has checked
   its own mutation, as it was when its turn came, and that is what it has specified.
   */
  lemma {:induction false} OwnMutationsAreChecked(c: Setup, i: nat, h: nat, m: nat, s: State, j: nat)
    requires i < |c.hooks| && h <= |c.hooks[i]| && m < |s.store| && StateOk(c, s) && i <= j < |c.hooks|
    requires HandedOn(c.hooks[i], h, m) == s.current[i]
    requires forall k | i < k < |c.hooks| :: HandedOn(c.hooks[k], 0, s.current[k]) == s.current[k]
    requires Mutate(c, i, h, m, s).1.None?
    ensures Mutate(c, i, h, m, s).0.specs[j] == Some(c.specOf(OwnAt(c, i, h, m, s, j)))
    ensures c.check(OwnAt(c, i, h, m, s, j).fields).None?
  {
    SpecifiesWhatArrives(c, i, h, m, s, j);
  }

  /** The batch of a successful run is what the builders have specified. */
  lemma {:induction false} InsertsTheSpecs(c: Setup, i: nat, h: nat, m: nat, s: State)
    requires i < |c.hooks| && h <= |c.hooks[i]| && m < |s.store| && StateOk(c, s)
    requires Mutate(c, i, h, m, s).1.None?
    ensures var t := Mutate(c, i, h, m, s).0;
            s.trace <= t.trace && Inserts(NewEvents(s, t)) == [Filled(t.specs)]
    decreases |c.hooks| - i, |c.hooks[i]| - h
  {
    var t := Mutate(c, i, h, m, s).0;
    if h < |c.hooks[i]| {
      var next := PassOn(c.hooks[i][h], m, Log(s, Enter(i, h)));
      InsertsTheSpecs(c, i, h + 1, next.0, next.1);
      var t1 := Mutate(c, i, h + 1, next.0, next.1).0;
      assert t.specs == t1.specs;
      HookTrace(s.trace, next.1.trace, t1.trace, t.trace, i, h);
    } else {
      var spec := Specify(c, Log(s, Checked(i)), i, m);
      if i + 1 < |c.hooks| {
        InsertsTheSpecs(c, i + 1, 0, spec.current[i + 1], spec);
        BuilderTrace(s.trace, spec.trace, Mutate(c, i + 1, 0, spec.current[i + 1], spec).0.trace, t.trace, i);
      } else {
        LastTrace(s.trace, i, Filled(spec.specs), t.trace, [Completed(i)]);
      }
    }
  }

  lemma HookTrace(s: seq<Event>, inner: seq<Event>, t1: seq<Event>, t: seq<Event>, i: nat, h: nat)
    requires inner == s + [Enter(i, h)] && inner <= t1 && t == t1 + [Exit(i, h)]
    ensures s <= t && Inserts(t[|s|..]) == Inserts(t1[|inner|..])
  {
    AroundEvents(s, [Enter(i, h)], inner, t1, [Exit(i, h)], t);
    AroundInserts([Enter(i, h)], t1[|inner|..], [Exit(i, h)]);
  }

  /**
   Otherwise nothing keeps an unchecked mutation out: with one builder and one substituting hook, for
   every checked mutation `good` and every substitute `bad` that fails the check, `bad` is inserted.
   */
  lemma {:induction false} SubstituteIsInsertedUnchecked(c: Setup, good: Mutation, bad: Mutation, id: int)
    requires c.hooks == [[Substitute(1)]] && c.batch([c.specOf(bad)]) == Some([Some(id)])
    requires c.check(good.fields).None? && c.check(bad.fields).Some?
    ensures var s := State([0], [MutationState(good, None, false), MutationState(bad, None, false)],
                           [None], [None], [None], []);
            var (t, err) := Mutate(c, 0, 0, 0, s);
            err.None? && t.specs == [Some(c.specOf(bad))] && t.store[1] == MutationState(bad, Some(id), true)
  {
    var s := State([0], [MutationState(good, None, false), MutationState(bad, None, false)], [None], [None], [None], []);
    var spec := Specify(c, Log(Log(s, Enter(0, 0)), Checked(0)), 0, 1);
    assert spec.specs == [Some(c.specOf(bad))];
    FilledPrefix(spec.specs, [c.specOf(bad)]);
    assert Mutate(c, 0, 1, 1, Log(s, Enter(0, 0))) == (Complete(Insert(c, spec).0, 0, 1), None);
  }

  // ----- the single save ------------------------------------------------------------------

  /** Hooks from `h` on that hand the mutation on itself. */
  ghost predicate HandOwnOn(hooks: seq<Hook>, h: nat) {
    forall k | h <= k < |hooks| :: !hooks[k].Substitute?
  }

  ghost predicate NoneRejectsFrom(hooks: seq<Hook>, h: nat) {
    forall k | h <= k < |hooks| :: !hooks[k].Reject?
  }

  /** What a save of `final` inserts and answers, given whether it may be inserted at all. */
  ghost predicate SavedOnce(inserted: seq<CreateSpec>, failed: bool, spec: CreateSpec, passes: bool,
                            insert: CreateSpec -> Option<int>)
  {
    inserted == (if passes then [spec] else []) && (!failed <==> passes && insert(spec).Some?)
  }

  /** The builder of one account run through its hooks by `withHooks`. */
  class SingleSave {
    const hooks: seq<Hook>
    const check: Fields -> Option<CreateError>
    const specOf: Mutation -> CreateSpec
    const insert: CreateSpec -> Option<int>
    const own: nat
    var store: seq<MutationState>
    var inserted: seq<CreateSpec>

    ghost predicate Valid()
      reads this
    {
      own < |store| && forall h | 0 <= h < |hooks| && hooks[h].Substitute? :: hooks[h].other < |store|
    }

    constructor (hooks: seq<Hook>, check: Fields -> Option<CreateError>, specOf: Mutation -> CreateSpec,
                 insert: CreateSpec -> Option<int>, mutations: seq<MutationState>, own: nat)
      requires own < |mutations|
      requires forall h | 0 <= h < |hooks| && hooks[h].Substitute? :: hooks[h].other < |mutations|
      ensures Valid() && store == mutations && inserted == [] && this.own == own && this.hooks == hooks
      ensures this.check == check && this.specOf == specOf && this.insert == insert
    {
      this.hooks, this.check, this.specOf, this.insert, this.own := hooks, check, specOf, insert, own;
      store, inserted := mutations, [];
    }

    /**
     The mutator from hook `h` on. Whatever the hooks substitute, at most one spec is inserted, it is
     that of the builder's mutation, and that mutation passes the check.
     */
    method Mutate(h: nat, m: nat) returns (err: Option<SaveError>)
      requires Valid() && h <= |hooks| && m < |store|
      modifies this
      ensures Valid() && |store| == |old(store)|
      ensures inserted == old(inserted) ||
              (inserted == old(inserted) + [specOf(store[own].m)] && check(store[own].m.fields).None?)
      ensures err.None? ==>
                && inserted == old(inserted) + [specOf(store[own].m)]
                && store[own].done && store[own].id == insert(specOf(store[own].m)) != None
      ensures m == own && HandOwnOn(hooks, h) ==>
                var final := Edited(hooks, h, old(store[own].m));
                var passes := NoneRejectsFrom(hooks, h) && check(final.fields).None?;
                && old(inserted) <= inserted
                && SavedOnce(inserted[|old(inserted)|..], err.Some?, specOf(final), passes, insert)
      ensures err.Some? ==>
                (forall r | 0 <= r < |store| :: !old(store)[r].done) ==> forall r | 0 <= r < |store| :: !store[r].done
      decreases |hooks| - h
    {
      if h < |hooks| {
        match hooks[h] {
          case InPlace(edit) =>
            store := store[m := store[m].(m := edit(store[m].m))];
            err := Mutate(h + 1, m);
          case Substitute(other) =>
            err := Mutate(h + 1, other);
          case Reject =>
            err := Some(HookRejected(0, h));
        }
      } else {
        store := store[own := store[m]];
        err := SqlSave();
      }
    }

    method SqlSave() returns (err: Option<SaveError>)
      requires Valid()
      modifies this
      ensures Valid() && |store| == |old(store)|
      ensures store[own].m == old(store[own].m)
      ensures match check(store[own].m.fields)
              case Some(e) => err == Some(CheckFailed(0, e)) && store == old(store) && inserted == old(inserted)
              case None =>
                && inserted == old(inserted) + [specOf(store[own].m)]
                && match insert(specOf(store[own].m))
                   case None => err == Some(BatchFailed) && store == old(store)
                   case Some(id) =>
                     err == None && store == old(store)[own := MutationState(store[own].m, Some(id), true)]
    {
      var fault := check(store[own].m.fields);
      if fault.Some? {
        return Some(CheckFailed(0, fault.value));
      }
      var spec := specOf(store[own].m);
      inserted := inserted + [spec];
      var id := insert(spec);
      if id.None? {
        return Some(BatchFailed);
      }
      store := store[own := store[own].(id := Some(id.value), done := true)];
      return None;
    }

    /**
     `Save`: defaults first, whose error ends it, then the hooks. With every default initialised and hooks
     that hand the mutation on, what is inserted is the caller's fields, the default of every other column
     that has one, and the edges as given, all that edited by the hooks.
     */
    method Save(rt: Runtime) returns (err: Option<SaveError>, ghost filled: Mutation)
      requires Valid()
      modifies this
      ensures Valid()
      ensures var fault := DefaultsFault(rt, old(store[own].m.fields), DEFAULTED);
              fault.Some? ==> err == Some(DefaultsFailed(fault.value)) && inserted == old(inserted)
      ensures Initialised(rt) ==> FilledFrom(rt, old(store[own].m), filled)
      ensures Initialised(rt) && HandOwnOn(hooks, 0) ==>
                var final := Edited(hooks, 0, filled);
                var passes := NoneRejectsFrom(hooks, 0) && check(final.fields).None?;
                && old(inserted) <= inserted
                && SavedOnce(inserted[|old(inserted)|..], err.Some?, specOf(final), passes, insert)
    {
      var builder := new Builder(store[own].m);
      var fault := builder.Defaults(rt);
      filled := builder.mutation;
      if Initialised(rt) {
        DefaultsComplete(rt, store[own].m.fields);
      }
      store := store[own := store[own].(m := builder.mutation)];
      if fault.Some? {
        return Some(DefaultsFailed(fault.value)), filled;
      }
      err := Mutate(0, own);
    }
  }
}
