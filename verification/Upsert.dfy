/**
 Conflict resolution of account upserts. The options given to a builder are functions that run when
 the statement is built, so they see the mutation as it is then, after `defaults` and the hooks.
 */
module Upsert {
  import opened Wrappers
  import opened AccountSchema
  import opened AccountCreate

  // ----- the update set -------------------------------------------------------------------

  /** What the ON CONFLICT clause assigns to a column of the existing row. */
  datatype Assignment =
    | ToValue(value: Value)
    | ToNull
    | Plus(amount: Value)
    | Excluded   // the value proposed for insertion
    | Itself     // the existing value

  /** The assignments collected so far: the last one for a column holds. */
  type UpdateSet = map<Column, Assignment>

  /** The `AccountUpsert` setters: every column but the id and the immutable creation time has them. */
  predicate HasSetter(c: Column) {
    c != ID && c != CreatedAt && !c.Unknown?
  }

  datatype Setter = Setter(column: Column, assignment: Assignment)

  ghost predicate ApiSetter(s: Setter) {
    HasSetter(s.column) && !s.assignment.Itself?
  }

  datatype ConflictOption =
    | ResolveWithNewValues
    | ResolveWithIgnore
    | KeepCreatedAt(builders: seq<nat>)  // the closure of UpdateNewValues over its builders
    | Update(setters: seq<Setter>)

  function SetAll(u: UpdateSet, columns: seq<Column>, a: Assignment): UpdateSet
    decreases |columns|
  {
    if columns == [] then u else SetAll(u[columns[0] := a], columns[1..], a)
  }

  function RunSetters(u: UpdateSet, setters: seq<Setter>): UpdateSet
    decreases |setters|
  {
    if setters == [] then u else RunSetters(u[setters[0].column := setters[0].assignment], setters[1..])
  }

  /** The loop of the closure: the creation time is kept if some builder's mutation has one by now. */
  function KeepIfSet(u: UpdateSet, mutations: seq<Fields>, builders: seq<nat>): UpdateSet
    decreases |builders|
  {
    if builders == [] then u
    else
      var rest := builders[1..];
      if builders[0] < |mutations| && CreatedAt in mutations[builders[0]]
      then KeepIfSet(u[CreatedAt := Itself], mutations, rest)
      else KeepIfSet(u, mutations, rest)
  }

  /** One option run on the columns of the insert and the mutations as they are when it is built. */
  function RunOption(u: UpdateSet, columns: seq<Column>, mutations: seq<Fields>, option: ConflictOption): UpdateSet {
    match option
    case ResolveWithNewValues => SetAll(u, columns, Excluded)
    case ResolveWithIgnore => SetAll(u, columns, Itself)
    case KeepCreatedAt(builders) => KeepIfSet(u, mutations, builders)
    case Update(setters) => RunSetters(u, setters)
  }

  function RunOptions(u: UpdateSet, columns: seq<Column>, mutations: seq<Fields>, options: seq<ConflictOption>): UpdateSet {
    if options == [] then u
    else
      var n := |options| - 1;
      RunOption(RunOptions(u, columns, mutations, options[..n]), columns, mutations, options[n])
  }

  /** The existing row after the conflict has been resolved. */
  function Resolve(u: UpdateSet, row: Fields, proposed: Fields, plus: (Value, Value) -> Value): Fields {
    map c | c in row.Keys + u.Keys && Resolved(u, row, proposed, plus, c).Some? ::
      Resolved(u, row, proposed, plus, c).value
  }

  function Resolved(u: UpdateSet, row: Fields, proposed: Fields, plus: (Value, Value) -> Value, c: Column): Option<Value> {
    if c !in u then Stored(row, c)
    else match u[c]
      case ToValue(v) => Some(v)
      case ToNull => None
      case Plus(v) => Some(plus(if c in row then row[c] else VInt(0), v))
      case Excluded => Stored(proposed, c)
      case Itself => Stored(row, c)
  }

  function Stored(row: Fields, c: Column): Option<Value> {
    if c in row then Some(row[c]) else None
  }

  // ----- what happens to the creation time ------------------------------------------------

  /** Every setter of every option is one the API offers. */
  ghost predicate ApiOptions(options: seq<ConflictOption>) {
    forall o | o in options && o.Update? :: forall s | s in o.setters :: ApiSetter(s)
  }

  ghost predicate Overwrites(option: ConflictOption, columns: seq<Column>) {
    option.ResolveWithNewValues? && CreatedAt in columns
  }

  ghost predicate Keeps(option: ConflictOption, columns: seq<Column>, mutations: seq<Fields>) {
    match option
    case ResolveWithIgnore => CreatedAt in columns
    case KeepCreatedAt(builders) => SomeCreationTime(mutations, builders)
    case _ => false
  }

  ghost predicate SomeCreationTime(mutations: seq<Fields>, builders: seq<nat>) {
    exists b | b in builders :: b < |mutations| && CreatedAt in mutations[b]
  }

  /** The creation time is left alone by what has been collected. */
  predicate LeavesCreatedAt(u: UpdateSet) {
    CreatedAt in u ==> u[CreatedAt].Itself?
  }

  lemma {:induction false} SetAllMeaning(u: UpdateSet, columns: seq<Column>, a: Assignment, c: Column)
    ensures c in SetAll(u, columns, a) <==> c in u || c in columns
    ensures c in SetAll(u, columns, a) ==> SetAll(u, columns, a)[c] == if c in columns then a else u[c]
    decreases |columns|
  {
    if columns != [] {
      SetAllMeaning(u[columns[0] := a], columns[1..], a, c);
    }
  }

  lemma {:induction false} RunSettersElsewhere(u: UpdateSet, setters: seq<Setter>, c: Column)
    requires forall s | s in setters :: s.column != c
    ensures c in RunSetters(u, setters) <==> c in u
    ensures c in u ==> RunSetters(u, setters)[c] == u[c]
    decreases |setters|
  {
    if setters != [] {
      RunSettersElsewhere(u[setters[0].column := setters[0].assignment], setters[1..], c);
    }
  }

  lemma {:induction false} KeepIfSetMeaning(u: UpdateSet, mutations: seq<Fields>, builders: seq<nat>)
    ensures KeepIfSet(u, mutations, builders) ==
            if SomeCreationTime(mutations, builders) then u[CreatedAt := Itself] else u
    decreases |builders|
  {
    if builders != [] {
      var b := builders[0];
      assert builders == [b] + builders[1..];
      KeepIfSetMeaning(if b < |mutations| && CreatedAt in mutations[b] then u[CreatedAt := Itself] else u,
                       mutations, builders[1..]);
    }
  }

  lemma OptionEffect(u: UpdateSet, columns: seq<Column>, mutations: seq<Fields>, option: ConflictOption)
    requires ApiOptions([option])
    ensures LeavesCreatedAt(RunOption(u, columns, mutations, option)) <==>
            Keeps(option, columns, mutations) || (LeavesCreatedAt(u) && !Overwrites(option, columns))
  {
    match option
    case ResolveWithNewValues => SetAllMeaning(u, columns, Excluded, CreatedAt);
    case ResolveWithIgnore => SetAllMeaning(u, columns, Itself, CreatedAt);
    case KeepCreatedAt(builders) => KeepIfSetMeaning(u, mutations, builders);
    case Update(setters) =>
      assert option in [option];
      RunSettersElsewhere(u, setters, CreatedAt);
  }

  /**
   Whatever options are combined through the API, in whatever order: the creation time of an existing
   row is left alone exactly when every option that would overwrite it is followed by one that keeps it.
   */
  lemma {:induction false} CreatedAtLeftAloneIff(columns: seq<Column>, mutations: seq<Fields>,
                                                 options: seq<ConflictOption>)
    requires ApiOptions(options)
    ensures LeavesCreatedAt(RunOptions(map[], columns, mutations, options)) <==>
            forall i | 0 <= i < |options| && Overwrites(options[i], columns) ::
              exists j | i < j < |options| :: Keeps(options[j], columns, mutations)
  {
    if options != [] {
      var n := |options| - 1;
      var init := options[..n];
      assert forall o | o in init :: o in options;
      CreatedAtLeftAloneIff(columns, mutations, init);
      assert options[n] in options;
      OptionEffect(RunOptions(map[], columns, mutations, init), columns, mutations, options[n]);
      assert forall i | 0 <= i < n :: init[i] == options[i];
    }
  }

  /** A mutation that has passed its check has a creation time, set by the caller or by `defaults`. */
  lemma CheckedHasCreationTime(rt: Runtime, f: Fields)
    requires Check(rt, f).None?
    ensures CreatedAt in f
  {
    CheckPassesIff(rt, f);
    assert RULES[0] in RULES;
  }

  /** Every option that takes the new values is followed by the closure that keeps the creation time. */
  ghost predicate Protected(options: seq<ConflictOption>, builders: seq<nat>) {
    forall i | 0 <= i < |options| && options[i].ResolveWithNewValues? ::
      exists j | i < j < |options| :: options[j] == KeepCreatedAt(builders)
  }

  lemma ProtectedByPair(options: seq<ConflictOption>, builders: seq<nat>)
    ensures Protected(options + [ResolveWithNewValues, KeepCreatedAt(builders)], builders)
  {
    var all := options + [ResolveWithNewValues, KeepCreatedAt(builders)];
    assert all[|options| + 1] == KeepCreatedAt(builders);
  }

  lemma ProtectedByOther(options: seq<ConflictOption>, builders: seq<nat>, option: ConflictOption)
    requires Protected(options, builders) && !option.ResolveWithNewValues?
    ensures Protected(options + [option], builders)
  {
    var all := options + [option];
    forall i | 0 <= i < |all| && all[i].ResolveWithNewValues?
      ensures exists j | i < j < |all| :: all[j] == KeepCreatedAt(builders)
    {
      var j :| i < j < |options| && options[j] == KeepCreatedAt(builders);
      assert all[j] == KeepCreatedAt(builders);
    }
  }

  /**
   Creation time survives upserts. For one builder or many: in any list of options in which taking the
   new values is always followed by the closure, as every call of `UpdateNewValues` leaves it and all
   other calls keep it, an existing row keeps its creation time as long as one of the builders'
   mutations has passed its check, even if no caller ever set the creation time.
   */
  lemma {:induction false} CreationTimeSurvives(rt: Runtime, columns: seq<Column>, mutations: seq<Fields>,
                                                builders: seq<nat>, b: nat,
                             options: seq<ConflictOption>, row: Fields, proposed: Fields, plus: (Value, Value) -> Value)
    requires b in builders && b < |mutations| && Check(rt, mutations[b]).None?
    requires ApiOptions(options) && Protected(options, builders)
    ensures var resolved := Resolve(RunOptions(map[], columns, mutations, options), row, proposed, plus);
            Stored(resolved, CreatedAt) == Stored(row, CreatedAt)
  {
    CheckedHasCreationTime(rt, mutations[b]);
    assert SomeCreationTime(mutations, builders);
    forall i | 0 <= i < |options| && Overwrites(options[i], columns)
      ensures exists j | i < j < |options| :: Keeps(options[j], columns, mutations)
    {
      var j :| i < j < |options| && options[j] == KeepCreatedAt(builders);
      assert Keeps(options[j], columns, mutations);
    }
    CreatedAtLeftAloneIff(columns, mutations, options);
  }

  /** The other inserted columns do take the proposed values. */
  lemma {:induction false} OtherColumnsTakeNewValues(columns: seq<Column>, mutations: seq<Fields>,
                                                     builders: seq<nat>, c: Column,
                                  row: Fields, proposed: Fields, plus: (Value, Value) -> Value)
    requires c in columns && c != CreatedAt
    ensures var options := [ResolveWithNewValues, KeepCreatedAt(builders)];
            Stored(Resolve(RunOptions(map[], columns, mutations, options), row, proposed, plus), c) == Stored(proposed, c)
  {
    PairOfOptions(columns, mutations, builders);
    SetAllMeaning(map[], columns, Excluded, c);
  }

  lemma {:induction false} PairOfOptions(columns: seq<Column>, mutations: seq<Fields>, builders: seq<nat>)
    ensures RunOptions(map[], columns, mutations, [ResolveWithNewValues]) == SetAll(map[], columns, Excluded)
    ensures var u := SetAll(map[], columns, Excluded);
            RunOptions(map[], columns, mutations, [ResolveWithNewValues, KeepCreatedAt(builders)]) ==
            if SomeCreationTime(mutations, builders) then u[CreatedAt := Itself] else u
  {
    var options := [ResolveWithNewValues, KeepCreatedAt(builders)];
    assert options[..1] == [ResolveWithNewValues] && [ResolveWithNewValues][..0] == [];
    KeepIfSetMeaning(SetAll(map[], columns, Excluded), mutations, builders);
  }

  /**
   The comments call `UpdateNewValues` equivalent to `ResolveWithNewValues`. It is, exactly when no
   builder's mutation has a creation time, which after a passed check is never so.
   */
  lemma {:induction false} DocumentedEquivalenceIff(columns: seq<Column>, mutations: seq<Fields>, builders: seq<nat>)
    ensures RunOptions(map[], columns, mutations, [ResolveWithNewValues, KeepCreatedAt(builders)]) ==
            RunOptions(map[], columns, mutations, [ResolveWithNewValues]) <==>
            !SomeCreationTime(mutations, builders)
  {
    PairOfOptions(columns, mutations, builders);
    SetAllMeaning(map[], columns, Excluded, CreatedAt);
  }

  /** Deciding when the option is given instead of when the statement is built would lose the creation time. */
  lemma {:induction false} DecidingEarlyWouldOverwrite(columns: seq<Column>, given: Fields)
    requires CreatedAt in columns && CreatedAt !in given
    ensures !LeavesCreatedAt(RunOptions(map[], columns, [given], [ResolveWithNewValues, KeepCreatedAt([0])]))
  {
    var options := [ResolveWithNewValues, KeepCreatedAt([0])];
    assert ApiOptions(options);
    CreatedAtLeftAloneIff(columns, [given], options);
    assert Overwrites(options[0], columns);
    assert !Keeps(options[1], columns, [given]);
  }

  // ----- what the setters do --------------------------------------------------------------

  lemma {:induction false} RunSettersLast(u: UpdateSet, setters: seq<Setter>, k: nat)
    requires k < |setters| && forall j | k < j < |setters| :: setters[j].column != setters[k].column
    ensures setters[k].column in RunSetters(u, setters)
    ensures RunSetters(u, setters)[setters[k].column] == setters[k].assignment
    decreases |setters|
  {
    var next := u[setters[0].column := setters[0].assignment];
    if k > 0 {
      RunSettersLast(next, setters[1..], k - 1);
    } else {
      assert forall s | s in setters[1..] :: s.column != setters[0].column;
      RunSettersElsewhere(next, setters[1..], setters[0].column);
    }
  }

  lemma ResolvedIsStored(u: UpdateSet, row: Fields, proposed: Fields, plus: (Value, Value) -> Value, c: Column)
    ensures Stored(Resolve(u, row, proposed, plus), c) == Resolved(u, row, proposed, plus, c)
  {
  }

  lemma {:induction false} RunOptionsLast(columns: seq<Column>, mutations: seq<Fields>, options: seq<ConflictOption>,
                                          last: ConflictOption)
    ensures RunOptions(map[], columns, mutations, options + [last]) ==
            RunOption(RunOptions(map[], columns, mutations, options), columns, mutations, last)
  {
    assert (options + [last])[..|options|] == options;
  }

  /**
   What an update leaves in a column, behind any other options: the last setter of the column decides. A set
   stores its value and a clear none, an addition adds to the old value or to zero, and an update to the
   value provided on create takes the one proposed for insertion.
   */
  lemma {:induction false} LastSetterDecides(columns: seq<Column>, mutations: seq<Fields>, options: seq<ConflictOption>,
                          setters: seq<Setter>, k: nat, row: Fields, proposed: Fields, plus: (Value, Value) -> Value)
    requires k < |setters| && forall j | k < j < |setters| :: setters[j].column != setters[k].column
    ensures var u, c := RunOptions(map[], columns, mutations, options + [ConflictOption.Update(setters)]), setters[k].column;
            var after := Resolve(u, row, proposed, plus);
            match setters[k].assignment
            case ToValue(v) => c in after && after[c] == v
            case ToNull => c !in after
            case Plus(v) => c in after && after[c] == plus(if c in row then row[c] else VInt(0), v)
            case Excluded => Stored(after, c) == Stored(proposed, c)
            case Itself => Stored(after, c) == Stored(row, c)
  {
    var c := setters[k].column;
    RunOptionsLast(columns, mutations, options, ConflictOption.Update(setters));
    RunSettersLast(RunOptions(map[], columns, mutations, options), setters, k);
    ResolvedIsStored(RunOptions(map[], columns, mutations, options + [ConflictOption.Update(setters)]), row, proposed, plus, c);
  }

  /** Columns it has no setter for are left to the options before it. */
  lemma {:induction false} OthersKeepWhatTheyHad(columns: seq<Column>, mutations: seq<Fields>,
                                                 options: seq<ConflictOption>,
                              setters: seq<Setter>, c: Column, row: Fields, proposed: Fields, plus: (Value, Value) -> Value)
    requires forall s | s in setters :: s.column != c
    ensures var u := RunOptions(map[], columns, mutations, options);
            var u' := RunOptions(map[], columns, mutations, options + [ConflictOption.Update(setters)]);
            Stored(Resolve(u', row, proposed, plus), c) == Stored(Resolve(u, row, proposed, plus), c)
    ensures options == [] ==>
              Stored(Resolve(RunOptions(map[], columns, mutations, options), row, proposed, plus), c) == Stored(row, c)
  {
    var u := RunOptions(map[], columns, mutations, options);
    RunOptionsLast(columns, mutations, options, ConflictOption.Update(setters));
    RunSettersElsewhere(u, setters, c);
    ResolvedIsStored(u, row, proposed, plus, c);
    ResolvedIsStored(RunSetters(u, setters), row, proposed, plus, c);
  }

  /** After `Ignore`, whatever was configured before, an inserted column keeps the existing value. */
  lemma {:induction false} IgnoreKeepsTheRow(columns: seq<Column>, mutations: seq<Fields>,
                                             options: seq<ConflictOption>, c: Column,
                          row: Fields, proposed: Fields, plus: (Value, Value) -> Value)
    requires c in columns
    ensures var u := RunOptions(map[], columns, mutations, options + [ResolveWithIgnore]);
            Stored(Resolve(u, row, proposed, plus), c) == Stored(row, c)
  {
    RunOptionsLast(columns, mutations, options, ResolveWithIgnore);
    SetAllMeaning(RunOptions(map[], columns, mutations, options), columns, Itself, c);
    ResolvedIsStored(RunOptions(map[], columns, mutations, options + [ResolveWithIgnore]), row, proposed, plus, c);
  }

  // ----- the builders ---------------------------------------------------------------------

  /** The conflict part of `AccountUpsertOne` (one builder) and `AccountUpsertBulk` (any number). */
  class AccountUpsert {
    const builders: seq<nat>
    var conflict: seq<ConflictOption>

    constructor (builders: seq<nat>, options: seq<ConflictOption>)
      ensures this.builders == builders && conflict == options
    {
      this.builders := builders;
      conflict := options;
    }

    /** Whatever was configured before, from here on the creation time of existing rows is protected. */
    method UpdateNewValues()
      modifies this
      ensures conflict == old(conflict) + [ResolveWithNewValues, KeepCreatedAt(builders)]
      ensures Protected(conflict, builders) && (ApiOptions(old(conflict)) ==> ApiOptions(conflict))
    {
      ghost var was := conflict;
      conflict := conflict + [ResolveWithNewValues];
      conflict := conflict + [KeepCreatedAt(builders)];
      assert conflict == was + [ResolveWithNewValues, KeepCreatedAt(builders)];
      ProtectedByPair(was, builders);
    }

    method Ignore()
      modifies this
      ensures conflict == old(conflict) + [ResolveWithIgnore]
      ensures ApiOptions(old(conflict)) ==> ApiOptions(conflict)
      ensures Protected(old(conflict), builders) ==> Protected(conflict, builders)
    {
      if Protected(conflict, builders) {
        ProtectedByOther(conflict, builders, ResolveWithIgnore);
      }
      conflict := conflict + [ResolveWithIgnore];
    }

    /** `Update`, and the single setters, which call it. */
    method Set(setters: seq<Setter>)
      requires forall s | s in setters :: ApiSetter(s)
      modifies this
      ensures conflict == old(conflict) + [ConflictOption.Update(setters)]
      ensures ApiOptions(old(conflict)) ==> ApiOptions(conflict)
      ensures Protected(old(conflict), builders) ==> Protected(conflict, builders)
    {
      if Protected(conflict, builders) {
        ProtectedByOther(conflict, builders, ConflictOption.Update(setters));
      }
      conflict := conflict + [ConflictOption.Update(setters)];
    }
  }
}
