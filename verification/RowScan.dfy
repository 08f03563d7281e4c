/** Scanning database rows into accounts: the buffers allocated per column and their assignment. */
module RowScan {
  import opened Wrappers
  import opened AccountSchema

  // ----- buffers --------------------------------------------------------------------------

  /** The bytes of a JSON column as `json.Unmarshal` into a string-keyed map sees them. */
  datatype JsonText = EmptyText | NullText | ObjectText(entries: map<string, string>) | Malformed

  datatype Cell =
    | Bytes(text: JsonText)
    | NullBool(b: bool, valid: bool)
    | NullFloat64(f: real, valid: bool)
    | NullInt64(i: int, valid: bool)
    | NullString(s: string, valid: bool)
    | NullTime(t: int, valid: bool)
    | UnknownType(raw: Option<Value>)

  datatype ScanError =
    | LengthMismatch
    | UnexpectedType(column: Column)
    | UnmarshalError(column: Column)

  /** The buffer `scanValues` allocates for a column. */
  function NewBuffer(c: Column): Cell {
    match c
    case Credentials | Extra => Bytes(EmptyText)
    case AutoPauseOnExpired | Schedulable => NullBool(false, false)
    case RateMultiplier => NullFloat64(0.0, false)
    case ID | ProxyID | ProxyFallbackOriginID | Concurrency | LoadFactor | Priority | ParentAccountID =>
      NullInt64(0, false)
    case Name | Notes | Platform | Type | Status | ErrorMessage | TempUnschedulableReason
       | SessionWindowStatus | QuotaDimension => NullString("", false)
    case CreatedAt | UpdatedAt | DeletedAt | LastUsedAt | ExpiresAt | RateLimitedAt | RateLimitResetAt
       | OverloadUntil | TempUnschedulableUntil | SessionWindowStart | SessionWindowEnd => NullTime(0, false)
    case Unknown(_) => UnknownType(None)
  }

  method ScanValues(columns: seq<Column>) returns (values: array<Cell>)
    ensures fresh(values) && values.Length == |columns|
    ensures forall i | 0 <= i < |columns| :: values[i] == NewBuffer(columns[i])
  {
    values := new Cell[|columns|](_ => UnknownType(None));
    for i := 0 to |columns|
      invariant forall j | 0 <= j < i :: values[j] == NewBuffer(columns[j])
    {
      values[i] := NewBuffer(columns[i]);
    }
  }

  predicate SameType(a: Cell, b: Cell) {
    match a
    case Bytes(_) => b.Bytes?
    case NullBool(_, _) => b.NullBool?
    case NullFloat64(_, _) => b.NullFloat64?
    case NullInt64(_, _) => b.NullInt64?
    case NullString(_, _) => b.NullString?
    case NullTime(_, _) => b.NullTime?
    case UnknownType(_) => b.UnknownType?
  }

  /** The driver writes through the buffers, so it cannot change their number or types. */
  ghost predicate Filled(columns: seq<Column>, values: seq<Cell>) {
    |values| == |columns| && forall i | 0 <= i < |columns| :: SameType(NewBuffer(columns[i]), values[i])
  }

  // ----- assignment -----------------------------------------------------------------------

  /** `json.Unmarshal` into a map field: null resets it, an object is merged into what is there. */
  function Unmarshal(was: JsonMap, text: JsonText): Option<JsonMap>
    requires !text.EmptyText?
  {
    match text
    case NullText => Some(None)
    case ObjectText(m) => Some(Some((if was.Some? then was.value else map[]) + m))
    case Malformed => None
  }

  function OldJson(f: Fields, c: Column): JsonMap {
    if c in f && f[c].VJson? then f[c].json else None
  }

  type Assignment = Result<Fields, ScanError>

  function SetIf(f: Fields, c: Column, valid: bool, v: Value): Assignment {
    Success(if valid then f[c := v] else f)
  }

  function AssignTime(f: Fields, c: Column, cell: Cell): Assignment {
    if cell.NullTime? then SetIf(f, c, cell.valid, VTime(cell.t)) else Failure(UnexpectedType(c))
  }

  function AssignString(f: Fields, c: Column, cell: Cell): Assignment {
    if cell.NullString? then SetIf(f, c, cell.valid, VString(cell.s)) else Failure(UnexpectedType(c))
  }

  function AssignInt(f: Fields, c: Column, cell: Cell): Assignment {
    if cell.NullInt64? then SetIf(f, c, cell.valid, VInt(cell.i)) else Failure(UnexpectedType(c))
  }

  function AssignJson(f: Fields, c: Column, cell: Cell): Assignment {
    if !cell.Bytes? then Failure(UnexpectedType(c))
    else if cell.text.EmptyText? then Success(f)
    else
      var m := Unmarshal(OldJson(f, c), cell.text);
      if m.None? then Failure(UnmarshalError(c)) else Success(f[c := VJson(m.value)])
  }

  /** One turn of the `assignValues` switch: each case takes the value its field's Go type asks for. */
  function AssignOne(f: Fields, c: Column, cell: Cell): Assignment {
    if c.Unknown? then Success(f)
    else match KindOf(c)
      case KTime => AssignTime(f, c, cell)
      case KString => AssignString(f, c, cell)
      case KJson => AssignJson(f, c, cell)
      case KFloat =>
        if cell.NullFloat64? then SetIf(f, c, cell.valid, VFloat(cell.f)) else Failure(UnexpectedType(c))
      case KBool =>
        if cell.NullBool? then SetIf(f, c, cell.valid, VBool(cell.b)) else Failure(UnexpectedType(c))
      case KInt =>
        // The id is taken even from a NULL.
        if c == ID && cell.NullInt64? then Success(f[c := VInt(cell.i)]) else AssignInt(f, c, cell)
  }

  /** The fields after the columns have been assigned in order, or the first error. */
  function Assigned(f: Fields, columns: seq<Column>, values: seq<Cell>): Result<Fields, ScanError>
    requires |columns| <= |values|
  {
    if columns == [] then Success(f)
    else
      var n := |columns| - 1;
      var init := Assigned(f, columns[..n], values);
      if init.Failure? then init else AssignOne(init.value, columns[n], values[n])
  }

  /** The values kept for columns the account does not know, by name. */
  function Selected(was: map<string, Cell>, columns: seq<Column>, values: seq<Cell>): map<string, Cell>
    requires |columns| <= |values|
  {
    if columns == [] then was
    else
      var n := |columns| - 1;
      var init := Selected(was, columns[..n], values);
      if columns[n].Unknown? then init[columns[n].name := values[n]] else init
  }

  class Account {
    var fields: Fields
    var selectValues: map<string, Cell>

    constructor ()
      ensures fields == map[] && selectValues == map[]
    {
      fields, selectValues := map[], map[];
    }

    method AssignValues(columns: seq<Column>, values: seq<Cell>) returns (err: Option<ScanError>)
      modifies this
      ensures |values| < |columns| ==>
                err == Some(LengthMismatch) && fields == old(fields) && selectValues == old(selectValues)
      ensures |values| >= |columns| ==>
                match Assigned(old(fields), columns, values)
                case Success(f) =>
                  err == None && fields == f && selectValues == Selected(old(selectValues), columns, values)
                case Failure(e) =>
                  // Everything before the offending column stays assigned.
                  && err == Some(e)
                  && exists i | 0 <= i < |columns| ::
                       && Assigned(old(fields), columns[..i], values) == Success(fields)
                       && AssignOne(fields, columns[i], values[i]) == Failure(e)
                       && selectValues == Selected(old(selectValues), columns[..i], values)
    {
      if |values| < |columns| {
        return Some(LengthMismatch);
      }
      for i := 0 to |columns|
        invariant Assigned(old(fields), columns[..i], values) == Success(fields)
        invariant selectValues == Selected(old(selectValues), columns[..i], values)
      {
        assert columns[..i + 1][..i] == columns[..i];
        match AssignOne(fields, columns[i], values[i])
        case Failure(e) =>
          FailurePersists(old(fields), columns, values, i + 1);
          return Some(e);
        case Success(f) =>
          fields := f;
          if columns[i].Unknown? {
            selectValues := selectValues[columns[i].name := values[i]];
          }
      }
      assert columns[..|columns|] == columns;
      return None;
    }
  }

  lemma {:induction false} FailurePersists(f: Fields, columns: seq<Column>, values: seq<Cell>, i: nat)
    requires i <= |columns| <= |values| && Assigned(f, columns[..i], values).Failure?
    ensures Assigned(f, columns, values) == Assigned(f, columns[..i], values)
  {
    if i < |columns| {
      var init := columns[..|columns| - 1];
      assert init[..i] == columns[..i];
      FailurePersists(f, init, values, i);
      assert Assigned(f, init, values).Failure?;
    } else {
      assert columns[..i] == columns;
    }
  }

  lemma {:induction false} LastUnknownDecides(was: map<string, Cell>, columns: seq<Column>, values: seq<Cell>,
                                              name: string)
    requires |columns| <= |values|
    ensures var kept, k := Selected(was, columns, values), LastAt(columns, Unknown(name));
            if k >= 0 then name in kept && kept[name] == values[k]
            else (name in kept <==> name in was) && (name in was ==> kept[name] == was[name])
  {
    if columns != [] {
      LastUnknownDecides(was, columns[..|columns| - 1], values, name);
    }
  }

  // ----- buffers always fit ---------------------------------------------------------------

  /** The buffer type the case of a field of this Go type asks for. */
  predicate Fits(cell: Cell, k: Kind) {
    match k
    case KInt => cell.NullInt64?
    case KFloat => cell.NullFloat64?
    case KBool => cell.NullBool?
    case KString => cell.NullString?
    case KTime => cell.NullTime?
    case KJson => cell.Bytes?
  }

  lemma BufferFits(c: Column, cell: Cell)
    requires SameType(NewBuffer(c), cell)
    ensures c.Unknown? || Fits(cell, KindOf(c))
  {
  }

  /** The switches of `scanValues` and `assignValues` agree on every column. */
  /** A buffer of another column's type is refused, for every column the account knows. */
  lemma OtherBufferRefusedIff(f: Fields, c: Column, cell: Cell)
    ensures AssignOne(f, c, cell) == Failure(UnexpectedType(c)) <==> !c.Unknown? && !SameType(NewBuffer(c), cell)
  {
    if !c.Unknown? {
      FitsIff(c, cell);
    }
  }

  lemma FitsIff(c: Column, cell: Cell)
    requires !c.Unknown?
    ensures Fits(cell, KindOf(c)) <==> SameType(NewBuffer(c), cell)
  {
  }

  lemma BufferTypeAccepted(f: Fields, c: Column, cell: Cell)
    requires SameType(NewBuffer(c), cell)
    ensures AssignOne(f, c, cell).Failure? <==> cell == Bytes(Malformed)
    ensures AssignOne(f, c, cell).Failure? ==> AssignOne(f, c, cell).error == UnmarshalError(c)
  {
    BufferFits(c, cell);
  }

  /**
   For every column list, in any order, with repetitions and unknown names: buffers allocated for
   that list never fail on type or length, and assignment fails only on malformed JSON.
   */
  lemma {:induction false} BuffersFit(f: Fields, columns: seq<Column>, values: seq<Cell>)
    requires Filled(columns, values)
    ensures Assigned(f, columns, values).Failure? <==> Bytes(Malformed) in values
    ensures Assigned(f, columns, values).Failure? ==> Assigned(f, columns, values).error.UnmarshalError?
  {
    if columns != [] {
      var n := |columns| - 1;
      BuffersFit(f, columns[..n], values[..n]);
      AssignedPrefix(f, columns[..n], values);
      assert values == values[..n] + [values[n]];
      var init := Assigned(f, columns[..n], values);
      if init.Success? {
        BufferTypeAccepted(init.value, columns[n], values[n]);
      }
    }
  }

  lemma {:induction false} AssignedPrefix(f: Fields, columns: seq<Column>, values: seq<Cell>)
    requires |columns| <= |values|
    ensures Assigned(f, columns, values[..|columns|]) == Assigned(f, columns, values)
  {
    if columns != [] {
      var n := |columns| - 1;
      AssignedPrefix(f, columns[..n], values);
      AssignedPrefix(f, columns[..n], values[..|columns|]);
      assert values[..|columns|][..n] == values[..n];
    }
  }

  // ----- which occurrence decides ---------------------------------------------------------

  predicate IsJson(c: Column) { KindOf(c) == KJson }

  /** Whether a buffer carries a value to assign. The id is taken even from a NULL. */
  predicate Carries(c: Column, cell: Cell) {
    match cell
    case Bytes(text) => !text.EmptyText?
    case NullBool(_, valid) => valid
    case NullFloat64(_, valid) => valid
    case NullInt64(_, valid) => valid || c == ID
    case NullString(_, valid) => valid
    case NullTime(_, valid) => valid
    case UnknownType(_) => false
  }

  /** The value in a non-JSON buffer. */
  function CellValue(cell: Cell): Value {
    match cell
    case NullBool(b, _) => VBool(b)
    case NullFloat64(r, _) => VFloat(r)
    case NullInt64(i, _) => VInt(i)
    case NullString(s, _) => VString(s)
    case NullTime(t, _) => VTime(t)
    case Bytes(_) | UnknownType(_) => VJson(None)
  }

  /** The last occurrence of column `c` that carries a value, or -1. */
  function LastCarrying(columns: seq<Column>, values: seq<Cell>, c: Column): (k: int)
    requires |columns| <= |values|
    ensures -1 <= k < |columns|
    ensures k >= 0 ==> columns[k] == c && Carries(c, values[k])
    ensures forall j | k < j < |columns| && columns[j] == c :: !Carries(c, values[j])
  {
    if columns == [] then -1
    else
      var n := |columns| - 1;
      if columns[n] == c && Carries(c, values[n]) then n else LastCarrying(columns[..n], values, c)
  }

  lemma ScalarAssigned(f: Fields, c: Column, cell: Cell)
    requires Fits(cell, KindOf(c)) && !IsJson(c) && !c.Unknown?
    ensures AssignOne(f, c, cell) == Success(if Carries(c, cell) then f[c := CellValue(cell)] else f)
  {
  }

  lemma JsonAssigned(f: Fields, c: Column, cell: Cell)
    requires cell.Bytes? && IsJson(c) && !c.Unknown? && AssignOne(f, c, cell).Success?
    ensures var r := AssignOne(f, c, cell).value;
            if Carries(c, cell) then c in r && r == f[c := r[c]] else r == f
  {
  }

  /** `r` is `f` after buffer `cell` of column `c`: only that column may change, and only if the buffer carries a value. */
  predicate AfterCell(f: Fields, r: Fields, c: Column, cell: Cell) {
    if c.Unknown? || !Carries(c, cell) then r == f
    else c in r && r == f[c := r[c]] && (!IsJson(c) ==> r[c] == CellValue(cell))
  }

  lemma AssignOneEffect(f: Fields, c: Column, cell: Cell)
    requires (c.Unknown? || Fits(cell, KindOf(c))) && AssignOne(f, c, cell).Success?
    ensures AfterCell(f, AssignOne(f, c, cell).value, c, cell)
  {
    if !c.Unknown? {
      if IsJson(c) {
        JsonAssigned(f, c, cell);
      } else {
        ScalarAssigned(f, c, cell);
      }
    }
  }

  /** One assignment, seen from any column. */
  lemma SeenFrom(f: Fields, r: Fields, column: Column, cell: Cell, c: Column)
    requires AfterCell(f, r, column, cell)
    ensures if column == c && Carries(c, cell) && !c.Unknown?
            then c in r && (!IsJson(c) ==> r[c] == CellValue(cell))
            else (c in r <==> c in f) && (c in f ==> r[c] == f[c])
  {
  }

  /** A scalar field holds the value of its last non-NULL occurrence, or keeps what it had. */
  lemma {:induction false} LastOccurrenceDecides(f: Fields, columns: seq<Column>, values: seq<Cell>, c: Column)
    requires Filled(columns, values) && Assigned(f, columns, values).Success? && !IsJson(c) && !c.Unknown?
    ensures var r, k := Assigned(f, columns, values).value, LastCarrying(columns, values, c);
            if k >= 0 then c in r && r[c] == CellValue(values[k])
            else (c in r <==> c in f) && (c in f ==> r[c] == f[c])
  {
    if columns != [] {
      var n := |columns| - 1;
      AssignedPrefix(f, columns[..n], values);
      LastOccurrenceDecides(f, columns[..n], values[..n], c);
      CarryingPrefix(columns[..n], values, c);
      BufferFits(columns[n], values[n]);
      AssignOneEffect(Assigned(f, columns[..n], values).value, columns[n], values[n]);
      SeenFrom(Assigned(f, columns[..n], values).value, Assigned(f, columns, values).value, columns[n], values[n], c);
    }
  }

  lemma {:induction false} CarryingPrefix(columns: seq<Column>, values: seq<Cell>, c: Column)
    requires |columns| <= |values|
    ensures LastCarrying(columns, values[..|columns|], c) == LastCarrying(columns, values, c)
  {
    if columns != [] {
      var n := |columns| - 1;
      CarryingPrefix(columns[..n], values, c);
      CarryingPrefix(columns[..n], values[..|columns|], c);
      assert values[..|columns|][..n] == values[..n];
    }
  }

  /** The map a text denotes by itself. */
  function Decoded(text: JsonText): JsonMap {
    if text.ObjectText? then Some(text.entries) else None
  }

  function KeysOf(json: JsonMap): set<string> {
    if json.Some? then json.value.Keys else {}
  }

  /** The keys the buffers of column `c` have brought together: objects add theirs, a null drops all. */
  function Gathered(start: set<string>, columns: seq<Column>, values: seq<Cell>, c: Column): set<string>
    requires |columns| <= |values|
  {
    if columns == [] then start
    else
      var n := |columns| - 1;
      var before := Gathered(start, columns[..n], values, c);
      if columns[n] != c || !values[n].Bytes? then before
      else match values[n].text
        case NullText => {}
        case ObjectText(m) => before + m.Keys
        case EmptyText | Malformed => before
  }

  lemma {:induction false} GatheredIsHeld(f: Fields, columns: seq<Column>, values: seq<Cell>, c: Column)
    requires |columns| <= |values| && Assigned(f, columns, values).Success? && IsJson(c)
    requires forall j | 0 <= j < |columns| :: SameType(NewBuffer(columns[j]), values[j])
    ensures KeysOf(OldJson(Assigned(f, columns, values).value, c)) == Gathered(KeysOf(OldJson(f, c)), columns, values, c)
  {
    if columns != [] {
      var n := |columns| - 1;
      GatheredIsHeld(f, columns[..n], values, c);
      BufferFits(columns[n], values[n]);
      AssignOneEffect(Assigned(f, columns[..n], values).value, columns[n], values[n]);
      SeenFrom(Assigned(f, columns[..n], values).value, Assigned(f, columns, values).value, columns[n], values[n], c);
    }
  }

  /**
   A JSON field is different: an object is merged into the map left by earlier buffers. So its last
   occurrence alone decides exactly when it is null or has every key gathered before it.
   */
  lemma {:induction false} JsonLastOccurrenceDecidesIff(f: Fields, columns: seq<Column>, values: seq<Cell>, c: Column)
    requires Filled(columns, values) && Assigned(f, columns, values).Success? && IsJson(c)
    requires LastCarrying(columns, values, c) >= 0
    ensures var k := LastCarrying(columns, values, c);
            OldJson(Assigned(f, columns, values).value, c) == Decoded(values[k].text) <==>
            (values[k].text.ObjectText? ==>
               Gathered(KeysOf(OldJson(f, c)), columns[..k], values, c) <= values[k].text.entries.Keys)
  {
    var k := LastCarrying(columns, values, c);
    assert columns[..k + 1][..k] == columns[..k];
    SuccessPrefix(f, columns, values, k + 1);
    SuccessPrefix(f, columns[..k + 1], values, k);
    JsonKept(f, columns, values, c, k + 1);
    GatheredIsHeld(f, columns[..k], values, c);
    var was := OldJson(Assigned(f, columns[..k], values).value, c);
    assert AssignOne(Assigned(f, columns[..k], values).value, c, values[k]).Success?;
    if values[k].text.ObjectText? {
      MergedIff(was, values[k].text.entries);
    }
  }

  lemma MergedIff(was: JsonMap, m: map<string, string>)
    ensures (if was.Some? then was.value else map[]) + m == m <==> KeysOf(was) <= m.Keys
  {
    var before := if was.Some? then was.value else map[];
    if before + m == m {
      assert before.Keys <= (before + m).Keys;
    }
  }

  lemma {:induction false} SuccessPrefix(f: Fields, columns: seq<Column>, values: seq<Cell>, i: nat)
    requires i <= |columns| <= |values| && Assigned(f, columns, values).Success?
    ensures Assigned(f, columns[..i], values).Success?
  {
    if Assigned(f, columns[..i], values).Failure? {
      FailurePersists(f, columns, values, i);
    }
  }

  lemma {:induction false} JsonKept(f: Fields, columns: seq<Column>, values: seq<Cell>, c: Column, i: nat)
    requires i <= |columns| <= |values| && Assigned(f, columns, values).Success? && IsJson(c)
    requires forall j | i <= j < |columns| :: SameType(NewBuffer(columns[j]), values[j])
    requires forall j | i <= j < |columns| && columns[j] == c :: !Carries(c, values[j])
    ensures Assigned(f, columns[..i], values).Success?
    ensures OldJson(Assigned(f, columns, values).value, c) == OldJson(Assigned(f, columns[..i], values).value, c)
  {
    if i < |columns| {
      var n := |columns| - 1;
      assert columns[..n][..i] == columns[..i];
      JsonKept(f, columns[..n], values, c, i);
      BufferFits(columns[n], values[n]);
      AssignOneEffect(Assigned(f, columns[..n], values).value, columns[n], values[n]);
      SeenFrom(Assigned(f, columns[..n], values).value, Assigned(f, columns, values).value, columns[n], values[n], c);
    } else {
      assert columns[..i] == columns;
    }
  }

  /** Two buffers of one JSON column, with any two objects: both are merged, the later winning key by key. */
  lemma RepeatedJsonMerges(c: Column, x: map<string, string>, y: map<string, string>)
    requires IsJson(c)
    ensures var columns, values := [c, c], [Bytes(ObjectText(x)), Bytes(ObjectText(y))];
            Filled(columns, values) && Assigned(map[], columns, values) == Success(map[c := VJson(Some(x + y))])
  {
    var columns, values := [c, c], [Bytes(ObjectText(x)), Bytes(ObjectText(y))];
    assert columns[..1] == [c] && columns[..1][..0] == [];
    assert map[] + x == x;
    assert Assigned(map[], columns[..1], values) == Success(map[c := VJson(Some(x))]);
    assert map[c := VJson(Some(x))][c := VJson(Some(x + y))] == map[c := VJson(Some(x + y))];
  }
}
