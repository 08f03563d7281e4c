/** Column lists of projected queries, and what scanning a table row through them yields. */
module Projection {
  import opened Wrappers
  import opened AccountSchema
  import opened RowScan
  import EagerLoad
  import Q = AccountQueries

  // ----- reading a row --------------------------------------------------------------------

  /** The buffer of column `c` after the driver has scanned `row` into it; an absent column is NULL. */
  function CellFor(row: Fields, c: Column): Cell {
    var buffer := NewBuffer(c);
    if c !in row then buffer
    else match (buffer, row[c])
      case (NullInt64(_, _), VInt(n)) => NullInt64(n, true)
      case (NullFloat64(_, _), VFloat(r)) => NullFloat64(r, true)
      case (NullBool(_, _), VBool(b)) => NullBool(b, true)
      case (NullString(_, _), VString(s)) => NullString(s, true)
      case (NullTime(_, _), VTime(t)) => NullTime(t, true)
      case (Bytes(_), VJson(json)) => Bytes(if json.Some? then ObjectText(json.value) else NullText)
      case _ => buffer
  }

  function Cells(row: Fields, columns: seq<Column>): (r: seq<Cell>)
    ensures |r| == |columns| && forall i | 0 <= i < |columns| :: r[i] == CellFor(row, columns[i])
  {
    seq(|columns|, i requires 0 <= i < |columns| => CellFor(row, columns[i]))
  }

  lemma CellsFill(row: Fields, columns: seq<Column>)
    ensures Filled(columns, Cells(row, columns)) && Bytes(Malformed) !in Cells(row, columns)
  {
  }

  /** The account obtained by scanning `row` through a column list. */
  function ScanRow(row: Fields, columns: seq<Column>): Fields {
    var r := Assigned(map[], columns, Cells(row, columns));
    if r.Success? then r.value else map[]
  }

  /** A column the row lacks is skipped, but the id is taken even from a NULL. */
  lemma StepSkips(f: Fields, row: Fields, c: Column)
    requires c !in row && !c.Unknown?
    ensures AssignOne(f, c, CellFor(row, c)) == Success(if c == ID then f[ID := VInt(0)] else f)
  {
    BufferFits(c, NewBuffer(c));
  }

  lemma ScalarReads(f: Fields, row: Fields, c: Column)
    requires c in row && !c.Unknown? && HasKind(row[c], KindOf(c)) && !IsJson(c)
    ensures AssignOne(f, c, CellFor(row, c)) == Success(f[c := row[c]])
  {
    BufferFits(c, NewBuffer(c));
  }

  lemma JsonReads(f: Fields, row: Fields, c: Column)
    requires c in row && HasKind(row[c], KindOf(c)) && IsJson(c)
    requires c in f ==> f[c] == row[c]
    ensures AssignOne(f, c, CellFor(row, c)) == Success(f[c := row[c]])
  {
    if row[c].json.Some? {
      var m := row[c].json.value;
      assert m + m == m && map[] + m == m;
    }
  }

  lemma StepReads(f: Fields, row: Fields, c: Column)
    requires WellTyped(row) && !c.Unknown?
    requires c in f && IsJson(c) ==> c in row && f[c] == row[c]
    ensures AssignOne(f, c, CellFor(row, c)) ==
            Success(if c in row then f[c := row[c]] else if c == ID then f[ID := VInt(0)] else f)
  {
    if c !in row {
      StepSkips(f, row, c);
    } else if IsJson(c) {
      JsonReads(f, row, c);
    } else {
      ScalarReads(f, row, c);
    }
  }

  lemma CellFits(row: Fields, c: Column)
    ensures SameType(NewBuffer(c), CellFor(row, c))
  {
  }

  /** One column of the row scanned, seen from any column. */
  lemma ScanStep(f: Fields, row: Fields, last: Column, c: Column)
    requires WellTyped(row) && AssignOne(f, last, CellFor(row, last)).Success?
    requires c in f && IsJson(c) ==> c in row && f[c] == row[c]
    ensures var r := AssignOne(f, last, CellFor(row, last)).value;
            if last == c && !c.Unknown? then
              (if c in row then c in r && r[c] == row[c] else if c == ID then c in r && r[c] == VInt(0) else r == f)
            else (c in r <==> c in f) && (c in f ==> r[c] == f[c])
  {
    CellFits(row, last);
    BufferFits(last, CellFor(row, last));
    if last == c && !c.Unknown? {
      StepReads(f, row, c);
    } else {
      AssignOneEffect(f, last, CellFor(row, last));
      SeenFrom(f, AssignOne(f, last, CellFor(row, last)).value, last, CellFor(row, last), c);
    }
  }

  /**
   Scanning reads the row: for any column list, in any order, with repetitions and unknown names, a
   listed column gets the row's value, and every other field is left unset. Only the id is set to
   zero when the row has none.
   */
  lemma {:induction false} ScanReadsRow(row: Fields, columns: seq<Column>, c: Column)
    requires WellTyped(row)
    ensures Assigned(map[], columns, Cells(row, columns)) == Success(ScanRow(row, columns))
    ensures c in ScanRow(row, columns) <==> c in columns && (c in row || c == ID)
    ensures c in ScanRow(row, columns) ==>
              ScanRow(row, columns)[c] == if c in row then row[c] else VInt(0)
  {
    CellsFill(row, columns);
    BuffersFit(map[], columns, Cells(row, columns));
    if columns != [] {
      var n := |columns| - 1;
      var init, last := columns[..n], columns[n];
      ScanReadsRow(row, init, c);
      assert Cells(row, columns)[..n] == Cells(row, init);
      AssignedPrefix(map[], init, Cells(row, columns));
      ScanStep(ScanRow(row, init), row, last, c);
      assert columns == init + [last];
    }
  }

  // ----- the column list ------------------------------------------------------------------

  /** The selected columns other than the id, in order. */
  function WithoutID(fields: seq<Column>): (r: seq<Column>)
    ensures forall c :: c in r <==> c in fields && c != ID
  {
    if fields == [] then []
    else
      var n := |fields| - 1;
      WithoutID(fields[..n]) + (if fields[n] == ID then [] else [fields[n]])
  }

  function WithKeys(selected: seq<Column>, withProxy: bool, withParent: bool): (r: seq<Column>)
    ensures selected <= r
    ensures forall c :: c in r <==>
              c in selected || (withProxy && c == ProxyID) || (withParent && c == ParentAccountID)
  {
    var one := if withProxy then AddOnce(selected, ProxyID) else selected;
    if withParent then AddOnce(one, ParentAccountID) else one
  }

  /** The id, the other selected fields in order, then the foreign keys the eager loaders need. */
  function ProjectedColumns(fields: seq<Column>, withProxy: bool, withParent: bool): (r: seq<Column>)
    ensures r != [] && r[0] == ID
    ensures forall c :: c in r <==>
              c == ID || c in fields || (withProxy && c == ProxyID) || (withParent && c == ParentAccountID)
  {
    WithKeys([ID] + WithoutID(fields), withProxy, withParent)
  }

  /** The columns of `AccountQuery.querySpec`. */
  method QuerySpecColumns(fields: seq<Column>, withProxy: bool, withParent: bool) returns (columns: seq<Column>)
    ensures columns == if fields == [] then COLUMNS else ProjectedColumns(fields, withProxy, withParent)
  {
    columns := COLUMNS;
    if |fields| > 0 {
      columns := SelectedColumns(fields);
      if withProxy {
        columns := AddOnce(columns, ProxyID);
      }
      if withParent {
        columns := AddOnce(columns, ParentAccountID);
      }
    }
  }

  /** The loop that keeps the id first and drops further mentions of it. */
  method SelectedColumns(fields: seq<Column>) returns (columns: seq<Column>)
    ensures columns == [ID] + WithoutID(fields)
  {
    columns := [ID];
    for i := 0 to |fields|
      invariant columns == [ID] + WithoutID(fields[..i])
    {
      assert fields[..i + 1][..i] == fields[..i];
      if fields[i] != ID {
        columns := columns + [fields[i]];
      }
    }
    assert fields[..|fields|] == fields;
  }

  /** The columns a query scans: all of them, or the projected ones. */
  function ScanColumns(fields: seq<Column>, withProxy: bool, withParent: bool): seq<Column> {
    if fields == [] then COLUMNS else ProjectedColumns(fields, withProxy, withParent)
  }

  // ----- projection and eager loading -----------------------------------------------------

  function IntOf(f: Fields, c: Column): Option<int> {
    if c in f && f[c].VInt? then Some(f[c].n) else None
  }

  /** What the loaders see of a scanned account. */
  function Keys(f: Fields): Q.AccountRow {
    Q.AccountRow(IntOf(f, ID).GetOr(0), IntOf(f, ProxyID), IntOf(f, ParentAccountID))
  }

  function Scanned(table: seq<Fields>, columns: seq<Column>): (r: seq<Q.AccountRow>)
    ensures |r| == |table| && forall i | 0 <= i < |table| :: r[i] == Keys(ScanRow(table[i], columns))
  {
    seq(|table|, i requires 0 <= i < |table| => Keys(ScanRow(table[i], columns)))
  }

  lemma KeyColumnsListed()
    ensures ID in COLUMNS && ProxyID in COLUMNS && ParentAccountID in COLUMNS
  {
    assert COLUMNS[0] == ID && COLUMNS[10] == ProxyID && COLUMNS[30] == ParentAccountID;
  }

  lemma KeysSurvive(row: Fields, fields: seq<Column>, withProxy: bool, withParent: bool)
    requires WellTyped(row)
    ensures var k, all := Keys(ScanRow(row, ScanColumns(fields, withProxy, withParent))), Keys(row);
            && k.id == all.id
            && (withProxy ==> k.proxyID == all.proxyID)
            && (withParent ==> k.parentID == all.parentID)
  {
    var columns := ScanColumns(fields, withProxy, withParent);
    KeyColumnsListed();
    ScanReadsRow(row, columns, ID);
    ScanReadsRow(row, columns, ProxyID);
    ScanReadsRow(row, columns, ParentAccountID);
  }

  ghost predicate SameKeys(q: Q.AccountQuery, a: seq<Q.AccountRow>, b: seq<Q.AccountRow>) {
    && |a| == |b|
    && (forall j | 0 <= j < |a| :: a[j].id == b[j].id)
    && (q.withProxy.Some? ==> forall j | 0 <= j < |a| :: a[j].proxyID == b[j].proxyID)
    && (q.withParent.Some? ==> forall j | 0 <= j < |a| :: a[j].parentID == b[j].parentID)
  }

  lemma SameKeysSameEdges(q: Q.AccountQuery, a: seq<Q.AccountRow>, b: seq<Q.AccountRow>, i: nat)
    requires SameKeys(q, a, b) && i < |a|
    ensures Q.EdgesOf(q, a, i) == Q.EdgesOf(q, b, i)
  {
    assert EagerLoad.Ids(a, Q.AccountID) == EagerLoad.Ids(b, Q.AccountID);
    Q.SameTargets(q.withProxy, a, b, Q.ProxyFK, Q.ProxyIDOf);
    Q.SameTargets(q.withParent, a, b, Q.ParentFK, Q.AccountID);
  }

  lemma SameKeysSameFaults(q: Q.AccountQuery, a: seq<Q.AccountRow>, b: seq<Q.AccountRow>)
    requires SameKeys(q, a, b)
    ensures Q.LoadFault(q, a) == Q.LoadFault(q, b)
  {
    assert EagerLoad.Ids(a, Q.AccountID) == EagerLoad.Ids(b, Q.AccountID);
    Q.SameTargets(q.withProxy, a, b, Q.ProxyFK, Q.ProxyIDOf);
    Q.SameTargets(q.withParent, a, b, Q.ParentFK, Q.AccountID);
  }

  /**
   Projection does not interfere with eager loading: for every list of selected fields, the edges of
   every node are those loaded when all columns are scanned, and so are the loaders' errors.
   */
  lemma ProjectionKeepsEdges(q: Q.AccountQuery, table: seq<Fields>, fields: seq<Column>, i: nat)
    requires forall row | row in table :: WellTyped(row)
    requires i < |table|
    ensures var some := Scanned(table, ScanColumns(fields, q.withProxy.Some?, q.withParent.Some?));
            var all := Scanned(table, COLUMNS);
            && Q.EdgesOf(q, some, i) == Q.EdgesOf(q, all, i)
            && Q.LoadFault(q, some) == Q.LoadFault(q, all)
  {
    var some := Scanned(table, ScanColumns(fields, q.withProxy.Some?, q.withParent.Some?));
    var all := Scanned(table, COLUMNS);
    forall j | 0 <= j < |table|
      ensures some[j].id == all[j].id
      ensures q.withProxy.Some? ==> some[j].proxyID == all[j].proxyID
      ensures q.withParent.Some? ==> some[j].parentID == all[j].parentID
    {
      KeysSurvive(table[j], fields, q.withProxy.Some?, q.withParent.Some?);
      KeysSurvive(table[j], [], q.withProxy.Some?, q.withParent.Some?);
    }
    SameKeysSameEdges(q, some, all, i);
    SameKeysSameFaults(q, some, all);
  }

  // ----- projected children ---------------------------------------------------------------

  /** `AppendFieldOnce` on the child query, which selects everything when it has no fields. */
  function ChildFields(fields: seq<Column>): seq<Column> {
    if fields == [] then [] else AddOnce(fields, ParentAccountID)
  }

  lemma IdsOfLast(a: seq<Q.AccountRow>, key: Option<int>)
    requires a != []
    ensures EagerLoad.Ids(Q.Referring(a, Q.ParentFK, key), Q.AccountID) ==
            EagerLoad.Ids(Q.Referring(a[..|a| - 1], Q.ParentFK, key), Q.AccountID) +
            if Q.RefersTo(Q.ParentFK, key)(a[|a| - 1]) then [a[|a| - 1].id] else []
  {
  }

  lemma {:induction false} SameIdsAfterFilter(a: seq<Q.AccountRow>, b: seq<Q.AccountRow>, key: Option<int>)
    requires |a| == |b| && forall i | 0 <= i < |a| :: a[i].id == b[i].id && a[i].parentID == b[i].parentID
    ensures EagerLoad.Ids(Q.Referring(a, Q.ParentFK, key), Q.AccountID) ==
            EagerLoad.Ids(Q.Referring(b, Q.ParentFK, key), Q.AccountID)
  {
    if a != [] {
      var n := |a| - 1;
      SameIdsAfterFilter(a[..n], b[..n], key);
      assert Q.ParentFK(a[n]) == Q.ParentFK(b[n]);
      assert Q.RefersTo(Q.ParentFK, key)(a[n]) <==> Q.RefersTo(Q.ParentFK, key)(b[n]);
      IdsOfLast(a, key);
      IdsOfLast(b, key);
    }
  }

  /**
   Projecting the child query does not change which children a node gets, nor their order: the
   loader has added the foreign key to the child query's fields.
   */
  lemma ProjectedChildren(table: seq<Fields>, fields: seq<Column>, key: Option<int>)
    requires forall row | row in table :: WellTyped(row)
    ensures var some := Scanned(table, ScanColumns(ChildFields(fields), false, false));
            EagerLoad.Ids(Q.Referring(some, Q.ParentFK, key), Q.AccountID) ==
            EagerLoad.Ids(Q.Referring(Scanned(table, COLUMNS), Q.ParentFK, key), Q.AccountID)
  {
    var columns := ScanColumns(ChildFields(fields), false, false);
    var some, all := Scanned(table, columns), Scanned(table, COLUMNS);
    KeyColumnsListed();
    forall i | 0 <= i < |table| ensures some[i].id == all[i].id && some[i].parentID == all[i].parentID {
      ScanReadsRow(table[i], columns, ID);
      ScanReadsRow(table[i], columns, ParentAccountID);
      KeysSurvive(table[i], [], true, true);
    }
    SameIdsAfterFilter(some, all, key);
  }
}
