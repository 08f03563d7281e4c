/**
 Projected queries of the account-group table, which has no id column of its own: the foreign keys
 are columns like any other and survive only because the loaders ask for them.
 */
module ThroughProjection {
  import opened Wrappers
  import opened EagerLoad
  import opened AccountQueries
  import opened EagerJoin
  import RowScan

  type Cell = RowScan.Cell

  datatype Column = AccountIDColumn | GroupIDColumn | PriorityColumn | CreatedAtColumn | OtherColumn(name: string)

  const COLUMNS: seq<Column> := [AccountIDColumn, GroupIDColumn, PriorityColumn, CreatedAtColumn]

  // ----- scanning -------------------------------------------------------------------------

  /** The buffer `scanValues` allocates for a column. */
  function NewBuffer(c: Column): Cell {
    match c
    case AccountIDColumn | GroupIDColumn | PriorityColumn => RowScan.NullInt64(0, false)
    case CreatedAtColumn => RowScan.NullTime(0, false)
    case OtherColumn(_) => RowScan.UnknownType(None)
  }

  method ScanValues(columns: seq<Column>) returns (values: array<Cell>)
    ensures fresh(values) && values.Length == |columns|
    ensures forall i | 0 <= i < |columns| :: values[i] == NewBuffer(columns[i])
  {
    values := new Cell[|columns|](_ => RowScan.UnknownType(None));
    for i := 0 to |columns|
      invariant forall j | 0 <= j < i :: values[j] == NewBuffer(columns[j])
    {
      values[i] := NewBuffer(columns[i]);
    }
  }

  datatype ScanError = LengthMismatch | UnexpectedType(column: Column)

  /** One turn of the `assignValues` switch: a NULL leaves the field as it was. */
  function AssignOne(node: AccountGroupRow, c: Column, cell: Cell): Result<AccountGroupRow, ScanError> {
    match c
    case AccountIDColumn =>
      if !cell.NullInt64? then Failure(UnexpectedType(c))
      else Success(if cell.valid then node.(accountID := cell.i) else node)
    case GroupIDColumn =>
      if !cell.NullInt64? then Failure(UnexpectedType(c))
      else Success(if cell.valid then node.(groupID := cell.i) else node)
    case PriorityColumn =>
      if !cell.NullInt64? then Failure(UnexpectedType(c))
      else Success(if cell.valid then node.(priority := cell.i) else node)
    case CreatedAtColumn =>
      if !cell.NullTime? then Failure(UnexpectedType(c))
      else Success(if cell.valid then node.(createdAt := cell.t) else node)
    case OtherColumn(_) => Success(node)
  }

  function Assigned(node: AccountGroupRow, columns: seq<Column>, values: seq<Cell>): Result<AccountGroupRow, ScanError>
    requires |columns| <= |values|
  {
    if columns == [] then Success(node)
    else
      var n := |columns| - 1;
      var init := Assigned(node, columns[..n], values);
      if init.Failure? then init else AssignOne(init.value, columns[n], values[n])
  }

  /** The values kept for columns the row does not know, by name. */
  function Selected(was: map<string, Cell>, columns: seq<Column>, values: seq<Cell>): map<string, Cell>
    requires |columns| <= |values|
  {
    if columns == [] then was
    else
      var n := |columns| - 1;
      var init := Selected(was, columns[..n], values);
      if columns[n].OtherColumn? then init[columns[n].name := values[n]] else init
  }

  /** An account-group row being scanned. */
  class ScannedRow {
    var row: AccountGroupRow
    var selectValues: map<string, Cell>

    constructor ()
      ensures row == ZERO_ROW && selectValues == map[]
    {
      row, selectValues := ZERO_ROW, map[];
    }

    method AssignValues(columns: seq<Column>, values: seq<Cell>) returns (err: Option<ScanError>)
      modifies this
      ensures |values| < |columns| ==>
                err == Some(LengthMismatch) && row == old(row) && selectValues == old(selectValues)
      ensures |values| >= |columns| ==>
                match Assigned(old(row), columns, values)
                case Success(r) =>
                  err == None && row == r && selectValues == Selected(old(selectValues), columns, values)
                case Failure(e) =>
                  // Everything before the offending column stays assigned.
                  && err == Some(e)
                  && exists i | 0 <= i < |columns| ::
                       && Assigned(old(row), columns[..i], values) == Success(row)
                       && AssignOne(row, columns[i], values[i]) == Failure(e)
                       && selectValues == Selected(old(selectValues), columns[..i], values)
    {
      if |values| < |columns| {
        return Some(LengthMismatch);
      }
      for i := 0 to |columns|
        invariant Assigned(old(row), columns[..i], values) == Success(row)
        invariant selectValues == Selected(old(selectValues), columns[..i], values)
      {
        assert columns[..i + 1][..i] == columns[..i];
        match AssignOne(row, columns[i], values[i]) {
          case Failure(e) =>
            ThroughFailurePersists(old(row), columns, values, i + 1);
            return Some(e);
          case Success(r) =>
            row := r;
            if columns[i].OtherColumn? {
              selectValues := selectValues[columns[i].name := values[i]];
            }
        }
      }
      assert columns[..|columns|] == columns;
      return None;
    }
  }

  lemma {:induction false} LastOtherDecides(was: map<string, Cell>, columns: seq<Column>, values: seq<Cell>, name: string)
    requires |columns| <= |values|
    ensures var kept, k := Selected(was, columns, values), LastAt(columns, OtherColumn(name));
            if k >= 0 then name in kept && kept[name] == values[k]
            else (name in kept <==> name in was) && (name in was ==> kept[name] == was[name])
  {
    if columns != [] {
      LastOtherDecides(was, columns[..|columns| - 1], values, name);
    }
  }

  lemma {:induction false} ThroughFailurePersists(node: AccountGroupRow, columns: seq<Column>, values: seq<Cell>, i: nat)
    requires i <= |columns| <= |values| && Assigned(node, columns[..i], values).Failure?
    ensures Assigned(node, columns, values) == Assigned(node, columns[..i], values)
  {
    if i < |columns| {
      var n := |columns| - 1;
      assert columns[..n][..i] == columns[..i];
      ThroughFailurePersists(node, columns[..n], values, i);
    } else {
      assert columns[..i] == columns;
    }
  }

  /** Buffers of another type are refused, except for columns the row does not know. */
  lemma ThroughOtherBufferRefusedIff(node: AccountGroupRow, c: Column, cell: Cell)
    ensures AssignOne(node, c, cell) == Failure(UnexpectedType(c)) <==>
            !c.OtherColumn? && !RowScan.SameType(NewBuffer(c), cell)
  {
  }

  /** For every column list, buffers allocated for it are accepted, whatever the driver has written into them. */
  lemma {:induction false} ThroughBuffersFit(node: AccountGroupRow, columns: seq<Column>, values: seq<Cell>)
    requires |columns| <= |values| && forall i | 0 <= i < |columns| :: RowScan.SameType(NewBuffer(columns[i]), values[i])
    ensures Assigned(node, columns, values).Success?
  {
    if columns != [] {
      ThroughBuffersFit(node, columns[..|columns| - 1], values);
    }
  }

  /** The buffer of a column after the driver has scanned a row into it; the table's columns are never NULL. */
  function CellFor(row: AccountGroupRow, c: Column): Cell {
    match c
    case AccountIDColumn => RowScan.NullInt64(row.accountID, true)
    case GroupIDColumn => RowScan.NullInt64(row.groupID, true)
    case PriorityColumn => RowScan.NullInt64(row.priority, true)
    case CreatedAtColumn => RowScan.NullTime(row.createdAt, true)
    case OtherColumn(_) => RowScan.UnknownType(None)
  }

  const ZERO_ROW := AccountGroupRow(0, 0, 0, 0)

  /** What scanning a row through a column list leaves: the listed fields, zero for the others. */
  function Narrowed(row: AccountGroupRow, columns: seq<Column>): AccountGroupRow {
    AccountGroupRow(if AccountIDColumn in columns then row.accountID else 0,
                    if GroupIDColumn in columns then row.groupID else 0,
                    if PriorityColumn in columns then row.priority else 0,
                    if CreatedAtColumn in columns then row.createdAt else 0)
  }

  /** Scanning a row through any column list, in any order and with repetitions, reads exactly the listed fields. */
  lemma {:induction false} ScanNarrows(row: AccountGroupRow, columns: seq<Column>, values: seq<Cell>)
    requires |columns| <= |values| && forall i | 0 <= i < |columns| :: values[i] == CellFor(row, columns[i])
    ensures Assigned(ZERO_ROW, columns, values) == Success(Narrowed(row, columns))
  {
    if columns != [] {
      var n := |columns| - 1;
      assert columns == columns[..n] + [columns[n]];
      ScanNarrows(row, columns[..n], values);
    }
  }

  // ----- the column list ------------------------------------------------------------------

  /**
   Without a selection all columns; otherwise the selected fields in order, then those of the needed
   foreign keys that are not among them, each once.
   */
  function ScanColumns(fields: seq<Column>, withAccount: bool, withGroup: bool): (r: seq<Column>)
    ensures fields == [] ==> r == COLUMNS
    ensures fields != [] ==>
              && fields <= r && Distinct(r[|fields|..]) && (forall c | c in r[|fields|..] :: c !in fields)
              && (forall c :: c in r <==>
                    c in fields || (withAccount && c == AccountIDColumn) || (withGroup && c == GroupIDColumn))
    ensures withAccount ==> AccountIDColumn in r
    ensures withGroup ==> GroupIDColumn in r
  {
    if fields == [] then
      assert COLUMNS[0] == AccountIDColumn && COLUMNS[1] == GroupIDColumn;
      COLUMNS
    else
      var one := if withAccount then AddOnce(fields, AccountIDColumn) else fields;
      if withGroup then AddOnce(one, GroupIDColumn) else one
  }

  /** Without a selection the row comes back whole. */
  lemma {:induction false} UnselectedScanIsWhole(row: AccountGroupRow, withAccount: bool, withGroup: bool,
                                                 values: seq<Cell>)
    requires var columns := ScanColumns([], withAccount, withGroup);
             |columns| <= |values| && forall i | 0 <= i < |columns| :: values[i] == CellFor(row, columns[i])
    ensures Assigned(ZERO_ROW, ScanColumns([], withAccount, withGroup), values) == Success(row)
  {
    ScanNarrows(row, COLUMNS, values);
    assert COLUMNS[0] == AccountIDColumn && COLUMNS[1] == GroupIDColumn;
    assert COLUMNS[2] == PriorityColumn && COLUMNS[3] == CreatedAtColumn;
    assert Narrowed(row, COLUMNS) == row;
  }

  /** The columns of `AccountGroupQuery.querySpec`. */
  method QuerySpecColumns(fields: seq<Column>, withAccount: bool, withGroup: bool) returns (columns: seq<Column>)
    ensures columns == ScanColumns(fields, withAccount, withGroup)
  {
    columns := COLUMNS;
    if |fields| > 0 {
      columns := [];
      for i := 0 to |fields|
        invariant columns == fields[..i]
      {
        columns := columns + [fields[i]];
      }
      assert fields[..|fields|] == fields;
      if withAccount {
        columns := AddOnce(columns, AccountIDColumn);
      }
      if withGroup {
        columns := AddOnce(columns, GroupIDColumn);
      }
    }
  }

  function Scanned(table: seq<AccountGroupRow>, columns: seq<Column>): (r: seq<AccountGroupRow>)
    ensures |r| == |table| && forall i | 0 <= i < |table| :: r[i] == Narrowed(table[i], columns)
  {
    seq(|table|, i requires 0 <= i < |table| => Narrowed(table[i], columns))
  }

  function ProjectedTo(q: AccountGroupQuery, table: seq<AccountGroupRow>, fields: seq<Column>): (r: seq<AccountGroupRow>)
    ensures |r| == |table|
  {
    Scanned(table, ScanColumns(fields, q.withAccount.Some?, q.withGroup.Some?))
  }

  /**
   For every list of selected fields, with the id columns among them or not, the edges of every
   account-group row are those loaded when all columns are scanned, and so are the loaders' errors.
   */
  lemma ThroughProjectionKeepsEdges(q: AccountGroupQuery, table: seq<AccountGroupRow>, fields: seq<Column>, i: nat)
    requires i < |table|
    ensures AccountGroupEdgesOf(q, ProjectedTo(q, table, fields), i) == AccountGroupEdgesOf(q, table, i)
    ensures AccountGroupFault(q, ProjectedTo(q, table, fields)) == AccountGroupFault(q, table)
  {
    var some := ProjectedTo(q, table, fields);
    SameTargets(q.withAccount, some, table, AccountFK, AccountID);
    SameTargets(q.withGroup, some, table, GroupFK, GroupIDOf);
  }

  // ----- the account's path through a projected account-group query -------------------------

  /** `AppendFieldOnce` by `loadAccountGroups`; a query without fields selects everything anyway. */
  function OwnedFields(fields: seq<Column>): seq<Column> {
    if fields == [] then [] else AddOnce(fields, AccountIDColumn)
  }

  lemma {:induction false} SameThrough(x: seq<AccountGroup>, y: seq<AccountGroup>, key: Option<int>)
    requires |x| == |y|
    requires forall i | 0 <= i < |x| :: x[i].row.accountID == y[i].row.accountID && x[i].edges.group == y[i].edges.group
    ensures ThroughRows(Referring(x, AccountGroupFK, key)) == ThroughRows(Referring(y, AccountGroupFK, key))
  {
    if x != [] {
      var n := |x| - 1;
      SameThrough(x[..n], y[..n], key);
      assert AccountGroupFK(x[n]) == AccountGroupFK(y[n]);
      ThroughLast(x, key);
      ThroughLast(y, key);
    }
  }

  lemma ThroughLast(x: seq<AccountGroup>, key: Option<int>)
    requires x != []
    ensures var last := x[|x| - 1];
            ThroughRows(Referring(x, AccountGroupFK, key)) ==
            ThroughRows(Referring(x[..|x| - 1], AccountGroupFK, key)) +
            if RefersTo(AccountGroupFK, key)(last) && last.edges.group.Some? then [last.edges.group.value] else []
  {
    var init, last := Referring(x[..|x| - 1], AccountGroupFK, key), x[|x| - 1];
    assert (init + [last])[..|init|] == init;
  }

  /** `ask` runs the nested account-group query with some of its fields selected. */
  ghost predicate AnswersProjected(ask: seq<int> -> Answer<AccountGroup>, raw: seq<int> -> Answer<AccountGroupRow>,
                                   q: AccountGroupQuery, joins: seq<AccountGroupRow>, groups: seq<Group>, fields: seq<Column>)
  {
    && q.withGroup.Some? && AnswersWhere(q.withGroup.value, groups, ById(GroupIDOf))
    && AnswersWhere(raw, joins, AccountFK)
    && forall ids :: ask(ids) == Answer.Rows(LoadedRows(q, ProjectedTo(q, raw(ids).rows, OwnedFields(fields))))
  }

  lemma ProjectedRowsKeepGroups(q: AccountGroupQuery, raw: seq<AccountGroupRow>, fields: seq<Column>, key: Option<int>)
    ensures ThroughRows(Referring(LoadedRows(q, ProjectedTo(q, raw, OwnedFields(fields))), AccountGroupFK, key)) ==
            ThroughRows(Referring(LoadedRows(q, raw), AccountGroupFK, key))
  {
    var some := ProjectedTo(q, raw, OwnedFields(fields));
    assert OwnedFields(fields) == [] ==> COLUMNS[0] == AccountIDColumn;
    forall i | 0 <= i < |raw|
      ensures some[i].accountID == raw[i].accountID
      ensures AccountGroupEdgesOf(q, some, i) == AccountGroupEdgesOf(q, raw, i)
    {
      ThroughProjectionKeepsEdges(q, raw, OwnedFields(fields), i);
    }
    SameThrough(LoadedRows(q, some), LoadedRows(q, raw), key);
  }

  /** The two paths to an account's groups still agree when the account-group query selects any of its fields. */
  lemma TwoPathsAgreeProjected(q: AccountQuery, q2: AccountGroupQuery, raw: seq<int> -> Answer<AccountGroupRow>,
                               joins: seq<AccountGroupRow>, groups: seq<Group>, rows: seq<AccountRow>, i: nat,
                               fields: seq<Column>)
    requires q.withGroups.Some? && AnswersJoin(q.withGroups.value, joins, groups)
    requires q.withAccountGroups.Some? && AnswersProjected(q.withAccountGroups.value, raw, q2, joins, groups, fields)
    requires DistinctBy(groups, GroupIDOf) && i < |rows|
    ensures var e := EdgesOf(q, rows, i);
            forall g :: g in e.groups <==> g in ThroughRows(e.accountGroups)
  {
    var whole: seq<int> -> Answer<AccountGroup> := ids => Answer.Rows(LoadedRows(q2, raw(ids).rows));
    TwoPathsAgree(q.(withAccountGroups := Some(whole)), q2, raw, joins, groups, rows, i);
    var ids := Ids(rows, AccountID);
    ProjectedRowsKeepGroups(q2, raw(ids).rows, fields, OwnKey(ids, i));
  }
}
