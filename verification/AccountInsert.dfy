/**
 Inserting the specification of a new account: its row with the keys of its single-neighbour edges is one
 statement, then come its memberships, then the rows that are to hold its key.
 */
module AccountInsert {
  import opened Wrappers
  import opened AccountSchema
  import opened AccountCreate
  import opened EdgeUpdate
  import opened EdgeStatements
  import opened EdgeExecution

  /** The table with the new row before its own columns are written; the database tests the row only afterwards. */
  function WithNewRow(s: Store, a: int): Store {
    s.(db := s.db.(proxyOf := s.db.proxyOf[a := None], parentOf := s.db.parentOf[a := None]),
       dimensionOf := s.dimensionOf[a := Global], deleted := s.deleted - {a})
  }

  /** What the checks read of the row. */
  function OwnFieldsOf(row: Fields): OwnFields {
    OwnFields(Some(if QuotaDimension in row && row[QuotaDimension] == VString("spark") then Spark else Global),
              Some(DeletedAt in row))
  }

  /** The insert of a specification under the id the database has chosen. */
  function Insert(s: Store, a: int, spec: CreateSpec): Execution {
    Execute(WithNewRow(s, a), a, OwnFieldsOf(StoredFields(spec.fields)), EdgeProgram([], spec.edges))
  }

  /** Nothing refers to the id yet. */
  ghost predicate Fresh(s: Store, a: int) {
    && a !in s.db.parentOf
    && (forall g :: (a, g) !in s.db.members)
    && (forall c | c in s.db.parentOf :: s.db.parentOf[c] != Some(a))
    && (forall l | l in s.db.ownerOf :: s.db.ownerOf[l] != a)
  }

  /** A mutation keeps the ids of an edge as the keys of a map. */
  ghost predicate ListsOnce(m: Mutation) {
    Distinct(m.groups) && Distinct(m.children) && Distinct(m.usageLogs)
  }

  // ----- the specification as an edge program ---------------------------------------------

  function Added(ids: seq<int>): Delta {
    Delta(set i | i in ids, {}, false)
  }

  function TargetOf(ids: seq<int>): Target {
    if ids == [] then NO_TARGET else Target(Some(ids[0]), false, false)
  }

  function ChangesOf(m: Mutation): EdgeChanges {
    EdgeChanges(Added(m.groups), TargetOf(EdgeIds(m.fields, ProxyID)), TargetOf(EdgeIds(m.fields, ParentAccountID)),
                Added(m.children), Added(m.usageLogs))
  }

  lemma AddsOfAdded(r: Relation, ids: seq<int>)
    requires Distinct(ids)
    ensures ClearsOf([], r, Added(ids)) && AddsOf(EdgeIfAny(r, ids), r, Added(ids).added)
  {
    assert Lists(ids, Added(ids).added);
    ListsSome(ids, Added(ids).added);
  }

  lemma AddsOfKey(r: Relation, f: Fields, c: Column)
    ensures ClearsOfTarget(r, TargetOf(EdgeIds(f, c))) == []
    ensures AddsOfTarget(r, TargetOf(EdgeIds(f, c))) == EdgeIfAny(r, EdgeIds(f, c))
  {
  }

  lemma SpecIsProgram(m: Mutation)
    requires ListsOnce(m)
    ensures ProgramOf(EdgeProgram([], SpecOf(m).edges), ChangesOf(m))
  {
    var g, c, u := EdgeProgram([], EdgeIfAny(Groups, m.groups)), EdgeProgram([], EdgeIfAny(Children, m.children)),
                   EdgeProgram([], EdgeIfAny(UsageLogs, m.usageLogs));
    AddsOfAdded(Groups, m.groups);
    AddsOfAdded(Children, m.children);
    AddsOfAdded(UsageLogs, m.usageLogs);
    AddsOfKey(Proxy, m.fields, ProxyID);
    AddsOfKey(Parent, m.fields, ParentAccountID);
    assert Assembled(EdgeProgram([], SpecOf(m).edges), ChangesOf(m), g, c, u);
  }

  // ----- what inserting means -------------------------------------------------------------

  lemma NewRowFits(s: Store, a: int)
    requires Valid(s) && Fresh(s, a)
    ensures Valid(WithNewRow(s, a))
  {
    var t := WithNewRow(s, a);
    forall c | c in t.db.parentOf ensures c in t.dimensionOf && RowFits(t.db.parentOf[c], t.dimensionOf[c], c) {
      if c != a { assert RowFits(s.db.parentOf[c], s.dimensionOf[c], c); }
    }
    forall c, d | c in t.db.parentOf && d in t.db.parentOf && c != d && t.db.parentOf[c].Some? &&
                  t.db.parentOf[c] == t.db.parentOf[d]
      ensures !LiveShadow(t, c) || !LiveShadow(t, d)
    {
      assert c != a && d != a;
      assert !LiveShadow(s, c) || !LiveShadow(s, d);
    }
  }

  /** The stored fields are the mutation's, but for the keys of its edges. */
  lemma SameOwnFields(m: Mutation)
    requires Settable(m.fields)
    ensures OwnFieldsOf(StoredFields(SpecOf(m).fields)) == OwnFieldsOf(m.fields)
  {
    PlainColumnListed(QuotaDimension);
    PlainColumnListed(DeletedAt);
    StoredAre(m.fields, SPEC_FIELDS);
  }

  lemma {:induction false} StoredAre(f: Fields, table: seq<(Column, FieldType)>)
    requires ListedIn(QuotaDimension, table) && ListedIn(DeletedAt, table)
    ensures OwnFieldsOf(StoredFields(SpecFields(f, table))) == OwnFieldsOf(f)
  {
    StoredFieldsMeaning(f, table);
  }

  predicate IsSpark(m: Mutation) {
    QuotaDimension in m.fields && m.fields[QuotaDimension] == VString("spark")
  }

  /** The key of a single-neighbour edge of the mutation. */
  function KeyOf(m: Mutation, c: Column): Option<int> {
    if c in m.fields && m.fields[c].VInt? then Some(m.fields[c].n) else None
  }

  /** When the database takes a new account. */
  ghost predicate InsertAllowed(s: Store, m: Mutation) {
    var proxy, parent := KeyOf(m, ProxyID), KeyOf(m, ParentAccountID);
    && (proxy.Some? ==> proxy.value in s.db.proxies)
    && (parent.Some? ==> parent.value in s.db.parentOf)
    && (parent.Some? <==> IsSpark(m))
    && (parent.Some? && DeletedAt !in m.fields ==>
          forall c | c in s.db.parentOf && s.db.parentOf[c] == parent :: c in s.deleted)
    && (forall g | g in m.groups :: g in s.db.groups)
    && m.children == [] && m.usageLogs == []
  }

  /**
   For any stored rows and any mutation: the insert is taken exactly when the neighbours named exist, a
   parent comes with the spark dimension and has no other live shadow, and no child or usage log is
   connected. The new account then has the mutation's proxy and parent and is joined to exactly its groups,
   and all other rows are as they were.
   */
  lemma InsertMeans(s: Store, a: int, m: Mutation)
    requires Valid(s) && Fresh(s, a) && Settable(m.fields) && ListsOnce(m)
    ensures Insert(s, a, SpecOf(m)).Success? <==> InsertAllowed(s, m)
    ensures Insert(s, a, SpecOf(m)).Success? ==>
              var db := Insert(s, a, SpecOf(m)).value.db;
              && (forall b, g :: (b, g) in db.members <==> (b, g) in s.db.members || (b == a && g in m.groups))
              && db.proxyOf == s.db.proxyOf[a := KeyOf(m, ProxyID)]
              && db.parentOf == s.db.parentOf[a := KeyOf(m, ParentAccountID)]
              && db.ownerOf == s.db.ownerOf && db.groups == s.db.groups && db.proxies == s.db.proxies
    ensures Insert(s, a, SpecOf(m)).Success? ==>
              var t := Insert(s, a, SpecOf(m)).value;
              && Valid(t) && t.dimensionOf == s.dimensionOf[a := if IsSpark(m) then Spark else Global]
              && (forall b :: b in t.deleted <==> if b == a then DeletedAt in m.fields else b in s.deleted)
  {
    var was, f, changes, p := WithNewRow(s, a), OwnFieldsOf(m.fields), ChangesOf(m), EdgeProgram([], SpecOf(m).edges);
    NewRowFits(s, a);
    SameOwnFields(m);
    SpecIsProgram(m);
    ExecutionMeans(was, a, f, changes, p);
    AllowedIff(s, a, m);
    if Insert(s, a, SpecOf(m)).Success? {
      ExecutionKeepsValid(was, a, f, changes, p);
      UpdatedIs(s, a, m);
    }
  }

  lemma AllowedIff(s: Store, a: int, m: Mutation)
    requires Valid(s) && Fresh(s, a)
    ensures Allowed(WithNewRow(s, a), a, OwnFieldsOf(m.fields), ChangesOf(m)) <==> InsertAllowed(s, m)
  {
    var was, f, changes := WithNewRow(s, a), OwnFieldsOf(m.fields), ChangesOf(m);
    OwnRowIff(s, a, m);
    assert changes.children.added == {} <==> m.children == [] by { EmptyIff(m.children); }
    assert changes.usageLogs.added == {} <==> m.usageLogs == [] by { EmptyIff(m.usageLogs); }
    assert MembershipsAllowed(was.db, a, changes.groups) <==> forall g | g in m.groups :: g in s.db.groups;
  }

  lemma EmptyIff(ids: seq<int>)
    ensures Added(ids).added == {} <==> ids == []
  {
    if ids != [] {
      assert ids[0] in Added(ids).added;
    }
  }

  lemma OwnRowIff(s: Store, a: int, m: Mutation)
    requires Valid(s) && Fresh(s, a)
    ensures var was, f, changes, parent := WithNewRow(s, a), OwnFieldsOf(m.fields), ChangesOf(m), KeyOf(m, ParentAccountID);
            (parent.Some? ==> parent.value in was.db.parentOf) && OwnRowAllowed(was, a, f, changes) <==>
              && (parent.Some? ==> parent.value in s.db.parentOf)
              && (parent.Some? <==> IsSpark(m))
              && (parent.Some? && DeletedAt !in m.fields ==>
                    forall c | c in s.db.parentOf && s.db.parentOf[c] == parent :: c in s.deleted)
  {
    var was, f, changes, parent := WithNewRow(s, a), OwnFieldsOf(m.fields), ChangesOf(m), KeyOf(m, ParentAccountID);
    assert ParentIn(was, a, changes) == parent;
    assert DimensionIn(was, a, f) == if IsSpark(m) then Spark else Global;
    assert forall c :: c in was.db.parentOf && c != a <==> c in s.db.parentOf;
    assert forall c | c in s.db.parentOf :: was.db.parentOf[c] == s.db.parentOf[c];
  }

  lemma UpdatedIs(s: Store, a: int, m: Mutation)
    requires Fresh(s, a)
    ensures var t := Updated(WithNewRow(s, a), a, OwnFieldsOf(m.fields), ChangesOf(m));
            && (forall b, g :: (b, g) in t.db.members <==> (b, g) in s.db.members || (b == a && g in m.groups))
            && t.db.proxyOf == s.db.proxyOf[a := KeyOf(m, ProxyID)]
            && t.db.parentOf == s.db.parentOf[a := KeyOf(m, ParentAccountID)]
            && t.db.ownerOf == s.db.ownerOf && t.db.groups == s.db.groups && t.db.proxies == s.db.proxies
            && t.dimensionOf == s.dimensionOf[a := if IsSpark(m) then Spark else Global]
            && (forall b :: b in t.deleted <==> if b == a then DeletedAt in m.fields else b in s.deleted)
  {
  }
}
