/**
 What eager loading means over a database of finite relations. The only thing assumed of the query
 engine is that a query returns exactly the rows satisfying its predicate, in any order; the
 theorems compare the edges left by `SqlAll` with the row-by-row relational definition.
 */
module EagerJoin {
  import opened Wrappers
  import opened EagerLoad
  import opened AccountQueries

  // ----- the query engine -----------------------------------------------------------------

  function KeyedIn<T>(keyOf: T -> Option<int>, ids: seq<int>): T -> bool {
    t => keyOf(t).Some? && keyOf(t).value in ids
  }

  /** `ask(ids)` returns the rows of `table` whose key is among `ids`, in some order. */
  ghost predicate AnswersWhere<T(!new)>(ask: seq<int> -> Answer<T>, table: seq<T>, keyOf: T -> Option<int>) {
    forall ids :: ask(ids).Rows? && multiset(ask(ids).rows) == multiset(Filter(table, KeyedIn(keyOf, ids)))
  }

  /** `ask(ids)` returns the join of `joins` and `groups` restricted to the owners in `ids`; rows may repeat. */
  ghost predicate AnswersJoin(ask: seq<int> -> Answer<JoinRow<Group>>, joins: seq<AccountGroupRow>, groups: seq<Group>) {
    forall ids ::
      && ask(ids).Rows?
      && forall r :: r in ask(ids).rows <==> r.owner in ids && r.neighbor in groups && IsJoined(joins, r.owner, r.neighbor.id)
  }

  predicate IsJoined(joins: seq<AccountGroupRow>, a: int, g: int) {
    exists j | 0 <= j < |joins| :: joins[j].accountID == a && joins[j].groupID == g
  }

  predicate DistinctBy<T>(table: seq<T>, idOf: T -> int) {
    forall i, j | 0 <= i < j < |table| :: idOf(table[i]) != idOf(table[j])
  }

  // ----- sequence facts -------------------------------------------------------------------

  lemma {:induction false} FilterCount<T>(s: seq<T>, p: T -> bool, x: T)
    ensures multiset(Filter(s, p))[x] == if p(x) then multiset(s)[x] else 0
  {
    if s != [] {
      FilterCount(s[..|s| - 1], p, x);
      assert s == s[..|s| - 1] + [s[|s| - 1]];
    }
  }

  lemma {:induction false} FilterNone<T>(s: seq<T>, p: T -> bool)
    requires forall x | x in s :: !p(x)
    ensures Filter(s, p) == []
  {
    if s != [] {
      FilterNone(s[..|s| - 1], p);
    }
  }

  lemma {:induction false} FirstUseMember<R>(rows: seq<R>, fk: R -> Option<int>, k: int)
    ensures k in FirstUse(rows, fk) <==> exists i | 0 <= i < |rows| :: fk(rows[i]) == Some(k)
  {
    if rows != [] {
      FirstUseMember(rows[..|rows| - 1], fk, k);
    }
  }

  // ----- many-to-one is a lookup ----------------------------------------------------------

  /** Looking a key up in a table with distinct ids: the row with that id, or none when nil or unmatched. */
  lemma {:induction false} ReferencedIsLookup<T>(rows: seq<T>, idOf: T -> int, key: Option<int>)
    ensures match Referenced(rows, idOf, key)
            case Some(t) => t in rows && key == Some(idOf(t))
            case None => forall t | t in rows :: key != Some(idOf(t))
  {
    if rows != [] && key.Some? {
      ReferencedIsLookup(rows[..|rows| - 1], idOf, key);
    }
  }

  lemma {:induction false} DistinctByUnique<T>(table: seq<T>, idOf: T -> int, s: T, t: T)
    requires DistinctBy(table, idOf) && s in table && t in table && idOf(s) == idOf(t)
    ensures s == t
  {
    var i, j :| 0 <= i < |table| && 0 <= j < |table| && table[i] == s && table[j] == t;
  }

  /**
   A many-to-one loader over a table with distinct ids never fails, and node `i` ends on the one row
   its key names; a nil or dangling key ends on none.
   */
  lemma ToOneIsLookup<R, T(!new)>(ask: seq<int> -> Answer<T>, table: seq<T>, idOf: T -> int,
                                  rows: seq<R>, fk: R -> Option<int>, i: nat)
    requires AnswersWhere(ask, table, ById(idOf)) && DistinctBy(table, idOf) && i < |rows|
    ensures OneFault(Some(ask), rows, fk, idOf) == None
    ensures forall t :: Referenced(Targets(Some(ask), rows, fk), idOf, fk(rows[i])) == Some(t) <==>
                        t in table && fk(rows[i]) == Some(idOf(t))
  {
    var ids := FirstUse(rows, fk);
    var answer, key := Targets(Some(ask), rows, fk), fk(rows[i]);
    SameBag(ask(ids).rows, Filter(table, KeyedIn(ById(idOf), ids)));
    NoFault(ask(ids).rows, ById(idOf), ids);
    ReferencedIsLookup(answer, idOf, key);
    if key.Some? { FirstUseMember(rows, fk, key.value); }
    forall t
      ensures Referenced(answer, idOf, key) == Some(t) <==> t in table && key == Some(idOf(t))
    {
      if t in table && key == Some(idOf(t)) {
        assert t in answer;
        var s := Referenced(answer, idOf, key).value;
        assert s in table;
        DistinctByUnique(table, idOf, s, t);
      }
    }
  }

  // ----- one-to-many conserves rows -------------------------------------------------------

  lemma {:induction false} OwnKeyUnique(ids: seq<int>, k: int)
    requires k in ids
    ensures LastAt(ids, k) >= 0
    ensures forall i | 0 <= i < |ids| :: OwnKey(ids, i) == Some(k) <==> i == LastAt(ids, k)
  {
  }

  /** The rows handed to the first `n` nodes, node by node. */
  function HandedOut<T>(rows: seq<T>, fk: T -> Option<int>, ids: seq<int>, n: nat): seq<T>
    requires n <= |ids|
  {
    if n == 0 then [] else HandedOut(rows, fk, ids, n - 1) + Referring(rows, fk, OwnKey(ids, n - 1))
  }

  lemma {:induction false} HandedOutCount<T>(rows: seq<T>, fk: T -> Option<int>, ids: seq<int>, n: nat, x: T)
    requires n <= |ids|
    ensures multiset(HandedOut(rows, fk, ids, n))[x] ==
            if exists i | 0 <= i < n :: fk(x).Some? && OwnKey(ids, i) == fk(x) then multiset(rows)[x] else 0
  {
    if n > 0 {
      HandedOutCount(rows, fk, ids, n - 1, x);
      FilterCount(rows, RefersTo(fk, OwnKey(ids, n - 1)), x);
      if fk(x).Some? && OwnKey(ids, n - 1) == fk(x) {
        OwnKeyUnique(ids, fk(x).value);
      }
    }
  }

  /**
   Conservation, for any node list and any answer: when the loader succeeds, the rows handed out to
   the nodes, counted with multiplicity, are exactly the rows returned.
   */
  lemma {:induction false} ToManyConserves<T(!new)>(rows: seq<T>, fk: T -> Option<int>, ids: seq<int>)
    requires FirstFault(rows, fk, ids) == None
    ensures multiset(HandedOut(rows, fk, ids, |ids|)) == multiset(rows)
    ensures |HandedOut(rows, fk, ids, |ids|)| == |rows|
  {
    NoFault(rows, fk, ids);
    var out := HandedOut(rows, fk, ids, |ids|);
    forall x ensures multiset(out)[x] == multiset(rows)[x] {
      HandedOutCount(rows, fk, ids, |ids|, x);
      if x in rows {
        OwnKeyUnique(ids, fk(x).value);
        assert OwnKey(ids, LastAt(ids, fk(x).value)) == fk(x);
      } else {
        assert multiset(rows)[x] == 0;
      }
    }
    assert multiset(out) == multiset(rows);
    SameBag(out, rows);
  }

  function AllEdges(q: AccountQuery, rows: seq<AccountRow>): (r: seq<AccountEdges>)
    ensures |r| == |rows| && forall i | 0 <= i < |rows| :: r[i] == EdgesOf(q, rows, i)
  {
    seq(|rows|, i requires 0 <= i < |rows| => EdgesOf(q, rows, i))
  }

  /** What a list accessor gives on all nodes, node by node, if it succeeds on every one. */
  function AllLoaded<T>(edges: seq<AccountEdges>, accessor: AccountEdges -> EdgeResult<seq<T>>): Option<seq<T>> {
    if edges == [] then Some([])
    else
      var init, last := AllLoaded(edges[..|edges| - 1], accessor), accessor(edges[|edges| - 1]);
      if init.Some? && last.Loaded? then Some(init.value + last.value) else None
  }

  lemma {:induction false} AllLoadedIsHandedOut<T>(edges: seq<AccountEdges>, accessor: AccountEdges -> EdgeResult<seq<T>>,
                                                   rows: seq<T>, fk: T -> Option<int>, ids: seq<int>, n: nat)
    requires n <= |edges| == |ids|
    requires forall i | 0 <= i < |edges| :: accessor(edges[i]) == Loaded(Referring(rows, fk, OwnKey(ids, i)))
    ensures AllLoaded(edges[..n], accessor) == Some(HandedOut(rows, fk, ids, n))
  {
    if n > 0 {
      AllLoadedIsHandedOut(edges, accessor, rows, fk, ids, n - 1);
      assert edges[..n][..n - 1] == edges[..n - 1];
    }
  }

  /**
   After a load without error every requested list accessor succeeds on every node, and together the
   nodes hold exactly the rows the neighbour query returned, each as often as it was returned.
   */
  lemma ListAccessorsConserve(q: AccountQuery, rows: seq<AccountRow>)
    requires rows != [] && LoadFault(q, rows) == None
    ensures var edges, ids := AllEdges(q, rows), Ids(rows, AccountID);
            && (q.withChildren.Some? ==> SameRows(AllLoaded(edges, ChildrenOrErr), Fetched(q.withChildren, ids)))
            && (q.withUsageLogs.Some? ==> SameRows(AllLoaded(edges, UsageLogsOrErr), Fetched(q.withUsageLogs, ids)))
            && (q.withAccountGroups.Some? ==>
                  SameRows(AllLoaded(edges, AccountGroupsOrErr), Fetched(q.withAccountGroups, ids)))
  {
    var edges, ids := AllEdges(q, rows), Ids(rows, AccountID);
    if q.withChildren.Some? {
      AccessorConserves(edges, ChildrenOrErr, Fetched(q.withChildren, ids), ParentFK, ids);
    }
    if q.withUsageLogs.Some? {
      AccessorConserves(edges, UsageLogsOrErr, Fetched(q.withUsageLogs, ids), UsageLogFK, ids);
    }
    if q.withAccountGroups.Some? {
      AccessorConserves(edges, AccountGroupsOrErr, Fetched(q.withAccountGroups, ids), AccountGroupFK, ids);
    }
  }

  lemma {:induction false} AccessorConserves<T(!new)>(edges: seq<AccountEdges>,
                                               accessor: AccountEdges -> EdgeResult<seq<T>>,
                                   rows: seq<T>, fk: T -> Option<int>, ids: seq<int>)
    requires |edges| == |ids| && FirstFault(rows, fk, ids) == None
    requires forall i | 0 <= i < |edges| :: accessor(edges[i]) == Loaded(Referring(rows, fk, OwnKey(ids, i)))
    ensures SameRows(AllLoaded(edges, accessor), rows)
  {
    assert edges[..|edges|] == edges;
    AllLoadedIsHandedOut(edges, accessor, rows, fk, ids, |ids|);
    ToManyConserves(rows, fk, ids);
  }

  ghost predicate SameRows<T>(got: Option<seq<T>>, rows: seq<T>) {
    got.Some? && multiset(got.value) == multiset(rows)
  }

  /**
   A one-to-many loader never fails, and the last node bearing an id gets exactly the table's rows
   that refer to it, each as often as the table holds it.
   */
  lemma {:induction false} ToManyIsSelection<T(!new)>(ask: seq<int> -> Answer<T>, table: seq<T>,
                                               fk: T -> Option<int>, ids: seq<int>, i: nat)
    requires AnswersWhere(ask, table, fk) && i < |ids|
    ensures ManyFault(Some(ask), ids, fk) == None
    ensures OwnKey(ids, i).Some? ==>
              multiset(Referring(Fetched(Some(ask), ids), fk, OwnKey(ids, i))) ==
              multiset(Filter(table, RefersTo(fk, Some(ids[i]))))
    ensures OwnKey(ids, i).None? ==> Referring(Fetched(Some(ask), ids), fk, OwnKey(ids, i)) == []
  {
    var rows := ask(ids).rows;
    SameBag(rows, Filter(table, KeyedIn(fk, ids)));
    NoFault(rows, fk, ids);
    if OwnKey(ids, i).Some? {
      forall x
        ensures multiset(Referring(rows, fk, Some(ids[i])))[x] == multiset(Filter(table, RefersTo(fk, Some(ids[i]))))[x]
      {
        FilterCount(rows, RefersTo(fk, Some(ids[i])), x);
        FilterCount(table, RefersTo(fk, Some(ids[i])), x);
        FilterCount(table, KeyedIn(fk, ids), x);
      }
    } else {
      FilterNone(rows, RefersTo(fk, None));
    }
  }

  /**
   Every node of a list gets all of its rows exactly when no row refers to an id that is borne again
   later in the list: the index keeps only the last bearer, the others end with an empty edge.
   */
  lemma {:induction false} DuplicatesMissTheirRows<T>(rows: seq<T>, fk: T -> Option<int>, ids: seq<int>)
    ensures (forall i | 0 <= i < |ids| :: Referring(rows, fk, OwnKey(ids, i)) == Referring(rows, fk, Some(ids[i])))
            <==>
            (forall i, t | 0 <= i < |ids| && t in rows && fk(t) == Some(ids[i]) :: LastAt(ids, ids[i]) == i)
  {
    forall i | 0 <= i < |ids|
      ensures Referring(rows, fk, OwnKey(ids, i)) == Referring(rows, fk, Some(ids[i])) <==>
              LastAt(ids, ids[i]) == i || forall t | t in rows :: fk(t) != Some(ids[i])
    {
      if LastAt(ids, ids[i]) != i {
        FilterNone(rows, RefersTo(fk, None));
        if forall t | t in rows :: fk(t) != Some(ids[i]) {
          FilterNone(rows, RefersTo(fk, Some(ids[i])));
        }
      }
    }
  }

  /** Two nodes of one id and a row for it: only the second node gets the row. */
  lemma FirstBearerMissesItsRow<T>(k: int, t: T, fk: T -> Option<int>)
    requires fk(t) == Some(k)
    ensures Referring([t], fk, OwnKey([k, k], 0)) == [] && Referring([t], fk, OwnKey([k, k], 1)) == [t]
  {
    assert LastAt([k, k], k) == 1;
    FilterNone([t], RefersTo(fk, None));
    assert [t][..0] == [] && Filter([t][..0], RefersTo(fk, Some(k))) == [];
    assert RefersTo(fk, Some(k))(t);
  }

  // ----- many-to-many ---------------------------------------------------------------------

  ghost predicate Increasing<T>(s: seq<T>, rank: T -> int) {
    forall i, j | 0 <= i < j < |s| :: rank(s[i]) < rank(s[j])
  }

  lemma {:induction false} FilterIncreasing<T>(s: seq<T>, p: T -> bool, rank: T -> int)
    requires Increasing(s, rank)
    ensures Increasing(Filter(s, p), rank)
  {
    if s != [] {
      var init, last := s[..|s| - 1], s[|s| - 1];
      FilterIncreasing(init, p, rank);
      forall x | x in Filter(init, p) ensures rank(x) < rank(last) {
        var k :| 0 <= k < |init| && init[k] == x;
        assert rank(s[k]) < rank(s[|s| - 1]);
      }
      var r0 := Filter(init, p);
      assert forall i | 0 <= i < |r0| :: r0[i] in r0;
    }
  }

  lemma {:induction false} FirstSeenOccurs<T>(rows: seq<JoinRow<T>>, idOf: T -> int, t: T)
    requires t in FirstSeen(rows, idOf)
    ensures exists i | 0 <= i < |rows| :: rows[i].neighbor == t
  {
    var init := rows[..|rows| - 1];
    if t in FirstSeen(init, idOf) {
      FirstSeenOccurs(init, idOf, t);
    } else {
      assert rows[|rows| - 1].neighbor == t;
    }
  }

  lemma {:induction false} FirstSeenCovers<T>(rows: seq<JoinRow<T>>, idOf: T -> int, i: nat)
    requires i < |rows|
    ensures exists t | t in FirstSeen(rows, idOf) :: idOf(t) == idOf(rows[i].neighbor)
  {
    var init, last := rows[..|rows| - 1], rows[|rows| - 1].neighbor;
    if i < |init| {
      FirstSeenCovers(init, idOf, i);
    } else if idOf(last) in NeighborIds(init, idOf) {
      var j :| 0 <= j < |init| && NeighborIds(init, idOf)[j] == idOf(last);
      FirstSeenCovers(init, idOf, j);
    } else {
      assert last in FirstSeen(rows, idOf);
    }
  }

  /** Where a group first appears in the stream. */
  function FirstAppearance(rows: seq<JoinRow<Group>>, g: int): (i: nat)
    ensures i <= |rows|
    ensures i < |rows| ==> rows[i].neighbor.id == g
    ensures forall j | 0 <= j < i :: rows[j].neighbor.id != g
  {
    if rows == [] then 0
    else
      var i := FirstAppearance(rows[..|rows| - 1], g);
      if i < |rows| - 1 then i else if rows[|rows| - 1].neighbor.id == g then |rows| - 1 else |rows|
  }

  function Appearance(rows: seq<JoinRow<Group>>): Group -> int {
    (g: Group) => FirstAppearance(rows, g.id)
  }

  lemma AppearanceExtends(rows: seq<JoinRow<Group>>, g: Group)
    requires rows != [] && Appearance(rows[..|rows| - 1])(g) < |rows| - 1
    ensures Appearance(rows)(g) == Appearance(rows[..|rows| - 1])(g)
  {
  }

  lemma {:induction false} FirstSeenOrder(rows: seq<JoinRow<Group>>)
    ensures forall g | g in FirstSeen(rows, GroupIDOf) :: Appearance(rows)(g) < |rows|
    ensures Increasing(FirstSeen(rows, GroupIDOf), Appearance(rows))
  {
    if rows != [] {
      var init, last := rows[..|rows| - 1], rows[|rows| - 1].neighbor;
      var seen := FirstSeen(init, GroupIDOf);
      FirstSeenOrder(init);
      forall g | g in seen ensures Appearance(rows)(g) == Appearance(init)(g) {
        AppearanceExtends(rows, g);
      }
      assert forall i | 0 <= i < |seen| :: seen[i] in seen;
      if last.id !in NeighborIds(init, GroupIDOf) {
        forall j | 0 <= j < |init| ensures init[j].neighbor.id != last.id {
          assert NeighborIds(init, GroupIDOf)[j] in NeighborIds(init, GroupIDOf);
        }
        assert Appearance(rows)(last) == |rows| - 1;
      } else {
        var j :| 0 <= j < |init| && NeighborIds(init, GroupIDOf)[j] == last.id;
      }
    }
  }

  /** A node's groups come in the order of their first appearance in the whole stream, also for other accounts. */
  lemma JoinedOrder(rows: seq<JoinRow<Group>>, key: Option<int>)
    ensures Increasing(Joined(rows, GroupIDOf, key), Appearance(rows))
  {
    FirstSeenOrder(rows);
    FilterIncreasing(FirstSeen(rows, GroupIDOf), LinkedBy(GroupIDOf, Links(rows, GroupIDOf, key)), Appearance(rows));
  }

  lemma JoinedDistinct(rows: seq<JoinRow<Group>>, key: Option<int>)
    ensures DistinctBy(Joined(rows, GroupIDOf, key), GroupIDOf)
  {
    JoinedOrder(rows, key);
    var got := Joined(rows, GroupIDOf, key);
    forall i, j | 0 <= i < j < |got| ensures got[i].id != got[j].id {
      assert Appearance(rows)(got[i]) < Appearance(rows)(got[j]);
    }
  }

  lemma JoinedSound(rows: seq<JoinRow<Group>>, key: Option<int>, g: Group) returns (r: JoinRow<Group>, s: JoinRow<Group>)
    requires g in Joined(rows, GroupIDOf, key)
    ensures r in rows && s in rows && r.neighbor == g && key == Some(s.owner) && s.neighbor.id == g.id
  {
    FirstSeenOccurs(rows, GroupIDOf, g);
    var i :| 0 <= i < |rows| && rows[i].neighbor == g;
    var k :| 0 <= k < |rows| && key == Some(rows[k].owner) && GroupIDOf(rows[k].neighbor) == g.id;
    r, s := rows[i], rows[k];
  }

  lemma JoinedComplete(rows: seq<JoinRow<Group>>, key: Option<int>, s: JoinRow<Group>) returns (g: Group)
    requires s in rows && key == Some(s.owner)
    ensures g in Joined(rows, GroupIDOf, key) && g.id == s.neighbor.id
  {
    var k :| 0 <= k < |rows| && rows[k] == s;
    FirstSeenCovers(rows, GroupIDOf, k);
    g :| g in FirstSeen(rows, GroupIDOf) && GroupIDOf(g) == GroupIDOf(s.neighbor);
    assert g.id in Links(rows, GroupIDOf, key);
  }

  lemma JoinedEmptyIff(rows: seq<JoinRow<Group>>, key: Option<int>)
    ensures Joined(rows, GroupIDOf, key) == [] <==> forall r | r in rows :: key != Some(r.owner)
  {
    if r :| r in rows && key == Some(r.owner) {
      var g := JoinedComplete(rows, key, r);
    }
    if Joined(rows, GroupIDOf, key) != [] {
      var g := Joined(rows, GroupIDOf, key)[0];
      assert g in Joined(rows, GroupIDOf, key);
      var r, s := JoinedSound(rows, key, g);
    }
  }

  /**
   The groups of repeated ids, likewise: every node gets all of its groups exactly when no row of the
   stream is owned by an id that is borne again later in the list.
   */
  lemma {:induction false} DuplicatesMissTheirGroups(rows: seq<JoinRow<Group>>, ids: seq<int>)
    ensures (forall i | 0 <= i < |ids| ::
               Joined(rows, GroupIDOf, OwnKey(ids, i)) == Joined(rows, GroupIDOf, Some(ids[i])))
            <==>
            (forall i, r | 0 <= i < |ids| && r in rows && r.owner == ids[i] :: LastAt(ids, ids[i]) == i)
  {
    forall i | 0 <= i < |ids|
      ensures Joined(rows, GroupIDOf, OwnKey(ids, i)) == Joined(rows, GroupIDOf, Some(ids[i])) <==>
              LastAt(ids, ids[i]) == i || forall r | r in rows :: r.owner != ids[i]
    {
      if LastAt(ids, ids[i]) != i {
        JoinedEmptyIff(rows, None);
        JoinedEmptyIff(rows, Some(ids[i]));
      }
    }
  }

  /** Likewise with a group joined to the repeated id. */
  lemma FirstBearerMissesItsGroup(k: int, g: Group)
    ensures Joined([JoinRow(k, g)], GroupIDOf, OwnKey([k, k], 0)) == []
    ensures g in Joined([JoinRow(k, g)], GroupIDOf, OwnKey([k, k], 1))
  {
    var rows := [JoinRow(k, g)];
    assert LastAt([k, k], k) == 1;
    JoinedEmptyIff(rows, None);
    assert rows[0] in rows;
    var h := JoinedComplete(rows, Some(k), rows[0]);
    FirstSeenOccurs(rows, GroupIDOf, h);
  }

  /**
   For any row stream of the join, in any order and with any repetitions: the account that bears
   its id last ends with exactly the groups it is joined to, each once.
   */
  lemma ManyToManyIsJoin(ask: seq<int> -> Answer<JoinRow<Group>>, joins: seq<AccountGroupRow>, groups: seq<Group>,
                         ids: seq<int>, i: nat)
    requires AnswersJoin(ask, joins, groups) && DistinctBy(groups, GroupIDOf) && i < |ids|
    ensures OwnersAsked(Some(ask), ids) && GroupsFault(Some(ask), ids) == None
    ensures var got := Joined(Fetched(Some(ask), ids), GroupIDOf, OwnKey(ids, i));
            && DistinctBy(got, GroupIDOf)
            && forall g :: g in got <==> OwnKey(ids, i).Some? && g in groups && IsJoined(joins, ids[i], g.id)
  {
    var rows, key := ask(ids).rows, OwnKey(ids, i);
    var got := Joined(rows, GroupIDOf, key);
    JoinedDistinct(rows, key);
    forall g
      ensures g in got <==> key.Some? && g in groups && IsJoined(joins, ids[i], g.id)
    {
      if g in got {
        var r, s := JoinedSound(rows, key, g);
      }
      if key.Some? && g in groups && IsJoined(joins, ids[i], g.id) {
        assert JoinRow(ids[i], g) in rows;
        var h := JoinedComplete(rows, key, JoinRow(ids[i], g));
        var r, s := JoinedSound(rows, key, h);
        DistinctByUnique(groups, GroupIDOf, g, h);
      }
    }
  }

  // ----- accessors ------------------------------------------------------------------------

  /** A requested single-neighbour edge is found or not found, never "not loaded". */
  lemma ProxyAccessor(q: AccountQuery, proxies: seq<Proxy>, rows: seq<AccountRow>, i: nat)
    requires q.withProxy.Some? && AnswersWhere(q.withProxy.value, proxies, ById(ProxyIDOf))
    requires DistinctBy(proxies, ProxyIDOf) && i < |rows|
    ensures match ProxyOrErr(EdgesOf(q, rows, i))
            case Loaded(p) => p in proxies && rows[i].proxyID == Some(p.id)
            case NotFound => forall p | p in proxies :: rows[i].proxyID != Some(p.id)
            case NotLoaded => false
  {
    ToOneIsLookup(q.withProxy.value, proxies, ProxyIDOf, rows, ProxyFK, i);
  }

  lemma ParentAccessor(q: AccountQuery, accounts: seq<AccountRow>, rows: seq<AccountRow>, i: nat)
    requires q.withParent.Some? && AnswersWhere(q.withParent.value, accounts, ById(AccountID))
    requires DistinctBy(accounts, AccountID) && i < |rows|
    ensures match ParentOrErr(EdgesOf(q, rows, i))
            case Loaded(p) => p in accounts && rows[i].parentID == Some(p.id)
            case NotFound => forall p | p in accounts :: rows[i].parentID != Some(p.id)
            case NotLoaded => false
  {
    ToOneIsLookup(q.withParent.value, accounts, AccountID, rows, ParentFK, i);
  }

  /** A requested groups edge is loaded on every node, with the join relation's groups of its id. */
  lemma GroupsAccessor(q: AccountQuery, joins: seq<AccountGroupRow>, groups: seq<Group>, rows: seq<AccountRow>, i: nat)
    requires q.withGroups.Some? && AnswersJoin(q.withGroups.value, joins, groups) && DistinctBy(groups, GroupIDOf)
    requires i < |rows| && OwnKey(Ids(rows, AccountID), i).Some?
    ensures match GroupsOrErr(EdgesOf(q, rows, i))
            case Loaded(gs) => DistinctBy(gs, GroupIDOf) && forall g :: g in gs <==> g in groups && IsJoined(joins, rows[i].id, g.id)
            case NotFound => false
            case NotLoaded => false
  {
    ManyToManyIsJoin(q.withGroups.value, joins, groups, Ids(rows, AccountID), i);
  }

  /** A requested edge of an account-group row is the account or group whose id it holds. */
  lemma RowAccessors(q: AccountGroupQuery, accounts: seq<AccountRow>, groups: seq<Group>,
                     rows: seq<AccountGroupRow>, i: nat)
    requires q.withAccount.Some? && AnswersWhere(q.withAccount.value, accounts, ById(AccountID))
    requires q.withGroup.Some? && AnswersWhere(q.withGroup.value, groups, ById(GroupIDOf))
    requires DistinctBy(accounts, AccountID) && DistinctBy(groups, GroupIDOf) && i < |rows|
    ensures match AccountOrErr(AccountGroupEdgesOf(q, rows, i))
            case Loaded(a) => a in accounts && a.id == rows[i].accountID
            case NotFound => forall a | a in accounts :: a.id != rows[i].accountID
            case NotLoaded => false
    ensures match GroupOrErr(AccountGroupEdgesOf(q, rows, i))
            case Loaded(g) => g in groups && g.id == rows[i].groupID
            case NotFound => forall g | g in groups :: g.id != rows[i].groupID
            case NotLoaded => false
  {
    ToOneIsLookup(q.withAccount.value, accounts, AccountID, rows, AccountFK, i);
    ToOneIsLookup(q.withGroup.value, groups, GroupIDOf, rows, GroupFK, i);
  }

  lemma HandedTo<T(!new)>(ask: seq<int> -> Answer<T>, table: seq<T>, fk: T -> Option<int>, ids: seq<int>, i: nat, x: T)
    requires AnswersWhere(ask, table, fk) && i < |ids| && OwnKey(ids, i).Some?
    ensures multiset(Referring(Fetched(Some(ask), ids), fk, OwnKey(ids, i)))[x] ==
            if fk(x) == Some(ids[i]) then multiset(table)[x] else 0
  {
    ToManyIsSelection(ask, table, fk, ids, i);
    FilterCount(table, RefersTo(fk, Some(ids[i])), x);
  }

  /** A requested list edge holds the rows with the account's id in their foreign key, each as often as the table does. */
  lemma ChildrenAccessor(q: AccountQuery, accounts: seq<AccountRow>, rows: seq<AccountRow>, i: nat, c: AccountRow)
    requires q.withChildren.Some? && AnswersWhere(q.withChildren.value, accounts, ParentFK)
    requires i < |rows| && OwnKey(Ids(rows, AccountID), i).Some?
    ensures match ChildrenOrErr(EdgesOf(q, rows, i))
            case Loaded(cs) => multiset(cs)[c] == if c.parentID == Some(rows[i].id) then multiset(accounts)[c] else 0
            case _ => false
  {
    HandedTo(q.withChildren.value, accounts, ParentFK, Ids(rows, AccountID), i, c);
  }

  lemma UsageLogsAccessor(q: AccountQuery, logs: seq<UsageLog>, rows: seq<AccountRow>, i: nat, l: UsageLog)
    requires q.withUsageLogs.Some? && AnswersWhere(q.withUsageLogs.value, logs, UsageLogFK)
    requires i < |rows| && OwnKey(Ids(rows, AccountID), i).Some?
    ensures match UsageLogsOrErr(EdgesOf(q, rows, i))
            case Loaded(ls) => multiset(ls)[l] == if l.accountID == rows[i].id then multiset(logs)[l] else 0
            case _ => false
  {
    HandedTo(q.withUsageLogs.value, logs, UsageLogFK, Ids(rows, AccountID), i, l);
  }

  lemma AccountGroupsAccessor(q: AccountQuery, ags: seq<AccountGroup>, rows: seq<AccountRow>, i: nat, a: AccountGroup)
    requires q.withAccountGroups.Some? && AnswersWhere(q.withAccountGroups.value, ags, AccountGroupFK)
    requires i < |rows| && OwnKey(Ids(rows, AccountID), i).Some?
    ensures match AccountGroupsOrErr(EdgesOf(q, rows, i))
            case Loaded(got) => multiset(got)[a] == if a.row.accountID == rows[i].id then multiset(ags)[a] else 0
            case _ => false
  {
    HandedTo(q.withAccountGroups.value, ags, AccountGroupFK, Ids(rows, AccountID), i, a);
  }

  /** `got` is the rows that satisfy `p`, at the positions `at`, in order. */
  ghost predicate SelectedInOrder<T>(got: seq<T>, rows: seq<T>, p: T -> bool, at: seq<nat>) {
    && |at| == |got| && (forall k, l | 0 <= k < l < |at| :: at[k] < at[l])
    && (forall k | 0 <= k < |at| :: at[k] < |rows| && got[k] == rows[at[k]])
    && (forall i: nat :: i in at <==> i < |rows| && p(rows[i]))
  }

  lemma {:induction false} FilterInOrder<T>(rows: seq<T>, p: T -> bool) returns (at: seq<nat>)
    ensures SelectedInOrder(Filter(rows, p), rows, p, at)
  {
    at := [];
    if rows != [] {
      var n := |rows| - 1;
      var before := FilterInOrder(rows[..n], p);
      SelectedStep(Filter(rows[..n], p), rows, p, before);
      at := if p(rows[n]) then before + [n] else before;
    }
  }

  lemma SelectedStep<T>(got: seq<T>, rows: seq<T>, p: T -> bool, at: seq<nat>)
    requires rows != [] && SelectedInOrder(got, rows[..|rows| - 1], p, at)
    ensures var n := |rows| - 1;
            if p(rows[n]) then SelectedInOrder(got + [rows[n]], rows, p, at + [n]) else SelectedInOrder(got, rows, p, at)
  {
    var n := |rows| - 1;
    assert forall k | 0 <= k < |at| :: at[k] in at;
    forall i: nat ensures i in at <==> i < n && p(rows[i]) {
      if i < n { assert rows[..n][i] == rows[i]; }
    }
    assert forall i: nat :: i in at + [n] <==> i in at || i == n;
  }

  lemma SelectedAlike<T>(got: seq<T>, rows: seq<T>, p: T -> bool, q: T -> bool, at: seq<nat>)
    requires SelectedInOrder(got, rows, p, at) && forall t :: p(t) <==> q(t)
    ensures SelectedInOrder(got, rows, q, at)
  {
  }

  /**
   For any answers, in order and one by one: the children, usage logs and account-group rows of a node that
   the index can find are those of the rows returned that hold its id.
   */
  lemma ListEdgesInOrder(q: AccountQuery, rows: seq<AccountRow>, i: nat)
    returns (c: seq<nat>, u: seq<nat>, a: seq<nat>)
    requires i < |rows| && OwnKey(Ids(rows, AccountID), i).Some?
    ensures var e, ids, id := EdgesOf(q, rows, i), Ids(rows, AccountID), rows[i].id;
            && SelectedInOrder(e.children, Fetched(q.withChildren, ids), (r: AccountRow) => r.parentID == Some(id), c)
            && SelectedInOrder(e.usageLogs, Fetched(q.withUsageLogs, ids), (l: UsageLog) => l.accountID == id, u)
            && SelectedInOrder(e.accountGroups, Fetched(q.withAccountGroups, ids),
                               (g: AccountGroup) => g.row.accountID == id, a)
  {
    var e, ids, id := EdgesOf(q, rows, i), Ids(rows, AccountID), rows[i].id;
    c := FilterInOrder(Fetched(q.withChildren, ids), RefersTo(ParentFK, Some(id)));
    u := FilterInOrder(Fetched(q.withUsageLogs, ids), RefersTo(UsageLogFK, Some(id)));
    a := FilterInOrder(Fetched(q.withAccountGroups, ids), RefersTo(AccountGroupFK, Some(id)));
    var forC, forU := (r: AccountRow) => r.parentID == Some(id), (l: UsageLog) => l.accountID == id;
    var forA := (g: AccountGroup) => g.row.accountID == id;
    forall r ensures RefersTo(ParentFK, Some(id))(r) <==> forC(r) { assert ParentFK(r) == r.parentID; }
    forall l ensures RefersTo(UsageLogFK, Some(id))(l) <==> forU(l) { assert UsageLogFK(l) == Some(l.accountID); }
    forall g ensures RefersTo(AccountGroupFK, Some(id))(g) <==> forA(g) {
      assert AccountGroupFK(g) == Some(g.row.accountID);
    }
    SelectedAlike(e.children, Fetched(q.withChildren, ids), RefersTo(ParentFK, Some(id)), forC, c);
    SelectedAlike(e.usageLogs, Fetched(q.withUsageLogs, ids), RefersTo(UsageLogFK, Some(id)), forU, u);
    SelectedAlike(e.accountGroups, Fetched(q.withAccountGroups, ids), RefersTo(AccountGroupFK, Some(id)), forA, a);
  }

  /** Keys are asked for in the order in which they are first used. */
  lemma {:induction false} AskedInOrder<R>(rows: seq<R>, fk: R -> Option<int>) returns (at: seq<nat>)
    ensures var ks := FirstUse(rows, fk);
            && |at| == |ks| && (forall k, l | 0 <= k < l < |at| :: at[k] < at[l])
            && (forall k | 0 <= k < |at| :: at[k] < |rows| && fk(rows[at[k]]) == Some(ks[k]))
            && (forall k, i | 0 <= k < |at| && 0 <= i < at[k] :: fk(rows[i]) != Some(ks[k]))
  {
    at := [];
    if rows != [] {
      var n := |rows| - 1;
      at := AskedInOrder(rows[..n], fk);
      if fk(rows[n]).Some? {
        FirstUseMember(rows[..n], fk, fk(rows[n]).value);
        if fk(rows[n]).value !in FirstUse(rows[..n], fk) {
          at := at + [n];
          forall i | 0 <= i < n ensures fk(rows[i]) != fk(rows[n]) {
            assert rows[..n][i] == rows[i];
          }
        }
      }
    }
  }

  // ----- when a load fails ----------------------------------------------------------------

  lemma {:induction false} OneFaultIff<R, T>(ask: Option<seq<int> -> Answer<T>>, rows: seq<R>, fk: R -> Option<int>,
                                             idOf: T -> int)
    ensures OneFault(ask, rows, fk, idOf) == None <==>
            (ask.Some? && (exists i | 0 <= i < |rows| :: fk(rows[i]).Some?) ==>
              var answer := ask.value(FirstUse(rows, fk));
              answer.Rows? && forall t | t in answer.rows :: exists i | 0 <= i < |rows| :: fk(rows[i]) == Some(idOf(t)))
  {
    var ids := FirstUse(rows, fk);
    if i :| 0 <= i < |rows| && fk(rows[i]).Some? {
      FirstUseMember(rows, fk, fk(rows[i]).value);
    } else {
      if ids != [] {
        FirstUseMember(rows, fk, ids[0]);
      }
      assert ids == [];
    }
    if ask.Some? && ask.value(ids).Rows? {
      NoFault(ask.value(ids).rows, ById(idOf), ids);
      forall t | t in ask.value(ids).rows
        ensures idOf(t) in ids <==> exists i | 0 <= i < |rows| :: fk(rows[i]) == Some(idOf(t))
      {
        FirstUseMember(rows, fk, idOf(t));
      }
    }
  }

  /** Every row of the answer names an account that was asked for. */
  ghost predicate AllOwned<T>(answer: Answer<T>, owner: T -> Option<int>, rows: seq<AccountRow>) {
    answer.Rows? && forall t | t in answer.rows :: exists i | 0 <= i < |rows| :: owner(t) == Some(rows[i].id)
  }

  lemma ManyFaultIff<T>(ask: Option<seq<int> -> Answer<T>>, rows: seq<AccountRow>, fk: T -> Option<int>)
    ensures ManyFault(ask, Ids(rows, AccountID), fk) == None <==>
            (ask.Some? ==> AllOwned(ask.value(Ids(rows, AccountID)), fk, rows))
  {
    var ids := Ids(rows, AccountID);
    if ask.Some? && ask.value(ids).Rows? {
      NoFault(ask.value(ids).rows, fk, ids);
    }
  }

  /** Every requested neighbour query has been answered, and only with rows some account is waiting for. */
  ghost predicate AllAnswered(q: AccountQuery, rows: seq<AccountRow>) {
    var ids := Ids(rows, AccountID);
    && (q.withGroups.Some? ==> q.withGroups.value(ids).Rows?)
    && (q.withProxy.Some? && (exists i | 0 <= i < |rows| :: rows[i].proxyID.Some?) ==>
          var answer := q.withProxy.value(FirstUse(rows, ProxyFK));
          answer.Rows? && forall p | p in answer.rows :: exists i | 0 <= i < |rows| :: rows[i].proxyID == Some(p.id))
    && (q.withParent.Some? && (exists i | 0 <= i < |rows| :: rows[i].parentID.Some?) ==>
          var answer := q.withParent.value(FirstUse(rows, ParentFK));
          answer.Rows? && forall p | p in answer.rows :: exists i | 0 <= i < |rows| :: rows[i].parentID == Some(p.id))
    && (q.withChildren.Some? ==> AllOwned(q.withChildren.value(ids), (c: AccountRow) => c.parentID, rows))
    && (q.withUsageLogs.Some? ==> AllOwned(q.withUsageLogs.value(ids), (l: UsageLog) => Some(l.accountID), rows))
    && (q.withAccountGroups.Some? ==>
          AllOwned(q.withAccountGroups.value(ids), (a: AccountGroup) => Some(a.row.accountID), rows))
  }

  /** A load goes without an error exactly then. */
  lemma NoLoadFaultIff(q: AccountQuery, rows: seq<AccountRow>)
    requires rows != []
    ensures LoadFault(q, rows) == None <==> AllAnswered(q, rows)
  {
    OneFaultIff(q.withProxy, rows, ProxyFK, ProxyIDOf);
    OneFaultIff(q.withParent, rows, ParentFK, AccountID);
    ManyFaultIff(q.withChildren, rows, ParentFK);
    ManyFaultIff(q.withUsageLogs, rows, UsageLogFK);
    ManyFaultIff(q.withAccountGroups, rows, AccountGroupFK);
  }

  // ----- parent and children --------------------------------------------------------------

  /**
   For any account table: `c` is among the loaded children of the node holding `p` exactly when
   loading the parent of a node holding `c` yields `p`.
   */
  lemma ParentAndChildrenAreInverse(accounts: seq<AccountRow>, down: AccountQuery, up: AccountQuery,
                                    tops: seq<AccountRow>, i: nat, subs: seq<AccountRow>, j: nat)
    requires DistinctBy(accounts, AccountID)
    requires down.withChildren.Some? && AnswersWhere(down.withChildren.value, accounts, ParentFK)
    requires up.withParent.Some? && AnswersWhere(up.withParent.value, accounts, ById(AccountID))
    requires i < |tops| && tops[i] in accounts && OwnKey(Ids(tops, AccountID), i).Some?
    requires j < |subs| && subs[j] in accounts
    ensures subs[j] in EdgesOf(down, tops, i).children <==> EdgesOf(up, subs, j).parent == Some(tops[i])
  {
    var ids := Ids(tops, AccountID);
    ToManyIsSelection(down.withChildren.value, accounts, ParentFK, ids, i);
    SameBag(EdgesOf(down, tops, i).children, Filter(accounts, RefersTo(ParentFK, Some(ids[i]))));
    ToOneIsLookup(up.withParent.value, accounts, AccountID, subs, ParentFK, j);
  }

  // ----- the two paths to an account's groups ---------------------------------------------

  /** The account-group rows as `SqlAllAccountGroups` returns them. */
  function LoadedRows(q: AccountGroupQuery, raw: seq<AccountGroupRow>): (r: seq<AccountGroup>)
    ensures |r| == |raw|
    ensures forall i | 0 <= i < |raw| :: r[i] == AccountGroup(raw[i], AccountGroupEdgesOf(q, raw, i))
  {
    seq(|raw|, i requires 0 <= i < |raw| => AccountGroup(raw[i], AccountGroupEdgesOf(q, raw, i)))
  }

  /** `ask` runs the nested account-group query, its own group edge included, over the join relation. */
  ghost predicate AnswersNested(ask: seq<int> -> Answer<AccountGroup>, raw: seq<int> -> Answer<AccountGroupRow>,
                                q: AccountGroupQuery, joins: seq<AccountGroupRow>, groups: seq<Group>)
  {
    && q.withGroup.Some? && AnswersWhere(q.withGroup.value, groups, ById(GroupIDOf))
    && AnswersWhere(raw, joins, AccountFK)
    && forall ids :: ask(ids) == Answer.Rows(LoadedRows(q, raw(ids).rows))
  }

  /** The groups reached through the account-group rows: their non-nil `Group` edges, in row order. */
  function ThroughRows(ags: seq<AccountGroup>): (r: seq<Group>)
    ensures forall g :: g in r <==> exists i | 0 <= i < |ags| :: ags[i].edges.group == Some(g)
  {
    if ags == [] then []
    else
      var last := ags[|ags| - 1].edges.group;
      ThroughRows(ags[..|ags| - 1]) + (if last.Some? then [last.value] else [])
  }

  /** An account's loaded account-group rows: exactly its rows of the join relation, each with its group. */
  lemma NestedRows(ask: seq<int> -> Answer<AccountGroup>, raw: seq<int> -> Answer<AccountGroupRow>,
                   q: AccountGroupQuery, joins: seq<AccountGroupRow>, groups: seq<Group>, ids: seq<int>, a: AccountGroup)
    requires AnswersNested(ask, raw, q, joins, groups) && DistinctBy(groups, GroupIDOf)
    requires a in ask(ids).rows
    ensures a.row in joins && a.row.accountID in ids
    ensures forall g :: a.edges.group == Some(g) <==> g in groups && g.id == a.row.groupID
  {
    var rows := raw(ids).rows;
    var k :| 0 <= k < |rows| && LoadedRows(q, rows)[k] == a;
    SameBag(rows, Filter(joins, KeyedIn(AccountFK, ids)));
    assert rows[k] in rows;
    assert KeyedIn(AccountFK, ids)(rows[k]);
    assert AccountFK(rows[k]).Some? && AccountFK(rows[k]).value in ids;
    ToOneIsLookup(q.withGroup.value, groups, GroupIDOf, rows, GroupFK, k);
  }

  lemma ThroughSound(ask: seq<int> -> Answer<AccountGroup>, raw: seq<int> -> Answer<AccountGroupRow>,
                     q: AccountGroupQuery, joins: seq<AccountGroupRow>, groups: seq<Group>,
                     ids: seq<int>, i: nat, g: Group)
    requires AnswersNested(ask, raw, q, joins, groups) && DistinctBy(groups, GroupIDOf) && i < |ids|
    requires g in ThroughRows(Referring(ask(ids).rows, AccountGroupFK, OwnKey(ids, i)))
    ensures OwnKey(ids, i).Some? && g in groups && IsJoined(joins, ids[i], g.id)
  {
    var ags := Referring(ask(ids).rows, AccountGroupFK, OwnKey(ids, i));
    var k :| 0 <= k < |ags| && ags[k].edges.group == Some(g);
    var a := ags[k];
    assert a in ags;
    NestedRows(ask, raw, q, joins, groups, ids, a);
    var j :| 0 <= j < |joins| && joins[j] == a.row;
  }

  lemma ThroughComplete(ask: seq<int> -> Answer<AccountGroup>, raw: seq<int> -> Answer<AccountGroupRow>,
                        q: AccountGroupQuery, joins: seq<AccountGroupRow>, groups: seq<Group>,
                        ids: seq<int>, i: nat, g: Group)
    requires AnswersNested(ask, raw, q, joins, groups) && DistinctBy(groups, GroupIDOf) && i < |ids|
    requires OwnKey(ids, i).Some? && g in groups && IsJoined(joins, ids[i], g.id)
    ensures g in ThroughRows(Referring(ask(ids).rows, AccountGroupFK, OwnKey(ids, i)))
  {
    var j :| 0 <= j < |joins| && joins[j].accountID == ids[i] && joins[j].groupID == g.id;
    var stream := raw(ids).rows;
    SameBag(stream, Filter(joins, KeyedIn(AccountFK, ids)));
    assert AccountFK(joins[j]).Some? && AccountFK(joins[j]).value in ids;
    assert KeyedIn(AccountFK, ids)(joins[j]);
    var k :| 0 <= k < |stream| && stream[k] == joins[j];
    var a := LoadedRows(q, stream)[k];
    assert a in ask(ids).rows;
    NestedRows(ask, raw, q, joins, groups, ids, a);
    var ags := Referring(ask(ids).rows, AccountGroupFK, OwnKey(ids, i));
    assert AccountGroupFK(a) == OwnKey(ids, i);
    assert RefersTo(AccountGroupFK, OwnKey(ids, i))(a);
    var m :| 0 <= m < |ags| && ags[m] == a;
  }

  /**
   Many-to-many loading agrees with one-to-many loading followed by many-to-one loading: an account's
   `Groups` and the non-nil `Group` edges of its `AccountGroups` are the same set of groups.
   */
  lemma TwoPathsAgree(q: AccountQuery, q2: AccountGroupQuery, raw: seq<int> -> Answer<AccountGroupRow>,
                      joins: seq<AccountGroupRow>, groups: seq<Group>, rows: seq<AccountRow>, i: nat)
    requires q.withGroups.Some? && AnswersJoin(q.withGroups.value, joins, groups)
    requires q.withAccountGroups.Some? && AnswersNested(q.withAccountGroups.value, raw, q2, joins, groups)
    requires DistinctBy(groups, GroupIDOf) && i < |rows|
    ensures var e := EdgesOf(q, rows, i);
            forall g :: g in e.groups <==> g in ThroughRows(e.accountGroups)
  {
    var ids := Ids(rows, AccountID);
    var e, own := EdgesOf(q, rows, i), OwnKey(ids, i);
    var ask := q.withAccountGroups.value;
    ManyToManyIsJoin(q.withGroups.value, joins, groups, ids, i);
    forall g ensures g in e.groups <==> g in ThroughRows(e.accountGroups) {
      if g in ThroughRows(e.accountGroups) {
        ThroughSound(ask, raw, q2, joins, groups, ids, i, g);
      }
      if g in e.groups {
        ThroughComplete(ask, raw, q2, joins, groups, ids, i, g);
      }
    }
  }

  lemma {:induction false} ThroughRowsDistinct(ags: seq<AccountGroup>)
    requires forall i, j | 0 <= i < j < |ags| && ags[i].edges.group.Some? :: ags[i].edges.group != ags[j].edges.group
    ensures Distinct(ThroughRows(ags))
  {
    if ags != [] {
      ThroughRowsDistinct(ags[..|ags| - 1]);
    }
  }

  lemma BagDistinct<T>(s: seq<T>)
    requires forall x | x in s :: multiset(s)[x] <= 1
    ensures Distinct(s)
  {
    forall i, j | 0 <= i < j < |s| ensures s[i] != s[j] {
      assert s == s[..j] + [s[j]] + s[j + 1..];
      assert s[i] in s[..j];
      assert s[i] in multiset(s[..j]);
      assert multiset(s)[s[j]] <= 1;
    }
  }

  function RowRank(stream: seq<AccountGroupRow>): AccountGroup -> int {
    (a: AccountGroup) => LastAt(stream, a.row)
  }

  lemma StreamDistinct(raw: seq<int> -> Answer<AccountGroupRow>, joins: seq<AccountGroupRow>, ids: seq<int>)
    requires AnswersWhere(raw, joins, AccountFK) && PrimaryKey(joins)
    ensures Distinct(raw(ids).rows)
  {
    var stream := raw(ids).rows;
    assert Distinct(joins);
    forall x | x in stream ensures multiset(stream)[x] <= 1 {
      FilterCount(joins, KeyedIn(AccountFK, ids), x);
      DistinctCount(joins, x);
    }
    BagDistinct(stream);
  }

  lemma LoadedRowsInOrder(q: AccountGroupQuery, stream: seq<AccountGroupRow>, key: Option<int>)
    requires Distinct(stream)
    ensures Increasing(Referring(LoadedRows(q, stream), AccountGroupFK, key), RowRank(stream))
  {
    var all := LoadedRows(q, stream);
    forall i | 0 <= i < |all| ensures RowRank(stream)(all[i]) == i { }
    FilterIncreasing(all, RefersTo(AccountGroupFK, key), RowRank(stream));
  }

  lemma KeysDiffer(joins: seq<AccountGroupRow>, r: AccountGroupRow, s: AccountGroupRow)
    requires PrimaryKey(joins) && r in joins && s in joins && r != s
    ensures r.accountID != s.accountID || r.groupID != s.groupID
  {
    var m, n :| 0 <= m < |joins| && 0 <= n < |joins| && joins[m] == r && joins[n] == s;
  }

  /** Under the primary key an account's loaded account-group rows have pairwise different groups. */
  lemma GroupsOfRowsDiffer(ask: seq<int> -> Answer<AccountGroup>, raw: seq<int> -> Answer<AccountGroupRow>,
                           q: AccountGroupQuery, joins: seq<AccountGroupRow>, groups: seq<Group>,
                           ids: seq<int>, key: Option<int>, i: nat, j: nat)
    requires AnswersNested(ask, raw, q, joins, groups) && DistinctBy(groups, GroupIDOf) && PrimaryKey(joins)
    requires i < j < |Referring(ask(ids).rows, AccountGroupFK, key)|
    requires Referring(ask(ids).rows, AccountGroupFK, key)[i].edges.group.Some?
    ensures Referring(ask(ids).rows, AccountGroupFK, key)[i].edges.group !=
            Referring(ask(ids).rows, AccountGroupFK, key)[j].edges.group
  {
    var stream, ags := raw(ids).rows, Referring(ask(ids).rows, AccountGroupFK, key);
    StreamDistinct(raw, joins, ids);
    LoadedRowsInOrder(q, stream, key);
    var a, b := ags[i], ags[j];
    assert RowRank(stream)(a) < RowRank(stream)(b);
    assert a in ags && b in ags;
    assert AccountGroupFK(a) == key && AccountGroupFK(b) == key;
    NestedRows(ask, raw, q, joins, groups, ids, a);
    NestedRows(ask, raw, q, joins, groups, ids, b);
    KeysDiffer(joins, a.row, b.row);
  }

  /** With the join table's composite primary key, the two paths give the same groups, each once. */
  lemma TwoPathsAgreeOnce(q: AccountQuery, q2: AccountGroupQuery, raw: seq<int> -> Answer<AccountGroupRow>,
                          joins: seq<AccountGroupRow>, groups: seq<Group>, rows: seq<AccountRow>, i: nat)
    requires q.withGroups.Some? && AnswersJoin(q.withGroups.value, joins, groups)
    requires q.withAccountGroups.Some? && AnswersNested(q.withAccountGroups.value, raw, q2, joins, groups)
    requires DistinctBy(groups, GroupIDOf) && i < |rows|
    requires PrimaryKey(joins)
    ensures var e := EdgesOf(q, rows, i); multiset(e.groups) == multiset(ThroughRows(e.accountGroups))
  {
    var ids := Ids(rows, AccountID);
    var e := EdgesOf(q, rows, i);
    TwoPathsAgree(q, q2, raw, joins, groups, rows, i);
    JoinedDistinct(Fetched(q.withGroups, ids), OwnKey(ids, i));
    assert Distinct(e.groups);
    var ags := e.accountGroups;
    forall m, n | 0 <= m < n < |ags| && ags[m].edges.group.Some?
      ensures ags[m].edges.group != ags[n].edges.group
    {
      GroupsOfRowsDiffer(q.withAccountGroups.value, raw, q2, joins, groups, ids, OwnKey(ids, i), m, n);
    }
    ThroughRowsDistinct(e.accountGroups);
    forall g ensures multiset(e.groups)[g] == multiset(ThroughRows(e.accountGroups))[g] {
      DistinctCount(e.groups, g);
      DistinctCount(ThroughRows(e.accountGroups), g);
    }
  }

  ghost predicate PrimaryKey(joins: seq<AccountGroupRow>) {
    forall i, j | 0 <= i < j < |joins| ::
      joins[i].accountID != joins[j].accountID || joins[i].groupID != joins[j].groupID
  }
}
