/**
 The eager-loading batch joins behind `AccountQuery.sqlAll` and `AccountGroupQuery.sqlAll`.
 A loader gets the nodes of the main query, asks one neighbour query for all of them, and hands
 the answer's rows back to the nodes through an index it has built. The generated loaders
 are three templates, told apart by the node's and the row's key and by the `init` and `assign`
 closures they are called with; each template is one generic method here.
 */
module EagerLoad {
  import opened Wrappers

  // ----- nodes ----------------------------------------------------------------------------

  /** A scanned row with the edges the loaders fill in. */
  class Node<R, E> {
    const row: R
    var edges: E

    constructor (row: R, edges: E)
      ensures this.row == row && this.edges == edges
    {
      this.row := row;
      this.edges := edges;
    }
  }

  /** What running a neighbour query yields. */
  datatype Answer<+T> = Rows(rows: seq<T>) | QueryFailed

  datatype LoadError =
    | NeighborQueryFailed
    | UnexpectedNeighbor(id: int)
    | NilForeignKey

  function RowsOf<R, E>(nodes: seq<Node<R, E>>): (r: seq<R>)
    ensures |r| == |nodes| && forall i | 0 <= i < |nodes| :: r[i] == nodes[i].row
  {
    seq(|nodes|, i requires 0 <= i < |nodes| => nodes[i].row)
  }

  function Ids<R>(rows: seq<R>, idOf: R -> int): (r: seq<int>)
    ensures |r| == |rows| && forall i | 0 <= i < |rows| :: r[i] == idOf(rows[i])
  {
    seq(|rows|, i requires 0 <= i < |rows| => idOf(rows[i]))
  }

  // ----- many-to-one ----------------------------------------------------------------------

  /** The non-nil keys of the rows, each once, in order of first use. */
  function FirstUse<R>(rows: seq<R>, fk: R -> Option<int>): (ks: seq<int>)
    ensures Distinct(ks)
  {
    if rows == [] then []
    else
      var ks := FirstUse(rows[..|rows| - 1], fk);
      match fk(rows[|rows| - 1])
      case None => ks
      case Some(k) => if k in ks then ks else ks + [k]
  }

  /** The keys to ask for depend on the rows' keys only. */
  lemma {:induction false} FirstUseByKeys<R>(a: seq<R>, b: seq<R>, fk: R -> Option<int>)
    requires |a| == |b| && forall i | 0 <= i < |a| :: fk(a[i]) == fk(b[i])
    ensures FirstUse(a, fk) == FirstUse(b, fk)
  {
    if a != [] {
      FirstUseByKeys(a[..|a| - 1], b[..|b| - 1], fk);
    }
  }

  /** The nodes whose key is `k`, in order. */
  function Sharing<R, E>(nodes: seq<Node<R, E>>, fk: R -> Option<int>, k: int): (r: seq<Node<R, E>>)
    ensures forall n | n in r :: n in nodes && fk(n.row) == Some(k)
    ensures forall n | n in nodes && fk(n.row) == Some(k) :: n in r
  {
    if nodes == [] then []
    else
      var last := nodes[|nodes| - 1];
      Sharing(nodes[..|nodes| - 1], fk, k) + (if fk(last.row) == Some(k) then [last] else [])
  }

  lemma {:induction false} SharingDistinct<R, E>(nodes: seq<Node<R, E>>, fk: R -> Option<int>, k: int)
    requires Distinct(nodes)
    ensures Distinct(Sharing(nodes, fk, k))
  {
    if nodes != [] {
      SharingDistinct(nodes[..|nodes| - 1], fk, k);
    }
  }

  /** A key is listed exactly when some node uses it. */
  lemma {:induction false} FirstUseListsKeys<R, E>(nodes: seq<Node<R, E>>, fk: R -> Option<int>, k: int)
    ensures k in FirstUse(RowsOf(nodes), fk) <==> Sharing(nodes, fk, k) != []
  {
    if nodes != [] {
      assert RowsOf(nodes)[..|nodes| - 1] == RowsOf(nodes[..|nodes| - 1]);
      FirstUseListsKeys(nodes[..|nodes| - 1], fk, k);
    }
  }

  ghost predicate Bucketed<R, E>(nodes: seq<Node<R, E>>, fk: R -> Option<int>,
                                 ids: seq<int>, nodeids: map<int, seq<Node<R, E>>>)
  {
    && ids == FirstUse(RowsOf(nodes), fk)
    && (forall k :: k in nodeids <==> k in ids)
    && (forall k | k in nodeids :: nodeids[k] == Sharing(nodes, fk, k))
  }

  lemma BucketStep<R, E>(nodes: seq<Node<R, E>>, fk: R -> Option<int>,
                         ids: seq<int>, nodeids: map<int, seq<Node<R, E>>>)
    returns (ids': seq<int>, nodeids': map<int, seq<Node<R, E>>>)
    requires nodes != [] && Bucketed(nodes[..|nodes| - 1], fk, ids, nodeids)
    ensures Bucketed(nodes, fk, ids', nodeids')
    ensures match fk(nodes[|nodes| - 1].row)
            case None => ids' == ids && nodeids' == nodeids
            case Some(k) =>
              && ids' == (if k in nodeids then ids else ids + [k])
              && nodeids' == nodeids[k := (if k in nodeids then nodeids[k] else []) + [nodes[|nodes| - 1]]]
  {
    var init, last := nodes[..|nodes| - 1], nodes[|nodes| - 1];
    assert RowsOf(nodes)[..|nodes| - 1] == RowsOf(init);
    match fk(last.row) {
      case None =>
        ids', nodeids' := ids, nodeids;
        forall k | k in nodeids' ensures nodeids'[k] == Sharing(nodes, fk, k) {
          SharingLast(nodes, fk, k);
        }
      case Some(k) =>
        FirstUseListsKeys(init, fk, k);
        ids' := if k in nodeids then ids else ids + [k];
        nodeids' := nodeids[k := (if k in nodeids then nodeids[k] else []) + [last]];
        assert ids' == FirstUse(RowsOf(nodes), fk);
        forall j | j in nodeids' ensures nodeids'[j] == Sharing(nodes, fk, j) {
          SharingLast(nodes, fk, j);
        }
    }
  }

  lemma {:induction false} SharingLast<R, E>(nodes: seq<Node<R, E>>, fk: R -> Option<int>, k: int)
    requires nodes != []
    ensures var init, last := Sharing(nodes[..|nodes| - 1], fk, k), nodes[|nodes| - 1];
            Sharing(nodes, fk, k) == if fk(last.row) == Some(k) then init + [last] else init
  {
  }

  /** The rows whose key is the node's, assigned to its edges in the order returned. */
  function Attached<E, T>(rows: seq<T>, keyOf: T -> Option<int>, key: Option<int>,
                          assign: (E, T) -> E, before: E): E
  {
    if rows == [] then before
    else
      var last := rows[|rows| - 1];
      var edges := Attached(rows[..|rows| - 1], keyOf, key, assign, before);
      if key.Some? && keyOf(last) == key then assign(edges, last) else edges
  }

  /** A row's own id as the key it answers to. */
  function ById<T>(idOf: T -> int): T -> Option<int> {
    t => Some(idOf(t))
  }

  method AssignAll<R, E, T>(bucket: seq<Node<R, E>>, t: T, assign: (E, T) -> E)
    requires Distinct(bucket)
    modifies bucket
    ensures forall n | n in bucket :: n.edges == assign(old(n.edges), t)
  {
    for b := 0 to |bucket|
      invariant forall i | 0 <= i < b :: bucket[i].edges == assign(old(bucket[i].edges), t)
      invariant forall i | b <= i < |bucket| :: bucket[i].edges == old(bucket[i].edges)
    {
      bucket[b].edges := assign(bucket[b].edges, t);
    }
  }

  /** The opening loop of the many-to-one loaders: the keys asked for, and the nodes waiting for each. */
  method BucketNodes<R, E>(nodes: seq<Node<R, E>>, fk: R -> Option<int>)
    returns (ids: seq<int>, nodeids: map<int, seq<Node<R, E>>>)
    ensures Bucketed(nodes, fk, ids, nodeids)
  {
    ids, nodeids := [], map[];
    for i := 0 to |nodes|
      invariant Bucketed(nodes[..i], fk, ids, nodeids)
    {
      assert nodes[..i + 1][..i] == nodes[..i];
      ghost var ids', nodeids' := BucketStep(nodes[..i + 1], fk, ids, nodeids);
      if fk(nodes[i].row).Some? {
        var k := fk(nodes[i].row).value;
        if k !in nodeids {
          ids := ids + [k];
          nodeids := nodeids[k := []];
        }
        nodeids := nodeids[k := nodeids[k] + [nodes[i]]];
      }
    }
    assert nodes[..|nodes|] == nodes;
  }

  /** The template of `loadProxy`, `loadParent`, `loadAccount` and `loadGroup`. */
  method LoadManyToOne<R, E, T>(nodes: seq<Node<R, E>>, fk: R -> Option<int>, ask: seq<int> -> Answer<T>,
                                idOf: T -> int, assign: (E, T) -> E)
    returns (err: Option<LoadError>)
    requires Distinct(nodes)
    modifies nodes
    ensures var ids := FirstUse(RowsOf(nodes), fk);
            if ids == [] then err.None? && forall n | n in nodes :: n.edges == old(n.edges)
            else if ask(ids).QueryFailed? then err == Some(NeighborQueryFailed)
            else
              && err == FirstFault(ask(ids).rows, ById(idOf), ids)
              && (err.None? ==> forall n | n in nodes ::
                    n.edges == Attached(ask(ids).rows, ById(idOf), fk(n.row), assign, old(n.edges)))
  {
    var ids, nodeids := BucketNodes(nodes, fk);
    if |ids| == 0 {
      return None;
    }
    var answer := ask(ids);
    if answer.QueryFailed? {
      return Some(NeighborQueryFailed);
    }
    err := HandToBuckets(nodes, fk, ids, nodeids, answer.rows, idOf, assign);
  }

  /** The closing loop of the many-to-one loaders. */
  method HandToBuckets<R, E, T>(nodes: seq<Node<R, E>>, ghost fk: R -> Option<int>, ghost ids: seq<int>,
                                nodeids: map<int, seq<Node<R, E>>>, neighbors: seq<T>, idOf: T -> int,
                                assign: (E, T) -> E)
    returns (err: Option<LoadError>)
    requires Distinct(nodes) && Bucketed(nodes, fk, ids, nodeids)
    modifies nodes
    ensures err == FirstFault(neighbors, ById(idOf), ids)
    ensures err.None? ==> forall n | n in nodes ::
                n.edges == Attached(neighbors, ById(idOf), fk(n.row), assign, old(n.edges))
  {
    for j := 0 to |neighbors|
      invariant FirstFault(neighbors, ById(idOf), ids) == FirstFault(neighbors[j..], ById(idOf), ids)
      invariant forall n | n in nodes ::
          n.edges == Attached(neighbors[..j], ById(idOf), fk(n.row), assign, old(n.edges))
    {
      var t := neighbors[j];
      assert neighbors[..j + 1][..j] == neighbors[..j];
      var k := idOf(t);
      if k !in nodeids {
        return Some(UnexpectedNeighbor(k));
      }
      var bucket := nodeids[k];
      SharingDistinct(nodes, fk, k);
      assert forall b | 0 <= b < |bucket| :: bucket[b] in nodes;
      AssignAll(bucket, t, assign);
    }
    assert neighbors[..|neighbors|] == neighbors;
    return None;
  }

  /** The error of the first row that cannot be attributed to an asked-for key, if any. */
  function FirstFault<T>(rows: seq<T>, keyOf: T -> Option<int>, ids: seq<int>): Option<LoadError> {
    if rows == [] then None
    else match keyOf(rows[0])
      case None => Some(NilForeignKey)
      case Some(k) => if k in ids then FirstFault(rows[1..], keyOf, ids) else Some(UnexpectedNeighbor(k))
  }

  // ----- one-to-many ----------------------------------------------------------------------

  /** The template of `loadChildren`, `loadUsageLogs` and `loadAccountGroups`. */
  method LoadOneToMany<R, E, T>(nodes: seq<Node<R, E>>, idOf: R -> int, ask: seq<int> -> Answer<T>,
                                fkOf: T -> Option<int>, init: E -> E, assign: (E, T) -> E)
    returns (err: Option<LoadError>)
    requires Distinct(nodes)
    modifies nodes
    ensures var ids := Ids(RowsOf(nodes), idOf);
            if ask(ids).QueryFailed? then err == Some(NeighborQueryFailed)
            else
              && err == FirstFault(ask(ids).rows, fkOf, ids)
              && (err.None? ==> forall i | 0 <= i < |nodes| ::
                    nodes[i].edges ==
                    Attached(ask(ids).rows, fkOf, OwnKey(ids, i), assign, init(old(nodes[i].edges))))
  {
    var fks, nodeids := IndexNodes(nodes, idOf, init);
    var answer := ask(fks);
    if answer.QueryFailed? {
      return Some(NeighborQueryFailed);
    }
    err := HandOut(nodes, fks, nodeids, answer.rows, fkOf, assign);
  }

  /** The opening loop of the loaders that index their nodes by id. */
  method IndexNodes<R, E>(nodes: seq<Node<R, E>>, idOf: R -> int, init: E -> E)
    returns (ids: seq<int>, nodeids: map<int, Node<R, E>>)
    requires Distinct(nodes)
    modifies nodes
    ensures ids == Ids(RowsOf(nodes), idOf) && Indexed(nodes, ids, nodeids)
    ensures forall n | n in nodes :: n.edges == init(old(n.edges))
  {
    ids, nodeids := [], map[];
    for i := 0 to |nodes|
      invariant |ids| == i && ids == Ids(RowsOf(nodes[..i]), idOf)
      invariant Indexed(nodes[..i], ids, nodeids)
      invariant forall m | 0 <= m < i :: nodes[m].edges == init(old(nodes[m].edges))
      invariant forall m | i <= m < |nodes| :: nodes[m].edges == old(nodes[m].edges)
    {
      assert nodes[..i + 1][..i] == nodes[..i];
      ghost var was := ids;
      ids := ids + [idOf(nodes[i].row)];
      assert ids[..i] == was;
      IndexStep(nodes[..i + 1], ids, nodeids);
      nodeids := nodeids[idOf(nodes[i].row) := nodes[i]];
      nodes[i].edges := init(nodes[i].edges);
    }
    assert nodes[..|nodes|] == nodes;
  }

  /** The closing loop of the one-to-many loaders. */
  method HandOut<R, E, T>(nodes: seq<Node<R, E>>, ghost ids: seq<int>, nodeids: map<int, Node<R, E>>,
                          neighbors: seq<T>, fkOf: T -> Option<int>, assign: (E, T) -> E)
    returns (err: Option<LoadError>)
    requires Distinct(nodes) && |ids| == |nodes| && Indexed(nodes, ids, nodeids)
    modifies nodes
    ensures err == FirstFault(neighbors, fkOf, ids)
    ensures err.None? ==> forall i | 0 <= i < |nodes| ::
                nodes[i].edges == Attached(neighbors, fkOf, OwnKey(ids, i), assign, old(nodes[i].edges))
  {
    for j := 0 to |neighbors|
      invariant FirstFault(neighbors, fkOf, ids) == FirstFault(neighbors[j..], fkOf, ids)
      invariant forall i | 0 <= i < |nodes| ::
          nodes[i].edges == Attached(neighbors[..j], fkOf, OwnKey(ids, i), assign, old(nodes[i].edges))
    {
      var t := neighbors[j];
      assert neighbors[..j + 1][..j] == neighbors[..j];
      if fkOf(t).None? {
        return Some(NilForeignKey);
      }
      var fk := fkOf(t).value;
      if fk !in nodeids {
        return Some(UnexpectedNeighbor(fk));
      }
      var node := nodeids[fk];
      assert forall i | 0 <= i < |nodes| :: OwnKey(ids, i) == Some(fk) <==> nodes[i] == node;
      node.edges := assign(node.edges, t);
    }
    assert neighbors[..|neighbors|] == neighbors;
    return None;
  }

  /** The id under which the `i`-th node can be found in the index: only the last bearer of an id can. */
  function OwnKey(ids: seq<int>, i: nat): (k: Option<int>)
    requires i < |ids|
  {
    if LastAt(ids, ids[i]) == i then Some(ids[i]) else None
  }

  /** An index by id holds, for each id, the last node bearing it. */
  ghost predicate Indexed<R, E>(nodes: seq<Node<R, E>>, ids: seq<int>, byID: map<int, Node<R, E>>)
    requires |ids| == |nodes|
  {
    && (forall k :: k in byID <==> k in ids)
    && (forall k | k in byID :: LastAt(ids, k) >= 0 && byID[k] == nodes[LastAt(ids, k)])
  }

  lemma IndexStep<R, E>(nodes: seq<Node<R, E>>, ids: seq<int>, byID: map<int, Node<R, E>>)
    requires |ids| == |nodes| > 0
    requires Indexed(nodes[..|nodes| - 1], ids[..|ids| - 1], byID)
    ensures Indexed(nodes, ids, byID[ids[|ids| - 1] := nodes[|nodes| - 1]])
  {
    assert ids == ids[..|ids| - 1] + [ids[|ids| - 1]];
  }

  // ----- many-to-many ---------------------------------------------------------------------

  /** One row of the joined query: the join table's owner column, then the neighbour. */
  datatype JoinRow<+T> = JoinRow(owner: int, neighbor: T)

  /** The neighbours of the stream, each at its first appearance only. */
  function FirstSeen<T>(rows: seq<JoinRow<T>>, idOf: T -> int): (r: seq<T>)
  {
    if rows == [] then []
    else
      var last := rows[|rows| - 1].neighbor;
      var seen := FirstSeen(rows[..|rows| - 1], idOf);
      if idOf(last) in NeighborIds(rows[..|rows| - 1], idOf) then seen else seen + [last]
  }

  function NeighborIds<T>(rows: seq<JoinRow<T>>, idOf: T -> int): (r: seq<int>)
    ensures |r| == |rows| && forall i | 0 <= i < |rows| :: r[i] == idOf(rows[i].neighbor)
  {
    seq(|rows|, i requires 0 <= i < |rows| => idOf(rows[i].neighbor))
  }

  /** The ids joined to `key` somewhere in the stream. */
  function Links<T>(rows: seq<JoinRow<T>>, idOf: T -> int, key: Option<int>): (r: set<int>)
    ensures forall g :: g in r <==>
              exists i | 0 <= i < |rows| :: key == Some(rows[i].owner) && idOf(rows[i].neighbor) == g
  {
    set i | 0 <= i < |rows| && key == Some(rows[i].owner) :: idOf(rows[i].neighbor)
  }

  /** The neighbours whose id is linked, assigned in order. */
  function AttachedLinked<E, T>(neighbors: seq<T>, idOf: T -> int, links: set<int>,
                                assign: (E, T) -> E, before: E): E
  {
    if neighbors == [] then before
    else
      var last := neighbors[|neighbors| - 1];
      var edges := AttachedLinked(neighbors[..|neighbors| - 1], idOf, links, assign, before);
      if idOf(last) in links then assign(edges, last) else edges
  }

  /** What the row callback has built after a prefix of the stream. */
  ghost predicate Collected<R, E, T>(nodes: seq<Node<R, E>>, ids: seq<int>, rows: seq<JoinRow<T>>, idOf: T -> int,
                                     neighbors: seq<T>, nids: map<int, set<Node<R, E>>>)
    requires |ids| == |nodes|
  {
    && neighbors == FirstSeen(rows, idOf)
    && (forall g :: g in nids <==> g in NeighborIds(rows, idOf))
    && (forall g | g in nids :: forall n | n in nids[g] :: n in nodes)
    && (forall g, i | g in nids && 0 <= i < |nodes| ::
          nodes[i] in nids[g] <==> g in Links(rows, idOf, OwnKey(ids, i)))
  }

  /** The row callback of `loadGroups`: groups seen before only gain an owner. */
  method Collect<R, E, T>(nodes: seq<Node<R, E>>, ghost ids: seq<int>, byID: map<int, Node<R, E>>,
                          rows: seq<JoinRow<T>>, idOf: T -> int)
    returns (neighbors: seq<T>, nids: map<int, set<Node<R, E>>>)
    requires Distinct(nodes) && |ids| == |nodes| && Indexed(nodes, ids, byID)
    requires forall i | 0 <= i < |rows| :: rows[i].owner in ids
    ensures Collected(nodes, ids, rows, idOf, neighbors, nids)
  {
    neighbors, nids := [], map[];
    for j := 0 to |rows|
      invariant Collected(nodes, ids, rows[..j], idOf, neighbors, nids)
    {
      var outValue, inValue := rows[j].owner, idOf(rows[j].neighbor);
      assert rows[..j + 1] == rows[..j] + [rows[j]];
      assert forall i | 0 <= i < |nodes| :: OwnKey(ids, i) == Some(outValue) <==> nodes[i] == byID[outValue];
      CollectStep(nodes, ids, rows[..j], idOf, neighbors, nids, rows[j], byID[outValue]);
      if inValue !in nids {
        nids := nids[inValue := {byID[outValue]}];
        neighbors := neighbors + [rows[j].neighbor];
      } else {
        nids := nids[inValue := nids[inValue] + {byID[outValue]}];
      }
    }
    assert rows[..|rows|] == rows;
  }

  /** One more row: its group gains the owner, and is kept if it has not been seen. */
  lemma CollectStep<R, E, T>(nodes: seq<Node<R, E>>, ids: seq<int>, rows: seq<JoinRow<T>>, idOf: T -> int,
                             neighbors: seq<T>, nids: map<int, set<Node<R, E>>>, row: JoinRow<T>, owner: Node<R, E>)
    requires |ids| == |nodes| && Collected(nodes, ids, rows, idOf, neighbors, nids) && owner in nodes
    requires forall i | 0 <= i < |nodes| :: OwnKey(ids, i) == Some(row.owner) <==> nodes[i] == owner
    ensures var g := idOf(row.neighbor);
            if g in nids then Collected(nodes, ids, rows + [row], idOf, neighbors, nids[g := nids[g] + {owner}])
            else Collected(nodes, ids, rows + [row], idOf, neighbors + [row.neighbor], nids[g := {owner}])
  {
    var all, g := rows + [row], idOf(row.neighbor);
    assert all[..|rows|] == rows;
    assert NeighborIds(all, idOf) == NeighborIds(rows, idOf) + [g];
    LinksStep(all, idOf);
    if g !in nids {
      NoLinksBefore(rows, idOf, g);
    }
  }

  lemma LinksStep<T>(rows: seq<JoinRow<T>>, idOf: T -> int)
    requires rows != []
    ensures forall key :: Links(rows, idOf, key) ==
              Links(rows[..|rows| - 1], idOf, key) +
              if key == Some(rows[|rows| - 1].owner) then {idOf(rows[|rows| - 1].neighbor)} else {}
  {
  }

  lemma NoLinksBefore<T>(rows: seq<JoinRow<T>>, idOf: T -> int, g: int)
    requires g !in NeighborIds(rows, idOf)
    ensures forall key :: g !in Links(rows, idOf, key)
  {
    forall i | 0 <= i < |rows| ensures idOf(rows[i].neighbor) != g {
      assert NeighborIds(rows, idOf)[i] in NeighborIds(rows, idOf);
    }
  }

  method AssignSet<R, E, T>(owners: set<Node<R, E>>, t: T, assign: (E, T) -> E)
    modifies owners
    ensures forall n | n in owners :: n.edges == assign(old(n.edges), t)
  {
    var left := owners;
    while left != {}
      invariant left <= owners
      invariant forall n | n in left :: n.edges == old(n.edges)
      invariant forall n | n in owners - left :: n.edges == assign(old(n.edges), t)
    {
      var kn :| kn in left;
      kn.edges := assign(kn.edges, t);
      left := left - {kn};
    }
  }

  /** The template of `loadGroups`. `ask` gives the joined row stream, `inters` the interceptors' effect. */
  method LoadManyToMany<R, E, T>(nodes: seq<Node<R, E>>, idOf: R -> int, ask: seq<int> -> Answer<JoinRow<T>>,
                                 inters: seq<T> -> seq<T>, tid: T -> int, init: E -> E, assign: (E, T) -> E)
    returns (err: Option<LoadError>)
    requires Distinct(nodes)
    requires var a := ask(Ids(RowsOf(nodes), idOf));
             a.Rows? ==> forall i | 0 <= i < |a.rows| :: a.rows[i].owner in Ids(RowsOf(nodes), idOf)
    modifies nodes
    ensures var ids := Ids(RowsOf(nodes), idOf);
            if ask(ids).QueryFailed? then err == Some(NeighborQueryFailed)
            else
              var rows := ask(ids).rows;
              var neighbors := inters(FirstSeen(rows, tid));
              && err == FirstFault(neighbors, ById(tid), NeighborIds(rows, tid))
              && (err.None? ==> forall i | 0 <= i < |nodes| ::
                    nodes[i].edges == AttachedLinked(neighbors, tid, Links(rows, tid, OwnKey(ids, i)),
                                                     assign, init(old(nodes[i].edges))))
  {
    var edgeIDs, byID := IndexNodes(nodes, idOf, init);
    var answer := ask(edgeIDs);
    if answer.QueryFailed? {
      return Some(NeighborQueryFailed);
    }
    var neighbors, nids := Collect(nodes, edgeIDs, byID, answer.rows, tid);
    neighbors := inters(neighbors);
    err := Spread(nodes, edgeIDs, answer.rows, nids, neighbors, tid, assign);
  }

  method Spread<R, E, T>(nodes: seq<Node<R, E>>, ghost ids: seq<int>, ghost rows: seq<JoinRow<T>>,
                         nids: map<int, set<Node<R, E>>>, neighbors: seq<T>, tid: T -> int, assign: (E, T) -> E)
    returns (err: Option<LoadError>)
    requires Distinct(nodes) && |ids| == |nodes|
    requires Collected(nodes, ids, rows, tid, FirstSeen(rows, tid), nids)
    modifies nodes
    ensures err == FirstFault(neighbors, ById(tid), NeighborIds(rows, tid))
    ensures err.None? ==> forall i | 0 <= i < |nodes| ::
                nodes[i].edges == AttachedLinked(neighbors, tid, Links(rows, tid, OwnKey(ids, i)),
                                                 assign, old(nodes[i].edges))
  {
    ghost var known := NeighborIds(rows, tid);
    for j := 0 to |neighbors|
      invariant FirstFault(neighbors, ById(tid), known) == FirstFault(neighbors[j..], ById(tid), known)
      invariant forall i | 0 <= i < |nodes| ::
          nodes[i].edges == AttachedLinked(neighbors[..j], tid, Links(rows, tid, OwnKey(ids, i)),
                                           assign, old(nodes[i].edges))
    {
      var n := neighbors[j];
      assert neighbors[..j + 1][..j] == neighbors[..j];
      if tid(n) !in nids {
        return Some(UnexpectedNeighbor(tid(n)));
      }
      var owners := nids[tid(n)];
      AssignSet(owners, n, assign);
    }
    assert neighbors[..|neighbors|] == neighbors;
    return None;
  }
}
