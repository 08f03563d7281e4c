/** The account and account-group queries: which loader runs for which edge, and in what order. */
module AccountQueries {
  import opened Wrappers
  import opened EagerLoad

  // ----- entities -------------------------------------------------------------------------

  datatype Group = Group(id: int, name: string)
  datatype Proxy = Proxy(id: int, host: string)
  datatype UsageLog = UsageLog(id: int, accountID: int)
  datatype AccountRow = AccountRow(id: int, proxyID: Option<int>, parentID: Option<int>)
  datatype AccountGroupRow = AccountGroupRow(accountID: int, groupID: int, priority: int, createdAt: int)

  datatype AccountEdges = AccountEdges(
    groups: seq<Group>,
    proxy: Option<Proxy>,
    parent: Option<AccountRow>,
    children: seq<AccountRow>,
    usageLogs: seq<UsageLog>,
    accountGroups: seq<AccountGroup>,
    loadedTypes: LoadedTypes)

  datatype LoadedTypes = LoadedTypes(
    groups: bool, proxy: bool, parent: bool, children: bool, usageLogs: bool, accountGroups: bool)

  datatype AccountGroupEdges =
    AccountGroupEdges(account: Option<AccountRow>, group: Option<Group>, loadedAccount: bool, loadedGroup: bool)

  /** A loaded account-group row as its owner sees it. */
  datatype AccountGroup = AccountGroup(row: AccountGroupRow, edges: AccountGroupEdges)

  type AccountNode = Node<AccountRow, AccountEdges>
  type AccountGroupNode = Node<AccountGroupRow, AccountGroupEdges>

  // ----- accessors ------------------------------------------------------------------------

  datatype EdgeResult<+T> = Loaded(value: T) | NotFound | NotLoaded

  function GroupsOrErr(e: AccountEdges): EdgeResult<seq<Group>> {
    if e.loadedTypes.groups then Loaded(e.groups) else NotLoaded
  }

  function ProxyOrErr(e: AccountEdges): EdgeResult<Proxy> {
    if e.proxy.Some? then Loaded(e.proxy.value) else if e.loadedTypes.proxy then NotFound else NotLoaded
  }

  function ParentOrErr(e: AccountEdges): EdgeResult<AccountRow> {
    if e.parent.Some? then Loaded(e.parent.value) else if e.loadedTypes.parent then NotFound else NotLoaded
  }

  function ChildrenOrErr(e: AccountEdges): EdgeResult<seq<AccountRow>> {
    if e.loadedTypes.children then Loaded(e.children) else NotLoaded
  }

  function UsageLogsOrErr(e: AccountEdges): EdgeResult<seq<UsageLog>> {
    if e.loadedTypes.usageLogs then Loaded(e.usageLogs) else NotLoaded
  }

  function AccountGroupsOrErr(e: AccountEdges): EdgeResult<seq<AccountGroup>> {
    if e.loadedTypes.accountGroups then Loaded(e.accountGroups) else NotLoaded
  }

  function AccountOrErr(e: AccountGroupEdges): EdgeResult<AccountRow> {
    if e.account.Some? then Loaded(e.account.value) else if e.loadedAccount then NotFound else NotLoaded
  }

  function GroupOrErr(e: AccountGroupEdges): EdgeResult<Group> {
    if e.group.Some? then Loaded(e.group.value) else if e.loadedGroup then NotFound else NotLoaded
  }

  // ----- keys and closures ----------------------------------------------------------------

  function AccountID(r: AccountRow): int { r.id }
  function ProxyFK(r: AccountRow): Option<int> { r.proxyID }
  function ParentFK(r: AccountRow): Option<int> { r.parentID }
  function ProxyIDOf(p: Proxy): int { p.id }
  function GroupIDOf(g: Group): int { g.id }
  function UsageLogFK(l: UsageLog): Option<int> { Some(l.accountID) }
  function AccountGroupFK(g: AccountGroup): Option<int> { Some(g.row.accountID) }
  function AccountFK(r: AccountGroupRow): Option<int> { Some(r.accountID) }
  function GroupFK(r: AccountGroupRow): Option<int> { Some(r.groupID) }

  function InitGroups(e: AccountEdges): AccountEdges { e.(groups := []) }
  function AddGroup(e: AccountEdges, g: Group): AccountEdges { e.(groups := e.groups + [g]) }
  function SetProxy(e: AccountEdges, p: Proxy): AccountEdges { e.(proxy := Some(p)) }
  function SetParent(e: AccountEdges, a: AccountRow): AccountEdges { e.(parent := Some(a)) }
  function InitChildren(e: AccountEdges): AccountEdges { e.(children := []) }
  function AddChild(e: AccountEdges, a: AccountRow): AccountEdges { e.(children := e.children + [a]) }
  function InitUsageLogs(e: AccountEdges): AccountEdges { e.(usageLogs := []) }
  function AddUsageLog(e: AccountEdges, l: UsageLog): AccountEdges { e.(usageLogs := e.usageLogs + [l]) }
  function InitAccountGroups(e: AccountEdges): AccountEdges { e.(accountGroups := []) }
  function AddAccountGroup(e: AccountEdges, g: AccountGroup): AccountEdges {
    e.(accountGroups := e.accountGroups + [g])
  }
  function SetAccount(e: AccountGroupEdges, a: AccountRow): AccountGroupEdges { e.(account := Some(a)) }
  function SetGroup(e: AccountGroupEdges, g: Group): AccountGroupEdges { e.(group := Some(g)) }

  // ----- what a loader leaves on an edge ---------------------------------------------------

  /** The row a many-to-one edge ends on. */
  function Referenced<T>(rows: seq<T>, idOf: T -> int, key: Option<int>): (r: Option<T>) {
    if rows == [] || key.None? then None
    else if idOf(rows[|rows| - 1]) == key.value then Some(rows[|rows| - 1])
    else Referenced(rows[..|rows| - 1], idOf, key)
  }

  function RefersTo<T>(fk: T -> Option<int>, key: Option<int>): T -> bool {
    t => key.Some? && fk(t) == key
  }

  function LinkedBy<T>(idOf: T -> int, links: set<int>): T -> bool {
    t => idOf(t) in links
  }

  /** The rows a one-to-many edge ends with. */
  function Referring<T>(rows: seq<T>, fk: T -> Option<int>, key: Option<int>): (r: seq<T>) {
    Filter(rows, RefersTo(fk, key))
  }

  /** The neighbours a many-to-many edge ends with. */
  function Joined<T>(rows: seq<JoinRow<T>>, idOf: T -> int, key: Option<int>): (r: seq<T>) {
    Filter(FirstSeen(rows, idOf), LinkedBy(idOf, Links(rows, idOf, key)))
  }

  // The fold of each assign closure is the edge named above and touches nothing else.

  lemma {:induction false} ProxyEdge(rows: seq<Proxy>, key: Option<int>, e: AccountEdges)
    requires e.proxy == None
    ensures Attached(rows, ById(ProxyIDOf), key, SetProxy, e) == e.(proxy := Referenced(rows, ProxyIDOf, key))
  {
    if rows != [] { ProxyEdge(rows[..|rows| - 1], key, e); }
  }

  lemma {:induction false} ParentEdge(rows: seq<AccountRow>, key: Option<int>, e: AccountEdges)
    requires e.parent == None
    ensures Attached(rows, ById(AccountID), key, SetParent, e) == e.(parent := Referenced(rows, AccountID, key))
  {
    if rows != [] { ParentEdge(rows[..|rows| - 1], key, e); }
  }

  lemma {:induction false} ChildrenEdge(rows: seq<AccountRow>, key: Option<int>, e: AccountEdges)
    ensures Attached(rows, ParentFK, key, AddChild, InitChildren(e)) ==
            e.(children := Referring(rows, ParentFK, key))
  {
    if rows != [] { ChildrenEdge(rows[..|rows| - 1], key, e); }
  }

  lemma {:induction false} UsageLogsEdge(rows: seq<UsageLog>, key: Option<int>, e: AccountEdges)
    ensures Attached(rows, UsageLogFK, key, AddUsageLog, InitUsageLogs(e)) ==
            e.(usageLogs := Referring(rows, UsageLogFK, key))
  {
    if rows != [] { UsageLogsEdge(rows[..|rows| - 1], key, e); }
  }

  lemma {:induction false} AccountGroupsEdge(rows: seq<AccountGroup>, key: Option<int>, e: AccountEdges)
    ensures Attached(rows, AccountGroupFK, key, AddAccountGroup, InitAccountGroups(e)) ==
            e.(accountGroups := Referring(rows, AccountGroupFK, key))
  {
    if rows != [] { AccountGroupsEdge(rows[..|rows| - 1], key, e); }
  }

  lemma {:induction false} GroupsEdge(neighbors: seq<Group>, links: set<int>, e: AccountEdges)
    ensures AttachedLinked(neighbors, GroupIDOf, links, AddGroup, InitGroups(e)) ==
            e.(groups := Filter(neighbors, LinkedBy(GroupIDOf, links)))
  {
    if neighbors != [] { GroupsEdge(neighbors[..|neighbors| - 1], links, e); }
  }

  // ----- the account query ----------------------------------------------------------------

  /** The edges to load eagerly, each with its neighbour query as a function of the ids it asks for. */
  datatype AccountQuery = AccountQuery(
    withGroups: Option<seq<int> -> Answer<JoinRow<Group>>>,
    withProxy: Option<seq<int> -> Answer<Proxy>>,
    withParent: Option<seq<int> -> Answer<AccountRow>>,
    withChildren: Option<seq<int> -> Answer<AccountRow>>,
    withUsageLogs: Option<seq<int> -> Answer<UsageLog>>,
    withAccountGroups: Option<seq<int> -> Answer<AccountGroup>>)

  function Loads(q: AccountQuery): LoadedTypes {
    LoadedTypes(q.withGroups.Some?, q.withProxy.Some?, q.withParent.Some?,
                q.withChildren.Some?, q.withUsageLogs.Some?, q.withAccountGroups.Some?)
  }

  function FreshEdges(loaded: LoadedTypes): AccountEdges {
    AccountEdges([], None, None, [], [], [], loaded)
  }

  function Fetched<T>(ask: Option<seq<int> -> Answer<T>>, ids: seq<int>): seq<T> {
    if ask.Some? && ask.value(ids).Rows? then ask.value(ids).rows else []
  }

  /** The answer a many-to-one loader works on: nothing is asked when every key is nil. */
  function Targets<R, T>(ask: Option<seq<int> -> Answer<T>>, rows: seq<R>, fk: R -> Option<int>): seq<T> {
    if FirstUse(rows, fk) == [] then [] else Fetched(ask, FirstUse(rows, fk))
  }

  /** The edges node `i` of the result must have. */
  function EdgesOf(q: AccountQuery, rows: seq<AccountRow>, i: nat): AccountEdges
    requires i < |rows|
  {
    var ids := Ids(rows, AccountID);
    var own := OwnKey(ids, i);
    AccountEdges(
      Joined(Fetched(q.withGroups, ids), GroupIDOf, own),
      Referenced(Targets(q.withProxy, rows, ProxyFK), ProxyIDOf, rows[i].proxyID),
      Referenced(Targets(q.withParent, rows, ParentFK), AccountID, rows[i].parentID),
      Referring(Fetched(q.withChildren, ids), ParentFK, own),
      Referring(Fetched(q.withUsageLogs, ids), UsageLogFK, own),
      Referring(Fetched(q.withAccountGroups, ids), AccountGroupFK, own),
      Loads(q))
  }

  function OneFault<R, T>(ask: Option<seq<int> -> Answer<T>>, rows: seq<R>, fk: R -> Option<int>,
                          idOf: T -> int): Option<LoadError>
  {
    var ids := FirstUse(rows, fk);
    if ask.None? || ids == [] then None
    else if ask.value(ids).QueryFailed? then Some(NeighborQueryFailed)
    else FirstFault(ask.value(ids).rows, ById(idOf), ids)
  }

  /** A many-to-one edge that is not requested stays nil; one that is depends on the keys only. */
  lemma SameTargets<R, T>(ask: Option<seq<int> -> Answer<T>>, a: seq<R>, b: seq<R>, fk: R -> Option<int>, idOf: T -> int)
    requires |a| == |b|
    requires ask.Some? ==> forall j | 0 <= j < |a| :: fk(a[j]) == fk(b[j])
    ensures Targets(ask, a, fk) == Targets(ask, b, fk)
    ensures ask.None? ==> Targets(ask, a, fk) == []
    ensures OneFault(ask, a, fk, idOf) == OneFault(ask, b, fk, idOf)
  {
    if ask.Some? {
      FirstUseByKeys(a, b, fk);
    }
  }

  /** Each edge reads as "not loaded" exactly when it was not requested. */
  ghost predicate LoadedAsRequested(q: AccountQuery, e: AccountEdges) {
    && (GroupsOrErr(e).NotLoaded? <==> q.withGroups.None?)
    && (ProxyOrErr(e).NotLoaded? <==> q.withProxy.None?)
    && (ParentOrErr(e).NotLoaded? <==> q.withParent.None?)
    && (ChildrenOrErr(e).NotLoaded? <==> q.withChildren.None?)
    && (UsageLogsOrErr(e).NotLoaded? <==> q.withUsageLogs.None?)
    && (AccountGroupsOrErr(e).NotLoaded? <==> q.withAccountGroups.None?)
  }

  lemma NotLoadedIffNotRequested(q: AccountQuery, rows: seq<AccountRow>, i: nat)
    requires i < |rows|
    ensures LoadedAsRequested(q, EdgesOf(q, rows, i))
  {
    SameTargets(q.withProxy, rows, rows, ProxyFK, ProxyIDOf);
    SameTargets(q.withParent, rows, rows, ParentFK, AccountID);
  }

  function ManyFault<T>(ask: Option<seq<int> -> Answer<T>>, ids: seq<int>, fk: T -> Option<int>): Option<LoadError> {
    if ask.None? then None
    else if ask.value(ids).QueryFailed? then Some(NeighborQueryFailed)
    else FirstFault(ask.value(ids).rows, fk, ids)
  }

  function GroupsFault(ask: Option<seq<int> -> Answer<JoinRow<Group>>>, ids: seq<int>): Option<LoadError> {
    if ask.Some? && ask.value(ids).QueryFailed? then Some(NeighborQueryFailed) else None
  }

  /** The first loader to fail, in the order the loaders run, decides the error. */
  function LoadFault(q: AccountQuery, rows: seq<AccountRow>): Option<LoadError> {
    if rows == [] then None else ToOneFault(q, rows).OrElse(ToManyFault(q, rows))
  }

  function ToOneFault(q: AccountQuery, rows: seq<AccountRow>): Option<LoadError> {
    GroupsFault(q.withGroups, Ids(rows, AccountID))
    .OrElse(OneFault(q.withProxy, rows, ProxyFK, ProxyIDOf))
    .OrElse(OneFault(q.withParent, rows, ParentFK, AccountID))
  }

  function ToManyFault(q: AccountQuery, rows: seq<AccountRow>): Option<LoadError> {
    var ids := Ids(rows, AccountID);
    ManyFault(q.withChildren, ids, ParentFK)
    .OrElse(ManyFault(q.withUsageLogs, ids, UsageLogFK))
    .OrElse(ManyFault(q.withAccountGroups, ids, AccountGroupFK))
  }

  /** The group neighbours are what the stream itself introduced, so none of them is unexpected. */
  lemma {:induction false} StreamIsExpected(rows: seq<JoinRow<Group>>, all: seq<int>)
    requires forall g | g in NeighborIds(rows, GroupIDOf) :: g in all
    ensures forall g | g in FirstSeen(rows, GroupIDOf) :: g.id in all
  {
    if rows != [] {
      assert NeighborIds(rows, GroupIDOf)[|rows| - 1] in NeighborIds(rows, GroupIDOf);
      forall g | g in NeighborIds(rows[..|rows| - 1], GroupIDOf) ensures g in all {
        var j :| 0 <= j < |rows| - 1 && NeighborIds(rows[..|rows| - 1], GroupIDOf)[j] == g;
        assert NeighborIds(rows, GroupIDOf)[j] == g;
      }
      StreamIsExpected(rows[..|rows| - 1], all);
    }
  }

  lemma {:induction false} NoFault<T>(rows: seq<T>, keyOf: T -> Option<int>, ids: seq<int>)
    ensures FirstFault(rows, keyOf, ids) == None <==>
              forall t | t in rows :: keyOf(t).Some? && keyOf(t).value in ids
  {
    if rows != [] {
      assert rows == [rows[0]] + rows[1..];
      NoFault(rows[1..], keyOf, ids);
    }
  }

  /** Otherwise the first row without such a key is the error. */
  lemma {:induction false} FaultIsFirst<T>(rows: seq<T>, keyOf: T -> Option<int>, ids: seq<int>) returns (k: nat)
    requires FirstFault(rows, keyOf, ids).Some?
    ensures k < |rows| && forall j | 0 <= j < k :: keyOf(rows[j]).Some? && keyOf(rows[j]).value in ids
    ensures match keyOf(rows[k])
            case None => FirstFault(rows, keyOf, ids) == Some(NilForeignKey)
            case Some(id) => id !in ids && FirstFault(rows, keyOf, ids) == Some(UnexpectedNeighbor(id))
  {
    if keyOf(rows[0]).None? || keyOf(rows[0]).value !in ids {
      k := 0;
    } else {
      var l := FaultIsFirst(rows[1..], keyOf, ids);
      k := l + 1;
      assert rows[1..][l] == rows[k];
      forall j | 0 <= j < k ensures keyOf(rows[j]).Some? && keyOf(rows[j]).value in ids {
        assert j > 0 ==> rows[1..][j - 1] == rows[j];
      }
    }
  }

  lemma {:induction false} GroupsAllExpected(rows: seq<JoinRow<Group>>)
    ensures FirstFault(FirstSeen(rows, GroupIDOf), ById(GroupIDOf), NeighborIds(rows, GroupIDOf)) == None
  {
    StreamIsExpected(rows, NeighborIds(rows, GroupIDOf));
    NoFault(FirstSeen(rows, GroupIDOf), ById(GroupIDOf), NeighborIds(rows, GroupIDOf));
  }

  lemma {:induction false} JoinedEdge(rows: seq<JoinRow<Group>>, key: Option<int>, e: AccountEdges)
    ensures AttachedLinked(FirstSeen(rows, GroupIDOf), GroupIDOf, Links(rows, GroupIDOf, key), AddGroup, InitGroups(e))
            == e.(groups := Joined(rows, GroupIDOf, key))
  {
    GroupsEdge(FirstSeen(rows, GroupIDOf), Links(rows, GroupIDOf, key), e);
  }

  /** Interceptors leave the neighbour list as it is. */
  function PassThrough(gs: seq<Group>): seq<Group> { gs }

  /** The owner column of a joined stream is restricted to the ids that were asked for. */
  ghost predicate OwnersAsked(ask: Option<seq<int> -> Answer<JoinRow<Group>>>, ids: seq<int>) {
    forall r | r in Fetched(ask, ids) :: r.owner in ids
  }

  /** `AccountQuery.sqlAll` on the rows of the main query. */
  method SqlAll(q: AccountQuery, answer: Answer<AccountRow>) returns (r: Result<seq<AccountNode>, LoadError>)
    requires answer.Rows? ==> OwnersAsked(q.withGroups, Ids(answer.rows, AccountID))
    ensures answer.QueryFailed? ==> r == Failure(NeighborQueryFailed)
    ensures answer.Rows? ==>
              match LoadFault(q, answer.rows)
              case Some(e) => r == Failure(e)
              case None =>
                && r.Success?
                && RowsOf(r.value) == answer.rows
                && fresh(r.value) && Distinct(r.value)
                && (forall i | 0 <= i < |r.value| :: r.value[i].edges == EdgesOf(q, answer.rows, i))
                && (forall i | 0 <= i < |r.value| :: LoadedAsRequested(q, r.value[i].edges))
  {
    if answer.QueryFailed? {
      return Failure(NeighborQueryFailed);
    }
    var rows := answer.rows;
    var nodes: seq<AccountNode> := [];
    for i := 0 to |rows|
      invariant |nodes| == i && fresh(nodes) && Distinct(nodes)
      invariant forall j | 0 <= j < i :: nodes[j].row == rows[j] && nodes[j].edges == FreshEdges(Loads(q))
    {
      var node := new Node(rows[i], FreshEdges(Loads(q)));
      nodes := nodes + [node];
    }
    assert RowsOf(nodes) == rows;
    if |nodes| == 0 {
      return Success(nodes);
    }
    assert AtStage(q, rows, nodes, 0);
    var err := RunLoaders(q, rows, nodes);
    forall i | 0 <= i < |rows| ensures LoadedAsRequested(q, EdgesOf(q, rows, i)) {
      NotLoadedIffNotRequested(q, rows, i);
    }
    r := if err.Some? then Failure(err.value) else Success(nodes);
  }

  method LoadGroups(nodes: seq<AccountNode>, ask: seq<int> -> Answer<JoinRow<Group>>)
    returns (err: Option<LoadError>)
    requires Distinct(nodes) && OwnersAsked(Some(ask), Ids(RowsOf(nodes), AccountID))
    modifies nodes
    ensures err == GroupsFault(Some(ask), Ids(RowsOf(nodes), AccountID))
    ensures err.None? ==> forall i | 0 <= i < |nodes| ::
                nodes[i].edges == old(nodes[i].edges).(
                groups := var ids := Ids(RowsOf(nodes), AccountID);
                          Joined(Fetched(Some(ask), ids), GroupIDOf, OwnKey(ids, i)))
  {
    ghost var ids := Ids(RowsOf(nodes), AccountID);
    ghost var rows := Fetched(Some(ask), ids);
    ghost var before := seq(|nodes|, i requires 0 <= i < |nodes| reads nodes => nodes[i].edges);
    err := LoadManyToMany(nodes, AccountID, ask, PassThrough, GroupIDOf, InitGroups, AddGroup);
    GroupsAllExpected(rows);
    forall i | 0 <= i < |nodes| && err.None?
      ensures nodes[i].edges == before[i].(groups := Joined(rows, GroupIDOf, OwnKey(ids, i)))
    {
      JoinedEdge(rows, OwnKey(ids, i), before[i]);
    }
  }

  method LoadProxy(nodes: seq<AccountNode>, ask: seq<int> -> Answer<Proxy>) returns (err: Option<LoadError>)
    requires Distinct(nodes)
    requires forall n | n in nodes :: n.edges.proxy == None
    modifies nodes
    ensures err == OneFault(Some(ask), RowsOf(nodes), ProxyFK, ProxyIDOf)
    ensures err.None? ==> forall i | 0 <= i < |nodes| ::
                nodes[i].edges == old(nodes[i].edges).(
                proxy := Referenced(Targets(Some(ask), RowsOf(nodes), ProxyFK), ProxyIDOf, nodes[i].row.proxyID))
  {
    ghost var rows := Targets(Some(ask), RowsOf(nodes), ProxyFK);
    ghost var before := seq(|nodes|, i requires 0 <= i < |nodes| reads nodes => nodes[i].edges);
    err := LoadManyToOne(nodes, ProxyFK, ask, ProxyIDOf, SetProxy);
    forall i | 0 <= i < |nodes| && err.None?
      ensures nodes[i].edges == before[i].(proxy := Referenced(rows, ProxyIDOf, nodes[i].row.proxyID))
    {
      ProxyEdge(rows, nodes[i].row.proxyID, before[i]);
    }
  }

  method LoadParent(nodes: seq<AccountNode>, ask: seq<int> -> Answer<AccountRow>) returns (err: Option<LoadError>)
    requires Distinct(nodes)
    requires forall n | n in nodes :: n.edges.parent == None
    modifies nodes
    ensures err == OneFault(Some(ask), RowsOf(nodes), ParentFK, AccountID)
    ensures err.None? ==> forall i | 0 <= i < |nodes| ::
                nodes[i].edges == old(nodes[i].edges).(
                parent := Referenced(Targets(Some(ask), RowsOf(nodes), ParentFK), AccountID, nodes[i].row.parentID))
  {
    ghost var rows := Targets(Some(ask), RowsOf(nodes), ParentFK);
    ghost var before := seq(|nodes|, i requires 0 <= i < |nodes| reads nodes => nodes[i].edges);
    err := LoadManyToOne(nodes, ParentFK, ask, AccountID, SetParent);
    forall i | 0 <= i < |nodes| && err.None?
      ensures nodes[i].edges == before[i].(parent := Referenced(rows, AccountID, nodes[i].row.parentID))
    {
      ParentEdge(rows, nodes[i].row.parentID, before[i]);
    }
  }

  method LoadChildren(nodes: seq<AccountNode>, ask: seq<int> -> Answer<AccountRow>) returns (err: Option<LoadError>)
    requires Distinct(nodes)
    modifies nodes
    ensures err == ManyFault(Some(ask), Ids(RowsOf(nodes), AccountID), ParentFK)
    ensures err.None? ==> forall i | 0 <= i < |nodes| ::
                nodes[i].edges == old(nodes[i].edges).(
                children := var ids := Ids(RowsOf(nodes), AccountID);
                         Referring(Fetched(Some(ask), ids), ParentFK, OwnKey(ids, i)))
  {
    ghost var ids := Ids(RowsOf(nodes), AccountID);
    ghost var before := seq(|nodes|, i requires 0 <= i < |nodes| reads nodes => nodes[i].edges);
    err := LoadOneToMany(nodes, AccountID, ask, ParentFK, InitChildren, AddChild);
    forall i | 0 <= i < |nodes| && err.None?
      ensures nodes[i].edges == before[i].(children := Referring(Fetched(Some(ask), ids), ParentFK, OwnKey(ids, i)))
    {
      ChildrenEdge(Fetched(Some(ask), ids), OwnKey(ids, i), before[i]);
    }
  }

  method LoadUsageLogs(nodes: seq<AccountNode>, ask: seq<int> -> Answer<UsageLog>) returns (err: Option<LoadError>)
    requires Distinct(nodes)
    modifies nodes
    ensures err == ManyFault(Some(ask), Ids(RowsOf(nodes), AccountID), UsageLogFK)
    ensures err.None? ==> forall i | 0 <= i < |nodes| ::
                nodes[i].edges == old(nodes[i].edges).(
                usageLogs := var ids := Ids(RowsOf(nodes), AccountID);
                         Referring(Fetched(Some(ask), ids), UsageLogFK, OwnKey(ids, i)))
  {
    ghost var ids := Ids(RowsOf(nodes), AccountID);
    ghost var before := seq(|nodes|, i requires 0 <= i < |nodes| reads nodes => nodes[i].edges);
    err := LoadOneToMany(nodes, AccountID, ask, UsageLogFK, InitUsageLogs, AddUsageLog);
    forall i | 0 <= i < |nodes| && err.None?
      ensures nodes[i].edges == before[i].(usageLogs := Referring(Fetched(Some(ask), ids), UsageLogFK, OwnKey(ids, i)))
    {
      UsageLogsEdge(Fetched(Some(ask), ids), OwnKey(ids, i), before[i]);
    }
  }

  method LoadAccountGroups(nodes: seq<AccountNode>, ask: seq<int> -> Answer<AccountGroup>) returns (err: Option<LoadError>)
    requires Distinct(nodes)
    modifies nodes
    ensures err == ManyFault(Some(ask), Ids(RowsOf(nodes), AccountID), AccountGroupFK)
    ensures err.None? ==> forall i | 0 <= i < |nodes| ::
                nodes[i].edges == old(nodes[i].edges).(
                accountGroups := var ids := Ids(RowsOf(nodes), AccountID);
                         Referring(Fetched(Some(ask), ids), AccountGroupFK, OwnKey(ids, i)))
  {
    ghost var ids := Ids(RowsOf(nodes), AccountID);
    ghost var before := seq(|nodes|, i requires 0 <= i < |nodes| reads nodes => nodes[i].edges);
    err := LoadOneToMany(nodes, AccountID, ask, AccountGroupFK, InitAccountGroups, AddAccountGroup);
    forall i | 0 <= i < |nodes| && err.None?
      ensures nodes[i].edges == before[i].(accountGroups := Referring(Fetched(Some(ask), ids), AccountGroupFK, OwnKey(ids, i)))
    {
      AccountGroupsEdge(Fetched(Some(ask), ids), OwnKey(ids, i), before[i]);
    }
  }

  /** The edges of node `i` once the first `k` loaders have run. */
  function Stage(q: AccountQuery, rows: seq<AccountRow>, i: nat, k: nat): AccountEdges
    requires i < |rows|
  {
    var all, none := EdgesOf(q, rows, i), FreshEdges(Loads(q));
    AccountEdges(
      if k >= 1 then all.groups else none.groups,
      if k >= 2 then all.proxy else none.proxy,
      if k >= 3 then all.parent else none.parent,
      if k >= 4 then all.children else none.children,
      if k >= 5 then all.usageLogs else none.usageLogs,
      if k >= 6 then all.accountGroups else none.accountGroups,
      none.loadedTypes)
  }

  ghost predicate AtStage(q: AccountQuery, rows: seq<AccountRow>, nodes: seq<AccountNode>, k: nat)
    requires |nodes| == |rows|
    reads nodes
  {
    forall i | 0 <= i < |nodes| :: nodes[i].edges == Stage(q, rows, i, k)
  }

  /** The six loaders, in the order `sqlAll` runs them. */
  method RunLoaders(q: AccountQuery, ghost rows: seq<AccountRow>, nodes: seq<AccountNode>)
    returns (err: Option<LoadError>)
    requires Distinct(nodes) && RowsOf(nodes) == rows && rows != []
    requires OwnersAsked(q.withGroups, Ids(rows, AccountID))
    requires AtStage(q, rows, nodes, 0)
    modifies nodes
    ensures err == LoadFault(q, rows)
    ensures err.None? ==> AtStage(q, rows, nodes, 6)
  {
    err := RunToOne(q, rows, nodes);
    if err.None? {
      err := RunToMany(q, rows, nodes);
    }
  }

  // One loader each: from one stage to the next, or its error.

  method GroupsStage(q: AccountQuery, ghost rows: seq<AccountRow>, nodes: seq<AccountNode>)
    returns (err: Option<LoadError>)
    requires Distinct(nodes) && RowsOf(nodes) == rows && AtStage(q, rows, nodes, 0)
    requires OwnersAsked(q.withGroups, Ids(rows, AccountID))
    modifies nodes
    ensures err == GroupsFault(q.withGroups, Ids(rows, AccountID))
    ensures err.None? ==> AtStage(q, rows, nodes, 1)
  {
    err := None;
    if q.withGroups.Some? {
      err := LoadGroups(nodes, q.withGroups.value);
    }
  }

  method ProxyStage(q: AccountQuery, ghost rows: seq<AccountRow>, nodes: seq<AccountNode>)
    returns (err: Option<LoadError>)
    requires Distinct(nodes) && RowsOf(nodes) == rows && AtStage(q, rows, nodes, 1)
    modifies nodes
    ensures err == OneFault(q.withProxy, rows, ProxyFK, ProxyIDOf)
    ensures err.None? ==> AtStage(q, rows, nodes, 2)
  {
    err := None;
    if q.withProxy.Some? {
      err := LoadProxy(nodes, q.withProxy.value);
    }
  }

  method ParentStage(q: AccountQuery, ghost rows: seq<AccountRow>, nodes: seq<AccountNode>)
    returns (err: Option<LoadError>)
    requires Distinct(nodes) && RowsOf(nodes) == rows && AtStage(q, rows, nodes, 2)
    modifies nodes
    ensures err == OneFault(q.withParent, rows, ParentFK, AccountID)
    ensures err.None? ==> AtStage(q, rows, nodes, 3)
  {
    err := None;
    if q.withParent.Some? {
      err := LoadParent(nodes, q.withParent.value);
    }
  }

  method ChildrenStage(q: AccountQuery, ghost rows: seq<AccountRow>, nodes: seq<AccountNode>)
    returns (err: Option<LoadError>)
    requires Distinct(nodes) && RowsOf(nodes) == rows && AtStage(q, rows, nodes, 3)
    modifies nodes
    ensures err == ManyFault(q.withChildren, Ids(rows, AccountID), ParentFK)
    ensures err.None? ==> AtStage(q, rows, nodes, 4)
  {
    err := None;
    if q.withChildren.Some? {
      err := LoadChildren(nodes, q.withChildren.value);
    }
  }

  method UsageLogsStage(q: AccountQuery, ghost rows: seq<AccountRow>, nodes: seq<AccountNode>)
    returns (err: Option<LoadError>)
    requires Distinct(nodes) && RowsOf(nodes) == rows && AtStage(q, rows, nodes, 4)
    modifies nodes
    ensures err == ManyFault(q.withUsageLogs, Ids(rows, AccountID), UsageLogFK)
    ensures err.None? ==> AtStage(q, rows, nodes, 5)
  {
    err := None;
    if q.withUsageLogs.Some? {
      err := LoadUsageLogs(nodes, q.withUsageLogs.value);
    }
  }

  method AccountGroupsStage(q: AccountQuery, ghost rows: seq<AccountRow>, nodes: seq<AccountNode>)
    returns (err: Option<LoadError>)
    requires Distinct(nodes) && RowsOf(nodes) == rows && AtStage(q, rows, nodes, 5)
    modifies nodes
    ensures err == ManyFault(q.withAccountGroups, Ids(rows, AccountID), AccountGroupFK)
    ensures err.None? ==> AtStage(q, rows, nodes, 6)
  {
    err := None;
    if q.withAccountGroups.Some? {
      err := LoadAccountGroups(nodes, q.withAccountGroups.value);
    }
  }

  /** The three single-neighbour or joined edges: groups, proxy and parent. */
  method RunToOne(q: AccountQuery, ghost rows: seq<AccountRow>, nodes: seq<AccountNode>)
    returns (err: Option<LoadError>)
    requires Distinct(nodes) && RowsOf(nodes) == rows
    requires OwnersAsked(q.withGroups, Ids(rows, AccountID))
    requires AtStage(q, rows, nodes, 0)
    modifies nodes
    ensures err == ToOneFault(q, rows)
    ensures err.None? ==> AtStage(q, rows, nodes, 3)
  {
    err := GroupsStage(q, rows, nodes);
    if err.None? {
      err := ProxyStage(q, rows, nodes);
    }
    if err.None? {
      err := ParentStage(q, rows, nodes);
    }
  }

  /** The three edges held by the other table: children, usage logs and account groups. */
  method RunToMany(q: AccountQuery, ghost rows: seq<AccountRow>, nodes: seq<AccountNode>)
    returns (err: Option<LoadError>)
    requires Distinct(nodes) && RowsOf(nodes) == rows
    requires AtStage(q, rows, nodes, 3)
    modifies nodes
    ensures err == ToManyFault(q, rows)
    ensures err.None? ==> AtStage(q, rows, nodes, 6)
  {
    err := ChildrenStage(q, rows, nodes);
    if err.None? {
      err := UsageLogsStage(q, rows, nodes);
    }
    if err.None? {
      err := AccountGroupsStage(q, rows, nodes);
    }
  }

  // ----- the account-group query ----------------------------------------------------------

  datatype AccountGroupQuery = AccountGroupQuery(
    withAccount: Option<seq<int> -> Answer<AccountRow>>,
    withGroup: Option<seq<int> -> Answer<Group>>)

  /** The edges row `i` of an account-group result must have. */
  function AccountGroupEdgesOf(q: AccountGroupQuery, rows: seq<AccountGroupRow>, i: nat): AccountGroupEdges
    requires i < |rows|
  {
    AccountGroupEdges(
      Referenced(Targets(q.withAccount, rows, AccountFK), AccountID, Some(rows[i].accountID)),
      Referenced(Targets(q.withGroup, rows, GroupFK), GroupIDOf, Some(rows[i].groupID)),
      q.withAccount.Some?, q.withGroup.Some?)
  }

  /** Likewise for the two edges of an account-group row. */
  lemma NotLoadedIffNotRequestedOfRow(q: AccountGroupQuery, rows: seq<AccountGroupRow>, i: nat)
    requires i < |rows|
    ensures AccountOrErr(AccountGroupEdgesOf(q, rows, i)).NotLoaded? <==> q.withAccount.None?
    ensures GroupOrErr(AccountGroupEdgesOf(q, rows, i)).NotLoaded? <==> q.withGroup.None?
  {
    SameTargets(q.withAccount, rows, rows, AccountFK, AccountID);
    SameTargets(q.withGroup, rows, rows, GroupFK, GroupIDOf);
  }

  lemma {:induction false} AccountEdge(rows: seq<AccountRow>, key: Option<int>, e: AccountGroupEdges)
    requires e.account == None
    ensures Attached(rows, ById(AccountID), key, SetAccount, e) == e.(account := Referenced(rows, AccountID, key))
  {
    if rows != [] { AccountEdge(rows[..|rows| - 1], key, e); }
  }

  lemma {:induction false} GroupEdge(rows: seq<Group>, key: Option<int>, e: AccountGroupEdges)
    requires e.group == None
    ensures Attached(rows, ById(GroupIDOf), key, SetGroup, e) == e.(group := Referenced(rows, GroupIDOf, key))
  {
    if rows != [] { GroupEdge(rows[..|rows| - 1], key, e); }
  }

  method LoadAccount(nodes: seq<AccountGroupNode>, ask: seq<int> -> Answer<AccountRow>)
    returns (err: Option<LoadError>)
    requires Distinct(nodes) && forall n | n in nodes :: n.edges.account == None
    modifies nodes
    ensures err == OneFault(Some(ask), RowsOf(nodes), AccountFK, AccountID)
    ensures err.None? ==> forall i | 0 <= i < |nodes| ::
                nodes[i].edges == old(nodes[i].edges).(
                account := Referenced(Targets(Some(ask), RowsOf(nodes), AccountFK), AccountID,
                                      Some(nodes[i].row.accountID)))
  {
    ghost var rows := Targets(Some(ask), RowsOf(nodes), AccountFK);
    ghost var before := seq(|nodes|, i requires 0 <= i < |nodes| reads nodes => nodes[i].edges);
    err := LoadManyToOne(nodes, AccountFK, ask, AccountID, SetAccount);
    forall i | 0 <= i < |nodes| && err.None?
      ensures nodes[i].edges == before[i].(account := Referenced(rows, AccountID, Some(nodes[i].row.accountID)))
    {
      AccountEdge(rows, Some(nodes[i].row.accountID), before[i]);
    }
  }

  method LoadGroup(nodes: seq<AccountGroupNode>, ask: seq<int> -> Answer<Group>) returns (err: Option<LoadError>)
    requires Distinct(nodes) && forall n | n in nodes :: n.edges.group == None
    modifies nodes
    ensures err == OneFault(Some(ask), RowsOf(nodes), GroupFK, GroupIDOf)
    ensures err.None? ==> forall i | 0 <= i < |nodes| ::
                nodes[i].edges == old(nodes[i].edges).(
                group := Referenced(Targets(Some(ask), RowsOf(nodes), GroupFK), GroupIDOf,
                                    Some(nodes[i].row.groupID)))
  {
    ghost var rows := Targets(Some(ask), RowsOf(nodes), GroupFK);
    ghost var before := seq(|nodes|, i requires 0 <= i < |nodes| reads nodes => nodes[i].edges);
    err := LoadManyToOne(nodes, GroupFK, ask, GroupIDOf, SetGroup);
    forall i | 0 <= i < |nodes| && err.None?
      ensures nodes[i].edges == before[i].(group := Referenced(rows, GroupIDOf, Some(nodes[i].row.groupID)))
    {
      GroupEdge(rows, Some(nodes[i].row.groupID), before[i]);
    }
  }

  function AccountGroupFault(q: AccountGroupQuery, rows: seq<AccountGroupRow>): Option<LoadError> {
    OneFault(q.withAccount, rows, AccountFK, AccountID).OrElse(OneFault(q.withGroup, rows, GroupFK, GroupIDOf))
  }

  /** `AccountGroupQuery.sqlAll` on the rows of the main query. */
  method SqlAllAccountGroups(q: AccountGroupQuery, answer: Answer<AccountGroupRow>)
    returns (r: Result<seq<AccountGroupNode>, LoadError>)
    ensures answer.QueryFailed? ==> r == Failure(NeighborQueryFailed)
    ensures answer.Rows? ==>
              match AccountGroupFault(q, answer.rows)
              case Some(e) => r == Failure(e)
              case None =>
                && r.Success?
                && RowsOf(r.value) == answer.rows
                && fresh(r.value) && Distinct(r.value)
                && forall i | 0 <= i < |r.value| :: r.value[i].edges == AccountGroupEdgesOf(q, answer.rows, i)
  {
    if answer.QueryFailed? {
      return Failure(NeighborQueryFailed);
    }
    var rows := answer.rows;
    var nodes: seq<AccountGroupNode> := [];
    for i := 0 to |rows|
      invariant |nodes| == i && fresh(nodes) && Distinct(nodes)
      invariant forall j | 0 <= j < i ::
          nodes[j].row == rows[j] &&
          nodes[j].edges == AccountGroupEdges(None, None, q.withAccount.Some?, q.withGroup.Some?)
    {
      var node := new Node(rows[i], AccountGroupEdges(None, None, q.withAccount.Some?, q.withGroup.Some?));
      nodes := nodes + [node];
    }
    assert RowsOf(nodes) == rows;
    if |nodes| == 0 {
      return Success(nodes);
    }
    if q.withAccount.Some? {
      var err := LoadAccount(nodes, q.withAccount.value);
      if err.Some? { return Failure(err.value); }
    }
    if q.withGroup.Some? {
      var err := LoadGroup(nodes, q.withGroup.value);
      if err.Some? { return Failure(err.value); }
    }
    r := Success(nodes);
  }
}
