# Verified model of the account store and the audit gate

This project models the generated persistence code of accounts (`backend/ent`) and the audit-exception gate
(`tools/check_pnpm_audit_exceptions.py`) in Dafny and proves what they do.

`dafny verify dfyconfig.toml` checks everything. The files group as follows.

- **Eager loading** (`EagerLoad`, `AccountQueries`, `EagerJoin`). `sqlAll` fetches nodes, runs one neighbour query per
  requested edge and hands the returned rows back through hand-built indexes. The loaders work on heap nodes and are
  proved for any answer whatever; their effect is then compared with the row-by-row relational definition.
- **Scanning and projection** (`AccountSchema`, `RowScan`, `Projection`, `ThroughProjection`). Rows become accounts
  through per-column buffers; queries may select some of the columns.
- **Saving** (`AccountCreate`, `BulkSave`, `BulkOutcome`, `AccountCreateBulk`, `BulkDefaults`, `ValidatedSave`,
  `AccountInsert`). `defaults`, `check` and `createSpec` of one builder; the bulk save, in which every mutator calls the
  next builder's mutator from inside its own hooks and the last one issues the single insert; what is inserted, said from
  the callers' fields and the default values; and what the insert does to the migrated database.
- **Updating** (`EdgeUpdate`, `EdgeStatements`, `EdgeExecution`, `Upsert`). What edge calls record and the clear and add
  specifications they compile into; what their statements do against the generated schema, and when the migrated
  database takes them; and the conflict options of upserts.
- **The gate** (`PyText`, `AuditExceptions`, `AuditBullets`, `AuditReport`, `AuditGate`, `AuditVerdict`, `AuditOrder`).
  The line parser for exceptions, when its bullets start records, the extraction of findings from a report, the verdict,
  the same verdict said from the fields of exceptions and report alone, and what order has to do with it.

## What is assumed of the libraries

- A query returns exactly the rows satisfying its predicate, in any order (`EagerJoin.AnswersWhere`,
  `EagerJoin.AnswersJoin`); the joined query of the many-to-many loader may also repeat rows. Its owner column is
  restricted to the ids asked for (`AccountQueries.OwnersAsked`). The loaders' own contracts need none of the rest.
- An update runs in three steps: one statement for the account's own key columns, in which a set wins over a clear;
  then its memberships; then the keys that children and usage logs hold to it. Within a step every clear comes before
  any add, and a clear that names no nodes clears the whole relation. The order of the steps shows in one case only, which
  the migrated database refuses: an account made its own parent loses it to a clear of its children in the same update.
- Adding children or usage logs writes the key where it is NULL, and the update is refused if that touches fewer rows
  than it names, so a neighbour that is already connected, even to the same account, refuses it. Adding a membership
  that exists is refused by the primary key, since the new row carries columns of its own. A refused update changes
  nothing.
- A new account is inserted in the same three steps: its row, with the keys of its proxy and parent, is one statement;
  then come its memberships, then the keys its children and usage logs are to hold. A refusal leaves nothing behind.
- The database is the one the SQL migrations leave (`backend/internal/repository/ent.go`, lines 134 to 137). An account's
  two keys may be NULL, a usage log's may not, a membership occurs once, and proxies, parents and groups that are named
  must exist (`backend/migrations/001_init.sql`, `backend/migrations/154_account_spark_shadow.sql`). An account has a
  parent exactly when its quota dimension is not `global`, and never itself (154, lines 12 to 20); no two accounts that
  are not deleted are spark shadows of one parent (`154a_account_spark_shadow_indexes_notx.sql`). These are tested after
  every statement. `EdgeStatements` leaves the two checks and the unique index out, as `backend/ent/migrate/schema.go`
  does; `EdgeExecution` has them all, and `ChecksOnlyRefuse` relates the two.
- Conflict options run in order when the statement is built, and the last assignment to a column holds.
- `AddColumnOnce` and `AppendFieldOnce` append a column unless it is there.
- Storing a time, a JSON object, an enum or a number and reading it back loses nothing and adds nothing.
- The join table of the `Groups` edge is the table of account-group rows.
- Hooks call `next` at most once, and hand on its result and its error unchanged. They may write to the mutation they
  get, hand on another one, or reject.
- Default values and validators, today's date, the meaning of an ISO date and Python's rendering of values that are
  not strings are parameters.

## Where the code does something other than expected

Each of these is proved with the exact condition under which the expected behaviour holds.

- Nodes that repeat an id: only the last one gets its to-many rows, since the index by id keeps one node
  (`EagerJoin.DuplicatesMissTheirRows`, `EagerJoin.DuplicatesMissTheirGroups`). Single-neighbour edges are filled on all
  of them.
- Two values under the name of one JSON column are merged key by key, because a text is unmarshalled into the map
  already there; for every other column the last non-NULL one decides (`RowScan.JsonLastOccurrenceDecidesIff`). Selecting
  a column twice does no harm, as both values are the same; it takes another expression selected under its name.
- The bulk save checks the builder's own mutation and only then takes the one its hooks hand on; the single save copies
  it first. A hook that substitutes a mutation therefore gets it inserted unchecked in a bulk save
  (`ValidatedSave.ChecksWhatItInsertsIff`, `ValidatedSave.SubstituteIsInsertedUnchecked`).
- Adding an edge and then clearing the relation leaves the addition in place (`EdgeUpdate.CallsMeanWhatTheySayIff`), and
  `ClearProxy` leaves an id set before it in place (`EdgeUpdate.LastTargetCallDecidesIff`).
- `ResetProxy` and `ResetParent` are documented to reset all changes but leave the field marked as cleared
  (`EdgeUpdate.ResetUndoesIff`).
- `UpdateNewValues` is documented as equivalent to `ResolveWithNewValues`; it differs on the creation time
  (`Upsert.DocumentedEquivalenceIff`).
- A dash starts a record only if a blank follows it and the text has a colon; with text but no colon the parser raises
  (`AuditBullets.BulletStartsIff`). What follows any other dash, a bare one above all, is written over the record before
  it (`AuditBullets.EntriesAfterBareBulletMerge`).
- Children and usage logs can be neither added nor taken away through their edges, as the migrated database refuses it
  (`EdgeExecution.ChildrenNeverMove`, `EdgeExecution.UsageLogsNeverMove`). `EdgeExecution.ExecutionMeans` has the exact
  condition for an update's statements to be taken. Even without the checks of the migrations a child of another account
  is not taken over, but refuses the whole update (`EdgeStatements.ConnectedChildIsRefused`).
- An entry of the report's `vulnerabilities` form without any identified `via` item yields no finding, whatever its
  severity (`AuditReport.VulnerabilityIsExaminedIff`, `AuditOrder.UnidentifiedVulnerabilityIsAccepted`).
- The first finding of a key decides, so the verdict can depend on the order of findings
  (`AuditOrder.AcceptedInEveryOrderIff`, `AuditOrder.AcceptedInSomeOrderIff`).

## Recording edge calls

The calls that record edge changes are in `backend/ent/mutation.go`: `AddGroupIDs`, `ClearGroups`, `RemoveGroupIDs` and
`ResetGroups` at lines 3891 to 3942 are the methods of `EdgeUpdate.EdgeMutation`; `SetProxyID` (2802), `ClearProxyID`
(2833), `ClearProxy` (3945) and `ResetProxy` (3966) are those of `EdgeUpdate.TargetMutation`. Children and usage logs
repeat the first template, the parent the second. `AccountUpdate` and `AccountUpdateOne` compile the record with the
same code (`backend/ent/account_update.go`, lines 949 to 1153 and 2119 to 2323), so one `EdgeUpdate.CompileEdges` stands
for both. `EdgeUpdate.ResetUndoesIff` is about `ResetProxy` and `ResetParent` (3966 and 4006).

## Model

| member | source | states |
|---|---|---|
| `EagerLoad.BucketNodes` | backend/ent/account_query.go:689-700 | the keys asked for are the nodes' non-nil keys, each once in order of first use, and each key's bucket is exactly the nodes having it, in order |
| `EagerLoad.LoadManyToOne` | backend/ent/account_query.go:688-719 | for any answer: nothing is asked when all keys are nil, the error is that of the first row whose id was not asked for, and otherwise every node's edge is the fold of the rows having its key, all other nodes' edges untouched |
| `EagerLoad.FirstUseListsKeys` | backend/ent/account_query.go:689-700 | a key is asked for exactly when some node is waiting for it |
| `EagerLoad.LoadOneToMany` | backend/ent/account_query.go:752-784 | for any answer: the first row with a nil or unknown foreign key is the error; otherwise every node ends with its initialised edge extended by its rows in answer order |
| `EagerLoad.IndexNodes` | backend/ent/account_query.go:753-761 | ids are listed in node order, the index holds for each id the last node bearing it, and every node's edge has been initialised |
| `EagerLoad.Collect` | backend/ent/account_query.go:661-670 | the row callback keeps each neighbour at its first appearance only and records for it exactly the nodes some row joins it to |
| `EagerLoad.LoadManyToMany` | backend/ent/account_query.go:627-687 | for any stream of rows owned by the nodes: every node ends with the neighbours linked to it, in the order the neighbour query returned them; a neighbour the stream did not introduce is an error |
| `AccountQueries.LoadGroups` | backend/ent/account_query.go:627-687 | only the groups edge changes, to the groups joined to the node's id; there is no error but the query's |
| `AccountQueries.LoadProxy` | backend/ent/account_query.go:688-719 | only the proxy edge changes, to the returned row the node's key names, nil if there is none |
| `AccountQueries.LoadParent` | backend/ent/account_query.go:720-751 | only the parent edge changes, to the returned row the node's key names, nil if there is none |
| `AccountQueries.LoadChildren` | backend/ent/account_query.go:752-784 | only the children edge changes, to the returned rows whose parent key is the node's id |
| `AccountQueries.LoadUsageLogs` | backend/ent/account_query.go:785-814 | only the usage-log edge changes, to the returned rows of the node's id |
| `AccountQueries.LoadAccountGroups` | backend/ent/account_query.go:815-844 | only the account-group edge changes, to the returned rows of the node's id |
| `AccountQueries.GroupsAllExpected` | backend/ent/account_query.go:677-682 | without interceptors the "unexpected groups node" error cannot occur |
| `AccountQueries.NoFault` | backend/ent/account_query.go:770-782 | the closing loop of a loader meets no error if and only if every returned row has a key that was asked for |
| `AccountQueries.FaultIsFirst` | backend/ent/account_query.go:770-782 | otherwise the error is that of the first row without such a key, and says whether the key was nil or which one was unexpected |
| `AccountQueries.SqlAll` | backend/ent/account_query.go:550-625 | the first failing query or loader, in loader order, gives the error; otherwise the nodes are fresh, hold the rows in order, and each has all six edges exactly as specified, an edge reading as not loaded exactly when it was not requested |
| `AccountQueries.NotLoadedIffNotRequested` | backend/ent/account_query.go:554-569 | for any query and any answers, each of the six accessors says "not loaded" if and only if its edge was not requested |
| `AccountQueries.LoadAccount` | backend/ent/accountgroup_query.go:379-407 | only the account edge changes, to the returned account with the row's account id |
| `AccountQueries.LoadGroup` | backend/ent/accountgroup_query.go:408-436 | only the group edge changes, to the returned group with the row's group id |
| `AccountQueries.SqlAllAccountGroups` | backend/ent/accountgroup_query.go:334-377 | the first failing query or loader gives the error; otherwise every row has both edges exactly as specified |
| `AccountQueries.NotLoadedIffNotRequestedOfRow` | backend/ent/accountgroup.go:47-66 | the same for the two edges of an account-group row |
| `EagerJoin.ToOneIsLookup` | backend/ent/account_query.go:688-751 | over a table with distinct ids the loader never fails and a node's edge is the one row its key names, nil exactly when the key is nil or dangling |
| `EagerJoin.AskedInOrder` | backend/ent/account_query.go:689-700 | the keys are asked for in the order in which the nodes first use them |
| `EagerJoin.ToManyConserves` | backend/ent/account_query.go:752-844 | whenever the loader succeeds, the rows handed to the nodes, counted with multiplicity, are exactly the rows returned |
| `EagerJoin.ListAccessorsConserve` | backend/ent/account.go:142-165 | after a load without error every requested list accessor succeeds on every node, and the lists together hold exactly the rows returned |
| `EagerJoin.ToManyIsSelection` | backend/ent/account_query.go:752-844 | when answers satisfy the foreign-key filter the loader never fails and a node gets exactly the table's rows referring to it |
| `EagerJoin.ListEdgesInOrder` | backend/ent/account_query.go:752-844 | for any answers, the children, usage logs and account-group rows of a findable node are, in order and one by one, the returned rows holding its id |
| `EagerJoin.NoLoadFaultIff` | backend/ent/account_query.go:584-623 | a load goes without error if and only if every requested query is answered, and only with rows whose id or foreign key some account is waiting for |
| `EagerJoin.DuplicatesMissTheirRows` | backend/ent/account_query.go:753-761 | every node gets all its one-to-many rows if and only if no row refers to an id borne again later in the list |
| `EagerJoin.DuplicatesMissTheirGroups` | backend/ent/account_query.go:631-637 | every node gets all its groups if and only if no row of the stream is owned by an id borne again later in the list |
| `EagerJoin.FirstBearerMissesItsRow` | backend/ent/account_query.go:753-761 | of two nodes with one id and a row for it, only the second gets the row |
| `EagerJoin.FirstBearerMissesItsGroup` | backend/ent/account_query.go:631-637 | of two nodes with one id and a group joined to it, only the second gets the group |
| `EagerJoin.ManyToManyIsJoin` | backend/ent/account_query.go:627-687 | for any stream of the join, in any order and with repetitions, an account ends with exactly the groups it is joined to, each once |
| `EagerJoin.JoinedOrder` | backend/ent/account_query.go:661-670 | an account's groups come in the order of their first appearance in the whole stream |
| `EagerJoin.ProxyAccessor` | backend/ent/account.go:120-127 | a requested proxy edge yields the row or not-found, never not-loaded, and not-found only if no such proxy exists |
| `EagerJoin.ParentAccessor` | backend/ent/account.go:131-138 | a requested parent edge yields the row or not-found, never not-loaded, and not-found only if no such account exists |
| `EagerJoin.GroupsAccessor` | backend/ent/account.go:111-116 | a requested groups edge is loaded, with exactly the groups joined to the account |
| `EagerJoin.ChildrenAccessor` | backend/ent/account.go:142-147 | a requested children edge is loaded, with the accounts whose parent key is the account's id, each as often as the table has it |
| `EagerJoin.UsageLogsAccessor` | backend/ent/account.go:151-156 | a requested usage-log edge is loaded, with the logs holding the account's id, each as often as the table has it |
| `EagerJoin.AccountGroupsAccessor` | backend/ent/account.go:160-165 | a requested account-group edge is loaded, with the rows holding the account's id, each as often as the table has it |
| `EagerJoin.RowAccessors` | backend/ent/accountgroup.go:47-66 | a requested account or group of an account-group row is the one whose id the row holds, and not found only if there is none |
| `EagerJoin.ParentAndChildrenAreInverse` | backend/ent/account_query.go:720-784 | for any account table, a row is among the loaded children of another exactly when loading its parent yields that other row |
| `EagerJoin.TwoPathsAgree` | backend/ent/account_query.go:815-844 | the groups edge and the group edges of the account-group rows give the same groups |
| `EagerJoin.TwoPathsAgreeOnce` | backend/ent/accountgroup_query.go:408-436 | under the join table's composite key the two paths agree with multiplicity |
| `RowScan.ScanValues` | backend/ent/account.go:168-189 | one buffer per column, of the column's type |
| `RowScan.Account.AssignValues` | backend/ent/account.go:193-417 | too few values is a length error that changes nothing; otherwise the columns are assigned in order up to the first error, which leaves the columns before it assigned |
| `RowScan.BuffersFit` | backend/ent/account.go:168-417 | for every column list, buffers allocated for it never give a type or length error; assignment fails only on malformed JSON |
| `RowScan.OtherBufferRefusedIff` | backend/ent/account.go:193-417 | a known column refuses a buffer as of an unexpected type if and only if it is not of the type allocated for it |
| `RowScan.LastOccurrenceDecides` | backend/ent/account.go:193-417 | a scalar field holds its last non-NULL occurrence, or what it had |
| `RowScan.LastUnknownDecides` | backend/ent/account.go:412-413 | the last occurrence of a column the account does not know is the one kept for it |
| `RowScan.JsonLastOccurrenceDecidesIff` | backend/ent/account.go:249-264 | the last buffer of a JSON column decides alone if and only if it is null or its object has every key the earlier buffers have brought together, read off the buffers |
| `RowScan.GatheredIsHeld` | backend/ent/account.go:249-264 | the keys read off the buffers are the keys of the map the assignment leaves |
| `RowScan.RepeatedJsonMerges` | backend/ent/account.go:249-264 | two buffers of one JSON column, with any two objects, leave both merged, the later winning key by key |
| `Projection.ScanReadsRow` | backend/ent/account.go:193-417 | scanning through any column list gives each listed column the row's value and leaves all others unset |
| `Projection.QuerySpecColumns` | backend/ent/account_query.go:865-880 | all columns without a selection; otherwise the id first, the other selected fields in order, then the foreign keys of the requested edges |
| `Projection.ProjectedColumns` | backend/ent/account_query.go:865-880 | the id comes first, and the columns are exactly the id, the selected ones and the needed keys |
| `Projection.ProjectionKeepsEdges` | backend/ent/account_query.go:858-880 | for every list of selected fields, all six edges and the loaders' errors are those of a query of all columns |
| `Projection.ProjectedChildren` | backend/ent/account_query.go:762-764 | selecting fields on the child query does not change which children a node gets, nor their order |
| `ThroughProjection.ScannedRow.AssignValues` | backend/ent/accountgroup.go:85-119 | too few values is a length error that changes nothing; otherwise the columns are assigned in order up to the first error, a NULL leaving its field, and the values of unknown columns are kept by name |
| `ThroughProjection.LastOtherDecides` | backend/ent/accountgroup.go:115-116 | the last occurrence of a column the row does not know is the one kept for it |
| `ThroughProjection.ThroughBuffersFit` | backend/ent/accountgroup.go:68-119 | for every column list, buffers allocated for it are accepted whatever has been written into them |
| `ThroughProjection.ThroughOtherBufferRefusedIff` | backend/ent/accountgroup.go:85-119 | a known column refuses a buffer if and only if it is not of the type allocated for it |
| `ThroughProjection.ScanNarrows` | backend/ent/accountgroup.go:68-119 | scanning a row through any column list gives each listed field the row's value and zero to the others |
| `ThroughProjection.ScanColumns` | backend/ent/accountgroup_query.go:448-467 | all columns without a selection; otherwise the selected ones come first and in order, and behind them exactly the needed keys that are not among them, each once |
| `ThroughProjection.UnselectedScanIsWhole` | backend/ent/accountgroup.go:68-119 | without a selection scanning gives the whole row back |
| `ThroughProjection.ThroughProjectionKeepsEdges` | backend/ent/accountgroup_query.go:448-467 | for every selection, with or without the key columns, both edges and the errors are those of a query of all columns |
| `ThroughProjection.TwoPathsAgreeProjected` | backend/ent/account_query.go:825-827 | the two paths to an account's groups agree whatever the account-group query selects |
| `AccountCreate.Builder.Defaults` | backend/ent/account_create.go:527-585 | unset defaulted columns are filled in up to the first uninitialised default function, which is the error |
| `AccountCreate.Builder.RunCheck` | backend/ent/account_create.go:588-662 | the error of the first rule broken, in the order of the checks |
| `AccountCreate.CheckPassesIff` | backend/ent/account_create.go:588-662 | the check passes if and only if every required field is set and every validated field present is valid |
| `AccountCreate.CheckInOrder` | backend/ent/account_create.go:588-662 | the error is that of the first column that is missing or invalid, the columns named in the order they are checked |
| `AccountCreate.CheckPassesWhen` | backend/ent/account_create.go:588-662 | there is none if and only if the fourteen required columns are set and name, platform, type, status, session window status and quota dimension are valid where set |
| `AccountCreate.DefaultsMeaning` | backend/ent/account_create.go:527-585 | set fields are preserved, added ones have their default, and on an error the named column stays unset |
| `AccountCreate.DefaultsComplete` | backend/ent/account_create.go:527-585 | with every default initialised `defaults` succeeds and leaves the caller's fields and the default of each other of the eleven columns that have one, and nothing else |
| `AccountCreate.DefaultsInOrder` | backend/ent/account_create.go:527-585 | the error is the first default, the columns named in order, that is needed and not initialised |
| `AccountCreate.DefaultsStopThere` | backend/ent/account_create.go:527-585 | then the columns before it have been filled in and those behind it have not |
| `AccountCreate.DefaultsIdempotent` | backend/ent/account_create.go:527-585 | once `defaults` has succeeded, running it again changes nothing |
| `AccountCreate.IgnoredDefaultsErrorIsCaught` | backend/ent/account_create.go:2105-2113 | if `defaults` fails, the check of the fields it leaves fails |
| `AccountCreate.CheckAfterDefaults` | backend/ent/account_create.go:527-662 | after `defaults` has succeeded the check fails only on a missing name, platform or type, or on a validator |
| `AccountCreate.CompletedPassesIff` | backend/ent/account_create.go:527-662 | the check of completed fields passes if and only if the caller has given a name, a platform and a type and the validators accept the values |
| `AccountCreate.Builder.MakeSpec` | backend/ent/account_create.go:682-891 | the specification is that of the mutation; it has an edge of a relation naming an id exactly when the mutation connects them; and the node holds exactly the mutation's fields, foreign keys of the single-neighbour edges included |
| `AccountCreate.SpecConnectsIff` | backend/ent/account_create.go:804-889 | for every mutation, relation and id: some edge of the relation names the id if and only if it is among the groups, children or usage logs, or is the proxy or parent key |
| `AccountCreate.SpecHasOneEach` | backend/ent/account_create.go:804-889 | no edge is without nodes and no relation has two |
| `AccountCreate.SettableIsWritten` | backend/ent/account_create.go:688-862 | every column a caller can set, which is every one but the id, is written as a field or as the key of an edge |
| `AccountInsert.InsertMeans` | backend/ent/account_create.go:804-889 | for any stored rows and any mutation the insert is taken if and only if the neighbours named exist, a parent comes exactly with the spark dimension and has no other live shadow, and no child or usage log is connected; the account then has the mutation's proxy and parent and exactly its groups, and all other rows stay |
| `AccountCreate.InsertedRowIsMutation` | backend/ent/account_create.go:682-891 | the row inserted for a mutation holds exactly its fields and the id |
| `AccountCreate.CreateThenScan` | backend/ent/account_create.go:664-891 | scanning the inserted row rebuilds the node the create call returned, for every mutation |
| `AccountCreate.DeclaredTypesMatchBuffers` | backend/ent/account_create.go:688-802 | the type a field is written with, the buffer it is read into and its Go type agree |
| `AccountCreateBulk.AccountCreateBulk.Mutate` | backend/ent/account_create.go:2106-2144 | a builder's mutator, hooks included, takes the state to the one the recursive specification gives, with the same error; it terminates by builders and hooks left |
| `AccountCreateBulk.AccountCreateBulk.MutateInner` | backend/ent/account_create.go:2107-2139 | the same for the innermost mutator: check, take the mutation, specify, call the next builder or insert, complete |
| `AccountCreateBulk.AccountCreateBulk.FillAll` | backend/ent/account_create.go:2102-2105 | every builder's mutation has been filled in, in order, before any mutator runs |
| `AccountCreateBulk.AccountCreateBulk.Save` | backend/ent/account_create.go:2095-2152 | no builders: nothing happens and no nodes are returned; otherwise the result is that of the first builder's mutator on the filled-in mutations |
| `BulkDefaults.FillsIn` | backend/ent/account_create.go:2105-2105 | what filling in makes of a mutation: the caller's fields, the default of each other column that has one, and the edges as given |
| `BulkDefaults.BulkInsertsFilled` | backend/ent/account_create.go:2095-2152 | whatever the hooks write: what is inserted is every caller's fields with the defaults of the other columns, edited by the hooks; it is inserted if and only if no hook rejects and every outcome has all required columns, validly; the nodes are those fields with the ids of the batch |
| `BulkDefaults.BulkInsertsDefaults` | backend/ent/account_create.go:2095-2152 | with hooks that leave the mutations alone the batch goes out, of the callers' fields and the defaults, if and only if every caller has given a name, a platform and a type and the validators accept the values |
| `BulkDefaults.SaveNew` | backend/ent/account_create.go:2095-2152 | the same for the whole call on the heap, from building the bulk builder to the nodes returned |
| `BulkDefaults.FirstObstacle` | backend/ent/account_create.go:2102-2149 | the error of a failing save is the first obstacle in builder and hook order: a rejecting hook, else the builder's check, and the batch insert only when all have got by |
| `BulkSave.RunIsNested` | backend/ent/account_create.go:2102-2149 | every run, whatever fails and at whatever depth, goes in in builder and hook order and comes out in exactly the reverse order |
| `BulkSave.SuccessIsBalanced` | backend/ent/account_create.go:2102-2149 | in a successful run every completion and hook exit closes the last one open, judged by an independent stack machine |
| `BulkSave.FailureMarksNothing` | backend/ent/account_create.go:2129-2138 | if a run fails, no mutation is marked done or given an id, whatever the hooks |
| `BulkOutcome.MutateAchieves` | backend/ent/account_create.go:2106-2144 | from any builder on: the insert runs once with all specs in builder order exactly if nothing rejects and all checks pass, and later builders' mutations are finished and others untouched |
| `AccountCreateBulk.SaveAllOrNothing` | backend/ent/account_create.go:2095-2152 | the batch insert runs exactly once with every spec in builder order if and only if nothing rejects and every check passes; the save succeeds exactly when that insert does, with every mutation done and every node carrying its id, and otherwise no mutation is marked |
| `AccountCreateBulk.FinalIsFilledThenEdited` | backend/ent/account_create.go:2104-2115 | what a builder inserts is its own mutation, filled in first and then edited by its hooks in order |
| `AccountCreateBulk.UnsetDefaultStopsTheBatch` | backend/ent/account_create.go:2105-2113 | a defaulted column still unset once a builder's hooks are through keeps the batch from being inserted |
| `AccountCreateBulk.FailedDefaultsStopTheBatch` | backend/ent/account_create.go:2105-2113 | if `defaults` failed for a builder and none of its hooks sets the column it failed on, the batch is never inserted |
| `ValidatedSave.EndsWithHandedOn` | backend/ent/account_create.go:2114-2114 | after a successful save every builder holds the mutation its hooks handed on |
| `ValidatedSave.ChecksWhatItInsertsIff` | backend/ent/account_create.go:2111-2116 | a builder inserts the mutation it checked if and only if its hooks hand its own mutation on |
| `ValidatedSave.SpecifiesWhatArrives` | backend/ent/account_create.go:2111-2116 | for any builders and hooks, in a successful run every builder has checked its own mutation and specified the one its hooks handed on, both as they were when its turn came |
| `ValidatedSave.OwnMutationsAreChecked` | backend/ent/account_create.go:2111-2116 | if all hooks hand the builders' own mutations on, every builder has checked and specified its own mutation as it was when its turn came |
| `ValidatedSave.InsertsTheSpecs` | backend/ent/account_create.go:2120-2123 | a successful run inserts once, exactly what the builders have specified |
| `ValidatedSave.SubstituteIsInsertedUnchecked` | backend/ent/account_create.go:2111-2116 | for every valid mutation and every invalid substitute handed on by a hook, the substitute is inserted |
| `ValidatedSave.SingleSave.Mutate` | backend/ent/ent.go:580-611 | whatever the hooks substitute, at most one specification is inserted and it is that of a mutation that passes the check; only then is the mutation done. With hooks that hand the mutation on it is inserted, as edited by them, exactly if none rejects and the check passes |
| `ValidatedSave.SingleSave.SqlSave` | backend/ent/account_create.go:664-680 | the check precedes the insert; the mutation gets its id and is done only after a successful insert |
| `ValidatedSave.SingleSave.Save` | backend/ent/account_create.go:497-502 | an uninitialised default ends the save; otherwise what is inserted is the caller's fields with the defaults of the other columns, edited by the hooks |
| `EdgeUpdate.AppliedIsInTurnPlusOutliving` | backend/ent/account_update.go:949-1005 | for every sequence of calls and every old edge set, the outcome is that of the calls in turn plus the additions that outlive a later clear |
| `EdgeUpdate.OutlivingIff` | backend/ent/account_update.go:949-1005 | an id outlives a clear exactly when the last call to name it is an addition and a clear follows |
| `EdgeUpdate.CallsMeanWhatTheySayIff` | backend/ent/account_update.go:949-1005 | the calls mean what they say in turn, on every old edge set, if and only if there is no such id |
| `EdgeUpdate.LastTargetCallDecidesIff` | backend/ent/account_update.go:1006-1034 | the last call decides on every old target, unless nothing but clears of the edge, at least one, follows the last `SetID` |
| `EdgeUpdate.CompileToMany` | backend/ent/account_update.go:949-1005 | one clear naming no nodes if cleared, else one naming exactly the removed ids if any; one add naming exactly the added ids if any |
| `EdgeUpdate.CompileEdges` | backend/ent/account_update.go:949-1153 | the whole edge program of an update, clears and adds in relation order |
| `EdgeStatements.ProgramMeans` | backend/ent/account_update.go:2119-2323 | against the generated schema alone, running any program compiled from a mutation, whatever order its ids come in, succeeds if and only if every neighbour named exists and none added is still connected after the clears, and then changes the database as recorded and in nothing else |
| `EdgeStatements.ChildrenAfter` | backend/ent/account_update.go:1064-1108 | against the generated schema alone, the account's children become (none if cleared, else the old ones minus the removed) plus the added, and no other account's children change, the account itself apart |
| `EdgeStatements.ParentAfter` | backend/ent/account_update.go:1035-1063 | against the generated schema alone, the account's parent becomes the id set, else none if cleared, else stays, unless the children edge frees or claims the account itself |
| `EdgeStatements.ConnectedChildIsRefused` | backend/ent/account_update.go:1093-1108 | adding a child that has another parent refuses the whole update |
| `EdgeExecution.ExecutionMeans` | backend/ent/account_update.go:2119-2323 | on the migrated database, for any stored rows and any program compiled from a mutation: the update is taken if and only if the neighbours named exist and no added group is still joined, the account's own new row suits the checks and the index, and no child or usage log is added or would be taken away; it then changes the account's own keys and memberships as recorded and nothing else |
| `EdgeExecution.ExecutionKeepsValid` | backend/ent/account_update.go:2119-2323 | an update that is taken keeps all stored rows within the checks and the index |
| `EdgeExecution.ChecksOnlyRefuse` | backend/ent/account_update.go:2119-2323 | what the migrated database takes, the statements do exactly so against the generated schema |
| `EdgeExecution.BecomesShadowIff` | backend/ent/account_update.go:1035-1063 | giving an account without a parent a parent and the spark dimension is taken if and only if the parent exists, is another account, and has no other live shadow |
| `EdgeExecution.GroupsAfter` | backend/ent/account_update.go:949-1005 | once an update is taken, the account's groups are (none if cleared, else the old ones minus the removed) plus the added; other accounts' groups stay |
| `EdgeExecution.GroupCallsExecuted` | backend/ent/account_update.go:949-1005 | from the calls to the database: for every sequence of calls on the groups edge, an update that is taken gives the calls' meaning in turn plus the additions that outlive a later clear |
| `EdgeExecution.AddThenClearKeepsTheAddition` | backend/ent/account_update.go:949-1005 | adding a group and then clearing the edge is taken and leaves the account in just that group |
| `EdgeExecution.ProxyAfter` | backend/ent/account_update.go:1006-1034 | once an update is taken, the account's proxy is the id set, else none if cleared, else the old one; no other account's proxy changes |
| `EdgeExecution.ParentAfter` | backend/ent/account_update.go:1035-1063 | once an update is taken, the account's parent is the id set, else none if cleared, else the old one, never the account itself and none exactly for a global account; no other account's parent changes |
| `EdgeExecution.ProxyCallsExecuted` | backend/ent/account_update.go:1006-1034 | for every sequence of calls on the proxy edge, an update that is taken gives what the last call says, or the id still set when the edge is cleared behind it |
| `EdgeExecution.ParentCallsExecuted` | backend/ent/account_update.go:1035-1063 | the same for the parent edge |
| `EdgeExecution.ChildrenNeverMove` | backend/ent/account_update.go:1064-1108 | an update that is taken adds no child, takes none away, and leaves the account's children as they were |
| `EdgeExecution.UsageLogsNeverMove` | backend/ent/account_update.go:1109-1153 | an update that is taken adds no usage log, takes none away, and leaves every log with its account |
| `EdgeUpdate.OneSpecPerRelation` | backend/ent/account_update.go:949-1153 | every relation is cleared at most once and added to at most once |
| `Upsert.AccountUpsert.UpdateNewValues` | backend/ent/account_create.go:2225-2235 | whatever was configured before, afterwards every option that takes the new values is followed by the closure that keeps the creation time |
| `Upsert.AccountUpsert.Ignore` | backend/ent/account_create.go:2243-2246 | keeps that protection |
| `Upsert.AccountUpsert.Set` | backend/ent/account_create.go:2257-2262 | keeps that protection, for any setters |
| `Upsert.CreatedAtLeftAloneIff` | backend/ent/account_create.go:1442-1477 | for any options in any order, an existing creation time is left alone if and only if every option that would overwrite it is followed by one that keeps it |
| `Upsert.CreationTimeSurvives` | backend/ent/account_create.go:1442-1450 | for one builder or many, with any options so protected, an existing row keeps its creation time even if no caller set one |
| `Upsert.LastSetterDecides` | backend/ent/account_create.go:942-1432 | behind any options, the last setter of a column decides: its value, none for a clear, the old value or zero plus the amount for an addition, the proposed value for an update to it |
| `Upsert.OthersKeepWhatTheyHad` | backend/ent/account_create.go:942-1432 | columns without a setter are left to the options before, and to the existing row if there are none |
| `Upsert.IgnoreKeepsTheRow` | backend/ent/account_create.go:1454-1461 | behind any options, `Ignore` leaves every inserted column of the existing row as it was |
| `Upsert.OtherColumnsTakeNewValues` | backend/ent/account_create.go:1442-1450 | every other inserted column takes the proposed value |
| `Upsert.DocumentedEquivalenceIff` | backend/ent/account_create.go:1434-1450 | equivalent to `ResolveWithNewValues` if and only if no builder's mutation has a creation time |
| `Upsert.DecidingEarlyWouldOverwrite` | backend/ent/account_create.go:1444-1448 | were the closure run when the option is given, a creation time the caller left to `defaults` would be overwritten |
| `AuditExceptions.ParseExceptions` | tools/check_pnpm_audit_exceptions.py:23-48 | the records the line-by-line specification gives, or its error |
| `AuditExceptions.FurtherLineIs` | tools/check_pnpm_audit_exceptions.py:43-45 | inside a record a line writes its key, whatever its indentation and whatever follows the colon, with that stripped and its quotes taken off |
| `AuditExceptions.BulletLineIs` | tools/check_pnpm_audit_exceptions.py:33-42 | a bullet's line finishes the record before and begins one with its entry, whatever blanks surround it |
| `AuditExceptions.FurtherLineWithoutRecord` | tools/check_pnpm_audit_exceptions.py:43-45 | before the first bullet such a line is passed over |
| `AuditExceptions.NoiseIsIgnored` | tools/check_pnpm_audit_exceptions.py:28-32 | blank lines, comments and the two headings may stand anywhere in the file without changing what is parsed |
| `AuditExceptions.PairReadsBackIff` | tools/check_pnpm_audit_exceptions.py:12-20 | a printed pair splits into its key and value if and only if the value is in quotes of either kind, or has neither outer blanks nor enclosing quotes of its own |
| `AuditExceptions.PrintThenParse` | tools/check_pnpm_audit_exceptions.py:12-48 | printing any list of non-empty records and parsing it gives the same records, for keys that cannot be mistaken, any values in quotes of either kind, and values without quotes that suit it |
| `AuditExceptions.BulletLineReadsBackIff` | tools/check_pnpm_audit_exceptions.py:28-41 | a bullet's own line reads back in every state if and only if its key has no colon or outer blanks and its value suits the way it is written |
| `AuditExceptions.FurtherLineReadsBackIff` | tools/check_pnpm_audit_exceptions.py:28-45 | a line inside a record reads back if and only if its key has no colon or outer blanks and does not look like a comment, a bullet or a heading, and its value suits the way it is written |
| `AuditExceptions.PrintToFileThenParse` | tools/check_pnpm_audit_exceptions.py:23-48 | the round trip through a text file with line ends of any of the three kinds, for keys and values without newlines |
| `AuditExceptions.WriteThenRead` | tools/check_pnpm_audit_exceptions.py:26-27 | lines are read back whichever of the three ways they are ended, the last one also without an end |
| `AuditBullets.BulletStartsIff` | tools/check_pnpm_audit_exceptions.py:28-45 | for any text behind the dash: a record starts if and only if a blank follows the dash and the text has a colon; the parser raises if and only if a blank follows and there is text without one |
| `AuditBullets.ParserStaysLive` | tools/check_pnpm_audit_exceptions.py:23-48 | the record being filled is never empty |
| `AuditBullets.BareBulletIsPassedOver` | tools/check_pnpm_audit_exceptions.py:28-45 | a dash with nothing but blanks around it is skipped |
| `AuditBullets.EntriesAfterBareBulletMerge` | tools/check_pnpm_audit_exceptions.py:33-45 | entries after a bare bullet of any form are written over the record before it, or dropped if there is none |
| `AuditReport.IterVulns` | tools/check_pnpm_audit_exceptions.py:64-111 | the findings of the advisories, then those of the vulnerabilities, or none at all if extracting one raises |
| `AuditReport.IterVulnerability` | tools/check_pnpm_audit_exceptions.py:83-111 | an entry's findings: one for each identified `via` item, in order, unless joining the titles raises |
| `AuditReport.PicksFirstIdentifier` | tools/check_pnpm_audit_exceptions.py:51-61 | an advisory's id is the first of its identifiers that is not empty: GHSA id, URL, first CVE, id, then the descriptive texts; malformed CVEs raise if and only if neither GHSA id nor URL comes before them |
| `AuditReport.AdvisoryFindingIs` | tools/check_pnpm_audit_exceptions.py:67-78 | an advisory's finding has the first of its two names that is not empty, its severity, and the first of its identifiers; there is none exactly when it is not an object or malformed CVEs raise |
| `AuditReport.PicksFirstViaIdentifier` | tools/check_pnpm_audit_exceptions.py:88-97 | a `via` item's id is the first of its identifiers that is not empty |
| `AuditReport.EveryAdvisoryIsExamined` | tools/check_pnpm_audit_exceptions.py:66-78 | every advisory yields exactly one finding, its own, even without an identifier |
| `AuditReport.VulnerabilityIsExaminedIff` | tools/check_pnpm_audit_exceptions.py:80-111 | an entry yields findings if and only if one of its `via` items has an identifier |
| `AuditReport.ViaListIsExamined` | tools/check_pnpm_audit_exceptions.py:87-111 | for a list under `via`: joining the titles raises if and only if the first title of some item is not a string; otherwise the findings are, in order, one for each item that is a non-empty string or an object with one of the five identifiers, carrying the first of them |
| `AuditReport.OtherViaIsExamined` | tools/check_pnpm_audit_exceptions.py:103-111 | a text under `via` is one finding unless it is empty, and anything else is none |
| `AuditReport.EntriesAreExaminedInOrder` | tools/check_pnpm_audit_exceptions.py:81-111 | entries are examined in order, the findings of the first ones before those of the rest, and none at all if one raises |
| `AuditReport.AdvisoriesRaiseIff` | tools/check_pnpm_audit_exceptions.py:66-78 | extracting the advisories raises if and only if it does for one of them |
| `AuditReport.ReportIsExamined` | tools/check_pnpm_audit_exceptions.py:64-81 | the findings are those under `advisories` and then those under `vulnerabilities`, each only if it is an object |
| `AuditReport.GetFinds` | tools/check_pnpm_audit_exceptions.py:53-53 | a field is the value of its key's entry, or the default |
| `AuditReport.VulnerabilityFindingsCollected` | tools/check_pnpm_audit_exceptions.py:80-111 | the vulnerabilities' findings are those of the single entries and no others |
| `AuditGate.BuildIndex` | tools/check_pnpm_audit_exceptions.py:156-185 | there is no error if and only if every exception is well formed and no two share a key; the index then holds exactly the exceptions |
| `AuditGate.CheckFindings` | tools/check_pnpm_audit_exceptions.py:187-219 | no error and no crash if and only if every relevant finding has an advisory and an entry that accepts the first finding of its key |
| `AuditGate.Gate` | tools/check_pnpm_audit_exceptions.py:156-243 | exit code 0 if and only if the findings could be extracted and the verdict, stated without index and `seen` set, is positive |
| `AuditVerdict.AcceptedIff` | tools/check_pnpm_audit_exceptions.py:156-219 | the verdict from the fields alone: every exception has the five fields, a date, and more than blanks for package and advisory, and no two are for the same; every severity can be read; and of every named high or critical finding the advisory is known and some unexpired exception is for the package, advisory and severity of the first finding like it, or for any severity |
| `AuditVerdict.FitIff` | tools/check_pnpm_audit_exceptions.py:156-174 | an exception is well formed if and only if each of the five named fields is there and not empty, the date is one, and package and advisory are more than blanks |
| `AuditVerdict.MattersIff` | tools/check_pnpm_audit_exceptions.py:195-197 | a finding matters if and only if it has a name and its severity is high or critical, outer blanks and case aside |
| `AuditVerdict.LowerMeetsIff` | tools/check_pnpm_audit_exceptions.py:127-131 | texts are equal once lower-cased if and only if they differ in the case of ASCII letters at most |
| `AuditVerdict.BlanksDoNotMatter` | tools/check_pnpm_audit_exceptions.py:119-131 | blanks around a package or an advisory never keep an exception and a finding apart |
| `AuditOrder.RunGate` | tools/check_pnpm_audit_exceptions.py:142-243 | exit code 0 for a report and the text of the exception file if and only if the file parses, the findings can be extracted, and the verdict from the fields is positive |
| `AuditOrder.ExceptionOrderIsIrrelevant` | tools/check_pnpm_audit_exceptions.py:156-185 | permuting the exceptions never changes the verdict |
| `AuditOrder.AcceptedInEveryOrderIff` | tools/check_pnpm_audit_exceptions.py:187-219 | accepted in every order of the findings if and only if every single finding matches its exception |
| `AuditOrder.AcceptedInSomeOrderIff` | tools/check_pnpm_audit_exceptions.py:187-219 | accepted in some order of the findings if and only if every relevant key has a finding that matches |
| `AuditOrder.FindingOrderIsIrrelevant` | tools/check_pnpm_audit_exceptions.py:187-219 | if findings of a key agree on severity, their order does not matter |
| `AuditOrder.FindingOrderMatters` | tools/check_pnpm_audit_exceptions.py:200-204 | for any two findings of a key of which one matches, one order is accepted and the other rejected |
| `AuditOrder.OrderExample` | tools/check_pnpm_audit_exceptions.py:200-204 | with one exception for high findings, a high and a critical finding of its key are accepted in one order and rejected in the other |
| `AuditOrder.CleanCoversAdvisories` | tools/check_pnpm_audit_exceptions.py:66-78 | in an accepted report every advisory with a name and of high or critical severity has an unexpired exception for that name and its first identifier, all said of the report's JSON |
| `AuditOrder.CleanCoversVulnerabilities` | tools/check_pnpm_audit_exceptions.py:80-111 | and so has every item under `via` of a high or critical entry, whether in a list or alone, by the first of its identifiers |
| `AuditOrder.UnidentifiedVulnerabilityIsAccepted` | tools/check_pnpm_audit_exceptions.py:80-111 | a high entry without `via` items is accepted with no exception at all |

## Left out

- SQL text, drivers, transactions, row locks, contexts and the panicking wrappers: library behaviour.
- Aliasing of a neighbour shared by several nodes: an edge holds the neighbour's value.
- The predicates a query object accumulates when it is run twice; limits and ordering of neighbour queries, beyond the loaders' contracts holding for every answer.
- Interceptors of the group query other than pass-through in `AccountQueries.LoadGroups`; `EagerLoad.LoadManyToMany` takes any.
- The eight loaders share three generic methods, told apart by their keys and closures, as the generated code repeats three templates.
- Straight-line generated code over fields is modelled as loops over constant tables of columns (`DEFAULTED`, `RULES`, `SPEC_FIELDS`).
- Times, JSON payloads and the decimal(10,4) rate multiplier: carried as integers, text and reals, not rounded by the database.
- Hooks that swallow or replace the result of `next`, or call it more than once; nil hooks; mutations of the wrong type.
- The conflict lists of the single builders in a batch, which the batch insert ignores; `DoNothing`; options given to `OnConflict` directly beyond the two resolvers.
- Updates are executed on one account: the field part of `sqlSave` other than the quota dimension and the deletion mark, its predicates and the library's refusal to add one to-many neighbour to many rows are not modelled.
- ValidatedSave.SingleSave.Mutate: says which specification is inserted, but not the final value of other mutations that hooks write to.
- The through-table columns (priority, creation time) that `createSpec` and `sqlSave` default for new memberships.
- A bulk builder that is in an error state before `Save`.
- The triggers of `backend/migrations/175_default_openai_long_context_billing.sql`, which add a key to `extra` of an openai account on insert and update, copy it to shadows, and refuse one that is not a boolean: the round trip of created accounts is over the fields of the specification.
- Refusals on columns other than the keys, the quota dimension and the deletion mark, such as a text that is too long.
- Which of several refusals is reported, and as which error.
- AccountInsert.InsertMeans: inserts one account; a batch of several, or a conflict clause, is not executed on the database. A quota dimension is spark or else global, as its validator has it.
- Lower-casing is ASCII; JSON numbers are integers, and objects list distinct keys as the JSON reader leaves them.
- Message wording, argument parsing, file and JSON reading; the announcement, API-key and identity entities, which repeat the same templates.
