# Graph store reducers and collection view

A Dafny model of the Redux state logic of the Geist client
(`client/app/reducers/index.js`). Geist stores a personal knowledge graph of
nodes, edges and collections. The model covers:

- the entity reducers `nodes`, `edges`, `collections` and `collectionEdges`;
- the derived indices: `adjacencyMap`, `reverseAdjacencyMap`, `edgeListMap`,
  the neighbourhood caches `pathL1Cache` and `pathL2Cache`,
  `nodesByCollectionId` and `abstractionDetail`;
- the list and counter reducers `inboxNodes`, `batchNodes` and `synced`;
- the root reducer;
- the selectors `getL1Nodes`, `getEdgeIdsByNodeId`, `getEdgesForNodes`,
  `getNeighbouringNodesAndEdgesByCollectionId`, `getAbstractionChain` and
  `getNodesAndEdgesByCollectionId`. The last one builds the part of the graph
  drawn for one collection.

Every reducer is a function of the previous state and the action. An action
is a closed datatype `Event` plus the `response.entities` it carries. Action
types the reducers do not tell apart are grouped by the suffix of their name
(`OtherRequest`, `OtherSuccess`, `OtherFailure`, `OtherUi`). Where the
original throws, the model returns `Err`. This covers an
immutability-helper update of a missing key, a field read on `undefined`,
a spread of `undefined`, and the spread of the function `errors` that
makes every `*_FAILURE` dispatch throw.

Loops in the original are `method`s with loop invariants, each proved equal to
a pure function that the lemmas then describe:

- the `forEach`/`push` loops of the adjacency maps;
- the two phases of `edgeListMap`;
- the nested loops that rebuild `nodesByCollectionId`;
- the pass over the drawn sub-collections in `getNodesAndEdgesByCollectionId`.

Modules: `Types` (records, actions), `Lists` (the lodash list helpers),
`Merge` (merge-on-fetch), `Entities`, `Adjacency`, `EdgeLists`, `Paths`,
`Membership`, `Tracking`, `Store` (the root reducer), `Selectors`, `View`.

Behaviours of the code that the model keeps, and proves:

- REMOVE_NODE_SUCCESS leaves the node listed in `nodesByCollectionId`, and
  it leaves the node's edges in `edges` (`Membership.RemoveNodeKeepsMembership`,
  `Store.RemoveNodeEffect`).
- REMOVE_COLLECTION_SUCCESS turns the record's `type` into `"node"`. Any
  merge of fetched records overwrites `type` with the incoming value.
  `abstractionDetail` ignores REMOVE_ABSTRACTION_SUCCESS
  (`Membership.RemoveCollectionEffect`).
- Removing a self-loop edge leaves its id in the node's `from` list
  (index.js:343-350: the entry for `end` is written last). The edge query over
  that node then throws (`Selectors.RemovedSelfLoopBreaksEdgeQuery`).
- Every `*_FAILURE` dispatch throws in the root reducer, because `errors`
  spreads the function itself (index.js:610). So a failure never lowers the
  store's `synced`: from the initial store, a run of dispatches that all
  succeed ends synced exactly when every request was answered by a success
  (`Store.FailureThrows`, `Store.SyncedWhenAnswered`).
- Adjacency lists gain a duplicate entry each time the same edge is fetched
  again (`Adjacency.RefetchDuplicates`). Removing a node drops only its own
  key, so the forward and reverse maps stop mirroring each other
  (`Adjacency.RemoveNodeBreaksMirror`).
- The view's filter for edges that leave the collection (index.js:1125-1142)
  never removes an edge. Every edge it sees already has both ends among the
  collection's nodes (`View.ViewEdgeFilterKeepsAll`).
- In the view, a node listed by several drawn sub-collections is shown or
  hidden by the last one of them in drawing order. Its other collections and
  ancestors play no part (`View.ViewNodes`). An expanded collection makes its
  members visible but does not take them out of the hidden set.
- At each collapse, a stored self-loop stays as it is when its node is
  visible (index.js:1213-1216) and is dropped otherwise, because both of its
  ends move to the same id (index.js:1228-1231) (`View.RerouteSelfLoop`).
  `View.ViewNoSelfLoops` proves a view free of self-loops when the store
  holds none.
- `getEdgesForNodes` keeps only edges with both ends among the collection's
  stored nodes, so an edge whose end has no node record is dropped before
  the view reads its ends. Over a store whose listed edge ids all have
  records, the view never throws (`View.ViewTotal`). What does throw is an
  edge id still listed in `edgeListMap` without an edge record
  (`Selectors.RemovedSelfLoopBreaksEdgeQuery`).

## Model

| member | source | states |
|---|---|---|
| `Types.Pick` | client/app/reducers/index.js:129 | in a merge, a field the incoming record carries wins, and a field it lacks keeps the stored value |
| `Types.Overlay` | client/app/reducers/index.js:127-130 | a merged node record takes its id, `type` and chains from the incoming record |
| `Merge.MergeAllAt` | client/app/reducers/index.js:128-130 | after a fetch, key `k` holds its old record with the batch's records for `k` overlaid in order. A key is present exactly when it was before or the batch names it |
| `Merge.AbsorbTwice` | client/app/reducers/index.js:129 | overlaying the same records twice gives the same record as overlaying them once |
| `Merge.MergeIdempotent` | client/app/reducers/index.js:128-130 | merging the same payload twice yields the same map as merging it once |
| `Merge.MergeKeepsShape` | client/app/reducers/index.js:129 | a merge keeps every record under its own id. The keys become the old keys plus the batch's, and keys the batch does not name keep their records |
| `Merge.NodeOverlayLawful` | client/app/reducers/index.js:129 | the node overlay is associative and idempotent, and keeps the incoming id |
| `Merge.EdgeReplaceLawful` | client/app/reducers/index.js:151 | the edge and collection-edge replacement has the same laws |
| `Lists.Without` | client/app/reducers/index.js:73 | `_.without` drops every occurrence of the value and keeps the rest. It is the identity when the value is absent |
| `Lists.Dedup` | client/app/reducers/index.js:957 | `_.uniq` keeps the same elements, each once |
| `Lists.Difference` | client/app/reducers/index.js:1133 | `_.difference(a, b)` holds exactly the elements of `a` not in `b` |
| `Lists.FlattenMember` | client/app/reducers/index.js:499 | an id is in `_.flatten(chains)` exactly when some chain holds it |
| `Lists.IntersectionCovers` | client/app/reducers/index.js:1057 | `_.intersection(chain, cc).length === cc.length` exactly when `cc` has no repeated id and the chain holds all of `cc` |
| `Lists.DifferenceNonEmpty` | client/app/reducers/index.js:1133 | `_.difference(cc, list)` is non-empty exactly when some id of `cc` is missing from the list |
| `Entities.StripChains` | client/app/reducers/index.js:50-52 | every chain loses the id, and the number and order of chains stay |
| `Entities.RenameChain` | client/app/reducers/index.js:99-103 | every chain equal to the old chain of the moved collection becomes the new one, and the others stay |
| `Entities.Retarget` | client/app/reducers/index.js:110-114 | every chain of the source that ends in the source collection becomes the action's chain, and the others stay |
| `Entities.ToggleCollapseEffect` | client/app/reducers/index.js:80-87 | TOGGLE_COLLAPSE_COLLECTION negates `collapsed` of that one node and changes nothing else. A missing node makes it throw |
| `Entities.ToggleTwice` | client/app/reducers/index.js:80-87 | toggling twice restores the map when `collapsed` was set. When it was unset, it ends as `false` |
| `Entities.ConvertCollapses` | client/app/reducers/index.js:117-125 | CONVERT_NODE_TO_COLLECTION_SUCCESS always leaves the node collapsed, under its own id |
| `Entities.RemoveCollectionEffect` | client/app/reducers/index.js:44-53 | REMOVE_COLLECTION_SUCCESS sets that record's `type` to "node" and removes the id from every chain of every node. Keys, other fields and other types stay |
| `Entities.RemoveMissingCollectionThrows` | client/app/reducers/index.js:46-48 | removing a collection that has no node record throws |
| `Entities.MoveEffect` | client/app/reducers/index.js:89-115 | MOVE_TO_ABSTRACTION_SUCCESS throws exactly when the source is missing, or is a collection without `collections`. Every record keeps its other fields and its number of chains. Chain by chain: for a collection source every chain `[src, ...parents]` of every record becomes `[src, target, ...parents]`; then each of the source's chains that ends in the source collection becomes the action's chain, and every other chain stays. For a plain source no other record changes |
| `Entities.NodesKeepKeys` | client/app/reducers/index.js:28-134 | every action keeps each node record under its own id |
| `Entities.EdgesAndCollectionsKeepKeys` | client/app/reducers/index.js:136-160 | the `edges` and `collections` reducers (also index.js:213-256) keep each record under its own id |
| `Entities.FetchTwice` | client/app/reducers/index.js:127-132 | applying the same fetched payload twice to `nodes`, `edges` and `collections` (also index.js:149-158, 249-254) gives the same maps as applying it once |
| `Adjacency.AppendEndpoints` | client/app/reducers/index.js:269-286 | the `forEach`/`push` loop builds the local map and spreads it over the state, as `Appended` specifies |
| `Adjacency.Reducer` | client/app/reducers/index.js:258-291 | the `adjacencyMap` reducer (and `reverseAdjacencyMap`, index.js:293-329) computes `Reduce` |
| `Adjacency.LocalStep` | client/app/reducers/index.js:272-280 | one more edge copies its key's stored list on first sight, then pushes the other end |
| `Adjacency.PushedMember` | client/app/reducers/index.js:271-281 | an id is pushed onto key `k` exactly when a batch edge runs from `k` to it (into `k` from it, for the reverse map) |
| `Adjacency.AppendedAt` | client/app/reducers/index.js:267-286 | after an edge batch, `adjacencyMap[k]` is the old list (or none) followed by the ends of the batch edges from `k`, in batch order. The keys become the old keys plus the named ones, and keys no edge names are unchanged |
| `Adjacency.AppendedLists` | client/app/reducers/index.js:267-286 | a link is listed after a batch exactly when it was listed before or a batch edge makes it |
| `Adjacency.AppendKeepsMirrored` | client/app/reducers/index.js:304-323 | an edge batch keeps the forward and reverse maps mirror images of each other |
| `Adjacency.RemoveNodeBreaksMirror` | client/app/reducers/index.js:263-264 | removing a node drops only its own key (also index.js:298-299), so a mirrored pair of maps stops being mirrored |
| `Adjacency.RefetchDuplicates` | client/app/reducers/index.js:272-280 | fetching the same edge twice lists its end twice |
| `EdgeLists.Seed` | client/app/reducers/index.js:356-366 | the node phase gives every new node id an empty entry and leaves the existing ones |
| `EdgeLists.Link` | client/app/reducers/index.js:368-377 | the edge phase pushes each edge id onto `start.from` and `end.to` when both ends have entries |
| `EdgeLists.Reducer` | client/app/reducers/index.js:331-381 | the `edgeListMap` reducer computes `Reduce` |
| `EdgeLists.SeedStep` | client/app/reducers/index.js:358-365 | one more node adds an empty entry only when the id has none |
| `EdgeLists.LinkStep` | client/app/reducers/index.js:369-376 | one more edge changes only its two ends' lists, and only when both are keys |
| `EdgeLists.OutsMember` | client/app/reducers/index.js:369-376 | an edge id is pushed onto `k.from` exactly when a batch edge with that id leaves `k` and both its ends have entries |
| `EdgeLists.InsMember` | client/app/reducers/index.js:369-376 | an edge id is pushed onto `k.to` exactly when a batch edge with that id enters `k` and both its ends have entries |
| `EdgeLists.SeedEffect` | client/app/reducers/index.js:356-366 | a node merge adds an empty entry for every new id and leaves every existing entry as it was |
| `EdgeLists.FetchedEdges` | client/app/reducers/index.js:368-377 | an edge batch only appends to the lists. An id is appended to `from` (`to`) exactly when a batch edge with that id leaves (enters) the node and both ends have entries |
| `EdgeLists.RemoveEdgeEffect` | client/app/reducers/index.js:340-351 | REMOVE_EDGE_SUCCESS throws exactly when an endpoint has no entry. With distinct ends it removes the id from `start.from` and `end.to` and changes nothing else |
| `EdgeLists.RemoveSelfLoopKeepsFrom` | client/app/reducers/index.js:340-351 | for a self-loop, the entry written last wins. The id leaves `to` but stays in `from` |
| `Paths.CachedEnds` | client/app/reducers/index.js:421-422 | `_.intersection(Object.keys(state), [start, end])` holds exactly the cached endpoints, each once |
| `Paths.Extend` | client/app/reducers/index.js:428-438 | the `_.reduce` over the cached endpoints keeps the cache's keys |
| `Paths.ExtendAt` | client/app/reducers/index.js:428-438 | along distinct keys, each key gets the other endpoint and the edge id appended, and the rest stay |
| `Paths.ConnectEffect` | client/app/reducers/index.js:418-438 | CONNECT_NODES_SUCCESS and ADD_EDGE_SUCCESS change only the cached entries of `start` and `end`. Each gets the other endpoint and the new edge id appended |
| `Paths.ConnectUncachedUnchanged` | client/app/reducers/index.js:421-427 | with neither endpoint cached, the cache is returned unchanged |
| `Paths.FetchEffect` | client/app/reducers/index.js:395-402 | a level-1 fetch stores `[node, ...connectedNodes]`. A level-2 fetch (index.js:439-446) replaces the entry wholesale, and no other key changes |
| `Paths.FetchTwice` | client/app/reducers/index.js:439-446 | fetching the same neighbourhood twice leaves both caches as fetching it once |
| `Membership.IndexMembers` | client/app/reducers/index.js:493-510 | the nested loops rebuild the index that `Index` specifies |
| `Membership.ByCollectionReducer` | client/app/reducers/index.js:487-540 | the `nodesByCollectionId` reducer computes `ByCollectionReduce` |
| `Membership.AddToAt` | client/app/reducers/index.js:501-507 | pushing a node onto its distinct collections gives each of them the id once at the end, and the other lists stay |
| `Membership.IndexAt` | client/app/reducers/index.js:498-508 | the rebuilt index equals the reference `Members`. A collection has a list exactly when some fetched node sits in it |
| `Membership.MembersMember` | client/app/reducers/index.js:498-507 | a node id is listed under `c` exactly when `c` occurs in one of that node's chains |
| `Membership.MembersFromBatch` | client/app/reducers/index.js:498-507 | every listed id is the id of a fetched node |
| `Membership.MembersNoDup` | client/app/reducers/index.js:499-507 | when the fetched nodes have distinct ids, each is listed at most once |
| `Membership.GetCollectionIndex` | client/app/reducers/index.js:493-510 | after GET_COLLECTION_SUCCESS, `nodesByCollectionId[c]` contains node id n, exactly once, iff c occurs in some chain of n |
| `Membership.MoveEffect` | client/app/reducers/index.js:516-535 | MOVE_TO_ABSTRACTION_SUCCESS gives the target a list that ends with the source id. It keeps every id the target listed, and for a collection source every id the source listed, and holds nothing else. For a collection source the ids before the source id are listed once each, as `_.union` gives them. For a plain source it is the old list plus the source id. No other key changes |
| `Membership.RemoveCollectionEffect` | client/app/reducers/index.js:512-514 | removing a collection drops its key from `nodesByCollectionId` and from `abstractionDetail` (index.js:560-561). Removing an abstraction drops it only from the former |
| `Membership.RemoveNodeKeepsMembership` | client/app/reducers/index.js:537-538 | REMOVE_NODE_SUCCESS leaves `nodesByCollectionId` as it was |
| `Membership.DetailAddErrors` | client/app/reducers/index.js:564-569 | adding a node throws exactly when the collection has no entry or no member list. Otherwise it pushes the id and changes nothing else |
| `Membership.DetailAddRemove` | client/app/reducers/index.js:564-583 | adding a node that was not listed and then removing it restores `abstractionDetail` |
| `Membership.DetailRemoveEffect` | client/app/reducers/index.js:572-583 | removing a node from a collection throws exactly when the collection has no entry. After it, the node is not in that list, every other id of the list (a missing list counting as empty) still is, a list without the node is kept as it was, and no other entry changes |
| `Membership.DetailRemoveNodeWithoutCollection` | client/app/reducers/index.js:577-585 | REMOVE_NODE_SUCCESS without a collection id leaves `abstractionDetail` as it was |
| `Tracking.RemoveNodeEffect` | client/app/reducers/index.js:454-466 | removing a node takes every occurrence of it out of `inboxNodes` and `batchNodes` and keeps every other id |
| `Tracking.ConnectEffect` | client/app/reducers/index.js:474-479 | connecting two distinct nodes appends the other endpoint when exactly one of them is a batch node, and otherwise leaves the batch |
| `Tracking.ConnectSelfDuplicates` | client/app/reducers/index.js:474-479 | connecting a batch node to itself appends it a second time |
| `Tracking.SyncedCounts` | client/app/reducers/index.js:647-656 | after any actions the counter has moved by the requests minus the successes and failures |
| `Tracking.SyncedWhenAnswered` | client/app/reducers/index.js:1323 | for the `synced` reducer alone, from zero, `isSynced` holds again once every request has been answered by a success or a failure |
| `Tracking.PlainActionsChangeNothing` | client/app/reducers/index.js:452-485 | an action that is neither a request nor a response leaves `inboxNodes`, `batchNodes` and `synced` alone |
| `Store.RootReducer` | client/app/reducers/index.js:893-917 | the root reducer, with the index reducers' loops, computes `RootReduce` |
| `Store.FailureThrows` | client/app/reducers/index.js:597-612 | every `*_FAILURE` dispatch throws, because `errors` spreads the function itself (index.js:610, called at 915); the fault is that spread exactly when the failure is one and no earlier reducer threw. A dispatch that succeeds was no failure and moves `synced` as its reducer does |
| `Store.RunSynced` | client/app/reducers/index.js:647-656 | along a run of dispatches that all succeed there was no failure, and the store's `synced` moved by the requests minus the successes |
| `Store.SyncedWhenAnswered` | client/app/reducers/index.js:1323 | from the initial store, after a run of dispatches that all succeed, `isSynced` holds exactly when every request has been answered by a success |
| `Store.RemoveNodeEffect` | client/app/reducers/index.js:33-34 | REMOVE_NODE_SUCCESS deletes the node's key from `nodes`, `adjacencyMap`, `reverseAdjacencyMap`, `edgeListMap`, `pathL1Cache` and `pathL2Cache` (index.js:263-264, 298-299, 338-339, 391-392, 415-416), and other keys keep their values. `edges` is returned unchanged (index.js:141-144), and the node leaves the inbox and batch lists. It throws exactly when a collection id is given that `abstractionDetail` lacks |
| `Store.RemoveCollectionEffect` | client/app/reducers/index.js:44-53 | REMOVE_COLLECTION_SUCCESS retypes the record and strips the id from every chain. It drops the key from `collections`, `nodesByCollectionId` and `abstractionDetail`, and drops every collection edge touching it |
| `Store.ToggleTwice` | client/app/reducers/index.js:80-87 | toggling a collapsed or expanded collection twice restores the whole store |
| `Store.UnrelatedActionKeepsStore` | client/app/reducers/index.js:647-656 | a request action without a payload changes only the request counter, which it raises by one |
| `Selectors.L1NodeIds` | client/app/reducers/index.js:952-960 | the ids of `getL1Nodes` are distinct stored nodes. They are exactly the node itself and its adjacency and reverse-adjacency entries that are stored, with the node first when stored |
| `Selectors.L1Nodes` | client/app/reducers/index.js:946-961 | `getL1Nodes` returns the stored record of each of those ids, in order |
| `Selectors.EdgeIdsByNode` | client/app/reducers/index.js:963-976 | `getEdgeIdsByNodeId` gives exactly the ids of the node's `from` and `to` lists, as many as the two lists hold together. A node without an entry has none |
| `Merge.Lookup` | client/app/reducers/index.js:1026-1036 | looking up ids (edge ids here, and the neighbourhood's node ids at index.js:1093) succeeds exactly when every id has a record, and then yields those records in order. A missing record is `undefined` in the original, and the field read on it that follows throws |
| `Selectors.UniqById` | client/app/reducers/index.js:1031 | `_.uniqBy('id')` keeps one record per id, drawn from the input, and every input id survives |
| `Selectors.BothIn` | client/app/reducers/index.js:1032-1036 | an edge is kept exactly when both its ends are among the ids |
| `Selectors.BothInDistinct` | client/app/reducers/index.js:1032-1036 | keeping some edges keeps their ids distinct |
| `Selectors.EdgesForNodesSpec` | client/app/reducers/index.js:1021-1039 | `getEdgesForNodes` throws exactly when some listed edge id has no record. Otherwise its ids are distinct, and an id is in it exactly when one of the nodes lists it and its stored edge has both ends among the nodes |
| `Selectors.RemovedSelfLoopBreaksEdgeQuery` | client/app/reducers/index.js:340-351 | after removing a self-loop, the edge record is gone but its id is still listed, so `getEdgesForNodes` over that node throws |
| `Selectors.CoversIff` | client/app/reducers/index.js:1056-1058 | a node is in the collection's neighbourhood test exactly when the collection chain has no repeated id and one of the node's chains holds all of it |
| `Selectors.NodesUnderIff` | client/app/reducers/index.js:1054-1060 | the filter over `getNodes` keeps exactly the stored nodes that pass that test |
| `Selectors.NeighbouringNodes` | client/app/reducers/index.js:1041-1068 | an unknown collection has an empty neighbourhood. Otherwise the node ids are distinct and are exactly the stored nodes with a chain holding the collection's chain `[id, ...collectionChain]` |
| `Selectors.AbstractionChain` | client/app/reducers/index.js:1325-1333 | `getAbstractionChain` gives none exactly when the id is neither a collection nor a node. It throws exactly when the record found first has no `collections`. Otherwise it gives `[record.id, ...record.collections]` |
| `Selectors.AbstractionChainIgnoresCollectionChain` | client/app/reducers/index.js:1333 | a collection that carries only its ancestor path `collectionChain` makes the selector throw |
| `View.SortByChains` | client/app/reducers/index.js:1144-1145 | `sortBy('collectionChains')` is a permutation of the collections, ordered by rank, and stable: the collections of each rank keep their input order |
| `View.InsertSorted` | client/app/reducers/index.js:1145 | inserting into a sorted list keeps it sorted |
| `View.FilterCollections` | client/app/reducers/index.js:1144-1183 | a sub-collection is kept exactly when the filter accepts it |
| `View.KeepCollectionIff` | client/app/reducers/index.js:1146-1182 | a sub-collection is drawn exactly when its id is not in the collection's chain, and either it is a direct child or one of its chains inside the collection starts at a loaded parent that is expanded. A parent that is not loaded counts as collapsed |
| `View.ParentsOfIff` | client/app/reducers/index.js:1166-1173 | some parent inside the collection is present and expanded exactly when some chain inside the collection starts at a loaded, expanded record |
| `View.OutsideIff` | client/app/reducers/index.js:1133 | a node is outside the collection exactly when none of its chains holds the whole collection chain |
| `View.KeepInsideAll` | client/app/reducers/index.js:1126-1142 | edges whose ends are loaded and inside the collection all pass the filter, in order |
| `View.KeepInsideSubset` | client/app/reducers/index.js:1126-1142 | the filter only drops edges |
| `View.DropIncident` | client/app/reducers/index.js:1255-1269 | an expanded collection keeps exactly the edges with neither end on it |
| `View.RerouteAllMember` | client/app/reducers/index.js:1211-1236 | an edge is in the rerouted list exactly when rerouting some input edge gives it |
| `View.RerouteAllShape` | client/app/reducers/index.js:1211-1236 | after a collapse, each edge keeps an input edge's id, and its ends are that edge's ends or the collection. It is either the input edge between two visible ids or joins two different ids |
| `View.RerouteDropsMerged` | client/app/reducers/index.js:1228-1231 | an edge whose endpoints the collapsed pass makes equal is dropped |
| `View.RerouteSelfLoop` | client/app/reducers/index.js:1211-1236 | at a collapse, a self-loop stays as it is exactly when its node is visible, and is dropped otherwise |
| `View.RerouteKeepsNoSelfLoops` | client/app/reducers/index.js:1211-1236 | rerouting keeps a list free of self-loops |
| `View.RunPasses` | client/app/reducers/index.js:1185-1271 | the `forEach` over the drawn sub-collections, with its inner loops over member ids, computes `Process` |
| `View.LastOwner` | client/app/reducers/index.js:1195-1201 | the position found is the last drawn collection whose member list holds the id |
| `View.ProcessVisible` | client/app/reducers/index.js:1185-1271 | after the pass, an id is visible exactly when the last drawn collection listing it is expanded. When no collection lists it, it is visible exactly when it was before the pass |
| `View.ProcessHidden` | client/app/reducers/index.js:1195-1201 | an id ends hidden exactly when it was hidden before or a collapsed collection lists it. The expanded branch never un-hides it |
| `View.ProcessShown` | client/app/reducers/index.js:1204-1208 | `visibleCollections` gets exactly the collapsed collections, in pass order, each with the length of its member list |
| `View.ProcessNoSelfLoops` | client/app/reducers/index.js:1228-1231 | the pass never creates an edge from an id to itself |
| `View.ProcessEdgeOrigin` | client/app/reducers/index.js:1219-1227 | every edge after the pass carries an input edge's id. Each end is that edge's end or a collapsed collection |
| `View.ProcessExpandedGone` | client/app/reducers/index.js:1255-1269 | once an expanded collection has been processed, no edge has `start` or `end` equal to it, through the rest of the pass |
| `View.OfKind` | client/app/reducers/index.js:1094-1097 | exactly the records of the given type |
| `View.VisibleNodes` | client/app/reducers/index.js:1273-1275 | exactly the plain nodes whose id is visible |
| `View.ViewOf` | client/app/reducers/index.js:1075-1084 | an unresolved collection yields all-empty results |
| `View.Materialize` | client/app/reducers/index.js:1070-1284 | the selector, as the original runs it with its loops, computes `ViewOf` |
| `View.ViewCollections` | client/app/reducers/index.js:1148-1150 | every drawn sub-collection is a stored collection record inside the collection, and no id of the ancestor chain is ever among them |
| `View.ViewEdgeFilterKeepsAll` | client/app/reducers/index.js:1125-1142 | with edges stored under their own ids, the filter for edges going outside the collection drops nothing |
| `View.ViewTotal` | client/app/reducers/index.js:1050-1142 | when every edge id listed in `edgeListMap` has an edge record, the view of any collection is computed without a throw: the edge query succeeds, every neighbourhood id has a node record, and the filter's reads of `nodeMap[e.start]`/`nodeMap[e.end]` find records |
| `View.ViewNoSelfLoops` | client/app/reducers/index.js:1228-1231 | without a stored self-loop, the view draws no edge from an id to itself |
| `View.ViewExpandedUnconnected` | client/app/reducers/index.js:1255-1269 | no drawn edge ends on an expanded sub-collection |
| `View.ViewShown` | client/app/reducers/index.js:1204-1208 | `visibleCollections` lists the collapsed drawn sub-collections in drawing order, each with its member count |
| `View.ViewEdgeOrigin` | client/app/reducers/index.js:1211-1236 | every drawn edge is a stored edge's id, and each end is the stored end or the collapsed sub-collection it was moved to |
| `View.ViewNodes` | client/app/reducers/index.js:1114-1275 | a plain node is drawn exactly when it is a stored node inside the collection, and either the last drawn sub-collection listing it is expanded, or none lists it and it is a direct child |
| `View.ToggleTwiceKeepsView` | client/app/reducers/index.js:80-87 | toggling a collapsed or expanded collection twice gives back the view of every collection |
| `View.CollapseExample` | client/app/reducers/index.js:1187-1237 | collapsed `C1` with members `n1`, `n2`: the edge between them goes, the edge to `n3` is rerouted to start at `C1`, and `C1` is listed with count 2 |
| `View.ExpandExample` | client/app/reducers/index.js:1239-1270 | expanded `C2` shows its member, and drops the edge ending on `C2` but not an edge already moved to `C1` |

## Left out

- User-interface reducers are not modelled: `uiState`, `graphUiState`, `editorState`, `user`, `allSearch`, `nodeSearch` and `collectionSearch`. They store window flags and opaque payloads.
- The `errors` slice is not modelled: it spreads the function `errors` itself into the list (index.js:610). What that does to the store is modelled: every `*_FAILURE` dispatch throws, so no slice changes and `synced` is never lowered by a failure (`Store.FailureThrows`). `loadingStates` is not modelled either: its keys come from imported action-type names.
- `memoize`, the `console.log` call and the other selectors (`getEdgesFromNode`, `getL2Nodes` and so on) are not modelled. `getNodesForIds` (index.js:937) refers to an unbound `state`.
- client/app/graph/node.js (D3 rendering) is not part of this model.
- ADD_COLLECTION and TOGGLE_EDIT_MODE in `collections` and `collectionEdges` (index.js:176-200, 222-247) are not modelled. They insert and remove temporary records that carry UI fields (`isNew`, `editMode`, `parentId`), which the model's records do not have.
- Types.Overlay: lodash's recursive `_.merge` is taken one level deep. An incoming field replaces the stored one, and arrays are not merged index by index.
- `collectionEdges` on REMOVE_COLLECTION_SUCCESS returns an array from `_.filter` (index.js:169). The model keeps a map holding the kept records under their keys.
- Value semantics: the model is free of aliasing. The original mutates shared state in three places:
  - `edgeListMap` pushes into arrays shared with the previous state (index.js:374-375);
  - `nodesByCollectionId` writes `[]` into the incoming state on a move (index.js:519-520);
  - the view mutates its copied edges in place.

  None of this changes the values returned.
- View.SortByChains: `sortBy('collectionChains')` compares chains as strings. The model takes that order as a `rank` function and sorts stably by it.
- The enumeration order of `entities.nodes` (`getNodes`) is a parameter `order` that lists every key once.
- Entities.NodesReducer: CONVERT_NODE_TO_COLLECTION_SUCCESS on an id that is neither stored nor in the response returns an error. The original stores the record `{collapsed: true}`, which has no id or type.
- The `if (!l2Keys)` test at index.js:424 never holds, because an array is truthy, and it is not modelled.
- View.ViewNoSelfLoops: it assumes the store holds no self-loop. A stored self-loop whose node is visible at every collapse stays in the view; one whose node is hidden or not drawn is dropped at the first collapse (`View.RerouteSelfLoop` states the single step).
- Ids are non-empty strings, so JavaScript truthiness of an id or a map entry coincides with presence.
