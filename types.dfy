/**
 * The data the store holds and the actions it reacts to.
 *
 * Entity records are JavaScript objects in the original; a record here has
 * the fields the reducers and selectors read. `id`, `type` and
 * `collectionChains` are always present on a fetched entity; the other
 * fields may be missing and are `Option`s.
 */
module Types {

  /** Entity ids are the non-empty strings the server hands out. */
  type Id = s: string | s != [] witness "n"

  /** An ancestor path: the immediate parent collection first, the root last. */
  type Chain = seq<Id>

  datatype Option<+T> = None | Some(value: T) {
    function GetOr(default: T): T {
      match this
      case Some(v) => v
      case None => default
    }
  }

  /**
   * Why a reducer or selector throws in the original: a field read on
   * `undefined`, an update of a missing key, or a spread of a value that is
   * not iterable.
   */
  datatype Fault = MissingRecord(id: Id) | MissingField(name: string) | NotIterable(name: string)

  datatype Result<+T> = Ok(value: T) | Err(fault: Fault) {
    predicate IsFailure() {
      Err?
    }
    function PropagateFailure<U>(): Result<U>
      requires Err?
    {
      Err(fault)
    }
    function Extract(): T
      requires Ok?
    {
      value
    }
  }

  /** The values the `type` field takes. */
  const NodeType: string := "node"
  const CollectionType: string := "collection"

  /**
   * A node or a collection (collections are nodes too). `nodes` is the
   * member list a fetched collection carries; `collections` the node's direct
   * parents; `collectionChain` (singular) a collection's own ancestor path.
   */
  datatype Node = Node(
    id: Id,
    kind: string,
    collectionChains: seq<Chain>,
    collapsed: Option<bool>,
    collections: Option<seq<Id>>,
    collectionChain: Option<Chain>,
    edges: Option<seq<Id>>,
    nodes: Option<seq<Id>>)

  /** JavaScript truthiness of the `collapsed` field. */
  predicate IsCollapsed(n: Node) {
    n.collapsed == Some(true)
  }

  /** The incoming value of a field wins when the incoming record has that field. */
  function Pick<T>(current: Option<T>, incoming: Option<T>): (r: Option<T>)
    ensures incoming.Some? ==> r == incoming
    ensures incoming.None? ==> r == current
  {
    if incoming.Some? then incoming else current
  }

  /** One record merged onto another, field by field, the incoming fields winning. */
  function Overlay(current: Node, incoming: Node): (r: Node)
    ensures r.id == incoming.id && r.kind == incoming.kind
    ensures r.collectionChains == incoming.collectionChains
  {
    Node(
      incoming.id,
      incoming.kind,
      incoming.collectionChains,
      Pick(current.collapsed, incoming.collapsed),
      Pick(current.collections, incoming.collections),
      Pick(current.collectionChain, incoming.collectionChain),
      Pick(current.edges, incoming.edges),
      Pick(current.nodes, incoming.nodes))
  }

  function NodeKey(n: Node): Id {
    n.id
  }

  datatype Edge = Edge(id: Id, start: Id, end: Id)

  /** An edge of a collection under construction. */
  datatype CollectionEdge = CollectionEdge(
    id: Id, start: Id, end: Id,
    kind: Option<string>, editMode: Option<bool>, isSynced: Option<bool>)

  function EdgeKey(e: Edge): Id {
    e.id
  }

  function CollectionEdgeKey(e: CollectionEdge): Id {
    e.id
  }

  /** Edges and collection edges have no optional fields: an incoming record replaces the stored one. */
  function ReplaceEdge(current: Edge, incoming: Edge): Edge {
    incoming
  }

  function ReplaceCollectionEdge(current: CollectionEdge, incoming: CollectionEdge): CollectionEdge {
    incoming
  }

  /** The per-node entry of the edge-list index: ids of outgoing (`from`) and incoming (`to`) edges. */
  datatype EdgeList = EdgeList(from: seq<Id>, to: seq<Id>)

  /** A neighbourhood-cache entry: the node ids and edge ids of a fetched path. */
  datatype Path = Path(nodes: seq<Id>, edges: seq<Id>)

  /** An `abstractionDetail` entry; `nodes` is absent when the fetched collection carried no member list. */
  datatype Detail = Detail(nodes: Option<seq<Id>>)

  /** The `response.entities` of an action, each kind as the ordered records of the response. */
  datatype Entities = Entities(
    nodes: Option<seq<Node>>,
    edges: Option<seq<Edge>>,
    collections: Option<seq<Node>>,
    collectionEdges: Option<seq<CollectionEdge>>)

  /** The entities of an action that carries no response. */
  const NoEntities: Entities := Entities(None, None, None, None)

  /**
   * The action types the reducers distinguish, with the fields they read.
   * `OtherRequest`, `OtherSuccess`, `OtherFailure` and `OtherUi` stand for
   * every other action type, grouped by the suffix of its name.
   */
  datatype Event =
    | RemoveNodeSuccess(nodeId: Id, fromCollection: Option<Id>)
    | AddNodeToCollectionSuccess(nodeId: Id, collectionId: Id, abstractionChain: Chain)
    | RemoveCollectionSuccess(collectionId: Id)
    | RemoveAbstractionSuccess(collectionId: Id)
    | RemoveNodeFromCollectionSuccess(nodeId: Id, collectionId: Id)
    | RemoveEdgeSuccess(edgeId: Id, start: Id, end: Id)
    | RemoveCollectionEdgeSuccess(edgeId: Id)
    | ToggleCollapseCollection(id: Id)
    | MoveToAbstractionSuccess(sourceId: Id, sourceCollectionId: Id, targetId: Id, abstractionChain: Chain, sourceNode: Node)
    | ConvertNodeToCollectionSuccess(id: Id)
    | ConnectNodesSuccess(start: Id, end: Id, edgeId: Id)
    | AddEdgeSuccess(start: Id, end: Id, edgeId: Id)
    | GetNodeL1Success(node: Id, connectedNodes: seq<Id>, edgeIds: seq<Id>)
    | GetNodeL2Success(node: Id, connectedNodes: seq<Id>, edgeIds: seq<Id>)
    | GetCollectionSuccess(collection: Id)
    | GetInboxNodesSuccess(nodeIds: seq<Id>)
    | GetAllBatchNodesSuccess(nodeIds: seq<Id>)
    | CreateBatchNodeSuccess(nodeId: Id)
    | DuplicateNodeSuccess(nodeId: Id, isBatch: bool)
    | ClearBatchNodesSuccess
    | OtherRequest
    | OtherSuccess
    | OtherFailure
    | OtherUi

  datatype Action = Action(event: Event, entities: Entities)

  /** The suffix of an action type's name: `_REQUEST`, `_SUCCESS`, `_FAILURE` or none. */
  datatype Phase = Request | Success | Failure | Plain

  function PhaseOf(e: Event): Phase {
    match e
    case OtherRequest => Request
    case OtherFailure => Failure
    case ToggleCollapseCollection(_) => Plain
    case OtherUi => Plain
    case _ => Success
  }
}
