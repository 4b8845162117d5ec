/**
 * The street-network collaborators the flex templates use, reduced to what
 * the modelled code observes: a vertex identity, a search state (where it is
 * and how many seconds have elapsed since the search started) and edges whose
 * traversal is an uninterpreted partial function.
 */
module StreetGraph {
  import opened Common

  /** A vertex reference: a real vertex is numbered from 0, and -1 is null. */
  type Vertex = int
  type StopId = int

  /** The null vertex reference: what a lookup of a stop without a vertex yields. */
  const NullVertex: Vertex := -1

  /**
   * A routing State: its vertex, its clock time (epoch seconds) and the
   * seconds elapsed since the search started. A state is always at a real
   * vertex, and real vertices are numbered from 0, so a state's vertex is never
   * the null reference.
   */
  datatype State = State(vertex: nat, timeSeconds: int, elapsedSeconds: int)

  /**
   * The edges the templates traverse: an ordinary street edge of an
   * access/egress walk, the flex ride built by getFlexEdge, and the fixed-time
   * wait inserted for a minimum-time transfer.
   */
  datatype Edge =
    | StreetEdge(id: int, fromVertex: Vertex, toVertex: Vertex)
    | FlexTripEdge(fromVertex: Vertex, toVertex: Vertex, fromStop: StopId, toStop: StopId)
    | FlexTransferEdge(fromVertex: Vertex, toVertex: Vertex, minTransferTimeSeconds: int)

  /**
   * Edge.traverse (None stands for a null State) and
   * FlexTripEdge.getTimeInSeconds, both uninterpreted.
   */
  datatype Network = Network(
    traverse: (Edge, State) -> Option<State>,
    flexTimeInSeconds: Edge -> int)

  /**
   * The state after traversing `edges` in order from `s`, or None as soon as
   * one traversal yields no state.
   */
  function TraverseAll(net: Network, s: State, edges: seq<Edge>): Option<State>
    decreases |edges|
  {
    if edges == [] then Some(s)
    else match net.traverse(edges[0], s)
      case None => None
      case Some(s') => TraverseAll(net, s', edges[1..])
  }

  /** Traversing a concatenation is traversing the first part, then the rest. */
  lemma {:induction false} TraverseAllAppend(net: Network, s: State, a: seq<Edge>, b: seq<Edge>)
    ensures TraverseAll(net, s, a + b) ==
      match TraverseAll(net, s, a)
      case None => None
      case Some(m) => TraverseAll(net, m, b)
    decreases |a|
  {
    if a == [] {
      assert a + b == b;
    } else {
      assert (a + b)[0] == a[0];
      assert (a + b)[1..] == a[1..] + b;
      match net.traverse(a[0], s)
      case None =>
      case Some(s') => TraverseAllAppend(net, s', a[1..], b);
    }
  }

  /** A traversal that succeeds succeeded on every prefix of the edges. */
  lemma {:induction false} TraverseAllPrefix(net: Network, s: State, edges: seq<Edge>, k: nat)
    requires k <= |edges|
    requires TraverseAll(net, s, edges).Some?
    ensures TraverseAll(net, s, edges[..k]).Some?
  {
    assert edges == edges[..k] + edges[k..];
    TraverseAllAppend(net, s, edges[..k], edges[k..]);
  }

  /** A traversal that fails on a prefix fails on the whole sequence. */
  lemma TraverseAllFailsOnPrefix(net: Network, s: State, edges: seq<Edge>, k: nat)
    requires k <= |edges|
    requires TraverseAll(net, s, edges[..k]).None?
    ensures TraverseAll(net, s, edges).None?
  {
    if TraverseAll(net, s, edges).Some? {
      TraverseAllPrefix(net, s, edges, k);
    }
  }
}
