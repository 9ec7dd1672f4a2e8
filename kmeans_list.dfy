/**
 * The point list of kmeans.c: a singly linked list of nodes, each holding its
 * own copy of one point's coordinates, built by appending at the tail.
 * A node's coordinate buffer is filled once when the node is made and never
 * written again, so it is an immutable sequence here.
 */
module KMeansList {
  import opened Vectors

  /** One list node: a point's coordinates, their count, and the link to the next node. */
  class Node {
    const coordinates: seq<real>
    const dimensions: int
    var next: Node?

    constructor (coordinates: seq<real>, dimensions: int)
      ensures this.coordinates == coordinates && this.dimensions == dimensions
      ensures next == null
    {
      this.coordinates := coordinates;
      this.dimensions := dimensions;
      next := null;
    }
  }

  /** `head` starts a null-terminated chain that visits exactly `nodes`, in order. */
  ghost predicate IsList(head: Node?, nodes: seq<Node>)
    reads nodes
  {
    && (if |nodes| == 0 then head == null else head == nodes[0] && nodes[|nodes| - 1].next == null)
    && forall i :: 0 <= i < |nodes| - 1 ==> nodes[i].next == nodes[i + 1]
  }

  /** Every node stores exactly `d` coordinates. */
  ghost predicate Shaped(nodes: seq<Node>, d: int)
  {
    forall i :: 0 <= i < |nodes| ==> nodes[i].dimensions == d && |nodes[i].coordinates| == d
  }

  /** The points the nodes hold, in list order. */
  ghost function Points(nodes: seq<Node>): (ps: seq<Point>)
    ensures |ps| == |nodes| && forall i :: 0 <= i < |nodes| ==> ps[i] == nodes[i].coordinates
  {
    seq(|nodes|, i requires 0 <= i < |nodes| => nodes[i].coordinates)
  }

  /**
   * Appends a fresh node holding a copy of `coordinates[..dimensions]`.
   * The head stays the same unless the list was empty; the returned tail is the new node.
   */
  method AddNode(head: Node?, tail: Node?, coordinates: array<real>, dimensions: int, ghost nodes: seq<Node>)
    returns (newHead: Node, newTail: Node, ghost newNodes: seq<Node>)
    requires IsList(head, nodes)
    requires head != null ==> tail == nodes[|nodes| - 1]
    requires 0 <= dimensions <= coordinates.Length
    modifies nodes
    ensures fresh(newTail)
    ensures newNodes == nodes + [newTail] && IsList(newHead, newNodes)
    ensures newTail.dimensions == dimensions && newTail.coordinates == coordinates[..dimensions]
    ensures head != null ==> newHead == head
    ensures Points(newNodes) == Points(nodes) + [coordinates[..dimensions]]
  {
    var copy := [];
    for i := 0 to dimensions
      invariant copy == coordinates[..i]
    {
      copy := copy + [coordinates[i]];
    }
    newTail := new Node(copy, dimensions);
    if head == null {
      newHead := newTail;
    } else {
      forall i | 0 <= i < |nodes| - 1
        ensures nodes[i] != tail
      {
        assert nodes[i].next == nodes[i + 1];
      }
      tail.next := newTail;
      newHead := head;
    }
    newNodes := nodes + [newTail];
  }
}
