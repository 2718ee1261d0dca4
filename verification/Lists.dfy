/** Singly linked lists: what the response lines, the held PDUs and the requests are kept in. */
module Lists {

  class Node<T> {
    const value: T
    var next: Node?<T>

    constructor (v: T, rest: Node?<T>)
      ensures value == v && next == rest
    {
      value, next := v, rest;
    }
  }

  /** The nodes, from the head on, make up a list. */
  ghost predicate Chained<T>(head: Node?<T>, nodes: seq<Node<T>>)
    reads nodes
  {
    && (forall i, j | 0 <= i < j < |nodes| :: nodes[i] != nodes[j])
    && (if nodes == [] then head == null else head == nodes[0] && nodes[|nodes| - 1].next == null)
    && (forall i | 0 <= i < |nodes| - 1 :: nodes[i].next == nodes[i + 1])
  }

  function ValuesOf<T>(nodes: seq<Node<T>>): (r: seq<T>)
    ensures |r| == |nodes| && forall i | 0 <= i < |nodes| :: r[i] == nodes[i].value
  {
    if nodes == [] then [] else [nodes[0].value] + ValuesOf(nodes[1..])
  }

  lemma LastOf<T>(head: Node?<T>, nodes: seq<Node<T>>, k: nat)
    requires Chained(head, nodes) && k < |nodes|
    ensures nodes[k].next == null <==> k == |nodes| - 1
  {
    if k < |nodes| - 1 {
      assert nodes[k].next == nodes[k + 1];
    }
  }

  lemma ValuesSnoc<T>(nodes: seq<Node<T>>, n: Node<T>)
    ensures ValuesOf(nodes + [n]) == ValuesOf(nodes) + [n.value]
  {
  }

  lemma EmptyList<T>(head: Node?<T>, nodes: seq<Node<T>>)
    requires Chained(head, nodes)
    ensures head == null <==> ValuesOf(nodes) == []
  {
  }

  lemma ChainedTail<T>(head: Node<T>, nodes: seq<Node<T>>)
    requires Chained(head, nodes)
    ensures nodes != [] && head == nodes[0] && Chained(head.next, nodes[1..]) && head !in nodes[1..]
  {
  }
}
