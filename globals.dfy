/**
 * The shared types of the live trader (include/globals.h) and the hand-rolled FIFO
 * doubly-linked list of open investments with its default strategy (src/globals.cpp).
 */
module Globals {

  /** `InvestmentStrategy`: the live trader's thresholds. */
  datatype InvestmentStrategy = InvestmentStrategy(
    investmentPercentage: real,
    positiveSentimentThreshold: real,
    negativeSentimentThreshold: real,
    similarityThreshold: real,
    holdTimeSeconds: int)

  /** The global `strategy` object (src/globals.cpp, lines 30-36). */
  const DefaultStrategy: InvestmentStrategy := InvestmentStrategy(0.01, 0.9, -0.3, 0.7, 86400)

  /** What one list node holds besides its links. */
  datatype Investment = Investment(stockSymbol: string, stockAmount: real, sellTime: int)

  /**
   * `InvestmentNode`. Its data is never changed once the node is created, so it is held in
   * constant fields; only the links are updated.
   */
  class InvestmentNode {
    const stockSymbol: string
    const stockAmount: real
    const sellTime: int
    var next: InvestmentNode?
    var prev: InvestmentNode?

    constructor(symbol: string, amount: real, sellAt: int, next: InvestmentNode?, prev: InvestmentNode?)
      ensures stockSymbol == symbol && stockAmount == amount && sellTime == sellAt
      ensures this.next == next && this.prev == prev
    {
      stockSymbol, stockAmount, sellTime := symbol, amount, sellAt;
      this.next, this.prev := next, prev;
    }
  }

  /** The data of a run of nodes, in order. */
  function Investments(ns: seq<InvestmentNode>): (r: seq<Investment>)
    ensures |r| == |ns|
  {
    if ns == [] then []
    else [Investment(ns[0].stockSymbol, ns[0].stockAmount, ns[0].sellTime)] + Investments(ns[1..])
  }

  /** Each node contributes its own data, in place. */
  lemma {:induction false} InvestmentsAt(ns: seq<InvestmentNode>)
    ensures forall i :: 0 <= i < |ns| ==>
      Investments(ns)[i] == Investment(ns[i].stockSymbol, ns[i].stockAmount, ns[i].sellTime)
  {
    if ns != [] {
      InvestmentsAt(ns[1..]);
      forall i | 0 < i < |ns|
        ensures Investments(ns)[i] == Investment(ns[i].stockSymbol, ns[i].stockAmount, ns[i].sellTime)
      {
        assert ns[i] == ns[1..][i - 1];
      }
    }
  }

  /** Dropping the first node drops the first investment. */
  lemma InvestmentsTail(ns: seq<InvestmentNode>)
    requires ns != []
    ensures Investments(ns)[1..] == Investments(ns[1..])
  {
  }

  /** A node added at the end adds its data at the end. */
  lemma {:induction false} InvestmentsAppend(ns: seq<InvestmentNode>, n: InvestmentNode)
    ensures Investments(ns + [n]) == Investments(ns) + [Investment(n.stockSymbol, n.stockAmount, n.sellTime)]
    decreases |ns|
  {
    if ns != [] {
      assert (ns + [n])[1..] == ns[1..] + [n];
      InvestmentsAppend(ns[1..], n);
    }
  }

  /** `InvestmentList`: head and tail pointers over a chain of nodes. */
  class InvestmentList {
    var head: InvestmentNode?
    var tail: InvestmentNode?
    /** The nodes from head to tail. */
    ghost var nodes: seq<InvestmentNode>
    ghost var Repr: set<object>

    /**
     * The pointer invariant: head and tail are the ends of the chain (both null when it is
     * empty), each node's `next` is its successor and its `prev` its predecessor (null at the
     * ends), and no node occurs twice.
     */
    ghost predicate Valid()
      reads this, Repr
    {
      && this in Repr
      && (forall i :: 0 <= i < |nodes| ==> nodes[i] in Repr)
      && (nodes == [] ==> head == null && tail == null)
      && (nodes != [] ==> head == nodes[0] && tail == nodes[|nodes| - 1])
      && (forall i :: 0 <= i < |nodes| - 1 ==> nodes[i].next == nodes[i + 1])
      && (forall i :: 0 < i < |nodes| ==> nodes[i].prev == nodes[i - 1])
      && (nodes != [] ==> nodes[0].prev == null && nodes[|nodes| - 1].next == null)
      && (forall i, j :: 0 <= i < j < |nodes| ==> nodes[i] != nodes[j])
    }

    /** The investments held, oldest first. */
    ghost function Contents(): seq<Investment>
      reads this
    {
      Investments(nodes)
    }

    constructor()
      ensures Valid() && fresh(Repr)
      ensures Contents() == [] && head == null && tail == null
    {
      head, tail := null, null;
      nodes := [];
      Repr := {this};
    }

    /**
     * `insertBack` (lines 47-64): a new node at the end. On an empty list it becomes both
     * head and tail; otherwise it is linked after the old tail and becomes the tail, and the
     * head stays.
     */
    method InsertBack(symbol: string, amount: real, sellTime: int)
      requires Valid()
      modifies Repr
      ensures Valid() && fresh(Repr - old(Repr))
      ensures Contents() == old(Contents()) + [Investment(symbol, amount, sellTime)]
      ensures tail != null && fresh(tail) && tail.next == null && tail.prev == old(tail)
      ensures old(tail) == null ==> head == tail
      ensures old(tail) != null ==> head == old(head) && old(tail).next == tail
      ensures (head == null) == (tail == null)
    {
      var node := new InvestmentNode(symbol, amount, sellTime, null, tail);
      if tail == null {
        head := node;
        tail := node;
      } else {
        tail.next := node;
        tail := node;
      }
      InvestmentsAppend(nodes, node);
      nodes := nodes + [node];
      Repr := Repr + {node};
    }

    /** `front` (lines 67-70): the head node, the oldest one still held; nothing changes. */
    method Front() returns (n: InvestmentNode?)
      requires Valid()
      ensures n == head
      ensures n == null <==> Contents() == []
      ensures n != null ==> Contents()[0] == Investment(n.stockSymbol, n.stockAmount, n.sellTime)
    {
      n := head;
      InvestmentsAt(nodes);
    }

    /**
     * `popFront` (lines 73-98): nothing on an empty list; otherwise the head advances to its
     * successor, whose `prev` is cleared, or both ends become null when it was the last node.
     * The old head leaves the list.
     */
    method PopFront()
      requires Valid()
      modifies Repr
      ensures Valid() && Repr <= old(Repr)
      ensures old(Contents()) == [] ==> Contents() == [] && head == null && tail == null
      ensures old(Contents()) != [] ==> Contents() == old(Contents())[1..] && head == old(head.next)
      ensures head != null ==> head.prev == null
      ensures (head == null) == (tail == null)
    {
      if head == null {
        return;
      }
      var tmp := head;
      ghost var rest := nodes[1..];
      InvestmentsTail(nodes);
      assert |nodes| > 1 ==> head.next == nodes[1];
      head := head.next;
      if head == null {
        tail := null;
      } else {
        head.prev := null;
        forall i | 0 < i < |rest|
          ensures rest[i].prev == rest[i - 1]
        {
          assert rest[i] == nodes[i + 1] && rest[i - 1] == nodes[i];
          assert nodes[i + 1] != nodes[1];
        }
      }
      nodes := rest;
      Repr := Repr - {tmp};
      forall i | 0 <= i < |nodes|
        ensures nodes[i] in Repr
      {
        assert nodes[i] == old(nodes)[i + 1] && old(nodes)[i + 1] != tmp;
      }
    }
  }

  /** The list is a FIFO queue: what comes out first is what went in first. */
  method FifoOrder(a: Investment, b: Investment) returns (first: Investment)
    ensures first == a
  {
    var list := new InvestmentList();
    list.InsertBack(a.stockSymbol, a.stockAmount, a.sellTime);
    list.InsertBack(b.stockSymbol, b.stockAmount, b.sellTime);
    var n := list.Front();
    first := Investment(n.stockSymbol, n.stockAmount, n.sellTime);
    list.PopFront();
    var m := list.Front();
    assert m != null && Investment(m.stockSymbol, m.stockAmount, m.sellTime) == b;
  }
}
