/**
 * Intrusive node lists: every node carries its own `next`, so a node is in one list at a time.
 * `sameMap` walks one list through those pointers while it links the same nodes into another.
 */
module NodeList {

  class Node {
    const kind: nat
    const inner: Node?
    var next: Node?

    constructor (kind: nat, inner: Node?)
      ensures this.kind == kind && this.inner == inner && next == null
    {
      this.kind := kind;
      this.inner := inner;
      next := null;
    }
  }

  ghost predicate Distinct(nodes: seq<Node>) {
    forall i, j :: 0 <= i < j < |nodes| ==> nodes[i] != nodes[j]
  }

  ghost predicate Leads(nodes: seq<Node>, i: int)
    reads nodes
  {
    0 <= i < |nodes| - 1 && nodes[i].next == nodes[i + 1]
  }

  /** Following `next` from `head` visits exactly `nodes`. */
  ghost predicate Chain(head: Node?, nodes: seq<Node>)
    reads nodes
  {
    && head == (if nodes == [] then null else nodes[0])
    && (forall i :: 0 <= i < |nodes| - 1 ==> Leads(nodes, i))
    && (nodes != [] ==> nodes[|nodes| - 1].next == null)
  }

  class NodeArray {
    var head: Node?
    var last: Node?
    var size: nat

    constructor ()
      ensures head == null && last == null && size == 0
    {
      head, last, size := null, null, 0;
    }

    /** A well-formed list of these nodes. */
    ghost predicate Holds(nodes: seq<Node>)
      reads this, nodes
    {
      && Distinct(nodes) && Chain(head, nodes) && size == |nodes|
      && last == (if nodes == [] then null else nodes[|nodes| - 1])
    }

    /** A list of these nodes, except that the last one may lead further. */
    ghost predicate Open(nodes: seq<Node>)
      reads this, nodes
    {
      && Distinct(nodes) && size == |nodes|
      && head == (if nodes == [] then null else nodes[0])
      && last == (if nodes == [] then null else nodes[|nodes| - 1])
      && forall i :: 0 <= i < |nodes| - 1 ==> Leads(nodes, i)
    }

    /** `NodeArray::push`: links from `last` and leaves the new node's own `next` alone. */
    method Push(item: Node, ghost nodes: seq<Node>)
      requires Open(nodes) && item !in nodes
      modifies this, if last == null then {} else {last}`next
      ensures Open(nodes + [item])
      ensures item.next == old(item.next)
    {
      size := size + 1;
      if last != null {
        last.next := item;
        last := item;
      } else {
        head := item;
        last := item;
      }
      ghost var all := nodes + [item];
      forall i | 0 <= i < |all| - 1 ensures Leads(all, i) {
        assert i < |nodes| - 1 ==> old(Leads(nodes, i));
      }
    }
  }

  const PARENTHESIZED: nat := 0

  /** A parenthesizer rule: the node itself, or a new parenthesized node around it. */
  method Apply(wrap: (nat, nat) -> bool, v: Node, i: nat) returns (r: Node)
    ensures if wrap(v.kind, i) then fresh(r) && r.kind == PARENTHESIZED && r.inner == v && r.next == null else r == v
  {
    r := v;
    if wrap(v.kind, i) {
      r := new Node(PARENTHESIZED, v);
    }
  }

  ghost predicate Wrapped(wrap: (nat, nat) -> bool, nodes: seq<Node>, i: nat)
    requires i < |nodes|
  {
    wrap(nodes[i].kind, i)
  }

  /** `out` is `nodes` with the wrapped ones replaced by parenthesized nodes of their own. */
  ghost predicate Mapped(wrap: (nat, nat) -> bool, nodes: seq<Node>, out: seq<Node>)
  {
    && |out| <= |nodes|
    && forall i :: 0 <= i < |out| ==>
         if Wrapped(wrap, nodes, i) then out[i] !in nodes && out[i].kind == PARENTHESIZED && out[i].inner == nodes[i]
         else out[i] == nodes[i]
  }

  lemma ItemIsNew(wrap: (nat, nat) -> bool, nodes: seq<Node>, out: seq<Node>, item: Node)
    requires |out| < |nodes| && Distinct(nodes) && Mapped(wrap, nodes, out)
    requires item == nodes[|out|] || (item !in nodes && item !in out)
    ensures item !in out
  {
  }

  lemma MappedGrows(wrap: (nat, nat) -> bool, nodes: seq<Node>, out: seq<Node>, item: Node)
    requires |out| < |nodes| && Mapped(wrap, nodes, out)
    requires if Wrapped(wrap, nodes, |out|) then item !in nodes && item.kind == PARENTHESIZED && item.inner == nodes[|out|]
             else item == nodes[|out|]
    ensures Mapped(wrap, nodes, out + [item])
  {
  }

  /** The length of the longest prefix of wrapped nodes. */
  ghost function WrappedPrefix(wrap: (nat, nat) -> bool, nodes: seq<Node>, from: nat): (k: nat)
    requires from <= |nodes|
    ensures from <= k <= |nodes|
    ensures forall i :: from <= i < k ==> Wrapped(wrap, nodes, i)
    ensures k < |nodes| ==> !Wrapped(wrap, nodes, k)
    decreases |nodes| - from
  {
    if from < |nodes| && Wrapped(wrap, nodes, from) then WrappedPrefix(wrap, nodes, from + 1) else from
  }

  /** The body of the loop of `sameMap`: the node at hand, mapped and pushed. */
  method PushMapped(wrap: (nat, nat) -> bool, current: Node, i: nat, result: NodeArray,
                    ghost nodes: seq<Node>, ghost out: seq<Node>)
    returns (item: Node)
    requires result.Open(out) && |out| < |nodes| && Distinct(nodes) && Mapped(wrap, nodes, out)
    requires i == |out| && current == nodes[i]
    modifies result, if result.last == null then {} else {result.last}`next
    ensures result.Open(out + [item]) && Mapped(wrap, nodes, out + [item])
    ensures if Wrapped(wrap, nodes, i) then fresh(item) && item.next == null
            else item == current && item.next == old(current.next)
    ensures current.next == old(current.next)
    ensures result.last == item && (fresh(item) || item in nodes)
    ensures forall j :: 0 <= j < |nodes| && (j > i || Wrapped(wrap, nodes, j)) ==> nodes[j].next == old(nodes[j].next)
  {
    item := Apply(wrap, current, i);
    ItemIsNew(wrap, nodes, out, item);
    result.Push(item, out);
    MappedGrows(wrap, nodes, out, item);
  }

  /** The loop of `sameMap`, onto an empty list. */
  method PushAllMapped(source: NodeArray, ghost nodes: seq<Node>, wrap: (nat, nat) -> bool, result: NodeArray)
    returns (ghost out: seq<Node>)
    requires source != result && source.Holds(nodes) && result.Holds([])
    requires forall j :: 0 <= j < |nodes| ==> nodes[j].next == After(nodes, j)
    modifies nodes, result
    ensures result.Open(out) && |out| == |nodes| && Mapped(wrap, nodes, out)
    ensures out != [] ==> out[|out| - 1].next == null
    ensures forall i :: 0 <= i < |nodes| && Wrapped(wrap, nodes, i) ==>
              fresh(out[i]) && nodes[i].next == After(nodes, i)
  {
    out := [];
    var i := 0;
    var current := source.head;
    while current != null
      invariant 0 <= i <= |nodes| && current == if i < |nodes| then nodes[i] else null
      invariant result.Open(out) && |out| == i && Mapped(wrap, nodes, out)
      invariant result.last == null || result.last in nodes || fresh(result.last)
      invariant forall j :: 0 <= j < i && Wrapped(wrap, nodes, j) ==> fresh(out[j])
      invariant i > 0 ==> out[i - 1].next == if Wrapped(wrap, nodes, i - 1) then null else current
      invariant forall j :: 0 <= j < |nodes| && (j >= i || Wrapped(wrap, nodes, j)) ==> nodes[j].next == After(nodes, j)
      decreases |nodes| - i
    {
      hide Mapped;
      var item := PushMapped(wrap, current, i, result, nodes, out);
      out := out + [item];
      i := i + 1;
      current := current.next;
    }
  }

  /**
   * `sameMap`. The result is a well-formed list of the mapped nodes. The source list is not: its
   * wrapped prefix still leads to the first bare node, which now continues with the mapped tail,
   * and `last` still names the last source node. So the source stays a well-formed list exactly
   * when it ends in a bare node or has none.
   */
  method SameMap(source: NodeArray?, ghost nodes: seq<Node>, wrap: (nat, nat) -> bool)
    returns (result: NodeArray, ghost out: seq<Node>)
    requires source == null ==> nodes == []
    requires source != null ==> source.Holds(nodes)
    modifies nodes
    ensures fresh(result) && result.Holds(out)
    ensures |out| == |nodes| && Mapped(wrap, nodes, out)
    ensures forall i :: 0 <= i < |nodes| && Wrapped(wrap, nodes, i) ==>
              fresh(out[i]) && nodes[i].next == old(nodes[i].next)
    ensures var k := WrappedPrefix(wrap, nodes, 0);
            source != null ==> Chain(source.head, nodes[..k] + out[k..])
    ensures var k := WrappedPrefix(wrap, nodes, 0);
            source != null ==>
              (source.Holds(nodes[..k] + out[k..]) <==> k == |nodes| || !Wrapped(wrap, nodes, |nodes| - 1))
  {
    result := new NodeArray();
    out := [];
    if source != null {
      forall j | 0 <= j < |nodes| ensures nodes[j].next == After(nodes, j) {
        assert j < |nodes| - 1 ==> Leads(nodes, j);
      }
      out := PushAllMapped(source, nodes, wrap, result);
      ListsAfterWalk(source, nodes, result, out, wrap);
    }
  }

  /** When the walk has reached the end, both lists have their final links. */
  lemma ListsAfterWalk(source: NodeArray, nodes: seq<Node>, result: NodeArray, out: seq<Node>, wrap: (nat, nat) -> bool)
    requires result.Open(out) && |out| == |nodes| && Mapped(wrap, nodes, out)
    requires out != [] ==> out[|out| - 1].next == null
    requires source.size == |nodes| && Distinct(nodes)
    requires source.head == (if nodes == [] then null else nodes[0])
    requires source.last == (if nodes == [] then null else nodes[|nodes| - 1])
    requires forall i :: 0 <= i < |nodes| && Wrapped(wrap, nodes, i) ==> nodes[i].next == After(nodes, i)
    ensures result.Holds(out)
    ensures var k := WrappedPrefix(wrap, nodes, 0);
            && Chain(source.head, nodes[..k] + out[k..])
            && (source.Holds(nodes[..k] + out[k..]) <==> k == |nodes| || !Wrapped(wrap, nodes, |nodes| - 1))
  {
    assert Relinked(source, nodes, out, wrap);
    SourceReads(source, nodes, out, wrap);
  }

  ghost function After(nodes: seq<Node>, i: nat): Node? {
    if i + 1 < |nodes| then nodes[i + 1] else null
  }

  /** The source list after the walk: what `head` leads to, node by node. */
  ghost predicate Relinked(source: NodeArray, nodes: seq<Node>, out: seq<Node>, wrap: (nat, nat) -> bool)
    reads source, nodes, out
  {
    && source.size == |nodes| == |out| && Distinct(nodes) && Distinct(out) && Mapped(wrap, nodes, out)
    && source.head == (if nodes == [] then null else nodes[0])
    && source.last == (if nodes == [] then null else nodes[|nodes| - 1])
    && Chain(if out == [] then null else out[0], out)
    && forall i :: 0 <= i < |nodes| && Wrapped(wrap, nodes, i) ==>
         nodes[i].next == After(nodes, i)
  }

  lemma SourceChain(source: NodeArray, nodes: seq<Node>, out: seq<Node>, wrap: (nat, nat) -> bool, k: nat)
    requires Relinked(source, nodes, out, wrap) && k == WrappedPrefix(wrap, nodes, 0)
    ensures Chain(source.head, nodes[..k] + out[k..])
  {
    var read := nodes[..k] + out[k..];
    assert k < |nodes| ==> out[k] == nodes[k];
    forall i | 0 <= i < |read| - 1 ensures Leads(read, i) {
      if i < k {
        assert read[i] == nodes[i];
      } else {
        assert Leads(out, i);
      }
    }
    if read != [] {
      assert read[0] == nodes[0];
      if k == |nodes| {
        assert out[k..] == [] && read == nodes;
        assert Wrapped(wrap, nodes, k - 1);
      } else {
        assert read[|read| - 1] == out[|out| - 1];
      }
    }
  }

  lemma SourceDistinct(source: NodeArray, nodes: seq<Node>, out: seq<Node>, wrap: (nat, nat) -> bool, k: nat)
    requires Relinked(source, nodes, out, wrap) && k <= |nodes|
    ensures Distinct(nodes[..k] + out[k..])
  {
    var read := nodes[..k] + out[k..];
    forall i, j | 0 <= i < j < |read| ensures read[i] != read[j] {
      if i < k <= j {
        assert read[i] == nodes[i] && read[j] == out[j];
        if !Wrapped(wrap, nodes, j) {
          assert out[j] == nodes[j];
        }
      }
    }
  }

  lemma SourceReads(source: NodeArray, nodes: seq<Node>, out: seq<Node>, wrap: (nat, nat) -> bool)
    requires Relinked(source, nodes, out, wrap)
    ensures var k := WrappedPrefix(wrap, nodes, 0);
            && Chain(source.head, nodes[..k] + out[k..])
            && (source.Holds(nodes[..k] + out[k..]) <==> k == |nodes| || !Wrapped(wrap, nodes, |nodes| - 1))
  {
    var k := WrappedPrefix(wrap, nodes, 0);
    var read := nodes[..k] + out[k..];
    SourceChain(source, nodes, out, wrap, k);
    SourceDistinct(source, nodes, out, wrap, k);
    if k == |nodes| {
      assert read == nodes;
    } else {
      assert read[|read| - 1] == out[|out| - 1];
    }
  }
}
