/**
 * The singly linked list behind the named stacks and queues. A list owns a
 * chain of nodes from `head`; `tail` points at the last node so that
 * appending is O(1); `size` counts the nodes. The ghost fields give the
 * abstract view: `Contents` the elements front to back, `Nodes` the chain
 * itself, `Repr` the objects the list is made of.
 */
module SimpleLists {
  import opened ListSpec

  class Node<T> {
    var data: T
    var next: Node?<T>

    constructor (data: T, next: Node?<T>)
      ensures this.data == data && this.next == next
    {
      this.data := data;
      this.next := next;
    }
  }

  /**
   * `nodes` are distinct, hold `contents` in order, and each links to the
   * next. Where the chain ends is left to the list invariant.
   */
  ghost predicate Chain<T>(nodes: seq<Node<T>>, contents: seq<T>)
    reads nodes
  {
    |nodes| == |contents| &&
    (forall i, j :: 0 <= i < j < |nodes| ==> nodes[i] != nodes[j]) &&
    (forall i :: 0 <= i < |nodes| ==> nodes[i].data == contents[i]) &&
    (forall i, j :: 0 <= i < |nodes| && j == i + 1 < |nodes| ==> nodes[i].next == nodes[j])
  }

  /** A new node linked in front of a chain extends it at the front. */
  lemma ChainCons<T>(n: Node<T>, nodes: seq<Node<T>>, contents: seq<T>)
    requires Chain(nodes, contents) && n !in nodes
    requires nodes != [] ==> n.next == nodes[0]
    ensures Chain([n] + nodes, [n.data] + contents)
  {
  }

  /** A node the last one links to, not yet in the chain, extends it at the back. */
  lemma ChainSnoc<T>(nodes: seq<Node<T>>, contents: seq<T>, n: Node<T>)
    requires Chain(nodes, contents) && n !in nodes
    requires nodes != [] ==> nodes[|nodes| - 1].next == n
    ensures Chain(nodes + [n], contents + [n.data])
  {
  }

  /** A chain whose last node is linked from the one before it and is new to the rest is a chain. */
  lemma ChainGrow<T>(nodes: seq<Node<T>>, contents: seq<T>)
    requires |nodes| == |contents| > 0
    requires Chain(nodes[..|nodes| - 1], contents[..|contents| - 1])
    requires nodes[|nodes| - 1] !in nodes[..|nodes| - 1]
    requires |nodes| > 1 ==> nodes[|nodes| - 2].next == nodes[|nodes| - 1]
    requires nodes[|nodes| - 1].data == contents[|contents| - 1]
    ensures Chain(nodes, contents)
  {
  }

  /** Dropping the first or the last node leaves a chain. */
  lemma ChainTrim<T>(nodes: seq<Node<T>>, contents: seq<T>)
    requires Chain(nodes, contents) && nodes != []
    ensures Chain(nodes[1..], contents[1..])
    ensures Chain(nodes[..|nodes| - 1], contents[..|contents| - 1])
    ensures nodes[|nodes| - 1] !in nodes[..|nodes| - 1]
  {
  }

  /**
   * A named Stack or Queue. The name is fixed at construction (`const`), so
   * no push, pop or clear can change it; `variant` selects the end `Push`
   * inserts at.
   */
  class SimpleList<T> {
    const name: string
    const variant: Variant

    var head: Node?<T>
    var tail: Node?<T>
    var size: nat

    ghost var Contents: seq<T>
    ghost var Nodes: seq<Node<T>>
    ghost var Repr: set<object>

    /**
     * The chain from `head` visits `Nodes` in order, each node once, holding
     * `Contents`; the last node ends the chain and is `tail`; `size` is its
     * length, and head and tail are null exactly when it is empty.
     */
    ghost predicate Valid()
      reads this, Repr
      ensures Valid() ==> this in Repr
    {
      this in Repr &&
      (forall i :: 0 <= i < |Nodes| ==> Nodes[i] in Repr) &&
      size == |Nodes| &&
      Chain(Nodes, Contents) &&
      (size == 0 ==> head == null && tail == null) &&
      (size > 0 ==> head == Nodes[0] && tail == Nodes[size - 1] && tail.next == null)
    }

    constructor (name: string, variant: Variant)
      ensures Valid() && fresh(Repr)
      ensures this.name == name && this.variant == variant
      ensures Contents == [] && size == 0 && head == null && tail == null
    {
      this.name := name;
      this.variant := variant;
      head, tail, size := null, null, 0;
      Contents, Nodes, Repr := [], [], {this};
    }

    /** Number of elements held. */
    function Size(): (n: nat)
      reads this, Repr
      requires Valid()
      ensures n == |Contents|
    {
      size
    }

    /** True exactly when the list holds no element. */
    function IsEmpty(): (b: bool)
      reads this, Repr
      requires Valid()
      ensures b <==> Contents == []
      ensures b <==> Size() == 0
    {
      size == 0
    }

    /** Puts `v` in front of the first element; a first element also becomes the tail. */
    method InsertFront(v: T)
      requires Valid()
      modifies this
      ensures Valid() && fresh(Repr - old(Repr))
      ensures Contents == [v] + old(Contents)
      ensures size == old(size) + 1
      ensures head != null && head.data == v && head.next == old(head)
      ensures old(size) == 0 ==> tail == head
      ensures old(size) > 0 ==> tail == old(tail)
    {
      var n := new Node(v, head);
      ChainCons(n, Nodes, Contents);
      head := n;
      if size == 0 {
        tail := head;
      }
      size := size + 1;
      Nodes := [n] + Nodes;
      Contents := [v] + Contents;
      Repr := Repr + {n};
    }

    /** Links `v` after the last element; into an empty list it becomes both head and tail. */
    method InsertBack(v: T)
      requires Valid()
      modifies Repr
      ensures Valid() && fresh(Repr - old(Repr))
      ensures Contents == old(Contents) + [v]
      ensures size == old(size) + 1
      ensures tail != null && tail.data == v && tail.next == null
      ensures old(size) == 0 ==> head == tail
      ensures old(size) > 0 ==> head == old(head)
    {
      var n := new Node(v, null);
      if size == 0 {
        ChainSnoc(Nodes, Contents, n);
        head, tail := n, n;
      } else {
        ChainTrim(Nodes, Contents);
        tail.next := n;
        ChainGrow(Nodes, Contents);
        ChainSnoc(Nodes, Contents, n);
        tail := n;
      }
      size := size + 1;
      Nodes := Nodes + [n];
      Contents := Contents + [v];
      Repr := Repr + {n};
    }

    /**
     * Detaches the first node and returns its element; an empty list
     * underflows and is left as it was. The tail is cleared exactly when
     * the last element goes.
     */
    method RemoveFront() returns (r: PopResult<T>)
      requires Valid()
      modifies this
      ensures Valid() && fresh(Repr - old(Repr))
      ensures (r, Contents) == PopFront(old(Contents))
      ensures old(size) == 0 ==> r == Underflow && unchanged(this)
      ensures old(size) > 0 ==> size == old(size) - 1 && head == old(head.next)
      ensures old(size) > 0 ==> (tail == null <==> size == 0)
    {
      if size == 0 {
        return Underflow;
      }
      var n := head;
      ChainTrim(Nodes, Contents);
      head := head.next;
      size := size - 1;
      if size == 0 {
        tail := null;
      }
      r := Popped(n.data);
      Nodes := Nodes[1..];
      Contents := Contents[1..];
      Repr := Repr - {n};
    }

    /** Walks the chain once, node by node, then resets the list to empty. */
    method Clear()
      requires Valid()
      modifies this
      ensures Valid() && fresh(Repr - old(Repr))
      ensures Contents == [] && size == 0 && head == null && tail == null
      ensures old(size) == 0 ==> Contents == old(Contents) && head == old(head) && tail == old(tail)
    {
      var cur := head;
      ghost var visited := 0;
      while cur != null
        invariant 0 <= visited <= |Nodes|
        invariant cur == if visited < |Nodes| then Nodes[visited] else null
        decreases |Nodes| - visited
      {
        cur := cur.next;
        visited := visited + 1;
      }
      head, tail := null, null;
      size := 0;
      Contents, Nodes, Repr := [], [], {this};
    }

    /** Stack: insert at the front; Queue: insert at the back. */
    method Push(v: T)
      requires Valid()
      modifies Repr
      ensures Valid() && fresh(Repr - old(Repr))
      ensures Contents == Pushed(variant, old(Contents), v)
    {
      match variant
      case Stack => InsertFront(v);
      case Queue => InsertBack(v);
    }

    /** Both variants pop from the front. */
    method Pop() returns (r: PopResult<T>)
      requires Valid()
      modifies Repr
      ensures Valid() && fresh(Repr - old(Repr))
      ensures (r, Contents) == PopFront(old(Contents))
    {
      r := RemoveFront();
    }
  }

  /** The first list in `lists` whose name is `target`, or null when none has it. */
  method FindByName<T>(lists: seq<SimpleList<T>>, target: string) returns (r: SimpleList?<T>)
    ensures r == null <==> forall i :: 0 <= i < |lists| ==> lists[i].name != target
    ensures r != null ==>
      exists i :: 0 <= i < |lists| && lists[i] == r && r.name == target &&
        forall j :: 0 <= j < i ==> lists[j].name != target
  {
    for i := 0 to |lists|
      invariant forall j :: 0 <= j < i ==> lists[j].name != target
    {
      if lists[i].name == target {
        return lists[i];
      }
    }
    return null;
  }

  /** Pushes every element of `vs`, first to last, through the public interface. */
  method PushEach<T>(l: SimpleList<T>, vs: seq<T>)
    requires l.Valid()
    modifies l.Repr
    ensures l.Valid() && fresh(l.Repr - old(l.Repr))
    ensures l.Contents == PushAll(l.variant, old(l.Contents), vs)
  {
    ghost var start := l.Contents;
    for k := 0 to |vs|
      invariant l.Valid() && fresh(l.Repr - old(l.Repr))
      invariant l.Contents == PushAll(l.variant, start, vs[..k])
    {
      PushAllStep(l.variant, start, vs, k);
      l.Push(vs[k]);
    }
    assert vs[..|vs|] == vs;
  }

  /** Pops `n` times from a list holding at least `n` elements: they come off the front in order. */
  method PopEach<T>(l: SimpleList<T>, n: nat) returns (popped: seq<T>)
    requires l.Valid() && n <= |l.Contents|
    modifies l.Repr
    ensures l.Valid() && fresh(l.Repr - old(l.Repr))
    ensures popped == old(l.Contents)[..n] && l.Contents == old(l.Contents)[n..]
  {
    popped := [];
    ghost var full := l.Contents;
    for k := 0 to n
      invariant l.Valid() && fresh(l.Repr - old(l.Repr))
      invariant popped == full[..k] && l.Contents == full[k..]
    {
      var r := l.Pop();
      assert r == Popped(full[k]) && l.Contents == full[k + 1..];
      assert full[..k + 1] == full[..k] + [full[k]];
      popped := popped + [r.value];
    }
  }

  /**
   * A client of the public interface: pushes every element of `vs` onto an
   * empty list, then pops as many times. A Stack hands them back reversed,
   * a Queue in the order they were pushed, and the list ends empty.
   */
  method PushAllThenPopAll<T>(l: SimpleList<T>, vs: seq<T>) returns (popped: seq<T>)
    requires l.Valid() && l.Contents == []
    modifies l.Repr
    ensures l.Valid() && l.Contents == []
    ensures l.variant == Stack ==> popped == Reverse(vs)
    ensures l.variant == Queue ==> popped == vs
  {
    PushEach(l, vs);
    if l.variant == Stack {
      StackPushAll([], vs);
      ReverseLength(vs);
    } else {
      QueuePushAll([], vs);
    }
    popped := PopEach(l, |vs|);
  }

  /** Stack "x": push 1, 2, 3; pops give 3, 2, 1, then underflow. */
  method StackScenario() {
    var s := new SimpleList<int>("x", Stack);
    s.Push(1);
    s.Push(2);
    s.Push(3);
    var r := s.Pop();
    assert r == Popped(3);
    r := s.Pop();
    assert r == Popped(2);
    r := s.Pop();
    assert r == Popped(1);
    r := s.Pop();
    assert r == Underflow;
  }

  /** Queue "y": push "a", "b"; pops give "a", "b", then underflow. */
  method QueueScenario() {
    var q := new SimpleList<string>("y", Queue);
    q.Push("a");
    q.Push("b");
    var r := q.Pop();
    assert r == Popped("a");
    r := q.Pop();
    assert r == Popped("b");
    r := q.Pop();
    assert r == Underflow;
  }
}
