/**
 * Sequence-level meaning of the two list variants: what `push` and `pop`
 * do to the abstract contents of a list, and what whole runs of commands
 * produce. The linked implementation in module SimpleLists is proved
 * against these functions.
 */
module ListSpec {

  /** The two concrete lists: a Stack pushes at the front, a Queue at the back. */
  datatype Variant = Stack | Queue

  /** Outcome of a pop: the removed element, or the underflow error of an empty list. */
  datatype PopResult<T> = Popped(value: T) | Underflow

  /** Contents after pushing `v`: a Stack inserts at the front, a Queue at the back. */
  function Pushed<T>(variant: Variant, s: seq<T>, v: T): (r: seq<T>)
    ensures |r| == |s| + 1
    ensures variant == Stack ==> r[0] == v && r[1..] == s
    ensures variant == Queue ==> r[|s|] == v && r[..|s|] == s
  {
    match variant
    case Stack => [v] + s
    case Queue => s + [v]
  }

  /**
   * Result and contents after a pop, which always takes from the front:
   * an empty list underflows and stays empty; otherwise the popped value
   * put back in front of the remaining contents gives the old contents.
   */
  function PopFront<T>(s: seq<T>): (r: (PopResult<T>, seq<T>))
    ensures r.0 == Underflow <==> s == []
    ensures s == [] ==> r.1 == []
    ensures s != [] ==> [r.0.value] + r.1 == s
  {
    if s == [] then (Underflow, []) else (Popped(s[0]), s[1..])
  }

  /** Contents after pushing every element of `vs`, first to last, onto `s`. */
  function PushAll<T>(variant: Variant, s: seq<T>, vs: seq<T>): seq<T>
    decreases |vs|
  {
    if vs == [] then s
    else Pushed(variant, PushAll(variant, s, vs[..|vs| - 1]), vs[|vs| - 1])
  }

  /** Pushing the first k + 1 values is pushing the first k, then value k. */
  lemma PushAllStep<T>(variant: Variant, s: seq<T>, vs: seq<T>, k: nat)
    requires k < |vs|
    ensures PushAll(variant, s, vs[..k + 1]) == Pushed(variant, PushAll(variant, s, vs[..k]), vs[k])
  {
    assert vs[..k + 1][..k] == vs[..k];
  }

  /** The elements of `s` from last to first. */
  function Reverse<T>(s: seq<T>): seq<T>
    decreases |s|
  {
    if s == [] then [] else [s[|s| - 1]] + Reverse(s[..|s| - 1])
  }

  /** Reverse really mirrors its argument: the k-th element from the front is the k-th from the back. */
  lemma {:induction false} ReverseAt<T>(s: seq<T>, k: nat)
    requires k < |s|
    ensures |Reverse(s)| == |s|
    ensures Reverse(s)[k] == s[|s| - 1 - k]
  {
    ReverseLength(s[..|s| - 1]);
    if k > 0 {
      ReverseAt(s[..|s| - 1], k - 1);
    }
  }

  lemma {:induction false} ReverseLength<T>(s: seq<T>)
    ensures |Reverse(s)| == |s|
    decreases |s|
  {
    if s != [] {
      ReverseLength(s[..|s| - 1]);
    }
  }

  /** Pushing onto a Stack stacks the new elements, newest first, above the old ones. */
  lemma {:induction false} StackPushAll<T>(s: seq<T>, vs: seq<T>)
    ensures PushAll(Stack, s, vs) == Reverse(vs) + s
    decreases |vs|
  {
    if vs != [] {
      StackPushAll(s, vs[..|vs| - 1]);
    }
  }

  /** Pushing onto a Queue appends the new elements, oldest first, behind the old ones. */
  lemma {:induction false} QueuePushAll<T>(s: seq<T>, vs: seq<T>)
    ensures PushAll(Queue, s, vs) == s + vs
    decreases |vs|
  {
    if vs != [] {
      QueuePushAll(s, vs[..|vs| - 1]);
      assert vs[..|vs| - 1] + [vs[|vs| - 1]] == vs;
    }
  }

  /** Popping every element of `s` yields them in front-to-back order. */
  function PopAll<T>(s: seq<T>): seq<PopResult<T>>
    decreases |s|
  {
    if s == [] then [] else [PopFront(s).0] + PopAll(PopFront(s).1)
  }

  lemma {:induction false} PopAllInOrder<T>(s: seq<T>)
    ensures |PopAll(s)| == |s|
    ensures forall k :: 0 <= k < |s| ==> PopAll(s)[k] == Popped(s[k])
    decreases |s|
  {
    if s != [] {
      PopAllInOrder(s[1..]);
    }
  }

  /**
   * Last in, first out / first in, first out: N pushes onto an empty list
   * followed by N pops give back the pushed values reversed for a Stack
   * and in the same order for a Queue.
   */
  lemma PushThenPopOrder<T>(variant: Variant, vs: seq<T>)
    ensures |PopAll(PushAll(variant, [], vs))| == |vs|
    ensures variant == Stack ==>
      forall k :: 0 <= k < |vs| ==> PopAll(PushAll(variant, [], vs))[k] == Popped(vs[|vs| - 1 - k])
    ensures variant == Queue ==>
      forall k :: 0 <= k < |vs| ==> PopAll(PushAll(variant, [], vs))[k] == Popped(vs[k])
  {
    match variant
    case Stack =>
      StackPushAll([], vs);
      assert PushAll(variant, [], vs) == Reverse(vs);
      ReverseLength(vs);
      PopAllInOrder(Reverse(vs));
      forall k | 0 <= k < |vs|
        ensures PopAll(PushAll(variant, [], vs))[k] == Popped(vs[|vs| - 1 - k])
      {
        ReverseAt(vs, k);
      }
    case Queue =>
      QueuePushAll([], vs);
      assert PushAll(variant, [], vs) == vs;
      PopAllInOrder(vs);
  }

  /** One call the command interpreter makes on a list. */
  datatype Command<T> = PushCommand(value: T) | PopCommand

  /** Contents after running `cmds` from contents `s`, with the result of every pop, in order. */
  function Execute<T>(variant: Variant, s: seq<T>, cmds: seq<Command<T>>): (seq<T>, seq<PopResult<T>>)
    decreases |cmds|
  {
    if cmds == [] then (s, [])
    else
      match cmds[0]
      case PushCommand(v) =>
        Execute(variant, Pushed(variant, s, v), cmds[1..])
      case PopCommand =>
        var (r, rest) := PopFront(s);
        var (final, results) := Execute(variant, rest, cmds[1..]);
        (final, [r] + results)
  }

  function Pushes<T>(cmds: seq<Command<T>>): nat
    decreases |cmds|
  {
    if cmds == [] then 0 else (if cmds[0].PushCommand? then 1 else 0) + Pushes(cmds[1..])
  }

  function Successes<T>(results: seq<PopResult<T>>): nat
    decreases |results|
  {
    if results == [] then 0 else (if results[0].Popped? then 1 else 0) + Successes(results[1..])
  }

  /**
   * Size accounting: after any run of commands the list holds its initial
   * elements plus one per push minus one per pop that did not underflow.
   */
  lemma {:induction false} SizeAccounting<T>(variant: Variant, s: seq<T>, cmds: seq<Command<T>>)
    ensures |Execute(variant, s, cmds).0| == |s| + Pushes(cmds) - Successes(Execute(variant, s, cmds).1)
    decreases |cmds|
  {
    if cmds != [] {
      match cmds[0]
      case PushCommand(v) =>
        SizeAccounting(variant, Pushed(variant, s, v), cmds[1..]);
      case PopCommand =>
        SizeAccounting(variant, PopFront(s).1, cmds[1..]);
        var results := Execute(variant, PopFront(s).1, cmds[1..]).1;
        assert ([PopFront(s).0] + results)[1..] == results;
    }
  }
}
