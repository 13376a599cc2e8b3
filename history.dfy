/** The bounded undo history as a value: a sequence of snapshots, oldest first. */
module History {
  import opened Wrappers

  /** A push onto a stack of at most this many entries appends; a longer
      stack loses its oldest entry first. */
  const AppendLimit: nat := 20
  /** The most entries the history holds when it starts empty. */
  const Capacity: nat := AppendLimit + 1

  /** Reference definition: the newest `Capacity` entries of `s`, in order. */
  function Latest<T>(s: seq<T>): seq<T>
  {
    if |s| <= Capacity then s else s[|s| - Capacity..]
  }

  /** `addToUndoStack` once the image is known: append, after dropping the
      oldest entry when more than `AppendLimit` are already held. */
  function Push<T>(stack: seq<T>, x: T): (r: seq<T>)
    ensures |r| > 0 && r[|r| - 1] == x
    ensures |stack| <= Capacity ==> r == Latest(stack + [x])
  {
    if |stack| <= AppendLimit then stack + [x] else stack[1..] + [x]
  }

  /** `popLast`, keeping an empty stack empty. */
  function Pop<T>(stack: seq<T>): (r: seq<T>)
    ensures stack == [] ==> r == []
    ensures stack != [] ==> r + [stack[|stack| - 1]] == stack
  {
    if stack == [] then [] else stack[..|stack| - 1]
  }

  /** `last`: the newest entry, if any. */
  function Top<T>(stack: seq<T>): Option<T>
  {
    if stack == [] then None else Some(stack[|stack| - 1])
  }

  /** Pushes of `xs`, first to last. */
  function PushAll<T>(stack: seq<T>, xs: seq<T>): seq<T>
    decreases |xs|
  {
    if xs == [] then stack else PushAll(Push(stack, xs[0]), xs[1..])
  }

  /** However many images are pushed onto a history of at most `Capacity`
      entries, it ends up holding exactly the newest `Capacity` of the old
      entries and the pushed images, in push order. */
  lemma {:induction false} PushAllKeepsLatest<T>(stack: seq<T>, xs: seq<T>)
    requires |stack| <= Capacity
    ensures PushAll(stack, xs) == Latest(stack + xs)
    ensures |PushAll(stack, xs)| <= Capacity
    decreases |xs|
  {
    if xs == [] {
      assert stack + xs == stack;
    } else {
      var x, rest := xs[0], xs[1..];
      var next := Push(stack, x);
      assert next == Latest(stack + [x]);
      assert stack + [x] + rest == stack + xs;
      PushAllKeepsLatest(next, rest);
      calc {
        PushAll(stack, xs);
        PushAll(next, rest);
        Latest(next + rest);
        { LatestConcat(stack + [x], rest); }
        Latest(stack + xs);
      }
    }
  }

  /** Keeping the newest entries commutes with appending more: both sides
      are the newest entries of `s + ys`, and equally many of them. */
  lemma LatestConcat<T>(s: seq<T>, ys: seq<T>)
    ensures Latest(Latest(s) + ys) == Latest(s + ys)
  {
    var u := s + ys;
    var k := |s| - |Latest(s)|;
    assert Latest(s) + ys == u[k..];
    var m := |Latest(u)|;
    assert |Latest(u[k..])| == m;
    assert Latest(u[k..]) == u[k..][|u| - k - m..] == u[|u| - m..];
  }

  /** Undo after a push gives back the old history, except that a full
      history has lost its oldest entry for good. */
  lemma PopAfterPush<T>(stack: seq<T>, x: T)
    requires |stack| <= Capacity
    ensures Pop(Push(stack, x)) == if |stack| < Capacity then stack else stack[1..]
    ensures Top(Push(stack, x)) == Some(x)
  {
  }
}
