/**
 * The queued actions, one constructor per tag that `step` dispatches on, and
 * the type / pause / delete pattern that `strings` queues.
 */
module Actions {
  import Config

  /** An opaque handle for a callback passed to `then`. */
  type CallbackId = nat

  datatype Action =
    | Type(content: string)
    | Unicode(content: string)
    | DeleteChars(count: int)
    | Clear
    | Pause(time: int)
    | Callback(cb: CallbackId)
    | DeleteCursor
    | CreateCursor
    | ClearText
    | ChangeOps(patch: Config.Patch)
    | TypeColor(color: string)
    | CursorColor(color: string)
    | TypeClass(className: string)
    | CursorClass(className: string)

  /** The actions `strings` queues for one string; `if (interval)` is false only for 0. */
  function Block(interval: int, s: string, last: bool): seq<Action> {
    [Type(s)] + (if interval != 0 then [Pause(interval)] else []) + (if last then [] else [DeleteChars(|s|)])
  }

  /** The number of actions queued per string that is followed by another. */
  function BlockSize(interval: int): nat {
    if interval != 0 then 3 else 2
  }

  /** The blocks of strings that are each followed by another one. */
  function FullBlocks(interval: int, xs: seq<string>): seq<Action> {
    if xs == [] then []
    else FullBlocks(interval, xs[..|xs| - 1]) + Block(interval, xs[|xs| - 1], false)
  }

  /** Everything `strings(interval, ...arr)` queues, in order. */
  function StringsPattern(interval: int, arr: seq<string>): seq<Action> {
    if arr == [] then []
    else FullBlocks(interval, arr[..|arr| - 1]) + Block(interval, arr[|arr| - 1], true)
  }

  /** Queuing the block of `arr[i]` after the full blocks before it. */
  lemma StringsStep(interval: int, arr: seq<string>, i: nat, before: seq<Action>)
    requires i < |arr|
    ensures i < |arr| - 1 ==>
      before + FullBlocks(interval, arr[..i]) + Block(interval, arr[i], false) ==
      before + FullBlocks(interval, arr[..i + 1])
    ensures i == |arr| - 1 ==>
      before + FullBlocks(interval, arr[..i]) + Block(interval, arr[i], true) ==
      before + StringsPattern(interval, arr)
  {
    assert arr[..i + 1][..i] == arr[..i];
    if i == |arr| - 1 {
      assert arr[..|arr| - 1] == arr[..i];
    }
  }

  /** The contents of the `Type` actions of `a`, in order. */
  function TypedContents(a: seq<Action>): seq<string> {
    if a == [] then []
    else TypedContents(a[..|a| - 1]) + (if a[|a| - 1].Type? then [a[|a| - 1].content] else [])
  }

  lemma {:induction false} TypedContentsAppend(a: seq<Action>, b: seq<Action>)
    ensures TypedContents(a + b) == TypedContents(a) + TypedContents(b)
    decreases |b|
  {
    if b == [] {
      assert a + b == a;
    } else {
      var b' := b[..|b| - 1];
      assert (a + b)[..|a + b| - 1] == a + b';
      TypedContentsAppend(a, b');
    }
  }

  lemma BlockTyped(interval: int, s: string, last: bool)
    ensures TypedContents(Block(interval, s, last)) == [s]
  {
    var b := Block(interval, s, last);
    TypedContentsAppend([Type(s)], b[1..]);
    assert b == [Type(s)] + b[1..];
    if interval != 0 && !last {
      assert b[1..] == [Pause(interval)] + [DeleteChars(|s|)];
      TypedContentsAppend([Pause(interval)], [DeleteChars(|s|)]);
    }
    assert TypedContents([Type(s)]) == TypedContents([]) + [s];
  }

  lemma {:induction false} FullBlocksTyped(interval: int, xs: seq<string>)
    ensures TypedContents(FullBlocks(interval, xs)) == xs
    decreases |xs|
  {
    if xs != [] {
      var init := xs[..|xs| - 1];
      FullBlocksTyped(interval, init);
      TypedContentsAppend(FullBlocks(interval, init), Block(interval, xs[|xs| - 1], false));
      BlockTyped(interval, xs[|xs| - 1], false);
      assert init + [xs[|xs| - 1]] == xs;
    }
  }

  /** The strings `strings` queues are typed exactly in the order given, each once. */
  lemma StringsTypedInOrder(interval: int, arr: seq<string>)
    ensures TypedContents(StringsPattern(interval, arr)) == arr
  {
    if arr != [] {
      var init := arr[..|arr| - 1];
      FullBlocksTyped(interval, init);
      TypedContentsAppend(FullBlocks(interval, init), Block(interval, arr[|arr| - 1], true));
      BlockTyped(interval, arr[|arr| - 1], true);
      assert init + [arr[|arr| - 1]] == arr;
    }
  }

  lemma {:induction false} FullBlocksShape(interval: int, xs: seq<string>, i: nat)
    requires i < |xs|
    ensures |FullBlocks(interval, xs)| == |xs| * BlockSize(interval)
    ensures i * BlockSize(interval) + BlockSize(interval) <= |xs| * BlockSize(interval)
    ensures FullBlocks(interval, xs)[i * BlockSize(interval)] == Type(xs[i])
    ensures interval != 0 ==> FullBlocks(interval, xs)[i * BlockSize(interval) + 1] == Pause(interval)
    ensures FullBlocks(interval, xs)[i * BlockSize(interval) + BlockSize(interval) - 1] == DeleteChars(|xs[i]|)
    decreases |xs|
  {
    var b := BlockSize(interval);
    var init := xs[..|xs| - 1];
    var fb := FullBlocks(interval, init);
    var last := Block(interval, xs[|xs| - 1], false);
    assert |last| == b;
    BlockOffsets(i, |init|, b);
    if i < |init| {
      FullBlocksShape(interval, init, i);
      assert init[i] == xs[i];
    } else if init != [] {
      FullBlocksShape(interval, init, 0);
    } else {
      assert fb == [];
    }
  }

  /**
   * The shape of what `strings` queues: for each string `arr[i]`, at offset
   * `i * BlockSize(interval)`, a `Type` of it, then a `Pause(interval)` when
   * the interval is non-zero, then (except after the last string) a deletion
   * of exactly its length.
   */
  lemma StringsPatternShape(interval: int, arr: seq<string>, i: nat)
    requires i < |arr|
    ensures |StringsPattern(interval, arr)| == |arr| * BlockSize(interval) - 1
    ensures i * BlockSize(interval) < |StringsPattern(interval, arr)| &&
            StringsPattern(interval, arr)[i * BlockSize(interval)] == Type(arr[i])
    ensures interval != 0 ==>
            i * BlockSize(interval) + 1 < |StringsPattern(interval, arr)| &&
            StringsPattern(interval, arr)[i * BlockSize(interval) + 1] == Pause(interval)
    ensures i < |arr| - 1 ==>
            0 <= (i + 1) * BlockSize(interval) - 1 < |StringsPattern(interval, arr)| &&
            StringsPattern(interval, arr)[(i + 1) * BlockSize(interval) - 1] == DeleteChars(|arr[i]|)
  {
    var b := BlockSize(interval);
    var init := arr[..|arr| - 1];
    var fb := FullBlocks(interval, init);
    var last := Block(interval, arr[|arr| - 1], true);
    assert |last| == b - 1;
    BlockOffsets(i, |init|, b);
    if i < |init| {
      FullBlocksShape(interval, init, i);
      assert init[i] == arr[i];
    } else if init != [] {
      FullBlocksShape(interval, init, 0);
    } else {
      assert fb == [];
    }
  }

  /** Block offsets: block `i` of `n + 1` starts at `i * b` and, before the last, ends within the first `n` blocks. */
  lemma BlockOffsets(i: nat, n: nat, b: nat)
    requires i <= n
    ensures (i + 1) * b == i * b + b
    ensures (n + 1) * b == n * b + b
    ensures i < n ==> i * b + b <= n * b
    ensures i == n ==> i * b == n * b
  {
    if i < n {
      assert n * b == i * b + (n - i) * b;
    }
  }
}
