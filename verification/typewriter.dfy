/**
 * The `Typewriter` widget: its chainable queuing API, the `add` / `delete`
 * character steppers, the word-wrap closure, and the queue runner. Every
 * display tick that would commit a character commits it, so each stepper runs
 * to completion, and a promise that never settles is reported as
 * `resolved == false`.
 */
module Writer {
  import opened Wrappers
  import opened Config
  import Actions
  import opened WordWrap
  import JsOps

  /** `text.slice(0, -1)`: the text without its last character (empty stays empty). */
  function DropLast(t: string): (r: string)
    ensures |t| > 0 ==> r == t[..|t| - 1]
    ensures |t| == 0 ==> r == []
  {
    if |t| == 0 then t else t[..|t| - 1]
  }

  /** The text after deleting `n` characters from its tail, one at a time. */
  function Truncate(t: string, n: nat): (r: string)
    ensures |r| == if n >= |t| then 0 else |t| - n
    ensures r <= t
  {
    t[..if n >= |t| then 0 else |t| - n]
  }

  /** One more deletion drops one more character. */
  lemma TruncateStep(t: string, n: nat)
    ensures Truncate(t, n + 1) == DropLast(Truncate(t, n))
  {
  }

  /** Typing `s` bare and then deleting `|s|` characters gives the text back. */
  lemma TypeThenDelete(t: string, s: string)
    ensures Truncate(t + s, |s|) == t
  {
    assert (t + s)[..|t|] == t;
  }

  /**
   * Deleting as many characters as a run of commits consumed leaves the old
   * text plus the first `Inserted(log)` characters the run appended: one
   * character of residue per synthetic newline, and none for a plain run.
   */
  lemma TypeThenDeleteRun(t: string, log: seq<Commit>)
    ensures Inserted(log) <= |Rendered(log)| &&
            Truncate(t + Rendered(log), |Units(log)|) == t + Rendered(log)[..Inserted(log)]
    ensures Plain(log) ==> Truncate(t + Rendered(log), |Units(log)|) == t
  {
    RenderedLength(log);
    var r := Rendered(log);
    assert (t + r)[..|t| + Inserted(log)] == t + r[..Inserted(log)];
    if Plain(log) {
      RenderedPlain(log);
      TypeThenDelete(t, Units(log));
    }
  }

  /** Whether the promise of action `a` settles, given whether a cursor element exists. */
  predicate Resolves(a: Actions.Action, cursorPresent: bool): (r: bool)
    ensures !r ==> a.Unicode? || a.DeleteChars? || a.DeleteCursor? || a.CursorColor? || a.CursorClass?
    ensures cursorPresent && !r ==> a.Unicode? || a.DeleteChars?
  {
    match a
    case Unicode(s) => |s| % 2 == 0
    case DeleteChars(n) => n >= 0
    case DeleteCursor => cursorPresent
    case CursorColor(_) => cursorPresent
    case CursorClass(_) => cursorPresent
    case _ => true
  }

  /** The actions whose arm of `step` types text. */
  predicate TypesText(a: Actions.Action) {
    a.Type? || a.Unicode?
  }

  /** The actions whose arm of `step` deletes text. */
  predicate DeletesText(a: Actions.Action) {
    a.DeleteChars? || a.Clear? || a.ClearText?
  }

  /** The actions whose arm of `step` creates, removes or restyles the cursor. */
  predicate TouchesCursor(a: Actions.Action) {
    a.CreateCursor? || a.DeleteCursor? || a.CursorColor? || a.CursorClass?
  }

  /** The indices `0, 1, ..., n - 1`. */
  function Indices(n: nat): seq<nat> {
    if n == 0 then [] else Indices(n - 1) + [n - 1]
  }

  /** `p` complete passes over a queue of `q` actions. */
  function Passes(p: nat, q: nat): seq<nat> {
    if p == 0 then [] else Passes(p - 1, q) + Indices(q)
  }

  lemma {:induction false} IndicesAt(n: nat)
    ensures |Indices(n)| == n
    ensures forall k :: 0 <= k < n ==> Indices(n)[k] == k
  {
    if n > 0 {
      IndicesAt(n - 1);
    }
  }

  /** Over `p` passes, the action executed `k`-th in pass `i` is the one at index `k`. */
  lemma {:induction false} PassesAt(p: nat, q: nat, i: nat, k: nat)
    requires i < p && k < q
    ensures |Passes(p, q)| == p * q
    ensures Passes(p, q)[i * q + k] == k
    decreases p
  {
    IndicesAt(q);
    PassesLength(p - 1, q);
    assert p * q == (p - 1) * q + q;
    if i < p - 1 {
      PassesAt(p - 1, q, i, k);
      assert i * q + k < (p - 1) * q by {
        assert (i + 1) * q <= (p - 1) * q;
      }
    } else {
      assert i * q + k == (p - 1) * q + k;
    }
  }

  lemma {:induction false} PassesLength(p: nat, q: nat)
    ensures |Passes(p, q)| == p * q
  {
    IndicesAt(q);
    if p > 0 {
      PassesLength(p - 1, q);
      assert p * q == (p - 1) * q + q;
    }
  }

  /**
   * The order of execution one link further on: completing a pass appends
   * nothing, and stepping index `pos` appends `pos`.
   */
  lemma TraceStep(t: seq<nat>, p: nat, q: nat, pos: nat)
    ensures t + Passes(p + 1, q) + Indices(0) == t + Passes(p, q) + Indices(q)
    ensures t + Passes(p, q) + Indices(pos) + [pos] == t + Passes(p, q) + Indices(pos + 1)
  {
    assert Passes(p + 1, q) == Passes(p, q) + Indices(q);
  }

  /** The text after one more commit is the text before the run plus the longer run's rendering. */
  lemma RenderedExtend(log: seq<Commit>, c: Commit, before: string)
    ensures before + Rendered(log) + Render(c) == before + Rendered(log + [c])
  {
    AppendCommit(log, c);
  }

  // ---------------------------------------------------------------------------
  // The widget's state as a value, and what one `step` does to it

  /** The colour and class last applied to the text and cursor elements, and whether `cursorEl` is set. */
  datatype Display = Display(textColor: string, textClass: string, cursorPresent: bool, cursorColor: string, cursorClass: string)

  /** Everything about the widget that the queue runner reads or writes. */
  datatype WriterState = WriterState(
    text: string,
    queue: seq<Actions.Action>,
    wrap: WrapState,
    running: bool,
    options: Options,
    display: Display,
    addCharCalls: nat,
    deleteCharCalls: nat,
    lastCharCalls: nat,
    callbacks: seq<Actions.CallbackId>)

  /**
   * The wrap state `add` starts from: both counters zeroed when the text is
   * empty, no append pending, and the recorded word bounds reset; the line
   * length carries over.
   */
  function AddStart(text: string, w: WrapState): WrapState {
    var empty := |text| == 0;
    WrapState(
      if empty then 0 else w.extraSpaceCount,
      if empty then 0 else w.extraNewlineCount,
      w.lengthSinceNewLine, false, Bounds(0, 0))
  }

  /** `initialTextLength`: the text's length less the synthetic characters counted in it. */
  function InitialLength(text: string, w: WrapState): int {
    |text| - AddStart(text, w).extraSpaceCount - AddStart(text, w).extraNewlineCount
  }

  /**
   * The commits of a whole `add(content, isUnicode)` on text `text` with wrap
   * state `w`: one per character, or one per pair in unicode mode (a
   * trailing odd character is never committed).
   */
  function AddRun(text: string, w: WrapState, o: Options, content: string, isUnicode: bool): (r: RunResult)
    ensures |r.log| == if isUnicode then |content| / 2 else |content|
  {
    if isUnicode then Run(AddStart(text, w), o, content, InitialLength(text, w), 2, |content| / 2)
    else Run(AddStart(text, w), o, content, InitialLength(text, w), 1, |content|)
  }

  /** A run from `add`'s start state with as many commits as `add` makes is `AddRun`. */
  lemma AddRunIs(text: string, w: WrapState, o: Options, content: string, isUnicode: bool, log: seq<Commit>, w2: WrapState)
    requires |log| == if isUnicode then |content| / 2 else |content|
    requires Run(AddStart(text, w), o, content, InitialLength(text, w), if isUnicode then 2 else 1, |log|) == RunResult(log, w2)
    ensures AddRun(text, w, o, content, isUnicode) == RunResult(log, w2)
  {
  }

  /** The state after `add(content, isUnicode)` has made all its commits. */
  function Typed(s: WriterState, content: string, isUnicode: bool): WriterState {
    var r := AddRun(s.text, s.wrap, s.options, content, isUnicode);
    s.(text := s.text + Rendered(r.log), wrap := r.after, addCharCalls := s.addCharCalls + |r.log|)
  }

  /**
   * The state after `step` has run action `a` as far as it gets: to
   * completion, or, for an action whose promise never settles, to the point
   * where it stops changing anything. No action touches the queue, `running`
   * or `onLastChar`, and one that never settles leaves the elements alone.
   */
  function StepAfter(s: WriterState, a: Actions.Action): (r: WriterState)
    ensures r.queue == s.queue && r.running == s.running && r.lastCharCalls == s.lastCharCalls
    ensures !Resolves(a, s.display.cursorPresent) ==> r.display == s.display
    ensures r.options == if a.ChangeOps? then Merge(s.options, a.patch) else s.options
  {
    match a
    case Type(content) => Typed(s, content, false)
    case Unicode(content) => Typed(s, content, true)
    case DeleteChars(n) =>
      if n >= 0 then s.(text := Truncate(s.text, n), deleteCharCalls := s.deleteCharCalls + n)
      else s.(text := [], deleteCharCalls := s.deleteCharCalls + |s.text|)
    case Clear => s.(text := [], deleteCharCalls := s.deleteCharCalls + |s.text|)
    case ClearText => s.(text := [])
    case Pause(_) => s
    case Callback(cb) => s.(callbacks := s.callbacks + [cb])
    case ChangeOps(patch) => s.(options := Merge(s.options, patch))
    case CreateCursor =>
      s.(display := s.display.(cursorPresent := true, cursorColor := s.options.cursorColor, cursorClass := s.options.cursorClass))
    case DeleteCursor => s.(display := s.display.(cursorPresent := false))
    case TypeColor(color) => s.(display := s.display.(textColor := color))
    case TypeClass(className) => s.(display := s.display.(textClass := className))
    case CursorColor(color) =>
      if s.display.cursorPresent then s.(display := s.display.(cursorColor := color)) else s
    case CursorClass(className) =>
      if s.display.cursorPresent then s.(display := s.display.(cursorClass := className)) else s
  }

  /**
   * What a whole `add` commits: the run consumes the content in order (all
   * but the last character of an odd-length unicode string), never puts
   * newlines on both sides of one unit, appends the content itself with
   * word-wrap prevention off, and adds exactly its counted newlines to
   * `extraNewlineCount`.
   */
  lemma AddRunFacts(text: string, w: WrapState, o: Options, content: string, isUnicode: bool)
    ensures var r := AddRun(text, w, o, content, isUnicode);
      && Units(r.log) == (if !isUnicode || |content| % 2 == 0 then content else content[..|content| - 1])
      && NeverBoth(r.log)
      && (!o.preventWordWrap ==> Plain(r.log) && Rendered(r.log) == Units(r.log))
      && r.after.extraNewlineCount == AddStart(text, w).extraNewlineCount + Counted(r.log)
  {
    var delta := if isUnicode then 2 else 1;
    var n := if isUnicode then |content| / 2 else |content|;
    var st := AddStart(text, w);
    var itl := InitialLength(text, w);
    RunAccounting(st, o, content, itl, delta, n);
    RunCounters(st, o, content, itl, delta, n);
    var r := Run(st, o, content, itl, delta, n);
    if !o.preventWordWrap {
      RenderedPlain(r.log);
    }
    if !isUnicode || |content| % 2 == 0 {
      assert content[..Offset(n, delta)] == content;
    }
  }

  /**
   * One `strings` block: typing `str` and then deleting `|str|` characters
   * (a pause between them changes nothing) leaves the old text plus the
   * first `Inserted` characters of what the typing appended, one per
   * synthetic newline; with word-wrap prevention off it restores the text.
   */
  lemma StringsBlockResidue(s: WriterState, str: string)
    ensures var r := AddRun(s.text, s.wrap, s.options, str, false);
      Inserted(r.log) <= |Rendered(r.log)| &&
      StepAfter(StepAfter(s, Actions.Type(str)), Actions.DeleteChars(|str|)).text ==
      s.text + Rendered(r.log)[..Inserted(r.log)]
    ensures !s.options.preventWordWrap ==>
      StepAfter(StepAfter(s, Actions.Type(str)), Actions.DeleteChars(|str|)).text == s.text
  {
    var r := AddRun(s.text, s.wrap, s.options, str, false);
    AddRunFacts(s.text, s.wrap, s.options, str, false);
    TypeThenDeleteRun(s.text, r.log);
  }

  /** Why the promise chain `start` sets off came to rest. */
  datatype Halt =
    | AlreadyRunning  // `start` returned at once
    | OutOfFuel       // the chain goes on; only the bound on continuations stopped it
    | Stalled         // the action stepped last never settles
    | Finished        // the queue ended with `loop` off

  /**
   * What `start` does: nothing while running; otherwise it creates the cursor
   * element when there is none, sets `running` and deletes all the text.
   */
  function StartAfter(s: WriterState): (r: WriterState)
    ensures s.running ==> r == s
    ensures !s.running ==> r.running && r.text == [] && r.display.cursorPresent
    ensures !s.running ==> r.deleteCharCalls == s.deleteCharCalls + |s.text|
    ensures s.display.cursorPresent ==> r.display == s.display
    ensures r == s.(running := r.running, text := r.text, deleteCharCalls := r.deleteCharCalls, display := r.display)
  {
    if s.running then s
    else
      var shown :=
        if s.display.cursorPresent then s.display
        else s.display.(cursorPresent := true, cursorColor := s.options.cursorColor, cursorClass := s.options.cursorClass);
      s.(running := true, text := [], deleteCharCalls := s.deleteCharCalls + |s.text|, display := shown)
  }

  /** A state that differs from a stopped one exactly as `start` makes it differ is `StartAfter` of it. */
  lemma StartAfterIs(s: WriterState, r: WriterState)
    requires !s.running && r.running && r.text == [] && r.deleteCharCalls == s.deleteCharCalls + |s.text|
    requires s.display.cursorPresent ==> r.display == s.display
    requires !s.display.cursorPresent ==>
      r.display == s.display.(cursorPresent := true, cursorColor := s.options.cursorColor, cursorClass := s.options.cursorClass)
    requires r == s.(running := r.running, text := r.text, deleteCharCalls := r.deleteCharCalls, display := r.display)
    ensures r == StartAfter(s)
  {
  }

  /**
   * `loop(idx)` at the end of the queue: `running` is cleared, `start` runs
   * again when `options.loop` is set, and `onLastChar` fires once.
   */
  function LoopEnd(s: WriterState): (r: WriterState)
    ensures r.queue == s.queue && r.options == s.options && r.lastCharCalls == s.lastCharCalls + 1
    ensures r.running == s.options.loop
    ensures s.options.loop ==> r.text == [] && r.display.cursorPresent
    ensures !s.options.loop ==> r == s.(running := false, lastCharCalls := s.lastCharCalls + 1)
  {
    var stopped := s.(running := false);
    var restarted := if s.options.loop then StartAfter(stopped) else stopped;
    restarted.(lastCharCalls := s.lastCharCalls + 1)
  }

  /** Where the promise chain comes to rest: the state, the passes completed, the index reached, and why. */
  datatype ChainEnd = ChainEnd(state: WriterState, passes: nat, pos: nat, halt: Halt)

  /**
   * The chain of `loop` continuations from `loop(idx)` on state `s`, followed
   * for at most `fuel` links, `passes` passes having been completed before.
   * Each link steps one action (going on only when it settles) or, at the end
   * of the queue, completes a pass (going on only when `loop` is set).
   */
  function Chain(s: WriterState, idx: nat, fuel: nat, passes: nat): (r: ChainEnd)
    requires idx <= |s.queue|
    ensures r.state.queue == s.queue && r.pos <= |s.queue| && r.passes >= passes
    ensures r.halt != AlreadyRunning
    decreases fuel, 1
  {
    if fuel == 0 then ChainEnd(s, passes, idx, OutOfFuel) else ChainOn(s, idx, fuel, passes)
  }

  /**
   * The first link of a chain that has fuel left, and the chain from where it
   * leads; kept apart so that a proof sees the link only when it names it.
   */
  function ChainOn(s: WriterState, idx: nat, fuel: nat, passes: nat): (r: ChainEnd)
    requires idx <= |s.queue| && 0 < fuel
    ensures r.state.queue == s.queue && r.pos <= |s.queue| && r.passes >= passes
    ensures r.halt != AlreadyRunning
    decreases fuel, 0
  {
    if idx == |s.queue| then
      if s.options.loop then Chain(LoopEnd(s), 0, fuel - 1, passes + 1)
      else ChainEnd(LoopEnd(s), passes + 1, 0, Finished)
    else
      var a := s.queue[idx];
      if Resolves(a, s.display.cursorPresent) then Chain(StepAfter(s, a), idx + 1, fuel - 1, passes)
      else ChainEnd(StepAfter(s, a), passes, idx + 1, Stalled)
  }

  /** One link of the chain, taken by `loop(idx)`, leaves the rest of the chain to follow from where it led. */
  lemma ChainLink(s: WriterState, idx: nat, fuel: nat, passes: nat, s2: WriterState, next: Option<nat>)
    requires idx <= |s.queue| && 0 < fuel
    requires idx == |s.queue| ==> s2 == LoopEnd(s) && next == if s2.options.loop then Some(0) else None
    requires idx < |s.queue| ==>
      s2 == StepAfter(s, s.queue[idx]) && next == if Resolves(s.queue[idx], s.display.cursorPresent) then Some(idx + 1) else None
    ensures var p := if idx == |s.queue| then passes + 1 else passes;
      next.Some? ==> next.value <= |s2.queue| && Chain(s2, next.value, fuel - 1, p) == Chain(s, idx, fuel, passes)
    ensures var p := if idx == |s.queue| then passes + 1 else passes;
      next.None? ==>
        Chain(s, idx, fuel, passes) ==
        ChainEnd(s2, p, if idx == |s.queue| then 0 else idx + 1, if idx == |s.queue| then Finished else Stalled)
  {
    assert Chain(s, idx, fuel, passes) == ChainOn(s, idx, fuel, passes);
  }

  /**
   * Where a chain from a running state can come to rest: `onLastChar` has
   * fired once per completed pass; each pass costs one link more than the
   * queue has actions, so the links used are bounded by the fuel, and use it
   * all up when the chain is still going; a chain that stalls stopped just
   * after an action that does not settle, and one that finishes stopped at
   * the end of the queue with `loop` off. Only a finished chain has stopped
   * running.
   */
  lemma {:induction false} ChainFacts(s: WriterState, idx: nat, fuel: nat, passes: nat)
    requires idx <= |s.queue| && s.running
    ensures var r := Chain(s, idx, fuel, passes); var n := |s.queue| + 1;
      && r.state.lastCharCalls == s.lastCharCalls + (r.passes - passes)
      && r.passes * n + r.pos <= passes * n + idx + fuel
      && (r.halt == OutOfFuel ==> r.passes * n + r.pos == passes * n + idx + fuel)
      && (r.halt == Stalled ==> 0 < r.pos && !Resolves(s.queue[r.pos - 1], r.state.display.cursorPresent))
      && (r.halt == Finished ==> r.pos == 0 && !r.state.options.loop)
      && (r.state.running <==> r.halt != Finished)
      && (fuel == 0 ==> r.state == s)
    decreases fuel
  {
    var n := |s.queue| + 1;
    if fuel > 0 {
      assert Chain(s, idx, fuel, passes) == ChainOn(s, idx, fuel, passes);
    }
    if fuel > 0 && idx == |s.queue| {
      if s.options.loop {
        ChainFacts(LoopEnd(s), 0, fuel - 1, passes + 1);
        assert (passes + 1) * n == passes * n + idx + 1;
      }
    } else if fuel > 0 {
      var a := s.queue[idx];
      if Resolves(a, s.display.cursorPresent) {
        ChainFacts(StepAfter(s, a), idx + 1, fuel - 1, passes);
      }
    }
  }

  /** The `changeOps` patches of a queue, overlaid in order. */
  function Patches(q: seq<Actions.Action>): Patch {
    if |q| == 0 then NoChanges()
    else
      var rest := Patches(q[..|q| - 1]);
      match q[|q| - 1]
      case ChangeOps(p) => Overlay(rest, p)
      case _ => rest
  }

  /**
   * Along the chain, the options after the first `idx` actions of a pass are
   * the pass's starting options merged with those actions' patches. A pass
   * that ends with `loop` set hands the next pass options that the queue's
   * patches leave unchanged, so every later pass ends with `loop` set too: the
   * chain can only finish during its first pass.
   */
  lemma {:induction false} ChainFinishesInFirstPass(s: WriterState, idx: nat, fuel: nat, passes: nat, start: Options)
    requires idx <= |s.queue|
    requires s.options == Merge(start, Patches(s.queue[..idx]))
    requires passes > 0 ==> start.loop && Merge(start, Patches(s.queue)) == start
    ensures Chain(s, idx, fuel, passes).halt == Finished ==> passes == 0 && Chain(s, idx, fuel, passes).passes == 1
    decreases fuel
  {
    if fuel > 0 {
      assert Chain(s, idx, fuel, passes) == ChainOn(s, idx, fuel, passes);
    }
    if fuel > 0 && idx == |s.queue| {
      assert s.queue[..idx] == s.queue;
      if s.options.loop {
        PassEndOptions(s, start);
        ChainFinishesInFirstPass(LoopEnd(s), 0, fuel - 1, passes + 1, s.options);
      }
    } else if fuel > 0 {
      var a := s.queue[idx];
      if Resolves(a, s.display.cursorPresent) {
        StepOptions(s, idx, start);
        ChainFinishesInFirstPass(StepAfter(s, a), idx + 1, fuel - 1, passes, start);
      }
    }
  }

  /** One step of a pass merges in the patch of the action stepped, if it has one. */
  lemma StepOptions(s: WriterState, idx: nat, start: Options)
    requires idx < |s.queue|
    requires s.options == Merge(start, Patches(s.queue[..idx]))
    ensures StepAfter(s, s.queue[idx]).options == Merge(start, Patches(s.queue[..idx + 1]))
  {
    var q := s.queue;
    assert q[..idx + 1][..idx] == q[..idx];
    if q[idx].ChangeOps? {
      MergeSequential(start, Patches(q[..idx]), q[idx].patch);
    }
  }

  /**
   * A pass that ends with the whole queue's patches merged in starts the next
   * pass with options that those patches leave unchanged.
   */
  lemma PassEndOptions(s: WriterState, start: Options)
    requires s.options == Merge(start, Patches(s.queue))
    ensures var s2 := LoopEnd(s);
      s2.options == Merge(s.options, Patches(s2.queue[..0])) && Merge(s.options, Patches(s2.queue)) == s.options
  {
    assert LoopEnd(s).queue[..0] == [];
    MergeIdempotent(start, Patches(s.queue));
  }


  class Typewriter {
    var text: string
    var queue: seq<Actions.Action>
    var extraSpaceCount: int
    var extraNewlineCount: int
    var lengthSinceNewLine: int
    var running: bool
    var options: Options
    // Captured by the closures of `add`.
    var appendNewLine: bool
    var currentWordTrueBounds: Bounds
    // The styling the text and cursor elements carry, and whether `cursorEl` is set.
    var textElColor: string
    var textElClass: string
    var cursorPresent: bool
    var cursorElColor: string
    var cursorElClass: string
    // Invocations of the foreign callbacks.
    var addCharCalls: nat
    var deleteCharCalls: nat
    var lastCharCalls: nat
    var callbacks: seq<Actions.CallbackId>
    /** The queue indices stepped so far, in order. */
    ghost var trace: seq<nat>

    /** The state the wrap closure and the commit step share. */
    function WrapFields(): WrapState
      reads this
    {
      WrapState(extraSpaceCount, extraNewlineCount, lengthSinceNewLine, appendNewLine, currentWordTrueBounds)
    }

    /** The text and cursor elements as far as the model records them. */
    function Shown(): Display
      reads this
    {
      Display(textElColor, textElClass, cursorPresent, cursorElColor, cursorElClass)
    }

    /** The whole state as a value (all but the ghost `trace`). */
    function State(): WriterState
      reads this
    {
      WriterState(text, queue,
                  WrapState(extraSpaceCount, extraNewlineCount, lengthSinceNewLine, appendNewLine, currentWordTrueBounds),
                  running, options,
                  Display(textElColor, textElClass, cursorPresent, cursorElColor, cursorElClass),
                  addCharCalls, deleteCharCalls, lastCharCalls, callbacks)
    }

    /** The field assignments of `constructor (el, options)`, before its line-limit check. */
    constructor (patch: Patch)
      ensures options == Merge(Defaults(), patch)
      ensures text == [] && queue == [] && !running && !cursorPresent
      ensures extraSpaceCount == 0 && extraNewlineCount == 0 && lengthSinceNewLine == 0
      ensures addCharCalls == 0 && deleteCharCalls == 0 && lastCharCalls == 0 && callbacks == [] && trace == []
    {
      text := [];
      extraSpaceCount := 0;
      extraNewlineCount := 0;
      lengthSinceNewLine := 0;
      queue := [];
      options := Merge(Defaults(), patch);
      running := false;
      appendNewLine := false;
      currentWordTrueBounds := Bounds(0, 0);
      textElColor, textElClass := "", "";
      cursorPresent := false;
      cursorElColor, cursorElClass := "", "";
      addCharCalls, deleteCharCalls, lastCharCalls := 0, 0, 0;
      callbacks := [];
      trace := [];
    }

    /**
     * `new Typewriter(el, options)`: fails exactly when word-wrap prevention is
     * on with a line limit below 1; otherwise the text element is created and
     * the widget starts with empty text and an empty queue.
     */
    static method Create(patch: Patch) returns (r: Result<Typewriter, string>)
      ensures r.Failure? <==> LineLimitRejected(Merge(Defaults(), patch))
      ensures r.Success? ==> fresh(r.value)
      ensures r.Success? ==> r.value.text == [] && r.value.queue == [] && !r.value.running
      ensures r.Success? ==> r.value.options == Merge(Defaults(), patch)
      ensures r.Success? ==> r.value.textElColor == r.value.options.typeColor && r.value.textElClass == r.value.options.typeClass
    {
      var t := new Typewriter(patch);
      if t.options.preventWordWrap && t.options.wordWrapLineLengthLimit < 1 {
        return Failure("Line length limit must be greater than 0.");
      }
      t.CreateTextEl();
      r := Success(t);
    }

    method CreateTextEl()
      modifies this`textElColor, this`textElClass
      ensures textElColor == options.typeColor && textElClass == options.typeClass
    {
      textElClass := options.typeClass;
      textElColor := options.typeColor;
    }

    // -------------------------------------------------------------------------
    // The chainable queuing API

    method Type(str: string)
      modifies this`queue
      ensures queue == old(queue) + [Actions.Type(str)]
    {
      queue := queue + [Actions.Type(str)];
    }

    method TypeUnicode(str: string)
      modifies this`queue
      ensures queue == old(queue) + [Actions.Unicode(str)]
    {
      queue := queue + [Actions.Unicode(str)];
    }

    /** Queues each string's type / pause / delete block, the last string without the delete. */
    method Strings(interval: int, arr: seq<string>)
      modifies this`queue
      ensures queue == old(queue) + Actions.StringsPattern(interval, arr)
    {
      var i := 0;
      while i < |arr|
        invariant 0 <= i <= |arr|
        invariant i < |arr| ==> queue == old(queue) + Actions.FullBlocks(interval, arr[..i])
        invariant i == |arr| ==> queue == old(queue) + Actions.StringsPattern(interval, arr)
      {
        ghost var before := queue;
        var str := arr[i];
        queue := queue + [Actions.Type(str)];
        if interval != 0 {
          queue := queue + [Actions.Pause(interval)];
        }
        if i != |arr| - 1 {
          queue := queue + [Actions.DeleteChars(|str|)];
        }
        assert queue == before + Actions.Block(interval, str, i == |arr| - 1);
        Actions.StringsStep(interval, arr, i, old(queue));
        i := i + 1;
      }
    }

    method Remove(num: int)
      modifies this`queue
      ensures queue == old(queue) + [Actions.DeleteChars(num)]
    {
      queue := queue + [Actions.DeleteChars(num)];
    }

    method Clear()
      modifies this`queue
      ensures queue == old(queue) + [Actions.Clear]
    {
      queue := queue + [Actions.Clear];
    }

    /** The immediate (not queued) `clearText`. */
    method ClearText()
      modifies this`text
      ensures text == []
    {
      text := [];
    }

    method QueueClearText()
      modifies this`queue
      ensures queue == old(queue) + [Actions.ClearText]
    {
      queue := queue + [Actions.ClearText];
    }

    /** The two assignments of `clearQueue`; the bare `render()` call after them throws. */
    method ClearQueue()
      modifies this`queue, this`text
      ensures queue == [] && text == []
    {
      queue := [];
      text := [];
    }

    method Rest(time: int)
      modifies this`queue
      ensures queue == old(queue) + [Actions.Pause(time)]
    {
      queue := queue + [Actions.Pause(time)];
    }

    method ChangeOps(patch: Patch)
      modifies this`queue
      ensures queue == old(queue) + [Actions.ChangeOps(patch)]
    {
      queue := queue + [Actions.ChangeOps(patch)];
    }

    method Then(cb: Actions.CallbackId)
      modifies this`queue
      ensures queue == old(queue) + [Actions.Callback(cb)]
    {
      queue := queue + [Actions.Callback(cb)];
    }

    method RemoveCursor()
      modifies this`queue
      ensures queue == old(queue) + [Actions.DeleteCursor]
    {
      queue := queue + [Actions.DeleteCursor];
    }

    method AddCursor()
      modifies this`queue
      ensures queue == old(queue) + [Actions.CreateCursor]
    {
      queue := queue + [Actions.CreateCursor];
    }

    method ChangeTypeColor(color: string)
      modifies this`queue
      ensures queue == old(queue) + [Actions.TypeColor(color)]
    {
      queue := queue + [Actions.TypeColor(color)];
    }

    method ChangeCursorColor(color: string)
      modifies this`queue
      ensures queue == old(queue) + [Actions.CursorColor(color)]
    {
      queue := queue + [Actions.CursorColor(color)];
    }

    method ChangeTypeClass(className: string)
      modifies this`queue
      ensures queue == old(queue) + [Actions.TypeClass(className)]
    {
      queue := queue + [Actions.TypeClass(className)];
    }

    method ChangeCursorClass(className: string)
      modifies this`queue
      ensures queue == old(queue) + [Actions.CursorClass(className)]
    {
      queue := queue + [Actions.CursorClass(className)];
    }

    // -------------------------------------------------------------------------
    // Character helpers

    method AddChar(s: string)
      modifies this`text, this`addCharCalls
      ensures text == old(text) + s
      ensures addCharCalls == old(addCharCalls) + 1
    {
      text := text + s;
      addCharCalls := addCharCalls + 1;
    }

    method DeleteChar()
      modifies this`text, this`deleteCharCalls
      ensures text == DropLast(old(text))
      ensures deleteCharCalls == old(deleteCharCalls) + 1
    {
      text := DropLast(text);
      deleteCharCalls := deleteCharCalls + 1;
    }

    // -------------------------------------------------------------------------
    // Typing

    /** The `newlineToPreventWordWrap` closure of `add`, following `Wrap` exactly. */
    method NewlineToPreventWordWrap(content: string, count: int, initialTextLength: int, countDelta: int)
      returns (prepend: bool)
      requires 0 <= count < |content| && countDelta > 0
      modifies this`extraNewlineCount, this`appendNewLine, this`currentWordTrueBounds
      ensures Decision(prepend, WrapFields()) ==
              Wrap(old(WrapFields()), content, count, initialTextLength, countDelta, options.wordWrapLineLengthLimit)
    {
      var limit := options.wordWrapLineLengthLimit;
      var trueLength := |content| + initialTextLength - extraSpaceCount - extraNewlineCount;
      if trueLength <= limit {
        return false;
      }
      var trueCount := count + initialTextLength;
      if content[count] == ' ' {
        if lengthSinceNewLine > 1 && JsOps.RemIs(lengthSinceNewLine, limit, 1) {
          appendNewLine := true;
        }
        return false;
      }
      if trueCount > 0 && trueCount == currentWordTrueBounds.endIndex {
        if WordEndsLine(lengthSinceNewLine, trueCount, limit) {
          appendNewLine := true;
          extraNewlineCount := extraNewlineCount + 1;
          return false;
        }
      }
      if currentWordTrueBounds.startIndex < trueCount <= currentWordTrueBounds.endIndex {
        return false;
      }
      prepend := CheckNewWord(content, count, initialTextLength, countDelta);
    }

    /** The tail of the closure: record the word around `count`, and decide on its first character. */
    method CheckNewWord(content: string, count: int, initialTextLength: int, countDelta: int)
      returns (prepend: bool)
      requires 0 <= count < |content| && countDelta > 0
      modifies this`extraNewlineCount, this`currentWordTrueBounds
      ensures Decision(prepend, WrapFields()) ==
              WrapNewWord(old(WrapFields()), content, count, initialTextLength, countDelta, options.wordWrapLineLengthLimit)
    {
      ghost var st := WrapFields();
      ghost var d := WrapNewWord(st, content, count, initialTextLength, countDelta, options.wordWrapLineLengthLimit);
      var limit := options.wordWrapLineLengthLimit;
      var trueCount := count + initialTextLength;
      var word := WordBounds(content, count);
      var currentWordLength := word.endIndex - word.startIndex + 1;
      currentWordTrueBounds := Bounds(word.startIndex + initialTextLength, word.endIndex + initialTextLength);
      ghost var st1 := st.(currentWordTrueBounds := currentWordTrueBounds);
      assert WrapFields() == st1;
      if trueCount == currentWordTrueBounds.startIndex {
        if trueCount + currentWordLength < limit {
          assert d == Decision(false, st1);
          return false;
        }
        ghost var must := MustPrependNewLine(st, currentWordTrueBounds, currentWordLength, countDelta, limit);
        assert d == if must then Decision(true, st1.(extraNewlineCount := st.extraNewlineCount + 1)) else Decision(false, st1);
        prepend := PrependAtWordStart(currentWordLength, countDelta, limit);
        return;
      }
      assert d == Decision(false, st1);
      return false;
    }

    /**
     * On a word's first character, when the word does not fit: scan the
     * word's positions (true positions before any newline was counted, line
     * positions after) for one that `limit` would break, and count the
     * prepended newline.
     */
    method PrependAtWordStart(currentWordLength: int, countDelta: int, limit: int) returns (prepend: bool)
      requires countDelta > 0
      modifies this`extraNewlineCount
      ensures prepend == MustPrependNewLine(old(WrapFields()), currentWordTrueBounds, currentWordLength, countDelta, limit)
      ensures extraNewlineCount == old(extraNewlineCount) + (if prepend then 1 else 0)
    {
      if extraNewlineCount == 0 {
        var mustPrependNewLine := JsOps.ArrayRangeSome(
          currentWordTrueBounds.startIndex, currentWordTrueBounds.endIndex, countDelta, limit);
        if mustPrependNewLine {
          extraNewlineCount := extraNewlineCount + 1;
          return true;
        }
      } else if lengthSinceNewLine > 1 {
        var mustPrependNewLine := JsOps.ArrayRangeSome(
          lengthSinceNewLine, lengthSinceNewLine + currentWordLength - 1, countDelta, limit);
        if mustPrependNewLine {
          extraNewlineCount := extraNewlineCount + 1;
          return true;
        }
      }
      return false;
    }

    /**
     * The body of `add`'s `_step` once the delay has passed: commit the unit at
     * `count`, with the newline the closure asks for, then update
     * `lengthSinceNewLine` and reset `appendNewLine`.
     */
    method CommitTick(content: string, count: int, initialTextLength: int, countDelta: int)
      returns (newLineCreated: bool, ghost c: Commit)
      requires 0 <= count && count + countDelta <= |content| && countDelta > 0
      modifies this`text, this`addCharCalls, this`extraNewlineCount, this`lengthSinceNewLine,
               this`appendNewLine, this`currentWordTrueBounds
      ensures text == old(text) + Render(c)
      ensures c.unit == content[count..count + countDelta]
      ensures newLineCreated == (c.prepend || c.append)
      ensures !old(appendNewLine) ==> !(c.prepend && c.append) && extraNewlineCount == old(extraNewlineCount) + CountedNewlines(c)
      ensures !options.preventWordWrap ==> !c.prepend && !c.append
      ensures !appendNewLine
      ensures addCharCalls == old(addCharCalls) + 1
      ensures var t := Tick(old(WrapFields()), options, content, count, initialTextLength, countDelta);
        c == t.commit && WrapFields() == t.after
    {
      ghost var st := WrapFields();
      var pendingChar := content[count..count + countDelta];
      if options.preventWordWrap {
        var prependNewLine := NewlineToPreventWordWrap(content, count, initialTextLength, countDelta);
        ghost var mid := WrapFields();
        newLineCreated, c := FinishTick(pendingChar, prependNewLine, appendNewLine, countDelta);
        assert Tick(st, options, content, count, initialTextLength, countDelta) == Settle(c, mid, countDelta);
      } else {
        newLineCreated, c := FinishTick(pendingChar, false, false, countDelta);
      }
      if !st.appendNewLine {
        TickAccounting(st, options, content, count, initialTextLength, countDelta);
      }
    }

    /**
     * The rest of `_step` once the closure has decided: append the unit with
     * the chosen newlines, then reset the line length when a newline was added
     * or none has been counted, advance it while newlines are counted, and
     * clear `appendNewLine`.
     */
    method FinishTick(pendingChar: string, prependNewLine: bool, appendAfter: bool, countDelta: int)
      returns (newLineCreated: bool, ghost c: Commit)
      modifies this`text, this`addCharCalls, this`lengthSinceNewLine, this`appendNewLine
      ensures c == Commit(prependNewLine, pendingChar, appendAfter)
      ensures newLineCreated == (prependNewLine || appendAfter)
      ensures text == old(text) + Render(c)
      ensures addCharCalls == old(addCharCalls) + 1
      ensures WrapFields() == Settle(c, old(WrapFields()), countDelta).after
    {
      c := Commit(prependNewLine, pendingChar, appendAfter);
      AddChar((if prependNewLine then "\n" else "") + pendingChar + (if appendAfter then "\n" else ""));
      newLineCreated := prependNewLine || appendAfter;
      if newLineCreated || extraNewlineCount == 0 {
        lengthSinceNewLine := 0;
      }
      appendNewLine := false;
      if extraNewlineCount > 0 {
        lengthSinceNewLine := lengthSinceNewLine + countDelta;
      }
    }

    /**
     * The `_step` loop of `add`: commits units of `countDelta` characters from
     * position 0 while a whole unit remains. The commits and the wrap state
     * they leave are exactly `Run` from the state the loop started in.
     */
    method CommitAll(content: string, initialTextLength: int, countDelta: int) returns (count: nat, ghost log: seq<Commit>)
      requires countDelta == 1 || countDelta == 2
      modifies this`text, this`addCharCalls, this`extraNewlineCount, this`lengthSinceNewLine,
               this`appendNewLine, this`currentWordTrueBounds
      ensures count <= |content| < count + countDelta
      ensures count == Offset(|log|, countDelta)
      ensures Run(old(WrapFields()), options, content, initialTextLength, countDelta, |log|) == RunResult(log, WrapFields())
      ensures text == old(text) + Rendered(log)
      ensures addCharCalls == old(addCharCalls) + |log|
    {
      count := 0;
      log := [];
      while count + countDelta <= |content|
        invariant count == Offset(|log|, countDelta) <= |content|
        invariant Run(old(WrapFields()), options, content, initialTextLength, countDelta, |log|) == RunResult(log, WrapFields())
        invariant text == old(text) + Rendered(log)
        invariant addCharCalls == old(addCharCalls) + |log|
      {
        ghost var w := WrapFields();
        var _, c := CommitTick(content, count, initialTextLength, countDelta);
        RunExtend(old(WrapFields()), options, content, initialTextLength, countDelta, log, w, c, WrapFields());
        RenderedExtend(log, c, old(text));
        log := log + [c];
        count := count + countDelta;
      }
    }

    /**
     * The start of `add`: no append pending, both counters zeroed when the text
     * is empty, the word bounds reset; returns `initialTextLength`.
     */
    method ResetForAdd() returns (initialTextLength: int)
      modifies this`extraSpaceCount, this`extraNewlineCount, this`appendNewLine, this`currentWordTrueBounds
      ensures WrapFields() == AddStart(text, old(WrapFields()))
      ensures initialTextLength == InitialLength(text, old(WrapFields()))
    {
      appendNewLine := false;
      if |text| == 0 {
        extraSpaceCount := 0;
        extraNewlineCount := 0;
      }
      initialTextLength := |text| - extraSpaceCount - extraNewlineCount;
      currentWordTrueBounds := Bounds(0, 0);
    }

    /**
     * `add(content, isUnicode)`: commits `content` one unit (two characters in
     * unicode mode) at a time. The commits and the wrap state after them are
     * `AddRun` of the state before; the text grows by the rendered commits,
     * which consume the content in order with at most one synthetic newline
     * each. In unicode mode with an odd length the JavaScript reads past the
     * end of the string and never settles; the model stops before that read.
     */
    method Add(content: string, isUnicode: bool) returns (resolved: bool)
      modifies this`text, this`addCharCalls, this`extraSpaceCount, this`extraNewlineCount,
               this`lengthSinceNewLine, this`appendNewLine, this`currentWordTrueBounds
      ensures resolved <==> !isUnicode || |content| % 2 == 0
      ensures var r := AddRun(old(text), old(WrapFields()), options, content, isUnicode);
        text == old(text) + Rendered(r.log) && WrapFields() == r.after && addCharCalls == old(addCharCalls) + |r.log|
    {
      ghost var text0, wrap0 := text, WrapFields();
      var countDelta := if isUnicode then 2 else 1;
      var initialTextLength := ResetForAdd();
      var count, log := CommitAll(content, initialTextLength, countDelta);
      resolved := count == |content|;
      assert |log| == if isUnicode then |content| / 2 else |content|;
      AddRunIs(text0, wrap0, options, content, isUnicode, log, WrapFields());
    }

    // -------------------------------------------------------------------------
    // Deleting

    /**
     * `delete(count)`: removes `count` characters from the tail, one per
     * commit. A negative count never reaches 0, so the promise never settles;
     * the model follows it until the text is empty, after which further ticks
     * change nothing but fire `onDeleteChar` again.
     */
    method Delete(count: int) returns (resolved: bool)
      modifies this`text, this`deleteCharCalls
      ensures resolved <==> count >= 0
      ensures count >= 0 ==> text == Truncate(old(text), count) && deleteCharCalls == old(deleteCharCalls) + count
      ensures count < 0 ==> text == [] && deleteCharCalls == old(deleteCharCalls) + |old(text)|
    {
      var n := count;
      while n != 0 && !(n < 0 && text == [])
        invariant n <= count
        invariant count >= 0 ==> n >= 0
        invariant text == Truncate(old(text), count - n)
        invariant deleteCharCalls == old(deleteCharCalls) + (count - n)
        invariant count < 0 ==> count - n <= |old(text)|
        decreases if count >= 0 then n else |text|
      {
        TruncateStep(old(text), count - n);
        DeleteChar();
        n := n - 1;
      }
      resolved := n == 0;
    }

    method DeleteAll() returns (resolved: bool)
      modifies this`text, this`deleteCharCalls
      ensures resolved && text == []
      ensures deleteCharCalls == old(deleteCharCalls) + |old(text)|
    {
      resolved := Delete(|text|);
    }

    // -------------------------------------------------------------------------
    // The other actions

    method Callback(cb: Actions.CallbackId)
      modifies this`callbacks
      ensures callbacks == old(callbacks) + [cb]
    {
      callbacks := callbacks + [cb];
    }

    method CreateCursorEl()
      modifies this`cursorPresent, this`cursorElColor, this`cursorElClass
      ensures cursorPresent && cursorElColor == options.cursorColor && cursorElClass == options.cursorClass
    {
      cursorPresent := true;
      cursorElColor := options.cursorColor;
      cursorElClass := options.cursorClass;
    }

    /** `removeChild(null)` throws when there is no cursor element. */
    method RemoveCursorEl() returns (ok: bool)
      modifies this`cursorPresent
      ensures ok == old(cursorPresent) && !cursorPresent
    {
      ok := cursorPresent;
      if ok {
        cursorPresent := false;
      }
    }

    method ClearTextAction()
      modifies this`text
      ensures text == []
    {
      ClearText();
    }

    method ChangeOpsAction(patch: Patch)
      modifies this`options
      ensures options == Merge(old(options), patch)
    {
      options := Merge(options, patch);
    }

    method TypeColor(color: string)
      modifies this`textElColor
      ensures textElColor == color
    {
      textElColor := color;
    }

    method TypeClass(className: string)
      modifies this`textElClass
      ensures textElClass == className
    {
      textElClass := className;
    }

    /** Styling a missing cursor element throws, so the action never settles. */
    method CursorColor(color: string) returns (ok: bool)
      modifies this`cursorElColor
      ensures ok == cursorPresent
      ensures cursorElColor == if ok then color else old(cursorElColor)
    {
      ok := cursorPresent;
      if ok {
        cursorElColor := color;
      }
    }

    method CursorClass(className: string) returns (ok: bool)
      modifies this`cursorElClass
      ensures ok == cursorPresent
      ensures cursorElClass == if ok then className else old(cursorElClass)
    {
      ok := cursorPresent;
      if ok {
        cursorElClass := className;
      }
    }

    // -------------------------------------------------------------------------
    // The queue runner

    /**
     * `step(idx)`: runs the action at `idx` as far as it gets, which is what
     * `StepAfter` says, and says whether its promise settles.
     */
    method Step(idx: nat) returns (resolved: bool)
      requires idx < |queue|
      modifies this
      ensures resolved == Resolves(old(queue)[idx], old(cursorPresent))
      ensures State() == StepAfter(old(State()), old(queue)[idx])
      ensures trace == old(trace) + [idx]
    {
      trace := trace + [idx];
      var action := queue[idx];
      if TypesText(action) {
        resolved := RunTypeAction(action);
      } else if DeletesText(action) {
        resolved := RunDeleteAction(action);
      } else if TouchesCursor(action) {
        resolved := RunCursorAction(action);
      } else {
        resolved := RunOtherAction(action);
      }
    }

    /** The arms of `step`'s dispatch that type text: `type` and `unicode` differ only in the unicode flag. */
    method RunTypeAction(action: Actions.Action) returns (resolved: bool)
      requires TypesText(action)
      modifies this`text, this`addCharCalls, this`extraSpaceCount, this`extraNewlineCount,
               this`lengthSinceNewLine, this`appendNewLine, this`currentWordTrueBounds
      ensures resolved == Resolves(action, cursorPresent)
      ensures State() == StepAfter(old(State()), action)
    {
      ghost var s0 := State();
      var isUnicode := action.Unicode?;
      resolved := Add(action.content, isUnicode);
      assert State() == Typed(s0, action.content, isUnicode);
    }

    /** The arms of `step`'s dispatch that delete text. */
    method RunDeleteAction(action: Actions.Action) returns (resolved: bool)
      requires DeletesText(action)
      modifies this`text, this`deleteCharCalls
      ensures resolved == Resolves(action, cursorPresent)
      ensures State() == StepAfter(old(State()), action)
    {
      match action
      case DeleteChars(n) =>
        resolved := Delete(n);
      case Clear =>
        resolved := DeleteAll();
      case ClearText =>
        ClearTextAction();
        resolved := true;
    }

    /** The arms of `step`'s dispatch that create, remove or restyle the cursor. */
    method RunCursorAction(action: Actions.Action) returns (resolved: bool)
      requires TouchesCursor(action)
      modifies this`cursorPresent, this`cursorElColor, this`cursorElClass
      ensures resolved == Resolves(action, old(cursorPresent))
      ensures State() == StepAfter(old(State()), action)
    {
      match action
      case DeleteCursor =>
        resolved := RemoveCursorEl();
      case CreateCursor =>
        CreateCursorEl();
        resolved := true;
      case CursorColor(color) =>
        resolved := CursorColor(color);
      case CursorClass(className) =>
        resolved := CursorClass(className);
    }

    /** The remaining arms: pauses, callbacks, options, and the text element's styling. */
    method RunOtherAction(action: Actions.Action) returns (resolved: bool)
      requires !TypesText(action) && !DeletesText(action) && !TouchesCursor(action)
      modifies this`callbacks, this`options, this`textElColor, this`textElClass
      ensures resolved == Resolves(action, cursorPresent)
      ensures State() == StepAfter(old(State()), action)
    {
      match action
      case Pause(_) =>
        resolved := true;
      case Callback(cb) =>
        Callback(cb);
        resolved := true;
      case ChangeOps(patch) =>
        ChangeOpsAction(patch);
        resolved := true;
      case TypeColor(color) =>
        TypeColor(color);
        resolved := true;
      case TypeClass(className) =>
        TypeClass(className);
        resolved := true;
    }

    /**
     * `start()`: a no-op while running; otherwise it creates the cursor if
     * there is none, sets `running`, deletes all text, and then schedules
     * `loop(0)`, returned as `next`.
     */
    method Start() returns (next: Option<nat>)
      modifies this`running, this`text, this`deleteCharCalls, this`cursorPresent, this`cursorElColor, this`cursorElClass
      ensures next == if old(running) then None else Some(0)
      ensures State() == StartAfter(old(State()))
    {
      if running {
        return None;
      }
      Restart();
      next := Some(0);
    }

    /** The body of `start` past its guard: a cursor element, `running` set, and all text deleted. */
    method Restart()
      requires !running
      modifies this`running, this`text, this`deleteCharCalls, this`cursorPresent, this`cursorElColor, this`cursorElClass
      ensures State() == StartAfter(old(State()))
    {
      ghost var s0 := State();
      if !cursorPresent {
        CreateCursorEl();
      }
      running := true;
      var _ := DeleteAll();
      StartAfterIs(s0, State());
    }    /**
     * `loop(idx)`: at the end of the queue it clears `running`, restarts when
     * `options.loop` is set and fires `onLastChar` (together, `LoopEnd`);
     * otherwise it steps the action at `idx` (whose effect is `StepAfter`)
     * and, once that settles, continues with `idx + 1`.
     */
    method Loop(idx: nat) returns (next: Option<nat>)
      requires idx <= |queue|
      modifies this
      ensures queue == old(queue)
      ensures idx == |queue| ==> State() == LoopEnd(old(State())) && trace == old(trace)
      ensures idx == |queue| ==> next == if options.loop then Some(0) else None
      ensures idx < |queue| ==> State() == StepAfter(old(State()), queue[idx]) && trace == old(trace) + [idx]
      ensures idx < |queue| ==> next == if Resolves(queue[idx], old(cursorPresent)) then Some(idx + 1) else None
    {
      if idx == |queue| {
        running := false;
        if options.loop {
          next := Start();
        } else {
          next := None;
        }
        lastCharCalls := lastCharCalls + 1;
        return;
      }
      var resolved := Step(idx);
      next := if resolved then Some(idx + 1) else None;
    }

    /**
     * One link of the chain `start` sets off: `loop(idx)`, stated as what it
     * leaves of the chain. The chain from the new state, at the index it
     * continues with, is the chain from the old state at `idx`; when it does
     * not continue, the chain from the old state ends in the new state.
     */
    method Continue(idx: nat, ghost fuel: nat, ghost passes: nat) returns (next: Option<nat>)
      requires idx <= |queue| && 0 < fuel
      modifies this
      ensures queue == old(queue)
      ensures idx == |queue| ==> trace == old(trace) && (next.Some? ==> next.value == 0)
      ensures idx < |queue| ==> trace == old(trace) + [idx] && (next.Some? ==> next.value == idx + 1)
      ensures var p := if idx == |queue| then passes + 1 else passes;
        next.Some? ==> Chain(State(), next.value, fuel - 1, p) == Chain(old(State()), idx, fuel, passes)
      ensures var p := if idx == |queue| then passes + 1 else passes;
        next.None? ==>
          ChainEnd(State(), p, if idx == |queue| then 0 else idx + 1, if idx == |queue| then Finished else Stalled) ==
          Chain(old(State()), idx, fuel, passes)
    {
      ghost var before := State();
      next := Loop(idx);
      ChainLink(before, idx, fuel, passes, State(), next);
    }

    /**
     * The promise chain from `loop(0)`, followed for at most `fuel` links:
     * where it comes to rest is `Chain` from the state it starts in, and the
     * actions run strictly in index order, pass after pass.
     */
    method FollowChain(fuel: nat) returns (passes: nat, ghost pos: nat, halt: Halt)
      modifies this
      ensures ChainEnd(State(), passes, pos, halt) == Chain(old(State()), 0, fuel, 0)
      ensures trace == old(trace) + Passes(passes, |queue|) + Indices(pos)
    {
      passes, pos := 0, 0;
      ghost var target := Chain(State(), 0, fuel, 0);
      halt := OutOfFuel;
      var next: Option<nat> := Some(0);
      var f: nat := fuel;
      while f > 0 && next.Some?
        invariant queue == old(queue)
        invariant pos <= |queue|
        invariant next.Some? <==> halt == OutOfFuel
        invariant next.Some? ==> next.value == pos
        invariant trace == old(trace) + Passes(passes, |queue|) + Indices(pos)
        invariant next.Some? ==> Chain(State(), pos, f, passes) == target
        invariant next.None? ==> ChainEnd(State(), passes, pos, halt) == target
      {
        var idx := next.value;
        next := Continue(idx, f, passes);
        TraceStep(old(trace), passes, |queue|, pos);
        if idx == |queue| {
          passes, pos := passes + 1, 0;
        } else {
          pos := pos + 1;
        }
        halt := if next.Some? then OutOfFuel else if idx == |queue| then Finished else Stalled;
        f := f - 1;
      }
      if next.Some? {
        assert Chain(State(), pos, 0, passes) == ChainEnd(State(), passes, pos, OutOfFuel);
      }
    }

    /**
     * `start()` followed by the promise chain it sets off, for at most `fuel`
     * continuations. While running it changes nothing; otherwise the state it
     * comes to rest in, the passes completed, the index reached and the
     * reason for stopping are exactly `Chain` from the state `start` leaves.
     * The actions run strictly in index order, pass after pass, `onLastChar`
     * fires once per completed pass, and the chain comes to rest only when the
     * fuel is spent, when an action does not settle, or when the first pass
     * ends with `loop` off.
     */
    method Drive(fuel: nat) returns (passes: nat, ghost pos: nat, halt: Halt)
      modifies this
      ensures old(running) <==> halt == AlreadyRunning
      ensures halt == AlreadyRunning ==> passes == 0 && pos == 0 && unchanged(this)
      ensures !old(running) ==> ChainEnd(State(), passes, pos, halt) == Chain(StartAfter(old(State())), 0, fuel, 0)
      ensures queue == old(queue)
      ensures pos <= |queue|
      ensures trace == old(trace) + Passes(passes, |queue|) + Indices(pos)
      ensures lastCharCalls == old(lastCharCalls) + passes
      ensures halt != AlreadyRunning ==> passes * (|queue| + 1) + pos <= fuel
      ensures halt == OutOfFuel ==> passes * (|queue| + 1) + pos == fuel && running
      ensures halt == Stalled ==> 0 < pos && !Resolves(queue[pos - 1], cursorPresent) && running
      ensures halt == Finished ==> pos == 0 && passes == 1 && !running && !options.loop
      ensures halt != AlreadyRunning && fuel == 0 ==> running && text == [] && cursorPresent
    {
      ghost var started := StartAfter(State());
      var next := Start();
      if next.None? {
        return 0, 0, AlreadyRunning;
      }
      passes, pos, halt := FollowChain(fuel);
      assert started.queue[..0] == [];
      ChainFacts(started, 0, fuel, 0);
      ChainFinishesInFirstPass(started, 0, fuel, 0, started.options);
    }
  }
}
