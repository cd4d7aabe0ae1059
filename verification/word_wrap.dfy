/**
 * The word-wrap avoidance decision that `add` makes before committing each
 * character (its `newlineToPreventWordWrap` closure), and the per-commit
 * bookkeeping of its `_step` loop, as functions of the state they read and
 * write. The widget's methods are proved to follow these functions.
 */
module WordWrap {
  import JsOps
  import Config

  /** `currentWordTrueBounds`: first and last true index of the word being typed. */
  datatype Bounds = Bounds(startIndex: int, endIndex: int)

  /** Everything the closure and the commit step read or write besides the text. */
  datatype WrapState = WrapState(
    extraSpaceCount: int,
    extraNewlineCount: int,
    lengthSinceNewLine: int,
    appendNewLine: bool,
    currentWordTrueBounds: Bounds)

  /** The closure's verdict (a newline to prepend or not) and the state it leaves. */
  datatype Decision = Decision(prepend: bool, state: WrapState)

  /**
   * One committed unit: the content characters it consumes, with a synthetic
   * newline before it, after it, or neither.
   */
  datatype Commit = Commit(prepend: bool, unit: string, append: bool)

  datatype TickResult = TickResult(commit: Commit, after: WrapState)

  /**
   * The word around position `count`, located with `lastIndexOf` and `indexOf`: it starts
   * after the last space at or before `count` and ends before the next space.
   */
  function WordBounds(content: string, count: int): (b: Bounds)
    requires 0 <= count < |content|
    ensures content[count] != ' ' ==> 0 <= b.startIndex <= count <= b.endIndex < |content|
    ensures content[count] != ' ' ==> forall k :: b.startIndex <= k <= b.endIndex ==> content[k] != ' '
    ensures content[count] != ' ' ==> b.startIndex == 0 || content[b.startIndex - 1] == ' '
    ensures content[count] != ' ' ==> b.endIndex == |content| - 1 || content[b.endIndex + 1] == ' '
  {
    var spaceBefore := JsOps.LastIndexOf(content, ' ', count);
    var wordStart := if spaceBefore >= 0 then spaceBefore + 1 else 0;
    var spaceAfter := JsOps.IndexOf(content, ' ', wordStart);
    var wordEnd := if spaceAfter > 0 then spaceAfter - 1 else |content| - 1;
    Bounds(wordStart, wordEnd)
  }

  /** `trueLength`: the content's length plus the true text length, less the synthetic characters counted so far. */
  function TrueLength(st: WrapState, content: string, initialTextLength: int): (n: int)
    ensures st.extraSpaceCount == 0 && st.extraNewlineCount == 0 ==> n == |content| + initialTextLength
    ensures st.extraSpaceCount >= 0 && st.extraNewlineCount >= 0 ==> n <= |content| + initialTextLength
  {
    |content| + initialTextLength - st.extraSpaceCount - st.extraNewlineCount
  }

  /**
   * The test for a word's last character to end the line: its position on the
   * line (its true position while no newline has been added) is a multiple of
   * the limit.
   */
  predicate WordEndsLine(lengthSinceNewLine: int, trueCount: int, limit: int): (r: bool)
    ensures r <==>
      lengthSinceNewLine >= 0 && limit != 0 &&
      JsOps.Abs(if lengthSinceNewLine == 0 then trueCount else lengthSinceNewLine) % JsOps.Abs(limit) == 0
  {
    || (lengthSinceNewLine == 0 && JsOps.RemIs(trueCount, limit, 0))
    || (lengthSinceNewLine > 0 && JsOps.RemIs(lengthSinceNewLine, limit, 0))
  }

  /**
   * The test for a prepend on a word's first character, which scans the word's
   * positions: its true positions while no synthetic newline has been counted,
   * its positions on the current line after that. A hit is a scanned position
   * with remainder 1.
   */
  function MustPrependNewLine(st: WrapState, b: Bounds, wordLength: int, delta: int, limit: int): (r: bool)
    requires delta > 0
    ensures r ==> limit != 0
    ensures r && st.extraNewlineCount == 0 ==>
      exists x :: b.startIndex <= x <= b.endIndex && JsOps.RemIs(x, limit, 1)
    ensures r && st.extraNewlineCount != 0 ==>
      st.lengthSinceNewLine > 1 &&
      exists x :: st.lengthSinceNewLine <= x <= st.lengthSinceNewLine + wordLength - 1 && JsOps.RemIs(x, limit, 1)
  {
    if st.extraNewlineCount == 0 then
      JsOps.ArrayRangeSome(b.startIndex, b.endIndex, delta, limit)
    else
      st.lengthSinceNewLine > 1 &&
      JsOps.ArrayRangeSome(st.lengthSinceNewLine, st.lengthSinceNewLine + wordLength - 1, delta, limit)
  }

  /**
   * `newlineToPreventWordWrap(content, count)` inside `add`, with the state it
   * captures passed in and handed back: whether to put a newline before the
   * character at `count`, and the updated `appendNewLine`,
   * `extraNewlineCount` and `currentWordTrueBounds`.
   */
  function Wrap(st: WrapState, content: string, count: int, initialTextLength: int, delta: int, limit: int): (d: Decision)
    requires 0 <= count < |content| && delta > 0
    ensures d.state.lengthSinceNewLine == st.lengthSinceNewLine
    ensures d.state.extraSpaceCount == st.extraSpaceCount
    ensures d.state.extraNewlineCount == st.extraNewlineCount || d.state.extraNewlineCount == st.extraNewlineCount + 1
  {
    if TrueLength(st, content, initialTextLength) <= limit then Decision(false, st)
    else
      var trueCount := count + initialTextLength;
      var bounds := st.currentWordTrueBounds;
      if content[count] == ' ' then
        if st.lengthSinceNewLine > 1 && JsOps.RemIs(st.lengthSinceNewLine, limit, 1)
        then Decision(false, st.(appendNewLine := true))
        else Decision(false, st)
      else if trueCount > 0 && trueCount == bounds.endIndex && WordEndsLine(st.lengthSinceNewLine, trueCount, limit) then
        Decision(false, st.(appendNewLine := true, extraNewlineCount := st.extraNewlineCount + 1))
      else if bounds.startIndex < trueCount <= bounds.endIndex then Decision(false, st)
      else WrapNewWord(st, content, count, initialTextLength, delta, limit)
  }

  /**
   * The part of the closure that runs outside the recorded word: it records
   * the bounds of the word around `count` and, on the word's first
   * character, decides whether the word needs a newline before it.
   */
  function WrapNewWord(st: WrapState, content: string, count: int, initialTextLength: int, delta: int, limit: int): (d: Decision)
    requires 0 <= count < |content| && delta > 0
    ensures var w := WordBounds(content, count);
      d.state.currentWordTrueBounds == Bounds(w.startIndex + initialTextLength, w.endIndex + initialTextLength)
    ensures d.prepend ==> WordBounds(content, count).startIndex == count
    ensures d.state.extraNewlineCount == st.extraNewlineCount + (if d.prepend then 1 else 0)
    ensures !d.prepend ==> d.state == st.(currentWordTrueBounds := d.state.currentWordTrueBounds)
  {
    var trueCount := count + initialTextLength;
    var word := WordBounds(content, count);
    var wordLength := word.endIndex - word.startIndex + 1;
    var trueBounds := Bounds(word.startIndex + initialTextLength, word.endIndex + initialTextLength);
    var st1 := st.(currentWordTrueBounds := trueBounds);
    if trueCount != trueBounds.startIndex then Decision(false, st1)
    else if trueCount + wordLength < limit then Decision(false, st1)
    else if MustPrependNewLine(st, trueBounds, wordLength, delta, limit) then
      Decision(true, st1.(extraNewlineCount := st.extraNewlineCount + 1))
    else Decision(false, st1)
  }

  /** The end of one `_step` commit: `lengthSinceNewLine` bookkeeping and `appendNewLine` reset. */
  function Settle(c: Commit, st: WrapState, delta: int): (t: TickResult)
    ensures t.commit == c && !t.after.appendNewLine
    ensures t.after == st.(appendNewLine := false, lengthSinceNewLine := t.after.lengthSinceNewLine)
  {
    var created := c.prepend || c.append;
    var lsn := if created || st.extraNewlineCount == 0 then 0 else st.lengthSinceNewLine;
    TickResult(c, st.(appendNewLine := false,
                      lengthSinceNewLine := if st.extraNewlineCount > 0 then lsn + delta else lsn))
  }

  /**
   * One commit of `add`'s `_step` at content position `count`: the unit of
   * `delta` characters it consumes, the newlines it adds, and the state after.
   */
  function Tick(st: WrapState, o: Config.Options, content: string, count: int, initialTextLength: int, delta: int): (t: TickResult)
    requires 0 <= count && count + delta <= |content| && delta > 0
    ensures t.commit.unit == content[count..count + delta]
    ensures !t.after.appendNewLine
  {
    var unit := content[count..count + delta];
    if o.preventWordWrap then
      var d := Wrap(st, content, count, initialTextLength, delta, o.wordWrapLineLengthLimit);
      Settle(Commit(d.prepend, unit, d.state.appendNewLine), d.state, delta)
    else
      Settle(Commit(false, unit, false), st, delta)
  }

  // ---------------------------------------------------------------------------
  // The decision, case by case

  /** When the whole text fits the limit, nothing is inserted and nothing changes. */
  lemma WrapWhenFits(st: WrapState, content: string, count: int, itl: int, delta: int, limit: int)
    requires 0 <= count < |content| && delta > 0
    requires TrueLength(st, content, itl) <= limit
    ensures Wrap(st, content, count, itl, delta, limit) == Decision(false, st)
  {
  }

  /**
   * A space never gets a newline before it and never changes the synthetic
   * newline count; it asks for one after it exactly when the text does not
   * fit and `lengthSinceNewLine` is above 1 with remainder 1.
   */
  lemma WrapOnSpace(st: WrapState, content: string, count: int, itl: int, delta: int, limit: int)
    requires 0 <= count < |content| && delta > 0
    requires content[count] == ' '
    ensures var d := Wrap(st, content, count, itl, delta, limit);
      && !d.prepend
      && d.state.extraNewlineCount == st.extraNewlineCount
      && d.state.currentWordTrueBounds == st.currentWordTrueBounds
      && (d.state.appendNewLine <==>
            st.appendNewLine ||
            (TrueLength(st, content, itl) > limit && st.lengthSinceNewLine > 1 && JsOps.RemIs(st.lengthSinceNewLine, limit, 1)))
  {
  }

  /** A character strictly inside the current word (not its first) never gets a newline before it. */
  lemma WrapInsideWord(st: WrapState, content: string, count: int, itl: int, delta: int, limit: int)
    requires 0 <= count < |content| && delta > 0
    requires st.currentWordTrueBounds.startIndex < count + itl <= st.currentWordTrueBounds.endIndex
    ensures !Wrap(st, content, count, itl, delta, limit).prepend
  {
  }

  /**
   * A newline is prepended only to the first character of a word (a
   * non-space at the start of the content or after a space), only when the
   * text does not fit, and only when the word does not fit before the limit;
   * the word's true bounds are then the ones recorded.
   */
  lemma WrapPrependsAtWordStart(st: WrapState, content: string, count: int, itl: int, delta: int, limit: int)
    requires 0 <= count < |content| && delta > 0
    requires Wrap(st, content, count, itl, delta, limit).prepend
    ensures content[count] != ' '
    ensures count == 0 || content[count - 1] == ' '
    ensures TrueLength(st, content, itl) > limit
    ensures var w := WordBounds(content, count);
      && w.startIndex == count
      && count + itl + (w.endIndex - w.startIndex + 1) >= limit
      && Wrap(st, content, count, itl, delta, limit).state.currentWordTrueBounds == Bounds(w.startIndex + itl, w.endIndex + itl)
  {
  }

  /**
   * A prepended newline needs a scanned position with remainder 1: a true
   * position of the word while no synthetic newline has been counted, a
   * position on the current line (above 1) after that.
   */
  lemma WrapPrependNeedsBoundary(st: WrapState, content: string, count: int, itl: int, delta: int, limit: int)
    requires 0 <= count < |content| && delta > 0
    requires Wrap(st, content, count, itl, delta, limit).prepend
    ensures limit != 0
    ensures var w := WordBounds(content, count);
      st.extraNewlineCount == 0 ==>
        exists x :: w.startIndex + itl <= x <= w.endIndex + itl && JsOps.RemIs(x, limit, 1)
    ensures var w := WordBounds(content, count);
      st.extraNewlineCount != 0 ==>
        st.lengthSinceNewLine > 1 &&
        exists x :: st.lengthSinceNewLine <= x <= st.lengthSinceNewLine + (w.endIndex - w.startIndex) && JsOps.RemIs(x, limit, 1)
  {
    var w := WordBounds(content, count);
    var b := Bounds(w.startIndex + itl, w.endIndex + itl);
    assert MustPrependNewLine(st, b, w.endIndex - w.startIndex + 1, delta, limit);
  }

  /**
   * The closure never touches `lengthSinceNewLine` or `extraSpaceCount`, and
   * it changes `extraNewlineCount` only by adding one, exactly for a prepend
   * or a word-end append; the space-triggered append is not counted.
   */
  lemma WrapNewlineAccounting(st: WrapState, content: string, count: int, itl: int, delta: int, limit: int)
    requires 0 <= count < |content| && delta > 0
    requires !st.appendNewLine
    ensures var d := Wrap(st, content, count, itl, delta, limit);
      && d.state.lengthSinceNewLine == st.lengthSinceNewLine
      && d.state.extraSpaceCount == st.extraSpaceCount
      && d.state.extraNewlineCount ==
           st.extraNewlineCount + (if d.prepend || (d.state.appendNewLine && content[count] != ' ') then 1 else 0)
  {
  }

  /** A newline before and a newline after the same character never coincide. */
  lemma WrapNeverBoth(st: WrapState, content: string, count: int, itl: int, delta: int, limit: int)
    requires 0 <= count < |content| && delta > 0
    requires !st.appendNewLine
    ensures var d := Wrap(st, content, count, itl, delta, limit); !(d.prepend && d.state.appendNewLine)
  {
  }

  // ---------------------------------------------------------------------------
  // One commit

  /** Whether a commit's unit starts with a space (the test the closure applies). */
  predicate SpaceUnit(c: Commit) {
    |c.unit| > 0 && c.unit[0] == ' '
  }

  /** The synthetic newlines a commit adds to `extraNewlineCount`. */
  function CountedNewlines(c: Commit): nat {
    if c.prepend || (c.append && !SpaceUnit(c)) then 1 else 0
  }

  /**
   * What one commit does to the wrap state: no commit carries newlines on both
   * sides, the newline count grows by the counted newlines only, and with
   * word-wrap prevention off the unit is committed bare.
   */
  lemma TickAccounting(st: WrapState, o: Config.Options, content: string, count: int, itl: int, delta: int)
    requires 0 <= count && count + delta <= |content| && delta > 0
    requires !st.appendNewLine
    ensures var t := Tick(st, o, content, count, itl, delta);
      && !(t.commit.prepend && t.commit.append)
      && t.after.extraNewlineCount == st.extraNewlineCount + CountedNewlines(t.commit)
      && t.after.extraSpaceCount == st.extraSpaceCount
      && (!o.preventWordWrap ==> !t.commit.prepend && !t.commit.append)
  {
    if o.preventWordWrap {
      WrapNewlineAccounting(st, content, count, itl, delta, o.wordWrapLineLengthLimit);
      WrapNeverBoth(st, content, count, itl, delta, o.wordWrapLineLengthLimit);
    }
  }

  /**
   * `lengthSinceNewLine` after a commit: 0 while no synthetic newline is
   * counted; `delta` right after a commit that put a newline in; otherwise
   * its old value plus `delta`.
   */
  lemma TickLengthSinceNewLine(st: WrapState, o: Config.Options, content: string, count: int, itl: int, delta: int)
    requires 0 <= count && count + delta <= |content| && delta > 0
    ensures var t := Tick(st, o, content, count, itl, delta);
      && (t.after.extraNewlineCount == 0 ==> t.after.lengthSinceNewLine == 0)
      && (t.after.extraNewlineCount > 0 && (t.commit.prepend || t.commit.append) ==> t.after.lengthSinceNewLine == delta)
      && (t.after.extraNewlineCount > 0 && !t.commit.prepend && !t.commit.append ==>
            t.after.lengthSinceNewLine == st.lengthSinceNewLine + delta)
  {
  }

  // ---------------------------------------------------------------------------
  // A run of commits

  /** The characters a commit appends to the text. */
  function Render(c: Commit): string {
    (if c.prepend then "\n" else "") + c.unit + (if c.append then "\n" else "")
  }

  /** The characters a run of commits appends to the text. */
  function Rendered(log: seq<Commit>): string {
    if log == [] then [] else Rendered(log[..|log| - 1]) + Render(log[|log| - 1])
  }

  /** The content characters a run of commits consumes. */
  function Units(log: seq<Commit>): string {
    if log == [] then [] else Units(log[..|log| - 1]) + log[|log| - 1].unit
  }

  /** The synthetic newlines in a run of commits. */
  function Inserted(log: seq<Commit>): nat {
    if log == [] then 0
    else Inserted(log[..|log| - 1]) + (if log[|log| - 1].prepend then 1 else 0) + (if log[|log| - 1].append then 1 else 0)
  }

  /** The synthetic newlines of a run that `extraNewlineCount` counts. */
  function Counted(log: seq<Commit>): nat {
    if log == [] then 0 else Counted(log[..|log| - 1]) + CountedNewlines(log[|log| - 1])
  }

  predicate Plain(log: seq<Commit>) {
    forall i :: 0 <= i < |log| ==> !log[i].prepend && !log[i].append
  }

  predicate NeverBoth(log: seq<Commit>) {
    forall i :: 0 <= i < |log| ==> !(log[i].prepend && log[i].append)
  }

  /** Extending a run by one commit extends what it renders, consumes and counts. */
  lemma AppendCommit(log: seq<Commit>, c: Commit)
    ensures Rendered(log + [c]) == Rendered(log) + Render(c)
    ensures Units(log + [c]) == Units(log) + c.unit
    ensures Counted(log + [c]) == Counted(log) + CountedNewlines(c)
    ensures Inserted(log + [c]) == Inserted(log) + (if c.prepend then 1 else 0) + (if c.append then 1 else 0)
  {
    assert (log + [c])[..|log|] == log;
  }

  /** Without synthetic newlines the text grows by exactly the content characters. */
  lemma {:induction false} RenderedPlain(log: seq<Commit>)
    requires Plain(log)
    ensures Rendered(log) == Units(log)
    decreases |log|
  {
    if log != [] {
      RenderedPlain(log[..|log| - 1]);
    }
  }

  /** The text grows by the content characters plus the synthetic newlines. */
  lemma {:induction false} RenderedLength(log: seq<Commit>)
    ensures |Rendered(log)| == |Units(log)| + Inserted(log)
    decreases |log|
  {
    if log != [] {
      RenderedLength(log[..|log| - 1]);
    }
  }

  /** The same run with its synthetic newlines taken out. */
  function Erased(log: seq<Commit>): (r: seq<Commit>)
    ensures |r| == |log|
    ensures Plain(r)
  {
    if log == [] then [] else Erased(log[..|log| - 1]) + [Commit(false, log[|log| - 1].unit, false)]
  }

  /**
   * Removing the synthetic newlines from what a run appended leaves exactly
   * the content characters it consumed, in order.
   */
  lemma {:induction false} ErasedRendersUnits(log: seq<Commit>)
    ensures Rendered(Erased(log)) == Units(log)
    decreases |log|
  {
    if log != [] {
      var init := log[..|log| - 1];
      var e := Erased(log);
      ErasedRendersUnits(init);
      assert e[..|e| - 1] == Erased(init);
      assert Render(e[|e| - 1]) == log[|log| - 1].unit;
    }
  }

  /** With never both sides at once, there is at most one synthetic newline per commit. */
  lemma {:induction false} InsertedAtMostOnePerCommit(log: seq<Commit>)
    requires NeverBoth(log)
    ensures Inserted(log) <= |log|
    decreases |log|
  {
    if log != [] {
      InsertedAtMostOnePerCommit(log[..|log| - 1]);
    }
  }

  /**
   * `extraNewlineCount` never counts more newlines than were inserted, so the
   * true length the next `add` starts from (`text.length` less that count) is
   * at least the number of content characters committed; it exceeds it by the
   * space-triggered newlines, which are not counted.
   */
  lemma {:induction false} CountedAtMostInserted(log: seq<Commit>)
    ensures Counted(log) <= Inserted(log)
    ensures |Rendered(log)| - Counted(log) >= |Units(log)|
    decreases |log|
  {
    RenderedLength(log);
    if log != [] {
      CountedAtMostInserted(log[..|log| - 1]);
    }
  }

  // ---------------------------------------------------------------------------
  // The whole commit loop of one `add`

  /** The commits a run made and the wrap state it leaves. */
  datatype RunResult = RunResult(log: seq<Commit>, after: WrapState)

  /** The content position after `n` commits of `delta` characters. */
  function Offset(n: nat, delta: int): nat
    requires delta == 1 || delta == 2
  {
    if delta == 2 then 2 * n else n
  }

  /**
   * The first `n` commits of `add`'s `_step` loop from wrap state `st`: `Tick`
   * applied at positions `0, delta, 2 * delta, ...`, each from the state the
   * previous one left.
   */
  function Run(st: WrapState, o: Config.Options, content: string, itl: int, delta: int, n: nat): (r: RunResult)
    requires delta == 1 || delta == 2
    requires Offset(n, delta) <= |content|
    ensures |r.log| == n
    decreases n, 1
  {
    if n == 0 then RunResult([], st) else RunOneMore(st, o, content, itl, delta, n)
  }

  /**
   * The run of `n > 0` commits: the run of `n - 1` followed by one `Tick`.
   * Kept apart from `Run` so that a proof sees the last commit's `Tick` only
   * where it asks for it (through `RunLast`).
   */
  function RunOneMore(st: WrapState, o: Config.Options, content: string, itl: int, delta: int, n: nat): (r: RunResult)
    requires delta == 1 || delta == 2
    requires 0 < n && Offset(n, delta) <= |content|
    ensures |r.log| == n
    decreases n, 0
  {
    var prev := Run(st, o, content, itl, delta, n - 1);
    var t := Tick(prev.after, o, content, Offset(n - 1, delta), itl, delta);
    RunResult(prev.log + [t.commit], t.after)
  }

  /** A run that has made `|log|` commits, extended by the next one. */
  lemma RunExtend(st: WrapState, o: Config.Options, content: string, itl: int, delta: int,
                  log: seq<Commit>, w: WrapState, c: Commit, w2: WrapState)
    requires delta == 1 || delta == 2
    requires Offset(|log| + 1, delta) <= |content|
    requires Run(st, o, content, itl, delta, |log|) == RunResult(log, w)
    requires Tick(w, o, content, Offset(|log|, delta), itl, delta) == TickResult(c, w2)
    ensures Run(st, o, content, itl, delta, |log| + 1) == RunResult(log + [c], w2)
  {
    RunLast(st, o, content, itl, delta, |log| + 1);
  }

  /** One more commit of a run is the `Tick` from the state the shorter run left. */
  lemma RunLast(st: WrapState, o: Config.Options, content: string, itl: int, delta: int, n: nat)
    requires delta == 1 || delta == 2
    requires 0 < n && Offset(n, delta) <= |content|
    ensures var prev := Run(st, o, content, itl, delta, n - 1);
      var t := Tick(prev.after, o, content, Offset(n - 1, delta), itl, delta);
      Run(st, o, content, itl, delta, n) == RunResult(prev.log + [t.commit], t.after)
  {
    assert Run(st, o, content, itl, delta, n) == RunOneMore(st, o, content, itl, delta, n);
  }

  /** A run that has the run-level facts keeps them for one more commit. */
  lemma RunStep(st: WrapState, o: Config.Options, content: string, itl: int, delta: int, n: nat)
    requires delta == 1 || delta == 2
    requires 0 < n && Offset(n, delta) <= |content|
    requires !Run(st, o, content, itl, delta, n - 1).after.appendNewLine
    requires RunLogged(Run(st, o, content, itl, delta, n - 1).log, content, Offset(n - 1, delta), o.preventWordWrap)
    ensures RunLogged(Run(st, o, content, itl, delta, n).log, content, Offset(n, delta), o.preventWordWrap)
  {
    var prev := Run(st, o, content, itl, delta, n - 1);
    var t := Tick(prev.after, o, content, Offset(n - 1, delta), itl, delta);
    TickAccounting(prev.after, o, content, Offset(n - 1, delta), itl, delta);
    RunLast(st, o, content, itl, delta, n);
    ExtendLog(prev.log, t.commit, content, Offset(n - 1, delta), Offset(n, delta), o.preventWordWrap);
  }

  /**
   * The wrap counters after a run: `extraNewlineCount` grows by exactly the
   * run's counted newlines, `extraSpaceCount` is untouched, and no append is
   * left pending.
   */
  lemma {:induction false} RunCounters(st: WrapState, o: Config.Options, content: string, itl: int, delta: int, n: nat)
    requires delta == 1 || delta == 2
    requires Offset(n, delta) <= |content|
    requires !st.appendNewLine
    ensures var r := Run(st, o, content, itl, delta, n);
      && r.after.extraNewlineCount == st.extraNewlineCount + Counted(r.log)
      && r.after.extraSpaceCount == st.extraSpaceCount
      && !r.after.appendNewLine
    decreases n
  {
    if n > 0 {
      RunCounters(st, o, content, itl, delta, n - 1);
      CountersStep(st, o, content, itl, delta, n);
    }
  }

  /** The counter facts of `RunCounters` carried over one more commit. */
  lemma CountersStep(st: WrapState, o: Config.Options, content: string, itl: int, delta: int, n: nat)
    requires delta == 1 || delta == 2
    requires 0 < n && Offset(n, delta) <= |content|
    requires var prev := Run(st, o, content, itl, delta, n - 1);
      && prev.after.extraNewlineCount == st.extraNewlineCount + Counted(prev.log)
      && prev.after.extraSpaceCount == st.extraSpaceCount
      && !prev.after.appendNewLine
    ensures var r := Run(st, o, content, itl, delta, n);
      && r.after.extraNewlineCount == st.extraNewlineCount + Counted(r.log)
      && r.after.extraSpaceCount == st.extraSpaceCount
      && !r.after.appendNewLine
  {
    var prev := Run(st, o, content, itl, delta, n - 1);
    var t := Tick(prev.after, o, content, Offset(n - 1, delta), itl, delta);
    TickAccounting(prev.after, o, content, Offset(n - 1, delta), itl, delta);
    RunLast(st, o, content, itl, delta, n);
    AppendCommit(prev.log, t.commit);
  }

  /**
   * What a run of `n` commits appends: it consumes `content[..Offset(n, delta)]`
   * in order, never puts newlines on both sides of one unit, and puts none in
   * with word-wrap prevention off.
   */
  lemma {:induction false} RunAccounting(st: WrapState, o: Config.Options, content: string, itl: int, delta: int, n: nat)
    requires delta == 1 || delta == 2
    requires Offset(n, delta) <= |content|
    requires !st.appendNewLine
    ensures RunLogged(Run(st, o, content, itl, delta, n).log, content, Offset(n, delta), o.preventWordWrap)
    decreases n
  {
    if n > 0 {
      RunAccounting(st, o, content, itl, delta, n - 1);
      RunCounters(st, o, content, itl, delta, n - 1);
      RunStep(st, o, content, itl, delta, n);
    }
  }

  /**
   * A log of commits that consumed `content[..count]` in order, never with
   * newlines on both sides of one unit, and with none at all when `wrap` is off.
   */
  predicate RunLogged(log: seq<Commit>, content: string, count: nat, wrap: bool) {
    count <= |content| && Units(log) == content[..count] && NeverBoth(log) && (!wrap ==> Plain(log))
  }

  /** The run-level facts survive one more commit that has them itself. */
  lemma ExtendLog(log: seq<Commit>, c: Commit, content: string, at: nat, next: nat, wrap: bool)
    requires at <= next <= |content|
    requires RunLogged(log, content, at, wrap)
    requires c.unit == content[at..next] && !(c.prepend && c.append)
    requires !wrap ==> !c.prepend && !c.append
    ensures RunLogged(log + [c], content, next, wrap)
  {
    AppendCommit(log, c);
    assert content[..next] == content[..at] + c.unit;
  }
}
