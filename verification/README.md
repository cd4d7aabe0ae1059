# Typewriter state machine in Dafny

This project models the non-UI core of the `Typewriter` widget in
`src/t-writer.js`:

- **The chainable queuing API.** `type`, `typeUnicode`, `strings`, `remove`, `clear`, `rest`, `changeOps`, `then`, the cursor and styling setters, and the immediate `clearText` / `clearQueue`.
- **The character steppers.**
  - `add` (with its `newlineToPreventWordWrap` closure and its `_step` commit loop);
  - `delete` / `deleteAll`;
  - the `addChar` / `deleteChar` helpers.
- **The queue runner.** `start`, `step` and `loop`, with the promise chain that connects them.

The widget is a Dafny `class` (`Writer.Typewriter`) whose fields are the
object's own: `text`, `queue`, the counters `extraSpaceCount`,
`extraNewlineCount` and `lengthSinceNewLine`, and `running` and `options`. Two
more fields hold the variables the `add` closures capture, `appendNewLine`
and `currentWordTrueBounds`.

The model records the DOM as the last colour or class applied, plus whether a
cursor element exists. It does not store the foreign callbacks; it counts how
often they are invoked.

Every timer tick is taken to commit, so `add` and `delete` are loops that run
to completion. A promise that never resolves is reported as
`resolved == false`, and the chain of `loop` continuations stops there. Three cases do that:
- an odd-length unicode string;
- a negative delete count;
- a cursor action with no cursor element: the executor throws, so the promise is rejected instead of resolved.

The word-wrap closure and one `_step` commit are also pure functions in
`WordWrap`: `Wrap`, `WrapNewWord`, `Settle` and `Tick`. The imperative
methods are proved to compute exactly those functions. The properties of the
decision are then proved about the functions.

The JavaScript built-ins the closure relies on are modelled with their
JavaScript semantics in `JsOps`:
- `%`, which truncates toward zero, and gives NaN for a zero divisor;
- `lastIndexOf` and `indexOf` with a start position;
- the local `arrayRange` helper, whose length `Array.from` truncates, followed by `.some`.

Four behaviours of the code worth noting:
- A space that triggers an append does **not** increment `extraNewlineCount` (lines 300-304). Only a prepend or a word-end append is counted.
- `lengthSinceNewLine` is reset only by a synthetic newline, or while no synthetic newline has been counted (line 407). A `\n` inside the typed content does not reset it.
- The "fits" test of the closure under-counts. `trueLength` (line 292) subtracts `extraSpaceCount` and `extraNewlineCount` from a sum that already contains `initialTextLength`, from which `add` subtracted them once (line 280). It also subtracts the newlines inserted during the current `add`, which the sum never counted. `WordWrap.TrueLength` keeps that arithmetic.
- Nothing guarantees that every line stays within the limit, so no such property is claimed. The per-step facts are proved instead.

The queue runner is modelled twice. `Writer.StepAfter`, `Writer.LoopEnd` and
`Writer.StartAfter` say what one `step`, the end-of-queue branch of `loop`
and `start` do to the whole state as a value. `Writer.Chain` follows the
chain of `loop` continuations on those values. The methods `Step`, `Loop`,
`Start` and `Drive` are proved to end in exactly the states these functions
give.

One consequence for `strings`: each block types a string and then deletes as
many characters as the string has. With word-wrap prevention off, that
restores the text. With it on, the block leaves one character behind for each
synthetic newline the typing inserted, because the deletion count ignores them.
For example, with a limit of 3, typing `"ab cd"` renders `"ab \ncd"`; deleting
5 characters then leaves `"a"`. `Writer.StringsBlockResidue` states the
residue exactly.

## Model

| member | source | states |
|---|---|---|
| JsOps.Rem | src/t-writer.js:309-310 | JavaScript `%`: the magnitude is the remainder of the magnitudes, the sign follows the dividend, and the result is smaller in magnitude than the divisor |
| JsOps.LastIndexOf | src/t-writer.js:326 | the greatest index at or before `from` that holds the character, or -1; no later index up to `from` holds it |
| JsOps.IndexOf | src/t-writer.js:332 | the least index at or after `from` that holds the character, or -1; no earlier index from `from` on holds it |
| JsOps.ArrayRangeLength | src/t-writer.js:352-356 | the truncated `Array.from` length is exactly the number of elements `lo, lo+delta, ...` not exceeding `hi` |
| JsOps.AnyRemOne | src/t-writer.js:360-361 | the `.some` scan is true iff one of the first `n` range elements has JavaScript remainder 1 |
| JsOps.ArrayRangeSome | src/t-writer.js:352-369 | `arrayRange(lo, hi, delta).some(x => x % limit === 1)` holds iff some listed element has remainder 1; a hit is a number in `[lo, hi]` with remainder 1 |
| Config.Defaults | src/t-writer.js:1-28 | the default options pass the construction check, and turning on `preventWordWrap` alone (the default limit is 0) fails it |
| Config.Merge | src/t-writer.js:480-485 | `Object.assign` with the empty object `{}` leaves the options unchanged |
| Config.MergeIdempotent | src/t-writer.js:480-485 | applying the same partial options twice equals applying them once |
| Config.MergeSequential | src/t-writer.js:480-485 | two `changeOps` merges equal one merge of their overlay, later keys winning |
| Config.MergeWrapKeys | src/t-writer.js:480-485 | a supplied key is set to exactly its value; an unsupplied key keeps the old value (wrap flag, line limit, loop) |
| Config.DefaultsRejection | src/t-writer.js:89-92 | with the defaults, construction is rejected iff the caller enables `preventWordWrap` with a limit below 1 (or none) |
| Actions.StringsTypedInOrder | src/t-writer.js:116-139 | the `type` actions `strings` queues carry exactly the given strings, in order, each once |
| Actions.StringsPatternShape | src/t-writer.js:116-139 | `strings` queues `B` actions per string less one (`B` is 3 with a non-zero interval, else 2); block `i` is `type(arr[i])`, then `pause(interval)` when the interval is non-zero, then (except for the last string) `deleteChars` of exactly that string's length |
| Actions.FullBlocksShape | src/t-writer.js:117-136 | every string that is not the last gets a full block of `B` actions at offset `i * B`, ending with the deletion of its length |
| WordWrap.TrueLength | src/t-writer.js:292 | with no synthetic characters counted, the true length is the content length plus the initial text length; counted characters only lower it |
| WordWrap.WordEndsLine | src/t-writer.js:307-316 | a word's last character ends the line exactly when its position on the line (its true position while no newline has been added) is a multiple of the limit, which must be non-zero |
| WordWrap.MustPrependNewLine | src/t-writer.js:358-375 | a hit needs a non-zero limit and a scanned position with remainder 1: within the word's true bounds while no newline is counted, within the word's span on the current line (with `lengthSinceNewLine > 1`) after that |
| WordWrap.Wrap | src/t-writer.js:291-381 | the closure never changes `lengthSinceNewLine` or `extraSpaceCount`, and adds at most one to `extraNewlineCount` |
| WordWrap.WrapNewWord | src/t-writer.js:326-380 | the word's true bounds are recorded; a prepend happens only on the word's first character and is counted; without a prepend only the bounds change |
| WordWrap.Settle | src/t-writer.js:406-410 | the end of a commit clears `appendNewLine` and changes nothing but it and `lengthSinceNewLine` |
| WordWrap.WordBounds | src/t-writer.js:326-338 | for a non-space at `count`, the bounds are the maximal run of non-spaces around `count` |
| WordWrap.Tick | src/t-writer.js:385-411 | one commit consumes `content[count..count+delta]` and leaves `appendNewLine` false |
| WordWrap.WrapWhenFits | src/t-writer.js:292-295 | when the true length fits the limit, nothing is inserted and no state changes |
| WordWrap.WrapOnSpace | src/t-writer.js:300-304 | a space is never prepended to and never changes `extraNewlineCount`; it requests an append iff the text does not fit and `lengthSinceNewLine > 1` with remainder 1 |
| WordWrap.WrapInsideWord | src/t-writer.js:318-324 | a character strictly inside the recorded word never gets a prepended newline |
| WordWrap.WrapPrependsAtWordStart | src/t-writer.js:345-366 | a prepend happens only on a word's first character, only when the text does not fit, and only when the word does not fit before the limit; the word's true bounds are recorded |
| WordWrap.WrapPrependNeedsBoundary | src/t-writer.js:358-374 | a prepend needs a non-zero limit and a position with remainder 1: one of the word's true positions while no newline is counted, or (with `lengthSinceNewLine > 1`) one of the positions from `lengthSinceNewLine` to the word's end on the current line after that |
| WordWrap.WrapNewlineAccounting | src/t-writer.js:300-374 | the closure leaves `lengthSinceNewLine` and `extraSpaceCount` alone; it adds one to `extraNewlineCount` exactly for a prepend or a word-end append, never for a space-triggered append |
| WordWrap.WrapNeverBoth | src/t-writer.js:291-381 | a newline before and a newline after the same character never coincide |
| WordWrap.TickAccounting | src/t-writer.js:394-410 | no commit has newlines on both sides; `extraNewlineCount` grows by the counted newlines only; with wrapping off the unit is committed bare |
| WordWrap.TickLengthSinceNewLine | src/t-writer.js:407-410 | after a commit `lengthSinceNewLine` is 0 while no newline is counted; it is `delta` after a commit that inserted a newline, and otherwise grows by `delta` |
| WordWrap.Erased | src/t-writer.js:396-400 | a run with its synthetic newlines removed has the same length and no newlines |
| WordWrap.ErasedRendersUnits | src/t-writer.js:396-400 | removing the synthetic newlines from what a run appended gives back exactly the content characters consumed |
| WordWrap.RenderedPlain | src/t-writer.js:402-404 | without synthetic newlines the appended text is exactly the consumed characters |
| WordWrap.RenderedLength | src/t-writer.js:396-400 | the appended length is the consumed length plus the synthetic newlines |
| WordWrap.InsertedAtMostOnePerCommit | src/t-writer.js:396-401 | with never both sides, there is at most one synthetic newline per commit |
| WordWrap.CountedAtMostInserted | src/t-writer.js:279-280 | `extraNewlineCount` never counts more than were inserted, so the next `initialTextLength` is at least the characters committed |
| WordWrap.Run | src/t-writer.js:383-416 | a run of `n` commits logs exactly `n` commits |
| WordWrap.RunExtend | src/t-writer.js:383-416 | one more commit from where a run ended extends its log by that commit |
| WordWrap.RunCounters | src/t-writer.js:279-280 | over a run, `extraNewlineCount` grows by exactly the counted newlines, `extraSpaceCount` is untouched and no append is left pending |
| WordWrap.RunAccounting | src/t-writer.js:383-416 | a run of `n` commits consumes `content[..n * delta]` in order, never puts newlines on both sides of a unit, and puts none in with wrapping off |
| Writer.DropLast | src/t-writer.js:518 | `slice(0, -1)`: the text without its last character; empty stays empty |
| Writer.Truncate | src/t-writer.js:419-440 | deleting `n` characters from the tail leaves the prefix of length `max(0, length - n)` |
| Writer.TruncateStep | src/t-writer.js:431-433 | one more deletion drops exactly one more character |
| Writer.TypeThenDelete | src/t-writer.js:132-135 | with word-wrap prevention off, typing `s` appends `s` bare, and deleting as many characters as `s` has then restores the text |
| Writer.TypeThenDeleteRun | src/t-writer.js:132-135 | deleting as many characters as a run consumed leaves the old text plus the first `Inserted` characters the run appended; a run without synthetic newlines restores the text |
| Writer.Resolves | src/t-writer.js:557-603 | only `unicode`, `deleteChars` and the three cursor actions that need a cursor element can fail to settle; with a cursor element only `unicode` and `deleteChars` can |
| Writer.AddRun | src/t-writer.js:274-417 | `add` makes one commit per character, or one per pair in unicode mode |
| Writer.AddRunFacts | src/t-writer.js:274-417 | a whole `add` consumes the content in order (all but a trailing odd character in unicode mode), never puts newlines on both sides of a unit, appends the content itself with wrapping off, and counts exactly its counted newlines |
| Writer.StartAfter | src/t-writer.js:261-270 | `start` changes nothing while running; otherwise only `running`, the text, `onDeleteChar`'s count and the cursor element, which it creates only when there is none |
| Writer.LoopEnd | src/t-writer.js:606-612 | the end of the queue clears `running`, restarts exactly when `loop` is set, fires `onLastChar` once, and keeps the queue and options |
| Writer.Chain | src/t-writer.js:605-618 | the chain of `loop` links keeps the queue, never ends as already running, and only counts passes up |
| Writer.ChainLink | src/t-writer.js:605-618 | one `loop` link, a step or a pass end, hands the rest of the chain to the state it leads to |
| Writer.ChainFacts | src/t-writer.js:605-618 | from a running state, `onLastChar` fires once per pass; the links used are bounded by the fuel and use it up when the chain is still going; a stalled chain stopped just after an action that does not settle; a finished one stopped at the end of the queue with `loop` off; only a finished chain stops running |
| Writer.ChainFinishesInFirstPass | src/t-writer.js:605-618 | passes repeat the queue's `changeOps` patches, so a pass that ends with `loop` set makes every later pass end with it set: the chain can finish only in its first pass |
| Writer.StepAfter | src/t-writer.js:557-603 | no action changes the queue, `running` or `onLastChar`; an action that never settles leaves the elements alone |
| Writer.StringsBlockResidue | src/t-writer.js:116-139 | one `strings` block (type, pause, delete its length) leaves the old text plus one residue character per synthetic newline; with wrapping off it restores the text |
| Writer.PassesAt | src/t-writer.js:605-618 | over `p` passes of a `q`-action queue, the `k`-th action run in pass `i` is the one at index `k` |
| Writer.Typewriter.constructor | src/t-writer.js:81-89 | the options are the defaults merged with the caller's; the text, queue and counters start empty or zero |
| Writer.Typewriter.Create | src/t-writer.js:81-95 | construction fails iff `preventWordWrap` is on with a limit below 1; otherwise the text element carries the configured class and colour |
| Writer.Typewriter.CreateTextEl | src/t-writer.js:656-670 | the text element gets `typeClass` and `typeColor` |
| Writer.Typewriter.Type | src/t-writer.js:99-106 | appends exactly `type(str)` to the queue |
| Writer.Typewriter.TypeUnicode | src/t-writer.js:109-114 | appends exactly `unicode(str)` to the queue |
| Writer.Typewriter.Strings | src/t-writer.js:116-139 | appends exactly the `strings` pattern, whose shape and order the lemmas above state |
| Writer.Typewriter.Remove | src/t-writer.js:141-148 | appends exactly `deleteChars(num)` |
| Writer.Typewriter.Clear | src/t-writer.js:150-156 | appends exactly `clear` |
| Writer.Typewriter.ClearText | src/t-writer.js:158-163 | empties the text immediately |
| Writer.Typewriter.QueueClearText | src/t-writer.js:165-171 | appends exactly `clearText` |
| Writer.Typewriter.ClearQueue | src/t-writer.js:173-175 | empties the queue and the text |
| Writer.Typewriter.Rest | src/t-writer.js:181-188 | appends exactly `pause(time)` |
| Writer.Typewriter.ChangeOps | src/t-writer.js:190-198 | appends exactly `changeOps(options)` |
| Writer.Typewriter.Then | src/t-writer.js:200-207 | appends exactly `callback(cb)` |
| Writer.Typewriter.RemoveCursor | src/t-writer.js:209-215 | appends exactly `deleteCursor` |
| Writer.Typewriter.AddCursor | src/t-writer.js:217-223 | appends exactly `createCursor` |
| Writer.Typewriter.ChangeTypeColor | src/t-writer.js:225-232 | appends exactly `typeColor(color)` |
| Writer.Typewriter.ChangeCursorColor | src/t-writer.js:234-241 | appends exactly `cursorColor(color)` |
| Writer.Typewriter.ChangeTypeClass | src/t-writer.js:243-250 | appends exactly `typeClass(className)` |
| Writer.Typewriter.ChangeCursorClass | src/t-writer.js:252-259 | appends exactly `cursorClass(className)` |
| Writer.Typewriter.AddChar | src/t-writer.js:523-527 | appends the string to the text and fires `onAddChar` once |
| Writer.Typewriter.DeleteChar | src/t-writer.js:517-521 | drops the last character (a no-op on empty text) and fires `onDeleteChar` once |
| Writer.Typewriter.NewlineToPreventWordWrap | src/t-writer.js:291-324 | the closure's verdict and the state it leaves are exactly `Wrap` of the old state |
| Writer.Typewriter.CheckNewWord | src/t-writer.js:326-349 | recording the word's bounds and deciding on its first character is exactly `WrapNewWord` |
| Writer.Typewriter.PrependAtWordStart | src/t-writer.js:358-379 | prepends exactly when the scan finds a position with remainder 1, and counts that newline |
| Writer.Typewriter.FinishTick | src/t-writer.js:396-410 | appends the unit with the chosen newlines; the counters end as `Settle` says |
| Writer.Typewriter.CommitTick | src/t-writer.js:385-411 | one `_step` commit equals `Tick`; the text grows by the rendered commit; at most one synthetic newline; `extraNewlineCount` grows by the counted newlines |
| Writer.Typewriter.CommitAll | src/t-writer.js:383-416 | the commit loop runs while a whole unit remains; its commits and the wrap state they leave are exactly `Run` from the starting state; the text grows by the rendered run; `onAddChar` fires once per commit |
| Writer.Typewriter.ResetForAdd | src/t-writer.js:274-285 | `add`'s start: both counters are zeroed on empty text, no append is pending, the word bounds are reset, and `initialTextLength` discounts the counted synthetic characters |
| Writer.Typewriter.Add | src/t-writer.js:274-417 | settles iff not unicode or of even length; the text grows by the rendering of `AddRun`, the wrap state becomes its final state, and `onAddChar` fires once per commit (so the facts of `AddRunFacts` hold of the new text) |
| Writer.Typewriter.Delete | src/t-writer.js:419-440 | settles iff the count is non-negative; the text is then truncated by that count, with `onDeleteChar` once per deletion; a negative count empties the text |
| Writer.Typewriter.DeleteAll | src/t-writer.js:442-444 | settles with empty text, one `onDeleteChar` per character |
| Writer.Typewriter.Callback | src/t-writer.js:452-457 | the callback is invoked once |
| Writer.Typewriter.CreateCursorEl | src/t-writer.js:620-636 | a cursor element exists, with the configured cursor colour and class |
| Writer.Typewriter.RemoveCursorEl | src/t-writer.js:648-654 | succeeds iff a cursor element existed; afterwards there is none |
| Writer.Typewriter.ClearTextAction | src/t-writer.js:473-478 | empties the text |
| Writer.Typewriter.ChangeOpsAction | src/t-writer.js:480-485 | the options become the shallow merge with the supplied keys |
| Writer.Typewriter.TypeColor | src/t-writer.js:487-492 | the text element gets the colour |
| Writer.Typewriter.TypeClass | src/t-writer.js:501-506 | the text element gets the class |
| Writer.Typewriter.CursorColor | src/t-writer.js:494-499 | succeeds iff a cursor element exists, and then gets the colour |
| Writer.Typewriter.CursorClass | src/t-writer.js:508-513 | succeeds iff a cursor element exists, and then gets the class |
| Writer.Typewriter.RunTypeAction | src/t-writer.js:560-564 | the `type` and `unicode` arms: the new state is `StepAfter` of the old, and the action settles as `Resolves` says |
| Writer.Typewriter.RunDeleteAction | src/t-writer.js:566-585 | the `deleteChars`, `clear` and `clearText` arms: the new state is `StepAfter` of the old, and the action settles as `Resolves` says |
| Writer.Typewriter.RunCursorAction | src/t-writer.js:577-600 | the cursor arms: the new state is `StepAfter` of the old, and the action settles iff it needs no cursor element or one existed |
| Writer.Typewriter.RunOtherAction | src/t-writer.js:572-597 | the pause, callback, `changeOps` and text-styling arms: the new state is `StepAfter` of the old, and the action settles |
| Writer.Typewriter.Step | src/t-writer.js:557-603 | runs exactly the action at `idx`: the whole new state is `StepAfter` of the old state and that action, and it settles as `Resolves` says |
| Writer.Typewriter.Start | src/t-writer.js:261-270 | a no-op while running; otherwise the new state is `StartAfter` of the old, and the chain continues at index 0 |
| Writer.Typewriter.Restart | src/t-writer.js:264-269 | past the guard, `start` leaves exactly the state `StartAfter` gives |
| Writer.Typewriter.Loop | src/t-writer.js:605-618 | at the end of the queue the new state is `LoopEnd` of the old, continuing at 0 iff `loop` is set; otherwise it is `StepAfter` of the action at `idx`, continuing at `idx + 1` iff that settles; the queue indices stepped grow by `idx` exactly then |
| Writer.Typewriter.Continue | src/t-writer.js:605-618 | one `loop` link: the chain from the new state at the next index is the chain from the old state at `idx`, or ends in the new state when it does not continue |
| Writer.Typewriter.FollowChain | src/t-writer.js:605-618 | the chain from `loop(0)` comes to rest exactly where `Chain` says, having stepped the actions strictly in index order, pass after pass |
| Writer.Typewriter.Drive | src/t-writer.js:261-270 | a second `start` while running changes nothing; otherwise the final state, passes, index and reason for stopping are exactly `Chain` from the state `start` leaves; in particular the actions run in index order, `onLastChar` fires once per completed pass, and the chain stops only when the fuel is spent (still running), when an action does not settle (still running), or when the first pass ends with `loop` off (no longer running) |

## Left out

- Timing: `Date.now`, `requestAnimationFrame`, `setTimeout` and the `change >= speed` gate are not modelled. Each commit is taken to happen on some tick, and a pause resolves at once. The delays never change what is committed.
- `getTypeSpeed` / `getDeleteSpeed`: the delay itself is not modelled. The random branch uses `Math.random` and floating point; the options record keeps only the speed settings.
- The `Cursor` class and its blink, driven by `transitionend` and timers: this is visual only. The model records only whether a cursor element exists.
- DOM work: element creation, `render` and `innerHTML` become fields that hold the last class and colour applied. `animateCursor`'s `typeof ... === 'String'` test can never hold and is not modelled.
- User callbacks (`onAddChar`, `onDeleteChar`, `onLastChar` and the `then` callbacks): these are foreign code. They are counted, or recorded by handle, but never run.
- Writer.Typewriter.ClearQueue: the bare `render()` after the two assignments is not in scope and throws a `ReferenceError` to the caller. The model stops after the assignments and does not report the exception.
- Writer.Typewriter.Add: for an odd-length unicode string, the JavaScript reads past the end, keeps committing `"undefined"` pieces and never settles. The model stops before that read and reports `resolved == false`.
- Writer.Typewriter.Delete: with a negative count, the code keeps firing `onDeleteChar` forever once the text is empty. The model stops at empty text.
- Writer.Typewriter.CreateCursorEl: each call appends a new cursor span, so a `createCursor` action on a widget that already has one leaves two spans in the page. Only the presence of a cursor element is modelled.
- Writer.Typewriter.Drive: a looping queue never ends. The chain of `loop` continuations is followed for at most `fuel` steps.
- Asynchronous interleaving: the model does not cover queue or option mutations from outside the runner while a run is in flight.
- `typeUnicode` does not return the widget, which breaks a call chain at that point. Chaining itself is not modelled.
- The property that every rendered line stays within the limit is not claimed: the code does not guarantee it.
- Characters: each `char` of a model `string` stands for one UTF-16 code unit, as JavaScript's `length`, indexing and `slice(0, -1)` see them. A character outside the Basic Multilingual Plane is two units (a surrogate pair), which is why `typeUnicode` commits two at a time. Dafny's `char` is a Unicode scalar value and cannot hold a lone surrogate, so the model does not represent actual surrogate values; only the count of units matters to the code.
- Numbers: counts, intervals, speeds and the line limit are integers here, while JavaScript numbers are doubles. A fractional argument behaves differently in the code: `remove(1.5)` counts down past 0 without ever reaching it and never settles, and a fractional limit changes the `%` tests. Non-integral and non-numeric arguments are not modelled.
- Config.MergeWrapKeys: states the per-key behaviour of the merge for the keys the core reads (`preventWordWrap`, `wordWrapLineLengthLimit`, `loop`). The remaining keys follow from `Merge`'s field-by-field definition.
