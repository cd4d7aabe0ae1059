/**
 * The widget's options record: the defaults, the partial records callers pass
 * to the constructor and to `changeOps`, and the shallow `Object.assign`
 * merge that combines them. The three lifecycle callbacks (`onAddChar`,
 * `onDeleteChar`, `onLastChar`) are foreign functions and are not fields here;
 * the widget counts their invocations instead.
 */
module Config {
  import opened Wrappers

  /** `typeSpeed` / `deleteSpeed`: a number of milliseconds, or a non-number, which selects a random delay. */
  datatype Speed = Fixed(ms: int) | Randomized

  datatype Options = Options(
    loop: bool,
    animateCursor: bool,
    preventWordWrap: bool,
    blinkSpeed: int,
    typeSpeed: Speed,
    deleteSpeed: Speed,
    typeSpeedMin: int,
    typeSpeedMax: int,
    deleteSpeedMin: int,
    deleteSpeedMax: int,
    typeClass: string,
    cursorClass: string,
    typeColor: string,
    cursorColor: string,
    wordWrapLineLengthLimit: int)

  /** The module-level `defaultOptions` object. */
  function Defaults(): (d: Options)
    ensures !LineLimitRejected(d)
    ensures LineLimitRejected(d.(preventWordWrap := true))
  {
    Options(
      loop := false,
      animateCursor := true,
      preventWordWrap := false,
      blinkSpeed := 400,
      typeSpeed := Fixed(90),
      deleteSpeed := Fixed(40),
      typeSpeedMin := 65,
      typeSpeedMax := 115,
      deleteSpeedMin := 40,
      deleteSpeedMax := 90,
      typeClass := "type-span",
      cursorClass := "cursor-span",
      typeColor := "black",
      cursorColor := "black",
      wordWrapLineLengthLimit := 0)
  }

  /** A partial options object: `None` is a key the caller did not supply. */
  datatype Patch = Patch(
    loop: Option<bool>,
    animateCursor: Option<bool>,
    preventWordWrap: Option<bool>,
    blinkSpeed: Option<int>,
    typeSpeed: Option<Speed>,
    deleteSpeed: Option<Speed>,
    typeSpeedMin: Option<int>,
    typeSpeedMax: Option<int>,
    deleteSpeedMin: Option<int>,
    deleteSpeedMax: Option<int>,
    typeClass: Option<string>,
    cursorClass: Option<string>,
    typeColor: Option<string>,
    cursorColor: Option<string>,
    wordWrapLineLengthLimit: Option<int>)

  /** The empty object `{}`. */
  function NoChanges(): Patch {
    Patch(None, None, None, None, None, None, None, None, None, None, None, None, None, None, None)
  }

  /** `Object.assign(o, p)`: every key `p` supplies overwrites `o`'s; the others keep `o`'s value. */
  function Merge(o: Options, p: Patch): (r: Options)
    ensures p == NoChanges() ==> r == o
  {
    Options(
      loop := p.loop.GetOr(o.loop),
      animateCursor := p.animateCursor.GetOr(o.animateCursor),
      preventWordWrap := p.preventWordWrap.GetOr(o.preventWordWrap),
      blinkSpeed := p.blinkSpeed.GetOr(o.blinkSpeed),
      typeSpeed := p.typeSpeed.GetOr(o.typeSpeed),
      deleteSpeed := p.deleteSpeed.GetOr(o.deleteSpeed),
      typeSpeedMin := p.typeSpeedMin.GetOr(o.typeSpeedMin),
      typeSpeedMax := p.typeSpeedMax.GetOr(o.typeSpeedMax),
      deleteSpeedMin := p.deleteSpeedMin.GetOr(o.deleteSpeedMin),
      deleteSpeedMax := p.deleteSpeedMax.GetOr(o.deleteSpeedMax),
      typeClass := p.typeClass.GetOr(o.typeClass),
      cursorClass := p.cursorClass.GetOr(o.cursorClass),
      typeColor := p.typeColor.GetOr(o.typeColor),
      cursorColor := p.cursorColor.GetOr(o.cursorColor),
      wordWrapLineLengthLimit := p.wordWrapLineLengthLimit.GetOr(o.wordWrapLineLengthLimit))
  }

  function Later<T>(a: Option<T>, b: Option<T>): Option<T> {
    if b.Some? then b else a
  }

  /** `Object.assign({}, p, q)`: the keys of both, `q`'s value winning where both supply one. */
  function Overlay(p: Patch, q: Patch): Patch {
    Patch(
      Later(p.loop, q.loop),
      Later(p.animateCursor, q.animateCursor),
      Later(p.preventWordWrap, q.preventWordWrap),
      Later(p.blinkSpeed, q.blinkSpeed),
      Later(p.typeSpeed, q.typeSpeed),
      Later(p.deleteSpeed, q.deleteSpeed),
      Later(p.typeSpeedMin, q.typeSpeedMin),
      Later(p.typeSpeedMax, q.typeSpeedMax),
      Later(p.deleteSpeedMin, q.deleteSpeedMin),
      Later(p.deleteSpeedMax, q.deleteSpeedMax),
      Later(p.typeClass, q.typeClass),
      Later(p.cursorClass, q.cursorClass),
      Later(p.typeColor, q.typeColor),
      Later(p.cursorColor, q.cursorColor),
      Later(p.wordWrapLineLengthLimit, q.wordWrapLineLengthLimit))
  }

  /** The construction-time check: word-wrap prevention needs a line length greater than 0. */
  predicate LineLimitRejected(o: Options) {
    o.preventWordWrap && o.wordWrapLineLengthLimit < 1
  }

  /** Applying the same partial options twice is the same as applying them once. */
  lemma MergeIdempotent(o: Options, p: Patch)
    ensures Merge(Merge(o, p), p) == Merge(o, p)
  {
  }

  /** Two successive `changeOps` act as one whose later keys win. */
  lemma MergeSequential(o: Options, p: Patch, q: Patch)
    ensures Merge(Merge(o, p), q) == Merge(o, Overlay(p, q))
  {
  }

  /**
   * Only the supplied keys change: a patch that leaves out the wrap keys keeps
   * the wrap setting, and one that supplies a key sets exactly that value.
   */
  lemma MergeWrapKeys(o: Options, p: Patch)
    ensures p.preventWordWrap.None? ==> Merge(o, p).preventWordWrap == o.preventWordWrap
    ensures p.preventWordWrap.Some? ==> Merge(o, p).preventWordWrap == p.preventWordWrap.value
    ensures p.wordWrapLineLengthLimit.None? ==> Merge(o, p).wordWrapLineLengthLimit == o.wordWrapLineLengthLimit
    ensures p.wordWrapLineLengthLimit.Some? ==> Merge(o, p).wordWrapLineLengthLimit == p.wordWrapLineLengthLimit.value
    ensures p.loop.None? ==> Merge(o, p).loop == o.loop
    ensures p.loop.Some? ==> Merge(o, p).loop == p.loop.value
  {
  }

  /**
   * With the defaults, construction is rejected exactly when the caller turns
   * word-wrap prevention on without a limit of at least 1 (the default limit is 0).
   */
  lemma DefaultsRejection(p: Patch)
    ensures LineLimitRejected(Merge(Defaults(), p)) <==>
            p.preventWordWrap == Some(true) && p.wordWrapLineLengthLimit.GetOr(0) < 1
  {
  }
}
