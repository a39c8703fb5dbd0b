/**
 * The pillars filmstrip: a horizontally scrolling rail whose progress bar shows
 * how far it has scrolled, which turns vertical wheel movement into horizontal
 * scrolling until the visitor presses End or Escape.
 */
module Pillars {
  import opened JsMath

  /** `onScroll`'s ratio: how far along its scrollable range the rail is, or 0
      when the content does not overflow. */
  function Progress(scrollWidth: real, clientWidth: real, scrollLeft: real): (r: real)
    ensures scrollWidth - clientWidth <= 0.0 ==> r == 0.0
    ensures scrollWidth - clientWidth > 0.0 ==> r * (scrollWidth - clientWidth) == scrollLeft
  {
    var max := scrollWidth - clientWidth;
    if max > 0.0 then scrollLeft / max else 0.0
  }

  /** A scroll position inside the scrollable range gives a ratio in `[0, 1]`. */
  lemma ProgressBounds(scrollWidth: real, clientWidth: real, scrollLeft: real)
    requires 0.0 <= scrollLeft <= Max(0.0, scrollWidth - clientWidth)
    ensures 0.0 <= Progress(scrollWidth, clientWidth, scrollLeft) <= 1.0
  {
    var max := scrollWidth - clientWidth;
    if max > 0.0 {
      UnitFraction(scrollLeft, max, Progress(scrollWidth, clientWidth, scrollLeft));
    }
  }

  /** A share `q` of a positive whole `w` that is between 0 and `w` is a fraction in `[0, 1]`. */
  lemma UnitFraction(o: real, w: real, q: real)
    requires w > 0.0 && 0.0 <= o <= w && q * w == o
    ensures 0.0 <= q <= 1.0
  {
  }

  /** `onWheel`'s test: the rail takes over a wheel event only while the hijack flag
      is on and the event is not already mostly horizontal. */
  predicate Redirects(hijack: bool, deltaX: real, deltaY: real)
  {
    hijack && !(Abs(deltaX) > Abs(deltaY))
  }

  /** The keys that hand the wheel back to the page. */
  predicate ReleasesWheel(key: string)
  {
    key == "End" || key == "Escape"
  }

  /** The hijack flag after a run of key presses, starting from `hijack`. */
  function AfterKeys(hijack: bool, keys: seq<string>): bool
    decreases |keys|
  {
    if |keys| == 0 then hijack
    else AfterKeys(hijack && !ReleasesWheel(keys[0]), keys[1..])
  }

  /** From the initial state the flag is still on exactly when no End or Escape was pressed. */
  lemma {:induction false} AfterKeysOn(hijack: bool, keys: seq<string>)
    ensures AfterKeys(hijack, keys) <==> hijack && forall i :: 0 <= i < |keys| ==> !ReleasesWheel(keys[i])
    decreases |keys|
  {
    if |keys| > 0 {
      AfterKeysOn(hijack && !ReleasesWheel(keys[0]), keys[1..]);
      assert forall i :: 1 <= i < |keys| ==> keys[i] == keys[1..][i - 1];
    }
  }

  /** Pressing one more key continues the run: a sequence of `onKey` calls computes `AfterKeys`. */
  lemma {:induction false} AfterKeysSnoc(hijack: bool, keys: seq<string>, key: string)
    ensures AfterKeys(hijack, keys + [key]) == AfterKeys(AfterKeys(hijack, keys), [key])
    decreases |keys|
  {
    if |keys| > 0 {
      AfterKeysSnoc(hijack && !ReleasesWheel(keys[0]), keys[1..], key);
      assert (keys + [key])[1..] == keys[1..] + [key];
    }
  }

  /** The flag is one-way: once off, no key turns it back on. */
  lemma {:induction false} AfterKeysStaysOff(keys: seq<string>)
    ensures !AfterKeys(false, keys)
    decreases |keys|
  {
    if |keys| > 0 {
      AfterKeysStaysOff(keys[1..]);
    }
  }

  /** The resting position the model takes for a requested scroll position:
      the request clamped into `[0, max]`. Mandatory scroll snapping, which
      would move it on to a card's snap position, is not modelled. */
  function ClampScroll(left: real, max: real): (r: real)
    ensures 0.0 <= r <= Max(0.0, max)
    ensures 0.0 <= left <= max ==> r == left
  {
    if left < 0.0 || max <= 0.0 then 0.0 else if left > max then max else left
  }

  /** The rail element and the component's state around it. */
  class Rail {
    /** The element's geometry and scroll position, owned by the browser. */
    var scrollWidth: real
    var clientWidth: real
    var scrollLeft: real
    /** `progress` and `hijackWheel`, the component's state. */
    var progress: real
    var hijackWheel: bool

    function MaxScroll(): real
      reads this`scrollWidth, this`clientWidth
    {
      scrollWidth - clientWidth
    }

    /** The browser keeps the scroll position inside the scrollable range. */
    predicate Valid()
      reads this`scrollWidth, this`clientWidth, this`scrollLeft
    {
      0.0 <= scrollLeft <= Max(0.0, MaxScroll())
    }

    /** Mounting: the flag starts on, and the effect's first `onScroll` sets the progress. */
    constructor (scrollWidth: real, clientWidth: real, scrollLeft: real)
      requires 0.0 <= scrollLeft <= Max(0.0, scrollWidth - clientWidth)
      ensures Valid()
      ensures this.scrollWidth == scrollWidth && this.clientWidth == clientWidth
      ensures this.scrollLeft == scrollLeft
      ensures hijackWheel
      ensures progress == Progress(scrollWidth, clientWidth, scrollLeft)
      ensures 0.0 <= progress <= 1.0
    {
      this.scrollWidth := scrollWidth;
      this.clientWidth := clientWidth;
      this.scrollLeft := scrollLeft;
      hijackWheel := true;
      progress := Progress(scrollWidth, clientWidth, scrollLeft);
      ProgressBounds(scrollWidth, clientWidth, scrollLeft);
    }

    /** `onScroll`: the progress bar follows the scroll position. */
    method OnScroll()
      requires Valid()
      modifies this`progress
      ensures progress == Progress(scrollWidth, clientWidth, scrollLeft)
      ensures 0.0 <= progress <= 1.0
    {
      progress := Progress(scrollWidth, clientWidth, scrollLeft);
      ProgressBounds(scrollWidth, clientWidth, scrollLeft);
    }

    /** `onResize`: the browser resizes the rail and clamps its scroll position, then
        the handler recomputes the progress. */
    method OnResize(scrollWidth: real, clientWidth: real)
      modifies this`scrollWidth, this`clientWidth, this`scrollLeft, this`progress
      ensures Valid()
      ensures this.scrollWidth == scrollWidth && this.clientWidth == clientWidth
      ensures scrollLeft == ClampScroll(old(scrollLeft), scrollWidth - clientWidth)
      ensures progress == Progress(scrollWidth, clientWidth, scrollLeft)
      ensures 0.0 <= progress <= 1.0
    {
      this.scrollWidth := scrollWidth;
      this.clientWidth := clientWidth;
      scrollLeft := ClampScroll(scrollLeft, scrollWidth - clientWidth);
      OnScroll();
    }

    /** `onWheel`: a redirected event is cancelled and asks the rail to scroll
        sideways by its vertical delta. Any other event keeps the browser's own
        handling, which scrolls the rail sideways by the event's horizontal delta
        (its vertical delta goes to the page). Either way the model rests the rail
        at the clamped request. */
    method OnWheel(deltaX: real, deltaY: real) returns (prevented: bool)
      requires Valid()
      modifies this`scrollLeft
      ensures Valid()
      ensures prevented == Redirects(hijackWheel, deltaX, deltaY)
      ensures prevented ==> scrollLeft == ClampScroll(old(scrollLeft) + deltaY, MaxScroll())
      ensures !prevented ==> scrollLeft == ClampScroll(old(scrollLeft) + deltaX, MaxScroll())
      ensures !prevented && deltaX == 0.0 ==> scrollLeft == old(scrollLeft)
    {
      if !hijackWheel || Abs(deltaX) > Abs(deltaY) {
        prevented := false;
        scrollLeft := ClampScroll(scrollLeft + deltaX, MaxScroll());
        return;
      }
      prevented := true;
      scrollLeft := ClampScroll(scrollLeft + deltaY, MaxScroll());
    }

    /** `onKey`: End or Escape turns the hijack flag off; nothing turns it back on. */
    method OnKey(key: string)
      modifies this`hijackWheel
      ensures hijackWheel == AfterKeys(old(hijackWheel), [key])
      ensures hijackWheel ==> old(hijackWheel)
      ensures hijackWheel <==> old(hijackWheel) && !ReleasesWheel(key)
    {
      if ReleasesWheel(key) {
        hijackWheel := false;
      }
    }
  }
}
