/**
 * The logo marquee: a track of repeated logo lists that scrolls sideways at a
 * steady speed, eases to a halt while hovered, and wraps its offset into one
 * list width so that the copies behind it make the loop seamless.
 *
 * The easing factor `1 - exp(-dt / tau)` is supplied by the caller of a frame;
 * timestamps, widths and offsets are exact reals.
 */
module LogoLoop {
  import opened Wrappers
  import opened JsMath
  import opened Easing

  /** Time constant of the velocity easing, in seconds. */
  const SmoothTau: real := 0.25
  /** The track always holds at least this many copies of the list. */
  const MinCopies: int := 2
  /** Copies beyond those that span the container. */
  const CopyHeadroom: int := 2

  // ---------------------------------------------------------------------------
  // CSS lengths

  /** A length prop: a number of pixels, or any CSS length as a string. */
  datatype Length = Px(px: int) | Css(text: string)

  /** `toCssLength`: a number becomes `<n>px`, a string passes through, absence stays absent. */
  function ToCssLength(v: Option<Length>): (r: Option<string>)
    ensures r.None? <==> v.None?
    ensures v.Some? && v.value.Css? ==> r == Some(v.value.text)
    ensures v.Some? && v.value.Px? ==> |r.value| >= 3 && r.value[|r.value| - 2..] == "px"
  {
    match v
    case None => None
    case Some(Px(n)) => Some(IntToString(n) + "px")
    case Some(Css(s)) => Some(s)
  }

  /** Decimal digit characters. */
  predicate IsDigit(c: char)
  {
    '0' <= c <= '9'
  }

  predicate AllDigits(s: string)
  {
    forall i :: 0 <= i < |s| ==> IsDigit(s[i])
  }

  function DigitChar(d: nat): (c: char)
    requires d < 10
    ensures IsDigit(c) && (c - '0') as int == d
  {
    (d + '0' as int) as char
  }

  /** The decimal numeral of a natural number, without leading zeros. */
  function NatToString(n: nat): (s: string)
    ensures |s| >= 1 && AllDigits(s)
    ensures |s| > 1 ==> s[0] != '0'
    decreases n
  {
    if n < 10 then [DigitChar(n)] else NatToString(n / 10) + [DigitChar(n % 10)]
  }

  /** The decimal numeral of an integer, with a leading `-` when negative. */
  function IntToString(n: int): (s: string)
    ensures |s| >= 1
    ensures n < 0 <==> s[0] == '-'
  {
    if n < 0 then "-" + NatToString(-n) else NatToString(n)
  }

  /** The value of a string of decimal digits. */
  function DigitsValue(s: string): nat
    requires AllDigits(s)
    decreases |s|
  {
    if s == [] then 0 else DigitsValue(s[..|s| - 1]) * 10 + (s[|s| - 1] - '0') as int
  }

  /** Reads back what `ToCssLength` writes for a number of pixels. */
  function ParsePx(s: string): (r: Option<int>)
  {
    if |s| < 3 || s[|s| - 2..] != "px" then None
    else
      var num := s[..|s| - 2];
      if num[0] == '-' && |num| > 1 && AllDigits(num[1..]) then Some(-(DigitsValue(num[1..]) as int))
      else if AllDigits(num) then Some(DigitsValue(num))
      else None
  }

  lemma {:induction false} NatRoundTrip(n: nat)
    ensures DigitsValue(NatToString(n)) == n
    decreases n
  {
    if n >= 10 {
      var s := NatToString(n);
      NatRoundTrip(n / 10);
      assert s[..|s| - 1] == NatToString(n / 10);
    }
  }

  /** A pixel length written by `ToCssLength` reads back as the same number. */
  lemma PxRoundTrip(n: int)
    ensures ParsePx(ToCssLength(Some(Px(n))).value) == Some(n)
  {
    assert ToCssLength(Some(Px(n))).value == IntToString(n) + "px";
    if n < 0 {
      NegativePx(-n);
    } else {
      NaturalPx(n);
    }
  }

  /** A non-negative numeral followed by `px` reads back as its value. */
  lemma NaturalPx(m: nat)
    ensures ParsePx(NatToString(m) + "px") == Some(m)
  {
    var num := NatToString(m);
    var s := num + "px";
    assert s[..|s| - 2] == num && s[|s| - 2..] == "px";
    NatRoundTrip(m);
  }

  /** A minus sign, a positive numeral and `px` read back as the negative value. */
  lemma NegativePx(m: nat)
    requires m > 0
    ensures ParsePx("-" + NatToString(m) + "px") == Some(-(m as int))
  {
    var num := "-" + NatToString(m);
    var s := num + "px";
    assert s[..|s| - 2] == num && s[|s| - 2..] == "px";
    assert num[1..] == NatToString(m);
    NatRoundTrip(m);
  }

  // ---------------------------------------------------------------------------
  // Velocity, time and copies

  /** Scroll direction prop. */
  datatype Direction = Left | Right

  /** `targetVelocity`: the speed's magnitude, positive for a leftward scroll. */
  function TargetVelocity(speed: real, direction: Direction): (v: real)
    ensures Abs(v) == Abs(speed)
    ensures direction == Left ==> v >= 0.0
    ensures direction == Right ==> v <= 0.0
  {
    Abs(speed) * (if direction == Left then 1.0 else -1.0)
  }

  /** The sign of the speed prop plays no part: only the direction prop sets the sign. */
  lemma TargetVelocityIgnoresSign(speed: real, direction: Direction)
    ensures TargetVelocity(-speed, direction) == TargetVelocity(speed, direction)
  {
    assert Abs(-speed) == Abs(speed);
  }

  /** The velocity a frame eases toward: zero while paused by hover. */
  function FrameTarget(pauseOnHover: bool, hovered: bool, targetVelocity: real): (v: real)
    ensures v == 0.0 || v == targetVelocity
    ensures v == 0.0 <== pauseOnHover && hovered
    ensures !(pauseOnHover && hovered) ==> v == targetVelocity
  {
    if pauseOnHover && hovered then 0.0 else targetVelocity
  }

  /** `max(0, t - lastTs) / 1000`: seconds since the previous frame, never negative. */
  function Dt(t: real, lastTs: real): (dt: real)
    ensures dt >= 0.0
    ensures t <= lastTs ==> dt == 0.0
    ensures t >= lastTs ==> dt * 1000.0 == t - lastTs
  {
    Max(0.0, t - lastTs) / 1000.0
  }

  /** `vel * dt`: pixels covered in `dt` seconds at `vel` pixels per second. */
  function Travel(vel: real, dt: real): (d: real)
    ensures dt == 0.0 ==> d == 0.0
  {
    vel * dt
  }

  /** Copies of the list needed for a container `cw` wide and a list `sw` wide. */
  function CopyCount(cw: real, sw: real): (n: int)
    requires sw > 0.0
    ensures n >= MinCopies
    ensures n >= Ceil(cw / sw) + CopyHeadroom
    ensures n == MinCopies || n == Ceil(cw / sw) + CopyHeadroom
  {
    var needed := Ceil(cw / sw) + CopyHeadroom;
    if needed > MinCopies then needed else MinCopies
  }

  /** The copies span the container with two list widths to spare, so a wrapped
      offset below one list width never shows the end of the track. */
  lemma CopyCountCovers(cw: real, sw: real)
    requires sw > 0.0
    ensures CopyCount(cw, sw) as real * sw >= cw + 2.0 * sw
  {
    var q := cw / sw;
    var n := CopyCount(cw, sw) as real;
    assert q * sw == cw;
    SpanCovers(q, n, sw);
  }

  lemma SpanCovers(q: real, n: real, sw: real)
    requires sw > 0.0 && n >= q + 2.0
    ensures n * sw >= q * sw + 2.0 * sw
  {
    MulNonNeg(n - q - 2.0, sw);
    assert (n - q - 2.0) * sw == n * sw - q * sw - 2.0 * sw;
  }

  // ---------------------------------------------------------------------------
  // The component

  /** State of one marquee: its props, its React state and the animation loop's refs. */
  class Marquee {
    const speed: real
    const direction: Direction
    const pauseOnHover: bool
    /** `seqWidth` state: the list width rounded up, 0 until measured. */
    var seqWidth: int
    /** `copyCount` state. */
    var copyCount: int
    /** `hovered` state. */
    var hovered: bool
    /** `offset` ref: how far the track is shifted left, in pixels. */
    var offset: real
    /** `vel` ref: current velocity, in pixels per second. */
    var vel: real
    /** `lastTs` ref: timestamp of the previous frame, absent after a (re)start. */
    var lastTs: Option<real>

    constructor (speed: real, direction: Direction, pauseOnHover: bool)
      ensures this.speed == speed && this.direction == direction && this.pauseOnHover == pauseOnHover
      ensures seqWidth == 0 && copyCount == MinCopies && !hovered
      ensures offset == 0.0 && vel == 0.0 && lastTs == None
    {
      this.speed := speed;
      this.direction := direction;
      this.pauseOnHover := pauseOnHover;
      seqWidth, copyCount, hovered := 0, MinCopies, false;
      offset, vel, lastTs := 0.0, 0.0, None;
    }

    /** `updateDims` with the measured container width `cw` and list width `sw`:
        nothing changes until the list has a positive width. */
    method UpdateDims(cw: real, sw: real)
      modifies this`seqWidth, this`copyCount
      ensures sw <= 0.0 ==> seqWidth == old(seqWidth) && copyCount == old(copyCount)
      ensures sw > 0.0 ==> seqWidth == Ceil(sw) && copyCount == CopyCount(cw, sw)
      ensures sw > 0.0 ==> seqWidth > 0 && copyCount as real * sw >= cw + 2.0 * sw
    {
      if sw > 0.0 {
        seqWidth := Ceil(sw);
        var copiesNeeded := Ceil(cw / sw) + CopyHeadroom;
        copyCount := if MinCopies >= copiesNeeded then MinCopies else copiesNeeded;
        CopyCountCovers(cw, sw);
      }
    }

    /** `onEnter`: mark hovered, only when hovering pauses. */
    method OnEnter()
      modifies this`hovered
      ensures hovered == (pauseOnHover || old(hovered))
    {
      if pauseOnHover {
        hovered := true;
      }
    }

    /** `onLeave`: clear hovered, only when hovering pauses. */
    method OnLeave()
      modifies this`hovered
      ensures hovered == (!pauseOnHover && old(hovered))
    {
      if pauseOnHover {
        hovered := false;
      }
    }

    /** The effect's set-up: a measured width pulls the offset back into one list width. */
    method StartEffect()
      modifies this`offset
      ensures seqWidth <= 0 ==> offset == old(offset)
      ensures seqWidth > 0 ==> offset == PosMod(old(offset), seqWidth as real)
      ensures seqWidth > 0 ==> 0.0 <= offset < seqWidth as real
    {
      if seqWidth > 0 {
        offset := PosMod(offset, seqWidth as real);
      }
    }

    /** `animate(t)`: one frame at timestamp `t` (milliseconds), with `easing` the
        value of `1 - exp(-dt / SmoothTau)` for this frame's `dt`, which is 0 when
        `dt` is 0 and below 1 otherwise. */
    method Animate(t: real, easing: real)
      requires 0.0 <= easing < 1.0
      requires Dt(t, lastTs.GetOr(t)) == 0.0 ==> easing == 0.0
      modifies this`lastTs, this`vel, this`offset
      ensures lastTs == Some(t)
      ensures vel == Lerp(old(vel), FrameTarget(pauseOnHover, hovered, TargetVelocity(speed, direction)), easing)
      ensures seqWidth <= 0 ==> offset == old(offset)
      ensures seqWidth > 0 ==>
        offset == PosMod(old(offset) + Travel(vel, Dt(t, old(lastTs).GetOr(t))), seqWidth as real)
    {
      if lastTs.None? {
        lastTs := Some(t);
      }
      var dt := Dt(t, lastTs.value);
      assert dt == Dt(t, old(lastTs).GetOr(t));
      lastTs := Some(t);
      var target := FrameTarget(pauseOnHover, hovered, TargetVelocity(speed, direction));
      vel := Lerp(vel, target, easing);
      if seqWidth > 0 {
        var next := offset + Travel(vel, dt);
        offset := PosMod(next, seqWidth as real);
      }
    }

    /** The effect's clean-up: the next start measures `dt` from its own first frame. */
    method Cleanup()
      modifies this`lastTs
      ensures lastTs == None
    {
      lastTs := None;
    }
  }

  /** A frame keeps the offset inside one list width and moves it by exactly
      `vel * dt` up to whole list widths. */
  lemma FrameOffset(offset: real, vel: real, dt: real, seqWidth: int)
    requires seqWidth > 0
    ensures 0.0 <= PosMod(offset + Travel(vel, dt), seqWidth as real) < seqWidth as real
    ensures Congruent(PosMod(offset + Travel(vel, dt), seqWidth as real), offset + Travel(vel, dt), seqWidth as real)
  {
    var o := offset + Travel(vel, dt);
    PosModCongruent(o, seqWidth as real);
    var k: int :| o - PosMod(o, seqWidth as real) == Times(k, seqWidth as real);
    assert PosMod(o, seqWidth as real) - o == Times(-k, seqWidth as real);
  }

  /** The first frame after a (re)start has `dt = 0`, so it moves neither the velocity nor the offset. */
  lemma FirstFrameStill(vel: real, target: real, offset: real, t: real, seqWidth: int)
    requires seqWidth > 0 && 0.0 <= offset < seqWidth as real
    ensures Dt(t, t) == 0.0
    ensures Lerp(vel, target, 0.0) == vel
    ensures PosMod(offset + Travel(vel, Dt(t, t)), seqWidth as real) == offset
  {
    LerpBounds(vel, target, 0.0);
    MulZero(vel, Dt(t, t));
    PosModIdentity(offset, seqWidth as real);
  }

  /** Easing with a factor in `[0, 1)` never takes the velocity past its target,
      nor further from it. */
  lemma VelocityConverges(vel: real, target: real, easing: real)
    requires 0.0 <= easing < 1.0
    ensures Abs(target - Lerp(vel, target, easing)) <= Abs(target - vel)
    ensures vel <= target ==> vel <= Lerp(vel, target, easing) <= target
    ensures target <= vel ==> target <= Lerp(vel, target, easing) <= vel
  {
    LerpNeverWidens(vel, target, easing);
    LerpBounds(vel, target, easing);
  }

  // ---------------------------------------------------------------------------
  // Image loading

  /** The two events an image reports its outcome with. */
  datatype ImageEvent = Load | Error

  /** `useImageLoader`: counts down the images of the first list and calls
      `onLoad` when the count reaches zero. Every image that is not complete yet
      gets the same `done` twice, once as its `load` listener and once as its
      `error` listener, each removed after it fires. */
  class ImageLoader {
    /** The effect's `remaining` counter. */
    var remaining: int
    /** Images that received listeners in the current run of the effect. */
    var pending: set<nat>
    /** Images whose `load` listener is still attached. */
    var waitingLoad: set<nat>
    /** Images whose `error` listener is still attached. */
    var waitingError: set<nat>
    /** The listeners are attached (set-up ran and clean-up has not). */
    var attached: bool
    /** How many times the current run of the effect has called `onLoad`. */
    var loadCalls: nat

    /** `onLoad` has run exactly when the count has reached zero, and then once;
        while attached, every listener that fired took one off the count. */
    ghost predicate Valid()
      reads this
    {
      && loadCalls == (if remaining <= 0 then 1 else 0)
      && (attached ==>
            && waitingLoad <= pending && waitingError <= pending
            && remaining == |waitingLoad| + |waitingError| - |pending|)
      && (!attached ==> waitingLoad == {} && waitingError == {})
    }

    /** Before the effect first runs. */
    constructor ()
      ensures Valid() && remaining == 1 && !attached && loadCalls == 0
      ensures pending == {} && waitingLoad == {} && waitingError == {}
    {
      remaining, attached, loadCalls := 1, false, 0;
      pending, waitingLoad, waitingError := {}, {}, {};
    }

    /** `done`: one fewer to go; `onLoad` when the count reaches zero. */
    method Done()
      modifies this`remaining, this`loadCalls
      ensures remaining == old(remaining) - 1
      ensures loadCalls == old(loadCalls) + (if remaining == 0 then 1 else 0)
    {
      remaining := remaining - 1;
      if remaining == 0 {
        loadCalls := loadCalls + 1;
      }
    }

    /** The effect's set-up for images whose `complete` flags are `complete`:
        no images means `onLoad` at once; otherwise complete images count down
        now and the others get both listeners. */
    method Setup(complete: seq<bool>)
      modifies this
      ensures Valid()
      ensures |complete| == 0 ==> loadCalls == 1 && !attached && pending == {}
      ensures |complete| > 0 ==>
        && attached && pending == set j | 0 <= j < |complete| && !complete[j]
        && waitingLoad == pending && waitingError == pending
        && remaining == |pending|
      ensures loadCalls == 1 <==> forall j :: 0 <= j < |complete| ==> complete[j]
    {
      if |complete| == 0 {
        remaining, attached, loadCalls := 0, false, 1;
        pending, waitingLoad, waitingError := {}, {}, {};
        return;
      }
      remaining, attached, loadCalls := |complete|, true, 0;
      pending, waitingLoad, waitingError := {}, {}, {};
      var i := 0;
      while i < |complete|
        invariant 0 <= i <= |complete|
        invariant pending == set j | 0 <= j < i && !complete[j]
        invariant waitingLoad == pending && waitingError == pending
        invariant remaining == |pending| + (|complete| - i)
        invariant loadCalls == (if remaining == 0 then 1 else 0)
        invariant attached
        invariant (forall j :: 0 <= j < i ==> complete[j]) <==> pending == {}
      {
        assert i !in pending;
        if complete[i] {
          Done();
        } else {
          pending := pending + {i};
          waitingLoad := waitingLoad + {i};
          waitingError := waitingError + {i};
        }
        i := i + 1;
      }
    }

    /** Image `i` fires `event`: if its listener for that event is still attached,
        the listener detaches and `done` runs; the image's other listener stays. */
    method OnEvent(i: nat, event: ImageEvent)
      requires Valid()
      modifies this`remaining, this`loadCalls, this`waitingLoad, this`waitingError
      ensures Valid()
      ensures event == Load && i in old(waitingLoad) ==>
        && waitingLoad == old(waitingLoad) - {i} && waitingError == old(waitingError)
        && remaining == old(remaining) - 1
      ensures event == Error && i in old(waitingError) ==>
        && waitingError == old(waitingError) - {i} && waitingLoad == old(waitingLoad)
        && remaining == old(remaining) - 1
      ensures !(event == Load && i in old(waitingLoad)) && !(event == Error && i in old(waitingError)) ==>
        && waitingLoad == old(waitingLoad) && waitingError == old(waitingError)
        && remaining == old(remaining) && loadCalls == old(loadCalls)
    {
      if event == Load && i in waitingLoad {
        waitingLoad := waitingLoad - {i};
        Done();
      } else if event == Error && i in waitingError {
        waitingError := waitingError - {i};
        Done();
      }
    }

    /** The effect's clean-up: the listeners go, and no later event counts. */
    method Cleanup()
      requires Valid()
      modifies this`waitingLoad, this`waitingError, this`attached
      ensures Valid() && !attached && waitingLoad == {} && waitingError == {}
    {
      waitingLoad, waitingError, attached := {}, {}, false;
    }
  }

  /** When every image that got listeners has fired exactly one of its two
      events, the count is the number of images that have fired neither, so
      `onLoad` has run exactly when every image has finished. */
  lemma OneEventEach(waitingLoad: set<nat>, waitingError: set<nat>, pending: set<nat>, remaining: int)
    requires waitingLoad <= pending && waitingError <= pending
    requires waitingLoad + waitingError == pending
    requires remaining == |waitingLoad| + |waitingError| - |pending|
    ensures remaining == |waitingLoad * waitingError|
    ensures remaining <= 0 <==> waitingLoad * waitingError == {}
  {
    UnionPlusIntersection(waitingLoad, waitingError);
  }

  /** `|a + b| + |a * b| == |a| + |b|`. */
  lemma {:induction false} UnionPlusIntersection(a: set<nat>, b: set<nat>)
    ensures |a + b| + |a * b| == |a| + |b|
    decreases |a|
  {
    if a != {} {
      var x :| x in a;
      var a' := a - {x};
      UnionPlusIntersection(a', b);
      if x in b {
        assert a + b == a' + b;
        assert a * b == (a' * b) + {x};
      } else {
        assert a + b == (a' + b) + {x};
        assert a * b == a' * b;
      }
    } else {
      assert a + b == b;
      assert a * b == {};
    }
  }

  /** An image that fires `load` and then `error` counts down twice: with two
      images, one such image brings the count to zero while the other has fired
      nothing yet, so `onLoad` runs early. */
  method EarlyLoad() returns (calls: nat, stillWaiting: bool)
    ensures calls == 1 && stillWaiting
  {
    var loader := new ImageLoader();
    loader.Setup([false, false]);
    assert loader.pending == {0, 1};
    loader.OnEvent(0, Load);
    loader.OnEvent(0, Error);
    calls, stillWaiting := loader.loadCalls, 1 in loader.waitingLoad && 1 in loader.waitingError;
  }
}
