/** The character's looping animation: named states, each with a fixed non-empty
    sequence of frames, and a frame counter that advances once per second. */
module Animation {

  /** A loaded frame, identified by the asset it was loaded from: `<base><number>.png`. */
  datatype Frame = Frame(basePath: string, number: nat)

  /** Milliseconds that must pass (strictly more) before the next frame is shown. */
  const FRAME_INTERVAL: nat := 1000

  /** The frames `base1.png` .. `base<count>.png`, in order. */
  function LoadFrames(basePath: string, count: nat): seq<Frame>
  {
    seq(count, (i: int) requires 0 <= i => Frame(basePath, i + 1))
  }

  /** The next index of a cyclic counter over `count` frames. */
  function Advance(index: nat, count: nat): (next: nat)
    requires index < count
    ensures next < count
    ensures next == if index + 1 == count then 0 else index + 1
  {
    (index + 1) % count
  }

  /** The index after `ticks` advances starting from `index`. */
  function AdvanceTimes(index: nat, count: nat, ticks: nat): (r: nat)
    requires index < count
    ensures r < count
  {
    if ticks == 0 then index else Advance(AdvanceTimes(index, count, ticks - 1), count)
  }

  /** The counter is free-running: after `ticks` advances from frame 0 it shows frame
      `ticks mod count`. */
  lemma {:induction false} AdvanceTimesIsModulo(count: nat, ticks: nat)
    requires count > 0
    ensures AdvanceTimes(0, count, ticks) == ticks % count
  {
    if ticks > 0 {
      var prev := AdvanceTimes(0, count, ticks - 1);
      AdvanceTimesIsModulo(count, ticks - 1);
      assert AdvanceTimes(0, count, ticks) == Advance(prev, count);
      SuccessorModulo(ticks, count);
    }
  }

  /** The remainder of `y` is the next index after the remainder of `y - 1`. */
  lemma SuccessorModulo(y: nat, count: nat)
    requires count > 0 && y > 0
    ensures y % count == if (y - 1) % count + 1 == count then 0 else (y - 1) % count + 1
  {
    var x: nat := y - 1;
    var q, r := x / count, x % count;
    DivMod(x, count);
    if r + 1 == count {
      NextMultiple(q, count);
      ModuloOf(y, count, q + 1, 0);
    } else {
      ModuloOf(y, count, q, r + 1);
    }
  }

  lemma DivMod(x: nat, count: nat)
    requires count > 0
    ensures x == (x / count) * count + x % count && 0 <= x % count < count
  {
  }

  lemma NextMultiple(q: int, count: nat)
    ensures (q + 1) * count == q * count + count
  {
  }

  /** The remainder is determined by any quotient-remainder decomposition. */
  lemma ModuloOf(x: nat, count: nat, q: int, r: int)
    requires count > 0 && 0 <= r < count && x == q * count + r
    ensures x % count == r
  {
    var q', r' := x / count, x % count;
    DivMod(x, count);
    Distribute(q, q', count);
    if q' < q {
      MulAtLeast(q - q', count);
    } else if q < q' {
      MulAtLeast(q' - q, count);
    }
  }

  lemma Distribute(q: int, q': int, count: nat)
    ensures (q - q') * count == q * count - q' * count
  {
  }

  lemma MulAtLeast(k: int, count: nat)
    requires k >= 1
    ensures k * count >= count
  {
    assert k * count == (k - 1) * count + count;
  }

  class CharacterAnimation {
    var states: map<string, seq<Frame>>
    var currentState: string
    var frameIndex: nat
    var animationSpeed: real
    var lastUpdate: int

    /** Every state has at least one frame, and the index is in range for the active one. */
    ghost predicate Valid()
      reads this
    {
      && currentState in states
      && (forall name :: name in states ==> |states[name]| > 0)
      && frameIndex < |states[currentState]|
    }

    /** Frames of the active state. */
    function CurrentFrames(): (frames: seq<Frame>)
      reads this
      requires Valid()
      ensures |frames| > 0
    {
      states[currentState]
    }

    /** Loads the three states and starts at idle frame 0; `now` is the clock reading. */
    constructor (now: int)
      ensures Valid()
      ensures states == map["idle" := LoadFrames("assets/idle_", 4),
                            "happy" := LoadFrames("assets/happy_", 3),
                            "sad" := LoadFrames("assets/sad_", 2)]
      ensures currentState == "idle" && frameIndex == 0
      ensures animationSpeed == 1.0 && lastUpdate == now
    {
      states := map["idle" := LoadFrames("assets/idle_", 4),
                    "happy" := LoadFrames("assets/happy_", 3),
                    "sad" := LoadFrames("assets/sad_", 2)];
      currentState := "idle";
      frameIndex := 0;
      animationSpeed := 1.0;
      lastUpdate := now;
    }

    /** When more than a second has passed since the last change, shows the next frame
        (wrapping) and records `now`; otherwise changes nothing. */
    method Update(now: int)
      requires Valid()
      modifies this`frameIndex, this`lastUpdate
      ensures Valid()
      ensures now - old(lastUpdate) > FRAME_INTERVAL ==>
                frameIndex == Advance(old(frameIndex), |CurrentFrames()|) && lastUpdate == now
      ensures now - old(lastUpdate) <= FRAME_INTERVAL ==>
                frameIndex == old(frameIndex) && lastUpdate == old(lastUpdate)
    {
      if now - lastUpdate > FRAME_INTERVAL {
        frameIndex := (frameIndex + 1) % |states[currentState]|;
        lastUpdate := now;
      }
    }

    /** The frame to draw; never out of range for a valid machine. */
    function GetCurrentFrame(): (frame: Frame)
      reads this
      requires Valid()
      ensures frame in CurrentFrames()
    {
      states[currentState][frameIndex]
    }
  }
}
