/**
 * The frame-rate counter: every call to `update` counts one frame, and
 * once at least two seconds have passed since the last report it reports
 * the frames per second over that interval and starts counting again.
 *
 * The clock is not read here: `Update` takes the current time in
 * microseconds since the Unix epoch as a parameter.
 */
module FpsCounter {
  import opened Numerics

  /** The reporting interval, two seconds in microseconds. */
  const INTERVAL: nat := 2_000_000

  /** One past the largest `u128`. */
  const U128_LIMIT: nat := 0x1_0000_0000_0000_0000_0000_0000_0000_0000

  /** What `update` tells its caller. */
  datatype FpsRet = NotReady | NotUpdated(fps: int) | Update(fps: int)

  /** The three fields of `Fps`, as a value. */
  datatype FpsState = FpsState(lastTime: nat, frameCount: nat, fps: int)

  /** The state `Fps::default()` starts in. */
  const Start := FpsState(0, 0, 0)

  /** The field ranges the counter keeps: a `u128` time, and counts and rates that fit in an `i32`. */
  predicate Sane(s: FpsState)
  {
    s.lastTime < U128_LIMIT && s.frameCount <= I32_MAX && 0 <= s.fps <= I32_MAX
  }

  /**
   * Frames per second over `elapsed` microseconds, rounded half away from
   * zero and cast to `i32`; never more than the frames themselves when at
   * least a second has passed.
   */
  function Rate(frames: nat, elapsed: nat): (r: int)
    requires elapsed >= 1_000_000
    ensures 0 <= r <= I32_MAX
    ensures frames <= I32_MAX ==> r <= frames
  {
    var perSecond := frames as real / (elapsed as real / 1_000_000.0);
    RateBelowFrames(frames, elapsed);
    SaturateI32(Round(perSecond))
  }

  lemma RateBelowFrames(frames: nat, elapsed: nat)
    requires elapsed >= 1_000_000
    ensures 0.0 <= frames as real / (elapsed as real / 1_000_000.0) <= frames as real
  {
    var seconds := elapsed as real / 1_000_000.0;
    assert seconds >= 1.0;
    assert frames as real / seconds <= frames as real by {
      assert frames as real == (frames as real / seconds) * seconds;
    }
  }

  /** The state after one `update` call at `curTime`. */
  function Tick(s: FpsState, curTime: nat): (r: FpsState)
    requires s.lastTime <= curTime
    ensures s.lastTime <= r.lastTime <= curTime
  {
    var frames := s.frameCount + 1;
    if s.lastTime != 0 && curTime - s.lastTime >= INTERVAL then
      FpsState(curTime, 0, Rate(frames, curTime - s.lastTime))
    else if s.lastTime != 0 then
      s.(frameCount := frames)
    else
      FpsState(curTime, frames, s.fps)
  }

  /** What one `update` call at `curTime` returns. */
  function Reply(s: FpsState, curTime: nat): (r: FpsRet)
    requires s.lastTime <= curTime
  {
    var t := Tick(s, curTime);
    if s.lastTime != 0 && curTime - s.lastTime >= INTERVAL then Update(t.fps)
    else if t.fps == 0 then NotReady
    else NotUpdated(t.fps)
  }

  /**
   * An update is reported exactly when a previous time is on record and
   * two seconds have passed since it; the first call only records the
   * time. The number reported is the stored `fps`, so `i32::from` gives
   * back the last number reported, and NotReady means no rate is known yet.
   */
  lemma ReplyFacts(s: FpsState, curTime: nat)
    requires s.lastTime <= curTime
    ensures Reply(s, curTime).Update? <==> s.lastTime != 0 && curTime - s.lastTime >= INTERVAL
    ensures s.lastTime == 0 ==> !Reply(s, curTime).Update? && Tick(s, curTime).lastTime == curTime
    ensures Reply(s, curTime).NotReady? <==> !Reply(s, curTime).Update? && s.fps == 0
    ensures !Reply(s, curTime).NotReady? ==> Reply(s, curTime).fps == FpsOf(Tick(s, curTime))
  {
  }

  /**
   * A call either reports, and then restarts the count at the current
   * time, or counts one more frame and leaves the rate as it was.
   */
  lemma TickFacts(s: FpsState, curTime: nat)
    requires s.lastTime <= curTime
    ensures Reply(s, curTime).Update? ==>
      && Tick(s, curTime).lastTime == curTime
      && Tick(s, curTime).frameCount == 0
      && Tick(s, curTime).fps == Rate(s.frameCount + 1, curTime - s.lastTime)
    ensures !Reply(s, curTime).Update? ==>
      && Tick(s, curTime).frameCount == s.frameCount + 1
      && Tick(s, curTime).fps == s.fps
  {
  }

  /** `update` keeps every field in range as long as the frame count cannot overflow. */
  lemma TickSane(s: FpsState, curTime: nat)
    requires Sane(s) && s.lastTime <= curTime < U128_LIMIT && s.frameCount < I32_MAX
    ensures Sane(Tick(s, curTime))
  {
  }

  /** `From<Fps> for i32`: the stored rate. */
  function FpsOf(s: FpsState): int
  {
    s.fps
  }

  /** The state after a sequence of `update` calls at the given times. */
  function Run(s: FpsState, times: seq<nat>): (r: FpsState)
    requires Ascending(s.lastTime, times)
    ensures s.lastTime <= r.lastTime
    ensures times != [] ==> r.lastTime <= times[|times| - 1]
    decreases |times|
  {
    if times == [] then s else Run(Tick(s, times[0]), times[1..])
  }

  /** Clock readings that never go back, starting from `from`. */
  predicate Ascending(from: nat, times: seq<nat>)
  {
    && (forall i | 0 <= i < |times| :: from <= times[i])
    && (forall i, j | 0 <= i < j < |times| :: times[i] <= times[j])
  }

  /**
   * Calls that come less than two seconds after the recorded time report
   * nothing: each counts one frame, and the recorded time and the rate
   * stay as they were.
   */
  lemma {:induction false} QuietRun(s: FpsState, times: seq<nat>)
    requires s.lastTime != 0 && Ascending(s.lastTime, times)
    requires forall i | 0 <= i < |times| :: times[i] < s.lastTime + INTERVAL
    ensures Run(s, times) == s.(frameCount := s.frameCount + |times|)
    decreases |times|
  {
    if times != [] {
      var t := Tick(s, times[0]);
      assert t == s.(frameCount := s.frameCount + 1);
      QuietRun(t, times[1..]);
    }
  }

  /**
   * The rate a report gives counts every frame since the previous report:
   * after a quiet stretch of calls, a call two seconds or more after the
   * recorded time reports the rate of all those frames and itself over
   * the time that has passed.
   */
  lemma ReportCountsQuietFrames(s: FpsState, times: seq<nat>, curTime: nat)
    requires s.lastTime != 0 && Ascending(s.lastTime, times)
    requires forall i | 0 <= i < |times| :: times[i] < s.lastTime + INTERVAL
    requires curTime >= s.lastTime + INTERVAL
    ensures Reply(Run(s, times), curTime) == Update(Rate(s.frameCount + |times| + 1, curTime - s.lastTime))
  {
    QuietRun(s, times);
    var quiet := s.(frameCount := s.frameCount + |times|);
    ReplyFacts(quiet, curTime);
    TickFacts(quiet, curTime);
  }

  /** The counter's state, updated in place by `update`. */
  class Fps {
    var lastTime: nat
    var frameCount: nat
    var fps: int

    function State(): FpsState
      reads this
    {
      FpsState(lastTime, frameCount, fps)
    }

    /** `Fps::default()`: all fields zero. */
    constructor ()
      ensures State() == Start && Sane(State())
    {
      lastTime := 0;
      frameCount := 0;
      fps := 0;
    }

    /**
     * `update` at time `curTime`: counts the frame, reports when two
     * seconds have passed since the recorded time, and says whether a
     * rate is known otherwise. The clock must not go back, since the
     * `u128` subtraction would underflow.
     */
    method Update(curTime: nat) returns (r: FpsRet)
      requires Sane(State()) && lastTime <= curTime < U128_LIMIT && frameCount < I32_MAX
      modifies this
      ensures State() == Tick(old(State()), curTime) && Sane(State())
      ensures r == Reply(old(State()), curTime)
    {
      ghost var s := State();
      TickSane(s, curTime);
      frameCount := frameCount + 1;
      if lastTime != 0 {
        var elapsed := curTime - lastTime;
        if elapsed >= INTERVAL {
          fps := Rate(frameCount, elapsed);
          lastTime := curTime;
          frameCount := 0;
          return FpsRet.Update(fps);
        }
      } else {
        lastTime := curTime;
      }
      if fps == 0 {
        return NotReady;
      } else {
        return NotUpdated(fps);
      }
    }

    /** `i32::from(fps)`: the rate last reported. */
    method ToI32() returns (r: int)
      ensures r == FpsOf(State())
    {
      return fps;
    }
  }
}
