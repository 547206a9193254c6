/** displayFPS: the frame-rate counter GLprimer calls once per frame. It keeps three
    values alive between calls (a frame count, the last measured rate and the start
    of the current measuring window), recomputes the rate once the window has lasted
    a second, and puts the time per frame and the rate in the window title whenever a
    new window starts. The clock reading is a parameter; the window title is returned
    as the pair of numbers it would show. */
module FrameCounter {

  datatype Option<T> = None | Some(value: T)

  /** What the title shows: milliseconds per frame and frames per second. */
  datatype TitleStats = TitleStats(msPerFrame: real, fps: real)

  /** The counter's persistent values: frames counted in the current window, the
      rate measured over the previous window, and the time the current window began. */
  datatype CounterState = CounterState(frames: int, fps: real, t0: real)

  /** The outcome of one call: the new state, the rate returned, and the title
      statistics when the title is rewritten (None when it is left as it was). */
  datatype TickResult = TickResult(next: CounterState, rate: real, title: Option<TitleStats>)

  /** Time per frame in milliseconds; 0 while no rate has been measured. */
  function FrameTime(fps: real): (ms: real)
    ensures ms >= 0.0
    ensures ms > 0.0 <==> fps > 0.0
  {
    if fps > 0.0 then 1000.0 / fps else 0.0
  }

  /** For a measured rate, the time per frame is its reciprocal, in milliseconds. */
  lemma FrameTimeIsReciprocal(fps: real)
    requires fps > 0.0
    ensures FrameTime(fps) * fps == 1000.0
  {
  }

  /** The state on the first call: nothing counted, no rate, the window starting now. */
  function Initial(now: real): CounterState
  {
    CounterState(0, 0.0, now)
  }

  /** One call of displayFPS at clock reading t. */
  function Tick(st: CounterState, t: real): (r: TickResult)
    ensures r.rate == r.next.fps
    ensures r.title.Some? <==> (t - st.t0 >= 1.0 || st.frames == 0)
    ensures r.title.Some? ==> r.title.value == TitleStats(FrameTime(r.rate), r.rate)
  {
    var window := if t - st.t0 >= 1.0 then CounterState(0, st.frames as real / (t - st.t0), t) else st;
    var title := if window.frames == 0 then Some(TitleStats(FrameTime(window.fps), window.fps)) else None;
    TickResult(window.(frames := window.frames + 1), window.fps, title)
  }

  /** A call a second or more after the window began measures the rate over that
      window, starts a new one at t, and counts itself as its first frame. */
  lemma TickRollsOver(st: CounterState, t: real)
    requires t - st.t0 >= 1.0
    ensures Tick(st, t).rate * (t - st.t0) == st.frames as real
    ensures Tick(st, t).next.t0 == t && Tick(st, t).next.frames == 1
    ensures Tick(st, t).title.Some?
  {
    var d := t - st.t0;
    assert (st.frames as real / d) * d == st.frames as real;
  }

  /** A call inside the window only counts a frame; it returns the stored rate. */
  lemma TickWithinWindow(st: CounterState, t: real)
    requires t - st.t0 < 1.0
    ensures Tick(st, t).next == st.(frames := st.frames + 1)
    ensures Tick(st, t).rate == st.fps
  {
  }

  /** The very first call reports no rate and writes a title showing zeros. */
  lemma FirstTickReportsZero(now: real, t: real)
    ensures Tick(Initial(now), t).rate == 0.0
    ensures Tick(Initial(now), t).title == Some(TitleStats(0.0, 0.0))
  {
  }

  /** The frame count and the rate are never negative. */
  predicate Valid(st: CounterState)
  {
    st.frames >= 0 && st.fps >= 0.0
  }

  lemma TickKeepsValid(st: CounterState, t: real)
    requires Valid(st)
    ensures Valid(Tick(st, t).next) && Tick(st, t).next.frames >= 1
    ensures Tick(st, t).title.Some? ==> Tick(st, t).title.value.msPerFrame >= 0.0
  {
    if t - st.t0 >= 1.0 {
      var d := t - st.t0;
      assert st.frames as real / d >= 0.0;
    }
  }

  /** The state after calls at the clock readings ts, in order. */
  function Run(st: CounterState, ts: seq<real>): CounterState
    decreases |ts|
  {
    if |ts| == 0 then st else Run(Tick(st, ts[0]).next, ts[1..])
  }

  /** Calls inside the window add one frame each and change nothing else. */
  lemma {:induction false} WindowCount(st: CounterState, ts: seq<real>)
    requires forall i :: 0 <= i < |ts| ==> ts[i] - st.t0 < 1.0
    ensures Run(st, ts) == st.(frames := st.frames + |ts|)
    decreases |ts|
  {
    if |ts| > 0 {
      TickWithinWindow(st, ts[0]);
      var next := Tick(st, ts[0]).next;
      assert forall i :: 0 <= i < |ts[1..]| ==> ts[1..][i] - next.t0 < 1.0 by {
        forall i | 0 <= i < |ts[1..]|
          ensures ts[1..][i] - next.t0 < 1.0
        {
          assert ts[1..][i] == ts[i + 1];
        }
      }
      WindowCount(next, ts[1..]);
    }
  }

  /** The rate reported at the end of a window is the number of calls made during
      it, the one that opened it included, divided by its length: last is the state
      after the calls at ts, and the call at t closes the window. */
  lemma FpsIsFramesPerWindow(st: CounterState, ts: seq<real>, last: CounterState, t: real)
    requires forall i :: 0 <= i < |ts| ==> ts[i] - st.t0 < 1.0
    requires last == Run(st, ts) && t - st.t0 >= 1.0
    ensures Tick(last, t).rate * (t - st.t0) == (st.frames + |ts|) as real
  {
    WindowCount(st, ts);
    WindowEnds(last, st, |ts|, t);
  }

  /** Closing a window whose count grew by n since st. */
  lemma WindowEnds(last: CounterState, st: CounterState, n: nat, t: real)
    requires last == st.(frames := st.frames + n) && t - st.t0 >= 1.0
    ensures Tick(last, t).rate * (t - st.t0) == (st.frames + n) as real
  {
    TickRollsOver(last, t);
  }

  /** The counter object: displayFPS's three static variables. */
  class FpsCounter {
    var frames: int
    var fps: real
    var t0: real

    function State(): CounterState
      reads this
    {
      CounterState(frames, fps, t0)
    }

    /** The statics' initialisation on the first call, with now the first clock reading. */
    constructor(now: real)
      ensures State() == Initial(now)
    {
      frames := 0;
      fps := 0.0;
      t0 := now;
    }

    /** One call of displayFPS at clock reading t: returns the rate and, when the
        title is rewritten, what it shows. */
    method Step(t: real) returns (rate: real, title: Option<TitleStats>)
      modifies this
      ensures Tick(old(State()), t) == TickResult(State(), rate, title)
    {
      if t - t0 >= 1.0 {
        fps := frames as real / (t - t0);
        t0 := t;
        frames := 0;
      }
      title := None;
      if frames == 0 {
        title := Some(TitleStats(FrameTime(fps), fps));
      }
      frames := frames + 1;
      rate := fps;
    }
  }
}
