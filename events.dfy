/** The press classifier (`EventManager::get_event`): turns the debounced
    button state, polled once per tick, into single and double presses. */
module Events {
  import opened Words
  import Debounce

  const DOUBLE_PRESS_TIMEOUT: int := 300

  datatype EventType = NoPress | SinglePress | DoublePress

  /** The fields of an `EventManager`. */
  datatype Tracker = Tracker(buttonDown: bool, downTime: Time, upTime: Time, doublePending: bool)

  datatype Outcome = Outcome(next: Tracker, event: EventType)

  const Idle: Tracker := Tracker(false, 0, 0, false)

  /** The condition under which a release is reported as a single press. */
  predicate SingleDue(s: Tracker, now: Time)
  {
    !s.buttonDown && s.doublePending && Elapsed(now, s.upTime) > DOUBLE_PRESS_TIMEOUT
  }

  /** One call of `get_event` with the debounced state `pressed` and clock reading `now`. */
  function Classify(s: Tracker, pressed: bool, now: Time): (r: Outcome)
    // the classifier tracks the button
    ensures r.next.buttonDown == pressed
    // a press records its time and touches nothing else
    ensures pressed && !s.buttonDown ==>
      r.next == s.(buttonDown := true, downTime := now) && r.event == NoPress
    // a release records its time and flips the pending flag
    ensures !pressed && s.buttonDown ==>
      r.next.upTime == now && r.next.downTime == s.downTime &&
      r.next.doublePending == !s.doublePending
    // a quiet tick changes nothing
    ensures pressed == s.buttonDown && !SingleDue(s, now) ==> r == Outcome(s, NoPress)
    // no transition: both times are kept
    ensures pressed == s.buttonDown ==> r.next.downTime == s.downTime && r.next.upTime == s.upTime
    // a double press is exactly a release while a first click is pending
    ensures r.event == DoublePress <==> s.buttonDown && !pressed && s.doublePending
    // a single press is exactly a quiet tick after the timeout, never on a release
    ensures r.event == SinglePress <==> !s.buttonDown && !pressed && SingleDue(s, now)
    // any event consumes the pending click
    ensures r.event != NoPress ==> !r.next.doublePending
  {
    var t :=
      if pressed == s.buttonDown then Outcome(s, NoPress)
      else if pressed then Outcome(s.(buttonDown := true, downTime := now), NoPress)
      else if s.doublePending then
        Outcome(s.(buttonDown := false, upTime := now, doublePending := false), DoublePress)
      else Outcome(s.(buttonDown := false, upTime := now, doublePending := true), NoPress);
    if SingleDue(t.next, now) then
      Outcome(t.next.(doublePending := false), SinglePress)
    else
      t
  }

  /** A sample of one polling tick: the debounced state and the clock. */
  datatype Sample = Sample(pressed: bool, now: Time)

  /** The classifier fed a sequence of ticks: the final fields and the events. */
  function Run(s: Tracker, ticks: seq<Sample>): (r: (Tracker, seq<EventType>))
    ensures |r.1| == |ticks|
    decreases |ticks|
  {
    if ticks == [] then (s, [])
    else
      var o := Classify(s, ticks[0].pressed, ticks[0].now);
      var rest := Run(o.next, ticks[1..]);
      (rest.0, [o.event] + rest.1)
  }

  function Silence(n: nat): seq<EventType>
  {
    seq(n, _ => NoPress)
  }

  lemma {:induction false} RunAppend(s: Tracker, a: seq<Sample>, b: seq<Sample>)
    ensures Run(s, a + b) == (Run(Run(s, a).0, b).0, Run(s, a).1 + Run(Run(s, a).0, b).1)
    decreases |a|
  {
    if a == [] {
      assert a + b == b;
      assert Run(s, a) == (s, []);
      assert [] + Run(s, b).1 == Run(s, b).1;
    } else {
      var o := Classify(s, a[0].pressed, a[0].now);
      assert (a + b)[0] == a[0];
      assert (a + b)[1..] == a[1..] + b;
      RunAppend(o.next, a[1..], b);
      var mid := Run(o.next, a[1..]);
      var tail := Run(mid.0, b);
      assert [o.event] + (mid.1 + tail.1) == ([o.event] + mid.1) + tail.1;
    }
  }

  /** A tick that changes nothing: no transition and no single press due. */
  predicate Quiet(s: Tracker, t: Sample)
  {
    t.pressed == s.buttonDown && !SingleDue(s, t.now)
  }

  lemma {:induction false} QuietRun(s: Tracker, ticks: seq<Sample>)
    requires forall i :: 0 <= i < |ticks| ==> Quiet(s, ticks[i])
    ensures Run(s, ticks) == (s, Silence(|ticks|))
    decreases |ticks|
  {
    if ticks != [] {
      QuietRun(s, ticks[1..]);
      assert [NoPress] + Silence(|ticks| - 1) == Silence(|ticks|);
    }
  }

  /** Holding the button: every tick reads it pressed. */
  predicate Held(ticks: seq<Sample>)
  {
    forall i :: 0 <= i < |ticks| ==> ticks[i].pressed
  }

  /** Waiting after a release at `up`: every tick reads the button released,
      no later than the double-press timeout. */
  predicate WaitWithin(ticks: seq<Sample>, up: Time)
  {
    forall i :: 0 <= i < |ticks| ==>
      !ticks[i].pressed && Elapsed(ticks[i].now, up) <= DOUBLE_PRESS_TIMEOUT
  }

  lemma RunOne(s: Tracker, t: Sample)
    ensures var o := Classify(s, t.pressed, t.now); Run(s, [t]) == (o.next, [o.event])
  {
    var o := Classify(s, t.pressed, t.now);
    assert [t][1..] == [];
    assert Run(o.next, []) == (o.next, []);
    assert [o.event] + [] == [o.event];
  }

  /** Press, hold, release from the idle state: no event yet, a click pending. */
  lemma {:induction false} FirstClick(down: Time, hold: seq<Sample>, up: Time)
    requires Held(hold)
    ensures Run(Idle, [Sample(true, down)] + hold + [Sample(false, up)]) ==
      (Tracker(false, down, up, true), Silence(|hold| + 2))
  {
    var pressed := Tracker(true, down, 0, false);
    RunOne(Idle, Sample(true, down));
    forall i | 0 <= i < |hold| ensures Quiet(pressed, hold[i]) { }
    RunAppend(Idle, [Sample(true, down)], hold);
    QuietRun(pressed, hold);
    assert [NoPress] + Silence(|hold|) == Silence(|hold| + 1);
    RunAppend(Idle, [Sample(true, down)] + hold, [Sample(false, up)]);
    RunOne(pressed, Sample(false, up));
    assert Silence(|hold| + 1) + [NoPress] == Silence(|hold| + 2);
  }

  /** Two clicks whose gap stays within the timeout, with any number of polling
      ticks in between, give exactly one double press and nothing else. */
  lemma {:induction false} DoubleClick(d1: Time, h1: seq<Sample>, u1: Time, w: seq<Sample>,
                                       d2: Time, h2: seq<Sample>, u2: Time)
    requires Held(h1) && Held(h2) && WaitWithin(w, u1)
    ensures var ticks := [Sample(true, d1)] + h1 + [Sample(false, u1)] + w +
                         [Sample(true, d2)] + h2 + [Sample(false, u2)];
      Run(Idle, ticks) == (Tracker(false, d2, u2, false), Silence(|ticks| - 1) + [DoublePress])
  {
    var click := [Sample(true, d1)] + h1 + [Sample(false, u1)];
    var s1 := Tracker(false, d1, u1, true);
    FirstClick(d1, h1, u1);
    forall i | 0 <= i < |w| ensures Quiet(s1, w[i]) { }
    QuietRun(s1, w);
    RunAppend(Idle, click, w);
    assert Silence(|click|) + Silence(|w|) == Silence(|click| + |w|);
    var s2 := Tracker(true, d2, u1, true);
    RunOne(s1, Sample(true, d2));
    forall i | 0 <= i < |h2| ensures Quiet(s2, h2[i]) { }
    QuietRun(s2, h2);
    RunAppend(s1, [Sample(true, d2)], h2);
    assert [NoPress] + Silence(|h2|) == Silence(|h2| + 1);
    RunOne(s2, Sample(false, u2));
    RunAppend(s1, [Sample(true, d2)] + h2, [Sample(false, u2)]);
    var second := [Sample(true, d2)] + h2 + [Sample(false, u2)];
    RunAppend(Idle, click + w, second);
    assert click + w + second == [Sample(true, d1)] + h1 + [Sample(false, u1)] + w +
                                 [Sample(true, d2)] + h2 + [Sample(false, u2)];
    assert Silence(|click| + |w|) + (Silence(|h2| + 1) + [DoublePress]) ==
           Silence(|click| + |w| + |second| - 1) + [DoublePress];
  }

  /** One click followed by silence past the timeout gives exactly one single
      press and nothing else. */
  lemma {:induction false} SingleClick(d1: Time, h1: seq<Sample>, u1: Time, w: seq<Sample>, late: Time)
    requires Held(h1) && WaitWithin(w, u1)
    requires Elapsed(late, u1) > DOUBLE_PRESS_TIMEOUT
    ensures var ticks := [Sample(true, d1)] + h1 + [Sample(false, u1)] + w + [Sample(false, late)];
      Run(Idle, ticks) == (Tracker(false, d1, u1, false), Silence(|ticks| - 1) + [SinglePress])
  {
    var click := [Sample(true, d1)] + h1 + [Sample(false, u1)];
    var s1 := Tracker(false, d1, u1, true);
    FirstClick(d1, h1, u1);
    forall i | 0 <= i < |w| ensures Quiet(s1, w[i]) { }
    QuietRun(s1, w);
    RunAppend(Idle, click, w);
    RunOne(s1, Sample(false, late));
    RunAppend(Idle, click + w, [Sample(false, late)]);
    assert Silence(|click|) + Silence(|w|) + [SinglePress] ==
           Silence(|click| + |w|) + [SinglePress];
  }

  /** `EventManager`: the classifier's fields, updated in place. */
  class EventManager {
    var buttonDown: bool
    var buttonDownTime: Time
    var buttonUpTime: Time
    var doublePending: bool

    function Fields(): Tracker
      reads this
    {
      Tracker(buttonDown, buttonDownTime, buttonUpTime, doublePending)
    }

    constructor ()
      ensures Fields() == Idle
    {
      buttonDown, buttonDownTime, buttonUpTime, doublePending := false, 0, 0, false;
    }

    /** `get_event`: `now` is this call's clock reading, `sampleNow` the one
        the button read takes, `first`/`second` the raw pin samples. */
    method GetEvent(stamp: Debounce.PressTimestamp, first: bool, second: bool, sampleNow: Time, now: Time)
      returns (result: EventType)
      modifies this, stamp
      ensures var reading := Debounce.Read(first, second, sampleNow, old(stamp.time));
        stamp.time == reading.pressTime &&
        Outcome(Fields(), result) == Classify(old(Fields()), reading.state, now)
    {
      result := NoPress;
      var state := Debounce.GetState(stamp, first, second, sampleNow);
      if buttonDown != state {
        buttonDown := !buttonDown;
        if buttonDown {
          buttonDownTime := now;
        } else {
          buttonUpTime := now;
          if doublePending {
            result := DoublePress;
            doublePending := false;
          } else {
            doublePending := true;
          }
        }
      }
      if !buttonDown && doublePending && Elapsed(now, buttonUpTime) > DOUBLE_PRESS_TIMEOUT {
        doublePending := false;
        result := SinglePress;
      }
    }
  }
}
