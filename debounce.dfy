/** The button reader (`ButtonState::get_state`) and the shared timestamp
    `BUTTON_PRESS_TIME` that it and the falling-edge interrupt handler write. */
module Debounce {
  import opened Words

  const DEBOUNCE_TIME: int := 35

  /** What one read returns: the state and the new value of the timestamp. */
  datatype Reading = Reading(state: bool, pressTime: Time)

  /** One read of the button from two raw samples of the pin, `first` taken
      before and `second` after the clock read `now`. The state is a local
      variable, not a remembered one: inside the debounce window the first
      sample passes through unchanged. */
  function Read(first: bool, second: bool, now: Time, pressTime: Time): (r: Reading)
    // the result is always one of the two raw samples
    ensures r.state == first || r.state == second
    // inside the window: the first sample, timestamp untouched
    ensures Elapsed(now, pressTime) <= DEBOUNCE_TIME ==> r == Reading(first, pressTime)
    // outside the window the latest sample wins
    ensures Elapsed(now, pressTime) > DEBOUNCE_TIME ==> r.state == second
    // the timestamp moves to `now` exactly when the result differs from the first sample
    ensures r.state != first ==> r.pressTime == now
    ensures r.state == first ==> r.pressTime == pressTime
  {
    if Elapsed(now, pressTime) > DEBOUNCE_TIME && first != second then
      Reading(!first, now)
    else
      Reading(first, pressTime)
  }

  /** The global `BUTTON_PRESS_TIME`. */
  class PressTimestamp {
    var time: Time

    constructor ()
      ensures time == 0
    {
      time := 0;
    }

    /** The falling-edge interrupt handler `update_time`, with the clock
        reading it takes passed in. */
    method Reset(now: Time)
      modifies this
      ensures time == now
    {
      time := now;
    }
  }

  /** `ButtonState::get_state` (the class has no fields, so this is a plain
      method over the shared timestamp). */
  method GetState(stamp: PressTimestamp, first: bool, second: bool, now: Time) returns (state: bool)
    modifies stamp
    ensures Reading(state, stamp.time) == Read(first, second, now, old(stamp.time))
  {
    state := first;
    if Elapsed(now, stamp.time) > DEBOUNCE_TIME {
      var current := second;
      if state != current {
        state := !state;
        stamp.time := now;
      }
    }
  }
}
