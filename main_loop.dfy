/** One iteration of the `main` loop: classify the button, dispatch the
    event to the controller, then let the controller update the display. */
module MainLoop {
  import opened Words
  import Debounce
  import opened Events
  import opened Sequence
  import opened Controller

  /** The three clock readings are those of `get_event`, of the button read
      inside it, and of `StateController::step`; `first` and `second` are the
      two raw samples of the button pin. Double presses go through the
      checked `switch_editing`, so the controller stays ready to step. */
  method Tick(manager: EventManager, stamp: Debounce.PressTimestamp, ctrl: StateController,
              leds: array<bool>, first: bool, second: bool,
              eventNow: Time, sampleNow: Time, stepNow: Time)
    returns (event: EventType)
    requires ctrl.Ready()
    requires leds.Length == LED_COUNT
    modifies manager, stamp, ctrl, ctrl.waiting, ctrl.current, leds
    ensures ctrl.Ready()
    ensures ctrl.waiting == old(ctrl.waiting) && ctrl.current == old(ctrl.current)
    ensures var reading := Debounce.Read(first, second, sampleNow, old(stamp.time));
      stamp.time == reading.pressTime &&
      Outcome(manager.Fields(), event) == Classify(old(manager.Fields()), reading.state, eventNow)
    ensures ctrl.editing == (if event == DoublePress then !old(ctrl.editing) else old(ctrl.editing))
    ensures event == SinglePress && old(ctrl.editing) ==>
      ctrl.current.data == old(ctrl.current.data) + [old(ctrl.currentIndex)]
    ensures event == DoublePress && old(ctrl.editing) ==>
      ctrl.current.data == [] &&
      (old(ctrl.current.data) != [] ==> ctrl.current.values == old(ctrl.current.data))
    ensures event == DoublePress && old(ctrl.editing) ==> (ctrl.edited <==> ctrl.current.values != [])
    ensures event == DoublePress && !old(ctrl.editing) ==>
      ctrl.edited == old(ctrl.edited) && ctrl.current.Abs() == old(ctrl.current.Abs())
    ensures event == NoPress || (event == SinglePress && !old(ctrl.editing)) ==>
      ctrl.current.data == old(ctrl.current.data) && ctrl.current.values == old(ctrl.current.values)
    ensures event != DoublePress ==> ctrl.edited == old(ctrl.edited)
    // the sequence not playing is left alone
    ensures ctrl.Active() == ctrl.current ==> ctrl.waiting.Abs() == old(ctrl.waiting.Abs())
    // the user sequence: the dispatch's effect, then one step if it plays and is due
    ensures var mid := if event == SinglePress && old(ctrl.editing)
                         then old(ctrl.current.Abs()).(pending := old(ctrl.current.data) + [old(ctrl.currentIndex) as int])
                       else if event == DoublePress && old(ctrl.editing)
                         then Converted(old(ctrl.current.Abs()))
                       else old(ctrl.current.Abs());
      Wf(mid) &&
      ctrl.current.Abs() == (if ctrl.Active() == ctrl.current && old(ctrl.Due(stepNow)) then Advanced(mid) else mid)
    // the closing `step`: due or not, as `StateController.Step` states
    ensures ctrl.Active() == ctrl.waiting ==>
      ctrl.waiting.Abs() ==
        (if old(ctrl.Due(stepNow)) then Advanced(old(ctrl.waiting.Abs())) else old(ctrl.waiting.Abs())) &&
      (old(ctrl.Due(stepNow)) ==> ctrl.currentIndex == Head(old(ctrl.waiting.Abs())))
    ensures var mid := if event == DoublePress && old(ctrl.editing)
                       then Converted(old(ctrl.current.Abs())) else old(ctrl.current.Abs());
      ctrl.Active() == ctrl.current && old(ctrl.Due(stepNow)) ==>
        Wf(mid) && mid.ring != [] && ctrl.currentIndex == Head(mid) &&
        ctrl.current.Abs() == Advanced(mid)
    ensures ctrl.lastChange == (if old(ctrl.Due(stepNow)) then stepNow else old(ctrl.lastChange))
    ensures old(ctrl.Due(stepNow)) ==>
      forall i :: 0 <= i < leds.Length ==> leds[i] == (i == ctrl.currentIndex)
    ensures !old(ctrl.Due(stepNow)) ==>
      ctrl.currentIndex == old(ctrl.currentIndex) && leds[..] == old(leds[..])
  {
    event := manager.GetEvent(stamp, first, second, sampleNow, eventNow);
    match event {
      case SinglePress => ctrl.Select();
      case DoublePress => ctrl.SwitchEditingChecked();
      case NoPress =>
    }
    ctrl.Step(stepNow, leds);
  }
}
