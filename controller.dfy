/** `StateController`: the mode machine that owns the default sequence
    `waiting` (0, 1, 2) and the user's sequence `current`, and every
    `COLOUR_CHANGE_TIME` ms lights the LED its active sequence names. */
module Controller {
  import opened Words
  import opened Sequence

  const COLOUR_CHANGE_TIME: int := 1000

  /** The number of LEDs: stored moves and the displayed index stay below it. */
  const LED_COUNT: int := 3

  predicate InRange(s: seq<int>)
  {
    forall i :: 0 <= i < |s| ==> 0 <= s[i] < LED_COUNT
  }

  class StateController {
    var waiting: LinkedSequence
    var current: LinkedSequence
    var lastChange: Time
    var editing: bool
    var edited: bool
    var currentIndex: U32

    /** The object invariant: two distinct well-formed sequences, the default
        one fixed at 0, 1, 2, and every stored move a valid LED index. */
    ghost predicate Valid()
      reads this, waiting, current
    {
      && waiting != current
      && waiting.Valid() && current.Valid()
      && waiting.values == [0, 1, 2] && waiting.data == []
      && InRange(current.data) && InRange(current.values)
      && currentIndex < LED_COUNT
    }

    /** The sequence `step` reads and rotates. */
    function Active(): LinkedSequence
      reads this
    {
      if editing then waiting else if edited then current else waiting
    }

    /** Whether `step` at clock reading `now` changes the display. */
    predicate Due(now: Time)
      reads this
    {
      Elapsed(now, lastChange) > COLOUR_CHANGE_TIME
    }

    /** The state in which `step` can never read a null head: the user's
        sequence is only played once it has a ring. */
    ghost predicate Ready()
      reads this, waiting, current
    {
      Valid() && (edited ==> current.values != [])
    }

    constructor ()
      ensures Ready() && fresh(waiting) && fresh(current)
      ensures !editing && !edited && currentIndex == 0 && lastChange == 0
      ensures waiting.Abs() == View([], [0, 1, 2], 0) && current.Abs() == View([], [], 0)
    {
      waiting := new LinkedSequence.FromData([0, 1, 2]);
      current := new LinkedSequence();
      lastChange, editing, edited, currentIndex := 0, false, false, 0;
    }

    /** `step`: once the interval has passed, clears every LED, lights the one
        the active sequence's head names, rotates that sequence once and
        restarts the interval. Reading the head of an empty ring is a null
        dereference in the source, hence the second precondition. */
    method Step(now: Time, leds: array<bool>)
      requires Valid()
      requires Due(now) ==> Active().values != []
      requires leds.Length == LED_COUNT
      modifies this, waiting, current, leds
      ensures Valid()
      ensures waiting == old(waiting) && current == old(current)
      ensures editing == old(editing) && edited == old(edited)
      ensures !old(Due(now)) ==> unchanged(this, waiting, current, leds)
      ensures old(Due(now)) ==>
        && currentIndex == old(Head(Active().Abs()))
        && Active().Abs() == Advanced(old(Active().Abs()))
        && lastChange == now
        && (forall i :: 0 <= i < leds.Length ==> leds[i] == (i == currentIndex))
      ensures Active() == waiting ==> unchanged(current)
      ensures Active() == current ==> unchanged(waiting)
    {
      var sequence := if editing then waiting else if edited then current else waiting;
      if Elapsed(now, lastChange) > COLOUR_CHANGE_TIME {
        for i := 0 to leds.Length
          invariant forall j :: 0 <= j < i ==> !leds[j]
          modifies leds
        {
          leds[i] := false;
        }
        var value := sequence.GetData();
        currentIndex := ToU32(value);
        if currentIndex < leds.Length {
          leds[currentIndex] := true;
        }
        sequence.Step();
        lastChange := now;
      }
    }

    /** `switch_editing` as written: leaving edit mode converts the user's
        moves and marks the user sequence as the one to play, even when no
        move was recorded and the ring is still empty. */
    method SwitchEditing()
      requires Valid()
      modifies this, current
      ensures Valid() && waiting == old(waiting) && current == old(current)
      ensures editing == !old(editing)
      ensures currentIndex == old(currentIndex) && lastChange == old(lastChange)
      ensures old(editing) ==> edited && current.Abs() == Converted(old(current.Abs()))
      ensures !old(editing) ==> edited == old(edited) && unchanged(current)
    {
      editing := !editing;
      if !editing {
        current.Convert();
        edited := true;
      }
    }

    /** `switch_editing` with a fallback: the user sequence is only marked as
        played once its ring exists, so leaving edit mode with nothing
        recorded keeps playing the default sequence. */
    method SwitchEditingChecked()
      requires Ready()
      modifies this, current
      ensures Ready() && waiting == old(waiting) && current == old(current)
      ensures editing == !old(editing)
      ensures currentIndex == old(currentIndex) && lastChange == old(lastChange)
      ensures old(edited) ==> edited
      ensures old(editing) ==>
        current.Abs() == Converted(old(current.Abs())) &&
        (edited <==> current.values != [])
      ensures !old(editing) ==> edited == old(edited) && unchanged(current)
    {
      editing := !editing;
      if !editing {
        current.Convert();
        if current.values != [] {
          edited := true;
        }
      }
    }

    /** `select`: while editing, records the displayed index as the next move. */
    method Select()
      requires Valid()
      modifies current
      ensures Valid()
      ensures editing ==> current.Abs() == old(current.Abs()).(pending := old(current.data) + [currentIndex])
      ensures !editing ==> unchanged(current)
    {
      if !editing {
        return;
      }
      current.AddMove(ToI32(currentIndex));
    }
  }

  /** Entering and leaving edit mode without selecting anything leaves a
      controller whose next due `step` would read the empty user ring. */
  method ExitWithoutSelection() returns (c: StateController)
    ensures c.Valid() && !c.editing && c.edited
    ensures c.Active() == c.current && c.current.values == []
    ensures c.Due(COLOUR_CHANGE_TIME + 1) && !c.Ready()
  {
    c := new StateController();
    c.SwitchEditing();
    c.SwitchEditing();
  }

  /** With the fallback, the same presses keep the default sequence playing. */
  method ExitWithoutSelectionChecked() returns (c: StateController)
    ensures c.Ready() && !c.editing && !c.edited
    ensures c.Active() == c.waiting
  {
    c := new StateController();
    c.SwitchEditingChecked();
    c.SwitchEditingChecked();
  }

  /** Enter edit mode and select the first two displayed indices: 0 and then,
      one display change later, 1. */
  method RecordTwoMoves() returns (c: StateController)
    ensures c.Ready() && c.editing && !c.edited
    ensures c.current.Abs() == View([0, 1], [], 0) && c.lastChange == 2002
    ensures fresh(c) && fresh(c.waiting) && fresh(c.current)
  {
    c := new StateController();
    var leds := new bool[LED_COUNT];
    c.SwitchEditingChecked();
    c.Step(1001, leds);
    assert c.currentIndex == 0;
    c.Select();
    c.Step(2002, leds);
    assert c.currentIndex == 1 && c.current.Abs() == View([0], [], 0);
    c.Select();
  }

  /** After recording 0 and 1, leaving edit mode makes the display replay
      0, 1, 0, not the default 0, 1, 2. */
  method EditRoundTrip() returns (c: StateController, shown: seq<int>)
    ensures c.Ready() && c.edited && !c.editing
    ensures c.current.values == [0, 1]
    ensures shown == [0, 1, 0]
  {
    c := RecordTwoMoves();
    var leds := new bool[LED_COUNT];
    c.SwitchEditingChecked();
    assert c.current.Abs() == View([], [0, 1], 0) && c.Active() == c.current;
    c.Step(3003, leds);
    assert c.currentIndex == 0 && c.current.Abs() == View([], [0, 1], 1);
    shown := [c.currentIndex];
    c.Step(4004, leds);
    assert c.currentIndex == 1 && c.current.Abs() == View([], [0, 1], 0);
    shown := shown + [c.currentIndex];
    c.Step(5005, leds);
    shown := shown + [c.currentIndex];
  }
}
