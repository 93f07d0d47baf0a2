# Button-driven LED sequencer, modelled in Dafny

A model of the LED demo in `linked_leds.cpp`: a push button is read with a
35 ms debounce window, a classifier turns the button's releases into single
and double presses (300 ms window), and a mode controller plays a looping
sequence on three LEDs, one step every 1000 ms. A double press toggles edit
mode; in edit mode a single press records the LED currently lit into a user
sequence, and leaving edit mode closes that sequence into a ring which is
then played instead of the default ring 0, 1, 2.

Modules, one per file:

- `Words` (`words.dfy`): the source's fixed-width integers. The clock is a
  `uint64_t`, and `now - since` is modelled as subtraction modulo 2^64
  (`Elapsed`), so no assumption about a monotonic clock is needed. The
  `int`/`uint32_t` conversions between the sequence and the displayed index
  are modelled too.
- `Debounce` (`debounce.dfy`): `ButtonState::get_state` as a function of two
  raw pin samples, the clock and the shared timestamp `BUTTON_PRESS_TIME`
  (`Read`), the method that runs it against the timestamp object
  (`GetState`), and the interrupt handler `update_time` (`Reset`).
- `Events` (`events.dfy`): `EventManager::get_event` as a function of the
  classifier's fields (`Classify`) and as a method on a class with those
  fields. `Run` feeds it a whole trace of polling ticks, and lemmas over
  traces show that a double click yields one double press and that a lone
  click yields one single press.
- `Sequence` (`sequence.dfy`): `LinkedSequence`. The heap nodes are an arena:
  `values[j]` is node j's value, `next[j]` its successor's index and `head`
  the head's index. An empty ring stands for a null head. The `convert` loop
  builds the nodes and links one by one. The abstract state `View` holds the
  pending list, the ring in link order and the cursor, and the pure
  functions over it (`Converted`, `Advanced`, `AdvancedBy`) carry the lemmas
  about replay order and period.
- `Controller` (`controller.dfy`): `StateController` with its two sequences,
  its mode flags, the displayed index and the LED array. It also holds the
  client scenarios: the edit round trip, and leaving edit mode without
  selecting anything.
- `MainLoop` (`main_loop.dfy`): one iteration of the `main` loop.

Two behaviours of the code differ from what its component names suggest;
the model follows the code:

- The debouncer keeps no remembered state. The "state" in `get_state` is a
  local initialised from the first raw sample. Inside the 35 ms window the
  first raw sample is returned unchanged. Outside it the second sample is
  returned, and the timestamp moves when the two samples differ. Bounces are
  therefore not suppressed: neither this function nor the interrupt
  handler's reset suppresses them, because every result is a raw sample of
  the pin.
- A double press needs only that no polling tick between the first release
  and the second press is more than 300 ms after the first release. The
  second press itself may come any time, because a pressed button never
  triggers the single-press timeout (`Events.DoubleClick` has no constraint
  on the second press's time).

## Model

| member | source | states |
|---|---|---|
| Words.Elapsed | linked_leds.cpp:42 | `uint64_t` subtraction: the plain difference when `since <= now`, the difference plus 2^64 otherwise; zero exactly when the two readings are equal |
| Words.ToU32 | linked_leds.cpp:229 | assigning an `int` to the `uint32_t` index keeps values in range and adds 2^32 to negative ones |
| Words.ToI32 | linked_leds.cpp:252 | passing the `uint32_t` index as an `int` gives a 32-bit signed value that converts back to the same index, and is the identity below 2^31 |
| Debounce.Read | linked_leds.cpp:37-53 | the result is always one of the two raw samples; inside the 35 ms window it is the first sample and the timestamp is kept; outside the window it is the second sample; the timestamp becomes `now` exactly when the result differs from the first sample |
| Debounce.GetState | linked_leds.cpp:37-53 | the imperative read returns `Read`'s state and leaves the shared timestamp at `Read`'s timestamp |
| Debounce.PressTimestamp.constructor | linked_leds.cpp:16 | the static timestamp starts at zero |
| Debounce.PressTimestamp.Reset | linked_leds.cpp:256-260 | the interrupt handler sets the timestamp to its clock reading |
| Events.Classify | linked_leds.cpp:76-110 | after a call `buttonDown` equals the debounced state; a press records `downTime` and changes nothing else; a release records `upTime` and flips `doublePending`; a double press is returned exactly on a release with a click pending; a single press exactly on a tick with no transition, the button up, a click pending and more than 300 ms since the release; a tick with no transition and no single press due changes nothing; any event clears `doublePending` |
| Events.QuietRun | linked_leds.cpp:76-110 | ticks that see no transition and no timeout leave the fields unchanged and produce no event |
| Events.FirstClick | linked_leds.cpp:81-100 | press, any hold, release from the idle state: no event, a click pending, both times recorded |
| Events.DoubleClick | linked_leds.cpp:76-110 | two clicks with every intermediate released tick within 300 ms of the first release give no event until exactly one double press on the second release, and leave no click pending |
| Events.SingleClick | linked_leds.cpp:76-110 | one click followed by released ticks within 300 ms and then one tick past 300 ms gives exactly one single press, on that last tick |
| Events.EventManager.constructor | linked_leds.cpp:67-74 | the classifier starts idle: button up, no click pending, both times zero |
| Events.EventManager.GetEvent | linked_leds.cpp:76-110 | reads the button through `GetState`, then updates the fields and returns the event exactly as `Classify` of the debounced state |
| Sequence.Converted | linked_leds.cpp:162-191 | converting an empty pending list changes nothing; a non-empty one becomes the ring with the cursor on its first entry, and the pending list is emptied |
| Sequence.Advanced | linked_leds.cpp:198-204 | a step keeps the pending list and the ring and moves the cursor one place round the ring; on an empty ring nothing changes |
| Sequence.AdvancedByCursor | linked_leds.cpp:198-204 | k steps move the cursor to `(cursor + k) mod length` and change nothing else; on an empty ring they change nothing |
| Sequence.PlaysInOrder | linked_leds.cpp:162-204 | after converting a non-empty list d and stepping k times, the head holds the entry of d at position k modulo the length of d |
| Sequence.FullTurn | linked_leds.cpp:198-204 | as many steps as the ring has entries return it to the same state |
| Sequence.LinkedSequence.constructor | linked_leds.cpp:150 | starts with no pending moves and a null head |
| Sequence.LinkedSequence.FromData | linked_leds.cpp:152-155 | the initial list is converted at once |
| Sequence.LinkedSequence.AddMove | linked_leds.cpp:157-160 | appends to the pending list; ring, links and head untouched |
| Sequence.LinkedSequence.Convert | linked_leds.cpp:162-191 | the loop links node j to node j + 1 and the last node to the first, and the new state is `Converted` of the old one; an empty pending list is a complete no-op |
| Sequence.LinkedSequence.GetData | linked_leds.cpp:193-196 | returns the head's value; a null head is excluded |
| Sequence.LinkedSequence.Step | linked_leds.cpp:198-204 | following the head's link is `Advanced` of the old state; the links are kept |
| Controller.StateController.constructor | linked_leds.cpp:207-220 | the default sequence is the ring 0, 1, 2 headed at 0, the user sequence is empty, not editing, not edited, index and last change zero |
| Controller.StateController.Step | linked_leds.cpp:222-237 | nothing changes unless more than 1000 ms have passed; then all three LEDs are cleared and only the one at the new index is lit (the range guard is kept), the index is the active sequence's head (the default sequence while editing or before any edit, the user's after), that sequence steps exactly once, the other is unchanged, and the last change becomes `now`; the active sequence must have a ring |
| Controller.StateController.SwitchEditing | linked_leds.cpp:239-247 | toggles editing; leaving edit mode converts the user sequence and sets `edited` even if the ring stays empty |
| Controller.StateController.SwitchEditingChecked | linked_leds.cpp:239-247 | as `SwitchEditing`, but `edited` is set only when the user ring exists, so `edited` never becomes false again and always implies a non-empty user ring |
| Controller.StateController.Select | linked_leds.cpp:249-253 | while editing, appends the displayed index to the user's pending list; otherwise changes nothing |
| Controller.ExitWithoutSelection | linked_leds.cpp:239-247 | entering and leaving edit mode with no selection leaves the user sequence active with an empty ring, so the next due `Step` is not allowed |
| Controller.ExitWithoutSelectionChecked | linked_leds.cpp:239-247 | with the checked switch the same presses keep the default sequence active |
| Controller.RecordTwoMoves | linked_leds.cpp:222-253 | entering edit mode and selecting at the first two display changes records the moves 0 and 1 |
| Controller.EditRoundTrip | linked_leds.cpp:222-253 | after recording 0 and 1 and leaving edit mode, the display shows 0, 1, 0 |
| MainLoop.Tick | linked_leds.cpp:268-291 | one loop iteration: the event is `Classify` of the debounced read; a single press while editing appends the displayed index; a double press toggles editing, and leaving edit mode converts the user's moves and sets `edited` exactly when the ring exists, while entering it changes neither; no event and a single press outside edit mode leave the user's pending list and ring alone; a non-double tick keeps `edited`; then the closing `step` on the sequence active after the dispatch: when due, that sequence advances once, the index becomes its head before the step, `lastChange` becomes the clock reading and only the LED at the new index is lit; otherwise index, LEDs and the active sequence are unchanged; the sequence not playing is unchanged in every case, and the user sequence is exactly the dispatch's effect on it (a move appended, or the conversion) followed by at most that one step; when the user sequence is played after leaving edit mode, it is the freshly converted ring that is read and advanced; the controller stays ready to step |

## Findings

| source | as written | input that shows it | evidently intended | confidence | as-written member | corrected member |
|---|---|---|---|---|---|---|
| linked_leds.cpp:239-247 | leaving edit mode sets `edited` even when `convert` built no ring, after which `step` reads the head of an empty ring (a null `shared_ptr` dereference at linked_leds.cpp:195) | from start-up: double press, double press with no single press in between, then any tick more than 1000 ms after the last change | keep playing the default sequence until the user sequence has a ring | medium, not executed | Controller.ExitWithoutSelection | Controller.StateController.SwitchEditingChecked |

`MainLoop.Tick` uses the corrected switch. `Controller.StateController.Step`
keeps the source's requirement as its precondition: the active sequence must
have a ring when the display is due to change.

## Left out

- MainLoop.Tick: dispatches a double press through `SwitchEditingChecked`, not through the as-written `switch_editing` that linked_leds.cpp:281 calls, so the empty-ring crash of the Findings table cannot occur in the modelled loop.
- Hardware: the pin reads, the LED `DigitalOut`s, the interrupt registration and `ThisThread::sleep_for` (linked_leds.cpp:9-14, 264, 292). Raw pin samples and clock readings are parameters, and the LEDs are an `array<bool>`.
- `get_time` (linked_leds.cpp:22-27): each clock reading is a parameter of the method that takes it.
- Concurrency: the interrupt handler's write to `BUTTON_PRESS_TIME` is a separate method (`Reset`). Its preemption of the main loop is not modelled.
- `shared_ptr`/`unique_ptr` ownership and reference counting: an arena of node values and successor indices replaces the nodes. The `Node` class (linked_leds.cpp:113-141) is that arena's entries.
- Sequence entries are unbounded integers rather than 32-bit `int`. The only caller stores LED indices in {0, 1, 2}.
- The unused `SINGLE_PRESS_TIME` and `DOUBLE_PRESS_TIME` globals and the unused clock reading in the loop (linked_leds.cpp:17-18, 290).
- The `while (true)` loop itself: one iteration is modelled.
- temperature_i2c.cpp is not part of this model: it is I2C register traffic, serial output and floating-point arithmetic.
