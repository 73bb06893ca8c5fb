# Electric circuit puzzle — a verified model

The program is a beginner "close the electric circuit" game. The board has a
battery, a bulb, a switch panel and a return panel. Three wires join them:
battery to bulb, bulb to switch, and switch to return. The player clicks a wire
to turn it on or off and clicks the switch panel to open or close the switch.
When all three wires and the switch are on, the loop is closed. Current then
flows by Ohm's law (9 V / 10 Ω = 0.9 A) and the bulb lights. Each switch toggle
that leaves the loop closed scores one point. Pressing R turns everything off
and keeps the score.

The model has two modules:

- `Geometry` (geometry.dfy) holds pixel points, integer rectangles with
  half-open containment, and the wire hit test `NearSegment`. The test projects
  the click onto the segment, clamps the projection parameter to [0, 1], and
  compares the squared distance with the squared threshold (8 pixels by
  default). A zero-length segment has its own branch. The computation is done
  in exact real arithmetic. Two lemmas tie it to independent definitions:
  "some point of the closed segment lies within the threshold", and a
  division-free integer form.
- `Circuit` (circuit.dfy) holds the board layout and the electrical constants.
  The game's variables are given as a `State` value. The rules are written as
  functions on that value: `ClickStep` (first-match click dispatch),
  `ResetStep`, `Step` (one input event) and `Run` (a batch of events). The class
  `CircuitGame` keeps the same variables as fields and updates them in place
  with `Click`, `Reset` and `HandleEvents`. Each method is proved to produce
  the state its function gives.

The comment on the score variable (main.py:110) says the score increases when
the player closes the circuit. In the click handler (main.py:297-321) only the
switch branch changes the score: it scores when a switch toggle leaves the loop
closed. A wire click that completes the loop while the switch is already on
closes the loop without scoring (`Circuit.WireClickNeverScores`).

## Model

| member | source | states |
|---|---|---|
| `Geometry.Rect.CenterY` | main.py:85-92 | the vertical centre of a panel is its top plus half its height rounded down, as integer rectangle centres are |
| `Geometry.Rect.Contains` | main.py:316 | half-open containment of a click in a panel; for the switch panel this is x ∈ [540,680), y ∈ [160,260) (by `Circuit.WireCoordinates`) |
| `Geometry.NearSegment` | main.py:142-172 | the wire hit test; it equals the integer form `NearSegmentExact` (by `Geometry.NearSegmentAgreesWithExact`) and holds exactly when some point of the closed segment is within the threshold (by `Geometry.NearSegmentIsNearSomeSegmentPoint`) |
| `Geometry.ClampUnit` | main.py:163-164 | the clamped projection parameter always lies in [0, 1]; it is unchanged inside [0, 1], 0 below and 1 above |
| `Geometry.ClosestParam` | main.py:161-164 | for a segment of non-zero length, the comparison point's parameter lies on the closed segment |
| `Geometry.ZeroLengthSegmentHit` | main.py:153-160 | a segment with zero squared length has equal endpoints, and a click hits it exactly when its squared distance to that point is at most threshold² |
| `Geometry.ClosestParamIsNearest` | main.py:161-172 | the clamped projection is the point of the segment nearest to the click: no parameter in [0, 1] gives a smaller squared distance |
| `Geometry.NearSegmentIsNearSomeSegmentPoint` | main.py:142-172 | the hit test succeeds if and only if some point of the closed segment, endpoints included, lies within the threshold |
| `Geometry.NearSegmentAgreesWithExact` | main.py:152-172 | on every input, the hit test equals its division-free integer form (endpoint distance when the projection falls outside, `W·L − D² ≤ r²·L` inside) |
| `Geometry.SegmentPointIsHit` | main.py:161-172 | a click exactly on the segment is a hit for every threshold |
| `Geometry.EndpointsAreHits` | main.py:161-172 | both endpoints of a segment are hits for every threshold |
| `Circuit.WireCoordinates` | main.py:78-92 | the wires run from (180,250) to (300,210), from (420,210) to (540,210) and from (680,210) to (760,250); the switch panel is x ∈ [540,680), y ∈ [160,260) |
| `Circuit.ClosedTruthTable` | main.py:251-254 | the loop is closed if and only if the flag of every part is on, so all-on is the only closed row of the 16-row truth table (a restatement of the definition over `Flag`) |
| `Circuit.Closed` | main.py:251-254 | the loop is closed when all three wires and the switch are on; by `Circuit.ClosedTruthTable`, exactly when every part's flag is on |
| `Circuit.Current` | main.py:256-263 | the current is exactly 0.9 A (9 V / 10 Ω) when the loop is closed and 0 otherwise |
| `Circuit.BulbLitIffClosed` | main.py:376-379 | the bulb is lit (current > 0) if and only if the loop is closed |
| `Circuit.BulbLit` | main.py:377-379 | the bulb is lit when the current is positive; by `Circuit.BulbLitIffClosed`, exactly when the loop is closed |
| `Circuit.Hits` | main.py:298-316 | a click hits a wire when the hit test with threshold 8 succeeds on that wire's endpoints, and hits the switch when it lies inside the switch panel |
| `Circuit.ClickTarget` | main.py:297-316 | the part a click toggles is one the click hits; by `Circuit.ClickTargetIsFirstHit`, the first hit part in the order wire 1, wire 2, wire 3, switch, or none when nothing is hit |
| `Circuit.ClickTargetIsFirstHit` | main.py:297-316 | a click toggles a part if and only if it hits that part and none of the parts tested before it (wire 1, wire 2, wire 3, then the switch panel); it toggles nothing if and only if it hits nothing |
| `Circuit.ClickStep` | main.py:287-324 | a click flips exactly the targeted flag and leaves the other three unchanged; the score rises by one exactly when the target is the switch and the loop is closed afterwards; a click that hits nothing changes nothing |
| `Circuit.ClickTwiceRestoresFlags` | main.py:297-324 | two clicks at the same position restore all four flags, because the target depends only on the position |
| `Circuit.ClickScoresOnlyBySwitchClosingLoop` | main.py:315-324 | a click changes the score if and only if it toggles the switch from off to on while all three wires are on; the score then rises by exactly one and the loop is closed |
| `Circuit.WireClickNeverScores` | main.py:297-313 | a click that does not toggle the switch never changes the score, even when it completes the loop |
| `Circuit.ClickOnClosedLoopNeverScores` | main.py:315-324 | once the loop is closed, no click scores, and any click that toggles a part opens the loop |
| `Circuit.WireWinsOverSwitchPanel` | main.py:303-316 | the point (540,210) lies inside the switch panel, yet a click there toggles wire 2, not the switch |
| `Circuit.BatteryToBulbMidpointTarget` | main.py:297-301 | a click at (240,230), the middle of wire 1, toggles wire 1 |
| `Circuit.BulbToSwitchMidpointTarget` | main.py:303-307 | a click at (480,210), the middle of wire 2, toggles wire 2 |
| `Circuit.SwitchToReturnMidpointTarget` | main.py:309-313 | a click at (720,230), the middle of wire 3, toggles wire 3 |
| `Circuit.SwitchPanelTarget` | main.py:315-317 | a click at (610,170) on the switch panel, away from the wires, toggles the switch |
| `Circuit.CloseThenReopen` | main.py:287-324 | from the start state, turning on the three wires and then the switch closes the loop with current 0.9 A and score 1; toggling the switch again opens the loop, drops the current to 0 and keeps the score at 1 |
| `Circuit.ResetStep` | main.py:326-342 | reset turns all three wires and the switch off, so the loop is open, and keeps the score |
| `Circuit.Step` | main.py:357-371 | one event: quit and other events change nothing, key R resets, a mouse press is a click; each event leaves the score unchanged or raises it by one |
| `Circuit.Run` | main.py:357-371 | a batch of events handled in order; by `Circuit.RunAppend`, `Circuit.ScoreNeverDecreases` and `Circuit.ScoreAtMostOnePerEvent`, batches compose and the score rises by at most one per event and never falls |
| `Circuit.RunAppend` | main.py:357-371 | handling one batch of events and then another equals handling the two batches joined |
| `Circuit.ScoreNeverDecreases` | main.py:287-342 | the score never decreases over any sequence of clicks, resets and other events |
| `Circuit.ScoreAtMostOnePerEvent` | main.py:357-371 | a batch of n events raises the score by at most n |
| `Circuit.QuitDoesNotStopBatch` | main.py:357-360 | a quit event changes no game state, and the events after it in the same batch are still handled |
| `Circuit.CircuitGame.constructor` | main.py:103-114 | the game starts with all wires off, the switch open, score 0 and the welcome hint |
| `Circuit.CircuitGame.Click` | main.py:287-324 | the in-place click handler leaves exactly the state `ClickStep` gives |
| `Circuit.CircuitGame.Reset` | main.py:326-342 | the in-place reset leaves exactly the state `ResetStep` gives |
| `Circuit.CircuitGame.HandleEvents` | main.py:357-371 | handling a frame's events in order leaves the state `Run` gives; the running flag ends up true only if it was true and no quit event came |

## Left out

- Drawing is not modelled: panels, wires, battery, bulb, switch, return symbol, text, screen fill and display flip (main.py:120-140, 174-249, 265-285, 385-417). These are graphics-library calls with no logic to state.
- Window and font setup, the frame clock, `pygame.quit` and `sys.exit` are not modelled (main.py:13-61, 354, 420-422). They are I/O.
- Geometry.NearSegment: computed in exact real arithmetic. The program uses floating point, so rounding could decide a click that lies exactly on the threshold boundary differently.
- Circuit.Current: the current is the exact real 9/10. The floating-point value, its two-decimal display and the bulb brightness mapping are cosmetic and not modelled.
- Circuit.CircuitGame.HandleEvents: a mouse-press event carries the click position. The program reads the pointer position when it handles the event. The outer frame loop is not modelled; one call handles one frame's batch of events.
- Event kinds other than quit, key-down and mouse-press are collapsed into one "other" event that changes nothing. Keys other than R are collapsed into one "other" key.
- The hint messages are an enumeration with one value per message. The exact strings are not modelled.
- Rectangles with a negative width or height do not occur on this board and are not modelled.
