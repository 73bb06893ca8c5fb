/**
  The "close the electric circuit" puzzle: three wires and a switch that the
  player toggles by clicking, a bulb that lights when the loop is complete, and
  a score that rises each time a switch toggle completes the loop.

  The rules are stated on `State`, a snapshot of the game's variables, by the
  functions `ClickStep`, `ResetStep`, `Step` and `Run`. The class `CircuitGame`
  holds those variables as fields and updates them in place; each of its
  methods is proved to leave the snapshot that the corresponding function gives.
 */
module Circuit {
  import opened Geometry

  // ---------------------------------------------------------------------------
  // Electrical constants and board layout
  // ---------------------------------------------------------------------------

  /** Battery voltage in volts. */
  const BatteryVoltage: int := 9
  /** Bulb resistance in ohms. */
  const BulbResistance: int := 10

  const BatteryRect: Rect := Rect(60, 180, 120, 140)
  const BulbRect: Rect := Rect(300, 150, 120, 120)
  const SwitchRect: Rect := Rect(540, 160, 140, 100)
  const ReturnRect: Rect := Rect(760, 180, 100, 140)

  /** The midpoint of a panel's right edge, where a wire leaves it. */
  function RightMid(r: Rect): Point { Point(r.Right(), r.CenterY()) }

  /** The midpoint of a panel's left edge, where a wire arrives. */
  function LeftMid(r: Rect): Point { Point(r.left, r.CenterY()) }

  datatype Option<T> = None | Some(value: T)

  /** The four things a click can toggle, in the order a click tests them. */
  datatype Part = BatteryToBulb | BulbToSwitch | SwitchToReturn | Switch

  /** Where a wire starts. */
  function WireStart(w: Part): Point
    requires w != Switch
  {
    match w
    case BatteryToBulb => RightMid(BatteryRect)
    case BulbToSwitch => RightMid(BulbRect)
    case SwitchToReturn => RightMid(SwitchRect)
  }

  /** Where a wire ends. */
  function WireEnd(w: Part): Point
    requires w != Switch
  {
    match w
    case BatteryToBulb => LeftMid(BulbRect)
    case BulbToSwitch => LeftMid(SwitchRect)
    case SwitchToReturn => LeftMid(ReturnRect)
  }

  /** The wire attachment points in pixels. */
  lemma WireCoordinates()
    ensures WireStart(BatteryToBulb) == Point(180, 250) && WireEnd(BatteryToBulb) == Point(300, 210)
    ensures WireStart(BulbToSwitch) == Point(420, 210) && WireEnd(BulbToSwitch) == Point(540, 210)
    ensures WireStart(SwitchToReturn) == Point(680, 210) && WireEnd(SwitchToReturn) == Point(760, 250)
    ensures forall p: Point :: SwitchRect.Contains(p) <==> 540 <= p.x < 680 && 160 <= p.y < 260
  {
  }

  // ---------------------------------------------------------------------------
  // Game state
  // ---------------------------------------------------------------------------

  /** The feedback line shown under the controls, one value per message. */
  datatype Hint =
    | Welcome
    | ToggledBatteryToBulb
    | ToggledBulbToSwitch
    | ToggledSwitchToReturn
    | CircuitComplete
    | SwitchToggled
    | ResetDone

  /** A snapshot of the game's variables. */
  datatype State = State(
    batteryToBulb: bool,
    bulbToSwitch: bool,
    switchToReturn: bool,
    switchOn: bool,
    score: int,
    hint: Hint)

  /** The state at start-up: every wire off, the switch open, no score. */
  const Initial: State := State(false, false, false, false, 0, Welcome)

  /** The on/off flag of one part. */
  function Flag(s: State, part: Part): bool {
    match part
    case BatteryToBulb => s.batteryToBulb
    case BulbToSwitch => s.bulbToSwitch
    case SwitchToReturn => s.switchToReturn
    case Switch => s.switchOn
  }

  // ---------------------------------------------------------------------------
  // Circuit evaluation
  // ---------------------------------------------------------------------------

  /** The loop is closed when every wire is on and the switch is on. */
  predicate Closed(s: State) {
    s.batteryToBulb && s.bulbToSwitch && s.switchToReturn && s.switchOn
  }

  /** The loop is closed exactly when every part's flag is on. */
  lemma ClosedTruthTable(s: State)
    ensures Closed(s) <==> forall part: Part :: Flag(s, part)
  {
    if !Closed(s) {
      if !s.batteryToBulb { assert !Flag(s, BatteryToBulb); }
      else if !s.bulbToSwitch { assert !Flag(s, BulbToSwitch); }
      else if !s.switchToReturn { assert !Flag(s, SwitchToReturn); }
      else { assert !Flag(s, Switch); }
    }
  }

  /** The current through the bulb by Ohm's law, in amperes: V / R when the loop is closed. */
  function Current(s: State): (i: real)
    ensures Closed(s) ==> i == 0.9
    ensures !Closed(s) ==> i == 0.0
  {
    if Closed(s) then BatteryVoltage as real / BulbResistance as real else 0.0
  }

  /** The bulb glows when current flows. */
  predicate BulbLit(s: State) {
    Current(s) > 0.0
  }

  /** The bulb is lit exactly when the loop is closed. */
  lemma BulbLitIffClosed(s: State)
    ensures BulbLit(s) <==> Closed(s)
  {
  }

  // ---------------------------------------------------------------------------
  // Clicks
  // ---------------------------------------------------------------------------

  /** Does a click at `p` land on `part`: near a wire, or inside the switch panel? */
  predicate Hits(part: Part, p: Point) {
    if part == Switch then SwitchRect.Contains(p)
    else NearSegment(p, WireStart(part), WireEnd(part), DefaultThreshold)
  }

  /** The position of a part in the order a click tests them. */
  function Rank(part: Part): nat {
    match part
    case BatteryToBulb => 0
    case BulbToSwitch => 1
    case SwitchToReturn => 2
    case Switch => 3
  }

  /** The part a click at `p` toggles: the first one, in click order, that it hits. */
  function ClickTarget(p: Point): (r: Option<Part>)
    ensures r.Some? ==> Hits(r.value, p)
  {
    if Hits(BatteryToBulb, p) then Some(BatteryToBulb)
    else if Hits(BulbToSwitch, p) then Some(BulbToSwitch)
    else if Hits(SwitchToReturn, p) then Some(SwitchToReturn)
    else if Hits(Switch, p) then Some(Switch)
    else None
  }

  /**
    First-match priority: a click toggles `part` exactly when it hits `part` and
    none of the parts tested before it; it toggles nothing exactly when it hits
    nothing.
   */
  lemma ClickTargetIsFirstHit(p: Point, part: Part)
    ensures ClickTarget(p) == Some(part) <==>
      Hits(part, p) && forall q: Part :: Rank(q) < Rank(part) ==> !Hits(q, p)
    ensures ClickTarget(p) == None <==> forall q: Part :: !Hits(q, p)
  {
    var h1, h2, h3, h4 := Hits(BatteryToBulb, p), Hits(BulbToSwitch, p), Hits(SwitchToReturn, p), Hits(Switch, p);
    forall q: Part
      ensures Hits(q, p) == match q
        case BatteryToBulb => h1
        case BulbToSwitch => h2
        case SwitchToReturn => h3
        case Switch => h4
    {
    }
  }

  /** The state after a click at `p`. */
  function ClickStep(s: State, p: Point): (r: State)
    ensures forall part: Part :: Flag(r, part) == (Flag(s, part) != (ClickTarget(p) == Some(part)))
    ensures r.score == (if ClickTarget(p) == Some(Switch) && Closed(r) then s.score + 1 else s.score)
    ensures ClickTarget(p) == None ==> r == s
  {
    match ClickTarget(p)
    case Some(BatteryToBulb) =>
      s.(batteryToBulb := !s.batteryToBulb, hint := ToggledBatteryToBulb)
    case Some(BulbToSwitch) =>
      s.(bulbToSwitch := !s.bulbToSwitch, hint := ToggledBulbToSwitch)
    case Some(SwitchToReturn) =>
      s.(switchToReturn := !s.switchToReturn, hint := ToggledSwitchToReturn)
    case Some(Switch) =>
      var toggled := s.(switchOn := !s.switchOn);
      if Closed(toggled) then toggled.(score := s.score + 1, hint := CircuitComplete)
      else toggled.(hint := SwitchToggled)
    case None =>
      s
  }

  /** Two clicks at the same position leave every flag as it was. */
  lemma ClickTwiceRestoresFlags(s: State, p: Point)
    ensures forall part: Part :: Flag(ClickStep(ClickStep(s, p), p), part) == Flag(s, part)
  {
  }

  /**
    A click scores exactly when it toggles the switch from off to on while all
    three wires are on, and then by one.
   */
  lemma ClickScoresOnlyBySwitchClosingLoop(s: State, p: Point)
    ensures ClickStep(s, p).score != s.score <==>
      ClickTarget(p) == Some(Switch) && !s.switchOn &&
      s.batteryToBulb && s.bulbToSwitch && s.switchToReturn
    ensures ClickStep(s, p).score != s.score ==>
      ClickStep(s, p).score == s.score + 1 && Closed(ClickStep(s, p))
  {
  }

  /** Completing the loop by a wire while the switch is already on does not score. */
  lemma WireClickNeverScores(s: State, p: Point)
    requires ClickTarget(p) != Some(Switch)
    ensures ClickStep(s, p).score == s.score
  {
  }

  /** Once the loop is closed, no click scores again until it has been opened. */
  lemma ClickOnClosedLoopNeverScores(s: State, p: Point)
    requires Closed(s)
    ensures ClickStep(s, p).score == s.score
    ensures ClickTarget(p).Some? ==> !Closed(ClickStep(s, p))
  {
  }

  /** Wire 2 ends inside the switch panel, and a click there toggles wire 2, not the switch. */
  lemma WireWinsOverSwitchPanel()
    ensures SwitchRect.Contains(Point(540, 210))
    ensures ClickTarget(Point(540, 210)) == Some(BulbToSwitch)
  {
    EndpointsAreHits(WireStart(BulbToSwitch), WireEnd(BulbToSwitch), DefaultThreshold);
    NearSegmentAgreesWithExact(Point(540, 210), WireStart(BatteryToBulb), WireEnd(BatteryToBulb), DefaultThreshold);
  }

  // ---------------------------------------------------------------------------
  // Reset and events
  // ---------------------------------------------------------------------------

  /** The state after pressing R: every wire off and the switch open; the score is kept. */
  function ResetStep(s: State): (r: State)
    ensures forall part: Part :: !Flag(r, part)
    ensures !Closed(r) && r.score == s.score
  {
    s.(batteryToBulb := false, bulbToSwitch := false, switchToReturn := false,
       switchOn := false, hint := ResetDone)
  }

  datatype Key = KeyR | OtherKey

  /** One input event of a frame; a mouse press carries the pointer position. */
  datatype Event = Quit | KeyDown(key: Key) | MouseDown(pos: Point) | OtherEvent

  /** The state after one event. Quitting only stops the main loop: it changes no game state. */
  function Step(s: State, e: Event): (r: State)
    ensures s.score <= r.score <= s.score + 1
  {
    match e
    case Quit => s
    case KeyDown(k) => if k == KeyR then ResetStep(s) else s
    case MouseDown(p) => ClickStep(s, p)
    case OtherEvent => s
  }

  /** The state after a sequence of events, handled in order. */
  function Run(s: State, events: seq<Event>): State
    decreases |events|
  {
    if events == [] then s
    else Step(Run(s, events[..|events| - 1]), events[|events| - 1])
  }

  /** Handling `xs` then `ys` is handling `xs + ys`. */
  lemma {:induction false} RunAppend(s: State, xs: seq<Event>, ys: seq<Event>)
    ensures Run(s, xs + ys) == Run(Run(s, xs), ys)
    decreases |ys|
  {
    if ys == [] {
      assert xs + ys == xs;
    } else {
      var init := ys[..|ys| - 1];
      assert (xs + ys)[..|xs + ys| - 1] == xs + init;
      RunAppend(s, xs, init);
    }
  }

  /** The score never decreases, over any sequence of clicks, resets and other events. */
  lemma {:induction false} ScoreNeverDecreases(s: State, events: seq<Event>)
    ensures s.score <= Run(s, events).score
    decreases |events|
  {
    if events != [] {
      ScoreNeverDecreases(s, events[..|events| - 1]);
    }
  }

  /** Each event raises the score by at most one. */
  lemma {:induction false} ScoreAtMostOnePerEvent(s: State, events: seq<Event>)
    ensures Run(s, events).score <= s.score + |events|
    decreases |events|
  {
    if events != [] {
      ScoreAtMostOnePerEvent(s, events[..|events| - 1]);
    }
  }

  /** A quit event in the middle of a batch does not stop the events after it. */
  lemma QuitDoesNotStopBatch(s: State, before: seq<Event>, after: seq<Event>)
    ensures Run(s, before + [Quit] + after) == Run(Run(s, before), after)
  {
    RunAppend(s, before + [Quit], after);
    RunAppend(s, before, [Quit]);
  }

  /** A click at `p` hits none of the wires that come before `w` in click order. */
  lemma MissesWiresBefore(p: Point, w: Part)
    requires forall v: Part :: Rank(v) < Rank(w) && v != Switch ==>
      !NearSegmentExact(p, WireStart(v), WireEnd(v), DefaultThreshold)
    ensures forall v: Part :: Rank(v) < Rank(w) && v != Switch ==> !Hits(v, p)
  {
    forall v: Part | Rank(v) < Rank(w) && v != Switch
      ensures !Hits(v, p)
    {
      NearSegmentAgreesWithExact(p, WireStart(v), WireEnd(v), DefaultThreshold);
    }
  }

  /** A click at the midpoint of the first wire toggles it. */
  lemma BatteryToBulbMidpointTarget()
    ensures ClickTarget(Point(240, 230)) == Some(BatteryToBulb)
  {
    WireCoordinates();
    SegmentPointIsHit(Point(240, 230), WireStart(BatteryToBulb), WireEnd(BatteryToBulb), 0.5, DefaultThreshold);
  }

  /** A click at the midpoint of the second wire toggles it. */
  lemma BulbToSwitchMidpointTarget()
    ensures ClickTarget(Point(480, 210)) == Some(BulbToSwitch)
  {
    WireCoordinates();
    SegmentPointIsHit(Point(480, 210), WireStart(BulbToSwitch), WireEnd(BulbToSwitch), 0.5, DefaultThreshold);
    MissesWiresBefore(Point(480, 210), BulbToSwitch);
    ClickTargetIsFirstHit(Point(480, 210), BulbToSwitch);
  }

  /** A click at the midpoint of the third wire toggles it. */
  lemma SwitchToReturnMidpointTarget()
    ensures ClickTarget(Point(720, 230)) == Some(SwitchToReturn)
  {
    WireCoordinates();
    SegmentPointIsHit(Point(720, 230), WireStart(SwitchToReturn), WireEnd(SwitchToReturn), 0.5, DefaultThreshold);
    MissesWiresBefore(Point(720, 230), SwitchToReturn);
    ClickTargetIsFirstHit(Point(720, 230), SwitchToReturn);
  }

  /** A click on the switch panel away from the wires toggles the switch. */
  lemma SwitchPanelTarget()
    ensures ClickTarget(Point(610, 170)) == Some(Switch)
  {
    WireCoordinates();
    MissesWiresBefore(Point(610, 170), Switch);
    ClickTargetIsFirstHit(Point(610, 170), Switch);
  }

  /**
    Closing all three wires and then the switch lights the bulb and scores one;
    opening the switch again turns the bulb off and keeps the score.
   */
  lemma CloseThenReopen()
    ensures var s1 := ClickStep(Initial, Point(240, 230));
      var s2 := ClickStep(s1, Point(480, 210));
      var s3 := ClickStep(s2, Point(720, 230));
      var s4 := ClickStep(s3, Point(610, 170));
      var s5 := ClickStep(s4, Point(610, 170));
      Closed(s4) && Current(s4) == 0.9 && s4.score == 1 &&
      !Closed(s5) && Current(s5) == 0.0 && s5.score == 1
  {
    BatteryToBulbMidpointTarget();
    BulbToSwitchMidpointTarget();
    SwitchToReturnMidpointTarget();
    SwitchPanelTarget();
  }

  // ---------------------------------------------------------------------------
  // The game's variables, updated in place
  // ---------------------------------------------------------------------------

  class CircuitGame {
    var batteryToBulb: bool
    var bulbToSwitch: bool
    var switchToReturn: bool
    var switchOn: bool
    var score: int
    var hint: Hint

    /** The current values of the game's variables. */
    function Snapshot(): State
      reads this
    {
      State(batteryToBulb, bulbToSwitch, switchToReturn, switchOn, score, hint)
    }

    constructor ()
      ensures Snapshot() == Initial
    {
      batteryToBulb, bulbToSwitch, switchToReturn, switchOn := false, false, false, false;
      score := 0;
      hint := Welcome;
    }

    /** Toggles the first part, in click order, that a click at `pos` hits. */
    method Click(pos: Point)
      modifies this
      ensures Snapshot() == ClickStep(old(Snapshot()), pos)
    {
      if NearSegment(pos, WireStart(BatteryToBulb), WireEnd(BatteryToBulb), DefaultThreshold) {
        batteryToBulb := !batteryToBulb;
        hint := ToggledBatteryToBulb;
        return;
      }
      if NearSegment(pos, WireStart(BulbToSwitch), WireEnd(BulbToSwitch), DefaultThreshold) {
        bulbToSwitch := !bulbToSwitch;
        hint := ToggledBulbToSwitch;
        return;
      }
      if NearSegment(pos, WireStart(SwitchToReturn), WireEnd(SwitchToReturn), DefaultThreshold) {
        switchToReturn := !switchToReturn;
        hint := ToggledSwitchToReturn;
        return;
      }
      if SwitchRect.Contains(pos) {
        switchOn := !switchOn;
        if Closed(Snapshot()) {
          score := score + 1;
          hint := CircuitComplete;
        } else {
          hint := SwitchToggled;
        }
        return;
      }
    }

    /** Turns every wire and the switch off; the score is kept. */
    method Reset()
      modifies this
      ensures Snapshot() == ResetStep(old(Snapshot()))
    {
      batteryToBulb := false;
      bulbToSwitch := false;
      switchToReturn := false;
      switchOn := false;
      hint := ResetDone;
    }

    /**
      Handles one frame's events in order. A quit event clears the running flag
      but the events after it in the same batch are still handled.
     */
    method HandleEvents(events: seq<Event>, running: bool) returns (stillRunning: bool)
      modifies this
      ensures Snapshot() == Run(old(Snapshot()), events)
      ensures stillRunning == (running && Quit !in events)
    {
      stillRunning := running;
      for i := 0 to |events|
        invariant Snapshot() == Run(old(Snapshot()), events[..i])
        invariant stillRunning == (running && Quit !in events[..i])
      {
        var e := events[i];
        match e {
          case Quit =>
            stillRunning := false;
          case KeyDown(k) =>
            if k == KeyR {
              Reset();
            }
          case MouseDown(p) =>
            Click(p);
          case OtherEvent =>
        }
        assert events[..i + 1] == events[..i] + [e];
      }
      assert events[..|events|] == events;
    }
  }
}
