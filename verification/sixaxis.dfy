/**
 * The Sixaxis controller state machine: a snapshot of seventeen digital
 * buttons and two analog sticks, updated one input event at a time.
 */
module Sixaxis {
  import opened Wrappers
  import opened InputEvent

  // Event types handled by Update.
  const TypeSync: int := 0
  const TypeButton: int := 1   // tButton
  const TypeAbs: int := 3

  // Button codes (type 1).
  const BcSelect: int := 288
  const BcL3: int := 289
  const BcR3: int := 290
  const BcStart: int := 291
  const BcUp: int := 292
  const BcRight: int := 293
  const BcDown: int := 294
  const BcLeft: int := 295
  const BcL2: int := 296
  const BcR2: int := 297
  const BcL1: int := 298
  const BcR1: int := 299
  const BcTriangle: int := 300
  const BcCircle: int := 301
  const BcCross: int := 302
  const BcSquare: int := 303
  const BcPS: int := 304

  // Analog stick codes (type 3).
  const LeftStickX: int := 0
  const LeftStickY: int := 1
  const RightStickX: int := 2
  const RightStickY: int := 3

  // Motion-sensor codes: declared by the driver, never handled by Update.
  const GyroX: int := 4
  const GyroY: int := 5
  const AccelY: int := 6

  /** One analog stick; the raw event values are stored without conversion. */
  datatype Stick = Stick(x: I32, y: I32)

  /** The seventeen digital buttons, one per boolean field of `SA`. */
  datatype Button =
    | Select | L3 | R3 | Start | Up | Right | Down | Left
    | L2 | R2 | L1 | R1 | Triangle | Circle | Cross | Square | PS

  /**
   * The controller snapshot (`SA` without its reader handle). The seventeen
   * boolean button fields are held as the set of buttons whose field is true.
   */
  datatype State = State(held: set<Button>, leftStick: Stick, rightStick: Stick)

  /** The four stick axes. */
  datatype Axis = LeftX | LeftY | RightX | RightY

  /** A field of State that one event can write. */
  datatype Field = ButtonField(button: Button) | AxisField(axis: Axis)

  /** Whether `b` is held in `s`: the value of the button's boolean field. */
  function Pressed(s: State, b: Button): bool
  {
    b in s.held
  }

  /** The raw value of axis `a` in `s`. */
  function AxisValue(s: State, a: Axis): I32
  {
    match a
    case LeftX => s.leftStick.x
    case LeftY => s.leftStick.y
    case RightX => s.rightStick.x
    case RightY => s.rightStick.y
  }

  /** Two snapshots are the same exactly when every button and every axis reads the same. */
  lemma Extensionality(s: State, t: State)
    requires forall b :: Pressed(s, b) == Pressed(t, b)
    requires forall a :: AxisValue(s, a) == AxisValue(t, a)
    ensures s == t
  {
    assert s.held == t.held by {
      forall b | b in s.held ensures b in t.held {
        assert Pressed(s, b) == Pressed(t, b);
      }
      forall b | b in t.held ensures b in s.held {
        assert Pressed(s, b) == Pressed(t, b);
      }
    }
    assert AxisValue(s, LeftX) == AxisValue(t, LeftX);
    assert AxisValue(s, LeftY) == AxisValue(t, LeftY);
    assert AxisValue(s, RightX) == AxisValue(t, RightX);
    assert AxisValue(s, RightY) == AxisValue(t, RightY);
  }

  /** Assigns `v` to the boolean field of button `b`. */
  function SetButton(s: State, b: Button, v: bool): (r: State)
    ensures forall b' :: Pressed(r, b') == (if b' == b then v else Pressed(s, b'))
    ensures r.leftStick == s.leftStick && r.rightStick == s.rightStick
  {
    s.(held := if v then s.held + {b} else s.held - {b})
  }

  /** Assigns the raw value `v` to axis `a`. */
  function SetAxis(s: State, a: Axis, v: I32): (r: State)
    ensures forall a' :: AxisValue(r, a') == (if a' == a then v else AxisValue(s, a'))
    ensures r.held == s.held
  {
    match a
    case LeftX => s.(leftStick := s.leftStick.(x := v))
    case LeftY => s.(leftStick := s.leftStick.(y := v))
    case RightX => s.(rightStick := s.rightStick.(x := v))
    case RightY => s.(rightStick := s.rightStick.(y := v))
  }

  /** The event code that reports button `b`. */
  function ButtonCode(b: Button): (c: int)
    ensures BcSelect <= c <= BcPS
  {
    match b
    case Select => BcSelect
    case L3 => BcL3
    case R3 => BcR3
    case Start => BcStart
    case Up => BcUp
    case Right => BcRight
    case Down => BcDown
    case Left => BcLeft
    case L2 => BcL2
    case R2 => BcR2
    case L1 => BcL1
    case R1 => BcR1
    case Triangle => BcTriangle
    case Circle => BcCircle
    case Cross => BcCross
    case Square => BcSquare
    case PS => BcPS
  }

  /** The event code that reports axis `a`. */
  function AxisCode(a: Axis): (c: int)
    ensures LeftStickX <= c <= RightStickY
  {
    match a
    case LeftX => LeftStickX
    case LeftY => LeftStickY
    case RightX => RightStickX
    case RightY => RightStickY
  }

  /** The buttons listed by code, starting at BcSelect. */
  const ButtonsByCode: seq<Button> :=
    [Select, L3, R3, Start, Up, Right, Down, Left,
     L2, R2, L1, R1, Triangle, Circle, Cross, Square, PS]

  const AxesByCode: seq<Axis> := [LeftX, LeftY, RightX, RightY]

  /**
   * The dispatch table: the field an event writes, if any. A field is written
   * exactly by a button event carrying its button code or an absolute-axis
   * event carrying its axis code.
   */
  function Target(e: Event): (f: Option<Field>)
    ensures forall b :: f == Some(ButtonField(b)) <==> e.typ == TypeButton && e.code == ButtonCode(b)
    ensures forall a :: f == Some(AxisField(a)) <==> e.typ == TypeAbs && e.code == AxisCode(a)
  {
    if e.typ == TypeButton && BcSelect <= e.code <= BcPS then
      Some(ButtonField(ButtonsByCode[e.code - BcSelect]))
    else if e.typ == TypeAbs && LeftStickX <= e.code <= RightStickY then
      Some(AxisField(AxesByCode[e.code - LeftStickX]))
    else
      None
  }

  /** `buttonToBool`: a button reads as held only for the value 1. */
  function ButtonToBool(value: I32): bool
  {
    value == 1
  }

  /** `New`: nothing held, both sticks centred at (0, 0). */
  function New(): (s: State)
    ensures forall b :: !Pressed(s, b)
    ensures forall a :: AxisValue(s, a) == 0
  {
    State({}, Stick(0, 0), Stick(0, 0))
  }

  /**
   * The inner switch of `SA.Update` for button events: the button whose code
   * is `code` takes `v`; an unknown code changes nothing.
   */
  function UpdateButton(s: State, code: int, v: bool): (r: State)
    ensures forall b :: Pressed(r, b) == (if code == ButtonCode(b) then v else Pressed(s, b))
    ensures forall a :: AxisValue(r, a) == AxisValue(s, a)
  {
    if code == BcSelect then SetButton(s, Select, v)
    else if code == BcL3 then SetButton(s, L3, v)
    else if code == BcR3 then SetButton(s, R3, v)
    else if code == BcStart then SetButton(s, Start, v)
    else if code == BcUp then SetButton(s, Up, v)
    else if code == BcRight then SetButton(s, Right, v)
    else if code == BcDown then SetButton(s, Down, v)
    else if code == BcLeft then SetButton(s, Left, v)
    else if code == BcL2 then SetButton(s, L2, v)
    else if code == BcR2 then SetButton(s, R2, v)
    else if code == BcL1 then SetButton(s, L1, v)
    else if code == BcR1 then SetButton(s, R1, v)
    else if code == BcTriangle then SetButton(s, Triangle, v)
    else if code == BcCircle then SetButton(s, Circle, v)
    else if code == BcCross then SetButton(s, Cross, v)
    else if code == BcSquare then SetButton(s, Square, v)
    else if code == BcPS then SetButton(s, PS, v)
    else s
  }

  /**
   * The inner switch of `SA.Update` for absolute-axis events: the axis whose
   * code is `code` takes the raw `value`; any other code changes nothing.
   */
  function UpdateAxis(s: State, code: int, value: I32): (r: State)
    ensures forall a :: AxisValue(r, a) == (if code == AxisCode(a) then value else AxisValue(s, a))
    ensures forall b :: Pressed(r, b) == Pressed(s, b)
  {
    if code == LeftStickX then SetAxis(s, LeftX, value)
    else if code == LeftStickY then SetAxis(s, LeftY, value)
    else if code == RightStickX then SetAxis(s, RightX, value)
    else if code == RightStickY then SetAxis(s, RightY, value)
    else s
  }

  /**
   * `SA.Update`: applies one event. The field the dispatch table names takes
   * the event's value (a button reads as held only for value 1; an axis takes
   * the raw value); every other field keeps its value.
   */
  function Update(s: State, e: Event): (r: State)
    ensures forall b :: Pressed(r, b) ==
                        (if Target(e) == Some(ButtonField(b)) then e.value == 1 else Pressed(s, b))
    ensures forall a :: AxisValue(r, a) ==
                        (if Target(e) == Some(AxisField(a)) then e.value else AxisValue(s, a))
  {
    if e.typ == TypeSync then s
    else if e.typ == TypeButton then UpdateButton(s, e.code, ButtonToBool(e.value))
    else if e.typ == TypeAbs then UpdateAxis(s, e.code, e.value)
    else s
  }

  /** The codes the dispatch table ignores are exactly those outside the two known ranges. */
  lemma UnrecognisedCodes(e: Event)
    ensures Target(e) == None <==>
      !(e.typ == TypeButton && BcSelect <= e.code <= BcPS) &&
      !(e.typ == TypeAbs && LeftStickX <= e.code <= RightStickY)
  {
    if e.typ == TypeButton && BcSelect <= e.code <= BcPS {
      assert Target(e) == Some(ButtonField(ButtonsByCode[e.code - BcSelect]));
    }
    if e.typ == TypeAbs && LeftStickX <= e.code <= RightStickY {
      assert Target(e) == Some(AxisField(AxesByCode[e.code - LeftStickX]));
    }
  }

  /** An event the dispatch table does not recognise leaves the snapshot unchanged. */
  lemma UnrecognisedIsNoOp(s: State, e: Event)
    requires Target(e) == None
    ensures Update(s, e) == s
  {
    Extensionality(Update(s, e), s);
  }

  /** A synchronisation event (type 0) leaves the snapshot unchanged. */
  lemma SyncIsNoOp(s: State, e: Event)
    requires e.typ == TypeSync
    ensures Update(s, e) == s
  {
    UnrecognisedCodes(e);
    UnrecognisedIsNoOp(s, e);
  }

  /** Event types other than 0, 1 and 3 leave the snapshot unchanged. */
  lemma UnknownTypeIsNoOp(s: State, e: Event)
    requires e.typ != TypeSync && e.typ != TypeButton && e.typ != TypeAbs
    ensures Update(s, e) == s
  {
    UnrecognisedCodes(e);
    UnrecognisedIsNoOp(s, e);
  }

  /**
   * Button events with a code outside 288..304 and absolute-axis events with a
   * code outside 0..3 (among them the motion-sensor codes 4, 5 and 6) leave
   * the snapshot unchanged.
   */
  lemma UnknownCodeIsNoOp(s: State, e: Event)
    requires e.typ == TypeButton || e.typ == TypeAbs
    requires e.typ == TypeButton ==> e.code < BcSelect || e.code > BcPS
    requires e.typ == TypeAbs ==> e.code > RightStickY
    ensures Update(s, e) == s
  {
    UnrecognisedCodes(e);
    UnrecognisedIsNoOp(s, e);
  }

  /** The motion-sensor codes are declared but not handled. */
  lemma MotionCodesIgnored(s: State, e: Event)
    requires e.typ == TypeAbs
    requires e.code == GyroX || e.code == GyroY || e.code == AccelY
    ensures Update(s, e) == s
  {
    UnknownCodeIsNoOp(s, e);
  }

  /**
   * A button event carrying the code of `b` assigns exactly `b`'s flag, to
   * whether the value is 1, and nothing else.
   */
  lemma ButtonEvent(s: State, e: Event, b: Button)
    requires e.typ == TypeButton && e.code == ButtonCode(b)
    ensures Update(s, e) == SetButton(s, b, e.value == 1)
  {
    Extensionality(Update(s, e), SetButton(s, b, e.value == 1));
  }

  /** A button value other than exactly 1 (0, 2, -1, ...) releases the button. */
  lemma NonOneReleases(s: State, e: Event, b: Button)
    requires e.typ == TypeButton && e.code == ButtonCode(b) && e.value != 1
    ensures !Pressed(Update(s, e), b)
  {
  }

  /** An absolute-axis event carrying the code of `a` stores the raw value in `a` and nothing else. */
  lemma AxisEvent(s: State, e: Event, a: Axis)
    requires e.typ == TypeAbs && e.code == AxisCode(a)
    ensures Update(s, e) == SetAxis(s, a, e.value)
  {
    Extensionality(Update(s, e), SetAxis(s, a, e.value));
  }

  /** Applying the same event twice is the same as applying it once. */
  lemma Idempotent(s: State, e: Event)
    ensures Update(Update(s, e), e) == Update(s, e)
  {
    Extensionality(Update(Update(s, e), e), Update(s, e));
  }

  /** Of two events writing the same field, only the second one's value survives. */
  lemma LastWriteWins(s: State, e1: Event, e2: Event)
    requires Target(e1) == Target(e2)
    ensures Update(Update(s, e1), e2) == Update(s, e2)
  {
    Extensionality(Update(Update(s, e1), e2), Update(s, e2));
  }

  /** Events writing different fields commute: no field's update reads another field. */
  lemma IndependentFields(s: State, e1: Event, e2: Event)
    requires Target(e1) != Target(e2)
    ensures Update(Update(s, e1), e2) == Update(Update(s, e2), e1)
  {
    Extensionality(Update(Update(s, e1), e2), Update(Update(s, e2), e1));
  }
}
