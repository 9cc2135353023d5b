/** The per-frame accumulator of the controller programs: four stick
    accumulators, two trigger accumulators, the virtual pad, what one bound
    key reading does to them (the `action_*` methods) and what a flush does. */
module Gamepad {
  import opened Decode

  datatype Axis = LeftX | LeftY | RightX | RightY
  datatype Trigger = LeftTrigger | RightTrigger
  datatype Button =
    | ButtonA | ButtonB | ButtonX | ButtonY | LeftShoulder | RightShoulder | Start | Back
    | LeftThumb | RightThumb | DpadUp | DpadDown | DpadLeft | DpadRight

  /** What one `action_*` method does with the travel fraction it is given. */
  datatype Action =
    | Stick(axis: Axis, weight: real)  // the axis accumulator grows by weight * percent
    | Pull(trigger: Trigger)           // the trigger accumulator becomes max(itself, percent)
    | Hold(button: Button)             // the button is pressed iff percent > 0.5

  /** `KeyAction`: the bound action, the `inverse` flag and the label. */
  datatype KeyAction = KeyAction(action: Action, inverse: bool, description: string)

  /** `left_stick_x` ... `right_trigger_val`. */
  datatype Accumulators = Accumulators(lx: real, ly: real, rx: real, ry: real, lt: real, rt: real) {
    function Get(a: Axis): real {
      match a
      case LeftX => lx
      case LeftY => ly
      case RightX => rx
      case RightY => ry
    }
    function Level(t: Trigger): real {
      match t
      case LeftTrigger => lt
      case RightTrigger => rt
    }
  }

  const Idle := Accumulators(0.0, 0.0, 0.0, 0.0, 0.0, 0.0)

  /** The virtual pad: the stick values and trigger bytes last sent, and the
      buttons currently held. */
  datatype Pad = Pad(lx: real, ly: real, rx: real, ry: real, lt: int, rt: int, buttons: set<Button>)

  const NeutralPad := Pad(0.0, 0.0, 0.0, 0.0, 0, 0, {})

  /** Everything a key reading or a flush can change. */
  datatype Session = Session(acc: Accumulators, pad: Pad)

  function AddTo(acc: Accumulators, axis: Axis, delta: real): Accumulators {
    match axis
    case LeftX => acc.(lx := acc.lx + delta)
    case LeftY => acc.(ly := acc.ly + delta)
    case RightX => acc.(rx := acc.rx + delta)
    case RightY => acc.(ry := acc.ry + delta)
  }

  function Raise(acc: Accumulators, t: Trigger, p: real): Accumulators {
    match t
    case LeftTrigger => acc.(lt := MaxReal(acc.lt, p))
    case RightTrigger => acc.(rt := MaxReal(acc.rt, p))
  }

  /** One call of an `action_*` method with travel fraction `p`. */
  function Apply(st: Session, a: Action, p: real): Session {
    match a
    case Stick(axis, w) => st.(acc := AddTo(st.acc, axis, w * p))
    case Pull(t) => st.(acc := Raise(st.acc, t, p))
    case Hold(b) =>
      st.(pad := st.pad.(buttons := if p > 0.5 then st.pad.buttons + {b} else st.pad.buttons - {b}))
  }

  /** `process_key_height`: run the bound action, if any. The `inverse` flag
      is handed to the action, and no action reads it. */
  function ApplyBinding(st: Session, m: map<int, KeyAction>, k: int, p: real): Session {
    if k in m then Apply(st, m[k].action, p) else st
  }

  /** The stick value sent for accumulated value `x`: `x` itself when it is
      within -1..1, otherwise the nearer end of that range. */
  predicate StickSent(x: real, r: real) {
    -1.0 <= r <= 1.0 &&
    (-1.0 <= x <= 1.0 ==> r == x) && (x > 1.0 ==> r == 1.0) && (x < -1.0 ==> r == -1.0)
  }

  /** The trigger byte sent for accumulated fraction `p`: the whole part of
      `p * 255` within 0..1, 255 at or past full travel, 0 at or below rest. */
  predicate TriggerSent(p: real, b: int) {
    0 <= b <= 255 &&
    (0.0 <= p <= 1.0 ==> b as real <= p * 255.0 < b as real + 1.0) &&
    (1.0 <= p ==> b == 255) && (p <= 0.0 ==> b == 0)
  }

  /** The flush at the end of a scan cycle: clamp and send the sticks, scale
      and send the triggers, then zero all six accumulators. Every field of
      the frame sent is fixed by the accumulator it comes from. */
  function Flush(st: Session): (r: Session)
    ensures r.acc == Idle
    ensures r.pad.buttons == st.pad.buttons
    ensures StickSent(st.acc.lx, r.pad.lx) && StickSent(st.acc.ly, r.pad.ly)
    ensures StickSent(st.acc.rx, r.pad.rx) && StickSent(st.acc.ry, r.pad.ry)
    ensures TriggerSent(st.acc.lt, r.pad.lt) && TriggerSent(st.acc.rt, r.pad.rt)
  {
    Session(Idle, Pad(ClampUnit(st.acc.lx), ClampUnit(st.acc.ly), ClampUnit(st.acc.rx), ClampUnit(st.acc.ry),
                      ScaleToByte(st.acc.lt), ScaleToByte(st.acc.rt), st.pad.buttons))
  }

  // ---------------------------------------------------------------------------
  // Several readings of one action in a frame

  /** The same action run once per reading in `ps`, in order: several keys
      bound to one axis, trigger or button. */
  function ApplyEach(st: Session, a: Action, ps: seq<real>): Session
    decreases |ps|
  {
    if ps == [] then st else ApplyEach(Apply(st, a, ps[0]), a, ps[1..])
  }

  function Sum(ps: seq<real>): real
    decreases |ps|
  {
    if ps == [] then 0.0 else ps[0] + Sum(ps[1..])
  }

  function MaxOf(x: real, ps: seq<real>): real
    decreases |ps|
  {
    if ps == [] then x else MaxOf(MaxReal(x, ps[0]), ps[1..])
  }

  /** Stick contributions add up: the axis moves by weight times the sum of
      the readings, and nothing else in the frame changes. */
  lemma StickContributionsSum(st: Session, axis: Axis, w: real, ps: seq<real>)
    ensures ApplyEach(st, Stick(axis, w), ps).acc.Get(axis) == st.acc.Get(axis) + w * Sum(ps)
    ensures forall other :: other != axis ==>
              ApplyEach(st, Stick(axis, w), ps).acc.Get(other) == st.acc.Get(other)
    ensures ApplyEach(st, Stick(axis, w), ps).acc.lt == st.acc.lt
    ensures ApplyEach(st, Stick(axis, w), ps).acc.rt == st.acc.rt
    ensures ApplyEach(st, Stick(axis, w), ps).pad == st.pad
  {
    StickContributionsAdd(st, axis, w, ps);
    StickLeavesRest(st, axis, w, ps);
    ScaledSumFactors(w, ps);
  }

  /** `w * ps[0] + w * ps[1] + ...`, one stick contribution per reading. */
  function ScaledSum(w: real, ps: seq<real>): real
    decreases |ps|
  {
    if ps == [] then 0.0 else w * ps[0] + ScaledSum(w, ps[1..])
  }

  /** The weight factors out of the contributions. */
  lemma {:induction false} ScaledSumFactors(w: real, ps: seq<real>)
    ensures ScaledSum(w, ps) == w * Sum(ps)
    decreases |ps|
  {
    if ps != [] {
      ScaledSumFactors(w, ps[1..]);
      ScaledStep(w, ps[0], Sum(ps[1..]));
    }
  }

  lemma ScaledStep(w: real, x: real, rest: real)
    ensures w * x + w * rest == w * (x + rest)
  {
  }

  /** Each reading adds its own contribution to the axis. */
  lemma {:induction false} StickContributionsAdd(st: Session, axis: Axis, w: real, ps: seq<real>)
    ensures ApplyEach(st, Stick(axis, w), ps).acc.Get(axis) == st.acc.Get(axis) + ScaledSum(w, ps)
    decreases |ps|
  {
    if ps != [] {
      AddToMovesOneAxis(st.acc, axis, w * ps[0]);
      StickContributionsAdd(Apply(st, Stick(axis, w), ps[0]), axis, w, ps[1..]);
    }
  }

  /** Stick readings leave every other axis, both triggers and the pad alone. */
  lemma {:induction false} StickLeavesRest(st: Session, axis: Axis, w: real, ps: seq<real>)
    ensures forall other :: other != axis ==>
              ApplyEach(st, Stick(axis, w), ps).acc.Get(other) == st.acc.Get(other)
    ensures ApplyEach(st, Stick(axis, w), ps).acc.lt == st.acc.lt
    ensures ApplyEach(st, Stick(axis, w), ps).acc.rt == st.acc.rt
    ensures ApplyEach(st, Stick(axis, w), ps).pad == st.pad
    decreases |ps|
  {
    if ps != [] {
      AddToMovesOneAxis(st.acc, axis, w * ps[0]);
      StickLeavesRest(Apply(st, Stick(axis, w), ps[0]), axis, w, ps[1..]);
    }
  }

  /** Adding to one axis moves that axis only. */
  lemma AddToMovesOneAxis(acc: Accumulators, axis: Axis, delta: real)
    ensures AddTo(acc, axis, delta).Get(axis) == acc.Get(axis) + delta
    ensures forall other :: other != axis ==> AddTo(acc, axis, delta).Get(other) == acc.Get(other)
    ensures AddTo(acc, axis, delta).lt == acc.lt && AddTo(acc, axis, delta).rt == acc.rt
  {
  }

  /** Trigger contributions combine by maximum: the trigger ends at the
      largest of its start value and the readings. */
  lemma {:induction false} TriggerContributionsMax(st: Session, t: Trigger, ps: seq<real>)
    ensures ApplyEach(st, Pull(t), ps).acc.Level(t) == MaxOf(st.acc.Level(t), ps)
    ensures forall axis :: ApplyEach(st, Pull(t), ps).acc.Get(axis) == st.acc.Get(axis)
    ensures ApplyEach(st, Pull(t), ps).pad == st.pad
    decreases |ps|
  {
    if ps != [] {
      TriggerContributionsMax(Apply(st, Pull(t), ps[0]), t, ps[1..]);
    }
  }

  /** Two pulls of one trigger: the trigger ends at the larger of its old
      level and the two fractions; the sticks and the pad stay. */
  lemma TwoPulls(st: Session, t: Trigger, p1: real, p2: real)
    ensures Apply(Apply(st, Pull(t), p1), Pull(t), p2).acc.Level(t) == MaxReal(MaxReal(st.acc.Level(t), p1), p2)
    ensures forall axis :: Apply(Apply(st, Pull(t), p1), Pull(t), p2).acc.Get(axis) == st.acc.Get(axis)
    ensures Apply(Apply(st, Pull(t), p1), Pull(t), p2).pad == st.pad
  {
    TriggerContributionsMax(st, t, [p1, p2]);
    assert [p1, p2][1..] == [p2];
    assert [p2][1..] == [];
  }

  lemma {:induction false} MaxOfBounds(x: real, ps: seq<real>)
    ensures x <= MaxOf(x, ps)
    ensures forall i :: 0 <= i < |ps| ==> ps[i] <= MaxOf(x, ps)
    ensures MaxOf(x, ps) == x || exists i :: 0 <= i < |ps| && MaxOf(x, ps) == ps[i]
    decreases |ps|
  {
    if ps != [] {
      MaxOfBounds(MaxReal(x, ps[0]), ps[1..]);
      if MaxOf(x, ps) != x && MaxOf(x, ps) != ps[0] {
        var i :| 0 <= i < |ps[1..]| && MaxOf(x, ps) == ps[1..][i];
        assert MaxOf(x, ps) == ps[i + 1];
      }
    }
  }

  /** Two keys fully pressed on one trigger give full travel, not double. */
  lemma TriggerIsNotSum(st: Session, t: Trigger, p: real, q: real)
    requires st.acc.Level(t) == 0.0 && 0.0 < p && 0.0 < q
    ensures ApplyEach(st, Pull(t), [p, q]).acc.Level(t) == MaxReal(p, q) < p + q
  {
    TriggerContributionsMax(st, t, [p, q]);
    assert [p, q][1..] == [q];
    assert [q][1..] == [];
    assert MaxOf(st.acc.Level(t), [p, q]) == MaxOf(MaxReal(0.0, p), [q]) == MaxReal(MaxReal(0.0, p), q);
  }

  /** Equal opposite presses on one axis cancel. */
  lemma OppositeStickPressesCancel(st: Session, axis: Axis, w: real, p: real)
    ensures Apply(Apply(st, Stick(axis, w), p), Stick(axis, -w), p) == st
  {
    match axis
    case LeftX =>
    case LeftY =>
    case RightX =>
    case RightY =>
  }

  /** Buttons are level-triggered: after a reading the button is held iff the
      reading is above half travel, other buttons and the analog state are
      untouched, and the same reading again changes nothing. */
  lemma ButtonFollowsLastReading(st: Session, b: Button, p: real)
    ensures b in Apply(st, Hold(b), p).pad.buttons <==> p > 0.5
    ensures Apply(st, Hold(b), p).pad.buttons - {b} == st.pad.buttons - {b}
    ensures Apply(st, Hold(b), p).acc == st.acc
    ensures Apply(Apply(st, Hold(b), p), Hold(b), p) == Apply(st, Hold(b), p)
  {
  }

  /** Only the bound action matters: the inverse flag and the label have no
      effect, and an unbound key code changes nothing. */
  lemma BindingFlagsIgnored(st: Session, m: map<int, KeyAction>, k: int, p: real, a: Action,
                            inv1: bool, inv2: bool, d1: string, d2: string)
    ensures ApplyBinding(st, m[k := KeyAction(a, inv1, d1)], k, p)
            == ApplyBinding(st, m[k := KeyAction(a, inv2, d2)], k, p)
            == Apply(st, a, p)
    ensures k !in m ==> ApplyBinding(st, m, k, p) == st
  {
  }

  /** After a flush a second flush with no readings in between sends a
      neutral analog frame, with the buttons still as they were. */
  lemma FlushTwiceIsNeutral(st: Session)
    ensures Flush(Flush(st)).pad == NeutralPad.(buttons := st.pad.buttons)
    ensures Flush(Flush(st)).acc == Idle
  {
  }
}
