/** `G75Controller` of archive/v3.py, archive/main.py and
    debuggers/leftarrow.py: the key height array, the key-action map, the
    keyboard id and the frame accumulators, and `process_packet`, which turns
    one HID report into updates of them and, on the last sub-report of a
    scan cycle, one frame sent to the virtual pad. The three programs share
    this class; they differ in which models `identify_keyboard` knows
    (`ModelFamily`) and in the actions their configurations bind. */
module Controller {
  import opened Decode
  import opened Gamepad

  /** The part of the controller `process_packet` reads and writes. */
  datatype ControllerState = ControllerState(heights: seq<int>, keyboardId: int, session: Session)

  /** What handling one report leads to: the program stops on an uncaught
      exception, or goes on with a new state, having sent a frame or not. */
  datatype Outcome = Crashed | Handled(next: ControllerState, sent: Option<Pad>)

  function InitialState(): ControllerState {
    ControllerState(seq(KeySlots, _ => 0), 0, Session(Idle, NeutralPad))
  }

  // ---------------------------------------------------------------------------
  // Registration

  /** `register_key_action`: bind the first layout slot with this name, or
      leave the map alone when the name is not in the layout. */
  function BindByName(m: map<int, KeyAction>, name: string, ka: KeyAction): map<int, KeyAction> {
    match LayoutIndex(name)
    case None => m
    case Some(k) => m[k := ka]
  }

  /** Registration by name changes only the first slot carrying that name,
      binds it to exactly the given action, and an unknown name changes
      nothing. */
  lemma BindByNameEffect(m: map<int, KeyAction>, name: string, ka: KeyAction)
    ensures LayoutIndex(name).None? <==> (forall j :: 0 <= j < |KeyboardLayout| ==> KeyboardLayout[j] != name)
    ensures LayoutIndex(name).None? ==> BindByName(m, name, ka) == m
    ensures LayoutIndex(name).Some? ==>
              var k := LayoutIndex(name).value;
              k < |KeyboardLayout| && KeyboardLayout[k] == name &&
              BindByName(m, name, ka) == m[k := ka]
  {
    if LayoutIndex(name).None? {
    } else {
      var k := LayoutIndex(name).value;
      assert KeyboardLayout[k] == name;
    }
  }

  /** Because `.index` finds the first position, the unnamed slots 2 and 119
      (which repeat the name "" of slot 1) can never be bound by name. */
  lemma UnnamedSlotsUnreachableByName(m: map<int, KeyAction>, name: string, ka: KeyAction)
    ensures 2 in BindByName(m, name, ka) <==> 2 in m
    ensures 119 in BindByName(m, name, ka) <==> 119 in m
  {
    LayoutSampleEmptyName();
    assert KeyboardLayout[1] == KeyboardLayout[2] == KeyboardLayout[119];
  }

  /** Registering a key twice keeps only the later binding. */
  lemma RebindingKeepsLast(m: map<int, KeyAction>, name: string, ka1: KeyAction, ka2: KeyAction)
    ensures BindByName(BindByName(m, name, ka1), name, ka2) == BindByName(m, name, ka2)
  {
  }

  // ---------------------------------------------------------------------------
  // Packet handling as a function of the state

  /** The keys `k` of slice `s`, among the first `n`, that the loop decodes
      (the others are skipped by `keynum >= len(key_height_array)`) raise no
      division error. */
  predicate FaultFree(size: int, buf: seq<Byte>, s: Slice, lo: int, hi: int, n: nat)
    requires n <= s.length
  {
    forall k :: s.base <= k < s.base + n && k < size ==> !DividesByZero(RawAt(buf, s, k), lo, hi)
  }

  /** The state after the first `n` iterations of the key loop of
      `process_packet`. */
  function ScanPrefix(c: ControllerState, m: map<int, KeyAction>, buf: seq<Byte>, s: Slice,
                      lo: int, hi: int, n: nat): (r: ControllerState)
    requires n <= s.length && FaultFree(|c.heights|, buf, s, lo, hi, n)
    ensures |r.heights| == |c.heights| && r.keyboardId == c.keyboardId
    ensures forall k :: 0 <= k < |c.heights| && !(s.base <= k < s.base + n) ==> r.heights[k] == c.heights[k]
    ensures forall k :: 0 <= k < |c.heights| && s.base <= k < s.base + n ==>
              r.heights[k] == Deadzone(RawAt(buf, s, k), lo, hi)
    decreases n
  {
    if n == 0 then c
    else
      var prev := ScanPrefix(c, m, buf, s, lo, hi, n - 1);
      var k := s.base + n - 1;
      if k >= |prev.heights| then prev
      else
        var d := Deadzone(RawAt(buf, s, k), lo, hi);
        prev.(heights := prev.heights[k := d], session := ApplyBinding(prev.session, m, k, Percent(d)))
  }

  /** `process_packet` on the state `c` with key-action map `m` and deadzone
      window `lo..hi`. */
  function Receive(c: ControllerState, m: map<int, KeyAction>, family: ModelFamily,
                   lo: int, hi: int, buf: seq<Byte>): Outcome
  {
    match Classify(buf)
    case Ignored => Handled(c, None)
    case IdentityAnswer =>
      if |buf| < 8 then Crashed  // bytes 5..7 are read after checking only five
      else Handled(c.(keyboardId := IdentifyKeyboard(family, buf[5], buf[6], buf[7])), None)
    case Scan(t, s) =>
      if !FaultFree(|c.heights|, buf, s, lo, hi, s.length) then Crashed
      else
        var scanned := ScanPrefix(c, m, buf, s, lo, hi, s.length);
        if t == 2 then
          var flushed := Flush(scanned.session);
          Handled(scanned.(session := flushed), Some(flushed.pad))
        else Handled(scanned, None)
  }

  // ---------------------------------------------------------------------------
  // Properties of packet handling

  /** The program stops on a report exactly when it is an identity answer cut
      short before its model bytes, or a key-scan report under a zero-width
      window carrying that window's value for a decoded key. */
  lemma ReceiveCrashesOnlyOn(c: ControllerState, m: map<int, KeyAction>, family: ModelFamily,
                             lo: int, hi: int, buf: seq<Byte>)
    ensures Receive(c, m, family, lo, hi, buf).Crashed? <==>
              (IsIdentityAnswer(buf) && |buf| < 8) ||
              (Classify(buf).Scan? && lo == hi &&
               exists k :: Classify(buf).slice.Covers(k) && k < |c.heights| &&
                           RawAt(buf, Classify(buf).slice, k) == lo)
  {
    if Classify(buf).Scan? {
      var s := Classify(buf).slice;
      if !FaultFree(|c.heights|, buf, s, lo, hi, s.length) {
        var k :| s.base <= k < s.base + s.length && k < |c.heights| && DividesByZero(RawAt(buf, s, k), lo, hi);
        assert s.Covers(k);
      }
    }
  }

  /** An identity answer with its model bytes changes only the keyboard id,
      to a nonzero value, and sends nothing. */
  lemma ReceiveIdentity(c: ControllerState, m: map<int, KeyAction>, family: ModelFamily,
                        lo: int, hi: int, buf: seq<Byte>)
    requires IsIdentityAnswer(buf) && |buf| >= 8
    ensures var o := Receive(c, m, family, lo, hi, buf);
            o.Handled? && o.sent == None && o.next.keyboardId != 0 &&
            o.next.heights == c.heights && o.next.session == c.session
  {
  }

  /** A key-scan report rewrites the depth of exactly the key codes its
      sub-type covers, each with the deadzone-normalised byte at offset 4 of
      the slice, and leaves the keyboard id alone. */
  lemma ReceiveScanUpdatesSlice(c: ControllerState, m: map<int, KeyAction>, family: ModelFamily,
                                lo: int, hi: int, buf: seq<Byte>)
    requires Classify(buf).Scan? && lo < hi
    ensures var o := Receive(c, m, family, lo, hi, buf);
            var s := Classify(buf).slice;
            o.Handled? && |o.next.heights| == |c.heights| && o.next.keyboardId == c.keyboardId &&
            forall k :: 0 <= k < |c.heights| ==>
              o.next.heights[k] == if s.Covers(k) then Deadzone(RawAt(buf, s, k), lo, hi) else c.heights[k]
  {
  }

  /** A scan changes no analog value the pad last sent; only held buttons
      can change before the flush. */
  lemma {:induction false} ScanKeepsSentValues(c: ControllerState, m: map<int, KeyAction>, buf: seq<Byte>,
                                               s: Slice, lo: int, hi: int, n: nat)
    requires n <= s.length && FaultFree(|c.heights|, buf, s, lo, hi, n)
    ensures ScanPrefix(c, m, buf, s, lo, hi, n).session.pad.(buttons := c.session.pad.buttons) == c.session.pad
    decreases n
  {
    if n > 0 {
      ScanKeepsSentValues(c, m, buf, s, lo, hi, n - 1);
      var prev := ScanPrefix(c, m, buf, s, lo, hi, n - 1);
      var k := s.base + n - 1;
      if k < |prev.heights| && k in m {
        var d := Deadzone(RawAt(buf, s, k), lo, hi);
        var next := Apply(prev.session, m[k].action, Percent(d));
        assert next.pad.(buttons := prev.session.pad.buttons) == prev.session.pad;
      }
    }
  }

  /** A frame is sent exactly for a type-2 key-scan report. It then carries
      in-range values, and the accumulators start the next cycle at zero;
      otherwise the pad's analog values are those sent before. */
  lemma ReceiveSendsOnCycleEnd(c: ControllerState, m: map<int, KeyAction>, family: ModelFamily,
                               lo: int, hi: int, buf: seq<Byte>)
    requires Receive(c, m, family, lo, hi, buf).Handled?
    ensures var o := Receive(c, m, family, lo, hi, buf);
            (o.sent.Some? <==> Classify(buf).Scan? && buf[4] == 2) &&
            (o.sent.Some? ==>
               o.next.session.acc == Idle && o.next.session.pad == o.sent.value &&
               0 <= o.sent.value.lt <= 255 && 0 <= o.sent.value.rt <= 255 &&
               -1.0 <= o.sent.value.lx <= 1.0 && -1.0 <= o.sent.value.ly <= 1.0 &&
               -1.0 <= o.sent.value.rx <= 1.0 && -1.0 <= o.sent.value.ry <= 1.0) &&
            (o.sent.None? ==> o.next.session.pad.(buttons := c.session.pad.buttons) == c.session.pad)
  {
    if Classify(buf).Scan? {
      var s := Classify(buf).slice;
      ScanKeepsSentValues(c, m, buf, s, lo, hi, s.length);
    }
  }

  /** Only bound keys of the slice move the frame: when `k` is the only key
      of the slice that is bound, the scan's frame is `k`'s action applied to
      its travel, or the old frame when `k` lies outside the slice. */
  lemma {:induction false} ScanWithOneBinding(c: ControllerState, m: map<int, KeyAction>, buf: seq<Byte>,
                                              s: Slice, lo: int, hi: int, n: nat, k: int)
    requires n <= s.length && FaultFree(|c.heights|, buf, s, lo, hi, n)
    requires forall j :: s.base <= j < s.base + n && j != k ==> j !in m
    ensures ScanPrefix(c, m, buf, s, lo, hi, n).session ==
              if s.base <= k < s.base + n && k < |c.heights| && k in m
              then Apply(c.session, m[k].action, Percent(Deadzone(RawAt(buf, s, k), lo, hi)))
              else c.session
    decreases n
  {
    if n > 0 {
      ScanWithOneBinding(c, m, buf, s, lo, hi, n - 1, k);
    }
  }

  /** Bound keys accumulate in key order: when `k1 < k2` are the only bound
      keys of the slice, the scan's frame is `k1`'s action applied to its
      travel and then `k2`'s applied to its own. */
  lemma {:induction false} ScanWithTwoBindings(c: ControllerState, m: map<int, KeyAction>, buf: seq<Byte>,
                                               s: Slice, lo: int, hi: int, n: nat, k1: int, k2: int)
    requires n <= s.length && FaultFree(|c.heights|, buf, s, lo, hi, n)
    requires s.base <= k1 < k2 < s.base + n && k2 < |c.heights| && k1 in m && k2 in m
    requires forall j :: s.base <= j < s.base + n && j != k1 && j != k2 ==> j !in m
    ensures ScanPrefix(c, m, buf, s, lo, hi, n).session ==
              Apply(Apply(c.session, m[k1].action, Percent(Deadzone(RawAt(buf, s, k1), lo, hi))),
                    m[k2].action, Percent(Deadzone(RawAt(buf, s, k2), lo, hi)))
    decreases n
  {
    if k2 == s.base + n - 1 {
      ScanWithOneBinding(c, m, buf, s, lo, hi, n - 1, k1);
    } else {
      ScanWithTwoBindings(c, m, buf, s, lo, hi, n - 1, k1, k2);
    }
  }

  /** A type-0 or type-1 report with exactly two bound keys `k1 < k2` sends
      nothing and leaves the frame with both actions applied, in key order. */
  lemma ReceiveTwoBindings(c: ControllerState, m: map<int, KeyAction>, family: ModelFamily,
                           lo: int, hi: int, buf: seq<Byte>, k1: int, k2: int)
    requires Classify(buf).Scan? && buf[4] != 2 && lo < hi
    requires Classify(buf).slice.Covers(k1) && Classify(buf).slice.Covers(k2)
    requires k1 < k2 < |c.heights| && k1 in m && k2 in m
    requires forall j :: Classify(buf).slice.Covers(j) && j != k1 && j != k2 ==> j !in m
    ensures var s := Classify(buf).slice;
            var o := Receive(c, m, family, lo, hi, buf);
            o.Handled? && o.sent == None &&
            o.next.session ==
              Apply(Apply(c.session, m[k1].action, Percent(Deadzone(RawAt(buf, s, k1), lo, hi))),
                    m[k2].action, Percent(Deadzone(RawAt(buf, s, k2), lo, hi)))
  {
    var s := Classify(buf).slice;
    ScanWithTwoBindings(c, m, buf, s, lo, hi, s.length, k1, k2);
  }

  /** A (key code 65) steering left and D (67) steering right on the left
      stick, pressed equally far in one type-1 report, cancel: the frame is
      unchanged, so from rest the left stick stays at 0. */
  lemma OppositeSteeringCancels(c: ControllerState, m: map<int, KeyAction>, family: ModelFamily,
                                lo: int, hi: int, buf: seq<Byte>)
    requires Classify(buf).Scan? && buf[4] == 1 && lo < hi && |c.heights| == KeySlots
    requires 65 in m && m[65].action == Stick(LeftX, -1.0)
    requires 67 in m && m[67].action == Stick(LeftX, 1.0)
    requires forall j :: 59 <= j < 118 && j != 65 && j != 67 ==> j !in m
    requires |buf| > 12 && buf[10] == buf[12]
    ensures var o := Receive(c, m, family, lo, hi, buf);
            o.Handled? && o.sent == None && o.next.session == c.session
  {
    var s := Classify(buf).slice;
    assert s == Slice(59, 59);
    ReceiveTwoBindings(c, m, family, lo, hi, buf, 65, 67);
    assert RawAt(buf, s, 65) == buf[10] && RawAt(buf, s, 67) == buf[12];
    OppositeStickPressesCancel(c.session, LeftX, -1.0, Percent(Deadzone(buf[10], lo, hi)));
  }

  /** Two keys of one report bound to the same trigger combine by maximum:
      the trigger ends at the larger of its old level and the two fractions,
      and no stick or button moves. */
  lemma TwoPullsTakeMax(c: ControllerState, m: map<int, KeyAction>, family: ModelFamily,
                        lo: int, hi: int, buf: seq<Byte>, k1: int, k2: int, t: Trigger)
    requires Classify(buf).Scan? && buf[4] != 2 && lo < hi
    requires Classify(buf).slice.Covers(k1) && Classify(buf).slice.Covers(k2)
    requires k1 < k2 < |c.heights| && k1 in m && k2 in m
    requires m[k1].action == Pull(t) && m[k2].action == Pull(t)
    requires forall j :: Classify(buf).slice.Covers(j) && j != k1 && j != k2 ==> j !in m
    ensures var s := Classify(buf).slice;
            var o := Receive(c, m, family, lo, hi, buf);
            o.Handled? && o.sent == None &&
            o.next.session.acc.Level(t) ==
              MaxReal(MaxReal(c.session.acc.Level(t), Percent(Deadzone(RawAt(buf, s, k1), lo, hi))),
                      Percent(Deadzone(RawAt(buf, s, k2), lo, hi))) &&
            (forall axis :: o.next.session.acc.Get(axis) == c.session.acc.Get(axis)) &&
            o.next.session.pad == c.session.pad
  {
    var s := Classify(buf).slice;
    var p1, p2 := Percent(Deadzone(RawAt(buf, s, k1), lo, hi)), Percent(Deadzone(RawAt(buf, s, k2), lo, hi));
    ReceiveTwoBindings(c, m, family, lo, hi, buf, k1, k2);
    TwoPulls(c.session, t, p1, p2);
  }

  /** A key-scan report none of whose key codes is bound changes no
      accumulator or button; a type-2 one sends the frame accumulated so far. */
  lemma ReceiveUnboundSlice(c: ControllerState, m: map<int, KeyAction>, family: ModelFamily,
                            lo: int, hi: int, buf: seq<Byte>)
    requires Classify(buf).Scan? && lo < hi
    requires forall j :: Classify(buf).slice.Covers(j) ==> j !in m
    ensures var o := Receive(c, m, family, lo, hi, buf);
            o.Handled? && |o.next.heights| == |c.heights| &&
            if buf[4] == 2 then o.next.session == Flush(c.session) && o.sent == Some(Flush(c.session).pad)
            else o.next.session == c.session && o.sent == None
  {
    var s := Classify(buf).slice;
    ScanWithOneBinding(c, m, buf, s, lo, hi, s.length, -1);
  }

  /** Holding W (key code 45) to the bottom of the default 2..36 window,
      with W bound to the right trigger as the racing configurations bind it,
      puts 255 on the right trigger and 0 on the left in the frame sent at
      the end of the cycle, whatever the other sub-reports carry. */
  lemma ThrottleEndToEnd(c: ControllerState, family: ModelFamily,
                         buf0: seq<Byte>, buf1: seq<Byte>, buf2: seq<Byte>)
    requires |c.heights| == KeySlots && c.session.acc == Idle
    requires Classify(buf0).Scan? && buf0[4] == 0 && |buf0| > 49 && buf0[49] >= 36
    requires Classify(buf1).Scan? && buf1[4] == 1
    requires Classify(buf2).Scan? && buf2[4] == 2
    ensures var m := map[45 := KeyAction(Pull(RightTrigger), false, "Throttle")];
            var o0 := Receive(c, m, family, 2, 36, buf0);
            o0.Handled? && o0.sent == None &&
            var o1 := Receive(o0.next, m, family, 2, 36, buf1);
            o1.Handled? && o1.sent == None &&
            var o2 := Receive(o1.next, m, family, 2, 36, buf2);
            o2.Handled? && o2.sent.Some? && o2.sent.value.rt == 255 && o2.sent.value.lt == 0
  {
    var m := map[45 := KeyAction(Pull(RightTrigger), false, "Throttle")];
    var c0 := ThrottleFirstSlice(c, m, family, buf0);
    ReceiveUnboundSlice(c0, m, family, 2, 36, buf1);
    var c1 := Receive(c0, m, family, 2, 36, buf1).next;
    ReceiveUnboundSlice(c1, m, family, 2, 36, buf2);
  }

  /** The first step of `ThrottleEndToEnd`: the type-0 sub-report raises the
      right trigger to full travel. */
  lemma ThrottleFirstSlice(c: ControllerState, m: map<int, KeyAction>, family: ModelFamily, buf0: seq<Byte>)
    returns (c0: ControllerState)
    requires m == map[45 := KeyAction(Pull(RightTrigger), false, "Throttle")]
    requires |c.heights| == KeySlots && c.session.acc == Idle
    requires Classify(buf0).Scan? && buf0[4] == 0 && |buf0| > 49 && buf0[49] >= 36
    ensures Receive(c, m, family, 2, 36, buf0) == Handled(c0, None)
    ensures c0.session.acc == Idle.(rt := 1.0) && |c0.heights| == |c.heights|
  {
    var s0 := Slice(0, 59);
    assert Classify(buf0) == Scan(0, s0);
    assert FaultFree(|c.heights|, buf0, s0, 2, 36, 59);
    c0 := ScanPrefix(c, m, buf0, s0, 2, 36, 59);
    assert Receive(c, m, family, 2, 36, buf0) == Handled(c0, None);
    ScanWithOneBinding(c, m, buf0, s0, 2, 36, 59, 45);
    FullPullFromIdle(c.session, buf0);
  }

  lemma FullPullFromIdle(st: Session, buf0: seq<Byte>)
    requires st.acc == Idle && |buf0| > 49 && buf0[49] >= 36
    ensures Apply(st, Pull(RightTrigger), Percent(Deadzone(RawAt(buf0, Slice(0, 59), 45), 2, 36))).acc == Idle.(rt := 1.0)
  {
    DeadzoneRange(buf0[49], 2, 36);
    assert RawAt(buf0, Slice(0, 59), 45) == buf0[49];
  }

  // ---------------------------------------------------------------------------
  // The controller object

  class G75Controller {
    /** `key_height_array`: the last depth decoded for each key code. */
    const keyHeights: array<int>
    var keyActionMap: map<int, KeyAction>
    const deadzoneMin: int
    const deadzoneMax: int
    const family: ModelFamily
    var keyboardId: int
    var leftStickX: real
    var leftStickY: real
    var rightStickX: real
    var rightStickY: real
    var leftTriggerVal: real
    var rightTriggerVal: real
    /** The virtual pad (`self.gamepad`). */
    var gamepad: Pad

    function Frame(): Session
      reads this
    {
      Session(Accumulators(leftStickX, leftStickY, rightStickX, rightStickY, leftTriggerVal, rightTriggerVal), gamepad)
    }

    function State(): ControllerState
      reads this, keyHeights
    {
      ControllerState(keyHeights[..], keyboardId, Frame())
    }

    constructor(deadzoneMin: int, deadzoneMax: int, family: ModelFamily)
      ensures State() == InitialState() && keyActionMap == map[]
      ensures this.deadzoneMin == deadzoneMin && this.deadzoneMax == deadzoneMax && this.family == family
      ensures fresh(keyHeights)
    {
      keyHeights := new int[KeySlots](_ => 0);
      keyActionMap := map[];
      this.deadzoneMin := deadzoneMin;
      this.deadzoneMax := deadzoneMax;
      this.family := family;
      keyboardId := 0;
      leftStickX, leftStickY, rightStickX, rightStickY := 0.0, 0.0, 0.0, 0.0;
      leftTriggerVal, rightTriggerVal := 0.0, 0.0;
      gamepad := NeutralPad;
    }

    /** `identify_keyboard`. */
    method IdentifyKeyboard(byte5: int, byte6: int, byte7: int)
      modifies this`keyboardId
      ensures keyboardId == Decode.IdentifyKeyboard(family, byte5, byte6, byte7)
      ensures keyboardId != 0
    {
      if byte5 == 11 && byte6 == 4 && byte7 == 5 {
        keyboardId := 754;
      } else if family == ThreeModels && byte5 == 11 && byte6 == 1 && byte7 == 1 {
        keyboardId := 75;
      } else if family == ThreeModels && byte5 == 11 && byte6 == 4 && byte7 == 3 {
        keyboardId := 750;
      } else {
        keyboardId := 1;
      }
    }

    /** `register_key_action`: look the name up in the layout. */
    method RegisterKeyAction(keyName: string, action: Action, inverse: bool, description: string)
      modifies this`keyActionMap
      ensures keyActionMap == BindByName(old(keyActionMap), keyName, KeyAction(action, inverse, description))
    {
      match LayoutIndex(keyName)
      case Some(keycode) =>
        keyActionMap := keyActionMap[keycode := KeyAction(action, inverse, description)];
      case None =>
    }

    /** `register_key_action_by_index` (debuggers/leftarrow.py): any key code,
      even one outside the array, is accepted. */
    method RegisterKeyActionByIndex(keycode: int, action: Action, inverse: bool, description: string)
      modifies this`keyActionMap
      ensures keyActionMap == old(keyActionMap)[keycode := KeyAction(action, inverse, description)]
    {
      keyActionMap := keyActionMap[keycode := KeyAction(action, inverse, description)];
    }

    /** The `action_*` methods. */
    method RunAction(action: Action, percent: real)
      modifies this
      ensures Frame() == Apply(old(Frame()), action, percent)
      ensures keyActionMap == old(keyActionMap) && keyboardId == old(keyboardId)
    {
      match action
      case Stick(axis, w) =>
        match axis {
          case LeftX => leftStickX := leftStickX + w * percent;
          case LeftY => leftStickY := leftStickY + w * percent;
          case RightX => rightStickX := rightStickX + w * percent;
          case RightY => rightStickY := rightStickY + w * percent;
        }
      case Pull(t) =>
        match t {
          case LeftTrigger => leftTriggerVal := MaxReal(leftTriggerVal, percent);
          case RightTrigger => rightTriggerVal := MaxReal(rightTriggerVal, percent);
        }
      case Hold(b) =>
        if percent > 0.5 {
          gamepad := gamepad.(buttons := gamepad.buttons + {b});
        } else {
          gamepad := gamepad.(buttons := gamepad.buttons - {b});
        }
    }

    /** `process_key_height`. */
    method ProcessKeyHeight(keycode: int, travelPercent: real)
      modifies this
      ensures Frame() == ApplyBinding(old(Frame()), keyActionMap, keycode, travelPercent)
      ensures keyActionMap == old(keyActionMap) && keyboardId == old(keyboardId)
    {
      if keycode in keyActionMap {
        RunAction(keyActionMap[keycode].action, travelPercent);
      }
    }

    /** `process_packet`. `crashed` reports the exceptions the source lets
      escape (a short identity answer, a zero-width deadzone window); the
      program stops on them, so the state left behind is not described. */
    method ProcessPacket(buffer: seq<Byte>) returns (crashed: bool, sent: Option<Pad>)
      modifies this, keyHeights
      ensures var o := Receive(old(State()), old(keyActionMap), family, deadzoneMin, deadzoneMax, buffer);
              (crashed <==> o.Crashed?) && (!crashed ==> State() == o.next && sent == o.sent)
      ensures keyActionMap == old(keyActionMap)
    {
      if |buffer| < 5 || buffer[0] != ReportId {
        return false, None;
      }
      var command := buffer[1];
      if command == IdentityResponse {
        if buffer[2] == 0x02 && buffer[3] == 0x00 {
          if |buffer| < 8 {
            return true, None;
          }
          IdentifyKeyboard(buffer[5], buffer[6], buffer[7]);
        }
        return false, None;
      }
      if command != KeyScanResponse {
        return false, None;
      }
      var packetType := buffer[4];
      var basePosition, operationLength;
      if packetType == 0 {
        basePosition, operationLength := 0, 59;
      } else if packetType == 1 {
        basePosition, operationLength := 59, 59;
      } else if packetType == 2 {
        basePosition, operationLength := 118, 8;
      } else {
        return false, None;
      }
      crashed := DecodeSlice(buffer, basePosition, operationLength);
      if crashed {
        return true, None;
      }
      sent := None;
      if packetType == 2 {
        var frame := SendFrame();
        sent := Some(frame);
      }
    }

    /** The key loop of `process_packet`: decode, store and dispatch each key
      code of the slice. */
    method DecodeSlice(buffer: seq<Byte>, basePosition: nat, operationLength: nat) returns (crashed: bool)
      modifies this, keyHeights
      ensures var s := Slice(basePosition, operationLength);
              (crashed <==> !FaultFree(keyHeights.Length, buffer, s, deadzoneMin, deadzoneMax, operationLength)) &&
              (!crashed ==> State() == ScanPrefix(old(State()), keyActionMap, buffer, s, deadzoneMin, deadzoneMax, operationLength))
      ensures keyActionMap == old(keyActionMap)
    {
      ghost var s := Slice(basePosition, operationLength);
      ghost var c0 := old(State());
      var i := 0;
      while i < operationLength
        invariant 0 <= i <= operationLength
        invariant FaultFree(|c0.heights|, buffer, s, deadzoneMin, deadzoneMax, i)
        invariant State() == ScanPrefix(c0, keyActionMap, buffer, s, deadzoneMin, deadzoneMax, i)
        invariant keyActionMap == old(keyActionMap)
      {
        var keynum := basePosition + i;
        if keynum < keyHeights.Length {
          crashed := DecodeKey(buffer, keynum, s, i);
          if crashed {
            return;
          }
        }
        i := i + 1;
      }
      crashed := false;
    }

    /** One pass of that loop, for key `keynum`, the `i`-th of slice `s`,
      within the array: read its raw byte, normalise it, store it and
      dispatch it. */
    method DecodeKey(buffer: seq<Byte>, keynum: nat, ghost s: Slice, i: nat) returns (crashed: bool)
      requires i < s.length && keynum == s.base + i < keyHeights.Length
      modifies this, keyHeights
      ensures var k := s.base + i;
              (crashed <==> DividesByZero(RawAt(buffer, s, k), deadzoneMin, deadzoneMax)) &&
              (!crashed ==>
                 var d, c := Deadzone(RawAt(buffer, s, k), deadzoneMin, deadzoneMax), old(State());
                 State() == c.(heights := c.heights[k := d], session := ApplyBinding(c.session, keyActionMap, k, Percent(d))))
      ensures keyActionMap == old(keyActionMap)
    {
      var rawValue := if i + 4 < |buffer| then buffer[i + 4] else 0;
      if DividesByZero(rawValue, deadzoneMin, deadzoneMax) {
        return true;
      }
      var newValue := Deadzone(rawValue, deadzoneMin, deadzoneMax);
      var percent := Percent(newValue);
      keyHeights[keynum] := newValue;
      ProcessKeyHeight(keynum, percent);
      crashed := false;
    }

    /** The end of a scan cycle: clamp and scale the accumulators into the
      pad, send it, and zero the accumulators. */
    method SendFrame() returns (frame: Pad)
      modifies this
      ensures Frame() == Flush(old(Frame())) && frame == gamepad
      ensures keyActionMap == old(keyActionMap) && keyboardId == old(keyboardId)
    {
      gamepad := Pad(ClampUnit(leftStickX), ClampUnit(leftStickY), ClampUnit(rightStickX), ClampUnit(rightStickY),
                     ScaleToByte(leftTriggerVal), ScaleToByte(rightTriggerVal), gamepad.buttons);
      frame := gamepad;
      leftStickX, leftStickY, rightStickX, rightStickY := 0.0, 0.0, 0.0, 0.0;
      leftTriggerVal, rightTriggerVal := 0.0, 0.0;
    }
  }
}
