/** archive/main.py: the earlier controller with built-in racing and custom
    bindings and half-weight secondary axes. Its controller is
    `Controller.G75Controller` with the `ThreeModels` family. */
module Racing {
  import opened Decode
  import opened Gamepad
  import opened Controller

  /** The `action_*` methods of this program: the left-stick X axis takes the
      full travel, the other three axes half of it. */
  const LeftStickXPositive := Stick(LeftX, 1.0)
  const LeftStickXNegative := Stick(LeftX, -1.0)
  const LeftStickYPositive := Stick(LeftY, 0.5)
  const LeftStickYNegative := Stick(LeftY, -0.5)
  const RightStickXPositive := Stick(RightX, 0.5)
  const RightStickXNegative := Stick(RightX, -0.5)
  const RightStickYPositive := Stick(RightY, 0.5)
  const RightStickYNegative := Stick(RightY, -0.5)
  const LeftTriggerAction := Pull(LeftTrigger)
  const RightTriggerAction := Pull(RightTrigger)

  /** This program's `KeyAction` has no description. */
  function Bound(a: Action): KeyAction { KeyAction(a, false, "") }

  /** `setup_racing_config`: W (45) throttles with the right trigger, S (66)
      brakes with the left, A (65) and D (67) steer the left stick left and
      right; every other key keeps its binding. */
  function RacingBindings(m: map<int, KeyAction>): (r: map<int, KeyAction>)
    ensures r.Keys == m.Keys + {45, 65, 66, 67}
    ensures r[45] == Bound(Pull(RightTrigger)) && r[66] == Bound(Pull(LeftTrigger))
    ensures r[65] == Bound(Stick(LeftX, -1.0)) && r[67] == Bound(Stick(LeftX, 1.0))
    ensures forall k :: k in m && k !in {45, 65, 66, 67} ==> r[k] == m[k]
  {
    LayoutIndexW();
    LayoutIndexS();
    LayoutIndexA();
    LayoutIndexD();
    var m1 := BindByName(m, "W", Bound(RightTriggerAction));
    var m2 := BindByName(m1, "S", Bound(LeftTriggerAction));
    var m3 := BindByName(m2, "A", Bound(LeftStickXNegative));
    BindByName(m3, "D", Bound(LeftStickXPositive))
  }

  /** `setup_custom_config`: the arrows (99 up, 121 down, 120 left, 122
      right) drive the right stick at half weight. */
  function CustomBindings(m: map<int, KeyAction>): (r: map<int, KeyAction>)
    ensures r.Keys == m.Keys + {99, 120, 121, 122}
    ensures r[99] == Bound(Stick(RightY, 0.5)) && r[121] == Bound(Stick(RightY, -0.5))
    ensures r[120] == Bound(Stick(RightX, -0.5)) && r[122] == Bound(Stick(RightX, 0.5))
    ensures forall k :: k in m && k !in {99, 120, 121, 122} ==> r[k] == m[k]
  {
    LayoutIndexArrowUp();
    LayoutIndexArrowDown();
    LayoutIndexArrowLeft();
    LayoutIndexArrowRight();
    var m1 := BindByName(m, "ARR_UP", Bound(RightStickYPositive));
    var m2 := BindByName(m1, "ARR_DW", Bound(RightStickYNegative));
    var m3 := BindByName(m2, "ARR_L", Bound(RightStickXNegative));
    BindByName(m3, "ARR_R", Bound(RightStickXPositive))
  }

  /** The configuration step of `run`: "racing" binds the racing keys,
      "custom" the arrows and then the racing keys, anything else nothing. */
  method SetupForMode(c: G75Controller, configMode: string)
    modifies c`keyActionMap
    ensures configMode == "racing" ==> c.keyActionMap == RacingBindings(old(c.keyActionMap))
    ensures configMode == "custom" ==> c.keyActionMap == RacingBindings(CustomBindings(old(c.keyActionMap)))
    ensures configMode != "racing" && configMode != "custom" ==> c.keyActionMap == old(c.keyActionMap)
  {
    if configMode == "racing" {
      SetupRacingConfig(c);
    } else if configMode == "custom" {
      SetupCustomConfig(c);
      SetupRacingConfig(c);
    }
  }

  method SetupRacingConfig(c: G75Controller)
    modifies c`keyActionMap
    ensures c.keyActionMap == RacingBindings(old(c.keyActionMap))
  {
    c.RegisterKeyAction("W", RightTriggerAction, false, "");
    c.RegisterKeyAction("S", LeftTriggerAction, false, "");
    c.RegisterKeyAction("A", LeftStickXNegative, false, "");
    c.RegisterKeyAction("D", LeftStickXPositive, false, "");
  }

  method SetupCustomConfig(c: G75Controller)
    modifies c`keyActionMap
    ensures c.keyActionMap == CustomBindings(old(c.keyActionMap))
  {
    c.RegisterKeyAction("ARR_UP", RightStickYPositive, false, "");
    c.RegisterKeyAction("ARR_DW", RightStickYNegative, false, "");
    c.RegisterKeyAction("ARR_L", RightStickXNegative, false, "");
    c.RegisterKeyAction("ARR_R", RightStickXPositive, false, "");
  }

  /** In custom mode both key sets are bound and neither overrides the
      other, since they use disjoint key codes. */
  lemma CustomModeKeepsBoth(m: map<int, KeyAction>)
    ensures var r := RacingBindings(CustomBindings(m));
            r[45] == Bound(Pull(RightTrigger)) && r[120] == Bound(Stick(RightX, -0.5)) &&
            r.Keys == m.Keys + {45, 65, 66, 67, 99, 120, 121, 122}
  {
  }

  /** A single fully pressed arrow moves the right stick by half; left and
      right arrows pressed together cancel. */
  lemma ArrowMagnitudes(st: Session)
    requires st.acc == Idle
    ensures Apply(st, RightStickXPositive, 1.0).acc.rx == 0.5
    ensures Apply(st, RightStickYNegative, 1.0).acc.ry == -0.5
    ensures Apply(Apply(st, RightStickXNegative, 1.0), RightStickXPositive, 1.0).acc.rx == 0.0
  {
    OppositeStickPressesCancel(st, RightX, -0.5, 1.0);
  }

  /** Full steering on A gives -1.0 on the left stick and full throttle 255
      on the right trigger in the frame sent. */
  lemma FullSteerAndThrottle(st: Session)
    requires st.acc == Idle
    ensures var s := Apply(Apply(st, LeftStickXNegative, 1.0), RightTriggerAction, 1.0);
            Flush(s).pad.lx == -1.0 && Flush(s).pad.rt == 255 && Flush(s).pad.ry == 0.0
  {
  }
}
