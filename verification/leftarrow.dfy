/** debuggers/leftarrow.py: configuration loading with index bindings, the
    fourteen-button chain, and the block-list keyboard suppressor. Its
    controller is `Controller.G75Controller` with the `G75Only` family. */
module LeftArrow {
  import opened Decode
  import opened Gamepad
  import opened Controller
  import opened Config

  const ButtonTable: seq<(string, Action)> := [
    ("A_BUTTON", Hold(ButtonA)),
    ("B_BUTTON", Hold(ButtonB)),
    ("X_BUTTON", Hold(ButtonX)),
    ("Y_BUTTON", Hold(ButtonY)),
    ("LEFT_BUMPER", Hold(LeftShoulder)),
    ("RIGHT_BUMPER", Hold(RightShoulder)),
    ("START", Hold(Start)),
    ("BACK", Hold(Back)),
    ("LEFT_STICK_CLICK", Hold(LeftThumb)),
    ("RIGHT_STICK_CLICK", Hold(RightThumb)),
    ("DPAD_UP", Hold(DpadUp)),
    ("DPAD_DOWN", Hold(DpadDown)),
    ("DPAD_LEFT", Hold(DpadLeft)),
    ("DPAD_RIGHT", Hold(DpadRight))
  ]

  /** `drunkdeer_to_standard` of this program: it adds P and M, names both
      shift keys "shift", and names the arrow keys as written there. */
  const StandardNames: map<string, string> := map[
    "W" := "w", "A" := "a", "S" := "s", "D" := "d",
    "E" := "e", "R" := "r", "F" := "f", "T" := "t",
    "Q" := "q", "Z" := "z", "X" := "x", "C" := "c",
    "V" := "v", "B" := "b", "H" := "h", "N" := "n",
    "P" := "p", "M" := "m",
    "SPACE" := "space", "SHF_L" := "shift", "SHF_R" := "shift",
    "ARR_L" := "down", "ARR_R" := "right", "ARR_UP" := "up", "ARR_DW" := "right",
    "ESC" := "esc", "TAB" := "tab", "RETURN" := "enter"
  ]

  /** How an analog entry names its key: `drunkdeer_index` (with or without
      a `drunkdeer_key` beside it), or `drunkdeer_key` alone. */
  datatype KeyRef = ByIndex(index: int, key: Option<string>) | ByName(name: string)

  /** One parsed entry of `controller_mappings.analog`. */
  datatype AnalogEntry = AnalogEntry(action: string, ref: KeyRef, controller: string,
                                     description: Option<string>, suppress: Option<bool>)

  datatype ConfigFile = ConfigFile(suppression: Suppression, analog: seq<AnalogEntry>, buttons: seq<Mapping>)

  /** The key code an analog entry binds: the index when one is given,
      otherwise the first layout slot with the name; None skips the entry. */
  function Keycode(ref: KeyRef): (r: Option<int>)
    ensures ref.ByIndex? ==> r == Some(ref.index)
    ensures ref.ByName? ==> (r.None? <==> LayoutIndex(ref.name).None?)
    ensures ref.ByName? && r.Some? ==> r.value == LayoutIndex(ref.name).value
  {
    match ref
    case ByIndex(i, _) => Some(i)
    case ByName(n) =>
      match LayoutIndex(n)
      case None => None
      case Some(k) => Some(k)
  }

  /** `mapping.get('drunkdeer_key', '')`. */
  function KeyName(ref: KeyRef): string {
    match ref
    case ByIndex(_, key) => if key.Some? then key.value else ""
    case ByName(n) => n
  }

  function DescribeEntry(e: AnalogEntry): string {
    if e.description.Some? then e.description.value else e.action
  }

  /** The suppression name an analog entry contributes: only when its
      `suppress` flag is not false and its key name is listed. */
  function EntrySuppressKey(e: AnalogEntry): Option<string> {
    if Keycode(e.ref).None? then None
    else if e.suppress != Some(false) && KeyName(e.ref) in StandardNames then Some(StandardNames[KeyName(e.ref)])
    else None
  }

  function BindEntry(m: map<int, KeyAction>, e: AnalogEntry): map<int, KeyAction> {
    match Keycode(e.ref)
    case None => m
    case Some(kc) =>
      match Dispatch(AnalogTable, e.controller)
      case None => m
      case Some(a) => m[kc := KeyAction(a, false, DescribeEntry(e))]
  }

  function BindEntries(m: map<int, KeyAction>, es: seq<AnalogEntry>): map<int, KeyAction>
    decreases |es|
  {
    if es == [] then m else BindEntry(BindEntries(m, es[..|es| - 1]), es[|es| - 1])
  }

  function EntryKeys(es: seq<AnalogEntry>): set<string> {
    set i | 0 <= i < |es| && EntrySuppressKey(es[i]).Some? :: EntrySuppressKey(es[i]).value
  }

  /** The index takes precedence over the name, and an entry whose name is
      not in the layout is skipped entirely: no binding, no suppression. */
  lemma AnalogEntryResolution(m: map<int, KeyAction>, e: AnalogEntry)
    ensures e.ref.ByIndex? && Dispatch(AnalogTable, e.controller).Some? ==>
              BindEntry(m, e) == m[e.ref.index := KeyAction(Dispatch(AnalogTable, e.controller).value, false, DescribeEntry(e))]
    ensures e.ref.ByName? && LayoutIndex(e.ref.name).None? ==>
              BindEntry(m, e) == m && EntrySuppressKey(e).None?
  {
  }

  /** An entry adds a suppression name exactly when it is resolved, its flag
      is not false and its key name has a standard name; an index-only entry
      never does. */
  lemma EntrySuppression(e: AnalogEntry)
    ensures EntrySuppressKey(e).Some? <==>
              Keycode(e.ref).Some? && e.suppress != Some(false) && KeyName(e.ref) in StandardNames
    ensures e.ref.ByIndex? && e.ref.key.None? ==> EntrySuppressKey(e).None?
  {
    assert "" !in StandardNames;
  }

  /** The arrow names of this program: ARR_L is suppressed as "down" and both
      ARR_R and ARR_DW as "right", so "left" is never blocked through them. */
  lemma ArrowStandardNames()
    ensures StandardKey(StandardNames, "ARR_L") == "down"
    ensures StandardKey(StandardNames, "ARR_DW") == StandardKey(StandardNames, "ARR_R") == "right"
    ensures forall n :: n in StandardNames ==> StandardNames[n] != "left"
  {
  }

  lemma EntryKeysSnoc(es: seq<AnalogEntry>, e: AnalogEntry)
    ensures EntryKeys(es + [e]) ==
              EntryKeys(es) + (if EntrySuppressKey(e).Some? then {EntrySuppressKey(e).value} else {})
  {
    var l := EntryKeys(es + [e]);
    var r := EntryKeys(es) + (if EntrySuppressKey(e).Some? then {EntrySuppressKey(e).value} else {});
    forall x | x in l ensures x in r {
      var i :| 0 <= i < |es| + 1 && EntrySuppressKey((es + [e])[i]).Some? && EntrySuppressKey((es + [e])[i]).value == x;
      if i < |es| { assert (es + [e])[i] == es[i]; }
    }
    forall x | x in r ensures x in l {
      if x in EntryKeys(es) {
        var i :| 0 <= i < |es| && EntrySuppressKey(es[i]).Some? && EntrySuppressKey(es[i]).value == x;
        assert (es + [e])[i] == es[i];
      } else {
        assert (es + [e])[|es|] == e;
      }
    }
  }

  /** One pass of the analog loop of `load_config`: resolve the key code
      (skipping the entry when its name is not in the layout), note its
      suppression name, and register the dispatched action by index. */
  method LoadEntry(c: G75Controller, mapping: AnalogEntry) returns (suppressKey: Option<string>)
    modifies c`keyActionMap
    ensures c.keyActionMap == BindEntry(old(c.keyActionMap), mapping)
    ensures suppressKey == EntrySuppressKey(mapping)
  {
    suppressKey := None;
    var keycode;
    match mapping.ref {
      case ByIndex(index, _) =>
        keycode := index;
      case ByName(keyName) =>
        match LayoutIndex(keyName) {
          case None =>
            return;
          case Some(k) =>
            keycode := k;
        }
    }
    if mapping.suppress != Some(false) {
      var name := KeyName(mapping.ref);
      if name in StandardNames {
        suppressKey := Some(StandardNames[name]);
      }
    }
    match Dispatch(AnalogTable, mapping.controller) {
      case Some(action) =>
        c.RegisterKeyActionByIndex(keycode, action, false, DescribeEntry(mapping));
      case None =>
    }
  }

  /** One more pass of the analog loop over `es`. */
  lemma EntryLoopStep(m: map<int, KeyAction>, es: seq<AnalogEntry>, i: nat)
    requires i < |es|
    ensures BindEntries(m, es[..i + 1]) == BindEntry(BindEntries(m, es[..i]), es[i])
    ensures EntryKeys(es[..i + 1]) ==
              EntryKeys(es[..i]) + (if EntrySuppressKey(es[i]).Some? then {EntrySuppressKey(es[i]).value} else {})
  {
    assert es[..i + 1] == es[..i] + [es[i]];
    assert es[..i + 1][..i] == es[..i];
    EntryKeysSnoc(es[..i], es[i]);
  }

  /** The analog loop of `load_config`. */
  method LoadAnalog(c: G75Controller, es: seq<AnalogEntry>) returns (keys: set<string>)
    modifies c`keyActionMap
    ensures c.keyActionMap == BindEntries(old(c.keyActionMap), es)
    ensures keys == EntryKeys(es)
  {
    keys := {};
    var i := 0;
    while i < |es|
      invariant 0 <= i <= |es|
      invariant c.keyActionMap == BindEntries(old(c.keyActionMap), es[..i])
      invariant keys == EntryKeys(es[..i])
    {
      var suppressKey := LoadEntry(c, es[i]);
      if suppressKey.Some? {
        keys := keys + {suppressKey.value};
      }
      EntryLoopStep(old(c.keyActionMap), es, i);
      i := i + 1;
    }
    assert es[..i] == es;
  }

  /** `load_config`: the analog loop, then the name-keyed button loop, whose
      every key is suppressed; a suppressor is created and started exactly
      when suppression is enabled and some key was collected. */
  method LoadConfig(c: G75Controller, file: Option<ConfigFile>) returns (loaded: bool, suppressor: KeyboardSuppressor?)
    modifies c`keyActionMap
    ensures file.None? ==> !loaded && suppressor == null && c.keyActionMap == old(c.keyActionMap)
    ensures file.Some? ==>
              loaded &&
              c.keyActionMap == BindMappings(BindEntries(old(c.keyActionMap), file.value.analog), ButtonTable, file.value.buttons)
    ensures file.Some? ==>
              (suppressor != null <==>
                 file.value.suppression.Enabled() &&
                 EntryKeys(file.value.analog) + SuppressKeys(StandardNames, file.value.buttons) != {})
    ensures suppressor != null ==>
              fresh(suppressor) && suppressor.suppressionActive && suppressor.hooked &&
              suppressor.suppressKeys == EntryKeys(file.value.analog) + SuppressKeys(StandardNames, file.value.buttons) &&
              suppressor.suppressKeys <= suppressor.blocked &&
              suppressor.toggleKey == Lower(file.value.suppression.Toggle())
  {
    if file.None? {
      return false, null;
    }
    var config := file.value;
    var toggleKey := config.suppression.Toggle();
    var enableSuppression := config.suppression.Enabled();
    var suppressKeys := LoadAnalog(c, config.analog);
    suppressKeys := LoadMappings(c, ButtonTable, StandardNames, config.buttons, suppressKeys);
    suppressor := null;
    if enableSuppression && suppressKeys != {} {
      suppressor := new KeyboardSuppressor(suppressKeys, toggleKey);
      suppressor.Start();
    }
    loaded := true;
  }

  // ---------------------------------------------------------------------------
  // Keyboard suppressor

  /** `KeyboardSuppressor`: `blocked` stands for the set of key names the
      keyboard library currently blocks. */
  class KeyboardSuppressor {
    const suppressKeys: set<string>
    const toggleKey: string
    var suppressionActive: bool
    var hooked: bool
    var blocked: set<string>

    /** The block list agrees with the flag: every suppressed key is blocked
        while suppression is on, and none while it is off. */
    predicate Consistent()
      reads this
    {
      (suppressionActive ==> suppressKeys <= blocked) && (!suppressionActive ==> suppressKeys !! blocked)
    }

    constructor(suppressKeys: set<string>, toggleKey: string)
      ensures this.suppressKeys == suppressKeys && this.toggleKey == Lower(toggleKey)
      ensures suppressionActive && !hooked && blocked == {}
    {
      this.suppressKeys := suppressKeys;
      this.toggleKey := Lower(toggleKey);
      suppressionActive := true;
      hooked := false;
      blocked := {};
    }

    /** `start`: block every suppressed key and hook the toggle key. */
    method Start()
      modifies this
      ensures blocked == old(blocked) + suppressKeys && hooked
      ensures suppressionActive == old(suppressionActive)
      ensures suppressionActive ==> Consistent()
    {
      blocked := blocked + suppressKeys;
      hooked := true;
    }

    /** `toggle_suppression`: flip the flag, then block or unblock every
        suppressed key to match it. */
    method ToggleSuppression()
      modifies this
      ensures (suppressionActive, blocked) == Toggled(old(suppressionActive), suppressKeys, old(blocked))
      ensures hooked == old(hooked)
    {
      suppressionActive := !suppressionActive;
      if suppressionActive {
        blocked := blocked + suppressKeys;
      } else {
        blocked := blocked - suppressKeys;
      }
    }
  }

  /** The flag and block list after `toggle_suppression`. */
  function Toggled(active: bool, keys: set<string>, blocked: set<string>): (bool, set<string>) {
    if !active then (true, blocked + keys) else (false, blocked - keys)
  }

  /** A toggle flips the flag and always leaves the block list agreeing with
      it; two toggles restore the flag and, from an agreeing state, the
      blocked status of every suppressed key. Keys outside the suppressed set
      are never touched. */
  lemma ToggleProperties(active: bool, keys: set<string>, blocked: set<string>)
    ensures var (a1, b1) := Toggled(active, keys, blocked);
            a1 == !active && (a1 ==> keys <= b1) && (!a1 ==> keys !! b1) && b1 - keys == blocked - keys
    ensures (active ==> keys <= blocked) && (!active ==> keys !! blocked) ==>
              var (a1, b1) := Toggled(active, keys, blocked);
              var (a2, b2) := Toggled(a1, keys, b1);
              a2 == active && b2 * keys == blocked * keys
  {
  }
}
