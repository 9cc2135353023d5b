/** archive/v3.py: configuration loading and the keyboard suppressor. */
module V3 {
  import opened Decode
  import opened Gamepad
  import opened Controller
  import opened Config

  /** The button chain of `load_config`. */
  const ButtonTable: seq<(string, Action)> := [
    ("A_BUTTON", Hold(ButtonA)),
    ("B_BUTTON", Hold(ButtonB)),
    ("X_BUTTON", Hold(ButtonX)),
    ("Y_BUTTON", Hold(ButtonY)),
    ("LEFT_BUMPER", Hold(LeftShoulder)),
    ("RIGHT_BUMPER", Hold(RightShoulder)),
    ("START", Hold(Start)),
    ("DPAD_UP", Hold(DpadUp)),
    ("DPAD_DOWN", Hold(DpadDown))
  ]

  /** `drunkdeer_to_standard`: layout names to the key names the suppressor
      sees. */
  const StandardNames: map<string, string> := map[
    "W" := "w", "A" := "a", "S" := "s", "D" := "d",
    "E" := "e", "R" := "r", "F" := "f", "T" := "t",
    "Q" := "q", "Z" := "z", "X" := "x", "C" := "c",
    "V" := "v", "B" := "b", "H" := "h", "N" := "n",
    "SPACE" := "space", "SHF_L" := "shift_l", "SHF_R" := "shift_r",
    "ARR_L" := "left", "ARR_R" := "right", "ARR_UP" := "up", "ARR_DW" := "down",
    "ESC" := "esc", "TAB" := "tab", "RETURN" := "enter"
  ]

  /** A parsed configuration file. */
  datatype ConfigFile = ConfigFile(suppression: Suppression, analog: seq<Mapping>, buttons: seq<Mapping>)

  /** The bindings `load_config` leaves: the analog loop, then the button loop. */
  function ConfiguredBindings(m: map<int, KeyAction>, file: ConfigFile): map<int, KeyAction> {
    BindMappings(BindMappings(m, AnalogTable, file.analog), ButtonTable, file.buttons)
  }

  /** The key names `load_config` collects for suppression. */
  function ConfiguredSuppressKeys(file: ConfigFile): set<string> {
    SuppressKeys(StandardNames, file.analog) + SuppressKeys(StandardNames, file.buttons)
  }

  /** The arrow keys are suppressed under their own direction names. */
  lemma ArrowStandardNames()
    ensures StandardKey(StandardNames, "ARR_L") == "left" && StandardKey(StandardNames, "ARR_R") == "right"
    ensures StandardKey(StandardNames, "ARR_UP") == "up" && StandardKey(StandardNames, "ARR_DW") == "down"
    ensures StandardKey(StandardNames, "SHF_L") != StandardKey(StandardNames, "SHF_R")
  {
  }

  /** An unlisted name is suppressed under its lower-case spelling. */
  lemma UnlistedNamesLowerCased(name: string)
    requires name !in StandardNames
    ensures StandardKey(StandardNames, name) == Lower(name)
  {
  }

  /** `load_config` on a parsed file, or on a missing one (`file == None`).
      A suppressor is created exactly when suppression is enabled and some
      key was collected; it starts active, with the lower-cased toggle key. */
  method LoadConfig(c: G75Controller, file: Option<ConfigFile>) returns (loaded: bool, suppressor: KeyboardSuppressor?)
    modifies c`keyActionMap
    ensures file.None? ==> !loaded && suppressor == null && c.keyActionMap == old(c.keyActionMap)
    ensures file.Some? ==> loaded && c.keyActionMap == ConfiguredBindings(old(c.keyActionMap), file.value)
    ensures file.Some? ==>
              (suppressor != null <==>
                 file.value.suppression.Enabled() && ConfiguredSuppressKeys(file.value) != {})
    ensures suppressor != null ==>
              fresh(suppressor) && suppressor.suppressionActive &&
              suppressor.suppressKeys == ConfiguredSuppressKeys(file.value) &&
              suppressor.toggleKey == Lower(file.value.suppression.Toggle())
  {
    if file.None? {
      return false, null;
    }
    var config := file.value;
    var toggleKey := config.suppression.Toggle();
    var enableSuppression := config.suppression.Enabled();
    var suppressKeys := LoadMappings(c, AnalogTable, StandardNames, config.analog, {});
    suppressKeys := LoadMappings(c, ButtonTable, StandardNames, config.buttons, suppressKeys);
    suppressor := null;
    if enableSuppression && suppressKeys != {} {
      suppressor := new KeyboardSuppressor(suppressKeys, toggleKey);
    }
    loaded := true;
  }

  // ---------------------------------------------------------------------------
  // Keyboard suppressor

  /** What `on_press` decides for a normalised key (None for a key the
      listener cannot name): whether the key is let through, and the new
      value of `suppression_active`. */
  function PressOutcome(active: bool, toggleKey: string, keys: set<string>, key: Option<string>): (bool, bool) {
    if key == Some(toggleKey) then (true, !active)
    else if active && key.Some? && key.value in keys then (false, active)
    else (true, active)
  }

  class KeyboardSuppressor {
    const suppressKeys: set<string>
    const toggleKey: string
    var suppressionActive: bool

    constructor(suppressKeys: set<string>, toggleKey: string)
      ensures this.suppressKeys == suppressKeys && this.toggleKey == Lower(toggleKey)
      ensures suppressionActive
    {
      this.suppressKeys := suppressKeys;
      this.toggleKey := Lower(toggleKey);
      suppressionActive := true;
    }

    /** `on_press`: `allow` is the value the callback returns. */
    method OnPress(normalized: Option<string>) returns (allow: bool)
      modifies this
      ensures (allow, suppressionActive) == PressOutcome(old(suppressionActive), toggleKey, suppressKeys, normalized)
    {
      if normalized == Some(toggleKey) {
        suppressionActive := !suppressionActive;
        return true;
      }
      if suppressionActive && normalized.Some? && normalized.value in suppressKeys {
        return false;
      }
      return true;
    }
  }

  /** The toggle key always passes and flips suppression, even when it is
      itself among the suppressed keys; any other key leaves the flag alone
      and is blocked exactly when suppression is on and the key is listed. */
  lemma PressOutcomeCases(active: bool, toggleKey: string, keys: set<string>, key: Option<string>)
    ensures key == Some(toggleKey) ==> PressOutcome(active, toggleKey, keys, key) == (true, !active)
    ensures key != Some(toggleKey) ==>
              PressOutcome(active, toggleKey, keys, key).1 == active &&
              (!PressOutcome(active, toggleKey, keys, key).0 <==> active && key.Some? && key.value in keys)
  {
  }

  /** A run of key presses through the hook: the flags it returns. */
  function PressAll(active: bool, toggleKey: string, keys: set<string>, presses: seq<Option<string>>): bool
    decreases |presses|
  {
    if presses == [] then active
    else PressAll(PressOutcome(active, toggleKey, keys, presses[0]).1, toggleKey, keys, presses[1..])
  }

  function CountToggles(toggleKey: string, presses: seq<Option<string>>): nat
    decreases |presses|
  {
    if presses == [] then 0
    else (if presses[0] == Some(toggleKey) then 1 else 0) + CountToggles(toggleKey, presses[1..])
  }

  /** After any run of presses, suppression is on exactly when "it started
      on" and "the toggle key was pressed an even number of times" are both
      true or both false. */
  lemma {:induction false} SuppressionParity(active: bool, toggleKey: string, keys: set<string>,
                                             presses: seq<Option<string>>)
    ensures PressAll(active, toggleKey, keys, presses) == (active == (CountToggles(toggleKey, presses) % 2 == 0))
    decreases |presses|
  {
    if presses != [] {
      SuppressionParity(PressOutcome(active, toggleKey, keys, presses[0]).1, toggleKey, keys, presses[1..]);
    }
  }
}
