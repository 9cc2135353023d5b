/** The parts of `load_config` that archive/v3.py and debuggers/leftarrow.py
    share, over an already-parsed configuration: the first-match substring
    dispatch from controller strings to actions, the key-name normalisation
    for suppression, and the name-keyed mapping loop. */
module Config {
  import opened Decode
  import opened Gamepad
  import opened Controller

  // ---------------------------------------------------------------------------
  // Strings

  /** `pat` occurs in `s` starting at position `i`. */
  predicate OccursAt(s: string, pat: string, i: int) {
    0 <= i && i + |pat| <= |s| && s[i..i + |pat|] == pat
  }

  /** Python's `pat in s` on strings. */
  function Contains(s: string, pat: string): (r: bool)
    ensures r <==> exists i :: OccursAt(s, pat, i)
    decreases |s|
  {
    if |pat| > |s| then false
    else if s[..|pat|] == pat then assert OccursAt(s, pat, 0); true
    else
      ShiftOccurrences(s, pat);
      Contains(s[1..], pat)
  }

  lemma ShiftOccurrences(s: string, pat: string)
    requires |s| > 0 && !OccursAt(s, pat, 0)
    ensures (exists i :: OccursAt(s, pat, i)) <==> (exists i :: OccursAt(s[1..], pat, i))
  {
    forall i | OccursAt(s, pat, i) ensures OccursAt(s[1..], pat, i - 1) {
      assert s[1..][i - 1..i - 1 + |pat|] == s[i..i + |pat|];
    }
    forall i | OccursAt(s[1..], pat, i) ensures OccursAt(s, pat, i + 1) {
      assert s[1..][i..i + |pat|] == s[i + 1..i + 1 + |pat|];
    }
  }

  function LowerChar(ch: char): char {
    if 'A' <= ch <= 'Z' then (ch as int + 32) as char else ch
  }

  /** `str.lower()`, folding the ASCII capitals A-Z only. */
  function Lower(s: string): (r: string)
    ensures |r| == |s|
    ensures forall i :: 0 <= i < |s| ==> r[i] == LowerChar(s[i])
  {
    seq(|s|, i requires 0 <= i < |s| => LowerChar(s[i]))
  }

  /** `drunkdeer_to_standard.get(name, name.lower())`. */
  function StandardKey(names: map<string, string>, name: string): string {
    if name in names then names[name] else Lower(name)
  }

  // ---------------------------------------------------------------------------
  // Controller-string dispatch

  /** The position of the first table entry whose pattern occurs in the
      controller string: the `if ... elif ...` chain of `load_config`. */
  function FirstMatch(table: seq<(string, Action)>, controller: string): (r: Option<nat>)
    ensures r.Some? ==> r.value < |table| && Contains(controller, table[r.value].0) &&
                        forall j :: 0 <= j < r.value ==> !Contains(controller, table[j].0)
    ensures r.None? ==> forall j :: 0 <= j < |table| ==> !Contains(controller, table[j].0)
  {
    if table == [] then None
    else if Contains(controller, table[0].0) then Some(0)
    else match FirstMatch(table[1..], controller)
      case None => None
      case Some(i) => Some(i + 1)
  }

  function Dispatch(table: seq<(string, Action)>, controller: string): Option<Action> {
    match FirstMatch(table, controller)
    case None => None
    case Some(i) => Some(table[i].1)
  }

  /** The analog chain, the same in archive/v3.py and debuggers/leftarrow.py. */
  const AnalogTable: seq<(string, Action)> := [
    ("LEFT_STICK_X_POSITIVE", Stick(LeftX, 1.0)),
    ("LEFT_STICK_X_NEGATIVE", Stick(LeftX, -1.0)),
    ("LEFT_STICK_Y_POSITIVE", Stick(LeftY, 1.0)),
    ("LEFT_STICK_Y_NEGATIVE", Stick(LeftY, -1.0)),
    ("RIGHT_STICK_X_POSITIVE", Stick(RightX, 1.0)),
    ("RIGHT_STICK_X_NEGATIVE", Stick(RightX, -1.0)),
    ("RIGHT_STICK_Y_POSITIVE", Stick(RightY, 1.0)),
    ("RIGHT_STICK_Y_NEGATIVE", Stick(RightY, -1.0)),
    ("RIGHT_TRIGGER", Pull(RightTrigger)),
    ("LEFT_TRIGGER", Pull(LeftTrigger))
  ]

  /** The chain picks entry `i` when its pattern is the first one present. */
  lemma DispatchPicks(table: seq<(string, Action)>, controller: string, i: nat)
    requires i < |table| && Contains(controller, table[i].0)
    requires forall j :: 0 <= j < i ==> !Contains(controller, table[j].0)
    ensures Dispatch(table, controller) == Some(table[i].1)
  {
  }

  /** A pattern longer than the string cannot occur in it. */
  lemma TooLongToOccur(s: string, pat: string)
    requires |pat| > |s|
    ensures !Contains(s, pat)
  {
  }

  /** The stick patterns are all longer than the trigger names. */
  lemma StickPatternsAreLong(j: nat)
    requires j < 8
    ensures |AnalogTable[j].0| >= 21
  {
  }

  /** The test is a substring test: a controller string only has to mention
      the action, and the trigger names resolve to their triggers. */
  lemma RightTriggerResolves()
    ensures Dispatch(AnalogTable, "RIGHT_TRIGGER") == Some(Pull(RightTrigger))
  {
    forall j | 0 <= j < 8 ensures !Contains("RIGHT_TRIGGER", AnalogTable[j].0) {
      StickPatternsAreLong(j);
      TooLongToOccur("RIGHT_TRIGGER", AnalogTable[j].0);
    }
    assert OccursAt("RIGHT_TRIGGER", AnalogTable[8].0, 0);
    DispatchPicks(AnalogTable, "RIGHT_TRIGGER", 8);
  }

  lemma LeftTriggerResolves(prefix: string)
    requires prefix == "" || prefix == "XBOX_"
    ensures Dispatch(AnalogTable, prefix + "LEFT_TRIGGER") == Some(Pull(LeftTrigger))
  {
    var x := prefix + "LEFT_TRIGGER";
    forall j | 0 <= j < 8 ensures !Contains(x, AnalogTable[j].0) {
      StickPatternsAreLong(j);
      TooLongToOccur(x, AnalogTable[j].0);
    }
    forall i | 0 <= i ensures !OccursAt(x, AnalogTable[8].0, i) {
      if 0 <= i && i + 13 <= |x| {
        assert x[i..i + 13][0] == x[i] != 'R';
      }
    }
    assert OccursAt(x, AnalogTable[9].0, |prefix|);
    DispatchPicks(AnalogTable, x, 9);
  }

  /** An empty or unrelated controller string binds nothing. */
  lemma EmptyControllerBindsNothing()
    ensures Dispatch(AnalogTable, "") == None
  {
  }

  // ---------------------------------------------------------------------------
  // Name-keyed mappings

  /** One parsed entry of `controller_mappings.analog` or `.buttons`. */
  datatype Mapping = Mapping(action: string, drunkdeerKey: string, controller: string, description: Option<string>)

  /** The `suppression` block: `toggle_key` (default "f12") and `enabled`
      (default true). */
  datatype Suppression = Suppression(toggleKey: Option<string>, enabled: Option<bool>) {
    function Toggle(): string { if toggleKey.Some? then toggleKey.value else "f12" }
    predicate Enabled() { enabled != Some(false) }
  }

  /** `mapping.get('description', action)`. */
  function Describe(mp: Mapping): string {
    if mp.description.Some? then mp.description.value else mp.action
  }

  /** One pass of a name-keyed mapping loop: register the dispatched action
      under the mapping's key name, or nothing when no pattern matched. */
  function BindMapping(m: map<int, KeyAction>, table: seq<(string, Action)>, mp: Mapping): map<int, KeyAction> {
    match Dispatch(table, mp.controller)
    case None => m
    case Some(a) => BindByName(m, mp.drunkdeerKey, KeyAction(a, false, Describe(mp)))
  }

  /** The whole loop, in configuration order. */
  function BindMappings(m: map<int, KeyAction>, table: seq<(string, Action)>, ms: seq<Mapping>): map<int, KeyAction>
    decreases |ms|
  {
    if ms == [] then m
    else BindMapping(BindMappings(m, table, ms[..|ms| - 1]), table, ms[|ms| - 1])
  }

  lemma BindMappingsSnoc(m: map<int, KeyAction>, table: seq<(string, Action)>, ms: seq<Mapping>, mp: Mapping)
    ensures BindMappings(m, table, ms + [mp]) == BindMapping(BindMappings(m, table, ms), table, mp)
  {
    assert (ms + [mp])[..|ms|] == ms;
  }

  /** The names each mapping adds to `suppress_keys`, matched or not. */
  function SuppressKeys(names: map<string, string>, ms: seq<Mapping>): set<string> {
    set i | 0 <= i < |ms| :: StandardKey(names, ms[i].drunkdeerKey)
  }

  /** The loop binds only layout slots named by some mapping whose controller
      string matched, and never unbinds a key. */
  lemma {:induction false} BindMappingsOnlyNamedSlots(m: map<int, KeyAction>, table: seq<(string, Action)>,
                                                      ms: seq<Mapping>, k: int)
    ensures k in m ==> k in BindMappings(m, table, ms)
    ensures k in BindMappings(m, table, ms) && (k !in m || BindMappings(m, table, ms)[k] != m[k]) ==>
              exists i :: 0 <= i < |ms| && LayoutIndex(ms[i].drunkdeerKey) == Some(k) &&
                          Dispatch(table, ms[i].controller).Some?
    decreases |ms|
  {
    if ms != [] {
      var init := ms[..|ms| - 1];
      var last := ms[|ms| - 1];
      BindMappingsOnlyNamedSlots(m, table, init, k);
      var before := BindMappings(m, table, init);
      if k in BindMappings(m, table, ms) && (k !in m || BindMappings(m, table, ms)[k] != m[k]) {
        if k in before && before[k] == BindMappings(m, table, ms)[k] {
          var i :| 0 <= i < |init| && LayoutIndex(init[i].drunkdeerKey) == Some(k) &&
                   Dispatch(table, init[i].controller).Some?;
          assert ms[i] == init[i];
        } else {
          assert ms[|ms| - 1] == last;
        }
      }
    }
  }

  /** A later mapping for the same key overrides an earlier one. */
  lemma LastMappingWins(m: map<int, KeyAction>, table: seq<(string, Action)>, ms: seq<Mapping>, mp: Mapping)
    requires LayoutIndex(mp.drunkdeerKey).Some? && Dispatch(table, mp.controller).Some?
    ensures var k := LayoutIndex(mp.drunkdeerKey).value;
            k in BindMappings(m, table, ms + [mp]) &&
            BindMappings(m, table, ms + [mp])[k] == KeyAction(Dispatch(table, mp.controller).value, false, Describe(mp))
  {
    assert (ms + [mp])[..|ms|] == ms;
  }

  /** Every mapping's key name is suppressed, whether its controller string
      matched or not, and only those names are. */
  lemma SuppressKeysExact(names: map<string, string>, ms: seq<Mapping>, key: string)
    ensures key in SuppressKeys(names, ms) <==>
              exists i :: 0 <= i < |ms| && StandardKey(names, ms[i].drunkdeerKey) == key
  {
  }

  lemma SuppressKeysSnoc(names: map<string, string>, ms: seq<Mapping>, mp: Mapping)
    ensures SuppressKeys(names, ms + [mp]) == SuppressKeys(names, ms) + {StandardKey(names, mp.drunkdeerKey)}
  {
    var l, r := SuppressKeys(names, ms + [mp]), SuppressKeys(names, ms) + {StandardKey(names, mp.drunkdeerKey)};
    forall x | x in l ensures x in r {
      var i :| 0 <= i < |ms| + 1 && StandardKey(names, (ms + [mp])[i].drunkdeerKey) == x;
      if i < |ms| { assert (ms + [mp])[i] == ms[i]; }
    }
    forall x | x in r ensures x in l {
      if x != StandardKey(names, mp.drunkdeerKey) {
        var i :| 0 <= i < |ms| && StandardKey(names, ms[i].drunkdeerKey) == x;
        assert (ms + [mp])[i] == ms[i];
      } else {
        assert (ms + [mp])[|ms|] == mp;
      }
    }
  }

  /** One more pass of the loop over `ms`. */
  lemma MappingLoopStep(m: map<int, KeyAction>, table: seq<(string, Action)>, names: map<string, string>,
                        ms: seq<Mapping>, i: nat)
    requires i < |ms|
    ensures BindMappings(m, table, ms[..i + 1]) == BindMapping(BindMappings(m, table, ms[..i]), table, ms[i])
    ensures SuppressKeys(names, ms[..i + 1]) == SuppressKeys(names, ms[..i]) + {StandardKey(names, ms[i].drunkdeerKey)}
  {
    assert ms[..i + 1] == ms[..i] + [ms[i]];
    BindMappingsSnoc(m, table, ms[..i], ms[i]);
    SuppressKeysSnoc(names, ms[..i], ms[i]);
  }

  /** The body of that loop for one mapping: the `if ... elif ...` chain
      and its `register_key_action` call. */
  method LoadMapping(c: G75Controller, table: seq<(string, Action)>, mapping: Mapping)
    modifies c`keyActionMap
    ensures c.keyActionMap == BindMapping(old(c.keyActionMap), table, mapping)
  {
    match Dispatch(table, mapping.controller) {
      case Some(action) =>
        c.RegisterKeyAction(mapping.drunkdeerKey, action, false, Describe(mapping));
      case None =>
    }
  }

  /** The name-keyed mapping loop of `load_config`, on the controller:
      `suppress_keys` grows by each mapping's standard name and the matched
      ones are registered with `register_key_action`. */
  method LoadMappings(c: G75Controller, table: seq<(string, Action)>, names: map<string, string>,
                      ms: seq<Mapping>, keysIn: set<string>) returns (keys: set<string>)
    modifies c`keyActionMap
    ensures c.keyActionMap == BindMappings(old(c.keyActionMap), table, ms)
    ensures keys == keysIn + SuppressKeys(names, ms)
  {
    keys := keysIn;
    var i := 0;
    while i < |ms|
      invariant 0 <= i <= |ms|
      invariant c.keyActionMap == BindMappings(old(c.keyActionMap), table, ms[..i])
      invariant keys == keysIn + SuppressKeys(names, ms[..i])
    {
      var mapping := ms[i];
      var standardKey := StandardKey(names, mapping.drunkdeerKey);
      keys := keys + {standardKey};
      LoadMapping(c, table, mapping);
      MappingLoopStep(old(c.keyActionMap), table, names, ms, i);
      i := i + 1;
    }
    assert ms[..i] == ms;
  }
}
