/** The decode routine shared by every program of the repository: the report
    filter, the slice of key codes each key-scan sub-report covers, the
    deadzone normaliser, the output scaling, the key layout table and the
    keyboard-model identification. Everything here is pure. */
module Decode {

  /** One byte of a HID report. */
  type Byte = b: int | 0 <= b < 256

  datatype Option<T> = None | Some(value: T)

  const ReportId: int := 0x04
  const IdentityResponse: int := 0xa0
  const KeyScanResponse: int := 0xb7
  /** Length of `key_height_array`, the space of key codes. */
  const KeySlots: int := 128
  /** Full travel after normalisation. */
  const MaxDepth: int := 40

  function Min(a: int, b: int): int { if a <= b then a else b }
  function Max(a: int, b: int): int { if a <= b then b else a }
  function MinReal(a: real, b: real): real { if a <= b then a else b }
  function MaxReal(a: real, b: real): real { if a <= b then b else a }

  // ---------------------------------------------------------------------------
  // Report filter and slice decode

  /** The contiguous run of key codes one key-scan sub-report carries. */
  datatype Slice = Slice(base: nat, length: nat) {
    predicate Covers(k: int) { base <= k < base + length }
  }

  /** Sub-report type 0, 1, 2 cover key codes 0..58, 59..117 and 118..125. */
  function SliceOf(packetType: int): Option<Slice> {
    if packetType == 0 then Some(Slice(0, 59))
    else if packetType == 1 then Some(Slice(59, 59))
    else if packetType == 2 then Some(Slice(118, 8))
    else None
  }

  /** What `process_packet` makes of a report. */
  datatype Packet =
    | Ignored                              // too short, foreign, unknown command or sub-type
    | IdentityAnswer                       // 0x04 0xa0 0x02 0x00 ...
    | Scan(packetType: int, slice: Slice)  // 0x04 0xb7 .. .. type ...

  predicate IsIdentityAnswer(buf: seq<Byte>) {
    |buf| >= 5 && buf[0] == ReportId && buf[1] == IdentityResponse && buf[2] == 0x02 && buf[3] == 0x00
  }

  /** The controllers read the model bytes 5..7 of an identity answer after
      checking only that the report has five bytes. */
  predicate IdentityReadable(buf: seq<Byte>) {
    IsIdentityAnswer(buf) ==> |buf| >= 8
  }

  function Classify(buf: seq<Byte>): (p: Packet)
    ensures p.Scan? <==>
              |buf| >= 5 && buf[0] == ReportId && buf[1] == KeyScanResponse && buf[4] in {0, 1, 2}
    ensures p.Scan? ==> p.packetType == buf[4] && SliceOf(buf[4]) == Some(p.slice)
    ensures p.IdentityAnswer? <==> IsIdentityAnswer(buf)
  {
    if |buf| < 5 || buf[0] != ReportId then Ignored
    else if buf[1] == IdentityResponse then
      (if buf[2] == 0x02 && buf[3] == 0x00 then IdentityAnswer else Ignored)
    else if buf[1] != KeyScanResponse then Ignored
    else match SliceOf(buf[4])
      case None => Ignored
      case Some(s) => Scan(buf[4], s)
  }

  /** The raw travel of key `k` in a sub-report covering `s`: byte `k - base + 4`,
      or 0 past the end of the report. */
  function RawAt(buf: seq<Byte>, s: Slice, k: int): Byte
    requires s.Covers(k)
  {
    var j := k - s.base + 4;
    if j < |buf| then buf[j] else 0
  }

  // ---------------------------------------------------------------------------
  // Travel normaliser

  /** `apply_deadzone` divides by `hi - lo` only for a value inside the
      window; with `lo == hi` a value equal to both raises ZeroDivisionError. */
  predicate DividesByZero(v: int, lo: int, hi: int) {
    lo <= v <= hi && hi <= lo
  }

  /** `apply_deadzone`: 0 below the window, 40 above it, and the truncated
      linear interpolation inside it. */
  function Deadzone(v: int, lo: int, hi: int): (d: int)
    requires !DividesByZero(v, lo, hi)
    ensures v < lo ==> d == 0
    ensures lo <= v && hi < v ==> d == MaxDepth
    ensures lo <= v <= hi ==> 0 <= d <= MaxDepth
  {
    if v < lo then 0
    else if v > hi then MaxDepth
    else
      var n, w := (v - lo) * MaxDepth, hi - lo;
      var q := n / w;
      assert q * w + n % w == n;
      assert (q - MaxDepth) * w == q * w - MaxDepth * w;
      PositiveFactor(q - MaxDepth, w);
      q
  }

  /** Inside the window the depth is the truncated quotient. */
  lemma DeadzoneQuotient(v: int, lo: int, hi: int)
    requires lo <= v <= hi && lo < hi
    ensures var d := Deadzone(v, lo, hi);
            d * (hi - lo) <= (v - lo) * MaxDepth < (d + 1) * (hi - lo)
  {
    var n, w := (v - lo) * MaxDepth, hi - lo;
    assert n / w * w + n % w == n;
  }

  /** Sign rules the solver does not find by itself. */
  lemma PositiveFactor(x: int, w: int)
    requires w > 0 && x * w <= 0
    ensures x <= 0
  {
  }

  lemma ExactQuotient(m: int, w: int)
    requires w > 0
    ensures (m * w) / w == m
  {
    var q := (m * w) / w;
    assert q * w + (m * w) % w == m * w;
    assert (m - q) * w == (m * w) % w;
    PositiveFactor(m - q - 1, w);
    PositiveFactor(q - m, w);
  }

  /** The fraction of full travel, `depth / 40.0`. */
  function Percent(d: int): (p: real)
    ensures 0 <= d <= MaxDepth ==> 0.0 <= p <= 1.0
    ensures d == MaxDepth ==> p == 1.0
    ensures d == 0 ==> p == 0.0
  {
    d as real / MaxDepth as real
  }

  // ---------------------------------------------------------------------------
  // Output scaling

  /** Python's `int()` on a float: truncation toward zero. */
  function Trunc(x: real): (t: int)
    ensures 0.0 <= x ==> t as real <= x < t as real + 1.0
    ensures x < 0.0 ==> t as real - 1.0 < x <= t as real
  {
    if x >= 0.0 then x.Floor else -((-x).Floor)
  }

  /** `scale_to_byte`: a trigger value to the 0..255 range, by truncation. */
  function ScaleToByte(p: real): (b: int)
    ensures 0 <= b <= 255
    ensures 0.0 <= p <= 1.0 ==> b as real <= p * 255.0 < b as real + 1.0
    ensures 1.0 <= p ==> b == 255
    ensures p <= 0.0 ==> b == 0
  {
    Max(0, Min(255, Trunc(p * 255.0)))
  }

  /** `max(-1.0, min(1.0, x))`, applied to every stick value before output. */
  function ClampUnit(x: real): (r: real)
    ensures -1.0 <= r <= 1.0
    ensures -1.0 <= x <= 1.0 ==> r == x
    ensures x > 1.0 ==> r == 1.0
    ensures x < -1.0 ==> r == -1.0
  {
    MaxReal(-1.0, MinReal(1.0, x))
  }

  // ---------------------------------------------------------------------------
  // Key layout table

  /** `keyboard_layout`: the symbolic name of each key code, "" for slots
      with no name. The rows follow the lines of the source table. */
  const KeyboardLayout: seq<string> :=
    LayoutRow0 + LayoutRow1 + LayoutRow2 + LayoutRow3 + LayoutRow4 + LayoutRow5 + LayoutRow6 +
    LayoutRow7 + LayoutRow8 + LayoutRow9 + LayoutRow10 + LayoutRow11 + LayoutRow12
  const LayoutRow0: seq<string> := ["ESC", "", "", "F1", "F2", "F3", "F4", "F5", "F6", "F7", "F8"]
  const LayoutRow1: seq<string> := ["F9", "F10", "F11", "F12", "KP7", "KP8", "KP9", "u1", "u2", "u3", "u4"]
  const LayoutRow2: seq<string> := ["SWUNG", "1", "2", "3", "4", "5", "6", "7", "8", "9", "0"]
  const LayoutRow3: seq<string> := ["MINUS", "PLUS", "BACK", "KP4", "KP5", "KP6", "u5", "u6", "u7", "u8"]
  const LayoutRow4: seq<string> := ["TAB", "Q", "W", "E", "R", "T", "Y", "U", "I", "O", "P"]
  const LayoutRow5: seq<string> := ["BRKTS_L", "BRKTS_R", "SLASH_K29", "KP1", "KP2", "KP3", "u9", "u10", "u11", "u12"]
  const LayoutRow6: seq<string> := ["CAPS", "A", "S", "D", "F", "G", "H", "J", "K", "L"]
  const LayoutRow7: seq<string> := ["COLON", "QOTATN", "u13", "RETURN", "u14", "KP0", "KP_DEL", "u15", "u16", "u17", "u18"]
  const LayoutRow8: seq<string> := ["SHF_L", "EUR_K45", "Z", "X", "C", "V", "B", "N", "M"]
  const LayoutRow9: seq<string> := ["COMMA", "PERIOD", "VIRGUE", "u19", "SHF_R", "ARR_UP", "u20", "NUMS", "u21", "u22", "u23", "u24"]
  const LayoutRow10: seq<string> := ["CTRL_L", "WIN_L", "ALT_L", "u25", "u26", "u27", "SPACE"]
  const LayoutRow11: seq<string> := ["u28", "u29", "u30", "ALT_R", "FN1", "APP", "", "ARR_L"]
  const LayoutRow12: seq<string> := ["ARR_DW", "ARR_R", "CTRL_R", "u31", "u32", "u33", "u34"]

  /** Python's `list.index`: the first position of `x`, or None where the
      source raises ValueError. */
  function IndexOf<T(==)>(xs: seq<T>, x: T): (r: Option<nat>)
    ensures r.Some? ==> r.value < |xs| && xs[r.value] == x &&
                        forall j :: 0 <= j < r.value ==> xs[j] != x
    ensures r.None? ==> forall j :: 0 <= j < |xs| ==> xs[j] != x
  {
    if xs == [] then None
    else if xs[0] == x then Some(0)
    else match IndexOf(xs[1..], x)
      case None => None
      case Some(i) => Some(i + 1)
  }

  function LayoutIndex(name: string): Option<nat> {
    IndexOf(KeyboardLayout, name)
  }

  // ---------------------------------------------------------------------------
  // Keyboard-model identification

  /** archive/v3.py and archive/main.py know three models; debuggers/leftarrow.py
      knows only the G75. */
  datatype ModelFamily = ThreeModels | G75Only

  /** `identify_keyboard`: the model id for the three identity bytes; 1 stands
      for a DrunkDeer keyboard of unknown model. */
  function IdentifyKeyboard(family: ModelFamily, b5: int, b6: int, b7: int): int {
    if b5 == 11 && b6 == 4 && b7 == 5 then 754
    else if family == ThreeModels && b5 == 11 && b6 == 1 && b7 == 1 then 75
    else if family == ThreeModels && b5 == 11 && b6 == 4 && b7 == 3 then 750
    else 1
  }

  // ---------------------------------------------------------------------------
  // Properties

  /** The three sub-report types partition the named key codes 0..125: every
      one of them is covered by exactly one type, and no type reaches past 125,
      so the `keynum >= len(key_height_array)` guard never skips. */
  lemma SlicesPartitionKeyCodes(k: int)
    ensures 0 <= k < 126 ==>
              exists t :: 0 <= t < 3 && SliceOf(t).Some? && SliceOf(t).value.Covers(k)
    ensures forall t, u :: 0 <= t < u < 3 ==>
              !(SliceOf(t).value.Covers(k) && SliceOf(u).value.Covers(k))
    ensures forall t :: SliceOf(t).Some? ==>
              SliceOf(t).value.base + SliceOf(t).value.length <= 126 < KeySlots
  {
    if 0 <= k < 59 { assert SliceOf(0).value.Covers(k); }
    else if 59 <= k < 118 { assert SliceOf(1).value.Covers(k); }
    else if 118 <= k < 126 { assert SliceOf(2).value.Covers(k); }
  }

  /** Entry `i` of a sub-report is byte `i + 4`, so the base key code reads the
      sub-report type itself. */
  lemma BaseKeyReadsTypeByte(buf: seq<Byte>)
    requires Classify(buf).Scan?
    ensures RawAt(buf, Classify(buf).slice, Classify(buf).slice.base) == buf[4]
  {
  }

  /** With the default window 2..36 that type byte (0, 1 or 2) never gives the
      base key a depth: key codes 0, 59 and 118 always decode to 0. */
  lemma BaseKeyIsInertWithDefaultWindow(buf: seq<Byte>)
    requires Classify(buf).Scan?
    ensures Deadzone(RawAt(buf, Classify(buf).slice, Classify(buf).slice.base), 2, 36) == 0
  {
    BaseKeyReadsTypeByte(buf);
  }

  /** Reports shorter than five bytes, with another report id, with another
      command, or with an unknown sub-type, are dropped. */
  lemma ForeignReportsIgnored(buf: seq<Byte>)
    ensures (|buf| < 5 || buf[0] != ReportId) ==> Classify(buf).Ignored?
    ensures (|buf| >= 5 && buf[0] == ReportId && buf[1] != IdentityResponse && buf[1] != KeyScanResponse)
              ==> Classify(buf).Ignored?
    ensures (|buf| >= 5 && buf[0] == ReportId && buf[1] == KeyScanResponse && buf[4] !in {0, 1, 2})
              ==> Classify(buf).Ignored?
  {
  }

  /** For a proper window the depth stays within 0..40, the window's ends map
      to 0 and 40, and more travel never gives less depth. */
  lemma DeadzoneRange(v: int, lo: int, hi: int)
    requires lo < hi
    ensures 0 <= Deadzone(v, lo, hi) <= MaxDepth
    ensures Deadzone(lo, lo, hi) == 0 && Deadzone(hi, lo, hi) == MaxDepth
  {
    ExactQuotient(MaxDepth, hi - lo);
    assert (hi - lo) * MaxDepth == MaxDepth * (hi - lo);
  }

  lemma DeadzoneMonotone(v1: int, v2: int, lo: int, hi: int)
    requires lo < hi && v1 <= v2
    ensures Deadzone(v1, lo, hi) <= Deadzone(v2, lo, hi)
  {
    if lo <= v1 && v2 <= hi {
      DeadzoneQuotient(v1, lo, hi);
      DeadzoneQuotient(v2, lo, hi);
      QuotientOrder(Deadzone(v1, lo, hi), Deadzone(v2, lo, hi), hi - lo, (v1 - lo) * MaxDepth, (v2 - lo) * MaxDepth);
    }
  }

  lemma QuotientOrder(q1: int, q2: int, w: int, n1: int, n2: int)
    requires w > 0 && q1 * w <= n1 <= n2 < (q2 + 1) * w
    ensures q1 <= q2
  {
    assert (q1 - q2 - 1) * w == q1 * w - (q2 + 1) * w;
    PositiveFactor(q1 - q2 - 1, w);
  }

  /** Travel fractions are monotone too, and full travel is 1.0. */
  lemma PercentMonotone(v1: int, v2: int, lo: int, hi: int)
    requires lo < hi && v1 <= v2
    ensures Percent(Deadzone(v1, lo, hi)) <= Percent(Deadzone(v2, lo, hi))
    ensures 0.0 <= Percent(Deadzone(v1, lo, hi)) <= 1.0
  {
    DeadzoneMonotone(v1, v2, lo, hi);
    DeadzoneRange(v1, lo, hi);
  }

  /** Python's `.index` returns the first position: the sample layout
      positions used by the configurations, and the first of the three
      unnamed slots 1, 2 and 119. Each name is looked for below its position
      in bands, one lemma per band. */
  lemma LayoutIndexW()
    ensures LayoutIndex("W") == Some(45)
  {
    AbsentWFrom0();
    FirstPosition("W", 45);
  }

  lemma AbsentWFrom0()
    ensures forall j :: 0 <= j < 45 ==> KeyboardLayout[j] != "W"
  {
  }

  lemma LayoutIndexA()
    ensures LayoutIndex("A") == Some(65)
  {
    AbsentAFrom0();
    AbsentAFrom45();
    FirstPosition("A", 65);
  }

  lemma AbsentAFrom0()
    ensures forall j :: 0 <= j < 45 ==> KeyboardLayout[j] != "A"
  {
  }

  lemma AbsentAFrom45()
    ensures forall j :: 45 <= j < 65 ==> KeyboardLayout[j] != "A"
  {
  }

  lemma LayoutIndexS()
    ensures LayoutIndex("S") == Some(66)
  {
    AbsentSFrom0();
    AbsentSFrom45();
    FirstPosition("S", 66);
  }

  lemma AbsentSFrom0()
    ensures forall j :: 0 <= j < 45 ==> KeyboardLayout[j] != "S"
  {
  }

  lemma AbsentSFrom45()
    ensures forall j :: 45 <= j < 66 ==> KeyboardLayout[j] != "S"
  {
  }

  lemma LayoutIndexD()
    ensures LayoutIndex("D") == Some(67)
  {
    AbsentDFrom0();
    AbsentDFrom45();
    FirstPosition("D", 67);
  }

  lemma AbsentDFrom0()
    ensures forall j :: 0 <= j < 45 ==> KeyboardLayout[j] != "D"
  {
  }

  lemma AbsentDFrom45()
    ensures forall j :: 45 <= j < 67 ==> KeyboardLayout[j] != "D"
  {
  }

  lemma LayoutIndexArrowUp()
    ensures LayoutIndex("ARR_UP") == Some(99)
  {
    AbsentArrowUpFrom0();
    AbsentArrowUpFrom45();
    FirstPosition("ARR_UP", 99);
  }

  lemma AbsentArrowUpFrom0()
    ensures forall j :: 0 <= j < 45 ==> KeyboardLayout[j] != "ARR_UP"
  {
  }

  lemma AbsentArrowUpFrom45()
    ensures forall j :: 45 <= j < 99 ==> KeyboardLayout[j] != "ARR_UP"
  {
  }

  lemma LayoutIndexArrowLeft()
    ensures LayoutIndex("ARR_L") == Some(120)
  {
    AbsentArrowLeftFrom0();
    AbsentArrowLeftFrom45();
    AbsentArrowLeftFrom90();
    FirstPosition("ARR_L", 120);
  }

  lemma AbsentArrowLeftFrom0()
    ensures forall j :: 0 <= j < 45 ==> KeyboardLayout[j] != "ARR_L"
  {
  }

  lemma AbsentArrowLeftFrom45()
    ensures forall j :: 45 <= j < 90 ==> KeyboardLayout[j] != "ARR_L"
  {
  }

  lemma AbsentArrowLeftFrom90()
    ensures forall j :: 90 <= j < 120 ==> KeyboardLayout[j] != "ARR_L"
  {
  }

  lemma LayoutIndexArrowDown()
    ensures LayoutIndex("ARR_DW") == Some(121)
  {
    AbsentArrowDownFrom0();
    AbsentArrowDownFrom45();
    AbsentArrowDownFrom90();
    FirstPosition("ARR_DW", 121);
  }

  lemma AbsentArrowDownFrom0()
    ensures forall j :: 0 <= j < 45 ==> KeyboardLayout[j] != "ARR_DW"
  {
  }

  lemma AbsentArrowDownFrom45()
    ensures forall j :: 45 <= j < 90 ==> KeyboardLayout[j] != "ARR_DW"
  {
  }

  lemma AbsentArrowDownFrom90()
    ensures forall j :: 90 <= j < 121 ==> KeyboardLayout[j] != "ARR_DW"
  {
  }

  lemma LayoutIndexArrowRight()
    ensures LayoutIndex("ARR_R") == Some(122)
  {
    AbsentArrowRightFrom0();
    AbsentArrowRightFrom45();
    AbsentArrowRightFrom90();
    FirstPosition("ARR_R", 122);
  }

  lemma AbsentArrowRightFrom0()
    ensures forall j :: 0 <= j < 45 ==> KeyboardLayout[j] != "ARR_R"
  {
  }

  lemma AbsentArrowRightFrom45()
    ensures forall j :: 45 <= j < 90 ==> KeyboardLayout[j] != "ARR_R"
  {
  }

  lemma AbsentArrowRightFrom90()
    ensures forall j :: 90 <= j < 122 ==> KeyboardLayout[j] != "ARR_R"
  {
  }

  /** The empty name stands at 1, 2 and 119; `.index` picks 1. */
  lemma LayoutSampleEmptyName()
    ensures KeyboardLayout[2] == "" && KeyboardLayout[119] == ""
    ensures LayoutIndex("") == Some(1)
  {
    FirstPosition("", 1);
  }

  lemma FirstPosition(name: string, k: nat)
    requires k < |KeyboardLayout| && KeyboardLayout[k] == name
    requires forall j :: 0 <= j < k ==> KeyboardLayout[j] != name
    ensures LayoutIndex(name) == Some(k)
  {
  }

  /** Model identification never leaves the id at 0 (the "not identified"
      value), and it maps exactly the known triples to their models. */
  lemma IdentifyThreeModels(b5: int, b6: int, b7: int)
    ensures IdentifyKeyboard(ThreeModels, b5, b6, b7) != 0
    ensures IdentifyKeyboard(ThreeModels, b5, b6, b7) == 754 <==> (b5, b6, b7) == (11, 4, 5)
    ensures IdentifyKeyboard(ThreeModels, b5, b6, b7) == 75 <==> (b5, b6, b7) == (11, 1, 1)
    ensures IdentifyKeyboard(ThreeModels, b5, b6, b7) == 750 <==> (b5, b6, b7) == (11, 4, 3)
    ensures IdentifyKeyboard(ThreeModels, b5, b6, b7) == 1 <==>
              (b5, b6, b7) !in {(11, 4, 5), (11, 1, 1), (11, 4, 3)}
  {
  }

  lemma IdentifyG75Only(b5: int, b6: int, b7: int)
    ensures IdentifyKeyboard(G75Only, b5, b6, b7) == 754 <==> (b5, b6, b7) == (11, 4, 5)
    ensures IdentifyKeyboard(G75Only, b5, b6, b7) == 1 <==> (b5, b6, b7) != (11, 4, 5)
  {
  }
}
