/** debuggers/allkeys.py and debuggers/arrows.py: two diagnostic tools that
    keep a module-level `key_height_array` of deadzoned travel and report a
    key when it rises from rest. They differ only in which keys they watch. */
module EdgeDetect {
  import opened Decode

  /** The tools' fixed deadzone window. */
  const DebugMin: int := 2
  const DebugMax: int := 36

  /** With the window 2..36 the normalised travel stays within 0..40; it is
      0 exactly up to 2 and full from 36 on. */
  lemma DebugDeadzoneRange(v: int)
    ensures 0 <= Deadzone(v, DebugMin, DebugMax) <= MaxDepth
    ensures v <= DebugMin <==> Deadzone(v, DebugMin, DebugMax) == 0
    ensures v >= DebugMax ==> Deadzone(v, DebugMin, DebugMax) == MaxDepth
  {
  }

  /** allkeys.py reports every key, arrows.py only the four arrow codes. */
  datatype Watch = AllKeys | ArrowKeysOnly

  /** ARR_UP, ARR_L, ARR_DW and ARR_R. */
  const ArrowKeys: set<int> := {99, 120, 121, 122}

  predicate Watched(w: Watch, k: int) {
    w.AllKeys? || k in ArrowKeys
  }

  /** A key press as the tool reports it: key code and deadzoned value. */
  datatype Detection = Detection(key: int, value: int)

  /** allkeys.py tags a report "ARROW REGION" when the key is an arrow code
      or lies in 95..125; the arrow codes lie inside that range. */
  function ArrowRegion(k: int): (tagged: bool)
    ensures tagged <==> 95 <= k <= 125
  {
    k in ArrowKeys || 95 <= k <= 125
  }

  /** The deadzoned travel key `k` of slice `s` carries. */
  function Travel(buf: seq<Byte>, s: Slice, k: int): int
    requires s.Covers(k)
  {
    Deadzone(RawAt(buf, s, k), DebugMin, DebugMax)
  }

  /** `key_height_array` after the first `n` keys of slice `s`. */
  function Refresh(h: seq<int>, buf: seq<Byte>, s: Slice, n: nat): (r: seq<int>)
    requires n <= s.length
    ensures |r| == |h|
    ensures forall k :: 0 <= k < |h| ==>
              r[k] == if s.base <= k < s.base + n then Travel(buf, s, k) else h[k]
  {
    if n == 0 then h
    else
      var k := s.base + n - 1;
      var prev := Refresh(h, buf, s, n - 1);
      if k < |h| then prev[k := Travel(buf, s, k)] else prev
  }

  /** The reports for the first `n` keys of slice `s`, in key order. */
  function Edges(w: Watch, h: seq<int>, buf: seq<Byte>, s: Slice, n: nat): seq<Detection>
    requires n <= s.length
  {
    if n == 0 then []
    else
      var k := s.base + n - 1;
      var prev := Edges(w, h, buf, s, n - 1);
      if k < |h| && Watched(w, k) && Travel(buf, s, k) > 0 && h[k] == 0
      then prev + [Detection(k, Travel(buf, s, k))]
      else prev
  }

  /** A key is reported exactly when it is watched, its new travel is
      positive and its stored one is 0; reports come in key order, so no key
      is reported twice for one sub-report. */
  lemma {:induction false} EdgesExactly(w: Watch, h: seq<int>, buf: seq<Byte>, s: Slice, n: nat)
    requires n <= s.length
    ensures var r := Edges(w, h, buf, s, n);
            forall k, v :: Detection(k, v) in r <==>
              s.base <= k < s.base + n && k < |h| && Watched(w, k) &&
              v == Travel(buf, s, k) && v > 0 && h[k] == 0
    ensures var r := Edges(w, h, buf, s, n);
            forall i, j :: 0 <= i < j < |r| ==> r[i].key < r[j].key
    ensures var r := Edges(w, h, buf, s, n);
            forall i :: 0 <= i < |r| ==> r[i].key < s.base + n
  {
    if n > 0 {
      EdgesExactly(w, h, buf, s, n - 1);
    }
  }

  /** One report: the new heights and the keys reported. Anything but a
      key-scan sub-report changes nothing and reports nothing. */
  function Receive(w: Watch, h: seq<int>, buf: seq<Byte>): (seq<int>, seq<Detection>) {
    match Classify(buf)
    case Scan(_, s) => (Refresh(h, buf, s, s.length), Edges(w, h, buf, s, s.length))
    case _ => (h, [])
  }

  /** `process_packet`. */
  method ProcessPacket(w: Watch, keyHeightArray: array<int>, buffer: seq<Byte>) returns (detections: seq<Detection>)
    modifies keyHeightArray
    ensures (keyHeightArray[..], detections) == Receive(w, old(keyHeightArray[..]), buffer)
  {
    detections := [];
    var p := Classify(buffer);
    if !p.Scan? {
      return;
    }
    var s := p.slice;
    ghost var h0 := keyHeightArray[..];
    var i := 0;
    while i < s.length
      invariant 0 <= i <= s.length
      invariant keyHeightArray[..] == Refresh(h0, buffer, s, i)
      invariant detections == Edges(w, h0, buffer, s, i)
    {
      var keynum := s.base + i;
      if keynum < keyHeightArray.Length {
        var rawValue := if i + 4 < |buffer| then buffer[i + 4] else 0;
        var newValue := Deadzone(rawValue, DebugMin, DebugMax);
        assert newValue == Travel(buffer, s, keynum) && keyHeightArray[keynum] == h0[keynum];
        if Watched(w, keynum) && newValue > 0 && keyHeightArray[keynum] == 0 {
          detections := detections + [Detection(keynum, newValue)];
        }
        keyHeightArray[keynum] := newValue;
      }
      i := i + 1;
    }
  }

  /** Within the covered slice the array holds the deadzoned travel; every
      other entry is unchanged. */
  lemma ReceiveUpdatesSlice(w: Watch, h: seq<int>, buf: seq<Byte>)
    ensures var p := Classify(buf);
            var r := Receive(w, h, buf).0;
            |r| == |h| &&
            forall k :: 0 <= k < |h| ==>
              r[k] == if p.Scan? && p.slice.Covers(k) then Travel(buf, p.slice, k) else h[k]
  {
  }

  /** A run of reports: the final heights and, per report, the keys it
      reported. */
  function ReceiveAll(w: Watch, h: seq<int>, bufs: seq<seq<Byte>>): (seq<int>, seq<seq<Detection>>)
    decreases |bufs|
  {
    if bufs == [] then (h, [])
    else
      var (h1, found) := Receive(w, h, bufs[0]);
      var (hn, rest) := ReceiveAll(w, h1, bufs[1..]);
      (hn, [found] + rest)
  }

  /** Key `k` stays pressed through report `buf`: if the report covers the
      key, its deadzoned travel is still positive. */
  predicate HeldIn(buf: seq<Byte>, k: int) {
    Classify(buf).Scan? && Classify(buf).slice.Covers(k) ==> Travel(buf, Classify(buf).slice, k) > 0
  }

  /** A key whose stored height is positive and that stays pressed through a
      run of reports is reported by none of them, and its height stays
      positive. */
  lemma {:induction false} HeldKeyStaysSilent(w: Watch, h: seq<int>, bufs: seq<seq<Byte>>, k: int)
    requires 0 <= k < |h| && h[k] > 0
    requires forall i :: 0 <= i < |bufs| ==> HeldIn(bufs[i], k)
    ensures var (hn, reports) := ReceiveAll(w, h, bufs);
            |reports| == |bufs| && |hn| == |h| && hn[k] > 0 &&
            forall i, v :: 0 <= i < |reports| ==> Detection(k, v) !in reports[i]
    decreases |bufs|
  {
    if bufs != [] {
      var buf := bufs[0];
      ReceiveUpdatesSlice(w, h, buf);
      var (h1, found) := Receive(w, h, buf);
      if Classify(buf).Scan? {
        var s := Classify(buf).slice;
        EdgesExactly(w, h, buf, s, s.length);
      }
      assert h1[k] > 0 && forall v :: Detection(k, v) !in found;
      assert forall i :: 0 <= i < |bufs[1..]| ==> HeldIn(bufs[1..][i], k) by {
        forall i | 0 <= i < |bufs[1..]| ensures HeldIn(bufs[1..][i], k) {
          assert bufs[1..][i] == bufs[i + 1];
        }
      }
      HeldKeyStaysSilent(w, h1, bufs[1..], k);
    }
  }

  /** A key reported once and then held through any number of later
      reports, over as many 0/1/2 cycles as they span, is not reported again
      until its travel drops back to 0. */
  lemma HeldKeyReportedOnce(w: Watch, h: seq<int>, buf: seq<Byte>, bufs: seq<seq<Byte>>, k: int, v: int)
    requires Detection(k, v) in Receive(w, h, buf).1
    requires forall i :: 0 <= i < |bufs| ==> HeldIn(bufs[i], k)
    ensures var reports := ReceiveAll(w, Receive(w, h, buf).0, bufs).1;
            forall i, v' :: 0 <= i < |reports| ==> Detection(k, v') !in reports[i]
  {
    var s := Classify(buf).slice;
    EdgesExactly(w, h, buf, s, s.length);
    ReceiveUpdatesSlice(w, h, buf);
    HeldKeyStaysSilent(w, Receive(w, h, buf).0, bufs, k);
  }

  /** arrows.py reports only the arrow codes; a type-0 sub-report never
      yields one, ARR_UP comes from type 1 and the other three from type 2. */
  lemma ArrowSources(h: seq<int>, buf: seq<Byte>, k: int, v: int)
    requires Detection(k, v) in Receive(ArrowKeysOnly, h, buf).1
    ensures k in ArrowKeys && v > 0 && 0 <= k < |h| && h[k] == 0
    ensures |buf| >= 5 && buf[4] != 0
    ensures k == 99 ==> buf[4] == 1
    ensures k in {120, 121, 122} ==> buf[4] == 2
  {
    var s := Classify(buf).slice;
    EdgesExactly(ArrowKeysOnly, h, buf, s, s.length);
  }
}
