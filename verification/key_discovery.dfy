/** debuggers/keyfinder.py and debuggers/esc.py: two discovery tools that
    store the raw travel of every key, with no deadzone, and report a key
    when it jumps from near rest to a clear press, at most once per half
    second. The current time is a parameter. */
module KeyDiscovery {
  import opened Decode

  /** A key counts as at rest below this raw travel... */
  const RestBelow: int := 5
  /** ...and as pressed above this one. */
  const PressAbove: int := 10
  /** Seconds a key must wait before it is reported again. */
  const Debounce: real := 0.5

  /** The detection test for one key: rest before, pressed now, and not
      reported within the last half second. */
  predicate Fires(previous: int, raw: int, last: map<int, real>, k: int, now: real) {
    previous < RestBelow && raw > PressAbove && (k !in last || now - last[k] > Debounce)
  }

  /** Key `k` is among the first `n` keys of slice `s`, is stored, and fires. */
  predicate FiredIn(h: seq<int>, last: map<int, real>, buf: seq<Byte>, s: Slice, n: nat, now: real, k: int)
    requires n <= s.length
  {
    s.base <= k < s.base + n && k < |h| && Fires(h[k], RawAt(buf, s, k), last, k, now)
  }

  /** The height list after the first `n` keys of slice `s`: the raw bytes. */
  function Store(h: seq<int>, buf: seq<Byte>, s: Slice, n: nat): (r: seq<int>)
    requires n <= s.length
    ensures |r| == |h|
    ensures forall k :: 0 <= k < |h| ==>
              r[k] == if s.base <= k < s.base + n then RawAt(buf, s, k) else h[k]
  {
    if n == 0 then h
    else
      var k := s.base + n - 1;
      var prev := Store(h, buf, s, n - 1);
      if k < |h| then prev[k := RawAt(buf, s, k)] else prev
  }

  /** The last-detection times after the first `n` keys: `now` for every key
      that fired, the old time for every other key. */
  function Stamps(h: seq<int>, last: map<int, real>, buf: seq<Byte>, s: Slice, n: nat, now: real): (r: map<int, real>)
    requires n <= s.length
    ensures forall k :: k in r <==> k in last || FiredIn(h, last, buf, s, n, now, k)
    ensures forall k :: k in r ==> r[k] == if FiredIn(h, last, buf, s, n, now, k) then now else last[k]
  {
    if n == 0 then last
    else
      var k := s.base + n - 1;
      var prev := Stamps(h, last, buf, s, n - 1, now);
      if k < |h| && Fires(h[k], RawAt(buf, s, k), last, k, now) then prev[k := now] else prev
  }

  /** The keys reported for the first `n` keys, in key order. */
  function Found(h: seq<int>, last: map<int, real>, buf: seq<Byte>, s: Slice, n: nat, now: real): (r: seq<int>)
    requires n <= s.length
    ensures forall k :: k in r <==> FiredIn(h, last, buf, s, n, now, k)
    ensures forall i, j :: 0 <= i < j < |r| ==> r[i] < r[j]
    ensures forall i :: 0 <= i < |r| ==> r[i] < s.base + n
  {
    if n == 0 then []
    else
      var k := s.base + n - 1;
      var prev := Found(h, last, buf, s, n - 1, now);
      if k < |h| && Fires(h[k], RawAt(buf, s, k), last, k, now) then prev + [k] else prev
  }

  /** One report at time `now`: heights, detection times and keys reported.
      Anything but a key-scan sub-report changes nothing. */
  function Discover(h: seq<int>, last: map<int, real>, buf: seq<Byte>, now: real): (seq<int>, map<int, real>, seq<int>) {
    match Classify(buf)
    case Scan(_, s) =>
      (Store(h, buf, s, s.length), Stamps(h, last, buf, s, s.length, now), Found(h, last, buf, s, s.length, now))
    case _ => (h, last, [])
  }

  /** The loop over one sub-report's keys, shared by both tools. */
  method ScanSlice(heights: array<int>, last: map<int, real>, buffer: seq<Byte>, s: Slice, now: real)
    returns (stamps: map<int, real>, found: seq<int>)
    modifies heights
    ensures heights[..] == Store(old(heights[..]), buffer, s, s.length)
    ensures stamps == Stamps(old(heights[..]), last, buffer, s, s.length, now)
    ensures found == Found(old(heights[..]), last, buffer, s, s.length, now)
  {
    ghost var h0 := heights[..];
    stamps, found := last, [];
    var i := 0;
    while i < s.length
      invariant 0 <= i <= s.length
      invariant heights[..] == Store(h0, buffer, s, i)
      invariant stamps == Stamps(h0, last, buffer, s, i, now)
      invariant found == Found(h0, last, buffer, s, i, now)
    {
      var keynum := s.base + i;
      if keynum < heights.Length {
        var rawValue := if i + 4 < |buffer| then buffer[i + 4] else 0;
        var oldValue := heights[keynum];
        heights[keynum] := rawValue;
        if oldValue < RestBelow && rawValue > PressAbove {
          if keynum !in stamps || now - stamps[keynum] > Debounce {
            found := found + [keynum];
            stamps := stamps[keynum := now];
          }
        }
      }
      i := i + 1;
    }
  }

  /** keyfinder.py's `KeyDiscovery`. */
  class KeyFinder {
    const keyHeightArray: array<int>
    var lastKeyPressed: map<int, real>

    constructor()
      ensures fresh(keyHeightArray) && keyHeightArray.Length == KeySlots
      ensures forall k :: 0 <= k < KeySlots ==> keyHeightArray[k] == 0
      ensures lastKeyPressed == map[]
    {
      keyHeightArray := new int[KeySlots](_ => 0);
      lastKeyPressed := map[];
    }

    /** `process_packet` at time `now`; `detected` are the keys it reports. */
    method ProcessPacket(buffer: seq<Byte>, now: real) returns (detected: seq<int>)
      modifies this, keyHeightArray
      ensures (keyHeightArray[..], lastKeyPressed, detected) ==
              Discover(old(keyHeightArray[..]), old(lastKeyPressed), buffer, now)
    {
      detected := [];
      if |buffer| < 5 || buffer[0] != ReportId {
        return;
      }
      var command := buffer[1];
      if command == IdentityResponse {
        return;
      }
      if command != KeyScanResponse {
        return;
      }
      match SliceOf(buffer[4]) {
        case None =>
          return;
        case Some(s) =>
          lastKeyPressed, detected := ScanSlice(keyHeightArray, lastKeyPressed, buffer, s, now);
      }
    }
  }

  /** esc.py's report filter: more than four bytes, id 0x04, command 0xb7. */
  predicate EscAccepts(data: seq<Byte>) {
    |data| > 4 && data[0] == ReportId && data[1] == KeyScanResponse
  }

  /** esc.py decodes exactly the reports keyfinder.py decodes. */
  lemma EscFilterMatchesClassify(data: seq<Byte>)
    ensures EscAccepts(data) && data[4] in {0, 1, 2} <==> Classify(data).Scan?
  {
  }

  /** The body of esc.py's read loop, with its local `key_heights` and
      `last_pressed` as fields. */
  class EscSession {
    const keyHeights: array<int>
    var lastPressed: map<int, real>

    constructor()
      ensures fresh(keyHeights) && keyHeights.Length == KeySlots
      ensures forall k :: 0 <= k < KeySlots ==> keyHeights[k] == 0
      ensures lastPressed == map[]
    {
      keyHeights := new int[KeySlots](_ => 0);
      lastPressed := map[];
    }

    /** One report at time `now`: the keys reported, and whether a new key
      request is sent (after every decoded type-2 sub-report). */
    method OnReport(data: seq<Byte>, now: real) returns (detected: seq<int>, requestKeys: bool)
      modifies this, keyHeights
      ensures (keyHeights[..], lastPressed, detected) == Discover(old(keyHeights[..]), old(lastPressed), data, now)
      ensures requestKeys <==> Classify(data).Scan? && data[4] == 2
    {
      detected, requestKeys := [], false;
      if EscAccepts(data) {
        var packetType := data[4];
        match SliceOf(packetType) {
          case None =>
            return;
          case Some(s) =>
            lastPressed, detected := ScanSlice(keyHeights, lastPressed, data, s, now);
        }
        requestKeys := packetType == 2;
      }
    }
  }

  /** A decoded report stores the raw bytes of its slice and nothing else,
      and moves a detection time only for a key it reports. */
  lemma DiscoverEffect(h: seq<int>, last: map<int, real>, buf: seq<Byte>, now: real, k: int)
    ensures var (h', last', found) := Discover(h, last, buf, now);
            var p := Classify(buf);
            |h'| == |h| &&
            (0 <= k < |h| ==> h'[k] == if p.Scan? && p.slice.Covers(k) then RawAt(buf, p.slice, k) else h[k]) &&
            (k in found ==> k in last' && last'[k] == now) &&
            (k !in found ==> (k in last' <==> k in last) && (k in last ==> last'[k] == last[k]))
  {
  }

  /** Hysteresis: a key whose stored travel was 5 or more, or whose new raw
      travel is 10 or less, is not reported. */
  lemma Hysteresis(h: seq<int>, last: map<int, real>, buf: seq<Byte>, now: real, k: int)
    requires Classify(buf).Scan? && Classify(buf).slice.Covers(k) && 0 <= k < |h|
    requires h[k] >= RestBelow || RawAt(buf, Classify(buf).slice, k) <= PressAbove
    ensures k !in Discover(h, last, buf, now).2
  {
  }

  /** Debounce: a key last reported at most half a second ago is not
      reported, whatever its stored and new travel. */
  lemma DebounceBlocks(h: seq<int>, last: map<int, real>, buf: seq<Byte>, now: real, k: int)
    requires k in last && now - last[k] <= Debounce
    ensures k !in Discover(h, last, buf, now).2
    ensures var last' := Discover(h, last, buf, now).1;
            k in last' && last'[k] == last[k]
  {
  }

  /** A run of reports, report `i` arriving at `times[i]`: the final
      heights and times and, per report, the keys it reported. */
  function DiscoverAll(h: seq<int>, last: map<int, real>, bufs: seq<seq<Byte>>, times: seq<real>)
    : (seq<int>, map<int, real>, seq<seq<int>>)
    requires |bufs| == |times|
    decreases |bufs|
  {
    if bufs == [] then (h, last, [])
    else
      var (h1, last1, found) := Discover(h, last, bufs[0], times[0]);
      var (hn, lastn, rest) := DiscoverAll(h1, last1, bufs[1..], times[1..]);
      (hn, lastn, [found] + rest)
  }

  /** No report in a run arriving within half a second of a key's last
      detection reports that key, and its detection time stays put. */
  lemma {:induction false} DebounceAcrossReports(h: seq<int>, last: map<int, real>, bufs: seq<seq<Byte>>,
                                                 times: seq<real>, k: int)
    requires |bufs| == |times| && k in last
    requires forall i :: 0 <= i < |times| ==> times[i] - last[k] <= Debounce
    ensures var (_, lastn, reports) := DiscoverAll(h, last, bufs, times);
            |reports| == |bufs| && k in lastn && lastn[k] == last[k] &&
            forall i :: 0 <= i < |reports| ==> k !in reports[i]
    decreases |bufs|
  {
    if bufs != [] {
      DebounceBlocks(h, last, bufs[0], times[0], k);
      var (h1, last1, _) := Discover(h, last, bufs[0], times[0]);
      assert forall i :: 0 <= i < |times[1..]| ==> times[1..][i] - last1[k] <= Debounce by {
        forall i | 0 <= i < |times[1..]| ensures times[1..][i] - last1[k] <= Debounce {
          assert times[1..][i] == times[i + 1];
        }
      }
      DebounceAcrossReports(h1, last1, bufs[1..], times[1..], k);
    }
  }

  /** A key reported at time `t`, then released and pressed again any number
      of times by reports arriving up to `t + 0.5`, is not reported by any of
      them. */
  lemma DebounceAfterDetection(h: seq<int>, last: map<int, real>, buf: seq<Byte>, t: real,
                               bufs: seq<seq<Byte>>, times: seq<real>, k: int)
    requires k in Discover(h, last, buf, t).2
    requires |bufs| == |times| && forall i :: 0 <= i < |times| ==> times[i] <= t + Debounce
    ensures var (h1, last1, _) := Discover(h, last, buf, t);
            var reports := DiscoverAll(h1, last1, bufs, times).2;
            |reports| == |bufs| && forall i :: 0 <= i < |reports| ==> k !in reports[i]
  {
    DiscoverEffect(h, last, buf, t, k);
    var (h1, last1, _) := Discover(h, last, buf, t);
    DebounceAcrossReports(h1, last1, bufs, times, k);
  }

  /** Every slice ends by key code 125, so neither tool's "past the array"
      guard ever skips a key of their 128-slot arrays. */
  lemma GuardNeverSkips(buf: seq<Byte>, k: int)
    requires Classify(buf).Scan? && Classify(buf).slice.Covers(k)
    ensures 0 <= k <= 125 < KeySlots
  {
  }

  /** The first key of each slice reads the sub-report type byte (0, 1 or 2),
      which is below the rest threshold, so key codes 0, 59 and 118 are never
      reported. */
  lemma BaseKeyNeverReported(h: seq<int>, last: map<int, real>, buf: seq<Byte>, now: real)
    requires Classify(buf).Scan?
    ensures Classify(buf).slice.base !in Discover(h, last, buf, now).2
  {
    BaseKeyReadsTypeByte(buf);
  }
}
