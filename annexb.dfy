/** Cutting an encoder's output packet, in the byte-stream format of Annex B
    of ITU-T H.264, into raw NAL units, and the 90 kHz RTP timestamp that
    goes with them. */
module AnnexB {
  import opened Rtp

  type int64 = x: int | -0x8000_0000_0000_0000 <= x < 0x8000_0000_0000_0000

  /** The encoder's "no presentation time" sentinel, the least int64. */
  const NoPts: int64 := -0x8000_0000_0000_0000

  /** RTP clock ticks per frame: 90000 Hz over a fixed 30 frames per second. */
  const TicksPerFrame: nat := 90000 / 30

  /** The scan for the next start code runs while `i < size - margin`.  The
      encoder is written with margin 3; 2 is the margin at which the scan
      still sees a 3-byte start code ending on the last byte. */
  const AsWrittenMargin: nat := 3
  const CorrectedMargin: nat := 2

  /** `00 00 01` at position i. */
  predicate StartCode3At(data: seq<byte>, i: nat)
  {
    i + 3 <= |data| && data[i] == 0 && data[i + 1] == 0 && data[i + 2] == 1
  }

  /** `00 00 00 01` at position i. */
  predicate StartCode4At(data: seq<byte>, i: nat)
  {
    i + 4 <= |data| && data[i] == 0 && data[i + 1] == 0 && data[i + 2] == 0 && data[i + 3] == 1
  }

  /** Length of the start code at `pos`: the 4-byte form is preferred, and
      0 means there is none. */
  function PrefixLength(data: seq<byte>, pos: nat): (r: nat)
    ensures r == 0 <==> !StartCode3At(data, pos) && !StartCode4At(data, pos)
    ensures r == 4 <==> StartCode4At(data, pos)
    ensures r == 3 ==> StartCode3At(data, pos)
    ensures r == 0 || (r >= 3 && StartCode3At(data, pos + r - 3))
  {
    if StartCode4At(data, pos) then 4
    else if StartCode3At(data, pos) then 3
    else 0
  }

  /** The scan from `from` on, while `i < |data| - margin`, meets no
      `00 00 01`. */
  predicate ScanClear(data: seq<byte>, from: nat, margin: nat)
  {
    forall j :: from <= j && j + margin < |data| ==> !StartCode3At(data, j)
  }

  /** Where the unit starting at `from` ends: at the first `00 00 01` the
      scan meets while `i < |data| - margin`, one byte earlier when a zero
      precedes it (a 4-byte code), or at the end of the buffer when the
      scanned range holds none. */
  function UnitEnd(data: seq<byte>, from: nat, margin: nat): (r: nat)
    requires CorrectedMargin <= margin && from <= |data|
    ensures r <= |data|
    ensures from <= r || (r + 1 == from && data[r] == 0)
    ensures r < |data| ==> StartCode3At(data, r) || (data[r] == 0 && StartCode3At(data, r + 1))
    ensures r == |data| ==> ScanClear(data, from, margin)
    decreases |data| - from
  {
    if from + margin >= |data| then |data|
    else if StartCode3At(data, from) then (if from > 0 && data[from - 1] == 0 then from - 1 else from)
    else UnitEnd(data, from + 1, margin)
  }

  /** One emitted unit: the slice `data[start..end]`. */
  datatype Span = Span(start: nat, end: nat)

  /** The units found from `curPos` on.  A start code must sit at the
      current position or splitting stops; the unit runs from just after it
      to UnitEnd; empty units are skipped; splitting resumes at the unit's
      end.  Every unit lies after `curPos`, is non-empty and inside the
      buffer. */
  function Spans(data: seq<byte>, curPos: nat, margin: nat): (r: seq<Span>)
    requires CorrectedMargin <= margin && curPos <= |data|
    ensures forall k :: 0 <= k < |r| ==> curPos < r[k].start < r[k].end <= |data|
    decreases |data| - curPos
  {
    if curPos == |data| then []
    else
      var p := PrefixLength(data, curPos);
      if p == 0 then []
      else
        var nalStart := curPos + p;
        var next := UnitEnd(data, nalStart, margin);
        (if next > nalStart then [Span(nalStart, next)] else []) + Spans(data, next, margin)
  }

  predicate SpansWithin(data: seq<byte>, spans: seq<Span>)
  {
    forall k :: 0 <= k < |spans| ==> spans[k].start <= spans[k].end <= |data|
  }

  function Slices(data: seq<byte>, spans: seq<Span>): seq<seq<byte>>
    requires SpansWithin(data, spans)
  {
    seq(|spans|, k requires 0 <= k < |spans| => data[spans[k].start .. spans[k].end])
  }

  /** The NAL units found from `curPos` on. */
  function UnitsFrom(data: seq<byte>, curPos: nat, margin: nat): seq<seq<byte>>
    requires CorrectedMargin <= margin && curPos <= |data|
  {
    Slices(data, Spans(data, curPos, margin))
  }

  /** The NAL units of one packet, scanning with the given margin. */
  function Units(data: seq<byte>, margin: nat): seq<seq<byte>>
    requires CorrectedMargin <= margin
  {
    UnitsFrom(data, 0, margin)
  }

  /** The 90 kHz timestamp of a packet: 0 without a presentation time,
      otherwise the frame count times 3000 reduced to 32 bits. */
  function RtpTimestamp(pts: int64): (ts: uint32)
    ensures pts == NoPts ==> ts == 0
    ensures pts != NoPts ==> (ts - pts * TicksPerFrame) % 0x1_0000_0000 == 0
  {
    if pts == NoPts then 0 else (pts * TicksPerFrame) % 0x1_0000_0000
  }

  /** Consecutive frames are 3000 ticks apart on the 32-bit RTP clock. */
  lemma TimestampStep(pts: int64)
    requires pts != NoPts && pts + 1 < 0x8000_0000_0000_0000
    ensures RtpTimestamp(pts + 1) == (RtpTimestamp(pts) + TicksPerFrame) % 0x1_0000_0000
  {
    var m := 0x1_0000_0000;
    var a := pts * TicksPerFrame;
    assert (pts + 1) * TicksPerFrame == a + TicksPerFrame;
    DivModUnique(a, m, a / m, a % m);
    var q := (a % m + TicksPerFrame) / m;
    DivModUnique(a + TicksPerFrame, m, a / m + q, (a % m + TicksPerFrame) % m);
  }

  /** Splits one encoder output packet as the encoder does, returning its
      units in order and the timestamp every one of them is delivered with. */
  method SplitNalUnits(data: seq<byte>, pts: int64) returns (units: seq<seq<byte>>, timestamp: uint32)
    ensures units == Units(data, AsWrittenMargin)
    ensures timestamp == RtpTimestamp(pts)
  {
    units := [];
    timestamp := 0;
    if pts != NoPts {
      timestamp := (pts * TicksPerFrame) % 0x1_0000_0000;
    }
    var size := |data|;
    var curPos := 0;
    while curPos < size
      invariant 0 <= curPos <= size
      invariant units + UnitsFrom(data, curPos, AsWrittenMargin) == Units(data, AsWrittenMargin)
      decreases size - curPos
    {
      var stop, found, next := NextUnit(data, curPos);
      if stop {
        break;
      }
      ghost var rest := UnitsFrom(data, next, AsWrittenMargin);
      assert units + (found + rest) == (units + found) + rest;
      units := units + found;
      curPos := next;
    }
    assert units == Units(data, AsWrittenMargin);
  }

  /** One pass of the splitter's outer loop: stop when no start code is at
      `curPos`; otherwise the unit after it (none when empty) and where the
      scan resumes. */
  method NextUnit(data: seq<byte>, curPos: nat) returns (stop: bool, found: seq<seq<byte>>, next: nat)
    requires curPos < |data|
    ensures stop <==> PrefixLength(data, curPos) == 0
    ensures stop ==> UnitsFrom(data, curPos, AsWrittenMargin) == []
    ensures !stop ==> curPos < next <= |data| && |found| <= 1
    ensures !stop ==> UnitsFrom(data, curPos, AsWrittenMargin) == found + UnitsFrom(data, next, AsWrittenMargin)
  {
    found := [];
    next := curPos;
    var nalStart := FindNalStart(data, curPos);
    if nalStart == -1 {
      return true, found, next;
    }
    stop := false;
    next := FindUnitEnd(data, nalStart);
    var nalSize := next - nalStart;
    UnitsStep(data, curPos, AsWrittenMargin, nalStart, next);
    if nalSize > 0 {
      found := [data[nalStart .. nalStart + nalSize]];
    }
  }

  /** The start-code test at the current position: where the unit begins,
      or -1 when no start code is there. */
  method FindNalStart(data: seq<byte>, curPos: nat) returns (nalStart: int)
    ensures nalStart == (if PrefixLength(data, curPos) == 0 then -1 else curPos + PrefixLength(data, curPos))
  {
    var size := |data|;
    nalStart := -1;
    if curPos + 4 <= size && data[curPos] == 0 && data[curPos + 1] == 0 && data[curPos + 2] == 0 && data[curPos + 3] == 1 {
      nalStart := curPos + 4;
    } else if curPos + 3 <= size && data[curPos] == 0 && data[curPos + 1] == 0 && data[curPos + 2] == 1 {
      nalStart := curPos + 3;
    }
  }

  /** One pass of the splitter's outer loop: a non-empty unit is emitted
      and splitting resumes at its end. */
  lemma UnitsStep(data: seq<byte>, curPos: nat, margin: nat, nalStart: nat, next: nat)
    requires CorrectedMargin <= margin && curPos < |data| && PrefixLength(data, curPos) != 0
    requires nalStart == curPos + PrefixLength(data, curPos)
    requires next == UnitEnd(data, nalStart, margin)
    ensures nalStart <= next <= |data|
    ensures UnitsFrom(data, curPos, margin)
         == (if next > nalStart then [data[nalStart .. next]] else []) + UnitsFrom(data, next, margin)
  {
    var found := if next > nalStart then [Span(nalStart, next)] else [];
    SpansUnfold(data, curPos, margin, found);
    SlicesAppend(data, found, Spans(data, next, margin));
    assert Slices(data, found) == (if next > nalStart then [data[nalStart .. next]] else []);
  }

  /** Spans from a start code: the unit after it, when non-empty, then the
      spans from where that unit ends. */
  lemma SpansUnfold(data: seq<byte>, curPos: nat, margin: nat, found: seq<Span>)
    requires CorrectedMargin <= margin && curPos < |data| && PrefixLength(data, curPos) != 0
    requires var nalStart := curPos + PrefixLength(data, curPos);
      found == if UnitEnd(data, nalStart, margin) > nalStart then [Span(nalStart, UnitEnd(data, nalStart, margin))] else []
    ensures Spans(data, curPos, margin)
         == found + Spans(data, UnitEnd(data, curPos + PrefixLength(data, curPos), margin), margin)
  {
  }

  lemma SlicesAppend(data: seq<byte>, a: seq<Span>, b: seq<Span>)
    requires SpansWithin(data, a) && SpansWithin(data, b)
    ensures SpansWithin(data, a + b)
    ensures Slices(data, a + b) == Slices(data, a) + Slices(data, b)
  {
    assert forall k :: 0 <= k < |a + b| ==> (a + b)[k] == if k < |a| then a[k] else b[k - |a|];
    var l := Slices(data, a + b);
    var r := Slices(data, a) + Slices(data, b);
    assert |l| == |r|;
    forall k | 0 <= k < |l|
      ensures l[k] == r[k]
    {
      if k < |a| {
        assert r[k] == Slices(data, a)[k];
      } else {
        assert r[k] == Slices(data, b)[k - |a|];
      }
    }
  }

  /** The inner scan of the splitter: from `nalStart`, the first `00 00 01`
      while `i < size - 3`, stepping back over a preceding zero. */
  method FindUnitEnd(data: seq<byte>, nalStart: nat) returns (nextNalStart: nat)
    requires nalStart <= |data|
    ensures nextNalStart == UnitEnd(data, nalStart, AsWrittenMargin)
  {
    var size := |data|;
    nextNalStart := size;
    var i := nalStart;
    while i < size - 3
      invariant nalStart <= i <= |data|
      invariant UnitEnd(data, nalStart, AsWrittenMargin) == UnitEnd(data, i, AsWrittenMargin)
      decreases size - i
    {
      if data[i] == 0 && data[i + 1] == 0 && data[i + 2] == 1 {
        nextNalStart := i;
        if i > 0 && data[i - 1] == 0 {
          nextNalStart := i - 1;
        }
        return;
      }
      i := i + 1;
    }
  }

  // ----- Properties of the split -----

  /** Units come in buffer order and never overlap. */
  lemma {:induction false} SpansOrdered(data: seq<byte>, curPos: nat, margin: nat)
    requires CorrectedMargin <= margin && curPos <= |data|
    ensures forall k, l :: 0 <= k < l < |Spans(data, curPos, margin)| ==>
      Spans(data, curPos, margin)[k].end <= Spans(data, curPos, margin)[l].start
    decreases |data| - curPos
  {
    if curPos < |data| && PrefixLength(data, curPos) != 0 {
      var nalStart := curPos + PrefixLength(data, curPos);
      var next := UnitEnd(data, nalStart, margin);
      var found := if next > nalStart then [Span(nalStart, next)] else [];
      var rest := Spans(data, next, margin);
      SpansOrdered(data, next, margin);
      var r := Spans(data, curPos, margin);
      assert r == found + rest;
      forall k, l | 0 <= k < l < |r|
        ensures r[k].end <= r[l].start
      {
        if k < |found| {
          assert r[k].end == next && r[l] == rest[l - |found|];
          assert next < rest[l - |found|].start;
        } else {
          assert r[k] == rest[k - |found|] && r[l] == rest[l - |found|];
          assert rest[k - |found|].end <= rest[l - |found|].start;
        }
      }
    }
  }

  /** Every unit starts right after a start code. */
  lemma {:induction false} SpansAfterStartCode(data: seq<byte>, curPos: nat, margin: nat)
    requires CorrectedMargin <= margin && curPos <= |data|
    ensures forall k :: 0 <= k < |Spans(data, curPos, margin)| ==>
      Spans(data, curPos, margin)[k].start >= 3 && StartCode3At(data, Spans(data, curPos, margin)[k].start - 3)
    decreases |data| - curPos
  {
    if curPos < |data| && PrefixLength(data, curPos) != 0 {
      var nalStart := curPos + PrefixLength(data, curPos);
      var next := UnitEnd(data, nalStart, margin);
      var found := if next > nalStart then [Span(nalStart, next)] else [];
      var rest := Spans(data, next, margin);
      SpansAfterStartCode(data, next, margin);
      var r := Spans(data, curPos, margin);
      assert r == found + rest;
      forall k | 0 <= k < |r|
        ensures r[k].start >= 3 && StartCode3At(data, r[k].start - 3)
      {
        if k < |found| {
          assert r[k].start == nalStart;
        } else {
          assert r[k] == rest[k - |found|];
        }
      }
    }
  }

  /** The scan skips no start code it can see: none begins between `from`
      and the end it returns, within the scanned range. */
  lemma {:induction false} UnitEndFirst(data: seq<byte>, from: nat, margin: nat)
    requires CorrectedMargin <= margin && from <= |data|
    ensures forall j :: from <= j < UnitEnd(data, from, margin) && j + margin < |data| ==> !StartCode3At(data, j)
    decreases |data| - from
  {
    if from + margin < |data| && !StartCode3At(data, from) {
      UnitEndFirst(data, from + 1, margin);
    }
  }

  /** No `00 00 01` lies wholly inside the span. */
  predicate Clean(data: seq<byte>, sp: Span)
  {
    forall j :: sp.start <= j && j + 3 <= sp.end ==> !StartCode3At(data, j)
  }

  /** With the corrected margin no unit holds a `00 00 01` sequence. */
  lemma {:induction false} CorrectedSpansClean(data: seq<byte>, curPos: nat)
    requires curPos <= |data|
    ensures forall k :: 0 <= k < |Spans(data, curPos, CorrectedMargin)| ==>
      Clean(data, Spans(data, curPos, CorrectedMargin)[k])
    decreases |data| - curPos
  {
    if curPos < |data| && PrefixLength(data, curPos) != 0 {
      var nalStart := curPos + PrefixLength(data, curPos);
      var next := UnitEnd(data, nalStart, CorrectedMargin);
      var found := if next > nalStart then [Span(nalStart, next)] else [];
      var rest := Spans(data, next, CorrectedMargin);
      CorrectedSpansClean(data, next);
      SpansUnfold(data, curPos, CorrectedMargin, found);
      if next > nalStart {
        UnitEndFirst(data, nalStart, CorrectedMargin);
        assert Clean(data, Span(nalStart, next));
      }
      var r := Spans(data, curPos, CorrectedMargin);
      forall k | 0 <= k < |r|
        ensures Clean(data, r[k])
      {
        if k >= |found| {
          assert r[k] == rest[k - |found|];
        }
      }
    }
  }

  /** `s` is nothing but start codes, 3- or 4-byte, one after another. */
  predicate StartCodes(s: seq<byte>)
    decreases |s|
  {
    || s == []
    || (|s| >= 3 && s[..3] == [0, 0, 1] && StartCodes(s[3..]))
    || (|s| >= 4 && s[..4] == [0, 0, 0, 1] && StartCodes(s[4..]))
  }

  /** `data[from..]` is start codes, the first span, start codes, the next
      span, and so on, ending in start codes: the spans and the start codes
      between them account for every byte. */
  predicate Tiles(data: seq<byte>, from: nat, spans: seq<Span>)
    decreases |spans|
  {
    if spans == [] then from <= |data| && StartCodes(data[from..])
    else
      && from <= spans[0].start <= spans[0].end <= |data|
      && StartCodes(data[from .. spans[0].start])
      && Tiles(data, spans[0].end, spans[1..])
  }

  /** A start code in front of start codes is still start codes. */
  lemma StartCodeThen(data: seq<byte>, i: nat, j: nat)
    requires i < |data| && PrefixLength(data, i) != 0 && i + PrefixLength(data, i) <= j <= |data|
    requires StartCodes(data[i + PrefixLength(data, i) .. j])
    ensures StartCodes(data[i .. j])
  {
    var p := PrefixLength(data, i);
    var s := data[i .. j];
    assert s[p..] == data[i + p .. j];
    if p == 4 {
      assert s[0] == 0 && s[1] == 0 && s[2] == 0 && s[3] == 1;
      assert s[..4] == [0, 0, 0, 1];
    } else {
      assert s[0] == 0 && s[1] == 0 && s[2] == 1;
      assert s[..3] == [0, 0, 1];
    }
  }

  /** A start code in front of a tiling extends it to the left. */
  lemma TilesPrepend(data: seq<byte>, curPos: nat, rest: seq<Span>)
    requires curPos < |data| && PrefixLength(data, curPos) != 0
    requires Tiles(data, curPos + PrefixLength(data, curPos), rest)
    ensures Tiles(data, curPos, rest)
  {
    var nalStart := curPos + PrefixLength(data, curPos);
    if rest == [] {
      assert StartCodes(data[nalStart..]);
      assert data[nalStart..] == data[nalStart .. |data|];
      StartCodeThen(data, curPos, |data|);
      assert data[curPos..] == data[curPos .. |data|];
    } else {
      assert nalStart <= rest[0].start && StartCodes(data[nalStart .. rest[0].start]);
      StartCodeThen(data, curPos, rest[0].start);
    }
  }

  /** A start code and then a unit in front of a tiling extend it. */
  lemma TilesCons(data: seq<byte>, curPos: nat, next: nat, rest: seq<Span>)
    requires curPos < |data| && PrefixLength(data, curPos) != 0
    requires curPos + PrefixLength(data, curPos) < next
    requires Tiles(data, next, rest)
    ensures Tiles(data, curPos, [Span(curPos + PrefixLength(data, curPos), next)] + rest)
  {
    var nalStart := curPos + PrefixLength(data, curPos);
    assert data[nalStart .. nalStart] == [];
    assert StartCodes(data[nalStart .. nalStart]);
    StartCodeThen(data, curPos, nalStart);
    assert ([Span(nalStart, next)] + rest)[1..] == rest;
  }

  /** Where a unit that follows a start code ends, the next start code (or
      the end of the buffer) begins, never before the unit. */
  lemma UnitEndAtStartCode(data: seq<byte>, curPos: nat, margin: nat)
    requires CorrectedMargin <= margin && curPos < |data| && PrefixLength(data, curPos) != 0
    ensures var next := UnitEnd(data, curPos + PrefixLength(data, curPos), margin);
      && curPos + PrefixLength(data, curPos) <= next
      && (next == |data| || PrefixLength(data, next) != 0)
  {
    var nalStart := curPos + PrefixLength(data, curPos);
    var next := UnitEnd(data, nalStart, margin);
    assert data[nalStart - 1] == 1;
    if next < |data| {
      assert StartCode3At(data, next) || StartCode4At(data, next);
    }
  }

  /** The split loses nothing but start codes: from a start code (or the
      end), the units and the start codes between them tile the rest of
      the buffer, whichever margin the scan uses. */
  lemma {:induction false} SpansTile(data: seq<byte>, curPos: nat, margin: nat)
    requires CorrectedMargin <= margin && curPos <= |data|
    requires curPos == |data| || PrefixLength(data, curPos) != 0
    ensures Tiles(data, curPos, Spans(data, curPos, margin))
    decreases |data| - curPos
  {
    if curPos == |data| {
      assert Spans(data, curPos, margin) == [];
      assert data[curPos..] == [];
      assert StartCodes(data[curPos..]);
    } else {
      var next := UnitEnd(data, curPos + PrefixLength(data, curPos), margin);
      UnitEndAtStartCode(data, curPos, margin);
      SpansTile(data, next, margin);
      var nalStart := curPos + PrefixLength(data, curPos);
      var found := if next > nalStart then [Span(nalStart, next)] else [];
      SpansUnfold(data, curPos, margin, found);
      TilesStep(data, curPos, next, Spans(data, next, margin));
    }
  }

  /** One step of SpansTile: a tiling from where the first unit ends
      extends, with that unit when non-empty, to one from the start code
      before it. */
  lemma TilesStep(data: seq<byte>, curPos: nat, next: nat, rest: seq<Span>)
    requires curPos < |data| && PrefixLength(data, curPos) != 0
    requires curPos + PrefixLength(data, curPos) <= next && Tiles(data, next, rest)
    ensures var nalStart := curPos + PrefixLength(data, curPos);
      Tiles(data, curPos, (if next > nalStart then [Span(nalStart, next)] else []) + rest)
  {
    var nalStart := curPos + PrefixLength(data, curPos);
    if next > nalStart {
      TilesCons(data, curPos, next, rest);
    } else {
      TilesPrepend(data, curPos, rest);
      assert [] + rest == rest;
    }
  }

  /** Splitting a packet that begins with a start code loses nothing but
      start codes; one that does not yields no unit. */
  lemma SplitLossless(data: seq<byte>, margin: nat)
    requires CorrectedMargin <= margin
    ensures PrefixLength(data, 0) == 0 ==> Units(data, margin) == []
    ensures PrefixLength(data, 0) != 0 ==> Tiles(data, 0, Spans(data, 0, margin))
  {
    if PrefixLength(data, 0) != 0 {
      SpansTile(data, 0, margin);
    }
  }

  /** The split with the corrected margin: non-empty units in buffer order,
      each preceded by a start code and none containing one. */
  lemma CorrectedUnits(data: seq<byte>)
    ensures var spans := Spans(data, 0, CorrectedMargin);
      var units := Units(data, CorrectedMargin);
      && |units| == |spans|
      && (forall k :: 0 <= k < |units| ==> |units[k]| > 0 && units[k] == data[spans[k].start .. spans[k].end])
      && (forall k, l :: 0 <= k < l < |spans| ==> spans[k].end <= spans[l].start)
      && (forall k :: 0 <= k < |spans| ==> StartCode3At(data, spans[k].start - 3))
      && (forall k, j :: 0 <= k < |units| && 0 <= j && j + 3 <= |units[k]| ==> !StartCode3At(units[k], j))
  {
    var spans := Spans(data, 0, CorrectedMargin);
    SpansOrdered(data, 0, CorrectedMargin);
    SpansAfterStartCode(data, 0, CorrectedMargin);
    CorrectedSpansClean(data, 0);
    forall k, j | 0 <= k < |spans| && 0 <= j && j + 3 <= spans[k].end - spans[k].start
      ensures !StartCode3At(Units(data, CorrectedMargin)[k], j)
    {
      assert Clean(data, spans[k]);
      assert !StartCode3At(data, spans[k].start + j);
    }
  }

  /** The split as written also yields non-empty units in buffer order,
      each preceded by a start code. */
  lemma AsWrittenUnits(data: seq<byte>)
    ensures var spans := Spans(data, 0, AsWrittenMargin);
      var units := Units(data, AsWrittenMargin);
      && |units| == |spans|
      && (forall k :: 0 <= k < |units| ==> |units[k]| > 0 && units[k] == data[spans[k].start .. spans[k].end])
      && (forall k, l :: 0 <= k < l < |spans| ==> spans[k].end <= spans[l].start)
      && (forall k :: 0 <= k < |spans| ==> StartCode3At(data, spans[k].start - 3))
  {
    SpansOrdered(data, 0, AsWrittenMargin);
    SpansAfterStartCode(data, 0, AsWrittenMargin);
  }

  /** As written, a start code whose last byte is the buffer's last byte is
      not seen: the packet `00 00 00 01 65 00 00 01` yields the unit
      `65 00 00 01`, where the corrected scan yields `65`. */
  lemma TrailingStartCodeKept()
    ensures Units([0, 0, 0, 1, 0x65, 0, 0, 1], AsWrittenMargin) == [[0x65, 0, 0, 1]]
    ensures Units([0, 0, 0, 1, 0x65, 0, 0, 1], CorrectedMargin) == [[0x65]]
  {
    var data: seq<byte> := [0, 0, 0, 1, 0x65, 0, 0, 1];
    assert PrefixLength(data, 0) == 4;
    assert UnitEnd(data, 4, AsWrittenMargin) == 8;
    assert Spans(data, 8, AsWrittenMargin) == [];
    assert Spans(data, 0, AsWrittenMargin) == [Span(4, 8)];
    assert Units(data, AsWrittenMargin) == [data[4..8]];
    assert data[4..8] == [0x65, 0, 0, 1];
    assert StartCode3At(data, 5);
    assert UnitEnd(data, 5, CorrectedMargin) == 5;
    assert UnitEnd(data, 4, CorrectedMargin) == 5;
    assert PrefixLength(data, 5) == 3;
    assert UnitEnd(data, 8, CorrectedMargin) == 8;
    assert Spans(data, 8, CorrectedMargin) == [];
    assert Spans(data, 5, CorrectedMargin) == [];
    assert Spans(data, 0, CorrectedMargin) == [Span(4, 5)];
    assert Units(data, CorrectedMargin) == [data[4..5]];
    assert data[4..5] == [0x65];
  }
}
