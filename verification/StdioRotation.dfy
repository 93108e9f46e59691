/** Rotating a stdio file: the tail of one append-only file is cut after a newline and recorded as a
    virtual file in an extended attribute. */
module StdioRotation {
  import opened Option
  import opened StdioCodec

  type Byte = b: int | 0 <= b < 256

  const NEWLINE: Byte := 10
  const ROTATE_SIZE: int := 256000000
  const MAX_SEEK: int := 16777216

  /** The virtual file attributes, by the time stamp that completes their key. */
  type Virtuals = map<string, string>

  predicate Readable(v: Virtuals) {
    forall k :: k in v ==> FetchStartAndLen(v[k]).Some?
  }

  function RangeOf(v: Virtuals, k: string): Range
    requires Readable(v) && k in v
  {
    FetchStartAndLen(v[k]).value
  }

  predicate Covers(r: Range, p: int) { r.start <= p < r.start + r.length }

  /** The recorded ranges tile the bytes from base up to offset: nothing outside, no gap, no overlap. */
  ghost predicate Tiles(v: Virtuals, base: int, offset: int) {
    && Readable(v)
    && (forall k :: k in v ==> Within(RangeOf(v, k), base, offset))
    && (forall p :: base <= p < offset ==> Covered(v, p))
    && (forall j, k, p :: j in v && k in v && Covers(RangeOf(v, j), p) && Covers(RangeOf(v, k), p) ==> j == k)
  }

  ghost predicate Within(r: Range, base: int, offset: int) {
    base <= r.start && 0 <= r.length && r.start + r.length <= offset
  }

  ghost predicate Covered(v: Virtuals, p: int)
    requires Readable(v)
  {
    exists k :: k in v && Covers(RangeOf(v, k), p)
  }

  /** The last newline at or after lo and before i, or None. */
  function LastNewline(data: seq<Byte>, lo: nat, i: nat): (r: Option<nat>)
    requires lo <= i <= |data|
    ensures r.Some? ==> lo <= r.value < i && data[r.value] == NEWLINE
    ensures forall p :: (if r.Some? then r.value + 1 else lo) <= p < i ==> data[p] != NEWLINE
    decreases i
  {
    if i == lo then None else if data[i - 1] == NEWLINE then Some(i - 1) else LastNewline(data, lo, i - 1)
  }

  /** getCutOffset: just after the last newline of the last MAX_SEEK bytes, or 0 when there is none
      (or the file is too short to seek). */
  function CutOffset(data: seq<Byte>): int {
    if |data| < MAX_SEEK then 0
    else
      var n := LastNewline(data, |data| - MAX_SEEK, |data|);
      if n.Some? then n.value + 1 else 0
  }

  /** What getCutOffset returns, and its caller goes on with: 0 also when it cannot seek in the file or read it. */
  function CutLocation(data: seq<Byte>, readFails: bool): int {
    if readFails then 0 else CutOffset(data)
  }

  /** updateFile: the attributes after cutting the active file. */
  function Cut(v: Virtuals, offset: int, cut: int, stamp: string): Virtuals {
    v[stamp := EncodeRange(Range(offset, cut - offset))]
  }

  /** A cut lies beyond the current offset and just after the last newline, since a file is only
      rotated when it has outgrown the search window. */
  lemma CutIsGood(data: seq<Byte>, offset: int)
    requires |data| - offset >= ROTATE_SIZE && CutOffset(data) != 0
    ensures GoodCut(data, offset, CutOffset(data))
  {
  }

  /** The cut lies beyond the offset, just after the last newline of the file. */
  ghost predicate GoodCut(data: seq<Byte>, offset: int, cut: int) {
    && offset < cut && 0 < cut <= |data|
    && data[cut - 1] == NEWLINE && forall p :: cut <= p < |data| ==> data[p] != NEWLINE
  }

  /** How the two attribute writes of updateFile go; if the second fails, the first is undone, or not. That the
      first fails also stands for a rotation given up before, because offset or size could not be read. */
  datatype Writes = Both | FirstFails | SecondFails(undone: bool)

  function RecordedAfter(v: Virtuals, offset: int, cut: int, stamp: string, w: Writes): Virtuals {
    match w
    case Both => Cut(v, offset, cut, stamp)
    case FirstFails => v
    case SecondFails(undone) => if undone then v - {stamp} else Cut(v, offset, cut, stamp)
  }

  function OffsetAfter(offset: int, cut: int, w: Writes): int { if w.Both? then cut else offset }

  /** The time stamp is that of a range with bytes. */
  predicate Overwrites(v: Virtuals, stamp: string) {
    stamp in v && FetchStartAndLen(v[stamp]).Some? && FetchStartAndLen(v[stamp]).value.length != 0
  }

  /** The search found a newline (or nothing was rotated before), the writes left no range beyond the
      offset, and no range with bytes was overwritten. */
  predicate KeepsTiling(v: Virtuals, offset: int, cut: int, stamp: string, w: Writes) {
    match w
    case Both => (cut != 0 || offset == 0) && !Overwrites(v, stamp)
    case FirstFails => true
    case SecondFails(undone) => (undone || (cut == 0 && offset == 0)) && !Overwrites(v, stamp)
  }

  /** A rotation keeps the tiling exactly under that condition. */
  lemma RotationTiles(v: Virtuals, base: nat, offset: nat, cut: int, stamp: string, w: Writes)
    requires Tiles(v, base, offset) && base <= offset <= MAX_INT64 && (cut == 0 || offset < cut <= MAX_INT64)
    ensures Tiles(RecordedAfter(v, offset, cut, stamp, w), base, OffsetAfter(offset, cut, w)) <==>
            KeepsTiling(v, offset, cut, stamp, w)
  {
    if w == SecondFails(true) {
      UndoneTiles(v, base, offset, stamp);
    } else if w == SecondFails(false) {
      HalfWritten(v, base, offset, cut, stamp);
    } else if w.Both? {
      if KeepsTiling(v, offset, cut, stamp, w) {
        GoodRotation(v, base, offset, cut, stamp);
      } else {
        BadRotation(v, base, offset, cut, stamp);
      }
    }
  }

  lemma CutRanges(v: Virtuals, offset: nat, cut: int, stamp: string)
    requires Readable(v) && offset <= MAX_INT64 && 0 <= cut <= MAX_INT64
    ensures Readable(Cut(v, offset, cut, stamp))
    ensures RangeOf(Cut(v, offset, cut, stamp), stamp) == Range(offset, cut - offset)
    ensures forall k :: k in v && k != stamp ==> RangeOf(Cut(v, offset, cut, stamp), k) == RangeOf(v, k)
  {
    FetchEncoded(Range(offset, cut - offset));
  }

  lemma GoodRotation(v: Virtuals, base: nat, offset: nat, cut: int, stamp: string)
    requires Tiles(v, base, offset) && base <= offset <= MAX_INT64 && (cut == 0 || offset < cut <= MAX_INT64)
    requires (cut != 0 || offset == 0) && !Overwrites(v, stamp)
    ensures Tiles(Cut(v, offset, cut, stamp), base, cut)
  {
    var v' := Cut(v, offset, cut, stamp);
    CutRanges(v, offset, cut, stamp);
    forall p | base <= p < cut ensures Covered(v', p) {
      if p < offset {
        assert Covered(v, p);
        var k :| k in v && Covers(RangeOf(v, k), p);
        assert Covers(RangeOf(v', k), p);
      } else {
        assert Covers(RangeOf(v', stamp), p);
      }
    }
    forall j, k, p | j in v' && k in v' && Covers(RangeOf(v', j), p) && Covers(RangeOf(v', k), p) ensures j == k {
      assert j != stamp ==> Within(RangeOf(v, j), base, offset);
      assert k != stamp ==> Within(RangeOf(v, k), base, offset);
    }
  }

  /** Without a newline the new range runs backwards; an overwritten range is recorded nowhere any more. */
  lemma BadRotation(v: Virtuals, base: nat, offset: nat, cut: int, stamp: string)
    requires Tiles(v, base, offset) && base <= offset <= MAX_INT64 && (cut == 0 || offset < cut <= MAX_INT64)
    requires (cut == 0 && offset > 0) || Overwrites(v, stamp)
    ensures !Tiles(Cut(v, offset, cut, stamp), base, cut)
  {
    var v' := Cut(v, offset, cut, stamp);
    CutRanges(v, offset, cut, stamp);
    if cut == 0 && offset > 0 {
      assert !Within(RangeOf(v', stamp), base, cut);
    } else {
      var p := RangeOf(v, stamp).start;
      assert Within(RangeOf(v, stamp), base, offset) && Covers(RangeOf(v, stamp), p);
      assert !Covered(v', p);
    }
  }

  /** A range beyond the offset stays behind when the offset was not moved and the range not removed. */
  lemma HalfWritten(v: Virtuals, base: nat, offset: nat, cut: int, stamp: string)
    requires Tiles(v, base, offset) && base <= offset <= MAX_INT64 && (cut == 0 || offset < cut <= MAX_INT64)
    ensures Tiles(Cut(v, offset, cut, stamp), base, offset) <==> cut == 0 && offset == 0 && !Overwrites(v, stamp)
  {
    if cut == 0 && offset == 0 {
      if Overwrites(v, stamp) { BadRotation(v, base, offset, cut, stamp); } else { GoodRotation(v, base, offset, cut, stamp); }
    } else {
      CutRanges(v, offset, cut, stamp);
      assert !Within(RangeOf(Cut(v, offset, cut, stamp), stamp), base, offset);
    }
  }

  // ---- Removing a range ----

  lemma UndoneTiles(v: Virtuals, base: nat, offset: nat, stamp: string)
    requires Tiles(v, base, offset)
    ensures Tiles(v - {stamp}, base, offset) <==> !Overwrites(v, stamp)
  {
    if stamp in v {
      RemovalTiles(v, base, offset, stamp);
    } else {
      assert v - {stamp} == v;
    }
  }

  /** Removing a range keeps the tiling from the same base on exactly if the range is empty. */
  lemma RemovalTiles(v: Virtuals, base: nat, offset: nat, key: string)
    requires Tiles(v, base, offset) && key in v
    ensures Tiles(v - {key}, base, offset) <==> RangeOf(v, key).length == 0
  {
    var r, v' := RangeOf(v, key), v - {key};
    assert Within(r, base, offset);
    if r.length == 0 {
      forall p | base <= p < offset ensures Covered(v', p) { StillCovered(v, key, p); }
    } else {
      assert Covers(r, r.start);
      assert !Covered(v', r.start);
    }
  }

  /** Every other recorded range starts after this one's end. */
  ghost predicate First(v: Virtuals, key: string)
    requires Readable(v) && key in v
  {
    forall k :: k in v && k != key ==> RangeOf(v, key).start + RangeOf(v, key).length <= RangeOf(v, k).start
  }

  /** Removing a range with bytes moves the base up past it exactly if it was the first one. */
  lemma ReclaimTiles(v: Virtuals, base: nat, offset: nat, key: string)
    requires Tiles(v, base, offset) && key in v && RangeOf(v, key).length > 0
    ensures Tiles(v - {key}, base + RangeOf(v, key).length, offset) <==> First(v, key)
  {
    var r, v' := RangeOf(v, key), v - {key};
    var base' := base + r.length;
    assert Within(r, base, offset);
    assert Covered(v, base);
    var k :| k in v && Covers(RangeOf(v, k), base);
    assert Within(RangeOf(v, k), base, offset);
    if First(v, key) {
      assert k == key;
      forall p | base' <= p < offset ensures Covered(v', p) { StillCovered(v, key, p); }
    } else if Tiles(v', base', offset) {
      assert k != key ==> Within(RangeOf(v', k), base', offset);
      forall j | j in v && j != key ensures r.start + r.length <= RangeOf(v, j).start {
        assert Within(RangeOf(v', j), base', offset);
      }
    }
  }

  lemma StillCovered(v: Virtuals, key: string, p: int)
    requires Readable(v) && key in v && Covered(v, p) && !Covers(RangeOf(v, key), p)
    ensures Covered(v - {key}, p)
  {
    var k :| k in v && Covers(RangeOf(v, k), p);
    assert k in v - {key} && Covers(RangeOf(v - {key}, k), p);
  }
}
