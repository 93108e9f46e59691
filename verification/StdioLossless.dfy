/** When the final upload of a stdio file delivers every byte. */
module StdioLossless {
  import opened Option
  import opened Text
  import opened StdioCodec
  import opened StdioRotation
  import opened StdioFile

  /** The pass delivers the original bytes of every range whose record it drops, and leaves those of the others in
      place: a range that stays recorded is uploaded again, over what was uploaded before. */
  ghost predicate Safe(blockSize: nat, data: seq<Byte>, js: seq<Job>)
    requires blockSize > 0
  {
    forall i :: 0 <= i < |js| ==> SafeAt(blockSize, data, js, i)
  }

  ghost predicate SafeAt(blockSize: nat, data: seq<Byte>, js: seq<Job>, i: nat)
    requires blockSize > 0 && i < |js|
  {
    if Gone(js[i])
    then Uploads(blockSize, data, js, false, |js|)[i] == Some(Slice(data, js[i].range))
    else Slice(DataAfter(blockSize, data, js, false, |js|), js[i].range) == Slice(data, js[i].range)
  }

  /** The pass takes the range on and drops its record. */
  predicate Gone(j: Job) { j.due && j.dropped }

  /** No range is dropped whose upload failed. */
  ghost predicate AllSucceed(js: seq<Job>) {
    forall i :: 0 <= i < |js| && Gone(js[i]) ==> js[i].uploaded
  }

  /** No hole reaches into a range that is uploaded later or stays recorded. */
  ghost predicate HolesClear(blockSize: nat, js: seq<Job>)
    requires blockSize > 0
  {
    forall i, j :: 0 <= i < |js| && 0 <= j < |js| && Threatens(js, i, j) ==>
      HoleEnd(blockSize, js[i].range) <= js[j].range.start
  }

  /** The hole of job i is punched while the bytes of job j are still needed. */
  predicate Threatens(js: seq<Job>, i: nat, j: nat)
    requires i < |js| && j < |js|
  {
    js[i].due && js[j].range.length > 0 && (i < j || !Gone(js[j]))
  }

  lemma {:induction false} UploadIs(blockSize: nat, data: seq<Byte>, js: seq<Job>, keep: bool, n: nat, i: nat)
    requires blockSize > 0 && i < n <= |js|
    ensures Uploads(blockSize, data, js, keep, n)[i] ==
            if js[i].due && js[i].uploaded then Some(Slice(DataAfter(blockSize, data, js, keep, i), js[i].range)) else None
  {
    var before := Uploads(blockSize, data, js, keep, n - 1);
    if i < n - 1 {
      assert Uploads(blockSize, data, js, keep, n)[i] == before[i];
      UploadIs(blockSize, data, js, keep, n - 1, i);
    }
  }

  /** A byte is zeroed exactly when some hole of the pass reaches past it. */
  lemma {:induction false} ByteAfter(blockSize: nat, data: seq<Byte>, js: seq<Job>, n: nat, p: nat)
    requires blockSize > 0 && n <= |js| && p < |data|
    ensures DataAfter(blockSize, data, js, false, n)[p] ==
            if exists j :: 0 <= j < n && js[j].due && p < HoleEnd(blockSize, js[j].range) then 0 else data[p]
  {
    if n > 0 {
      ByteAfter(blockSize, data, js, n - 1, p);
      assert js[n - 1].due && p < HoleEnd(blockSize, js[n - 1].range) ==>
               exists j :: 0 <= j < n && js[j].due && p < HoleEnd(blockSize, js[j].range);
    }
  }

  /** A pass is safe for every content of the file exactly when the upload of every range it drops succeeds and
      its holes, also those of ranges it could not drop, stay clear of what is uploaded later or stays. */
  lemma LosslessExact(blockSize: nat, size: nat, js: seq<Job>)
    requires blockSize > 0 && forall i :: 0 <= i < |js| ==> Within(js[i].range, 0, size)
    ensures (forall data: seq<Byte> :: |data| == size ==> Safe(blockSize, data, js)) <==>
            AllSucceed(js) && HolesClear(blockSize, js)
  {
    if !AllSucceed(js) {
      var i :| 0 <= i < |js| && Gone(js[i]) && !js[i].uploaded;
      FailedUpload(blockSize, seq(size, _ => NEWLINE), js, i);
    } else if !HolesClear(blockSize, js) {
      var i, j :| 0 <= i < |js| && 0 <= j < |js| && Threatens(js, i, j) && HoleEnd(blockSize, js[i].range) > js[j].range.start;
      assert Within(js[j].range, 0, size);
      HoleLoses(blockSize, seq(size, _ => NEWLINE), js, i, j);
    } else {
      forall data: seq<Byte> | |data| == size ensures Safe(blockSize, data, js) {
        forall i | 0 <= i < |js| ensures SafeAt(blockSize, data, js, i) { JobSafe(blockSize, data, js, i); }
      }
    }
  }

  lemma FailedUpload(blockSize: nat, data: seq<Byte>, js: seq<Job>, i: nat)
    requires blockSize > 0 && i < |js| && Gone(js[i]) && !js[i].uploaded
    ensures !Safe(blockSize, data, js)
  {
    UploadIs(blockSize, data, js, false, |js|, i);
    assert !SafeAt(blockSize, data, js, i);
  }

  /** A range whose first byte is not zero is lost to a hole that reaches past its start. */
  lemma HoleLoses(blockSize: nat, data: seq<Byte>, js: seq<Job>, i: nat, j: nat)
    requires blockSize > 0 && i < |js| && j < |js| && Threatens(js, i, j) && Within(js[j].range, 0, |data|)
    requires HoleEnd(blockSize, js[i].range) > js[j].range.start && data[js[j].range.start] != 0
    ensures !Safe(blockSize, data, js)
  {
    var p := js[j].range.start;
    UploadIs(blockSize, data, js, false, |js|, j);
    var n := if Gone(js[j]) then j else |js|;
    ByteAfter(blockSize, data, js, n, p);
    assert Slice(data, js[j].range)[0] == data[p];
    assert Slice(DataAfter(blockSize, data, js, false, n), js[j].range)[0] == 0;
    assert !SafeAt(blockSize, data, js, j);
  }

  /** A range whose record could not be removed has its own hole punched all the same, so that the next pass
      uploads zeros over what this one uploaded. */
  lemma UndroppedIsZeroed(blockSize: nat, data: seq<Byte>, js: seq<Job>, i: nat)
    requires blockSize > 0 && i < |js| && js[i].due && !js[i].dropped && js[i].range.length > 0
    requires Within(js[i].range, 0, |data|) && data[js[i].range.start] != 0
    requires HoleEnd(blockSize, js[i].range) > js[i].range.start
    ensures !Safe(blockSize, data, js)
    ensures var again := Slice(DataAfter(blockSize, data, js, false, |js|), js[i].range);
            |again| == js[i].range.length && again[0] == 0
  {
    HoleLoses(blockSize, data, js, i, i);
    ByteAfter(blockSize, data, js, |js|, js[i].range.start);
  }

  lemma JobSafe(blockSize: nat, data: seq<Byte>, js: seq<Job>, i: nat)
    requires blockSize > 0 && i < |js| && Within(js[i].range, 0, |data|) && HolesClear(blockSize, js) && AllSucceed(js)
    ensures SafeAt(blockSize, data, js, i)
  {
    UploadIs(blockSize, data, js, false, |js|, i);
    BytesKept(blockSize, data, js, i, if Gone(js[i]) then i else |js|);
  }

  lemma BytesKept(blockSize: nat, data: seq<Byte>, js: seq<Job>, i: nat, n: nat)
    requires blockSize > 0 && i < |js| && Within(js[i].range, 0, |data|) && HolesClear(blockSize, js)
    requires n <= |js| && (Gone(js[i]) ==> n <= i)
    ensures Slice(DataAfter(blockSize, data, js, false, n), js[i].range) == Slice(data, js[i].range)
  {
    var now, r := DataAfter(blockSize, data, js, false, n), js[i].range;
    forall p | r.start <= p < r.start + r.length ensures now[p] == data[p] {
      ByteAfter(blockSize, data, js, n, p);
      assert forall j :: 0 <= j < n && js[j].due ==> Threatens(js, j, i);
    }
  }

  /** A hole ends before the last byte of its range, whatever the block size. */
  lemma HoleStaysInside(blockSize: nat, r: Range)
    requires blockSize > 0
    ensures HoleEnd(blockSize, r) <= r.start + r.length - 1
  {
    var n := r.start + r.length - 1;
    assert n == blockSize * (n / blockSize) + n % blockSize;
  }

  /** It ends on a block boundary, the last one that is at or before the last byte of its range. */
  lemma HoleEndsOnBlock(blockSize: nat, r: Range)
    requires blockSize > 0
    ensures EndOfBlocks(blockSize, r.start + r.length - 1, HoleEnd(blockSize, r))
  {
    EndsOnBlock(blockSize, r.start + r.length - 1);
  }

  // ---- Key order that agrees with offset order ----

  ghost predicate OffsetOrder(rs: seq<Range>) {
    forall i, j :: 0 <= i < j < |rs| ==> rs[i].start <= rs[j].start
  }

  /** A tiling as a sequence: ranges inside the interval, every byte covered, none twice. */
  ghost predicate TilesSeq(rs: seq<Range>, base: int, offset: int) {
    && (forall i :: 0 <= i < |rs| ==> Within(rs[i], base, offset))
    && (forall p :: base <= p < offset ==> CoveredBy(rs, p))
    && (forall i, j, p :: 0 <= i < |rs| && 0 <= j < |rs| && Covers(rs[i], p) && Covers(rs[j], p) ==> i == j)
  }

  ghost predicate CoveredBy(rs: seq<Range>, p: int) {
    exists i :: 0 <= i < |rs| && Covers(rs[i], p)
  }

  /** The ranges of some jobs. */
  function Ranges(js: seq<Job>): seq<Range> {
    seq(|js|, i requires 0 <= i < |js| => js[i].range)
  }

  /** The ranges recorded under the keys. */
  function RangesOf(v: Virtuals, keys: seq<string>): seq<Range>
    requires Readable(v) && forall k :: k in keys ==> k in v
  {
    seq(|keys|, i requires 0 <= i < |keys| => RangeOf(v, keys[i]))
  }

  /** Where every attribute can be read and parsed, a pass has one job for each key. */
  lemma {:induction false} JobsOf(v: Virtuals, keys: seq<string>, p: Pass)
    requires Readable(v) && forall k :: k in keys ==> k in v && p.fates(k).readable
    ensures |Jobs(v, keys, p)| == |keys|
    ensures forall i :: 0 <= i < |keys| ==>
              var fate := p.fates(keys[i]);
              Jobs(v, keys, p)[i] == Job(RangeOf(v, keys[i]), Due(p, keys[i]), fate.uploads, fate.drops)
  {
    if keys != [] {
      JobsOf(v, keys[..|keys| - 1], p);
    }
  }

  lemma ListedTiles(v: Virtuals, keys: seq<string>, base: int, offset: int)
    requires Tiles(v, base, offset) && InOrder(v, keys)
    ensures TilesSeq(RangesOf(v, keys), base, offset)
  {
    var rs := RangesOf(v, keys);
    forall p | base <= p < offset ensures CoveredBy(rs, p) {
      assert Covered(v, p);
      var k :| k in v && Covers(RangeOf(v, k), p);
      var i :| 0 <= i < |keys| && keys[i] == k;
      assert Covers(rs[i], p);
    }
    forall i, j, p | 0 <= i < |rs| && 0 <= j < |rs| && Covers(rs[i], p) && Covers(rs[j], p) ensures i == j {
      assert Covers(RangeOf(v, keys[i]), p) && Covers(RangeOf(v, keys[j]), p);
      if i < j { Distinct(v, keys, i, j); } else if j < i { Distinct(v, keys, j, i); }
    }
  }

  /** Ranges in offset order that tile end before the next one starts. */
  lemma EndsBefore(rs: seq<Range>, base: int, offset: int, i: nat, j: nat)
    requires TilesSeq(rs, base, offset) && OffsetOrder(rs) && i < j < |rs| && rs[j].length > 0
    ensures rs[i].start + rs[i].length <= rs[j].start
  {
    assert Within(rs[i], base, offset) && Within(rs[j], base, offset);
    if rs[i].start + rs[i].length > rs[j].start {
      assert Covers(rs[i], rs[j].start) && Covers(rs[j], rs[j].start);
    }
  }

  /** When key order agrees with offset order, the holes are clear if nothing that is passed over comes
      before something that is taken on, and everything taken on is dropped. */
  lemma TilesHolesClear(blockSize: nat, js: seq<Job>, base: int, offset: int)
    requires blockSize > 0 && TilesSeq(Ranges(js), base, offset) && OffsetOrder(Ranges(js))
    requires forall i, j :: 0 <= i < j < |js| && js[j].due ==> js[i].due
    requires forall i :: 0 <= i < |js| && js[i].due ==> js[i].dropped
    ensures HolesClear(blockSize, js)
  {
    forall i, j | 0 <= i < |js| && 0 <= j < |js| && Threatens(js, i, j)
      ensures HoleEnd(blockSize, js[i].range) <= js[j].range.start
    {
      HoleStaysInside(blockSize, js[i].range);
      EndsBefore(Ranges(js), base, offset, i, j);
    }
  }

  /** Everything that was uploaded, put together. */
  function Joined(us: seq<Option<seq<Byte>>>): seq<Byte> {
    if us == [] then []
    else Joined(us[..|us| - 1]) + if us[|us| - 1].Some? then us[|us| - 1].value else []
  }

  /** The pass takes on every range, and every upload and removal succeeds. */
  ghost predicate AllDelivered(js: seq<Job>) {
    forall i :: 0 <= i < |js| ==> Gone(js[i]) && js[i].uploaded
  }

  /** The same of the keys of a pass. */
  ghost predicate Delivers(p: Pass, keys: seq<string>) {
    TakesAll(p, keys) && forall k :: k in keys ==> p.fates(k).uploads
  }

  /** Where the first n ranges of a tiling in offset order end. */
  function End(rs: seq<Range>, base: int, n: nat): int
    requires n <= |rs|
  {
    if n == 0 then base
    else if rs[n - 1].length > 0 then rs[n - 1].start + rs[n - 1].length else End(rs, base, n - 1)
  }

  /** Each range that holds bytes starts where those before it end. */
  lemma NoGap(rs: seq<Range>, base: int, offset: int, n: nat)
    requires TilesSeq(rs, base, offset) && OffsetOrder(rs) && n < |rs| && rs[n].length > 0
    ensures rs[n].start == End(rs, base, n)
  {
    var c := End(rs, base, n);
    EndBelow(rs, base, offset, n, n);
    assert Within(rs[n], base, offset);
    if c < rs[n].start {
      assert CoveredBy(rs, c);
      var m :| 0 <= m < |rs| && Covers(rs[m], c);
      if m < n { EndAbove(rs, base, offset, n, m); }
    }
  }

  lemma {:induction false} EndBelow(rs: seq<Range>, base: int, offset: int, n: nat, m: nat)
    requires TilesSeq(rs, base, offset) && OffsetOrder(rs) && n <= m < |rs| && rs[m].length > 0
    ensures base <= End(rs, base, n) <= rs[m].start
  {
    assert Within(rs[m], base, offset);
    if n > 0 {
      if rs[n - 1].length > 0 {
        assert Within(rs[n - 1], base, offset);
        EndsBefore(rs, base, offset, n - 1, m);
      } else {
        EndBelow(rs, base, offset, n - 1, m);
      }
    }
  }

  lemma {:induction false} EndAbove(rs: seq<Range>, base: int, offset: int, n: nat, m: nat)
    requires TilesSeq(rs, base, offset) && OffsetOrder(rs) && m < n <= |rs|
    ensures rs[m].length > 0 ==> rs[m].start + rs[m].length <= End(rs, base, n)
  {
    if rs[n - 1].length > 0 {
      if m < n - 1 {
        EndsBefore(rs, base, offset, m, n - 1);
      }
    } else if m < n - 1 {
      EndAbove(rs, base, offset, n - 1, m);
    }
  }

  lemma {:induction false} EndIn(rs: seq<Range>, base: int, offset: int, n: nat)
    requires TilesSeq(rs, base, offset) && base <= offset && n <= |rs|
    ensures base <= End(rs, base, n) <= offset
  {
    if n > 0 {
      assert Within(rs[n - 1], base, offset);
      if rs[n - 1].length <= 0 { EndIn(rs, base, offset, n - 1); }
    }
  }

  /** The uploads of a tiling in offset order, put together, are the bytes in order. */
  lemma {:induction false} JoinedUploads(blockSize: nat, data: seq<Byte>, js: seq<Job>, base: int, offset: int, n: nat)
    requires blockSize > 0 && TilesSeq(Ranges(js), base, offset) && OffsetOrder(Ranges(js)) && AllDelivered(js)
    requires 0 <= base <= offset <= |data| && n <= |js|
    ensures base <= End(Ranges(js), base, n) <= offset
    ensures Joined(Uploads(blockSize, data, js, false, n)) == data[base..End(Ranges(js), base, n)]
  {
    var rs := Ranges(js);
    EndIn(rs, base, offset, n);
    if n > 0 {
      JoinedUploads(blockSize, data, js, base, offset, n - 1);
      NextUpload(blockSize, data, js, base, offset, n - 1);
      JoinedNext(blockSize, data, js, n);
      SliceJoin(data, base, End(rs, base, n - 1), End(rs, base, n));
    }
  }

  lemma SliceJoin(data: seq<Byte>, a: int, b: int, c: int)
    requires 0 <= a <= b <= c <= |data|
    ensures data[a..b] + data[b..c] == data[a..c]
  {
  }

  lemma JoinedNext(blockSize: nat, data: seq<Byte>, js: seq<Job>, n: nat)
    requires blockSize > 0 && 0 < n <= |js| && Uploads(blockSize, data, js, false, n)[n - 1].Some?
    ensures Joined(Uploads(blockSize, data, js, false, n)) ==
            Joined(Uploads(blockSize, data, js, false, n - 1)) + Uploads(blockSize, data, js, false, n)[n - 1].value
  {
    assert Uploads(blockSize, data, js, false, n)[..n - 1] == Uploads(blockSize, data, js, false, n - 1);
  }

  lemma NextUpload(blockSize: nat, data: seq<Byte>, js: seq<Job>, base: int, offset: int, n: nat)
    requires blockSize > 0 && TilesSeq(Ranges(js), base, offset) && OffsetOrder(Ranges(js)) && AllDelivered(js)
    requires 0 <= base <= offset <= |data| && n < |js|
    ensures var rs := Ranges(js);
            && base <= End(rs, base, n) <= End(rs, base, n + 1) <= offset
            && Uploads(blockSize, data, js, false, n + 1)[n] == Some(data[End(rs, base, n)..End(rs, base, n + 1)])
  {
    var rs := Ranges(js);
    EndIn(rs, base, offset, n);
    assert Within(rs[n], base, offset);
    TilesHolesClear(blockSize, js, base, offset);
    BytesKept(blockSize, data, js, n, n);
    UploadIs(blockSize, data, js, false, n + 1, n);
    if rs[n].length > 0 { NoGap(rs, base, offset, n); }
    assert Slice(data, js[n].range) == data[End(rs, base, n)..End(rs, base, n + 1)];
  }

  /** The final upload of a tiled file whose key order agrees with its offset order delivers exactly the
      bytes from base on, whatever the block size. */
  lemma FinalUploadComplete(blockSize: nat, data: seq<Byte>, v: Virtuals, keys: seq<string>, p: Pass, base: nat, offset: nat)
    requires blockSize > 0 && Tiles(v, base, offset) && InOrder(v, keys)
    requires base <= offset <= |data| <= MAX_INT64 && OffsetOrder(RangesOf(v, keys)) && Delivers(p, keys)
    ensures var js := Jobs(v, keys, p);
            Joined(Uploads(blockSize, data, js, false, |js|)) +
            Slice(DataAfter(blockSize, data, js, false, |js|), Range(offset, MAX_INT64)) == data[base..]
  {
    var js := Jobs(v, keys, p);
    JobsOf(v, keys, p);
    assert Ranges(js) == RangesOf(v, keys);
    ListedTiles(v, keys, base, offset);
    UploadComplete(blockSize, data, js, base, offset);
  }

  lemma UploadComplete(blockSize: nat, data: seq<Byte>, js: seq<Job>, base: nat, offset: nat)
    requires blockSize > 0 && TilesSeq(Ranges(js), base, offset) && OffsetOrder(Ranges(js)) && AllDelivered(js)
    requires base <= offset <= |data| <= MAX_INT64
    ensures Joined(Uploads(blockSize, data, js, false, |js|)) +
            Slice(DataAfter(blockSize, data, js, false, |js|), Range(offset, MAX_INT64)) == data[base..]
  {
    JoinedUploads(blockSize, data, js, base, offset, |js|);
    AllCovered(Ranges(js), base, offset);
    TailIntact(blockSize, data, js, base, offset);
    SliceJoin(data, base, offset, |data|);
    assert data[base..] == data[base..|data|] && data[offset..] == data[offset..|data|];
  }

  lemma AllCovered(rs: seq<Range>, base: int, offset: int)
    requires TilesSeq(rs, base, offset) && OffsetOrder(rs) && base <= offset
    ensures End(rs, base, |rs|) == offset
  {
    var c := End(rs, base, |rs|);
    EndIn(rs, base, offset, |rs|);
    if c < offset {
      assert CoveredBy(rs, c);
      var m :| 0 <= m < |rs| && Covers(rs[m], c);
      EndAbove(rs, base, offset, |rs|, m);
    }
  }

  /** No pass ever damages the active tail. */
  lemma TailIntact(blockSize: nat, data: seq<Byte>, js: seq<Job>, base: nat, offset: nat)
    requires blockSize > 0 && TilesSeq(Ranges(js), base, offset) && offset <= |data| <= MAX_INT64
    ensures Slice(DataAfter(blockSize, data, js, false, |js|), Range(offset, MAX_INT64)) == data[offset..]
  {
    var now := DataAfter(blockSize, data, js, false, |js|);
    forall p | offset <= p < |data| ensures now[p] == data[p] {
      ByteAfter(blockSize, data, js, |js|, p);
      forall j | 0 <= j < |js| ensures HoleEnd(blockSize, js[j].range) <= p {
        HoleStaysInside(blockSize, js[j].range);
        assert Within(Ranges(js)[j], base, offset);
      }
    }
    assert now[offset..] == data[offset..];
  }

  // ---- Key order that does not ----

  /** Two rotations whose time stamps sort the wrong way round: the hole of the second range wipes out the
      first one before it is uploaded, for every block size that fits below the second one's end. */
  lemma WrongOrderLoses(blockSize: nat, data: seq<Byte>, v: Virtuals, first: string, second: string, p: Pass, cut: nat, end: nat)
    requires first != second && v == Cut(Cut(map[], 0, cut, first), cut, end, second)
    requires 0 < cut < end <= |data| && end <= MAX_INT64 && data[0] != 0 && 0 < blockSize < end
    requires p.fates(first).readable && p.fates(second).readable && Due(p, second)
    ensures !Safe(blockSize, data, Jobs(v, [second, first], p))
  {
    TwoJobs(v, first, second, p, cut, end);
    HoleReaches(blockSize, end);
    HoleLoses(blockSize, data, Jobs(v, [second, first], p), 0, 1);
  }

  /** In normal mode a range that is older than the threshold is passed over; when a newer one is not, its
      hole wipes the older one out although it was never uploaded. */
  lemma OldRangeLost(blockSize: nat, data: seq<Byte>, v: Virtuals, first: string, second: string, p: Pass, cut: nat, end: nat)
    requires first != second && v == Cut(Cut(map[], 0, cut, first), cut, end, second)
    requires 0 < cut < end <= |data| && end <= MAX_INT64 && data[0] != 0 && 0 < blockSize < end
    requires p.fates(first).readable && p.fates(second).readable && Due(p, second) && !Due(p, first)
    ensures !Safe(blockSize, data, Jobs(v, [first, second], p))
  {
    TwoJobs(v, first, second, p, cut, end);
    HoleReaches(blockSize, end);
    HoleLoses(blockSize, data, Jobs(v, [first, second], p), 1, 0);
  }

  lemma TwoTiles(v: Virtuals, first: string, second: string, cut: nat, end: nat)
    requires first != second && v == Cut(Cut(map[], 0, cut, first), cut, end, second) && 0 < cut < end <= MAX_INT64
    ensures Tiles(v, 0, end) && v.Keys == {first, second}
    ensures RangeOf(v, first) == Range(0, cut) && RangeOf(v, second) == Range(cut, end - cut)
  {
    assert Tiles(map[], 0, 0);
    RotationTiles(map[], 0, 0, cut, first, Both);
    RotationTiles(Cut(map[], 0, cut, first), 0, cut, end, second, Both);
    CutRanges(map[], 0, cut, first);
    CutRanges(Cut(map[], 0, cut, first), cut, end, second);
  }

  lemma TwoJobs(v: Virtuals, first: string, second: string, p: Pass, cut: nat, end: nat)
    requires first != second && v == Cut(Cut(map[], 0, cut, first), cut, end, second) && 0 < cut < end <= MAX_INT64
    requires p.fates(first).readable && p.fates(second).readable
    ensures first in v && second in v
    ensures var a := Job(Range(0, cut), Due(p, first), p.fates(first).uploads, p.fates(first).drops);
            var b := Job(Range(cut, end - cut), Due(p, second), p.fates(second).uploads, p.fates(second).drops);
            Jobs(v, [first, second], p) == [a, b] && Jobs(v, [second, first], p) == [b, a]
  {
    TwoTiles(v, first, second, cut, end);
    JobsOf(v, [first, second], p);
    JobsOf(v, [second, first], p);
  }

  lemma HoleReaches(blockSize: nat, end: nat)
    requires 0 < blockSize < end
    ensures forall r: Range :: r.start + r.length == end ==> HoleEnd(blockSize, r) > 0
  {
    assert (end - 1) / blockSize >= 1;
  }

  // ---- A record that reads as empty ----

  /** A record that was overwritten by something without exactly one comma is taken on by the next pass as an
      empty range: nothing is uploaded for it and no byte is touched, but the record is dropped, and the ranges
      left still tile the file exactly if there was nothing in it. */
  lemma GarbledRecord(blockSize: nat, data: seq<Byte>, v: Virtuals, key: string, value: string, p: Pass,
                      base: nat, offset: nat)
    requires blockSize > 0 && Tiles(v, base, offset) && key in v && !OneComma(value)
    requires Delivers(p, [key]) && !p.keep
    ensures var v' := v[key := value];
            var js := Jobs(v', [key], p);
            && |js| == 1 && Uploads(blockSize, data, js, false, 1) == [Some([])]
            && DataAfter(blockSize, data, js, false, 1) == data
            && key !in Left(v', [key], p)
            && (Tiles(Left(v', [key], p), base, offset) <==> RangeOf(v, key).length == 0)
  {
    var v' := v[key := value];
    var js := Jobs(v', [key], p);
    assert p.fates(key).readable && Due(p, key) && p.fates(key).drops && p.fates(key).uploads by { assert key in [key]; }
    assert [key][..0] == [];
    assert JobOf(v', key, p) == Some(Job(Range(0, 0), true, true, true));
    assert js == Jobs(v', [key][..0], p) + [Job(Range(0, 0), true, true, true)];
    HoleStaysInside(blockSize, Range(0, 0));
    assert DataAfter(blockSize, data, js, false, 0) == data;
    assert ZeroBelow(data, HoleEnd(blockSize, Range(0, 0))) == data;
    assert Left(v', [key], p) == v' - {key} == v - {key};
    RemovalTiles(v, base, offset, key);
  }

  const JANUARY := "31012020_120000"
  const FEBRUARY := "01022020_120000"

  /** Time stamps start with the day of the month, so 1 February sorts before 31 January. */
  lemma MonthEndOrder()
    ensures Before(FEBRUARY, JANUARY) && JANUARY != FEBRUARY
  {
    assert FEBRUARY[0] < JANUARY[0];
  }
}
