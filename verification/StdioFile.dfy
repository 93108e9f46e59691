/** A stdio file in place: its bytes, the attribute that holds the active offset, and the virtual file
    attributes; rotation, and the upload pass that punches holes behind itself. */
module StdioFile {
  import opened Option
  import opened Text
  import opened StdioCodec
  import opened StdioRotation

  /** newStartAndLength: the start rounded up and the length rounded down to whole blocks. */
  function AlignedHole(blockSize: nat, start: int, length: int): (int, int)
    requires blockSize > 0
  {
    ((start + blockSize - 1) / blockSize * blockSize, length / blockSize * blockSize)
  }

  /** The bytes with everything below n zeroed: what a hole punched from offset 0 leaves. */
  function ZeroBelow(data: seq<Byte>, n: int): (r: seq<Byte>)
    ensures |r| == |data|
    ensures forall p :: 0 <= p < |data| ==> r[p] == if p < n then 0 else data[p]
  {
    seq(|data|, p requires 0 <= p < |data| => if p < n then 0 else data[p])
  }

  /** The end of the hole punched after a range was uploaded. */
  function HoleEnd(blockSize: nat, r: Range): int
    requires blockSize > 0
  {
    AlignedHole(blockSize, 0, r.start + r.length - 1).1
  }

  /** The bytes an upload of the range reads: up to the end of the file. */
  function Slice(data: seq<Byte>, r: Range): seq<Byte> {
    if 0 <= r.start <= |data| && 0 <= r.length
    then data[r.start..if r.start + r.length < |data| then r.start + r.length else |data|] else []
  }

  /** The largest multiple of the block size that is at most the length. */
  predicate EndOfBlocks(blockSize: nat, length: int, end: int)
    requires blockSize > 0
  {
    end % blockSize == 0 && end <= length < end + blockSize
  }

  lemma EndsOnBlock(blockSize: nat, length: int)
    requires blockSize > 0
    ensures AlignedHole(blockSize, 0, length).0 == 0
    ensures EndOfBlocks(blockSize, length, AlignedHole(blockSize, 0, length).1)
  {
    assert (blockSize - 1) / blockSize == 0;
    var n := length / blockSize;
    assert length == n * blockSize + length % blockSize;
    Multiple(n, blockSize);
  }

  lemma Multiple(n: int, d: nat)
    requires d > 0
    ensures (n * d) % d == 0
  {
    var q, r := (n * d) / d, (n * d) % d;
    assert n * d == q * d + r && (n - q) * d == r;
    assert n - q >= 1 ==> (n - q) * d >= d;
    assert n - q <= -1 ==> (n - q) * d <= 0 - d;
  }

  // ---- A pass over the recorded ranges ----

  datatype Mode = NormalRotate | FinalUpload

  /** What becomes of one key in a pass: whether its attribute can be read (none can if they cannot be listed),
      the age that its time stamp stands for if that parses, and whether its upload and its removal succeed. */
  datatype Fate = Fate(readable: bool, age: Option<int>, uploads: bool, drops: bool)

  datatype Pass = Pass(mode: Mode, threshold: int, keep: bool, fates: string -> Fate)

  /** One range in a pass: whether the pass takes it on, and whether its upload and its removal succeed. */
  datatype Job = Job(range: Range, due: bool, uploaded: bool, dropped: bool)

  /** In normal mode a virtual file is passed over once it is older than the threshold. */
  predicate Due(p: Pass, key: string) {
    var age := p.fates(key).age;
    age.Some? && (p.mode.FinalUpload? || age.value <= p.threshold)
  }

  /** What a pass has to do for a key; an attribute that cannot be read or parsed is skipped. */
  function JobOf(v: Virtuals, key: string, p: Pass): Option<Job>
    requires key in v
  {
    var range := FetchStartAndLen(v[key]);
    if p.fates(key).readable && range.Some?
    then Some(Job(range.value, Due(p, key), p.fates(key).uploads, p.fates(key).drops)) else None
  }

  function Jobs(v: Virtuals, keys: seq<string>, p: Pass): seq<Job>
    requires forall k :: k in keys ==> k in v
  {
    if keys == [] then []
    else
      var n, job := |keys| - 1, JobOf(v, keys[|keys| - 1], p);
      Jobs(v, keys[..n], p) + if job.Some? then [job.value] else []
  }

  /** The pass takes the key on and removes its attribute. */
  predicate Drops(v: Virtuals, key: string, p: Pass) {
    key in v && JobOf(v, key, p).Some? && Due(p, key) && p.fates(key).drops && !p.keep
  }

  /** The attributes that a pass leaves. */
  function Left(v: Virtuals, keys: seq<string>, p: Pass): Virtuals {
    if keys == [] then v
    else
      var n, key := |keys| - 1, keys[|keys| - 1];
      if Drops(v, key, p) then Left(v, keys[..n], p) - {key} else Left(v, keys[..n], p)
  }

  /** The keys are all the attributes of the file, in the order of sort.Strings. */
  ghost predicate InOrder(v: Virtuals, keys: seq<string>) {
    Increasing(keys) && forall k :: k in keys <==> k in v
  }

  /** The bytes of the file after the first n ranges of a pass. */
  function DataAfter(blockSize: nat, data: seq<Byte>, js: seq<Job>, keep: bool, n: nat): (r: seq<Byte>)
    requires blockSize > 0 && n <= |js|
    ensures |r| == |data|
  {
    if n == 0 then data
    else
      var before := DataAfter(blockSize, data, js, keep, n - 1);
      if js[n - 1].due && !keep then ZeroBelow(before, HoleEnd(blockSize, js[n - 1].range)) else before
  }

  /** What was uploaded of the first n ranges of a pass. */
  function Uploads(blockSize: nat, data: seq<Byte>, js: seq<Job>, keep: bool, n: nat): (us: seq<Option<seq<Byte>>>)
    requires blockSize > 0 && n <= |js|
    ensures |us| == n
  {
    if n == 0 then []
    else
      Uploads(blockSize, data, js, keep, n - 1) +
      [if js[n - 1].due && js[n - 1].uploaded
       then Some(Slice(DataAfter(blockSize, data, js, keep, n - 1), js[n - 1].range)) else None]
  }

  class File {
    var data: seq<Byte>
    var stdio: string        // the active offset
    var virtuals: Virtuals
    const blockSize: nat

    constructor (blockSize: nat, data: seq<Byte>)
      ensures this.blockSize == blockSize && this.data == data && stdio == "" && virtuals == map[]
    {
      this.blockSize, this.data, this.stdio, this.virtuals := blockSize, data, "", map[];
    }

    /** getCutOffset: search the last MAX_SEEK bytes backwards for a newline, if they can be read. */
    method GetCutOffset(readFails: bool) returns (cut: int)
      ensures cut == CutLocation(data, readFails)
      ensures cut > 0 <==> !readFails && |data| >= 16777216 &&
                           exists p :: |data| - 16777216 <= p < |data| && data[p] == 10
      ensures cut > 0 ==> cut <= |data| && data[cut - 1] == 10 && forall p :: cut <= p < |data| ==> data[p] != 10
      ensures cut >= 0
    {
      if |data| < MAX_SEEK || readFails { return 0; }
      var lo := |data| - MAX_SEEK;
      var i := |data|;
      while i > lo
        invariant lo <= i <= |data|
        invariant LastNewline(data, lo, |data|) == LastNewline(data, lo, i)
      {
        if data[i - 1] == NEWLINE { return i; }
        i := i - 1;
      }
      return 0;
    }

    /** The recorded ranges tile the file from base to the active offset. */
    ghost predicate Tiled(base: nat)
      reads this
    {
      base <= CurrentOffset(stdio) <= |data| <= MAX_INT64 && Tiles(virtuals, base, CurrentOffset(stdio))
    }

    /** doStdioRotate, with the bytes that a writer appends after the size was read. The file is cut just
        after a newline beyond the old offset, or, if the search window has none or cannot be read, at 0. */
    method Rotate(late: seq<Byte>, stamp: string, readFails: bool, writes: Writes, ghost base: nat)
      returns (rotated: bool)
      requires |data| + |late| <= MAX_INT64
      modifies this
      ensures data == old(data) + late
      ensures rotated <==> |old(data)| - CurrentOffset(old(stdio)) >= 256000000
      ensures !rotated ==> stdio == old(stdio) && virtuals == old(virtuals)
      ensures rotated ==>
                var offset, cut := CurrentOffset(old(stdio)), CutLocation(data, readFails);
                && stdio == (if writes.Both? then FormatInt(cut) else old(stdio))
                && virtuals == RecordedAfter(old(virtuals), offset, cut, stamp, writes)
                && (cut == 0 || GoodCut(data, offset, cut))
                && (old(Tiled(base)) ==> (Tiled(base) <==> KeepsTiling(old(virtuals), offset, cut, stamp, writes)))
    {
      var offset := CurrentOffset(stdio);
      var size := |data|;
      data := data + late;
      if size - offset < ROTATE_SIZE { return false; }
      var cut := GetCutOffset(readFails);
      if cut != 0 { CutIsGood(data, offset); }
      UpdateFile(offset, cut, stamp, writes, base);
      return true;
    }

    /** updateFile: record the cut as a virtual file and move the active offset to it; if that write fails,
        remove the record again. A tiled file stays tiled exactly if that is a sound rotation. */
    method UpdateFile(offset: int, cut: int, stamp: string, writes: Writes, ghost base: nat)
      requires cut == 0 || offset < cut <= |data| <= MAX_INT64
      modifies this`stdio, this`virtuals
      ensures stdio == if writes.Both? then FormatInt(cut) else old(stdio)
      ensures virtuals == RecordedAfter(old(virtuals), offset, cut, stamp, writes)
      ensures writes.Both? && 0 <= cut <= MAX_INT64 ==> CurrentOffset(stdio) == cut
      ensures var record := FormatInt(offset) + "," + FormatInt(cut - offset);
              match writes
              case Both => virtuals == old(virtuals)[stamp := record] && stdio == FormatInt(cut)
              case FirstFails => virtuals == old(virtuals) && stdio == old(stdio)
              case SecondFails(undone) =>
                stdio == old(stdio) && virtuals == if undone then old(virtuals) - {stamp} else old(virtuals)[stamp := record]
      ensures old(Tiled(base)) && offset == CurrentOffset(old(stdio)) && cut >= 0 ==>
                (Tiled(base) <==> KeepsTiling(old(virtuals), offset, cut, stamp, writes))
    {
      if 0 <= cut <= MAX_INT64 { FetchEncoded(Range(cut, 0)); }
      if Tiled(base) && offset == CurrentOffset(stdio) && cut >= 0 {
        RotationTiles(virtuals, base, offset, cut, stamp, writes);
      }
      if writes.FirstFails? { return; }
      virtuals := virtuals[stamp := EncodeRange(Range(offset, cut - offset))];
      if writes.SecondFails? {
        if writes.undone {
          assert old(virtuals)[stamp := EncodeRange(Range(offset, cut - offset))] - {stamp} == old(virtuals) - {stamp};
          virtuals := virtuals - {stamp};
        }
        return;
      }
      stdio := FormatInt(cut);
    }

    /** MakeHole from offset 0. A length that is not positive is refused by fallocate. */
    method MakeHole(length: int)
      requires blockSize > 0
      modifies this`data
      ensures data == ZeroBelow(old(data), AlignedHole(blockSize, 0, length).1)
      ensures |data| == |old(data)|
      ensures exists end :: EndOfBlocks(blockSize, length, end) &&
                forall p :: 0 <= p < |data| ==> data[p] == if p < end then 0 else old(data)[p]
    {
      EndsOnBlock(blockSize, length);
      var (start, n) := AlignedHole(blockSize, 0, length);
      if n > 0 {
        ghost var before := data;
        data := seq(|data|, p requires 0 <= p < |data| reads this => if start <= p < start + n then 0 else data[p]);
        assert start == 0 && forall p :: 0 <= p < |data| ==> data[p] == if p < n then 0 else before[p];
      }
    }

    /** doStdioUploadAndReclaimVirtualFile: if the pass takes the range on, upload it; then, whether or not
        that succeeded, drop its attribute and, whether or not that succeeded, punch a hole up to the last
        block boundary before its last byte, unless files are kept after upload. */
    method UploadVirtualFile(key: string, range: Range, p: Pass) returns (upload: Option<seq<Byte>>)
      requires blockSize > 0
      modifies this`data, this`virtuals
      ensures upload == if Due(p, key) && p.fates(key).uploads then Some(Slice(old(data), range)) else None
      ensures data == if Due(p, key) && !p.keep then ZeroBelow(old(data), HoleEnd(blockSize, range)) else old(data)
      ensures virtuals == if Due(p, key) && !p.keep && p.fates(key).drops then old(virtuals) - {key} else old(virtuals)
      ensures var fate := p.fates(key);
              var taken := fate.age.Some? && (p.mode.FinalUpload? || fate.age.value <= p.threshold);
              && (upload.Some? <==> taken && fate.uploads)
              && (virtuals == if taken && !p.keep && fate.drops then old(virtuals) - {key} else old(virtuals))
              && (!taken || p.keep ==> data == old(data))
      ensures upload.Some? && Within(range, 0, |old(data)|) ==>
                upload.value == old(data)[range.start..range.start + range.length]
    {
      var fate := p.fates(key);
      if fate.age.None? { return None; }
      if p.mode.NormalRotate? && fate.age.value > p.threshold { return None; }
      upload := if fate.uploads then Some(Slice(data, range)) else None;
      if !p.keep {
        if fate.drops { virtuals := virtuals - {key}; }
        MakeHole(range.start + range.length - 1);
      }
    }

    /** doStdioUploadAndReclaim: a pass over all the attributes in the order of their keys. */
    method UploadAndReclaim(p: Pass) returns (keys: seq<string>, uploads: seq<Option<seq<Byte>>>)
      requires blockSize > 0
      modifies this`data, this`virtuals
      ensures InOrder(old(virtuals), keys)
      ensures var js := Jobs(old(virtuals), keys, p);
              && uploads == Uploads(blockSize, old(data), js, p.keep, |js|)
              && data == DataAfter(blockSize, old(data), js, p.keep, |js|)
      ensures virtuals == Left(old(virtuals), keys, p)
      ensures forall k :: k in virtuals ==> k in old(virtuals) && virtuals[k] == old(virtuals)[k]
      ensures forall k :: k in old(virtuals) ==>
                var fate := p.fates(k);
                (k !in virtuals <==>
                 && fate.readable && FetchStartAndLen(old(virtuals)[k]).Some? && fate.age.Some?
                 && (p.mode.FinalUpload? || fate.age.value <= p.threshold) && fate.drops && !p.keep)
    {
      keys := Sorted(virtuals.Keys);
      LeftIs(virtuals, keys, p);
      uploads := [];
      ghost var v, before := virtuals, data;
      for i := 0 to |keys|
        invariant Passed(blockSize, before, v, keys, i, p, uploads, data, virtuals)
      {
        PassNext(blockSize, before, v, keys, i, p, uploads, data, virtuals);
        var range := if p.fates(keys[i]).readable then FetchStartAndLen(virtuals[keys[i]]) else None;
        if range.Some? {
          var upload := UploadVirtualFile(keys[i], range.value, p);
          uploads := uploads + [upload];
        }
      }
      assert keys[..|keys|] == keys;
    }

    /** stdioRotate in the final-upload mode: a pass, a second one over whatever attributes are left, and then
        the active tail, which is missing if its offset cannot be read or its upload fails. */
    method FinalUpload(p: Pass, again: Pass, tail: bool)
      returns (keys: seq<string>, rest: seq<string>, uploads: seq<Option<seq<Byte>>>)
      requires blockSize > 0 && p.mode.FinalUpload? && again.mode.FinalUpload? && p.keep == again.keep
      modifies this`data, this`virtuals
      ensures InOrder(old(virtuals), keys) && InOrder(Left(old(virtuals), keys, p), rest)
      ensures var js, more := Jobs(old(virtuals), keys, p), Jobs(Left(old(virtuals), keys, p), rest, again);
              var between := DataAfter(blockSize, old(data), js, p.keep, |js|);
              && uploads == Uploads(blockSize, old(data), js, p.keep, |js|) +
                            Uploads(blockSize, between, more, p.keep, |more|) +
                            [if tail then Some(Slice(DataAfter(blockSize, between, more, p.keep, |more|),
                                                     Range(CurrentOffset(stdio), MAX_INT64))) else None]
              && (TakesAll(p, keys) && !p.keep ==> more == [])
              && (p.keep ==> between == old(data) && Left(old(virtuals), keys, p) == old(virtuals))
    {
      ghost var v, before := virtuals, data;
      keys, uploads := UploadAndReclaim(p);
      if p.keep {
        LeftAll(v, keys, p);
        KeptData(blockSize, before, Jobs(v, keys, p), |Jobs(v, keys, p)|);
      }
      var more;
      rest, more := UploadAndReclaim(again);
      if TakesAll(p, keys) && !p.keep { SecondPass(v, keys, rest, p, again); }
      uploads := uploads + more + [if tail then Some(Slice(data, Range(CurrentOffset(stdio), MAX_INT64))) else None];
    }
  }

  /** The pass reads every key, takes it on and removes its attribute. */
  ghost predicate TakesAll(p: Pass, keys: seq<string>) {
    forall k :: k in keys ==> p.fates(k).readable && Due(p, k) && p.fates(k).drops
  }

  lemma Distinct(v: Virtuals, keys: seq<string>, i: nat, j: nat)
    requires InOrder(v, keys) && i < j < |keys|
    ensures keys[i] != keys[j]
  {
    BeforeTotal(keys[i], keys[j]);
  }

  /** Exactly the keys that the pass drops are gone, and the others keep their values. */
  lemma {:induction false} LeftIs(v: Virtuals, keys: seq<string>, p: Pass)
    ensures forall k :: k in Left(v, keys, p) <==> k in v && !(k in keys && Drops(v, k, p))
    ensures forall k :: k in Left(v, keys, p) ==> Left(v, keys, p)[k] == v[k]
  {
    if keys != [] {
      var n := |keys| - 1;
      assert keys == keys[..n] + [keys[n]];
      LeftIs(v, keys[..n], p);
    }
  }

  /** The pass has come to key n. */
  ghost predicate Passed(blockSize: nat, before: seq<Byte>, v: Virtuals, keys: seq<string>, n: nat, p: Pass,
                         uploads: seq<Option<seq<Byte>>>, data: seq<Byte>, virtuals: Virtuals) {
    && blockSize > 0 && n <= |keys| && InOrder(v, keys) && virtuals == Left(v, keys[..n], p)
    && var js := Jobs(v, keys[..n], p);
       uploads == Uploads(blockSize, before, js, p.keep, |js|) && data == DataAfter(blockSize, before, js, p.keep, |js|)
  }

  /** It comes to the next one by skipping what cannot be read, and by what UploadVirtualFile does otherwise. */
  lemma PassNext(blockSize: nat, before: seq<Byte>, v: Virtuals, keys: seq<string>, n: nat, p: Pass,
                 uploads: seq<Option<seq<Byte>>>, data: seq<Byte>, virtuals: Virtuals)
    requires Passed(blockSize, before, v, keys, n, p, uploads, data, virtuals) && n < |keys|
    ensures keys[n] in virtuals
    ensures var key, job := keys[n], JobOf(virtuals, keys[n], p);
            if job.None? then Passed(blockSize, before, v, keys, n + 1, p, uploads, data, virtuals)
            else
              var j := job.value;
              Passed(blockSize, before, v, keys, n + 1, p,
                     uploads + [if j.due && j.uploaded then Some(Slice(data, j.range)) else None],
                     if j.due && !p.keep then ZeroBelow(data, HoleEnd(blockSize, j.range)) else data,
                     if j.due && !p.keep && j.dropped then virtuals - {key} else virtuals)
  {
    StillThere(v, keys, n, p);
    NextKey(v, keys, n, p);
    assert JobOf(virtuals, keys[n], p) == JobOf(v, keys[n], p);
    if JobOf(v, keys[n], p).Some? {
      NextJob(blockSize, before, Jobs(v, keys[..n], p), JobOf(v, keys[n], p).value, p.keep);
    }
  }

  lemma StillThere(v: Virtuals, keys: seq<string>, n: nat, p: Pass)
    requires InOrder(v, keys) && n < |keys|
    ensures keys[n] in v && keys[n] in Left(v, keys[..n], p) && Left(v, keys[..n], p)[keys[n]] == v[keys[n]]
  {
    LeftIs(v, keys[..n], p);
    forall i | 0 <= i < n ensures keys[i] != keys[n] { Distinct(v, keys, i, n); }
  }

  lemma NextKey(v: Virtuals, keys: seq<string>, n: nat, p: Pass)
    requires n < |keys| && forall k :: k in keys ==> k in v
    ensures var job, before := JobOf(v, keys[n], p), keys[..n];
            && Jobs(v, keys[..n + 1], p) == (if job.Some? then Jobs(v, before, p) + [job.value] else Jobs(v, before, p))
            && Left(v, keys[..n + 1], p) ==
               if Drops(v, keys[n], p) then Left(v, before, p) - {keys[n]} else Left(v, before, p)
  {
    assert keys[..n + 1][..n] == keys[..n];
    assert Jobs(v, keys[..n], p) + [] == Jobs(v, keys[..n], p);
  }

  lemma NextJob(blockSize: nat, data: seq<Byte>, js: seq<Job>, j: Job, keep: bool)
    requires blockSize > 0
    ensures var n, js' := |js|, js + [j];
            && DataAfter(blockSize, data, js', keep, n + 1) ==
               (if j.due && !keep then ZeroBelow(DataAfter(blockSize, data, js, keep, n), HoleEnd(blockSize, j.range))
                else DataAfter(blockSize, data, js, keep, n))
            && Uploads(blockSize, data, js', keep, n + 1) ==
               Uploads(blockSize, data, js, keep, n) +
               [if j.due && j.uploaded then Some(Slice(DataAfter(blockSize, data, js, keep, n), j.range)) else None]
  {
    SamePrefix(blockSize, data, js, js + [j], keep, |js|);
  }

  lemma {:induction false} SamePrefix(blockSize: nat, data: seq<Byte>, js: seq<Job>, js': seq<Job>, keep: bool, n: nat)
    requires blockSize > 0 && n <= |js| && n <= |js'| && forall i :: 0 <= i < n ==> js[i] == js'[i]
    ensures DataAfter(blockSize, data, js, keep, n) == DataAfter(blockSize, data, js', keep, n)
    ensures Uploads(blockSize, data, js, keep, n) == Uploads(blockSize, data, js', keep, n)
  {
    if n > 0 { SamePrefix(blockSize, data, js, js', keep, n - 1); }
  }

  lemma {:induction false} KeptData(blockSize: nat, data: seq<Byte>, js: seq<Job>, n: nat)
    requires blockSize > 0 && n <= |js|
    ensures DataAfter(blockSize, data, js, true, n) == data
  {
    if n > 0 { KeptData(blockSize, data, js, n - 1); }
  }

  lemma {:induction false} LeftAll(v: Virtuals, keys: seq<string>, p: Pass)
    requires p.keep
    ensures Left(v, keys, p) == v
  {
    if keys != [] { LeftAll(v, keys[..|keys| - 1], p); }
  }

  /** After a pass that takes everything on, only attributes that do not parse are left. */
  lemma SecondPass(v: Virtuals, keys: seq<string>, rest: seq<string>, p: Pass, again: Pass)
    requires InOrder(v, keys) && TakesAll(p, keys) && !p.keep && InOrder(Left(v, keys, p), rest)
    ensures Jobs(Left(v, keys, p), rest, again) == []
  {
    LeftIs(v, keys, p);
    forall k | k in rest ensures FetchStartAndLen(Left(v, keys, p)[k]).None? {
      assert k in v && k in keys;
    }
    NoJobs(Left(v, keys, p), rest, again);
  }

  lemma {:induction false} NoJobs(v: Virtuals, keys: seq<string>, p: Pass)
    requires forall k :: k in keys ==> k in v && FetchStartAndLen(v[k]).None?
    ensures Jobs(v, keys, p) == []
  {
    if keys != [] { NoJobs(v, keys[..|keys| - 1], p); }
  }
}
