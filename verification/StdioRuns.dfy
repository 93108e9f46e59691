/** A stdio file over its whole life: bytes are appended at any time, and the stdio loop makes one pass over the
    recorded ranges, then perhaps a rotation, then the next pass. */
module StdioRuns {
  import opened Option
  import opened Text
  import opened StdioCodec
  import opened StdioRotation
  import opened StdioFile
  import opened StdioLossless

  /** The bytes and attributes of a file, how far it has been reclaimed, whether the loop has made its pass and
      comes to the rotation, everything ever written to the file, and everything uploaded so far. */
  datatype State = State(blockSize: nat, data: seq<Byte>, stdio: string, virtuals: Virtuals, base: nat, passed: bool,
                         written: seq<Byte>, delivered: seq<Byte>)

  datatype Event =
    | Append(bytes: seq<Byte>)
    | Reclaim(keys: seq<string>, pass: Pass)
    | Rotate(late: seq<Byte>, stamp: string, readFails: bool, writes: Writes)

  predicate Fresh(s: State) {
    && s.blockSize > 0 && s.data == [] && s.stdio == "" && s.virtuals == map[] && s.base == 0 && !s.passed
    && s.written == [] && s.delivered == []
  }

  ghost predicate Enabled(s: State, e: Event) {
    match e
    case Append(bytes) => |s.data| + |bytes| <= MAX_INT64
    case Reclaim(keys, p) => !s.passed && s.blockSize > 0 && p.mode.NormalRotate? && InOrder(s.virtuals, keys)
    case Rotate(late, _, _, _) => s.passed && |s.data| + |late| <= MAX_INT64
  }

  predicate Outgrown(s: State) { |s.data| - CurrentOffset(s.stdio) >= ROTATE_SIZE }

  ghost function Step(s: State, e: Event): State
    requires Enabled(s, e)
  {
    match e
    case Append(bytes) => s.(data := s.data + bytes, written := s.written + bytes)
    case Reclaim(keys, p) =>
      var js := Jobs(s.virtuals, keys, p);
      s.(data := DataAfter(s.blockSize, s.data, js, p.keep, |js|), virtuals := Left(s.virtuals, keys, p),
         base := Reach(s.virtuals, keys, p, s.base), passed := true,
         delivered := s.delivered + Joined(Uploads(s.blockSize, s.data, js, p.keep, |js|)))
    case Rotate(late, stamp, readFails, writes) =>
      var s' := s.(data := s.data + late, written := s.written + late, passed := false);
      var offset, cut := CurrentOffset(s.stdio), CutLocation(s'.data, readFails);
      if !Outgrown(s) then s'
      else s'.(virtuals := RecordedAfter(s.virtuals, offset, cut, stamp, writes),
               stdio := if writes.Both? then FormatInt(cut) else s.stdio)
  }

  /** The highest end of what the pass drops: below it the file counts as reclaimed. */
  function Reach(v: Virtuals, keys: seq<string>, p: Pass, base: nat): nat {
    if keys == [] then base
    else
      var n, key := |keys| - 1, keys[|keys| - 1];
      var before := Reach(v, keys[..n], p, base);
      if !Drops(v, key, p) then before
      else
        var r := FetchStartAndLen(v[key]).value;
        if r.length > 0 && r.start + r.length > before then r.start + r.length else before
  }

  ghost predicate IsRun(ss: seq<State>, es: seq<Event>) {
    && |ss| == |es| + 1 && Fresh(ss[0])
    && forall k :: 0 <= k < |es| ==> StepAt(ss, es, k)
  }

  ghost predicate StepAt(ss: seq<State>, es: seq<Event>, k: nat)
    requires k < |es| && |ss| == |es| + 1
  {
    Enabled(ss[k], es[k]) && ss[k + 1] == Step(ss[k], es[k])
  }

  // ---- When ranges and tail tile the file ----

  /** The recorded ranges tile the file from where it has been reclaimed up to the active offset. */
  ghost predicate Tiled(s: State) {
    s.base <= CurrentOffset(s.stdio) <= |s.data| <= MAX_INT64 && Tiles(s.virtuals, s.base, CurrentOffset(s.stdio))
  }

  /** A pass that leaves no range below one that it drops; a rotation that can read the file and finds a newline,
      is written whole or not at all and overwrites nothing. */
  ghost predicate Sound(s: State, e: Event) {
    match e
    case Append(_) => true
    case Reclaim(keys, p) => Readable(s.virtuals) && LeavesNoneBelow(s.virtuals, keys, p, s.base)
    case Rotate(late, stamp, readFails, writes) =>
      Outgrown(s) ==>
        KeepsTiling(s.virtuals, CurrentOffset(s.stdio), CutLocation(s.data + late, readFails), stamp, writes)
  }

  ghost predicate LeavesNoneBelow(v: Virtuals, keys: seq<string>, p: Pass, base: nat)
    requires Readable(v)
  {
    forall k :: k in v && !Drops(v, k, p) ==> Reach(v, keys, p, base) <= RangeOf(v, k).start
  }

  lemma {:induction false} ReachIs(v: Virtuals, keys: seq<string>, p: Pass, base: nat, offset: nat)
    requires Tiles(v, base, offset) && base <= offset && forall k :: k in keys ==> k in v
    ensures base <= Reach(v, keys, p, base) <= offset
    ensures forall k :: k in keys && Drops(v, k, p) && RangeOf(v, k).length > 0 ==>
              RangeOf(v, k).start + RangeOf(v, k).length <= Reach(v, keys, p, base)
  {
    if keys != [] {
      var n := |keys| - 1;
      assert keys == keys[..n] + [keys[n]];
      ReachIs(v, keys[..n], p, base, offset);
      assert keys[n] in v && Within(RangeOf(v, keys[n]), base, offset);
    }
  }

  /** A pass keeps the tiling, from the highest end of what it drops on, exactly if no range stays below. */
  lemma PassTiles(v: Virtuals, keys: seq<string>, p: Pass, base: nat, offset: nat)
    requires Tiles(v, base, offset) && base <= offset && InOrder(v, keys)
    ensures Tiles(Left(v, keys, p), Reach(v, keys, p, base), offset) <==> LeavesNoneBelow(v, keys, p, base)
  {
    var v', base' := Left(v, keys, p), Reach(v, keys, p, base);
    LeftIs(v, keys, p);
    ReachIs(v, keys, p, base, offset);
    if LeavesNoneBelow(v, keys, p, base) {
      forall x | base' <= x < offset ensures Covered(v', x) {
        assert Covered(v, x);
        var k :| k in v && Covers(RangeOf(v, k), x);
        assert k in v' && RangeOf(v', k) == RangeOf(v, k);
      }
      assert forall k :: k in v' ==> Within(RangeOf(v, k), base, offset);
    } else {
      var k :| k in v && !Drops(v, k, p) && base' > RangeOf(v, k).start;
      assert k in v' && v'[k] == v[k];
      if Readable(v') { assert !Within(RangeOf(v', k), base', offset); }
    }
  }

  lemma TiledStep(s: State, e: Event)
    requires Tiled(s) && Enabled(s, e)
    ensures Tiled(Step(s, e)) <==> Sound(s, e)
  {
    match e {
      case Append(_) =>
      case Reclaim(keys, p) =>
        ReachIs(s.virtuals, keys, p, s.base, CurrentOffset(s.stdio));
        PassTiles(s.virtuals, keys, p, s.base, CurrentOffset(s.stdio));
      case Rotate(_, _, _, _) => if Outgrown(s) { RotateStep(s, e); }
    }
  }

  lemma RotateStep(s: State, e: Event)
    requires Tiled(s) && Enabled(s, e) && e.Rotate? && Outgrown(s)
    ensures Tiled(Step(s, e)) <==> Sound(s, e)
  {
    var data, offset := s.data + e.late, CurrentOffset(s.stdio);
    var cut := CutLocation(data, e.readFails);
    if cut != 0 { CutIsGood(data, offset); }
    FetchEncoded(Range(cut, 0));
    RotationTiles(s.virtuals, s.base, offset, cut, e.stamp, e.writes);
  }

  /** Ranges and tail tile the file in every state of a run exactly if every step taken while they do is
      sound: the first unsound one breaks the tiling. */
  lemma TilingExact(ss: seq<State>, es: seq<Event>)
    requires IsRun(ss, es)
    ensures (forall k :: 0 <= k < |ss| ==> Tiled(ss[k])) <==>
            (forall k :: 0 <= k < |es| && Tiled(ss[k]) ==> Sound(ss[k], es[k]))
  {
    if k :| 0 <= k < |es| && Tiled(ss[k]) && !Sound(ss[k], es[k]) {
      assert StepAt(ss, es, k);
      TiledStep(ss[k], es[k]);
      assert !Tiled(ss[k + 1]);
    } else {
      forall k | 0 <= k < |ss| ensures Tiled(ss[k]) { TiledUpTo(ss, es, k); }
    }
  }

  lemma {:induction false} TiledUpTo(ss: seq<State>, es: seq<Event>, k: nat)
    requires IsRun(ss, es) && k < |ss| && forall j :: 0 <= j < |es| && Tiled(ss[j]) ==> Sound(ss[j], es[j])
    ensures Tiled(ss[k])
  {
    if k > 0 {
      TiledUpTo(ss, es, k - 1);
      assert StepAt(ss, es, k - 1);
      TiledStep(ss[k - 1], es[k - 1]);
    }
  }

  // ---- A loop that keeps up ----

  /** What the loop records always reads back. */
  ghost predicate Recorded(s: State) {
    Readable(s.virtuals) && 0 <= CurrentOffset(s.stdio) <= MAX_INT64 && |s.data| <= MAX_INT64
  }

  /** At most one range is recorded, and none between a pass and the rotation after it. */
  ghost predicate OneRange(s: State) {
    (s.passed ==> s.virtuals == map[]) && forall i, j :: i in s.virtuals && j in s.virtuals ==> i == j
  }

  /** A pass reads every range, finds it within the threshold, and drops it. */
  ghost predicate KeepsUp(e: Event) {
    e.Reclaim? ==> !e.pass.keep && TakesAll(e.pass, e.keys)
  }

  lemma RecordedStep(s: State, e: Event)
    requires Recorded(s) && Enabled(s, e)
    ensures Recorded(Step(s, e))
  {
    match e {
      case Append(_) =>
      case Reclaim(keys, p) => LeftIs(s.virtuals, keys, p);
      case Rotate(late, stamp, readFails, writes) =>
        var offset, cut := CurrentOffset(s.stdio), CutLocation(s.data + late, readFails);
        RecordedRanges(s.virtuals, offset, cut, stamp, writes);
        FetchEncoded(Range(cut, 0));
    }
  }

  lemma RecordedRanges(v: Virtuals, offset: nat, cut: int, stamp: string, w: Writes)
    requires Readable(v) && offset <= MAX_INT64 && 0 <= cut <= MAX_INT64
    ensures Readable(RecordedAfter(v, offset, cut, stamp, w))
  {
    CutRanges(v, offset, cut, stamp);
  }

  lemma OneRangeStep(s: State, e: Event)
    requires Recorded(s) && OneRange(s) && Enabled(s, e) && KeepsUp(e)
    ensures OneRange(Step(s, e))
  {
    if e.Reclaim? {
      TakesEverything(s.virtuals, e.keys, e.pass);
    }
  }

  lemma TakesEverything(v: Virtuals, keys: seq<string>, p: Pass)
    requires Readable(v) && InOrder(v, keys) && TakesAll(p, keys) && !p.keep
    ensures Left(v, keys, p) == map[] && forall k :: k in v ==> Drops(v, k, p)
  {
    LeftIs(v, keys, p);
    forall k | k in v ensures Drops(v, k, p) { assert k in keys; }
  }

  /** While every pass finds every range within the threshold and drops it, there is never more than one. */
  lemma {:induction false} AtMostOneRange(ss: seq<State>, es: seq<Event>, k: nat)
    requires IsRun(ss, es) && k < |ss| && forall j :: 0 <= j < k ==> KeepsUp(es[j])
    ensures Recorded(ss[k]) && OneRange(ss[k])
  {
    if k == 0 {
      FreshLoop(ss[0]);
    } else {
      AtMostOneRange(ss, es, k - 1);
      assert StepAt(ss, es, k - 1);
      LoopStep(ss[k - 1], es[k - 1]);
    }
  }

  lemma FreshLoop(s: State)
    requires Fresh(s)
    ensures Recorded(s) && OneRange(s)
  {
  }

  lemma LoopStep(s: State, e: Event)
    requires Recorded(s) && OneRange(s) && Enabled(s, e) && KeepsUp(e)
    ensures Recorded(Step(s, e)) && OneRange(Step(s, e))
  {
    RecordedStep(s, e);
    OneRangeStep(s, e);
  }

  /** What is reclaimed was delivered, in order, and what is not is as it was written. */
  ghost predicate Whole(s: State) {
    && s.base <= |s.data| == |s.written| && s.delivered == s.written[..s.base]
    && forall x :: s.base <= x < |s.data| ==> s.data[x] == s.written[x]
  }

  /** A single range is in offset order, whatever its key. */
  lemma SingleInOrder(v: Virtuals, keys: seq<string>)
    requires Readable(v) && InOrder(v, keys) && forall i, j :: i in v && j in v ==> i == j
    ensures OffsetOrder(RangesOf(v, keys))
  {
    if |keys| > 1 {
      assert keys[0] in v && keys[1] in v;
      Distinct(v, keys, 0, 1);
    }
  }

  lemma WholeStep(s: State, e: Event)
    requires Whole(s) && Tiled(s) && OneRange(s) && Enabled(s, e) && KeepsUp(e)
    requires e.Reclaim? ==> Delivers(e.pass, e.keys)
    ensures Whole(Step(s, e))
  {
    if e.Reclaim? {
      DeliveryStep(s, e);
    } else {
      var more := if e.Append? then e.bytes else e.late;
      assert (s.written + more)[..s.base] == s.written[..s.base];
    }
  }

  lemma DeliveryStep(s: State, e: Event)
    requires Whole(s) && Tiled(s) && OneRange(s)
    requires Enabled(s, e) && e.Reclaim? && !e.pass.keep && Delivers(e.pass, e.keys)
    ensures Whole(Step(s, e))
  {
    PassDelivers(s, e.keys, e.pass);
    ReachesOffset(s.virtuals, e.keys, e.pass, s.base, CurrentOffset(s.stdio));
    WholeFrom(s, Step(s, e));
  }

  lemma WholeFrom(s: State, s': State)
    requires Whole(s) && s.base <= s'.base <= |s.data| == |s'.data| && s'.written == s.written
    requires s'.delivered == s.delivered + s.data[s.base..s'.base] && s'.data[s'.base..] == s.data[s'.base..]
    ensures Whole(s')
  {
    assert s.data[s.base..s'.base] == s.written[s.base..s'.base];
    assert s.written[..s.base] + s.written[s.base..s'.base] == s.written[..s'.base];
    forall x | s'.base <= x < |s.data| ensures s'.data[x] == s.written[x] {
      assert s'.data[x] == s'.data[s'.base..][x - s'.base] == s.data[s'.base..][x - s'.base];
    }
  }

  /** Such a pass uploads exactly the bytes up to the active offset, and leaves those beyond it alone. */
  lemma PassDelivers(s: State, keys: seq<string>, p: Pass)
    requires Tiled(s) && OneRange(s) && s.blockSize > 0 && InOrder(s.virtuals, keys) && Delivers(p, keys)
    ensures |DataAfter(s.blockSize, s.data, Jobs(s.virtuals, keys, p), false, |Jobs(s.virtuals, keys, p)|)| == |s.data|
    ensures var js, offset := Jobs(s.virtuals, keys, p), CurrentOffset(s.stdio);
            && Joined(Uploads(s.blockSize, s.data, js, false, |js|)) == s.data[s.base..offset]
            && DataAfter(s.blockSize, s.data, js, false, |js|)[offset..] == s.data[offset..]
  {
    var js, offset := Jobs(s.virtuals, keys, p), CurrentOffset(s.stdio);
    SingleInOrder(s.virtuals, keys);
    JobsOf(s.virtuals, keys, p);
    assert Ranges(js) == RangesOf(s.virtuals, keys);
    ListedTiles(s.virtuals, keys, s.base, offset);
    RangesDelivered(s.blockSize, s.data, js, s.base, offset);
  }

  lemma RangesDelivered(blockSize: nat, data: seq<Byte>, js: seq<Job>, base: nat, offset: nat)
    requires blockSize > 0 && TilesSeq(Ranges(js), base, offset) && OffsetOrder(Ranges(js)) && AllDelivered(js)
    requires base <= offset <= |data| <= MAX_INT64
    ensures Joined(Uploads(blockSize, data, js, false, |js|)) == data[base..offset]
    ensures DataAfter(blockSize, data, js, false, |js|)[offset..] == data[offset..]
  {
    JoinedUploads(blockSize, data, js, base, offset, |js|);
    AllCovered(Ranges(js), base, offset);
    TailIntact(blockSize, data, js, base, offset);
  }

  lemma ReachesOffset(v: Virtuals, keys: seq<string>, p: Pass, base: nat, offset: nat)
    requires Tiles(v, base, offset) && base <= offset && InOrder(v, keys) && TakesAll(p, keys) && !p.keep
    ensures Reach(v, keys, p, base) == offset
  {
    ReachIs(v, keys, p, base, offset);
    TakesEverything(v, keys, p);
    if base < offset {
      assert Covered(v, offset - 1);
      var k :| k in v && Covers(RangeOf(v, k), offset - 1);
      assert k in keys;
    }
  }

  lemma {:induction false} WholeUpTo(ss: seq<State>, es: seq<Event>, k: nat)
    requires IsRun(ss, es) && k < |ss| && forall j :: 0 <= j < |es| ==> Thorough(ss[j], es[j])
    ensures Whole(ss[k]) && Tiled(ss[k])
  {
    if k > 0 {
      WholeUpTo(ss, es, k - 1);
      AtMostOneRange(ss, es, k - 1);
      assert StepAt(ss, es, k - 1);
      var s, e := ss[k - 1], es[k - 1];
      WholeStep(s, e);
      if e.Reclaim? { TakesEverything(s.virtuals, e.keys, e.pass); }
      TiledStep(s, e);
    }
  }

  /** Passes keep up and their uploads succeed, and rotations are sound. */
  ghost predicate Thorough(s: State, e: Event) {
    match e
    case Append(_) => true
    case Reclaim(keys, p) => !p.keep && Delivers(p, keys)
    case Rotate(_, _, _, _) => Sound(s, e)
  }

  /** Then not a byte is lost over the whole life of the file, however its keys sort: what the passes uploaded, what
      the final one uploads and the tail, put together, are everything ever written, in order. */
  lemma NothingLost(ss: seq<State>, es: seq<Event>, keys: seq<string>, p: Pass)
    requires IsRun(ss, es) && forall j :: 0 <= j < |es| ==> Thorough(ss[j], es[j])
    requires InOrder(ss[|es|].virtuals, keys) && p.mode.FinalUpload? && Delivers(p, keys)
    ensures ss[|es|].blockSize > 0
    ensures var s := ss[|es|];
            var js := Jobs(s.virtuals, keys, p);
            s.delivered + Joined(Uploads(s.blockSize, s.data, js, false, |js|)) +
            Slice(DataAfter(s.blockSize, s.data, js, false, |js|), Range(CurrentOffset(s.stdio), MAX_INT64)) == s.written
  {
    var s := ss[|es|];
    WholeUpTo(ss, es, |es|);
    AtMostOneRange(ss, es, |es|);
    SameBlocks(ss, es, |es|);
    LastUpload(s, keys, p);
  }

  lemma LastUpload(s: State, keys: seq<string>, p: Pass)
    requires Whole(s) && Tiled(s) && OneRange(s) && s.blockSize > 0 && InOrder(s.virtuals, keys) && Delivers(p, keys)
    ensures var js := Jobs(s.virtuals, keys, p);
            s.delivered + Joined(Uploads(s.blockSize, s.data, js, false, |js|)) +
            Slice(DataAfter(s.blockSize, s.data, js, false, |js|), Range(CurrentOffset(s.stdio), MAX_INT64)) == s.written
  {
    SingleInOrder(s.virtuals, keys);
    FinalUploadComplete(s.blockSize, s.data, s.virtuals, keys, p, s.base, CurrentOffset(s.stdio));
    assert s.data[s.base..] == s.written[s.base..];
    assert s.written[..s.base] + s.written[s.base..] == s.written;
  }

  lemma {:induction false} SameBlocks(ss: seq<State>, es: seq<Event>, k: nat)
    requires IsRun(ss, es) && k < |ss|
    ensures ss[k].blockSize == ss[0].blockSize > 0
  {
    if k > 0 {
      SameBlocks(ss, es, k - 1);
      assert StepAt(ss, es, k - 1);
    }
  }

  // ---- Files that lose bytes ----

  /** A rotation that cannot read the file cuts it at 0: every file that was rotated before loses its tiling. */
  lemma FailedReadBreaks(s: State, late: seq<Byte>, stamp: string)
    requires Tiled(s) && Outgrown(s) && CurrentOffset(s.stdio) > 0 && Enabled(s, Rotate(late, stamp, true, Both))
    ensures !Tiled(Step(s, Rotate(late, stamp, true, Both)))
  {
    TiledStep(s, Rotate(late, stamp, true, Both));
  }

  /** A file that ends in a newline is cut at its end. */
  lemma CutAtEnd(data: seq<Byte>)
    requires |data| >= MAX_SEEK && data[|data| - 1] == NEWLINE
    ensures CutOffset(data) == |data|
  {
  }

  lemma Extend(ss: seq<State>, es: seq<Event>, e: Event) returns (ss': seq<State>, es': seq<Event>)
    requires IsRun(ss, es) && Enabled(ss[|es|], e)
    ensures IsRun(ss', es') && ss'[|es'|] == Step(ss[|es|], e)
  {
    ss', es' := ss + [Step(ss[|es|], e)], es + [e];
    forall k | 0 <= k < |es'| ensures StepAt(ss', es', k) {
      if k < |es| { assert StepAt(ss, es, k); }
    }
  }

  /** A stretch of log, and the loop's next pass. */
  lemma AppendAndPass(ss: seq<State>, es: seq<Event>, more: seq<Byte>, keys: seq<string>, p: Pass)
    returns (ss': seq<State>, es': seq<Event>)
    requires IsRun(ss, es) && p.mode.NormalRotate?
    requires var s := ss[|es|];
             !s.passed && s.blockSize > 0 && |s.data| + |more| <= MAX_INT64 && InOrder(s.virtuals, keys)
    ensures IsRun(ss', es')
    ensures var s, s' := ss[|es|], ss'[|es'|];
            && s'.blockSize == s.blockSize && s'.stdio == s.stdio && s'.passed
            && s'.virtuals == Left(s.virtuals, keys, p)
            && s'.base == Reach(s.virtuals, keys, p, s.base) && |s'.data| == |s.data| + |more|
            && s'.data == var js := Jobs(s.virtuals, keys, p); DataAfter(s.blockSize, s.data + more, js, p.keep, |js|)
  {
    ss', es' := Extend(ss, es, Append(more));
    ss', es' := Extend(ss', es', Reclaim(keys, p));
  }

  /** One rotation, of a file that ends in a newline. */
  lemma RotateAtEnd(ss: seq<State>, es: seq<Event>, stamp: string) returns (ss': seq<State>, es': seq<Event>)
    requires IsRun(ss, es)
    requires var s := ss[|es|];
             && s.passed && Outgrown(s) && |s.data| <= MAX_INT64 && CurrentOffset(s.stdio) >= 0
             && |s.data| > 0 && s.data[|s.data| - 1] == NEWLINE
    ensures IsRun(ss', es')
    ensures var s, s' := ss[|es|], ss'[|es'|];
            && s'.blockSize == s.blockSize && s'.data == s.data && s'.base == s.base && !s'.passed
            && CurrentOffset(s'.stdio) == |s.data|
            && s'.virtuals == Cut(s.virtuals, CurrentOffset(s.stdio), |s.data|, stamp)
  {
    var s := ss[|es|];
    assert s.data + [] == s.data;
    CutAtEnd(s.data);
    FetchEncoded(Range(|s.data|, 0));
    ss', es' := Extend(ss, es, Rotate([], stamp, false, Both));
  }

  /** A file is cut at 0 when its last stretch of log has no newline in the search window; whatever the passes did,
      its ranges no longer tile it. */
  lemma NoNewlineBreaks(blockSize: nat, first: seq<Byte>, second: seq<Byte>, a: string, b: string, p: Pass, p': Pass)
    returns (ss: seq<State>, es: seq<Event>)
    requires blockSize > 0 && |first| == |second| == ROTATE_SIZE
    requires first[ROTATE_SIZE - 1] == NEWLINE && NEWLINE !in second
    requires p.mode.NormalRotate? && p'.mode.NormalRotate?
    ensures IsRun(ss, es) && Tiled(ss[|es|]) && Enabled(ss[|es|], Rotate([], b, false, Both))
    ensures !Tiled(Step(ss[|es|], Rotate([], b, false, Both)))
  {
    ss, es := FirstRotation(blockSize, first, a, p);
    var v := ss[|es|].virtuals;
    OneRecord(v, a);
    SingleSound(v, a, p', ROTATE_SIZE);
    ss, es := AppendAndPass(ss, es, second, [a], p');
    var s := ss[|es|];
    TailKept(blockSize, first + second, v, [a], p', ROTATE_SIZE);
    NoNewlineCut(s, second);
    TiledStep(s, Rotate([], b, false, Both));
  }

  /** A fresh file: one stretch of log, a pass that finds nothing, and the first rotation. */
  lemma FirstRotation(blockSize: nat, first: seq<Byte>, stamp: string, p: Pass) returns (ss: seq<State>, es: seq<Event>)
    requires blockSize > 0 && |first| == ROTATE_SIZE && first[ROTATE_SIZE - 1] == NEWLINE && p.mode.NormalRotate?
    ensures IsRun(ss, es)
    ensures var s := ss[|es|];
            && s.blockSize == blockSize && s.data == first && s.base == 0 && !s.passed
            && CurrentOffset(s.stdio) == ROTATE_SIZE && s.virtuals == Cut(map[], 0, ROTATE_SIZE, stamp)
  {
    ss, es := [State(blockSize, [], "", map[], 0, false, [], [])], [];
    ss, es := AppendAndPass(ss, es, first, [], p);
    assert [] + first == first;
    ss, es := RotateAtEnd(ss, es, stamp);
  }

  lemma OneRecord(v: Virtuals, stamp: string)
    requires v == Cut(map[], 0, ROTATE_SIZE, stamp)
    ensures Tiles(v, 0, ROTATE_SIZE) && InOrder(v, [stamp]) && RangeOf(v, stamp) == Range(0, ROTATE_SIZE)
  {
    assert Tiles(map[], 0, 0);
    RotationTiles(map[], 0, 0, ROTATE_SIZE, stamp, Both);
    CutRanges(map[], 0, ROTATE_SIZE, stamp);
  }

  /** A pass over a single range always keeps the tiling. */
  lemma SingleSound(v: Virtuals, key: string, p: Pass, offset: nat)
    requires Tiles(v, 0, offset) && InOrder(v, [key])
    ensures Reach(v, [key], p, 0) <= offset && Tiles(Left(v, [key], p), Reach(v, [key], p, 0), offset)
  {
    assert key in [key];
    ReachIs(v, [key], p, 0, offset);
    assert [key][..0] == [];
    PassTiles(v, [key], p, 0, offset);
  }

  /** No pass over a tiled file damages what lies beyond the offset. */
  lemma TailKept(blockSize: nat, data: seq<Byte>, v: Virtuals, keys: seq<string>, p: Pass, offset: nat)
    requires blockSize > 0 && Tiles(v, 0, offset) && offset <= |data| <= MAX_INT64 && forall k :: k in keys ==> k in v
    ensures var js := Jobs(v, keys, p);
            |DataAfter(blockSize, data, js, p.keep, |js|)| == |data| &&
            DataAfter(blockSize, data, js, p.keep, |js|)[offset..] == data[offset..]
  {
    var js := Jobs(v, keys, p);
    if p.keep {
      KeptData(blockSize, data, js, |js|);
    } else {
      JobsWithin(v, keys, p, offset);
      BeyondKept(blockSize, data, js, offset);
    }
  }

  lemma {:induction false} JobsWithin(v: Virtuals, keys: seq<string>, p: Pass, offset: nat)
    requires Tiles(v, 0, offset) && forall k :: k in keys ==> k in v
    ensures forall i :: 0 <= i < |Jobs(v, keys, p)| ==> Within(Jobs(v, keys, p)[i].range, 0, offset)
  {
    if keys != [] {
      var n := |keys| - 1;
      JobsWithin(v, keys[..n], p, offset);
      assert keys[n] in v && Within(RangeOf(v, keys[n]), 0, offset);
    }
  }

  lemma BeyondKept(blockSize: nat, data: seq<Byte>, js: seq<Job>, offset: nat)
    requires blockSize > 0 && offset <= |data| && forall i :: 0 <= i < |js| ==> Within(js[i].range, 0, offset)
    ensures DataAfter(blockSize, data, js, false, |js|)[offset..] == data[offset..]
  {
    var now := DataAfter(blockSize, data, js, false, |js|);
    forall x | offset <= x < |data| ensures now[x] == data[x] {
      ByteAfter(blockSize, data, js, |js|, x);
      forall j | 0 <= j < |js| ensures HoleEnd(blockSize, js[j].range) <= x { HoleStaysInside(blockSize, js[j].range); }
    }
  }

  lemma NoNewlineCut(s: State, tail: seq<Byte>)
    requires |s.data| >= |tail| >= MAX_SEEK && s.data[|s.data| - |tail|..] == tail && NEWLINE !in tail
    ensures CutOffset(s.data + []) == 0
  {
    assert s.data + [] == s.data;
    forall p | |s.data| - MAX_SEEK <= p < |s.data| ensures s.data[p] != NEWLINE {
      assert s.data[p] == s.data[|s.data| - |tail|..][p - (|s.data| - |tail|)];
    }
  }

  /** A loop that was stalled: its pass finds the first range older than the threshold and leaves it, and the file
      is rotated a second time. If the second time stamp sorts before the first one, the final upload loses the
      first range, for every block size that is smaller than the file. */
  lemma StalledLoopLoses(blockSize: nat, data: seq<Byte>, data': seq<Byte>, first: string, second: string,
                         p: Pass, stalled: Pass, final: Pass)
    returns (ss: seq<State>, es: seq<Event>)
    requires 0 < blockSize < 2 * ROTATE_SIZE && |data| == |data'| == ROTATE_SIZE && data[0] != 0
    requires data[ROTATE_SIZE - 1] == NEWLINE && data'[ROTATE_SIZE - 1] == NEWLINE && Before(second, first)
    requires p.mode.NormalRotate? && stalled.mode.NormalRotate? && !Due(stalled, first)
    requires final.mode.FinalUpload? && Delivers(final, [second, first])
    ensures IsRun(ss, es) && Tiled(ss[|es|])
    ensures var s := ss[|es|];
            && s.blockSize == blockSize && s.data == data + data' && InOrder(s.virtuals, [second, first])
            && !Safe(blockSize, s.data, Jobs(s.virtuals, [second, first], final))
  {
    ss, es := FirstRotation(blockSize, data, first, p);
    var v := ss[|es|].virtuals;
    OneRecord(v, first);
    PassedOver(blockSize, data + data', v, first, stalled);
    ss, es := AppendAndPass(ss, es, data', [first], stalled);
    ss, es := RotateAtEnd(ss, es, second);
    LastPassLoses(ss[|es|], first, second, final);
  }

  /** A pass that finds the only range too old does nothing. */
  lemma PassedOver(blockSize: nat, data: seq<Byte>, v: Virtuals, key: string, p: Pass)
    requires blockSize > 0 && key in v && !Due(p, key)
    ensures Left(v, [key], p) == v && Reach(v, [key], p, 0) == 0
    ensures var js := Jobs(v, [key], p); DataAfter(blockSize, data, js, p.keep, |js|) == data
  {
    assert [key][..0] == [];
  }

  lemma LastPassLoses(s: State, first: string, second: string, p: Pass)
    requires s.virtuals == Cut(Cut(map[], 0, ROTATE_SIZE, first), ROTATE_SIZE, 2 * ROTATE_SIZE, second) && s.base == 0
    requires |s.data| == CurrentOffset(s.stdio) == 2 * ROTATE_SIZE && s.data[0] != 0
    requires 0 < s.blockSize < 2 * ROTATE_SIZE && Before(second, first) && Delivers(p, [second, first])
    ensures Tiled(s) && InOrder(s.virtuals, [second, first])
    ensures !Safe(s.blockSize, s.data, Jobs(s.virtuals, [second, first], p))
  {
    BeforeTotal(second, first);
    assert first in [second, first] && second in [second, first];
    TwoTiles(s.virtuals, first, second, ROTATE_SIZE, 2 * ROTATE_SIZE);
    WrongOrderLoses(s.blockSize, s.data, s.virtuals, first, second, p, ROTATE_SIZE, 2 * ROTATE_SIZE);
  }

  /** So it goes with rotations on 31 January and 1 February. */
  lemma MonthEndLoses(blockSize: nat, january: seq<Byte>, february: seq<Byte>, p: Pass, stalled: Pass, final: Pass)
    returns (ss: seq<State>, es: seq<Event>)
    requires 0 < blockSize < 2 * ROTATE_SIZE && |january| == |february| == ROTATE_SIZE && january[0] != 0
    requires january[ROTATE_SIZE - 1] == NEWLINE && february[ROTATE_SIZE - 1] == NEWLINE
    requires p.mode.NormalRotate? && stalled.mode.NormalRotate? && !Due(stalled, JANUARY)
    requires final.mode.FinalUpload? && Delivers(final, [FEBRUARY, JANUARY])
    ensures IsRun(ss, es) && Tiled(ss[|es|]) && InOrder(ss[|es|].virtuals, [FEBRUARY, JANUARY])
    ensures ss[|es|].blockSize == blockSize
    ensures !Safe(blockSize, ss[|es|].data, Jobs(ss[|es|].virtuals, [FEBRUARY, JANUARY], final))
  {
    MonthEndOrder();
    ss, es := StalledLoopLoses(blockSize, january, february, JANUARY, FEBRUARY, p, stalled, final);
  }
}
