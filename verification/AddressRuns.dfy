/** Whole runs of assign, unassign, agent GC and ENI GC, in every interleaving. */
module AddressRuns {
  import opened Option
  import opened AddressModel
  import opened AddressInvariant

  /** Before anything is attached: only primary addresses are required to be where they belong. */
  ghost predicate Start(s: State) {
    && PrimariesOk(s) && s.branchOf == map[] && s.attached == {} && s.asgs == map[] && s.holders == map[]
    && s.classes == map[] && s.eips == map[] && s.unassigning == {} && s.moved == {}
  }

  ghost predicate IsRun(ss: seq<State>, es: seq<Event>) {
    && |ss| == |es| + 1 && Start(ss[0])
    && forall k :: 0 <= k < |es| ==> StepAt(ss, es, k)
  }

  ghost predicate StepAt(ss: seq<State>, es: seq<Event>, k: nat)
    requires k < |es| && |ss| == |es| + 1
  {
    Enabled(ss[k], es[k]) && ss[k + 1] == Step(ss[k], es[k])
  }

  lemma {:induction false} RunInv(ss: seq<State>, es: seq<Event>, k: nat)
    requires IsRun(ss, es) && k < |ss|
    ensures Inv(ss[k])
  {
    if k > 0 {
      RunInv(ss, es, k - 1);
      assert StepAt(ss, es, k - 1);
      InvStep(ss[k - 1], es[k - 1]);
    }
  }

  /** In every state no two assignments of one association share an address, and a static address in
      use is attached to the task that uses it. */
  lemma AddressesDistinct(ss: seq<State>, es: seq<Event>, k: nat, t: Task, u: Task, a: Addr)
    requires IsRun(ss, es) && k < |ss| && UsedBy(ss[k], t, a) && UsedBy(ss[k], u, a)
    requires ss[k].asgs[t].assoc == ss[k].asgs[u].assoc || IsStatic(ss[k], a)
    ensures t == u
  {
    RunInv(ss, es, k);
  }

  /** Every address in use on an attached association is on its ENI throughout a run, exactly when no
      unassignment moves a static address after it went to another task elsewhere, and no hard GC fails
      between taking a static address off and deleting its assignment. */
  lemma PlacementExact(ss: seq<State>, es: seq<Event>)
    requires IsRun(ss, es)
    ensures (forall k :: 0 <= k < |ss| ==> Placed(ss[k])) <==> (forall k :: 0 <= k < |es| ==> !Displaces(ss[k], es[k]))
  {
    if k :| 0 <= k < |es| && Displaces(ss[k], es[k]) {
      RunInv(ss, es, k);
      assert StepAt(ss, es, k);
      if Placed(ss[k]) { PlacedStep(ss[k], es[k]); }
      assert !Placed(ss[k]) || !Placed(ss[k + 1]);
    } else {
      forall k | 0 <= k < |ss| ensures Placed(ss[k]) { PlacedUntil(ss, es, k); }
    }
  }

  lemma {:induction false} PlacedUntil(ss: seq<State>, es: seq<Event>, k: nat)
    requires IsRun(ss, es) && k < |ss| && forall j :: 0 <= j < |es| ==> !Displaces(ss[j], es[j])
    ensures Placed(ss[k])
  {
    if k > 0 {
      PlacedUntil(ss, es, k - 1);
      RunInv(ss, es, k - 1);
      assert StepAt(ss, es, k - 1);
      PlacedStep(ss[k - 1], es[k - 1]);
    }
  }

  // ---- What ENI GC may take ----

  /** However stale its snapshot, ENI GC only takes addresses that are on that ENI, no primary address and,
      from an attached ENI, no address seen within the last two minutes except a static one that nobody
      uses. As long as nothing was displaced, it takes no address in use on an attached association. */
  lemma GcTakesOnlyIdle(ss: seq<State>, es: seq<Event>, k: nat, a: Addr)
    requires IsRun(ss, es) && k < |es| && Collecting(es[k]) && Enabled(ss[k], es[k]) && a in Collected(ss[k], es[k])
    ensures var s := ss[k];
            && (forall e :: e in s.config.primary ==> s.config.primary[e] != a)
            && (es[k].GcAttached? ==> OnEni(s, a, s.branchOf[es[k].assoc]) && !UsedIn(s, es[k].assoc, a))
            && (es[k].GcUnattached? ==> OnEni(s, a, es[k].eni))
            && (es[k].GcAttached? ==> NotSeenSince(s, a, s.now - GC_IDLE) || (IsStatic(s, a) && a !in s.holders))
            && (Placed(s) ==> forall t :: UsedBy(s, t, a) ==> s.asgs[t].assoc !in s.attached)
  {
    var s, e := ss[k], es[k];
    RunInv(ss, es, k);
    if e.GcAttached? { TakenUnused(s, e, a); }
    forall t | Placed(s) && UsedBy(s, t, a) ensures s.asgs[t].assoc !in s.attached {
      if s.asgs[t].assoc in s.attached { Collects(s, e, t, a); }
    }
    forall n | n in s.config.primary ensures s.config.primary[n] != a {
      assert OnEni(s, s.config.primary[n], n);
    }
  }

  predicate Collecting(e: Event) { e.GcAttached? || e.GcUnattached? }

  lemma TakenUnused(s: State, e: Event, a: Addr)
    requires HoldersOk(s) && e.GcAttached? && Enabled(s, e) && a in Collected(s, e)
    ensures !UsedIn(s, e.assoc, a)
  {
    forall t | t in s.asgs && s.asgs[t].assoc == e.assoc && s.asgs[t].v4 == Some(a) ensures a in s.holders || !IsStatic(s, a) {
      assert UsedBy(s, t, a);
    }
  }

  /** A static address that nobody uses is taken off the ENI to go home, not released. */
  lemma StraysGoHome(ss: seq<State>, es: seq<Event>, k: nat, a: Addr, e: Eni)
    requires IsRun(ss, es) && k < |es| && IsStatic(ss[k], a) && a !in ss[k].holders && OnEni(ss[k], a, e)
    requires es[k].GcAttached? || es[k].GcUnattached?
    requires es[k].GcAttached? ==> es[k].assoc in ss[k].branchOf && ss[k].branchOf[es[k].assoc] == e && a in es[k].snapshot
    requires es[k].GcUnattached? ==> es[k].eni == e && a in es[k].snapshot
    ensures a !in ss[k + 1].onEni && Enabled(ss[k + 1], Rehome(a))
    ensures OnEni(Step(ss[k + 1], Rehome(a)), a, ss[k].config.home[a])
  {
    assert StepAt(ss, es, k);
    assert a in Strays(ss[k], es[k].snapshot);
  }

  // ---- Idempotent replay ----

  /** Everything an assignment returns; the association fixes the VLAN and the trunk ENI. */
  datatype Response = Response(assoc: Assoc, eni: Eni, v4: Option<Addr>, v6: Option<Addr>, class_: ClassId, eip: Option<Eip>)

  /** fetchIdempotentAssignment finds a completed assignment and reads this response. */
  ghost predicate Replays(s: State, t: Task, r: Response) {
    && t in s.asgs && s.asgs[t].completed && s.asgs[t].assoc in s.branchOf
    && r.assoc == s.asgs[t].assoc && r.eni == s.branchOf[r.assoc] && r.v4 == s.asgs[t].v4 && r.v6 == s.asgs[t].v6
    && r.class_ in s.classes && s.classes[r.class_] == t
    && (if r.eip.Some? then r.eip.value in s.eips && s.eips[r.eip.value] == t
        else forall x :: x in s.eips ==> s.eips[x] != t)
  }

  ghost predicate HasClass(s: State, t: Task) {
    exists c :: c in s.classes && s.classes[c] == t
  }

  /** Every completed assignment, and no other, has a class id, and has one only. */
  ghost predicate ClassesOk(s: State) {
    && (forall t :: t in s.asgs && s.asgs[t].completed ==> HasClass(s, t))
    && (forall c :: c in s.classes ==> s.classes[c] in s.asgs && s.asgs[s.classes[c]].completed)
    && (forall c, d :: c in s.classes && d in s.classes && s.classes[c] == s.classes[d] ==> c == d)
  }

  /** Only completed assignments have an elastic address, and have one at most. */
  ghost predicate EipsOk(s: State) {
    && (forall x :: x in s.eips ==> s.eips[x] in s.asgs && s.asgs[s.eips[x]].completed)
    && (forall x, y :: x in s.eips && y in s.eips && s.eips[x] == s.eips[y] ==> x == y)
  }

  lemma ClassesStep(s: State, e: Event)
    requires ClassesOk(s) && Enabled(s, e)
    ensures ClassesOk(Step(s, e))
  {
    var s' := Step(s, e);
    forall t | t in s'.asgs && s'.asgs[t].completed ensures HasClass(s', t) {
      ClassKept(s, e, t);
    }
    forall c | c in s'.classes
      ensures s'.classes[c] in s'.asgs && s'.asgs[s'.classes[c]].completed
    {
      ClassOrigin(s, e, c);
    }
    forall c, d | c in s'.classes && d in s'.classes && s'.classes[c] == s'.classes[d] ensures c == d {
      ClassOrigin(s, e, c);
      ClassOrigin(s, e, d);
    }
  }

  predicate Touches(e: Event) {
    Completes(e) || e.Remove? || e.DropStatic? || e.Reallocate? || e.RemoveElastic?
  }

  /** Other steps leave what completed assignments have recorded alone. */
  lemma RecordsFramed(s: State, e: Event)
    requires Enabled(s, e) && !Touches(e)
    ensures var s' := Step(s, e);
            && s'.classes == s.classes && s'.eips == s.eips
            && (forall x :: x in s.branchOf ==> x in s'.branchOf && s'.branchOf[x] == s.branchOf[x])
            && (forall t :: t in s.asgs ==> t in s'.asgs && s'.asgs[t] == s.asgs[t])
  {
  }

  /** A class id stays with its assignment, or is the one this step gives to a new one. */
  lemma ClassOrigin(s: State, e: Event, c: ClassId)
    requires Enabled(s, e) && c in Step(s, e).classes
    requires c in s.classes ==> s.classes[c] in s.asgs && s.asgs[s.classes[c]].completed
    ensures var s' := Step(s, e);
            && s'.classes[c] in s'.asgs && s'.asgs[s'.classes[c]].completed
            && (if c in s.classes then s'.classes[c] == s.classes[c]
                else Completes(e) && e.extra.class_ == c && s'.classes[c] == e.task)
            && (Completes(e) ==> e.task in s.asgs && !s.asgs[e.task].completed)
  {
    if !Touches(e) { RecordsFramed(s, e); }
  }

  lemma ClassKept(s: State, e: Event, t: Task)
    requires Enabled(s, e) && t in Step(s, e).asgs && Step(s, e).asgs[t].completed
    requires t in s.asgs && s.asgs[t].completed ==> HasClass(s, t)
    ensures HasClass(Step(s, e), t)
  {
    var s' := Step(s, e);
    if t in s.asgs && s.asgs[t].completed {
      var c :| c in s.classes && s.classes[c] == t;
      assert c in s'.classes && s'.classes[c] == t;
    } else {
      assert s'.classes[e.extra.class_] == t;
    }
  }

  lemma EipsStep(s: State, e: Event)
    requires EipsOk(s) && Enabled(s, e)
    ensures EipsOk(Step(s, e))
  {
    var s' := Step(s, e);
    forall x | x in s'.eips ensures s'.eips[x] in s'.asgs && s'.asgs[s'.eips[x]].completed {
      EipKept(s, e, x);
    }
    forall x, y | x in s'.eips && y in s'.eips && s'.eips[x] == s'.eips[y] ensures x == y {
      EipKept(s, e, x);
      EipKept(s, e, y);
    }
  }

  /** An elastic address stays with its assignment, or is one that this step gives to a new one. */
  lemma EipKept(s: State, e: Event, x: Eip)
    requires Enabled(s, e) && x in Step(s, e).eips
    requires x in s.eips ==> s.eips[x] in s.asgs && s.asgs[s.eips[x]].completed
    ensures var s' := Step(s, e);
            && s'.eips[x] in s'.asgs && s'.asgs[s'.eips[x]].completed
            && (if x in s.eips then s'.eips[x] == s.eips[x] else Completes(e) && e.extra.eip == Some(x) && s'.eips[x] == e.task)
            && (Completes(e) ==> e.task in s.asgs && !s.asgs[e.task].completed)
  {
    if !Touches(e) { RecordsFramed(s, e); }
  }

  lemma {:induction false} RunRecords(ss: seq<State>, es: seq<Event>, k: nat)
    requires IsRun(ss, es) && k < |ss|
    ensures ClassesOk(ss[k]) && EipsOk(ss[k])
  {
    if k > 0 {
      RunRecords(ss, es, k - 1);
      assert StepAt(ss, es, k - 1);
      ClassesStep(ss[k - 1], es[k - 1]);
      EipsStep(ss[k - 1], es[k - 1]);
    }
  }

  /** Every completed assignment replays with exactly one response: all of it was recorded when it was
      completed. */
  lemma CompletedReplays(ss: seq<State>, es: seq<Event>, k: nat, t: Task) returns (r: Response)
    requires IsRun(ss, es) && k < |ss| && t in ss[k].asgs && ss[k].asgs[t].completed
    ensures Replays(ss[k], t, r) && forall q :: Replays(ss[k], t, q) ==> q == r
  {
    var s := ss[k];
    RunRecords(ss, es, k);
    RunInv(ss, es, k);
    assert HasClass(s, t);
    var c :| c in s.classes && s.classes[c] == t;
    var eip := None;
    if x :| x in s.eips && s.eips[x] == t { eip := Some(x); }
    r := Response(s.asgs[t].assoc, s.branchOf[s.asgs[t].assoc], s.asgs[t].v4, s.asgs[t].v6, c, eip);
  }

  /** While an assignment lasts, every step leaves its response as it is, except exactly the removal of
      its elastic address. */
  lemma ReplayStep(s: State, e: Event, t: Task, r: Response)
    requires AssignmentsOk(s) && Enabled(s, e) && Replays(s, t, r) && t in Step(s, e).asgs
    ensures Replays(Step(s, e), t, r) <==> !(e.RemoveElastic? && e.task == t && r.eip.Some?)
  {
    AssignmentKept(s, e, t, r.class_);
    if r.eip.Some? {
      ElasticKept(s, e, t, r.eip.value);
    } else {
      NoElastic(s, e, t);
    }
  }

  lemma AssignmentKept(s: State, e: Event, t: Task, c: ClassId)
    requires Enabled(s, e) && t in s.asgs && s.asgs[t].completed && t in Step(s, e).asgs
    requires s.asgs[t].assoc in s.branchOf && c in s.classes && s.classes[c] == t
    ensures var s' := Step(s, e);
            && s'.asgs[t] == s.asgs[t] && s'.asgs[t].assoc in s'.branchOf
            && s'.branchOf[s'.asgs[t].assoc] == s.branchOf[s.asgs[t].assoc]
            && c in s'.classes && s'.classes[c] == t
  {
    if !Touches(e) { RecordsFramed(s, e); }
  }

  lemma ElasticKept(s: State, e: Event, t: Task, x: Eip)
    requires Enabled(s, e) && t in s.asgs && t in Step(s, e).asgs && x in s.eips && s.eips[x] == t
    ensures x in Step(s, e).eips && Step(s, e).eips[x] == t <==> !(e.RemoveElastic? && e.task == t)
  {
    if !Touches(e) { RecordsFramed(s, e); }
  }

  lemma NoElastic(s: State, e: Event, t: Task)
    requires Enabled(s, e) && t in s.asgs && s.asgs[t].completed && forall x :: x in s.eips ==> s.eips[x] != t
    ensures forall x :: x in Step(s, e).eips ==> Step(s, e).eips[x] != t
  {
    if !Touches(e) { RecordsFramed(s, e); }
  }

  lemma {:induction false} ReplayStable(ss: seq<State>, es: seq<Event>, j: nat, k: nat, t: Task, r: Response)
    requires IsRun(ss, es) && j <= k < |ss| && Replays(ss[j], t, r)
    requires forall m :: j <= m <= k ==> t in ss[m].asgs
    requires forall m :: j <= m < k ==> es[m] != RemoveElastic(t)
    ensures Replays(ss[k], t, r)
  {
    if j < k {
      ReplayStable(ss, es, j, k - 1, t, r);
      RunInv(ss, es, k - 1);
      RunRecords(ss, es, k - 1);
      assert StepAt(ss, es, k - 1);
      ReplayStep(ss[k - 1], es[k - 1], t, r);
    }
  }
}
