/** What every step on addresses keeps, and the two that can break it. */
module AddressInvariant {
  import opened Option
  import opened AddressModel

  /** Static addresses are nobody's primary address, and every primary address is on its ENI. */
  ghost predicate PrimariesOk(s: State) {
    forall e :: e in s.config.primary ==> !IsStatic(s, s.config.primary[e]) && OnEni(s, s.config.primary[e], e)
  }

  ghost predicate AttachedOk(s: State) {
    && (forall x :: x in s.attached ==> x in s.branchOf)
    && (forall x, y :: x in s.attached && y in s.attached && x in s.branchOf && y in s.branchOf ==>
          s.branchOf[x] == s.branchOf[y] ==> x == y)
  }

  ghost predicate AssignmentsOk(s: State) {
    forall t :: t in s.asgs ==> s.asgs[t].assoc in s.branchOf && (s.asgs[t].v4.Some? ==> s.asgs[t].completed)
  }

  /** A static address is used by exactly the task it is attached to. */
  ghost predicate HoldersOk(s: State) {
    && (forall t, a :: UsedBy(s, t, a) && IsStatic(s, a) ==> a in s.holders && s.holders[a] == t)
    && (forall a :: a in s.holders ==> IsStatic(s, a) && UsedBy(s, s.holders[a], a))
    && (forall u :: u in s.unassigning ==> IsStatic(s, u.addr))
  }

  /** No two assignments of one association share an address. */
  ghost predicate Distinct(s: State) {
    forall t, u, a :: UsedBy(s, t, a) && UsedBy(s, u, a) && s.asgs[t].assoc == s.asgs[u].assoc ==> t == u
  }

  ghost predicate Inv(s: State) {
    PrimariesOk(s) && AttachedOk(s) && AssignmentsOk(s) && HoldersOk(s) && Distinct(s)
  }

  /** Every address in use on an attached association is on that association's ENI. */
  ghost predicate Placed(s: State) {
    forall t, a :: UsedBy(s, t, a) && s.asgs[t].assoc in s.attached && s.asgs[t].assoc in s.branchOf ==>
      OnEni(s, a, s.branchOf[s.asgs[t].assoc])
  }

  lemma InvStep(s: State, e: Event)
    requires Inv(s) && Enabled(s, e)
    ensures Inv(Step(s, e))
  {
    PrimariesStep(s, e);
    AttachedStep(s, e);
    AssignmentsStep(s, e);
    HoldersStep(s, e);
    DistinctStep(s, e);
  }

  lemma PrimariesStep(s: State, e: Event)
    requires PrimariesOk(s) && HoldersOk(s) && Enabled(s, e)
    ensures PrimariesOk(Step(s, e))
  {
    var s' := Step(s, e);
    forall n | n in s'.config.primary ensures !IsStatic(s', s'.config.primary[n]) && OnEni(s', s'.config.primary[n], n) {
      assert !IsStatic(s, s.config.primary[n]) && OnEni(s, s.config.primary[n], n);
    }
  }

  lemma AttachedStep(s: State, e: Event)
    requires AttachedOk(s) && Enabled(s, e)
    ensures AttachedOk(Step(s, e))
  {
  }

  lemma AssignmentsStep(s: State, e: Event)
    requires AttachedOk(s) && AssignmentsOk(s) && Enabled(s, e)
    ensures AssignmentsOk(Step(s, e))
  {
    forall t | t in Step(s, e).asgs
      ensures Step(s, e).asgs[t].assoc in Step(s, e).branchOf && (Step(s, e).asgs[t].v4.Some? ==> Step(s, e).asgs[t].completed)
    {
      AssignmentOk(s, e, t);
    }
  }

  lemma AssignmentOk(s: State, e: Event, t: Task)
    requires Enabled(s, e) && t in Step(s, e).asgs
    requires t in s.asgs ==> s.asgs[t].assoc in s.branchOf && (s.asgs[t].v4.Some? ==> s.asgs[t].completed)
    ensures Step(s, e).asgs[t].assoc in Step(s, e).branchOf && (Step(s, e).asgs[t].v4.Some? ==> Step(s, e).asgs[t].completed)
  {
  }

  lemma HoldersStep(s: State, e: Event)
    requires AssignmentsOk(s) && HoldersOk(s) && Enabled(s, e)
    ensures HoldersOk(Step(s, e))
  {
    var s' := Step(s, e);
    forall t, a | UsedBy(s', t, a) && IsStatic(s', a) ensures a in s'.holders && s'.holders[a] == t {
      UserHolds(s, e, t, a);
    }
    forall a | a in s'.holders ensures IsStatic(s', a) && UsedBy(s', s'.holders[a], a) {
      HolderUses(s, e, a);
    }
    forall u | u in s'.unassigning ensures IsStatic(s', u.addr) {
      assert u in s.unassigning ==> IsStatic(s, u.addr);
    }
  }

  lemma UserHolds(s: State, e: Event, t: Task, a: Addr)
    requires Enabled(s, e) && UsedBy(Step(s, e), t, a) && IsStatic(s, a)
    requires UsedBy(s, t, a) ==> a in s.holders && s.holders[a] == t
    ensures a in Step(s, e).holders && Step(s, e).holders[a] == t
  {
  }

  lemma HolderUses(s: State, e: Event, a: Addr)
    requires Enabled(s, e) && a in Step(s, e).holders && (a in s.holders ==> IsStatic(s, a) && UsedBy(s, s.holders[a], a))
    requires Completes(e) && e.task in s.asgs ==> s.asgs[e.task].v4.None?
    ensures IsStatic(Step(s, e), a) && UsedBy(Step(s, e), Step(s, e).holders[a], a)
  {
  }

  lemma DistinctStep(s: State, e: Event)
    requires HoldersOk(s) && Distinct(s) && Enabled(s, e)
    ensures Distinct(Step(s, e))
  {
    var s' := Step(s, e);
    forall t, u, a | UsedBy(s', t, a) && UsedBy(s', u, a) && s'.asgs[t].assoc == s'.asgs[u].assoc ensures t == u {
      assert s.asgs[t] == s'.asgs[t] ==> UsedBy(s, t, a);
      assert s.asgs[u] == s'.asgs[u] ==> UsedBy(s, u, a);
    }
  }

  // ---- Where addresses are ----

  /** The event moves or takes a static address off the ENI of a task that uses it on an attached
      association: an unassignment whose read is out of date by now, or a hard GC whose transaction fails
      after EC2 acted. */
  ghost predicate Displaces(s: State, e: Event) {
    && Enabled(s, e)
    && match e
       case MoveStatic(u) => u.addr in s.holders && OnAttached(s, s.holders[u.addr]) &&
                             s.branchOf[s.asgs[s.holders[u.addr]].assoc] != u.eni
       case ReallocateAborted(task) => OnAttached(s, task)
       case _ => false
  }

  predicate OnAttached(s: State, t: Task) {
    t in s.asgs && s.asgs[t].assoc in s.attached && s.asgs[t].assoc in s.branchOf
  }

  /** Every step keeps the addresses in use in place, except exactly those two. */
  lemma PlacedStep(s: State, e: Event)
    requires Inv(s) && Enabled(s, e) && Placed(s)
    ensures Placed(Step(s, e)) <==> !Displaces(s, e)
  {
    var s' := Step(s, e);
    if Displaces(s, e) {
      var t := if e.MoveStatic? then s.holders[e.u.addr] else e.task;
      var a := if e.MoveStatic? then e.u.addr else s.asgs[t].v4.value;
      assert UsedBy(s, t, a) && OnEni(s, a, s.branchOf[s.asgs[t].assoc]);
      assert UsedBy(s', t, a) && !OnEni(s', a, s'.branchOf[s'.asgs[t].assoc]);
    } else {
      forall t, a | UsedBy(s', t, a) && s'.asgs[t].assoc in s'.attached && s'.asgs[t].assoc in s'.branchOf
        ensures OnEni(s', a, s'.branchOf[s'.asgs[t].assoc])
      {
        UseOrigin(s, e, t, a);
        if UsedBy(s, t, a) { StaysPlaced(s, e, t, a); }
      }
    }
  }

  lemma StaysPlaced(s: State, e: Event, t: Task, a: Addr)
    requires AttachedOk(s) && HoldersOk(s) && Enabled(s, e) && Placed(s) && !Displaces(s, e)
    requires UsedBy(s, t, a) && OnAttached(s, t) && t in Step(s, e).asgs
    ensures OnEni(Step(s, e), a, s.branchOf[s.asgs[t].assoc])
  {
    assert IsStatic(s, a) ==> a in s.holders && s.holders[a] == t;
    if e.GcAttached? || e.GcUnattached? {
      Collects(s, e, t, a);
    } else if e.Reallocate? || e.ReallocateAborted? {
      assert UsedBy(s, e.task, s.asgs[e.task].v4.value);
    }
    StaysOn(s, e, t, a, s.branchOf[s.asgs[t].assoc]);
  }

  /** A use is an old one in an association that goes on as before, or one that this step begins. */
  lemma UseOrigin(s: State, e: Event, t: Task, a: Addr)
    requires Enabled(s, e) && UsedBy(Step(s, e), t, a) && Step(s, e).asgs[t].assoc in Step(s, e).attached
    requires t in s.asgs ==> s.asgs[t].assoc in s.branchOf
    ensures var s' := Step(s, e);
            && s'.asgs[t].assoc in s'.branchOf
            && if UsedBy(s, t, a)
               then OnAttached(s, t) && s'.asgs[t].assoc == s.asgs[t].assoc &&
                    s'.branchOf[s.asgs[t].assoc] == s.branchOf[s.asgs[t].assoc]
               else Completes(e) && e.task == t && OnEni(s', a, s'.branchOf[s'.asgs[t].assoc])
  {
  }

  lemma StaysOn(s: State, e: Event, t: Task, a: Addr, eni: Eni)
    requires Enabled(s, e) && !Displaces(s, e) && OnAttached(s, t) && s.branchOf[s.asgs[t].assoc] == eni && OnEni(s, a, eni)
    requires t in Step(s, e).asgs && UsedBy(s, t, a) && (IsStatic(s, a) ==> a in s.holders && s.holders[a] == t)
    requires e.GcAttached? || e.GcUnattached? ==> a !in Collected(s, e)
    requires e.MoveStatic? ==> IsStatic(s, e.u.addr)
    requires (e.Reallocate? || e.ReallocateAborted?) && s.asgs[e.task].v4.value == a ==> e.task == t
    ensures OnEni(Step(s, e), a, eni)
  {
  }

  /** Garbage collection leaves every address in use on an attached association where it is. */
  lemma Collects(s: State, e: Event, t: Task, a: Addr)
    requires AttachedOk(s) && HoldersOk(s) && Enabled(s, e) && Placed(s) && (e.GcAttached? || e.GcUnattached?)
    requires UsedBy(s, t, a) && s.asgs[t].assoc in s.attached
    ensures a !in Collected(s, e)
  {
    var x := s.asgs[t].assoc;
    assert OnEni(s, a, s.branchOf[x]);
    assert IsStatic(s, a) ==> a in s.holders;
    if e.GcAttached? && s.branchOf[x] == s.branchOf[e.assoc] {
      assert x == e.assoc;
      assert UsedIn(s, e.assoc, a);
    }
  }
}
