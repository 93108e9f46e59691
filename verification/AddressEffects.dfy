/** What each step on addresses writes, column by column: which event puts an address on an ENI or takes it off,
    gives a task what it is answered with, or forgets it. */
module AddressEffects {
  import opened Option
  import opened AddressModel
  import opened AddressInvariant
  import opened AddressRuns

  // ---- What a task is answered with ----

  /** The answer that a completing event is asked to make: the task's association and its ENI, the address that the
      event names, and its extras. */
  function Promised(s: State, e: Event): Response
    requires Completes(e) && e.task in s.asgs && s.asgs[e.task].assoc in s.branchOf
  {
    var assoc := s.asgs[e.task].assoc;
    Response(assoc, s.branchOf[assoc], if e.AssignNone? then None else Some(e.addr),
             e.extra.v6, e.extra.class_, e.extra.eip)
  }

  lemma CompletionReplays(s: State, e: Event)
    requires EipsOk(s) && Enabled(s, e) && Completes(e)
    ensures Replays(Step(s, e), e.task, Promised(s, e))
  {
  }

  /** As long as an assignment lasts and keeps its elastic address, every replay returns what the event that
      completed it was given. */
  lemma ReplaysAsCompleted(ss: seq<State>, es: seq<Event>, j: nat, k: nat)
    requires IsRun(ss, es) && j < k < |ss| && Completes(es[j])
    requires forall m :: j < m <= k ==> es[j].task in ss[m].asgs
    requires forall m :: j < m < k ==> es[m] != RemoveElastic(es[j].task)
    ensures es[j].task in ss[j].asgs && ss[j].asgs[es[j].task].assoc in ss[j].branchOf
    ensures Replays(ss[k], es[j].task, Promised(ss[j], es[j]))
  {
    RunRecords(ss, es, j);
    assert StepAt(ss, es, j);
    CompletionReplays(ss[j], es[j]);
    ReplayStable(ss, es, j + 1, k, es[j].task, Promised(ss[j], es[j]));
  }

  /** Without its elastic address the rest of the answer is the same. */
  lemma ElasticRemoved(s: State, t: Task, r: Response)
    requires Enabled(s, RemoveElastic(t)) && Replays(s, t, r)
    ensures Replays(Step(s, RemoveElastic(t)), t, r.(eip := None))
  {
  }

  /** And every completed assignment was completed by such an event of the run. */
  lemma {:induction false} CompletedBy(ss: seq<State>, es: seq<Event>, k: nat, t: Task) returns (j: nat)
    requires IsRun(ss, es) && k < |ss| && t in ss[k].asgs && ss[k].asgs[t].completed
    ensures j < k && Completes(es[j]) && es[j].task == t && forall m :: j < m <= k ==> t in ss[m].asgs
    ensures es[j].task in ss[j].asgs && ss[j].asgs[t].assoc in ss[j].branchOf
  {
    assert StepAt(ss, es, k - 1);
    RunInv(ss, es, k - 1);
    CompletedStep(ss[k - 1], es[k - 1], t);
    if t in ss[k - 1].asgs && ss[k - 1].asgs[t].completed {
      j := CompletedBy(ss, es, k - 1, t);
    } else {
      j := k - 1;
    }
  }

  lemma CompletedStep(s: State, e: Event, t: Task)
    requires Enabled(s, e) && t in Step(s, e).asgs && Step(s, e).asgs[t].completed
    ensures (t in s.asgs && s.asgs[t].completed) || (Completes(e) && e.task == t)
  {
  }

  // ---- Assignments ----

  predicate Deletes(e: Event, t: Task) { (e.Remove? || e.DropStatic? || e.Reallocate?) && e.task == t }

  /** An assignment appears exactly by Insert, for the association asked for and with nothing given to it yet, is
      completed exactly by a completing event for it, and goes exactly when it is deleted. */
  lemma AssignmentsExact(s: State, e: Event, t: Task)
    requires Enabled(s, e)
    ensures var s' := Step(s, e);
            && (t !in s.asgs ==> (t in s'.asgs <==> e.Insert? && e.task == t))
            && (t !in s.asgs && t in s'.asgs ==> s'.asgs[t] == Assignment(e.assoc, false, None, None))
            && (t in s.asgs ==> (t !in s'.asgs <==> Deletes(e, t)))
            && (t in s.asgs && t in s'.asgs ==>
                  s'.asgs[t] == if Completes(e) && e.task == t
                                then Assignment(s.asgs[t].assoc, true, if e.AssignNone? then None else Some(e.addr), e.extra.v6)
                                else s.asgs[t])
  {
  }

  /** With an assignment go its static address' attachment, its class id and its elastic address, and nobody
      else's. */
  lemma DeletionCascades(s: State, e: Event, t: Task)
    requires Enabled(s, e) && Deletes(e, t)
    ensures var s' := Step(s, e);
            && (forall a :: a in s'.holders <==> a in s.holders && s.holders[a] != t)
            && (forall a :: a in s'.holders ==> s'.holders[a] == s.holders[a])
            && (forall c :: c in s'.classes <==> c in s.classes && s.classes[c] != t)
            && (forall c :: c in s'.classes ==> s'.classes[c] == s.classes[c])
            && (forall x :: x in s'.eips <==> x in s.eips && s.eips[x] != t)
            && (forall x :: x in s'.eips ==> s'.eips[x] == s.eips[x])
  {
  }

  /** A static address is attached to a task exactly by the event that gives it to the task. */
  lemma HoldersExact(s: State, e: Event, a: Addr)
    requires Enabled(s, e) && !e.Remove? && !e.DropStatic? && !e.Reallocate?
    ensures var s' := Step(s, e);
            && (a in s'.holders <==> a in s.holders || (e.AssignStatic? && e.addr == a))
            && (a in s'.holders ==> s'.holders[a] == if e.AssignStatic? && e.addr == a then e.task else s.holders[a])
  {
  }

  // ---- Where addresses are ----

  /** The event puts the address on the ENI. */
  predicate Puts(s: State, e: Event, a: Addr, eni: Eni)
    requires Enabled(s, e)
  {
    || (e.AssignNew? && a in e.news && eni == s.branchOf[s.asgs[e.task].assoc])
    || (e.NewUnused? && a in e.news && eni == e.eni)
    || (e.AssignStatic? && a == e.addr && eni == s.branchOf[s.asgs[e.task].assoc])
    || (e.StaticMoved? && a == e.addr && eni == e.eni)
    || (e.MoveStatic? && a == e.u.addr && eni == e.u.eni)
    || (e.Rehome? && a == e.addr && eni == s.config.home[a])
  }

  /** It takes the address off its ENI: hard GC that of its task, from the task's ENI, and ENI GC those below. */
  predicate Takes(s: State, e: Event, a: Addr)
    requires Enabled(s, e)
  {
    || (((e.Reallocate? && e.taken) || e.ReallocateAborted?) && s.asgs[e.task].v4 == Some(a) &&
        a in s.onEni && s.onEni[a] == s.branchOf[s.asgs[e.task].assoc])
    || (Collecting(e) && a in Collected(s, e))
  }

  lemma PlacesExact(s: State, e: Event, a: Addr, eni: Eni)
    requires Enabled(s, e)
    ensures var s' := Step(s, e);
            && (Puts(s, e, a, eni) ==> a in s'.onEni && s'.onEni[a] == eni)
            && (Takes(s, e, a) ==> a !in s'.onEni)
            && ((forall n :: !Puts(s, e, a, n)) && !Takes(s, e, a) ==>
                  (a in s'.onEni <==> a in s.onEni) && (a in s.onEni ==> s'.onEni[a] == s.onEni[a]))
  {
    if e.AssignNew? || e.AssignStatic? || e.NewUnused? || e.StaticMoved? || e.MoveStatic? || e.Rehome? {
      PutsOnly(s, e, a);
    } else {
      TakesOnly(s, e, a);
    }
  }

  /** These events put some address somewhere and move no other. */
  lemma PutsOnly(s: State, e: Event, a: Addr)
    requires Enabled(s, e)
    requires e.AssignNew? || e.AssignStatic? || e.NewUnused? || e.StaticMoved? || e.MoveStatic? || e.Rehome?
    ensures forall n :: Puts(s, e, a, n) ==> OnEni(Step(s, e), a, n)
    ensures (forall n :: !Puts(s, e, a, n)) ==>
              (a in Step(s, e).onEni <==> a in s.onEni) && (a in s.onEni ==> Step(s, e).onEni[a] == s.onEni[a])
  {
    var n := if e.AssignNew? || e.AssignStatic? then s.branchOf[s.asgs[e.task].assoc]
             else if e.MoveStatic? then e.u.eni
             else if e.Rehome? then s.config.home[e.addr] else e.eni;
    assert Puts(s, e, a, n) <==>
           if e.AssignNew? || e.NewUnused? then a in e.news else if e.MoveStatic? then a == e.u.addr else a == e.addr;
  }

  lemma TakesOnly(s: State, e: Event, a: Addr)
    requires Enabled(s, e)
    requires !(e.AssignNew? || e.AssignStatic? || e.NewUnused? || e.StaticMoved? || e.MoveStatic? || e.Rehome?)
    ensures if Takes(s, e, a) then a !in Step(s, e).onEni
            else (a in Step(s, e).onEni <==> a in s.onEni) && (a in s.onEni ==> Step(s, e).onEni[a] == s.onEni[a])
  {
  }

  // ---- What ENI GC takes ----

  predicate Stray(s: State, a: Addr) { a in s.config.home && a !in s.holders }

  /** No task of the association uses the address, and it was not seen within the last two minutes. */
  ghost predicate Unneeded(s: State, assoc: Assoc, a: Addr) {
    && !Stray(s, a)
    && (forall t :: t in s.asgs && s.asgs[t].assoc == assoc ==> s.asgs[t].v4 != Some(a))
    && (a in s.lastSeen ==> s.lastSeen[a] + 120 < s.now)
  }

  /** Some task uses the address on the ENI, by whatever association. */
  ghost predicate InUseOn(s: State, eni: Eni, a: Addr) {
    exists t :: t in s.asgs && s.asgs[t].v4 == Some(a) && s.asgs[t].assoc in s.branchOf && s.branchOf[s.asgs[t].assoc] == eni
  }

  /** From an attached ENI come off the strays it has of the snapshot, and all addresses of the snapshot that its
      association does not need, unless one of those is not there any more or in use on the ENI. */
  lemma CollectsFromAttached(s: State, assoc: Assoc, snapshot: set<Addr>, a: Addr)
    requires Enabled(s, GcAttached(assoc, snapshot))
    ensures var eni := s.branchOf[assoc];
            a in Collected(s, GcAttached(assoc, snapshot)) <==>
            && a in snapshot && a in s.onEni && s.onEni[a] == eni
            && (|| Stray(s, a)
                || (&& Unneeded(s, assoc, a)
                    && forall b :: b in snapshot && Unneeded(s, assoc, b) ==>
                         b in s.onEni && s.onEni[b] == eni && !InUseOn(s, eni, b)))
  {
    var eni, idle := s.branchOf[assoc], Idle(s, assoc, snapshot);
    forall b ensures b in idle <==> b in snapshot && Unneeded(s, assoc, b) { IdleIs(s, assoc, snapshot, b); }
    assert Blocked(s, eni, idle) <==> exists b :: b in idle && InUseOn(s, eni, b) by { BlockedIs(s, eni, idle); }
  }

  lemma IdleIs(s: State, assoc: Assoc, snapshot: set<Addr>, b: Addr)
    ensures b in Idle(s, assoc, snapshot) <==> b in snapshot && Unneeded(s, assoc, b)
  {
  }

  lemma BlockedIs(s: State, eni: Eni, addrs: set<Addr>)
    ensures Blocked(s, eni, addrs) <==> exists b :: b in addrs && InUseOn(s, eni, b)
  {
    if Blocked(s, eni, addrs) {
      var t :| t in s.asgs && s.asgs[t].v4.Some? && s.asgs[t].v4.value in addrs &&
               s.asgs[t].assoc in s.branchOf && s.branchOf[s.asgs[t].assoc] == eni;
      assert InUseOn(s, eni, s.asgs[t].v4.value);
    }
  }

  /** From an unattached ENI come off its strays, and the rest of the snapshot if all of it is still there. */
  lemma CollectsFromUnattached(s: State, eni: Eni, snapshot: set<Addr>, a: Addr)
    requires Enabled(s, GcUnattached(eni, snapshot))
    ensures a in Collected(s, GcUnattached(eni, snapshot)) <==>
            && a in snapshot && a in s.onEni && s.onEni[a] == eni
            && (Stray(s, a) || forall b :: b in snapshot && !Stray(s, b) ==> b in s.onEni && s.onEni[b] == eni)
  {
    var rest := snapshot - Strays(s, snapshot);
    assert forall b :: b in rest <==> b in snapshot && !Stray(s, b);
  }

  // ---- Times, and the other columns ----

  /** An address counts as seen now exactly if its assignment is removed or EC2 has just given it. */
  lemma TimesExact(s: State, e: Event, a: Addr)
    requires Enabled(s, e)
    ensures var s' := Step(s, e);
            var seen := (e.Remove? && (s.asgs[e.task].v4 == Some(a) || s.asgs[e.task].v6 == Some(a))) ||
                        (e.AssignNew? && a in e.news);
            && s'.now == (if e.Tick? then s.now + e.seconds else s.now)
            && (a in s'.lastSeen <==> a in s.lastSeen || seen)
            && (a in s'.lastSeen ==> s'.lastSeen[a] == if seen then s.now else s.lastSeen[a])
  {
  }

  /** Associations become attached to the ENI asked for and stop being so, and never change their ENI. */
  lemma AttachmentsExact(s: State, e: Event, x: Assoc)
    requires Enabled(s, e)
    ensures var s' := Step(s, e);
            && (x in s'.attached <==> (x in s.attached || (e.Attach? && e.assoc == x)) && e != Detach(x))
            && (x in s'.branchOf <==> x in s.branchOf || (e.Attach? && e.assoc == x))
            && (x in s'.branchOf ==> s'.branchOf[x] == if e.Attach? && e.assoc == x then e.eni else s.branchOf[x])
  {
  }

  /** What an unassignment has read is the task, the ENI and the address of the assignment at that time; it is
      carried out once, and only then can the assignment be dropped. */
  lemma UnassigningExact(s: State, e: Event, u: Unassigning, t: Task)
    requires Enabled(s, e)
    ensures var s' := Step(s, e);
            && (u in s'.unassigning <==>
                || (u in s.unassigning && e != MoveStatic(u))
                || (e == BeginUnassignStatic(u.task) && s.asgs[u.task].v4 == Some(u.addr) &&
                    s.branchOf[s.asgs[u.task].assoc] == u.eni))
            && (t in s'.moved <==> (t in s.moved && e != DropStatic(t)) || (e.MoveStatic? && e.u.task == t))
  {
  }

  // ---- That it can be done ----

  /** A pending task can be completed without an IPv4 address, with any free address of its ENI that is not static,
      or with any static one that nobody holds. */
  lemma CanComplete(s: State, t: Task, a: Addr, x: Extra)
    requires t in s.asgs && !s.asgs[t].completed && s.asgs[t].assoc in s.branchOf
    requires x.class_ !in s.classes && (x.eip.Some? ==> x.eip.value !in s.eips)
    ensures Enabled(s, AssignNone(t, x))
    ensures a in s.onEni && s.onEni[a] == s.branchOf[s.asgs[t].assoc] && a !in s.config.home &&
            (forall u :: u in s.asgs && s.asgs[u].assoc == s.asgs[t].assoc ==> s.asgs[u].v4 != Some(a)) ==>
              Enabled(s, AssignFree(t, a, x))
    ensures a in s.config.home && a !in s.holders ==> Enabled(s, AssignStatic(t, a, x))
  {
  }

  /** Time passes, agents and callers remove what is assigned, ENIs are detached, and EC2 has its own way with addresses
      that nobody holds, at any moment. */
  lemma CanHappen(s: State, n: nat, t: Task, x: Assoc, eni: Eni, a: Addr, news: seq<Addr>)
    ensures Enabled(s, Tick(n)) && Enabled(s, RemoveElastic(t))
    ensures t in s.asgs ==> Enabled(s, Remove(t))
    ensures x in s.attached ==> Enabled(s, Detach(x))
    ensures x in s.attached && x in s.branchOf && t !in s.asgs ==> Enabled(s, Insert(t, x))
    ensures (forall b :: b in news ==> b !in s.onEni) ==> Enabled(s, NewUnused(eni, news))
    ensures a in s.config.home && a !in s.holders ==> Enabled(s, StaticMoved(eni, a))
    ensures a in s.config.home && a !in s.onEni ==> Enabled(s, Rehome(a))
    ensures x !in s.branchOf && eni in s.config.primary &&
            !(exists y :: y in s.attached && y in s.branchOf && s.branchOf[y] == eni) ==>
              Enabled(s, Attach(x, eni))
  {
  }

  /** Hard GC can move any static address that is in use, and fail at it. */
  lemma CanReallocate(s: State, t: Task, a: Addr, taken: bool)
    requires t in s.asgs && s.asgs[t].v4 == Some(a) && a in s.config.home && s.asgs[t].assoc in s.branchOf
    ensures Enabled(s, Reallocate(t, taken)) && Enabled(s, ReallocateAborted(t))
  {
  }

  /** An unassignment of a static address goes through to the end. */
  lemma CanUnassignStatic(s: State, t: Task, a: Addr)
    requires AssignmentsOk(s) && HoldersOk(s) && t in s.asgs && s.asgs[t].v4 == Some(a) && a in s.config.home
    ensures Enabled(s, BeginUnassignStatic(t))
    ensures var u, s1 := Unassigning(t, s.branchOf[s.asgs[t].assoc], a), Step(s, BeginUnassignStatic(t));
            Enabled(s1, MoveStatic(u)) && Enabled(Step(s1, MoveStatic(u)), DropStatic(t))
  {
    assert UsedBy(s, t, a);
  }
}
