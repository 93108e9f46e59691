/** Agent-driven garbage collection of the assignments on one trunk ENI: the soft form says what it would
    remove, the hard form first moves static addresses home one by one and then deletes the rest. */
module GcV3 {
  import opened Option
  import opened AddressModel
  import opened AddressInvariant

  type Trunk = nat

  /** How one round of tryReallocateStaticAssignment goes. EC2 is called before the deletion commits: taken
      says whether the address came off, and home whether it got there afterwards. */
  datatype Round =
    | Fine(taken: bool, home: bool)
    | BeforeEc2                // an error before EC2 is called
    | AfterEc2                 // EC2 took the address off, the deletion fails
    | HomeRefused(taken: bool) // an error after the deletion has committed

  /** Assignments on the trunk whose task is not running. */
  function Garbage(asgs: map<Task, Assignment>, trunkOf: map<Assoc, Trunk>, trunk: Trunk, running: set<Task>): set<Task> {
    set t | t in asgs && asgs[t].assoc in trunkOf && trunkOf[asgs[t].assoc] == trunk && t !in running
  }

  /** Those of them that use a static address. */
  function Movable(s: State, trunkOf: map<Assoc, Trunk>, trunk: Trunk, running: set<Task>): set<Task> {
    set t | t in Garbage(s.asgs, trunkOf, trunk, running) && HasStatic(s, t)
  }

  lemma GarbageWithout(s: State, s': State, trunkOf: map<Assoc, Trunk>, trunk: Trunk, running: set<Task>, gone: set<Task>)
    requires Gone(s, s', gone)
    ensures Garbage(s'.asgs, trunkOf, trunk, running) == Garbage(s.asgs, trunkOf, trunk, running) - gone
    ensures Movable(s', trunkOf, trunk, running) == Movable(s, trunkOf, trunk, running) - gone
  {
  }

  /** What is left to move after some rounds. */
  lemma MovableWithout(s: State, s': State, trunkOf: map<Assoc, Trunk>, trunk: Trunk, running: set<Task>, moved: set<Task>)
    requires Rounded(s, s', Movable(s, trunkOf, trunk, running), moved)
    ensures var left := Movable(s, trunkOf, trunk, running) - moved;
            && Movable(s', trunkOf, trunk, running) == left
            && |Movable(s, trunkOf, trunk, running)| == |moved| + |left|
  {
    GarbageWithout(s, s', trunkOf, trunk, running, moved);
    var movable := Movable(s, trunkOf, trunk, running);
    assert movable == moved + (movable - moved);
  }

  /** The state after a round that selected an assignment. */
  function After(s: State, t: Task, round: Round): State
    requires HasStatic(s, t)
  {
    var a := s.asgs[t].v4.value;
    match round
    case BeforeEc2 => s
    case AfterEc2 => s.(onEni := TakenOff(s, t))
    case HomeRefused(taken) => Delete(s, t).(onEni := if taken then TakenOff(s, t) else s.onEni)
    case Fine(taken, home) =>
      var onEni := if taken then TakenOff(s, t) else s.onEni;
      Delete(s, t).(onEni := if home && a !in onEni then onEni[a := s.config.home[a]] else onEni)
  }

  /** A round takes steps of the address model, and moves no address but the one of its assignment. */
  lemma RoundSteps(s: State, t: Task, round: Round)
    requires HasStatic(s, t)
    ensures var a := s.asgs[t].v4.value;
            && (round.AfterEc2? ==> After(s, t, round) == Step(s, ReallocateAborted(t)))
            && (round.HomeRefused? ==> After(s, t, round) == Step(s, Reallocate(t, round.taken)))
            && (round.Fine? ==> var s' := Step(s, Reallocate(t, round.taken));
                                After(s, t, round) == if round.home && Enabled(s', Rehome(a)) then Step(s', Rehome(a)) else s')
            && forall b, e :: b != a ==> OnEni(After(s, t, round), b, e) == OnEni(s, b, e)
  {
  }

  predicate Deletes(round: Round) { round.Fine? || round.HomeRefused? }

  /** The addresses of some assignments. */
  function Addresses(asgs: map<Task, Assignment>, ts: set<Task>): set<Addr> {
    (set t | t in ts && t in asgs && asgs[t].v4.Some? :: asgs[t].v4.value) +
    (set t | t in ts && t in asgs && asgs[t].v6.Some? :: asgs[t].v6.value)
  }

  /** The branch ENIs of some assignments. */
  function Enis(s: State, ts: set<Task>): set<Eni> {
    set t | t in ts && t in s.asgs && s.asgs[t].assoc in s.branchOf :: s.branchOf[s.asgs[t].assoc]
  }

  /** The times at which addresses or ENIs were last used, after some of them are used now. */
  ghost predicate Touched(before: map<nat, int>, after: map<nat, int>, keys: set<nat>, now: int) {
    && after.Keys == before.Keys + keys
    && forall k :: k in after ==> after[k] == if k in keys then now else before[k]
  }

  /** Nothing has changed but these assignments, what hangs on them, and where addresses are. */
  ghost predicate Gone(s: State, s': State, ts: set<Task>) {
    && s'.asgs == s.asgs - ts && s'.config == s.config && s'.branchOf == s.branchOf && s'.attached == s.attached
    && s'.now == s.now && s'.lastSeen == s.lastSeen && s'.unassigning == s.unassigning && s'.moved == s.moved
    && Cascaded(s.holders, s'.holders, ts) && Cascaded(s.classes, s'.classes, ts) && Cascaded(s.eips, s'.eips, ts)
  }

  /** Exactly the rows of these tasks are gone. */
  ghost predicate Cascaded(m: map<nat, Task>, m': map<nat, Task>, ts: set<Task>) {
    && (forall k :: k in m' <==> k in m && m[k] !in ts)
    && forall k :: k in m' ==> m'[k] == m[k]
  }

  /** No address has moved but some of those that the tasks use, and of those that did each is off every ENI, or home. */
  ghost predicate Relocated(s: State, s': State, ts: set<Task>) {
    forall a: Addr :: !SamePlace(s, s', a) ==>
      (exists t :: t in ts && t in s.asgs && s.asgs[t].v4 == Some(a)) && HomeOrNowhere(s', a)
  }

  ghost predicate SamePlace(s: State, s': State, a: Addr) {
    (a in s'.onEni <==> a in s.onEni) && (a in s.onEni ==> s'.onEni[a] == s.onEni[a])
  }

  ghost predicate HomeOrNowhere(s: State, a: Addr) {
    a in s.onEni ==> a in s.config.home && s.onEni[a] == s.config.home[a]
  }

  class Service {
    const trunkOf: map<Assoc, Trunk> // branch_eni_attachments, whatever the state of the row
    var s: State
    var lastUsed: map<Eni, int>      // branch_eni_last_used

    constructor (trunkOf: map<Assoc, Trunk>, s: State)
      ensures this.trunkOf == trunkOf && this.s == s && lastUsed == map[]
    {
      this.trunkOf, this.s, lastUsed := trunkOf, s, map[];
    }

    method SoftGC(trunk: Trunk, running: set<Task>) returns (removed: seq<Task>)
      ensures forall t :: t in removed <==>
                t in s.asgs && s.asgs[t].assoc in trunkOf && trunkOf[s.asgs[t].assoc] == trunk && t !in running
      ensures forall i, j :: 0 <= i < j < |removed| ==> removed[i] != removed[j]
    {
      removed := [];
      var rows := Garbage(s.asgs, trunkOf, trunk, running);
      while rows != {}
        invariant forall t :: t in removed || t in rows <==> t in Garbage(s.asgs, trunkOf, trunk, running)
        invariant forall t :: t in removed ==> t !in rows
        invariant forall i, j :: 0 <= i < j < |removed| ==> removed[i] != removed[j]
        decreases |rows|
      {
        var t :| t in rows;
        removed, rows := removed + [t], rows - {t};
      }
    }

    /** One round: an error before the selection, nothing left to move, or the steps of the address model
        for one stale static assignment, in the order EC2, database, EC2. */
    method TryReallocate(trunk: Trunk, running: set<Task>, round: Round) returns (r: Result<bool, ()>, chosen: Option<Task>)
      modifies this`s
      ensures var movable := Movable(old(s), trunkOf, trunk, running);
              && (chosen.None? <==> round.BeforeEc2? || movable == {})
              && (chosen.Some? ==> chosen.value in movable && s == After(old(s), chosen.value, round))
              && (chosen.Some? ==> chosen.value in old(s).asgs && chosen.value !in running &&
                                   var r := old(s).asgs[chosen.value];
                                   && r.assoc in trunkOf && trunkOf[r.assoc] == trunk
                                   && r.v4.Some? && r.v4.value in s.config.home)
              && (chosen.None? ==> s == old(s))
              && (r.Err? <==> round.BeforeEc2? || (movable != {} && !round.Fine?))
              && (r.Ok? ==> (r.value <==> chosen.Some?))
    {
      if round.BeforeEc2? {
        return Err(()), None;
      }
      var rows := Movable(s, trunkOf, trunk, running);
      if rows == {} {
        return Ok(false), None;
      }
      var t :| t in rows;
      var a := s.asgs[t].v4.value;
      if round.AfterEc2? || round.taken {
        s := s.(onEni := TakenOff(s, t));
      }
      if round.AfterEc2? {
        return Err(()), Some(t);
      }
      s := Delete(s, t);
      if round.HomeRefused? {
        return Err(()), Some(t);
      }
      if round.home && a !in s.onEni {
        s := s.(onEni := s.onEni[a := s.config.home[a]]);
      }
      return Ok(true), Some(t);
    }

    /** A round after others that have moved some of the assignments. */
    method Round(trunk: Trunk, running: set<Task>, round: Round, moved: set<Task>, ghost start: State)
      returns (r: Result<bool, ()>, moved': set<Task>)
      requires Rounded(start, s, Movable(start, trunkOf, trunk, running), moved)
      modifies this`s
      ensures var movable := Movable(start, trunkOf, trunk, running);
              && Rounded(start, s, movable, moved')
              && (r.Ok? && r.value ==> round.Fine? && |moved'| == |moved| + 1 <= |movable|)
              && (r.Ok? && !r.value ==> !round.BeforeEc2? && moved' == moved == movable)
              && (r.Err? ==> round.BeforeEc2? || (|moved| < |movable| && !round.Fine?))
    {
      MovableWithout(start, s, trunkOf, trunk, running, moved);
      ghost var now := s;
      var chosen;
      r, chosen := TryReallocate(trunk, running, round);
      moved' := moved;
      if chosen.Some? {
        RoundedMore(start, now, Movable(start, trunkOf, trunk, running), moved, chosen.value, round);
        if Deletes(round) {
          moved' := moved + {chosen.value};
        }
      }
      MovableWithout(start, s, trunkOf, trunk, running, moved');
    }

    /** Every round moves one more, until none is left or one fails. */
    method ReallocateStatics(trunk: Trunk, running: set<Task>, rounds: nat -> Round) returns (ok: bool, moved: set<Task>)
      modifies this`s
      ensures var movable := Movable(old(s), trunkOf, trunk, running);
              && Rounded(old(s), s, movable, moved)
              && (ok ==> moved == movable)
              && (ok <==> AllFine(rounds, |movable|))
    {
      ghost var start, movable := s, Movable(s, trunkOf, trunk, running);
      var i := 0;
      moved, ok := {}, true;
      while true
        invariant Rounded(start, s, movable, moved) && i == |moved| <= |movable|
        invariant forall j :: 0 <= j < i ==> rounds(j).Fine?
        decreases |movable| - i
      {
        var r;
        r, moved := Round(trunk, running, rounds(i), moved, start);
        if r.Err? {
          return false, moved;
        }
        if !r.value {
          return;
        }
        i := i + 1;
      }
    }

    /** hardGC: it answers exactly when no round fails and its transaction commits, and then everything
        that does not run is gone from the trunk; the answer leaves out the static assignments moved. Whatever
        fails, a running task keeps its assignment with all that hangs on it, and so does a task of another
        trunk; and no address moves but static ones of tasks that do not run, off their ENI or home. */
    method HardGC(trunk: Trunk, running: set<Task>, rounds: nat -> Round, commits: bool)
      returns (removed: Option<set<Task>>, moved: set<Task>)
      modifies this
      ensures var movable, garbage := Movable(old(s), trunkOf, trunk, running), Garbage(old(s).asgs, trunkOf, trunk, running);
              && (removed.Some? <==> AllFine(rounds, |movable|) && commits)
              && moved <= movable
              && (removed.Some? ==>
                    && moved == movable && removed.value == garbage - moved
                    && s.asgs == old(s).asgs - garbage && Garbage(s.asgs, trunkOf, trunk, running) == {}
                    && Touched(old(s).lastSeen, s.lastSeen, Addresses(old(s).asgs, garbage - moved), s.now)
                    && Touched(old(lastUsed), lastUsed, Enis(old(s), garbage - moved), s.now))
              && (removed.None? ==> Gone(old(s), s, moved) && lastUsed == old(lastUsed))
      ensures Spares(old(s), s, trunkOf, trunk, running)
      ensures Accounts(old(s), s, trunkOf, trunk, running, removed, moved)
      ensures removed.Some? ==> Stamps(old(s), s, old(lastUsed), lastUsed, removed.value)
    {
      var ok;
      ghost var start := s;
      ok, moved := ReallocateStatics(trunk, running, rounds);
      ghost var mid := s;
      if !ok || !commits {
        MovedOnly(start, s, trunkOf, trunk, running, moved);
        return None, moved;
      }
      var garbage := Garbage(s.asgs, trunkOf, trunk, running);
      lastUsed := Touch(lastUsed, Enis(s, garbage), s.now);
      var seen := Touch(s.lastSeen, Addresses(s.asgs, garbage), s.now);
      s := DeleteAll(s, garbage).(lastSeen := seen);
      removed := Some(garbage);
      LastRound(start, mid, trunkOf, trunk, running, moved);
      Answered(start, mid, s, trunkOf, trunk, running, moved);
      StampsAll(start, s, old(lastUsed), lastUsed, garbage);
    }
  }

  /** What rounds may have changed: some of the movable assignments are gone, and nothing else. */
  ghost predicate Rounded(start: State, s: State, movable: set<Task>, moved: set<Task>) {
    moved <= movable <= start.asgs.Keys && Gone(start, s, moved) && Relocated(start, s, movable)
  }

  lemma RoundedMore(start: State, s: State, movable: set<Task>, moved: set<Task>, t: Task, round: Round)
    requires Rounded(start, s, movable, moved) && HasStatic(s, t) && t in movable
    ensures Rounded(start, After(s, t, round), movable, if Deletes(round) then moved + {t} else moved)
  {
    AfterGone(start, s, moved, t, round);
    AfterRelocated(start, s, movable, t, round);
  }

  lemma MovedOnly(s: State, s': State, trunkOf: map<Assoc, Trunk>, trunk: Trunk, running: set<Task>, moved: set<Task>)
    requires Rounded(s, s', Movable(s, trunkOf, trunk, running), moved)
    ensures Spares(s, s', trunkOf, trunk, running) && Accounts(s, s', trunkOf, trunk, running, None, moved)
  {
    SparesAll(s, s', trunkOf, trunk, running, moved);
  }

  lemma SamePlaces(s: State, mid: State, s': State, ts: set<Task>)
    requires Relocated(s, mid, ts) && s'.onEni == mid.onEni && s'.config == mid.config
    ensures Relocated(s, s', ts)
  {
    forall a: Addr | !SamePlace(s, s', a)
      ensures (exists t :: t in ts && t in s.asgs && s.asgs[t].v4 == Some(a)) && HomeOrNowhere(s', a)
    {
      assert !SamePlace(s, mid, a);
    }
  }

  lemma Answered(s: State, mid: State, s': State, trunkOf: map<Assoc, Trunk>, trunk: Trunk, running: set<Task>,
                 moved: set<Task>)
    requires moved == Movable(s, trunkOf, trunk, running) && Rounded(s, mid, moved, moved)
    requires s' == DeleteAll(mid, Garbage(mid.asgs, trunkOf, trunk, running)).(lastSeen := s'.lastSeen)
    ensures Spares(s, s', trunkOf, trunk, running)
    ensures Accounts(s, s', trunkOf, trunk, running, Some(Garbage(mid.asgs, trunkOf, trunk, running)), moved)
  {
    var rest := Garbage(mid.asgs, trunkOf, trunk, running);
    GarbageWithout(s, mid, trunkOf, trunk, running, moved);
    assert s'.asgs == s.asgs - (moved + rest);
    SamePlaces(s, mid, s', moved);
    CascadeTwice(s.holders, mid.holders, s'.holders, moved, rest);
    CascadeTwice(s.classes, mid.classes, s'.classes, moved, rest);
    CascadeTwice(s.eips, mid.eips, s'.eips, moved, rest);
    SparesAll(s, s', trunkOf, trunk, running, moved + rest);
  }

  lemma CascadeTwice(m: map<nat, Task>, mid: map<nat, Task>, end: map<nat, Task>, a: set<Task>, b: set<Task>)
    requires Cascaded(m, mid, a) && Cascaded(mid, end, b)
    ensures Cascaded(m, end, a + b)
  {
  }

  /** A running task keeps its assignment, and so does a task of another trunk; of what hangs on assignments exactly
      the rows of those deleted are gone; and no address has moved but static ones of tasks that do not run, each
      of which is off every ENI, or home. */
  ghost predicate Spares(s: State, s': State, trunkOf: map<Assoc, Trunk>, trunk: Trunk, running: set<Task>) {
    && (forall t :: t in s'.asgs ==> t in s.asgs && s'.asgs[t] == s.asgs[t])
    && (forall t :: t in s.asgs && t in running ==> t in s'.asgs)
    && (forall t :: t in s.asgs && s.asgs[t].assoc in trunkOf && trunkOf[s.asgs[t].assoc] != trunk ==> t in s'.asgs)
    && (forall t :: t in s.asgs && s.asgs[t].assoc !in trunkOf ==> t in s'.asgs)
    && (var gone := s.asgs.Keys - s'.asgs.Keys;
        && Cascaded(s.holders, s'.holders, gone) && Cascaded(s.classes, s'.classes, gone)
        && Cascaded(s.eips, s'.eips, gone))
    && forall a: Addr :: !SamePlace(s, s', a) ==>
         && a in s.config.home && HomeOrNowhere(s', a)
         && exists t :: t in s.asgs && t !in running && s.asgs[t].v4 == Some(a)
  }

  /** Every assignment that is gone was moved or is in the answer, not both; those moved had a static address, and
      once there is an answer the rest had none and only running tasks are left on the trunk. */
  ghost predicate Accounts(s: State, s': State, trunkOf: map<Assoc, Trunk>, trunk: Trunk, running: set<Task>,
                           removed: Option<set<Task>>, moved: set<Task>) {
    && (forall t :: t in moved || (removed.Some? && t in removed.value) <==> t in s.asgs && t !in s'.asgs)
    && (forall t :: t in moved ==> s.asgs[t].v4.Some? && s.asgs[t].v4.value in s.config.home)
    && (removed.Some? ==>
          && (forall t :: t in removed.value ==> !HasStatic(s, t))
          && forall t :: t in s'.asgs && s'.asgs[t].assoc in trunkOf && trunkOf[s'.asgs[t].assoc] == trunk ==> t in running)
  }

  /** Exactly the addresses of these tasks, and the ENIs they were on, count as used now. */
  ghost predicate Stamps(s: State, s': State, lastUsed: map<Eni, int>, lastUsed': map<Eni, int>, ts: set<Task>) {
    && (forall t :: t in ts && t in s.asgs ==>
          && (s.asgs[t].v4.Some? ==> At(s'.lastSeen, s.asgs[t].v4.value, s.now))
          && (s.asgs[t].v6.Some? ==> At(s'.lastSeen, s.asgs[t].v6.value, s.now))
          && (s.asgs[t].assoc in s.branchOf ==> At(lastUsed', s.branchOf[s.asgs[t].assoc], s.now)))
    && (forall a :: a in s'.lastSeen ==>
          || At(s.lastSeen, a, s'.lastSeen[a])
          || exists t :: t in ts && t in s.asgs && (s.asgs[t].v4 == Some(a) || s.asgs[t].v6 == Some(a)))
    && (forall n :: n in lastUsed' ==>
          || At(lastUsed, n, lastUsed'[n])
          || exists t :: t in ts && t in s.asgs && s.asgs[t].assoc in s.branchOf && s.branchOf[s.asgs[t].assoc] == n)
    && s.lastSeen.Keys <= s'.lastSeen.Keys && lastUsed.Keys <= lastUsed'.Keys
  }

  predicate At(m: map<nat, int>, k: nat, time: int) { k in m && m[k] == time }

  lemma StampsAll(s: State, s': State, lastUsed: map<Eni, int>, lastUsed': map<Eni, int>, ts: set<Task>)
    requires s'.now == s.now && Touched(s.lastSeen, s'.lastSeen, Addresses(s.asgs, ts), s.now)
    requires Touched(lastUsed, lastUsed', Enis(s, ts), s.now)
    ensures Stamps(s, s', lastUsed, lastUsed', ts)
  {
    forall t | t in ts && t in s.asgs
      ensures s.asgs[t].v4.Some? ==> s.asgs[t].v4.value in Addresses(s.asgs, ts)
      ensures s.asgs[t].v6.Some? ==> s.asgs[t].v6.value in Addresses(s.asgs, ts)
      ensures s.asgs[t].assoc in s.branchOf ==> s.branchOf[s.asgs[t].assoc] in Enis(s, ts)
    {
    }
  }

  /** The address of a running task stays where it is: no task that does not run has the same static address. */
  lemma RunningKeepsAddress(s: State, s': State, trunkOf: map<Assoc, Trunk>, trunk: Trunk, running: set<Task>, t: Task, a: Addr)
    requires HoldersOk(s) && Spares(s, s', trunkOf, trunk, running) && t in running && t in s.asgs && s.asgs[t].v4 == Some(a)
    ensures t in s'.asgs && s'.asgs[t] == s.asgs[t] && SamePlace(s, s', a)
    ensures a in s.holders && s.holders[a] == t ==> a in s'.holders && s'.holders[a] == t
  {
    assert UsedBy(s, t, a);
    if !SamePlace(s, s', a) {
      var u :| u in s.asgs && u !in running && s.asgs[u].v4 == Some(a);
      assert UsedBy(s, u, a);
    }
  }

  lemma SparesAll(s: State, s': State, trunkOf: map<Assoc, Trunk>, trunk: Trunk, running: set<Task>, gone: set<Task>)
    requires gone <= Garbage(s.asgs, trunkOf, trunk, running) && s'.asgs == s.asgs - gone && s'.config == s.config
    requires Cascaded(s.holders, s'.holders, gone) && Cascaded(s.classes, s'.classes, gone) && Cascaded(s.eips, s'.eips, gone)
    requires Relocated(s, s', Movable(s, trunkOf, trunk, running))
    ensures Spares(s, s', trunkOf, trunk, running)
  {
    assert s.asgs.Keys - s'.asgs.Keys == gone;
  }

  /** A round moves nothing but the address of its task. */
  lemma AfterRelocated(start: State, s: State, ts: set<Task>, t: Task, round: Round)
    requires Relocated(start, s, ts) && HasStatic(s, t) && t in ts && t in start.asgs && s.asgs[t] == start.asgs[t]
    ensures Relocated(start, After(s, t, round), ts)
  {
    var s' := After(s, t, round);
    forall a: Addr | !SamePlace(start, s', a)
      ensures (exists u :: u in ts && u in start.asgs && start.asgs[u].v4 == Some(a)) && HomeOrNowhere(s', a)
    {
      if s.asgs[t].v4 == Some(a) {
        assert t in ts && start.asgs[t].v4 == Some(a);
      } else {
        assert SamePlace(s, s', a) && !SamePlace(start, s, a);
      }
    }
  }

  /** None of the rounds that move something fails, nor the query of the one that finds nothing left. */
  predicate AllFine(rounds: nat -> Round, n: nat) {
    (forall i :: 0 <= i < n ==> rounds(i).Fine?) && !rounds(n).BeforeEc2?
  }

  lemma AfterGone(start: State, s: State, gone: set<Task>, t: Task, round: Round)
    requires Gone(start, s, gone) && HasStatic(s, t)
    ensures Gone(start, After(s, t, round), if Deletes(round) then gone + {t} else gone)
  {
    assert start.asgs - gone - {t} == start.asgs - (gone + {t});
  }

  /** What is left to delete once every stale static assignment is gone. */
  lemma LastRound(start: State, s: State, trunkOf: map<Assoc, Trunk>, trunk: Trunk, running: set<Task>, moved: set<Task>)
    requires Gone(start, s, moved) && moved == Movable(start, trunkOf, trunk, running)
    ensures var all, rest := Garbage(start.asgs, trunkOf, trunk, running), Garbage(s.asgs, trunkOf, trunk, running);
            && rest == all - moved && Addresses(s.asgs, rest) == Addresses(start.asgs, rest) && Enis(s, rest) == Enis(start, rest)
            && s.asgs - rest == start.asgs - all && Garbage(s.asgs - rest, trunkOf, trunk, running) == {}
  {
    GarbageWithout(start, s, trunkOf, trunk, running, moved);
  }

  /** One statement deletes several assignments, with everything that hangs on them. */
  function DeleteAll(s: State, ts: set<Task>): State {
    s.(asgs := s.asgs - ts,
       holders := s.holders - (set a | a in s.holders && s.holders[a] in ts),
       classes := s.classes - (set c | c in s.classes && s.classes[c] in ts),
       eips := s.eips - (set x | x in s.eips && s.eips[x] in ts))
  }

  method Touch(before: map<nat, int>, keys: set<nat>, now: int) returns (after: map<nat, int>)
    ensures Touched(before, after, keys, now)
  {
    after := before;
    var rest := keys;
    while rest != {}
      invariant rest <= keys && Touched(before, after, keys - rest, now)
      decreases |rest|
    {
      var k :| k in rest;
      after, rest := after[k := now], rest - {k};
    }
    assert keys - rest == keys;
  }
}
