/** Two runs in which a task loses the static address it uses. An unassignment moves it: between its read
    and its call to EC2, hard GC frees the address and another task on another ENI gets it. A hard GC takes
    it off and then cannot delete the assignment. */
module AddressCounterexample {
  import opened Option
  import opened AddressModel
  import opened AddressInvariant
  import opened AddressRuns

  ghost predicate Reaches(ss: seq<State>, es: seq<Event>, s: State) {
    IsRun(ss, es) && ss[|es|] == s
  }

  /** Nothing has displaced an address yet. */
  ghost predicate Plain(es: seq<Event>) {
    forall k :: 0 <= k < |es| ==> !es[k].MoveStatic? && !es[k].ReallocateAborted?
  }

  lemma Extend(ss: seq<State>, es: seq<Event>, s: State, e: Event, s': State)
    returns (ss': seq<State>, es': seq<Event>)
    requires Reaches(ss, es, s) && Enabled(s, e) && Step(s, e) == s'
    ensures Reaches(ss', es', s') && ss' == ss + [s'] && es' == es + [e]
  {
    ss', es' := ss + [s'], es + [e];
    forall k | 0 <= k < |es'| ensures StepAt(ss', es', k) {
      if k < |es| { assert StepAt(ss, es, k); }
    }
  }

  const HELD := Assignment(1, true, Some(10), None)
  const TAKEN := Assignment(2, true, Some(10), None)
  const PENDING := Unassigning(1, 1, 10)

  /** ENIs 1 and 2 with their primary addresses, and static address 10 whose home is ENI 90. */
  function At(branchOf: map<Assoc, Eni>, asgs: map<Task, Assignment>, holders: map<Addr, Task>,
              classes: map<ClassId, Task>, onEni: map<Addr, Eni>, unassigning: set<Unassigning>): State {
    State(Config(map[1 := 1, 2 := 2], map[10 := 90]), branchOf, branchOf.Keys, asgs, holders, map[], 0,
          classes, map[], onEni, unassigning, {})
  }

  function On(e: Eni): map<Addr, Eni> { map[1 := 1, 2 := 2, 10 := e] }

  function Both(asgs: map<Task, Assignment>, holders: map<Addr, Task>, classes: map<ClassId, Task>,
                onEni: map<Addr, Eni>, unassigning: set<Unassigning>): State {
    At(map[1 := 1, 2 := 2], asgs, holders, classes, onEni, unassigning)
  }

  lemma ReachAttached() returns (ss: seq<State>, es: seq<Event>)
    ensures Plain(es) && Reaches(ss, es, Both(map[], map[], map[], On(90), {}))
  {
    var start := At(map[], map[], map[], map[], On(90), {});
    var one := At(map[1 := 1], map[], map[], map[], On(90), {});
    ss, es := Extend([start], [], start, Attach(1, 1), one);
    ss, es := Extend(ss, es, one, Attach(2, 2), Both(map[], map[], map[], On(90), {}));
  }

  lemma ReachAsked() returns (ss: seq<State>, es: seq<Event>)
    ensures Plain(es) && Reaches(ss, es, Both(map[1 := Assignment(1, false, None, None)], map[], map[], On(90), {}))
  {
    ss, es := ReachAttached();
    var both := Both(map[], map[], map[], On(90), {});
    var asked := Both(map[1 := Assignment(1, false, None, None)], map[], map[], On(90), {});
    ss, es := Extend(ss, es, both, Insert(1, 1), asked);
  }

  /** Task 1 holds the address. */
  lemma ReachHeld() returns (ss: seq<State>, es: seq<Event>)
    ensures Plain(es) && Reaches(ss, es, Both(map[1 := HELD], map[10 := 1], map[1 := 1], On(1), {}))
  {
    ss, es := ReachAsked();
    var asked := Both(map[1 := Assignment(1, false, None, None)], map[], map[], On(90), {});
    var held := Both(map[1 := HELD], map[10 := 1], map[1 := 1], On(1), {});
    ss, es := Extend(ss, es, asked, AssignStatic(1, 10, Extra(None, 1, None)), held);
  }

  /** And its unassignment has begun. */
  lemma ReachUnassigning() returns (ss: seq<State>, es: seq<Event>)
    ensures Plain(es) && Reaches(ss, es, Both(map[1 := HELD], map[10 := 1], map[1 := 1], On(1), {PENDING}))
  {
    ss, es := ReachHeld();
    var held := Both(map[1 := HELD], map[10 := 1], map[1 := 1], On(1), {});
    ss, es := Extend(ss, es, held, BeginUnassignStatic(1), held.(unassigning := {PENDING}));
  }

  /** By then hard GC has freed the address and task 2 has it, on ENI 2. */
  lemma ReachTaken() returns (ss: seq<State>, es: seq<Event>)
    ensures Plain(es) && Reaches(ss, es, Both(map[2 := TAKEN], map[10 := 2], map[2 := 2], On(2), {PENDING}))
  {
    ss, es := ReachUnassigning();
    var held := Both(map[1 := HELD], map[10 := 1], map[1 := 1], On(1), {PENDING});
    var freed := Both(map[], map[], map[], map[1 := 1, 2 := 2], {PENDING});
    ss, es := Extend(ss, es, held, Reallocate(1, true), freed);
    var asked := Both(map[2 := Assignment(2, false, None, None)], map[], map[], map[1 := 1, 2 := 2], {PENDING});
    ss, es := Extend(ss, es, freed, Insert(2, 2), asked);
    var taken := Both(map[2 := TAKEN], map[10 := 2], map[2 := 2], On(2), {PENDING});
    ss, es := Extend(ss, es, asked, AssignStatic(2, 10, Extra(None, 2, None)), taken);
  }

  /** The unassignment then moves the address to ENI 1, while task 2 still uses it on ENI 2. */
  lemma AddressCanBeMoved() returns (ss: seq<State>, es: seq<Event>, s: State)
    ensures Reaches(ss, es, s) && !Placed(s) && Misplaced(s, 2, 10, 2) && OnEni(s, 10, 1)
    ensures forall k :: 0 <= k < |es| ==> !es[k].ReallocateAborted?
  {
    ss, es := ReachTaken();
    var taken := Both(map[2 := TAKEN], map[10 := 2], map[2 := 2], On(2), {PENDING});
    s := Both(map[2 := TAKEN], map[10 := 2], map[2 := 2], On(1), {}).(moved := {1});
    ss, es := Extend(ss, es, taken, MoveStatic(PENDING), s);
    MisplacedBreaks(s, 2, 10, 2);
  }

  /** Hard GC takes the address of task 1 off ENI 1, and its transaction fails. */
  lemma AddressCanBeTakenOff() returns (ss: seq<State>, es: seq<Event>, s: State)
    ensures Reaches(ss, es, s) && !Placed(s) && Misplaced(s, 1, 10, 1) && 10 !in s.onEni
    ensures forall k :: 0 <= k < |es| ==> !es[k].MoveStatic?
  {
    ss, es := ReachHeld();
    var held := Both(map[1 := HELD], map[10 := 1], map[1 := 1], On(1), {});
    s := Both(map[1 := HELD], map[10 := 1], map[1 := 1], map[1 := 1, 2 := 2], {});
    ss, es := Extend(ss, es, held, ReallocateAborted(1), s);
    MisplacedBreaks(s, 1, 10, 1);
  }

  /** The task uses the address on an attached association, and it is not on that association's ENI. */
  ghost predicate Misplaced(s: State, t: Task, a: Addr, eni: Eni) {
    UsedBy(s, t, a) && OnAttached(s, t) && s.branchOf[s.asgs[t].assoc] == eni && !OnEni(s, a, eni)
  }

  lemma MisplacedBreaks(s: State, t: Task, a: Addr, eni: Eni)
    requires Misplaced(s, t, a, eni)
    ensures !Placed(s)
  {
  }
}
