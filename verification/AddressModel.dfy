/** Addresses on branch ENIs: the database's view, EC2's view, and every step that changes either.
    Steps that run under the row lock of a branch ENI, with their EC2 calls, are one event; where the
    transaction can still fail after EC2 acted there is an event for that. Unassigning a static address
    takes no lock, so its read, its EC2 call and its deletion are three. One subnet, IPv4; IPv6 addresses are only recorded. */
module AddressModel {
  import opened Option

  type Eni = nat
  type Assoc = nat
  type Task = nat
  type Addr = nat
  type ClassId = nat
  type Eip = nat

  const GC_IDLE: int := 120 // seconds an address stays after it was last seen

  /** What does not change: the primary address of each ENI, and the home ENI of each static address. */
  datatype Config = Config(primary: map<Eni, Addr>, home: map<Addr, Eni>)

  datatype Assignment = Assignment(assoc: Assoc, completed: bool, v4: Option<Addr>, v6: Option<Addr>)

  /** A static address that some caller has read and is about to unassign. */
  datatype Unassigning = Unassigning(task: Task, eni: Eni, addr: Addr)

  datatype State = State(
    config: Config,
    branchOf: map<Assoc, Eni>,        // the branch ENI of every association ever made
    attached: set<Assoc>,             // associations in state 'attached'
    asgs: map<Task, Assignment>,      // assignments
    holders: map<Addr, Task>,         // ip_address_attachments: who uses a static address
    lastSeen: map<Addr, int>,         // ip_last_used_v3
    now: int,
    classes: map<ClassId, Task>,      // htb_classid rows in use
    eips: map<Eip, Task>,             // elastic_ip_attachments
    onEni: map<Addr, Eni>,            // EC2: the ENI each address is on
    unassigning: set<Unassigning>,    // read, EC2 not called yet
    moved: set<Task>)                 // EC2 called, assignment not deleted yet

  /** What one completed assignment records besides its IPv4 address. */
  datatype Extra = Extra(v6: Option<Addr>, class_: ClassId, eip: Option<Eip>)

  datatype Event =
    | Tick(seconds: nat)
    | Attach(assoc: Assoc, eni: Eni)
    | Detach(assoc: Assoc)                             // also a forced one
    | Insert(task: Task, assoc: Assoc)                 // generateAssignmentID
    | AssignNone(task: Task, extra: Extra)             // no IPv4 address requested
    | AssignFree(task: Task, addr: Addr, extra: Extra)
    | AssignNew(task: Task, news: seq<Addr>, addr: Addr, extra: Extra)
    | NewUnused(eni: Eni, news: seq<Addr>)             // EC2 added addresses, the transaction rolled back
    | AssignStatic(task: Task, addr: Addr, extra: Extra)
    | StaticMoved(eni: Eni, addr: Addr)                // EC2 moved the address, the transaction rolled back
    | Remove(task: Task)                               // UnassignIPV3, hard GC, or deletion of an unfinished one
    | RemoveElastic(task: Task)
    | BeginUnassignStatic(task: Task)
    | MoveStatic(u: Unassigning)
    | DropStatic(task: Task)
    | Reallocate(task: Task, taken: bool)              // hard GC of a static assignment; did EC2 take it off?
    | ReallocateAborted(task: Task)                    // EC2 took the address off, the transaction rolled back
    | Rehome(addr: Addr)
    | GcAttached(assoc: Assoc, snapshot: set<Addr>)    // the non-primary addresses EC2 once described
    | GcUnattached(eni: Eni, snapshot: set<Addr>)

  /** The step completes the assignment of its task. */
  predicate Completes(e: Event) { e.AssignNone? || e.AssignFree? || e.AssignNew? || e.AssignStatic? }

  predicate IsStatic(s: State, a: Addr) { a in s.config.home }

  predicate OnEni(s: State, a: Addr, e: Eni) { a in s.onEni && s.onEni[a] == e }

  predicate UsedBy(s: State, t: Task, a: Addr) { t in s.asgs && s.asgs[t].v4 == Some(a) }

  /** Some assignment of the association uses the address. */
  predicate UsedIn(s: State, assoc: Assoc, a: Addr) {
    exists t :: t in s.asgs && s.asgs[t].assoc == assoc && s.asgs[t].v4 == Some(a)
  }

  predicate EniAttached(s: State, e: Eni) {
    exists x :: x in s.attached && x in s.branchOf && s.branchOf[x] == e
  }

  /** Class ids and elastic addresses are taken from the unused ones. */
  predicate Unused(s: State, x: Extra) {
    x.class_ !in s.classes && (x.eip.Some? ==> x.eip.value !in s.eips)
  }

  predicate Pending(s: State, t: Task) {
    t in s.asgs && !s.asgs[t].completed && s.asgs[t].assoc in s.branchOf
  }

  /** The assignment uses a static address. */
  predicate HasStatic(s: State, t: Task) {
    t in s.asgs && s.asgs[t].v4.Some? && IsStatic(s, s.asgs[t].v4.value) && s.asgs[t].assoc in s.branchOf
  }

  predicate NotSeenSince(s: State, a: Addr, time: int) {
    a !in s.lastSeen || s.lastSeen[a] < time
  }

  predicate AllNew(s: State, news: seq<Addr>) {
    forall a :: a in news ==> a !in s.onEni
  }

  predicate Enabled(s: State, e: Event) {
    match e
    case Tick(_) => true
    case Attach(assoc, eni) => assoc !in s.branchOf && !EniAttached(s, eni) && eni in s.config.primary
    case Detach(assoc) => assoc in s.attached
    case Insert(task, assoc) => assoc in s.attached && assoc in s.branchOf && task !in s.asgs
    case AssignNone(task, x) => Pending(s, task) && Unused(s, x)
    case AssignFree(task, a, x) =>
      && Pending(s, task) && Unused(s, x)
      && OnEni(s, a, s.branchOf[s.asgs[task].assoc]) && !IsStatic(s, a) && !UsedIn(s, s.asgs[task].assoc, a)
    case AssignNew(task, news, a, x) =>
      && Pending(s, task) && Unused(s, x) && AllNew(s, news) && a in news && !IsStatic(s, a)
      && !UsedIn(s, s.asgs[task].assoc, a) // else the unique index on (association, ipv4addr) aborts it
    case NewUnused(eni, news) => AllNew(s, news)
    case AssignStatic(task, a, x) => Pending(s, task) && Unused(s, x) && IsStatic(s, a) && a !in s.holders
    case StaticMoved(eni, a) => IsStatic(s, a) && a !in s.holders
    case Remove(task) => task in s.asgs
    case RemoveElastic(task) => true
    case BeginUnassignStatic(task) =>
      task in s.asgs && s.asgs[task].v4.Some? && s.asgs[task].assoc in s.branchOf &&
      s.asgs[task].v4.value in s.holders && s.holders[s.asgs[task].v4.value] == task
    case MoveStatic(u) => u in s.unassigning
    case DropStatic(task) => task in s.moved
    case Reallocate(task, _) => HasStatic(s, task)
    case ReallocateAborted(task) => HasStatic(s, task)
    case Rehome(a) => IsStatic(s, a) && a !in s.onEni
    case GcAttached(assoc, snapshot) =>
      assoc in s.attached && assoc in s.branchOf && s.branchOf[assoc] in s.config.primary &&
      s.config.primary[s.branchOf[assoc]] !in snapshot
    case GcUnattached(eni, snapshot) =>
      !EniAttached(s, eni) && eni in s.config.primary && s.config.primary[eni] !in snapshot
  }

  /** All of these addresses are on the ENI. */
  function PutAll(onEni: map<Addr, Eni>, addrs: seq<Addr>, eni: Eni): (r: map<Addr, Eni>)
    ensures forall a :: a in r <==> a in onEni || a in addrs
    ensures forall a :: a in r ==> r[a] == if a in addrs then eni else onEni[a]
  {
    if addrs == [] then onEni else PutAll(onEni, addrs[1..], eni)[addrs[0] := eni]
  }

  /** All of these addresses were seen at the time. */
  function SeeAll(lastSeen: map<Addr, int>, addrs: seq<Addr>, time: int): (r: map<Addr, int>)
    ensures forall a :: a in r <==> a in lastSeen || a in addrs
    ensures forall a :: a in r ==> r[a] == if a in addrs then time else lastSeen[a]
  {
    if addrs == [] then lastSeen else SeeAll(lastSeen, addrs[1..], time)[addrs[0] := time]
  }

  /** assignIPsToENI's one transaction: record everything and mark the assignment completed. */
  function Complete(s: State, t: Task, v4: Option<Addr>, x: Extra): State
    requires t in s.asgs
  {
    s.(asgs := s.asgs[t := Assignment(s.asgs[t].assoc, true, v4, x.v6)],
       classes := s.classes[x.class_ := t],
       eips := if x.eip.Some? then s.eips[x.eip.value := t] else s.eips)
  }

  /** Deleting an assignment cascades to its static and elastic attachments and frees its class id. */
  function Delete(s: State, t: Task): State {
    s.(asgs := s.asgs - {t},
       holders := s.holders - (set a | a in s.holders && s.holders[a] == t),
       classes := s.classes - (set c | c in s.classes && s.classes[c] == t),
       eips := s.eips - (set x | x in s.eips && s.eips[x] == t))
  }

  /** Where addresses are after EC2 took a task's static address off the ENI of its association. */
  function TakenOff(s: State, t: Task): map<Addr, Eni>
    requires HasStatic(s, t)
  {
    var a := s.asgs[t].v4.value;
    if OnEni(s, a, s.branchOf[s.asgs[t].assoc]) then s.onEni - {a} else s.onEni
  }

  function SeenNow(lastSeen: map<Addr, int>, a: Option<Addr>, now: int): map<Addr, int> {
    if a.Some? then lastSeen[a.value := now] else lastSeen
  }

  /** removeStaticAddresses: static addresses of the snapshot that nobody uses. */
  function Strays(s: State, snapshot: set<Addr>): set<Addr> {
    set a | a in snapshot && IsStatic(s, a) && a !in s.holders
  }

  /** The addresses of the snapshot an attached ENI no longer needs. */
  function Idle(s: State, assoc: Assoc, snapshot: set<Addr>): set<Addr> {
    set a | a in snapshot && !(IsStatic(s, a) && a !in s.holders) && !UsedIn(s, assoc, a) &&
            NotSeenSince(s, a, s.now - GC_IDLE)
  }

  /** The check before the call: some assignment of any association of the ENI uses one of them. */
  predicate Blocked(s: State, eni: Eni, addrs: set<Addr>) {
    exists t :: t in s.asgs && s.asgs[t].v4.Some? && s.asgs[t].v4.value in addrs &&
                s.asgs[t].assoc in s.branchOf && s.branchOf[s.asgs[t].assoc] == eni
  }

  /** UnassignPrivateIpAddresses of several addresses: all of them, or none if one is not on the ENI. */
  function Unassigned(s: State, eni: Eni, addrs: set<Addr>): set<Addr> {
    if forall a :: a in addrs ==> OnEni(s, a, eni) then addrs else {}
  }

  /** Relocating strays unassigns them one by one. */
  function Moved(s: State, eni: Eni, addrs: set<Addr>): set<Addr> {
    set a | a in addrs && OnEni(s, a, eni)
  }

  /** The addresses a GC run takes off the ENI. */
  function Collected(s: State, e: Event): set<Addr>
    requires (e.GcAttached? || e.GcUnattached?) && Enabled(s, e)
  {
    match e
    case GcAttached(assoc, snapshot) =>
      var eni, idle := s.branchOf[assoc], Idle(s, assoc, snapshot);
      Moved(s, eni, Strays(s, snapshot)) + (if Blocked(s, eni, idle) then {} else Unassigned(s, eni, idle))
    case GcUnattached(eni, snapshot) =>
      Moved(s, eni, Strays(s, snapshot)) + Unassigned(s, eni, snapshot - Strays(s, snapshot))
  }

  function Step(s: State, e: Event): State
    requires Enabled(s, e)
  {
    match e
    case Tick(n) => s.(now := s.now + n)
    case Attach(assoc, eni) => s.(branchOf := s.branchOf[assoc := eni], attached := s.attached + {assoc})
    case Detach(assoc) => s.(attached := s.attached - {assoc})
    case Insert(task, assoc) => s.(asgs := s.asgs[task := Assignment(assoc, false, None, None)])
    case AssignNone(task, x) => Complete(s, task, None, x)
    case AssignFree(task, a, x) => Complete(s, task, Some(a), x)
    case AssignNew(task, news, a, x) =>
      Complete(s, task, Some(a), x).(onEni := PutAll(s.onEni, news, s.branchOf[s.asgs[task].assoc]),
                                     lastSeen := SeeAll(s.lastSeen, news, s.now))
    case NewUnused(eni, news) => s.(onEni := PutAll(s.onEni, news, eni))
    case AssignStatic(task, a, x) =>
      Complete(s, task, Some(a), x).(onEni := s.onEni[a := s.branchOf[s.asgs[task].assoc]], holders := s.holders[a := task])
    case StaticMoved(eni, a) => s.(onEni := s.onEni[a := eni])
    case Remove(task) =>
      Delete(s, task).(lastSeen := SeenNow(SeenNow(s.lastSeen, s.asgs[task].v4, s.now), s.asgs[task].v6, s.now))
    case RemoveElastic(task) => s.(eips := s.eips - (set x | x in s.eips && s.eips[x] == task))
    case BeginUnassignStatic(task) =>
      s.(unassigning := s.unassigning + {Unassigning(task, s.branchOf[s.asgs[task].assoc], s.asgs[task].v4.value)})
    case MoveStatic(u) =>
      s.(onEni := s.onEni[u.addr := u.eni], unassigning := s.unassigning - {u}, moved := s.moved + {u.task})
    case DropStatic(task) => Delete(s, task).(moved := s.moved - {task})
    case Reallocate(task, taken) => Delete(s, task).(onEni := if taken then TakenOff(s, task) else s.onEni)
    case ReallocateAborted(task) => s.(onEni := TakenOff(s, task))
    case Rehome(a) => s.(onEni := s.onEni[a := s.config.home[a]])
    case GcAttached(_, _) => s.(onEni := s.onEni - Collected(s, e))
    case GcUnattached(_, _) => s.(onEni := s.onEni - Collected(s, e))
  }
}
