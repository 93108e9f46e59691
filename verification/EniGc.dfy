/** Garbage collection of one ENI as code, proved to take exactly the steps of the address model. */
module EniGc {
  import opened Option
  import opened AddressModel
  import opened AddressEffects

  datatype EniStatus = InUse | Available | Associated | Other

  /** The addresses of a description, without the primary one. */
  function Secondary(described: seq<Addr>, primary: Addr): set<Addr> {
    set a | a in described && a != primary
  }

  /** Only where addresses are has changed: these are back home now. */
  ghost predicate Rehomed(s: State, s': State, addrs: set<Addr>) {
    && s' == s.(onEni := s'.onEni) && s'.onEni.Keys == s.onEni.Keys + addrs
    && (forall a :: a in addrs ==> IsStatic(s, a) && OnEni(s', a, s.config.home[a]))
    && (forall a :: a in s.onEni && a !in addrs ==> OnEni(s', a, s.onEni[a]))
  }

  /** The addresses that a GC run finds on the ENI, static and in nobody's use, and that get home. */
  function Returning(s: State, eni: Eni, snapshot: set<Addr>, homeFails: set<Addr>): set<Addr> {
    Moved(s, eni, Strays(s, snapshot)) - homeFails
  }

  /** Every static address that the description lists, that nobody uses and that is on the ENI is home now, or on
      no ENI if EC2 refused to assign it. */
  ghost predicate StraysHome(s: State, s': State, eni: Eni, described: seq<Addr>, refused: set<Addr>)
    requires eni in s.config.primary
  {
    forall a :: a in described && a != s.config.primary[eni] && a in s.config.home && a !in s.holders && OnEni(s, a, eni) ==>
      if a in refused then a !in s'.onEni else OnEni(s', a, s.config.home[a])
  }

  /** No address has left its ENI but secondary ones that the description lists and that are on this ENI. */
  ghost predicate OnlyDescribed(s: State, s': State, eni: Eni, described: seq<Addr>)
    requires eni in s.config.primary
  {
    forall a :: a in s.onEni && !OnEni(s', a, s.onEni[a]) ==>
      a in described && a != s.config.primary[eni] && s.onEni[a] == eni
  }

  lemma GcMeans(s: State, e: Event, s': State, eni: Eni, described: seq<Addr>, homeFails: set<Addr>)
    requires eni in s.config.primary && Enabled(s, e) && (e.GcUnattached? || e.GcAttached?)
    requires eni == if e.GcUnattached? then e.eni else s.branchOf[e.assoc]
    requires e.snapshot == Secondary(described, s.config.primary[eni])
    requires Rehomed(Step(s, e), s', Returning(s, eni, e.snapshot, homeFails))
    ensures StraysHome(s, s', eni, described, homeFails) && OnlyDescribed(s, s', eni, described)
  {
    var back := Returning(s, eni, e.snapshot, homeFails);
    forall a | a in s.onEni && !OnEni(s', a, s.onEni[a])
      ensures a in described && a != s.config.primary[eni] && s.onEni[a] == eni
    {
      assert a in back || a in Collected(s, e);
    }
  }

  class Service {
    var s: State

    constructor (s: State)
      ensures this.s == s
    {
      this.s := s;
    }

    /** doGCENI with what an earlier call described. EC2 may fail to assign an address to its home. */
    method DoGCENI(eni: Eni, status: EniStatus, described: seq<Addr>, homeFails: set<Addr>) returns (ok: bool)
      requires eni in s.config.primary && forall x :: x in s.attached ==> x in s.branchOf
      modifies this
      ensures status.Associated? || status.Other? ==> s == old(s) && (ok <==> status.Associated?)
      ensures status.Available? && EniAttached(old(s), eni) ==> s == old(s) && !ok
      ensures var snapshot := Secondary(described, old(s).config.primary[eni]);
              status.Available? && !EniAttached(old(s), eni) ==>
                Rehomed(Step(old(s), GcUnattached(eni, snapshot)), s, Returning(old(s), eni, snapshot, homeFails))
      ensures status.InUse? && !EniAttached(old(s), eni) ==> s == old(s) && !ok
      ensures var snapshot := Secondary(described, old(s).config.primary[eni]);
              status.InUse? && EniAttached(old(s), eni) ==>
                exists x :: x in old(s).attached && old(s).branchOf[x] == eni &&
                  Rehomed(Step(old(s), GcAttached(x, snapshot)), s, Returning(old(s), eni, snapshot, homeFails))
      ensures (if EniAttached(old(s), eni) then status.InUse? else status.Available?) ==>
                && StraysHome(old(s), s, eni, described, homeFails)
                && (ok ==> StraysHome(old(s), s, eni, described, {}))
                && OnlyDescribed(old(s), s, eni, described)
    {
      var snapshot := DescribedSecondary(described, s.config.primary[eni]);
      if status.Associated? {
        return true;
      }
      if status.Other? || status.Available? == EniAttached(s, eni) {
        return false;
      }
      var moved, back := Moved(s, eni, Strays(s, snapshot)), Returning(s, eni, snapshot, homeFails);
      ghost var step;
      if status.Available? {
        step := GcUnattached(eni, snapshot);
        ok := UnassignUnattached(eni, snapshot);
      } else {
        var assoc :| assoc in s.attached && s.branchOf[assoc] == eni;
        step := GcAttached(assoc, snapshot);
        ok := UnassignAttached(assoc, snapshot);
      }
      GoHome(back);
      GcMeans(old(s), step, s, eni, described, homeFails);
      ok := ok && moved !! homeFails;
    }

    method UnassignUnattached(eni: Eni, snapshot: set<Addr>) returns (ok: bool)
      requires Enabled(s, GcUnattached(eni, snapshot))
      modifies this
      ensures s == Step(old(s), GcUnattached(eni, snapshot))
      ensures ok <==> forall a :: a in snapshot && !(a in s.config.home && a !in s.holders) ==> OnEni(old(s), a, eni)
    {
      var strays := RemoveStaticAddresses(snapshot);
      var rest := snapshot - strays;
      ok := forall a :: a in rest ==> OnEni(s, a, eni);
      s := s.(onEni := s.onEni - (Moved(s, eni, strays) + if ok then rest else {}));
    }

    method UnassignAttached(assoc: Assoc, snapshot: set<Addr>) returns (ok: bool)
      requires Enabled(s, GcAttached(assoc, snapshot))
      modifies this
      ensures s == Step(old(s), GcAttached(assoc, snapshot))
      ensures ok <==> forall a :: a in snapshot && Unneeded(old(s), assoc, a) ==>
                        OnEni(old(s), a, s.branchOf[assoc]) && !InUseOn(old(s), s.branchOf[assoc], a)
    {
      var eni := s.branchOf[assoc];
      var strays, idle;
      strays, idle, ok := IdleBatch(assoc, snapshot);
      s := s.(onEni := s.onEni - (Moved(s, eni, strays) + if ok then idle else {}));
    }

    /** What is to come off an attached ENI, and whether the idle addresses can. */
    method IdleBatch(assoc: Assoc, snapshot: set<Addr>) returns (strays: set<Addr>, idle: set<Addr>, ok: bool)
      requires assoc in s.branchOf
      ensures strays == Strays(s, snapshot) && idle == Idle(s, assoc, snapshot)
      ensures ok <==> !Blocked(s, s.branchOf[assoc], idle) && forall a :: a in idle ==> OnEni(s, a, s.branchOf[assoc])
      ensures ok <==> forall a :: a in snapshot && Unneeded(s, assoc, a) ==>
                        OnEni(s, a, s.branchOf[assoc]) && !InUseOn(s, s.branchOf[assoc], a)
    {
      strays := RemoveStaticAddresses(snapshot);
      idle := UnusedRows(assoc, snapshot - strays);
      IdleRows(s, assoc, snapshot, strays, idle);
      BatchOk(s, assoc, snapshot, idle);
      ok := !Blocked(s, s.branchOf[assoc], idle) && forall a :: a in idle ==> OnEni(s, a, s.branchOf[assoc]);
    }

    method RemoveStaticAddresses(snapshot: set<Addr>) returns (removed: set<Addr>)
      ensures forall a :: a in removed <==> a in snapshot && a in s.config.home && a !in s.holders
    {
      removed := {};
      var rows := snapshot;
      while rows != {}
        invariant rows <= snapshot
        invariant forall a :: a in removed <==> a in Strays(s, snapshot) && a !in rows
        decreases |rows|
      {
        var a :| a in rows;
        rows := rows - {a};
        if IsStatic(s, a) && a !in s.holders {
          removed := removed + {a};
        }
      }
    }

    method UnusedRows(assoc: Assoc, addrs: set<Addr>) returns (unused: set<Addr>)
      ensures forall a :: a in unused <==>
                && a in addrs && (a in s.lastSeen ==> s.lastSeen[a] + 120 < s.now)
                && forall t :: t in s.asgs && s.asgs[t].assoc == assoc ==> s.asgs[t].v4 != Some(a)
    {
      unused := {};
      var rows := addrs;
      while rows != {}
        invariant rows <= addrs
        invariant forall a :: a in unused <==>
                    a in addrs && a !in rows && !UsedIn(s, assoc, a) && NotSeenSince(s, a, s.now - GC_IDLE)
        decreases |rows|
      {
        var a :| a in rows;
        rows := rows - {a};
        if !UsedIn(s, assoc, a) && NotSeenSince(s, a, s.now - GC_IDLE) {
          unused := unused + {a};
        }
      }
    }

    /** The IPv6 half of doGCAttachedENI. The check before the call looks the addresses up in the IPv4 column, so
        it never fires, and EC2 is asked to take an address off exactly if no assignment of the ENI's current
        association uses it and it was not seen lately, also while one of an earlier association still uses it. */
    method UnassignIPv6(assoc: Assoc, snapshot: set<Addr>) returns (taken: set<Addr>)
      requires assoc in s.branchOf && FamiliesApart(s, snapshot)
      ensures forall a :: a in taken <==>
                && a in snapshot && (a in s.lastSeen ==> s.lastSeen[a] + 120 < s.now)
                && forall t :: t in s.asgs && s.asgs[t].assoc == assoc ==> s.asgs[t].v6 != Some(a)
    {
      taken := {};
      var rows := snapshot;
      while rows != {}
        invariant rows <= snapshot
        invariant forall a :: a in taken <==>
                    a in snapshot && a !in rows && !UsedIn6(s, assoc, a) && NotSeenSince(s, a, s.now - GC_IDLE)
        decreases |rows|
      {
        var a :| a in rows;
        rows := rows - {a};
        if !UsedIn6(s, assoc, a) && NotSeenSince(s, a, s.now - GC_IDLE) {
          taken := taken + {a};
        }
      }
      if Blocked(s, s.branchOf[assoc], taken) {
        return {};
      }
    }

    /** The second half of relocateIPAddress, once for each address that came off. */
    method GoHome(addrs: set<Addr>)
      requires forall a :: a in addrs ==> IsStatic(s, a) && a !in s.onEni
      modifies this
      ensures Rehomed(old(s), s, addrs)
    {
      var rest := addrs;
      while rest != {}
        invariant rest <= addrs && Rehomed(old(s), s, addrs - rest)
        invariant forall a :: a in rest ==> IsStatic(s, a) && a !in s.onEni
        decreases |rest|
      {
        var a :| a in rest;
        rest := rest - {a};
        s := Step(s, Rehome(a));
      }
      assert addrs - rest == addrs;
    }
  }

  lemma IdleRows(s: State, assoc: Assoc, snapshot: set<Addr>, strays: set<Addr>, idle: set<Addr>)
    requires forall a :: a in strays <==> a in snapshot && a in s.config.home && a !in s.holders
    requires forall a :: a in idle <==>
               && a in snapshot - strays && (a in s.lastSeen ==> s.lastSeen[a] + 120 < s.now)
               && forall t :: t in s.asgs && s.asgs[t].assoc == assoc ==> s.asgs[t].v4 != Some(a)
    ensures strays == Strays(s, snapshot) && idle == Idle(s, assoc, snapshot)
    ensures forall a :: a in idle <==> a in snapshot && Unneeded(s, assoc, a)
  {
    forall a ensures a in idle <==> a in snapshot && Unneeded(s, assoc, a) { }
    forall a ensures a in idle <==> a in Idle(s, assoc, snapshot) { IdleIs(s, assoc, snapshot, a); }
  }

  lemma BatchOk(s: State, assoc: Assoc, snapshot: set<Addr>, idle: set<Addr>)
    requires assoc in s.branchOf && forall a :: a in idle <==> a in snapshot && Unneeded(s, assoc, a)
    ensures (!Blocked(s, s.branchOf[assoc], idle) && forall a :: a in idle ==> OnEni(s, a, s.branchOf[assoc])) <==>
            forall a :: a in snapshot && Unneeded(s, assoc, a) ==>
              OnEni(s, a, s.branchOf[assoc]) && !InUseOn(s, s.branchOf[assoc], a)
  {
    BlockedIs(s, s.branchOf[assoc], idle);
  }

  /** Some assignment of the association uses the IPv6 address. */
  predicate UsedIn6(s: State, assoc: Assoc, a: Addr) {
    exists t :: t in s.asgs && s.asgs[t].assoc == assoc && s.asgs[t].v6 == Some(a)
  }

  /** No IPv6 address described is some task's IPv4 address. */
  ghost predicate FamiliesApart(s: State, snapshot: set<Addr>) {
    forall t :: t in s.asgs && s.asgs[t].v4.Some? ==> s.asgs[t].v4.value !in snapshot
  }

  /** The IPv4 half never unassigns an address, other than a stray, that a task of any association uses on
      the ENI. */
  lemma InUseIPv4Stays(s: State, assoc: Assoc, snapshot: set<Addr>, t: Task, a: Addr)
    requires Enabled(s, GcAttached(assoc, snapshot)) && UsedBy(s, t, a) && s.asgs[t].assoc in s.branchOf
    requires s.branchOf[s.asgs[t].assoc] == s.branchOf[assoc] && a !in Strays(s, snapshot)
    ensures a !in Collected(s, GcAttached(assoc, snapshot))
  {
    assert a in Idle(s, assoc, snapshot) ==> Blocked(s, s.branchOf[assoc], Idle(s, assoc, snapshot));
  }

  method DescribedSecondary(described: seq<Addr>, primary: Addr) returns (r: set<Addr>)
    ensures r == Secondary(described, primary)
  {
    r := {};
    for i := 0 to |described|
      invariant r == Secondary(described[..i], primary)
    {
      if described[i] != primary {
        r := r + {described[i]};
      }
    }
    assert described[..|described|] == described;
  }
}
