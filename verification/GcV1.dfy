/** The first agent GC: from what the agent reports about its addresses and what EC2 has on the interface,
    which addresses to free, which the agent should forget, and which it should look at again. */
module GcV1 {
  import opened Option

  datatype Address = V4(n: nat) | V6(n: nat)

  /** An address in the agent's report; None is a timestamp that does not parse. */
  datatype Used = Used(addr: Address, lastUsed: Option<int>)

  datatype Error = BadTimestamp | RangesOverlap | FreesAllocated

  datatype Calculation = Calculation(free: set<Address>, current: set<Address>, delete: set<Address>, bump: set<Address>)

  const FORGET: int := 300 // seconds after which the agent may forget an address the interface lost

  function Addresses(us: seq<Used>): set<Address> { set u | u in us :: u.addr }

  predicate Parses(us: seq<Used>) { forall i :: 0 <= i < |us| ==> us[i].lastUsed.Some? }

  /** When the report says it was last used; of several entries the last one counts. */
  function LastUsed(us: seq<Used>, a: Address): int
    requires Parses(us) && a in Addresses(us)
  {
    var n := |us| - 1;
    if us[n].addr == a then us[n].lastUsed.value
    else assert Addresses(us) == Addresses(us[..n]) + {us[n].addr}; LastUsed(us[..n], a)
  }

  /** Addresses to free: on the interface, not its primary one, and unused for longer than the timeout. */
  function Idle(primary: Address, current: set<Address>, spare: seq<Used>, now: int, timeout: int): set<Address>
    requires Parses(spare)
  {
    set a | a in Addresses(spare) && a.V4? && a != primary && a in current && now - LastUsed(spare, a) > timeout
  }

  /** Addresses to forget: no longer on the interface, and unused for five minutes. */
  function Vanished(current: set<Address>, spare: seq<Used>, now: int): set<Address>
    requires Parses(spare)
  {
    set a | a in Addresses(spare) && a !in current && now - LastUsed(spare, a) >= FORGET
  }

  // ---- The code ----

  method ToSet(us: seq<Used>) returns (r: set<Address>)
    ensures r == Addresses(us)
  {
    r := {};
    for i := 0 to |us|
      invariant r == Addresses(us[..i])
    {
      AddressesAppend(us, i);
      r := r + {us[i].addr};
    }
    assert us[..|us|] == us;
  }

  lemma AddressesAppend(us: seq<Used>, i: nat)
    requires i < |us|
    ensures Addresses(us[..i + 1]) == Addresses(us[..i]) + {us[i].addr}
  {
    assert us[..i + 1] == us[..i] + [us[i]];
    assert us[i] in us[..i + 1];
  }

  method ToMap(us: seq<Used>) returns (r: Option<map<Address, int>>)
    ensures r.Some? <==> Parses(us)
    ensures r.Some? ==> r.value.Keys == Addresses(us) && forall a :: a in Addresses(us) ==> r.value[a] == LastUsed(us, a)
  {
    var m := map[];
    for i := 0 to |us|
      invariant Parses(us[..i]) && m.Keys == Addresses(us[..i])
      invariant forall a :: a in m ==> m[a] == LastUsed(us[..i], a)
    {
      if us[i].lastUsed.None? {
        return None;
      }
      AddressesAppend(us, i);
      assert us[..i + 1][..i] == us[..i];
      m := m[us[i].addr := us[i].lastUsed.value];
    }
    assert us[..|us|] == us;
    return Some(m);
  }

  function IdleBy(primary: Address, current: set<Address>, times: map<Address, int>, now: int, timeout: int): set<Address> {
    set a | a in times && a.V4? && a != primary && a in current && now - times[a] > timeout
  }

  method IpsToFree(primary: Address, current: set<Address>, times: map<Address, int>, now: int, timeout: int)
    returns (r: set<Address>)
    ensures r == IdleBy(primary, current, times, now, timeout)
    ensures forall a :: a in r <==> a in times && a.V4? && a != primary && a in current && now - times[a] > timeout
  {
    r := {};
    var rest := times.Keys;
    while rest != {}
      invariant rest <= times.Keys
      invariant forall a :: a in r <==> a in IdleBy(primary, current, times, now, timeout) && a !in rest
      decreases |rest|
    {
      var a :| a in rest;
      rest := rest - {a};
      if a.V6? || a == primary || a !in current {
        continue;
      }
      if now - times[a] > timeout {
        r := r + {a};
      }
    }
  }

  method CalculateGc(primary: Address, described: seq<Address>, spare: seq<Used>, held: seq<Used>,
                     now: int, timeout: int) returns (r: Result<Calculation, Error>)
    ensures r == Err(BadTimestamp) <==> !Parses(spare)
    ensures r == Err(RangesOverlap) <==> Parses(spare) && |Addresses(held) * Addresses(spare)| > 1
    ensures Parses(spare) ==>
              var current := (set a | a in described) + {primary};
              var idle := Idle(primary, current, spare, now, timeout);
              && (r == Err(FreesAllocated) <==> |Addresses(held) * Addresses(spare)| <= 1 && idle * Addresses(held) != {})
              && (r.Ok? ==>
                    && idle * Addresses(held) == {} && r.value.free == idle && r.value.current == current - idle
                    && r.value.delete == idle + Vanished(current, spare, now)
                    && r.value.bump == current - idle - Addresses(held) - Addresses(spare))
    ensures r.Ok? ==> Means(r.value, primary, described, spare, held, now, timeout)
  {
    var current := (set a | a in described) + {primary};
    var spareSet := ToSet(spare);
    var times := ToMap(spare);
    if times.None? {
      return Err(BadTimestamp);
    }
    var heldSet := ToSet(held);
    if |heldSet * spareSet| > 1 {
      return Err(RangesOverlap);
    }
    var free := IpsToFree(primary, current, times.value, now, timeout);
    assert free == Idle(primary, current, spare, now, timeout);
    if |free * heldSet| > 0 {
      return Err(FreesAllocated);
    }
    var delete := Forget(free, current, spareSet, times.value, now);
    assert delete == free + Vanished(current, spare, now);
    var bump := Bump(current - free, heldSet, spareSet, delete);
    BumpIs(primary, current, spare, heldSet, now, timeout);
    r := Ok(Calculation(free, current - free, delete, bump));
    CalculationMeans(r.value, primary, described, spare, held, now, timeout);
  }

  /** Freed are the secondary IPv4 addresses of the interface whose last entry in the report is older than the timeout.
      To be forgotten are those, and whatever left the interface and has a last entry of five minutes or more ago.
      Bumped is what stays on the interface and was reported neither way. Nothing allocated is freed. */
  ghost predicate Means(c: Calculation, primary: Address, described: seq<Address>, spare: seq<Used>, held: seq<Used>,
                        now: int, timeout: int) {
    && (forall a :: a in c.free <==>
          a.V4? && a != primary && a in described && exists t :: UsedLastAt(spare, a, t) && now - t > timeout)
    && (forall a :: a in c.delete <==>
          a in c.free || (a !in described && a != primary && exists t :: UsedLastAt(spare, a, t) && now - t >= 300))
    && (forall a :: a in c.current <==> (a in described || a == primary) && a !in c.free)
    && (forall a :: a in c.bump <==> a in c.current && !Reported(held, a) && !Reported(spare, a))
    && forall a :: a in c.free ==> !Reported(held, a)
  }

  /** The time of the last entry of the report for the address. */
  ghost predicate UsedLastAt(us: seq<Used>, a: Address, t: int) {
    exists i :: LastEntry(us, a, i) && us[i].lastUsed.value == t
  }

  lemma CalculationMeans(c: Calculation, primary: Address, described: seq<Address>, spare: seq<Used>, held: seq<Used>,
                         now: int, timeout: int)
    requires Parses(spare)
    requires var current := (set a | a in described) + {primary};
             var idle := Idle(primary, current, spare, now, timeout);
             && idle * Addresses(held) == {} && c.free == idle && c.current == current - idle
             && c.delete == idle + Vanished(current, spare, now)
             && c.bump == current - idle - Addresses(held) - Addresses(spare)
    ensures Means(c, primary, described, spare, held, now, timeout)
  {
    forall a ensures (Reported(spare, a) <==> a in Addresses(spare)) && (Reported(held, a) <==> a in Addresses(held)) {
      ReportedIs(spare, a);
      ReportedIs(held, a);
    }
    forall a, t ensures UsedLastAt(spare, a, t) <==> a in Addresses(spare) && LastUsed(spare, a) == t {
      UsedLastIs(spare, a, t);
    }
    assert forall a :: a in Addresses(spare) ==> UsedLastAt(spare, a, LastUsed(spare, a));
    forall a | a in c.free ensures !Reported(held, a) {
      assert a !in c.free * Addresses(held);
    }
  }

  lemma UsedLastIs(us: seq<Used>, a: Address, t: int)
    requires Parses(us)
    ensures UsedLastAt(us, a, t) <==> a in Addresses(us) && LastUsed(us, a) == t
  {
    ReportedIs(us, a);
    if a in Addresses(us) {
      LastUsedIs(us, a);
      var i :| LastEntry(us, a, i) && us[i].lastUsed.value == LastUsed(us, a);
      assert forall j :: LastEntry(us, a, j) ==> j == i;
    } else if j :| LastEntry(us, a, j) {
      assert Reported(us, a);
    }
  }

  /** The last entry of the report for the address. */
  ghost predicate LastEntry(us: seq<Used>, a: Address, i: int) {
    && 0 <= i < |us| && us[i].addr == a && us[i].lastUsed.Some?
    && forall j :: i < j < |us| ==> us[j].addr != a
  }

  ghost predicate Reported(us: seq<Used>, a: Address) {
    exists i :: 0 <= i < |us| && us[i].addr == a
  }

  lemma ReportedIs(us: seq<Used>, a: Address)
    ensures Reported(us, a) <==> a in Addresses(us)
  {
    if Reported(us, a) {
      var i :| 0 <= i < |us| && us[i].addr == a;
      assert us[i] in us;
    }
  }

  lemma {:induction false} LastUsedIs(us: seq<Used>, a: Address)
    requires Parses(us) && a in Addresses(us)
    ensures exists i :: LastEntry(us, a, i) && us[i].lastUsed.value == LastUsed(us, a)
  {
    var n := |us| - 1;
    if us[n].addr == a {
      assert LastEntry(us, a, n);
    } else {
      assert Addresses(us) == Addresses(us[..n]) + {us[n].addr};
      LastUsedIs(us[..n], a);
      var i :| LastEntry(us[..n], a, i) && us[..n][i].lastUsed.value == LastUsed(us[..n], a);
      assert LastEntry(us, a, i);
    }
  }

  lemma BumpIs(primary: Address, current: set<Address>, spare: seq<Used>, held: set<Address>, now: int, timeout: int)
    requires Parses(spare)
    ensures var idle := Idle(primary, current, spare, now, timeout);
            current - idle - held - Addresses(spare) - (idle + Vanished(current, spare, now)) ==
            current - idle - held - Addresses(spare)
  {
  }

  /** The loop over what the agent holds unallocated. */
  method Forget(free: set<Address>, current: set<Address>, spare: set<Address>, times: map<Address, int>, now: int)
    returns (r: set<Address>)
    requires spare <= times.Keys
    ensures r == free + set a | a in spare && a !in current && now - times[a] >= FORGET
  {
    r := free;
    var rest := spare;
    while rest != {}
      invariant rest <= spare
      invariant r == free + set a | a in spare - rest && a !in current && now - times[a] >= FORGET
      decreases |rest|
    {
      var a :| a in rest;
      rest := rest - {a};
      if now - times[a] < FORGET {
        continue;
      }
      if a !in current {
        r := r + {a};
      }
    }
  }

  /** The loop over what stays on the interface. */
  method Bump(current: set<Address>, held: set<Address>, spare: set<Address>, delete: set<Address>)
    returns (r: set<Address>)
    ensures r == current - held - spare - delete
  {
    r := {};
    var rest := current;
    while rest != {}
      invariant rest <= current
      invariant forall a :: a in r <==> a in current - held - spare - delete && a !in rest
      decreases |rest|
    {
      var a :| a in rest;
      rest := rest - {a};
      if a in held || a in spare || a in delete {
        continue;
      }
      r := r + {a};
    }
  }

  // ---- What the answer is worth ----

  /** How many of the four an address is in. */
  function Places(a: Address, free: set<Address>, held: set<Address>, spare: set<Address>, bump: set<Address>): nat {
    (if a in free then 1 else 0) + (if a in held then 1 else 0) +
    (if a in spare - free then 1 else 0) + (if a in bump then 1 else 0)
  }

  /** Every address of the interface is exactly one of freed, allocated, kept unallocated or bumped, if and
      only if the agent reports none of them both allocated and unallocated. */
  lemma PartitionExact(current: set<Address>, primary: Address, spare: seq<Used>, held: set<Address>, now: int, timeout: int)
    requires Parses(spare) && Idle(primary, current, spare, now, timeout) * held == {}
    ensures var idle, un := Idle(primary, current, spare, now, timeout), Addresses(spare);
            (forall a :: a in current ==> Places(a, idle, held, un, current - idle - held - un) == 1)
            <==> held * un * current == {}
  {
    var idle, un := Idle(primary, current, spare, now, timeout), Addresses(spare);
    forall a | a in current
      ensures Places(a, idle, held, un, current - idle - held - un) == 1 <==> a !in held * un * current
    {
      assert a !in idle * held;
    }
    if a :| a in held * un * current {
      assert Places(a, idle, held, un, current - idle - held - un) != 1;
    }
  }

  /** What the agent is told to forget is never bumped nor the primary address freed; and it is never an
      allocated address, if and only if every address that the agent reports both allocated and
      unallocated, and that left the interface, was used within five minutes. */
  lemma DeleteExact(current: set<Address>, primary: Address, spare: seq<Used>, held: set<Address>, now: int, timeout: int)
    requires Parses(spare) && Idle(primary, current, spare, now, timeout) * held == {}
    ensures var idle := Idle(primary, current, spare, now, timeout);
            var delete := idle + Vanished(current, spare, now);
            && delete * (current - idle - held - Addresses(spare)) == {} && primary !in idle
            && (delete * held == {} <==>
                forall a :: a in held && a in Addresses(spare) && a !in current ==> now - LastUsed(spare, a) < FORGET)
  {
    var idle, gone := Idle(primary, current, spare, now, timeout), Vanished(current, spare, now);
    if a :| a in held && a in Addresses(spare) && a !in current && now - LastUsed(spare, a) >= FORGET {
      assert a in (idle + gone) * held;
    } else {
      assert (idle + gone) * held == idle * held + gone * held;
    }
  }

  /** One address in both lists passes the overlap check, and the agent is told to forget it. */
  lemma OneOverlapPasses()
    ensures var held, spare := [Used(V4(7), Some(0))], [Used(V4(7), Some(0))];
            && |Addresses(held) * Addresses(spare)| <= 1
            && Idle(V4(1), {V4(1)}, spare, 1000, 60) * Addresses(held) == {}
            && V4(7) in Vanished({V4(1)}, spare, 1000) * Addresses(held)
  {
    var us := [Used(V4(7), Some(0))];
    assert us[0] in us;
    assert Addresses(us) == {V4(7)};
  }
}
