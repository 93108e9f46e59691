/** Picking an address for a task that asked for any: reuse the one of the ENI that has been idle the
    longest, and ask EC2 for a batch of new ones only when none is free. */
module AddressAllocator {
  import opened Option
  import opened AddressModel
  import opened AddressInvariant

  const BATCH: nat := 4

  /** NoneGranted stands for the index error on which the code stops if EC2 grants a request with no address. */
  datatype Error = AllInUse | EniFull | Ec2Failed | OnlyStatic | NoneGranted

  /** The set of addresses that some rows or an EC2 description list. */
  function Listed(rows: seq<Addr>): set<Addr> { set a | a in rows }

  /** a was last seen before b was; an address that was never seen comes first. */
  predicate SeenBefore(lastSeen: map<Addr, int>, a: Addr, b: Addr) {
    b in lastSeen && (a !in lastSeen || lastSeen[a] < lastSeen[b])
  }

  predicate LongestIdle(lastSeen: map<Addr, int>, free: set<Addr>, a: Addr) {
    a in free && forall b :: b in free ==> !SeenBefore(lastSeen, b, a)
  }

  /** How many addresses to ask EC2 for on an ENI that lists so many. */
  function Request(max: int, listed: nat): (n: nat)
    ensures n <= BATCH && (n > 0 ==> listed + n <= max) && (n == 0 <==> listed >= max)
    ensures n < BATCH && listed < max ==> listed + n == max
  {
    if max <= listed then 0 else if max - listed > BATCH then BATCH else max - listed
  }

  class BranchEni {
    var addrs: set<Addr>           // what EC2 has on the ENI
    var lastSeen: map<Addr, int>   // ip_last_used_v3

    /** assignArbitraryIPv4AddressV3: EC2's changes stay, the table's are rolled back with an error. */
    method AssignIPv4(described: seq<Addr>, usedRows: seq<Addr>, staticRows: seq<Addr>, max: int, now: int,
                      reply: Option<seq<Addr>>) returns (r: Result<Addr, Error>, asked: nat)
      modifies this
      ensures var used, all := Listed(usedRows), Listed(described);
              var free := all - used - Listed(staticRows);
              && (r == Err(AllInUse) <==> |used| >= max)
              && (r == Err(EniFull) <==> |used| < max <= |all| && free == {})
              && (|used| < max && free != {} ==> r.Ok? && asked == 0 && LongestIdle(old(lastSeen), free, r.value))
              && asked == (if |used| < max && free == {} then Request(max, |all|) else 0)
      ensures asked > 0 ==>
                && (r == Err(Ec2Failed) <==> reply.None?)
                && (r == Err(OnlyStatic) <==> reply.Some? && Listed(reply.value) <= Listed(staticRows))
                && (r.Ok? ==> r.value in reply.value)
      ensures asked <= 4 && (0 < asked < 4 ==> |Listed(described)| + asked == max)
      ensures r.Ok? ==> r.value !in staticRows && (r.value in usedRows ==> asked > 0)
      ensures r.Ok? && asked == 0 ==>
                && r.value in described
                && forall b :: b in described && b !in usedRows && b !in staticRows && r.value in old(lastSeen) ==>
                     b in old(lastSeen) && old(lastSeen)[r.value] <= old(lastSeen)[b]
      ensures forall a :: a in addrs <==> a in old(addrs) || (asked > 0 && reply.Some? && a in reply.value)
      ensures lastSeen == if asked > 0 && r.Ok? then SeeAll(old(lastSeen), reply.value, now) else old(lastSeen)
    {
      asked := 0;
      var used := ListRows(usedRows);
      var all := ListRows(described);
      if |used| >= max {
        return Err(AllInUse), asked;
      }
      var unused := RemoveRows(all - used, staticRows);
      if |unused| > 0 {
        var a := LeastRecentlyUsed(unused, lastSeen);
        assert forall b :: b in described && b !in usedRows && b !in staticRows ==> b in unused && !SeenBefore(lastSeen, b, a);
        return Ok(a), asked;
      }
      asked := Request(max, |all|);
      if asked == 0 {
        return Err(EniFull), asked;
      }
      if reply.None? {
        return Err(Ec2Failed), asked;
      }
      var news := ListRows(reply.value);
      addrs := addrs + news;
      news := RemoveRows(news, staticRows);
      NothingLeft(Listed(reply.value), Listed(staticRows));
      if |news| == 0 {
        return Err(OnlyStatic), asked;
      }
      lastSeen := SeeAll(lastSeen, reply.value, now);
      var a :| a in news;
      r := Ok(a);
    }

    /** assignArbitraryIPv6AddressV3: nothing is static, and new addresses count as never seen. */
    method AssignIPv6(described: seq<Addr>, usedRows: seq<Addr>, max: int, reply: Option<seq<Addr>>)
      returns (r: Result<Addr, Error>, asked: nat)
      modifies this`addrs
      ensures var used, all := Listed(usedRows), Listed(described);
              && (r == Err(AllInUse) <==> |used| >= max)
              && (r == Err(EniFull) <==> |used| < max <= |all| && all - used == {})
              && (|used| < max && all - used != {} ==>
                    r.Ok? && asked == 0 && LongestIdle(lastSeen, all - used, r.value))
              && asked == (if |used| < max && all - used == {} then Request(max, |all|) else 0)
      ensures r.Ok? && asked == 0 ==>
                && r.value in described && r.value !in usedRows
                && forall b :: b in described && b !in usedRows && r.value in lastSeen ==>
                     b in lastSeen && lastSeen[r.value] <= lastSeen[b]
      ensures asked > 0 ==>
                && (r == Err(Ec2Failed) <==> reply.None?) && (r == Err(NoneGranted) <==> reply == Some([]))
                && (r.Ok? ==> r.value == reply.value[0])
      ensures forall a :: a in addrs <==> a in old(addrs) || (asked > 0 && reply.Some? && a in reply.value)
    {
      asked := 0;
      var used := ListRows(usedRows);
      var all := ListRows(described);
      if |used| >= max {
        return Err(AllInUse), asked;
      }
      if |all - used| > 0 {
        var a := LeastRecentlyUsed(all - used, lastSeen);
        assert forall b :: b in described && b !in usedRows ==> b in all - used && !SeenBefore(lastSeen, b, a);
        return Ok(a), asked;
      }
      asked := Request(max, |all|);
      if asked == 0 {
        return Err(EniFull), asked;
      }
      if reply.None? {
        return Err(Ec2Failed), asked;
      }
      addrs := addrs + Listed(reply.value);
      if reply.value == [] {
        return Err(NoneGranted), asked;
      }
      r := Ok(reply.value[0]);
    }
  }

  method ListRows(rows: seq<Addr>) returns (r: set<Addr>)
    ensures r == Listed(rows)
  {
    r := {};
    for i := 0 to |rows|
      invariant r == Listed(rows[..i])
    {
      r := r + {rows[i]};
    }
    assert rows[..|rows|] == rows;
  }

  method RemoveRows(s: set<Addr>, rows: seq<Addr>) returns (r: set<Addr>)
    ensures r == s - Listed(rows)
  {
    r := s;
    for i := 0 to |rows|
      invariant r == s - Listed(rows[..i])
    {
      r := r - {rows[i]};
    }
    assert rows[..|rows|] == rows;
  }

  /** When an address was last used; None is the epoch, before every recorded time. */
  predicate Before(x: Option<int>, y: Option<int>) {
    y.Some? && (x.None? || x.value < y.value)
  }

  /** Unused addresses in the order of last use, the first one taken. */
  method LeastRecentlyUsed(unused: set<Addr>, lastSeen: map<Addr, int>) returns (a: Addr)
    requires unused != {}
    ensures LongestIdle(lastSeen, unused, a)
  {
    var list := ListOf(unused);
    var times := LastUsedTimes(list, lastSeen);
    assert list[0] in unused;
    a := list[0];
    for i := 1 to |list|
      invariant a in list
      invariant forall j :: 0 <= j < i ==> !Before(times[list[j]], times[a])
    {
      if Before(times[list[i]], times[a]) {
        a := list[i];
      }
    }
  }

  /** The epoch for every address of the list, overwritten by the rows that the table has for them. */
  method LastUsedTimes(list: seq<Addr>, lastSeen: map<Addr, int>) returns (times: map<Addr, Option<int>>)
    ensures forall a :: a in list ==> a in times && times[a] == if a in lastSeen then Some(lastSeen[a]) else None
  {
    times := map[];
    for i := 0 to |list|
      invariant forall j :: 0 <= j < i ==> list[j] in times && times[list[j]] == None
    {
      times := times[list[i] := None];
    }
    for i := 0 to |list|
      invariant forall j :: 0 <= j < |list| ==> list[j] in times
      invariant forall j :: 0 <= j < i ==> times[list[j]] == if list[j] in lastSeen then Some(lastSeen[list[j]]) else None
      invariant forall j :: 0 <= j < |list| ==>
                  times[list[j]] == None || (list[j] in lastSeen && times[list[j]] == Some(lastSeen[list[j]]))
    {
      if list[i] in lastSeen {
        times := times[list[i] := Some(lastSeen[list[i]])];
      }
    }
  }

  method ListOf(s: set<Addr>) returns (r: seq<Addr>)
    ensures Listed(r) == s && (s != {} ==> |r| > 0)
  {
    r := [];
    var rest := s;
    while rest != {}
      invariant rest <= s && Listed(r) == s - rest
      decreases |rest|
    {
      var a :| a in rest;
      assert Listed(r + [a]) == Listed(r) + {a};
      r, rest := r + [a], rest - {a};
    }
  }

  // ---- What the choice means for the address protocol ----

  /** The addresses the assignments of an association use. */
  ghost function Used(s: State, assoc: Assoc): set<Addr> {
    set t | t in s.asgs && s.asgs[t].assoc == assoc && s.asgs[t].v4.Some? :: s.asgs[t].v4.value
  }

  /** What AssignIPv4 picks without EC2 may be assigned, whoever else uses the ENI. */
  lemma FreeIsEnabled(s: State, t: Task, x: Extra, all: set<Addr>, a: Addr)
    requires Pending(s, t) && Unused(s, x)
    requires forall b :: b in all ==> OnEni(s, b, s.branchOf[s.asgs[t].assoc])
    requires a in all - Used(s, s.asgs[t].assoc) - s.config.home.Keys
    ensures Enabled(s, AssignFree(t, a, x))
  {
    forall u | u in s.asgs && s.asgs[u].assoc == s.asgs[t].assoc && s.asgs[u].v4.Some?
      ensures s.asgs[u].v4.value in Used(s, s.asgs[t].assoc)
    {
    }
  }

  /** What AssignIPv4 picks from a batch that EC2 granted may be assigned, as long as the addresses in use
      are where they belong. */
  lemma GrantedIsEnabled(s: State, t: Task, x: Extra, news: seq<Addr>, a: Addr)
    requires Pending(s, t) && Unused(s, x) && AllNew(s, news) && a in news && !IsStatic(s, a)
    requires Placed(s) && s.asgs[t].assoc in s.attached
    ensures Enabled(s, AssignNew(t, news, a, x))
  {
    forall u | u in s.asgs && s.asgs[u].assoc == s.asgs[t].assoc ensures s.asgs[u].v4 != Some(a) {
      assert UsedBy(s, u, a) ==> OnEni(s, a, s.branchOf[s.asgs[u].assoc]);
    }
  }

  /** Only static addresses that nobody uses can fill an ENI: without them on it, a task gets an address
      or an EC2 request is made, as long as fewer than max are in use. */
  lemma FullNeedsStrays(all: set<Addr>, used: set<Addr>, statics: set<Addr>, max: int)
    requires used <= all && |used| < max && statics * (all - used) == {}
    ensures all - used - statics != {} || Request(max, |all|) > 0
  {
    assert all == used + (all - used - statics);
  }

  /** A batch never takes an ENI past its limit. */
  lemma BatchFits(all: set<Addr>, news: seq<Addr>, max: int)
    requires |news| <= Request(max, |all|)
    ensures |all + Listed(news)| <= if |all| < max then max else |all|
  {
    ListedSize(news);
    UnionSize(all, Listed(news));
    assert Listed(news) == (Listed(news) - all) + Listed(news) * all;
    UnionSize(Listed(news) - all, Listed(news) * all);
  }

  lemma {:induction false} ListedSize(news: seq<Addr>)
    ensures |Listed(news)| <= |news|
  {
    if news == [] {
      assert Listed(news) == {};
    } else {
      ListedSize(news[1..]);
      assert Listed(news) == Listed(news[1..]) + {news[0]};
    }
  }

  lemma NothingLeft(a: set<Addr>, b: set<Addr>)
    ensures a - b == {} <==> a <= b
  {
    forall x | x in a && x !in b ensures a - b != {} {
      assert x in a - b;
    }
  }

  lemma UnionSize(a: set<Addr>, b: set<Addr>)
    ensures |a + b| == |a| + |b - a|
  {
    assert a + b == a + (b - a);
  }
}
