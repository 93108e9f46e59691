/** Deleting the branch ENIs a subnet has in excess of its warm pool, one at a time. */
module DeleteExcess {
  import opened Option

  type Id = nat // serial number of the row: higher means newer
  type Subnet = nat

  const WARM_POOL: nat := 50

  /** A row of branch_enis, and how many addresses EC2 has on the interface. */
  datatype Branch = Branch(subnet: Subnet, settled: bool, ipv4: nat, ipv6: nat)

  /** Nothing but the primary address is left on the interface. */
  predicate Clean(b: Branch) { b.ipv4 <= 1 && b.ipv6 == 0 }

  /** What the query that looks for an ENI to delete considers: old enough, and not in live, the ENIs that
      have an attachment in state attaching, attached or unattaching. */
  function Eligible(enis: map<Id, Branch>, live: set<Id>, subnet: Subnet): set<Id> {
    set i | i in enis && enis[i].subnet == subnet && enis[i].settled && i !in live
  }

  function Newer(s: set<Id>, i: Id): set<Id> { set j | j in s && j > i }

  /** The n newest of a set. */
  function Newest(s: set<Id>, n: nat): set<Id> { set i | i in s && |Newer(s, i)| < n }

  // ---- Ranks ----

  lemma {:induction false} Ranked(s: set<Id>, n: nat)
    requires n < |s|
    ensures exists i :: i in s && |Newer(s, i)| == n
    decreases n
  {
    var m := Max(s);
    if n == 0 {
      assert Newer(s, m) == {};
    } else {
      Ranked(s - {m}, n - 1);
      var i :| i in s - {m} && |Newer(s - {m}, i)| == n - 1;
      NewerWithMax(s, m, i);
    }
  }

  lemma NewerWithMax(s: set<Id>, m: Id, i: Id)
    requires m in s && i < m
    ensures |Newer(s, i)| == |Newer(s - {m}, i)| + 1
  {
    assert Newer(s, i) == Newer(s - {m}, i) + {m};
  }

  lemma {:induction false} Max(s: set<Id>) returns (m: Id)
    requires s != {}
    ensures m in s && forall i :: i in s ==> i <= m
    decreases |s|
  {
    var x :| x in s;
    m := x;
    if s != {x} {
      var k := Max(s - {x});
      assert forall i :: i in s ==> i == x || i in s - {x};
      m := if k > x then k else x;
    }
  }

  lemma SubsetSize(a: set<Id>, b: set<Id>)
    requires a <= b
    ensures |a| <= |b|
  {
    assert b == a + (b - a);
  }

  /** An ENI outside the newest n has at least n newer ones, so a set of at most n is all newest. */
  lemma AllNewest(s: set<Id>, n: nat)
    requires |s| <= n
    ensures Newest(s, n) == s
  {
    forall i | i in s ensures i in Newest(s, n) {
      SubsetSize(Newer(s, i), s - {i});
    }
  }

  /** Deleting the first one past the newest n leaves the newest n as they are. */
  lemma NewestKept(s: set<Id>, n: nat, x: Id)
    requires x in s && |Newer(s, x)| == n
    ensures Newest(s - {x}, n) == Newest(s, n)
  {
    forall i | i in s - {x} ensures i in Newest(s - {x}, n) <==> i in Newest(s, n) {
      if i > x {
        assert Newer(s - {x}, i) == Newer(s, i);
      } else {
        assert Newer(s, i) == Newer(s - {x}, i) + {x};
        SubsetSize(Newer(s, x), Newer(s - {x}, i));
      }
    }
  }

  lemma {:induction false} NewestSize(s: set<Id>, n: nat)
    ensures |Newest(s, n)| == if |s| <= n then |s| else n
    decreases |s|
  {
    if |s| <= n {
      AllNewest(s, n);
    } else {
      Ranked(s, n);
      var x :| x in s && |Newer(s, x)| == n;
      NewestKept(s, n, x);
      NewestSize(s - {x}, n);
    }
  }

  /** Whatever is not among the newest n is older than each of them. */
  lemma NewestAreNewer(s: set<Id>, n: nat)
    ensures forall i, j :: i in s - Newest(s, n) && j in Newest(s, n) ==> i < j
  {
    forall i, j | i in s - Newest(s, n) && j in Newest(s, n) ensures i < j {
      if i >= j { SubsetSize(Newer(s, i), Newer(s, j)); }
    }
  }

  // ---- The service ----

  /** What may fail in a round, in the order of its steps; EC2 refuses only after the row is gone. */
  datatype Fault = NoFault | SelectFails | DescribeFails | DeleteFails | Ec2Refuses

  class Service {
    var enis: map<Id, Branch> // branch_enis
    var live: set<Id>         // branch_eni_attachments
    var ec2: set<Id>          // the interfaces EC2 has

    constructor (enis: map<Id, Branch>, live: set<Id>, ec2: set<Id>)
      ensures this.enis == enis && this.live == live && this.ec2 == ec2
    {
      this.enis, this.live, this.ec2 := enis, live, ec2;
    }

    /** Newest first, past the warm pool. */
    method SelectExcess(subnet: Subnet) returns (r: Option<Id>)
      ensures r.None? <==> |Eligible(enis, live, subnet)| <= WARM_POOL
      ensures r.Some? ==>
                r.value in Eligible(enis, live, subnet) && |Newer(Eligible(enis, live, subnet), r.value)| == WARM_POOL
      ensures r.Some? ==>
                && r.value in enis && enis[r.value].subnet == subnet && enis[r.value].settled && r.value !in live
                && |set i | i in enis && enis[i].subnet == subnet && enis[i].settled && i !in live && i > r.value| == 50
      ensures r.None? <==> |set i | i in enis && enis[i].subnet == subnet && enis[i].settled && i !in live| <= 50
    {
      assert Eligible(enis, live, subnet) == set i | i in enis && enis[i].subnet == subnet && enis[i].settled && i !in live;
      var rows := Eligible(enis, live, subnet);
      if |rows| <= WARM_POOL {
        return None;
      }
      Ranked(rows, WARM_POOL);
      var i :| i in rows && |Newer(rows, i)| == WARM_POOL;
      assert Newer(rows, i) == set j | j in enis && enis[j].subnet == subnet && enis[j].settled && j !in live && j > i;
      r := Some(i);
    }

    /** One round of doDeleteExcessBranches. Between the selection and the deletion some ENIs may get
        attached, and EC2 may refuse to delete the interface after the row is gone. */
    method DeleteOne(subnet: Subnet, consumed: set<Id>, fault: Fault) returns (r: Result<bool, ()>, gone: Option<Id>)
      modifies this
      ensures live == old(live) + consumed
      ensures enis == if gone.Some? then old(enis) - {gone.value} else old(enis)
      ensures ec2 == if gone.Some? && !fault.Ec2Refuses? then old(ec2) - {gone.value} else old(ec2)
      ensures gone.Some? ==>
                && (fault.NoFault? || fault.Ec2Refuses?)
                && gone.value in Eligible(old(enis), live, subnet) && Clean(old(enis)[gone.value])
                && |Newer(Eligible(old(enis), old(live), subnet), gone.value)| == WARM_POOL
      ensures gone.Some? ==>
                && gone.value in old(enis) && gone.value !in live
                && var b := old(enis)[gone.value]; b.subnet == subnet && b.settled && b.ipv4 <= 1 && b.ipv6 == 0
      ensures gone.Some? ==>
                |set i | i in old(enis) && old(enis)[i].subnet == subnet && old(enis)[i].settled && i !in old(live) &&
                         i > gone.value| == 50
      ensures r.Ok? && r.value <==> gone.Some? && fault.NoFault?
      ensures r.Ok? && !r.value <==> !fault.SelectFails? && |Eligible(old(enis), old(live), subnet)| <= WARM_POOL
      ensures consumed == {} && fault.NoFault? && r.Err? ==>
                exists i :: i in enis && enis[i].subnet == subnet && enis[i].settled && i !in live &&
                            (enis[i].ipv4 > 1 || enis[i].ipv6 > 0)
      ensures consumed == {} && fault.NoFault? && r.Err? ==>
                exists i :: i in Eligible(old(enis), old(live), subnet) && !Clean(old(enis)[i]) &&
                            |Newer(Eligible(old(enis), old(live), subnet), i)| == WARM_POOL
    {
      var selected := SelectExcess(subnet);
      live := live + consumed;
      if fault.SelectFails? {
        return Err(()), None;
      }
      if selected.None? {
        return Ok(false), None;
      }
      var i := selected.value;
      if fault.DescribeFails? || !Clean(enis[i]) {
        return Err(()), None;
      }
      if fault.DeleteFails? || i in live {
        return Err(()), None;
      }
      enis := enis - {i};
      if fault.Ec2Refuses? {
        return Err(()), Some(i);
      }
      ec2 := ec2 - {i};
      return Ok(true), Some(i);
    }

    /** Rounds with nobody else around come to rest with exactly the newest ENIs the warm pool may keep,
        and with no other row changed, if and only if all the others are clean. Otherwise one of those
        others stops every further round. */
    method DeleteAll(subnet: Subnet) returns (done: bool)
      modifies this
      ensures live == old(live)
      ensures var all := Eligible(old(enis), live, subnet);
              var excess := all - Newest(all, WARM_POOL);
              && (done <==> forall i :: i in excess ==> Clean(old(enis)[i]))
              && (done ==>
                    && Eligible(enis, live, subnet) == Newest(all, WARM_POOL)
                    && enis == old(enis) - excess && ec2 == old(ec2) - excess)
              && (!done ==> exists i :: i in Eligible(enis, live, subnet) && i in excess && !Clean(enis[i]) &&
                                        |Newer(Eligible(enis, live, subnet), i)| == WARM_POOL)
      ensures OnlyExcess(old(enis), enis, subnet, live) && (done ==> OldestGone(old(enis), enis, subnet, live))
    {
      ghost var start, lv, ec2Start, gone := enis, live, ec2, {};
      ghost var all := Eligible(start, lv, subnet);
      assert all - {} == all && start - {} == start && ec2 - {} == ec2;
      while true
        invariant live == lv && Deleted(start, all, gone, subnet, lv, enis, ec2Start, ec2)
        decreases all - gone
      {
        ghost var now, nowEc2 := enis, ec2;
        var r, more := DeleteOne(subnet, {}, NoFault);
        assert live == lv;
        if r.Err? {
          ghost var i :| i in Eligible(now, lv, subnet) && !Clean(now[i]) && |Newer(Eligible(now, lv, subnet), i)| == WARM_POOL;
          assert i !in Newest(all - gone, WARM_POOL);
          DeletedMeans(start, all, gone, subnet, lv, enis, ec2Start, ec2);
          return false;
        }
        if !r.value {
          break;
        }
        DeletedMore(start, all, gone, subnet, lv, now, ec2Start, nowEc2, more.value);
        gone := gone + {more.value};
      }
      DeletedAll(start, all, gone, subnet, lv, enis, ec2Start, ec2);
      DeletedMeans(start, all, gone, subnet, lv, enis, ec2Start, ec2);
      done := true;
    }
  }

  /** Some ENIs past the warm pool were deleted from the start's rows. */
  ghost predicate Deleted(start: map<Id, Branch>, all: set<Id>, gone: set<Id>, subnet: Subnet, live: set<Id>,
                          enis: map<Id, Branch>, ec2Start: set<Id>, ec2: set<Id>) {
    && gone <= all && ec2 == ec2Start - gone && enis == start - gone && Eligible(enis, live, subnet) == all - gone
    && Newest(all - gone, WARM_POOL) == Newest(all, WARM_POOL)
    && forall i :: i in gone ==> i in start && Clean(start[i])
  }

  lemma DeletedMore(start: map<Id, Branch>, all: set<Id>, gone: set<Id>, subnet: Subnet, live: set<Id>,
                    enis: map<Id, Branch>, ec2Start: set<Id>, ec2: set<Id>, x: Id)
    requires Deleted(start, all, gone, subnet, live, enis, ec2Start, ec2)
    requires x in Eligible(enis, live, subnet) && Clean(enis[x]) && |Newer(Eligible(enis, live, subnet), x)| == WARM_POOL
    ensures Deleted(start, all, gone + {x}, subnet, live, enis - {x}, ec2Start, ec2 - {x})
  {
    NewestKept(all - gone, WARM_POOL, x);
    assert all - gone - {x} == all - (gone + {x});
    assert Eligible(enis - {x}, live, subnet) == Eligible(enis, live, subnet) - {x};
    assert enis - {x} == start - (gone + {x});
  }

  lemma DeletedAll(start: map<Id, Branch>, all: set<Id>, gone: set<Id>, subnet: Subnet, live: set<Id>,
                   enis: map<Id, Branch>, ec2Start: set<Id>, ec2: set<Id>)
    requires Deleted(start, all, gone, subnet, live, enis, ec2Start, ec2) && |Eligible(enis, live, subnet)| <= WARM_POOL
    ensures Eligible(enis, live, subnet) == Newest(all, WARM_POOL) && all - Newest(all, WARM_POOL) == gone
    ensures OldestGone(start, enis, subnet, live)
  {
    AllNewest(all - gone, WARM_POOL);
    assert all - (all - gone) == gone;
    NewestAreNewer(all, WARM_POOL);
    forall i: Id, j: Id | i in start && i !in enis && Spare(enis, live, subnet, j) ensures i < j {
      assert i in gone && j in Eligible(enis, live, subnet);
    }
  }

  /** A row that is of the subnet, settled and not attached. */
  predicate Spare(enis: map<Id, Branch>, live: set<Id>, subnet: Subnet, i: Id) {
    i in enis && enis[i].subnet == subnet && enis[i].settled && i !in live
  }

  /** No row is new or changed, and only spare ones of the subnet with no address but the primary one are gone. */
  ghost predicate OnlyExcess(start: map<Id, Branch>, enis: map<Id, Branch>, subnet: Subnet, live: set<Id>) {
    && (forall i :: i in enis ==> i in start && enis[i] == start[i])
    && forall i :: i in start && i !in enis ==> Spare(start, live, subnet, i) && start[i].ipv4 <= 1 && start[i].ipv6 == 0
  }

  /** Those gone are older than every spare one left. */
  ghost predicate OldestGone(start: map<Id, Branch>, enis: map<Id, Branch>, subnet: Subnet, live: set<Id>) {
    forall i: Id, j: Id :: i in start && i !in enis && Spare(enis, live, subnet, j) ==> i < j
  }

  lemma DeletedMeans(start: map<Id, Branch>, all: set<Id>, gone: set<Id>, subnet: Subnet, live: set<Id>,
                     enis: map<Id, Branch>, ec2Start: set<Id>, ec2: set<Id>)
    requires all == Eligible(start, live, subnet) && Deleted(start, all, gone, subnet, live, enis, ec2Start, ec2)
    ensures OnlyExcess(start, enis, subnet, live)
  {
  }

  // ---- A subnet that is stuck ----

  function Ids(n: nat): (s: set<Id>)
    ensures |s| == n && forall i: nat :: i in s <==> i < n
  {
    if n == 0 then {} else Ids(n - 1) + {n - 1}
  }

  /** n unattached ENIs of subnet 0, of which the oldest still has a second address. */
  function Rows(n: nat): (m: map<Id, Branch>)
    ensures forall i: nat :: i in m <==> i < n
    ensures forall i :: i in m ==> m[i] == Branch(0, true, if i == 0 then 2 else 1, 0)
  {
    if n == 0 then map[] else Rows(n - 1)[n - 1 := Branch(0, true, if n == 1 then 2 else 1, 0)]
  }

  lemma OldestIsExcess(n: nat)
    ensures var enis := Rows(n + 1);
            var all := Eligible(enis, {}, 0);
            0 in all - Newest(all, n) && !Clean(enis[0])
  {
    var all := Eligible(Rows(n + 1), {}, 0);
    assert all == Ids(n + 1);
    assert Newer(all, 0) == all - {0};
  }

  /** With one ENI more than the warm pool of n that is not clean, the subnet never gets down to it. */
  method StuckSubnet(n: nat) returns (done: bool)
    requires n == WARM_POOL
    ensures !done
  {
    OldestIsExcess(n);
    var s := new Service(Rows(n + 1), {}, {});
    done := s.DeleteAll(0);
  }
}
