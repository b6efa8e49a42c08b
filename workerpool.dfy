/** The sequential core of the worker pool: the hostname-to-lane router that
    `RunQuery` consults and updates, and the cursor loop of `RunWorkers`.
    Lanes are the indices `0..numWorkers-1` of the pool's query channels,
    which are pairwise distinct, so a lane index stands for its channel. */
module Workerpool {
  import opened Wrappers

  datatype PoolError =
    | TooFewWorkers   // "number of workers must be greater than 0"
    | TooManyWorkers  // "number of workers must be less than the number of CPUs"
    | ContextDone     // the context was done before the lane took the query

  /** The routing state: the hostname bindings and the round-robin cursor.
      Routing only compares hostnames, so it is stated for any hostname type
      `H`; the pool uses strings. */
  datatype Routing<H> = Routing(bindings: map<H, int>, cursor: int)

  /** One routing decision of `RunQuery` among `n` lanes: a bound hostname keeps
      its lane; a new one is bound to the lane at the cursor, which moves on. */
  function Resolve<H(==,!new)>(r: Routing<H>, n: int, host: H): (step: (int, Routing<H>))
    requires n >= 1
  {
    if host in r.bindings then (r.bindings[host], r)
    else (r.cursor, Routing(r.bindings[host := r.cursor], (r.cursor + 1) % n))
  }

  /** The routing state after `RunQuery` was called for `hosts`, in order,
      on a pool fresh from `New`. */
  function Replay<H(==,!new)>(hosts: seq<H>, n: int): (routing: Routing<H>)
    requires n >= 1
  {
    if hosts == [] then Routing(map[], 0)
    else Resolve(Replay(hosts[..|hosts| - 1], n), n, hosts[|hosts| - 1]).1
  }

  /** The lane `RunQuery` hands the `i`-th query to. */
  function Lane<H(==,!new)>(hosts: seq<H>, n: int, i: int): (lane: int)
    requires n >= 1 && 0 <= i < |hosts|
  {
    Resolve(Replay(hosts[..i], n), n, hosts[i]).0
  }

  /** The lane of each query of `hosts`, in order. */
  function Lanes<H(==,!new)>(hosts: seq<H>, n: int): (lanes: seq<int>)
    requires n >= 1
    ensures |lanes| == |hosts|
  {
    seq(|hosts|, i requires 0 <= i < |hosts| => Lane(hosts, n, i))
  }

  /** The hostnames of `hosts` in order of first occurrence. */
  function Distinct<H(==,!new)>(hosts: seq<H>): (d: seq<H>)
    ensures forall x :: x in d <==> x in hosts
    ensures forall i, j :: 0 <= i < j < |d| ==> d[i] != d[j]
  {
    if hosts == [] then []
    else
      var init, last := hosts[..|hosts| - 1], hosts[|hosts| - 1];
      assert hosts == init + [last];
      if last in init then Distinct(init) else Distinct(init) + [last]
  }

  lemma DistinctSnoc<H(!new)>(hosts: seq<H>, x: H)
    ensures Distinct(hosts + [x]) == if x in hosts then Distinct(hosts) else Distinct(hosts) + [x]
  {
    assert (hosts + [x])[..|hosts|] == hosts;
  }

  /** Position of `x` in `d`. */
  function IndexOf<H(==,!new)>(d: seq<H>, x: H): (k: nat)
    requires x in d
    ensures k < |d| && d[k] == x
  {
    if d[0] == x then 0 else 1 + IndexOf(d[1..], x)
  }

  lemma MulAtLeast(k: int, n: int)
    requires k >= 1 && n >= 1
    ensures k * n >= n
  {
    assert k * n == (k - 1) * n + n;
    assert (k - 1) * n >= 0;
  }

  /** `x % n` is the unique remainder in `0..n-1`. */
  lemma ModUnique(x: int, q: int, y: int, n: int)
    requires n >= 1 && 0 <= y < n && x == q * n + y
    ensures x % n == y
  {
    var q', y' := x / n, x % n;
    assert x == q' * n + y';
    var k := q - q';
    assert q * n - q' * n == k * n;
    assert k * n == y' - y;
    if k >= 1 {
      MulAtLeast(k, n);
    } else if k <= -1 {
      MulAtLeast(-k, n);
    }
  }

  lemma ModNext(a: int, n: int)
    requires n >= 1
    ensures (a % n + 1) % n == (a + 1) % n
  {
    var q, r := a / n, a % n;
    assert a == q * n + r;
    if r + 1 < n {
      ModUnique(a + 1, q, r + 1, n);
      ModUnique(r + 1, 0, r + 1, n);
    } else {
      assert a + 1 == (q + 1) * n + 0;
      ModUnique(a + 1, q + 1, 0, n);
      ModUnique(r + 1, 1, 0, n);
    }
  }

  /** From a fresh pool: the cursor is the number of distinct hostnames seen
      modulo `n`, exactly the hostnames seen are bound, and the `k`-th distinct
      hostname is bound to lane `k mod n`. */
  lemma {:induction false} ReplayShape<H(!new)>(hosts: seq<H>, n: int)
    requires n >= 1
    ensures Replay(hosts, n).cursor == |Distinct(hosts)| % n
    ensures forall x :: x in Replay(hosts, n).bindings <==> x in hosts
    ensures forall k :: 0 <= k < |Distinct(hosts)| ==>
              Replay(hosts, n).bindings[Distinct(hosts)[k]] == k % n
  {
    if hosts != [] {
      var init, last := hosts[..|hosts| - 1], hosts[|hosts| - 1];
      assert hosts == init + [last];
      ReplayShape(init, n);
      if last !in init {
        ModNext(|Distinct(init)|, n);
      }
    }
  }

  /** Every lane a hostname is ever bound to is one of the `n` lanes, and the
      cursor is always a lane. */
  lemma LanesInRange<H(!new)>(hosts: seq<H>, n: int)
    requires n >= 1
    ensures 0 <= Replay(hosts, n).cursor < n
    ensures forall x :: x in Replay(hosts, n).bindings ==> 0 <= Replay(hosts, n).bindings[x] < n
  {
    ReplayShape(hosts, n);
    var r, d := Replay(hosts, n), Distinct(hosts);
    forall x | x in r.bindings
      ensures 0 <= r.bindings[x] < n
    {
      var k := IndexOf(d, x);
      assert r.bindings[d[k]] == k % n;
    }
  }

  /** A binding, once made, is never changed by later queries. */
  lemma {:induction false} BindingsNeverChange<H(!new)>(hosts: seq<H>, j: int, n: int)
    requires n >= 1 && 0 <= j <= |hosts|
    ensures forall x :: x in Replay(hosts[..j], n).bindings ==>
              x in Replay(hosts, n).bindings
              && Replay(hosts, n).bindings[x] == Replay(hosts[..j], n).bindings[x]
  {
    if j < |hosts| {
      var init := hosts[..|hosts| - 1];
      assert init[..j] == hosts[..j];
      BindingsNeverChange(init, j, n);
    } else {
      assert hosts[..j] == hosts;
    }
  }

  /** The lane of every query is the lane its hostname is bound to at the end. */
  lemma LaneIsFinalBinding<H(!new)>(hosts: seq<H>, n: int, i: int)
    requires n >= 1 && 0 <= i < |hosts|
    ensures hosts[i] in Replay(hosts, n).bindings
    ensures Lane(hosts, n, i) == Replay(hosts, n).bindings[hosts[i]]
  {
    assert hosts[..i + 1][..i] == hosts[..i];
    BindingsNeverChange(hosts, i + 1, n);
  }

  /** Affinity: two queries for the same hostname go to the same lane. */
  lemma SameHostSameLane<H(!new)>(hosts: seq<H>, n: int, i: int, j: int)
    requires n >= 1 && 0 <= i < |hosts| && 0 <= j < |hosts|
    requires hosts[i] == hosts[j]
    ensures Lane(hosts, n, i) == Lane(hosts, n, j)
  {
    LaneIsFinalBinding(hosts, n, i);
    LaneIsFinalBinding(hosts, n, j);
  }

  /** The `k`-th distinct hostname, counted from zero in order of first
      occurrence, gets lane `k mod n`. */
  lemma KthDistinctHostLane<H(!new)>(hosts: seq<H>, n: int, i: int)
    requires n >= 1 && 0 <= i < |hosts|
    ensures hosts[i] in Distinct(hosts)
    ensures Lane(hosts, n, i) == IndexOf(Distinct(hosts), hosts[i]) % n
  {
    LaneIsFinalBinding(hosts, n, i);
    ReplayShape(hosts, n);
  }

  /** With at least `n` distinct hostnames, every lane receives some query. */
  lemma EveryLaneUsed<H(!new)>(hosts: seq<H>, n: int)
    requires n >= 1 && |Distinct(hosts)| >= n
    ensures forall l :: 0 <= l < n ==> l in Lanes(hosts, n)
  {
    var d, lanes := Distinct(hosts), Lanes(hosts, n);
    forall l | 0 <= l < n
      ensures l in lanes
    {
      assert d[l] in hosts;
      var i :| 0 <= i < |hosts| && hosts[i] == d[l];
      KthDistinctHostLane(hosts, n, i);
      assert IndexOf(d, d[l]) == l;
      ModUnique(l, 0, l, n);
      assert lanes[i] == l;
    }
  }

  /** Among the first `n` distinct hostnames, different hostnames get
      different lanes. */
  lemma FirstHostsSeparate<H(!new)>(hosts: seq<H>, n: int, i: int, j: int)
    requires n >= 1 && 0 <= i < |hosts| && 0 <= j < |hosts|
    requires hosts[i] != hosts[j]
    requires hosts[i] in Distinct(hosts) && IndexOf(Distinct(hosts), hosts[i]) < n
    requires hosts[j] in Distinct(hosts) && IndexOf(Distinct(hosts), hosts[j]) < n
    ensures Lane(hosts, n, i) != Lane(hosts, n, j)
  {
    var d := Distinct(hosts);
    KthDistinctHostLane(hosts, n, i);
    KthDistinctHostLane(hosts, n, j);
    ModUnique(IndexOf(d, hosts[i]), 0, IndexOf(d, hosts[i]), n);
    ModUnique(IndexOf(d, hosts[j]), 0, IndexOf(d, hosts[j]), n);
  }

  /** Eight queries on four lanes for five different hostnames arriving as
      `h1 h3 h2 h1 h2 h3 h4 h5`: lanes go to hostnames in order of first
      arrival, so `h3` gets lane 1 and `h2` lane 2, and the fifth hostname
      wraps around to lane 0. */
  lemma EightQueriesOnFourLanes<H(!new)>(hosts: seq<H>, h1: H, h2: H, h3: H, h4: H, h5: H)
    requires h1 != h2 && h1 != h3 && h1 != h4 && h1 != h5 && h2 != h3
    requires h2 != h4 && h2 != h5 && h3 != h4 && h3 != h5 && h4 != h5
    requires hosts == [h1, h3, h2, h1, h2, h3, h4, h5]
    ensures Lanes(hosts, 4) == [0, 1, 2, 0, 2, 1, 3, 0]
  {
    EightQueriesDistinct(hosts, h1, h2, h3, h4, h5);
    ArrivalPositions(h1, h2, h3, h4, h5);
    var lanes := Lanes(hosts, 4);
    forall i | 0 <= i < 8
      ensures lanes[i] == [0, 1, 2, 0, 2, 1, 3, 0][i]
    {
      KthDistinctHostLane(hosts, 4, i);
    }
  }

  lemma ArrivalPositions<H(!new)>(h1: H, h2: H, h3: H, h4: H, h5: H)
    requires h1 != h2 && h1 != h3 && h1 != h4 && h1 != h5 && h2 != h3
    requires h2 != h4 && h2 != h5 && h3 != h4 && h3 != h5 && h4 != h5
    ensures var d := [h1, h3, h2, h4, h5];
      IndexOf(d, h1) == 0 && IndexOf(d, h3) == 1 && IndexOf(d, h2) == 2
      && IndexOf(d, h4) == 3 && IndexOf(d, h5) == 4
  {
    var d := [h1, h3, h2, h4, h5];
    assert d[1..] == [h3, h2, h4, h5];
    assert d[1..][1..] == [h2, h4, h5];
    assert d[1..][1..][1..] == [h4, h5];
    assert d[1..][1..][1..][1..] == [h5];
  }

  lemma EightQueriesDistinct<H(!new)>(hosts: seq<H>, h1: H, h2: H, h3: H, h4: H, h5: H)
    requires h1 != h2 && h1 != h3 && h1 != h4 && h1 != h5 && h2 != h3
    requires h2 != h4 && h2 != h5 && h3 != h4 && h3 != h5 && h4 != h5
    requires hosts == [h1, h3, h2, h1, h2, h3, h4, h5]
    ensures Distinct(hosts) == [h1, h3, h2, h4, h5]
  {
    SixQueriesDistinct(h1, h2, h3);
    DistinctSnoc([h1, h3, h2, h1, h2, h3], h4);
    assert [h1, h3, h2, h1, h2, h3] + [h4] == [h1, h3, h2, h1, h2, h3, h4];
    DistinctSnoc([h1, h3, h2, h1, h2, h3, h4], h5);
    assert [h1, h3, h2, h1, h2, h3, h4] + [h5] == hosts;
  }

  lemma SixQueriesDistinct<H(!new)>(h1: H, h2: H, h3: H)
    requires h1 != h2 && h1 != h3 && h2 != h3
    ensures Distinct([h1, h3, h2, h1, h2, h3]) == [h1, h3, h2]
  {
    ThreeQueriesDistinct(h1, h2, h3);
    RepeatsAddNothing([h1, h3, h2], [h1, h2, h3]);
    assert [h1, h3, h2] + [h1, h2, h3] == [h1, h3, h2, h1, h2, h3];
  }

  lemma ThreeQueriesDistinct<H(!new)>(h1: H, h2: H, h3: H)
    requires h1 != h2 && h1 != h3 && h2 != h3
    ensures Distinct([h1, h3, h2]) == [h1, h3, h2]
  {
    DistinctSnoc([], h1);
    assert [] + [h1] == [h1];
    DistinctSnoc([h1], h3);
    assert [h1] + [h3] == [h1, h3];
    DistinctSnoc([h1, h3], h2);
    assert [h1, h3] + [h2] == [h1, h3, h2];
  }

  /** Queries for hostnames already seen add no new hostname. */
  lemma {:induction false} RepeatsAddNothing<H(!new)>(hosts: seq<H>, more: seq<H>)
    requires forall x :: x in more ==> x in hosts
    ensures Distinct(hosts + more) == Distinct(hosts)
  {
    if more != [] {
      var init, last := more[..|more| - 1], more[|more| - 1];
      assert more == init + [last];
      RepeatsAddNothing(hosts, init);
      assert hosts + more == (hosts + init) + [last];
      DistinctSnoc(hosts + init, last);
    } else {
      assert hosts + more == hosts;
    }
  }

  /** The lane worker `i` receives in `RunWorkers` when the cursor is at `c`. */
  function WorkerLanes(c: int, n: int): (lanes: seq<int>)
    requires n >= 1
    ensures |lanes| == n
  {
    seq(n, i requires 0 <= i < n => (c + i) % n)
  }

  /** Starting from any lane, `RunWorkers` gives each lane exactly one worker. */
  lemma WorkerLanesArePermutation(c: int, n: int)
    requires n >= 1 && 0 <= c < n
    ensures forall i :: 0 <= i < n ==> 0 <= WorkerLanes(c, n)[i] < n
    ensures forall i, j :: 0 <= i < j < n ==> WorkerLanes(c, n)[i] != WorkerLanes(c, n)[j]
    ensures forall l :: 0 <= l < n ==> l in WorkerLanes(c, n)
  {
    var lanes := WorkerLanes(c, n);
    forall i | 0 <= i < n
      ensures lanes[i] == if c + i < n then c + i else c + i - n
    {
      if c + i >= n {
        ModUnique(c + i, 1, c + i - n, n);
      } else {
        ModUnique(c + i, 0, c + i, n);
      }
    }
    forall l | 0 <= l < n
      ensures l in lanes
    {
      var i := if l >= c then l - c else l - c + n;
      assert lanes[i] == l;
    }
  }

  class WorkerPool {
    var numWorkers: int
    var mapHostnameToWorker: map<string, int>
    var lastWorkerIdx: int
    /** The hostname of every query routed so far. */
    ghost var Queried: seq<string>

    ghost predicate Valid()
      reads this
    {
      && numWorkers >= 1
      && Routing(mapHostnameToWorker, lastWorkerIdx) == Replay(Queried, numWorkers)
    }

    constructor (numWorkers: int)
      requires numWorkers >= 1
      ensures Valid()
      ensures this.numWorkers == numWorkers
      ensures mapHostnameToWorker == map[] && lastWorkerIdx == 0 && Queried == []
    {
      this.numWorkers := numWorkers;
      mapHostnameToWorker := map[];
      lastWorkerIdx := 0;
      Queried := [];
    }

    /** Starts one worker per lane: worker `i` is given the lane at the cursor,
        which then advances. After `numWorkers` steps the cursor is back. */
    method RunWorkers() returns (workerLanes: seq<int>)
      requires Valid()
      modifies `lastWorkerIdx
      ensures Valid()
      ensures lastWorkerIdx == old(lastWorkerIdx)
      ensures workerLanes == WorkerLanes(lastWorkerIdx, numWorkers)
    {
      LanesInRange(Queried, numWorkers);
      ghost var start := lastWorkerIdx;
      workerLanes := [];
      var i := 0;
      while i < numWorkers
        invariant 0 <= i <= numWorkers
        invariant lastWorkerIdx == (start + i) % numWorkers
        invariant |workerLanes| == i
        invariant forall k :: 0 <= k < i ==> workerLanes[k] == (start + k) % numWorkers
      {
        workerLanes := workerLanes + [lastWorkerIdx];
        lastWorkerIdx := (lastWorkerIdx + 1) % numWorkers;
        ModNext(start + i, numWorkers);
        i := i + 1;
      }
      ModUnique(start + numWorkers, 1, start, numWorkers);
      assert workerLanes == WorkerLanes(start, numWorkers);
    }

    /** Routes one query: a bound hostname reuses its lane, a new one is bound
        to the lane at the cursor before the hand-off. `contextDone` says whether
        the context was done before the lane accepted the query; the binding
        stays whether or not the hand-off succeeds. */
    method RunQuery(hostname: string, contextDone: bool) returns (lane: int, err: Option<PoolError>)
      requires Valid()
      modifies `mapHostnameToWorker, `lastWorkerIdx, `Queried
      ensures Valid()
      ensures Queried == old(Queried) + [hostname]
      ensures lane == Lane(Queried, numWorkers, |old(Queried)|)
      ensures hostname in old(mapHostnameToWorker) ==>
        && lane == old(mapHostnameToWorker)[hostname]
        && mapHostnameToWorker == old(mapHostnameToWorker)
        && lastWorkerIdx == old(lastWorkerIdx)
      ensures hostname !in old(mapHostnameToWorker) ==>
        && lane == old(lastWorkerIdx)
        && mapHostnameToWorker == old(mapHostnameToWorker)[hostname := lane]
        && lastWorkerIdx == (old(lastWorkerIdx) + 1) % numWorkers
      ensures err == if contextDone then Some(ContextDone) else None
    {
      ghost var before := Queried;
      Queried := Queried + [hostname];
      assert Queried[..|before|] == before;
      if hostname in mapHostnameToWorker {
        lane := mapHostnameToWorker[hostname];
      } else {
        lane := lastWorkerIdx;
        lastWorkerIdx := (lastWorkerIdx + 1) % numWorkers;
        mapHostnameToWorker := mapHostnameToWorker[hostname := lane];
      }
      err := if contextDone then Some(ContextDone) else None;
    }
  }

  /** `New`: refuses fewer than one worker or more workers than CPUs;
      otherwise a pool with no bindings and the cursor at lane 0. */
  method New(numWorkers: int, numCPU: int) returns (r: Result<WorkerPool, PoolError>)
    ensures numWorkers < 1 ==> r == Failure(TooFewWorkers)
    ensures 1 <= numWorkers && numWorkers > numCPU ==> r == Failure(TooManyWorkers)
    ensures 1 <= numWorkers <= numCPU ==> r.Success?
    ensures r.Success? ==>
      && fresh(r.value) && r.value.Valid() && r.value.numWorkers == numWorkers
      && r.value.mapHostnameToWorker == map[] && r.value.lastWorkerIdx == 0
      && r.value.Queried == []
  {
    if numWorkers < 1 {
      return Failure(TooFewWorkers);
    }
    if numWorkers > numCPU {
      return Failure(TooManyWorkers);
    }
    var wp := new WorkerPool(numWorkers);
    r := Success(wp);
  }
}
