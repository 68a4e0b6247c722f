/**
 The batch collector of one lane (inference/queue.py, `_collect_jobs_for_lane`). While the collector
 blocks on the queue, other threads put and take entries and the clock advances; `world` says, for every
 blocking get there may ever be, what they do during it. Nothing bounds how often they interfere: a
 collection ends because the clock advances.
 */
module LaneCollector {
  import opened Options
  import opened InferenceTypes
  import opened LaneOrder

  datatype Job = Job(request: Request, enqueuedAt: real)

  datatype Entry = Entry(priority: int, number: nat, job: Job)

  datatype Interference = Interference(puts: seq<Entry>, takes: nat, delay: real)

  predicate Before(a: Entry, b: Entry) { ServedBefore(a.priority, a.number, b.priority, b.number) }

  predicate IsLeast(e: Entry, queue: multiset<Entry>) {
    e in queue && forall x | x in queue :: !Before(x, e)
  }

  function JobsOf(es: seq<Entry>): seq<Job> {
    seq(|es|, i requires 0 <= i < |es| => es[i].job)
  }

  predicate Overdue(j: Job, now: real, waitTimeout: real) {
    now - j.enqueuedAt > waitTimeout
  }

  /** The entry cannot join the head's batch: another key, or already waiting too long. */
  predicate Misfit(e: Entry, head: Entry, now: real, waitTimeout: real) {
    BatchKeyFor(e.job.request) != BatchKeyFor(head.job.request) || Overdue(e.job, now, waitTimeout)
  }

  /** The head leads the batch, the joined jobs fit and were fresh, and what was set aside does not fit. */
  ghost predicate Gathered(head: Entry, took: seq<Entry>, deferred: seq<Entry>, start: real, now: real,
                           waitTimeout: real)
  {
    && took != [] && took[0] == head && start <= now
    && (forall k | 0 <= k < |took| :: BatchKeyFor(took[k].job.request) == BatchKeyFor(head.job.request))
    && (forall k | 1 <= k < |took| :: !Overdue(took[k].job, start, waitTimeout))
    && (forall k | 0 <= k < |deferred| :: Misfit(deferred[k], head, now, waitTimeout))
  }

  lemma GatheredSince(head: Entry, took: seq<Entry>, deferred: seq<Entry>, earlier: real, start: real, now: real,
                      waitTimeout: real)
    requires earlier <= start && Gathered(head, took, deferred, start, now, waitTimeout)
    ensures Gathered(head, took, deferred, earlier, now, waitTimeout)
  {}

  function RequestsOf(took: seq<Entry>): seq<Request> {
    seq(|took|, i requires 0 <= i < |took| => took[i].job.request)
  }

  /** Every batch the collector returns passes the router's homogeneity test, but for the placeholder clash. */
  lemma CollectedBatchIsHomogeneous(head: Entry, took: seq<Entry>, deferred: seq<Entry>, start: real, now: real,
                                    waitTimeout: real, primaryModel: string)
    requires Gathered(head, took, deferred, start, now, waitTimeout)
    ensures Homogeneous(primaryModel, RequestsOf(took)) <==> !PlaceholderClash(RequestsOf(took))
  {
    assert forall k | 0 <= k < |took| :: RequestsOf(took)[k] == took[k].job.request;
    QueueBatchIsHomogeneous(primaryModel, RequestsOf(took));
  }

  lemma GatheredGrows(head: Entry, took: seq<Entry>, deferred: seq<Entry>, it: Entry, start: real, now: real,
                      waitTimeout: real, mine: multiset<Entry>)
    requires start <= now && mine == multiset(took) + multiset(deferred)
    requires exists t :: t <= now && Gathered(head, took, deferred, start, t, waitTimeout)
    ensures if Misfit(it, head, now, waitTimeout) then Gathered(head, took, deferred + [it], start, now, waitTimeout)
            else Gathered(head, took + [it], deferred, start, now, waitTimeout)
    ensures multiset(took) + multiset(deferred + [it]) == mine + multiset{it}
    ensures multiset(took + [it]) + multiset(deferred) == mine + multiset{it}
  {}

  // ----- The clock -----

  function DelayOf(it: Interference): real { if it.delay > 0.0 then it.delay else 0.0 }

  /** The time that passes at least during the gets numbered from `k` up to `n`. */
  function Elapsed(world: nat -> Interference, k: nat, n: nat): real
    decreases n
  {
    if n <= k then 0.0 else Elapsed(world, k, n - 1) + DelayOf(world(n - 1))
  }

  ghost predicate Passes(world: nat -> Interference, k: nat, n: nat, span: real) {
    k <= n && Elapsed(world, k, n) >= span
  }

  ghost predicate Outlasts(world: nat -> Interference, k: nat, span: real) {
    exists n: nat :: Passes(world, k, n, span)
  }

  /** Gets take time: from any get on, every span of time is over after some number of them. */
  ghost predicate ClockAdvances(world: nat -> Interference) {
    forall k: nat, span: real :: Outlasts(world, k, span)
  }

  /** A clock that moves by some least amount during every get advances. */
  lemma SteadyClockAdvances(world: nat -> Interference, tick: real)
    requires tick > 0.0 && forall k: nat :: world(k).delay >= tick
    ensures ClockAdvances(world)
  {
    forall k: nat, span: real ensures Outlasts(world, k, span) {
      var gets: nat := GetsFor(span, tick);
      SteadyElapsed(world, tick, k, gets);
      assert Passes(world, k, k + gets, span);
    }
  }

  /** How many ticks make up a span. */
  function GetsFor(span: real, tick: real): (gets: nat)
    requires tick > 0.0
    ensures gets as real * tick >= span
  {
    var gets: nat := if span > 0.0 then (span / tick).Floor + 1 else 0;
    assert gets as real * tick >= span by {
      if span > 0.0 { MultiplyUp(span / tick, gets as real, tick); }
    }
    gets
  }

  lemma MultiplyUp(x: real, y: real, tick: real)
    requires x <= y && tick > 0.0
    ensures x * tick <= y * tick
  {}

  lemma {:induction false} SteadyElapsed(world: nat -> Interference, tick: real, k: nat, gets: nat)
    requires forall i: nat :: world(i).delay >= tick
    ensures Elapsed(world, k, k + gets) >= gets as real * tick
  {
    if gets > 0 {
      SteadyElapsed(world, tick, k, gets - 1);
      assert gets as real * tick == (gets - 1) as real * tick + tick;
    }
  }

  // ----- Nothing is lost -----

  /** The queue's entries and the collector's, plus `base`, are `total` plus what has arrived. */
  ghost predicate Balanced(stock: multiset<Entry>, mine: multiset<Entry>, base: multiset<Entry>, total: multiset<Entry>,
                           arrived: multiset<Entry>)
  {
    stock + mine + base == total + arrived
  }

  function Got(item: Option<Entry>): multiset<Entry> {
    if item.Some? then multiset{item.value} else multiset{}
  }

  /** One get moves an entry from the stock to the collector; nothing is lost. */
  lemma Rebalance(before: multiset<Entry>, after: multiset<Entry>, arrived0: multiset<Entry>, arrived1: multiset<Entry>,
                  mine: multiset<Entry>, got: multiset<Entry>, base: multiset<Entry>, total: multiset<Entry>)
    requires Balanced(before, mine, base, total, arrived0)
    requires after + arrived0 + got == before + arrived1
    ensures Balanced(after, mine + got, base, total, arrived1)
  {
    forall x ensures (after + (mine + got) + base)[x] == (total + arrived1)[x] {
      assert (before + mine + base)[x] == (total + arrived0)[x];
      assert (after + arrived0 + got)[x] == (before + arrived1)[x];
    }
  }

  /** Putting the deferred entries back moves them from the collector to the stock. */
  lemma PutBackBalances(before: multiset<Entry>, after: multiset<Entry>, took: multiset<Entry>,
                        deferred: multiset<Entry>, base: multiset<Entry>, total: multiset<Entry>,
                        arrived: multiset<Entry>)
    requires Balanced(before, took + deferred, base, total, arrived) && after == before + deferred
    ensures after + took + base == total + arrived
  {
    forall x ensures (after + took + base)[x] == (total + arrived)[x] {
      assert (before + (took + deferred) + base)[x] == (total + arrived)[x];
    }
  }

  /** One collection: what it took, what is left and what others took make up what there was and what arrived. */
  lemma NothingLost(start: multiset<Entry>, stock0: multiset<Entry>, end: multiset<Entry>, head: multiset<Entry>,
                    took: multiset<Entry>, base: multiset<Entry>, arrived0: multiset<Entry>, arrived1: multiset<Entry>)
    requires stock0 + base + head == start + arrived0
    requires end + took + arrived0 == (stock0 + head) + arrived1
    ensures end + took + base == start + arrived1
  {
    forall x ensures (end + took + base)[x] == (start + arrived1)[x] {
      assert (stock0 + base + head)[x] == (start + arrived0)[x];
      assert (end + took + arrived0)[x] == ((stock0 + head) + arrived1)[x];
    }
  }

  /** What a get leaves and what others took meanwhile make up what was queued and what arrived. */
  lemma HeldThen(queue: multiset<Entry>, queued: multiset<Entry>, gone0: multiset<Entry>, gone: multiset<Entry>,
                 arrived0: multiset<Entry>, puts: multiset<Entry>)
    requires queued + gone + arrived0 == (queue + gone0) + (arrived0 + puts) && gone0 <= gone
    ensures queued + (gone - gone0) == queue + puts && gone0 + (gone - gone0) == gone
    ensures |gone - gone0| == |gone| - |gone0|
  {
    forall x ensures (queued + (gone - gone0))[x] == (queue + puts)[x] {
      assert (queued + gone + arrived0)[x] == ((queue + gone0) + (arrived0 + puts))[x];
    }
    assert gone0 + (gone - gone0) == gone;
  }

  function Max(a: real, b: real): real { if a < b then b else a }

  function Min(a: real, b: real): real { if b < a then b else a }

  class LaneRuntime {
    var pq: seq<Entry>
    var now: real
    var idleSec: real
    const world: nat -> Interference
    var gets: nat                        // blocking gets so far
    ghost var arrived: multiset<Entry>   // entries other threads put so far
    ghost var gone: multiset<Entry>      // entries other threads took so far

    constructor (pq: seq<Entry>, now: real, world: nat -> Interference)
      ensures this.pq == pq && this.now == now && this.world == world && gets == 0 && idleSec == 0.0
      ensures arrived == gone == multiset{}
    {
      this.pq, this.now, this.world, this.gets, this.idleSec := pq, now, world, 0, 0.0;
      this.arrived, this.gone := multiset{}, multiset{};
    }

    /** Reads the monotonic clock after an arbitrary pause. */
    method ReadClock() returns (t: real)
      modifies this`now
      ensures t == now && now >= old(now)
    {
      var pause: real := *;
      now := if pause > 0.0 then now + pause else now;
      t := now;
    }

    method PopLeast() returns (e: Entry)
      requires pq != []
      modifies this`pq
      ensures IsLeast(e, multiset(old(pq))) && |pq| == |old(pq)| - 1
      ensures multiset(pq) + multiset{e} == multiset(old(pq))
    {
      var m := 0;
      for k := 1 to |pq|
        invariant m < k <= |pq|
        invariant forall j | 0 <= j < k :: !Before(pq[j], pq[m])
      {
        if Before(pq[k], pq[m]) {
          m := k;
        }
      }
      e := pq[m];
      assert pq == pq[..m] + [e] + pq[m + 1..];
      assert forall x | x in multiset(pq) :: x in pq;
      pq := pq[..m] + pq[m + 1..];
    }

    /** What the world holds for one get: puts, then takes by other workers, then a delay. */
    method OthersRun()
      modifies this
      ensures multiset(pq) + gone + old(arrived) == old(multiset(pq) + gone) + arrived
      ensures arrived == old(arrived) + multiset(world(old(gets)).puts) && old(gone) <= gone
      ensures |gone| <= |old(gone)| + world(old(gets)).takes
      ensures now == old(now) + DelayOf(world(old(gets))) && gets == old(gets) + 1 && idleSec == old(idleSec)
    {
      var it := world(gets);
      gets := gets + 1;
      assert multiset(pq + it.puts) == multiset(pq) + multiset(it.puts);
      pq := pq + it.puts;
      arrived := arrived + multiset(it.puts);
      TakeSome(it.takes);
      now := now + DelayOf(it);
    }

    /** Other workers take up to `takes` entries, the least first. */
    method TakeSome(takes: nat)
      modifies this`pq, this`gone
      ensures multiset(pq) + gone == old(multiset(pq) + gone)
      ensures old(gone) <= gone && |gone| <= |old(gone)| + takes
    {
      var left := takes;
      while left > 0 && pq != []
        invariant multiset(pq) + gone == old(multiset(pq) + gone)
        invariant old(gone) <= gone && |gone| + left <= |old(gone)| + takes
      {
        var e := PopLeast();
        gone := gone + multiset{e};
        left := left - 1;
      }
    }

    /** `pq.get(timeout=...)`: the least entry, or None after the whole timeout with nothing queued. */
    method Get(timeout: real) returns (item: Option<Entry>)
      requires timeout >= 0.0
      modifies this
      ensures now >= old(now) + DelayOf(world(old(gets))) && gets == old(gets) + 1 && idleSec == old(idleSec)
      ensures arrived == old(arrived) + multiset(world(old(gets)).puts) && old(gone) <= gone
      ensures |gone| <= |old(gone)| + world(old(gets)).takes
      ensures multiset(pq) + gone + old(arrived) + Got(item) == old(multiset(pq) + gone) + arrived
      ensures item.Some? ==> IsLeast(item.value, multiset(pq) + multiset{item.value})
      ensures item.None? ==> pq == [] && now >= old(now) + timeout
    {
      var t0 := now;
      OthersRun();
      if pq == [] {
        now := Max(now, t0 + timeout);
        return None;
      }
      var e := PopLeast();
      item := Some(e);
    }

    /** One turn of the coalescing loop: nothing once the deadline has passed, else a get of at most 50 ms. */
    method GetBefore(deadline: real) returns (open: bool, item: Option<Entry>)
      modifies this
      ensures now >= old(now) && idleSec == old(idleSec) && old(arrived) <= arrived && old(gone) <= gone
      ensures multiset(pq) + gone + old(arrived) + Got(item) == old(multiset(pq) + gone) + arrived
      ensures !open ==> item.None? && now >= deadline && gets == old(gets)
      ensures open ==>
                old(now) < deadline && gets == old(gets) + 1 && now >= old(now) + DelayOf(world(old(gets)))
    {
      var t := ReadClock();
      if t >= deadline {
        return false, None;
      }
      t := ReadClock();
      var remaining := deadline - t;
      if remaining <= 0.0 {
        return false, None;
      }
      item := Get(Min(0.05, Max(remaining, 0.001)));
      open := true;
    }

    /** What the loop does with an entry it got; `since` and `at` are when the loop began and last looked. */
    method JoinOrDefer(it: Entry, key: BatchKey, head: Entry, batch0: seq<Job>, ghost took0: seq<Entry>,
                       deferred0: seq<Entry>, waitTimeout: real, ghost since: real, ghost at: real)
      returns (batch: seq<Job>, ghost took: seq<Entry>, deferred: seq<Entry>)
      requires key == BatchKeyFor(head.job.request) && batch0 == JobsOf(took0) && at <= now
      requires Gathered(head, took0, deferred0, since, at, waitTimeout)
      modifies this`now
      ensures now >= old(now) && batch == JobsOf(took) && |took| <= |took0| + 1
      ensures Gathered(head, took, deferred, since, now, waitTimeout)
      ensures multiset(took) + multiset(deferred) == multiset(took0) + multiset(deferred0) + multiset{it}
    {
      var t := ReadClock();
      batch, took, deferred := batch0, took0, deferred0;
      GatheredGrows(head, took, deferred, it, since, now, waitTimeout, multiset(took) + multiset(deferred));
      if BatchKeyFor(it.job.request) != key || Overdue(it.job, t, waitTimeout) {
        deferred := deferred + [it];
      } else {
        batch, took := batch + [it.job], took + [it];
      }
    }

    /** The coalescing loop: joins jobs that share the head's key until the batch is full or the window closes. */
    method Coalesce(head: Entry, maxBatch: nat, windowMs: real, waitTimeout: real)
      returns (batch: seq<Job>, ghost took: seq<Entry>, deferred: seq<Entry>)
      requires maxBatch >= 1 && ClockAdvances(world)
      modifies this
      ensures batch == JobsOf(took) && |took| <= maxBatch
      ensures Gathered(head, took, deferred, old(now), now, waitTimeout)
      ensures Balanced(multiset(pq) + gone, multiset(took) + multiset(deferred), old(arrived),
                       old(multiset(pq) + gone) + multiset{head}, arrived)
      ensures now >= old(now) && idleSec == old(idleSec) && old(arrived) <= arrived && old(gone) <= gone
      ensures |took| < maxBatch ==> now >= old(now) + windowMs / 1000.0
    {
      var key := BatchKeyFor(head.job.request);
      var began := ReadClock();
      var deadline := began + windowMs / 1000.0;
      batch, took, deferred := [head.job], [head], [];
      ghost var total := old(multiset(pq) + gone) + multiset{head};
      ghost var first := gets;
      assert Outlasts(world, first, windowMs / 1000.0);
      ghost var last: nat :| Passes(world, first, last, windowMs / 1000.0);
      while |batch| < maxBatch
        invariant batch == JobsOf(took) && |took| <= maxBatch
        invariant Gathered(head, took, deferred, old(now), now, waitTimeout)
        invariant Balanced(multiset(pq) + gone, multiset(took) + multiset(deferred), old(arrived), total, arrived)
        invariant now >= old(now) && idleSec == old(idleSec) && old(arrived) <= arrived && old(gone) <= gone
        invariant first <= gets <= last && now >= began + Elapsed(world, first, gets)
        decreases last - gets
      {
        var more;
        more, batch, took, deferred :=
          OneTurn(head, key, deadline, batch, took, deferred, waitTimeout, old(now), old(arrived), total);
        if !more {
          break;
        }
      }
    }

    /** One turn of that loop; `since`, `base` and `total` are what its bookkeeping counts from. */
    method OneTurn(head: Entry, key: BatchKey, deadline: real, batch0: seq<Job>, ghost took0: seq<Entry>,
                   deferred0: seq<Entry>, waitTimeout: real, ghost since: real, ghost base: multiset<Entry>,
                   ghost total: multiset<Entry>)
      returns (more: bool, batch: seq<Job>, ghost took: seq<Entry>, deferred: seq<Entry>)
      requires key == BatchKeyFor(head.job.request) && batch0 == JobsOf(took0)
      requires Gathered(head, took0, deferred0, since, now, waitTimeout)
      requires Balanced(multiset(pq) + gone, multiset(took0) + multiset(deferred0), base, total, arrived)
      modifies this
      ensures batch == JobsOf(took) && |took| <= |took0| + 1
      ensures Gathered(head, took, deferred, since, now, waitTimeout)
      ensures Balanced(multiset(pq) + gone, multiset(took) + multiset(deferred), base, total, arrived)
      ensures now >= old(now) && idleSec == old(idleSec) && old(arrived) <= arrived && old(gone) <= gone
      ensures !more ==> now >= deadline && gets == old(gets)
      ensures more ==>
                old(now) < deadline && gets == old(gets) + 1 && now >= old(now) + DelayOf(world(old(gets)))
    {
      batch, took, deferred := batch0, took0, deferred0;
      var item;
      more, item := GetBefore(deadline);
      Rebalance(old(multiset(pq) + gone), multiset(pq) + gone, old(arrived), arrived,
                multiset(took0) + multiset(deferred0), Got(item), base, total);
      if item.Some? {
        batch, took, deferred :=
          JoinOrDefer(item.value, key, head, batch, took, deferred, waitTimeout, since, old(now));
      }
    }

    method PutBackAll(deferred: seq<Entry>)
      modifies this`pq
      ensures multiset(pq) == old(multiset(pq)) + multiset(deferred)
    {
      for n := 0 to |deferred|
        invariant multiset(pq) == old(multiset(pq)) + multiset(deferred[..n])
      {
        assert deferred[..n + 1] == deferred[..n] + [deferred[n]];
        pq := pq + [deferred[n]];
      }
      assert deferred[..|deferred|] == deferred;
    }

    /** The first get of a collection: the head and what the queue held then, or half a second of idling. */
    method TakeHead() returns (first: Option<Entry>, ghost queued: multiset<Entry>)
      modifies this
      ensures now >= old(now) && gets == old(gets) + 1
      ensures queued == multiset(pq) + Got(first) && queued + gone + old(arrived) == old(multiset(pq) + gone) + arrived
      ensures arrived == old(arrived) + multiset(world(old(gets)).puts) && old(gone) <= gone
      ensures |gone| <= |old(gone)| + world(old(gets)).takes
      ensures first.Some? ==> IsLeast(first.value, queued) && idleSec == old(idleSec)
      ensures first.None? ==> pq == [] && idleSec >= old(idleSec) + 0.5
    {
      var tWait := ReadClock();
      first := Get(0.5);
      queued := multiset(pq) + Got(first);
      if first.None? {
        var t := ReadClock();
        idleSec := idleSec + (t - tWait);
      }
    }

    /**
     The batch collector. `took` and `deferred` are the entries it claimed and the ones it put back. `queued` is
     what the queue held when the head was taken: all it held before, and all that others put while the collector
     waited for the head, but for the entries `others` that other workers took in that time.
     */
    method CollectJobs(coalescing: bool, maxBatch: nat, windowMs: real, waitTimeout: real)
      returns (batch: seq<Job>, ghost took: seq<Entry>, deferred: seq<Entry>, ghost queued: multiset<Entry>,
               ghost others: multiset<Entry>)
      requires maxBatch >= 1 && ClockAdvances(world)
      modifies this
      ensures batch == JobsOf(took) && |took| <= if coalescing then maxBatch else 1
      ensures multiset(pq) + gone + multiset(took) + old(arrived) == old(multiset(pq) + gone) + arrived
      ensures queued + others == old(multiset(pq)) + multiset(world(old(gets)).puts)
      ensures |others| <= world(old(gets)).takes && old(gone) + others <= gone
      ensures old(arrived) + multiset(world(old(gets)).puts) <= arrived
      ensures took == [] ==> queued == multiset{} && pq == [] && deferred == [] && idleSec >= old(idleSec) + 0.5
      ensures took != [] ==> IsLeast(took[0], queued) && Gathered(took[0], took, deferred, old(now), now, waitTimeout)
      ensures multiset(deferred) <= multiset(pq)
      ensures took != [] && Overdue(took[0].job, old(now), waitTimeout) ==> |took| == 1
      ensures took != [] && coalescing && !Overdue(took[0].job, now, waitTimeout) && |took| < maxBatch ==>
                now >= old(now) + windowMs / 1000.0
    {
      ghost var start := multiset(pq) + gone;
      var first;
      first, queued := TakeHead();
      others := gone - old(gone);
      HeldThen(old(multiset(pq)), queued, old(gone), gone, old(arrived), multiset(world(old(gets)).puts));
      if first.None? {
        return [], [], [], queued, others;
      }
      ghost var stock0, arrived0, held := multiset(pq) + gone, arrived, now;
      batch, took, deferred := BatchFrom(first.value, coalescing, maxBatch, windowMs, waitTimeout);
      GatheredSince(first.value, took, deferred, old(now), held, now, waitTimeout);
      NothingLost(start, stock0, multiset(pq) + gone, multiset{first.value}, multiset(took), old(arrived), arrived0,
                  arrived);
    }

    /** The rest of a collection, once it has its head. */
    method BatchFrom(head: Entry, coalescing: bool, maxBatch: nat, windowMs: real, waitTimeout: real)
      returns (batch: seq<Job>, ghost took: seq<Entry>, deferred: seq<Entry>)
      requires maxBatch >= 1 && ClockAdvances(world)
      modifies this
      ensures batch == JobsOf(took) && |took| <= if coalescing then maxBatch else 1
      ensures multiset(pq) + gone + multiset(took) + old(arrived)
              == (old(multiset(pq) + gone) + multiset{head}) + arrived
      ensures now >= old(now) && idleSec == old(idleSec) && old(arrived) <= arrived && old(gone) <= gone
      ensures Gathered(head, took, deferred, old(now), now, waitTimeout)
      ensures multiset(deferred) <= multiset(pq)
      ensures Overdue(head.job, old(now), waitTimeout) ==> |took| == 1
      ensures coalescing && !Overdue(head.job, now, waitTimeout) && |took| < maxBatch ==>
                now >= old(now) + windowMs / 1000.0
    {
      took, deferred := [head], [];
      batch := [head.job];
      var t := ReadClock();
      if !coalescing || Overdue(head.job, t, waitTimeout) {
        return;
      }
      ghost var held := now;
      batch, took, deferred := Coalesce(head, maxBatch, windowMs, waitTimeout);
      GatheredSince(head, took, deferred, old(now), held, now, waitTimeout);
      ghost var stock1 := multiset(pq) + gone;
      PutBackAll(deferred);
      PutBackBalances(stock1, multiset(pq) + gone, multiset(took), multiset(deferred), old(arrived),
                      old(multiset(pq) + gone) + multiset{head}, arrived);
    }
  }
}
