/**
 Exactly when a shutdown settles everything (inference/queue.py): from any stopped state a run is built in which
 every thread finishes, and whatever was still on its way to the queue is put last.
 */
module LaneShutdown {
  import opened Options
  import opened LaneProtocol

  /** All permits are back and every future is set. */
  ghost predicate AllSettled(t: Lane) {
    t.permits == t.cap && forall c: nat | c < |t.settled| :: t.settled[c] == 1
  }

  // ----- Runs -----

  lemma StaysPut(s: Lane)
    ensures CanBecome(s, s)
  {
    assert Leads(s, [], s);
  }

  lemma ByOneStep(s: Lane, e: Event)
    requires Step(s, e).Some?
    ensures CanBecome(s, Step(s, e).value)
  {
    assert Leads(Step(s, e).value, [], Step(s, e).value);
    assert Leads(s, [e], Step(s, e).value);
  }

  lemma Onward(s: Lane, t: Lane, u: Lane)
    requires CanBecome(s, t) && CanBecome(t, u)
    ensures CanBecome(s, u)
  {
    var es :| Leads(s, es, t);
    var fs :| Leads(t, fs, u);
    LeadsAppend(s, es, t, fs, u);
  }

  /** Only the queue and worker `w` differ, `back` having been put, and the counts of permits and futures. */
  ghost predicate OnlyWorker(s: Lane, t: Lane, w: nat, x: Worker, back: seq<Entry>) {
    && t.stop == s.stop && t.calls == s.calls && t.drainers == s.drainers
    && w < |s.workers| && t.workers == s.workers[w := x] && t.queue == s.queue + back
  }

  // ----- One worker finishes -----

  /** What a worker still has to do. */
  function WorkLeft(x: Worker): nat {
    match x
    case Exited => 0
    case Top => 1
    case Polling => 2
    case Settling(batch, next, isSet) => 2 * (if next < |batch| then |batch| - next else 0) + if isSet then 1 else 2
    case Running(batch) => 2 * |batch| + 3
    case PuttingBack(batch, deferred) => 2 * |batch| + 4 + |deferred|
    case Collecting(batch, deferred) => 2 * |batch| + 5 + |deferred|
  }

  /** The next step of a worker that takes no more jobs. */
  function NextOf(x: Worker): WorkerEvent {
    match x
    case Polling => PollEmpty
    case Collecting(_, _) => CloseBatch
    case PuttingBack(_, deferred) => if deferred == [] then Claim else PutBack
    case Running(_) => Finish
    case Settling(_, _, isSet) => if isSet then Release else Settle
    case _ => EnterLoop
  }

  function PutsNext(x: Worker): seq<Entry> {
    if x.PuttingBack? && x.deferred != [] then [x.deferred[0]] else []
  }

  /** What that step makes of the worker. */
  function GoesTo(x: Worker): Worker {
    match x
    case Polling => Top
    case Collecting(batch, deferred) => PuttingBack(batch, deferred)
    case PuttingBack(batch, deferred) => if deferred == [] then Running(batch) else PuttingBack(batch, deferred[1..])
    case Running(batch) => Settling(batch, 0, false)
    case Settling(batch, next, false) => Settling(batch, next, true)
    case Settling(batch, next, true) => if next + 1 == |batch| then Top else Settling(batch, next + 1, false)
    case _ => Exited
  }

  lemma GoesToShrinks(x: Worker)
    requires WorkerOk(x) && !x.Exited?
    ensures WorkerOk(GoesTo(x)) && !GoesTo(x).Polling? && WorkLeft(GoesTo(x)) < WorkLeft(x)
    ensures Deferred(x) == PutsNext(x) + Deferred(GoesTo(x))
  {}

  lemma WorkerGoesOn(s: Lane, w: nat) returns (t: Lane)
    requires s.stop && w < |s.workers| && WorkerOk(s.workers[w]) && !s.workers[w].Exited?
    requires s.workers[w].Polling? ==> s.queue == []
    ensures WorkerStep(s, w, NextOf(s.workers[w])) == Some(t)
    ensures OnlyWorker(s, t, w, GoesTo(s.workers[w]), PutsNext(s.workers[w]))
  {
    t := WorkerStep(s, w, NextOf(s.workers[w])).value;
  }

  lemma OnlyWorkerTwice(s: Lane, u: Lane, t: Lane, w: nat, x: Worker, y: Worker, back1: seq<Entry>, back2: seq<Entry>)
    requires OnlyWorker(s, u, w, x, back1) && OnlyWorker(u, t, w, y, back2)
    ensures OnlyWorker(s, t, w, y, back1 + back2)
  {
    assert s.workers[w := x][w := y] == s.workers[w := y];
    assert s.queue + back1 + back2 == s.queue + (back1 + back2);
  }

  lemma ExitedStays(s: Lane, w: nat)
    requires w < |s.workers| && s.workers[w].Exited?
    ensures OnlyWorker(s, s, w, Exited, [])
  {
    assert s.workers[w := Exited] == s.workers;
    assert s.queue + [] == s.queue;
  }

  /** A worker can always run to its exit, putting back what it holds deferred. */
  lemma {:induction false} WorkerFinishes(s: Lane, w: nat) returns (t: Lane)
    requires s.stop && w < |s.workers| && WorkerOk(s.workers[w])
    requires s.workers[w].Polling? ==> s.queue == []
    ensures CanBecome(s, t) && OnlyWorker(s, t, w, Exited, Deferred(s.workers[w]))
    decreases WorkLeft(s.workers[w])
  {
    if s.workers[w].Exited? {
      t := s;
      StaysPut(s);
      ExitedStays(s, w);
    } else {
      var u := WorkerGoesOn(s, w);
      GoesToShrinks(s.workers[w]);
      t := WorkerFinishes(u, w);
      ByOneStep(s, OfWorker(w, NextOf(s.workers[w])));
      Onward(s, u, t);
      OnlyWorkerTwice(s, u, t, w, u.workers[w], Exited, PutsNext(s.workers[w]), Deferred(u.workers[w]));
    }
  }

  // ----- One call finishes -----

  ghost predicate OnlyCall(s: Lane, t: Lane, c: nat, x: Call) {
    && t.stop == s.stop && t.workers == s.workers && t.drainers == s.drainers
    && c < |s.calls| && t.calls == s.calls[c := x] && |s.queue| <= |t.queue|
  }

  predicate IsOver(p: Phase) { p.Enqueued? || p.Refused? }

  predicate WillPut(p: Phase) { p.Committing? || p.Numbered? }

  function StepsLeft(p: Phase): nat {
    match p
    case Enqueued => 0
    case Refused => 0
    case Waiting => 1
    case Backing => 1
    case Numbered(_) => 1
    case _ => 2
  }

  function CallNext(p: Phase): CallEvent {
    match p
    case Waiting => GiveUp
    case Admitted => CheckStop
    case Backing => RefuseStopped
    case Committing => DrawNumber
    case _ => Put(0)
  }

  lemma CallGoesOn(s: Lane, c: nat) returns (t: Lane)
    requires s.stop && c < |s.calls| && !IsOver(s.calls[c].phase)
    ensures CallStep(s, c, CallNext(s.calls[c].phase)) == Some(t) && c < |t.calls|
    ensures OnlyCall(s, t, c, t.calls[c]) && StepsLeft(t.calls[c].phase) < StepsLeft(s.calls[c].phase)
    ensures WillPut(s.calls[c].phase) ==> WillPut(t.calls[c].phase) || t.queue != []
  {
    t := CallStep(s, c, CallNext(s.calls[c].phase)).value;
  }

  lemma OnlyCallTwice(s: Lane, u: Lane, t: Lane, c: nat, x: Call, y: Call)
    requires OnlyCall(s, u, c, x) && OnlyCall(u, t, c, y)
    ensures OnlyCall(s, t, c, y)
  {
    assert s.calls[c := x][c := y] == s.calls[c := y];
  }

  /** A submit call can always return once the stop flag is up; one past its stop check puts its job first. */
  lemma {:induction false} CallFinishes(s: Lane, c: nat) returns (t: Lane)
    requires s.stop && c < |s.calls|
    ensures CanBecome(s, t) && c < |t.calls| && OnlyCall(s, t, c, t.calls[c]) && IsOver(t.calls[c].phase)
    ensures WillPut(s.calls[c].phase) ==> t.queue != []
    decreases StepsLeft(s.calls[c].phase)
  {
    if IsOver(s.calls[c].phase) {
      t := s;
      StaysPut(s);
      assert s.calls[c := s.calls[c]] == s.calls;
    } else {
      var u := CallGoesOn(s, c);
      t := CallFinishes(u, c);
      ByOneStep(s, OfCall(c, CallNext(s.calls[c].phase)));
      Onward(s, u, t);
      OnlyCallTwice(s, u, t, c, u.calls[c], t.calls[c]);
    }
  }

  // ----- One drain finishes -----

  ghost predicate OnlyDrainer(s: Lane, t: Lane, d: nat, x: Drainer) {
    && t.stop == s.stop && t.calls == s.calls && t.workers == s.workers && t.queue == s.queue
    && d < |s.drainers| && t.drainers == s.drainers[d := x]
  }

  function DrainLeft(x: Drainer): nat {
    match x
    case Drained => 0
    case Draining => 1
    case Rejected(_) => 2
    case Rejecting(_) => 3
  }

  function DrainNext(x: Drainer): DrainerEvent {
    match x
    case Rejecting(_) => Reject
    case Rejected(_) => GiveBack
    case _ => DrainEmpty
  }

  lemma DrainerGoesOn(s: Lane, d: nat) returns (t: Lane)
    requires d < |s.drainers| && !s.drainers[d].Drained? && (s.drainers[d].Draining? ==> s.queue == [])
    ensures DrainerStep(s, d, DrainNext(s.drainers[d])) == Some(t) && d < |t.drainers|
    ensures OnlyDrainer(s, t, d, t.drainers[d]) && DrainLeft(t.drainers[d]) < DrainLeft(s.drainers[d])
  {
    t := DrainerStep(s, d, DrainNext(s.drainers[d])).value;
  }

  lemma {:induction false} DrainerFinishes(s: Lane, d: nat) returns (t: Lane)
    requires d < |s.drainers| && s.queue == []
    ensures CanBecome(s, t) && OnlyDrainer(s, t, d, Drained)
    decreases DrainLeft(s.drainers[d])
  {
    if s.drainers[d].Drained? {
      t := s;
      StaysPut(s);
      assert s.drainers[d := Drained] == s.drainers;
    } else {
      var u := DrainerGoesOn(s, d);
      t := DrainerFinishes(u, d);
      ByOneStep(s, OfDrainer(d, DrainNext(s.drainers[d])));
      Onward(s, u, t);
      assert s.drainers[d := u.drainers[d]][d := Drained] == s.drainers[d := Drained];
    }
  }

  // ----- Everybody finishes -----

  /** The drains end on the empty queue. */
  lemma DrainersFinish(s: Lane) returns (t: Lane)
    requires s.queue == []
    ensures CanBecome(s, t) && t.queue == [] && t.stop == s.stop && t.calls == s.calls && t.workers == s.workers
    ensures forall d: nat | d < |t.drainers| :: t.drainers[d].Drained?
  {
    t := s;
    StaysPut(s);
    for k := 0 to |s.drainers|
      invariant CanBecome(s, t) && t.queue == [] && t.stop == s.stop && t.calls == s.calls && t.workers == s.workers
      invariant |t.drainers| == |s.drainers| && forall d: nat | d < k :: t.drainers[d].Drained?
    {
      var u := DrainerFinishes(t, k);
      Onward(s, t, u);
      t := u;
    }
  }

  /** The workers waiting on the empty queue see the stop flag and exit; the others keep what they hold. */
  lemma PollersFinish(s: Lane) returns (t: Lane)
    requires s.stop && s.queue == [] && forall w: nat | w < |s.workers| :: WorkerOk(s.workers[w])
    ensures CanBecome(s, t) && t.queue == [] && t.stop && t.calls == s.calls && t.drainers == s.drainers
    ensures |t.workers| == |s.workers|
    ensures forall w: nat | w < |s.workers| :: t.workers[w] == if s.workers[w].Polling? then Exited else s.workers[w]
  {
    t := s;
    StaysPut(s);
    for k := 0 to |s.workers|
      invariant CanBecome(s, t) && t.queue == [] && t.stop && t.calls == s.calls && t.drainers == s.drainers
      invariant |t.workers| == |s.workers|
      invariant forall w: nat | w < |s.workers| ::
                  t.workers[w] == if w < k && s.workers[w].Polling? then Exited else s.workers[w]
    {
      if s.workers[k].Polling? {
        var u := WorkerFinishes(t, k);
        Onward(s, t, u);
        t := u;
      }
    }
  }

  /** All workers exit; the queue is not empty afterwards if one of them held deferred jobs. */
  lemma WorkersFinish(s: Lane) returns (t: Lane)
    requires s.stop && forall w: nat | w < |s.workers| :: WorkerOk(s.workers[w]) && !s.workers[w].Polling?
    ensures CanBecome(s, t) && t.stop && t.calls == s.calls && t.drainers == s.drainers
    ensures forall w: nat | w < |t.workers| :: t.workers[w].Exited?
    ensures forall w: nat | w < |s.workers| && Deferred(s.workers[w]) != [] :: t.queue != []
  {
    t := s;
    StaysPut(s);
    for k := 0 to |s.workers|
      invariant CanBecome(s, t) && t.stop && t.calls == s.calls && t.drainers == s.drainers
      invariant |t.workers| == |s.workers|
      invariant forall w: nat | w < |s.workers| :: t.workers[w] == if w < k then Exited else s.workers[w]
      invariant forall w: nat | w < k && Deferred(s.workers[w]) != [] :: t.queue != []
    {
      var u := WorkerFinishes(t, k);
      Onward(s, t, u);
      t := u;
    }
  }

  /** All submit calls return; the queue is not empty afterwards if one of them was past its stop check. */
  lemma CallsFinish(s: Lane) returns (t: Lane)
    requires s.stop
    ensures CanBecome(s, t) && t.workers == s.workers && t.drainers == s.drainers && |s.queue| <= |t.queue|
    ensures forall c: nat | c < |t.calls| :: IsOver(t.calls[c].phase)
    ensures forall c: nat | c < |s.calls| && WillPut(s.calls[c].phase) :: t.queue != []
  {
    t := s;
    StaysPut(s);
    for k := 0 to |s.calls|
      invariant CanBecome(s, t) && t.stop && t.workers == s.workers && t.drainers == s.drainers
      invariant |t.calls| == |s.calls| && |s.queue| <= |t.queue|
      invariant forall c: nat | k <= c < |s.calls| :: t.calls[c] == s.calls[c]
      invariant forall c: nat | c < k :: IsOver(t.calls[c].phase)
      invariant forall c: nat | c < k && WillPut(s.calls[c].phase) :: t.queue != []
    {
      var u := CallFinishes(t, k);
      Onward(s, t, u);
      t := u;
    }
  }

  /** With something in flight over an empty queue, every thread can finish and leave a job behind. */
  lemma StrandingRun(s: Lane) returns (t: Lane)
    requires s.stop && s.queue == [] && !NothingInFlight(s)
    requires forall w: nat | w < |s.workers| :: WorkerOk(s.workers[w])
    ensures CanBecome(s, t) && Quiescent(t) && t.queue != []
  {
    var drained := DrainersFinish(s);
    var idle := PollersFinish(drained);
    forall w: nat | w < |idle.workers| ensures WorkerOk(idle.workers[w]) && !idle.workers[w].Polling? {
      assert WorkerOk(s.workers[w]);
    }
    var exited := WorkersFinish(idle);
    t := CallsFinish(exited);
    Onward(s, drained, idle);
    Onward(s, idle, exited);
    Onward(s, exited, t);
    if c: nat :| c < |s.calls| && WillPut(s.calls[c].phase) {
      assert WillPut(exited.calls[c].phase);
    } else {
      var w: nat :| w < |s.workers| && Deferred(s.workers[w]) != [];
      assert Deferred(idle.workers[w]) != [];
    }
  }

  // ----- Exactly when a shutdown settles everything -----

  /**
   At the moment a drain finds the queue empty: every future will be set and every permit back, however the threads
   go on to their ends, exactly when no submitter is between stop check and put and no worker holds deferred jobs.
   */
  lemma DrainSettlesEverythingExactlyWhen(s: Lane)
    requires Reachable(s) && s.stop && s.queue == []
    ensures NothingInFlight(s) <==> forall t | CanBecome(s, t) && Quiescent(t) :: AllSettled(t)
  {
    if NothingInFlight(s) {
      forall t | CanBecome(s, t) && Quiescent(t) ensures AllSettled(t) {
        var es :| Leads(s, es, t);
        DrainedSettlesEverything(s, es, t);
      }
    } else {
      ReachableInv(s);
      var t := StrandingRun(s);
      NotSettled(s, t);
      assert CanBecome(s, t) && Quiescent(t) && !AllSettled(t);
    }
  }

  lemma NotSettled(s: Lane, t: Lane)
    requires Reachable(s) && CanBecome(s, t) && Quiescent(t) && t.queue != []
    ensures !AllSettled(t)
  {
    var es :| Leads(s, es, t);
    ReachableOn(s, es, t);
    QuiescentLane(t);
  }

  // ----- From the start of the drain -----

  /** The queue's head. */
  lemma {:induction false} HeadExists(queue: seq<Entry>) returns (i: nat)
    requires queue != []
    ensures IsHead(queue, i)
  {
    var n := |queue| - 1;
    if n == 0 {
      i := 0;
    } else {
      var j := HeadExists(queue[..n]);
      i := if Before(queue[n], queue[j]) then n else j;
      assert forall k | 0 <= k < n :: !Before(queue[..n][k], queue[..n][j]);
      assert forall k | 0 <= k < n :: queue[k] == queue[..n][k];
    }
  }

  /** One drain rejects the head of the queue. */
  lemma DrainsOne(s: Lane, d: nat) returns (t: Lane)
    requires d < |s.drainers| && s.drainers[d].Draining? && s.queue != []
    ensures CanBecome(s, t) && |t.queue| == |s.queue| - 1
    ensures t.stop == s.stop && t.calls == s.calls && t.workers == s.workers
    ensures d < |t.drainers| && t.drainers[d].Draining?
  {
    var i := HeadExists(s.queue);
    var popped := DrainerStep(s, d, Pop(i)).value;
    ByOneStep(s, OfDrainer(d, Pop(i)));
    var rejected := DrainerStep(popped, d, Reject).value;
    ByOneStep(popped, OfDrainer(d, Reject));
    t := DrainerStep(rejected, d, GiveBack).value;
    ByOneStep(rejected, OfDrainer(d, GiveBack));
    Onward(s, popped, rejected);
    Onward(s, rejected, t);
  }

  lemma {:induction false} DrainsAll(s: Lane, d: nat) returns (t: Lane)
    requires d < |s.drainers| && s.drainers[d].Draining?
    ensures CanBecome(s, t) && t.queue == []
    ensures t.stop == s.stop && t.calls == s.calls && t.workers == s.workers
    decreases |s.queue|
  {
    if s.queue == [] {
      t := s;
      StaysPut(s);
    } else {
      var u := DrainsOne(s, d);
      t := DrainsAll(u, d);
      Onward(s, u, t);
    }
  }

  /** A worker that could defer a job does so. */
  lemma OneDefers(s: Lane, w: nat) returns (t: Lane)
    requires s.stop && w < |s.workers| && CouldDefer(s, s.workers[w])
    ensures CanBecome(s, t) && t.stop && t.calls == s.calls && t.drainers == s.drainers
    ensures w < |t.workers| && Deferred(t.workers[w]) != []
  {
    if s.workers[w].Polling? {
      var i := HeadExists(s.queue);
      var u := WorkerStep(s, w, Take(i, true)).value;
      ByOneStep(s, OfWorker(w, Take(i, true)));
      t := JoinerDefers(u, w);
      Onward(s, u, t);
    } else {
      t := JoinerDefers(s, w);
    }
  }

  lemma JoinerDefers(s: Lane, w: nat) returns (t: Lane)
    requires s.stop && w < |s.workers| && s.workers[w].Collecting?
    requires |s.workers[w].batch| < s.maxBatch && s.queue != []
    ensures CanBecome(s, t) && t.stop && t.calls == s.calls && t.drainers == s.drainers
    ensures w < |t.workers| && Deferred(t.workers[w]) != []
  {
    var i := HeadExists(s.queue);
    t := WorkerStep(s, w, Join(i, false)).value;
    ByOneStep(s, OfWorker(w, Join(i, false)));
  }

  /** With something in flight when a drain starts, some schedule ends with a job left behind. */
  lemma InFlightStrands(s: Lane, d: nat) returns (t: Lane)
    requires Reachable(s) && s.stop && d < |s.drainers| && s.drainers[d] == Draining && !NothingInFlight(s)
    ensures CanBecome(s, t) && Quiescent(t) && !AllSettled(t)
  {
    ReachableInv(s);
    var drained := DrainsAll(s, d);
    assert !NothingInFlight(drained);
    t := StrandingRun(drained);
    Onward(s, drained, t);
    NotSettled(s, t);
  }

  /**
   From the start of a drain: every future will be set and every permit back, however the threads go on to their
   ends, exactly when no submitter is between stop check and put, no worker holds deferred jobs, and none is filling
   a batch from the queue or about to start one with a job to spare.
   */
  lemma ShutdownSettlesEverythingExactlyWhen(s: Lane, d: nat)
    requires Reachable(s) && s.stop && d < |s.drainers| && s.drainers[d] == Draining
    ensures NothingInFlight(s) && !MayDefer(s) <==> forall t | CanBecome(s, t) && Quiescent(t) :: AllSettled(t)
  {
    if NoMorePuts(s) {
      forall t | CanBecome(s, t) && Quiescent(t) ensures AllSettled(t) {
        var es :| Leads(s, es, t);
        ShutdownSettlesEverything(s, d, es, t);
      }
    } else if !NothingInFlight(s) {
      var t := InFlightStrands(s, d);
    } else {
      var w: nat :| w < |s.workers| && CouldDefer(s, s.workers[w]);
      var u := OneDefers(s, w);
      ReachableStep(s, u);
      var t := InFlightStrands(u, d);
      Onward(s, u, t);
    }
  }

  lemma ReachableStep(s: Lane, t: Lane)
    requires Reachable(s) && CanBecome(s, t)
    ensures Reachable(t)
  {
    var es :| Leads(s, es, t);
    ReachableOn(s, es, t);
  }

  /** With coalescing off, that is exactly when no submitter is between its stop check and its put. */
  lemma WithoutCoalescingExactlyWhen(s: Lane, d: nat)
    requires Reachable(s) && s.stop && !s.coalescing && d < |s.drainers| && s.drainers[d] == Draining
    ensures (forall c: nat | c < |s.calls| :: !s.calls[c].phase.Committing? && !s.calls[c].phase.Numbered?)
            <==> forall t | CanBecome(s, t) && Quiescent(t) :: AllSettled(t)
  {
    ShutdownSettlesEverythingExactlyWhen(s, d);
    OnlySubmittersPut(s);
  }
}
