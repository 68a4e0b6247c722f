/**
 One admission lane of the inference queue (inference/queue.py) as a transition system. Submitters,
 workers and shutdown drains are threads that interleave at every point where the source takes a
 lock; an Event is one atomic step of one thread.
 */
module LaneProtocol {
  import opened LaneOrder
  import opened Options

  /** Where one `submit_future` call stands; a call's index names its job and its future. */
  datatype Phase =
    | Waiting                 // blocked in admission.acquire
    | Admitted                // holds a permit, has not re-read the stop flag
    | Committing              // saw the flag unset: will put its job
    | Numbered(number: nat)   // drew next(lane.seq), has not put yet
    | Enqueued                // the job is the lane's now
    | Backing                 // saw the flag set: permit released, future not set yet
    | Refused                 // returned an error future; no job exists

  datatype Call = Call(job: nat, phase: Phase)

  datatype Entry = Entry(priority: int, number: nat, job: nat)

  datatype Worker =
    | Top                                                     // about to test the stop flag
    | Polling                                                 // in pq.get(timeout=0.5)
    | Collecting(batch: seq<nat>, deferred: seq<Entry>)       // coalescing loop
    | PuttingBack(batch: seq<nat>, deferred: seq<Entry>)
    | Running(batch: seq<nat>)                                // counted in lane.active
    | Settling(batch: seq<nat>, next: nat, isSet: bool)       // finally block, at job batch[next]
    | Exited

  datatype Drainer = Draining | Rejecting(job: nat) | Rejected(job: nat) | Drained

  /** `acquired`, `settled` and `released` count, per call, the acquires, set_results and releases so far. */
  datatype Lane = Lane(
    cap: nat, maxBatch: nat, coalescing: bool,
    permits: nat, stop: bool, nextNumber: nat, active: int,
    calls: seq<Call>, queue: seq<Entry>, workers: seq<Worker>, drainers: seq<Drainer>,
    acquired: seq<nat>, settled: seq<nat>, released: seq<nat>)

  datatype CallEvent = Acquire | GiveUp | CheckStop | RefuseStopped | DrawNumber | Put(priority: int)

  datatype WorkerEvent =
    | EnterLoop | PollEmpty | Take(i: nat, coalesce: bool) | Join(i: nat, fits: bool) | CloseBatch | PutBack
    | Claim | Finish | Settle | Release

  datatype DrainerEvent = Pop(i: nat) | DrainEmpty | Reject | GiveBack

  datatype Event =
    | Submit
    | OfCall(c: nat, call: CallEvent)
    | OfWorker(w: nat, work: WorkerEvent)
    | OfDrainer(d: nat, drain: DrainerEvent)
    | Stop
    | StartDrain

  predicate Before(a: Entry, b: Entry) { ServedBefore(a.priority, a.number, b.priority, b.number) }

  /** Index `i` is what the priority queue would return next. */
  predicate IsHead(queue: seq<Entry>, i: nat) {
    i < |queue| && forall k | 0 <= k < |queue| :: !Before(queue[k], queue[i])
  }

  function Without<T>(xs: seq<T>, i: nat): seq<T>
    requires i < |xs|
  {
    xs[..i] + xs[i + 1..]
  }

  function Bump(xs: seq<nat>, i: nat): seq<nat> {
    if i < |xs| then xs[i := xs[i] + 1] else xs
  }

  function WithPhase(s: Lane, c: nat, p: Phase): Lane
    requires c < |s.calls|
  {
    s.(calls := s.calls[c := s.calls[c].(phase := p)])
  }

  function WithWorker(s: Lane, w: nat, x: Worker): Lane
    requires w < |s.workers|
  {
    s.(workers := s.workers[w := x])
  }

  function WithDrainer(s: Lane, d: nat, x: Drainer): Lane
    requires d < |s.drainers|
  {
    s.(drainers := s.drainers[d := x])
  }

  function SubmitStep(s: Lane): Lane {
    var c := |s.calls|;
    s.(calls := s.calls + [Call(c, if s.stop then Refused else Waiting)],
       acquired := s.acquired + [0],
       settled := s.settled + [if s.stop then 1 else 0],
       released := s.released + [0])
  }

  /** One step of the submit call `c`; None when the call cannot take it. */
  function CallStep(s: Lane, c: nat, e: CallEvent): Option<Lane> {
    if c >= |s.calls| then None
    else match (e, s.calls[c].phase)
      case (Acquire, Waiting) =>
        if s.permits == 0 then None
        else Some(WithPhase(s, c, Admitted).(permits := s.permits - 1, acquired := Bump(s.acquired, c)))
      case (GiveUp, Waiting) =>
        Some(WithPhase(s, c, Refused).(settled := Bump(s.settled, c)))
      case (CheckStop, Admitted) =>
        if s.stop
        then Some(WithPhase(s, c, Backing).(permits := s.permits + 1, released := Bump(s.released, c)))
        else Some(WithPhase(s, c, Committing))
      case (RefuseStopped, Backing) =>
        Some(WithPhase(s, c, Refused).(settled := Bump(s.settled, c)))
      case (DrawNumber, Committing) =>
        Some(WithPhase(s, c, Numbered(s.nextNumber)).(nextNumber := s.nextNumber + 1))
      case (Put(priority), Numbered(n)) =>
        Some(WithPhase(s, c, Enqueued).(queue := s.queue + [Entry(priority, n, s.calls[c].job)]))
      case _ => None
  }

  function WorkerStep(s: Lane, w: nat, e: WorkerEvent): Option<Lane> {
    if w >= |s.workers| then None
    else match (e, s.workers[w])
      case (EnterLoop, Top) => Some(WithWorker(s, w, if s.stop then Exited else Polling))
      case (PollEmpty, Polling) => if s.queue == [] then Some(WithWorker(s, w, Top)) else None
      case (Take(i, coalesce), Polling) =>
        if !IsHead(s.queue, i) || (coalesce && !s.coalescing) then None
        else
          var j := s.queue[i].job;
          Some(WithWorker(s, w, if coalesce then Collecting([j], []) else PuttingBack([j], []))
               .(queue := Without(s.queue, i)))
      case (Join(i, fits), Collecting(batch, deferred)) =>
        if !IsHead(s.queue, i) || |batch| >= s.maxBatch then None
        else
          var it := s.queue[i];
          var phase := if fits then Collecting(batch + [it.job], deferred) else Collecting(batch, deferred + [it]);
          Some(WithWorker(s, w, phase).(queue := Without(s.queue, i)))
      case (CloseBatch, Collecting(batch, deferred)) => Some(WithWorker(s, w, PuttingBack(batch, deferred)))
      case (PutBack, PuttingBack(batch, deferred)) =>
        if deferred == [] then None
        else Some(WithWorker(s, w, PuttingBack(batch, deferred[1..])).(queue := s.queue + [deferred[0]]))
      case (Claim, PuttingBack(batch, deferred)) =>
        if deferred != [] then None
        else Some(WithWorker(s, w, Running(batch)).(active := s.active + |batch|))
      case (Finish, Running(batch)) =>
        Some(WithWorker(s, w, Settling(batch, 0, false)).(active := s.active - |batch|))
      case (Settle, Settling(batch, next, false)) =>
        if next >= |batch| then None
        else Some(WithWorker(s, w, Settling(batch, next, true)).(settled := Bump(s.settled, batch[next])))
      case (Release, Settling(batch, next, true)) =>
        if next >= |batch| then None
        else Some(WithWorker(s, w, if next + 1 == |batch| then Top else Settling(batch, next + 1, false))
                  .(permits := s.permits + 1, released := Bump(s.released, batch[next])))
      case _ => None
  }

  function DrainerStep(s: Lane, d: nat, e: DrainerEvent): Option<Lane> {
    if d >= |s.drainers| then None
    else match (e, s.drainers[d])
      case (Pop(i), Draining) =>
        if !IsHead(s.queue, i) then None
        else Some(WithDrainer(s, d, Rejecting(s.queue[i].job)).(queue := Without(s.queue, i)))
      case (DrainEmpty, Draining) => if s.queue == [] then Some(WithDrainer(s, d, Drained)) else None
      case (Reject, Rejecting(j)) => Some(WithDrainer(s, d, Rejected(j)).(settled := Bump(s.settled, j)))
      case (GiveBack, Rejected(j)) =>
        Some(WithDrainer(s, d, Draining).(permits := s.permits + 1, released := Bump(s.released, j)))
      case _ => None
  }

  function Step(s: Lane, e: Event): Option<Lane> {
    match e
    case Submit => Some(SubmitStep(s))
    case OfCall(c, x) => CallStep(s, c, x)
    case OfWorker(w, x) => WorkerStep(s, w, x)
    case OfDrainer(d, x) => DrainerStep(s, d, x)
    case Stop => Some(s.(stop := true))
    case StartDrain => if s.stop then Some(s.(drainers := s.drainers + [Draining])) else None
  }

  function Init(cap: nat, numWorkers: nat, maxBatch: nat, coalescing: bool): Lane {
    Lane(cap, maxBatch, coalescing, cap, false, 0, 0, [], [], seq(numWorkers, _ => Top), [], [], [], [])
  }

  /** The interleaving `es` takes the lane from `s` to `t`. */
  ghost predicate Leads(s: Lane, es: seq<Event>, t: Lane)
    decreases |es|
  {
    if es == [] then s == t else Step(s, es[0]).Some? && Leads(Step(s, es[0]).value, es[1..], t)
  }

  ghost predicate CanBecome(s: Lane, t: Lane) {
    exists es :: Leads(s, es, t)
  }

  ghost predicate Reachable(t: Lane) {
    exists cap, n, maxBatch, coalescing, es ::
      maxBatch >= 1 && Leads(Init(cap, n, maxBatch, coalescing), es, t)
  }

  // ----- Who owns what -----

  /** The total of `f` over a sequence, for a weighting `phi` of jobs. */
  function Sum<T>(f: (T, nat -> nat) -> nat, phi: nat -> nat, xs: seq<T>): nat {
    if xs == [] then 0 else Sum(f, phi, xs[..|xs| - 1]) + f(xs[|xs| - 1], phi)
  }

  function JobWeight(j: nat, phi: nat -> nat): nat { phi(j) }

  function EntryWeight(x: Entry, phi: nat -> nat): nat { phi(x.job) }

  function CallHeld(x: Call, phi: nat -> nat): nat {
    if x.phase.Admitted? || x.phase.Committing? || x.phase.Numbered? then phi(x.job) else 0
  }

  /** The call itself still has to settle its future. */
  function CallOwes(x: Call, phi: nat -> nat): nat {
    if x.phase.Enqueued? || x.phase.Refused? then 0 else phi(x.job)
  }

  function WorkerHeld(x: Worker, phi: nat -> nat): nat {
    match x
    case Collecting(batch, deferred) => Sum(JobWeight, phi, batch) + Sum(EntryWeight, phi, deferred)
    case PuttingBack(batch, deferred) => Sum(JobWeight, phi, batch) + Sum(EntryWeight, phi, deferred)
    case Running(batch) => Sum(JobWeight, phi, batch)
    case Settling(batch, next, _) => if next < |batch| then Sum(JobWeight, phi, batch[next..]) else 0
    case _ => 0
  }

  function WorkerOwes(x: Worker, phi: nat -> nat): nat {
    match x
    case Settling(batch, next, true) => if next < |batch| then Sum(JobWeight, phi, batch[next + 1..]) else 0
    case _ => WorkerHeld(x, phi)
  }

  function DrainerHeld(x: Drainer, phi: nat -> nat): nat {
    match x
    case Rejecting(j) => phi(j)
    case Rejected(j) => phi(j)
    case _ => 0
  }

  function DrainerOwes(x: Drainer, phi: nat -> nat): nat {
    if x.Rejecting? then phi(x.job) else 0
  }

  /** Permits that are out: one per submitter past acquire, queued job, worker-held job and drainer-held job. */
  function Held(s: Lane, phi: nat -> nat): nat {
    Sum(CallHeld, phi, s.calls) + Sum(EntryWeight, phi, s.queue)
    + Sum(WorkerHeld, phi, s.workers) + Sum(DrainerHeld, phi, s.drainers)
  }

  /** Owners that still have to settle a future. */
  function Owed(s: Lane, phi: nat -> nat): nat {
    Sum(CallOwes, phi, s.calls) + Sum(EntryWeight, phi, s.queue)
    + Sum(WorkerOwes, phi, s.workers) + Sum(DrainerOwes, phi, s.drainers)
  }

  function Each(): nat -> nat { j => 1 }

  function Only(c: nat): nat -> nat { j => if j == c then 1 else 0 }

  /** Batches are never empty, and a finishing worker still has a job to release. */
  predicate WorkerOk(x: Worker) {
    match x
    case Collecting(batch, _) => batch != []
    case PuttingBack(batch, _) => batch != []
    case Running(batch) => batch != []
    case Settling(batch, next, _) => next < |batch|
    case _ => true
  }

  // ----- Sums under point updates -----

  lemma {:induction false} SumAppend<T>(f: (T, nat -> nat) -> nat, phi: nat -> nat, xs: seq<T>, x: T)
    ensures Sum(f, phi, xs + [x]) == Sum(f, phi, xs) + f(x, phi)
  {
    assert (xs + [x])[..|xs|] == xs;
  }

  lemma {:induction false} SumUpdate<T>(f: (T, nat -> nat) -> nat, phi: nat -> nat, xs: seq<T>, i: nat, x: T)
    requires i < |xs|
    ensures Sum(f, phi, xs[i := x]) + f(xs[i], phi) == Sum(f, phi, xs) + f(x, phi)
  {
    var n := |xs| - 1;
    if i < n {
      assert xs[i := x][..n] == xs[..n][i := x];
      SumUpdate(f, phi, xs[..n], i, x);
    } else {
      assert xs[i := x][..n] == xs[..n];
    }
  }

  lemma {:induction false} SumWithout<T>(f: (T, nat -> nat) -> nat, phi: nat -> nat, xs: seq<T>, i: nat)
    requires i < |xs|
    ensures Sum(f, phi, Without(xs, i)) + f(xs[i], phi) == Sum(f, phi, xs)
  {
    var n := |xs| - 1;
    if i < n {
      assert Without(xs, i)[..n - 1] == Without(xs[..n], i);
      assert Without(xs, i)[n - 1] == xs[n];
      SumWithout(f, phi, xs[..n], i);
    } else {
      assert Without(xs, i) == xs[..n];
    }
  }

  lemma SumDropFirst(phi: nat -> nat, batch: seq<nat>, k: nat)
    requires k < |batch|
    ensures Sum(JobWeight, phi, batch[k..]) == phi(batch[k]) + Sum(JobWeight, phi, batch[k + 1..])
  {
    SumWithout(JobWeight, phi, batch[k..], 0);
    assert Without(batch[k..], 0) == batch[k + 1..];
  }

  // ----- Every step moves tokens: it takes, gives back or settles at most one -----

  /** The call whose permit the step takes, gives back, or whose future it sets. */
  datatype Effect = Effect(taken: Option<nat>, given: Option<nat>, sets: Option<nat>)

  function Weight(o: Option<nat>, phi: nat -> nat): nat {
    if o.Some? then phi(o.value) else 0
  }

  const NOTHING := Effect(None, None, None)

  function CallEffect(s: Lane, c: nat, e: CallEvent): Effect {
    match e
    case Acquire => Effect(Some(c), None, None)
    case GiveUp => Effect(None, None, Some(c))
    case CheckStop => if s.stop then Effect(None, Some(c), None) else NOTHING
    case RefuseStopped => Effect(None, None, Some(c))
    case _ => NOTHING
  }

  function WorkerEffect(x: Worker, e: WorkerEvent): Effect {
    match e
    case Settle => if x.Settling? && x.next < |x.batch| then Effect(None, None, Some(x.batch[x.next])) else NOTHING
    case Release => if x.Settling? && x.next < |x.batch| then Effect(None, Some(x.batch[x.next]), None) else NOTHING
    case _ => NOTHING
  }

  function DrainerEffect(x: Drainer, e: DrainerEvent): Effect {
    match e
    case Reject => if x.Rejecting? then Effect(None, None, Some(x.job)) else NOTHING
    case GiveBack => if x.Rejected? then Effect(None, Some(x.job), None) else NOTHING
    case _ => NOTHING
  }

  ghost predicate Moves(s: Lane, t: Lane, f: Effect, phi: nat -> nat) {
    && Held(t, phi) + Weight(f.given, phi) == Held(s, phi) + Weight(f.taken, phi)
    && Owed(t, phi) + Weight(f.sets, phi) == Owed(s, phi)
  }

  lemma CallMoves(s: Lane, c: nat, e: CallEvent, phi: nat -> nat)
    requires CallStep(s, c, e).Some? && s.calls[c].job == c
    ensures Moves(s, CallStep(s, c, e).value, CallEffect(s, c, e), phi)
  {
    var t, f := CallStep(s, c, e).value, CallEffect(s, c, e);
    CallOnly(s, c, e);
    CallPasses(s, c, e, phi);
    SumUpdate(CallHeld, phi, s.calls, c, t.calls[c]);
    SumUpdate(CallOwes, phi, s.calls, c, t.calls[c]);
    if e.Put? {
      SumAppend(EntryWeight, phi, s.queue, t.queue[|s.queue|]);
    }
  }

  lemma CallOnly(s: Lane, c: nat, e: CallEvent)
    requires CallStep(s, c, e).Some?
    ensures var t := CallStep(s, c, e).value;
            && c < |s.calls| == |t.calls| && t.calls == s.calls[c := t.calls[c]] && t.calls[c].job == s.calls[c].job
            && t.workers == s.workers && t.drainers == s.drainers
            && if e.Put? then t.queue == s.queue + [Entry(e.priority, s.calls[c].phase.number, s.calls[c].job)]
               else t.queue == s.queue
  {}

  /** The tokens of the one call that steps; a put hands both of its tokens to the queue. */
  lemma CallPasses(s: Lane, c: nat, e: CallEvent, phi: nat -> nat)
    requires CallStep(s, c, e).Some? && s.calls[c].job == c
    ensures var x, y, f := s.calls[c], CallStep(s, c, e).value.calls[c], CallEffect(s, c, e);
            var passed := if e.Put? then phi(c) else 0;
            && CallHeld(y, phi) + Weight(f.given, phi) + passed == CallHeld(x, phi) + Weight(f.taken, phi)
            && CallOwes(y, phi) + Weight(f.sets, phi) + passed == CallOwes(x, phi)
  {}

  lemma DrainerMoves(s: Lane, d: nat, e: DrainerEvent, phi: nat -> nat)
    requires DrainerStep(s, d, e).Some?
    ensures Moves(s, DrainerStep(s, d, e).value, DrainerEffect(s.drainers[d], e), phi)
  {
    var t := DrainerStep(s, d, e).value;
    SumUpdate(DrainerHeld, phi, s.drainers, d, t.drainers[d]);
    SumUpdate(DrainerOwes, phi, s.drainers, d, t.drainers[d]);
    if e.Pop? {
      SumWithout(EntryWeight, phi, s.queue, e.i);
    }
  }

  /** The job a worker step takes from the queue, and the one it puts back. */
  function Pulled(s: Lane, e: WorkerEvent): Option<nat> {
    match e
    case Take(i, _) => if i < |s.queue| then Some(s.queue[i].job) else None
    case Join(i, _) => if i < |s.queue| then Some(s.queue[i].job) else None
    case _ => None
  }

  function Pushed(x: Worker, e: WorkerEvent): Option<nat> {
    if e.PutBack? && x.PuttingBack? && x.deferred != [] then Some(x.deferred[0].job) else None
  }

  /** The tokens of the one worker that steps. */
  ghost predicate TokensMove(s: Lane, e: WorkerEvent, y: Worker, x: Worker, phi: nat -> nat) {
    && WorkerHeld(x, phi) + Weight(WorkerEffect(y, e).given, phi) + Weight(Pushed(y, e), phi)
       == WorkerHeld(y, phi) + Weight(Pulled(s, e), phi)
    && WorkerOwes(x, phi) + Weight(WorkerEffect(y, e).sets, phi) + Weight(Pushed(y, e), phi)
       == WorkerOwes(y, phi) + Weight(Pulled(s, e), phi)
  }

  lemma TakeTokens(s: Lane, w: nat, e: WorkerEvent, phi: nat -> nat)
    requires e.Take? && WorkerStep(s, w, e).Some?
    ensures TokensMove(s, e, s.workers[w], WorkerStep(s, w, e).value.workers[w], phi)
  {
    SumAppend(JobWeight, phi, [], s.queue[e.i].job);
    assert [] + [s.queue[e.i].job] == [s.queue[e.i].job];
  }

  lemma JoinTokens(s: Lane, w: nat, e: WorkerEvent, phi: nat -> nat)
    requires e.Join? && WorkerStep(s, w, e).Some?
    ensures TokensMove(s, e, s.workers[w], WorkerStep(s, w, e).value.workers[w], phi)
  {
    JoinedTokens(s.workers[w].batch, s.workers[w].deferred, s.queue[e.i], phi);
  }

  lemma JoinedTokens(batch: seq<nat>, deferred: seq<Entry>, it: Entry, phi: nat -> nat)
    ensures forall x | x in [Collecting(batch + [it.job], deferred), Collecting(batch, deferred + [it])] ::
              && WorkerHeld(x, phi) == WorkerHeld(Collecting(batch, deferred), phi) + phi(it.job)
              && WorkerOwes(x, phi) == WorkerOwes(Collecting(batch, deferred), phi) + phi(it.job)
  {
    SumAppend(JobWeight, phi, batch, it.job);
    SumAppend(EntryWeight, phi, deferred, it);
  }

  lemma PutBackTokens(s: Lane, w: nat, e: WorkerEvent, phi: nat -> nat)
    requires e.PutBack? && WorkerStep(s, w, e).Some?
    ensures TokensMove(s, e, s.workers[w], WorkerStep(s, w, e).value.workers[w], phi)
  {
    var deferred := s.workers[w].deferred;
    SumWithout(EntryWeight, phi, deferred, 0);
    assert Without(deferred, 0) == deferred[1..];
  }

  lemma FinishTokens(s: Lane, w: nat, e: WorkerEvent, phi: nat -> nat)
    requires e.Finish? && w < |s.workers| && WorkerOk(s.workers[w]) && WorkerStep(s, w, e).Some?
    ensures TokensMove(s, e, s.workers[w], WorkerStep(s, w, e).value.workers[w], phi)
  {
    var batch := s.workers[w].batch;
    assert batch[0..] == batch;
  }

  lemma SettleTokens(s: Lane, w: nat, phi: nat -> nat)
    requires w < |s.workers| && WorkerOk(s.workers[w]) && WorkerStep(s, w, Settle).Some?
    ensures TokensMove(s, Settle, s.workers[w], WorkerStep(s, w, Settle).value.workers[w], phi)
  {
    SumDropFirst(phi, s.workers[w].batch, s.workers[w].next);
  }

  lemma ReleaseTokens(s: Lane, w: nat, phi: nat -> nat)
    requires w < |s.workers| && WorkerOk(s.workers[w]) && WorkerStep(s, w, Release).Some?
    ensures TokensMove(s, Release, s.workers[w], WorkerStep(s, w, Release).value.workers[w], phi)
  {
    SumDropFirst(phi, s.workers[w].batch, s.workers[w].next);
  }

  lemma WorkerTokens(s: Lane, w: nat, e: WorkerEvent, phi: nat -> nat)
    requires w < |s.workers| && WorkerOk(s.workers[w]) && WorkerStep(s, w, e).Some?
    ensures TokensMove(s, e, s.workers[w], WorkerStep(s, w, e).value.workers[w], phi)
  {
    if e.Take? {
      TakeTokens(s, w, e, phi);
    } else if e.Join? {
      JoinTokens(s, w, e, phi);
    } else if e.PutBack? {
      PutBackTokens(s, w, e, phi);
    } else if e.Finish? {
      FinishTokens(s, w, e, phi);
    } else if e.Settle? {
      SettleTokens(s, w, phi);
    } else if e.Release? {
      ReleaseTokens(s, w, phi);
    }
  }

  lemma WorkerQueue(s: Lane, w: nat, e: WorkerEvent, phi: nat -> nat)
    requires WorkerStep(s, w, e).Some?
    ensures Sum(EntryWeight, phi, WorkerStep(s, w, e).value.queue) + Weight(Pulled(s, e), phi)
            == Sum(EntryWeight, phi, s.queue) + Weight(Pushed(s.workers[w], e), phi)
  {
    if e.Take? || e.Join? {
      SumWithout(EntryWeight, phi, s.queue, e.i);
    } else if e.PutBack? {
      SumAppend(EntryWeight, phi, s.queue, s.workers[w].deferred[0]);
    }
  }

  lemma WorkerOnly(s: Lane, w: nat, e: WorkerEvent)
    requires WorkerStep(s, w, e).Some?
    ensures var t := WorkerStep(s, w, e).value;
            && w < |s.workers| == |t.workers| && t.workers == s.workers[w := t.workers[w]]
            && t.calls == s.calls && t.drainers == s.drainers
  {}

  lemma WorkerMoves(s: Lane, w: nat, e: WorkerEvent, phi: nat -> nat)
    requires w < |s.workers| && WorkerOk(s.workers[w]) && WorkerStep(s, w, e).Some?
    ensures Moves(s, WorkerStep(s, w, e).value, WorkerEffect(s.workers[w], e), phi)
  {
    var t := WorkerStep(s, w, e).value;
    WorkerOnly(s, w, e);
    WorkerTokens(s, w, e, phi);
    WorkerQueue(s, w, e, phi);
    SumUpdate(WorkerHeld, phi, s.workers, w, t.workers[w]);
    SumUpdate(WorkerOwes, phi, s.workers, w, t.workers[w]);
  }

  // ----- The invariant -----

  predicate CallOk(s: Lane, c: nat)
    requires c < |s.calls| == |s.acquired|
  {
    && s.calls[c].job == c
    && match s.calls[c].phase
       case Waiting => s.acquired[c] == 0
       case Refused => true
       case _ => s.acquired[c] == 1
  }

  function WorkerActive(x: Worker): nat {
    if x.Running? then |x.batch| else 0
  }

  function ActiveJobs(ws: seq<Worker>): nat {
    if ws == [] then 0 else ActiveJobs(ws[..|ws| - 1]) + WorkerActive(ws[|ws| - 1])
  }

  /** Permits out and free make up the cap; each call's permit and each call's future is accounted for once. */
  ghost predicate Balanced(s: Lane) {
    && |s.calls| == |s.acquired| == |s.settled| == |s.released|
    && s.permits + Held(s, Each()) == s.cap
    && (forall c: nat | c < |s.calls| :: CallBalanced(s, c))
    && (forall c: nat | c >= |s.calls| :: Held(s, Only(c)) == 0 && Owed(s, Only(c)) == 0)
  }

  ghost predicate CallBalanced(s: Lane, c: nat)
    requires c < |s.acquired| == |s.settled| == |s.released|
  {
    && s.released[c] + Held(s, Only(c)) == s.acquired[c] <= 1
    && s.settled[c] + Owed(s, Only(c)) == 1
  }

  /** Tokens in the hands of the queue, the workers and the drainers. */
  function LaneTokens(s: Lane, phi: nat -> nat): nat {
    Sum(EntryWeight, phi, s.queue) + Sum(WorkerHeld, phi, s.workers) + Sum(DrainerHeld, phi, s.drainers)
  }

  /** Only an enqueued call has handed its job over. */
  ghost predicate HandedOver(s: Lane) {
    forall c: nat | c < |s.calls| && !s.calls[c].phase.Enqueued? :: LaneTokens(s, Only(c)) == 0
  }

  ghost predicate Inv(s: Lane) {
    && Balanced(s)
    && HandedOver(s)
    && (forall c: nat | c < |s.calls| :: CallOk(s, c))
    && (forall w: nat | w < |s.workers| :: WorkerOk(s.workers[w]))
    && s.active == ActiveJobs(s.workers)
  }

  function BumpIf(xs: seq<nat>, o: Option<nat>): seq<nat> {
    if o.Some? then Bump(xs, o.value) else xs
  }

  /** The free permits and the per-call counts of `t` are those of `s` after the effect. */
  ghost predicate Recorded(s: Lane, t: Lane, f: Effect) {
    && t.cap == s.cap && |t.calls| == |s.calls|
    && t.permits + Weight(f.taken, Each()) == s.permits + Weight(f.given, Each())
    && t.acquired == BumpIf(s.acquired, f.taken)
    && t.released == BumpIf(s.released, f.given)
    && t.settled == BumpIf(s.settled, f.sets)
  }

  lemma LaneTokensOnlyDrop(s: Lane, t: Lane, f: Effect)
    requires HandedOver(s) && t.calls == s.calls && f.taken.None?
    requires forall phi :: Moves(s, t, f, phi)
    ensures HandedOver(t)
  {
    forall c: nat | c < |t.calls| && !t.calls[c].phase.Enqueued? ensures LaneTokens(t, Only(c)) == 0 {
      assert Moves(s, t, f, Only(c));
      assert LaneTokens(s, Only(c)) == 0;
    }
  }

  lemma EffectKeepsBalance(s: Lane, t: Lane, f: Effect)
    requires Balanced(s) && Recorded(s, t, f)
    requires forall phi :: Moves(s, t, f, phi)
    requires f.taken.Some? ==> f.taken.value < |s.calls| && s.acquired[f.taken.value] == 0
    ensures Balanced(t)
    ensures f.sets.Some? ==> f.sets.value < |s.calls| && s.settled[f.sets.value] == 0
    ensures f.given.Some? ==> f.given.value < |s.calls| && s.released[f.given.value] == 0
  {
    assert Moves(s, t, f, Each());
    forall c: nat | c < |t.calls| ensures CallBalanced(t, c) {
      EffectOnCall(s, t, f, c);
    }
    forall c: nat | c >= |t.calls| ensures Held(t, Only(c)) == 0 && Owed(t, Only(c)) == 0 {
      EffectOnCall(s, t, f, c);
    }
    if f.sets.Some? { EffectOnCall(s, t, f, f.sets.value); }
    if f.given.Some? { EffectOnCall(s, t, f, f.given.value); }
  }

  /** An effect on call `c` sets a future that is unset, and gives back a permit that is out. */
  ghost predicate FirstTime(s: Lane, f: Effect, c: nat)
    requires |s.calls| == |s.settled| == |s.released|
  {
    && (f.sets == Some(c) ==> c < |s.calls| && s.settled[c] == 0)
    && (f.given == Some(c) ==> c < |s.calls| && s.released[c] == 0)
  }

  ghost predicate TokensBalanced(s: Lane, c: nat)
    requires |s.calls| == |s.acquired| == |s.settled| == |s.released|
  {
    if c < |s.calls| then CallBalanced(s, c) else Held(s, Only(c)) == 0 && Owed(s, Only(c)) == 0
  }

  lemma EffectOnCall(s: Lane, t: Lane, f: Effect, c: nat)
    requires Balanced(s) && Recorded(s, t, f) && forall phi :: Moves(s, t, f, phi)
    requires f.taken.Some? ==> f.taken.value < |s.calls| && s.acquired[f.taken.value] == 0
    ensures TokensBalanced(t, c) && FirstTime(s, f, c)
  {
    assert Moves(s, t, f, Only(c));
    if c < |s.calls| { assert CallBalanced(s, c); }
  }

  lemma {:induction false} ActiveUpdate(ws: seq<Worker>, i: nat, x: Worker)
    requires i < |ws|
    ensures ActiveJobs(ws[i := x]) + WorkerActive(ws[i]) == ActiveJobs(ws) + WorkerActive(x)
  {
    var n := |ws| - 1;
    if i < n {
      assert ws[i := x][..n] == ws[..n][i := x];
      ActiveUpdate(ws[..n], i, x);
    } else {
      assert ws[i := x][..n] == ws[..n];
    }
  }

  lemma {:induction false} NobodyActive(ws: seq<Worker>)
    requires forall w: nat | w < |ws| :: ws[w] == Top
    ensures ActiveJobs(ws) == 0
    ensures forall phi :: Sum(WorkerHeld, phi, ws) == Sum(WorkerOwes, phi, ws) == 0
  {
    if ws != [] {
      NobodyActive(ws[..|ws| - 1]);
    }
  }

  lemma InitInv(cap: nat, n: nat, maxBatch: nat, coalescing: bool)
    ensures Inv(Init(cap, n, maxBatch, coalescing))
  {
    NobodyActive(Init(cap, n, maxBatch, coalescing).workers);
  }

  lemma SubmitMoves(s: Lane, phi: nat -> nat)
    ensures Held(SubmitStep(s), phi) == Held(s, phi)
    ensures Owed(SubmitStep(s), phi) == Owed(s, phi) + if s.stop then 0 else phi(|s.calls|)
  {
    var x := SubmitStep(s).calls[|s.calls|];
    SumAppend(CallHeld, phi, s.calls, x);
    SumAppend(CallOwes, phi, s.calls, x);
  }

  lemma SubmitKeepsInv(s: Lane)
    requires Inv(s)
    ensures Inv(SubmitStep(s))
  {
    var t, c0 := SubmitStep(s), |s.calls|;
    SubmitMoves(s, Each());
    forall c: nat
      ensures Held(t, Only(c)) == Held(s, Only(c))
      ensures Owed(t, Only(c)) == Owed(s, Only(c)) + if c == c0 && !s.stop then 1 else 0
    {
      SubmitMoves(s, Only(c));
    }
    forall c: nat ensures if c < |t.calls| then CallBalanced(t, c) else Held(t, Only(c)) == 0 && Owed(t, Only(c)) == 0 {
      if c < |s.calls| { assert CallBalanced(s, c); }
    }
    forall c: nat | c < |t.calls| ensures CallOk(t, c) {
      if c < |s.calls| { assert CallOk(s, c); }
    }
    forall c: nat | c < |t.calls| && !t.calls[c].phase.Enqueued? ensures LaneTokens(t, Only(c)) == 0 {
      if c < |s.calls| { assert LaneTokens(s, Only(c)) == 0; }
    }
  }

  lemma CallKeepsInv(s: Lane, c: nat, e: CallEvent)
    requires Inv(s) && CallStep(s, c, e).Some?
    ensures Inv(CallStep(s, c, e).value)
  {
    var t, f := CallStep(s, c, e).value, CallEffect(s, c, e);
    assert CallOk(s, c);
    forall phi ensures Moves(s, t, f, phi) {
      CallMoves(s, c, e, phi);
    }
    CallRecorded(s, c, e);
    EffectKeepsBalance(s, t, f);
    CallHandsOver(s, c, e);
    forall k: nat | k < |t.calls| ensures CallOk(t, k) {
      assert CallOk(s, k);
    }
  }

  lemma CallHandsOver(s: Lane, c: nat, e: CallEvent)
    requires HandedOver(s) && CallStep(s, c, e).Some? && s.calls[c].job == c
    ensures HandedOver(CallStep(s, c, e).value)
  {
    var t := CallStep(s, c, e).value;
    forall k: nat | k < |t.calls| && !t.calls[k].phase.Enqueued? ensures LaneTokens(t, Only(k)) == 0 {
      assert LaneTokens(s, Only(k)) == 0;
      if e.Put? {
        SumAppend(EntryWeight, Only(k), s.queue, t.queue[|s.queue|]);
      }
    }
  }

  lemma CallRecorded(s: Lane, c: nat, e: CallEvent)
    requires Inv(s) && CallStep(s, c, e).Some?
    ensures Recorded(s, CallStep(s, c, e).value, CallEffect(s, c, e))
    ensures CallStep(s, c, e).value.workers == s.workers && CallStep(s, c, e).value.active == s.active
    ensures CallEffect(s, c, e).taken.Some? ==> s.acquired[c] == 0
  {
    assert CallOk(s, c);
  }

  lemma WorkerKeepsInv(s: Lane, w: nat, e: WorkerEvent)
    requires Inv(s) && WorkerStep(s, w, e).Some?
    ensures Inv(WorkerStep(s, w, e).value)
  {
    var t, f := WorkerStep(s, w, e).value, WorkerEffect(s.workers[w], e);
    assert WorkerOk(s.workers[w]);
    forall phi ensures Moves(s, t, f, phi) {
      WorkerMoves(s, w, e, phi);
    }
    WorkerOnly(s, w, e);
    WorkerRecorded(s, w, e);
    WorkerStaysOk(s, w, e);
    EffectKeepsBalance(s, t, f);
    LaneTokensOnlyDrop(s, t, f);
    ActiveUpdate(s.workers, w, t.workers[w]);
    forall k: nat | k < |t.calls| ensures CallOk(t, k) {
      assert CallOk(s, k);
      assert s.acquired[k] == t.acquired[k];
    }
  }

  lemma WorkerRecorded(s: Lane, w: nat, e: WorkerEvent)
    requires w < |s.workers| && WorkerOk(s.workers[w]) && WorkerStep(s, w, e).Some?
    ensures Recorded(s, WorkerStep(s, w, e).value, WorkerEffect(s.workers[w], e))
  {}

  lemma WorkerStaysOk(s: Lane, w: nat, e: WorkerEvent)
    requires w < |s.workers| && WorkerOk(s.workers[w]) && WorkerStep(s, w, e).Some?
    ensures var t := WorkerStep(s, w, e).value;
            && w < |t.workers| && WorkerOk(t.workers[w])
            && t.active + WorkerActive(s.workers[w]) == s.active + WorkerActive(t.workers[w])
  {}

  lemma DrainerKeepsInv(s: Lane, d: nat, e: DrainerEvent)
    requires Inv(s) && DrainerStep(s, d, e).Some?
    ensures Inv(DrainerStep(s, d, e).value)
  {
    var t, f := DrainerStep(s, d, e).value, DrainerEffect(s.drainers[d], e);
    forall phi ensures Moves(s, t, f, phi) {
      DrainerMoves(s, d, e, phi);
    }
    EffectKeepsBalance(s, t, f);
    LaneTokensOnlyDrop(s, t, f);
    forall k: nat | k < |t.calls| ensures CallOk(t, k) {
      assert CallOk(s, k);
    }
  }

  lemma StopKeepsInv(s: Lane)
    requires Inv(s)
    ensures Inv(s.(stop := true))
  {
    var t := s.(stop := true);
    assert forall phi :: Moves(s, t, NOTHING, phi);
    EffectKeepsBalance(s, t, NOTHING);
    LaneTokensOnlyDrop(s, t, NOTHING);
    forall k: nat | k < |t.calls| ensures CallOk(t, k) {
      assert CallOk(s, k);
    }
  }

  lemma NewDrainerHoldsNothing(ds: seq<Drainer>, phi: nat -> nat)
    ensures Sum(DrainerHeld, phi, ds + [Draining]) == Sum(DrainerHeld, phi, ds)
    ensures Sum(DrainerOwes, phi, ds + [Draining]) == Sum(DrainerOwes, phi, ds)
  {
    SumAppend(DrainerHeld, phi, ds, Draining);
    SumAppend(DrainerOwes, phi, ds, Draining);
  }

  lemma OnlyDrainersMove(s: Lane, t: Lane, phi: nat -> nat)
    requires t.calls == s.calls && t.queue == s.queue && t.workers == s.workers
    requires Sum(DrainerHeld, phi, t.drainers) == Sum(DrainerHeld, phi, s.drainers)
    requires Sum(DrainerOwes, phi, t.drainers) == Sum(DrainerOwes, phi, s.drainers)
    ensures Moves(s, t, NOTHING, phi)
  {}

  lemma DrainKeepsInv(s: Lane)
    requires Inv(s)
    ensures Inv(s.(drainers := s.drainers + [Draining]))
  {
    var t := s.(drainers := s.drainers + [Draining]);
    forall phi ensures Moves(s, t, NOTHING, phi) {
      NewDrainerHoldsNothing(s.drainers, phi);
      OnlyDrainersMove(s, t, phi);
    }
    EffectKeepsBalance(s, t, NOTHING);
    LaneTokensOnlyDrop(s, t, NOTHING);
    forall k: nat | k < |t.calls| ensures CallOk(t, k) {
      assert CallOk(s, k);
    }
  }

  lemma StepKeepsInv(s: Lane, e: Event)
    requires Inv(s) && Step(s, e).Some?
    ensures Inv(Step(s, e).value)
  {
    match e
    case Submit => SubmitKeepsInv(s);
    case OfCall(c, x) => CallKeepsInv(s, c, x);
    case OfWorker(w, x) => WorkerKeepsInv(s, w, x);
    case OfDrainer(d, x) => DrainerKeepsInv(s, d, x);
    case Stop => StopKeepsInv(s);
    case StartDrain => DrainKeepsInv(s);
  }

  lemma {:induction false} RunKeepsInv(s: Lane, es: seq<Event>, t: Lane)
    requires Inv(s) && Leads(s, es, t)
    ensures Inv(t)
    decreases |es|
  {
    if es != [] {
      StepKeepsInv(s, es[0]);
      RunKeepsInv(Step(s, es[0]).value, es[1..], t);
    }
  }

  lemma ReachableInv(t: Lane)
    requires Reachable(t)
    ensures Inv(t)
  {
    var cap, n, maxBatch, coalescing, es :| maxBatch >= 1 && Leads(Init(cap, n, maxBatch, coalescing), es, t);
    InitInv(cap, n, maxBatch, coalescing);
    RunKeepsInv(Init(cap, n, maxBatch, coalescing), es, t);
  }

  // ----- Admission -----

  lemma {:induction false} EntriesCount(q: seq<Entry>)
    ensures Sum(EntryWeight, Each(), q) == |q|
  {
    if q != [] {
      EntriesCount(q[..|q| - 1]);
    }
  }

  lemma {:induction false} BatchCount(batch: seq<nat>)
    ensures Sum(JobWeight, Each(), batch) == |batch|
  {
    if batch != [] {
      BatchCount(batch[..|batch| - 1]);
    }
  }

  lemma {:induction false} ActiveIsHeld(ws: seq<Worker>)
    ensures ActiveJobs(ws) <= Sum(WorkerHeld, Each(), ws)
  {
    if ws != [] {
      var n := |ws| - 1;
      ActiveIsHeld(ws[..n]);
      if ws[n].Running? {
        BatchCount(ws[n].batch);
      }
    }
  }

  /**
   Free permits, submitters past the acquire, queued jobs, worker-held jobs and drainer-held jobs always
   add up to the cap, so the semaphore is never over-released and depth plus active stays within it.
   */
  lemma AdmissionConserved(t: Lane)
    requires Reachable(t)
    ensures t.permits + Sum(CallHeld, Each(), t.calls) + |t.queue|
            + Sum(WorkerHeld, Each(), t.workers) + Sum(DrainerHeld, Each(), t.drainers) == t.cap
    ensures t.permits <= t.cap && 0 <= t.active && |t.queue| + t.active <= t.cap
  {
    ReachableInv(t);
    EntriesCount(t.queue);
    ActiveIsHeld(t.workers);
  }

  // ----- Ownership and settlement -----

  lemma {:induction false} OwnCallOnly(f: (Call, nat -> nat) -> nat, calls: seq<Call>, c: nat)
    requires forall k: nat | k < |calls| :: calls[k].job == k
    requires forall x: Call | x.job != c :: f(x, Only(c)) == 0
    ensures Sum(f, Only(c), calls) == if c < |calls| then f(calls[c], Only(c)) else 0
  {
    if calls != [] {
      OwnCallOnly(f, calls[..|calls| - 1], c);
    }
  }

  lemma {:induction false} WorkersOweWithinHeld(phi: nat -> nat, ws: seq<Worker>)
    ensures Sum(WorkerOwes, phi, ws) <= Sum(WorkerHeld, phi, ws)
  {
    if ws != [] {
      var x := ws[|ws| - 1];
      WorkersOweWithinHeld(phi, ws[..|ws| - 1]);
      if x.Settling? && x.next < |x.batch| {
        SumDropFirst(phi, x.batch, x.next);
      }
    }
  }

  lemma {:induction false} DrainersOweWithinHeld(phi: nat -> nat, ds: seq<Drainer>)
    ensures Sum(DrainerOwes, phi, ds) <= Sum(DrainerHeld, phi, ds)
  {
    if ds != [] {
      DrainersOweWithinHeld(phi, ds[..|ds| - 1]);
    }
  }

  lemma CallTokens(t: Lane, c: nat)
    requires Inv(t) && c < |t.calls|
    ensures CallOk(t, c) && CallBalanced(t, c)
    ensures Sum(CallOwes, Only(c), t.calls) == CallOwes(t.calls[c], Only(c))
    ensures Sum(CallHeld, Only(c), t.calls) == CallHeld(t.calls[c], Only(c))
    ensures Sum(WorkerOwes, Only(c), t.workers) <= Sum(WorkerHeld, Only(c), t.workers)
    ensures Sum(DrainerOwes, Only(c), t.drainers) <= Sum(DrainerHeld, Only(c), t.drainers)
  {
    assert CallOk(t, c) && CallBalanced(t, c);
    forall k: nat | k < |t.calls| ensures t.calls[k].job == k {
      assert CallOk(t, k);
    }
    OwnCallOnly(CallOwes, t.calls, c);
    OwnCallOnly(CallHeld, t.calls, c);
    WorkersOweWithinHeld(Only(c), t.workers);
    DrainersOweWithinHeld(Only(c), t.drainers);
  }

  /**
   An enqueued job whose future is unset has exactly one owner (queue, worker or drainer); its future
   is set at most once, and its permit is given back at most once.
   */
  lemma OneOwner(t: Lane, c: nat)
    requires Reachable(t) && c < |t.calls| && t.calls[c].phase.Enqueued?
    ensures c < |t.settled| == |t.released|
    ensures t.settled[c] + Sum(EntryWeight, Only(c), t.queue) + Sum(WorkerOwes, Only(c), t.workers)
            + Sum(DrainerOwes, Only(c), t.drainers) == 1
    ensures t.released[c] <= t.settled[c] <= 1
  {
    ReachableInv(t);
    CallTokens(t, c);
  }

  /** The one place where a permit is given back before its future is set: a submitter that meets the stop flag. */
  lemma ReleasedBeforeSettledExactlyWhenBacking(t: Lane, c: nat)
    requires Reachable(t) && c < |t.calls|
    ensures c < |t.settled| == |t.released|
    ensures t.released[c] > t.settled[c] <==> t.calls[c].phase.Backing?
  {
    ReachableInv(t);
    CallTokens(t, c);
    assert t.calls[c].phase.Backing? ==> LaneTokens(t, Only(c)) == 0;
  }

  ghost predicate IsPending(s: Lane, c: nat) {
    c < |s.settled| && s.settled[c] == 0
  }

  /** A future a worker or a drain sets is unset before: the `cfut.done()` guards never skip a result. */
  lemma SetsOnlyPendingFutures(s: Lane, e: Event)
    requires Reachable(s) && Step(s, e).Some?
    ensures e.OfWorker? && e.work.Settle? ==>
              var f := WorkerEffect(s.workers[e.w], e.work); f.sets.Some? && IsPending(s, f.sets.value)
    ensures e.OfDrainer? && e.drain.Reject? ==>
              var f := DrainerEffect(s.drainers[e.d], e.drain); f.sets.Some? && IsPending(s, f.sets.value)
  {
    ReachableInv(s);
    if e.OfWorker? && e.work.Settle? {
      var f := WorkerEffect(s.workers[e.w], e.work);
      WorkerMoves(s, e.w, e.work, Only(f.sets.value));
      assert f.sets.value < |s.calls| && CallBalanced(s, f.sets.value);
    } else if e.OfDrainer? && e.drain.Reject? {
      var f := DrainerEffect(s.drainers[e.d], e.drain);
      DrainerMoves(s, e.d, e.drain, Only(f.sets.value));
      assert f.sets.value < |s.calls| && CallBalanced(s, f.sets.value);
    }
  }

  // ----- Shutdown -----

  /** Every submit call has returned, every worker has exited, every drain is over. */
  ghost predicate Quiescent(t: Lane) {
    && (forall c: nat | c < |t.calls| :: t.calls[c].phase.Enqueued? || t.calls[c].phase.Refused?)
    && (forall w: nat | w < |t.workers| :: t.workers[w].Exited?)
    && (forall d: nat | d < |t.drainers| :: t.drainers[d].Drained?)
  }

  lemma {:induction false} NothingHeld<T>(f: (T, nat -> nat) -> nat, phi: nat -> nat, xs: seq<T>)
    requires forall k: nat | k < |xs| :: f(xs[k], phi) == 0
    ensures Sum(f, phi, xs) == 0
  {
    if xs != [] {
      NothingHeld(f, phi, xs[..|xs| - 1]);
    }
  }

  lemma QuiescentTotals(t: Lane, phi: nat -> nat)
    requires Quiescent(t)
    ensures Held(t, phi) == Owed(t, phi) == Sum(EntryWeight, phi, t.queue)
  {
    NothingHeld(CallHeld, phi, t.calls);
    NothingHeld(CallOwes, phi, t.calls);
    NothingHeld(WorkerHeld, phi, t.workers);
    NothingHeld(WorkerOwes, phi, t.workers);
    NothingHeld(DrainerHeld, phi, t.drainers);
    NothingHeld(DrainerOwes, phi, t.drainers);
  }

  /** Once every thread is done, all futures are set iff all permits are back iff the queue is empty. */
  lemma QuiescentLane(t: Lane)
    requires Reachable(t) && Quiescent(t)
    ensures t.queue == [] <==> t.permits == t.cap
    ensures t.queue == [] <==> forall c: nat | c < |t.settled| :: t.settled[c] == 1
  {
    ReachableInv(t);
    QuiescentTotals(t, Each());
    EntriesCount(t.queue);
    forall c: nat | c < |t.settled|
      ensures t.settled[c] + Sum(EntryWeight, Only(c), t.queue) == 1
    {
      assert CallBalanced(t, c);
      QuiescentTotals(t, Only(c));
    }
    if t.queue != [] {
      var j := t.queue[0].job;
      SumWithout(EntryWeight, Only(j), t.queue, 0);
      QuiescentTotals(t, Only(j));
      assert j < |t.calls|;
      assert t.settled[j] != 1;
    }
  }

  function Deferred(x: Worker): seq<Entry> {
    if x.Collecting? || x.PuttingBack? then x.deferred else []
  }

  /** No submitter is between its stop check and its put, and no worker holds deferred jobs. */
  ghost predicate NothingInFlight(s: Lane) {
    && (forall c: nat | c < |s.calls| :: !s.calls[c].phase.Committing? && !s.calls[c].phase.Numbered?)
    && (forall w: nat | w < |s.workers| :: Deferred(s.workers[w]) == [])
  }

  lemma CallsStayDrained(s: Lane, c: nat, e: CallEvent)
    requires s.stop && s.queue == [] && NothingInFlight(s) && CallStep(s, c, e).Some?
    ensures var t := CallStep(s, c, e).value; t.stop && t.queue == [] && NothingInFlight(t)
  {
    var t := CallStep(s, c, e).value;
    assert t.workers == s.workers;
    assert forall k: nat | k < |t.calls| && k != c :: t.calls[k] == s.calls[k];
  }

  lemma WorkersStayDrained(s: Lane, w: nat, e: WorkerEvent)
    requires s.stop && s.queue == [] && NothingInFlight(s) && WorkerStep(s, w, e).Some?
    ensures var t := WorkerStep(s, w, e).value; t.stop && t.queue == [] && NothingInFlight(t)
  {
    var t := WorkerStep(s, w, e).value;
    WorkerOnly(s, w, e);
    assert Deferred(s.workers[w]) == [];
    assert Deferred(t.workers[w]) == [];
    assert forall k: nat | k < |t.workers| && k != w :: t.workers[k] == s.workers[k];
  }

  lemma DrainedStep(s: Lane, e: Event)
    requires s.stop && s.queue == [] && NothingInFlight(s) && Step(s, e).Some?
    ensures var t := Step(s, e).value; t.stop && t.queue == [] && NothingInFlight(t)
  {
    if e.OfCall? {
      CallsStayDrained(s, e.c, e.call);
    } else if e.OfWorker? {
      WorkersStayDrained(s, e.w, e.work);
    }
  }

  lemma {:induction false} DrainedStays(s: Lane, es: seq<Event>, t: Lane)
    requires s.stop && s.queue == [] && NothingInFlight(s) && Leads(s, es, t)
    ensures t.queue == []
    decreases |es|
  {
    if es != [] {
      DrainedStep(s, es[0]);
      DrainedStays(Step(s, es[0]).value, es[1..], t);
    }
  }

  lemma PutRun(s: Lane, c: nat) returns (es: seq<Event>, t: Lane)
    requires c < |s.calls| && (s.calls[c].phase.Committing? || s.calls[c].phase.Numbered?)
    ensures Leads(s, es, t) && t.queue != []
  {
    if s.calls[c].phase.Numbered? {
      t := Step(s, OfCall(c, Put(0))).value;
      es := [OfCall(c, Put(0))];
      assert Leads(t, [], t);
    } else {
      var u := Step(s, OfCall(c, DrawNumber)).value;
      t := Step(u, OfCall(c, Put(0))).value;
      assert Leads(t, [], t);
      assert Leads(u, [OfCall(c, Put(0))], t);
      es := [OfCall(c, DrawNumber), OfCall(c, Put(0))];
      assert es[1..] == [OfCall(c, Put(0))];
    }
  }

  lemma PutBackRun(s: Lane, w: nat) returns (es: seq<Event>, t: Lane)
    requires w < |s.workers| && Deferred(s.workers[w]) != []
    ensures Leads(s, es, t) && t.queue != []
  {
    if s.workers[w].PuttingBack? {
      t := Step(s, OfWorker(w, PutBack)).value;
      es := [OfWorker(w, PutBack)];
      assert Leads(t, [], t);
    } else {
      var u := Step(s, OfWorker(w, CloseBatch)).value;
      t := Step(u, OfWorker(w, PutBack)).value;
      assert Leads(t, [], t);
      assert Leads(u, [OfWorker(w, PutBack)], t);
      es := [OfWorker(w, CloseBatch), OfWorker(w, PutBack)];
      assert es[1..] == [OfWorker(w, PutBack)];
    }
  }

  lemma RefillRun(s: Lane) returns (es: seq<Event>, t: Lane)
    requires !NothingInFlight(s)
    ensures Leads(s, es, t) && t.queue != []
  {
    if c: nat :| c < |s.calls| && (s.calls[c].phase.Committing? || s.calls[c].phase.Numbered?) {
      es, t := PutRun(s, c);
    } else {
      var w: nat :| w < |s.workers| && Deferred(s.workers[w]) != [];
      es, t := PutBackRun(s, w);
    }
  }

  /**
   When a drain finds the queue empty, it stays empty in every continuation exactly when no submitter
   is between stop check and put and no worker holds deferred jobs at that moment.
   */
  lemma DrainIsFinalExactlyWhen(s: Lane)
    requires s.stop && s.queue == []
    ensures NothingInFlight(s) <==> forall t | CanBecome(s, t) :: t.queue == []
  {
    if NothingInFlight(s) {
      forall t | CanBecome(s, t) ensures t.queue == [] {
        var es :| Leads(s, es, t);
        DrainedStays(s, es, t);
      }
    } else {
      var es, t := RefillRun(s);
      assert CanBecome(s, t);
    }
  }

  lemma {:induction false} LeadsAppend(s: Lane, es: seq<Event>, t: Lane, fs: seq<Event>, u: Lane)
    requires Leads(s, es, t) && Leads(t, fs, u)
    ensures Leads(s, es + fs, u)
    decreases |es|
  {
    if es == [] {
      assert es + fs == fs;
    } else {
      assert (es + fs)[1..] == es[1..] + fs;
      LeadsAppend(Step(s, es[0]).value, es[1..], t, fs, u);
    }
  }

  lemma ReachableOn(s: Lane, es: seq<Event>, t: Lane)
    requires Reachable(s) && Leads(s, es, t)
    ensures Reachable(t)
  {
    var cap, n, maxBatch, coalescing, es0 :| maxBatch >= 1 && Leads(Init(cap, n, maxBatch, coalescing), es0, s);
    LeadsAppend(Init(cap, n, maxBatch, coalescing), es0, s, es, t);
  }

  /** The worker can still set a job aside: while it fills a batch, or once it starts one with a job to spare. */
  predicate CouldDefer(s: Lane, x: Worker) {
    match x
    case Collecting(batch, _) => |batch| < s.maxBatch && s.queue != []
    case Polling => s.coalescing && s.maxBatch >= 2 && |s.queue| >= 2
    case _ => false
  }

  ghost predicate MayDefer(s: Lane) {
    exists w: nat :: w < |s.workers| && CouldDefer(s, s.workers[w])
  }

  /** The stop flag is up, and nothing will be put or put back any more. */
  ghost predicate NoMorePuts(s: Lane) {
    s.stop && NothingInFlight(s) && !MayDefer(s)
  }

  /** Nothing in the lane grows that a worker could defer from. */
  predicate NoMoreQueued(s: Lane, t: Lane) {
    && t.stop == s.stop && t.maxBatch == s.maxBatch && t.coalescing == s.coalescing
    && |t.queue| <= |s.queue|
  }

  lemma DefersNoMore(s: Lane, t: Lane)
    requires !MayDefer(s) && NoMoreQueued(s, t) && t.workers == s.workers
    ensures !MayDefer(t)
  {
    forall w: nat | w < |t.workers| ensures !CouldDefer(t, t.workers[w]) {
      assert !CouldDefer(s, s.workers[w]);
    }
  }

  lemma CallPutsNoMore(s: Lane, c: nat, e: CallEvent)
    requires NoMorePuts(s) && CallStep(s, c, e).Some?
    ensures NoMorePuts(CallStep(s, c, e).value) && CallStep(s, c, e).value.queue == s.queue
  {
    var t := CallStep(s, c, e).value;
    CallOnly(s, c, e);
    DefersNoMore(s, t);
    assert forall k: nat | k < |t.calls| && k != c :: t.calls[k] == s.calls[k];
  }

  lemma QuietWorkerStaysQuiet(s: Lane, w: nat, e: WorkerEvent)
    requires s.stop && WorkerStep(s, w, e).Some?
    requires Deferred(s.workers[w]) == [] && !CouldDefer(s, s.workers[w])
    ensures var t := WorkerStep(s, w, e).value;
            && w < |t.workers| && NoMoreQueued(s, t)
            && Deferred(t.workers[w]) == [] && !CouldDefer(t, t.workers[w])
  {}

  lemma WorkerPutsNoMore(s: Lane, w: nat, e: WorkerEvent)
    requires NoMorePuts(s) && WorkerStep(s, w, e).Some?
    ensures NoMorePuts(WorkerStep(s, w, e).value) && |WorkerStep(s, w, e).value.queue| <= |s.queue|
  {
    var t := WorkerStep(s, w, e).value;
    WorkerOnly(s, w, e);
    QuietWorkerStaysQuiet(s, w, e);
    forall k: nat | k < |t.workers| ensures Deferred(t.workers[k]) == [] && !CouldDefer(t, t.workers[k]) {
      assert Deferred(s.workers[k]) == [] && !CouldDefer(s, s.workers[k]);
    }
  }

  ghost predicate EmptyOnceDrained(s: Lane, d: nat) {
    d < |s.drainers| && (s.drainers[d].Drained? ==> s.queue == [])
  }

  lemma NoMorePutsStep(s: Lane, e: Event, d: nat)
    requires NoMorePuts(s) && Step(s, e).Some? && EmptyOnceDrained(s, d)
    ensures NoMorePuts(Step(s, e).value) && EmptyOnceDrained(Step(s, e).value, d)
  {
    if e.OfCall? {
      CallPutsNoMore(s, e.c, e.call);
    } else if e.OfWorker? {
      WorkerOnly(s, e.w, e.work);
      WorkerPutsNoMore(s, e.w, e.work);
    } else {
      DefersNoMore(s, Step(s, e).value);
    }
  }

  lemma {:induction false} DrainEmpties(s: Lane, es: seq<Event>, t: Lane, d: nat)
    requires NoMorePuts(s) && EmptyOnceDrained(s, d) && Leads(s, es, t)
    ensures EmptyOnceDrained(t, d)
    decreases |es|
  {
    if es != [] {
      NoMorePutsStep(s, es[0], d);
      DrainEmpties(Step(s, es[0]).value, es[1..], t, d);
    }
  }

  /**
   Shutdown is complete: when a drain starts with nothing in flight and no worker able to set a job aside,
   every future is set and every permit is back once all threads are done.
   */
  lemma ShutdownSettlesEverything(s: Lane, d: nat, es: seq<Event>, t: Lane)
    requires Reachable(s) && NoMorePuts(s)
    requires d < |s.drainers| && s.drainers[d] == Draining
    requires Leads(s, es, t) && Quiescent(t)
    ensures t.permits == t.cap && forall c: nat | c < |t.settled| :: t.settled[c] == 1
  {
    DrainEmpties(s, es, t, d);
    ReachableOn(s, es, t);
    QuiescentLane(t);
  }

  /** With coalescing off no worker ever defers a job. */
  ghost predicate NeverDefers(s: Lane) {
    !s.coalescing ==> forall w: nat | w < |s.workers| :: !s.workers[w].Collecting? && Deferred(s.workers[w]) == []
  }

  lemma OtherStepsKeepWorkers(s: Lane, e: Event)
    requires Step(s, e).Some? && !e.OfWorker?
    ensures Step(s, e).value.workers == s.workers && Step(s, e).value.coalescing == s.coalescing
    ensures s.stop ==> Step(s, e).value.stop
  {}

  lemma WorkerStepNeverDefers(s: Lane, w: nat, e: WorkerEvent)
    requires NeverDefers(s) && WorkerStep(s, w, e).Some?
    ensures NeverDefers(WorkerStep(s, w, e).value)
    ensures WorkerStep(s, w, e).value.coalescing == s.coalescing && WorkerStep(s, w, e).value.stop == s.stop
  {
    assert !s.coalescing ==> !s.workers[w].Collecting? && Deferred(s.workers[w]) == [];
  }

  lemma StepNeverDefers(s: Lane, e: Event)
    requires NeverDefers(s) && Step(s, e).Some?
    ensures NeverDefers(Step(s, e).value) && Step(s, e).value.coalescing == s.coalescing
    ensures s.stop ==> Step(s, e).value.stop
  {
    if e.OfWorker? {
      WorkerStepNeverDefers(s, e.w, e.work);
    } else {
      OtherStepsKeepWorkers(s, e);
    }
  }

  lemma {:induction false} RunNeverDefers(s: Lane, es: seq<Event>, t: Lane)
    requires NeverDefers(s) && Leads(s, es, t)
    ensures NeverDefers(t)
    decreases |es|
  {
    if es != [] {
      StepNeverDefers(s, es[0]);
      RunNeverDefers(Step(s, es[0]).value, es[1..], t);
    }
  }

  /** With coalescing off, only a submitter between its stop check and its put can still put a job. */
  lemma OnlySubmittersPut(s: Lane)
    requires Reachable(s) && s.stop && !s.coalescing
    ensures NoMorePuts(s)
            <==> forall c: nat | c < |s.calls| :: !s.calls[c].phase.Committing? && !s.calls[c].phase.Numbered?
  {
    var cap, n, maxBatch, coalescing, es :| maxBatch >= 1 && Leads(Init(cap, n, maxBatch, coalescing), es, s);
    RunNeverDefers(Init(cap, n, maxBatch, coalescing), es, s);
    forall w: nat | w < |s.workers| ensures Deferred(s.workers[w]) == [] && !CouldDefer(s, s.workers[w]) {
      assert !s.workers[w].Collecting? && Deferred(s.workers[w]) == [];
    }
  }

  /** The same holds from the moment a drain finds the queue empty and nothing is in flight. */
  lemma DrainedSettlesEverything(s: Lane, es: seq<Event>, t: Lane)
    requires Reachable(s) && s.stop && s.queue == [] && NothingInFlight(s)
    requires Leads(s, es, t) && Quiescent(t)
    ensures t.permits == t.cap && forall c: nat | c < |t.settled| :: t.settled[c] == 1
  {
    DrainedStays(s, es, t);
    ReachableOn(s, es, t);
    QuiescentLane(t);
  }

  // ----- Runs in which a job outlives the shutdown -----

  lemma Go(s: Lane, e: Event) returns (t: Lane)
    requires Reachable(s) && Step(s, e).Some?
    ensures t == Step(s, e).value && Reachable(t)
  {
    t := Step(s, e).value;
    assert Leads(t, [], t);
    assert Leads(s, [e], t);
    ReachableOn(s, [e], t);
  }

  lemma Start(cap: nat, maxBatch: nat, coalescing: bool) returns (s: Lane)
    requires maxBatch >= 1
    ensures s == Init(cap, 1, maxBatch, coalescing) && s.workers == [Top] && Reachable(s)
  {
    s := Init(cap, 1, maxBatch, coalescing);
    assert Leads(s, [], s);
  }

  lemma OneCommitting() returns (t: Lane)
    ensures t == Lane(1, 1, false, 0, false, 0, 0, [Call(0, Committing)], [], [Top], [], [1], [0], [0]) && Reachable(t)
  {
    t := Start(1, 1, false);
    t := Go(t, Submit);
    t := Go(t, OfCall(0, Acquire));
    t := Go(t, OfCall(0, CheckStop));
  }

  lemma DrainedWhileCommitting() returns (t: Lane)
    ensures t == Lane(1, 1, false, 0, true, 0, 0, [Call(0, Committing)], [], [Exited], [Drained], [1], [0], [0])
    ensures Reachable(t)
  {
    t := OneCommitting();
    t := Go(t, Stop);
    t := Go(t, StartDrain);
    t := Go(t, OfDrainer(0, DrainEmpty));
    t := Go(t, OfWorker(0, EnterLoop));
  }

  /** A submitter between its stop check and its put when the drain runs leaves its job queued for ever. */
  lemma StrandedBySubmitter() returns (t: Lane)
    ensures Reachable(t) && Quiescent(t) && t.drainers == [Drained] && !t.coalescing
    ensures t.queue != [] && t.settled == [0] && t.permits < t.cap
  {
    t := DrainedWhileCommitting();
    t := Go(t, OfCall(0, DrawNumber));
    t := Go(t, OfCall(0, Put(0)));
  }

  lemma PutOne(s: Lane, c: nat) returns (t: Lane)
    requires Reachable(s) && !s.stop && s.permits > 0 && c < |s.calls| == |s.acquired| && s.calls[c] == Call(c, Waiting)
    ensures Reachable(t)
    ensures t == s.(permits := s.permits - 1, acquired := Bump(s.acquired, c), nextNumber := s.nextNumber + 1,
                    calls := s.calls[c := Call(c, Enqueued)], queue := s.queue + [Entry(0, s.nextNumber, c)])
  {
    t := Go(s, OfCall(c, Acquire));
    t := Go(t, OfCall(c, CheckStop));
    t := Go(t, OfCall(c, DrawNumber));
    t := Go(t, OfCall(c, Put(0)));
  }

  lemma TwoQueued() returns (t: Lane)
    ensures t == Lane(2, 2, true, 0, false, 2, 0, [Call(0, Enqueued), Call(1, Enqueued)],
                      [Entry(0, 0, 0), Entry(0, 1, 1)], [Top], [], [1, 1], [0, 0], [0, 0])
    ensures Reachable(t)
  {
    t := Start(2, 2, true);
    t := Go(t, Submit);
    t := Go(t, Submit);
    t := PutOne(t, 0);
    t := PutOne(t, 1);
  }

  lemma HoldingDeferred() returns (t: Lane)
    ensures t == Lane(2, 2, true, 0, false, 2, 0, [Call(0, Enqueued), Call(1, Enqueued)],
                      [], [Collecting([0], [Entry(0, 1, 1)])], [], [1, 1], [0, 0], [0, 0])
    ensures Reachable(t)
  {
    t := TwoQueued();
    t := Go(t, OfWorker(0, EnterLoop));
    t := Go(t, OfWorker(0, Take(0, true)));
    t := Go(t, OfWorker(0, Join(0, false)));
  }

  lemma DrainedWhileDeferring() returns (t: Lane)
    ensures t == Lane(2, 2, true, 0, true, 2, 0, [Call(0, Enqueued), Call(1, Enqueued)],
                      [], [Collecting([0], [Entry(0, 1, 1)])], [Drained], [1, 1], [0, 0], [0, 0])
    ensures Reachable(t)
  {
    t := HoldingDeferred();
    t := Go(t, Stop);
    t := Go(t, StartDrain);
    t := Go(t, OfDrainer(0, DrainEmpty));
  }

  lemma PutBackAfterDrain() returns (t: Lane)
    ensures t == Lane(2, 2, true, 0, true, 2, 1, [Call(0, Enqueued), Call(1, Enqueued)],
                      [Entry(0, 1, 1)], [Running([0])], [Drained], [1, 1], [0, 0], [0, 0])
    ensures Reachable(t)
  {
    t := DrainedWhileDeferring();
    t := Go(t, OfWorker(0, CloseBatch));
    t := Go(t, OfWorker(0, PutBack));
    t := Go(t, OfWorker(0, Claim));
  }

  lemma SettledAfterDrain() returns (t: Lane)
    ensures t == Lane(2, 2, true, 0, true, 2, 0, [Call(0, Enqueued), Call(1, Enqueued)],
                      [Entry(0, 1, 1)], [Settling([0], 0, true)], [Drained], [1, 1], [1, 0], [0, 0])
    ensures Reachable(t)
  {
    t := PutBackAfterDrain();
    t := Go(t, OfWorker(0, Finish));
    t := Go(t, OfWorker(0, Settle));
  }

  /** A worker that defers a job across the drain puts it back into a lane nobody serves any more. */
  lemma StrandedByDeferral() returns (t: Lane)
    ensures Reachable(t) && Quiescent(t) && t.drainers == [Drained]
    ensures t.queue != [] && t.settled == [1, 0] && t.permits < t.cap
  {
    t := SettledAfterDrain();
    t := Go(t, OfWorker(0, Release));
    t := Go(t, OfWorker(0, EnterLoop));
  }

  // ----- All lanes together: one stop flag, one drain pass over the lanes -----

  datatype PoolEvent = At(lane: nat, e: Event) | StopAll

  function PoolStep(p: seq<Lane>, e: PoolEvent): Option<seq<Lane>> {
    match e
    case At(i, x) =>
      if i >= |p| || x.Stop? || Step(p[i], x).None? then None else Some(p[i := Step(p[i], x).value])
    case StopAll => Some(seq(|p|, i requires 0 <= i < |p| => Step(p[i], Stop).value))
  }

  ghost predicate PoolLeads(p: seq<Lane>, es: seq<PoolEvent>, q: seq<Lane>)
    decreases |es|
  {
    if es == [] then p == q else PoolStep(p, es[0]).Some? && PoolLeads(PoolStep(p, es[0]).value, es[1..], q)
  }

  function Total(f: Lane -> int, p: seq<Lane>): int {
    if p == [] then 0 else Total(f, p[..|p| - 1]) + f(p[|p| - 1])
  }

  function Cap(s: Lane): int { s.cap }

  function DepthPlusActive(s: Lane): int { |s.queue| + s.active }

  lemma {:induction false} TotalAtMost(f: Lane -> int, g: Lane -> int, p: seq<Lane>)
    requires forall i | 0 <= i < |p| :: f(p[i]) <= g(p[i])
    ensures Total(f, p) <= Total(g, p)
  {
    if p != [] {
      TotalAtMost(f, g, p[..|p| - 1]);
    }
  }

  lemma {:induction false} PoolRunReachable(p: seq<Lane>, es: seq<PoolEvent>, q: seq<Lane>)
    requires PoolLeads(p, es, q) && forall i | 0 <= i < |p| :: Reachable(p[i])
    ensures |q| == |p| && forall i | 0 <= i < |q| :: Reachable(q[i])
    decreases |es|
  {
    if es != [] {
      var r := PoolStep(p, es[0]).value;
      forall i | 0 <= i < |r| ensures Reachable(r[i]) {
        if es[0].StopAll? {
          var t := Go(p[i], Stop);
        } else if i == es[0].lane {
          var t := Go(p[i], es[0].e);
        }
      }
      PoolRunReachable(r, es[1..], q);
    }
  }

  /** Over every interleaving of all lanes, total depth plus active stays within the sum of the lane caps. */
  lemma PoolAdmission(p: seq<Lane>, es: seq<PoolEvent>, q: seq<Lane>)
    requires PoolLeads(p, es, q)
    requires forall i | 0 <= i < |p| ::
               p[i].maxBatch >= 1 && p[i] == Init(p[i].cap, |p[i].workers|, p[i].maxBatch, p[i].coalescing)
    ensures Total(DepthPlusActive, q) <= Total(Cap, q)
  {
    forall i | 0 <= i < |p| ensures Reachable(p[i]) {
      assert Leads(p[i], [], p[i]);
    }
    PoolRunReachable(p, es, q);
    forall i | 0 <= i < |q| ensures DepthPlusActive(q[i]) <= Cap(q[i]) {
      AdmissionConserved(q[i]);
    }
    TotalAtMost(DepthPlusActive, Cap, q);
  }
}
