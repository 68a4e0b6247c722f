/** Provider selection, fallback and batching (inference/router.py) on top of the breaker and the ledger. */
module Router {
  import opened Options
  import opened InferenceTypes
  import opened Ledger
  import opened Strings
  import CB = CircuitBreaker

  /** `error` is "" when the provider reported none; `ledger` is what `_merge_ledger` attaches. */
  datatype Response = Response(status: string, text: string, model: string, error: string, errorType: string,
                               httpStatus: Option<int>, isFallback: bool, ledger: Option<InferenceLedger>)

  datatype Reply = Raised | Returned(response: Response)

  datatype BatchReply = BatchRaised | BatchReturned(responses: seq<Response>)

  /** A backend as it answers during one request: any reply to any question. */
  datatype Provider = Provider(id: string, generate: (Request, string) -> Reply, supportsBatch: bool,
                               generateBatch: (seq<Request>, string) -> BatchReply)

  datatype Config = Config(primary: Provider, primaryModel: string, fallback: Provider, fallbackModel: string,
                           fallbackRetryableOnly: bool, classify: (string, Option<int>) -> string)

  datatype Result = Failed | Answer(response: Response)

  datatype BatchResult = BatchFailed | Answers(responses: seq<Response>)

  /** The two configurations differ at most in what their backends reply. */
  predicate SameSetup(a: Config, b: Config) {
    && a.primaryModel == b.primaryModel && a.fallbackModel == b.fallbackModel
    && a.fallbackRetryableOnly == b.fallbackRetryableOnly
    && a.primary.id == b.primary.id && a.fallback.id == b.fallback.id
    && a.primary.supportsBatch == b.primary.supportsBatch
  }

  predicate HasFallback(cfg: Config) { cfg.fallbackModel != "" }

  /** `_generate_with_metrics` fills in an error class when the provider gave an error without one. */
  function Classified(cfg: Config, r: Response): Response {
    if r.error != "" && r.errorType == "" then r.(errorType := cfg.classify(r.error, r.httpStatus)) else r
  }

  /** A failed answer always leaves with an error class. */
  function Diagnosed(cfg: Config, r: Response): Response {
    if r.errorType == "" then r.(errorType := cfg.classify(r.error, r.httpStatus)) else r
  }

  /** How a fallback's answer leaves: degraded if it is usable. */
  function AsFallback(cfg: Config, r: Response): Response {
    if StatusOk(r.status) then r.(status := "DEGRADED", isFallback := true) else Diagnosed(cfg, r)
  }

  function ErrorLabel(r: Response): Option<string> {
    if r.errorType == "" then None else Some(r.errorType)
  }

  predicate Retryable(r: Response) {
    || r.errorType == "timeout" || r.errorType == "transport"
    || (r.httpStatus.Some? && (r.httpStatus.value == 429 || r.httpStatus.value >= 500))
  }

  function FallbackRequest(cfg: Config, req: Request, numPredict: Option<int>): Request {
    var r := req.(modelName := Some(cfg.fallbackModel));
    if numPredict.Some? then r.(metadata := r.metadata.(numPredict := Some(Number(numPredict.value)))) else r
  }

  function OrDefault(s: string, default: string): string { if s == "" then default else s }

  // ----- The clock-free outcome of one request -----

  datatype Hop = Hop(role: Role, ok: bool, skipped: bool)

  /** What a caller sees of an answer, apart from latencies and labels. */
  datatype Core = Core(status: string, text: string, finalModel: string, isFallback: bool, hops: seq<Hop>)

  function HopsOf(attempts: seq<Attempt>): seq<Hop> {
    seq(|attempts|, i requires 0 <= i < |attempts| => Hop(attempts[i].role, attempts[i].ok, attempts[i].primarySkipped))
  }

  ghost predicate HasCore(r: Response, c: Core) {
    && r.status == c.status && r.text == c.text && r.isFallback == c.isFallback
    && r.ledger.Some? && r.ledger.value.finalModel == Some(c.finalModel)
    && HopsOf(r.ledger.value.attempts) == c.hops
  }

  function PrimaryModelFor(cfg: Config, req: Request): string { OrElse(req.modelName, cfg.primaryModel) }

  function PrimaryCore(cfg: Config, req: Request, r: Response): Core {
    Core(r.status, r.text, OrDefault(r.model, PrimaryModelFor(cfg, req)), r.isFallback,
         [Hop(Primary, StatusOk(r.status), false)])
  }

  function FallbackCore(cfg: Config, r: Response, before: seq<Hop>): Core {
    var ok := StatusOk(r.status);
    Core(if ok then "DEGRADED" else r.status, r.text, OrDefault(r.model, cfg.fallbackModel), ok || r.isFallback,
         before + [Hop(Fallback, ok, before == [])])
  }

  /** Which providers answer a request, given whether the primary may be asked; None when a provider raises. */
  function Route(cfg: Config, usePrimary: bool, req: Request, numPredict: Option<int>): Option<Core> {
    if !usePrimary then ViaFallback(cfg, req, numPredict, [])
    else match cfg.primary.generate(req, PrimaryModelFor(cfg, req))
      case Raised => None
      case Returned(r0) =>
        var r := Classified(cfg, r0);
        if KeepsPrimary(cfg, r) then Some(PrimaryCore(cfg, req, r))
        else ViaFallback(cfg, req, numPredict, [Hop(Primary, false, false)])
  }

  function ViaFallback(cfg: Config, req: Request, numPredict: Option<int>, before: seq<Hop>): Option<Core> {
    match FallbackReply(cfg, req, numPredict)
    case Raised => None
    case Returned(r) => Some(FallbackCore(cfg, r, before))
  }

  function FallbackReply(cfg: Config, req: Request, numPredict: Option<int>): Reply {
    cfg.fallback.generate(FallbackRequest(cfg, req, numPredict), cfg.fallbackModel)
  }

  /** The breaker events a primary hop leaves behind: none when the provider raises. */
  function PrimaryLog(cfg: Config, req: Request, recordedAt: real): seq<CB.Event> {
    match cfg.primary.generate(req, PrimaryModelFor(cfg, req))
    case Raised => []
    case Returned(r0) =>
      var r := Classified(cfg, r0);
      [CB.Recorded(recordedAt, !StatusOk(r.status) && Retryable(r))]
  }

  /** The breaker events one request leaves behind. */
  function RouteLog(cfg: Config, forced: bool, usePrimary: bool, req: Request, askedAt: real,
                    recordedAt: real): seq<CB.Event>
  {
    (if HasFallback(cfg) && !forced then [CB.Asked(askedAt, usePrimary)] else [])
    + if usePrimary then PrimaryLog(cfg, req, recordedAt) else []
  }

  datatype Limits = Limits(threshold: nat, recovery: real)

  /** Whether a request made at `askedAt` goes to the primary, given the breaker's log so far. */
  predicate UsesPrimary(cfg: Config, b: Limits, log: seq<CB.Event>, forced: bool, askedAt: real) {
    HasFallback(cfg) ==> !forced && CB.Admits(b.threshold, b.recovery, log, askedAt)
  }

  // ----- Time -----

  /** Monotonic clock: every reading is at least the one before. */
  class Clock {
    var now: real

    method Read() returns (t: real)
      modifies this
      ensures t == now && now >= old(now)
    {
      var pause: real := *;
      now := if pause > 0.0 then now + pause else now;
      t := now;
    }
  }

  /** `int((t1 - t0) * 1000)` for t0 <= t1. */
  function Millis(t0: real, t1: real): nat {
    if t0 <= t1 then ((t1 - t0) * 1000.0).Floor else 0
  }

  lemma MillisAddUp(t0: real, t1: real, t2: real, t3: real, t4: real, t5: real)
    requires t0 <= t1 <= t2 <= t3 <= t4 <= t5
    ensures Millis(t1, t2) + Millis(t3, t4) <= Millis(t0, t5)
    ensures Millis(t1, t2) <= Millis(t0, t5)
  {}

  lemma HopsWithinEndToEnd(spent: nat, t0: real, t1: real, t2: real, t3: real, t4: real, t5: real)
    requires t0 <= t1 <= t2 <= t3 <= t4 <= t5 && spent <= Millis(t1, t2)
    ensures spent + Millis(t3, t4) <= Millis(t0, t5)
  {
    MillisAddUp(t0, t1, t2, t3, t4, t5);
  }

  // ----- The promises of one answer -----

  /** Hops add up to the provider latency, which stays within the end-to-end latency. */
  ghost predicate LatencyOk(l: InferenceLedger) {
    && l.providerLatencyMs.Some? && l.endToEndLatencyMs.Some?
    && l.providerLatencyMs.value == TotalLatency(l.attempts)
    && l.providerLatencyMs.value <= l.endToEndLatencyMs.value
  }

  ghost predicate Answered(r: Response, s: Shape) {
    && r.ledger.Some? && HasShape(r.ledger.value.attempts, s)
    && StatusOk(r.status) == ShapeOk(s)
    && LatencyOk(r.ledger.value)
  }

  function FallbackShape(before: seq<Attempt>, ok: bool): Shape {
    if before == [] then FallbackOnly(ok) else PrimaryThenFallback(ok)
  }

  /** What the fallback's row makes of a ledger's rows. */
  ghost predicate RowAdded(before: seq<Attempt>, row: Attempt, after: seq<Attempt>) {
    && HasShape(after, FallbackShape(before, row.ok))
    && HopsOf(after) == HopsOf(before) + [Hop(Fallback, row.ok, HopsOf(before) == [])]
    && TotalLatency(after) == TotalLatency(before) + row.latencyMs
  }

  lemma FallbackRow(before: seq<Attempt>, row: Attempt)
    requires before == [] || HasShape(before, PrimaryFail)
    requires row.role == Fallback && row.primarySkipped == (before == [])
    ensures RowAdded(before, row, before + [row])
  {
    ShapeWithRow(before, row);
    HopsWithRow(before, row);
    LatencyWithRow(before, row);
  }

  lemma ShapeWithRow(before: seq<Attempt>, row: Attempt)
    requires before == [] || HasShape(before, PrimaryFail)
    requires row.role == Fallback && row.primarySkipped == (before == [])
    ensures HasShape(before + [row], FallbackShape(before, row.ok))
  {}

  lemma HopsWithRow(before: seq<Attempt>, row: Attempt)
    requires row.role == Fallback && row.primarySkipped == (before == [])
    ensures HopsOf(before + [row]) == HopsOf(before) + [Hop(Fallback, row.ok, HopsOf(before) == [])]
  {
    assert |HopsOf(before)| == |before|;
  }

  lemma LatencyWithRow(before: seq<Attempt>, row: Attempt)
    ensures TotalLatency(before + [row]) == TotalLatency(before) + row.latencyMs
  {
    assert (before + [row])[..|before|] == before;
  }

  lemma DegradedIsOk()
    ensures StatusOk("DEGRADED")
  {
    assert Strip("DEGRADED") == "DEGRADED";
    assert Lower("DEGRADED") == "degraded";
  }

  /** The result is the routed outcome, with a sound ledger of the matching shape and labels. */
  ghost predicate Matches(cfg: Config, req: Request, forced: bool, routed: Option<Core>, r: Result) {
    match routed
    case None => r.Failed?
    case Some(c) =>
      && c.hops != [] && r.Answer? && HasCore(r.response, c) && Answered(r.response, ShapeOf(c))
      && Labelled(r.response.ledger.value, c.hops[|c.hops| - 1].role == Fallback,
                  HasFallback(cfg) && forced, ReasonFor(cfg, ShapeOf(c), forced, req))
  }

  /** Why a fallback answered. */
  function ReasonFor(cfg: Config, s: Shape, forced: bool, req: Request): Option<string> {
    match s
    case FallbackOnly(_) => Some(if forced then "queue_wait_timeout" else "circuit_open")
    case PrimaryThenFallback(_) =>
      (match cfg.primary.generate(req, PrimaryModelFor(cfg, req))
       case Raised => None
       case Returned(r) =>
         Some(if Retryable(Classified(cfg, r)) then "primary_retryable_failure" else "primary_failure"))
    case _ => None
  }

  /** The shape of an answer, read off its hops. */
  function ShapeOf(c: Core): Shape
    requires c.hops != []
  {
    if |c.hops| == 2 then PrimaryThenFallback(c.hops[1].ok)
    else if c.hops[0].role == Fallback then FallbackOnly(c.hops[0].ok)
    else if c.hops[0].ok then PrimaryOk
    else PrimaryFail
  }

  /** The labels of a ledger: was a fallback used, did the queue force it, and why. */
  ghost predicate Labelled(l: InferenceLedger, fallbackUsed: bool, queueForced: bool, reason: Option<string>) {
    l.routerFallbackUsed == fallbackUsed && l.queueWaitDegraded == queueForced && l.fallbackReason == reason
  }

  /** What asking the fallback promises; `ledger` is the ledger before its row is appended. */
  ghost predicate FallbackOutcome(cfg: Config, req: Request, numPredict: Option<int>, ledger: InferenceLedger,
                                  reason: string, r: Result)
  {
    match ViaFallback(cfg, req, numPredict, HopsOf(ledger.attempts))
    case None => r.Failed?
    case Some(c) =>
      && r.Answer? && HasCore(r.response, c)
      && Answered(r.response, FallbackShape(ledger.attempts, StatusOk(c.status)))
      && Labelled(r.response.ledger.value, true, ledger.queueWaitDegraded, Some(reason))
  }

  /** The fallback's classified answer, when it has one. */
  ghost predicate FallbackGave(cfg: Config, req: Request, numPredict: Option<int>, given: Response) {
    var reply := FallbackReply(cfg, req, numPredict);
    reply.Returned? && given == Classified(cfg, reply.response)
  }

  lemma FallbackCoreHolds(cfg: Config, req: Request, numPredict: Option<int>, before: seq<Attempt>,
                          given: Response, row: Attempt, rows: seq<Attempt>, out: Response)
    requires FallbackGave(cfg, req, numPredict, given) && row.ok == StatusOk(given.status)
    requires RowAdded(before, row, rows) && out.ledger.Some? && out.ledger.value.attempts == rows
    requires out == AsFallback(cfg, given).(ledger := out.ledger)
    requires out.ledger.value.finalModel == Some(OrDefault(given.model, cfg.fallbackModel))
    ensures var c := ViaFallback(cfg, req, numPredict, HopsOf(before));
            c.Some? && HasCore(out, c.value) && StatusOk(c.value.status) == row.ok
  {
    DegradedIsOk();
  }

  lemma FallbackAnswerIsSound(cfg: Config, req: Request, numPredict: Option<int>, ledger: InferenceLedger,
                              reason: string, given: Response, row: Attempt, rows: seq<Attempt>, out: Response,
                              l: InferenceLedger)
    requires ledger.attempts == [] || HasShape(ledger.attempts, PrimaryFail)
    requires FallbackGave(cfg, req, numPredict, given)
    requires row.role == Fallback && row.primarySkipped == (ledger.attempts == []) && row.ok == StatusOk(given.status)
    requires RowAdded(ledger.attempts, row, rows) && l.attempts == rows
    requires out == AsFallback(cfg, given).(ledger := Some(l))
    requires l.finalModel == Some(OrDefault(given.model, cfg.fallbackModel))
    requires l.providerLatencyMs.Some? && l.providerLatencyMs.value == TotalLatency(rows)
    requires l.endToEndLatencyMs.Some? && l.providerLatencyMs.value <= l.endToEndLatencyMs.value
    requires Labelled(l, true, ledger.queueWaitDegraded, Some(reason))
    ensures FallbackOutcome(cfg, req, numPredict, ledger, reason, Answer(out))
  {
    FallbackCoreHolds(cfg, req, numPredict, ledger.attempts, given, row, rows, out);
  }

  lemma PrimaryAnswerIsSound(cfg: Config, req: Request, given: Response, row: Attempt, out: Response,
                             l: InferenceLedger)
    requires row.role == Primary && !row.primarySkipped && row.ok == StatusOk(given.status)
    requires out.ledger == Some(l) && l.attempts == [row]
    requires out.text == given.text && out.status == given.status && out.isFallback == given.isFallback
    requires l.finalModel == Some(OrDefault(given.model, PrimaryModelFor(cfg, req)))
    requires l.providerLatencyMs == Some(row.latencyMs)
    requires l.endToEndLatencyMs.Some? && l.providerLatencyMs.value <= l.endToEndLatencyMs.value
    ensures HasCore(out, PrimaryCore(cfg, req, given))
    ensures Answered(out, if row.ok then PrimaryOk else PrimaryFail)
  {
    PrimaryRow(row);
  }

  lemma PrimaryRow(row: Attempt)
    requires row.role == Primary && !row.primarySkipped
    ensures HasShape([row], if row.ok then PrimaryOk else PrimaryFail)
    ensures HopsOf([row]) == [Hop(Primary, row.ok, false)]
    ensures TotalLatency([row]) == row.latencyMs
  {
    assert [row][..0] == [];
  }

  /** The primary's classified answer, when it has one. */
  ghost predicate PrimaryGave(cfg: Config, req: Request, given: Response) {
    var reply := cfg.primary.generate(req, PrimaryModelFor(cfg, req));
    reply.Returned? && given == Classified(cfg, reply.response)
  }

  predicate KeepsPrimary(cfg: Config, given: Response) {
    StatusOk(given.status) || !HasFallback(cfg) || (cfg.fallbackRetryableOnly && !Retryable(given))
  }

  lemma AnsweredByPrimary(cfg: Config, req: Request, numPredict: Option<int>, given: Response, out: Response)
    requires PrimaryGave(cfg, req, given) && KeepsPrimary(cfg, given)
    requires HasCore(out, PrimaryCore(cfg, req, given))
    requires Answered(out, if StatusOk(given.status) then PrimaryOk else PrimaryFail)
    requires Labelled(out.ledger.value, false, false, None)
    ensures Matches(cfg, req, false, Route(cfg, true, req, numPredict), Answer(out))
  {}

  lemma RouteAfterPrimary(cfg: Config, req: Request, numPredict: Option<int>, given: Response)
    requires PrimaryGave(cfg, req, given) && !KeepsPrimary(cfg, given)
    ensures Route(cfg, true, req, numPredict) == ViaFallback(cfg, req, numPredict, [Hop(Primary, false, false)])
    ensures forall ok: bool :: ReasonFor(cfg, PrimaryThenFallback(ok), false, req)
                               == Some(if Retryable(given) then "primary_retryable_failure" else "primary_failure")
  {}

  lemma AnsweredAfterPrimary(cfg: Config, req: Request, numPredict: Option<int>, given: Response,
                             ledger: InferenceLedger, row: Attempt, reason: string, r: Result)
    requires PrimaryGave(cfg, req, given) && !KeepsPrimary(cfg, given)
    requires ledger.attempts == [row] && row.role == Primary && !row.ok && !row.primarySkipped
    requires !ledger.queueWaitDegraded
    requires reason == if Retryable(given) then "primary_retryable_failure" else "primary_failure"
    requires FallbackOutcome(cfg, req, numPredict, ledger, reason, r)
    ensures Matches(cfg, req, false, Route(cfg, true, req, numPredict), r)
  {
    assert HopsOf([row]) == [Hop(Primary, false, false)];
    RouteAfterPrimary(cfg, req, numPredict, given);
  }

  lemma AnsweredWithoutPrimary(cfg: Config, req: Request, forced: bool, numPredict: Option<int>,
                               ledger: InferenceLedger, r: Result)
    requires HasFallback(cfg) && ledger.attempts == [] && ledger.queueWaitDegraded == forced
    requires FallbackOutcome(cfg, req, numPredict, ledger, if forced then "queue_wait_timeout" else "circuit_open", r)
    ensures Matches(cfg, req, forced, Route(cfg, false, req, numPredict), r)
  {
    assert HopsOf(ledger.attempts) == [];
    assert Route(cfg, false, req, numPredict) == ViaFallback(cfg, req, numPredict, []);
  }

  /** Run-level attribution of any answer names the shape of its ledger. */
  lemma AnswerIsAttributed(r: Response, s: Shape)
    requires Answered(r, s)
    ensures Attribute(r.ledger.value.attempts, Upper(PayloadStatus(r.status)) in {"SUCCESS", "DEGRADED"})
            == ShapeName(s)
    ensures ShapeName(s) != Exception && ShapeName(s) != UnknownSuccess
  {
    AttributionNamesShape(r.ledger.value.attempts, s, r.status);
  }

  /** One request served: whom the breaker let it ask, what came back, and what the breaker learns. */
  ghost predicate Served(cfg: Config, b: Limits, before: seq<CB.Event>, after: seq<CB.Event>, req: Request,
                         forced: bool, numPredict: Option<int>, askedAt: real, recordedAt: real, r: Result)
  {
    var use := UsesPrimary(cfg, b, before, forced, askedAt);
    && after == before + RouteLog(cfg, forced, use, req, askedAt, recordedAt)
    && Matches(cfg, req, forced, Route(cfg, use, req, numPredict), r)
  }

  lemma ServedByPrimary(cfg: Config, b: Limits, before: seq<CB.Event>, asked: seq<CB.Event>, after: seq<CB.Event>,
                        req: Request, forced: bool, numPredict: Option<int>, askedAt: real, recordedAt: real, r: Result)
    requires UsesPrimary(cfg, b, before, forced, askedAt)
    requires asked == before + if HasFallback(cfg) && !forced then [CB.Asked(askedAt, true)] else []
    requires after == asked + PrimaryLog(cfg, req, recordedAt)
    requires Matches(cfg, req, false, Route(cfg, true, req, numPredict), r)
    ensures Served(cfg, b, before, after, req, forced, numPredict, askedAt, recordedAt, r)
  {
    Assoc(before, if HasFallback(cfg) && !forced then [CB.Asked(askedAt, true)] else [],
          PrimaryLog(cfg, req, recordedAt));
  }

  lemma ServedByFallback(cfg: Config, b: Limits, before: seq<CB.Event>, after: seq<CB.Event>, req: Request,
                         forced: bool, numPredict: Option<int>, askedAt: real, r: Result)
    requires !UsesPrimary(cfg, b, before, forced, askedAt)
    requires after == before + if HasFallback(cfg) && !forced then [CB.Asked(askedAt, false)] else []
    requires Matches(cfg, req, forced, Route(cfg, false, req, numPredict), r)
    ensures Served(cfg, b, before, after, req, forced, numPredict, askedAt, askedAt, r)
  {
    var asked := if HasFallback(cfg) && !forced then [CB.Asked(askedAt, false)] else [];
    assert asked + [] == asked;
  }

  /** What one request leaves on the breaker's log: its decision if the breaker is asked, its record if one is made. */
  lemma LeavesUnrecorded(cfg: Config, b: Limits, before: seq<CB.Event>, after: seq<CB.Event>, req: Request,
                         forced: bool, numPredict: Option<int>, askedAt: real, recordedAt: real, r: Result)
    requires Served(cfg, b, before, after, req, forced, numPredict, askedAt, recordedAt, r)
    ensures var use := UsesPrimary(cfg, b, before, forced, askedAt);
            var raised := cfg.primary.generate(req, PrimaryModelFor(cfg, req)).Raised?;
            && (use && !raised ==> CB.AdmittedSinceRecord(after) == 0)
            && (!use || raised ==>
                  && CB.IsOpen(b.threshold, after) == CB.IsOpen(b.threshold, before)
                  && CB.AdmittedSinceRecord(after)
                     == CB.AdmittedSinceRecord(before) + if HasFallback(cfg) && use then 1 else 0)
  {
    var use := UsesPrimary(cfg, b, before, forced, askedAt);
    var asked := if HasFallback(cfg) && !forced then [CB.Asked(askedAt, use)] else [];
    var recorded := if use then PrimaryLog(cfg, req, recordedAt) else [];
    assert after == before + asked + recorded by {
      Assoc(before, asked, recorded);
    }
    if asked != [] {
      CB.AskCounts(before, askedAt, use);
    } else {
      assert before + asked == before;
    }
    if recorded != [] {
      CB.RecordCounts(before + asked, recordedAt, recorded[0].failure);
    } else {
      assert before + asked + recorded == before + asked;
    }
  }

  /**
   One request shuts the breaker for ever exactly when the open breaker let it through to the primary as a probe
   and the primary raised: that hop leaves no record.
   */
  lemma ShutForEverExactlyWhenProbeRaises(cfg: Config, b: Limits, before: seq<CB.Event>, after: seq<CB.Event>,
                                          req: Request, forced: bool, numPredict: Option<int>, askedAt: real,
                                          recordedAt: real, r: Result)
    requires Served(cfg, b, before, after, req, forced, numPredict, askedAt, recordedAt, r)
    requires CB.Kept(b.threshold, b.recovery, before) && CB.InOrder(before)
    requires CB.Kept(b.threshold, b.recovery, after) && CB.InOrder(after)
    requires !CB.ShutForEver(b.threshold, b.recovery, before)
    ensures CB.ShutForEver(b.threshold, b.recovery, after)
            <==> && HasFallback(cfg) && CB.IsOpen(b.threshold, before)
                 && UsesPrimary(cfg, b, before, forced, askedAt)
                 && cfg.primary.generate(req, PrimaryModelFor(cfg, req)).Raised?
  {
    CB.ShutForEverExactlyWhen(b.threshold, b.recovery, before);
    CB.ShutForEverExactlyWhen(b.threshold, b.recovery, after);
    LeavesUnrecorded(cfg, b, before, after, req, forced, numPredict, askedAt, recordedAt, r);
  }

  // ----- Several requests: one after the other, or in one native batch -----

  /** One request of several: the backends as they answer it, when it was asked and recorded, who was tried first. */
  datatype Turn = Turn(cfg: Config, asked: real, recorded: real, primary: bool)

  /** The breaker's log after these turns. */
  function LogAfter(log: seq<CB.Event>, turns: seq<Turn>, reqs: seq<Request>, flags: seq<bool>): seq<CB.Event>
    requires |turns| <= |reqs| && |turns| <= |flags|
  {
    if turns == [] then log
    else
      var n := |turns| - 1;
      LogAfter(log, turns[..n], reqs, flags)
      + RouteLog(turns[n].cfg, flags[n], turns[n].primary, reqs[n], turns[n].asked, turns[n].recorded)
  }

  /** Every turn tried the primary exactly when the breaker's log up to then allowed it. */
  ghost predicate Decided(b: Limits, log: seq<CB.Event>, turns: seq<Turn>, reqs: seq<Request>,
                          flags: seq<bool>)
    requires |turns| <= |reqs| && |turns| <= |flags|
  {
    turns == []
    || (var n := |turns| - 1;
        && Decided(b, log, turns[..n], reqs, flags)
        && turns[n].primary
           == UsesPrimary(turns[n].cfg, b, LogAfter(log, turns[..n], reqs, flags), flags[n], turns[n].asked))
  }

  /** The outcome of request `n`. */
  function RouteNth(turns: seq<Turn>, reqs: seq<Request>, numPredict: Option<int>, n: nat): Option<Core>
    requires n < |reqs| && n < |turns|
  {
    Route(turns[n].cfg, turns[n].primary, reqs[n], numPredict)
  }

  predicate AllOk(rs: seq<Response>) {
    forall i | 0 <= i < |rs| :: StatusOk(rs[i].status)
  }

  /** The native batch is used and all of its results are usable. */
  predicate FastPath(cfg: Config, reqs: seq<Request>, flags: seq<bool>) {
    && |reqs| >= 2 && |flags| == |reqs| && true !in flags && cfg.primary.supportsBatch
    && Homogeneous(cfg.primaryModel, reqs)
    && var reply := cfg.primary.generateBatch(reqs, PrimaryModelFor(cfg, reqs[0]));
       reply.BatchReturned? && |reply.responses| == |reqs| && AllOk(reply.responses)
  }

  /** The rule holds of every turn with its request, its flag and its answer. */
  ghost predicate Throughout(rule: (Turn, Request, bool, Response) -> bool, turns: seq<Turn>, reqs: seq<Request>,
                             flags: seq<bool>, out: seq<Response>)
    requires |out| == |turns| <= |reqs| == |flags|
    decreases |out|
  {
    out == []
    || (var n := |out| - 1;
        Throughout(rule, turns[..n], reqs, flags, out[..n]) && rule(turns[n], reqs[n], flags[n], out[n]))
  }

  lemma {:induction false} ThroughoutAt(rule: (Turn, Request, bool, Response) -> bool, turns: seq<Turn>,
                                        reqs: seq<Request>, flags: seq<bool>, out: seq<Response>, i: nat)
    requires i < |out| == |turns| <= |reqs| == |flags| && Throughout(rule, turns, reqs, flags, out)
    ensures rule(turns[i], reqs[i], flags[i], out[i])
    decreases |out|
  {
    var n := |out| - 1;
    if i < n {
      ThroughoutAt(rule, turns[..n], reqs, flags, out[..n], i);
    }
  }

  lemma ThroughoutExtends(rule: (Turn, Request, bool, Response) -> bool, turns: seq<Turn>, t: Turn,
                          reqs: seq<Request>, flags: seq<bool>, out: seq<Response>, r: Response)
    requires |out| == |turns| < |reqs| == |flags| && Throughout(rule, turns, reqs, flags, out)
    requires rule(t, reqs[|out|], flags[|out|], r)
    ensures Throughout(rule, turns + [t], reqs, flags, out + [r])
  {
    assert (turns + [t])[..|turns|] == turns && (out + [r])[..|out|] == out;
  }

  ghost predicate AnswerMatches(t: Turn, req: Request, forced: bool, numPredict: Option<int>, r: Result) {
    Matches(t.cfg, req, forced, Route(t.cfg, t.primary, req, numPredict), r)
  }

  ghost function Matching(numPredict: Option<int>): (Turn, Request, bool, Response) -> bool {
    (t: Turn, req: Request, forced: bool, r: Response) => AnswerMatches(t, req, forced, numPredict, Answer(r))
  }

  /** Each answer is the routed outcome of its request. */
  ghost predicate AnswersMatch(turns: seq<Turn>, reqs: seq<Request>, flags: seq<bool>,
                               numPredict: Option<int>, out: seq<Response>)
    requires |out| == |turns| <= |reqs| == |flags|
  {
    Throughout(Matching(numPredict), turns, reqs, flags, out)
  }

  lemma EachAnswerMatches(turns: seq<Turn>, reqs: seq<Request>, flags: seq<bool>, numPredict: Option<int>,
                          out: seq<Response>, i: nat)
    requires i < |out| == |turns| <= |reqs| == |flags| && AnswersMatch(turns, reqs, flags, numPredict, out)
    ensures AnswerMatches(turns[i], reqs[i], flags[i], numPredict, Answer(out[i]))
  {
    ThroughoutAt(Matching(numPredict), turns, reqs, flags, out, i);
  }

  /** All answers in order, or an exception at the first request whose provider raises. */
  ghost predicate Sequential(b: Limits, log: seq<CB.Event>, turns: seq<Turn>, reqs: seq<Request>,
                             flags: seq<bool>, numPredict: Option<int>, r: BatchResult)
    requires |flags| == |reqs|
  {
    && |turns| <= |reqs| && Decided(b, log, turns, reqs, flags)
    && match r
       case Answers(out) => |out| == |reqs| == |turns| && AnswersMatch(turns, reqs, flags, numPredict, out)
       case BatchFailed => 0 < |turns| && RouteNth(turns, reqs, numPredict, |turns| - 1) == None
  }

  ghost predicate BatchMatches(cfg: Config, reqs: seq<Request>, out: seq<Response>)
    requires reqs != []
  {
    var reply := cfg.primary.generateBatch(reqs, PrimaryModelFor(cfg, reqs[0]));
    reply.BatchReturned? && |reply.responses| == |out| == |reqs| && AllAnswered(cfg, reqs, reply.responses, out)
  }

  ghost predicate AllAnswered(cfg: Config, reqs: seq<Request>, given: seq<Response>, out: seq<Response>)
    requires |out| <= |reqs| == |given|
  {
    forall i | 0 <= i < |out| :: BatchAnswered(cfg, reqs[i], given[i], out[i])
  }

  lemma OneMoreAnswered(cfg: Config, reqs: seq<Request>, given: seq<Response>, out: seq<Response>, one: Response)
    requires |out| < |reqs| == |given| && AllAnswered(cfg, reqs, given, out)
    requires BatchAnswered(cfg, reqs[|out|], given[|out|], one)
    ensures AllAnswered(cfg, reqs, given, out + [one])
  {
    var out' := out + [one];
    forall i | 0 <= i < |out'| ensures BatchAnswered(cfg, reqs[i], given[i], out'[i]) {
      if i < |out| {
        assert out'[i] == out[i];
      } else {
        assert out'[i] == one;
      }
    }
  }

  /** One item of the native batch answers its request like a successful primary hop. */
  ghost predicate BatchAnswered(cfg: Config, req: Request, given: Response, r: Response) {
    HasCore(r, PrimaryCore(cfg, req, given)) && Answered(r, PrimaryOk)
  }

  /** The turns so far were decided in order, and the breaker's log is what they left. */
  ghost predicate Progress(b: Limits, log: seq<CB.Event>, turns: seq<Turn>, reqs: seq<Request>,
                           flags: seq<bool>, now: seq<CB.Event>)
  {
    && |turns| <= |reqs| == |flags|
    && now == LogAfter(log, turns, reqs, flags) && Decided(b, log, turns, reqs, flags)
  }

  /** The turns are those of consecutive requests, the first of them the backends' request `first`. */
  ghost predicate InTurn(backends: nat -> Config, first: nat, turns: seq<Turn>) {
    forall i | 0 <= i < |turns| :: turns[i].cfg == backends(first + i)
  }

  lemma InTurnExtends(backends: nat -> Config, first: nat, turns: seq<Turn>, next: nat, t: Turn)
    requires InTurn(backends, first, turns) && next == first + |turns| && t.cfg == backends(next)
    ensures InTurn(backends, first, turns + [t])
  {}

  lemma AnswersMatchExtends(turns: seq<Turn>, t: Turn, reqs: seq<Request>, flags: seq<bool>,
                            numPredict: Option<int>, out: seq<Response>, one: Result)
    requires |out| == |turns| < |reqs| == |flags| && AnswersMatch(turns, reqs, flags, numPredict, out)
    requires AnswerMatches(t, reqs[|out|], flags[|out|], numPredict, one)
    ensures RouteNth(turns + [t], reqs, numPredict, |out|) == None <==> one.Failed?
    ensures one.Answer? ==> AnswersMatch(turns + [t], reqs, flags, numPredict, out + [one.response])
  {
    var next := turns + [t];
    assert next[|turns|] == t;
    if one.Answer? {
      ThroughoutExtends(Matching(numPredict), turns, t, reqs, flags, out, one.response);
    }
  }

  lemma ProgressExtends(b: Limits, log: seq<CB.Event>, turns: seq<Turn>, t: Turn, reqs: seq<Request>,
                        flags: seq<bool>, before: seq<CB.Event>, now: seq<CB.Event>)
    requires Progress(b, log, turns, reqs, flags, before) && |turns| < |reqs|
    requires var n := |turns|;
             && t.primary == UsesPrimary(t.cfg, b, before, flags[n], t.asked)
             && now == before + RouteLog(t.cfg, flags[n], t.primary, reqs[n], t.asked, t.recorded)
    ensures Progress(b, log, turns + [t], reqs, flags, now)
  {
    assert (turns + [t])[..|turns|] == turns;
  }

  /** The loop state: `out` answers the first requests in order. */
  ghost predicate Underway(b: Limits, log: seq<CB.Event>, turns: seq<Turn>, reqs: seq<Request>, flags: seq<bool>,
                           numPredict: Option<int>, out: seq<Response>, now: seq<CB.Event>)
  {
    |out| == |turns| && Progress(b, log, turns, reqs, flags, now) && AnswersMatch(turns, reqs, flags, numPredict, out)
  }

  /** The request was served in this turn. */
  ghost predicate Took(t: Turn, b: Limits, before: seq<CB.Event>, now: seq<CB.Event>, req: Request, forced: bool,
                       numPredict: Option<int>, r: Result)
  {
    && t.primary == UsesPrimary(t.cfg, b, before, forced, t.asked)
    && Served(t.cfg, b, before, now, req, forced, numPredict, t.asked, t.recorded, r)
  }

  /** One more turn: an answer keeps the loop going, and an exception ends it. */
  lemma OneMoreTurn(b: Limits, log: seq<CB.Event>, turns: seq<Turn>, t: Turn, reqs: seq<Request>, flags: seq<bool>,
                    numPredict: Option<int>, out: seq<Response>, one: Result,
                    before: seq<CB.Event>, now: seq<CB.Event>)
    requires Underway(b, log, turns, reqs, flags, numPredict, out, before) && |turns| < |reqs|
    requires Took(t, b, before, now, reqs[|turns|], flags[|turns|], numPredict, one)
    ensures one.Failed? ==> Sequential(b, log, turns + [t], reqs, flags, numPredict, BatchFailed)
    ensures one.Answer? ==> Underway(b, log, turns + [t], reqs, flags, numPredict, out + [one.response], now)
  {
    ProgressExtends(b, log, turns, t, reqs, flags, before, now);
    AnswersMatchExtends(turns, t, reqs, flags, numPredict, out, one);
  }

  // ----- The router -----

  class InferenceRouter {
    const backends: nat -> Config    // how the backends answer during the n-th request
    const circuit: CB.ProviderCircuitBreaker
    const clock: Clock
    var served: nat
    var cfg: Config                  // the request in progress

    constructor (backends: nat -> Config, threshold: int, recovery: real, clock: Clock)
      requires forall n: nat :: SameSetup(backends(n), backends(0))
      ensures Valid() && this.backends == backends && this.clock == clock && fresh(circuit) && circuit.log == []
      ensures served == 0
    {
      this.backends, this.clock, this.served, this.cfg := backends, clock, 0, backends(0);
      this.circuit := new CB.ProviderCircuitBreaker(threshold, recovery);
    }

    ghost predicate Valid()
      reads this, circuit, clock
    {
      circuit.Valid() && circuit.NotBefore(clock.now) && forall n: nat :: SameSetup(backends(n), backends(0))
    }

    method NextRequest()
      modifies this
      ensures cfg == backends(old(served)) && served == old(served) + 1
    {
      cfg, served := backends(served), served + 1;
    }

    function BreakerLimits(): Limits { Limits(circuit.failureThreshold, circuit.recoverySeconds) }

    /** One timed call of a provider. */
    method Call(p: Provider, req: Request, model: string) returns (reply: Reply, t0: real, t1: real)
      modifies clock
      ensures old(clock.now) <= t0 <= t1 == clock.now
      ensures reply == match p.generate(req, model)
                       case Raised => Raised
                       case Returned(r) => Returned(Classified(cfg, r))
    {
      t0 := clock.Read();
      reply := p.generate(req, model);
      t1 := clock.Read();
      if reply.Returned? {
        reply := Returned(Classified(cfg, reply.response));
      }
    }

    /** The fallback hop, its ledger row and the totals; `ledger` holds the primary's failed row, if any. */
    method FallbackAnswer(req: Request, numPredict: Option<int>, ledger: InferenceLedger, wall0: real, reason: string,
                          ghost spent0: real, ghost spent1: real)
      returns (r: Result)
      requires HasFallback(cfg) && wall0 <= spent0 <= spent1 <= clock.now
      requires ledger.attempts == [] || HasShape(ledger.attempts, PrimaryFail)
      requires TotalLatency(ledger.attempts) <= Millis(spent0, spent1)
      modifies clock
      ensures old(clock.now) <= clock.now
      ensures FallbackOutcome(cfg, req, numPredict, ledger, reason, r)
    {
      var reply, t0, t1 := Call(cfg.fallback, FallbackRequest(cfg, req, numPredict), cfg.fallbackModel);
      if reply.Raised? {
        return Failed;
      }
      r := FallbackAnswered(req, numPredict, ledger, wall0, reason, reply.response, t0, t1, spent0, spent1);
    }

    /** The fallback's ledger row, after the primary's if there is one. */
    method FallbackRowOf(ledger0: InferenceLedger, res: Response, reason: string, t0: real, t1: real)
      returns (row: Attempt, ledger: InferenceLedger)
      requires ledger0.attempts == [] || HasShape(ledger0.attempts, PrimaryFail)
      ensures row.role == Fallback && row.ok == StatusOk(res.status)
      ensures row.primarySkipped == (ledger0.attempts == []) && row.latencyMs == Millis(t0, t1)
      ensures RowAdded(ledger0.attempts, row, ledger.attempts) && ledger == ledger0.(attempts := ledger.attempts)
    {
      var ok := StatusOk(res.status);
      row := Attempt(Fallback, cfg.fallback.id, cfg.fallbackModel, Millis(t0, t1), ok,
                     if ok then None else Some(res.errorType), ledger0.attempts == [], Some(reason));
      ledger := AppendAttempt(ledger0, row);
      FallbackRow(ledger0.attempts, row);
    }

    /** The rest of the fallback hop, once the provider has replied. */
    method FallbackAnswered(req: Request, numPredict: Option<int>, ledger: InferenceLedger, wall0: real,
                            reason: string, given: Response, t0: real, t1: real,
                            ghost spent0: real, ghost spent1: real)
      returns (r: Result)
      requires wall0 <= spent0 <= spent1 <= t0 <= t1 <= clock.now
      requires FallbackGave(cfg, req, numPredict, given)
      requires ledger.attempts == [] || HasShape(ledger.attempts, PrimaryFail)
      requires TotalLatency(ledger.attempts) <= Millis(spent0, spent1)
      modifies clock
      ensures old(clock.now) <= clock.now
      ensures FallbackOutcome(cfg, req, numPredict, ledger, reason, r)
    {
      var row, l := FallbackRowOf(ledger, given, reason, t0, t1);
      ghost var rows := l.attempts;
      var total := TotalLatency(ledger.attempts) + row.latencyMs;
      var end := clock.Read();
      l := l.(routerFallbackUsed := true, fallbackReason := Some(reason),
              providerLatencyMs := Some(total),
              endToEndLatencyMs := Some(Millis(wall0, end)),
              finalModel := Some(OrDefault(given.model, cfg.fallbackModel)));
      var res := AsFallback(cfg, given);
      l := l.(errorType := ErrorLabel(res));
      HopsWithinEndToEnd(TotalLatency(ledger.attempts), wall0, spent0, spent1, t0, t1, end);
      var answer := res.(ledger := Some(l));
      FallbackAnswerIsSound(cfg, req, numPredict, ledger, reason, given, row, rows, answer, l);
      r := Answer(answer);
    }

    /** The primary's own answer: the last exit of `infer`, and the two before a fallback is tried. */
    method PrimaryAnswer(req: Request, ledger: InferenceLedger, given: Response, row: Attempt, wall0: real,
                         ghost t0: real, ghost t1: real)
      returns (r: Response)
      requires wall0 <= t0 <= t1 <= clock.now && row.latencyMs == Millis(t0, t1)
      requires row.role == Primary && !row.primarySkipped && row.ok == StatusOk(given.status)
      requires ledger.attempts == [row]
      modifies clock
      ensures old(clock.now) <= clock.now
      ensures HasCore(r, PrimaryCore(cfg, req, given)) && Answered(r, if row.ok then PrimaryOk else PrimaryFail)
      ensures Labelled(r.ledger.value, ledger.routerFallbackUsed, ledger.queueWaitDegraded, ledger.fallbackReason)
    {
      var end := clock.Read();
      var res := if row.ok || HasFallback(cfg) then given else Diagnosed(cfg, given);
      var l := ledger.(providerLatencyMs := Some(row.latencyMs), endToEndLatencyMs := Some(Millis(wall0, end)),
                       finalModel := Some(OrDefault(given.model, PrimaryModelFor(cfg, req))),
                       errorType := ErrorLabel(res));
      MillisAddUp(wall0, t0, t1, t1, t1, end);
      PrimaryAnswerIsSound(cfg, req, given, row, res.(ledger := Some(l)), l);
      r := res.(ledger := Some(l));
    }

    /** Whether the primary may be asked; consults the breaker unless the queue already forced the fallback. */
    method MayUsePrimary(forceFallback: bool) returns (usePrimary: bool, ghost askedAt: real)
      requires Valid()
      modifies circuit, clock
      ensures Valid() && old(clock.now) <= askedAt <= clock.now
      ensures usePrimary == UsesPrimary(cfg, BreakerLimits(), old(circuit.log), forceFallback, askedAt)
      ensures circuit.log
              == old(circuit.log) + if HasFallback(cfg) && !forceFallback then [CB.Asked(askedAt, usePrimary)] else []
    {
      askedAt := clock.now;
      if !HasFallback(cfg) {
        return true, askedAt;
      }
      if forceFallback {
        return false, askedAt;
      }
      var now := clock.Read();
      askedAt := now;
      var state;
      usePrimary, state := circuit.BeforeRequest(now);
    }

    /** The primary's call, and what the breaker learns from it: nothing when the provider raises. */
    method TryPrimary(req: Request) returns (reply: Reply, t0: real, t1: real)
      requires Valid()
      modifies circuit, clock
      ensures Valid() && old(clock.now) <= t0 <= t1 == clock.now
      ensures circuit.log == old(circuit.log) + PrimaryLog(cfg, req, t1)
      ensures reply.Raised? <==> cfg.primary.generate(req, PrimaryModelFor(cfg, req)).Raised?
      ensures reply.Returned? ==> PrimaryGave(cfg, req, reply.response)
    {
      reply, t0, t1 := Call(cfg.primary, req, PrimaryModelFor(cfg, req));
      if reply.Returned? {
        circuit.RecordResult(StatusOk(reply.response.status), Retryable(reply.response), t1);
      }
    }

    /** The primary's ledger row, the first of its ledger. */
    method PrimaryRowOf(req: Request, ledger0: InferenceLedger, res: Response, t0: real, t1: real)
      returns (row: Attempt, ledger: InferenceLedger)
      requires ledger0.attempts == []
      ensures row.role == Primary && !row.primarySkipped && row.ok == StatusOk(res.status)
      ensures row.latencyMs == Millis(t0, t1) == TotalLatency(ledger.attempts)
      ensures ledger == ledger0.(attempts := [row])
      ensures HasShape(ledger.attempts, if row.ok then PrimaryOk else PrimaryFail)
    {
      var ok := StatusOk(res.status);
      row := Attempt(Primary, cfg.primary.id, PrimaryModelFor(cfg, req), Millis(t0, t1), ok,
                     if ok then None else ErrorLabel(res), false, None);
      ledger := AppendAttempt(ledger0, row);
      PrimaryRow(row);
    }

    /** What follows an answer of the primary: it is kept, or the fallback is asked. */
    method AfterPrimary(req: Request, numPredict: Option<int>, ledger0: InferenceLedger, wall0: real, res: Response,
                        t0: real, t1: real)
      returns (r: Result)
      requires wall0 <= t0 <= t1 <= clock.now && PrimaryGave(cfg, req, res) && ledger0.attempts == []
      requires Labelled(ledger0, false, false, None)
      modifies clock
      ensures old(clock.now) <= clock.now
      ensures Matches(cfg, req, false, Route(cfg, true, req, numPredict), r)
    {
      var row, ledger := PrimaryRowOf(req, ledger0, res, t0, t1);
      var retryable := Retryable(res);
      if row.ok || !HasFallback(cfg) || (cfg.fallbackRetryableOnly && !retryable) {
        var answer := PrimaryAnswer(req, ledger, res, row, wall0, t0, t1);
        r := Answer(answer);
        AnsweredByPrimary(cfg, req, numPredict, res, answer);
      } else {
        var reason := if retryable then "primary_retryable_failure" else "primary_failure";
        r := FallbackAnswer(req, numPredict, ledger, wall0, reason, t0, t1);
        AnsweredAfterPrimary(cfg, req, numPredict, res, ledger, row, reason, r);
      }
    }

    /** The primary hop and, if its failure calls for one, the fallback hop. */
    method AskPrimary(req: Request, numPredict: Option<int>, ledger: InferenceLedger, wall0: real)
      returns (r: Result, ghost recordedAt: real)
      requires Valid() && wall0 <= clock.now && ledger.attempts == [] && Labelled(ledger, false, false, None)
      modifies circuit, clock
      ensures Valid() && old(clock.now) <= recordedAt <= clock.now
      ensures circuit.log == old(circuit.log) + PrimaryLog(cfg, req, recordedAt)
      ensures Matches(cfg, req, false, Route(cfg, true, req, numPredict), r)
    {
      var reply, t0, t1 := TryPrimary(req);
      if reply.Raised? {
        return Failed, t1;
      }
      r := AfterPrimary(req, numPredict, ledger, wall0, reply.response, t0, t1);
      recordedAt := t1;
    }

    /**
     One request. The answer is the one `Route` names for the backends' replies and the breaker's log,
     its ledger has one of the four shapes, and the breaker learns exactly `RouteLog`.
     */
    method Infer(req: Request, forceFallback: bool, numPredict: Option<int>)
      returns (r: Result, ghost askedAt: real, ghost recordedAt: real)
      requires Valid()
      modifies this, circuit, clock
      ensures Valid() && old(clock.now) <= askedAt <= recordedAt <= clock.now
      ensures cfg == backends(old(served)) && served == old(served) + 1
      ensures Served(cfg, BreakerLimits(), old(circuit.log), circuit.log, req, forceFallback, numPredict,
                     askedAt, recordedAt, r)
    {
      NextRequest();
      r, askedAt, recordedAt := Serve(req, forceFallback, numPredict);
    }

    method Serve(req: Request, forceFallback: bool, numPredict: Option<int>)
      returns (r: Result, ghost askedAt: real, ghost recordedAt: real)
      requires Valid()
      modifies circuit, clock
      ensures Valid() && old(clock.now) <= askedAt <= recordedAt <= clock.now
      ensures Served(cfg, BreakerLimits(), old(circuit.log), circuit.log, req, forceFallback, numPredict,
                     askedAt, recordedAt, r)
    {
      var wall0 := clock.Read();
      var ledger := BuildEmptyLedger().(primaryProvider := cfg.primary.id, fallbackProvider := cfg.fallback.id,
                                        primaryModel := PrimaryModelFor(cfg, req));
      var usePrimary;
      usePrimary, askedAt := MayUsePrimary(forceFallback);
      if usePrimary {
        ghost var asked := circuit.log;
        r, recordedAt := AskPrimary(req, numPredict, ledger, wall0);
        ServedByPrimary(cfg, BreakerLimits(), old(circuit.log), asked, circuit.log, req, forceFallback, numPredict,
                        askedAt, recordedAt, r);
      } else {
        recordedAt := askedAt;
        r := SkipPrimary(req, numPredict, ledger, wall0, forceFallback);
        ServedByFallback(cfg, BreakerLimits(), old(circuit.log), circuit.log, req, forceFallback, numPredict,
                         askedAt, r);
      }
    }

    /** The exit that never asks the primary. */
    method SkipPrimary(req: Request, numPredict: Option<int>, ledger: InferenceLedger, wall0: real, forced: bool)
      returns (r: Result)
      requires HasFallback(cfg) && wall0 <= clock.now && ledger.attempts == []
      modifies clock
      ensures old(clock.now) <= clock.now
      ensures Matches(cfg, req, forced, Route(cfg, false, req, numPredict), r)
    {
      r := FallbackAnswer(req, numPredict, ledger.(queueWaitDegraded := forced), wall0,
                          if forced then "queue_wait_timeout" else "circuit_open", wall0, wall0);
      AnsweredWithoutPrimary(cfg, req, forced, numPredict, ledger.(queueWaitDegraded := forced), r);
    }

    /** `Infer`, with its turn on record. */
    method TakeTurn(req: Request, forced: bool, numPredict: Option<int>) returns (r: Result, ghost t: Turn)
      requires Valid()
      modifies this, circuit, clock
      ensures Valid() && old(clock.now) <= clock.now && served == old(served) + 1
      ensures t.cfg == backends(old(served))
      ensures Took(t, BreakerLimits(), old(circuit.log), circuit.log, req, forced, numPredict, r)
    {
      ghost var asked, recorded;
      r, asked, recorded := Infer(req, forced, numPredict);
      t := Turn(cfg, asked, recorded, UsesPrimary(cfg, BreakerLimits(), old(circuit.log), forced, asked));
    }

    /** Requests inferred one after the other; the first provider exception abandons the rest. */
    method InferEach(reqs: seq<Request>, flags: seq<bool>, numPredict: Option<int>)
      returns (r: BatchResult, ghost turns: seq<Turn>)
      requires Valid() && |flags| == |reqs|
      modifies this, circuit, clock
      ensures Valid() && old(clock.now) <= clock.now
      ensures Sequential(BreakerLimits(), old(circuit.log), turns, reqs, flags, numPredict, r)
      ensures r.Answers? ==> circuit.log == LogAfter(old(circuit.log), turns, reqs, flags)
      ensures InTurn(backends, old(served), turns)
    {
      var out: seq<Response> := [];
      turns := [];
      ghost var log := circuit.log;
      for n := 0 to |reqs|
        invariant Valid() && old(clock.now) <= clock.now && |turns| == n && served == old(served) + n
        invariant Underway(BreakerLimits(), log, turns, reqs, flags, numPredict, out, circuit.log)
        invariant InTurn(backends, old(served), turns)
      {
        ghost var before, next := circuit.log, served;
        var one, t := TakeTurn(reqs[n], flags[n], numPredict);
        OneMoreTurn(BreakerLimits(), log, turns, t, reqs, flags, numPredict, out, one, before, circuit.log);
        InTurnExtends(backends, old(served), turns, next, t);
        turns := turns + [t];
        if one.Failed? {
          return BatchFailed, turns;
        }
        out := out + [one.response];
      }
      r := Answers(out);
    }

    /** One item of a native batch: every item carries the wall time of the whole batch. */
    method BatchAnswer(req: Request, given: Response, model: string, wall0: real, end: real) returns (r: Response)
      requires wall0 <= end <= clock.now && StatusOk(given.status) && model == PrimaryModelFor(cfg, req)
      modifies clock
      ensures old(clock.now) <= clock.now
      ensures BatchAnswered(cfg, req, given, r)
    {
      var res := Classified(cfg, given);
      var row := Attempt(Primary, cfg.primary.id, model, Millis(wall0, end), true, None, false, None);
      var e2e := clock.Read();
      var l := AppendAttempt(BuildEmptyLedger().(primaryProvider := cfg.primary.id, fallbackProvider := cfg.fallback.id,
                                                 primaryModel := model), row);
      l := l.(providerLatencyMs := Some(row.latencyMs), endToEndLatencyMs := Some(Millis(wall0, e2e)),
              finalModel := Some(OrDefault(res.model, model)), errorType := ErrorLabel(res));
      MillisAddUp(wall0, wall0, end, end, end, e2e);
      PrimaryAnswerIsSound(cfg, req, given, row, res.(ledger := Some(l)), l);
      r := res.(ledger := Some(l));
    }

    /** The loop over the items of a native batch. */
    method BatchAnswers(reqs: seq<Request>, given: seq<Response>, model: string, wall0: real)
      returns (out: seq<Response>)
      requires |given| == |reqs| && AllOk(given) && wall0 <= clock.now
      requires forall i | 0 <= i < |reqs| :: model == PrimaryModelFor(cfg, reqs[i])
      modifies clock
      ensures old(clock.now) <= clock.now && |out| == |reqs|
      ensures AllAnswered(cfg, reqs, given, out)
    {
      var end := clock.Read();
      out := [];
      for n := 0 to |reqs|
        invariant old(clock.now) <= clock.now && wall0 <= end <= clock.now && |out| == n
        invariant AllAnswered(cfg, reqs, given, out)
      {
        var one := BatchAnswer(reqs[n], given[n], model, wall0, end);
        OneMoreAnswered(cfg, reqs, given, out, one);
        out := out + [one];
      }
    }

    /** The native batch, if it applies and all of its results are usable. */
    method NativeBatch(reqs: seq<Request>, flags: seq<bool>) returns (out: Option<seq<Response>>)
      requires 1 <= |reqs| == |flags|
      modifies clock
      ensures old(clock.now) <= clock.now
      ensures out.Some? <==> FastPath(cfg, reqs, flags)
      ensures out.Some? ==> BatchMatches(cfg, reqs, out.value)
    {
      if |reqs| == 1 || true in flags || !cfg.primary.supportsBatch || !Homogeneous(cfg.primaryModel, reqs) {
        return None;
      }
      var model := PrimaryModelFor(cfg, reqs[0]);
      var wall0 := clock.Read();
      var reply := cfg.primary.generateBatch(reqs, model);
      if reply.BatchRaised? || |reply.responses| != |reqs| || !AllOk(reply.responses) {
        return None;
      }
      var answers := BatchAnswers(reqs, reply.responses, model, wall0);
      out := Some(answers);
    }

    /** `asked` is how the backends answer the native batch, and `turns` the per-item requests if it is not used. */
    method InferBatch(reqs: seq<Request>, flags: seq<bool>, numPredict: Option<int>)
      returns (r: BatchResult, ghost asked: Config, ghost turns: seq<Turn>)
      requires Valid()
      modifies this, circuit, clock
      ensures Valid() && old(clock.now) <= clock.now && asked == backends(old(served))
      ensures reqs != [] && |flags| != |reqs| ==> r.BatchFailed?
      ensures r.Answers? ==> |r.responses| == |reqs|
      ensures FastPath(asked, reqs, flags) ==>
                r.Answers? && circuit.log == old(circuit.log) && BatchMatches(asked, reqs, r.responses)
      ensures |flags| == |reqs| && !FastPath(asked, reqs, flags) ==>
                && Sequential(BreakerLimits(), old(circuit.log), turns, reqs, flags, numPredict, r)
                && InTurn(backends, old(served) + 1, turns)
    {
      NextRequest();
      asked, turns := cfg, [];
      if reqs == [] {
        return Answers([]), asked, turns;
      }
      if |reqs| != |flags| {
        return BatchFailed, asked, turns;
      }
      var native := NativeBatch(reqs, flags);
      if native.Some? {
        r := Answers(native.value);
      } else {
        r, turns := InferEach(reqs, flags, numPredict);
      }
    }
  }

  /** The per-item outcome of request `n` when its turn goes to the primary and the primary succeeds. */
  ghost predicate PrimarySucceeds(cfg: Config, req: Request, r: Response) {
    cfg.primary.generate(req, PrimaryModelFor(cfg, req)) == Returned(r) && StatusOk(r.status)
  }

  /** A successful turn of the primary leaves the breaker closed, whatever came before. */
  lemma SuccessCloses(b: Limits, before: seq<CB.Event>, t: Turn, req: Request, r: Response)
    requires PrimarySucceeds(t.cfg, req, r)
    ensures !CB.IsOpen(b.threshold, before + RouteLog(t.cfg, false, true, req, t.asked, t.recorded))
  {
    var asked := if HasFallback(t.cfg) then [CB.Asked(t.asked, true)] else [];
    var done := CB.Recorded(t.recorded, false);
    assert RouteLog(t.cfg, false, true, req, t.asked, t.recorded) == asked + [done];
    Assoc(before, asked, [done]);
    ClosedAfterSuccess(b, before + asked, done);
  }

  lemma ClosedAfterSuccess(b: Limits, log: seq<CB.Event>, done: CB.Event)
    requires done.Recorded? && !done.failure
    ensures !CB.IsOpen(b.threshold, log + [done])
  {}

  /** The primary, as it answers each of these turns, succeeds with these responses. */
  ghost predicate AllSucceed(turns: seq<Turn>, reqs: seq<Request>, rs: seq<Response>) {
    |turns| <= |reqs| == |rs| && forall i | 0 <= i < |turns| :: PrimarySucceeds(turns[i].cfg, reqs[i], rs[i])
  }

  ghost predicate OnPrimary(turns: seq<Turn>) {
    forall i | 0 <= i < |turns| :: turns[i].primary
  }

  lemma OneOnPrimary(turns: seq<Turn>)
    requires |turns| == 1 && turns[0].primary
    ensures OnPrimary(turns)
  {}

  lemma OnPrimaryExtends(turns: seq<Turn>)
    requires turns != [] && OnPrimary(turns[..|turns| - 1]) && turns[|turns| - 1].primary
    ensures OnPrimary(turns)
  {
    assert forall i | 0 <= i < |turns| - 1 :: turns[i] == turns[..|turns| - 1][i];
  }

  lemma SucceedsBefore(turns: seq<Turn>, reqs: seq<Request>, rs: seq<Response>)
    requires turns != [] && AllSucceed(turns, reqs, rs)
    ensures AllSucceed(turns[..|turns| - 1], reqs, rs)
    ensures PrimarySucceeds(turns[|turns| - 1].cfg, reqs[|turns| - 1], rs[|turns| - 1])
  {}

  /** Once a request has been admitted to the primary, successes keep every later one there. */
  lemma {:induction false} SequentialStaysOnPrimary(b: Limits, log: seq<CB.Event>, turns: seq<Turn>,
                                                    reqs: seq<Request>, flags: seq<bool>, rs: seq<Response>)
    requires 0 < |turns| && AllSucceed(turns, reqs, rs) && |flags| == |reqs| && true !in flags
    requires Decided(b, log, turns, reqs, flags) && UsesPrimary(turns[0].cfg, b, log, false, turns[0].asked)
    ensures OnPrimary(turns)
    decreases |turns|
  {
    var n := |turns| - 1;
    var before := turns[..n];
    if n == 0 {
      assert flags[0] in flags;
      FirstDecision(b, log, turns, reqs, flags);
      OneOnPrimary(turns);
    } else {
      SucceedsBefore(turns, reqs, rs);
      assert before[0] == turns[0];
      SequentialStaysOnPrimary(b, log, before, reqs, flags, rs);
      NextStaysOnPrimary(b, log, turns, reqs, flags, rs);
      OnPrimaryExtends(turns);
    }
  }

  lemma NextStaysOnPrimary(b: Limits, log: seq<CB.Event>, turns: seq<Turn>, reqs: seq<Request>, flags: seq<bool>,
                           rs: seq<Response>)
    requires 1 < |turns| <= |reqs| == |flags| == |rs| && true !in flags && Decided(b, log, turns, reqs, flags)
    requires AllSucceed(turns[..|turns| - 1], reqs, rs) && OnPrimary(turns[..|turns| - 1])
    ensures turns[|turns| - 1].primary
  {
    var n := |turns| - 1;
    var before := turns[..n];
    assert PrimarySucceeds(before[n - 1].cfg, reqs[n - 1], rs[n - 1]) && before[n - 1].primary;
    LastSuccessCloses(b, log, before, reqs, flags, rs[n - 1]);
    assert flags[n] in flags;
    ClosedAdmits(turns[n].cfg, b, LogAfter(log, before, reqs, flags), turns[n].asked);
  }

  lemma ClosedAdmits(cfg: Config, b: Limits, log: seq<CB.Event>, asked: real)
    requires !CB.IsOpen(b.threshold, log)
    ensures UsesPrimary(cfg, b, log, false, asked)
  {}

  lemma LastSuccessCloses(b: Limits, log: seq<CB.Event>, turns: seq<Turn>, reqs: seq<Request>, flags: seq<bool>,
                          r: Response)
    requires 0 < |turns| <= |reqs| == |flags| && true !in flags && turns[|turns| - 1].primary
    requires PrimarySucceeds(turns[|turns| - 1].cfg, reqs[|turns| - 1], r)
    ensures !CB.IsOpen(b.threshold, LogAfter(log, turns, reqs, flags))
  {
    var n := |turns| - 1;
    assert flags[n] in flags;
    SuccessCloses(b, LogAfter(log, turns[..n], reqs, flags), turns[n], reqs[n], r);
  }

  lemma {:induction false} FirstDecision(b: Limits, log: seq<CB.Event>, turns: seq<Turn>, reqs: seq<Request>,
                                         flags: seq<bool>)
    requires 0 < |turns| <= |reqs| == |flags| && Decided(b, log, turns, reqs, flags)
    ensures turns[0].primary == UsesPrimary(turns[0].cfg, b, log, flags[0], turns[0].asked)
    decreases |turns|
  {
    if |turns| > 1 {
      FirstDecision(b, log, turns[..|turns| - 1], reqs, flags);
    } else {
      assert turns[..0] == [];
    }
  }

  /** The native batch and the per-item requests agree pointwise: the batch returns what `generate` returns. */
  ghost predicate BatchFormAgrees(asked: Config, turns: seq<Turn>, reqs: seq<Request>, rs: seq<Response>)
    requires reqs != []
  {
    && |turns| == |reqs| && AllSucceed(turns, reqs, rs)
    && asked.primary.generateBatch(reqs, PrimaryModelFor(asked, reqs[0])) == BatchReturned(rs)
  }

  lemma RoutedToPrimaryExactlyWhenAsked(t: Turn, req: Request, numPredict: Option<int>, r: Response)
    requires PrimarySucceeds(t.cfg, req, r)
    ensures Route(t.cfg, t.primary, req, numPredict) == Some(PrimaryCore(t.cfg, req, r)) <==> t.primary
  {
    assert PrimaryCore(t.cfg, req, r).hops[0].role == Primary;
  }

  /**
   The native batch gives every request the outcome that inferring them one after the other would give
   exactly when the breaker admits the first request; the batch itself never asks the breaker.
   */
  lemma BatchRefinesSequentialExactlyWhenAdmitted(asked: Config, b: Limits, log: seq<CB.Event>, turns: seq<Turn>,
                                                  reqs: seq<Request>, flags: seq<bool>, numPredict: Option<int>,
                                                  rs: seq<Response>)
    requires FastPath(asked, reqs, flags) && BatchFormAgrees(asked, turns, reqs, rs)
    requires Decided(b, log, turns, reqs, flags)
    ensures (forall i | 0 <= i < |reqs| ::
               RouteNth(turns, reqs, numPredict, i) == Some(PrimaryCore(turns[i].cfg, reqs[i], rs[i])))
            <==> UsesPrimary(turns[0].cfg, b, log, false, turns[0].asked)
  {
    assert flags[0] in flags && PrimarySucceeds(turns[0].cfg, reqs[0], rs[0]);
    FirstDecision(b, log, turns, reqs, flags);
    RoutedToPrimaryExactlyWhenAsked(turns[0], reqs[0], numPredict, rs[0]);
    if UsesPrimary(turns[0].cfg, b, log, false, turns[0].asked) {
      SequentialStaysOnPrimary(b, log, turns, reqs, flags, rs);
      forall i | 0 <= i < |reqs|
        ensures RouteNth(turns, reqs, numPredict, i) == Some(PrimaryCore(turns[i].cfg, reqs[i], rs[i]))
      {
        assert PrimarySucceeds(turns[i].cfg, reqs[i], rs[i]) && turns[i].primary;
        RoutedToPrimaryExactlyWhenAsked(turns[i], reqs[i], numPredict, rs[i]);
      }
    }
  }

  ghost predicate SameAnswer(a: Response, b: Response) {
    && a.status == b.status && a.text == b.text && a.isFallback == b.isFallback
    && a.ledger.Some? && b.ledger.Some? && a.ledger.value.finalModel == b.ledger.value.finalModel
  }

  /** With the breaker admitting, the native batch and the per-item answers agree in status, text and final model. */
  lemma BatchAgreesWithEach(asked: Config, b: Limits, log: seq<CB.Event>, turns: seq<Turn>, reqs: seq<Request>,
                            flags: seq<bool>, numPredict: Option<int>, rs: seq<Response>, batch: seq<Response>,
                            each: seq<Response>)
    requires FastPath(asked, reqs, flags) && BatchFormAgrees(asked, turns, reqs, rs)
    requires forall i | 0 <= i < |turns| :: SameSetup(turns[i].cfg, asked)
    requires BatchMatches(asked, reqs, batch) && Sequential(b, log, turns, reqs, flags, numPredict, Answers(each))
    requires UsesPrimary(turns[0].cfg, b, log, false, turns[0].asked)
    ensures forall i | 0 <= i < |reqs| :: SameAnswer(batch[i], each[i])
  {
    BatchRefinesSequentialExactlyWhenAdmitted(asked, b, log, turns, reqs, flags, numPredict, rs);
    forall i | 0 <= i < |reqs| ensures SameAnswer(batch[i], each[i]) {
      EachAnswerMatches(turns, reqs, flags, numPredict, each, i);
      assert RouteNth(turns, reqs, numPredict, i) == Some(PrimaryCore(turns[i].cfg, reqs[i], rs[i]));
      assert BatchAnswered(asked, reqs[i], rs[i], batch[i]);
    }
  }

  // ----- An open breaker, bypassed -----

  function Success(text: string): Response { Response("success", text, "m", "", "", None, false, None) }

  /** Both backends always succeed; their texts tell them apart. */
  function TwoBackends(): Config {
    Config(Provider("p", (_: Request, _: string) => Returned(Success("primary")), true,
                    (reqs: seq<Request>, _: string) => BatchReturned(seq(|reqs|, _ => Success("primary")))),
           "m",
           Provider("f", (_: Request, _: string) => Returned(Success("fallback")), false,
                    (_: seq<Request>, _: string) => BatchRaised),
           "g", false, (_: string, _: Option<int>) => "unknown")
  }

  function AnyRequest(): Request { Request("a.jpg", "rate", 0, None, Metadata(None, "")) }

  /** With the breaker open, the native batch answers from the primary what per-item inference sends to the fallback. */
  lemma OpenBreakerIsBypassed()
    ensures var cfg, reqs, flags := TwoBackends(), [AnyRequest(), AnyRequest()], [false, false];
            var log, turns := [CB.Recorded(0.0, true)], [Turn(cfg, 1.0, 1.0, false), Turn(cfg, 1.0, 1.0, false)];
            && FastPath(cfg, reqs, flags) && Decided(Limits(1, 10.0), log, turns, reqs, flags)
            && cfg.primary.generateBatch(reqs, "m").responses[0].text == "primary"
            && RouteNth(turns, reqs, None, 0).Some? && RouteNth(turns, reqs, None, 0).value.text == "fallback"
  {
    PrimaryBatches(AnyRequest());
    FallbackAnswers(Turn(TwoBackends(), 1.0, 1.0, false), AnyRequest());
    StillOpen(TwoBackends(), [CB.Recorded(0.0, true)], Turn(TwoBackends(), 1.0, 1.0, false),
              [AnyRequest(), AnyRequest()], [false, false]);
  }

  lemma PrimaryBatches(req: Request)
    ensures FastPath(TwoBackends(), [req, req], [false, false])
    ensures TwoBackends().primary.generateBatch([req, req], "m").responses[0].text == "primary"
  {
    SuccessIsOk();
    PrimaryBatchReply(req, "m");
    PrimaryBatchReply(req, PrimaryModelFor(TwoBackends(), req));
  }

  lemma PrimaryBatchReply(req: Request, model: string)
    ensures TwoBackends().primary.generateBatch([req, req], model)
            == BatchReturned([Success("primary"), Success("primary")])
  {
    assert seq(2, _ => Success("primary")) == [Success("primary"), Success("primary")];
  }

  lemma SuccessIsOk()
    ensures StatusOk("success")
  {
    assert Strip("success") == "success" && Lower("success") == "success";
  }

  lemma FallbackAnswers(turn: Turn, req: Request)
    requires turn == Turn(TwoBackends(), 1.0, 1.0, false)
    ensures var core := RouteNth([turn, turn], [req, req], None, 0);
            core.Some? && core.value.text == "fallback"
  {}

  lemma StillOpen(cfg: Config, log: seq<CB.Event>, turn: Turn, reqs: seq<Request>, flags: seq<bool>)
    requires turn == Turn(cfg, 1.0, 1.0, false) && |reqs| == |flags| == 2 && flags == [false, false]
    requires log == [CB.Recorded(0.0, true)] && HasFallback(cfg)
    ensures Decided(Limits(1, 10.0), log, [turn, turn], reqs, flags)
  {
    assert [turn, turn][..1] == [turn] && [turn][..0] == [];
    assert log[..0] == [];
    assert CB.TrailingFailures(log) == 1 && CB.LastRecordAt(log) == Some(0.0);
    assert Decided(Limits(1, 10.0), log, [], reqs, flags);
    assert Decided(Limits(1, 10.0), log, [turn], reqs, flags);
    var later := LogAfter(log, [turn], reqs, flags);
    assert later == log + [CB.Asked(1.0, false)];
    assert later[..1] == log;
    assert CB.TrailingFailures(later) == 1 && CB.LastRecordAt(later) == Some(0.0);
  }
}
