/** The primary provider's circuit breaker (inference/router.py) and what its log of events determines. */
module CircuitBreaker {
  import opened Options

  /** A decision on a request, or a recorded result; `failure` means unsuccessful and retryable. */
  datatype Event = Asked(at: real, admitted: bool) | Recorded(at: real, failure: bool)

  /** Length of the run of retryable failures that ends the record. */
  function TrailingFailures(log: seq<Event>): nat {
    if log == [] then 0
    else match log[|log| - 1]
      case Asked(_, _) => TrailingFailures(log[..|log| - 1])
      case Recorded(_, failure) => if failure then TrailingFailures(log[..|log| - 1]) + 1 else 0
  }

  function LastRecordAt(log: seq<Event>): Option<real> {
    if log == [] then None
    else match log[|log| - 1]
      case Asked(_, _) => LastRecordAt(log[..|log| - 1])
      case Recorded(at, _) => Some(at)
  }

  /** Requests admitted since the last recorded result. */
  function AdmittedSinceRecord(log: seq<Event>): nat {
    if log == [] then 0
    else match log[|log| - 1]
      case Asked(_, admitted) => AdmittedSinceRecord(log[..|log| - 1]) + if admitted then 1 else 0
      case Recorded(_, _) => 0
  }

  predicate IsOpen(threshold: nat, log: seq<Event>) {
    threshold > 0 && TrailingFailures(log) >= threshold
  }

  /** A request passes while the breaker is closed; while open only as the first one after the recovery delay. */
  predicate Admits(threshold: nat, recovery: real, log: seq<Event>, now: real) {
    IsOpen(threshold, log) ==>
      LastRecordAt(log).Some? && now - LastRecordAt(log).value >= recovery && AdmittedSinceRecord(log) == 0
  }

  ghost predicate DecisionOk(threshold: nat, recovery: real, log: seq<Event>, i: nat)
    requires i < |log|
  {
    log[i].Asked? ==> log[i].admitted == Admits(threshold, recovery, log[..i], log[i].at)
  }

  /** Every past decision obeyed the admission rule. */
  ghost predicate Kept(threshold: nat, recovery: real, log: seq<Event>) {
    forall i: nat {:trigger DecisionOk(threshold, recovery, log, i)} | i < |log| ::
      DecisionOk(threshold, recovery, log, i)
  }

  ghost predicate InOrder(log: seq<Event>) {
    forall i, j | 0 <= i <= j < |log| :: log[i].at <= log[j].at
  }

  lemma {:induction false} OpenHasRecord(log: seq<Event>)
    ensures TrailingFailures(log) > 0 ==> LastRecordAt(log).Some?
  {
    if log != [] {
      OpenHasRecord(log[..|log| - 1]);
    }
  }

  lemma KeptExtends(threshold: nat, recovery: real, log: seq<Event>, e: Event)
    requires Kept(threshold, recovery, log)
    requires e.Asked? ==> e.admitted == Admits(threshold, recovery, log, e.at)
    ensures Kept(threshold, recovery, log + [e])
  {
    var log' := log + [e];
    forall i: nat | i < |log'| ensures DecisionOk(threshold, recovery, log', i) {
      assert log'[..i] == log[..i];
      assert log[..|log|] == log;
      if i < |log| { assert DecisionOk(threshold, recovery, log, i); }
    }
  }

  /** The breaker's three fields as functions of the log. */
  predicate Tracks(threshold: nat, log: seq<Event>, failures: nat, openedAt: Option<real>, halfOpenProbe: bool) {
    && failures == (if threshold == 0 then 0 else TrailingFailures(log))
    && openedAt == (if IsOpen(threshold, log) then LastRecordAt(log) else None)
    && halfOpenProbe == (IsOpen(threshold, log) && AdmittedSinceRecord(log) > 0)
  }

  lemma AfterRecord(threshold: nat, recovery: real, log: seq<Event>, now: real, failure: bool)
    requires Kept(threshold, recovery, log) && InOrder(log) && (log != [] ==> log[|log| - 1].at <= now)
    ensures var log' := log + [Recorded(now, failure)];
            && Kept(threshold, recovery, log') && InOrder(log')
            && TrailingFailures(log') == (if failure then TrailingFailures(log) + 1 else 0)
            && LastRecordAt(log') == Some(now) && AdmittedSinceRecord(log') == 0
  {
    KeptExtends(threshold, recovery, log, Recorded(now, failure));
    OrderExtends(log, Recorded(now, failure));
    RecordCounts(log, now, failure);
  }

  lemma OrderExtends(log: seq<Event>, e: Event)
    requires InOrder(log) && (log != [] ==> log[|log| - 1].at <= e.at)
    ensures InOrder(log + [e])
  {
    forall i | 0 <= i < |log| ensures log[i].at <= e.at {
      assert log[i].at <= log[|log| - 1].at;
    }
  }

  lemma RecordCounts(log: seq<Event>, now: real, failure: bool)
    ensures var log' := log + [Recorded(now, failure)];
            && TrailingFailures(log') == (if failure then TrailingFailures(log) + 1 else 0)
            && LastRecordAt(log') == Some(now) && AdmittedSinceRecord(log') == 0
  {
    assert (log + [Recorded(now, failure)])[..|log|] == log;
  }

  lemma AfterAsk(threshold: nat, recovery: real, log: seq<Event>, now: real, admitted: bool)
    requires Kept(threshold, recovery, log) && InOrder(log) && (log != [] ==> log[|log| - 1].at <= now)
    requires admitted == Admits(threshold, recovery, log, now)
    ensures var log' := log + [Asked(now, admitted)];
            && Kept(threshold, recovery, log') && InOrder(log')
            && TrailingFailures(log') == TrailingFailures(log) && LastRecordAt(log') == LastRecordAt(log)
            && AdmittedSinceRecord(log') == AdmittedSinceRecord(log) + if admitted then 1 else 0
  {
    KeptExtends(threshold, recovery, log, Asked(now, admitted));
    OrderExtends(log, Asked(now, admitted));
    AskCounts(log, now, admitted);
  }

  lemma AskCounts(log: seq<Event>, now: real, admitted: bool)
    ensures var log' := log + [Asked(now, admitted)];
            && TrailingFailures(log') == TrailingFailures(log) && LastRecordAt(log') == LastRecordAt(log)
            && AdmittedSinceRecord(log') == AdmittedSinceRecord(log) + if admitted then 1 else 0
  {
    assert (log + [Asked(now, admitted)])[..|log|] == log;
  }

  class ProviderCircuitBreaker {
    const failureThreshold: nat
    const recoverySeconds: real
    var failures: nat
    var openedAt: Option<real>
    var halfOpenProbe: bool
    ghost var log: seq<Event>

    constructor (failureThreshold: int, recoverySeconds: real)
      ensures Valid() && log == []
      ensures this.failureThreshold == if failureThreshold < 0 then 0 else failureThreshold
      ensures this.recoverySeconds == if recoverySeconds < 0.0 then 0.0 else recoverySeconds
    {
      this.failureThreshold := if failureThreshold < 0 then 0 else failureThreshold;
      this.recoverySeconds := if recoverySeconds < 0.0 then 0.0 else recoverySeconds;
      failures, openedAt, halfOpenProbe, log := 0, None, false, [];
    }

    /** The three fields are functions of the log, and every past decision obeyed the admission rule. */
    ghost predicate Valid()
      reads this
    {
      && recoverySeconds >= 0.0
      && InOrder(log) && Kept(failureThreshold, recoverySeconds, log)
      && Tracks(failureThreshold, log, failures, openedAt, halfOpenProbe)
    }

    ghost predicate NotBefore(now: real)
      reads this
    {
      log != [] ==> log[|log| - 1].at <= now
    }

    method BeforeRequest(now: real) returns (allowed: bool, state: string)
      requires Valid() && NotBefore(now)
      modifies this
      ensures Valid() && log == old(log) + [Asked(now, allowed)]
      ensures allowed == Admits(failureThreshold, recoverySeconds, old(log), now)
      ensures state == "disabled" <==> failureThreshold == 0
      ensures state == "half_open" <==> allowed && IsOpen(failureThreshold, old(log))
      ensures state == "open" <==> !allowed
      ensures state in ["disabled", "closed", "half_open", "open"]
    {
      OpenHasRecord(log);
      if failureThreshold == 0 {
        allowed, state := true, "disabled";
      } else if openedAt.None? {
        allowed, state := true, "closed";
      } else if now - openedAt.value < recoverySeconds {
        allowed, state := false, "open";
      } else if halfOpenProbe {
        allowed, state := false, "open";
      } else {
        halfOpenProbe := true;
        allowed, state := true, "half_open";
      }
      AfterAsk(failureThreshold, recoverySeconds, log, now, allowed);
      log := log + [Asked(now, allowed)];
    }

    method RecordResult(success: bool, retryableFailure: bool, now: real)
      requires Valid() && NotBefore(now)
      modifies this
      ensures Valid() && log == old(log) + [Recorded(now, !success && retryableFailure)]
    {
      var failure := !success && retryableFailure;
      AfterRecord(failureThreshold, recoverySeconds, log, now, failure);
      log := log + [Recorded(now, failure)];
      if failureThreshold > 0 {
        if success || !retryableFailure {
          failures, openedAt, halfOpenProbe := 0, None, false;
        } else {
          failures := failures + 1;
          if halfOpenProbe || failures >= failureThreshold {
            openedAt, halfOpenProbe := Some(now), false;
          }
        }
      }
    }

    method State(now: real) returns (state: string)
      requires Valid()
      ensures state == "disabled" <==> failureThreshold == 0
      ensures state == "closed" <==> failureThreshold > 0 && !IsOpen(failureThreshold, log)
      ensures state == "half_open" <==> IsOpen(failureThreshold, log) && LastRecordAt(log).Some?
                                        && now - LastRecordAt(log).value >= recoverySeconds
      ensures state in ["disabled", "closed", "half_open", "open"]
    {
      OpenHasRecord(log);
      if failureThreshold == 0 {
        return "disabled";
      }
      if openedAt.None? {
        return "closed";
      }
      state := if now - openedAt.value >= recoverySeconds then "half_open" else "open";
    }
  }

  // ----- What the admission rule gives over whole histories -----

  ghost predicate RecordBetween(log: seq<Event>, i: int, j: int) {
    exists m :: i < m < j && 0 <= m < |log| && log[m].Recorded?
  }

  lemma {:induction false} AdmissionIsRemembered(log: seq<Event>, i: nat)
    requires i < |log| && log[i].Asked? && log[i].admitted && !RecordBetween(log, i, |log|)
    ensures AdmittedSinceRecord(log) > 0
  {
    var n := |log| - 1;
    if i < n {
      assert !log[n].Recorded?;
      assert !RecordBetween(log[..n], i, n);
      AdmissionIsRemembered(log[..n], i);
    }
  }

  lemma {:induction false} LastRecordIsLate(log: seq<Event>, m: nat)
    requires m < |log| && log[m].Recorded? && InOrder(log)
    ensures LastRecordAt(log).Some? && log[m].at <= LastRecordAt(log).value
  {
    var n := |log| - 1;
    if m < n && log[n].Asked? {
      LastRecordIsLate(log[..n], m);
    }
  }

  ghost predicate Probe(threshold: nat, log: seq<Event>, i: nat) {
    i < |log| && log[i].Asked? && log[i].admitted && IsOpen(threshold, log[..i])
  }

  /** While the breaker is open, at most one request is admitted between two consecutive records. */
  lemma OneProbePerGap(threshold: nat, recovery: real, log: seq<Event>, i: nat, j: nat)
    requires Kept(threshold, recovery, log) && i < j < |log|
    requires log[i].Asked? && log[i].admitted && Probe(threshold, log, j)
    ensures RecordBetween(log, i, j)
  {
    assert DecisionOk(threshold, recovery, log, j);
    if !RecordBetween(log, i, j) {
      assert !RecordBetween(log[..j], i, j);
      AdmissionIsRemembered(log[..j], i);
      assert false;
    }
  }

  /** Two requests admitted while the breaker is open are at least the recovery delay apart. */
  lemma ProbesAreSpaced(threshold: nat, recovery: real, log: seq<Event>, i: nat, j: nat)
    requires Kept(threshold, recovery, log) && InOrder(log) && i < j < |log|
    requires log[i].Asked? && log[i].admitted && Probe(threshold, log, j)
    ensures log[j].at - log[i].at >= recovery
  {
    OneProbePerGap(threshold, recovery, log, i, j);
    assert DecisionOk(threshold, recovery, log, j);
    var m :| i < m < j && log[m].Recorded?;
    assert log[..j][m].Recorded?;
    LastRecordIsLate(log[..j], m);
  }

  ghost function Probes(threshold: nat, log: seq<Event>, n: nat): nat
    requires n <= |log|
  {
    if n == 0 then 0
    else Probes(threshold, log, n - 1)
         + if Probe(threshold, log, n - 1) then 1 else 0
  }

  /** `k` recovery delays in a row. */
  function Delays(k: nat, recovery: real): real {
    if k == 0 then 0.0 else Delays(k - 1, recovery) + recovery
  }

  lemma {:induction false} DelaysIsProduct(k: nat, recovery: real)
    ensures Delays(k, recovery) == k as real * recovery
  {
    if k > 0 {
      DelaysIsProduct(k - 1, recovery);
      assert k as real * recovery == (k - 1) as real * recovery + recovery;
    }
  }

  /** Among the first `n` events, `first` and `last` are probes as far apart as the number of probes demands. */
  ghost predicate ProbesSpan(threshold: nat, recovery: real, log: seq<Event>, n: nat, first: nat, last: nat)
    requires n <= |log|
  {
    && first <= last < n && Probe(threshold, log, first) && Probe(threshold, log, last)
    && Probes(threshold, log, n) > 0
    && Delays(Probes(threshold, log, n) - 1, recovery) <= log[last].at - log[first].at
  }

  lemma {:induction false} ProbesTakeTime(threshold: nat, recovery: real, log: seq<Event>, n: nat)
    returns (first: nat, last: nat)
    requires Kept(threshold, recovery, log) && InOrder(log)
    requires n <= |log| && Probes(threshold, log, n) > 0
    ensures ProbesSpan(threshold, recovery, log, n, first, last)
  {
    var k := Probes(threshold, log, n - 1);
    if !Probe(threshold, log, n - 1) {
      first, last := ProbesTakeTime(threshold, recovery, log, n - 1);
    } else if k == 0 {
      first, last := n - 1, n - 1;
    } else {
      var l;
      first, l := ProbesTakeTime(threshold, recovery, log, n - 1);
      last := n - 1;
      OneMoreProbe(threshold, recovery, log, n, first, l);
    }
  }

  lemma OneMoreProbe(threshold: nat, recovery: real, log: seq<Event>, n: nat, first: nat, last: nat)
    requires Kept(threshold, recovery, log) && InOrder(log) && 0 < n <= |log|
    requires ProbesSpan(threshold, recovery, log, n - 1, first, last) && Probe(threshold, log, n - 1)
    ensures ProbesSpan(threshold, recovery, log, n, first, n - 1)
  {
    ProbesAreSpaced(threshold, recovery, log, last, n - 1);
  }

  /** Over any history, the k requests an open breaker admits span at least (k - 1) recovery delays. */
  lemma OutageLoad(threshold: nat, recovery: real, log: seq<Event>) returns (first: nat, last: nat)
    requires Kept(threshold, recovery, log) && InOrder(log) && Probes(threshold, log, |log|) > 0
    ensures first <= last < |log| && Probe(threshold, log, first) && Probe(threshold, log, last)
    ensures (Probes(threshold, log, |log|) - 1) as real * recovery <= log[last].at - log[first].at
  {
    first, last := ProbesTakeTime(threshold, recovery, log, |log|);
    DelaysIsProduct(Probes(threshold, log, |log|) - 1, recovery);
  }

  // ----- Exactly when the breaker is shut for ever -----

  /** Requests `more` that could follow, none of them recorded. */
  ghost predicate CanFollow(threshold: nat, recovery: real, log: seq<Event>, more: seq<Event>) {
    && (forall m | 0 <= m < |more| :: more[m].Asked?)
    && Kept(threshold, recovery, log + more) && InOrder(log + more)
  }

  ghost predicate AllRefused(more: seq<Event>) {
    forall m | 0 <= m < |more| :: more[m].Asked? && !more[m].admitted
  }

  /** Without a new record, no later request is ever admitted, however late it comes. */
  ghost predicate ShutForEver(threshold: nat, recovery: real, log: seq<Event>) {
    forall more: seq<Event> | CanFollow(threshold, recovery, log, more) :: AllRefused(more)
  }

  /** The breaker is shut for ever exactly when it is open and has admitted a request since the last record. */
  lemma ShutForEverExactlyWhen(threshold: nat, recovery: real, log: seq<Event>)
    requires Kept(threshold, recovery, log) && InOrder(log)
    ensures ShutForEver(threshold, recovery, log) <==> IsOpen(threshold, log) && AdmittedSinceRecord(log) > 0
  {
    if IsOpen(threshold, log) && AdmittedSinceRecord(log) > 0 {
      forall more: seq<Event> | CanFollow(threshold, recovery, log, more) ensures AllRefused(more) {
        StaysShut(threshold, recovery, log, more);
      }
    } else {
      var at := SomeAdmittedTime(threshold, recovery, log);
      AfterAsk(threshold, recovery, log, at, true);
      var more := [Asked(at, true)];
      assert CanFollow(threshold, recovery, log, more) && more[0].admitted;
      assert !AllRefused(more);
    }
  }

  /** A breaker that is closed, or has no admitted request unrecorded, admits a request that comes late enough. */
  lemma SomeAdmittedTime(threshold: nat, recovery: real, log: seq<Event>) returns (at: real)
    requires !IsOpen(threshold, log) || AdmittedSinceRecord(log) == 0
    ensures Admits(threshold, recovery, log, at) && (log != [] ==> log[|log| - 1].at <= at)
  {
    OpenHasRecord(log);
    at := if log == [] then 0.0 else log[|log| - 1].at;
    if IsOpen(threshold, log) && at < LastRecordAt(log).value + recovery {
      at := LastRecordAt(log).value + recovery;
    }
  }

  lemma {:induction false} StaysShut(threshold: nat, recovery: real, log: seq<Event>, more: seq<Event>)
    requires IsOpen(threshold, log) && AdmittedSinceRecord(log) > 0
    requires Kept(threshold, recovery, log + more) && forall m | 0 <= m < |more| :: more[m].Asked?
    ensures AllRefused(more)
    ensures IsOpen(threshold, log + more) && AdmittedSinceRecord(log + more) > 0
    decreases |more|
  {
    if more == [] {
      assert log + more == log;
    } else {
      var n := |more| - 1;
      var before, last := log + more[..n], more[n];
      assert log + more == before + [last];
      KeptBefore(threshold, recovery, before, last);
      StaysShut(threshold, recovery, log, more[..n]);
      AskCounts(before, last.at, last.admitted);
      assert forall m | 0 <= m < n :: more[m] == more[..n][m];
    }
  }

  lemma KeptBefore(threshold: nat, recovery: real, log: seq<Event>, e: Event)
    requires Kept(threshold, recovery, log + [e])
    ensures Kept(threshold, recovery, log)
    ensures e.Asked? ==> e.admitted == Admits(threshold, recovery, log, e.at)
  {
    var log' := log + [e];
    assert DecisionOk(threshold, recovery, log', |log|) && log'[..|log|] == log;
    forall i: nat | i < |log| ensures DecisionOk(threshold, recovery, log, i) {
      assert DecisionOk(threshold, recovery, log', i) && log'[..i] == log[..i];
    }
  }

  // ----- Lost probes -----

  /** A probe with no record since. */
  ghost predicate LostProbe(threshold: nat, log: seq<Event>, i: nat) {
    Probe(threshold, log, i) && !RecordBetween(log, i, |log|)
  }

  /** The breaker is shut for ever exactly when one of its probes was lost: its result was never recorded. */
  lemma LostProbeBlocksForEver(threshold: nat, recovery: real, log: seq<Event>)
    requires Kept(threshold, recovery, log) && InOrder(log)
    ensures ShutForEver(threshold, recovery, log) <==> exists i: nat :: LostProbe(threshold, log, i)
  {
    ShutForEverExactlyWhen(threshold, recovery, log);
    if i: nat :| LostProbe(threshold, log, i) {
      NoRecordKeepsOpen(threshold, log, i, |log|);
      assert log[..|log|] == log;
      AdmissionIsRemembered(log, i);
    } else if IsOpen(threshold, log) && AdmittedSinceRecord(log) > 0 {
      var i := LastAdmission(log);
      NoRecordKeepsOpen(threshold, log, i, |log|);
      assert log[..|log|] == log;
      assert LostProbe(threshold, log, i);
    }
  }

  lemma {:induction false} LastAdmission(log: seq<Event>) returns (i: nat)
    requires AdmittedSinceRecord(log) > 0
    ensures i < |log| && log[i].Asked? && log[i].admitted && !RecordBetween(log, i, |log|)
  {
    var n := |log| - 1;
    if log[n].admitted {
      i := n;
    } else {
      i := LastAdmission(log[..n]);
      assert forall m | i < m < n :: log[m] == log[..n][m];
    }
  }

  lemma {:induction false} NoRecordKeepsOpen(threshold: nat, log: seq<Event>, i: nat, j: nat)
    requires i < j <= |log| && log[i].Asked? && !RecordBetween(log, i, |log|)
    ensures TrailingFailures(log[..j]) == TrailingFailures(log[..i])
    decreases j
  {
    var p := log[..j];
    assert p[..j - 1] == log[..j - 1];
    if j - 1 > i {
      assert !log[j - 1].Recorded?;
      NoRecordKeepsOpen(threshold, log, i, j - 1);
    }
  }

  /** A failure opens the breaker, the probe after the delay raises, and a request much later is still refused. */
  lemma LostProbeExample()
    ensures var log := [Recorded(0.0, true), Asked(1.0, true), Asked(1000.0, false)];
            Kept(1, 1.0, log) && InOrder(log) && Probe(1, log, 1) && ShutForEver(1, 1.0, log)
  {
    var failed := [Recorded(0.0, true)];
    assert [] + failed == failed;
    AfterRecord(1, 1.0, [], 0.0, true);
    AfterAsk(1, 1.0, failed, 1.0, true);
    var probed := failed + [Asked(1.0, true)];
    AfterAsk(1, 1.0, probed, 1000.0, false);
    var log := probed + [Asked(1000.0, false)];
    assert log == [Recorded(0.0, true), Asked(1.0, true), Asked(1000.0, false)] && log[..1] == failed;
    ShutForEverExactlyWhen(1, 1.0, log);
  }
}
