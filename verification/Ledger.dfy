/** Status words, the attempt ledger and run-level attribution (inference/types.py, inference/ledger.py). */
module Ledger {
  import opened Options
  import opened Strings

  // ----- Status words (ASCII) -----

  function LowerChar(c: char): char {
    if 'A' <= c <= 'Z' then c - 'A' + 'a' else c
  }

  function UpperChar(c: char): char {
    if 'a' <= c <= 'z' then c - 'a' + 'A' else c
  }

  function Lower(s: string): string {
    seq(|s|, i requires 0 <= i < |s| => LowerChar(s[i]))
  }

  function Upper(s: string): string {
    seq(|s|, i requires 0 <= i < |s| => UpperChar(s[i]))
  }

  /** A usable answer: `inference_status_ok`. */
  predicate StatusOk(status: string) { Lower(Strip(status)) in ["success", "degraded"] }

  /** What the queue hands to the attribution. */
  function PayloadStatus(status: string): string {
    if StatusOk(status) then Upper(Strip(status)) else "FAILED"
  }

  lemma UpperAgrees(s: string, t: string)
    requires Lower(s) == Lower(t)
    ensures Upper(s) == Upper(t)
  {
    assert |s| == |Lower(s)| == |Lower(t)| == |t|;
    forall i | 0 <= i < |s| ensures Upper(s)[i] == Upper(t)[i] {
      assert Lower(s)[i] == Lower(t)[i];
    }
  }

  lemma OkStatusCountsAsSuccess(status: string)
    ensures StatusOk(status) <==> Upper(PayloadStatus(status)) in {"SUCCESS", "DEGRADED"}
  {
    assert Lower("success") == "success" && Lower("degraded") == "degraded";
    assert Upper("success") == "SUCCESS" && Upper("degraded") == "DEGRADED";
    assert Upper("SUCCESS") == "SUCCESS" && Upper("DEGRADED") == "DEGRADED" && Upper("FAILED") == "FAILED";
    if StatusOk(status) {
      UpperAgrees(Strip(status), Lower(Strip(status))) by {
        assert Lower(Lower(Strip(status))) == Lower(Strip(status));
      }
    }
  }

  // ----- Attempts -----

  datatype Role = Primary | Fallback

  datatype Attempt = Attempt(role: Role, providerId: string, modelName: string, latencyMs: nat, ok: bool,
                             errorType: Option<string>, primarySkipped: bool, fallbackReason: Option<string>)

  datatype InferenceLedger = InferenceLedger(
    primaryProvider: string, fallbackProvider: string, primaryModel: string, finalModel: Option<string>,
    fallbackReason: Option<string>, circuitState: string, queueWaitDegraded: bool, routerFallbackUsed: bool,
    providerLatencyMs: Option<nat>, endToEndLatencyMs: Option<nat>, errorType: Option<string>, attempts: seq<Attempt>)

  function BuildEmptyLedger(): InferenceLedger {
    InferenceLedger("", "", "", None, None, "closed", false, false, None, None, None, [])
  }

  function AppendAttempt(l: InferenceLedger, a: Attempt): InferenceLedger {
    l.(attempts := l.attempts + [a])
  }

  function TotalLatency(attempts: seq<Attempt>): nat {
    if attempts == [] then 0 else TotalLatency(attempts[..|attempts| - 1]) + attempts[|attempts| - 1].latencyMs
  }

  // ----- Run-level attribution -----

  datatype Attribution = UnknownSuccess | Exception | PrimarySuccess | FallbackSuccess | FallbackOnlyFailed
                       | PrimaryFailed | AllFailed

  /** Scans for the last successful attempt, as the source's index comprehension does. */
  method ComputeOutcomeAttribution(attempts: seq<Attempt>, payloadStatus: string) returns (r: Attribution)
    ensures r == Attribute(attempts, Upper(payloadStatus) in {"SUCCESS", "DEGRADED"})
  {
    var success := Upper(payloadStatus) in {"SUCCESS", "DEGRADED"};
    if attempts == [] {
      return if success then UnknownSuccess else Exception;
    }
    if success {
      var okIdx: seq<nat> := [];
      for i := 0 to |attempts|
        invariant okIdx == [] <==> forall k | 0 <= k < i :: !attempts[k].ok
        invariant okIdx != [] ==> var m := okIdx[|okIdx| - 1];
                                  m < i && attempts[m].ok && forall k | m < k < i :: !attempts[k].ok
      {
        if attempts[i].ok {
          okIdx := okIdx + [i];
        }
      }
      if okIdx == [] {
        NoOk(attempts);
        return UnknownSuccess;
      }
      var i := okIdx[|okIdx| - 1];
      LastOkIs(attempts, i);
      if i == 0 && attempts[0].role == Primary {
        return PrimarySuccess;
      }
      return FallbackSuccess;
    }
    if |attempts| == 1 {
      if attempts[0].role == Fallback || attempts[0].primarySkipped {
        return FallbackOnlyFailed;
      }
      return PrimaryFailed;
    }
    return AllFailed;
  }

  /** The attempt that produced the answer: the last successful one. */
  function LastOk(attempts: seq<Attempt>): Option<nat> {
    if attempts == [] then None
    else if attempts[|attempts| - 1].ok then Some(|attempts| - 1)
    else LastOk(attempts[..|attempts| - 1])
  }

  lemma {:induction false} NoOk(attempts: seq<Attempt>)
    requires forall k | 0 <= k < |attempts| :: !attempts[k].ok
    ensures LastOk(attempts) == None
  {
    if attempts != [] {
      NoOk(attempts[..|attempts| - 1]);
    }
  }

  lemma {:induction false} LastOkIs(attempts: seq<Attempt>, m: nat)
    requires m < |attempts| && attempts[m].ok && forall k | m < k < |attempts| :: !attempts[k].ok
    ensures LastOk(attempts) == Some(m)
  {
    var n := |attempts| - 1;
    if m < n {
      LastOkIs(attempts[..n], m);
    }
  }

  function Attribute(attempts: seq<Attempt>, success: bool): Attribution {
    if attempts == [] then (if success then UnknownSuccess else Exception)
    else if success then
      match LastOk(attempts)
      case None => UnknownSuccess
      case Some(i) => if i == 0 && attempts[0].role == Primary then PrimarySuccess else FallbackSuccess
    else if |attempts| > 1 then AllFailed
    else if attempts[0].role == Fallback || attempts[0].primarySkipped then FallbackOnlyFailed
    else PrimaryFailed
  }

  // ----- The four ledgers the router can write -----

  datatype Shape = PrimaryOk | PrimaryFail | PrimaryThenFallback(ok: bool) | FallbackOnly(ok: bool)

  ghost predicate HasShape(attempts: seq<Attempt>, s: Shape) {
    match s
    case PrimaryOk =>
      |attempts| == 1 && attempts[0].role == Primary && attempts[0].ok && !attempts[0].primarySkipped
    case PrimaryFail =>
      |attempts| == 1 && attempts[0].role == Primary && !attempts[0].ok && !attempts[0].primarySkipped
    case PrimaryThenFallback(ok) =>
      && |attempts| == 2
      && attempts[0].role == Primary && !attempts[0].ok && !attempts[0].primarySkipped
      && attempts[1].role == Fallback && attempts[1].ok == ok && !attempts[1].primarySkipped
    case FallbackOnly(ok) =>
      |attempts| == 1 && attempts[0].role == Fallback && attempts[0].ok == ok && attempts[0].primarySkipped
  }

  function ShapeName(s: Shape): Attribution {
    match s
    case PrimaryOk => PrimarySuccess
    case PrimaryFail => PrimaryFailed
    case PrimaryThenFallback(ok) => if ok then FallbackSuccess else AllFailed
    case FallbackOnly(ok) => if ok then FallbackSuccess else FallbackOnlyFailed
  }

  predicate ShapeOk(s: Shape) {
    match s
    case PrimaryOk => true
    case PrimaryFail => false
    case PrimaryThenFallback(ok) => ok
    case FallbackOnly(ok) => ok
  }

  /** Attribution names the ledger's shape whenever the status agrees with the last attempt. */
  lemma AttributionNamesShape(attempts: seq<Attempt>, s: Shape, status: string)
    requires HasShape(attempts, s) && StatusOk(status) == ShapeOk(s)
    ensures Attribute(attempts, Upper(PayloadStatus(status)) in {"SUCCESS", "DEGRADED"}) == ShapeName(s)
    ensures ShapeName(s) != Exception && ShapeName(s) != UnknownSuccess
  {
    OkStatusCountsAsSuccess(status);
    if ShapeOk(s) {
      LastOkIs(attempts, |attempts| - 1);
    }
  }
}
