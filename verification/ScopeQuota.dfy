/** The hourly admission budget of a scope (infra/scope_quota.py). */
module ScopeQuota {
  import opened Options
  import Strings

  /** The unit separator, itself among the characters that stripping removes. */
  const SEPARATOR: char := '\U{001F}'

  // ----- Scope keys -----

  /** `(name or "default").strip() or "default"`. */
  function ScopeName(name: Option<string>): string {
    var stripped := if name.Some? then Strings.Strip(name.value) else "";
    if stripped == "" then "default" else stripped
  }

  function ScopeKey(namespace: Option<string>, project: Option<string>): string {
    ScopeName(namespace) + [SEPARATOR] + ScopeName(project)
  }

  /**
   The scope (a, p) looks like (b, q) shifted: the namespace `b` is `a`, a separator and some rest, and the project
   `p` is that rest, a separator and `q`.
   */
  predicate Shifted(a: string, p: string, b: string, q: string) {
    && |a| < |b| && b[..|a| + 1] == a + [SEPARATOR]
    && p == b[|a| + 1..] + [SEPARATOR] + q
  }

  /** Two scopes share a budget exactly when their names agree or one is the other shifted. */
  lemma KeysCollideExactlyWhen(ns1: Option<string>, pk1: Option<string>, ns2: Option<string>, pk2: Option<string>)
    ensures ScopeKey(ns1, pk1) == ScopeKey(ns2, pk2)
            <==> || (ScopeName(ns1) == ScopeName(ns2) && ScopeName(pk1) == ScopeName(pk2))
                 || Shifted(ScopeName(ns1), ScopeName(pk1), ScopeName(ns2), ScopeName(pk2))
                 || Shifted(ScopeName(ns2), ScopeName(pk2), ScopeName(ns1), ScopeName(pk1))
  {
    var a, p, b, q := ScopeName(ns1), ScopeName(pk1), ScopeName(ns2), ScopeName(pk2);
    if |a| <= |b| {
      JoinedExactlyWhen(a, p, b, q);
    } else {
      JoinedExactlyWhen(b, q, a, p);
    }
  }

  lemma JoinedExactlyWhen(a: string, p: string, b: string, q: string)
    requires |a| <= |b|
    ensures a + [SEPARATOR] + p == b + [SEPARATOR] + q <==> (a == b && p == q) || Shifted(a, p, b, q)
    ensures !Shifted(b, q, a, p)
  {
    var left, right := a + [SEPARATOR] + p, b + [SEPARATOR] + q;
    if left == right {
      HeadAndTail(a, p, left);
      if |a| == |b| {
        HeadAndTail(b, q, right);
      } else {
        InnerHeadAndTail(b, q, |a| + 1, right);
      }
    }
    if Shifted(a, p, b, q) {
      assert b == (a + [SEPARATOR]) + b[|a| + 1..];
      Strings.Assoc4(a + [SEPARATOR], b[|a| + 1..], [SEPARATOR], q);
    }
  }

  lemma HeadAndTail(a: string, p: string, whole: string)
    requires whole == a + [SEPARATOR] + p
    ensures whole[..|a|] == a && whole[..|a| + 1] == a + [SEPARATOR] && whole[|a| + 1..] == p
  {}

  lemma InnerHeadAndTail(b: string, q: string, k: nat, whole: string)
    requires whole == b + [SEPARATOR] + q && k <= |b|
    ensures whole[..k] == b[..k] && whole[k..] == b[k..] + [SEPARATOR] + q
  {}

  /** Scopes whose namespaces hold no inner separator share a key exactly when both their names agree. */
  lemma KeysOfDistinctScopesDiffer(ns1: Option<string>, pk1: Option<string>, ns2: Option<string>, pk2: Option<string>)
    requires SEPARATOR !in ScopeName(ns1) && SEPARATOR !in ScopeName(ns2)
    ensures ScopeKey(ns1, pk1) == ScopeKey(ns2, pk2)
            <==> ScopeName(ns1) == ScopeName(ns2) && ScopeName(pk1) == ScopeName(pk2)
  {
    KeysCollideExactlyWhen(ns1, pk1, ns2, pk2);
    NoShiftWithoutSeparator(ScopeName(ns1), ScopeName(pk1), ScopeName(ns2), ScopeName(pk2));
    NoShiftWithoutSeparator(ScopeName(ns2), ScopeName(pk2), ScopeName(ns1), ScopeName(pk1));
  }

  lemma NoShiftWithoutSeparator(a: string, p: string, b: string, q: string)
    requires SEPARATOR !in b
    ensures !Shifted(a, p, b, q)
  {
    if |a| < |b| {
      assert b[..|a| + 1][|a|] == b[|a|];
    }
  }

  /** Two different scopes that share a budget. */
  lemma SeparatorInNameMergesScopes()
    ensures ScopeKey(Some("a\U{001F}b"), Some("c")) == ScopeKey(Some("a"), Some("b\U{001F}c"))
  {}

  // ----- One key's budget -----

  datatype Row = Row(window: int, used: nat)

  /** One request that reached the transaction; `time` is the clock read before it. */
  datatype Request = Request(time: nat, cost: int)

  function HourOf(time: nat): nat { time / 3600 * 3600 }

  function Units(r: Request): nat { if r.cost > 1 then r.cost else 1 }

  /** What the stored row allows to be counted against: its `used`, or 0 when it belongs to another hour. */
  function UsedBefore(row: Option<Row>, hour: int): nat {
    if row.Some? && row.value.window == hour then row.value.used else 0
  }

  predicate Accepts(limit: int, row: Option<Row>, r: Request) {
    UsedBefore(row, HourOf(r.time)) + Units(r) <= limit
  }

  /** The row after all of `reqs`; a refused request still moves the row to its hour. */
  function RowAfter(limit: int, reqs: seq<Request>): Option<Row> {
    if reqs == [] then None
    else
      var row := RowAfter(limit, reqs[..|reqs| - 1]);
      var r := reqs[|reqs| - 1];
      Some(Row(HourOf(r.time), UsedBefore(row, HourOf(r.time)) + if Accepts(limit, row, r) then Units(r) else 0))
  }

  /** Whether request `i` was admitted, all earlier ones having been served in order. */
  predicate Admitted(limit: int, reqs: seq<Request>, i: nat)
    requires i < |reqs|
  {
    Accepts(limit, RowAfter(limit, reqs[..i]), reqs[i])
  }

  /** The units admitted to requests with from <= time < till. */
  function UnitsAdmitted(limit: int, reqs: seq<Request>, from: int, till: int): nat {
    if reqs == [] then 0
    else
      var n := |reqs| - 1;
      UnitsAdmitted(limit, reqs[..n], from, till)
      + if from <= reqs[n].time < till && Accepts(limit, RowAfter(limit, reqs[..n]), reqs[n]) then Units(reqs[n]) else 0
  }

  function InHour(limit: int, reqs: seq<Request>, hour: nat): nat {
    UnitsAdmitted(limit, reqs, hour, hour + 3600)
  }

  /** No hour is seen again after a different one: what nondecreasing clock readings give. */
  ghost predicate HoursNeverReturn(times: seq<nat>) {
    forall i, j, k | 0 <= i < j < k < |times| && HourOf(times[i]) == HourOf(times[k]) ::
      HourOf(times[j]) == HourOf(times[i])
  }

  function Times(reqs: seq<Request>): (ts: seq<nat>)
    ensures |ts| == |reqs| && forall i | 0 <= i < |ts| :: ts[i] == reqs[i].time
  {
    seq(|reqs|, i requires 0 <= i < |reqs| => reqs[i].time)
  }

  /** An hour that differs from the one before it has not been seen at all. */
  lemma NewHourIsUnseen(times: seq<nat>, n: nat)
    requires HoursNeverReturn(times) && 0 < n < |times| && HourOf(times[n - 1]) != HourOf(times[n])
    ensures forall i | 0 <= i < n :: HourOf(times[i]) != HourOf(times[n])
  {}

  lemma HoursNeverReturnBefore(reqs: seq<Request>, n: nat)
    requires HoursNeverReturn(Times(reqs)) && n <= |reqs|
    ensures HoursNeverReturn(Times(reqs[..n]))
  {
    assert Times(reqs[..n]) == Times(reqs)[..n];
  }

  /** The stored row of a run of requests counts what its hour admitted. */
  ghost predicate CountsItsHour(limit: int, reqs: seq<Request>) {
    reqs != [] ==>
      var row := RowAfter(limit, reqs).value;
      row.window == HourOf(reqs[|reqs| - 1].time) && row.used == InHour(limit, reqs, row.window)
  }

  /** What the next request is counted against is what its hour has admitted. */
  lemma NextIsCountedAgainstItsHour(limit: int, reqs: seq<Request>, n: nat)
    requires HoursNeverReturn(Times(reqs)) && n < |reqs| && CountsItsHour(limit, reqs[..n])
    ensures var hour := HourOf(reqs[n].time);
            UsedBefore(RowAfter(limit, reqs[..n]), hour) == InHour(limit, reqs[..n], hour)
  {
    if n > 0 && HourOf(reqs[n - 1].time) != HourOf(reqs[n].time) {
      var times := Times(reqs);
      assert times[n - 1] == reqs[n - 1].time && times[n] == reqs[n].time;
      NewHourIsUnseen(times, n);
      assert forall i | 0 <= i < n :: times[i] == reqs[..n][i].time;
      UnseenHour(limit, reqs[..n], HourOf(reqs[n].time));
    }
  }

  /** While hours never return, the row's count is what its hour admitted, and no hour admits more than the limit. */
  lemma {:induction false} RowCountsItsHour(limit: int, reqs: seq<Request>)
    requires limit > 0 && HoursNeverReturn(Times(reqs))
    ensures CountsItsHour(limit, reqs)
    ensures forall hour: nat | hour % 3600 == 0 :: InHour(limit, reqs, hour) <= limit
  {
    if reqs != [] {
      var n := |reqs| - 1;
      HoursNeverReturnBefore(reqs, n);
      RowCountsItsHour(limit, reqs[..n]);
      NextIsCountedAgainstItsHour(limit, reqs, n);
      HourWindow(reqs[n].time, HourOf(reqs[n].time));
      forall hour: nat | hour % 3600 == 0 ensures InHour(limit, reqs, hour) <= limit {
        HourWindow(reqs[n].time, hour);
        assert InHour(limit, reqs[..n], hour) <= limit;
      }
    }
  }

  lemma HourWindow(time: nat, hour: nat)
    requires hour % 3600 == 0
    ensures hour <= time < hour + 3600 <==> HourOf(time) == hour
  {}

  lemma {:induction false} UnseenHour(limit: int, reqs: seq<Request>, hour: nat)
    requires hour % 3600 == 0 && forall i | 0 <= i < |reqs| :: HourOf(reqs[i].time) != hour
    ensures InHour(limit, reqs, hour) == 0
  {
    if reqs != [] {
      UnseenHour(limit, reqs[..|reqs| - 1], hour);
      HourWindow(reqs[|reqs| - 1].time, hour);
    }
  }

  /** A request is refused exactly when its hour has already admitted too much for it. */
  lemma RefusedExactlyWhenOverBudget(limit: int, reqs: seq<Request>, i: nat)
    requires limit > 0 && HoursNeverReturn(Times(reqs)) && i < |reqs|
    ensures var hour := HourOf(reqs[i].time);
            !Admitted(limit, reqs, i) <==> InHour(limit, reqs[..i], hour) + Units(reqs[i]) > limit
  {
    HoursNeverReturnBefore(reqs, i);
    RowCountsItsHour(limit, reqs[..i]);
    NextIsCountedAgainstItsHour(limit, reqs, i);
  }

  // ----- Any 3600 seconds -----

  /** Any span of 3600 seconds admits at most twice the limit. */
  lemma AnySpanAdmitsTwiceTheLimit(limit: int, reqs: seq<Request>, start: nat)
    requires limit > 0 && HoursNeverReturn(Times(reqs))
    ensures UnitsAdmitted(limit, reqs, start, start + 3600) <= 2 * limit
  {
    var hour := HourOf(start);
    RowCountsItsHour(limit, reqs);
    SpanInTwoHours(limit, reqs, start, hour);
    assert (hour + 3600) % 3600 == 0;
    assert InHour(limit, reqs, hour) <= limit && InHour(limit, reqs, hour + 3600) <= limit;
  }

  lemma {:induction false} SpanInTwoHours(limit: int, reqs: seq<Request>, start: nat, hour: nat)
    requires hour <= start < hour + 3600
    ensures UnitsAdmitted(limit, reqs, start, start + 3600)
            <= InHour(limit, reqs, hour) + InHour(limit, reqs, hour + 3600)
  {
    if reqs != [] {
      SpanInTwoHours(limit, reqs[..|reqs| - 1], start, hour);
    }
  }

  /** The bound is tight: the last second of an hour and the first of the next admit a full limit each. */
  lemma TwiceTheLimitIsReached(limit: int)
    requires limit > 0
    ensures var reqs := [Request(3599, limit), Request(3600, limit)];
            HoursNeverReturn(Times(reqs)) && UnitsAdmitted(limit, reqs, 3599, 7199) == 2 * limit
  {
    var first, second := Request(3599, limit), Request(3600, limit);
    Served(limit, [], first, 3599, 7199);
    assert [] + [first] == [first];
    assert RowAfter(limit, [first]) == Some(Row(0, limit));
    Served(limit, [first], second, 3599, 7199);
    assert [first] + [second] == [first, second];
  }

  lemma Served(limit: int, before: seq<Request>, r: Request, from: int, till: int)
    ensures var row := RowAfter(limit, before);
            var units := if Accepts(limit, row, r) then Units(r) else 0;
            && RowAfter(limit, before + [r]) == Some(Row(HourOf(r.time), UsedBefore(row, HourOf(r.time)) + units))
            && UnitsAdmitted(limit, before + [r], from, till)
               == UnitsAdmitted(limit, before, from, till) + if from <= r.time < till then units else 0
  {
    assert (before + [r])[..|before|] == before;
  }

  // ----- Exactly when the hourly budget holds -----

  function Requests(times: seq<nat>, costs: seq<int>): (reqs: seq<Request>)
    requires |times| == |costs|
    ensures |reqs| == |times| && Times(reqs) == times
    ensures forall m | 0 <= m < |reqs| :: reqs[m] == Request(times[m], costs[m])
  {
    seq(|times|, i requires 0 <= i < |times| => Request(times[i], costs[i]))
  }

  /** Whatever the requests cost, no hour admits more than the limit. */
  ghost predicate BudgetHolds(limit: int, times: seq<nat>) {
    forall costs: seq<int>, hour: nat | |costs| == |times| && hour % 3600 == 0 ::
      InHour(limit, Requests(times, costs), hour) <= limit
  }

  /** The hourly budget holds for every cost exactly when no hour returns; a clock step back can break it. */
  lemma BudgetHoldsExactlyWhenHoursNeverReturn(limit: int, times: seq<nat>)
    requires limit > 0
    ensures BudgetHolds(limit, times) <==> HoursNeverReturn(times)
  {
    if HoursNeverReturn(times) {
      forall costs: seq<int>, hour: nat | |costs| == |times| && hour % 3600 == 0
        ensures InHour(limit, Requests(times, costs), hour) <= limit
      {
        RowCountsItsHour(limit, Requests(times, costs));
      }
    } else {
      var i, j, k :| 0 <= i < j < k < |times| && HourOf(times[i]) == HourOf(times[k])
                     && HourOf(times[j]) != HourOf(times[i]);
      ReturnBreaksBudget(limit, times, i, j, k);
    }
  }

  /** Hours that never decrease in commit order are enough. */
  lemma OrderedHoursKeepBudget(limit: int, times: seq<nat>)
    requires limit > 0 && forall i, j | 0 <= i < j < |times| :: HourOf(times[i]) <= HourOf(times[j])
    ensures HoursNeverReturn(times) && BudgetHolds(limit, times)
  {
    forall i, j, k | 0 <= i < j < k < |times| && HourOf(times[i]) == HourOf(times[k])
      ensures HourOf(times[j]) == HourOf(times[i])
    {
      assert HourOf(times[i]) <= HourOf(times[j]) <= HourOf(times[k]);
    }
    BudgetHoldsExactlyWhenHoursNeverReturn(limit, times);
  }

  lemma ReturnBreaksBudget(limit: int, times: seq<nat>, i: nat, j: nat, k: nat)
    requires limit > 0 && i < j < k < |times| && HourOf(times[i]) == HourOf(times[k]) != HourOf(times[j])
    ensures !BudgetHolds(limit, times)
  {
    var costs, hour := Spree(limit, |times|, i, k), HourOf(times[i]);
    var reqs := Requests(times, costs);
    ReturnSpendsTwice(limit, hour, i, j, k, reqs);
    assert InHour(limit, reqs, hour) == limit + limit;
    assert hour % 3600 == 0;
  }

  /** Two requests for the whole limit; every other asks for one unit too many. */
  function Spree(limit: int, n: nat, i: nat, k: nat): (costs: seq<int>)
    ensures |costs| == n
    ensures forall m | 0 <= m < n :: costs[m] == if m == i || m == k then limit else limit + 1
  {
    seq(n, m requires 0 <= m < n => if m == i || m == k then limit else limit + 1)
  }

  /** Request `m` of a spree: `i` and `k` fall into `hour`, and `j` between them does not. */
  ghost predicate OnSpree(limit: int, hour: int, i: nat, j: nat, k: nat, m: nat, r: Request) {
    && r.cost == (if m == i || m == k then limit else limit + 1)
    && (m == i || m == k ==> HourOf(r.time) == hour)
    && (m == j ==> HourOf(r.time) != hour)
  }

  /** Where a spree stands after `n` requests: the stored row, and the units its hour has admitted. */
  ghost predicate SpentSoFar(limit: int, hour: int, i: nat, j: nat, k: nat, n: nat, row: Option<Row>, spent: int) {
    && (n <= i || j < n <= k ==> row.None? || row.value.used == 0)
    && (i < n <= j ==> row.Some? && (row.value.used == 0 || row.value.window == hour))
    && spent == if k < n then limit + limit else if i < n then limit else 0
  }

  lemma SpreeStep(limit: int, hour: int, i: nat, j: nat, k: nat, n: nat, row: Option<Row>, spent: int, r: Request)
    requires limit > 0 && i < j < k && SpentSoFar(limit, hour, i, j, k, n, row, spent)
    requires OnSpree(limit, hour, i, j, k, n, r)
    ensures var units := if Accepts(limit, row, r) then Units(r) else 0;
            SpentSoFar(limit, hour, i, j, k, n + 1,
                       Some(Row(HourOf(r.time), UsedBefore(row, HourOf(r.time)) + units)),
                       spent + if HourOf(r.time) == hour then units else 0)
  {}

  lemma {:induction false} ReturnSpendsTwice(limit: int, hour: nat, i: nat, j: nat, k: nat, reqs: seq<Request>)
    requires limit > 0 && i < j < k && hour % 3600 == 0
    requires forall m: nat | m < |reqs| :: OnSpree(limit, hour, i, j, k, m, reqs[m])
    ensures SpentSoFar(limit, hour, i, j, k, |reqs|, RowAfter(limit, reqs), InHour(limit, reqs, hour))
  {
    if reqs != [] {
      var n := |reqs| - 1;
      ReturnSpendsTwice(limit, hour, i, j, k, reqs[..n]);
      SpreeStep(limit, hour, i, j, k, n, RowAfter(limit, reqs[..n]), InHour(limit, reqs[..n], hour), reqs[n]);
      HourWindow(reqs[n].time, hour);
    }
  }

  // ----- The table -----

  function RowIn(rows: map<string, Row>, key: string): Option<Row> {
    if key in rows then Some(rows[key]) else None
  }

  function HistoryIn(history: map<string, seq<Request>>, key: string): seq<Request> {
    if key in history then history[key] else []
  }

  /** The row is what the requests made of it, and holds no more than the limit. */
  ghost predicate Fits(limit: int, row: Option<Row>, reqs: seq<Request>) {
    row == RowAfter(limit, reqs) && (row.Some? ==> row.value.used <= limit)
  }

  ghost predicate AllFit(limit: int, rows: map<string, Row>, history: map<string, seq<Request>>) {
    forall key: string :: Fits(limit, RowIn(rows, key), HistoryIn(history, key))
  }

  /** A row charged with one more request fits the requests with that one added. */
  lemma ChargedFits(limit: int, row: Option<Row>, reqs: seq<Request>, r: Request, used: nat)
    requires Fits(limit, row, reqs) && used <= limit
    requires used == UsedBefore(row, HourOf(r.time)) + if Accepts(limit, row, r) then Units(r) else 0
    ensures Fits(limit, Some(Row(HourOf(r.time), used)), reqs + [r])
  {
    Served(limit, reqs, r, 0, 0);
  }

  /** Replacing one key's row and requests by others that fit leaves every row fitting. */
  lemma ReplacedFits(limit: int, rows: map<string, Row>, history: map<string, seq<Request>>, key: string, row: Row,
                     reqs: seq<Request>)
    requires AllFit(limit, rows, history) && Fits(limit, Some(row), reqs)
    ensures AllFit(limit, rows[key := row], history[key := reqs])
  {
    var rows', history' := rows[key := row], history[key := reqs];
    forall other: string ensures Fits(limit, RowIn(rows', other), HistoryIn(history', other)) {
      if other != key {
        assert Fits(limit, RowIn(rows, other), HistoryIn(history, other));
      }
    }
  }

  datatype Verdict = Verdict(ok: bool, enforced: bool, limitPerHour: int, used: nat, remaining: Option<int>,
                             key: string)

  /** The stored rows under one configured limit; `history` holds each key's requests in commit order. */
  class ScopeQuotaTable {
    const limit: int
    var rows: map<string, Row>
    ghost var history: map<string, seq<Request>>

    ghost function HistoryOf(key: string): seq<Request>
      reads this
    {
      HistoryIn(history, key)
    }

    function RowOf(key: string): Option<Row>
      reads this
    {
      RowIn(rows, key)
    }

    /** Every row is what its key's requests made of it, and holds no more than the limit. */
    ghost predicate Valid()
      reads this
    {
      AllFit(limit, rows, history)
    }

    constructor (limit: int)
      ensures this.limit == limit && Valid() && forall key: string :: HistoryOf(key) == []
    {
      this.limit := limit;
      rows, history := map[], map[];
    }

    /** `admit_vlm_for_scope`, with the clock read as a parameter; the transaction is one step. */
    method Admit(namespace: Option<string>, project: Option<string>, cost: int, time: nat) returns (v: Verdict)
      requires Valid()
      modifies this
      ensures Valid()
      ensures v.key == ScopeKey(namespace, project) && v.enforced == (limit > 0)
      ensures limit <= 0 ==> v.ok && v.remaining.None? && rows == old(rows) && history == old(history)
      ensures limit > 0 ==> history == old(history)[v.key := old(HistoryOf(v.key)) + [Request(time, cost)]]
      ensures limit > 0 ==> v.ok == Accepts(limit, RowAfter(limit, old(HistoryOf(v.key))), Request(time, cost))
      ensures limit > 0 ==> rows == old(rows)[v.key := Row(HourOf(time), v.used)]
      ensures limit > 0 ==> v.remaining == Some(limit - v.used) && 0 <= v.used <= limit
    {
      var key := ScopeKey(namespace, project);
      if limit <= 0 {
        return Verdict(true, false, 0, 0, None, key);
      }
      var ok, used := Commit(key, Request(time, cost));
      v := Verdict(ok, true, limit, used, Some(limit - used), key);
    }

    method Commit(key: string, r: Request) returns (ok: bool, used: nat)
      requires Valid() && limit > 0
      modifies this
      ensures Valid()
      ensures history == old(history)[key := old(HistoryOf(key)) + [r]]
      ensures ok == Accepts(limit, RowAfter(limit, old(HistoryOf(key))), r)
      ensures rows == old(rows)[key := Row(HourOf(r.time), used)] && used <= limit
    {
      assert Fits(limit, RowOf(key), HistoryOf(key));
      ok, used := Charge(key, HourOf(r.time), if r.cost > 1 then r.cost else 1);
      ChargedFits(limit, old(RowOf(key)), HistoryOf(key), r, used);
      ReplacedFits(limit, old(rows), history, key, Row(HourOf(r.time), used), HistoryOf(key) + [r]);
      history := history[key := HistoryOf(key) + [r]];
    }

    /** The body of the transaction: the row is moved to `hour`, and charged if the budget allows. */
    method Charge(key: string, hour: nat, units: nat) returns (ok: bool, used: nat)
      requires units > 0 && limit > 0 && (key in rows ==> rows[key].used <= limit)
      modifies this`rows
      ensures ok == (UsedBefore(old(RowOf(key)), hour) + units <= limit)
      ensures used == UsedBefore(old(RowOf(key)), hour) + if ok then units else 0
      ensures rows == old(rows)[key := Row(hour, used)] && used <= limit
    {
      used := 0;
      if key !in rows || rows[key].window != hour {
        rows := rows[key := Row(hour, 0)];
      } else {
        used := rows[key].used;
      }
      if used + units > limit {
        return false, used;
      }
      used := used + units;
      rows := rows[key := Row(hour, used)];
      ok := true;
    }

    /** `scope_quota_snapshot`: what the next request in this hour would be counted against. */
    method Snapshot(namespace: Option<string>, project: Option<string>, time: nat) returns (v: Verdict)
      requires Valid()
      ensures v.key == ScopeKey(namespace, project) && v.enforced == (limit > 0)
      ensures limit > 0 ==> v.used == UsedBefore(RowAfter(limit, HistoryOf(v.key)), HourOf(time))
      ensures limit > 0 ==> v.remaining.Some?
      ensures limit > 0 ==> forall cost: int :: Accepts(limit, RowAfter(limit, HistoryOf(v.key)), Request(time, cost))
                                                <==> Units(Request(time, cost)) <= v.remaining.value
    {
      var key := ScopeKey(namespace, project);
      assert Fits(limit, RowOf(key), HistoryOf(key));
      if limit <= 0 {
        return Verdict(true, false, 0, 0, None, key);
      }
      var used := if key in rows && rows[key].window == HourOf(time) then rows[key].used else 0;
      v := Verdict(true, true, limit, used, Some(if limit - used > 0 then limit - used else 0), key);
    }
  }
}
