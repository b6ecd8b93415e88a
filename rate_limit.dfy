/** The windowed counter of `src/lib/rate-limit.ts`. The `rate_limits` table is
    a sequence of rows held by a `Ledger`; the database clock `NOW()` is the
    parameter `now`, in whole seconds. The ledger is keyed by (fingerprint,
    action) only: there is no per-model scope. */
module RateLimit {
  import opened Common

  datatype Action = Vote | Comment

  /** `maxRequests`: one vote and three comments per window. */
  function MaxRequests(a: Action): nat
  {
    if a == Vote then 1 else 3
  }

  /** `RATE_LIMIT_WINDOW_MS` when the environment does not set it: one day. */
  const DefaultWindowMs: int := 86400000

  /** `Math.floor(windowMs / 1000)`: the window in whole seconds. */
  function WindowSeconds(windowMs: int): (w: int)
    ensures w * 1000 <= windowMs < w * 1000 + 1000
  {
    windowMs / 1000
  }

  /** A row of `rate_limits`. */
  datatype Row = Row(fingerprint: string, action: Action, count: int, windowStart: int)

  predicate HasKey(r: Row, fp: string, a: Action)
  {
    r.fingerprint == fp && r.action == a
  }

  /** The row is in its window at `now`: strictly after `now - window`, so a
      row exactly one window old is already expired. */
  predicate InWindow(r: Row, now: int, window: int)
  {
    r.windowStart > now - window
  }

  /** The `WHERE` clause of the `SELECT`. */
  predicate IsLive(r: Row, fp: string, a: Action, now: int, window: int)
  {
    HasKey(r, fp, a) && InWindow(r, now, window)
  }

  /** `queryOne` of the `SELECT`: the first live row in table order, if any. */
  function FirstLive(rows: seq<Row>, fp: string, a: Action, now: int, window: int): (k: Option<nat>)
    ensures k.Some? ==> k.value < |rows| && IsLive(rows[k.value], fp, a, now, window)
    ensures k.Some? ==> forall j :: 0 <= j < k.value ==> !IsLive(rows[j], fp, a, now, window)
    ensures k.None? <==> forall j :: 0 <= j < |rows| ==> !IsLive(rows[j], fp, a, now, window)
  {
    if rows == [] then None
    else if IsLive(rows[0], fp, a, now, window) then Some(0)
    else match FirstLive(rows[1..], fp, a, now, window)
      case None => None
      case Some(k) => Some(k + 1)
  }

  /** The `UPDATE`: every row with the key, expired or not, gets `count + 1`. */
  function Incremented(rows: seq<Row>, fp: string, a: Action): (r: seq<Row>)
    ensures |r| == |rows|
    ensures forall i :: 0 <= i < |rows| ==>
      r[i] == if HasKey(rows[i], fp, a) then rows[i].(count := rows[i].count + 1) else rows[i]
  {
    if rows == [] then []
    else
      var head := if HasKey(rows[0], fp, a) then rows[0].(count := rows[0].count + 1) else rows[0];
      [head] + Incremented(rows[1..], fp, a)
  }

  datatype Decision = Decision(allowed: bool, remaining: int)
  datatype Outcome = Outcome(decision: Decision, rows: seq<Row>)

  /** One call of `checkRateLimit` on a table, as a value: the decision and the
      table afterwards. */
  function Check(rows: seq<Row>, fp: string, a: Action, now: int, windowMs: int): (o: Outcome)
    // no live row: a fresh row is appended and the call is admitted
    ensures FirstLive(rows, fp, a, now, WindowSeconds(windowMs)).None? ==>
      o.decision == Decision(true, MaxRequests(a) - 1) && o.rows == rows + [Row(fp, a, 1, now)]
    // a live row at the quota: denied, table untouched
    ensures FirstLive(rows, fp, a, now, WindowSeconds(windowMs)).Some? ==>
      var r := rows[FirstLive(rows, fp, a, now, WindowSeconds(windowMs)).value];
      r.count >= MaxRequests(a) ==> o.decision == Decision(false, 0) && o.rows == rows
    // a live row under the quota: admitted, every row of the key incremented
    ensures FirstLive(rows, fp, a, now, WindowSeconds(windowMs)).Some? ==>
      var r := rows[FirstLive(rows, fp, a, now, WindowSeconds(windowMs)).value];
      r.count < MaxRequests(a) ==>
        && o.decision == Decision(true, MaxRequests(a) - r.count - 1)
        && o.decision.remaining >= 0
        && o.rows == Incremented(rows, fp, a)
        && |o.rows| == |rows|
        && (forall i :: 0 <= i < |rows| && HasKey(rows[i], fp, a) ==>
              o.rows[i] == rows[i].(count := rows[i].count + 1))
    // rows of other keys are never touched, and no row is removed
    ensures |rows| <= |o.rows| <= |rows| + 1
    ensures forall i :: 0 <= i < |rows| && !HasKey(rows[i], fp, a) ==> o.rows[i] == rows[i]
  {
    var window := WindowSeconds(windowMs);
    var quota := MaxRequests(a);
    match FirstLive(rows, fp, a, now, window)
    case None =>
      Outcome(Decision(true, quota - 1), rows + [Row(fp, a, 1, now)])
    case Some(k) =>
      if rows[k].count >= quota then Outcome(Decision(false, 0), rows)
      else Outcome(Decision(true, quota - rows[k].count - 1), Incremented(rows, fp, a))
  }

  // ---------------------------------------------------------------------------
  // The ledger over a run of calls. `Admission` records each call that was
  // allowed; it exists only to state what the table promises over time.

  datatype Admission = Admission(fingerprint: string, action: Action, time: int)

  /** Admissions of the key at or after `lo`. */
  ghost function CountFrom(adm: seq<Admission>, fp: string, a: Action, lo: int): nat
  {
    if adm == [] then 0
    else
      var x := adm[|adm| - 1];
      CountFrom(adm[..|adm| - 1], fp, a, lo)
        + (if x.fingerprint == fp && x.action == a && lo <= x.time then 1 else 0)
  }

  /** Admissions of the key with `lo <= time < hi`. */
  ghost function CountIn(adm: seq<Admission>, fp: string, a: Action, lo: int, hi: int): nat
  {
    if adm == [] then 0
    else
      var x := adm[|adm| - 1];
      CountIn(adm[..|adm| - 1], fp, a, lo, hi)
        + (if x.fingerprint == fp && x.action == a && lo <= x.time < hi then 1 else 0)
  }

  lemma CountAppend(adm: seq<Admission>, x: Admission, fp: string, a: Action, lo: int, hi: int)
    ensures CountFrom(adm + [x], fp, a, lo)
      == CountFrom(adm, fp, a, lo) + (if x.fingerprint == fp && x.action == a && lo <= x.time then 1 else 0)
    ensures CountIn(adm + [x], fp, a, lo, hi)
      == CountIn(adm, fp, a, lo, hi) + (if x.fingerprint == fp && x.action == a && lo <= x.time < hi then 1 else 0)
  {
    assert (adm + [x])[..|adm|] == adm;
  }

  /** When no admission reaches `hi`, counting up to `hi` is counting from `lo`. */
  lemma {:induction false} CountInIsCountFrom(adm: seq<Admission>, fp: string, a: Action, lo: int, hi: int)
    requires forall k :: 0 <= k < |adm| ==> adm[k].time < hi
    ensures CountIn(adm, fp, a, lo, hi) == CountFrom(adm, fp, a, lo)
  {
    if adm != [] {
      CountInIsCountFrom(adm[..|adm| - 1], fp, a, lo, hi);
    }
  }

  /** No admission of the key at or after `lo` means a zero count. */
  lemma {:induction false} CountFromNone(adm: seq<Admission>, fp: string, a: Action, lo: int)
    requires forall k :: 0 <= k < |adm| && adm[k].fingerprint == fp && adm[k].action == a ==> adm[k].time < lo
    ensures CountFrom(adm, fp, a, lo) == 0
  {
    if adm != [] {
      CountFromNone(adm[..|adm| - 1], fp, a, lo);
    }
  }

  /** An empty interval holds no admission. */
  lemma {:induction false} CountInEmpty(adm: seq<Admission>, fp: string, a: Action, lo: int, hi: int)
    requires hi <= lo
    ensures CountIn(adm, fp, a, lo, hi) == 0
  {
    if adm != [] {
      CountInEmpty(adm[..|adm| - 1], fp, a, lo, hi);
    }
  }

  /** No row starts after the clock and no admission happened after it. */
  ghost predicate NothingInFuture(rows: seq<Row>, adm: seq<Admission>, clock: int)
  {
    && (forall i :: 0 <= i < |rows| ==> rows[i].windowStart <= clock)
    && (forall k :: 0 <= k < |adm| ==> adm[k].time <= clock)
  }

  /** At most one row per key is in its window. */
  ghost predicate OneLivePerKey(rows: seq<Row>, clock: int, window: int)
  {
    forall i, j :: 0 <= i < j < |rows| && InWindow(rows[i], clock, window) && InWindow(rows[j], clock, window)
      ==> !HasKey(rows[j], rows[i].fingerprint, rows[i].action)
  }

  /** A row in its window counts exactly the admissions of its key since it
      opened, and that count lies between 1 and the quota. */
  ghost predicate LiveCountIsAdmissions(rows: seq<Row>, adm: seq<Admission>, clock: int, window: int)
  {
    forall i :: 0 <= i < |rows| && InWindow(rows[i], clock, window) ==>
      var r := rows[i];
      1 <= r.count <= MaxRequests(r.action)
      && r.count == CountFrom(adm, r.fingerprint, r.action, r.windowStart)
  }

  /** An admission at the current instant went through a row still in its window. */
  ghost predicate CurrentAdmissionsLive(rows: seq<Row>, adm: seq<Admission>, clock: int, window: int)
  {
    window > 0 ==>
      forall k :: 0 <= k < |adm| && adm[k].time == clock ==>
        exists i :: 0 <= i < |rows| && IsLive(rows[i], adm[k].fingerprint, adm[k].action, clock, window)
  }

  /** The promise of the ledger: within the window of any row, the key was
      admitted at most its quota of times. */
  ghost predicate QuotaPerWindow(rows: seq<Row>, adm: seq<Admission>, window: int)
  {
    forall i :: 0 <= i < |rows| ==> WithinQuota(adm, rows[i], window)
  }

  /** The key of `r` was admitted at most its quota of times in the window `r` opened. */
  ghost predicate WithinQuota(adm: seq<Admission>, r: Row, window: int)
  {
    CountIn(adm, r.fingerprint, r.action, r.windowStart, r.windowStart + window) <= MaxRequests(r.action)
  }

  ghost predicate LedgerInv(rows: seq<Row>, adm: seq<Admission>, clock: int, window: int)
  {
    && NothingInFuture(rows, adm, clock)
    && OneLivePerKey(rows, clock, window)
    && LiveCountIsAdmissions(rows, adm, clock, window)
    && CurrentAdmissionsLive(rows, adm, clock, window)
    && QuotaPerWindow(rows, adm, window)
  }

  /** The clock moving forward keeps the invariant: rows only leave their window. */
  lemma AdvanceClock(rows: seq<Row>, adm: seq<Admission>, clock: int, now: int, window: int)
    requires LedgerInv(rows, adm, clock, window)
    requires clock <= now
    ensures LedgerInv(rows, adm, now, window)
  {
    if now > clock {
      assert forall k :: 0 <= k < |adm| ==> adm[k].time != now;
    }
  }

  /** With a positive window and no live row of the key, nothing of that key
      was admitted at this instant (else its row would still be live). */
  lemma NoLiveNoCurrentAdmission(rows: seq<Row>, adm: seq<Admission>, fp: string, a: Action, now: int, window: int)
    requires NothingInFuture(rows, adm, now)
    requires CurrentAdmissionsLive(rows, adm, now, window)
    requires window > 0
    requires FirstLive(rows, fp, a, now, window).None?
    ensures CountFrom(adm, fp, a, now) == 0
  {
    forall k | 0 <= k < |adm| && adm[k].fingerprint == fp && adm[k].action == a
      ensures adm[k].time < now
    {
    }
    CountFromNone(adm, fp, a, now);
  }

  lemma InsertKeepsQuota(rows: seq<Row>, adm: seq<Admission>, fp: string, a: Action, now: int, window: int)
    requires NothingInFuture(rows, adm, now)
    requires CurrentAdmissionsLive(rows, adm, now, window)
    requires QuotaPerWindow(rows, adm, window)
    requires FirstLive(rows, fp, a, now, window).None?
    ensures QuotaPerWindow(rows + [Row(fp, a, 1, now)], adm + [Admission(fp, a, now)], window)
  {
    var x := Admission(fp, a, now);
    var rows', adm' := rows + [Row(fp, a, 1, now)], adm + [x];
    forall i | 0 <= i < |rows'|
      ensures WithinQuota(adm', rows'[i], window)
    {
      if i == |rows| {
        if window > 0 {
          NoLiveNoCurrentAdmission(rows, adm, fp, a, now, window);
          CountAppend(adm, x, fp, a, now, now + window);
          CountInIsCountFrom(adm', fp, a, now, now + window);
        } else {
          CountInEmpty(adm', fp, a, now, now + window);
        }
      } else {
        var r := rows[i];
        assert rows'[i] == r;
        CountAppend(adm, x, r.fingerprint, r.action, r.windowStart, r.windowStart + window);
        if HasKey(r, fp, a) {
          assert !InWindow(r, now, window);
        }
      }
    }
  }

  lemma InsertKeepsCounts(rows: seq<Row>, adm: seq<Admission>, fp: string, a: Action, now: int, window: int)
    requires NothingInFuture(rows, adm, now)
    requires CurrentAdmissionsLive(rows, adm, now, window)
    requires LiveCountIsAdmissions(rows, adm, now, window)
    requires FirstLive(rows, fp, a, now, window).None?
    ensures LiveCountIsAdmissions(rows + [Row(fp, a, 1, now)], adm + [Admission(fp, a, now)], now, window)
  {
    var x := Admission(fp, a, now);
    var rows', adm' := rows + [Row(fp, a, 1, now)], adm + [x];
    forall i | 0 <= i < |rows'| && InWindow(rows'[i], now, window)
      ensures 1 <= rows'[i].count <= MaxRequests(rows'[i].action)
      ensures rows'[i].count == CountFrom(adm', rows'[i].fingerprint, rows'[i].action, rows'[i].windowStart)
    {
      CountAppend(adm, x, rows'[i].fingerprint, rows'[i].action, rows'[i].windowStart, 0);
      if i == |rows| {
        NoLiveNoCurrentAdmission(rows, adm, fp, a, now, window);
      } else {
        assert rows'[i] == rows[i];
      }
    }
  }

  lemma InsertKeepsCurrentLive(rows: seq<Row>, adm: seq<Admission>, fp: string, a: Action, now: int, window: int)
    requires CurrentAdmissionsLive(rows, adm, now, window)
    ensures CurrentAdmissionsLive(rows + [Row(fp, a, 1, now)], adm + [Admission(fp, a, now)], now, window)
  {
    var rows', adm' := rows + [Row(fp, a, 1, now)], adm + [Admission(fp, a, now)];
    forall k | 0 <= k < |adm'| && adm'[k].time == now && window > 0
      ensures exists i :: 0 <= i < |rows'| && IsLive(rows'[i], adm'[k].fingerprint, adm'[k].action, now, window)
    {
      if k == |adm| {
        assert IsLive(rows'[|rows|], fp, a, now, window);
      } else {
        var i :| 0 <= i < |rows| && IsLive(rows[i], adm[k].fingerprint, adm[k].action, now, window);
        assert rows'[i] == rows[i];
      }
    }
  }

  /** The `INSERT` branch keeps the invariant. */
  lemma InsertKeepsInv(rows: seq<Row>, adm: seq<Admission>, fp: string, a: Action, now: int, window: int)
    requires LedgerInv(rows, adm, now, window)
    requires FirstLive(rows, fp, a, now, window).None?
    ensures LedgerInv(rows + [Row(fp, a, 1, now)], adm + [Admission(fp, a, now)], now, window)
  {
    InsertKeepsQuota(rows, adm, fp, a, now, window);
    InsertKeepsCounts(rows, adm, fp, a, now, window);
    InsertKeepsCurrentLive(rows, adm, fp, a, now, window);
  }

  /** The live row of the key is the one `FirstLive` finds. */
  lemma LiveRowIsFirst(rows: seq<Row>, fp: string, a: Action, now: int, window: int, i: nat)
    requires OneLivePerKey(rows, now, window)
    requires FirstLive(rows, fp, a, now, window).Some?
    requires i < |rows| && IsLive(rows[i], fp, a, now, window)
    ensures i == FirstLive(rows, fp, a, now, window).value
  {
  }

  /** One more admission through a live row under its quota stays within the
      quota of that row's window. */
  lemma AdmitThroughLiveRow(adm: seq<Admission>, r: Row, now: int, window: int)
    requires forall k :: 0 <= k < |adm| ==> adm[k].time <= now
    requires r.windowStart <= now && InWindow(r, now, window)
    requires r.count == CountFrom(adm, r.fingerprint, r.action, r.windowStart)
    requires r.count < MaxRequests(r.action)
    ensures CountIn(adm + [Admission(r.fingerprint, r.action, now)], r.fingerprint, r.action,
                    r.windowStart, r.windowStart + window) <= MaxRequests(r.action)
  {
    CountAppend(adm, Admission(r.fingerprint, r.action, now), r.fingerprint, r.action, r.windowStart, r.windowStart + window);
    CountInIsCountFrom(adm, r.fingerprint, r.action, r.windowStart, r.windowStart + window);
  }

  /** An admission for a key that `r` does not count in its window leaves
      `r`'s window within quota. */
  lemma AdmitOutsideRow(adm: seq<Admission>, r: Row, fp: string, a: Action, now: int, window: int)
    requires WithinQuota(adm, r, window)
    requires !(InWindow(r, now, window) && HasKey(r, fp, a))
    ensures WithinQuota(adm + [Admission(fp, a, now)], r, window)
  {
    CountAppend(adm, Admission(fp, a, now), r.fingerprint, r.action, r.windowStart, r.windowStart + window);
  }

  lemma {:induction false} IncrementRowQuota(rows: seq<Row>, adm: seq<Admission>, fp: string, a: Action, now: int, window: int, i: nat)
    requires NothingInFuture(rows, adm, now)
    requires OneLivePerKey(rows, now, window)
    requires LiveCountIsAdmissions(rows, adm, now, window)
    requires QuotaPerWindow(rows, adm, window)
    requires FirstLive(rows, fp, a, now, window).Some?
    requires rows[FirstLive(rows, fp, a, now, window).value].count < MaxRequests(a)
    requires i < |rows|
    ensures WithinQuota(adm + [Admission(fp, a, now)], Incremented(rows, fp, a)[i], window)
  {
    var r := rows[i];
    var adm' := adm + [Admission(fp, a, now)];
    if InWindow(r, now, window) && HasKey(r, fp, a) {
      LiveRowIsFirst(rows, fp, a, now, window, i);
      assert r.count == CountFrom(adm, r.fingerprint, r.action, r.windowStart);
      AdmitThroughLiveRow(adm, r, now, window);
    } else {
      assert WithinQuota(adm, r, window);
      AdmitOutsideRow(adm, r, fp, a, now, window);
    }
    SameWindowSameQuota(adm', r, Incremented(rows, fp, a)[i], window);
  }

  /** The quota of a window depends on its key and start only. */
  lemma SameWindowSameQuota(adm: seq<Admission>, r: Row, r': Row, window: int)
    requires WithinQuota(adm, r, window)
    requires r'.fingerprint == r.fingerprint && r'.action == r.action && r'.windowStart == r.windowStart
    ensures WithinQuota(adm, r', window)
  {
  }

  lemma {:induction false} IncrementKeepsQuota(rows: seq<Row>, adm: seq<Admission>, fp: string, a: Action, now: int, window: int)
    requires NothingInFuture(rows, adm, now)
    requires OneLivePerKey(rows, now, window)
    requires LiveCountIsAdmissions(rows, adm, now, window)
    requires QuotaPerWindow(rows, adm, window)
    requires FirstLive(rows, fp, a, now, window).Some?
    requires rows[FirstLive(rows, fp, a, now, window).value].count < MaxRequests(a)
    ensures QuotaPerWindow(Incremented(rows, fp, a), adm + [Admission(fp, a, now)], window)
  {
    var rows' := Incremented(rows, fp, a);
    forall i | 0 <= i < |rows'|
      ensures WithinQuota(adm + [Admission(fp, a, now)], rows'[i], window)
    {
      IncrementRowQuota(rows, adm, fp, a, now, window, i);
    }
  }

  lemma IncrementKeepsCounts(rows: seq<Row>, adm: seq<Admission>, fp: string, a: Action, now: int, window: int)
    requires NothingInFuture(rows, adm, now)
    requires OneLivePerKey(rows, now, window)
    requires LiveCountIsAdmissions(rows, adm, now, window)
    requires FirstLive(rows, fp, a, now, window).Some?
    requires rows[FirstLive(rows, fp, a, now, window).value].count < MaxRequests(a)
    ensures LiveCountIsAdmissions(Incremented(rows, fp, a), adm + [Admission(fp, a, now)], now, window)
  {
    var k := FirstLive(rows, fp, a, now, window).value;
    var x := Admission(fp, a, now);
    var rows', adm' := Incremented(rows, fp, a), adm + [x];
    forall i | 0 <= i < |rows'| && InWindow(rows'[i], now, window)
      ensures 1 <= rows'[i].count <= MaxRequests(rows'[i].action)
      ensures rows'[i].count == CountFrom(adm', rows'[i].fingerprint, rows'[i].action, rows'[i].windowStart)
    {
      CountAppend(adm, x, rows[i].fingerprint, rows[i].action, rows[i].windowStart, 0);
      if HasKey(rows[i], fp, a) {
        LiveRowIsFirst(rows, fp, a, now, window, i);
      }
    }
  }

  lemma IncrementKeepsCurrentLive(rows: seq<Row>, adm: seq<Admission>, fp: string, a: Action, now: int, window: int)
    requires CurrentAdmissionsLive(rows, adm, now, window)
    requires FirstLive(rows, fp, a, now, window).Some?
    ensures CurrentAdmissionsLive(Incremented(rows, fp, a), adm + [Admission(fp, a, now)], now, window)
  {
    var k := FirstLive(rows, fp, a, now, window).value;
    var rows', adm' := Incremented(rows, fp, a), adm + [Admission(fp, a, now)];
    forall k' | 0 <= k' < |adm'| && adm'[k'].time == now && window > 0
      ensures exists i :: 0 <= i < |rows'| && IsLive(rows'[i], adm'[k'].fingerprint, adm'[k'].action, now, window)
    {
      if k' == |adm| {
        assert IsLive(rows'[k], fp, a, now, window);
      } else {
        var i :| 0 <= i < |rows| && IsLive(rows[i], adm[k'].fingerprint, adm[k'].action, now, window);
        assert IsLive(rows'[i], adm[k'].fingerprint, adm[k'].action, now, window);
      }
    }
  }

  /** The `UPDATE` changes no key and no window start. */
  lemma IncrementKeepsWindows(rows: seq<Row>, adm: seq<Admission>, fp: string, a: Action, now: int, window: int)
    requires NothingInFuture(rows, adm, now)
    requires OneLivePerKey(rows, now, window)
    ensures NothingInFuture(Incremented(rows, fp, a), adm + [Admission(fp, a, now)], now)
    ensures OneLivePerKey(Incremented(rows, fp, a), now, window)
  {
    var rows', adm' := Incremented(rows, fp, a), adm + [Admission(fp, a, now)];
    forall i | 0 <= i < |rows'|
      ensures rows'[i].windowStart <= now
    {
      assert rows'[i].windowStart == rows[i].windowStart;
    }
    forall k | 0 <= k < |adm'|
      ensures adm'[k].time <= now
    {
      if k < |adm| {
        assert adm'[k] == adm[k];
      }
    }
    forall i, j | 0 <= i < j < |rows'| && InWindow(rows'[i], now, window) && InWindow(rows'[j], now, window)
      ensures !HasKey(rows'[j], rows'[i].fingerprint, rows'[i].action)
    {
      assert HasKey(rows'[i], rows[i].fingerprint, rows[i].action) && HasKey(rows'[j], rows[j].fingerprint, rows[j].action);
      assert InWindow(rows[i], now, window) && InWindow(rows[j], now, window);
    }
  }

  /** The `UPDATE` branch keeps the invariant. */
  lemma IncrementKeepsInv(rows: seq<Row>, adm: seq<Admission>, fp: string, a: Action, now: int, window: int)
    requires LedgerInv(rows, adm, now, window)
    requires FirstLive(rows, fp, a, now, window).Some?
    requires rows[FirstLive(rows, fp, a, now, window).value].count < MaxRequests(a)
    ensures LedgerInv(Incremented(rows, fp, a), adm + [Admission(fp, a, now)], now, window)
  {
    IncrementKeepsWindows(rows, adm, fp, a, now, window);
    IncrementKeepsQuota(rows, adm, fp, a, now, window);
    IncrementKeepsCounts(rows, adm, fp, a, now, window);
    IncrementKeepsCurrentLive(rows, adm, fp, a, now, window);
  }

  /** Sequential calls with a clock that does not run backwards keep the ledger
      invariant: at most one live row per key, and never more admissions in a
      row's window than the quota. */
  lemma CheckKeepsInv(rows: seq<Row>, adm: seq<Admission>, clock: int, fp: string, a: Action, now: int, windowMs: int)
    requires LedgerInv(rows, adm, clock, WindowSeconds(windowMs))
    requires clock <= now
    ensures var o := Check(rows, fp, a, now, windowMs);
      LedgerInv(o.rows, adm + (if o.decision.allowed then [Admission(fp, a, now)] else []), now, WindowSeconds(windowMs))
  {
    var window := WindowSeconds(windowMs);
    AdvanceClock(rows, adm, clock, now, window);
    match FirstLive(rows, fp, a, now, window)
    case None =>
      InsertKeepsInv(rows, adm, fp, a, now, window);
    case Some(k) =>
      if rows[k].count >= MaxRequests(a) {
        assert adm + [] == adm;
      } else {
        IncrementKeepsInv(rows, adm, fp, a, now, window);
      }
  }

  /** The `rate_limits` table with the calls it has admitted. */
  class Ledger {
    var rows: seq<Row>
    /** `RATE_LIMIT_WINDOW_MS`, fixed for the life of the process. */
    const windowMs: int
    /** The latest `now` seen. */
    ghost var clock: int
    /** Every admitted call, in order. */
    ghost var admitted: seq<Admission>

    ghost predicate Valid()
      reads this
    {
      LedgerInv(rows, admitted, clock, WindowSeconds(windowMs))
    }

    constructor (windowMs: int, start: int)
      ensures Valid()
      ensures this.windowMs == windowMs && rows == [] && admitted == [] && clock == start
    {
      this.windowMs := windowMs;
      rows := [];
      clock := start;
      admitted := [];
    }

    /** `checkRateLimit(fingerprintHash, action)` at time `now`. */
    method CheckRateLimit(fp: string, a: Action, now: int) returns (allowed: bool, remaining: int)
      requires Valid()
      requires clock <= now
      modifies this
      ensures Valid()
      ensures Decision(allowed, remaining) == Check(old(rows), fp, a, now, windowMs).decision
      ensures rows == Check(old(rows), fp, a, now, windowMs).rows
      ensures clock == now
      ensures admitted == old(admitted) + (if allowed then [Admission(fp, a, now)] else [])
    {
      CheckKeepsInv(rows, admitted, clock, fp, a, now, windowMs);
      var window := WindowSeconds(windowMs);
      var quota := MaxRequests(a);
      clock := now;
      var existing := FirstLive(rows, fp, a, now, window);
      if existing.None? {
        rows := rows + [Row(fp, a, 1, now)];
        admitted := admitted + [Admission(fp, a, now)];
        return true, quota - 1;
      }
      var count := rows[existing.value].count;
      if count >= quota {
        return false, 0;
      }
      rows := Incremented(rows, fp, a);
      admitted := admitted + [Admission(fp, a, now)];
      return true, quota - count - 1;
    }
  }

  /** One vote per day: the second vote of a fingerprint inside the window is
      refused, whatever model it is for (the ledger has no model scope). */
  lemma SecondVoteRefused(fp: string, t1: int, t2: int)
    requires t1 <= t2 < t1 + 86400
    ensures var o1 := Check([], fp, Vote, t1, DefaultWindowMs);
      o1.decision == Decision(true, 0)
      && Check(o1.rows, fp, Vote, t2, DefaultWindowMs).decision == Decision(false, 0)
  {
    var o1 := Check([], fp, Vote, t1, DefaultWindowMs);
    assert IsLive(o1.rows[0], fp, Vote, t2, 86400);
  }

  /** Once the window has passed, the same fingerprint may vote again. */
  lemma VoteAfterWindowAllowed(fp: string, t1: int, t2: int)
    requires t2 >= t1 + 86400
    ensures var o1 := Check([], fp, Vote, t1, DefaultWindowMs);
      var o2 := Check(o1.rows, fp, Vote, t2, DefaultWindowMs);
      o2.decision == Decision(true, 0) && |o2.rows| == 2 && o2.rows[1] == Row(fp, Vote, 1, t2)
  {
    var o1 := Check([], fp, Vote, t1, DefaultWindowMs);
    assert !IsLive(o1.rows[0], fp, Vote, t2, 86400);
  }

  /** Three comments are admitted in a window, with 2, 1 and 0 remaining; the
      fourth is refused. */
  lemma FourthCommentRefused(fp: string, t: int)
    ensures var o1 := Check([], fp, Comment, t, DefaultWindowMs);
      var o2 := Check(o1.rows, fp, Comment, t, DefaultWindowMs);
      var o3 := Check(o2.rows, fp, Comment, t, DefaultWindowMs);
      var o4 := Check(o3.rows, fp, Comment, t, DefaultWindowMs);
      && o1.decision == Decision(true, 2) && o2.decision == Decision(true, 1)
      && o3.decision == Decision(true, 0) && o4.decision == Decision(false, 0)
  {
    var o1 := Check([], fp, Comment, t, DefaultWindowMs);
    assert IsLive(o1.rows[0], fp, Comment, t, 86400);
    var o2 := Check(o1.rows, fp, Comment, t, DefaultWindowMs);
    assert o2.rows == [Row(fp, Comment, 2, t)];
    var o3 := Check(o2.rows, fp, Comment, t, DefaultWindowMs);
    assert o3.rows == [Row(fp, Comment, 3, t)];
  }
}
