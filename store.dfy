// The database the scheduler and the handlers share: routers, peers, raw
// usage samples, the daily and monthly rollups, quotas and the settings
// key-value table, held as in-memory maps and a sample log. The rollups are
// specified by the sample log: a daily (monthly) row is the sum of the clamped
// counter steps of that peer's samples that fall on that day (month).
module Store {
  import opened Wrappers

  // ---------------------------------------------------------------------------
  // Calendar keys and clock readings

  /** A UTC calendar day, the key "YYYY-MM-DD" of a daily row. */
  datatype Day = Day(year: int, month: int, dom: int)

  /** A UTC calendar month, the key "YYYY-MM" of a monthly row. */
  datatype Month = Month(year: int, month: int)

  /** The month key is the first seven characters of the day key. */
  function MonthOf(d: Day): Month {
    Month(d.year, d.month)
  }

  /** A clock reading: seconds since the epoch and the UTC day it falls on. */
  datatype Instant = Instant(ts: int, day: Day)

  // ---------------------------------------------------------------------------
  // Rows

  /** The rx and tx byte counts of a rollup row or of one step. */
  datatype Totals = Totals(rx: nat, tx: nat)

  const Zero := Totals(0, 0)

  function Add(a: Totals, b: Totals): Totals {
    Totals(a.rx + b.rx, a.tx + b.tx)
  }

  datatype RouterRow = RouterRow(
    name: string, host: string, proto: string, port: int,
    username: string, secretEnc: string, tlsVerify: bool)

  datatype PeerRow = PeerRow(
    routerId: int, interface: string, rosId: string, name: string, publicKey: string,
    allowedAddress: string, comment: string, disabled: bool, selected: bool)

  /** A raw sample: the cumulative counters read at one poll. */
  datatype Sample = Sample(peerId: int, at: Instant, rx: int, tx: int, endpoint: string)

  datatype QuotaRow = QuotaRow(monthlyLimitBytes: int, resetDay: int)

  /** The unique keys of the rollup tables: (peer_id, day) and
      (peer_id, month_key). */
  datatype DayKey = DayKey(peer: int, day: Day)
  datatype MonthKey = MonthKey(peer: int, month: Month)

  /** Two peer rows collide on the unique key (router_id, interface, public_key). */
  predicate SamePeerKey(a: PeerRow, b: PeerRow) {
    a.routerId == b.routerId && a.interface == b.interface && a.publicKey == b.publicKey
  }

  /** No two stored peers share the unique key. */
  predicate UniquePeerKeys(peers: map<int, PeerRow>) {
    forall a, b | a in peers && b in peers && SamePeerKey(peers[a], peers[b]) :: a == b
  }

  // ---------------------------------------------------------------------------
  // Deltas

  /** The growth of a cumulative counter between two readings; a counter that
      went down (a reset on the router) counts as no growth. */
  function Clamp(prev: int, cur: int): (d: nat)
    ensures cur >= prev ==> d == cur - prev
    ensures cur < prev ==> d == 0
  {
    if cur >= prev then cur - prev else 0
  }

  /** The usage between two consecutive samples, rx and tx each on its own. */
  function StepDelta(prev: Sample, cur: Sample): Totals {
    Totals(Clamp(prev.rx, cur.rx), Clamp(prev.tx, cur.tx))
  }

  /** The samples of one peer, in the order they were taken. */
  function History(samples: seq<Sample>, p: int): seq<Sample>
    decreases |samples|
  {
    if samples == [] then []
    else
      var init := History(samples[..|samples| - 1], p);
      var s := samples[|samples| - 1];
      if s.peerId == p then init + [s] else init
  }

  lemma HistoryAppend(samples: seq<Sample>, s: Sample, p: int)
    ensures History(samples + [s], p)
         == if s.peerId == p then History(samples, p) + [s] else History(samples, p)
  {
    assert (samples + [s])[..|samples|] == samples;
  }

  /** Every sample in a history belongs to its peer. */
  lemma {:induction false} HistoryOwned(samples: seq<Sample>, p: int)
    ensures forall i | 0 <= i < |History(samples, p)| :: History(samples, p)[i].peerId == p
    decreases |samples|
  {
    if samples != [] {
      HistoryOwned(samples[..|samples| - 1], p);
    }
  }

  /** The samples that remain once one peer's samples are deleted. */
  function WithoutPeer(samples: seq<Sample>, p: int): seq<Sample>
    decreases |samples|
  {
    if samples == [] then []
    else
      var init := WithoutPeer(samples[..|samples| - 1], p);
      var s := samples[|samples| - 1];
      if s.peerId == p then init else init + [s]
  }

  /** Deleting one peer's samples empties its history and keeps every other
      peer's history as it was. */
  lemma {:induction false} HistoryWithoutPeer(samples: seq<Sample>, p: int, q: int)
    ensures History(WithoutPeer(samples, p), q) == if q == p then [] else History(samples, q)
    decreases |samples|
  {
    if samples != [] {
      var init := samples[..|samples| - 1];
      var s := samples[|samples| - 1];
      HistoryWithoutPeer(init, p, q);
      if s.peerId != p {
        HistoryAppend(WithoutPeer(init, p), s, q);
      }
    }
  }

  /** The usage a history attributes to one day: the sum of the steps into
      the samples taken on that day. The first sample is only a baseline. */
  function DayUsage(h: seq<Sample>, d: Day): Totals
    decreases |h|
  {
    if |h| < 2 then Zero
    else
      var init := DayUsage(h[..|h| - 1], d);
      if h[|h| - 1].at.day == d then Add(init, StepDelta(h[|h| - 2], h[|h| - 1])) else init
  }

  /** The same for one month. */
  function MonthUsage(h: seq<Sample>, m: Month): Totals
    decreases |h|
  {
    if |h| < 2 then Zero
    else
      var init := MonthUsage(h[..|h| - 1], m);
      if MonthOf(h[|h| - 1].at.day) == m then Add(init, StepDelta(h[|h| - 2], h[|h| - 1])) else init
  }

  /** The usage over a whole history. */
  function AllUsage(h: seq<Sample>): Totals
    decreases |h|
  {
    if |h| < 2 then Zero
    else Add(AllUsage(h[..|h| - 1]), StepDelta(h[|h| - 2], h[|h| - 1]))
  }

  /** The delta a new sample adds to a history: nothing when there is no
      previous sample. */
  function NextDelta(h: seq<Sample>, s: Sample): Totals {
    if h == [] then Zero else StepDelta(h[|h| - 1], s)
  }

  lemma DayUsageAppend(h: seq<Sample>, s: Sample, d: Day)
    ensures DayUsage(h + [s], d) == if s.at.day == d then Add(DayUsage(h, d), NextDelta(h, s)) else DayUsage(h, d)
  {
    var h2 := h + [s];
    assert h2[..|h2| - 1] == h;
    assert h2[|h2| - 1] == s;
    if |h| >= 1 {
      assert h2[|h2| - 2] == h[|h| - 1];
      var init := DayUsage(h, d);
      assert DayUsage(h2, d) == if s.at.day == d then Add(init, StepDelta(h[|h| - 1], s)) else init;
    } else {
      assert DayUsage(h2, d) == Zero;
      assert DayUsage(h, d) == Zero;
    }
  }

  lemma MonthUsageAppend(h: seq<Sample>, s: Sample, m: Month)
    ensures MonthUsage(h + [s], m)
         == if MonthOf(s.at.day) == m then Add(MonthUsage(h, m), NextDelta(h, s)) else MonthUsage(h, m)
  {
    var h2 := h + [s];
    assert h2[..|h2| - 1] == h;
    assert h2[|h2| - 1] == s;
    if |h| >= 1 {
      assert h2[|h2| - 2] == h[|h| - 1];
      var init := MonthUsage(h, m);
      assert MonthUsage(h2, m) == if MonthOf(s.at.day) == m then Add(init, StepDelta(h[|h| - 1], s)) else init;
    } else {
      assert MonthUsage(h2, m) == Zero;
      assert MonthUsage(h, m) == Zero;
    }
  }

  predicate NonDecreasing(h: seq<Sample>) {
    forall i, j | 0 <= i <= j < |h| :: h[i].rx <= h[j].rx && h[i].tx <= h[j].tx
  }

  /** Over counters that never go down, the usage of a history telescopes to
      the last reading minus the first. */
  lemma {:induction false} AllUsageTelescopes(h: seq<Sample>)
    requires h != [] && NonDecreasing(h)
    ensures AllUsage(h).rx == h[|h| - 1].rx - h[0].rx
    ensures AllUsage(h).tx == h[|h| - 1].tx - h[0].tx
    decreases |h|
  {
    if |h| >= 2 {
      var init := h[..|h| - 1];
      assert NonDecreasing(init);
      AllUsageTelescopes(init);
      assert init[0] == h[0];
    }
  }

  /** When every step of a history falls in one month, that month's usage is
      the usage of the whole history. */
  lemma {:induction false} MonthUsageOfOneMonth(h: seq<Sample>, m: Month)
    requires forall i | 1 <= i < |h| :: MonthOf(h[i].at.day) == m
    ensures MonthUsage(h, m) == AllUsage(h)
    decreases |h|
  {
    if |h| >= 2 {
      MonthUsageOfOneMonth(h[..|h| - 1], m);
    }
  }

  /** A history whose every step falls on another month contributes nothing
      to it. */
  lemma {:induction false} DayUsageZeroOff(h: seq<Sample>, d: Day)
    requires forall i | 1 <= i < |h| :: h[i].at.day != d
    ensures DayUsage(h, d) == Zero
    decreases |h|
  {
    if |h| >= 2 {
      DayUsageZeroOff(h[..|h| - 1], d);
    }
  }

  // ---------------------------------------------------------------------------
  // Sums of rollup rows

  /** The sum of the rows of `daily` under `keys`. */
  ghost function SumOver(daily: map<DayKey, Totals>, keys: set<DayKey>): Totals
    requires keys <= daily.Keys
    decreases keys
  {
    if keys == {} then Zero
    else
      var k :| k in keys;
      Add(daily[k], SumOver(daily, keys - {k}))
  }

  /** The sum does not depend on the order the keys are taken in. */
  lemma {:induction false} SumOverRemove(daily: map<DayKey, Totals>, keys: set<DayKey>, k: DayKey)
    requires keys <= daily.Keys && k in keys
    ensures SumOver(daily, keys) == Add(daily[k], SumOver(daily, keys - {k}))
    decreases keys
  {
    var j :| j in keys && SumOver(daily, keys) == Add(daily[j], SumOver(daily, keys - {j}));
    if j != k {
      SumOverRemove(daily, keys - {j}, k);
      SumOverRemove(daily, keys - {k}, j);
      var rest := keys - {j} - {k};
      assert keys - {k} - {j} == rest;
      var r := SumOver(daily, rest);
      assert SumOver(daily, keys) == Add(daily[j], Add(daily[k], r));
      assert SumOver(daily, keys - {k}) == Add(daily[j], r);
      assert Add(daily[j], Add(daily[k], r)) == Add(daily[k], Add(daily[j], r));
    }
  }

  /** Two tables that agree on the keys have the same sum over them. */
  lemma {:induction false} SumOverAgree(d1: map<DayKey, Totals>, d2: map<DayKey, Totals>, keys: set<DayKey>)
    requires keys <= d1.Keys && keys <= d2.Keys
    requires forall k | k in keys :: d1[k] == d2[k]
    ensures SumOver(d1, keys) == SumOver(d2, keys)
    decreases keys
  {
    if keys != {} {
      var k :| k in keys && SumOver(d1, keys) == Add(d1[k], SumOver(d1, keys - {k}));
      SumOverAgree(d1, d2, keys - {k});
      SumOverRemove(d2, keys, k);
    }
  }

  /** The keys of one peer's daily rows in one month: the rows the quota
      handler selects with `day LIKE 'YYYY-MM-%'`. */
  function DaysIn(daily: map<DayKey, Totals>, p: int, m: Month): set<DayKey> {
    set k | k in daily && k.peer == p && MonthOf(k.day) == m
  }

  ghost function DailySum(daily: map<DayKey, Totals>, p: int, m: Month): Totals {
    SumOver(daily, DaysIn(daily, p, m))
  }

  function MonthlyOrZero(monthly: map<MonthKey, Totals>, p: int, m: Month): Totals {
    if MonthKey(p, m) in monthly then monthly[MonthKey(p, m)] else Zero
  }

  /** The upsert of the poll: create the row with `delta`, or add `delta` to
      the row that is there. */
  function Bump<K>(rows: map<K, Totals>, k: K, delta: Totals): map<K, Totals> {
    rows[k := Add(if k in rows then rows[k] else Zero, delta)]
  }

  /** Adding `delta` to the row (p, d), creating it if needed, adds `delta` to
      the daily sum of (p, month of d) and to no other. */
  lemma DailySumBump(daily: map<DayKey, Totals>, p: int, d: Day, delta: Totals, q: int, m: Month)
    ensures DailySum(Bump(daily, DayKey(p, d), delta), q, m)
         == if q == p && MonthOf(d) == m then Add(DailySum(daily, q, m), delta) else DailySum(daily, q, m)
  {
    var k := DayKey(p, d);
    var daily2 := Bump(daily, k, delta);
    var keys := DaysIn(daily, q, m);
    var keys2 := DaysIn(daily2, q, m);
    if q == p && MonthOf(d) == m {
      assert keys2 == keys + {k};
      SumOverRemove(daily2, keys2, k);
      SumOverAgree(daily, daily2, keys - {k});
      var rest := SumOver(daily, keys - {k});
      assert keys2 - {k} == keys - {k};
      assert SumOver(daily2, keys2) == Add(daily2[k], rest);
      if k in daily {
        SumOverRemove(daily, keys, k);
        assert SumOver(daily, keys) == Add(daily[k], rest);
        assert Add(Add(daily[k], delta), rest) == Add(Add(daily[k], rest), delta);
      } else {
        assert keys - {k} == keys;
        assert daily2[k] == Add(Zero, delta) == delta;
        assert Add(delta, rest) == Add(rest, delta);
      }
      assert DailySum(daily2, q, m) == SumOver(daily2, keys2);
      assert DailySum(daily, q, m) == SumOver(daily, keys);
    } else {
      assert keys2 == keys;
      SumOverAgree(daily, daily2, keys);
    }
  }

  /** The rollup rows of every peer but one. */
  function DailyWithout(daily: map<DayKey, Totals>, p: int): map<DayKey, Totals> {
    map k | k in daily && k.peer != p :: daily[k]
  }

  function MonthlyWithout(monthly: map<MonthKey, Totals>, p: int): map<MonthKey, Totals> {
    map k | k in monthly && k.peer != p :: monthly[k]
  }

  /** Deleting every row of one peer empties its sums and keeps all others. */
  lemma DailySumDropPeer(daily: map<DayKey, Totals>, p: int, q: int, m: Month)
    ensures DailySum(DailyWithout(daily, p), q, m) == if q == p then Zero else DailySum(daily, q, m)
  {
    var daily2 := DailyWithout(daily, p);
    if q == p {
      assert DaysIn(daily2, q, m) == {};
    } else {
      assert DaysIn(daily2, q, m) == DaysIn(daily, q, m);
      SumOverAgree(daily, daily2, DaysIn(daily, q, m));
    }
  }

  // ---------------------------------------------------------------------------
  // The rollup invariant

  /** Every daily row is the sum of the deltas of its peer's samples on its
      day, and a row exists exactly when that sum is not zero. */
  ghost predicate DailyConsistent(samples: seq<Sample>, daily: map<DayKey, Totals>) {
    && (forall k | k in daily :: daily[k] == DayUsage(History(samples, k.peer), k.day) && daily[k] != Zero)
    && (forall p, d | DayUsage(History(samples, p), d) != Zero :: DayKey(p, d) in daily)
  }

  /** The same for the monthly rows. */
  ghost predicate MonthlyConsistent(samples: seq<Sample>, monthly: map<MonthKey, Totals>) {
    && (forall k | k in monthly ::
          monthly[k] == MonthUsage(History(samples, k.peer), k.month) && monthly[k] != Zero)
    && (forall p, m | MonthUsage(History(samples, p), m) != Zero :: MonthKey(p, m) in monthly)
  }

  /** Each monthly row (or zero, when there is none) is the sum of that
      month's daily rows. */
  ghost predicate MonthlyIsDailySum(daily: map<DayKey, Totals>, monthly: map<MonthKey, Totals>) {
    forall p, m :: MonthlyOrZero(monthly, p, m) == DailySum(daily, p, m)
  }

  ghost predicate RollupsConsistent(samples: seq<Sample>, daily: map<DayKey, Totals>,
                                    monthly: map<MonthKey, Totals>)
  {
    DailyConsistent(samples, daily) && MonthlyConsistent(samples, monthly) && MonthlyIsDailySum(daily, monthly)
  }

  /** The rollups after recording sample `s`: when its delta against the
      peer's latest sample is zero nothing changes, otherwise the delta is
      added to the peer's row for the sample's day and month. */
  function DailyAfter(samples: seq<Sample>, daily: map<DayKey, Totals>, s: Sample): map<DayKey, Totals> {
    var delta := NextDelta(History(samples, s.peerId), s);
    if delta == Zero then daily else Bump(daily, DayKey(s.peerId, s.at.day), delta)
  }

  function MonthlyAfter(samples: seq<Sample>, monthly: map<MonthKey, Totals>, s: Sample): map<MonthKey, Totals> {
    var delta := NextDelta(History(samples, s.peerId), s);
    if delta == Zero then monthly else Bump(monthly, MonthKey(s.peerId, MonthOf(s.at.day)), delta)
  }

  /** A new sample adds its delta to the usage of its own peer's day and
      changes no other day's usage. */
  lemma DayUsageAfterSample(samples: seq<Sample>, s: Sample, q: int, d: Day)
    ensures DayUsage(History(samples + [s], q), d)
         == if q == s.peerId && d == s.at.day then Add(DayUsage(History(samples, q), d), NextDelta(History(samples, q), s))
            else DayUsage(History(samples, q), d)
  {
    HistoryAppend(samples, s, q);
    if q == s.peerId {
      DayUsageAppend(History(samples, q), s, d);
    }
  }

  lemma DailyAfterSample(samples: seq<Sample>, daily: map<DayKey, Totals>, s: Sample)
    requires DailyConsistent(samples, daily)
    ensures DailyConsistent(samples + [s], DailyAfter(samples, daily, s))
  {
    var p := s.peerId;
    var samples2 := samples + [s];
    var delta := NextDelta(History(samples, p), s);
    var daily2 := DailyAfter(samples, daily, s);
    forall k | k in daily2
      ensures daily2[k] == DayUsage(History(samples2, k.peer), k.day) && daily2[k] != Zero
    {
      DayUsageAfterSample(samples, s, k.peer, k.day);
      if k == DayKey(p, s.at.day) && delta != Zero {
        assert daily2[k] == Add(if k in daily then daily[k] else Zero, delta);
        assert (if k in daily then daily[k] else Zero) == DayUsage(History(samples, p), s.at.day);
      } else {
        assert k in daily && daily2[k] == daily[k];
      }
    }
    forall q, d | DayUsage(History(samples2, q), d) != Zero
      ensures DayKey(q, d) in daily2
    {
      DayUsageAfterSample(samples, s, q, d);
      if !(q == p && d == s.at.day) {
        assert DayUsage(History(samples, q), d) != Zero;
      } else if delta == Zero {
        assert Add(DayUsage(History(samples, q), d), delta) == DayUsage(History(samples, q), d);
      }
    }
  }

  /** The same for the usage of a month. */
  lemma MonthUsageAfterSample(samples: seq<Sample>, s: Sample, q: int, m: Month)
    ensures MonthUsage(History(samples + [s], q), m)
         == if q == s.peerId && m == MonthOf(s.at.day)
            then Add(MonthUsage(History(samples, q), m), NextDelta(History(samples, q), s))
            else MonthUsage(History(samples, q), m)
  {
    HistoryAppend(samples, s, q);
    if q == s.peerId {
      MonthUsageAppend(History(samples, q), s, m);
    }
  }

  lemma MonthlyAfterSample(samples: seq<Sample>, monthly: map<MonthKey, Totals>, s: Sample)
    requires MonthlyConsistent(samples, monthly)
    ensures MonthlyConsistent(samples + [s], MonthlyAfter(samples, monthly, s))
  {
    var p := s.peerId;
    var samples2 := samples + [s];
    var delta := NextDelta(History(samples, p), s);
    var mo := MonthOf(s.at.day);
    var monthly2 := MonthlyAfter(samples, monthly, s);
    forall k | k in monthly2
      ensures monthly2[k] == MonthUsage(History(samples2, k.peer), k.month) && monthly2[k] != Zero
    {
      MonthUsageAfterSample(samples, s, k.peer, k.month);
      if k == MonthKey(p, mo) && delta != Zero {
        assert monthly2[k] == Add(MonthlyOrZero(monthly, p, mo), delta);
      } else {
        assert k in monthly && monthly2[k] == monthly[k];
      }
    }
    forall q, m | MonthUsage(History(samples2, q), m) != Zero
      ensures MonthKey(q, m) in monthly2
    {
      MonthUsageAfterSample(samples, s, q, m);
      if !(q == p && m == mo) {
        assert MonthUsage(History(samples, q), m) != Zero;
      } else if delta == Zero {
        assert Add(MonthUsage(History(samples, q), m), delta) == MonthUsage(History(samples, q), m);
      }
    }
  }

  lemma SumsAfterSample(samples: seq<Sample>, daily: map<DayKey, Totals>,
                        monthly: map<MonthKey, Totals>, s: Sample)
    requires MonthlyIsDailySum(daily, monthly)
    ensures MonthlyIsDailySum(DailyAfter(samples, daily, s), MonthlyAfter(samples, monthly, s))
  {
    var p := s.peerId;
    var delta := NextDelta(History(samples, p), s);
    forall q, m
      ensures MonthlyOrZero(MonthlyAfter(samples, monthly, s), q, m) == DailySum(DailyAfter(samples, daily, s), q, m)
    {
      if delta != Zero {
        DailySumBump(daily, p, s.at.day, delta, q, m);
      }
    }
  }

  /** Recording a sample and upserting its delta keeps the rollups equal to
      the sums of the deltas. */
  lemma RollupsAfterSample(samples: seq<Sample>, daily: map<DayKey, Totals>,
                           monthly: map<MonthKey, Totals>, s: Sample)
    requires RollupsConsistent(samples, daily, monthly)
    ensures RollupsConsistent(samples + [s], DailyAfter(samples, daily, s), MonthlyAfter(samples, monthly, s))
  {
    DailyAfterSample(samples, daily, s);
    MonthlyAfterSample(samples, monthly, s);
    SumsAfterSample(samples, daily, monthly, s);
  }

  /** Deleting all of one peer's samples and rollup rows keeps the rollups
      equal to the sums of the deltas. */
  lemma RollupsAfterReset(samples: seq<Sample>, daily: map<DayKey, Totals>,
                          monthly: map<MonthKey, Totals>, p: int)
    requires RollupsConsistent(samples, daily, monthly)
    ensures RollupsConsistent(WithoutPeer(samples, p), DailyWithout(daily, p), MonthlyWithout(monthly, p))
  {
    var samples2 := WithoutPeer(samples, p);
    forall q ensures History(samples2, q) == if q == p then [] else History(samples, q) {
      HistoryWithoutPeer(samples, p, q);
    }
    forall q, m
      ensures MonthlyOrZero(MonthlyWithout(monthly, p), q, m) == DailySum(DailyWithout(daily, p), q, m)
    {
      DailySumDropPeer(daily, p, q, m);
    }
  }

  // ---------------------------------------------------------------------------
  // The database

  class Database {
    var routers: map<int, RouterRow>
    var peers: map<int, PeerRow>
    var samples: seq<Sample>
    var daily: map<DayKey, Totals>
    var monthly: map<MonthKey, Totals>
    var quotas: map<int, QuotaRow>
    var kv: map<string, string>
    /** The largest router and peer ids handed out so far. */
    var lastRouterId: nat
    var lastPeerId: nat

    /** Ids stay below the last one handed out, the unique key of peers
        holds, and the rollups are consistent with the sample log. */
    ghost predicate Valid()
      reads this
    {
      && (forall id | id in routers :: id <= lastRouterId)
      && (forall id | id in peers :: id <= lastPeerId)
      && UniquePeerKeys(peers)
      && RollupsConsistent(samples, daily, monthly)
    }

    /** An empty database. */
    constructor ()
      ensures Valid()
      ensures routers == map[] && peers == map[] && samples == [] && daily == map[]
      ensures monthly == map[] && quotas == map[] && kv == map[]
    {
      routers, peers, samples, daily, monthly := map[], map[], [], map[], map[];
      quotas, kv := map[], map[];
      lastRouterId, lastPeerId := 0, 0;
      new;
      forall p, m ensures MonthlyOrZero(monthly, p, m) == DailySum(daily, p, m) {
        assert DaysIn(daily, p, m) == {};
      }
    }

    /** Commits a new router row under an id already handed out. */
    method PutRouter(id: int, row: RouterRow)
      requires Valid() && id <= lastRouterId
      modifies this`routers
      ensures Valid() && routers == old(routers)[id := row]
    {
      routers := routers[id := row];
    }

    /** Commits the peer table and the last peer id handed out; the unique
        key must hold and every id must be at most that last id. */
    method PutPeers(newPeers: map<int, PeerRow>, newLastPeerId: nat)
      requires Valid()
      requires UniquePeerKeys(newPeers) && forall id | id in newPeers :: id <= newLastPeerId
      modifies this`peers, this`lastPeerId
      ensures Valid() && peers == newPeers && lastPeerId == newLastPeerId
    {
      peers, lastPeerId := newPeers, newLastPeerId;
    }

    /** Commits the quota table and the settings table, which no invariant
        constrains. */
    method PutQuotasAndKv(newQuotas: map<int, QuotaRow>, newKv: map<string, string>)
      requires Valid()
      modifies this`quotas, this`kv
      ensures Valid() && quotas == newQuotas && kv == newKv
    {
      quotas, kv := newQuotas, newKv;
    }

    /** The daily row of a peer's day, zero when there is none. */
    function DailyOrZero(p: int, d: Day): Totals
      reads this
    {
      if DayKey(p, d) in daily then daily[DayKey(p, d)] else Zero
    }
  }

  /** In a valid database every rollup row equals the usage its peer's
      samples attribute to it, present or not. */
  lemma RollupsMatchHistory(db: Database, p: int, d: Day, m: Month)
    requires db.Valid()
    ensures db.DailyOrZero(p, d) == DayUsage(History(db.samples, p), d)
    ensures MonthlyOrZero(db.monthly, p, m) == MonthUsage(History(db.samples, p), m)
  {
  }

  /** With counters that never go down and all of a peer's samples in one
      month, its monthly row (and the sum of its daily rows for the month) is
      the last reading minus the first. */
  lemma MonthlyIsLastMinusFirst(db: Database, p: int, m: Month)
    requires db.Valid()
    requires var h := History(db.samples, p);
      h != [] && NonDecreasing(h) && forall i | 0 <= i < |h| :: MonthOf(h[i].at.day) == m
    ensures var h := History(db.samples, p);
      && MonthlyOrZero(db.monthly, p, m).rx == h[|h| - 1].rx - h[0].rx
      && MonthlyOrZero(db.monthly, p, m).tx == h[|h| - 1].tx - h[0].tx
      && DailySum(db.daily, p, m) == MonthlyOrZero(db.monthly, p, m)
  {
    var h := History(db.samples, p);
    MonthUsageOfOneMonth(h, m);
    AllUsageTelescopes(h);
  }
}
