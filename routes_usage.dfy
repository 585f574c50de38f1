// GET /api/peers/{id}/usage and POST /api/peers/{id}/reset_metrics: a peer's
// usage as daily rollup rows or as the deltas between its recent raw
// samples, and the deletion of all of a peer's samples and rollup rows.
module UsageRoutes {
  import opened Wrappers
  import opened PyValues
  import opened Http
  import opened Store

  // ---------------------------------------------------------------------------
  // Points

  /** What a usage point is labelled with: the day of a daily row, shown as
      its "YYYY-MM-DD" key, or the timestamp of a raw sample, shown as its
      "HH:MM:SS" time of day (`ClockText`). */
  datatype PointLabel = DayLabel(day: Day) | ClockLabel(ts: int)

  datatype UsagePoint = UsagePoint(key: PointLabel, rx: nat, tx: nat)

  /** A number below 100 as two digits, zero-padded. */
  function Pad2(n: nat): string
    requires n < 100
  {
    [DigitChar(n / 10), DigitChar(n % 10)]
  }

  lemma Pad2ReadsBack(n: nat)
    requires n < 100
    ensures |Pad2(n)| == 2 && AllDigits(Pad2(n)) && DigitsValue(Pad2(n)) == n
  {
    var s := Pad2(n);
    assert s[..1][..0] == [] && s[..1][0] == DigitChar(n / 10);
    assert DigitsValue(s[..1]) == n / 10;
    assert DigitValue(s[1]) == n % 10;
  }

  /** `strftime("%H:%M:%S")` of a UTC timestamp in seconds. */
  function ClockText(ts: int): string {
    var t := ts % 86400;
    Pad2(t / 3600) + ":" + Pad2(t / 60 % 60) + ":" + Pad2(t % 60)
  }

  /** The label reads back as the second of the day the timestamp falls on. */
  lemma ClockTextReadsBack(ts: int)
    ensures var s := ClockText(ts);
      && |s| == 8 && s[2] == ':' && s[5] == ':'
      && AllDigits(s[0..2]) && AllDigits(s[3..5]) && AllDigits(s[6..8])
      && DigitsValue(s[0..2]) < 24 && DigitsValue(s[3..5]) < 60 && DigitsValue(s[6..8]) < 60
      && DigitsValue(s[0..2]) * 3600 + DigitsValue(s[3..5]) * 60 + DigitsValue(s[6..8]) == ts % 86400
  {
    var t := ts % 86400;
    var minutes := t / 60;
    assert t == minutes * 60 + t % 60;
    assert minutes == minutes / 60 * 60 + minutes % 60;
    assert minutes / 60 == t / 3600;
    var h, m, sec := Pad2(t / 3600), Pad2(t / 60 % 60), Pad2(t % 60);
    Pad2ReadsBack(t / 3600);
    Pad2ReadsBack(t / 60 % 60);
    Pad2ReadsBack(t % 60);
    var s := ClockText(ts);
    assert s == h + ":" + m + ":" + sec;
    assert s[0..2] == h && s[3..5] == m && s[6..8] == sec;
  }

  // ---------------------------------------------------------------------------
  // window=raw

  /** The look-back of the raw window: `seconds` when given and positive,
      otherwise one hour. */
  function Lookback(seconds: Option<int>): (l: int)
    ensures l > 0
    ensures seconds.Some? && seconds.value > 0 ==> l == seconds.value
    ensures seconds.None? || seconds.value <= 0 ==> l == 3600
  {
    if seconds.Some? && seconds.value > 0 then seconds.value else 3600
  }

  /** The samples of a history taken at or after the cutoff, in order. */
  function Recent(h: seq<Sample>, cutoff: int): (r: seq<Sample>)
    ensures forall i | 0 <= i < |r| :: r[i].at.ts >= cutoff
    ensures |r| <= |h|
    decreases |h|
  {
    if h == [] then []
    else
      var init := Recent(h[..|h| - 1], cutoff);
      if h[|h| - 1].at.ts >= cutoff then init + [h[|h| - 1]] else init
  }

  /** A sample is in the window exactly when it is in the history and was
      taken at or after the cutoff: nothing recent is dropped. */
  lemma {:induction false} RecentMembers(h: seq<Sample>, cutoff: int, s: Sample)
    ensures s in Recent(h, cutoff) <==> s in h && s.at.ts >= cutoff
    decreases |h|
  {
    if h != [] {
      assert h == h[..|h| - 1] + [h[|h| - 1]];
      RecentMembers(h[..|h| - 1], cutoff, s);
    }
  }

  /** The window of two stretches of samples is the window of the first
      followed by that of the second: the filter keeps the order. */
  lemma {:induction false} RecentAppend(h1: seq<Sample>, h2: seq<Sample>, cutoff: int)
    ensures Recent(h1 + h2, cutoff) == Recent(h1, cutoff) + Recent(h2, cutoff)
    decreases |h2|
  {
    if h2 == [] {
      assert h1 + h2 == h1;
    } else {
      var init := h2[..|h2| - 1];
      assert (h1 + h2)[..|h1 + h2| - 1] == h1 + init;
      RecentAppend(h1, init, cutoff);
    }
  }

  /** The points of the raw window: one per step between consecutive samples
      that grew rx or tx, with the clamped deltas, labelled with the time of
      the later sample. The first sample is only a baseline. */
  function RawPoints(h: seq<Sample>): seq<UsagePoint>
    decreases |h|
  {
    if |h| < 2 then []
    else
      var d := StepDelta(h[|h| - 2], h[|h| - 1]);
      var init := RawPoints(h[..|h| - 1]);
      if d == Zero then init else init + [UsagePoint(ClockLabel(h[|h| - 1].at.ts), d.rx, d.tx)]
  }

  function PointsTotal(points: seq<UsagePoint>): Totals
    decreases |points|
  {
    if points == [] then Zero
    else Add(PointsTotal(points[..|points| - 1]), Totals(points[|points| - 1].rx, points[|points| - 1].tx))
  }

  lemma PointsTotalSnoc(points: seq<UsagePoint>, p: UsagePoint)
    ensures PointsTotal(points + [p]) == Add(PointsTotal(points), Totals(p.rx, p.tx))
  {
    assert (points + [p])[..|points|] == points;
  }

  /** A step adds its clamped delta to the points' total, whether or not it
      shows as a point. */
  lemma RawPointsStep(h: seq<Sample>)
    requires |h| >= 2
    ensures PointsTotal(RawPoints(h)) == Add(PointsTotal(RawPoints(h[..|h| - 1])), StepDelta(h[|h| - 2], h[|h| - 1]))
  {
    var d := StepDelta(h[|h| - 2], h[|h| - 1]);
    var points := RawPoints(h[..|h| - 1]);
    if d != Zero {
      var p := UsagePoint(ClockLabel(h[|h| - 1].at.ts), d.rx, d.tx);
      assert RawPoints(h) == points + [p];
      PointsTotalSnoc(points, p);
    } else {
      assert RawPoints(h) == points;
    }
  }

  /** The raw points add up to the usage of the window's samples. */
  lemma {:induction false} RawPointsTotal(h: seq<Sample>)
    ensures PointsTotal(RawPoints(h)) == AllUsage(h)
    decreases |h|
  {
    if |h| >= 2 {
      RawPointsTotal(h[..|h| - 1]);
      RawPointsStep(h);
    }
  }

  /** Every raw point shows traffic. */
  lemma {:induction false} RawPointsShowTraffic(h: seq<Sample>)
    ensures forall i | 0 <= i < |RawPoints(h)| :: RawPoints(h)[i].rx > 0 || RawPoints(h)[i].tx > 0
    decreases |h|
  {
    if |h| >= 2 {
      RawPointsShowTraffic(h[..|h| - 1]);
    }
  }

  /** At most one point per step between consecutive samples. */
  lemma {:induction false} RawPointsCount(h: seq<Sample>)
    ensures |RawPoints(h)| <= if h == [] then 0 else |h| - 1
    decreases |h|
  {
    if |h| >= 2 {
      RawPointsCount(h[..|h| - 1]);
    }
  }

  /** The raw loop of `get_peer_usage`: walks the samples keeping the
      previous one, clamps each counter's step at zero and skips steps that
      grew neither counter. */
  method RawUsage(h: seq<Sample>) returns (points: seq<UsagePoint>)
    ensures points == RawPoints(h)
  {
    points := [];
    var prev: Option<Sample> := None;
    for i := 0 to |h|
      invariant prev == if i == 0 then None else Some(h[i - 1])
      invariant points == RawPoints(h[..i])
    {
      var s := h[i];
      var window := h[..i + 1];
      assert window[..i] == h[..i] && window[|window| - 1] == s;
      if prev.None? {
        prev := Some(s);
        continue;
      }
      assert window[|window| - 2] == prev.value;
      var drx: nat := if s.rx >= prev.value.rx then s.rx - prev.value.rx else 0;
      var dtx: nat := if s.tx >= prev.value.tx then s.tx - prev.value.tx else 0;
      prev := Some(s);
      if drx <= 0 && dtx <= 0 {
        continue;
      }
      points := points + [UsagePoint(ClockLabel(s.at.ts), drx, dtx)];
    }
    assert h[..|h|] == h;
  }

  // ---------------------------------------------------------------------------
  // window=daily

  /** Day keys in calendar order. */
  predicate DayBefore(a: Day, b: Day) {
    || a.year < b.year
    || (a.year == b.year && a.month < b.month)
    || (a.year == b.year && a.month == b.month && a.dom < b.dom)
  }

  /** The last of a set of days. */
  predicate IsLatest(days: set<Day>, d: Day) {
    d in days && forall e | e in days && e != d :: DayBefore(e, d)
  }

  /** A non-empty set of days has a last day. */
  lemma {:induction false} LatestDayExists(days: set<Day>)
    requires days != {}
    ensures exists d :: IsLatest(days, d)
    decreases days
  {
    var x :| x in days;
    var rest := days - {x};
    if rest != {} {
      LatestDayExists(rest);
      var m :| IsLatest(rest, m);
      if DayBefore(x, m) {
        assert IsLatest(days, m);
      } else {
        assert DayBefore(m, x);
        forall e | e in days && e != x ensures DayBefore(e, x) {
          if e != m {
            assert DayBefore(e, m);
          }
        }
        assert IsLatest(days, x);
      }
    } else {
      assert forall e | e in days && e != x :: e in rest;
      assert IsLatest(days, x);
    }
  }

  /** The days of one peer's daily rows. */
  function PeerDays(daily: map<DayKey, Totals>, p: int): set<Day> {
    set k | k in daily && k.peer == p :: k.day
  }

  /** Every point is the daily row of the peer for its day. */
  predicate RowPoints(daily: map<DayKey, Totals>, p: int, points: seq<UsagePoint>) {
    forall i | 0 <= i < |points| ::
      && points[i].key.DayLabel?
      && DayKey(p, points[i].key.day) in daily
      && points[i].rx == daily[DayKey(p, points[i].key.day)].rx
      && points[i].tx == daily[DayKey(p, points[i].key.day)].tx
  }

  /** The points are in strictly increasing day order. */
  predicate InDayOrder(points: seq<UsagePoint>) {
    forall i, j | 0 <= i < j < |points| ::
      points[i].key.DayLabel? && points[j].key.DayLabel? && DayBefore(points[i].key.day, points[j].key.day)
  }

  /** Every day has a point. */
  predicate CoversDays(points: seq<UsagePoint>, days: set<Day>) {
    forall d | d in days :: exists i | 0 <= i < |points| :: points[i].key == DayLabel(d)
  }

  /** The answer to window=daily: the peer's daily rows, one point each, in
      day order. */
  predicate IsDailyAnswer(daily: map<DayKey, Totals>, p: int, points: seq<UsagePoint>) {
    RowPoints(daily, p, points) && InDayOrder(points) && CoversDays(points, PeerDays(daily, p))
  }

  /** Appending the point of a day later than every listed day keeps the
      points ordered and covering. */
  lemma AppendLatest(daily: map<DayKey, Totals>, p: int, points: seq<UsagePoint>, days: set<Day>, d: Day)
    requires DayKey(p, d) in daily
    requires RowPoints(daily, p, points) && InDayOrder(points) && CoversDays(points, days)
    requires forall i | 0 <= i < |points| :: points[i].key.DayLabel? && DayBefore(points[i].key.day, d)
    ensures var pts := points + [UsagePoint(DayLabel(d), daily[DayKey(p, d)].rx, daily[DayKey(p, d)].tx)];
      RowPoints(daily, p, pts) && InDayOrder(pts) && CoversDays(pts, days + {d})
  {
    var pts := points + [UsagePoint(DayLabel(d), daily[DayKey(p, d)].rx, daily[DayKey(p, d)].tx)];
    forall d2 | d2 in days + {d} ensures exists i | 0 <= i < |pts| :: pts[i].key == DayLabel(d2) {
      if d2 == d {
        assert pts[|points|].key == DayLabel(d2);
      } else {
        var i :| 0 <= i < |points| && points[i].key == DayLabel(d2);
        assert pts[i] == points[i];
      }
    }
  }

  /** The points of the given days of one peer, in day order. */
  function DayPoints(daily: map<DayKey, Totals>, p: int, days: set<Day>): (points: seq<UsagePoint>)
    requires forall d | d in days :: DayKey(p, d) in daily
    ensures RowPoints(daily, p, points) && InDayOrder(points) && CoversDays(points, days)
    ensures forall i | 0 <= i < |points| :: points[i].key.DayLabel? && points[i].key.day in days
    decreases days
  {
    if days == {} then []
    else
      LatestDayExists(days);
      assert forall d1, d2 | IsLatest(days, d1) && IsLatest(days, d2) :: d1 == d2;
      var d :| IsLatest(days, d);
      var rest := DayPoints(daily, p, days - {d});
      AppendLatest(daily, p, rest, days - {d}, d);
      assert days - {d} + {d} == days;
      rest + [UsagePoint(DayLabel(d), daily[DayKey(p, d)].rx, daily[DayKey(p, d)].tx)]
  }

  /** The daily query: the peer's rows ordered by day. */
  function DailyPoints(daily: map<DayKey, Totals>, p: int): (points: seq<UsagePoint>)
    ensures IsDailyAnswer(daily, p, points)
  {
    DayPoints(daily, p, PeerDays(daily, p))
  }

  // ---------------------------------------------------------------------------
  // get_peer_usage

  /** `get_peer_usage`. window=daily answers the peer's daily rows in day
      order; window=raw answers the raw points of the peer's samples taken
      within the look-back before `now`; any other window is a 400. */
  method GetPeerUsage(db: Database, p: int, window: string, seconds: Option<int>, now: Instant)
    returns (r: Result<seq<UsagePoint>, HttpError>)
    ensures window == "daily" ==> r.Success? && IsDailyAnswer(db.daily, p, r.value)
    ensures window == "raw" ==>
      r == Success(RawPoints(Recent(History(db.samples, p), now.ts - Lookback(seconds))))
    ensures window != "daily" && window != "raw" ==> r.Failure? && r.error.status == BadRequest
  {
    if window == "daily" {
      return Success(DailyPoints(db.daily, p));
    }
    if window == "raw" {
      var lookback := if seconds.Some? && seconds.value > 0 then seconds.value else 3600;
      var cutoff := now.ts - lookback;
      var samples := Recent(History(db.samples, p), cutoff);
      var points := RawUsage(samples);
      return Success(points);
    }
    return Failure(HttpError(BadRequest, "window must be 'daily' or 'raw'"));
  }

  /** In a valid database the raw points of a peer's whole history add up to
      the sum of its monthly rows when every step falls in one month. */
  lemma RawPointsMatchMonthly(db: Database, p: int, m: Month)
    requires db.Valid()
    requires forall i | 1 <= i < |History(db.samples, p)| :: MonthOf(History(db.samples, p)[i].at.day) == m
    ensures PointsTotal(RawPoints(History(db.samples, p))) == MonthlyOrZero(db.monthly, p, m)
  {
    var h := History(db.samples, p);
    RawPointsTotal(h);
    MonthUsageOfOneMonth(h, m);
    RollupsMatchHistory(db, p, Day(0, 0, 0), m);
  }

  // ---------------------------------------------------------------------------
  // reset_peer_metrics

  datatype ResetCounts = ResetCounts(deletedSamples: nat, deletedDaily: nat, deletedMonthly: nat)

  function DailyKeysOf(daily: map<DayKey, Totals>, p: int): set<DayKey> {
    set k | k in daily && k.peer == p
  }

  function MonthlyKeysOf(monthly: map<MonthKey, Totals>, p: int): set<MonthKey> {
    set k | k in monthly && k.peer == p
  }

  /** Deleting one peer's samples removes exactly its history. */
  lemma {:induction false} WithoutPeerCount(samples: seq<Sample>, p: int)
    ensures |WithoutPeer(samples, p)| + |History(samples, p)| == |samples|
    decreases |samples|
  {
    if samples != [] {
      WithoutPeerCount(samples[..|samples| - 1], p);
    }
  }

  /** The deleted rows and the remaining rows make up the tables. */
  lemma RollupCounts(daily: map<DayKey, Totals>, monthly: map<MonthKey, Totals>, p: int)
    ensures |DailyWithout(daily, p)| + |DailyKeysOf(daily, p)| == |daily|
    ensures |MonthlyWithout(monthly, p)| + |MonthlyKeysOf(monthly, p)| == |monthly|
  {
    assert |DailyWithout(daily, p)| + |DailyKeysOf(daily, p)| == |daily| by {
      var kept := set k | k in daily && k.peer != p;
      assert DailyWithout(daily, p).Keys == kept;
      assert kept + DailyKeysOf(daily, p) == daily.Keys && kept * DailyKeysOf(daily, p) == {};
      assert |daily.Keys| == |daily|;
      assert |DailyWithout(daily, p).Keys| == |DailyWithout(daily, p)|;
    }
    assert |MonthlyWithout(monthly, p)| + |MonthlyKeysOf(monthly, p)| == |monthly| by {
      var kept := set k | k in monthly && k.peer != p;
      assert MonthlyWithout(monthly, p).Keys == kept;
      assert kept + MonthlyKeysOf(monthly, p) == monthly.Keys && kept * MonthlyKeysOf(monthly, p) == {};
      assert |monthly.Keys| == |monthly|;
      assert |MonthlyWithout(monthly, p).Keys| == |MonthlyWithout(monthly, p)|;
    }
  }

  /** `reset_peer_metrics`: an unknown peer is a 404 and changes nothing;
      otherwise every sample, daily row and monthly row of the peer is
      deleted and the answer counts them. */
  method ResetPeerMetrics(db: Database, p: int) returns (r: Result<ResetCounts, HttpError>)
    requires db.Valid()
    modifies db`samples, db`daily, db`monthly
    ensures db.Valid()
    ensures p !in db.peers ==>
      && r.Failure? && r.error.status == NotFound
      && db.samples == old(db.samples) && db.daily == old(db.daily) && db.monthly == old(db.monthly)
    ensures p in db.peers ==>
      && db.samples == WithoutPeer(old(db.samples), p)
      && db.daily == DailyWithout(old(db.daily), p)
      && db.monthly == MonthlyWithout(old(db.monthly), p)
      && r == Success(ResetCounts(|History(old(db.samples), p)|, |DailyKeysOf(old(db.daily), p)|,
                                  |MonthlyKeysOf(old(db.monthly), p)|))
  {
    if p !in db.peers {
      return Failure(HttpError(NotFound, "peer not found"));
    }
    var counts := ResetCounts(|History(db.samples, p)|, |DailyKeysOf(db.daily, p)|, |MonthlyKeysOf(db.monthly, p)|);
    RollupsAfterReset(db.samples, db.daily, db.monthly, p);
    db.samples, db.daily, db.monthly := WithoutPeer(db.samples, p), DailyWithout(db.daily, p), MonthlyWithout(db.monthly, p);
    assert RollupsConsistent(db.samples, db.daily, db.monthly);
    return Success(counts);
  }

  /** After a reset the peer has no history, no usage and no rollup rows,
      and every other peer's history and monthly sums are as they were. */
  lemma ResetForgetsOnlyThePeer(samples: seq<Sample>, daily: map<DayKey, Totals>,
                                monthly: map<MonthKey, Totals>, p: int, q: int, m: Month)
    ensures History(WithoutPeer(samples, p), p) == []
    ensures DailyKeysOf(DailyWithout(daily, p), p) == {} && MonthlyKeysOf(MonthlyWithout(monthly, p), p) == {}
    ensures q != p ==> History(WithoutPeer(samples, p), q) == History(samples, q)
    ensures q != p ==> DailySum(DailyWithout(daily, p), q, m) == DailySum(daily, q, m)
    ensures q != p ==> MonthlyOrZero(MonthlyWithout(monthly, p), q, m) == MonthlyOrZero(monthly, q, m)
  {
    HistoryWithoutPeer(samples, p, p);
    HistoryWithoutPeer(samples, p, q);
    DailySumDropPeer(daily, p, q, m);
  }
}
