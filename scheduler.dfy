// The polling job: `_poll_once` reads the live counters of every selected
// peer, appends a raw sample per peer found, and adds the growth since the
// peer's previous sample to its daily and monthly rollup rows;
// `ensure_scheduler` and `update_scheduler_interval` choose the job's
// interval.
module Scheduler {
  import opened Wrappers
  import opened PyValues
  import opened ClientBase
  import opened Store

  // ---------------------------------------------------------------------------
  // What one poll records

  /** Selected peers are polled in groups sharing a router and an interface. */
  datatype GroupKey = GroupKey(routerId: int, interface: string)

  function GroupOf(row: PeerRow): GroupKey {
    GroupKey(row.routerId, row.interface)
  }

  /** `{lp.public_key: lp for lp in live_peers}.get(key)`: the last listed peer
      with the key wins. */
  function LiveByKey(live: seq<WGPeer>, key: string): Option<WGPeer>
    decreases |live|
  {
    if live == [] then None
    else if live[|live| - 1].publicKey == key then Some(live[|live| - 1])
    else LiveByKey(live[..|live| - 1], key)
  }

  /** LiveByKey finds a listed peer with the key, none listed after it has
      the key, and it finds nothing only when no listed peer has the key. */
  lemma {:induction false} LiveByKeyIsLast(live: seq<WGPeer>, key: string)
    ensures var r := LiveByKey(live, key);
      && (r.None? <==> forall i | 0 <= i < |live| :: live[i].publicKey != key)
      && (r.Some? ==> exists i | 0 <= i < |live| ::
            && live[i] == r.value && live[i].publicKey == key
            && forall j | i < j < |live| :: live[j].publicKey != key)
    decreases |live|
  {
    if live != [] && live[|live| - 1].publicKey != key {
      var init := live[..|live| - 1];
      LiveByKeyIsLast(init, key);
      if LiveByKey(init, key).Some? {
        var i :| 0 <= i < |init| && init[i] == LiveByKey(init, key).value && init[i].publicKey == key
          && forall j | i < j < |init| :: init[j].publicKey != key;
        assert live[i] == init[i];
        assert forall j | i < j < |live| :: live[j].publicKey != key by {
          forall j | i < j < |live| ensures live[j].publicKey != key {
            if j < |init| {
              assert live[j] == init[j];
            }
          }
        }
      } else {
        assert forall i | 0 <= i < |live| :: live[i].publicKey != key by {
          forall i | 0 <= i < |live| ensures live[i].publicKey != key {
            if i < |init| {
              assert live[i] == init[i];
            }
          }
        }
      }
    }
  }

  /** The peers a router lists for an interface, parsed by the adapter. */
  function GroupListing(fetch: (RouterRow, string) -> Result<seq<Row>, ClientError>,
                        router: RouterRow, iface: string): Result<seq<WGPeer>, ClientError>
  {
    var rows := fetch(router, iface);
    if rows.Failure? then Failure(rows.error) else ListedPeers(rows.value, iface)
  }

  /** The live reading a poll records for peer `p`: none when the peer is
      unknown or not selected, when its router is missing, when listing its
      interface fails, or when its public key is not listed. */
  function PollReading(peers: map<int, PeerRow>, routers: map<int, RouterRow>,
                       fetch: (RouterRow, string) -> Result<seq<Row>, ClientError>, p: int): Option<WGPeer>
  {
    if p !in peers || !peers[p].selected then None
    else
      var row := peers[p];
      if row.routerId !in routers then None
      else
        var live := GroupListing(fetch, routers[row.routerId], row.interface);
        if live.Failure? then None else LiveByKey(live.value, row.publicKey)
  }

  /** The raw sample stored for a reading: the cumulative counters as read. */
  function SampleOf(p: int, lp: WGPeer, now: Instant): Sample {
    Sample(p, now, lp.rxBytes, lp.txBytes, lp.endpoint)
  }

  function AsSamples(p: int, reading: Option<WGPeer>, now: Instant): seq<Sample> {
    match reading
    case None => []
    case Some(lp) => [SampleOf(p, lp, now)]
  }

  /** What one poll appends to peer `p`'s history. */
  function Recorded(peers: map<int, PeerRow>, routers: map<int, RouterRow>,
                    fetch: (RouterRow, string) -> Result<seq<Row>, ClientError>, now: Instant, p: int): seq<Sample>
  {
    AsSamples(p, PollReading(peers, routers, fetch, p), now)
  }

  // ---------------------------------------------------------------------------
  // Properties of one recorded sample

  /** A peer's first sample is only a baseline: no rollup row is created or
      changed. */
  lemma FirstSampleIsBaseline(samples: seq<Sample>, daily: map<DayKey, Totals>,
                              monthly: map<MonthKey, Totals>, s: Sample)
    requires History(samples, s.peerId) == []
    ensures DailyAfter(samples, daily, s) == daily
    ensures MonthlyAfter(samples, monthly, s) == monthly
  {
  }

  /** A sample moves only its own peer's rows for its own day and month, and
      moves both by the same delta: the growth of each counter since the
      peer's latest sample, or 0 where the counter went down. */
  lemma SampleMovesOwnBuckets(samples: seq<Sample>, daily: map<DayKey, Totals>,
                              monthly: map<MonthKey, Totals>, s: Sample, k: DayKey, mk: MonthKey)
    requires History(samples, s.peerId) != []
    ensures var prev := History(samples, s.peerId)[|History(samples, s.peerId)| - 1];
      var delta := Totals(Clamp(prev.rx, s.rx), Clamp(prev.tx, s.tx));
      var daily2 := DailyAfter(samples, daily, s);
      var monthly2 := MonthlyAfter(samples, monthly, s);
      && (k != DayKey(s.peerId, s.at.day) ==> (k in daily2 <==> k in daily) && (k in daily ==> daily2[k] == daily[k]))
      && (mk != MonthKey(s.peerId, MonthOf(s.at.day)) ==>
            (mk in monthly2 <==> mk in monthly) && (mk in monthly ==> monthly2[mk] == monthly[mk]))
      && (delta != Zero ==>
            && DayKey(s.peerId, s.at.day) in daily2
            && daily2[DayKey(s.peerId, s.at.day)]
               == Add(if DayKey(s.peerId, s.at.day) in daily then daily[DayKey(s.peerId, s.at.day)] else Zero, delta)
            && monthly2[MonthKey(s.peerId, MonthOf(s.at.day))]
               == Add(MonthlyOrZero(monthly, s.peerId, MonthOf(s.at.day)), delta))
      && (delta == Zero ==> daily2 == daily && monthly2 == monthly)
  {
  }

  // ---------------------------------------------------------------------------
  // The poll

  /** Records one live reading for peer `p`: appends the raw sample, then
      adds the delta against the peer's latest sample to the day's and the
      month's rows, skipping the upserts when both deltas are 0. */
  method RecordReading(db: Database, p: int, lp: WGPeer, now: Instant)
    requires db.Valid()
    modifies db`samples, db`daily, db`monthly
    ensures db.Valid()
    ensures var s := SampleOf(p, lp, now);
      && db.samples == old(db.samples) + [s]
      && db.daily == DailyAfter(old(db.samples), old(db.daily), s)
      && db.monthly == MonthlyAfter(old(db.samples), old(db.monthly), s)
  {
    var s := SampleOf(p, lp, now);
    RollupsAfterSample(db.samples, db.daily, db.monthly, s);
    var daily, monthly := RollupsWithReading(db.samples, db.daily, db.monthly, p, lp, now);
    db.samples, db.daily, db.monthly := db.samples + [s], daily, monthly;
    assert RollupsConsistent(db.samples, db.daily, db.monthly);
  }

  /** The rollup upserts of `_poll_once` for one reading: each counter's
      delta against the peer's latest sample, no upsert when both are 0,
      otherwise the day's and the month's rows created with the delta or
      incremented by it. */
  method RollupsWithReading(samples: seq<Sample>, daily0: map<DayKey, Totals>, monthly0: map<MonthKey, Totals>,
                            p: int, lp: WGPeer, now: Instant)
    returns (daily: map<DayKey, Totals>, monthly: map<MonthKey, Totals>)
    ensures daily == DailyAfter(samples, daily0, SampleOf(p, lp, now))
    ensures monthly == MonthlyAfter(samples, monthly0, SampleOf(p, lp, now))
  {
    var h := History(samples, p);
    var deltaRx := 0;
    var deltaTx := 0;
    if h != [] {
      var last := h[|h| - 1];
      if lp.rxBytes >= last.rx {
        deltaRx := lp.rxBytes - last.rx;
      }
      if lp.txBytes >= last.tx {
        deltaTx := lp.txBytes - last.tx;
      }
    }
    assert Totals(deltaRx, deltaTx) == NextDelta(h, SampleOf(p, lp, now));
    daily, monthly := daily0, monthly0;
    if deltaRx == 0 && deltaTx == 0 {
      return;
    }
    var delta := Totals(deltaRx, deltaTx);
    var dk := DayKey(p, now.day);
    if dk !in daily {
      daily := daily[dk := delta];
    } else {
      daily := daily[dk := Add(daily[dk], delta)];
    }
    var mk := MonthKey(p, MonthOf(now.day));
    if mk !in monthly {
      monthly := monthly[mk := delta];
    } else {
      monthly := monthly[mk := Add(monthly[mk], delta)];
    }
  }

  predicate NoDuplicates(ids: seq<int>) {
    forall i, j | 0 <= i < j < |ids| :: ids[i] != ids[j]
  }

  /** The inner loop of `_poll_once` for one group whose listing succeeded:
      each peer whose public key is listed gets one sample; the others get
      nothing. */
  method PollGroup(db: Database, now: Instant, ids: seq<int>, live: seq<WGPeer>)
    requires db.Valid()
    requires NoDuplicates(ids)
    requires forall i | 0 <= i < |ids| :: ids[i] in db.peers
    modifies db`samples, db`daily, db`monthly
    ensures db.Valid()
    ensures forall p ::
              History(db.samples, p) == History(old(db.samples), p)
                + (if p in ids then AsSamples(p, LiveByKey(live, db.peers[p].publicKey), now) else [])
  {
    var liveByPub: map<string, WGPeer> := map[];
    for i := 0 to |live|
      invariant forall key :: LiveByKey(live[..i], key) == if key in liveByPub then Some(liveByPub[key]) else None
    {
      assert live[..i + 1][..i] == live[..i];
      liveByPub := liveByPub[live[i].publicKey := live[i]];
    }
    assert live[..|live|] == live;
    for j := 0 to |ids|
      invariant db.Valid()
      invariant forall p ::
                  History(db.samples, p) == History(old(db.samples), p)
                    + (if p in ids[..j] then AsSamples(p, LiveByKey(live, db.peers[p].publicKey), now) else [])
    {
      var p := ids[j];
      assert p !in ids[..j];
      assert forall q :: q in ids[..j + 1] <==> q in ids[..j] || q == p;
      var key := db.peers[p].publicKey;
      if key in liveByPub {
        ghost var before := db.samples;
        RecordReading(db, p, liveByPub[key], now);
        forall q ensures History(db.samples, q) == History(before, q) + (if q == p then [SampleOf(p, liveByPub[key], now)] else []) {
          HistoryAppend(before, SampleOf(p, liveByPub[key], now), q);
        }
      }
    }
    assert ids[..|ids|] == ids;
  }

  /** `_poll_once`: every selected peer whose router is known, whose
      interface listing succeeds and whose public key is listed gets exactly
      one sample holding its cumulative counters; no other peer gets
      anything, and routers, peers, quotas and settings are left alone. */
  method PollOnce(db: Database, now: Instant, fetch: (RouterRow, string) -> Result<seq<Row>, ClientError>)
    requires db.Valid()
    modifies db`samples, db`daily, db`monthly
    ensures db.Valid()
    ensures forall p ::
              History(db.samples, p) == History(old(db.samples), p) + Recorded(db.peers, db.routers, fetch, now, p)
  {
    var peers, routers := db.peers, db.routers;
    var selected := set id | id in peers && peers[id].selected;
    if selected == {} {
      forall p ensures Recorded(peers, routers, fetch, now, p) == [] {
        assert p !in selected;
      }
      return;
    }
    var groups := GroupSelected(peers, selected);
    // Poll the groups, looking each router up once.
    var routerCache: map<int, RouterRow> := map[];
    var todo := groups.Keys;
    while todo != {}
      invariant db.Valid() && db.peers == peers && db.routers == routers
      invariant todo <= groups.Keys
      invariant forall id | id in routerCache :: id in routers && routerCache[id] == routers[id]
      invariant forall p ::
                  History(db.samples, p) == History(old(db.samples), p)
                    + (if p in selected && GroupOf(peers[p]) !in todo then Recorded(peers, routers, fetch, now, p) else [])
      decreases todo
    {
      var g :| g in todo;
      ghost var before := db.samples;
      routerCache := PollRouterGroup(db, now, fetch, g, groups[g], routerCache);
      forall p
        ensures History(db.samples, p) == History(old(db.samples), p)
                + (if p in selected && GroupOf(peers[p]) !in todo - {g} then Recorded(peers, routers, fetch, now, p) else [])
      {
        var earlier := p in selected && GroupOf(peers[p]) !in todo;
        var inGroup := p in groups[g];
        if inGroup {
          var i :| 0 <= i < |groups[g]| && groups[g][i] == p;
        }
        assert (earlier || inGroup) <==> p in selected && GroupOf(peers[p]) !in todo - {g};
        AppendOneOf(History(old(db.samples), p), History(before, p), History(db.samples, p),
                    Recorded(peers, routers, fetch, now, p), earlier, inGroup);
      }
      todo := todo - {g};
    }
  }

  /** Two rounds of appending, of which at most one appends `r`. */
  lemma AppendOneOf<T>(h0: seq<T>, h1: seq<T>, h2: seq<T>, r: seq<T>, a: bool, b: bool)
    requires !(a && b)
    requires h1 == h0 + (if a then r else [])
    requires h2 == h1 + (if b then r else [])
    ensures h2 == h0 + (if a || b then r else [])
  {
    if !a && !b {
      assert h1 == h0 && h2 == h1;
    } else if a {
      assert h2 == h1;
    } else {
      assert h1 == h0;
    }
  }

  lemma HasMember(s: set<int>)
    requires s != {}
    ensures exists x :: x in s
  {
    if forall x :: x !in s {
      assert false;
    }
  }

  /** `groups` splits the `selected` peers by (router, interface): every
      selected peer is listed once, under its own group, and nothing else is
      listed. */
  predicate IsGrouping(peers: map<int, PeerRow>, selected: set<int>, groups: map<GroupKey, seq<int>>)
    requires selected <= peers.Keys
  {
    && (forall g | g in groups :: NoDuplicates(groups[g]))
    && (forall g, i | g in groups && 0 <= i < |groups[g]| ::
          groups[g][i] in selected && GroupOf(peers[groups[g][i]]) == g)
    && (forall q | q in selected :: GroupOf(peers[q]) in groups && q in groups[GroupOf(peers[q])])
  }

  /** The `groups.setdefault(...).append(p)` loop of `_poll_once`. */
  method GroupSelected(peers: map<int, PeerRow>, selected: set<int>) returns (groups: map<GroupKey, seq<int>>)
    requires selected <= peers.Keys
    ensures IsGrouping(peers, selected, groups)
  {
    groups := map[];
    var pending := selected;
    while pending != {}
      invariant pending <= selected
      invariant forall g | g in groups :: NoDuplicates(groups[g])
      invariant forall g, i | g in groups && 0 <= i < |groups[g]| ::
        groups[g][i] in selected && groups[g][i] !in pending && GroupOf(peers[groups[g][i]]) == g
      invariant forall q | q in selected && q !in pending ::
        GroupOf(peers[q]) in groups && q in groups[GroupOf(peers[q])]
      decreases pending
    {
      HasMember(pending);
      var id :| id in pending;
      var g := GroupOf(peers[id]);
      var members := if g in groups then groups[g] else [];
      groups := groups[g := members + [id]];
      pending := pending - {id};
    }
  }

  /** One group of `_poll_once`: the router comes from the cache or the
      database (the group is skipped when it is missing), the interface is
      listed (the group is skipped when that fails), and each peer of the
      group is recorded as PollReading says. */
  method PollRouterGroup(db: Database, now: Instant, fetch: (RouterRow, string) -> Result<seq<Row>, ClientError>,
                         g: GroupKey, ids: seq<int>, routerCache: map<int, RouterRow>)
    returns (cache: map<int, RouterRow>)
    requires db.Valid()
    requires NoDuplicates(ids)
    requires forall i | 0 <= i < |ids| ::
      ids[i] in db.peers && db.peers[ids[i]].selected && GroupOf(db.peers[ids[i]]) == g
    requires forall id | id in routerCache :: id in db.routers && routerCache[id] == db.routers[id]
    modifies db`samples, db`daily, db`monthly
    ensures db.Valid()
    ensures forall id | id in cache :: id in db.routers && cache[id] == db.routers[id]
    ensures forall p ::
              History(db.samples, p) == History(old(db.samples), p)
                + (if p in ids then Recorded(db.peers, db.routers, fetch, now, p) else [])
  {
    cache := routerCache;
    var router: RouterRow;
    if g.routerId in cache {
      router := cache[g.routerId];
    } else {
      if g.routerId !in db.routers {
        return;
      }
      router := db.routers[g.routerId];
      cache := cache[g.routerId := router];
    }
    var live := ListWireguardPeers(fetch(router, g.interface), g.interface);
    assert live == GroupListing(fetch, router, g.interface);
    if live.Failure? {
      return;
    }
    PollGroup(db, now, ids, live.value);
  }

  // ---------------------------------------------------------------------------
  // The polling job's interval

  const PollIntervalKey := "poll_interval_seconds"

  /** The interval `ensure_scheduler` starts the job with: the persisted
      value when it is all digits and positive, the configured default
      otherwise. */
  function PersistedInterval(kv: map<string, string>, default: int): int {
    if PollIntervalKey in kv && IsDigitString(kv[PollIntervalKey]) && DigitsValue(kv[PollIntervalKey]) > 0
    then DigitsValue(kv[PollIntervalKey])
    else default
  }

  /** The value the settings handler persists, `str(n)`, is read back as n
      when positive; 0 and negative values fall back to the default. */
  lemma PersistedIntervalRoundTrip(kv: map<string, string>, n: int, default: int)
    ensures PersistedInterval(kv[PollIntervalKey := IntStr(n)], default) == if n > 0 then n else default
  {
    var t := IntStr(n);
    if n >= 0 {
      NatStrValue(n);
    } else {
      assert t[0] == '-';
      assert !IsDigitString(t);
    }
  }

  /** The background scheduler: absent until started, then holding the
      polling job with its interval in seconds. */
  class SchedulerState {
    var job: Option<int>

    constructor ()
      ensures job == None
    {
      job := None;
    }

    /** `ensure_scheduler`: starts the job once, with the persisted interval;
        a started scheduler is left as it is. */
    method EnsureScheduler(kv: map<string, string>, default: int)
      modifies this
      ensures old(job).Some? ==> job == old(job)
      ensures old(job).None? ==> job == Some(PersistedInterval(kv, default))
    {
      if job == None {
        var interval := default;
        if PollIntervalKey in kv {
          var v := kv[PollIntervalKey];
          if IsDigitString(v) && DigitsValue(v) > 0 {
            interval := DigitsValue(v);
          }
        }
        job := Some(interval);
      }
    }

    /** `update_scheduler_interval`: reschedules (or re-creates) the job with
        the new interval; ignored before the scheduler is started and for a
        non-positive interval. */
    method UpdateSchedulerInterval(seconds: int)
      modifies this
      ensures old(job).None? || seconds <= 0 ==> job == old(job)
      ensures old(job).Some? && seconds > 0 ==> job == Some(seconds)
    {
      if job == None || seconds <= 0 {
        return;
      }
      job := Some(seconds);
    }
  }
}
