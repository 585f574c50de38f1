// GET and PATCH /api/peers/{id}/quota: a peer's monthly limit and reset day
// (the quotas table), its validity window (two settings entries per peer)
// and its usage in the current month (the sum of its daily rows).
module QuotaRoutes {
  import opened Wrappers
  import opened PyValues
  import opened Store

  /** The settings keys of a peer's validity window. */
  function ValidFromKey(p: int): string {
    "quota_valid_from:" + IntStr(p)
  }

  function ValidUntilKey(p: int): string {
    "quota_valid_until:" + IntStr(p)
  }

  /** No two peers, and no two ends of a window, share a settings key. */
  lemma QuotaKeysDistinct(p: int, q: int)
    ensures ValidFromKey(p) != ValidUntilKey(q)
    ensures ValidFromKey(p) == ValidFromKey(q) <==> p == q
    ensures ValidUntilKey(p) == ValidUntilKey(q) <==> p == q
  {
    assert ValidFromKey(p)[12] == 'f' && ValidUntilKey(q)[12] == 'u';
    var fp, fq := ValidFromKey(p), ValidFromKey(q);
    if fp == fq {
      var n := |"quota_valid_from:"|;
      assert fp[n..] == IntStr(p) && fq[n..] == IntStr(q);
      IntStrInjective(p, q);
    }
    var up, uq := ValidUntilKey(p), ValidUntilKey(q);
    if up == uq {
      var n := |"quota_valid_until:"|;
      assert up[n..] == IntStr(p) && uq[n..] == IntStr(q);
      IntStrInjective(p, q);
    }
  }

  function Lookup(kv: map<string, string>, key: string): Option<string> {
    if key in kv then Some(kv[key]) else None
  }

  /** The answer of the quota endpoints. */
  datatype QuotaView = QuotaView(
    monthlyLimitBytes: Option<int>, resetDay: int,
    validFrom: Option<string>, validUntil: Option<string>, used: Totals)

  /** The limit shown: none without a quota row or with a zero limit. */
  function LimitShown(quotas: map<int, QuotaRow>, p: int): (r: Option<int>)
    ensures r.None? <==> p !in quotas || quotas[p].monthlyLimitBytes == 0
    ensures r.Some? ==> r.value == quotas[p].monthlyLimitBytes
  {
    if p in quotas && quotas[p].monthlyLimitBytes != 0 then Some(quotas[p].monthlyLimitBytes) else None
  }

  /** The reset day shown: the row's, or the configured default. */
  function ResetDayShown(quotas: map<int, QuotaRow>, p: int, defaultResetDay: int): (r: int)
    ensures p in quotas ==> r == quotas[p].resetDay
    ensures p !in quotas ==> r == defaultResetDay
  {
    if p in quotas then quotas[p].resetDay else defaultResetDay
  }

  /** The view of a peer's quota, given its usage this month. */
  function ViewOf(quotas: map<int, QuotaRow>, kv: map<string, string>, p: int, defaultResetDay: int,
                  used: Totals): QuotaView
  {
    QuotaView(LimitShown(quotas, p), ResetDayShown(quotas, p, defaultResetDay),
              Lookup(kv, ValidFromKey(p)), Lookup(kv, ValidUntilKey(p)), used)
  }

  /** The month's usage query: adds up the peer's daily rows of the month. */
  method MonthUsed(daily: map<DayKey, Totals>, p: int, m: Month) returns (used: Totals)
    ensures used == DailySum(daily, p, m)
  {
    var keys := DaysIn(daily, p, m);
    ghost var all := keys;
    used := Zero;
    while keys != {}
      invariant keys <= daily.Keys
      invariant used.rx + SumOver(daily, keys).rx == SumOver(daily, all).rx
      invariant used.tx + SumOver(daily, keys).tx == SumOver(daily, all).tx
      decreases keys
    {
      var k :| k in keys;
      SumOverRemove(daily, keys, k);
      used := Add(used, daily[k]);
      keys := keys - {k};
    }
  }

  /** In a valid database the month's daily rows add up to the monthly row
      and to the usage the peer's samples attribute to the month. */
  lemma MonthUsedIsMonthly(db: Database, p: int, m: Month)
    requires db.Valid()
    ensures DailySum(db.daily, p, m) == MonthlyOrZero(db.monthly, p, m)
    ensures DailySum(db.daily, p, m) == MonthUsage(History(db.samples, p), m)
  {
    RollupsMatchHistory(db, p, Day(m.year, m.month, 1), m);
  }

  /** `get_peer_quota`: the limit, reset day and window as stored, and the
      sum of the peer's daily rows of the month `now` falls in. */
  method GetPeerQuota(db: Database, p: int, defaultResetDay: int, now: Instant) returns (view: QuotaView)
    ensures view == ViewOf(db.quotas, db.kv, p, defaultResetDay, DailySum(db.daily, p, MonthOf(now.day)))
  {
    var used := MonthUsed(db.daily, p, MonthOf(now.day));
    view := QuotaView(LimitShown(db.quotas, p), ResetDayShown(db.quotas, p, defaultResetDay),
                      Lookup(db.kv, ValidFromKey(p)), Lookup(db.kv, ValidUntilKey(p)), used);
  }

  /** The body of PATCH /quota; every field is optional. */
  datatype QuotaUpdate = QuotaUpdate(monthlyLimitBytes: Option<int>, validFrom: Option<string>,
                                     validUntil: Option<string>)

  /** The quota row after a patch: created with no limit and the default
      reset day when missing, its limit replaced when one is given. */
  function PatchedRow(quotas: map<int, QuotaRow>, p: int, limit: Option<int>, defaultResetDay: int): QuotaRow {
    var q := if p in quotas then quotas[p] else QuotaRow(0, defaultResetDay);
    if limit.Some? then q.(monthlyLimitBytes := limit.value) else q
  }

  /** One end of the window after a patch: an empty string deletes the
      entry, any other string stores it, no value leaves it alone. */
  function PatchedEntry(kv: map<string, string>, key: string, value: Option<string>): map<string, string> {
    match value
    case None => kv
    case Some(s) => if s == "" then kv - {key} else kv[key := s]
  }

  /** An end of the window reads back as patched, and no other entry
      changes. */
  lemma PatchedEntryReadsBack(kv: map<string, string>, key: string, value: Option<string>, other: string)
    ensures Lookup(PatchedEntry(kv, key, value), key)
         == match value
            case None => Lookup(kv, key)
            case Some(s) => if s == "" then None else Some(s)
    ensures other != key ==> Lookup(PatchedEntry(kv, key, value), other) == Lookup(kv, other)
  {
  }

  function PatchedKv(kv: map<string, string>, p: int, dto: QuotaUpdate): map<string, string> {
    PatchedEntry(PatchedEntry(kv, ValidFromKey(p), dto.validFrom), ValidUntilKey(p), dto.validUntil)
  }

  /** `patch_peer_quota`: upserts the quota row, stores or deletes the two
      window entries and answers the quota as `get_peer_quota` reads it
      afterwards. */
  method PatchPeerQuota(db: Database, p: int, dto: QuotaUpdate, defaultResetDay: int, now: Instant)
    returns (view: QuotaView)
    requires db.Valid()
    modifies db`quotas, db`kv
    ensures db.Valid()
    ensures db.quotas == old(db.quotas)[p := PatchedRow(old(db.quotas), p, dto.monthlyLimitBytes, defaultResetDay)]
    ensures db.kv == PatchedKv(old(db.kv), p, dto)
    ensures view == ViewOf(db.quotas, db.kv, p, defaultResetDay, DailySum(db.daily, p, MonthOf(now.day)))
  {
    var q := if p in db.quotas then db.quotas[p] else QuotaRow(0, defaultResetDay);
    if dto.monthlyLimitBytes.Some? {
      q := q.(monthlyLimitBytes := dto.monthlyLimitBytes.value);
    }
    var kv := db.kv;
    if dto.validFrom.Some? {
      if dto.validFrom.value == "" {
        kv := kv - {ValidFromKey(p)};
      } else {
        kv := kv[ValidFromKey(p) := dto.validFrom.value];
      }
    }
    if dto.validUntil.Some? {
      if dto.validUntil.value == "" {
        kv := kv - {ValidUntilKey(p)};
      } else {
        kv := kv[ValidUntilKey(p) := dto.validUntil.value];
      }
    }
    db.PutQuotasAndKv(db.quotas[p := q], kv);
    view := GetPeerQuota(db, p, defaultResetDay, now);
  }

  /** What a patch shows when read back: a given limit (none for zero), the
      kept or default reset day, the window ends as patched, and the same
      usage; nothing of another peer's quota changes. */
  lemma PatchReadsBack(quotas: map<int, QuotaRow>, kv: map<string, string>, p: int, dto: QuotaUpdate,
                       defaultResetDay: int, used: Totals, q: int)
    ensures var v := ViewOf(quotas[p := PatchedRow(quotas, p, dto.monthlyLimitBytes, defaultResetDay)],
                            PatchedKv(kv, p, dto), p, defaultResetDay, used);
      && (dto.monthlyLimitBytes.Some? ==>
            v.monthlyLimitBytes == if dto.monthlyLimitBytes.value == 0 then None else dto.monthlyLimitBytes)
      && (dto.monthlyLimitBytes.None? ==> v.monthlyLimitBytes == LimitShown(quotas, p))
      && v.resetDay == ResetDayShown(quotas, p, defaultResetDay)
      && v.validFrom == (match dto.validFrom
                         case None => Lookup(kv, ValidFromKey(p))
                         case Some(s) => if s == "" then None else Some(s))
      && v.validUntil == (match dto.validUntil
                          case None => Lookup(kv, ValidUntilKey(p))
                          case Some(s) => if s == "" then None else Some(s))
      && v.used == used
    ensures q != p ==>
      ViewOf(quotas[p := PatchedRow(quotas, p, dto.monthlyLimitBytes, defaultResetDay)],
             PatchedKv(kv, p, dto), q, defaultResetDay, used)
      == ViewOf(quotas, kv, q, defaultResetDay, used)
  {
    var kv1 := PatchedEntry(kv, ValidFromKey(p), dto.validFrom);
    QuotaKeysDistinct(p, p);
    QuotaKeysDistinct(p, q);
    QuotaKeysDistinct(q, p);
    PatchedEntryReadsBack(kv, ValidFromKey(p), dto.validFrom, ValidUntilKey(p));
    PatchedEntryReadsBack(kv1, ValidUntilKey(p), dto.validUntil, ValidFromKey(p));
    PatchedEntryReadsBack(kv, ValidFromKey(p), dto.validFrom, ValidFromKey(q));
    PatchedEntryReadsBack(kv, ValidFromKey(p), dto.validFrom, ValidUntilKey(q));
    PatchedEntryReadsBack(kv1, ValidUntilKey(p), dto.validUntil, ValidFromKey(q));
    PatchedEntryReadsBack(kv1, ValidUntilKey(p), dto.validUntil, ValidUntilKey(q));
  }
}
