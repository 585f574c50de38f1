// GET and PUT /api/settings: the runtime settings plus five display
// preferences that only live in the settings key-value table.
module SettingsRoutes {
  import opened Wrappers
  import opened PyValues
  import opened Store
  import Scheduler

  /** The in-memory application settings the handlers read and update. */
  datatype RuntimeSettings = RuntimeSettings(
    pollIntervalSeconds: int, onlineThresholdSeconds: int, monthlyResetDay: int, timezone: string)

  /** The configured defaults. */
  const DefaultRuntime := RuntimeSettings(30, 15, 1, "UTC")

  /** The settings document the two handlers exchange. */
  datatype SettingsDoc = SettingsDoc(
    pollIntervalSeconds: int, onlineThresholdSeconds: int, monthlyResetDay: int, timezone: string,
    showKindPills: bool, showHwStats: bool, dashboardRefreshSeconds: int,
    peerDefaultScopeUnit: string, peerDefaultScopeValue: int)

  const TrueSettingWords: set<string> := {"1", "true", "yes", "on"}
  const ScopeUnits: set<string> := {"minutes", "hours", "days"}

  /** A persisted boolean preference: true when absent, otherwise true
      exactly when its lower-cased text is one of the true words. */
  function BoolSetting(kv: map<string, string>, key: string): bool {
    if key in kv then Lower(kv[key]) in TrueSettingWords else true
  }

  /** A persisted integer preference: its value when `int()` accepts the
      text, the default otherwise. */
  function IntSetting(kv: map<string, string>, key: string, default: int): int {
    if key in kv && ParseInt(kv[key]).Some? then ParseInt(kv[key]).value else default
  }

  /** The persisted scope unit when it is one of the three units, "days"
      otherwise. */
  function UnitSetting(kv: map<string, string>): string {
    if "peer_default_scope_unit" in kv && kv["peer_default_scope_unit"] in ScopeUnits
    then kv["peer_default_scope_unit"] else "days"
  }

  /** What GET /api/settings answers: the runtime settings, overlaid with
      the persisted preferences that read correctly. */
  function SettingsOf(kv: map<string, string>, rt: RuntimeSettings): SettingsDoc {
    SettingsDoc(rt.pollIntervalSeconds, rt.onlineThresholdSeconds, rt.monthlyResetDay, rt.timezone,
                BoolSetting(kv, "show_kind_pills"), BoolSetting(kv, "show_hw_stats"),
                IntSetting(kv, "dashboard_refresh_seconds", 30), UnitSetting(kv),
                IntSetting(kv, "peer_default_scope_value", 14))
  }

  const OverlayKeys: seq<string> := [
    "show_kind_pills", "show_hw_stats", "dashboard_refresh_seconds",
    "peer_default_scope_unit", "peer_default_scope_value"]

  /** `get_settings`: starts from the runtime settings and the built-in
      preference defaults, then walks the five preference keys, skipping a
      key that is not stored, an integer that does not parse and a unit
      outside the three accepted ones. */
  method GetSettings(kv: map<string, string>, rt: RuntimeSettings) returns (doc: SettingsDoc)
    ensures doc == SettingsOf(kv, rt)
  {
    doc := SettingsDoc(rt.pollIntervalSeconds, rt.onlineThresholdSeconds, rt.monthlyResetDay, rt.timezone,
                       true, true, 30, "days", 14);
    for i := 0 to |OverlayKeys|
      invariant doc.pollIntervalSeconds == rt.pollIntervalSeconds
      invariant doc.onlineThresholdSeconds == rt.onlineThresholdSeconds
      invariant doc.monthlyResetDay == rt.monthlyResetDay && doc.timezone == rt.timezone
      invariant doc.showKindPills == if i > 0 then BoolSetting(kv, "show_kind_pills") else true
      invariant doc.showHwStats == if i > 1 then BoolSetting(kv, "show_hw_stats") else true
      invariant doc.dashboardRefreshSeconds == if i > 2 then IntSetting(kv, "dashboard_refresh_seconds", 30) else 30
      invariant doc.peerDefaultScopeUnit == if i > 3 then UnitSetting(kv) else "days"
      invariant doc.peerDefaultScopeValue == if i > 4 then IntSetting(kv, "peer_default_scope_value", 14) else 14
    {
      var key := OverlayKeys[i];
      if key !in kv {
        continue;
      }
      var value := kv[key];
      if key == "dashboard_refresh_seconds" || key == "peer_default_scope_value" {
        var n := ParseInt(value);
        if n.None? {
          continue;
        }
        if key == "dashboard_refresh_seconds" {
          doc := doc.(dashboardRefreshSeconds := n.value);
        } else {
          doc := doc.(peerDefaultScopeValue := n.value);
        }
      } else if key == "show_kind_pills" || key == "show_hw_stats" {
        var on := Lower(value) in TrueSettingWords;
        if key == "show_kind_pills" {
          doc := doc.(showKindPills := on);
        } else {
          doc := doc.(showHwStats := on);
        }
      } else if key == "peer_default_scope_unit" {
        if value in ScopeUnits {
          doc := doc.(peerDefaultScopeUnit := value);
        }
      }
    }
  }

  /** `str(b)` for a boolean. */
  function BoolStr(b: bool): string {
    if b then "True" else "False"
  }

  /** The settings table after `put_settings`: every field of the document
      stored under its own name as `str(value)`. */
  function SettingsWritten(kv: map<string, string>, doc: SettingsDoc): map<string, string> {
    kv["poll_interval_seconds" := IntStr(doc.pollIntervalSeconds)]
      ["online_threshold_seconds" := IntStr(doc.onlineThresholdSeconds)]
      ["monthly_reset_day" := IntStr(doc.monthlyResetDay)]
      ["timezone" := doc.timezone]
      ["show_kind_pills" := BoolStr(doc.showKindPills)]
      ["show_hw_stats" := BoolStr(doc.showHwStats)]
      ["dashboard_refresh_seconds" := IntStr(doc.dashboardRefreshSeconds)]
      ["peer_default_scope_unit" := doc.peerDefaultScopeUnit]
      ["peer_default_scope_value" := IntStr(doc.peerDefaultScopeValue)]
  }

  /** The runtime settings after `put_settings`. */
  function RuntimeOf(doc: SettingsDoc): RuntimeSettings {
    RuntimeSettings(doc.pollIntervalSeconds, doc.onlineThresholdSeconds, doc.monthlyResetDay, doc.timezone)
  }

  lemma BoolStrReadBack(b: bool)
    ensures (Lower(BoolStr(b)) in TrueSettingWords) == b
  {
    if b {
      assert Lower("True") == "true";
    } else {
      assert Lower("False") == "false";
    }
  }

  /** Reading the settings back after storing a document gives the document,
      except that a scope unit outside the three accepted ones reads back as
      "days". */
  lemma SettingsRoundTrip(kv: map<string, string>, doc: SettingsDoc)
    ensures SettingsOf(SettingsWritten(kv, doc), RuntimeOf(doc))
         == if doc.peerDefaultScopeUnit in ScopeUnits then doc else doc.(peerDefaultScopeUnit := "days")
  {
    var kv2 := SettingsWritten(kv, doc);
    BoolStrReadBack(doc.showKindPills);
    BoolStrReadBack(doc.showHwStats);
    IntStrRoundTrip(doc.dashboardRefreshSeconds);
    IntStrRoundTrip(doc.peerDefaultScopeValue);
    assert kv2["show_kind_pills"] == BoolStr(doc.showKindPills);
    assert kv2["show_hw_stats"] == BoolStr(doc.showHwStats);
    assert kv2["dashboard_refresh_seconds"] == IntStr(doc.dashboardRefreshSeconds);
    assert kv2["peer_default_scope_value"] == IntStr(doc.peerDefaultScopeValue);
    assert kv2["peer_default_scope_unit"] == doc.peerDefaultScopeUnit;
    assert BoolSetting(kv2, "show_kind_pills") == doc.showKindPills;
    assert BoolSetting(kv2, "show_hw_stats") == doc.showHwStats;
    assert IntSetting(kv2, "dashboard_refresh_seconds", 30) == doc.dashboardRefreshSeconds;
    assert IntSetting(kv2, "peer_default_scope_value", 14) == doc.peerDefaultScopeValue;
  }

  /** The poll interval stored by `put_settings` is the one the scheduler
      starts with next time, when positive. */
  lemma StoredIntervalStartsScheduler(kv: map<string, string>, doc: SettingsDoc, default: int)
    ensures Scheduler.PersistedInterval(SettingsWritten(kv, doc), default)
         == if doc.pollIntervalSeconds > 0 then doc.pollIntervalSeconds else default
  {
    var kv2 := SettingsWritten(kv, doc);
    var kv1 := kv2["poll_interval_seconds" := IntStr(doc.pollIntervalSeconds)];
    assert kv1 == kv2;
    Scheduler.PersistedIntervalRoundTrip(kv2, doc.pollIntervalSeconds, default);
  }

  /** `put_settings`: stores every field, updates the runtime settings and
      hot-reloads the polling interval. */
  method PutSettings(db: Database, sched: Scheduler.SchedulerState, doc: SettingsDoc) returns (rt: RuntimeSettings)
    requires db.Valid()
    modifies db`kv, sched
    ensures db.Valid()
    ensures db.kv == SettingsWritten(old(db.kv), doc)
    ensures rt == RuntimeOf(doc)
    ensures old(sched.job).None? || doc.pollIntervalSeconds <= 0 ==> sched.job == old(sched.job)
    ensures old(sched.job).Some? && doc.pollIntervalSeconds > 0 ==> sched.job == Some(doc.pollIntervalSeconds)
  {
    db.kv := SettingsWritten(db.kv, doc);
    rt := RuntimeOf(doc);
    sched.UpdateSchedulerInterval(doc.pollIntervalSeconds);
  }
}
