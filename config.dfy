/** The configuration record and the process-wide store that guards it
    (pkg/config/config.go). Saving to disk is a no-op here: the model keeps
    only the in-memory record. */
module Configuration {
  import opened Go

  const PLAN_DAILY: string := "daily"
  const PLAN_INTERVAL: string := "interval"

  /** Every user-settable parameter of the downloader. */
  datatype Config = Config(
    url: string,
    planType: string,         // PLAN_DAILY or PLAN_INTERVAL; anything else never fires
    intervalMinutes: int,     // interval plan: minutes between transfers
    hour: int,                // daily plan: local hour of the transfer
    minute: int,              // daily plan: local minute of the transfer
    speedKB: int,             // rate ceiling in KB/s, 0 for unlimited
    dir: string,              // download directory
    limitMB: int,             // daily cap in MB
    taskEnabled: bool,        // the scheduler acts at all
    dailyLimitEnabled: bool)  // the daily cap is enforced

  /** The record Go's zero value gives before anything is loaded. */
  const ZERO_CONFIG: Config := Config("", "", 0, 0, 0, 0, "", 0, false, false)

  /** The configuration used when no usable file exists: an enabled task on a
      30-minute interval, with no URL yet (so nothing is fetched until one is
      set), no rate ceiling, and the daily cap switched off. */
  function DefaultConfig(): (c: Config)
    ensures c.planType == PLAN_INTERVAL && c.intervalMinutes > 0
    ensures 0 <= c.hour < 24 && 0 <= c.minute < 60
    ensures c.url == "" && c.speedKB == 0
    ensures c.taskEnabled && !c.dailyLimitEnabled && c.limitMB > 0
    ensures c.dir != ""
  {
    Config(
      url := "",
      planType := PLAN_INTERVAL,
      intervalMinutes := 30,
      hour := 3,
      minute := 0,
      speedKB := 0,
      dir := "tmp",
      limitMB := 1024,
      taskEnabled := true,
      dailyLimitEnabled := false)
  }

  /** What opening and decoding the configuration file produced. A decoded
      record is the whole record: merging a partial JSON object into the
      previous value is not modelled. */
  datatype ConfigFile =
    | Missing                            // os.IsNotExist
    | Unreadable(reason: string)         // any other open error
    | Present(decoded: Option<Config>)   // None: the JSON did not decode

  /** The record LoadConfig leaves in place of `current`: defaults for a
      missing or undecodable file, the decoded record when there is one, and
      the old record when the file cannot be opened. */
  function Loaded(current: Config, file: ConfigFile): (c: Config)
    ensures file.Missing? ==> c == DefaultConfig()
    ensures file.Present? && file.decoded.None? ==> c == DefaultConfig()
    ensures file.Present? && file.decoded.Some? ==> c == file.decoded.value
    ensures file.Unreadable? ==> c == current
  {
    match file
    case Missing => DefaultConfig()
    case Unreadable(_) => current
    case Present(None) => DefaultConfig()
    case Present(Some(decoded)) => decoded
  }

  /** The package-level `config` variable with its lock; every exported
      function is one atomic step on `config`. */
  class Store {
    var config: Config

    constructor ()
      ensures config == ZERO_CONFIG
    {
      config := ZERO_CONFIG;
    }

    /** Only an open failure other than "not found" is reported. */
    method LoadConfig(file: ConfigFile) returns (err: Option<string>)
      modifies this
      ensures config == Loaded(old(config), file)
      ensures err.Some? <==> file.Unreadable?
      ensures file.Unreadable? ==> err == Some(file.reason)
    {
      match file {
        case Missing =>
          config := DefaultConfig();
          err := None;
        case Unreadable(reason) =>
          err := Some(reason);
        case Present(decoded) =>
          config := if decoded.Some? then decoded.value else DefaultConfig();
          err := None;
      }
    }

    /** A copy: later updates do not reach a record already handed out. */
    method GetConfig() returns (c: Config)
      ensures c == config
    {
      c := config;
    }

    method UpdateConfig(update: Config -> Config)
      modifies this
      ensures config == update(old(config))
    {
      config := update(config);
    }

    method GetTaskEnabled() returns (enabled: bool)
      ensures enabled == config.taskEnabled
    {
      enabled := config.taskEnabled;
    }

    method SetTaskEnabled(enabled: bool)
      modifies this
      ensures config == old(config).(taskEnabled := enabled)
    {
      config := config.(taskEnabled := enabled);
    }

    method GetDailyLimitEnabled() returns (enabled: bool)
      ensures enabled == config.dailyLimitEnabled
    {
      enabled := config.dailyLimitEnabled;
    }

    method SetDailyLimitEnabled(enabled: bool)
      modifies this
      ensures config == old(config).(dailyLimitEnabled := enabled)
    {
      config := config.(dailyLimitEnabled := enabled);
    }

    method ToggleTaskEnabled() returns (enabled: bool)
      modifies this
      ensures enabled == !old(config).taskEnabled
      ensures config == old(config).(taskEnabled := enabled)
    {
      config := config.(taskEnabled := !config.taskEnabled);
      enabled := config.taskEnabled;
    }

    method ToggleDailyLimitEnabled() returns (enabled: bool)
      modifies this
      ensures enabled == !old(config).dailyLimitEnabled
      ensures config == old(config).(dailyLimitEnabled := enabled)
    {
      config := config.(dailyLimitEnabled := !config.dailyLimitEnabled);
      enabled := config.dailyLimitEnabled;
    }
  }

  /** Toggling a flag twice restores the whole record; the two calls report
      the flipped and then the original value. */
  method ToggleTwice(store: Store) returns (first: bool, second: bool, daily1: bool, daily2: bool)
    modifies store
    ensures first == !old(store.config.taskEnabled) && second == old(store.config.taskEnabled)
    ensures daily1 == !old(store.config.dailyLimitEnabled) && daily2 == old(store.config.dailyLimitEnabled)
    ensures store.config == old(store.config)
  {
    first := store.ToggleTaskEnabled();
    second := store.ToggleTaskEnabled();
    daily1 := store.ToggleDailyLimitEnabled();
    daily2 := store.ToggleDailyLimitEnabled();
  }

  /** A setter followed by the matching getter returns what was set, and
      leaves every other field as it was. */
  method SetThenGet(store: Store, task: bool, daily: bool) returns (gotTask: bool, gotDaily: bool)
    modifies store
    ensures gotTask == task && gotDaily == daily
    ensures store.config == old(store.config).(taskEnabled := task, dailyLimitEnabled := daily)
  {
    store.SetTaskEnabled(task);
    store.SetDailyLimitEnabled(daily);
    gotTask := store.GetTaskEnabled();
    gotDaily := store.GetDailyLimitEnabled();
  }

  /** A snapshot taken with GetConfig is unaffected by a later UpdateConfig. */
  method SnapshotIsolation(store: Store, update: Config -> Config) returns (snapshot: Config, after: Config)
    modifies store
    ensures snapshot == old(store.config)
    ensures after == update(old(store.config))
  {
    snapshot := store.GetConfig();
    store.UpdateConfig(update);
    after := store.GetConfig();
  }
}
