/** The shared runtime state of the downloader (pkg/docker/state.go): the
    current progress record, the task status, the usage counters and the
    cancellation handle of the transfer in flight. Each exported Go function
    takes a lock for its whole body, so each is one atomic step here;
    `saveStats` is a no-op on the model state. */
module State {
  import opened Go
  import opened Configuration

  /** The task status labels the code uses. */
  const STATUS_IDLE: string := "空闲"
  const STATUS_DOWNLOADING: string := "下载中"
  const STATUS_FAILED: string := "失败"

  const BYTES_PER_MIB: int := 1024 * 1024

  /** The single progress record, overwritten by every sample. */
  datatype DownloadProgress = DownloadProgress(percent: int, speed: int, size: int, status: string)

  /** Usage counters. `lastStatDay` and `lastStatMonth` are the day of the
      month and the month (1..12) when the counters were last rolled over;
      they are not persisted. */
  datatype Stats = Stats(
    lastDownload: string,
    lastFile: string,
    message: string,
    dailyDownloadedMB: int,
    monthlyDownloadedMB: int,
    lastStatDay: int,
    lastStatMonth: int)

  /** The aggregate view handed to the web layer. */
  datatype AppStatus = AppStatus(config: Config, stats: Stats, taskEnabled: bool, taskStatus: string)

  /** The persisted part of Stats, as the JSON file holds it. */
  datatype PersistedStats = PersistedStats(
    lastDownload: string,
    lastFile: string,
    message: string,
    dailyDownloadedMB: int,
    monthlyDownloadedMB: int)

  /** What opening and decoding the statistics file produced. */
  datatype StatsFile =
    | Unopenable(reason: string)
    | Undecodable(reason: string)
    | Decoded(persisted: PersistedStats)

  const ZERO_STATS: Stats := Stats("", "", "", 0, 0, 0, 0)

  /** Whole mebibytes in a byte count, as `bytes / 1024 / 1024` computes it
      with Go's truncating division. */
  function WholeMiB(bytes: int): (mb: int)
    ensures bytes >= 0 ==> mb * BYTES_PER_MIB <= bytes < (mb + 1) * BYTES_PER_MIB
    ensures bytes < BYTES_PER_MIB ==> mb <= 0
  {
    Quot(Quot(bytes, 1024), 1024)
  }

  /** The counters after a transfer of `bytes` bytes is recorded: both grow by
      the same whole number of MiB, the remainder below one MiB is dropped,
      and no other field changes. */
  function AddDownload(s: Stats, bytes: int): (r: Stats)
    ensures r.dailyDownloadedMB >= s.dailyDownloadedMB
    ensures r.dailyDownloadedMB - s.dailyDownloadedMB == r.monthlyDownloadedMB - s.monthlyDownloadedMB
    ensures bytes >= 0 ==> (r.dailyDownloadedMB - s.dailyDownloadedMB) * BYTES_PER_MIB <= bytes
                           < (r.dailyDownloadedMB - s.dailyDownloadedMB + 1) * BYTES_PER_MIB
    ensures bytes >= BYTES_PER_MIB ==> r.dailyDownloadedMB > s.dailyDownloadedMB
    ensures bytes >= BYTES_PER_MIB ==> r.dailyDownloadedMB - s.dailyDownloadedMB == WholeMiB(bytes)
    ensures bytes < BYTES_PER_MIB ==> r == s
    ensures r == s.(dailyDownloadedMB := r.dailyDownloadedMB, monthlyDownloadedMB := r.monthlyDownloadedMB)
  {
    var mb := WholeMiB(bytes);
    if mb > 0 then
      s.(dailyDownloadedMB := s.dailyDownloadedMB + mb, monthlyDownloadedMB := s.monthlyDownloadedMB + mb)
    else
      s
  }

  /** ResetStats: clear the chosen counters and stamp them with today's day
      and month. */
  function Reset(s: Stats, daily: bool, monthly: bool, day: int, month: int): (r: Stats)
    ensures !daily && !monthly ==> r == s
    ensures r.dailyDownloadedMB == (if daily then 0 else s.dailyDownloadedMB)
    ensures r.lastStatDay == (if daily then day else s.lastStatDay)
    ensures r.monthlyDownloadedMB == (if monthly then 0 else s.monthlyDownloadedMB)
    ensures r.lastStatMonth == (if monthly then month else s.lastStatMonth)
    ensures r.lastDownload == s.lastDownload && r.lastFile == s.lastFile && r.message == s.message
  {
    var afterDaily := if daily then s.(dailyDownloadedMB := 0, lastStatDay := day) else s;
    if monthly then afterDaily.(monthlyDownloadedMB := 0, lastStatMonth := month) else afterDaily
  }

  /** CheckAndResetStats: a counter is cleared exactly when its calendar unit
      has changed, and afterwards both stamps name today. */
  function Rollover(s: Stats, day: int, month: int): (r: Stats)
    ensures r.lastStatDay == day && r.lastStatMonth == month
    ensures r.dailyDownloadedMB == 0 || r.dailyDownloadedMB == s.dailyDownloadedMB
    ensures r.dailyDownloadedMB != s.dailyDownloadedMB ==> s.lastStatDay != day
    ensures s.lastStatDay != day ==> r.dailyDownloadedMB == 0
    ensures r.monthlyDownloadedMB != s.monthlyDownloadedMB ==> s.lastStatMonth != month
    ensures s.lastStatMonth != month ==> r.monthlyDownloadedMB == 0
    ensures r.lastDownload == s.lastDownload && r.lastFile == s.lastFile && r.message == s.message
  {
    Reset(s, s.lastStatDay != day, s.lastStatMonth != month, day, month)
  }

  /** A second rollover check on the same date changes nothing. */
  lemma RolloverIdempotent(s: Stats, day: int, month: int)
    ensures Rollover(Rollover(s, day, month), day, month) == Rollover(s, day, month)
  {
  }

  /** Recording downloads between two rollover checks on the same date never
      lowers a counter: only a calendar change clears one. */
  lemma {:induction false} CountersOnlyGrowWithinADay(s: Stats, sizes: seq<int>, day: int, month: int)
    requires s.lastStatDay == day && s.lastStatMonth == month
    ensures var r := Rollover(AddAll(s, sizes), day, month);
      r.dailyDownloadedMB >= s.dailyDownloadedMB && r.monthlyDownloadedMB >= s.monthlyDownloadedMB
  {
    AddAllKeepsStamps(s, sizes);
    AddAllGrows(s, sizes);
  }

  /** The counters after recording each size in turn. */
  function AddAll(s: Stats, sizes: seq<int>): Stats
    decreases |sizes|
  {
    if sizes == [] then s else AddAll(AddDownload(s, sizes[0]), sizes[1..])
  }

  lemma {:induction false} AddAllKeepsStamps(s: Stats, sizes: seq<int>)
    ensures AddAll(s, sizes).lastStatDay == s.lastStatDay
    ensures AddAll(s, sizes).lastStatMonth == s.lastStatMonth
    decreases |sizes|
  {
    if sizes != [] {
      AddAllKeepsStamps(AddDownload(s, sizes[0]), sizes[1..]);
    }
  }

  lemma {:induction false} AddAllGrows(s: Stats, sizes: seq<int>)
    ensures AddAll(s, sizes).dailyDownloadedMB >= s.dailyDownloadedMB
    ensures AddAll(s, sizes).monthlyDownloadedMB >= s.monthlyDownloadedMB
    decreases |sizes|
  {
    if sizes != [] {
      AddAllGrows(AddDownload(s, sizes[0]), sizes[1..]);
    }
  }

  /** The package-level state variables of pkg/docker/state.go. A
      cancellation handle is a generation number: `issued` handles have been
      made, `current` is the one GetDownloadContext returns, and `cancelled`
      holds those whose cancel function has been called. */
  class Runtime {
    var stats: Stats
    var progress: DownloadProgress
    var taskStatus: string
    var current: Option<nat>
    var issued: nat
    var cancelled: set<nat>

    /** Every handle but the newest has been cancelled, and the newest is the
        current one. */
    ghost predicate Valid()
      reads this
    {
      && (forall g: nat :: g in cancelled <==> g + 1 < issued)
      && current == (if issued == 0 then None else Some(issued - 1))
    }

    /** A handle that was issued and not yet cancelled. */
    predicate Live(g: nat)
      reads this
    {
      g < issued && g !in cancelled
    }

    constructor ()
      ensures Valid()
      ensures stats == ZERO_STATS && progress == DownloadProgress(0, 0, 0, "")
      ensures taskStatus == STATUS_IDLE && current == None && issued == 0
    {
      stats := ZERO_STATS;
      progress := DownloadProgress(0, 0, 0, "");
      taskStatus := STATUS_IDLE;
      current := None;
      issued := 0;
      cancelled := {};
    }

    /** Cancels the current handle, if any, and installs a fresh one. */
    method NewDownloadContext()
      requires Valid()
      modifies this`current, this`issued, this`cancelled
      ensures Valid()
      ensures current == Some(old(issued)) && Live(old(issued))
      ensures old(current).Some? ==> !Live(old(current).value)
      ensures cancelled == old(cancelled) + (if old(current).Some? then {old(current).value} else {})
    {
      if current.Some? {
        cancelled := cancelled + {current.value};
      }
      current := Some(issued);
      issued := issued + 1;
    }

    method GetDownloadContext() returns (handle: Option<nat>)
      requires Valid()
      ensures handle == current
      ensures handle.Some? ==> Live(handle.value)
    {
      handle := current;
    }

    method SetProgress(percent: int, speed: int, size: int, status: string)
      modifies this`progress
      ensures progress == DownloadProgress(percent, speed, size, status)
    {
      progress := DownloadProgress(percent, speed, size, status);
    }

    method GetProgress() returns (p: DownloadProgress)
      ensures p == progress
    {
      p := progress;
    }

    method SetTaskStatus(status: string)
      modifies this`taskStatus
      ensures taskStatus == status
    {
      taskStatus := status;
    }

    method GetTaskStatus() returns (status: string)
      ensures status == taskStatus
    {
      status := taskStatus;
    }

    /** The aggregate view; `taskEnabled` comes from the configuration. */
    method GetAppStatus(store: Store) returns (a: AppStatus)
      ensures a == AppStatus(store.config, stats, store.config.taskEnabled, taskStatus)
    {
      var cfg := store.GetConfig();
      a := AppStatus(cfg, stats, cfg.taskEnabled, taskStatus);
    }

    /** The message is passed already formatted. */
    method UpdateMessage(message: string)
      modifies this`stats
      ensures stats == old(stats).(message := message)
    {
      stats := stats.(message := message);
    }

    method AddDownloadStats(bytesDownloaded: int)
      modifies this`stats
      ensures stats == AddDownload(old(stats), bytesDownloaded)
    {
      var mbDownloaded := Quot(Quot(bytesDownloaded, 1024), 1024);
      if mbDownloaded > 0 {
        stats := stats.(dailyDownloadedMB := stats.dailyDownloadedMB + mbDownloaded,
                        monthlyDownloadedMB := stats.monthlyDownloadedMB + mbDownloaded);
      }
    }

    /** `stamp` is the formatted wall-clock time of the call. */
    method UpdateLastDownloadInfo(filename: string, success: bool, stamp: string)
      modifies this`stats
      ensures success ==> stats == old(stats).(lastDownload := stamp, lastFile := filename)
      ensures !success ==> stats == old(stats)
    {
      if success {
        stats := stats.(lastDownload := stamp, lastFile := filename);
      }
    }

    /** `day` and `month` are today's day of the month and month. */
    method CheckAndResetStats(day: int, month: int)
      modifies this`stats
      ensures stats == Rollover(old(stats), day, month)
    {
      var resetDaily := day != stats.lastStatDay;
      var resetMonthly := month != stats.lastStatMonth;
      ResetStats(resetDaily, resetMonthly, day, month);
    }

    method ResetStats(daily: bool, monthly: bool, day: int, month: int)
      modifies this`stats
      ensures stats == Reset(old(stats), daily, monthly, day, month)
    {
      if daily {
        stats := stats.(dailyDownloadedMB := 0, lastStatDay := day);
      }
      if monthly {
        stats := stats.(monthlyDownloadedMB := 0, lastStatMonth := month);
      }
    }

    /** A decoded file replaces the persisted fields and stamps the counters
        with today's date; a file that cannot be opened or decoded leaves the
        counters as they were and reports the error. */
    method LoadStats(file: StatsFile, day: int, month: int) returns (err: Option<string>)
      modifies this`stats
      ensures file.Decoded? ==> err == None && stats == Stats(
        file.persisted.lastDownload, file.persisted.lastFile, file.persisted.message,
        file.persisted.dailyDownloadedMB, file.persisted.monthlyDownloadedMB, day, month)
      ensures file.Unopenable? ==> err == Some(file.reason) && stats == old(stats)
      ensures file.Undecodable? ==> err == Some(file.reason) && stats == old(stats)
    {
      match file {
        case Unopenable(reason) =>
          err := Some(reason);
        case Undecodable(reason) =>
          err := Some(reason);
        case Decoded(p) =>
          stats := Stats(p.lastDownload, p.lastFile, p.message,
                         p.dailyDownloadedMB, p.monthlyDownloadedMB, stats.lastStatDay, stats.lastStatMonth);
          stats := stats.(lastStatDay := day, lastStatMonth := month);
          err := None;
      }
    }
  }

  /** Start-up: load the configuration, then the counters (cleared and
      stamped with today's date when the file cannot be used), then install
      the first cancellation handle. Creating directories is left to the
      file system and not modelled. */
  method InitState(store: Store, rt: Runtime, configFile: ConfigFile, statsFile: StatsFile, day: int, month: int)
    requires rt.Valid()
    modifies store, rt
    ensures store.config == Loaded(old(store.config), configFile)
    ensures statsFile.Decoded? ==> rt.stats == Stats(
      statsFile.persisted.lastDownload, statsFile.persisted.lastFile, statsFile.persisted.message,
      statsFile.persisted.dailyDownloadedMB, statsFile.persisted.monthlyDownloadedMB, day, month)
    ensures !statsFile.Decoded? ==> rt.stats == Reset(old(rt.stats), true, true, day, month)
    ensures rt.stats.lastStatDay == day && rt.stats.lastStatMonth == month
    ensures rt.Valid() && rt.current == Some(old(rt.issued))
    ensures rt.progress == old(rt.progress) && rt.taskStatus == old(rt.taskStatus)
  {
    var _ := store.LoadConfig(configFile);
    var err := rt.LoadStats(statsFile, day, month);
    if err.Some? {
      rt.ResetStats(true, true, day, month);
    }
    rt.NewDownloadContext();
  }

  /** At most one handle is live, and it is the current one. */
  lemma OnlyCurrentHandleIsLive(rt: Runtime, g: nat)
    requires rt.Valid()
    ensures rt.Live(g) <==> rt.current == Some(g)
  {
  }

  /** SetProgress followed by GetProgress returns exactly what was set. */
  method ProgressRoundTrip(rt: Runtime, percent: int, speed: int, size: int, status: string)
    returns (p: DownloadProgress)
    modifies rt
    ensures p == DownloadProgress(percent, speed, size, status)
  {
    rt.SetProgress(percent, speed, size, status);
    p := rt.GetProgress();
  }
}
