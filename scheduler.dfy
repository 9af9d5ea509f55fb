/** The trigger scheduler (pkg/server/scheduler.go): the two-mode predicate
    over the scheduler's last trigger time, the sequence of gates a tick
    passes before starting a transfer, and what the spawned transfer records
    when it ends. The 30-second ticker and the goroutines are outside the
    model: a tick and a transfer are each one call here, and the clock is
    read once per tick. */
module Server {
  import opened Go
  import opened Configuration
  import opened State
  import opened Downloader

  const CAP_SKIP_MESSAGE: string := "调度器：今日下载量已达上限，任务跳过"
  const SCHEDULED_FAILED_PREFIX: string := "定时下载失败: "
  const SCHEDULED_OK_PREFIX: string := "定时下载成功: "

  /** One reading of the clock: the instant in nanoseconds and its local
      hour, minute, day of the month and month. */
  datatype Moment = Moment(now: int, hour: int, minute: int, day: int, month: int)

  /** `time.Since(lastTriggered) > d`. Never triggered is Go's zero time,
      long enough ago for any threshold. */
  function ElapsedOver(last: Option<int>, now: int, d: int): (over: bool)
    ensures last.None? ==> over
    ensures last.Some? ==> (over <==> last.value < now - d)
    ensures over && last.Some? && d >= 0 ==> now > last.value
  {
    last.None? || now - last.value > d
  }

  /** The least time that separates two firings under `cfg`. */
  function Gap(cfg: Config): int {
    if cfg.planType == PLAN_DAILY then MINUTE else cfg.intervalMinutes * MINUTE
  }

  /** shouldDownload's answer. The daily plan fires in the configured minute
      once a minute has passed since the last trigger; the interval plan
      fires once more than the interval has passed, and never for an interval
      of zero or less; any other plan never fires. A firing is always more
      than the plan's gap after the previous trigger. */
  function ShouldFire(cfg: Config, last: Option<int>, at: Moment): (fire: bool)
    ensures fire ==> cfg.planType == PLAN_DAILY || cfg.planType == PLAN_INTERVAL
    ensures cfg.planType == PLAN_DAILY ==>
      (fire <==> at.hour == cfg.hour && at.minute == cfg.minute && ElapsedOver(last, at.now, MINUTE))
    ensures cfg.planType == PLAN_INTERVAL ==>
      (fire <==> cfg.intervalMinutes > 0 && ElapsedOver(last, at.now, cfg.intervalMinutes * MINUTE))
    ensures fire ==> Gap(cfg) > 0
    ensures fire && last.Some? ==> at.now - last.value > Gap(cfg)
  {
    if cfg.planType == PLAN_DAILY then
      at.hour == cfg.hour && at.minute == cfg.minute && ElapsedOver(last, at.now, MINUTE)
    else if cfg.planType == PLAN_INTERVAL then
      cfg.intervalMinutes > 0 && ElapsedOver(last, at.now, cfg.intervalMinutes * MINUTE)
    else
      false
  }

  /** The package-level `lastTriggered` with the predicate that reads and
      overwrites it. */
  class Scheduler {
    var lastTriggered: Option<int>

    constructor ()
      ensures lastTriggered == None
    {
      lastTriggered := None;
    }

    /** shouldDownload: a firing records `at.now`; otherwise nothing changes. */
    method ShouldDownload(cfg: Config, at: Moment) returns (fire: bool)
      modifies this
      ensures fire == ShouldFire(cfg, old(lastTriggered), at)
      ensures lastTriggered == if fire then Some(at.now) else old(lastTriggered)
    {
      if cfg.planType == PLAN_DAILY {
        if at.hour == cfg.hour && at.minute == cfg.minute {
          if ElapsedOver(lastTriggered, at.now, MINUTE) {
            lastTriggered := Some(at.now);
            return true;
          }
        }
      } else if cfg.planType == PLAN_INTERVAL {
        if cfg.intervalMinutes <= 0 {
          return false;
        }
        if ElapsedOver(lastTriggered, at.now, cfg.intervalMinutes * MINUTE) {
          lastTriggered := Some(at.now);
          return true;
        }
      }
      return false;
    }
  }

  /** One evaluation of the predicate: the configuration then in force and
      the clock reading. */
  datatype Check = Check(cfg: Config, at: Moment)

  /** The checks at which the predicate fired, in order. */
  function Firings(last: Option<int>, checks: seq<Check>): seq<Check>
    decreases |checks|
  {
    if checks == [] then []
    else
      var c := checks[0];
      var fire := ShouldFire(c.cfg, last, c.at);
      (if fire then [c] else []) + Firings(if fire then Some(c.at.now) else last, checks[1..])
  }

  /** Each firing in `fs` comes more than its plan's gap after the one
      before it, the first more than that after `last`. */
  ghost predicate Spaced(last: Option<int>, fs: seq<Check>) {
    && (forall i :: 0 < i < |fs| ==> fs[i].at.now - fs[i - 1].at.now > Gap(fs[i].cfg))
    && (last.Some? && |fs| > 0 ==> fs[0].at.now - last.value > Gap(fs[0].cfg))
  }

  lemma SpacedCons(last: Option<int>, c: Check, rest: seq<Check>)
    requires last.Some? ==> c.at.now - last.value > Gap(c.cfg)
    requires Spaced(Some(c.at.now), rest)
    ensures Spaced(last, [c] + rest)
  {
    var fs := [c] + rest;
    forall i | 0 < i < |fs| ensures fs[i].at.now - fs[i - 1].at.now > Gap(fs[i].cfg) {
      if i > 1 {
        assert fs[i] == rest[i - 1] && fs[i - 1] == rest[i - 2];
      }
    }
  }

  /** Over any sequence of checks, each firing comes more than its plan's gap
      after the previous one (more than a minute for the daily plan, more
      than the interval for the interval plan), and the first more than that
      after the trigger recorded before the sequence. */
  lemma {:induction false} FiringsSpaced(last: Option<int>, checks: seq<Check>)
    ensures Spaced(last, Firings(last, checks))
    decreases |checks|
  {
    if checks != [] {
      var c := checks[0];
      var fire := ShouldFire(c.cfg, last, c.at);
      var next := if fire then Some(c.at.now) else last;
      FiringsSpaced(next, checks[1..]);
      var rest := Firings(next, checks[1..]);
      if fire {
        assert Firings(last, checks) == [c] + rest;
        SpacedCons(last, c, rest);
      } else {
        assert Firings(last, checks) == rest;
      }
    }
  }

  /** Why a tick did not start a transfer, or the configuration it started
      one with. */
  datatype TickResult =
    | TaskDisabled
    | NoUrl
    | NotDue
    | AlreadyDownloading
    | CapReached
    | Started(cfg: Config)

  /** The gates of a tick, in the code's order: task enabled, URL set,
      predicate fired, no transfer in the "downloading" status, daily cap not
      reached. `snapshotMB` is the daily counter as the tick read it. A
      transfer starts exactly when every gate passes. */
  function Gate(cfg: Config, fired: bool, taskStatus: string, snapshotMB: int): (r: TickResult)
    ensures r.Started? <==>
      && cfg.taskEnabled && cfg.url != "" && fired && taskStatus != STATUS_DOWNLOADING
      && !(cfg.dailyLimitEnabled && snapshotMB >= cfg.limitMB)
    ensures r.Started? ==> r.cfg == cfg
    ensures !cfg.taskEnabled ==> r == TaskDisabled
    ensures cfg.taskEnabled && cfg.url == "" ==> r == NoUrl
    ensures cfg.taskEnabled && cfg.url != "" && !fired ==> r == NotDue
    ensures cfg.taskEnabled && cfg.url != "" && fired && taskStatus == STATUS_DOWNLOADING ==>
      r == AlreadyDownloading
    ensures
      && cfg.taskEnabled && cfg.url != "" && fired && taskStatus != STATUS_DOWNLOADING
      && cfg.dailyLimitEnabled && snapshotMB >= cfg.limitMB
      ==> r == CapReached
    ensures r == AlreadyDownloading ==> fired && taskStatus == STATUS_DOWNLOADING
    ensures r == CapReached ==> fired && cfg.dailyLimitEnabled && snapshotMB >= cfg.limitMB
  {
    if !cfg.taskEnabled then TaskDisabled
    else if cfg.url == "" then NoUrl
    else if !fired then NotDue
    else if taskStatus == STATUS_DOWNLOADING then AlreadyDownloading
    else if cfg.dailyLimitEnabled && snapshotMB >= cfg.limitMB then CapReached
    else Started(cfg)
  }

  /** The body of one tick of StartScheduler's loop, up to the point where
      it would spawn the transfer. The status snapshot is taken before the
      rollover check, so the cap gate sees the counter from before it; the
      predicate runs before the "downloading" and cap gates, so a tick those
      gates skip still records the trigger. */
  method Tick(s: Scheduler, rt: Runtime, store: Store, at: Moment) returns (r: TickResult)
    modifies s, rt`stats
    ensures var cfg := store.config;
      var fired := cfg.taskEnabled && cfg.url != "" && ShouldFire(cfg, old(s.lastTriggered), at);
      && r == Gate(cfg, fired, rt.taskStatus, old(rt.stats).dailyDownloadedMB)
      && s.lastTriggered == (if fired then Some(at.now) else old(s.lastTriggered))
      && rt.stats == (if !cfg.taskEnabled then old(rt.stats)
                      else if r == CapReached then Rollover(old(rt.stats), at.day, at.month).(message := CAP_SKIP_MESSAGE)
                      else Rollover(old(rt.stats), at.day, at.month))
    ensures r.AlreadyDownloading? || r.CapReached? || r.Started? ==> s.lastTriggered == Some(at.now)
  {
    var status := rt.GetAppStatus(store);
    if !status.taskEnabled {
      return TaskDisabled;
    }
    rt.CheckAndResetStats(at.day, at.month);
    var cfg := store.GetConfig();
    if cfg.url == "" {
      return NoUrl;
    }
    var fire := s.ShouldDownload(cfg, at);
    if !fire {
      return NotDue;
    }
    var taskStatus := rt.GetTaskStatus();
    if taskStatus == STATUS_DOWNLOADING {
      return AlreadyDownloading;
    }
    if cfg.dailyLimitEnabled && status.stats.dailyDownloadedMB >= cfg.limitMB {
      rt.UpdateMessage(CAP_SKIP_MESSAGE);
      return CapReached;
    }
    return Started(cfg);
  }

  /** The counters after a scheduled transfer ends: a failure only sets the
      message; a success sets the message, records the file and its time, and
      adds the transfer's whole MiB to both counters. */
  function Completed(s: Stats, file: string, bytes: int, err: Option<DownloadError>, stamp: string): (r: Stats)
    ensures err.Some? ==> r == s.(message := SCHEDULED_FAILED_PREFIX + Message(err.value))
    ensures err.Some? ==> r.dailyDownloadedMB == s.dailyDownloadedMB && r.lastFile == s.lastFile
    ensures err.None? ==> r.lastFile == file && r.lastDownload == stamp
    ensures err.None? ==> r.message == SCHEDULED_OK_PREFIX + file
    ensures err.None? ==>
      r == AddDownload(s.(message := SCHEDULED_OK_PREFIX + file, lastDownload := stamp, lastFile := file), bytes)
    ensures err.None? ==> r.lastStatDay == s.lastStatDay && r.lastStatMonth == s.lastStatMonth
    ensures err.None? && bytes >= BYTES_PER_MIB ==>
      && r.dailyDownloadedMB == s.dailyDownloadedMB + WholeMiB(bytes)
      && r.monthlyDownloadedMB == s.monthlyDownloadedMB + WholeMiB(bytes)
    ensures err.None? && bytes < BYTES_PER_MIB ==>
      r.dailyDownloadedMB == s.dailyDownloadedMB && r.monthlyDownloadedMB == s.monthlyDownloadedMB
    ensures err.None? && bytes >= 0 ==> (r.dailyDownloadedMB - s.dailyDownloadedMB) * BYTES_PER_MIB <= bytes
                                       < (r.dailyDownloadedMB - s.dailyDownloadedMB + 1) * BYTES_PER_MIB
  {
    if err.Some? then s.(message := SCHEDULED_FAILED_PREFIX + Message(err.value))
    else AddDownload(s.(message := SCHEDULED_OK_PREFIX + file, lastDownload := stamp, lastFile := file), bytes)
  }

  /** The goroutine a started tick spawns: mark the task downloading, replace
      the cancellation handle, run the transfer, then record the outcome.
      `stamp` is the formatted time of completion. */
  method RunScheduledTransfer(rt: Runtime, cfg: Config, env: Environment, stamp: string)
    returns (file: string, bytes: int, err: Option<DownloadError>)
    requires rt.Valid()
    modifies rt
    ensures rt.Valid()
    ensures rt.current == Some(old(rt.issued))
    ensures old(rt.current).Some? ==> !rt.Live(old(rt.current).value)
    ensures TransferResult(file, bytes, err, rt.progress) == Transfer(cfg.speedKB, env, old(rt.progress))
    ensures rt.stats == Completed(old(rt.stats), file, bytes, err, stamp)
    ensures rt.taskStatus == if err.None? then STATUS_IDLE else STATUS_FAILED
  {
    rt.SetTaskStatus(STATUS_DOWNLOADING);
    rt.NewDownloadContext();
    var handle := rt.GetDownloadContext();
    file, bytes, err := DownloadFileWithProgress(rt, cfg.speedKB, env);
    ghost var before := rt.stats;
    assert before == old(rt.stats);
    if err.Some? {
      rt.SetTaskStatus(STATUS_FAILED);
      rt.UpdateMessage(SCHEDULED_FAILED_PREFIX + Message(err.value));
      rt.UpdateLastDownloadInfo(file, false, stamp);
    } else {
      rt.SetTaskStatus(STATUS_IDLE);
      rt.UpdateMessage(SCHEDULED_OK_PREFIX + file);
      rt.UpdateLastDownloadInfo(file, true, stamp);
      rt.AddDownloadStats(bytes);
    }
    assert rt.stats == Completed(before, file, bytes, err, stamp);
  }

  /** The cap gate as written, at the first tick after midnight under the
      default 30-minute interval plan: yesterday's counter (1024 MB against a
      1024 MB cap) blocks the transfer although the rollover in the same tick
      has just cleared it, and the trigger is consumed. */
  lemma StaleSnapshotBlocksNewDay()
    ensures var cfg := DefaultConfig().(url := "http://host/file", dailyLimitEnabled := true);
      var yesterday := ZERO_STATS.(dailyDownloadedMB := 1024, lastStatDay := 1, lastStatMonth := 5);
      var at := Moment(0, 0, 0, 2, 5);
      && ShouldFire(cfg, None, at)
      && Rollover(yesterday, at.day, at.month).dailyDownloadedMB == 0
      && Gate(cfg, true, STATUS_IDLE, yesterday.dailyDownloadedMB) == CapReached
  {
  }

  /** The cap gate reading the counter after the tick's rollover: on the
      first tick of a new day a positive cap never blocks, and otherwise it
      decides exactly as the written gate does. */
  function GateAfterRollover(cfg: Config, fired: bool, taskStatus: string, stats: Stats, at: Moment): (r: TickResult)
    ensures stats.lastStatDay != at.day && cfg.limitMB > 0 ==> r != CapReached
    ensures stats.lastStatDay == at.day ==> r == Gate(cfg, fired, taskStatus, stats.dailyDownloadedMB)
    ensures r.Started? <==>
      && cfg.taskEnabled && cfg.url != "" && fired && taskStatus != STATUS_DOWNLOADING
      && !(cfg.dailyLimitEnabled && Rollover(stats, at.day, at.month).dailyDownloadedMB >= cfg.limitMB)
  {
    Gate(cfg, fired, taskStatus, Rollover(stats, at.day, at.month).dailyDownloadedMB)
  }
}
