# go-cycle-downloader, modelled in Dafny

go-cycle-downloader repeatedly fetches one URL. Its schedule is either
daily, at a fixed hour and minute, or every N minutes. It can cap the
transfer rate and the megabytes per day. It keeps a single progress record,
a task status and daily and monthly usage counters for a web page to show.
This project models the core of that program and proves properties of the
model:

- `config.dfy` (module `Configuration`) holds the configuration record and
  its defaults. It also holds the locked store of the record (class
  `Store`): loading with its fallback, snapshot, update, and the set, get
  and toggle operations on the two flags.
- `state.dfy` (module `State`) holds the shared runtime state (class
  `Runtime`): the progress record, the task status, the usage counters with
  their day and month rollover, and the cancellation handle of the transfer
  in flight. Cancellation handles are generation numbers. `Runtime.Valid()`
  says that every handle except the newest has been cancelled.
- `download.dfy` (module `Downloader`) holds one HTTP transfer:
  - the rate-limited reader;
  - the progress writer (class `ProgressWriter`), which publishes samples
    into the runtime state;
  - the copy loop (method `CopyBody`, proved against the function `Copy`);
  - `DownloadFileWithProgress`, proved against the function `Transfer`,
    which says what each way out returns and which progress record it
    leaves.

  The network, the file system and the token bucket are an `Environment`.
  It gives how the request went, the body as the sequence of results its
  Read calls return, the outcome of each limiter wait, each file-write
  failure, and the clock at each write.
- `scheduler.dfy` (module `Server`) holds the trigger predicate
  `shouldDownload` over `lastTriggered` (class `Scheduler`). It also holds
  the gates one tick passes (`Gate`, `Tick`) and what the spawned transfer
  records when it ends (`Completed`, `RunScheduledTransfer`).
- `go.dfy` (module `Go`) holds the parts of Go the model relies on:
  - integer division that truncates toward zero;
  - `%d` formatting, with a round-trip lemma;
  - `time.Duration` in nanoseconds.

Time is an input. A tick receives one `Moment`: the instant in nanoseconds
and its local hour, minute, day and month. The zero `time.Time` of a
scheduler that never fired is `lastTriggered == None`.

Five behaviours of the code are easy to miss:

- Only status 200 proceeds. Other 2xx statuses (204, 206) fail with
  "HTTP状态码: <code>".
- A cancelled transfer sets the task status to "失败" (failed), the same as
  any other failure. The "已停止" (stopped) status is never assigned. The
  progress record alone says "已手动停止" (manually stopped).
- A request that cannot be built returns its error without touching the
  progress record.
- The day and month stamps of the counters are not persisted. Loading the
  counter file stamps them with today's date. So a counter loaded from a
  previous day is not cleared at the first rollover check.
- The scheduler does not stop a manual transfer from running at the same
  time. It only skips while the status reads "下载中" (downloading).

## Model

| member | source | states |
|---|---|---|
| Go.Quot | pkg/docker/state.go:161 | Go's `/`: the magnitude is the floor of the magnitudes' quotient; the sign follows the operands; it equals Euclidean division for non-negative operands |
| Go.Itoa | pkg/downloader/download.go:90 | `%d` text is non-empty and starts with '-' exactly for negative numbers |
| Go.ItoaRoundTrip | pkg/downloader/download.go:90 | reading the `%d` text back gives the number, so the status-code message identifies the code |
| Go.DigitsRoundTrip | pkg/downloader/download.go:90 | the decimal digits of a natural number read back as that number |
| Configuration.DefaultConfig | pkg/config/config.go:138-151 | the defaults: interval plan with a positive interval, valid daily time, no URL, no rate ceiling, task enabled, daily cap off with a positive cap, a non-empty directory |
| Configuration.Loaded | pkg/config/config.go:31-53 | a missing or undecodable file gives the defaults; a decoded file gives its record; an unopenable file keeps the current record |
| Configuration.Store.constructor | pkg/config/config.go:23-27 | the record starts as Go's zero Config |
| Configuration.Store.LoadConfig | pkg/config/config.go:31-53 | the stored record becomes `Loaded(old, file)`; an error is reported exactly when the file cannot be opened for a reason other than absence |
| Configuration.Store.GetConfig | pkg/config/config.go:76-80 | returns the stored record |
| Configuration.Store.UpdateConfig | pkg/config/config.go:83-87 | the stored record becomes the update applied to the old one |
| Configuration.Store.GetTaskEnabled | pkg/config/config.go:90-94 | returns the task flag |
| Configuration.Store.SetTaskEnabled | pkg/config/config.go:97-102 | sets the task flag and changes no other field |
| Configuration.Store.GetDailyLimitEnabled | pkg/config/config.go:105-109 | returns the cap flag |
| Configuration.Store.SetDailyLimitEnabled | pkg/config/config.go:112-117 | sets the cap flag and changes no other field |
| Configuration.Store.ToggleTaskEnabled | pkg/config/config.go:120-126 | flips the task flag, returns the new value, changes no other field |
| Configuration.Store.ToggleDailyLimitEnabled | pkg/config/config.go:129-135 | flips the cap flag, returns the new value, changes no other field |
| Configuration.ToggleTwice | pkg/config/config.go:120-135 | toggling twice returns the flipped value and then the original one, and restores the whole record |
| Configuration.SetThenGet | pkg/config/config.go:90-117 | a getter after a setter returns the value set; the other fields are untouched |
| Configuration.SnapshotIsolation | pkg/config/config.go:76-87 | a snapshot from GetConfig is not affected by a later UpdateConfig |
| State.WholeMiB | pkg/docker/state.go:161 | `bytes/1024/1024` is the floor of bytes over one MiB, and not positive below one MiB |
| State.AddDownload | pkg/docker/state.go:158-167 | both counters grow by the same amount, which is `bytes/1024/1024` (the floor of the bytes over one MiB, bracketed between delta MiB and delta+1 MiB); a transfer under 1 MiB changes nothing; no other field changes |
| State.Reset | pkg/docker/state.go:189-200 | each chosen counter is cleared and its stamp set to today; the unchosen ones and the other fields are kept |
| State.Rollover | pkg/docker/state.go:180-187 | afterwards both stamps name today; a counter is cleared exactly when its day or month changed, and is kept otherwise |
| State.RolloverIdempotent | pkg/docker/state.go:180-200 | a second rollover check on the same date changes nothing |
| State.CountersOnlyGrowWithinADay | pkg/docker/state.go:158-200 | recording any transfers between two rollover checks on the same date never lowers a counter |
| State.AddAllKeepsStamps | pkg/docker/state.go:158-167 | recording transfers never moves the day and month stamps |
| State.AddAllGrows | pkg/docker/state.go:158-167 | recording transfers never lowers either counter |
| State.Runtime.constructor | pkg/docker/state.go:42-58 | initial state: zero counters and progress, status idle, no handle yet |
| State.Runtime.NewDownloadContext | pkg/docker/state.go:89-96 | the previous handle is cancelled; a fresh live handle becomes current; the handle invariant is kept |
| State.Runtime.GetDownloadContext | pkg/docker/state.go:99-103 | returns the current handle, which is live |
| State.Runtime.SetProgress | pkg/docker/state.go:107-116 | replaces the whole progress record and only it |
| State.Runtime.GetProgress | pkg/docker/state.go:118-122 | returns the progress record |
| State.Runtime.SetTaskStatus | pkg/docker/state.go:126-130 | sets the task status and only it |
| State.Runtime.GetTaskStatus | pkg/docker/state.go:132-136 | returns the task status |
| State.Runtime.GetAppStatus | pkg/docker/state.go:138-149 | the aggregate of configuration, counters and status; the enabled flag is the configuration's |
| State.Runtime.UpdateMessage | pkg/docker/state.go:151-156 | sets the message and no other counter field |
| State.Runtime.AddDownloadStats | pkg/docker/state.go:158-167 | the counters become `AddDownload(old, bytes)` |
| State.Runtime.UpdateLastDownloadInfo | pkg/docker/state.go:169-177 | a success records the file and the time; a failure changes nothing |
| State.Runtime.CheckAndResetStats | pkg/docker/state.go:180-187 | the counters become `Rollover(old, today)` |
| State.Runtime.ResetStats | pkg/docker/state.go:189-200 | the counters become `Reset(old, daily, monthly, today)` |
| State.Runtime.LoadStats | pkg/docker/state.go:204-221 | a decoded file replaces the persisted fields and stamps today's date; an open or decode failure is returned and changes nothing |
| State.InitState | pkg/docker/state.go:61-86 | the configuration is loaded; the counters are loaded, or cleared when loading fails; either way they are stamped with today; a first live handle is installed |
| State.OnlyCurrentHandleIsLive | pkg/docker/state.go:88-103 | under the handle invariant, a handle is live exactly when it is the current one |
| State.ProgressRoundTrip | pkg/docker/state.go:107-122 | GetProgress after SetProgress returns exactly the record set |
| Downloader.NewLimiter | pkg/downloader/download.go:112-120 | a limiter exists exactly when the ceiling is positive; its rate is speedKB×1024 tokens per second and its burst twice that |
| Downloader.LimitedRead | pkg/downloader/download.go:23-32 | the bytes read are never dropped; the wait's error replaces the read's only when bytes arrived, a limiter exists and the wait failed |
| Downloader.Copy | pkg/downloader/download.go:122-131 | EOF is never reported; a body with no error is copied whole with no error; the bytes copied never exceed those offered (the exact count is FirstErrorDecides) |
| Downloader.FirstErrorDecides | pkg/downloader/download.go:122-131 | the first round that reports an error decides the copy's error (EOF counts as success); the bytes written are exactly those offered before that round plus what that round wrote |
| Downloader.OfferedPrefix | pkg/downloader/download.go:122-131 | the bytes offered by the first k+1 rounds are those of the first k plus round k's |
| Downloader.FirstErrorBytes | pkg/downloader/download.go:122-131 | when the round that ends the copy was not refused by the file, every byte offered up to and including it was written |
| Downloader.StepBytes | pkg/downloader/download.go:122-131 | a round writes all the bytes it read unless the file refuses them, in which case it writes none |
| Downloader.StepError | pkg/downloader/download.go:23-32 | a round's error is the file's when it refused bytes, else the limiter wait's when bytes arrived under a limiter and the wait failed, else the read's own; no error means the round's bytes were all written |
| Downloader.SpeedIsFloor | pkg/downloader/download.go:48-52 | the published speed is the floor of KiB per second over the elapsed time, and of the KiB received when no time elapsed (one second assumed) |
| Downloader.Message | pkg/downloader/download.go:89-140 | a bad status's text is "HTTP状态码: " followed by text that reads back as the code; a stop gives "下载被手动停止"; a copy failure gives its cause's text; the other errors carry their text through |
| Downloader.ErrorText | pkg/downloader/download.go:142 | a failure's text is its own; EOF reads "EOF"; a cancellation reads "context canceled" |
| Downloader.PercentOf | pkg/downloader/download.go:155-160 | 0 for an unknown size; otherwise the floor of total×100/size; within 0..100 while total ≤ size; exactly 100 at total = size |
| Downloader.ReportedKB | pkg/downloader/download.go:134-137 | the KB figure is the declared size in whole KiB when known, else the bytes received in whole KiB |
| Downloader.NormalizeSize | pkg/downloader/download.go:95-98 | a negative Content-Length becomes 0; any other is kept |
| Downloader.Sample | pkg/downloader/download.go:54-62 | a published sample says downloading, shows the same percent and KB as the final record, and shows 0 percent for an unknown size |
| Downloader.TerminalProgress | pkg/downloader/download.go:132-151 | the final record has speed 0; 100 percent and "下载完成" only on success; on cancellation "已手动停止", otherwise "下载失败: " plus the error, with the percent reached |
| Downloader.Transfer | pkg/downloader/download.go:72-152 | only status 200 with a created file reaches the copy, and then the byte count is exactly the copy's; the transfer succeeds exactly when the copy ends without error; it is manually stopped exactly when the copy ends with a cancellation, and any other copy error is returned as that error; a rejected request returns its error and leaves the progress record alone; a transport failure publishes (0, 0, 0, "下载失败: " plus the error); a bad status publishes "HTTP状态码: <code>"; a file that cannot be created publishes (0, 0, 0, "创建文件失败") |
| Downloader.CancellationNeverCompletes | pkg/downloader/download.go:131-141 | a copy first interrupted by a cancellation ends manually stopped, shows "已手动停止" at speed 0, and returns exactly the bytes offered up to and including that round |
| Downloader.EndOfBodyCompletes | pkg/downloader/download.go:131-151 | a body whose first reported error is EOF (possibly with its last bytes) ends complete at 100 percent, speed 0, with exactly the bytes offered up to and including that round |
| Downloader.CleanBodyCompletes | pkg/downloader/download.go:146-151 | a body with no error ends complete at 100 percent with every byte; a 10 MiB declared size shows as 10240 KB |
| Downloader.UnknownSizeCancelled | pkg/downloader/download.go:134-139 | with no Content-Length a cancelled transfer shows 0 percent and the KB received |
| Downloader.ProgressWriter.constructor | pkg/downloader/download.go:108 | a fresh writer has counted nothing and starts its clock at `now` |
| Downloader.ProgressWriter.Write | pkg/downloader/download.go:42-69 | every byte is counted and reported written with no error; a sample is published exactly when more than a second has passed or the declared size is reached, and otherwise the progress record is untouched |
| Downloader.CopyBody | pkg/downloader/download.go:122-131 | the loop's error and the bytes the progress writer counted are those of `Copy` |
| Downloader.DownloadFileWithProgress | pkg/downloader/download.go:72-152 | the file name, byte count, error and final progress record are those of `Transfer`; no other runtime state changes |
| Server.ShouldFire | pkg/server/scheduler.go:71-94 | daily: fires in the configured minute once more than a minute has passed; interval: fires once more than the interval has passed, never for an interval ≤ 0; other plans never fire; a firing is always more than the plan's gap after the previous trigger |
| Server.ElapsedOver | pkg/server/scheduler.go:78-88 | `time.Since(lastTriggered) > d`: always true for a scheduler that never fired, otherwise exactly when more than d has passed |
| Server.Scheduler.constructor | pkg/server/scheduler.go:68 | the scheduler starts having never fired |
| Server.Scheduler.ShouldDownload | pkg/server/scheduler.go:71-94 | answers `ShouldFire`; a firing records the time and nothing else changes |
| Server.FiringsSpaced | pkg/server/scheduler.go:71-94 | over any sequence of checks, consecutive firings are more than the plan's gap apart (a minute for daily, the interval for interval) |
| Server.Gate | pkg/server/scheduler.go:19-43 | a transfer starts exactly when the task is enabled, a URL is set, the predicate fired, no transfer is downloading and the cap is not reached; a skip names the first gate that failed, and each of disabled, no URL, not due, already downloading and cap reached is forced when it is that first gate |
| Server.Tick | pkg/server/scheduler.go:18-43 | the result is `Gate` over the pre-rollover counter; a disabled task changes nothing; otherwise the counters roll over; a skip by the downloading or cap gate still records the trigger; a cap skip sets the skip message |
| Server.Completed | pkg/server/scheduler.go:51-60 | a failure only sets the failure message; a success sets the message, the file and its time, and then applies `AddDownload`, so both the daily and the monthly counter grow by exactly `bytes/1024/1024` and the stamps are kept |
| Server.RunScheduledTransfer | pkg/server/scheduler.go:46-61 | a fresh handle replaces and cancels the old one; the transfer's outcome is `Transfer`; the counters become `Completed`; the status ends idle on success and failed otherwise |
| Server.StaleSnapshotBlocksNewDay | pkg/server/scheduler.go:19-43 | at the first tick of a new day, yesterday's counter at the cap blocks the transfer although the same tick has just cleared it |
| Server.GateAfterRollover | pkg/server/scheduler.go:19-43 | the cap gate reading the rolled-over counter: on a new day a positive cap never blocks, and on the same day it decides as the written gate does |

## Left out

- StartScheduler's 30-second ticker and the goroutines are not modelled. A tick and a transfer are each one atomic call, and locking is not modelled. Concurrent interleavings are not covered: for example a manual transfer started between a tick's gate and its spawned goroutine.
- The HTTP handlers (pkg/server/handlers.go), the manual transfer and the stop button are not part of this model. A cancellation reaches a transfer as a `Canceled` error in its environment. It is not tied to `Runtime.cancelled`.
- CleanCache (pkg/docker/cleaner.go) runs at the start of each transfer. It only deletes files and is not part of this model.
- Creating the `conf` and download directories in InitState is left to the file system.
- The network, file creation, and the name `file_<unix seconds>` built from the clock are inputs (`Environment`). The URL, the directory and the context become those inputs.
- Writing the configuration and counter files (SaveConfigLocked, saveStats) is a no-op in the model. I/O errors from saving are not modelled.
- Configuration.Store.LoadConfig: for a missing file the code returns SaveConfigLocked's error. The model always reports no error, because saving is not modelled.
- Configuration.Store.SetTaskEnabled: the error returned from saving is dropped. So is the one from SetDailyLimitEnabled, ToggleTaskEnabled and ToggleDailyLimitEnabled.
- Configuration.Loaded: a decoded file replaces the whole record. Go's JSON decoder merges a partial object into the previous record. That merge, and unknown fields, are not modelled.
- State.Runtime.LoadStats: a decoded file replaces the persisted fields. Go's JSON decoder merges a partial object into the previous counters, and a decode that fails part-way may leave some fields overwritten. The model leaves the counters unchanged on a decode failure and does not model the merge.
- State.Runtime.UpdateMessage takes the message already formatted. `%v` formatting of arbitrary values is not modelled. Only `%d` of the status code is (Go.Itoa).
- Server.ShouldFire: `time.Duration(IntervalMinutes) * time.Minute` overflows int64 for intervals above about 153 million minutes. The model's arithmetic is unbounded.
- Server.Tick reads the clock once per tick. Go reads it separately in CheckAndResetStats, shouldDownload and time.Since. Those readings can differ by a few nanoseconds.
- Downloader.PercentOf uses exact integer arithmetic. Go computes the percent in float64, which can round differently once the byte counts exceed about 2^46 (the product total×100 is then no longer exact in float64).
- Downloader.Speed: Go computes the speed in float64 KiB per second and truncates it to int. The model divides integer nanoseconds exactly, which can differ from float64 rounding by one for very large counts.
- Downloader.ProgressWriter.Percent has no contract of its own. It returns `PercentOf(total, size)`, and PercentOf carries the contract.
- The token bucket itself is not modelled: when it lets bytes through, its delays, and WaitN's refusal of a request above the burst. Each wait's outcome is an input.
- The environment may give a limiter wait the outcome EOF, which `WaitN` never returns. Such an environment reads as a body that ended; no lemma relies on it.
- A failing write to the output file is modelled as failing before any of that round's bytes are written. A partial write is not modelled.
- Integer widths are not modelled: int64 totals and int counters are unbounded here.

## Findings

`Server.Tick` models the tick as written. `Server.GateAfterRollover` is the corrected gate.

| source | as written | input that shows it | evidently intended | confidence | as-written member | corrected member |
|---|---|---|---|---|---|---|
| pkg/server/scheduler.go:19-40 | The cap gate compares `status.Stats.DailyDownloadedMB`. That snapshot is taken before `CheckAndResetStats` runs in the same tick. | The default interval plan with the cap on at 1024 MB, and yesterday's counter at 1024 MB. At the first tick after midnight the interval has elapsed. The rollover clears the counter, but the gate still sees 1024 and skips. The trigger is consumed, so the day's first transfer waits one more interval. A daily plan loses its day's transfer the same way when its minute is the first enabled tick of the day. | The cap should be checked against the counter after the rollover, so a new day starts under the cap. | not executed | Server.StaleSnapshotBlocksNewDay | Server.GateAfterRollover |
