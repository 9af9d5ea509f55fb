/** One HTTP transfer (pkg/downloader/download.go): the rate-limited reader,
    the progress writer that samples into the runtime state, the copy loop,
    and the classification of how the transfer ended.

    The network, the file system and the token bucket are outside the model.
    What they do during one transfer is an `Environment`: how the request
    went, the body as the sequence of results its Read calls return, the
    outcome of each limiter wait, whether each write to the file failed, and
    the clock reading at each write. */
module Downloader {
  import opened Go
  import opened State

  const STATUS_OK: int := 200
  const STATUS_COMPLETE: string := "下载完成"
  const STATUS_MANUALLY_STOPPED: string := "已手动停止"
  const FAILED_PREFIX: string := "下载失败: "
  const HTTP_STATUS_PREFIX: string := "HTTP状态码: "
  const CREATE_FAILED: string := "创建文件失败"
  const STOPPED_TEXT: string := "下载被手动停止"

  /** The error values a read or a limiter wait can produce. `Canceled` is
      `context.Canceled` itself, which the code compares by identity. */
  datatype IOError = EOF | Canceled | Failure(text: string)

  function ErrorText(e: IOError): (r: string)
    ensures e.Failure? ==> r == e.text
    ensures e == EOF ==> r == "EOF"
    ensures e == Canceled ==> r == "context canceled"
  {
    match e
    case EOF => "EOF"
    case Canceled => "context canceled"
    case Failure(text) => text
  }

  /** The `(n, err)` pair an `io.Reader` returns. */
  datatype ReadResult = ReadResult(n: nat, err: Option<IOError>)

  /** A token bucket's parameters: tokens per second and capacity. */
  datatype Limiter = Limiter(rate: int, burst: int)

  /** The limiter installed for a ceiling of `speedKB` KB/s: none for an
      unlimited transfer, otherwise `speedKB` KiB per second with a burst of
      two seconds' worth. */
  function NewLimiter(speedKB: int): (l: Option<Limiter>)
    ensures l.Some? <==> speedKB > 0
    ensures l.Some? ==> l.value.rate == speedKB * 1024 && l.value.burst == 2 * l.value.rate
  {
    if speedKB > 0 then Some(Limiter(speedKB * 1024, speedKB * 1024 * 2)) else None
  }

  /** rateLimitedReader.Read: the inner read's result, with the error replaced
      by the limiter's when bytes arrived, a limiter exists and the wait for
      their tokens (`wait`, the outcome of WaitN) failed. Bytes read are never
      dropped. */
  function LimitedRead(inner: ReadResult, limiter: Option<Limiter>, wait: Option<IOError>): (r: ReadResult)
    ensures r.n == inner.n
    ensures inner.n == 0 || limiter.None? || wait.None? ==> r == inner
    ensures inner.n > 0 && limiter.Some? && wait.Some? ==> r.err == wait
  {
    if inner.n > 0 && limiter.Some? && wait.Some? then ReadResult(inner.n, wait) else inner
  }

  /** One round of the copy loop as the environment plays it: the body's
      read, the outcome of the limiter's wait for those bytes, whether the
      file write of them fails (before any byte is written), and the clock
      (nanoseconds) when they reach the progress writer. */
  datatype ReadCall = ReadCall(result: ReadResult, wait: Option<IOError>, diskError: Option<string>, at: int)

  /** Bytes that reach the progress writer in one round: every byte read,
      unless the file refused them first (the multi-writer stops at the file). */
  function StepBytes(c: ReadCall, limiter: Option<Limiter>): (n: nat)
    ensures c.result.n == 0 || c.diskError.None? ==> n == c.result.n
    ensures c.result.n > 0 && c.diskError.Some? ==> n == 0
  {
    var r := LimitedRead(c.result, limiter, c.wait);
    if r.n > 0 && c.diskError.Some? then 0 else r.n
  }

  /** The error that ends the copy in this round, if any: a failed file write
      comes first, then a failed wait for tokens, then the read's own error.
      A round without error read its bytes and stored them all. */
  function StepError(c: ReadCall, limiter: Option<Limiter>): (e: Option<IOError>)
    ensures c.result.n > 0 && c.diskError.Some? ==> e == Some(Failure(c.diskError.value))
    ensures c.result.n > 0 && c.diskError.None? && limiter.Some? && c.wait.Some? ==> e == c.wait
    ensures c.result.n == 0 || (c.diskError.None? && (limiter.None? || c.wait.None?)) ==> e == c.result.err
    ensures e.None? ==> StepBytes(c, limiter) == c.result.n
  {
    var r := LimitedRead(c.result, limiter, c.wait);
    if r.n > 0 && c.diskError.Some? then Some(Failure(c.diskError.value)) else r.err
  }

  /** Every byte the body offers. */
  function Offered(body: seq<ReadCall>): nat {
    if body == [] then 0 else body[0].result.n + Offered(body[1..])
  }

  /** The bytes offered by the first k + 1 rounds are those of the first k
      and of round k. */
  lemma {:induction false} OfferedPrefix(body: seq<ReadCall>, k: nat)
    requires k < |body|
    ensures Offered(body[..k + 1]) == Offered(body[..k]) + body[k].result.n
  {
    if k > 0 {
      OfferedPrefix(body[1..], k - 1);
      assert body[..k + 1][1..] == body[1..][..k];
      assert body[..k][1..] == body[1..][..k - 1];
    } else {
      assert body[..1][1..] == [];
    }
  }

  /** No round of the body ends the copy. */
  ghost predicate Clean(body: seq<ReadCall>, limiter: Option<Limiter>) {
    forall i :: 0 <= i < |body| ==> StepError(body[i], limiter).None?
  }

  /** What `io.Copy` reports: the bytes that reached the progress writer and
      the error that stopped it; EOF is a successful end. */
  datatype CopyResult = CopyResult(written: int, err: Option<IOError>)

  /** io.Copy through the reader chain into the file and the progress writer.
      A body that runs out without an error ends as at EOF. */
  function Copy(body: seq<ReadCall>, limiter: Option<Limiter>): (r: CopyResult)
    ensures 0 <= r.written <= Offered(body)
    ensures r.err != Some(EOF)
    ensures Clean(body, limiter) ==> r == CopyResult(Offered(body), None)
  {
    if body == [] then CopyResult(0, None)
    else
      var e := StepError(body[0], limiter);
      if e.Some? then
        CopyResult(StepBytes(body[0], limiter), if e == Some(EOF) then None else e)
      else
        var rest := Copy(body[1..], limiter);
        assert Clean(body, limiter) ==> Clean(body[1..], limiter) by {
          if Clean(body, limiter) {
            forall i | 0 <= i < |body[1..]| ensures StepError(body[1..][i], limiter).None? {
              assert body[1..][i] == body[i + 1];
            }
          }
        }
        CopyResult(StepBytes(body[0], limiter) + rest.written, rest.err)
  }

  /** The first round that reports an error decides how the copy ends, and
      the bytes written are those of the rounds up to and including it. */
  lemma {:induction false} FirstErrorDecides(body: seq<ReadCall>, limiter: Option<Limiter>, k: nat)
    requires k < |body|
    requires forall i :: 0 <= i < k ==> StepError(body[i], limiter).None?
    requires StepError(body[k], limiter).Some?
    ensures Copy(body, limiter).err ==
      (if StepError(body[k], limiter) == Some(EOF) then None else StepError(body[k], limiter))
    ensures Copy(body, limiter).written == Offered(body[..k]) + StepBytes(body[k], limiter)
  {
    if k > 0 {
      assert StepError(body[0], limiter).None?;
      FirstErrorDecides(body[1..], limiter, k - 1);
      assert body[1..][..k - 1] == body[..k][1..];
      assert body[1..][k - 1] == body[k];
    }
  }

  /** Go's float `total * 100 / size` truncated to an int, with integer
      arithmetic: 0 when the size is unknown, else the floor of the ratio. */
  function PercentOf(total: int, size: int): (r: int)
    ensures size <= 0 ==> r == 0
    ensures size > 0 && total >= 0 ==> r * size <= total * 100 < (r + 1) * size
    ensures 0 <= total <= size ==> 0 <= r <= 100
    ensures 0 < size == total ==> r == 100
  {
    if size <= 0 then 0
    else
      var r := Quot(total * 100, size);
      if total >= 0 then
        PercentBounds(total, size);
        r
      else
        r
  }

  /** The floor of total×100/size for a non-negative total: it brackets the
      ratio, lies within 0..100 while total ≤ size, and is 100 at total = size. */
  lemma PercentBounds(total: int, size: int)
    requires total >= 0 && size > 0
    ensures var r := (total * 100) / size;
      && r * size <= total * 100 < (r + 1) * size
      && (total <= size ==> 0 <= r <= 100)
      && (total == size ==> r == 100)
  {
    var x := total * 100;
    FloorDivision(x, size);
    if total <= size {
      assert 0 <= x <= 100 * size;
      QuotientAtMost(x, size, 100);
    }
    if total == size {
      assert x == 100 * size;
      ExactQuotient(100, size);
    }
  }

  /** A dividend of at most c×d gives a quotient of at most c. */
  lemma QuotientAtMost(x: int, d: int, c: nat)
    requires d > 0 && 0 <= x <= c * d
    ensures 0 <= x / d <= c
  {
    var q := x / d;
    FloorDivision(x, d);
    assert (q - c) * d == q * d - c * d;
    NonPositiveFactor(q - c, d);
  }

  /** A multiple of d divided by d gives the multiplier back. */
  lemma ExactQuotient(c: int, d: int)
    requires d > 0
    ensures (c * d) / d == c
  {
    var q := (c * d) / d;
    FloorDivision(c * d, d);
    assert (q - c) * d == q * d - c * d;
    NonPositiveFactor(q - c, d);
    assert (c - q - 1) * d == c * d - (q + 1) * d;
    NonPositiveFactor(c - q - 1, d);
  }

  /** A product with a positive factor that is not positive has a factor
      that is not positive. */
  lemma NonPositiveFactor(k: int, d: int)
    requires d > 0 && k * d <= 0
    ensures k <= 0
  {
  }

  /** Integer division by a positive divisor rounds down. */
  lemma FloorDivision(a: int, b: int)
    requires b > 0
    ensures (a / b) * b <= a < (a / b + 1) * b
  {
    assert a == (a / b) * b + a % b;
  }

  /** The KB figure a progress record reports: the declared size when it is
      known, otherwise the bytes received so far, in whole KiB. */
  function ReportedKB(total: int, size: int): (kb: int)
    requires total >= 0 && size >= 0
    ensures kb >= 0
    ensures size > 0 ==> kb * 1024 <= size < (kb + 1) * 1024
    ensures size == 0 ==> kb * 1024 <= total < (kb + 1) * 1024
  {
    if size > 0 then size / 1024 else total / 1024
  }

  /** A negative Content-Length means unknown and becomes 0. */
  function NormalizeSize(contentLength: int): (size: int)
    ensures size >= 0
    ensures contentLength >= 0 ==> size == contentLength
    ensures contentLength < 0 ==> size == 0
  {
    if contentLength < 0 then 0 else contentLength
  }

  /** KiB per second over an interval of `elapsed` nanoseconds, truncated;
      an interval of zero counts as one second. */
  function Speed(bytes: int, elapsed: int): int {
    if elapsed == 0 then Quot(bytes, 1024) else Quot(bytes * SECOND, 1024 * elapsed)
  }

  /** The speed is the floor of KiB per second, counting a zero interval as
      one second. */
  lemma SpeedIsFloor(bytes: int, elapsed: int)
    requires bytes >= 0 && elapsed >= 0
    ensures var v := Speed(bytes, elapsed);
      && v >= 0
      && (elapsed > 0 ==> v * (1024 * elapsed) <= bytes * SECOND < (v + 1) * (1024 * elapsed))
      && (elapsed == 0 ==> v * 1024 <= bytes < (v + 1) * 1024)
  {
    if elapsed == 0 {
      FloorDivision(bytes, 1024);
    } else {
      FloorDivision(bytes * SECOND, 1024 * elapsed);
    }
  }

  /** A sample the progress writer publishes while downloading: the same
      percent and KB the final record would show, with the measured speed. */
  function Sample(total: int, size: int, speed: int): (p: DownloadProgress)
    requires total >= 0 && size >= 0
    ensures p.status == STATUS_DOWNLOADING && p.speed == speed
    ensures p.percent == PercentOf(total, size) && p.size == ReportedKB(total, size)
    ensures size == 0 ==> p.percent == 0
  {
    if size > 0 then DownloadProgress(PercentOf(total, size), speed, size / 1024, STATUS_DOWNLOADING)
    else DownloadProgress(0, speed, total / 1024, STATUS_DOWNLOADING)
  }

  /** The progress record left once the copy has ended with `err`: speed 0,
      the same KB as the samples, and 100 percent only on success. */
  function TerminalProgress(err: Option<IOError>, total: int, size: int): (p: DownloadProgress)
    requires total >= 0 && size >= 0
    ensures p.speed == 0 && p.size == ReportedKB(total, size)
    ensures err.None? ==> p.percent == 100 && p.status == STATUS_COMPLETE
    ensures err.Some? ==> p.percent == PercentOf(total, size)
    ensures err == Some(Canceled) ==> p.status == STATUS_MANUALLY_STOPPED
    ensures err.Some? && err != Some(Canceled) ==> p.status == FAILED_PREFIX + ErrorText(err.value)
  {
    var kb := if size > 0 then size / 1024 else total / 1024;
    match err
    case None => DownloadProgress(100, 0, kb, STATUS_COMPLETE)
    case Some(Canceled) => DownloadProgress(PercentOf(total, size), 0, kb, STATUS_MANUALLY_STOPPED)
    case Some(e) => DownloadProgress(PercentOf(total, size), 0, kb, FAILED_PREFIX + ErrorText(e))
  }

  /** The error DownloadFileWithProgress returns. */
  datatype DownloadError =
    | RequestInvalid(text: string)    // the request could not be built
    | TransportFailed(text: string)   // the client's Do failed
    | BadStatus(code: int)            // any status other than 200
    | CreateFailed(text: string)      // the output file could not be created
    | ManuallyStopped                 // the copy ended with context.Canceled
    | CopyFailed(cause: IOError)      // any other error ending the copy

  /** The error's text, as `err.Error()` gives it. */
  function Message(e: DownloadError): (r: string)
    ensures e.BadStatus? ==>
      && |r| >= |HTTP_STATUS_PREFIX| && r[..|HTTP_STATUS_PREFIX|] == HTTP_STATUS_PREFIX
      && Parse(r[|HTTP_STATUS_PREFIX|..]) == e.code
    ensures e.ManuallyStopped? ==> r == STOPPED_TEXT
    ensures e.CopyFailed? ==> r == ErrorText(e.cause)
    ensures e.RequestInvalid? || e.TransportFailed? || e.CreateFailed? ==> r == e.text
  {
    match e
    case RequestInvalid(text) => text
    case TransportFailed(text) => text
    case BadStatus(code) =>
      ItoaRoundTrip(code);
      assert (HTTP_STATUS_PREFIX + Itoa(code))[|HTTP_STATUS_PREFIX|..] == Itoa(code);
      HTTP_STATUS_PREFIX + Itoa(code)
    case CreateFailed(text) => text
    case ManuallyStopped => STOPPED_TEXT
    case CopyFailed(cause) => ErrorText(cause)
  }

  /** How the request went. */
  datatype Exchange =
    | RequestRejected(text: string)
    | TransportError(text: string)
    | Answered(statusCode: int, contentLength: int, body: seq<ReadCall>)

  /** Everything outside the model that one transfer meets: the exchange, the
      output file name (the directory joined with a time-derived name), the
      file creation error if any, and the clock when the writer is set up. */
  datatype Environment = Environment(exchange: Exchange, fileName: string, createError: Option<string>, start: int)

  /** What a transfer returns and the progress record it leaves. */
  datatype TransferResult = TransferResult(file: string, bytes: int, err: Option<DownloadError>, progress: DownloadProgress)

  /** The request succeeded with status 200 and the output file exists, so
      the body is copied. */
  predicate ReachesCopy(env: Environment) {
    env.exchange.Answered? && env.exchange.statusCode == STATUS_OK && env.createError.None?
  }

  /** The outcome of DownloadFileWithProgress in `env` with a ceiling of
      `speedKB`, starting from progress record `before`. Only a status of
      exactly 200 proceeds; a request that cannot be built leaves the progress
      record alone; every other failure is published; success alone shows 100
      percent. */
  function Transfer(speedKB: int, env: Environment, before: DownloadProgress): (t: TransferResult)
    ensures !ReachesCopy(env) ==> t.file == "" && t.bytes == 0 && t.err.Some?
    ensures ReachesCopy(env) ==>
      && t.file == env.fileName
      && t.bytes == Copy(env.exchange.body, NewLimiter(speedKB)).written
      && 0 <= t.bytes <= Offered(env.exchange.body)
      && t.progress == TerminalProgress(Copy(env.exchange.body, NewLimiter(speedKB)).err, t.bytes,
                                        NormalizeSize(env.exchange.contentLength))
    ensures t.err.None? <==> ReachesCopy(env) && Copy(env.exchange.body, NewLimiter(speedKB)).err.None?
    ensures t.err.None? ==> t.progress.percent == 100 && t.progress.status == STATUS_COMPLETE
    ensures ReachesCopy(env) ==>
      var c := Copy(env.exchange.body, NewLimiter(speedKB));
      c.err.Some? && c.err != Some(Canceled) ==> t.err == Some(CopyFailed(c.err.value))
    ensures t.err == Some(ManuallyStopped) <==>
      ReachesCopy(env) && Copy(env.exchange.body, NewLimiter(speedKB)).err == Some(Canceled)
    ensures env.exchange.RequestRejected? ==>
      t.err == Some(RequestInvalid(env.exchange.text)) && t.progress == before
    ensures env.exchange.TransportError? ==>
      && t.err == Some(TransportFailed(env.exchange.text))
      && t.progress == DownloadProgress(0, 0, 0, FAILED_PREFIX + env.exchange.text)
    ensures env.exchange.Answered? && env.exchange.statusCode == STATUS_OK && env.createError.Some? ==>
      && t.err == Some(CreateFailed(env.createError.value))
      && t.progress == DownloadProgress(0, 0, 0, CREATE_FAILED)
    ensures env.exchange.Answered? && env.exchange.statusCode != STATUS_OK ==>
      t.err == Some(BadStatus(env.exchange.statusCode))
      && t.progress == DownloadProgress(0, 0, 0, Message(t.err.value))
    ensures t.err.Some? && !env.exchange.RequestRejected? ==>
      t.progress.speed == 0 && t.progress.status != STATUS_COMPLETE
  {
    match env.exchange
    case RequestRejected(text) => TransferResult("", 0, Some(RequestInvalid(text)), before)
    case TransportError(text) =>
      TransferResult("", 0, Some(TransportFailed(text)), DownloadProgress(0, 0, 0, FAILED_PREFIX + text))
    case Answered(code, contentLength, body) =>
      if code != STATUS_OK then
        TransferResult("", 0, Some(BadStatus(code)), DownloadProgress(0, 0, 0, HTTP_STATUS_PREFIX + Itoa(code)))
      else if env.createError.Some? then
        TransferResult("", 0, Some(CreateFailed(env.createError.value)), DownloadProgress(0, 0, 0, CREATE_FAILED))
      else
        var size := NormalizeSize(contentLength);
        var c := Copy(body, NewLimiter(speedKB));
        var err := match c.err
          case None => None
          case Some(Canceled) => Some(ManuallyStopped)
          case Some(e) => Some(CopyFailed(e));
        TransferResult(env.fileName, c.written, err, TerminalProgress(c.err, c.written, size))
  }

  /** When the round that ends the copy was not refused by the file, every
      byte offered up to and including that round was written. */
  lemma FirstErrorBytes(body: seq<ReadCall>, limiter: Option<Limiter>, k: nat)
    requires k < |body|
    requires forall i :: 0 <= i < k ==> StepError(body[i], limiter).None?
    requires StepError(body[k], limiter).Some?
    requires body[k].result.n == 0 || body[k].diskError.None?
    ensures Copy(body, limiter).written == Offered(body[..k + 1])
  {
    FirstErrorDecides(body, limiter, k);
    OfferedPrefix(body, k);
  }

  /** A transfer whose copy first meets a cancellation (from the body's read
      or from the limiter's wait) ends as manually stopped, never as
      complete, and keeps every byte received up to that point. */
  lemma CancellationNeverCompletes(speedKB: int, env: Environment, before: DownloadProgress, k: nat)
    requires ReachesCopy(env)
    requires k < |env.exchange.body|
    requires forall i :: 0 <= i < k ==> StepError(env.exchange.body[i], NewLimiter(speedKB)).None?
    requires StepError(env.exchange.body[k], NewLimiter(speedKB)) == Some(Canceled)
    ensures var t := Transfer(speedKB, env, before);
      && t.err == Some(ManuallyStopped)
      && t.progress.status == STATUS_MANUALLY_STOPPED && t.progress.speed == 0
      && t.bytes == Offered(env.exchange.body[..k + 1])
      && t.file == env.fileName
  {
    var body, limiter := env.exchange.body, NewLimiter(speedKB);
    FirstErrorDecides(body, limiter, k);
    FirstErrorBytes(body, limiter, k);
  }

  /** The usual ending: the first round to report anything reports EOF
      (possibly with its last bytes). The transfer then succeeds with every
      byte read up to that round, at 100 percent. */
  lemma EndOfBodyCompletes(speedKB: int, env: Environment, before: DownloadProgress, k: nat)
    requires ReachesCopy(env)
    requires k < |env.exchange.body|
    requires forall i :: 0 <= i < k ==> StepError(env.exchange.body[i], NewLimiter(speedKB)).None?
    requires StepError(env.exchange.body[k], NewLimiter(speedKB)) == Some(EOF)
    ensures var t := Transfer(speedKB, env, before);
      && t.err == None
      && t.bytes == Offered(env.exchange.body[..k + 1])
      && t.progress.percent == 100 && t.progress.status == STATUS_COMPLETE && t.progress.speed == 0
      && t.file == env.fileName
  {
    var body, limiter := env.exchange.body, NewLimiter(speedKB);
    FirstErrorDecides(body, limiter, k);
    FirstErrorBytes(body, limiter, k);
  }

  /** A body that ends cleanly completes: 100 percent, and the declared size
      in KB when it is known (10 MiB shows as 10240 KB). */
  lemma CleanBodyCompletes(speedKB: int, env: Environment, before: DownloadProgress)
    requires ReachesCopy(env)
    requires Clean(env.exchange.body, NewLimiter(speedKB))
    ensures var t := Transfer(speedKB, env, before);
      && t.err == None && t.bytes == Offered(env.exchange.body)
      && t.progress.percent == 100 && t.progress.speed == 0 && t.progress.status == STATUS_COMPLETE
      && (env.exchange.contentLength == 10240 * 1024 ==> t.progress.size == 10240)
  {
  }

  /** With no Content-Length a cancelled transfer shows 0 percent and the KB
      received before the cancellation. */
  lemma UnknownSizeCancelled(speedKB: int, env: Environment, before: DownloadProgress, k: nat)
    requires ReachesCopy(env) && env.exchange.contentLength < 0
    requires k < |env.exchange.body|
    requires forall i :: 0 <= i < k ==> StepError(env.exchange.body[i], NewLimiter(speedKB)).None?
    requires StepError(env.exchange.body[k], NewLimiter(speedKB)) == Some(Canceled)
    ensures var t := Transfer(speedKB, env, before);
      && t.progress.percent == 0 && t.progress.status == STATUS_MANUALLY_STOPPED
      && t.progress.size == t.bytes / 1024
  {
    FirstErrorDecides(env.exchange.body, NewLimiter(speedKB), k);
  }

  /** progressWriter: counts every byte written and publishes a sample into
      the runtime state at most about once a second, or when the declared
      size has been reached. `size` is the normalised Content-Length. */
  class ProgressWriter {
    var total: int
    const size: int
    var lastUpdate: int
    var lastBytes: int

    ghost predicate Valid()
      reads this
    {
      total >= 0 && size >= 0
    }

    constructor (size: int, now: int)
      requires size >= 0
      ensures Valid()
      ensures this.size == size && total == 0 && lastUpdate == now && lastBytes == 0
    {
      this.size := size;
      total := 0;
      lastUpdate := now;
      lastBytes := 0;
    }

    /** Write of `n` bytes at clock reading `now`: never fails and never
        writes short. */
    method Write(rt: Runtime, n: nat, now: int) returns (written: nat, err: Option<IOError>)
      requires Valid()
      modifies this, rt`progress
      ensures Valid()
      ensures written == n && err == None
      ensures total == old(total) + n
      ensures now - old(lastUpdate) > SECOND || total == size ==>
        && lastUpdate == now && lastBytes == total
        && rt.progress == Sample(total, size, Speed(total - old(lastBytes), now - old(lastUpdate)))
      ensures !(now - old(lastUpdate) > SECOND || total == size) ==>
        lastUpdate == old(lastUpdate) && lastBytes == old(lastBytes) && rt.progress == old(rt.progress)
    {
      total := total + n;
      if now - lastUpdate > SECOND || total == size {
        var speed := Speed(total - lastBytes, now - lastUpdate);
        if size > 0 {
          rt.SetProgress(PercentOf(total, size), speed, size / 1024, STATUS_DOWNLOADING);
        } else {
          rt.SetProgress(0, speed, total / 1024, STATUS_DOWNLOADING);
        }
        lastUpdate := now;
        lastBytes := total;
      }
      written, err := n, None;
    }

    function Percent(): int
      reads this
    {
      PercentOf(total, size)
    }
  }

  /** The copy result `rest` of a suffix, seen from the whole body once
      `done` bytes have already been written. */
  function After(done: int, rest: CopyResult): CopyResult {
    CopyResult(done + rest.written, rest.err)
  }

  /** One round of `Copy`: an error ends it with that round's bytes, and
      otherwise the round's bytes come before the rest of the copy. */
  lemma CopyStep(body: seq<ReadCall>, limiter: Option<Limiter>)
    requires body != []
    ensures var e := StepError(body[0], limiter);
      Copy(body, limiter) ==
        if e.Some? then CopyResult(StepBytes(body[0], limiter), if e == Some(EOF) then None else e)
        else After(StepBytes(body[0], limiter), Copy(body[1..], limiter))
  {
  }

  /** io.Copy(io.MultiWriter(file, pw), reader): read, wait for tokens, write
      to the file and then to the progress writer, until a read or a write
      reports an error; EOF ends it without one. */
  method CopyBody(rt: Runtime, pw: ProgressWriter, body: seq<ReadCall>, limiter: Option<Limiter>)
    returns (err: Option<IOError>)
    requires pw.Valid()
    modifies pw, rt`progress
    ensures pw.Valid()
    ensures pw.total == old(pw.total) + Copy(body, limiter).written
    ensures err == Copy(body, limiter).err
  {
    var i := 0;
    ghost var done := 0;
    while i < |body|
      invariant 0 <= i <= |body|
      invariant pw.Valid() && pw.total == old(pw.total) + done
      invariant Copy(body, limiter) == After(done, Copy(body[i..], limiter))
    {
      var call := body[i];
      var rest := body[i..];
      assert rest[0] == call && rest[1..] == body[i + 1..];
      CopyStep(rest, limiter);
      var r := LimitedRead(call.result, limiter, call.wait);
      if r.n > 0 {
        if call.diskError.Some? {
          return Some(Failure(call.diskError.value));
        }
        var _, _ := pw.Write(rt, r.n, call.at);
      }
      done := done + r.n;
      if r.err.Some? {
        return if r.err == Some(EOF) then None else r.err;
      }
      i := i + 1;
    }
    err := None;
  }

  /** DownloadFileWithProgress: the request, the status check, the output
      file, the copy, and the progress record each way out leaves. Only the
      progress record of the runtime state changes. */
  method DownloadFileWithProgress(rt: Runtime, speedKB: int, env: Environment)
    returns (file: string, bytes: int, err: Option<DownloadError>)
    modifies rt`progress
    ensures TransferResult(file, bytes, err, rt.progress) == Transfer(speedKB, env, old(rt.progress))
  {
    match env.exchange {
      case RequestRejected(text) =>
        return "", 0, Some(RequestInvalid(text));
      case TransportError(text) =>
        rt.SetProgress(0, 0, 0, FAILED_PREFIX + text);
        return "", 0, Some(TransportFailed(text));
      case Answered(code, contentLength, body) =>
        if code != STATUS_OK {
          var e := BadStatus(code);
          rt.SetProgress(0, 0, 0, Message(e));
          return "", 0, Some(e);
        }
        var size := NormalizeSize(contentLength);
        if env.createError.Some? {
          rt.SetProgress(0, 0, 0, CREATE_FAILED);
          return "", 0, Some(CreateFailed(env.createError.value));
        }
        var pw := new ProgressWriter(size, env.start);
        var limiter := NewLimiter(speedKB);
        var sizeKB := size / 1024;
        if size == 0 {
          sizeKB := 0;
        }
        rt.SetProgress(0, 0, sizeKB, STATUS_DOWNLOADING);
        var copyErr := CopyBody(rt, pw, body, limiter);
        var kb := pw.total / 1024;
        if size > 0 {
          kb := size / 1024;
        }
        if copyErr.Some? {
          if copyErr == Some(Canceled) {
            rt.SetProgress(pw.Percent(), 0, kb, STATUS_MANUALLY_STOPPED);
            return env.fileName, pw.total, Some(ManuallyStopped);
          }
          rt.SetProgress(pw.Percent(), 0, kb, FAILED_PREFIX + ErrorText(copyErr.value));
          return env.fileName, pw.total, Some(CopyFailed(copyErr.value));
        }
        rt.SetProgress(100, 0, kb, STATUS_COMPLETE);
        return env.fileName, pw.total, None;
    }
  }
}
