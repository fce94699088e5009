/** The remote command executor of fuel_health/common/ssh.py (class `Client`).

    The transport library, sockets, `select` and the clock are replaced by traces the caller
    supplies: the clock reading and the outcome of each connection attempt, what each pass of
    the read loop observes on the channel, and the exit status the channel reports. A trace
    must be long enough for the loop it drives to end (its last entry ends the loop); that
    is a statement about the environment (real time passes, a hung channel is eventually
    idle), not about the client's callers. */
module Ssh {
  import opened Common
  import opened Text

  // ------------------------------------------------------------------ construction

  /** A key object as the client ends up holding it. */
  datatype Key =
    | KeyFromFile(path: string)   // parsed from the file a string `pkey` names
    | KeyFromText(text: string)   // parsed from the text `cat` printed on the jump host
    | GivenKey(id: nat)           // a key object the caller built itself

  /** What may be passed as `pkey`: nothing, a string, or a key object. */
  datatype PKeyArg = NoPKey | PKeyString(s: string) | PKeyObject(key: Key)

  /** The connection parameters fixed by `__init__`; nothing changes them afterwards. */
  datatype Client = Client(
    host: string,
    username: string,
    password: Option<string>,
    pkey: Option<Key>,
    lookForKeys: bool,
    keyFilename: Option<string>,
    timeout: int,
    channelTimeout: real,
    bufSize: nat)

  const BufSize: nat := 1024
  const DefaultTimeout: real := 300.0
  const DefaultChannelTimeout: real := 70.0
  const DefaultSleep: real := 1.5
  const DefaultBackoff: real := 1.01
  const HoldInterval: nat := 5
  const GuestSshPort: nat := 22

  /** Python's `int(x)` on a float: truncation toward zero. */
  function TruncateToInt(x: real): (r: int)
    ensures 0.0 <= x ==> 0 <= r && r as real <= x < r as real + 1.0
    ensures x < 0.0 ==> r <= 0 && r as real - 1.0 < x <= r as real
  {
    if x >= 0.0 then x.Floor else -((-x).Floor)
  }

  /** `Client.__init__`: a non-empty string `pkey` is read as a key file, an empty one means no
      key, anything else is kept as given; the timeout is truncated to an integer. */
  function NewClient(host: string, username: string, password: Option<string>, timeout: real,
                     pkey: PKeyArg, channelTimeout: real, lookForKeys: bool,
                     keyFilename: Option<string>): (c: Client)
    ensures c.host == host && c.username == username && c.password == password
    ensures c.lookForKeys == lookForKeys && c.keyFilename == keyFilename
    ensures c.pkey.None? <==> pkey.NoPKey? || pkey == PKeyString([])
    ensures pkey.PKeyString? && pkey.s != [] ==> c.pkey == Some(KeyFromFile(pkey.s))
    ensures pkey.PKeyObject? ==> c.pkey == Some(pkey.key)
    ensures 0.0 <= timeout ==> c.timeout as real <= timeout < c.timeout as real + 1.0
    ensures timeout < 0.0 ==> c.timeout as real - 1.0 < timeout <= c.timeout as real <= 0.0
    ensures c.channelTimeout == channelTimeout
    ensures c.bufSize == 1024
  {
    var key :=
      match pkey
      case NoPKey => None
      case PKeyString(s) => if s != [] then Some(KeyFromFile(s)) else None
      case PKeyObject(k) => Some(k);
    Client(host, username, password, key, lookForKeys, keyFilename,
           TruncateToInt(timeout), channelTimeout, BufSize)
  }

  // ------------------------------------------------------------------ errors

  datatype SshError =
    | SshTimeout(host: string, user: string, password: Option<string>, keyFilename: Option<string>)
    | CommandTimeout(message: string)
    | ExecCommandFailed(command: string, exitStatus: int, strerror: string)
    | ConnectError(outcome: ConnectOutcome)   // a `connect` failure the retry loop does not catch
    | AuthRejected(user: string)              // the guest refused the credentials

  // ------------------------------------------------------------------ deadline

  /** `_is_timed_out`: strictly more than `timeout` seconds have passed since `start`. */
  function IsTimedOut(timeout: int, start: real, now: real): (r: bool)
    ensures r <==> now - start > timeout as real
  {
    now - timeout as real > start
  }

  /** Once timed out, a later reading is timed out too; an elapsed time equal to the
      timeout is not yet timed out. */
  lemma TimedOutBoundary(timeout: int, start: real, now: real, later: real)
    ensures !IsTimedOut(timeout, start, start + timeout as real)
    ensures IsTimedOut(timeout, start, now) && now <= later ==> IsTimedOut(timeout, start, later)
  {
  }

  // ------------------------------------------------------------------ connection acquisition

  datatype ConnectOutcome =
    | Connected
    | SocketError
    | AuthenticationFailed
    | Eof
    | OtherFailure(name: string)
  {
    /** The failures `_get_ssh_connection` catches and retries. */
    predicate Retried() { SocketError? || AuthenticationFailed? }
  }

  /** One pass of the acquisition loop: the clock reading the deadline test takes, and what
      `connect` does when it is attempted. */
  datatype ConnectStep = ConnectStep(now: real, outcome: ConnectOutcome)

  /** The loop ends at this pass: the deadline has passed, or `connect` did not fail retryably. */
  predicate EndsAcquire(c: Client, start: real, st: ConnectStep) {
    IsTimedOut(c.timeout, start, st.now) || !st.outcome.Retried()
  }

  /** The trace reaches the deadline. */
  predicate DeadlinePasses(c: Client, start: real, steps: seq<ConnectStep>) {
    |steps| > 0 && IsTimedOut(c.timeout, start, steps[|steps| - 1].now)
  }

  /** What acquisition produced (the index of the pass whose `connect` succeeded, or the
      error raised) and the durations it slept, in order. */
  datatype AcquireRun = AcquireRun(result: Result<nat, SshError>, sleeps: seq<real>)

  function Pow(b: real, n: nat): real
  {
    if n == 0 then 1.0 else b * Pow(b, n - 1)
  }

  /** The duration of the sleep after the `i`-th failed attempt: `bsleep` starts at `sleep`
      and is multiplied by `backoff` after each sleep. */
  function NthSleep(sleep: real, backoff: real, i: nat): real
  {
    if i == 0 then sleep else NthSleep(sleep, backoff, i - 1) * backoff
  }

  /** The `i`-th sleep is `sleep * backoff^i`. */
  lemma {:induction false} NthSleepClosedForm(sleep: real, backoff: real, i: nat)
    ensures NthSleep(sleep, backoff, i) == sleep * Pow(backoff, i)
  {
    if i > 0 {
      NthSleepClosedForm(sleep, backoff, i - 1);
      var p := Pow(backoff, i - 1);
      assert sleep * p * backoff == sleep * (backoff * p);
    }
  }

  /** With a factor of at least 1 no sleep is shorter than the first. */
  lemma {:induction false} NthSleepAtLeastFirst(sleep: real, backoff: real, i: nat)
    requires sleep >= 0.0 && backoff >= 1.0
    ensures NthSleep(sleep, backoff, i) >= sleep
  {
    if i > 0 {
      NthSleepAtLeastFirst(sleep, backoff, i - 1);
      ScaleAtLeast(NthSleep(sleep, backoff, i - 1), backoff);
    }
  }

  lemma ScaleAtLeast(x: real, y: real)
    requires x >= 0.0 && y >= 1.0
    ensures x * y >= x
  {
    assert x * y - x == x * (y - 1.0);
  }

  /** The first `n` sleeps of the backoff, in order. */
  function BackoffSchedule(sleep: real, backoff: real, n: nat): (r: seq<real>)
    ensures |r| == n
    ensures forall j :: 0 <= j < n ==> r[j] == NthSleep(sleep, backoff, j)
  {
    if n == 0 then [] else BackoffSchedule(sleep, backoff, n - 1) + [NthSleep(sleep, backoff, n - 1)]
  }

  /** The pass at which acquisition stops: the first one that ends the loop. */
  function AcquireStop(c: Client, start: real, steps: seq<ConnectStep>): (k: nat)
    requires DeadlinePasses(c, start, steps)
    ensures k < |steps| && EndsAcquire(c, start, steps[k])
    ensures forall j :: 0 <= j < k ==> !EndsAcquire(c, start, steps[j])
  {
    var m := FirstMatch(steps, (st: ConnectStep) => EndsAcquire(c, start, st));
    assert EndsAcquire(c, start, steps[|steps| - 1]);
    m.value
  }

  /** `_get_ssh_connection(sleep, backoff)`: attempts start only while the deadline has not
      passed; the first successful `connect` wins; each retried failure sleeps the current
      backoff first; running out of time raises `SSHTimeout` with the client's host, user,
      password and key file. */
  function Acquire(c: Client, start: real, steps: seq<ConnectStep>, sleep: real, backoff: real): AcquireRun
    requires DeadlinePasses(c, start, steps)
  {
    var k := AcquireStop(c, start, steps);
    AcquireRun(StopResult(c, start, steps[k], k), BackoffSchedule(sleep, backoff, k))
  }

  /** What acquisition produces when it stops at pass `k`. */
  function StopResult(c: Client, start: real, st: ConnectStep, k: nat): Result<nat, SshError>
  {
    if IsTimedOut(c.timeout, start, st.now) then Err(SshTimeout(c.host, c.username, c.password, c.keyFilename))
    else if st.outcome.Connected? then Ok(k)
    else Err(ConnectError(st.outcome))
  }

  lemma AcquireStopsAt(c: Client, start: real, steps: seq<ConnectStep>, sleep: real, backoff: real, i: nat)
    requires DeadlinePasses(c, start, steps)
    requires i < |steps| && EndsAcquire(c, start, steps[i])
    requires forall j :: 0 <= j < i ==> !EndsAcquire(c, start, steps[j])
    ensures Acquire(c, start, steps, sleep, backoff) ==
      AcquireRun(StopResult(c, start, steps[i], i), BackoffSchedule(sleep, backoff, i))
  {
    var k := AcquireStop(c, start, steps);
    assert !(k < i) && !(i < k);
  }

  /** Acquisition succeeds at pass `i` exactly when `connect` succeeds there before the
      deadline and every earlier pass was a retried failure before the deadline. */
  lemma AcquireFirstSuccess(c: Client, start: real, steps: seq<ConnectStep>, sleep: real, backoff: real, i: nat)
    requires DeadlinePasses(c, start, steps)
    ensures Acquire(c, start, steps, sleep, backoff).result == Ok(i) <==>
      i < |steps| && steps[i].outcome.Connected? && !IsTimedOut(c.timeout, start, steps[i].now) &&
      forall j :: 0 <= j < i ==> steps[j].outcome.Retried() && !IsTimedOut(c.timeout, start, steps[j].now)
  {
    var k := AcquireStop(c, start, steps);
    if i < |steps| && steps[i].outcome.Connected? && !IsTimedOut(c.timeout, start, steps[i].now) &&
      forall j :: 0 <= j < i ==> steps[j].outcome.Retried() && !IsTimedOut(c.timeout, start, steps[j].now)
    {
      assert EndsAcquire(c, start, steps[i]);
    }
  }

  /** Acquisition gives up only after the deadline, with the client's own diagnostics; it slept
      once per failed attempt, following the backoff schedule. */
  lemma AcquireTimeout(c: Client, start: real, steps: seq<ConnectStep>, sleep: real, backoff: real)
    requires DeadlinePasses(c, start, steps)
    ensures var a := Acquire(c, start, steps, sleep, backoff);
      a.result.Err? && a.result.error.SshTimeout? ==>
        a.result.error == SshTimeout(c.host, c.username, c.password, c.keyFilename) &&
        |a.sleeps| < |steps| && steps[|a.sleeps|].now - start > c.timeout as real &&
        forall j :: 0 <= j < |a.sleeps| ==>
          steps[j].outcome.Retried() && a.sleeps[j] == sleep * Pow(backoff, j)
  {
    var a := Acquire(c, start, steps, sleep, backoff);
    forall j | 0 <= j < |a.sleeps|
      ensures a.sleeps[j] == sleep * Pow(backoff, j)
    {
      NthSleepClosedForm(sleep, backoff, j);
    }
  }

  /** The retry loop never lets a socket or authentication failure escape. */
  lemma AcquireNeverRaisesRetried(c: Client, start: real, steps: seq<ConnectStep>, sleep: real, backoff: real)
    requires DeadlinePasses(c, start, steps)
    ensures var r := Acquire(c, start, steps, sleep, backoff).result;
      r.Err? && r.error.ConnectError? ==> !r.error.outcome.Retried() && !r.error.outcome.Connected?
  {
  }

  /** The loop of `_get_ssh_connection`, proved to compute `Acquire`. */
  method GetSshConnection(c: Client, start: real, steps: seq<ConnectStep>, sleep: real, backoff: real)
    returns (a: AcquireRun)
    requires DeadlinePasses(c, start, steps)
    ensures a == Acquire(c, start, steps, sleep, backoff)
  {
    var timedOut := true;
    var bsleep := sleep;
    var sleeps: seq<real> := [];
    var i := 0;
    while !IsTimedOut(c.timeout, start, steps[i].now)
      invariant 0 <= i < |steps|
      invariant forall j :: 0 <= j < i ==> !EndsAcquire(c, start, steps[j])
      invariant bsleep == NthSleep(sleep, backoff, i)
      invariant sleeps == BackoffSchedule(sleep, backoff, i)
      decreases |steps| - i
    {
      var outcome := steps[i].outcome;
      if outcome.Connected? {
        timedOut := false;
        break;
      } else if !outcome.Retried() {
        AcquireStopsAt(c, start, steps, sleep, backoff, i);
        return AcquireRun(Err(ConnectError(outcome)), sleeps);
      }
      sleeps := sleeps + [bsleep];
      bsleep := bsleep * backoff;
      i := i + 1;
    }
    AcquireStopsAt(c, start, steps, sleep, backoff, i);
    if timedOut {
      a := AcquireRun(Err(SshTimeout(c.host, c.username, c.password, c.keyFilename)), sleeps);
    } else {
      a := AcquireRun(Ok(i), sleeps);
    }
  }

  // ------------------------------------------------------------------ command execution

  /** What one pass of the read loop observes. `NothingReady`: `select` waited
      `channel_timeout` seconds and returned nothing. `NotReadable`: it returned without the
      channel in the read list. `Readable`: `out` (`err`) is what the channel held for stdout
      (stderr) when `recv_ready()` (`recv_stderr_ready()`) held, and `closed` is
      `channel.closed` after the reads. `select` is given the channel as its only read list,
      so a non-empty result always holds the channel: `NotReadable` is kept for the `continue`
      the source writes, but no real pass produces it. */
  datatype Poll =
    | NothingReady
    | NotReadable
    | Readable(out: Option<string>, err: Option<string>, closed: bool)

  /** `recv(n)`: at most `n` characters from the front of what the channel holds. */
  function Take(avail: string, n: nat): (r: string)
    ensures |r| <= n && |r| <= |avail| && r == avail[..|r|]
    ensures |avail| > 0 && n > 0 ==> |r| > 0
  {
    if |avail| <= n then avail else avail[..n]
  }

  /** The stdout chunk a pass reads, if it reads one. */
  function OutChunk(c: Client, p: Poll): Option<string>
  {
    if p.Readable? && p.out.Some? then Some(Take(p.out.value, c.bufSize)) else None
  }

  function ErrChunk(c: Client, p: Poll): Option<string>
  {
    if p.Readable? && p.err.Some? then Some(Take(p.err.value, c.bufSize)) else None
  }

  /** The read loop ends at this pass: by an idle timeout, or because the channel is closed
      and the pass read nothing. */
  predicate EndsDrain(c: Client, p: Poll) {
    p.NothingReady? || (p.Readable? && p.closed && Falsy(OutChunk(c, p)) && Falsy(ErrChunk(c, p)))
  }

  predicate DrainEnds(c: Client, polls: seq<Poll>) {
    |polls| > 0 && EndsDrain(c, polls[|polls| - 1])
  }

  /** The stdout chunks the passes `ps` read, in arrival order. */
  function OutChunks(c: Client, ps: seq<Poll>): seq<string>
  {
    if |ps| == 0 then [] else OutChunks(c, ps[..|ps| - 1]) + AsList(OutChunk(c, ps[|ps| - 1]))
  }

  function ErrChunks(c: Client, ps: seq<Poll>): seq<string>
  {
    if |ps| == 0 then [] else ErrChunks(c, ps[..|ps| - 1]) + AsList(ErrChunk(c, ps[|ps| - 1]))
  }

  /** Reading two stretches of passes one after the other collects their chunks one after the other. */
  lemma {:induction false} OutChunksAppend(c: Client, a: seq<Poll>, b: seq<Poll>)
    ensures OutChunks(c, a + b) == OutChunks(c, a) + OutChunks(c, b)
    decreases |b|
  {
    if |b| > 0 {
      var b' := b[..|b| - 1];
      assert (a + b)[..|a + b| - 1] == a + b';
      OutChunksAppend(c, a, b');
    } else {
      assert a + b == a;
    }
  }

  /** No chunk is longer than the client's read size. */
  lemma {:induction false} ChunksBounded(c: Client, ps: seq<Poll>)
    ensures forall k :: 0 <= k < |OutChunks(c, ps)| ==> |OutChunks(c, ps)[k]| <= c.bufSize
    ensures forall k :: 0 <= k < |ErrChunks(c, ps)| ==> |ErrChunks(c, ps)[k]| <= c.bufSize
  {
    if |ps| > 0 {
      ChunksBounded(c, ps[..|ps| - 1]);
    }
  }

  /** Reading one more pass appends that pass's chunks. */
  lemma ChunksStep(c: Client, polls: seq<Poll>, i: nat)
    requires i < |polls|
    ensures OutChunks(c, polls[..i + 1]) == OutChunks(c, polls[..i]) + AsList(OutChunk(c, polls[i]))
    ensures ErrChunks(c, polls[..i + 1]) == ErrChunks(c, polls[..i]) + AsList(ErrChunk(c, polls[i]))
  {
    assert polls[..i + 1][..i] == polls[..i];
  }

  /** The pass at which the read loop stops. */
  function DrainStop(c: Client, polls: seq<Poll>): (k: nat)
    requires DrainEnds(c, polls)
    ensures k < |polls| && EndsDrain(c, polls[k])
    ensures forall j :: 0 <= j < k ==> !EndsDrain(c, polls[j])
  {
    var m := FirstMatch(polls, (p: Poll) => EndsDrain(c, p));
    assert EndsDrain(c, polls[|polls| - 1]);
    m.value
  }

  /** The message of the `TimeoutException` an idle channel raises. */
  function TimeoutMessage(command: string, host: string): (m: string)
    ensures |m| == |command| + |host| + 32
    ensures OccursAt(m, command, 10) && OccursAt(m, host, |command| + 30)
  {
    "Command: '" + command + "' executed on host '" + host + "'."
  }

  /** `''.join(err).join(out)` as the source builds `strerror`: the stdout chunks with the
      whole stderr text between each neighbouring pair. */
  function StrErrorAsWritten(errData: seq<string>, outData: seq<string>): string
  {
    Join(outData, Concat(errData))
  }

  /** The diagnostic the failure is meant to carry: stderr, then stdout. */
  function StrError(errData: seq<string>, outData: seq<string>): (r: string)
    ensures |r| == |Concat(errData)| + |Concat(outData)|
    ensures r[..|Concat(errData)|] == Concat(errData) && r[|Concat(errData)|..] == Concat(outData)
  {
    Concat(errData) + Concat(outData)
  }

  /** As written, the stderr text is lost whenever at most one stdout chunk was read: the
      result is the stdout text alone. With stderr `"denied"` and no stdout the failure
      carries the empty string. */
  lemma StrErrorAsWrittenLosesStderr(errData: seq<string>, outData: seq<string>)
    requires |outData| <= 1
    ensures StrErrorAsWritten(errData, outData) == Concat(outData)
    ensures StrErrorAsWritten(["denied"], []) == "" != StrError(["denied"], [])
  {
  }

  /** The two texts differ only when stderr said something: with no stderr text, the source's
      join and the intended concatenation agree. */
  lemma StrErrorAsWrittenWithoutStderr(errData: seq<string>, outData: seq<string>)
    requires Concat(errData) == []
    ensures StrErrorAsWritten(errData, outData) == StrError(errData, outData)
  {
    JoinEmptySeparator(outData);
  }

  /** `_exec_command` on an already open transport, given the exit status the channel reports
      and what each pass of the read loop observes. */
  function CommandOutcome(c: Client, command: string, exitStatus: int, polls: seq<Poll>): (r: Result<string, SshError>)
    requires DrainEnds(c, polls)
    ensures var k := DrainStop(c, polls);
      (r == Err(CommandTimeout(TimeoutMessage(command, c.host))) <==> polls[k].NothingReady?)
      && (r.Ok? <==> !polls[k].NothingReady? && exitStatus == 0)
      && (r.Ok? ==> r.value == Concat(OutChunks(c, polls[..k + 1])))
      && (r.Err? && !r.error.CommandTimeout? ==>
            r.error == ExecCommandFailed(command, exitStatus,
                         StrError(ErrChunks(c, polls[..k + 1]), OutChunks(c, polls[..k + 1]))))
  {
    var k := DrainStop(c, polls);
    if polls[k].NothingReady? then
      Err(CommandTimeout(TimeoutMessage(command, c.host)))
    else
      var outData := OutChunks(c, polls[..k + 1]);
      var errData := ErrChunks(c, polls[..k + 1]);
      if exitStatus != 0 then Err(ExecCommandFailed(command, exitStatus, StrError(errData, outData)))
      else Ok(Concat(outData))
  }

  /** The outcome when the read loop stops at pass `i`. */
  lemma CommandOutcomeAt(c: Client, command: string, exitStatus: int, polls: seq<Poll>, i: nat)
    requires DrainEnds(c, polls)
    requires i < |polls| && EndsDrain(c, polls[i])
    requires forall j :: 0 <= j < i ==> !EndsDrain(c, polls[j])
    ensures CommandOutcome(c, command, exitStatus, polls) ==
      if polls[i].NothingReady? then Err(CommandTimeout(TimeoutMessage(command, c.host)))
      else if exitStatus != 0 then
        Err(ExecCommandFailed(command, exitStatus,
                              StrError(ErrChunks(c, polls[..i + 1]), OutChunks(c, polls[..i + 1]))))
      else Ok(Concat(OutChunks(c, polls[..i + 1])))
  {
    var k := DrainStop(c, polls);
    assert !(k < i) && !(i < k);
  }

  /** The loop of `_exec_command`, proved to compute `CommandOutcome`. */
  method ExecCommandOn(c: Client, command: string, exitStatus: int, polls: seq<Poll>)
    returns (r: Result<string, SshError>)
    requires DrainEnds(c, polls)
    ensures r == CommandOutcome(c, command, exitStatus, polls)
  {
    var outData: seq<string> := [];
    var errData: seq<string> := [];
    var i := 0;
    while true
      invariant 0 <= i < |polls|
      invariant forall j :: 0 <= j < i ==> !EndsDrain(c, polls[j])
      invariant outData == OutChunks(c, polls[..i]) && errData == ErrChunks(c, polls[..i])
      decreases |polls| - i
    {
      var p := polls[i];
      ChunksStep(c, polls, i);
      if p.NothingReady? {
        CommandOutcomeAt(c, command, exitStatus, polls, i);
        return Err(CommandTimeout(TimeoutMessage(command, c.host)));
      }
      if p.NotReadable? {
        i := i + 1;
        continue;
      }
      var outChunk: Option<string> := None;
      var errChunk: Option<string> := None;
      if p.out.Some? {
        outChunk := Some(Take(p.out.value, c.bufSize));
        outData := outData + [outChunk.value];
      }
      if p.err.Some? {
        errChunk := Some(Take(p.err.value, c.bufSize));
        errData := errData + [errChunk.value];
      }
      assert outChunk == OutChunk(c, p) && errChunk == ErrChunk(c, p);
      assert outData == OutChunks(c, polls[..i + 1]) && errData == ErrChunks(c, polls[..i + 1]);
      if p.closed && Falsy(errChunk) && Falsy(outChunk) {
        CommandOutcomeAt(c, command, exitStatus, polls, i);
        if exitStatus != 0 {
          r := Err(ExecCommandFailed(command, exitStatus, StrError(errData, outData)));
        } else {
          r := Ok(Concat(outData));
        }
        return;
      }
      i := i + 1;
    }
  }

  // ------------------------------------------------------------------ public operations

  /** `exec_command`: acquire a connection with the default backoff, then run the command on it. */
  function ExecCommandOutcome(c: Client, command: string, start: real, steps: seq<ConnectStep>,
                              exitStatus: int, polls: seq<Poll>): (r: Result<string, SshError>)
    requires DeadlinePasses(c, start, steps) && DrainEnds(c, polls)
    ensures Acquire(c, start, steps, DefaultSleep, DefaultBackoff).result.Err? ==>
      r == Err(Acquire(c, start, steps, DefaultSleep, DefaultBackoff).result.error)
    ensures Acquire(c, start, steps, DefaultSleep, DefaultBackoff).result.Ok? ==>
      r == CommandOutcome(c, command, exitStatus, polls)
  {
    var a := Acquire(c, start, steps, DefaultSleep, DefaultBackoff);
    if a.result.Err? then Err(a.result.error) else CommandOutcome(c, command, exitStatus, polls)
  }

  method ExecCommand(c: Client, command: string, start: real, steps: seq<ConnectStep>,
                     exitStatus: int, polls: seq<Poll>) returns (r: Result<string, SshError>)
    requires DeadlinePasses(c, start, steps) && DrainEnds(c, polls)
    ensures r == ExecCommandOutcome(c, command, start, steps, exitStatus, polls)
  {
    var a := GetSshConnection(c, start, steps, DefaultSleep, DefaultBackoff);
    if a.result.Err? {
      return Err(a.result.error);
    }
    r := ExecCommandOn(c, command, exitStatus, polls);
  }

  /** `test_connection_auth`: true once a connection is acquired; the `False` branch for an
      authentication failure is kept, although acquisition never lets one through. */
  function TestConnectionAuth(c: Client, start: real, steps: seq<ConnectStep>): (r: Result<bool, SshError>)
    requires DeadlinePasses(c, start, steps)
    ensures r != Ok(false)
    ensures r == Ok(true) <==> Acquire(c, start, steps, DefaultSleep, DefaultBackoff).result.Ok?
    ensures r.Err? ==> r == Err(Acquire(c, start, steps, DefaultSleep, DefaultBackoff).result.error)
  {
    match Acquire(c, start, steps, DefaultSleep, DefaultBackoff).result
    case Ok(_) => Ok(true)
    case Err(e) => if e == ConnectError(AuthenticationFailed) then Ok(false) else Err(e)
  }

  /** One pass of the wait in `connect_until_closed`: the clock reading of the deadline test
      and whether the transport is still active. */
  datatype HoldStep = HoldStep(now: real, active: bool)

  datatype HoldOutcome =
    | ClosedAfter(naps: nat)   // closed the session after `naps` sleeps of `HoldInterval` seconds
    | Dropped                  // the connection attempt ended in a swallowed error

  predicate EndsHold(c: Client, holdStart: real, h: HoldStep) {
    !h.active || IsTimedOut(c.timeout, holdStart, h.now)
  }

  predicate HoldEnds(c: Client, holdStart: real, hold: seq<HoldStep>) {
    |hold| > 0 && EndsHold(c, holdStart, hold[|hold| - 1])
  }

  /** `connect_until_closed`: after acquiring a connection, sleep while the transport is
      active and the timeout, counted from the start of this wait, has not passed; an
      end-of-file, socket or authentication error is swallowed. */
  function Hold(c: Client, start: real, steps: seq<ConnectStep>, holdStart: real, hold: seq<HoldStep>)
    : (r: Result<HoldOutcome, SshError>)
    requires DeadlinePasses(c, start, steps) && HoldEnds(c, holdStart, hold)
    ensures r.Ok? && r.value.ClosedAfter? ==>
      r.value.naps < |hold| && EndsHold(c, holdStart, hold[r.value.naps]) &&
      forall j :: 0 <= j < r.value.naps ==> hold[j].active && !IsTimedOut(c.timeout, holdStart, hold[j].now)
    ensures r.Err? ==> r.error.SshTimeout? || (r.error.ConnectError? && r.error.outcome.OtherFailure?)
    ensures r.Ok? && r.value.ClosedAfter? <==> Acquire(c, start, steps, DefaultSleep, DefaultBackoff).result.Ok?
    ensures r == Ok(Dropped) <==> Acquire(c, start, steps, DefaultSleep, DefaultBackoff).result == Err(ConnectError(Eof))
    ensures r.Err? ==> r == Err(Acquire(c, start, steps, DefaultSleep, DefaultBackoff).result.error)
  {
    AcquireNeverRaisesRetried(c, start, steps, DefaultSleep, DefaultBackoff);
    match Acquire(c, start, steps, DefaultSleep, DefaultBackoff).result
    case Ok(_) =>
      var m := FirstMatch(hold, (h: HoldStep) => EndsHold(c, holdStart, h));
      assert EndsHold(c, holdStart, hold[|hold| - 1]);
      Ok(ClosedAfter(m.value))
    case Err(e) =>
      if e.ConnectError? && (e.outcome.Eof? || e.outcome.Retried()) then Ok(Dropped) else Err(e)
  }

  /** The polling loop of `connect_until_closed`, proved to compute `Hold`. */
  method ConnectUntilClosed(c: Client, start: real, steps: seq<ConnectStep>, holdStart: real, hold: seq<HoldStep>)
    returns (r: Result<HoldOutcome, SshError>)
    requires DeadlinePasses(c, start, steps) && HoldEnds(c, holdStart, hold)
    ensures r == Hold(c, start, steps, holdStart, hold)
  {
    var a := GetSshConnection(c, start, steps, DefaultSleep, DefaultBackoff);
    if a.result.Err? {
      var e := a.result.error;
      if e.ConnectError? && (e.outcome.Eof? || e.outcome.Retried()) {
        return Ok(Dropped);
      }
      return Err(e);
    }
    var i := 0;
    var timedOut := IsTimedOut(c.timeout, holdStart, hold[0].now);
    while hold[i].active && !timedOut
      invariant 0 <= i < |hold|
      invariant timedOut == IsTimedOut(c.timeout, holdStart, hold[i].now)
      invariant forall j :: 0 <= j < i ==> !EndsHold(c, holdStart, hold[j])
      decreases |hold| - i
    {
      i := i + 1;
      timedOut := IsTimedOut(c.timeout, holdStart, hold[i].now);
    }
    var m := FirstMatch(hold, (h: HoldStep) => EndsHold(c, holdStart, h));
    assert m == Some(i);
    r := Ok(ClosedAfter(i));
  }

  // ------------------------------------------------------------------ jump host

  datatype Endpoint = Endpoint(address: string, port: nat)

  /** The `direct-tcpip` channel opened on the jump host's transport. */
  datatype Tunnel = Tunnel(dest: Endpoint, origin: Endpoint)

  datatype GuestAuth = PasswordAuth(user: string, password: string) | PublicKeyAuth(user: string, key: Key)

  /** What the guest side of `exec_command_on_vm` observes: the `cat` of the key file on the
      jump host (used only when a key path is given), whether the guest accepts the
      credentials, and the command's own run on the guest. */
  datatype VmEnv = VmEnv(
    keyExit: int, keyPolls: seq<Poll>,
    authAccepted: bool,
    cmdExit: int, cmdPolls: seq<Poll>)

  /** The tunnel opened, the key-reading command run on the jump host, the authentication
      call made on the guest transport, and the result. */
  datatype VmRun = VmRun(tunnel: Option<Tunnel>, keyCommand: Option<string>, auth: Option<GuestAuth>,
                         result: Result<string, SshError>)

  predicate VmEnvEnds(c: Client, password: Option<string>, pkey: PKeyArg, env: VmEnv) {
    DrainEnds(c, env.cmdPolls) && (password.None? && pkey.PKeyString? ==> DrainEnds(c, env.keyPolls))
  }

  /** Authenticate (when there is a credential), then run the command over the guest transport. */
  function OnGuest(c: Client, command: string, user: string, auth: Option<GuestAuth>, env: VmEnv)
    : (r: Result<string, SshError>)
    requires DrainEnds(c, env.cmdPolls)
  {
    if auth.Some? && !env.authAccepted then Err(AuthRejected(user))
    else CommandOutcome(c, command, env.cmdExit, env.cmdPolls)
  }

  /** `exec_command_on_vm`: tunnel from the jump host to port 22 of the guest; a password wins
      over a key; a string key is a path whose text is read with `cat` on the jump host; with
      no credential the command runs without an authentication call. */
  function ExecOnVm(c: Client, command: string, vm: string, user: string, password: Option<string>,
                    pkey: PKeyArg, start: real, steps: seq<ConnectStep>, env: VmEnv): (run: VmRun)
    requires DeadlinePasses(c, start, steps) && VmEnvEnds(c, password, pkey, env)
    ensures Acquire(c, start, steps, DefaultSleep, DefaultBackoff).result.Err? <==> run.tunnel.None?
    ensures run.tunnel.Some? ==> run.tunnel.value == Tunnel(Endpoint(vm, GuestSshPort), Endpoint(c.host, 0))
    ensures run.tunnel.Some? && password.Some? ==>
      run.auth == Some(PasswordAuth(user, password.value)) && run.keyCommand.None?
    ensures run.tunnel.Some? && password.None? && pkey.PKeyString? ==>
      run.keyCommand == Some("cat " + pkey.s) &&
      (run.auth.Some? <==> CommandOutcome(c, "cat " + pkey.s, env.keyExit, env.keyPolls).Ok?) &&
      (run.auth.Some? ==>
        run.auth.value == PublicKeyAuth(user, KeyFromText(CommandOutcome(c, "cat " + pkey.s, env.keyExit, env.keyPolls).value)))
    ensures run.tunnel.Some? && password.None? && pkey.PKeyObject? ==>
      run.auth == Some(PublicKeyAuth(user, pkey.key)) && run.keyCommand.None?
    ensures run.tunnel.Some? && password.None? && pkey.NoPKey? ==>
      run.auth.None? && run.keyCommand.None? && run.result == CommandOutcome(c, command, env.cmdExit, env.cmdPolls)
    ensures run.tunnel.Some? && (run.auth.Some? ==> env.authAccepted) && (run.keyCommand.Some? ==> run.auth.Some?) ==>
      run.result == CommandOutcome(c, command, env.cmdExit, env.cmdPolls)
    ensures run.tunnel.None? ==> run.result == Err(Acquire(c, start, steps, DefaultSleep, DefaultBackoff).result.error)
    ensures run.tunnel.Some? && password.None? && pkey.PKeyString? && run.auth.None? ==>
      CommandOutcome(c, "cat " + pkey.s, env.keyExit, env.keyPolls).Err? &&
      run.result == Err(CommandOutcome(c, "cat " + pkey.s, env.keyExit, env.keyPolls).error)
    ensures run.auth.Some? && !env.authAccepted ==> run.result == Err(AuthRejected(user))
  {
    var a := Acquire(c, start, steps, DefaultSleep, DefaultBackoff);
    if a.result.Err? then
      VmRun(None, None, None, Err(a.result.error))
    else
      var tunnel := Some(Tunnel(Endpoint(vm, GuestSshPort), Endpoint(c.host, 0)));
      if password.Some? then
        var auth := Some(PasswordAuth(user, password.value));
        VmRun(tunnel, None, auth, OnGuest(c, command, user, auth, env))
      else
        match pkey
        case NoPKey =>
          VmRun(tunnel, None, None, OnGuest(c, command, user, None, env))
        case PKeyObject(k) =>
          var auth := Some(PublicKeyAuth(user, k));
          VmRun(tunnel, None, auth, OnGuest(c, command, user, auth, env))
        case PKeyString(path) =>
          var cat := "cat " + path;
          match CommandOutcome(c, cat, env.keyExit, env.keyPolls)
          case Err(e) => VmRun(tunnel, Some(cat), None, Err(e))
          case Ok(text) =>
            var auth := Some(PublicKeyAuth(user, KeyFromText(text)));
            VmRun(tunnel, Some(cat), auth, OnGuest(c, command, user, auth, env))
  }
}
