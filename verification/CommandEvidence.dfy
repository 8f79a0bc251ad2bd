/** A supervised command: two bounded private logs, a polling loop against a deadline, and the cleanup that
    decides whether the result may be called PASS. */
module CommandEvidence {
  import opened Wrappers

  const BLOCK := 65536
  const SECOND := 1_000_000_000

  datatype Code = Pass | CommandFailed | TimedOut | Cancelled | Spawn | Cleanup | OutputLimit | OutputIo

  /** What the pipe answers to one read of at most a block; it is at its end only when nothing remains. */
  datatype Read = Data(count: nat) | ReadFails

  /** What the sink answers to one write: how many bytes it took. */
  datatype Write = Took(count: nat) | WriteFails

  /** Everything that the host may do to one capture. */
  datatype Host = Host(opens: bool, read: nat -> Read, write: nat -> Write, syncs: bool, closes: bool)

  /** A host that never fails: every read and write advances. */
  ghost predicate Willing(host: Host) {
    && host.opens && host.syncs && host.closes
    && (forall n: nat :: host.read(n).Data?) && (forall n: nat :: host.write(n).Took? && host.write(n).count > 0)
  }

  /** Nothing stands in the way of a complete log. */
  ghost predicate Fits(stream: seq<bv8>, host: Host, limit: nat) {
    Willing(host) && |stream| <= limit
  }

  ghost predicate IsPrefix(a: seq<bv8>, b: seq<bv8>) {
    |a| <= |b| && a == b[..|a|]
  }

  function Min(a: int, b: int): int {
    if a < b then a else b
  }

  /** What follows a prefix makes a longer one. */
  lemma Continued(stream: seq<bv8>, done: nat, kept: seq<bv8>, n: nat)
    requires done <= |stream| && n <= |kept| && (kept != [] ==> done + |kept| <= |stream| && kept == stream[done..][..|kept|])
    ensures done + n <= |stream| && stream[..done] + kept[..n] == stream[..done + n]
    ensures IsPrefix(stream[..done] + kept[..n], stream)
  {
  }

  class Capture {
    const limit: nat
    var log: seq<bv8>
    var count: nat
    var eof: bool
    var closed: bool
    var error: Option<Code>

    constructor (limit: nat)
      ensures this.limit == limit && log == [] && count == 0 && !eof && !closed && error == None
    {
      this.limit, log, count, eof, closed, error := limit, [], 0, false, false, None;
    }

    /** Write all of `kept`, however the sink cuts it; false when the sink fails or does not advance. */
    method WriteAll(kept: seq<bv8>, host: Host, turn: nat) returns (ok: bool, next: nat)
      requires count == |log| && |log| + |kept| <= limit
      modifies this`log, this`count
      ensures count == |log| <= limit
      ensures exists n | 0 <= n <= |kept| :: log == old(log) + kept[..n]
      ensures ok ==> log == old(log) + kept
      ensures Willing(host) ==> ok
    {
      var view := kept;
      next := turn;
      ghost var done := 0;
      while view != []
        invariant 0 <= done <= |kept| && view == kept[done..] && log == old(log) + kept[..done]
        invariant count == |log|
        decreases |view|
      {
        var answer := host.write(next);
        next := next + 1;
        if answer.WriteFails? || answer.count == 0 { return false, next; }
        var written := Min(answer.count, |view|);
        log := log + view[..written];
        count := count + written;
        assert kept[..done] + kept[done..][..written] == kept[..done + written];
        view := view[written..];
        done := done + written;
      }
      ok := true;
    }

    /** Copy a stream: the log is always a prefix of it within the limit, and it is the whole stream when the
        end was reached without an error. */
    method Copy(stream: seq<bv8>, host: Host)
      requires log == [] && count == 0 && !eof && !closed && error == None
      modifies this
      ensures count == |log| <= limit && IsPrefix(log, stream)
      ensures eof && error.None? ==> log == stream
      ensures eof && |stream| > limit ==> error.Some?
      ensures closed == host.closes
      ensures Willing(host) ==> eof && error == if |stream| > limit then Some(OutputLimit) else None
      ensures error.Some? ==> error.value in {OutputLimit, OutputIo, Cleanup}
    {
      if host.opens {
        Drain(stream, host);
        if eof && !host.syncs && error.None? { error := Some(OutputIo); }
      } else {
        error := Some(OutputIo);
      }
      closed := host.closes;
      if !closed && error.None? { error := Some(Cleanup); }
    }

    /** Read to the end, even past the limit, unless reading or writing fails. */
    method Drain(stream: seq<bv8>, host: Host)
      requires log == [] && count == 0 && !eof && error == None
      modifies this`log, this`count, this`eof, this`error
      ensures count == |log| <= limit && IsPrefix(log, stream)
      ensures eof && error.None? ==> log == stream
      ensures eof && |stream| > limit ==> error.Some?
      ensures !eof ==> error.Some?
      ensures error.Some? ==> error.value in {OutputLimit, OutputIo}
      ensures Willing(host) ==> eof && error == if |stream| > limit then Some(OutputLimit) else None
    {
      var rest, turn, writes := stream, 0, 0;
      ghost var taken := 0;
      while rest != []
        invariant 0 <= taken <= |stream| && rest == stream[taken..]
        invariant !eof && count == |log| <= limit && IsPrefix(log, stream)
        invariant log == stream[..Min(taken, limit)]
        invariant error == if taken > limit then Some(OutputLimit) else None
        decreases |rest|
      {
        var answer := host.read(turn);
        turn := turn + 1;
        if answer.ReadFails? {
          if error.None? { error := Some(OutputIo); }
          return;
        }
        var size := if answer.count == 0 then 1 else Min(answer.count, Min(BLOCK, |rest|));
        var block := rest[..size];
        var permitted := limit - count;
        if |block| > permitted { error := Some(OutputLimit); }
        var kept := block[..Min(|block|, permitted)];
        var ok;
        ok, writes := WriteAll(kept, host, writes);
        assert kept == stream[taken..][..|kept|];
        assert kept != [] ==> Min(taken, limit) == taken;
        if !ok {
          if error.None? { error := Some(OutputIo); }
          ghost var n :| 0 <= n <= |kept| && log == stream[..Min(taken, limit)] + kept[..n];
          Continued(stream, Min(taken, limit), kept, n);
          return;
        }
        Continued(stream, Min(taken, limit), kept, |kept|);
        rest := rest[size..];
        taken := taken + size;
      }
      eof := true;
    }
  }

  // ----- the supervised command -----

  /** What one turn of the polling loop observes, in the order it is observed. Times are the clock's. */
  datatype Tick = Tick(
    cancelled: bool, captureError: Option<Code>, clock: int, discoveryClock: int, discoverRaises: bool,
    rescheduled: int, cancelledAfter: bool, captureErrorAfter: Option<Code>, exit: Option<int>, pollClock: int)

  datatype Drained = DrainRaises | Live(count: nat)

  /** What the cleanup observes. */
  datatype Retirement = Retirement(
    drained: Drained, discoveryErrors: bool, leadersWait: bool, scopeCloses: bool, stdoutJoined: bool,
    stderrJoined: bool, leftoversClose: bool, finalExit: Option<int>)

  datatype Result = Result(
    code: Code, exit: Option<int>, timedOut: bool, cleanupKnown: bool, capturesClosed: bool)

  datatype Decision = Decision(code: Code, exit: Option<int>, timedOut: bool)

  /** Turn `n` saw the command end with exit code 0, before the deadline both before and after the look. */
  ghost predicate SeenToPass(ticks: nat -> Tick, n: nat, end: int) {
    var t := ticks(n);
    !t.cancelled && t.captureError.None? && t.clock < end && t.exit == Some(0) && t.pollClock < end
  }

  /** Turn `n` sees nothing that could end the loop, except perhaps the command's exit. */
  ghost predicate Calm(ticks: nat -> Tick, n: nat, end: int) {
    var t := ticks(n);
    && !t.cancelled && t.captureError.None? && t.clock < end && !t.discoverRaises && !t.cancelledAfter
    && t.captureErrorAfter.None? && t.pollClock < end
  }

  /** The first turn to see an exit is `n`, and all turns up to it are calm. */
  ghost predicate CalmUntil(ticks: nat -> Tick, n: nat, end: int) {
    (forall m: nat | m <= n :: Calm(ticks, m, end)) && (forall m: nat | m < n :: ticks(m).exit.None?)
  }

  /** What the turns from number `n` on decide; `next` is when the next census is due. */
  function Decided(ticks: nat -> Tick, next: int, n: nat, end: int, late: nat): Decision
    requires n <= late && ticks(late).clock >= end
    decreases late - n
  {
    var t := ticks(n);
    var due := t.discoveryClock >= next;
    var verdict := Verdict(t, due, end);
    if verdict.Some? then verdict.value
    else Decided(ticks, if due then t.rescheduled + SECOND else next, n + 1, end, late)
  }

  /** The polling loop. Time passes: some turn begins at or after the deadline. */
  method Poll(ticks: nat -> Tick, begin: int, end: int, late: nat) returns (d: Decision, ghost last: nat)
    requires ticks(late).clock >= end
    ensures d == Decided(ticks, begin, 0, end, late) && last <= late
    ensures d.code == Pass ==> SeenToPass(ticks, last, end) && d.exit == Some(0) && !d.timedOut
    ensures forall n: nat | CalmUntil(ticks, n, end) && ticks(n).exit.Some? ::
      d == Decision(if ticks(n).exit.value == 0 then Pass else CommandFailed, ticks(n).exit, false)
    ensures d.timedOut <==> d.code == TimedOut
    ensures forall n | 0 <= n < last :: ticks(n).clock < end && ticks(n).exit.None?
  {
    var nextDiscovery, n := begin, 0;
    while true
      invariant n <= late && forall m | 0 <= m < n :: ticks(m).clock < end && ticks(m).exit.None?
      invariant Decided(ticks, begin, 0, end, late) == Decided(ticks, nextDiscovery, n, end, late)
      decreases late - n
    {
      var t := ticks(n);
      last := n;
      assert forall k: nat | CalmUntil(ticks, k, end) && ticks(k).exit.Some? :: n <= k && Calm(ticks, n, end) && (n < k ==> t.exit.None?);
      var due := t.discoveryClock >= nextDiscovery;
      var verdict := Verdict(t, due, end);
      if verdict.Some? { return verdict.value, last; }
      if due { nextDiscovery := t.rescheduled + SECOND; }
      n := n + 1;
    }
  }

  /** How one turn ends the loop, if it does; `due` says that it takes a census. */
  function Verdict(t: Tick, due: bool, end: int): (d: Option<Decision>)
    ensures d.Some? && d.value.code == Pass ==> t.exit == Some(0) && !t.cancelled && t.clock < end && t.pollClock < end
    ensures d.None? ==> t.clock < end && t.exit.None?
  {
    if t.cancelled then Some(Decision(Cancelled, None, false))
    else if t.captureError.Some? then Some(Decision(Problem(t.captureError.value), None, false))
    else if t.clock >= end then Some(Decision(TimedOut, None, true))
    else if due && t.discoverRaises then Some(Decision(Cleanup, None, false))
    else if due && t.cancelledAfter then Some(Decision(Cancelled, None, false))
    else if due && t.captureErrorAfter.Some? then Some(Decision(Problem(t.captureErrorAfter.value), None, false))
    else if t.pollClock >= end then Some(Decision(TimedOut, t.exit, true))
    else if t.exit.Some? then Some(Decision(if t.exit.value == 0 then Pass else CommandFailed, t.exit, false))
    else None
  }

  /** A capture reports one of its own error codes. */
  function Problem(code: Code): (c: Code)
    ensures c != Pass && c != TimedOut
  {
    if code == OutputLimit || code == Cleanup then code else OutputIo
  }

  /** Cleanup found everything as it should be. */
  predicate Settled(x: Retirement) {
    && x.drained == Live(0) && !x.discoveryErrors && x.leadersWait && x.scopeCloses && x.stdoutJoined && x.stderrJoined
    && x.leftoversClose
  }

  /** What the turns decide, for a command that was spawned in its scope. */
  function Verdicts(captured: bool, ticks: nat -> Tick, begin: int, end: int, late: nat): Decision
    requires ticks(late).clock >= end
  {
    if captured then Decided(ticks, begin, 0, end, late) else Decision(Spawn, None, false)
  }

  /** A whole supervised command: PASS is reported only for a command seen to exit 0 before the deadline, with
      nothing left alive, no discovery error, every resource closed and both logs complete. And it is reported, if
      calm turns lead to such an exit, the host is willing, both streams fit and cleanup finds nothing. */
  method RunCommand(spawned: bool, ticks: nat -> Tick, begin: int, end: int, late: nat, retirement: Retirement,
                    scopeMade: bool, stdout: Capture, stderr: Capture, out: seq<bv8>, err: seq<bv8>, outHost: Host, errHost: Host)
    returns (r: Result)
    requires ticks(late).clock >= end && stdout != stderr
    requires stdout.log == [] && stdout.count == 0 && !stdout.eof && !stdout.closed && stdout.error == None
    requires stderr.log == [] && stderr.count == 0 && !stderr.eof && !stderr.closed && stderr.error == None
    modifies stdout, stderr
    ensures IsPrefix(stdout.log, out) && |stdout.log| <= stdout.limit
    ensures IsPrefix(stderr.log, err) && |stderr.log| <= stderr.limit
    ensures r.code == Pass ==>
      && (exists n | 0 <= n <= late :: SeenToPass(ticks, n, end)) && r.exit == Some(0) && !r.timedOut
      && scopeMade && spawned && retirement.drained == Live(0) && !retirement.discoveryErrors
      && retirement.leadersWait && retirement.scopeCloses && retirement.leftoversClose
      && stdout.log == out && stderr.log == err && r.cleanupKnown && r.capturesClosed
    ensures var d := Verdicts(scopeMade && spawned, ticks, begin, end, late);
      && (r.code == Pass <==> d.code == Pass && r.cleanupKnown && r.capturesClosed)
      && (d.code != Pass ==> r.code == d.code) && r.timedOut == d.timedOut
      && (d.exit.Some? ==> r.exit == d.exit)
    ensures forall n: nat | CalmUntil(ticks, n, end) && ticks(n).exit.Some? && scopeMade && spawned ::
      if ticks(n).exit.value != 0 then r.code == CommandFailed && r.exit == ticks(n).exit
      else Fits(out, outHost, stdout.limit) && Fits(err, errHost, stderr.limit) && Settled(retirement) ==>
        r.code == Pass && r.exit == Some(0)
    ensures r.timedOut ==> r.code == TimedOut
    ensures r.cleanupKnown <==>
      && scopeMade && retirement.drained == Live(0) && !retirement.discoveryErrors
      && retirement.leadersWait && retirement.scopeCloses && retirement.leftoversClose
      && (spawned ==>
            && retirement.stdoutJoined && stdout.eof && stdout.closed
            && retirement.stderrJoined && stderr.eof && stderr.closed)
    ensures r.capturesClosed ==> stdout.log == out && stderr.log == err
  {
    var decision := Decision(Spawn, None, false);
    var captured := scopeMade && spawned;
    if captured {
      stdout.Copy(out, outHost);
      stderr.Copy(err, errHost);
      ghost var last;
      decision, last := Poll(ticks, begin, end, late);
    }
    r := Settle(decision, captured, scopeMade, retirement, stdout, stderr);
  }

  /** The result, from the decision and what cleanup found. */
  method Settle(decision: Decision, captured: bool, scopeMade: bool, retirement: Retirement, stdout: Capture,
                stderr: Capture)
    returns (r: Result)
    requires captured ==> scopeMade
    requires (stdout.error.Some? ==> stdout.error.value != Pass) && (stderr.error.Some? ==> stderr.error.value != Pass)
    ensures r.cleanupKnown <==>
      && scopeMade && retirement.drained == Live(0) && !retirement.discoveryErrors
      && retirement.leadersWait && retirement.scopeCloses && retirement.leftoversClose
      && (captured ==>
            && retirement.stdoutJoined && stdout.eof && stdout.closed
            && retirement.stderrJoined && stderr.eof && stderr.closed)
    ensures r.capturesClosed <==>
      && captured && retirement.stdoutJoined && stdout.eof && stdout.closed && stdout.error.None?
      && retirement.stderrJoined && stderr.eof && stderr.closed && stderr.error.None?
    ensures r.code == Pass <==>
      decision.code == Pass && r.cleanupKnown && (captured ==> stdout.error.None? && stderr.error.None?)
    ensures r.code ==
      if decision.code != Pass then decision.code
      else if captured && stdout.error.Some? then stdout.error.value
      else if captured && stderr.error.Some? then stderr.error.value
      else if !r.cleanupKnown then Cleanup else Pass
    ensures r.timedOut == decision.timedOut
    ensures decision.exit.Some? ==> r.exit == decision.exit
  {
    var code, exit := decision.code, decision.exit;
    var cleanupKnown := false;
    if scopeMade && retirement.drained.Live? {
      cleanupKnown := retirement.drained.count == 0 && !retirement.discoveryErrors;
      if !retirement.leadersWait {
        cleanupKnown := false;
      } else if captured && exit.None? {
        exit := retirement.finalExit;
      }
    }
    if scopeMade && !retirement.scopeCloses { cleanupKnown := false; }
    if captured {
      if !retirement.stdoutJoined || !stdout.eof || !stdout.closed { cleanupKnown := false; }
      if stdout.error.Some? && code == Pass { code := stdout.error.value; }
      if !retirement.stderrJoined || !stderr.eof || !stderr.closed { cleanupKnown := false; }
      if stderr.error.Some? && code == Pass { code := stderr.error.value; }
    }
    if !retirement.leftoversClose { cleanupKnown := false; }
    if !cleanupKnown && code == Pass { code := Cleanup; }
    var capturesClosed := captured && retirement.stdoutJoined && stdout.eof && stdout.closed && stdout.error.None?
                          && retirement.stderrJoined && stderr.eof && stderr.closed && stderr.error.None?;
    r := Result(code, exit, decision.timedOut, cleanupKnown, capturesClosed);
  }
}
