/** A supervised command on the Linux scope: the census of every poll, the drain and the close are the scope's own,
    so PASS speaks of the processes themselves. */
module LinuxCommand {
  import opened Wrappers
  import opened Kernel
  import DrainTimes
  import LinuxScope
  import opened CommandEvidence

  const GRACE := 3 * SECOND

  function Max(a: int, b: int): int {
    if a < b then b else a
  }

  /** When the next census is due, before turn `n`. */
  function NextDue(ticks: nat -> Tick, begin: int, n: nat): int {
    if n == 0 then begin
    else
      var next := NextDue(ticks, begin, n - 1);
      if ticks(n - 1).discoveryClock >= next then ticks(n - 1).rescheduled + SECOND else next
  }

  predicate IsDue(ticks: nat -> Tick, begin: int, n: nat) {
    ticks(n).discoveryClock >= NextDue(ticks, begin, n)
  }

  /** How many of the first `n` turns a census is due in. */
  function DueBefore(ticks: nat -> Tick, begin: int, n: nat): nat {
    if n == 0 then 0 else DueBefore(ticks, begin, n - 1) + if IsDue(ticks, begin, n - 1) then 1 else 0
  }

  /** The turn comes to its census, if one is due. */
  predicate Reaches(t: Tick, end: int) {
    !t.cancelled && t.captureError.None? && t.clock < end
  }

  /** A census can only raise in a blocked scope, or for a reason since then. */
  ghost predicate MayRaise(blocked: bool, since: LinuxScope.Past, now: LinuxScope.Past, recognise: Env -> LinuxScope.Verdict) {
    blocked || LinuxScope.Reason(since.journal, now.journal, now.os, recognise, now.reconciliations)
  }

  /** Until a calm exit, a turn decides nothing but that exit, or that its census raised. */
  lemma CalmVerdict(ticks: nat -> Tick, n: nat, due: bool, raises: bool, end: int)
    requires forall m | 0 <= m < n :: ticks(m).exit.None?
    ensures var d := Verdict(ticks(n).(discoverRaises := raises), due, end);
      d.Some? ==> forall k: nat | CalmUntil(ticks, k, end) && ticks(k).exit.Some? ::
        || (d.value == Decision(Cleanup, None, false) && due && raises && Reaches(ticks(n), end))
        || d.value == Decision(if ticks(k).exit.value == 0 then Pass else CommandFailed, ticks(k).exit, false)
  {
    forall k: nat | CalmUntil(ticks, k, end) && ticks(k).exit.Some?
      ensures n <= k && Calm(ticks, n, end) && (n < k ==> ticks(n).exit.None?)
    {
    }
  }

  /** A turn that decides nothing came to its census, and that did not raise. */
  lemma Undecided(ticks: nat -> Tick, n: nat, due: bool, raises: bool, end: int)
    ensures Verdict(ticks(n).(discoverRaises := raises), due, end).None? ==>
      Reaches(ticks(n), end) && !(due && raises) && ticks(n).exit.None? && ticks(n).clock < end
  {
  }

  lemma PassSeen(ticks: nat -> Tick, n: nat, due: bool, raises: bool, end: int)
    ensures var d := Verdict(ticks(n).(discoverRaises := raises), due, end);
      d.Some? && d.value.code == Pass ==> SeenToPass(ticks, n, end) && d.value.exit == Some(0) && !d.value.timedOut
  {
  }

  /** The polling loop, with the scope's own census in every turn in which one is due. Calm turns to an exit decide
      by that exit, unless a census raised, and then there was a reason. */
  method PollScope(scope: LinuxScope.Scope, ticks: nat -> Tick, begin: int, end: int, late: nat)
    returns (d: Decision, ghost last: nat)
    requires scope.Valid() && ticks(late).clock >= end
    modifies scope, scope.machine
    ensures scope.Valid() && scope.baseline == old(scope.baseline) && scope.closed == old(scope.closed)
    ensures LinuxScope.Onward(old(scope.Now()), scope.Now())
    ensures scope.machine.journal.sends == old(scope.machine.journal).sends
    ensures last <= late && (d.code == Pass ==> SeenToPass(ticks, last, end) && d.exit == Some(0) && !d.timedOut)
    ensures old(scope.Blocked()).None? ==>
      |scope.machine.journal.listings| == |old(scope.machine.journal).listings| + DueBefore(ticks, begin, last)
        + if Reaches(ticks(last), end) && IsDue(ticks, begin, last) then 1 else 0
    ensures forall n: nat | CalmUntil(ticks, n, end) && ticks(n).exit.Some? ::
      || (&& d == Decision(Cleanup, None, false)
          && MayRaise(old(scope.Blocked()).Some?, old(scope.Now()), scope.Now(), scope.recognise))
      || d == Decision(if ticks(n).exit.value == 0 then Pass else CommandFailed, ticks(n).exit, false)
  {
    hide LinuxScope.PendingOk, LinuxScope.Bound, LinuxScope.Proven, ProcessesOk, DescriptorsOk, LinuxScope.Settled,
      CalmUntil, Accounted, Shelved, Numbered, LinuxScope.Halted, LinuxScope.Ledger, LinuxScope.Onward,
      LinuxScope.Reason, LinuxScope.Scope.RosterOk, Reaches, Verdict;
    ghost var start, blocked := scope.Now(), scope.Blocked().Some?;
    LinuxScope.OnwardSame(start);
    var nextDiscovery, n := begin, 0;
    while true
      invariant n <= late && (forall m | 0 <= m < n :: ticks(m).exit.None?)
      invariant scope.Valid() && scope.baseline == old(scope.baseline) && scope.closed == old(scope.closed)
      invariant LinuxScope.Onward(start, scope.Now()) && scope.machine.journal.sends == start.journal.sends
      invariant nextDiscovery == NextDue(ticks, begin, n) && blocked == scope.Blocked().Some?
      invariant !blocked ==> |scope.machine.journal.listings| == |start.journal.listings| + DueBefore(ticks, begin, n)
      decreases late - n
    {
      var t := ticks(n);
      last := n;
      var due := t.discoveryClock >= nextDiscovery;
      var raised := t.discoverRaises;
      if due && Reaches(t, end) {
        raised := Census(scope, start);
        nextDiscovery := t.rescheduled + SECOND;
      }
      var verdict := Verdict(t.(discoverRaises := raised), due, end);
      CalmVerdict(ticks, n, due, raised, end);
      Undecided(ticks, n, due, raised, end);
      PassSeen(ticks, n, due, raised, end);
      if verdict.Some? { return verdict.value, last; }
      n := n + 1;
    }
  }

  /** One census of the polling loop. */
  method Census(scope: LinuxScope.Scope, ghost start: LinuxScope.Past) returns (raised: bool)
    requires scope.Valid() && LinuxScope.Onward(start, scope.Now())
    modifies scope, scope.machine
    ensures scope.Valid() && scope.baseline == old(scope.baseline) && scope.closed == old(scope.closed)
    ensures LinuxScope.Onward(start, scope.Now()) && scope.machine.journal.sends == old(scope.machine.journal).sends
    ensures old(scope.Blocked()).None? ==>
      |scope.machine.journal.listings| == |old(scope.machine.journal).listings| + 1
    ensures raised ==> MayRaise(old(scope.Blocked()).Some?, start, scope.Now(), scope.recognise)
    ensures !raised ==> scope.Blocked().None? && old(scope.Blocked()).None?
  {
    hide LinuxScope.PendingOk, LinuxScope.Bound, LinuxScope.Proven, ProcessesOk, DescriptorsOk, Accounted, Shelved,
      LinuxScope.Halted, LinuxScope.Ledger, LinuxScope.Onward, LinuxScope.Reason, LinuxScope.Scope.RosterOk,
      LinuxScope.Scope.Surveyed, ClosesOnlyNew, Later, Numbered;
    ghost var was := scope.Now();
    LinuxScope.OnwardMeans(start, was);
    var census := scope.Discover();
    raised := census.Err?;
    if old(scope.Blocked()).None? {
      LinuxScope.OnwardListed(was, scope.Now());
      LinuxScope.OnwardTwice(start, was, scope.Now());
      NewListing(was.journal, scope.machine.journal);
      if raised { scope.ExcuseSince(start.journal, was.journal); }
    } else {
      OnwardStill(start, was, scope.Now());
    }
  }

  lemma NewListing(a: Journal, b: Journal)
    requires Numbered(a) && LinuxScope.Lists(a, b)
    ensures |b.listings| == |a.listings| + 1
  {
    assert b.listings.Keys == a.listings.Keys + {a.calls};
    assert |b.listings| == |b.listings.Keys| && |a.listings| == |a.listings.Keys|;
  }

  lemma OnwardStill(a: LinuxScope.Past, b: LinuxScope.Past, c: LinuxScope.Past)
    requires LinuxScope.Onward(a, b) && c.os == b.os && c.journal == b.journal && b.clock <= c.clock
    requires b.known <= c.known && b.fatal <= c.fatal && b.reconciliations <= c.reconciliations
    ensures LinuxScope.Onward(a, c)
  {
  }

  /** What cleanup cannot learn from the scope. */
  datatype Rest = Rest(leadersWait: bool, stdoutJoined: bool, stderrJoined: bool, leftoversClose: bool,
                       finalExit: Option<int>)

  predicate Good(rest: Rest) {
    rest.leadersWait && rest.stdoutJoined && rest.stderrJoined && rest.leftoversClose
  }

  function KillWait(cleanup: nat): nat {
    Max(SECOND, cleanup - 5 * SECOND)
  }

  /** Why cleanup may not find everything over: the scope was blocked, there was a reason to fail, the drain's time
      was up, or something is left on the scope's own books. */
  ghost predicate Leftover(blocked: bool, since: LinuxScope.Past, until: nat, scope: LinuxScope.Scope)
    reads scope, scope.machine
  {
    || MayRaise(blocked, since, scope.Now(), scope.recognise) || until <= scope.machine.clock
    || scope.errors != {} || scope.pending != map[] || scope.retirement.Some?
  }

  /** When a drain that begins now is over at the latest. */
  ghost function Until(scope: LinuxScope.Scope, cleanup: nat, deadline: nat): nat
    reads scope, scope.machine
  {
    DrainTimes.Min(scope.machine.clock + GRACE + KillWait(cleanup), deadline)
  }

  /** Drain the scope, and say whether all is over. */
  method DrainScope(scope: LinuxScope.Scope, cleanup: nat, deadline: nat) returns (drained: Drained)
    requires scope.Valid()
    modifies scope, scope.machine
    ensures scope.Valid() && LinuxScope.Onward(old(scope.Now()), scope.Now())
    ensures drained == Live(0) ==>
      && (forall k <- scope.known :: !Running(scope.machine.os, k)) && scope.fatal == {} && scope.pending == map[]
      && scope.Clear() && old(scope.machine.os).used <= scope.view.started
    ensures drained != Live(0) ==>
      Leftover(old(scope.Blocked()).Some?, old(scope.Now()), old(Until(scope, cleanup, deadline)), scope)
    ensures old(scope.retirement).Some? ==> scope.retirement == old(scope.retirement)
  {
    hide LinuxScope.PendingOk, LinuxScope.Bound, LinuxScope.Proven, ProcessesOk, DescriptorsOk, LinuxScope.Settled,
      LinuxScope.Cleared, Accounted, Shelved, Numbered, LinuxScope.Halted, LinuxScope.Ledger, LinuxScope.Onward,
      LinuxScope.Reason, LinuxScope.Scope.RosterOk, LinuxScope.Phased, LinuxScope.Scope.Rested,
      LinuxScope.Scope.IsAccepted, LinuxScope.Listed, Later;
    var r := scope.Drain(GRACE, KillWait(cleanup), deadline);
    drained := if r.Ok? then Live(|r.value|) else DrainRaises;
    assert drained == Live(0) <==> r == Ok(map[]);
  }

  /** Drain and close the scope, and say what the result may be told. */
  method Retire(scope: LinuxScope.Scope, cleanup: nat, deadline: nat, rest: Rest) returns (retirement: Retirement)
    requires scope.Valid()
    modifies scope, scope.machine
    ensures scope.Valid() && scope.closed && LinuxScope.Moves(old(scope.Now()), scope.Now())
    ensures retirement.leadersWait == rest.leadersWait && retirement.leftoversClose == rest.leftoversClose
    ensures retirement.stdoutJoined == rest.stdoutJoined && retirement.stderrJoined == rest.stderrJoined
    ensures retirement.drained == Live(0) ==>
      && (forall k <- scope.known :: !Running(scope.machine.os, k)) && scope.fatal == {} && scope.pending == map[]
      && scope.Clear() && old(scope.machine.os).used <= scope.view.started
    ensures retirement.drained != Live(0) ==>
      Leftover(old(scope.Blocked()).Some?, old(scope.Now()), old(Until(scope, cleanup, deadline)), scope)
    ensures retirement.scopeCloses <==> scope.retirement == None
    ensures old(scope.retirement).Some? ==> scope.retirement == old(scope.retirement)
    ensures retirement.discoveryErrors <==> scope.errors != {}
  {
    hide LinuxScope.PendingOk, LinuxScope.Bound, LinuxScope.Proven, ProcessesOk, DescriptorsOk, LinuxScope.Settled,
      LinuxScope.Cleared, Accounted, Shelved, Numbered, LinuxScope.Halted, LinuxScope.Ledger, LinuxScope.Onward,
      LinuxScope.Reason, LinuxScope.Scope.RosterOk, LinuxScope.Listed, Later, LinuxScope.Moves, Silent;
    ghost var start := scope.Now();
    var drained := DrainScope(scope, cleanup, deadline);
    ghost var over := scope.Now();
    LinuxScope.OnwardMoves(start, over);
    KnownUsed(scope);
    var failure := scope.Close();
    ClosedMoves(start, over, scope.Now());
    LaterUsed(over.os, scope.machine.os);
    KnownStopped(scope, over.os);
    ReasonAfterClose(start.journal, over, scope.Now(), scope.recognise);
    if drained == Live(0) {
      LinuxScope.ClearedStays(over.os, scope.machine.os, scope.view, scope.self, scope.uid, scope.baseline,
                              scope.recognise, scope.machine.schedule);
    }
    retirement := Retirement(drained, scope.errors != {}, rest.leadersWait, failure.None?, rest.stdoutJoined,
                             rest.stderrJoined, rest.leftoversClose, rest.finalExit);
  }

  lemma LaterUsed(a: Os, b: Os)
    requires Later(a, b)
    ensures a.used <= b.used
  {
  }

  lemma ClosedMoves(a: LinuxScope.Past, b: LinuxScope.Past, c: LinuxScope.Past)
    requires LinuxScope.Moves(a, b) && Later(b.os, c.os) && b.clock <= c.clock && c.known == b.known
    requires Silent(b.journal, c.journal) && c.reconciliations == b.reconciliations
    ensures LinuxScope.Moves(a, c) && Later(a.os, c.os)
  {
    SilentGrows(b.journal, c.journal);
    LinuxScope.MovesTwice(a, b, c);
  }

  lemma KnownUsed(scope: LinuxScope.Scope)
    requires scope.Valid()
    ensures forall k <- scope.known :: k in scope.machine.os.used
  {
  }

  lemma KnownStopped(scope: LinuxScope.Scope, os: Os)
    requires scope.Valid() && Later(os, scope.machine.os) && forall k <- scope.known :: k in os.used
    ensures (forall k <- scope.known :: !Running(os, k)) ==> forall k <- scope.known :: !Running(scope.machine.os, k)
  {
  }

  lemma ReasonAfterClose(since: Journal, a: LinuxScope.Past, b: LinuxScope.Past, recognise: Env -> LinuxScope.Verdict)
    requires Later(a.os, b.os) && Silent(a.journal, b.journal) && a.reconciliations <= b.reconciliations
    ensures LinuxScope.Reason(since, a.journal, a.os, recognise, a.reconciliations) ==>
      LinuxScope.Reason(since, b.journal, b.os, recognise, b.reconciliations)
  {
  }

  lemma ReasonEarlier(a: LinuxScope.Past, b: LinuxScope.Past, c: LinuxScope.Past, recognise: Env -> LinuxScope.Verdict)
    requires LinuxScope.Onward(a, b) && LinuxScope.Moves(b, c)
    ensures LinuxScope.Reason(b.journal, c.journal, c.os, recognise, c.reconciliations) ==>
      LinuxScope.Reason(a.journal, c.journal, c.os, recognise, c.reconciliations)
    ensures LinuxScope.Reason(a.journal, b.journal, b.os, recognise, b.reconciliations) ==>
      LinuxScope.Reason(a.journal, c.journal, c.os, recognise, c.reconciliations)
  {
    if LinuxScope.Crowded(c.journal, b.journal.calls) {
      var l :| l in c.journal.listings && b.journal.calls <= l && c.journal.listings[l].count > LinuxScope.MAX_PROCESSES;
      assert a.journal.calls <= l;
    }
    if LinuxScope.Crowded(b.journal, a.journal.calls) {
      var l :| l in b.journal.listings && a.journal.calls <= l && b.journal.listings[l].count > LinuxScope.MAX_PROCESSES;
      assert l in c.journal.listings && c.journal.listings[l] == b.journal.listings[l];
    }
  }

  /** A whole command. If PASS is reported, exit 0 was seen before the deadline, both logs are complete, no process
      that the scope ever knew is running, nothing it could not inspect was ever left unexplained, no lifetime
      that was there before the drain and that its last census listed is running, unless it is foreign, unreadable,
      another user's or unmarked, and every descriptor that the scope opened was closed, none with a failure. Calm
      turns to an exit end in that exit's code, or in a cleanup failure for which something speaks. */
  method Run(scope: LinuxScope.Scope, spawned: bool, ticks: nat -> Tick, begin: int, end: int, late: nat,
             cleanup: nat, deadline: nat, rest: Rest, stdout: Capture, stderr: Capture, out: seq<bv8>, err: seq<bv8>,
             outHost: Host, errHost: Host)
    returns (r: CommandEvidence.Result)
    requires scope.Valid() && ticks(late).clock >= end && stdout != stderr
    requires stdout.log == [] && stdout.count == 0 && !stdout.eof && !stdout.closed && stdout.error == None
    requires stderr.log == [] && stderr.count == 0 && !stderr.eof && !stderr.closed && stderr.error == None
    modifies scope, scope.machine, stdout, stderr
    ensures scope.Valid() && scope.closed && Later(old(scope.machine.os), scope.machine.os)
    ensures r.code == Pass ==>
      && (exists n | 0 <= n <= late :: SeenToPass(ticks, n, end)) && r.exit == Some(0)
      && stdout.log == out && stderr.log == err
      && (forall k <- scope.known :: !Running(scope.machine.os, k))
      && scope.errors == {} && scope.fatal == {} && scope.pending == map[] && scope.Clear()
      && old(scope.machine.os).used <= scope.view.started && scope.retirement == None
      && (forall c <- scope.machine.journal.spoiled :: c < scope.born)
      && (forall f <- scope.machine.journal.obtained | scope.birth <= f.serial :: f in scope.machine.os.released)
    ensures forall n: nat | CalmUntil(ticks, n, end) && ticks(n).exit.Some? && spawned ::
      var left := Leftover(old(scope.Blocked()).Some?, old(scope.Now()), old(Until(scope, cleanup, deadline)), scope);
      if ticks(n).exit.value != 0 then r.code == CommandFailed || (r.code == Cleanup && left)
      else Fits(out, outHost, stdout.limit) && Fits(err, errHost, stderr.limit) && Good(rest) ==>
        r.code == Pass || (r.code == Cleanup && left)
  {
    hide LinuxScope.PendingOk, LinuxScope.Bound, LinuxScope.Proven, ProcessesOk, DescriptorsOk, LinuxScope.Cleared,
      CalmUntil, SeenToPass, Willing, IsPrefix, LinuxScope.Scope.RosterOk, Accounted, Shelved, Numbered,
      LinuxScope.Halted, LinuxScope.Ledger, LinuxScope.Onward, LinuxScope.Reason, LinuxScope.Moves, LinuxScope.Listed,
      Later;
    var decision := Decision(Spawn, None, false);
    ghost var start, blocked := scope.Now(), scope.Blocked().Some?;
    LinuxScope.OnwardSame(start);
    if spawned {
      stdout.Copy(out, outHost);
      stderr.Copy(err, errHost);
      ghost var last;
      decision, last := PollScope(scope, ticks, begin, end, late);
    }
    ghost var polled := scope.Now();
    LinuxScope.OnwardMeans(start, polled);
    var retirement := Retire(scope, cleanup, deadline, rest);
    ReasonEarlier(start, polled, scope.Now(), scope.recognise);
    LinuxScope.KnownProven(scope);
    LinuxScope.MovesMeans(polled, scope.Now());
    LaterUsed(start.os, polled.os);
    LaterTransitive(start.os, polled.os, scope.machine.os);
    r := Settle(decision, spawned, true, retirement, stdout, stderr);
    ghost var until := DrainTimes.Min(start.clock + GRACE + KillWait(cleanup), deadline);
    assert retirement.drained != Live(0) ==> Leftover(blocked, start, until, scope);
    forall n: nat | CalmUntil(ticks, n, end) && ticks(n).exit.Some? && spawned
      ensures if ticks(n).exit.value != 0
        then r.code == CommandFailed || (r.code == Cleanup && Leftover(blocked, start, until, scope))
        else Fits(out, outHost, stdout.limit) && Fits(err, errHost, stderr.limit) && Good(rest) ==>
          r.code == Pass || (r.code == Cleanup && Leftover(blocked, start, until, scope))
    {
      if decision == Decision(Cleanup, None, false) {
        assert MayRaise(blocked, start, scope.Now(), scope.recognise);
      } else if Fits(out, outHost, stdout.limit) && Fits(err, errHost, stderr.limit) {
        FitsWilling(out, outHost, stdout.limit);
        FitsWilling(err, errHost, stderr.limit);
      }
    }
  }

  lemma FitsWilling(stream: seq<bv8>, host: Host, limit: nat)
    requires Fits(stream, host, limit)
    ensures Willing(host) && host.closes && |stream| <= limit
  {
  }
}
