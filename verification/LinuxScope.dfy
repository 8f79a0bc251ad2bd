/** The Linux process scope: discovery by inherited marker, pidfd acquisition, signalling, bounded drain
    and once-only close. */
module LinuxScope {
  import opened Wrappers
  import opened Kernel
  import opened DrainTimes
  import opened Collections

  const MAX_PROCESSES := 65536
  const MAX_RECONCILIATIONS := 1024
  const POLL_NS := 100_000_000
  const QUIET_REQUIRED := 3

  datatype Identity = Identity(key: Key, uid: nat, live: bool)

  /** What the scope's ownership test says of an environment. */
  datatype Verdict = Owned | Unmarked | Malformed

  /** The exception classes a discovery message can name. */
  datatype ErrorClass = PermissionError | OwnershipError

  /** "Cannot inspect new same-uid process <pid>: <class>". */
  datatype Message = Message(pid: nat, errorClass: ErrorClass)

  datatype Pending = Pending(identity: Identity, message: Message, failures: nat)

  datatype Fault = OwnershipFault | DeadlineFault | LookupFault | AccessFault | SystemFault

  /** A raised exception; `uncertain` says that it carries an unresolved resource retirement. */
  datatype Failure = Failure(fault: Fault, uncertain: bool)

  datatype Inspection = Seen(env: Env) | Ended | Unreadable(errorClass: ErrorClass)

  /** `h` denotes, for every key, a descriptor opened since `birth` and bound to exactly that lifetime. */
  ghost predicate Bound(os: Os, h: map<Key, nat>, birth: nat) {
    birth <= os.serials &&
    forall k <- h :: h[k] in os.fds && os.fds[h[k]].target == Some(k) && birth <= os.fds[h[k]].serial
  }

  /** `proof` gives, for each key, an environment that the scope recognises and that the kernel exposed
      at some instant for this very lifetime; and the lifetime ran as user `uid`. */
  ghost predicate Proven(os: Os, recognise: Env -> Verdict, proof: map<Key, Env>, uid: nat) {
    forall k <- proof ::
      k in os.used && (k, proof[k]) in os.exposed && recognise(proof[k]) == Owned && (k, uid) in os.owners
  }

  /** Every descriptor opened for the scope is closed, or filed under its lifetime. */
  ghost predicate Ledger(obtained: set<Fd>, released: set<Fd>, handles: map<Key, nat>, birth: nat) {
    forall f <- obtained | birth <= f.serial ::
      f in released || (f.target.Some? && f.target.value in handles && handles[f.target.value] == f.slot)
  }

  /** A close that failed is the scope's failure, and no signal is dispatched after it. */
  ghost predicate Halted(spoiled: set<nat>, sends: set<Dispatch>, born: nat, retirement: Option<Failure>) {
    && (retirement.None? ==> forall c <- spoiled :: c < born)
    && (forall c <- spoiled, d <- sends | born <= c && born <= d.call :: d.call < c)
  }

  lemma HaltedSends(spoiled: set<nat>, sends: set<Dispatch>, more: set<Dispatch>, born: nat)
    requires Halted(spoiled, sends, born, None)
    ensures Halted(spoiled, more, born, None)
  {
  }

  lemma HaltedFails(j: Journal, born: nat, spoiled: set<nat>, was: Option<Failure>, retirement: Option<Failure>)
    requires Halted(j.spoiled, j.sends, born, was) && Numbered(j) && (was.Some? ==> retirement.Some?)
    requires retirement.None? ==> spoiled == j.spoiled
    requires forall c <- spoiled | c !in j.spoiled :: j.calls <= c
    ensures Halted(spoiled, j.sends, born, retirement)
  {
  }

  /** The kernel once exposed an environment with a malformed mark. */
  ghost predicate Mismarked(os: Os, recognise: Env -> Verdict) {
    exists x <- os.exposed :: recognise(x.1) == Malformed
  }

  /** Some listing since call `from` was too long. */
  ghost predicate Crowded(j: Journal, from: nat) {
    exists l <- j.listings :: from <= l && j.listings[l].count > MAX_PROCESSES
  }

  /** There is a reason to fail: since then some reply was refused, malformed or a failure, or some listing was too
      long; or there were too many reconciliations, or a malformed mark was ever exposed. */
  ghost predicate Reason(since: Journal, j: Journal, os: Os, recognise: Env -> Verdict, reconciliations: nat) {
    || since.faults < j.faults || Crowded(j, since.calls)
    || reconciliations >= MAX_RECONCILIATIONS || Mismarked(os, recognise)
  }

  /** Nothing was signalled, listed, opened or closed, and no clock was read. */
  ghost predicate Looks(a: Journal, b: Journal) {
    Silent(a, b) && b.obtained == a.obtained && b.spoiled == a.spoiled
  }

  /** One listing, by the first of these calls; nothing was signalled, and no clock was read. */
  ghost predicate Lists(a: Journal, b: Journal) {
    && b.sends == a.sends && b.readings == a.readings && a.calls < b.calls && a.faults <= b.faults
    && b.inherited == a.inherited
    && a.calls in b.listings && b.listings[a.calls].after == a.reading
    && b.listings == a.listings[a.calls := b.listings[a.calls]]
  }

  /** Some access was refused during these calls. */
  ghost predicate Denied(schedule: nat -> Turn, from: nat, past: nat) {
    exists i | from <= i < past :: schedule(i).denied
  }

  /** The lifetime once showed an environment without the scope's mark. */
  ghost predicate Disclosed(os: Os, recognise: Env -> Verdict, k: Key) {
    exists x <- os.exposed :: x.0 == k && recognise(x.1) == Unmarked
  }

  /** What a census leaves of a candidate: it is known, over, recorded as uninspected, or unmarked. */
  ghost predicate Settled(os: Os, recognise: Env -> Verdict, known: map<Key, Identity>, pending: map<nat, Pending>,
                          fatal: set<Message>, k: Key)
  {
    || k in known || !Running(os, k) || (k.pid in pending && pending[k.pid].identity.key == k)
    || Message(k.pid, OwnershipError) in fatal || Disclosed(os, recognise, k)
  }

  /** What a candidate is settled by stays, as long as its own PID is not considered again. */
  lemma SettledStays(a: Os, b: Os, recognise: Env -> Verdict, known: map<Key, Identity>, pending: map<nat, Pending>,
                     fatal: set<Message>, known': map<Key, Identity>, pending': map<nat, Pending>,
                     fatal': set<Message>, k: Key)
    requires Settled(a, recognise, known, pending, fatal, k) && Later(a, b) && k in a.used
    requires (k in known ==> k in known') && fatal <= fatal'
    requires k.pid in pending ==> k.pid in pending' && pending'[k.pid] == pending[k.pid]
    ensures Settled(b, recognise, known', pending', fatal', k)
  {
  }

  /** Each pending lifetime has its own message among the errors. */
  ghost predicate PendingOk(pending: map<nat, Pending>, errors: set<Message>) {
    forall p <- pending ::
      && pending[p].identity.key.pid == p
      && pending[p].message == Message(p, PermissionError) && pending[p].message in errors
  }

  /** `live` lists only known lifetimes, and every known lifetime it omits has stopped running. */
  ghost predicate Accounts(os: Os, known: map<Key, Identity>, live: map<Key, Identity>) {
    && (forall k <- live :: k in known)
    && (forall k <- known | k !in live :: !Running(os, k))
  }

  datatype Entry = Entry(pid: nat, identity: Option<Identity>)

  /** An identity as read: if its lifetime still holds the PID, the user read was its own. */
  ghost predicate Read(os: Os, i: Identity) {
    i.key in os.used && (Holds(os, i.key) ==> (i.key, i.uid) in os.owners)
  }

  /** Every census entry was read from its own PID, and no PID twice. */
  ghost predicate CensusOk(os: Os, census: seq<Entry>) {
    && (forall e <- census | e.identity.Some? :: e.identity.value.key.pid == e.pid && Read(os, e.identity.value))
    && (forall i, j | 0 <= i < j < |census| :: census[i].pid != census[j].pid)
  }

  /** What a census saw: the lifetimes that had started before it, the PIDs listed, what was read of each, and
      during which calls. */
  datatype View = View(started: set<Key>, listing: seq<nat>, read: map<nat, Option<Identity>>, from: nat, past: nat)

  /** The listing is what the call just before the reading returned. */
  ghost predicate Listed(v: View, schedule: nat -> Turn) {
    v.from > 0 && forall p :: p in v.listing <==> p in schedule(v.from - 1).listing
  }

  ghost function KeysRead(read: map<nat, Option<Identity>>): set<Key> {
    set p <- read | read[p].Some? :: read[p].value.key
  }

  /** Whoever held a PID all along was read under it, or some access was refused. */
  ghost predicate Covered(os: Os, v: View, schedule: nat -> Turn) {
    forall k <- v.started | k.pid in v.read && Holds(os, k) ::
      if v.read[k.pid].None? then Denied(schedule, v.from, v.past)
      else v.read[k.pid].value.key == k && (Running(os, k) ==> v.read[k.pid].value.live)
  }

  /** Nothing that the census could see is left: a listed lifetime that still runs is foreign, was refused to the
      reader, belongs to another user, or has shown that it does not carry the scope's mark. */
  ghost predicate Cleared(os: Os, v: View, self: nat, uid: nat, baseline: set<Key>, recognise: Env -> Verdict,
                          schedule: nat -> Turn)
  {
    forall k <- v.started | k.pid in v.listing && k.pid != self && k !in baseline && Running(os, k) ::
      && k.pid in v.read
      && if v.read[k.pid].None? then Denied(schedule, v.from, v.past)
         else v.read[k.pid].value.uid != uid || Disclosed(os, recognise, k)
  }

  lemma CoveredStays(a: Os, b: Os, v: View, schedule: nat -> Turn, past: nat)
    requires Covered(a, v, schedule) && Later(a, b) && v.started <= a.used && v.past <= past
    ensures Covered(b, v.(past := past), schedule)
  {
  }

  lemma CensusStays(a: Os, b: Os, census: seq<Entry>)
    requires CensusOk(a, census) && Later(a, b)
    ensures CensusOk(b, census)
  {
  }

  /** One more PID is read. */
  lemma CoveredNext(before: Os, os: Os, v: View, schedule: nat -> Turn, pid: nat, identity: Option<Identity>, calls: nat)
    requires Covered(os, v, schedule) && v.started <= before.used && v.from <= calls
    requires identity.Some? ==>
      && identity.value.key.pid == pid
      && (forall k <- before.used | k.pid == pid && k != identity.value.key :: !Holds(os, k))
      && (forall k <- before.used | k.pid == pid && !identity.value.live :: !Running(os, k))
    requires identity.None? ==>
      (forall k <- before.used | k.pid == pid :: !Holds(os, k)) || Denied(schedule, calls, v.past)
    ensures Covered(os, v.(read := v.read[pid := identity]), schedule)
  {
    if identity.None? && Denied(schedule, calls, v.past) {
      assert Denied(schedule, v.from, v.past);
    }
  }

  lemma ClearedStays(a: Os, b: Os, v: View, self: nat, uid: nat, baseline: set<Key>, recognise: Env -> Verdict,
                     schedule: nat -> Turn)
    requires Cleared(a, v, self, uid, baseline, recognise, schedule) && Later(a, b) && v.started <= a.used
    ensures Cleared(b, v, self, uid, baseline, recognise, schedule)
  {
    hide Denied;
  }

  /** One clean census of a drain: the calls of its listing and of the reading after it, what it saw, and the
      machine then. */
  datatype Round = Round(listing: nat, closing: nat, view: View, os: Os)

  /** A timely census of a drain, with what was known and what it returned. */
  datatype Accepted = Accepted(listing: nat, closing: nat, os: Os, known: set<Key>, live: map<Key, Identity>)

  /** Whether every unclean census is to be followed by signals, not only the first of its phase; whether this phase
      has signalled; and whether signals are still to be sent for the last census. */
  datatype Duty = Duty(repeat: bool, signalled: bool, owed: bool)

  /** What decides what a scope can see. */
  datatype Eyes = Eyes(self: nat, uid: nat, baseline: set<Key>, recognise: Env -> Verdict, schedule: nat -> Turn)

  /** Nothing was signalled or listed. */
  ghost predicate Waits(a: Journal, b: Journal) {
    Grows(a, b) && b.sends == a.sends && b.listings == a.listings
  }

  /** One call, which read this clock value. */
  ghost predicate JustRead(a: Journal, b: Journal, at: nat) {
    && b.calls == a.calls + 1 && b.reading == Some(at) && b.readings == a.readings[a.calls := at]
    && b.sends == a.sends && b.listings == a.listings
  }

  /** From `a` to `b` only this signal was dispatched, to these lifetimes; with a limit, each time directly after a
      reading below it, no earlier than `from`. */
  ghost predicate Timed(a: set<Dispatch>, b: set<Dispatch>, keys: set<Key>, signum: nat, limit: Option<nat>, from: nat) {
    a <= b && forall d <- b | d !in a ::
      && d.target in keys && d.signum == signum
      && (limit.Some? ==> d.after.Some? && from <= d.after.value < limit.value)
  }

  /** Every dispatch from `a` to `b` went to one of these lifetimes, directly after a reading in its signal's phase. */
  ghost predicate Phased(a: set<Dispatch>, b: set<Dispatch>, keys: set<Key>, ends: (nat, nat)) {
    a <= b && forall d <- b | d !in a :: d.target in keys && d.after.Some? && InPhase(d.signum, d.after.value, ends)
  }

  /** The listing directly followed a reading before the end, and the closing call is a later such reading. */
  ghost predicate Between(j: Journal, listing: nat, closing: nat, end: nat) {
    && listing in j.listings && j.listings[listing].after.Some? && j.listings[listing].after.value < end
    && listing < closing && closing in j.readings && j.readings[closing] < end
  }

  ghost predicate RoundOk(e: Eyes, j: Journal, os: Os, r: Round, end: nat) {
    && Between(j, r.listing, r.closing, end)
    && r.view.from == r.listing + 1 && r.view.past <= r.closing && Listed(r.view, e.schedule)
    && r.view.started <= r.os.used && Later(r.os, os)
    && Cleared(r.os, r.view, e.self, e.uid, e.baseline, e.recognise, e.schedule)
  }

  /** Clean censuses in a row since call `from`: each between two readings before the end and each after the one
      before; no signal was dispatched since the first, and no other listing made. */
  ghost predicate Streak(e: Eyes, j: Journal, os: Os, rounds: seq<Round>, from: nat, end: nat) {
    && (forall i | 0 <= i < |rounds| :: RoundOk(e, j, os, rounds[i], end) && from <= rounds[i].listing)
    && (forall i | 0 < i < |rounds| :: rounds[i - 1].closing + 1 < rounds[i].listing)
    && (rounds != [] ==>
          && (forall d <- j.sends :: d.call < rounds[0].listing)
          && (forall l <- j.listings | rounds[0].listing <= l :: exists i | 0 <= i < |rounds| :: rounds[i].listing == l))
  }

  ghost predicate AcceptedOk(j: Journal, os: Os, a: Accepted, from: nat, end: nat) {
    && Between(j, a.listing, a.closing, end) && from <= a.listing && Later(a.os, os)
    && (forall k <- a.live :: k in a.known) && (forall k <- a.known | k !in a.live :: !Running(a.os, k))
  }

  /** The machine, its record and the clock, and what the scope never forgets. */
  datatype Past = Past(os: Os, journal: Journal, clock: nat, known: set<Key>, fatal: set<Message>, reconciliations: nat)

  /** Time, knowledge, recorded failures and the record only move on, and only new descriptors are closed. */
  ghost predicate Onward(a: Past, b: Past) {
    && Later(a.os, b.os) && a.clock <= b.clock && ClosesOnlyNew(a.os, b.os) && a.known <= b.known && a.fatal <= b.fatal
    && Grows(a.journal, b.journal) && a.reconciliations <= b.reconciliations
  }

  lemma OnwardSame(a: Past)
    ensures Onward(a, a)
  {
  }

  lemma OnwardTwice(a: Past, b: Past, c: Past)
    requires Onward(a, b) && Onward(b, c)
    ensures Onward(a, c)
  {
    GrowsTwice(a.journal, b.journal, c.journal);
  }

  lemma OnwardMeans(a: Past, b: Past)
    requires Onward(a, b)
    ensures Later(a.os, b.os) && a.os.used <= b.os.used && a.clock <= b.clock && a.known <= b.known && a.fatal <= b.fatal
    ensures a.journal.calls <= b.journal.calls && a.journal.faults <= b.journal.faults && a.journal.sends <= b.journal.sends
  {
  }

  /** A moment in which nothing was closed. */
  lemma OnwardQuietly(a: Past, b: Past)
    requires Undisturbed(a.os, b.os) && Waits(a.journal, b.journal) && a.clock <= b.clock
    requires b.known == a.known && b.fatal == a.fatal && b.reconciliations == a.reconciliations
    ensures Onward(a, b)
  {
  }

  /** A reason stays one. */
  lemma ReasonStays(since: Journal, a: Past, b: Past, recognise: Env -> Verdict)
    requires Reason(since, a.journal, a.os, recognise, a.reconciliations) && Onward(a, b)
    ensures Reason(since, b.journal, b.os, recognise, b.reconciliations)
  {
    hide ClosesOnlyNew;
    if Crowded(a.journal, since.calls) {
      var l :| l in a.journal.listings && since.calls <= l && a.journal.listings[l].count > MAX_PROCESSES;
      assert l in b.journal.listings && b.journal.listings[l] == a.journal.listings[l];
    }
  }

  /** A discovery, in which only new descriptors were closed. */
  lemma OnwardListed(a: Past, b: Past)
    requires Later(a.os, b.os) && ClosesOnlyNew(a.os, b.os) && Lists(a.journal, b.journal) && Numbered(a.journal)
    requires a.clock <= b.clock && a.known <= b.known && a.fatal <= b.fatal && a.reconciliations <= b.reconciliations
    ensures Onward(a, b) && a.journal.faults <= b.journal.faults && b.journal.sends == a.journal.sends
  {
    ListsGrows(a.journal, b.journal);
  }

  lemma OnwardDispatch(a: Past, b: Past)
    requires Later(a.os, b.os) && b.os.released == a.os.released && Grows(a.journal, b.journal)
    requires a.clock <= b.clock && b.known == a.known && b.fatal == a.fatal && b.reconciliations == a.reconciliations
    ensures Onward(a, b)
  {
  }

  lemma ListsMeans(a: Journal, b: Journal)
    requires Lists(a, b)
    ensures b.sends == a.sends && a.faults <= b.faults && a.calls < b.calls
  {
  }

  lemma BetweenMeans(j: Journal, listing: nat, closing: nat, end: nat)
    requires Between(j, listing, closing, end)
    ensures listing in j.listings && listing < closing
  {
  }

  lemma StreakNone(e: Eyes, j: Journal, os: Os, from: nat, end: nat)
    ensures Streak(e, j, os, [], from, end)
  {
  }

  lemma RoundStays(e: Eyes, j: Journal, k: Journal, a: Os, b: Os, r: Round, end: nat)
    requires RoundOk(e, j, a, r, end) && Grows(j, k) && Later(a, b)
    ensures RoundOk(e, k, b, r, end)
  {
    hide Cleared, Later, Listed;
    LaterTransitive(r.os, a, b);
  }

  lemma StreakStays(e: Eyes, a: Past, b: Past, rounds: seq<Round>, from: nat, end: nat)
    requires Streak(e, a.journal, a.os, rounds, from, end) && Onward(a, b)
    requires b.journal.sends == a.journal.sends && b.journal.listings == a.journal.listings
    ensures Streak(e, b.journal, b.os, rounds, from, end)
  {
    hide RoundOk, Grows, Later, ClosesOnlyNew;
    forall i | 0 <= i < |rounds| ensures RoundOk(e, b.journal, b.os, rounds[i], end) {
      RoundStays(e, a.journal, b.journal, a.os, b.os, rounds[i], end);
    }
  }

  /** One more clean census. */
  lemma StreakGrows(e: Eyes, a: Past, b: Past, rounds: seq<Round>, r: Round, from: nat, end: nat)
    requires Streak(e, a.journal, a.os, rounds, from, end) && Numbered(a.journal) && Onward(a, b)
    requires b.journal.sends == a.journal.sends && r.listing == a.journal.calls + 1 && from <= a.journal.calls
    requires r.listing in b.journal.listings
    requires b.journal.listings == a.journal.listings[r.listing := b.journal.listings[r.listing]]
    requires RoundOk(e, b.journal, b.os, r, end)
    ensures Streak(e, b.journal, b.os, rounds + [r], from, end)
  {
    hide Grows, Later, Cleared, Listed, ClosesOnlyNew;
    var more, j, k := rounds + [r], a.journal, b.journal;
    forall i | 0 <= i < |more| ensures RoundOk(e, k, b.os, more[i], end) && from <= more[i].listing {
      if i < |rounds| { RoundStays(e, j, k, a.os, b.os, rounds[i], end); }
    }
    forall i | 0 < i < |more| ensures more[i - 1].closing + 1 < more[i].listing {
      if i == |rounds| { assert rounds[i - 1].closing < j.calls; }
    }
    forall l <- k.listings | more[0].listing <= l ensures exists i | 0 <= i < |more| :: more[i].listing == l {
      if l == r.listing {
        assert more[|rounds|].listing == l;
      } else if rounds != [] {
        var i :| 0 <= i < |rounds| && rounds[i].listing == l;
        assert more[i].listing == l;
      }
    }
  }

  /** A listing directly after a timely reading, and a timely reading later. */
  lemma TimelyCensus(first: Journal, read: Journal, listed: Journal, last: Journal, at: nat, now: nat, end: nat)
    requires JustRead(first, read, at) && at < end && Lists(read, listed) && JustRead(listed, last, now) && now < end
    ensures Between(last, read.calls, listed.calls, end) && read.calls == first.calls + 1 && last.sends == first.sends
    ensures last.reading == Some(now)
    ensures read.calls in last.listings && last.listings == first.listings[read.calls := last.listings[read.calls]]
  {
  }

  lemma AcceptedNow(j: Journal, a: Accepted, known: map<Key, Identity>, from: nat, end: nat)
    requires Between(j, a.listing, a.closing, end) && from <= a.listing
    requires a.known == known.Keys && Accounts(a.os, known, a.live)
    ensures AcceptedOk(j, a.os, a, from, end)
  {
  }

  lemma AcceptedStays(a: Past, b: Past, x: Accepted, from: nat, end: nat)
    requires AcceptedOk(a.journal, a.os, x, from, end) && Onward(a, b)
    ensures AcceptedOk(b.journal, b.os, x, from, end)
  {
    hide Later, ClosesOnlyNew;
    LaterTransitive(x.os, a.os, b.os);
  }

  lemma AcceptedLonger(j: Journal, os: Os, x: Accepted, from: nat, end: nat, later: nat)
    requires AcceptedOk(j, os, x, from, end) && end <= later
    ensures AcceptedOk(j, os, x, from, later)
  {
  }

  lemma AcceptedEarlier(j: Journal, os: Os, x: Accepted, from: nat, later: nat, end: nat)
    requires AcceptedOk(j, os, x, later, end) && from <= later
    ensures AcceptedOk(j, os, x, from, end)
  {
  }

  lemma GrowsSame(a: Journal)
    ensures Grows(a, a)
  {
  }

  lemma GrowsMeans(a: Journal, b: Journal)
    requires Grows(a, b)
    ensures a.calls <= b.calls && a.faults <= b.faults && a.sends <= b.sends
  {
  }

  lemma WaitsMeans(a: Journal, b: Journal)
    requires Waits(a, b)
    ensures Grows(a, b) && a.calls <= b.calls && a.faults <= b.faults && b.sends == a.sends && b.listings == a.listings
  {
  }

  lemma TickWaits(a: Journal, b: Journal)
    requires Numbered(a) && a.calls <= b.calls && a.faults <= b.faults && b.sends == a.sends && b.listings == a.listings
    requires b.inherited == a.inherited
    requires b.readings == a.readings || (a.calls in b.readings && b.readings == a.readings[a.calls := b.readings[a.calls]])
    ensures Waits(a, b)
  {
  }

  lemma WaitsTwice(a: Journal, b: Journal, c: Journal)
    requires Waits(a, b) && Waits(b, c)
    ensures Waits(a, c)
  {
    GrowsTwice(a, b, c);
  }

  lemma ListsGrows(a: Journal, b: Journal)
    requires Lists(a, b) && Numbered(a)
    ensures Grows(a, b) && a.calls <= b.calls && a.faults <= b.faults && b.sends == a.sends
  {
  }

  lemma DispatchGrows(a: Journal, b: Journal)
    requires b.inherited == a.inherited
    requires a.calls <= b.calls && a.faults <= b.faults && b.listings == a.listings && b.readings == a.readings
    requires a.sends <= b.sends && forall d <- b.sends | d !in a.sends :: a.calls <= d.call
    ensures Grows(a, b)
  {
  }

  lemma TimedNone(a: set<Dispatch>, keys: set<Key>, signum: nat, limit: Option<nat>, from: nat)
    ensures Timed(a, a, keys, signum, limit, from)
  {
  }

  lemma TimedWider(a: set<Dispatch>, b: set<Dispatch>, keys: set<Key>, more: set<Key>, signum: nat, limit: Option<nat>,
                   from: nat)
    requires Timed(a, b, keys, signum, limit, from) && keys <= more
    ensures Timed(a, b, more, signum, limit, from)
  {
  }

  lemma TimedTwice(a: set<Dispatch>, b: set<Dispatch>, c: set<Dispatch>, keys: set<Key>, signum: nat, limit: Option<nat>,
                   from: nat, later: nat)
    requires Timed(a, b, keys, signum, limit, from) && Timed(b, c, keys, signum, limit, later) && from <= later
    ensures Timed(a, c, keys, signum, limit, from)
  {
  }

  lemma FirstPhase(a: set<Dispatch>, b: set<Dispatch>, keys: set<Key>, ends: (nat, nat), from: nat)
    requires Timed(a, b, keys, SIG_TERM, Some(ends.0), from)
    ensures Phased(a, b, keys, ends)
  {
  }

  lemma SecondPhase(a: set<Dispatch>, b: set<Dispatch>, c: set<Dispatch>, keys: set<Key>, more: set<Key>,
                    ends: (nat, nat), from: nat)
    requires Phased(a, b, keys, ends) && Timed(b, c, more, SIG_KILL, Some(ends.1), from) && ends.0 <= from && keys <= more
    ensures Phased(a, c, more, ends)
  {
  }

  /** Nothing was done but closing; which closes failed is on record. */
  ghost predicate Closes(a: Journal, b: Journal) {
    && Silent(a, b) && b.obtained == a.obtained && a.spoiled <= b.spoiled
    && forall c <- b.spoiled | c !in a.spoiled :: a.calls <= c < b.calls
  }

  lemma ClosesOne(a: Journal, b: Journal, c: Journal, ok: bool)
    requires Closes(a, b) && Numbered(b)
    requires c == Called(b, !ok).(spoiled := b.spoiled + if ok then {} else {b.calls})
    ensures Closes(a, c) && (c.spoiled == a.spoiled <==> b.spoiled == a.spoiled && ok)
  {
    assert !ok ==> b.calls in c.spoiled && b.calls !in a.spoiled;
  }

  /** Close every descriptor of a roster once, failures or not. */
  method CloseAll(machine: Machine, roster: map<Key, nat>) returns (ok: bool)
    requires machine.Valid() && Bound(machine.os, roster, 0)
    modifies machine
    ensures machine.Valid() && Later(old(machine.os), machine.os) && machine.os.delivered == old(machine.os).delivered
    ensures machine.os.released == old(machine.os).released + set k <- roster :: old(machine.os).fds[roster[k]]
    ensures old(machine.clock) <= machine.clock && Closes(old(machine.journal), machine.journal)
    ensures ok <==> machine.journal.spoiled == old(machine.journal).spoiled
  {
    hide Accounted, Shelved, Numbered, Closes, ProcessesOk, DescriptorsOk, Later;
    LaterSame(machine.os);
    ok := true;
    var todo := roster.Keys;
    ghost var start := machine.journal;
    ClosesNone(start);
    while todo != {}
      invariant machine.Valid() && todo <= roster.Keys && old(machine.clock) <= machine.clock
      invariant Later(old(machine.os), machine.os) && machine.os.delivered == old(machine.os).delivered
      invariant forall k <- todo ::
        roster[k] in machine.os.fds && machine.os.fds[roster[k]] == old(machine.os).fds[roster[k]]
      invariant machine.os.released ==
        old(machine.os).released + set k <- roster | k !in todo :: old(machine.os).fds[roster[k]]
      invariant Closes(start, machine.journal) && (ok <==> machine.journal.spoiled == start.spoiled)
    {
      var key :| key in todo;
      todo := todo - {key};
      ghost var was, os := machine.journal, machine.os;
      var closed := machine.CloseFd(roster[key]);
      LaterTransitive(old(machine.os), os, machine.os);
      ClosesOne(start, was, machine.journal, closed);
      ok := ok && closed;
    }
  }

  lemma LaterSame(os: Os)
    ensures Later(os, os)
  {
  }

  lemma ClosesNone(a: Journal)
    ensures Closes(a, a)
  {
  }

  datatype PhaseResult = Continue | Retired | Expired | Raised(failure: Failure)

  /** An expired operation ends its phase, unless it also carries an unresolved retirement. */
  function Outcome(f: Failure): PhaseResult {
    if f == Failure(DeadlineFault, false) then Expired else Raised(f)
  }

  class Scope {
    const machine: Machine
    const recognise: Env -> Verdict
    const self: nat
    const uid: nat
    var known: map<Key, Identity>
    var handles: map<Key, nat>
    var baseline: set<Key>
    var pending: map<nat, Pending>
    var errors: set<Message>
    var reconciliations: nat
    var closed: bool
    var retirement: Option<Failure>
    ghost const birth: nat                   // descriptors that already existed when the scope was created
    ghost var proof: map<Key, Env>
    ghost var fatal: set<Message>            // messages of classes no later observation may reconcile
    ghost const born: nat                    // the machine's calls when the scope was created
    ghost var rounds: seq<Round>             // the clean censuses just passed, in a row
    ghost var accepted: Option<Accepted>     // the last timely census of the present drain
    ghost var duty: Duty
    ghost var view: View                     // what the last census saw

    /** Known lifetimes are proven, never foreign, and held while the scope is open. */
    ghost predicate RosterOk()
      reads this`known, this`baseline, this`proof, this`handles, this`closed
    {
      && (forall k <- known :: known[k].key == k && k !in baseline && k in proof && (k in handles || closed))
      && (forall k <- handles :: !closed && k in known)
    }

    ghost predicate ErrorsOk()
      reads this`pending, this`errors, this`fatal
    {
      PendingOk(pending, errors) && fatal <= errors && forall m <- fatal :: m.errorClass != PermissionError
    }

    /** What the records mean: every known key is a lifetime whose environment was recognised, and every
        handle is bound to the lifetime it is filed under. */
    ghost predicate Grip()
      reads this`handles, this`proof, machine
    {
      && Bound(machine.os, handles, birth)
      && Proven(machine.os, recognise, proof, uid)
    }

    ghost predicate Core()
      reads this, machine
    {
      && machine.Valid() && RosterOk() && ErrorsOk() && Grip()
      && Halted(machine.journal.spoiled, machine.journal.sends, born, retirement)
    }

    ghost predicate Valid()
      reads this, machine
    {
      Core() && Ledger(machine.journal.obtained, machine.os.released, handles, birth)
    }

    /** Processes and descriptors of others come and go; the scope's own keep their meaning. */
    lemma GripStays(a: Os, b: Os)
      requires Bound(a, handles, birth) && Proven(a, recognise, proof, uid) && Later(a, b) && Keeps(a, b)
      ensures Bound(b, handles, birth) && Proven(b, recognise, proof, uid)
    {
    }

    lemma ProvenStays(a: Os, b: Os)
      requires Proven(a, recognise, proof, uid) && Later(a, b)
      ensures Proven(b, recognise, proof, uid)
    {
    }

    ghost predicate Excuse(since: Journal)
      reads this, machine
    {
      Reason(since, machine.journal, machine.os, recognise, reconciliations)
    }

    /** Before the first census nothing is known; `Baseline` then fixes the foreign lifetimes. */
    constructor (machine: Machine, recognise: Env -> Verdict, self: nat, uid: nat)
      requires machine.Valid()
      ensures Valid() && this.machine == machine && this.recognise == recognise && birth == machine.os.serials
      ensures this.self == self && this.uid == uid && fresh(this)
      ensures known == map[] && baseline == {} && errors == {} && pending == map[] && fatal == {}
      ensures !closed && retirement == None && born == machine.calls && handles == map[]
    {
      this.machine, this.recognise, this.self, this.uid, this.birth := machine, recognise, self, uid, machine.os.serials;
      known, handles, baseline, pending, errors := map[], map[], {}, map[], {};
      reconciliations, closed, retirement, proof, fatal := 0, false, None, map[], {};
      born, rounds, accepted, duty := machine.calls, [], None, Duty(false, false, false);
      view := View({}, [], map[], 0, 0);
    }

    predicate Tracked(pid: nat)
      reads this
    {
      pid in pending || exists k <- known :: k.pid == pid
    }

    /** Live, of the scope's user and not foreign. */
    predicate Candidate(identity: Identity)
      reads this`baseline
    {
      identity.live && identity.uid == uid && identity.key !in baseline
    }

    /** `_ensure_open`. */
    function Blocked(): (r: Option<Failure>)
      reads this
    {
      if retirement.Some? then retirement
      else if closed then Some(Failure(OwnershipFault, false)) else None
    }

    /** Two reads, between which the PID may change hands. A key that is reported was held when the call
        began, if it existed then; a key of this PID that is not reported as live is not running now. */
    method IdentityOf(pid: nat, required: bool) returns (r: Result<Option<Identity>, Failure>)
      requires Core()
      modifies machine
      ensures Core() && Undisturbed(old(machine.os), machine.os) && old(machine.clock) <= machine.clock
      ensures r.Err? ==> r.error == Failure(OwnershipFault, false) && old(machine.journal).faults < machine.journal.faults
      ensures Looks(old(machine.journal), machine.journal)
      ensures r.Ok? && r.value.Some? ==>
        var i := r.value.value;
        && i.key.pid == pid && Read(machine.os, i)
        && (i.key in old(machine.os).used ==> Holds(old(machine.os), i.key))
        && (forall k <- old(machine.os).used | k.pid == pid && k != i.key :: !Holds(machine.os, k))
        && (forall k <- old(machine.os).used | k.pid == pid && (k != i.key || !i.live) :: !Running(machine.os, k))
      ensures r.Ok? && r.value.None? && (required || Tracked(pid)) ==>
        forall k <- old(machine.os).used | k.pid == pid :: !Running(machine.os, k)
      ensures r.Ok? && r.value.None? ==>
        || (forall k <- old(machine.os).used | k.pid == pid :: !Holds(machine.os, k))
        || Denied(machine.schedule, old(machine.calls), machine.calls)
      ensures old(machine.calls) <= machine.calls
    {
      var stat := machine.ReadStat(pid);
      match stat
      case NoProcess => r := Ok(None);
      case StatGarbled => r := Err(Failure(OwnershipFault, false));
      case StatDenied => r := if required || Tracked(pid) then Err(Failure(OwnershipFault, false)) else Ok(None);
      case Stat(key, running) =>
        var owner := machine.StatUid(pid);
        match owner
        case NoDirectory => r := Ok(None);
        case UidDenied => r := if required || Tracked(pid) then Err(Failure(OwnershipFault, false)) else Ok(None);
        case Uid(u) => r := Ok(Some(Identity(key, u, running)));
    }

    /** Is the identity's lifetime still the live occupant of its PID? */
    method Confirm(identity: Identity) returns (r: Option<Fault>)
      requires Core() && identity.key in machine.os.used
      modifies machine
      ensures Core() && Undisturbed(old(machine.os), machine.os) && old(machine.clock) <= machine.clock
      ensures r.None? ==> Holds(old(machine.os), identity.key)
      ensures r == Some(OwnershipFault) ==> old(machine.journal).faults < machine.journal.faults
      ensures Looks(old(machine.journal), machine.journal)
      ensures r.Some? ==> r.value == OwnershipFault || (r.value == LookupFault && !Running(machine.os, identity.key))
    {
      var current := IdentityOf(identity.key.pid, true);
      if current.Err? {
        r := Some(OwnershipFault);
      } else if current.value.None? || !current.value.value.live || current.value.value.key != identity.key {
        r := Some(LookupFault);
      } else {
        r := None;
      }
    }

    /** The environment read belongs to any earlier lifetime of this PID that is still there now. */
    method InspectEnvironment(identity: Identity) returns (r: Inspection)
      requires Valid() && identity.key in machine.os.used
      modifies machine
      ensures Valid() && Undisturbed(old(machine.os), machine.os) && old(machine.clock) <= machine.clock
      ensures r.Seen? && Holds(machine.os, identity.key) ==> (identity.key, r.env) in machine.os.exposed
      ensures Looks(old(machine.journal), machine.journal)
      ensures r.Seen? ==> exists x <- machine.os.exposed :: x.1 == r.env
      ensures r.Unreadable? ==> old(machine.journal).faults < machine.journal.faults
      ensures r == Unreadable(PermissionError) ==> machine.schedule(old(machine.calls)).denied
      ensures r.Ended? ==> !Running(machine.os, identity.key)
    {
      var reply := machine.ReadEnviron(identity.key.pid);
      match reply
      case NoEnviron => r := Ended;
      case Environ(env) => r := Seen(env);
      case _ =>
        var fault := Confirm(identity);
        r := match fault
          case Some(OwnershipFault) => Unreadable(OwnershipError)
          case Some(_) => Ended
          case None => Unreadable(if reply.EnvDenied? then PermissionError else OwnershipError);
    }

    /** pidfd_open, then a recheck of the key. A returned descriptor is bound to exactly the identity's
        lifetime, whatever happened to the PID meanwhile; on refusal the descriptor opened here is closed, and no
        other, and a failed close makes the scope's retirement permanently uncertain. */
    method Acquire(identity: Identity) returns (r: Result<nat, Failure>)
      requires Valid() && identity.key in machine.os.used && Blocked().None?
      modifies machine, this`retirement
      ensures Core() && Later(old(machine.os), machine.os) && old(machine.clock) <= machine.clock
      ensures Keeps(old(machine.os), machine.os) && machine.os.delivered == old(machine.os).delivered
      ensures ClosesOnlyNew(old(machine.os), machine.os) && Silent(old(machine.journal), machine.journal)
      ensures r.Ok? ==>
        && r.value in machine.os.fds && machine.os.fds[r.value].target == Some(identity.key)
        && birth <= machine.os.fds[r.value].serial
        && Holds(old(machine.os), identity.key) && retirement == None
        && machine.journal.obtained == old(machine.journal).obtained + {machine.os.fds[r.value]}
        && machine.os.released == old(machine.os).released
      ensures r.Err? ==>
        && Valid() && r.error.fault != DeadlineFault
        && (if r.error.uncertain then retirement == Some(r.error) else retirement == None)
        && (r.error.fault == LookupFault ==> !Running(machine.os, identity.key))
        && machine.os.released == old(machine.os).released + (machine.journal.obtained - old(machine.journal).obtained)
        && (r.error.uncertain <==> machine.journal.spoiled != old(machine.journal).spoiled)
        && (r.error == Failure(LookupFault, false) || old(machine.journal).faults < machine.journal.faults)
    {
      hide PendingOk, Proven, ProcessesOk, Accounted, Shelved, Numbered, Halted, Ledger;
      ghost var start, os := machine.journal, machine.os;
      var open := machine.PidfdOpen(identity.key.pid);
      GripStays(os, machine.os);
      match open
      case NoSuchProcess =>
        r := Err(Failure(LookupFault, false));
        assert machine.journal.obtained == start.obtained && start.obtained - start.obtained == {};
      case OpenFailed =>
        r := Err(Failure(SystemFault, false));
        assert machine.journal.obtained == start.obtained && start.obtained - start.obtained == {};
      case Opened(fd) =>
        ghost var held := machine.os;
        NotHeld(os, held, fd);
        r := Vouch(identity, fd, start.obtained);
        OpenedAlone(start.obtained, machine.journal.obtained, held.fds[fd]);
    }

    /** A descriptor just opened is none of the scope's handles. */
    lemma NotHeld(a: Os, b: Os, fd: nat)
      requires Bound(a, handles, birth) && Keeps(a, b) && WellFormed(a)
      requires fd in b.fds && a.serials <= b.fds[fd].serial
      ensures fd !in handles.Values
    {
      hide ProcessesOk;
      forall k <- handles ensures handles[k] != fd {}
    }

    lemma OpenedAlone(a: set<Fd>, b: set<Fd>, f: Fd)
      requires b == a + {f} && f !in a
      ensures b - a == {f}
    {
    }

    /** The recheck after an open. */
    method Vouch(identity: Identity, fd: nat, ghost before: set<Fd>) returns (r: Result<nat, Failure>)
      requires Core() && retirement == None && Ledger(before, machine.os.released, handles, birth)
      requires identity.key in machine.os.used && fd in machine.os.fds && fd !in handles.Values
      requires identity.key.pid in machine.os.procs
      requires machine.os.fds[fd].target == Some(machine.os.procs[identity.key.pid].key) && birth <= machine.os.fds[fd].serial
      requires machine.journal.obtained == before + {machine.os.fds[fd]}
      modifies machine, this`retirement
      ensures Core() && Later(old(machine.os), machine.os) && old(machine.clock) <= machine.clock
      ensures machine.os.delivered == old(machine.os).delivered && Silent(old(machine.journal), machine.journal)
      ensures machine.journal.obtained == old(machine.journal).obtained
      ensures forall f <- old(machine.os).fds | f != fd && old(machine.os).fds[f].target.Some? ::
        f in machine.os.fds && machine.os.fds[f] == old(machine.os).fds[f]
      ensures r.Ok? ==>
        && r.value == fd && fd in machine.os.fds && machine.os.fds[fd] == old(machine.os).fds[fd]
        && old(machine.os).fds[fd].target == Some(identity.key) && Holds(old(machine.os), identity.key)
        && machine.os.released == old(machine.os).released && retirement == None
      ensures r.Err? ==>
        && Valid() && r.error.fault != DeadlineFault && retirement == (if r.error.uncertain then Some(r.error) else None)
        && (r.error.fault == LookupFault ==> !Running(machine.os, identity.key))
        && machine.os.released == old(machine.os).released + {old(machine.os).fds[fd]}
        && (r.error.uncertain <==> machine.journal.spoiled != old(machine.journal).spoiled)
        && (r.error == Failure(LookupFault, false) || old(machine.journal).faults < machine.journal.faults)
    {
      hide PendingOk, Bound, Proven, ProcessesOk, DescriptorsOk, Accounted, Shelved, Numbered, Halted, Ledger,
        RosterOk;
      ghost var start := machine.journal;
      var fault := Confirm(identity);
      if fault.None? {
        r := Ok(fd);
      } else {
        ghost var os, calls, spoiled := machine.os, machine.calls, machine.journal.spoiled;
        Unspoiled(machine.journal);
        r := Discard(fd, fault.value, before);
        assert r.error.uncertain ==> calls in machine.journal.spoiled && calls !in spoiled;
      }
    }

    lemma Unspoiled(j: Journal)
      requires Numbered(j)
      ensures j.calls !in j.spoiled
    {
    }

    /** Close a descriptor that was never registered, as part of failing with `fault`. */
    method Discard(fd: nat, fault: Fault, ghost before: set<Fd>) returns (r: Result<nat, Failure>)
      requires Core() && retirement == None && Ledger(before, machine.os.released, handles, birth)
      requires fd in machine.os.fds && machine.os.fds[fd].target.Some? && fd !in handles.Values
      requires machine.journal.obtained == before + {machine.os.fds[fd]}
      modifies machine, this`retirement
      ensures Valid() && Later(old(machine.os), machine.os) && old(machine.clock) <= machine.clock
      ensures machine.os.delivered == old(machine.os).delivered && Silent(old(machine.journal), machine.journal)
      ensures machine.os.released == old(machine.os).released + {old(machine.os).fds[fd]}
      ensures machine.journal.obtained == old(machine.journal).obtained
      ensures forall f <- old(machine.os).fds | f != fd && old(machine.os).fds[f].target.Some? ::
        f in machine.os.fds && machine.os.fds[f] == old(machine.os).fds[f]
      ensures r.Err? && r.error.fault == fault
      ensures retirement == if r.error.uncertain then Some(r.error) else None
      ensures r.error.uncertain == machine.schedule(old(machine.calls)).closeFails
      ensures machine.journal.spoiled == old(machine.journal).spoiled + if r.error.uncertain then {old(machine.calls)} else {}
      ensures r.error.uncertain ==> old(machine.journal).faults < machine.journal.faults
    {
      hide PendingOk, Proven, ProcessesOk, DescriptorsOk, Accounted, Shelved;
      ghost var j, os := machine.journal, machine.os;
      var ok := machine.CloseFd(fd);
      ProvenStays(os, machine.os);
      if !ok {
        retirement := Some(Failure(fault, true));
      }
      HaltedFails(j, born, machine.journal.spoiled, None, retirement);
      r := Err(Failure(fault, !ok));
    }

    /** Drop the pending record of a PID together with its own message and nothing else. */
    method Resolve(pid: nat)
      requires Valid()
      modifies this`pending, this`errors
      ensures Valid() && pending == old(pending) - {pid}
      ensures errors == if pid in old(pending) then old(errors) - {Message(pid, PermissionError)} else old(errors)
    {
      if pid in pending {
        errors := errors - {pending[pid].message};
        pending := pending - {pid};
      }
    }

    /** Record a failed inspection. Only a denied access can be reconciled later. */
    method Failed(identity: Identity, errorClass: ErrorClass) returns (r: Option<Failure>)
      requires Valid() && identity.key in machine.os.used
      modifies this`pending, this`errors, this`reconciliations, this`fatal
      ensures Valid() && old(reconciliations) <= reconciliations
      ensures errors == old(errors) + {Message(identity.key.pid, errorClass)}
      ensures fatal == if errorClass == PermissionError then old(fatal) else old(fatal) + {Message(identity.key.pid, errorClass)}
      ensures r.None? || r.value == Failure(OwnershipFault, false)
      ensures r.Some? <==>
        && errorClass == PermissionError
        && (if identity.key.pid in old(pending) then old(pending)[identity.key.pid].identity.key != identity.key
            else old(reconciliations) >= MAX_RECONCILIATIONS)
      ensures pending - {identity.key.pid} == old(pending) - {identity.key.pid}
      ensures r.None? && errorClass == PermissionError ==>
        identity.key.pid in pending && pending[identity.key.pid].identity.key == identity.key
    {
      hide Bound, Proven, ProcessesOk, DescriptorsOk;
      var pid := identity.key.pid;
      var message := Message(pid, errorClass);
      errors := errors + {message};
      r := None;
      if errorClass != PermissionError {
        fatal := fatal + {message};
      } else if pid !in pending {
        if reconciliations >= MAX_RECONCILIATIONS {
          return Some(Failure(OwnershipFault, false));
        }
        pending := pending[pid := Pending(identity, message, 1)];
        reconciliations := reconciliations + 1;
      } else if pending[pid].identity.key != identity.key {
        return Some(Failure(OwnershipFault, false));
      } else {
        pending := pending[pid := pending[pid].(failures := pending[pid].failures + 1)];
      }
    }

    /** One more lifetime on the books. */
    lemma Filed(os: Os, key: Key, fd: nat, env: Env, before: set<Fd>)
      requires Bound(os, handles, birth) && Proven(os, recognise, proof, uid) && Ledger(before, os.released, handles, birth)
      requires key !in handles && key in os.used && (key, env) in os.exposed && recognise(env) == Owned
      requires (key, uid) in os.owners && fd in os.fds && os.fds[fd].target == Some(key) && birth <= os.fds[fd].serial
      requires os.fds[fd].slot == fd
      ensures Bound(os, handles[key := fd], birth) && Proven(os, recognise, proof[key := env], uid)
      ensures Ledger(before + {os.fds[fd]}, os.released, handles[key := fd], birth)
    {
    }

    /** Put a freshly acquired lifetime under the scope's control. */
    method Register(identity: Identity, fd: nat, ghost env: Env, ghost before: set<Fd>)
      requires Core() && !closed && identity.key !in baseline && identity.key !in known
      requires identity.key in machine.os.used && (identity.key, env) in machine.os.exposed && recognise(env) == Owned
      requires (identity.key, uid) in machine.os.owners
      requires fd in machine.os.fds && machine.os.fds[fd].target == Some(identity.key)
      requires birth <= machine.os.fds[fd].serial && machine.os.fds[fd].slot == fd
      requires Ledger(before, machine.os.released, handles, birth) && machine.journal.obtained == before + {machine.os.fds[fd]}
      modifies this`known, this`handles, this`proof
      ensures Valid() && known == old(known)[identity.key := identity] && handles == old(handles)[identity.key := fd]
    {
      hide PendingOk, ProcessesOk, DescriptorsOk, Accounted, Shelved, Numbered, Halted, Bound, Proven, Ledger;
      Filed(machine.os, identity.key, fd, env, before);
      proof := proof[identity.key := env];
      known := known[identity.key := identity];
      handles := handles[identity.key := fd];
    }

    /** Acquire and register a lifetime whose environment was recognised; a lifetime that vanished
        meanwhile is simply not registered. */
    method Adopt(identity: Identity, env: Env) returns (r: Option<Failure>)
      requires Valid() && Blocked().None? && identity.key in machine.os.used
      requires identity.key !in baseline && identity.key !in known
      requires recognise(env) == Owned && identity.uid == uid && Read(machine.os, identity)
      requires Holds(machine.os, identity.key) ==> (identity.key, env) in machine.os.exposed
      modifies machine, this`known, this`handles, this`proof, this`retirement
      ensures Valid() && Later(old(machine.os), machine.os) && old(machine.clock) <= machine.clock
      ensures machine.os.delivered == old(machine.os).delivered
      ensures Silent(old(machine.journal), machine.journal) && (r.Some? ==> Excuse(old(machine.journal)))
      ensures old(reconciliations) <= reconciliations
      ensures ClosesOnlyNew(old(machine.os), machine.os)
      ensures r.None? ==> retirement == None
      ensures r.Some? ==> r.value.fault != DeadlineFault && retirement == if r.value.uncertain then r else None
      ensures forall k <- old(known) :: k in known
      ensures forall k <- known | k !in old(known) :: k == identity.key
      ensures r.None? ==> identity.key in known || !Running(machine.os, identity.key)
    {
      hide PendingOk, ProcessesOk, Halted, Ledger;
      r := None;
      ghost var before := machine.journal.obtained;
      var acquired := Acquire(identity);
      if acquired.Ok? {
        Register(identity, acquired.value, env, before);
      } else if acquired.error.fault != LookupFault || acquired.error.uncertain {
        r := Some(acquired.error);
      }
    }

    /** A live, same-user lifetime that is neither foreign nor already known: decide by its environment,
        and register it only with a descriptor bound to the lifetime whose environment was recognised. */
    method Classify(identity: Identity) returns (r: Option<Failure>)
      requires Valid() && Blocked().None? && identity.key in machine.os.used
      requires identity.key !in baseline && identity.key !in known && identity.uid == uid && Read(machine.os, identity)
      modifies machine, this`known, this`handles, this`proof, this`retirement
      modifies this`pending, this`errors, this`reconciliations, this`fatal
      ensures Valid() && Later(old(machine.os), machine.os) && old(machine.clock) <= machine.clock
      ensures machine.os.delivered == old(machine.os).delivered
      ensures Silent(old(machine.journal), machine.journal) && (r.Some? ==> Excuse(old(machine.journal)))
      ensures old(reconciliations) <= reconciliations
      ensures ClosesOnlyNew(old(machine.os), machine.os)
      ensures r.None? ==> retirement == None
      ensures r.Some? ==> r.value.fault != DeadlineFault && retirement == if r.value.uncertain then r else None
      ensures forall k <- old(known) :: k in known
      ensures old(fatal) <= fatal && old(errors) - {Message(identity.key.pid, PermissionError)} <= errors
      ensures pending - {identity.key.pid} == old(pending) - {identity.key.pid}
      ensures forall k <- known | k !in old(known) :: k == identity.key
      ensures r.None? ==> Settled(machine.os, recognise, known, pending, fatal, identity.key)
    {
      hide PendingOk, Accounted, Shelved, Numbered, Halted, Ledger, ProcessesOk, DescriptorsOk;
      r := None;
      var seen := InspectEnvironment(identity);
      match seen
      case Unreadable(errorClass) => r := Failed(identity, errorClass);
      case Ended => Resolve(identity.key.pid);
      case Seen(env) =>
        var verdict := recognise(env);
        if verdict == Malformed {
          return Some(Failure(OwnershipFault, false));
        }
        if verdict == Owned {
          r := Adopt(identity, env);
        }
        if r.None? {
          Resolve(identity.key.pid);
        }
    }

    /** One census entry: first settle a pending record the entry contradicts, then classify. The check
        in `Failed` for a changed pending lifetime can therefore never fire. */
    method Consider(pid: nat, identity: Option<Identity>) returns (r: Option<Failure>)
      requires Valid() && Blocked().None?
      requires identity.Some? ==> identity.value.key.pid == pid && Read(machine.os, identity.value)
      modifies machine, this`known, this`handles, this`proof, this`retirement
      modifies this`pending, this`errors, this`reconciliations, this`fatal
      ensures Valid() && Later(old(machine.os), machine.os) && old(machine.clock) <= machine.clock
      ensures machine.os.delivered == old(machine.os).delivered
      ensures Silent(old(machine.journal), machine.journal) && (r.Some? ==> Excuse(old(machine.journal)))
      ensures old(reconciliations) <= reconciliations
      ensures ClosesOnlyNew(old(machine.os), machine.os)
      ensures r.None? ==> retirement == None
      ensures r.Some? ==> r.value.fault != DeadlineFault && retirement == if r.value.uncertain then r else None
      ensures forall k <- old(known) :: k in known
      ensures old(fatal) <= fatal && old(errors) - {Message(pid, PermissionError)} <= errors
      ensures pending - {pid} == old(pending) - {pid}
      ensures forall k <- known | k !in old(known) :: identity.Some? && k == identity.value.key && Candidate(identity.value)
      ensures r.None? && identity.Some? && Candidate(identity.value) ==>
        Settled(machine.os, recognise, known, pending, fatal, identity.value.key)
    {
      hide PendingOk, Accounted, Shelved, Numbered, Halted, Ledger, Bound, Proven, Reason, ProcessesOk, DescriptorsOk;
      r := None;
      if pid in pending && (identity.None? || !identity.value.live || identity.value.key != pending[pid].identity.key) {
        Resolve(pid);
      }
      if identity.Some? && Candidate(identity.value) {
        if identity.value.key in known {
          known := known[identity.value.key := identity.value];
        } else {
          r := Classify(identity.value);
        }
      }
    }

    /** Read the identity of every listed or pending PID before interpreting any of them. */
    method ReadCensus(pids: seq<nat>) returns (r: Result<seq<Entry>, Failure>, ghost read: map<nat, Option<Identity>>)
      requires Valid() && forall i, j | 0 <= i < j < |pids| :: pids[i] != pids[j]
      modifies machine
      ensures Valid() && Undisturbed(old(machine.os), machine.os) && old(machine.clock) <= machine.clock
      ensures r.Err? ==> r.error == Failure(OwnershipFault, false) && old(machine.journal).faults < machine.journal.faults
      ensures Looks(old(machine.journal), machine.journal)
      ensures r.Ok? ==> CensusOk(machine.os, r.value) && forall p <- pids | p != self :: p in read
      ensures r.Ok? ==> forall p <- read :: Entry(p, read[p]) in r.value
      ensures Covered(machine.os, View(old(machine.os).used, pids, read, old(machine.calls), machine.calls), machine.schedule)
    {
      hide PendingOk, Accounted, Shelved, Numbered, Halted, Ledger, Bound, Proven, ProcessesOk, DescriptorsOk;
      var census: seq<Entry> := [];
      read := map[];
      for n := 0 to |pids|
        invariant Valid() && Undisturbed(old(machine.os), machine.os) && old(machine.clock) <= machine.clock
        invariant Looks(old(machine.journal), machine.journal)
        invariant CensusOk(machine.os, census) && old(machine.calls) <= machine.calls
        invariant forall e <- census :: e.pid in pids[..n]
        invariant forall p <- pids[..n] | p != self :: p in read
        invariant forall p <- read :: p in pids[..n] && Entry(p, read[p]) in census
        invariant Covered(machine.os, View(old(machine.os).used, pids, read, old(machine.calls), machine.calls), machine.schedule)
      {
        assert pids[..n + 1] == pids[..n] + [pids[n]];
        assert pids[n] !in pids[..n];
        if pids[n] != self {
          ghost var before, calls := machine.os, machine.calls;
          var identity := IdentityOf(pids[n], false);
          CoveredStays(before, machine.os, View(old(machine.os).used, pids, read, old(machine.calls), calls),
                       machine.schedule, machine.calls);
          CensusStays(before, machine.os, census);
          if identity.Err? {
            return Err(identity.error), read;
          }
          CoveredNext(before, machine.os, View(old(machine.os).used, pids, read, old(machine.calls), machine.calls),
                      machine.schedule, pids[n], identity.value, calls);
          census := census + [Entry(pids[n], identity.value)];
          read := read[pids[n] := identity.value];
        }
      }
      assert pids[..|pids|] == pids;
      r := Ok(census);
    }

    /** The first `n` entries of the census are settled. */
    ghost predicate SettledAll(census: seq<Entry>, n: nat)
      requires n <= |census|
      reads this, machine
    {
      forall i | 0 <= i < n && census[i].identity.Some? && Candidate(census[i].identity.value) ::
        Settled(machine.os, recognise, known, pending, fatal, census[i].identity.value.key)
    }

    lemma NoneSettled(census: seq<Entry>)
      ensures SettledAll(census, 0)
    {
    }

    /** The next entry: what was settled stays settled. */
    method ConsiderNext(census: seq<Entry>, n: nat) returns (r: Option<Failure>)
      requires Valid() && Blocked().None? && CensusOk(machine.os, census) && n < |census| && SettledAll(census, n)
      modifies machine, this`known, this`handles, this`proof, this`retirement
      modifies this`pending, this`errors, this`reconciliations, this`fatal
      ensures Valid() && Later(old(machine.os), machine.os) && old(machine.clock) <= machine.clock
      ensures machine.os.delivered == old(machine.os).delivered
      ensures Silent(old(machine.journal), machine.journal) && (r.Some? ==> Excuse(old(machine.journal)))
      ensures old(reconciliations) <= reconciliations
      ensures ClosesOnlyNew(old(machine.os), machine.os)
      ensures r.None? ==> retirement == None
      ensures r.Some? ==> r.value.fault != DeadlineFault && retirement == if r.value.uncertain then r else None
      ensures (forall k <- old(known) :: k in known) && old(fatal) <= fatal
      ensures CensusOk(machine.os, census) && (r.None? ==> SettledAll(census, n + 1))
    {
      hide PendingOk, Accounted, Shelved, Numbered, Halted, Ledger, Bound, Proven, ProcessesOk, DescriptorsOk,
        Settled, Later, ClosesOnlyNew;
      ghost var os, was, had, fatals := machine.os, known, pending, fatal;
      assert census[n] in census;
      r := Consider(census[n].pid, census[n].identity);
      CensusStays(os, machine.os, census);
      if r.None? {
        forall i | 0 <= i < n && census[i].identity.Some? && Candidate(census[i].identity.value)
          ensures Settled(machine.os, recognise, known, pending, fatal, census[i].identity.value.key)
        {
          var k := census[i].identity.value.key;
          assert census[i] in census && k.pid == census[i].pid != census[n].pid;
          assert k.pid in had ==> k.pid in had - {census[n].pid} && k.pid in pending - {census[n].pid};
          SettledStays(os, machine.os, recognise, was, had, fatals, known, pending, fatal, k);
        }
      }
    }

    method ConsiderAll(census: seq<Entry>) returns (r: Option<Failure>)
      requires Valid() && Blocked().None? && CensusOk(machine.os, census)
      modifies machine, this`known, this`handles, this`proof, this`retirement
      modifies this`pending, this`errors, this`reconciliations, this`fatal
      ensures Valid() && Later(old(machine.os), machine.os) && old(machine.clock) <= machine.clock
      ensures machine.os.delivered == old(machine.os).delivered
      ensures Silent(old(machine.journal), machine.journal) && (r.Some? ==> Excuse(old(machine.journal)))
      ensures old(reconciliations) <= reconciliations
      ensures ClosesOnlyNew(old(machine.os), machine.os)
      ensures r.None? ==> retirement == None
      ensures r.Some? ==> r.value.fault != DeadlineFault && retirement == if r.value.uncertain then r else None
      ensures (forall k <- old(known) :: k in known) && old(fatal) <= fatal
      ensures r.None? ==> SettledAll(census, |census|)
    {
      hide PendingOk, Accounted, Shelved, Numbered, Halted, Ledger, Bound, Proven, ProcessesOk, DescriptorsOk,
        CensusOk, SettledAll;
      NoneSettled(census);
      r := None;
      for n := 0 to |census|
        invariant Valid() && Blocked().None? && CensusOk(machine.os, census) && r.None?
        invariant Later(old(machine.os), machine.os) && old(machine.clock) <= machine.clock
        invariant machine.os.delivered == old(machine.os).delivered
        invariant Silent(old(machine.journal), machine.journal) && old(reconciliations) <= reconciliations
        invariant ClosesOnlyNew(old(machine.os), machine.os)
        invariant (forall k <- old(known) :: k in known) && old(fatal) <= fatal
        invariant SettledAll(census, n)
      {
        r := ConsiderNext(census, n);
        if r.Some? {
          return;
        }
      }
    }

    method RecheckOne(key: Key) returns (r: Result<Option<Identity>, Failure>)
      requires Valid() && key in known
      modifies machine, this`known
      ensures Valid() && Undisturbed(old(machine.os), machine.os) && old(machine.clock) <= machine.clock
      ensures forall k :: k in known <==> k in old(known)
      ensures r.Err? ==> r.error == Failure(OwnershipFault, false) && old(machine.journal).faults < machine.journal.faults
      ensures Looks(old(machine.journal), machine.journal)
      ensures r.Ok? && r.value.Some? ==> r.value.value.live && r.value.value.key == key
      ensures r.Ok? && r.value.None? ==> !Running(machine.os, key)
    {
      hide PendingOk, Accounted, Shelved, Numbered, Halted, Ledger, Bound, ProcessesOk, DescriptorsOk;
      var current := IdentityOf(key.pid, false);
      if current.Err? {
        r := Err(current.error);
      } else if current.value.Some? && current.value.value.live && current.value.value.key == key {
        known := known[key := current.value.value];
        r := current;
      } else {
        r := Ok(None);
      }
    }

    /** Reread every known lifetime: what is not reported has stopped running for good. */
    method Recheck() returns (r: Result<map<Key, Identity>, Failure>)
      requires Valid()
      modifies machine, this`known
      ensures Valid() && Undisturbed(old(machine.os), machine.os) && old(machine.clock) <= machine.clock
      ensures forall k :: k in known <==> k in old(known)
      ensures r.Err? ==> r.error == Failure(OwnershipFault, false) && old(machine.journal).faults < machine.journal.faults
      ensures Looks(old(machine.journal), machine.journal)
      ensures r.Ok? ==> Accounts(machine.os, known, r.value)
    {
      hide PendingOk, Accounted, Shelved, Numbered, Halted, Ledger, Bound, Proven, ProcessesOk, DescriptorsOk,
        Running;
      var todo, live: map<Key, Identity> := known.Keys, map[];
      ghost var gone: set<Key> := {};
      while todo != {}
        invariant Valid() && Undisturbed(old(machine.os), machine.os) && old(machine.clock) <= machine.clock
        invariant Looks(old(machine.journal), machine.journal)
        invariant known.Keys == old(known).Keys && todo <= known.Keys && live.Keys <= known.Keys && gone <= known.Keys
        invariant forall k <- known | k !in todo && k !in live :: k in gone
        invariant forall k <- gone :: !Running(machine.os, k)
      {
        var key :| key in todo;
        ghost var os := machine.os;
        var current := RecheckOne(key);
        GoneStays(os, machine.os, gone);
        assert known.Keys == old(known).Keys;
        if current.Err? {
          return Err(current.error);
        }
        if current.value.Some? {
          live := live[key := current.value.value];
        } else {
          gone := gone + {key};
        }
        todo := todo - {key};
      }
      r := Ok(live);
    }

    lemma GoneStays(a: Os, b: Os, gone: set<Key>)
      requires Later(a, b) && RosterOk() && Proven(a, recognise, proof, uid) && gone <= known.Keys
      requires forall k <- gone :: !Running(a, k)
      ensures forall k <- gone :: !Running(b, k)
    {
    }

    /** The last census covered everyone it listed, and settled every candidate that it read. */
    ghost predicate Surveyed()
      reads this, machine
    {
      && view.started <= machine.os.used && Covered(machine.os, view, machine.schedule) && Listed(view, machine.schedule)
      && (forall p <- view.listing | p != self :: p in view.read)
      && (forall p <- view.read | view.read[p].Some? :: view.read[p].value.key in machine.os.used)
      && (forall p <- view.read | view.read[p].Some? && Candidate(view.read[p].value) ::
            Settled(machine.os, recognise, known, pending, fatal, view.read[p].value.key))
    }

    /** A whole discovery. It sends nothing, closes only descriptors it opened itself and so keeps
        every registered handle, never forgets a fatal message, and reports every known lifetime that still runs.
        Once the scope is closed or its retirement is uncertain it does nothing at all. */
    method Discover() returns (r: Result<map<Key, Identity>, Failure>)
      requires Valid()
      modifies machine, this`known, this`handles, this`proof, this`retirement
      modifies this`pending, this`errors, this`reconciliations, this`fatal, this`view
      ensures Valid() && Later(old(machine.os), machine.os) && old(machine.clock) <= machine.clock
      ensures machine.os.delivered == old(machine.os).delivered
      ensures ClosesOnlyNew(old(machine.os), machine.os)
      ensures (forall k <- old(known) :: k in known) && old(fatal) <= fatal && old(reconciliations) <= reconciliations
      ensures old(Blocked()).Some? ==>
        r == Err(old(Blocked()).value) && machine.os == old(machine.os) && retirement == old(retirement)
      ensures if old(Blocked()).Some? then machine.journal == old(machine.journal)
              else Lists(old(machine.journal), machine.journal)
      ensures old(Blocked()).None? && r.Err? ==>
        && Excuse(old(machine.journal)) && r.error.fault != DeadlineFault
        && retirement == if r.error.uncertain then Some(r.error) else None
      ensures r.Ok? ==> retirement == None && Accounts(machine.os, known, r.value)
      ensures r.Ok? ==> Surveyed() && old(machine.os).used <= view.started
      ensures r.Ok? ==> view.from == old(machine.calls) + 1 && view.past <= machine.calls
    {
      hide PendingOk, Accounted, Shelved, Numbered, Halted, Ledger, ProcessesOk, DescriptorsOk, Covered, Settled,
        CensusOk, Surveyed, SettledAll, Denied;
      if Blocked().Some? {
        return Err(Blocked().value);
      }
      var listing := machine.ListPids();
      if |listing| > MAX_PROCESSES {
        return Err(Failure(OwnershipFault, false));
      }
      var failure := Survey(listing);
      if failure.Some? {
        return Err(failure.value);
      }
      r := Reread();
    }

    /** Read every listed and pending PID, then settle what was read. */
    method Survey(listing: seq<nat>) returns (r: Option<Failure>)
      requires Valid() && Blocked().None?
      requires machine.calls > 0 && forall p :: p in listing <==> p in machine.schedule(machine.calls - 1).listing
      modifies machine, this`known, this`handles, this`proof, this`retirement
      modifies this`pending, this`errors, this`reconciliations, this`fatal, this`view
      ensures Valid() && Later(old(machine.os), machine.os) && old(machine.clock) <= machine.clock
      ensures machine.os.delivered == old(machine.os).delivered
      ensures Silent(old(machine.journal), machine.journal) && (r.Some? ==> Excuse(old(machine.journal)))
      ensures old(reconciliations) <= reconciliations
      ensures ClosesOnlyNew(old(machine.os), machine.os)
      ensures (forall k <- old(known) :: k in known) && old(fatal) <= fatal
      ensures r.None? ==> retirement == None && Surveyed()
      ensures r.None? ==> view.started == old(machine.os).used && view.from == old(machine.calls) && view.past <= machine.calls
      ensures r.Some? ==> r.value.fault != DeadlineFault && retirement == if r.value.uncertain then r else None
    {
      hide PendingOk, Accounted, Shelved, Numbered, Halted, Ledger, Bound, Proven, ProcessesOk, DescriptorsOk,
        Covered, Settled, CensusOk, SettledAll, Denied;
      var unresolved := Enumerate(pending.Keys);
      var pids := Deduped(listing + unresolved);
      ghost var started, from := machine.os.used, machine.calls;
      ghost var read;
      var census;
      census, read := ReadCensus(pids);
      if census.Err? {
        return Some(census.error);
      }
      ghost var os, past := machine.os, machine.calls;
      view := View(started, listing, read, from, past);
      r := ConsiderAll(census.value);
      if r.None? {
        Relisted(os, View(started, pids, read, from, past), listing);
        CoveredStays(os, machine.os, view, machine.schedule, past);
        forall p <- view.read | view.read[p].Some? && Candidate(view.read[p].value)
          ensures Settled(machine.os, recognise, known, pending, fatal, view.read[p].value.key)
        {
          SettledEntry(census.value, p, read[p]);
        }
        forall p <- view.read | view.read[p].Some? ensures view.read[p].value.key in machine.os.used {
          EntryUsed(os, census.value, p, read[p]);
        }
      }
    }

    lemma Relisted(os: Os, v: View, listing: seq<nat>)
      requires Covered(os, v, machine.schedule)
      ensures Covered(os, v.(listing := listing), machine.schedule)
    {
    }

    lemma EntryUsed(os: Os, census: seq<Entry>, p: nat, identity: Option<Identity>)
      requires CensusOk(os, census) && Entry(p, identity) in census && identity.Some?
      ensures identity.value.key in os.used
    {
    }

    lemma SettledEntry(census: seq<Entry>, p: nat, identity: Option<Identity>)
      requires SettledAll(census, |census|) && Entry(p, identity) in census && identity.Some? && Candidate(identity.value)
      ensures Settled(machine.os, recognise, known, pending, fatal, identity.value.key)
    {
      hide Settled;
      var i :| 0 <= i < |census| && census[i] == Entry(p, identity);
    }

    /** Reread what is known; the survey stands. */
    method Reread() returns (r: Result<map<Key, Identity>, Failure>)
      requires Valid() && Surveyed()
      modifies machine, this`known
      ensures Valid() && Undisturbed(old(machine.os), machine.os) && old(machine.clock) <= machine.clock
      ensures forall k :: k in known <==> k in old(known)
      ensures r.Err? ==> r.error == Failure(OwnershipFault, false) && old(machine.journal).faults < machine.journal.faults
      ensures Looks(old(machine.journal), machine.journal)
      ensures r.Ok? ==> Accounts(machine.os, known, r.value)
      ensures Surveyed()
    {
      hide PendingOk, Accounted, Shelved, Numbered, Halted, Ledger, Bound, Proven, ProcessesOk, DescriptorsOk,
        Covered, Settled, Denied;
      ghost var os, was := machine.os, known;
      r := Recheck();
      CoveredStays(os, machine.os, view, machine.schedule, view.past);
      forall p <- view.read | view.read[p].Some? && Candidate(view.read[p].value)
        ensures Settled(machine.os, recognise, known, pending, fatal, view.read[p].value.key)
      {
        SettledStays(os, machine.os, recognise, was, pending, fatal, known, pending, fatal, view.read[p].value.key);
      }
    }

    ghost function At(): Stage
      reads this, machine
    {
      Stage(Now(), Blocked(), pending != map[])
    }

    ghost function Now(): Past
      reads this, machine
    {
      Past(machine.os, machine.journal, machine.clock, known.Keys, fatal, reconciliations)
    }

    /** No limit, no clock reading; otherwise the reading must be finite and before the limit. */
    method CheckDeadline(limit: Option<nat>) returns (r: Option<Failure>)
      requires Valid()
      modifies machine
      ensures Valid() && Undisturbed(old(machine.os), machine.os) && old(machine.clock) <= machine.clock
      ensures Waits(old(machine.journal), machine.journal) && Onward(old(Now()), Now())
      ensures r.Some? ==> r.value == Failure(DeadlineFault, false) || r.value == Failure(OwnershipFault, false)
      ensures limit.None? ==> r.None? && machine.journal == old(machine.journal) && machine.os == old(machine.os)
      ensures limit.Some? && r.None? ==>
        machine.clock < limit.value && JustRead(old(machine.journal), machine.journal, machine.clock)
      ensures r == Some(Failure(DeadlineFault, false)) ==> Reached(limit)
      ensures r == Some(Failure(OwnershipFault, false)) ==> old(machine.journal).faults < machine.journal.faults
    {
      hide PendingOk, Bound, Proven, ProcessesOk, DescriptorsOk, Accounted, Shelved, Numbered, Halted, Ledger,
        RosterOk, Onward;
      r := None;
      OnwardSame(Now());
      if limit.Some? {
        ghost var start := Now();
        var now := machine.Monotonic();
        GripStays(start.os, machine.os);
        TickWaits(start.journal, machine.journal);
        OnwardQuietly(start, Now());
        if now.None? {
          return Some(Failure(OwnershipFault, false));
        }
        if limit.value <= now.value {
          return Some(Failure(DeadlineFault, false));
        }
      }
    }

    /** There is a limit, and the clock has reached it. */
    ghost predicate Reached(limit: Option<nat>)
      reads machine
    {
      limit.Some? && limit.value <= machine.clock
    }

    /** One signal through a registered handle: it can only reach the lifetime filed under `key`, and with a limit
        the call just before the dispatch read a clock value below it. */
    method Send(key: Key, signum: nat, limit: Option<nat>) returns (r: Option<Failure>)
      requires Valid() && key in handles && retirement == None
      modifies machine
      ensures Valid() && Onward(old(Now()), Now()) && machine.os.released == old(machine.os).released
      ensures machine.os.delivered <= old(machine.os).delivered + {Delivery(key, signum)}
      ensures Timed(old(machine.journal).sends, machine.journal.sends, {key}, signum, limit, old(machine.clock))
      ensures r.Some? ==> !r.value.uncertain
      ensures r == Some(Failure(DeadlineFault, false)) ==> Reached(limit)
      ensures r.Some? && r.value.fault != DeadlineFault && r.value.fault != LookupFault ==>
        old(machine.journal).faults < machine.journal.faults
      ensures r.None? ==> Delivery(key, signum) in machine.os.delivered
      ensures r.Some? && r.value.fault == LookupFault ==> !Running(machine.os, key)
    {
      hide PendingOk, Proven, ProcessesOk, DescriptorsOk, Accounted, Shelved, Numbered, Halted, Ledger, Grows,
        RosterOk, Onward;
      ghost var start := Now();
      r := CheckDeadline(limit);
      ghost var read := Now();
      OnwardMeans(start, read);
      if r.Some? {
        return;
      }
      var reply := machine.PidfdSend(handles[key], signum);
      ghost var sent := Now();
      GripStays(read.os, sent.os);
      HaltedSends(read.journal.spoiled, read.journal.sends, sent.journal.sends, born);
      DispatchGrows(read.journal, sent.journal);
      OnwardDispatch(read, sent);
      OnwardTwice(start, read, sent);
      match reply
      case Vanished => r := Some(Failure(LookupFault, false));
      case SendDenied => r := Some(Failure(AccessFault, false));
      case Sent =>
        r := CheckDeadline(limit);
        OnwardMeans(sent, Now());
        OnwardTwice(start, sent, Now());
    }

    /** A lifetime that has vanished is no failure. */
    method SignalOne(key: Key, signum: nat, limit: Option<nat>) returns (r: Option<Failure>)
      requires Valid() && key in handles && key in known && retirement == None
      modifies machine
      ensures Valid() && Onward(old(Now()), Now()) && machine.os.released == old(machine.os).released
      ensures Timed(old(machine.journal).sends, machine.journal.sends, {key}, signum, limit, old(machine.clock))
      ensures r.Some? ==> !r.value.uncertain
      ensures r == Some(Failure(DeadlineFault, false)) ==> Reached(limit)
      ensures r.Some? && r.value.fault != DeadlineFault ==> old(machine.journal).faults < machine.journal.faults
      ensures r.None? ==> Delivery(key, signum) in machine.os.delivered || !Running(machine.os, key)
    {
      hide PendingOk, Bound, Proven, ProcessesOk, DescriptorsOk, Accounted, Shelved, Numbered, Halted, Ledger, Grows,
        RosterOk, Onward, Later;
      ghost var start := Now();
      r := CheckDeadline(limit);
      OnwardMeans(start, Now());
      if r.None? {
        ghost var read := Now();
        r := Send(key, signum, limit);
        ghost var sent := Now();
        OnwardMeans(read, sent);
        OnwardTwice(start, read, sent);
        if r.None? || r.value.fault == LookupFault {
          r := CheckDeadline(limit);
          OnwardMeans(sent, Now());
          OnwardTwice(start, sent, Now());
          StoppedStays(sent.os, machine.os, key);
        }
      }
    }

    lemma StoppedStays(a: Os, b: Os, key: Key)
      requires Later(a, b) && RosterOk() && Proven(a, recognise, proof, uid) && key in known
      ensures !Running(a, key) ==> !Running(b, key)
    {
    }

    /** What was delivered to or over stays so. */
    lemma SignalledStays(a: Os, b: Os, signum: nat, keys: set<Key>)
      requires Later(a, b) && RosterOk() && Proven(a, recognise, proof, uid) && keys <= known.Keys
      requires forall k <- keys :: Delivery(k, signum) in a.delivered || !Running(a, k)
      ensures forall k <- keys :: Delivery(k, signum) in b.delivered || !Running(b, k)
    {
    }

    method SignalEach(live: map<Key, Identity>, signum: nat, limit: Option<nat>) returns (r: Option<Failure>)
      requires Valid() && Blocked().None? && forall k <- live :: k in known
      modifies machine
      ensures Valid() && Onward(old(Now()), Now()) && machine.os.released == old(machine.os).released
      ensures Timed(old(machine.journal).sends, machine.journal.sends, known.Keys, signum, limit, old(machine.clock))
      ensures r.Some? ==> !r.value.uncertain
      ensures r == Some(Failure(DeadlineFault, false)) ==> Reached(limit)
      ensures r.Some? && r.value.fault != DeadlineFault ==> old(machine.journal).faults < machine.journal.faults
      ensures r.None? ==> forall k <- live :: Delivery(k, signum) in machine.os.delivered || !Running(machine.os, k)
    {
      hide PendingOk, Bound, Proven, ProcessesOk, DescriptorsOk, Running, Accounted, Shelved, Numbered, Halted,
        Ledger, Grows, Timed, Onward, Later;
      r := None;
      ghost var start := Now();
      OnwardSame(start);
      TimedNone(start.journal.sends, known.Keys, signum, limit, start.clock);
      var todo := live.Keys;
      while todo != {}
        invariant Valid() && Blocked().None? && r.None? && Onward(start, Now()) && machine.os.released == start.os.released
        invariant todo <= live.Keys <= known.Keys
        invariant forall k <- live.Keys - todo :: Delivery(k, signum) in machine.os.delivered || !Running(machine.os, k)
        invariant Timed(start.journal.sends, machine.journal.sends, known.Keys, signum, limit, start.clock)
      {
        var key :| key in todo;
        ghost var done, was := live.Keys - todo, Now();
        todo := todo - {key};
        r := SignalOne(key, signum, limit);
        OnwardMeans(start, was);
        OnwardMeans(was, Now());
        SignalledStays(was.os, machine.os, signum, done);
        assert live.Keys - todo == done + {key};
        OnwardTwice(start, was, Now());
        TimedWider(was.journal.sends, machine.journal.sends, {key}, known.Keys, signum, limit, was.clock);
        TimedTwice(start.journal.sends, was.journal.sends, machine.journal.sends, known.Keys, signum, limit,
                   start.clock, was.clock);
        if r.Some? {
          return;
        }
      }
    }

    /** The signalling census, used only if the clock has not reached the limit by then. */
    method CensusForSignals(limit: Option<nat>) returns (r: Result<map<Key, Identity>, Failure>)
      requires Valid() && Blocked().None?
      modifies machine, this`known, this`handles, this`proof, this`retirement, this`duty
      modifies this`pending, this`errors, this`reconciliations, this`fatal, this`view
      ensures Valid() && Onward(old(Now()), Now()) && machine.journal.sends == old(machine.journal).sends
      ensures r.Err? ==> retirement == if r.error.uncertain then Some(r.error) else None
      ensures r.Err? && r.error == Failure(DeadlineFault, false) ==> Reached(limit)
      ensures r.Err? && r.error != Failure(DeadlineFault, false) ==> Excuse(old(machine.journal))
      ensures r.Ok? ==> retirement == None && Accounts(machine.os, known, r.value)
      ensures r.Ok? ==> duty == old(duty).(signalled := true, owed := false)
      ensures duty.repeat == old(duty).repeat
    {
      hide PendingOk, Bound, Proven, ProcessesOk, DescriptorsOk, Accounted, Shelved, Numbered, Halted, Ledger, Grows,
        Surveyed, Mismarked, Crowded, Onward, Later, ClosesOnlyNew, Waits, JustRead, Accounts;
      ghost var start := Now();
      r := Discover();
      ghost var listed := Now();
      OnwardListed(start, listed);
      if r.Ok? {
        var late := CheckDeadline(limit);
        WaitsMeans(listed.journal, machine.journal);
        OnwardMeans(start, listed);
        OnwardTwice(start, listed, Now());
        AccountsStay(listed.os, machine.os, r.value);
        duty := duty.(signalled := true, owed := false);
        if late.Some? {
          if late.value.fault != DeadlineFault { FaultExcuses(start.journal); }
          r := Err(late.value);
        }
      }
    }

    /** Signal every known live lifetime. Each dispatch goes to a known, hence proven-owned and never
        foreign, lifetime; with a limit, the call just before it read a clock value below that limit. */
    method SignalAll(signum: nat, limit: Option<nat>) returns (r: Option<Failure>)
      requires Valid()
      modifies machine, this`known, this`handles, this`proof, this`retirement, this`duty
      modifies this`pending, this`errors, this`reconciliations, this`fatal, this`view
      ensures Valid() && Onward(old(Now()), Now())
      ensures Timed(old(machine.journal).sends, machine.journal.sends, known.Keys, signum, limit, old(machine.clock))
      ensures forall d <- machine.os.delivered | d !in old(machine.os).delivered :: d.target in known && d.signum == signum
      ensures old(Blocked()).Some? ==>
        && r == old(Blocked()) && machine.os == old(machine.os) && retirement == old(retirement)
        && machine.journal == old(machine.journal)
      ensures old(Blocked()).None? && r.Some? ==> retirement == if r.value.uncertain then r else None
      ensures r.None? ==> retirement == None && old(Blocked()).None?
      ensures old(Blocked()).None? && r == Some(Failure(DeadlineFault, false)) ==> Reached(limit)
      ensures old(Blocked()).None? && r.Some? && r.value != Failure(DeadlineFault, false) ==> Excuse(old(machine.journal))
      ensures r.None? ==> duty.signalled && !duty.owed
      ensures duty.repeat == old(duty).repeat
      ensures r.None? ==> forall k <- known :: Delivery(k, signum) in machine.os.delivered || !Running(machine.os, k)
    {
      hide PendingOk, Bound, Proven, ProcessesOk, DescriptorsOk, Accounted, Shelved, Numbered, Halted, Ledger, Grows,
        Timed, Mismarked, Crowded, Onward, Later, Waits, JustRead;
      ghost var start := Now();
      OnwardSame(start);
      TimedNone(start.journal.sends, known.Keys, signum, limit, start.clock);
      r := Blocked();
      if r.Some? {
        return;
      }
      r := CheckDeadline(limit);
      ghost var read := Now();
      WaitsMeans(start.journal, read.journal);
      OnwardMeans(start, read);
      if r.Some? {
        if r.value.fault != DeadlineFault { FaultExcuses(start.journal); }
        return;
      }
      var census := CensusForSignals(limit);
      ghost var listed := Now();
      OnwardMeans(read, listed);
      OnwardTwice(start, read, listed);
      TimedNone(start.journal.sends, known.Keys, signum, limit, start.clock);
      SendsDeliver(start, listed, known.Keys, {signum});
      if census.Err? {
        if census.error != Failure(DeadlineFault, false) { ExcuseSince(start.journal, read.journal); }
        return Some(census.error);
      }
      r := SignalSeen(start, census.value, signum, limit);
      TimedTargets(start.journal.sends, machine.journal.sends, known.Keys, signum, limit, start.clock);
      SendsDeliver(start, Now(), known.Keys, {signum});
    }

    method SignalSeen(ghost start: Past, live: map<Key, Identity>, signum: nat, limit: Option<nat>)
      returns (r: Option<Failure>)
      requires Valid() && Blocked().None? && Accounts(machine.os, known, live) && Onward(start, Now())
      requires machine.journal.sends == start.journal.sends
      modifies machine
      ensures Valid() && Onward(start, Now()) && machine.os.released == old(machine.os).released
      ensures Timed(start.journal.sends, machine.journal.sends, known.Keys, signum, limit, start.clock)
      ensures r.Some? ==> !r.value.uncertain
      ensures r == Some(Failure(DeadlineFault, false)) ==> Reached(limit)
      ensures r.Some? && r.value != Failure(DeadlineFault, false) ==> Excuse(start.journal)
      ensures r.None? ==> forall k <- known :: Delivery(k, signum) in machine.os.delivered || !Running(machine.os, k)
    {
      hide PendingOk, Bound, Proven, ProcessesOk, DescriptorsOk, Accounted, Shelved, Numbered, Halted, Ledger, Grows,
        Timed, Mismarked, Crowded, Onward, Later, Running;
      ghost var was := Now();
      OnwardMeans(start, was);
      r := SignalEach(live, signum, limit);
      OnwardMeans(was, Now());
      OnwardTwice(start, was, Now());
      TimedNone(start.journal.sends, known.Keys, signum, limit, start.clock);
      TimedTwice(start.journal.sends, was.journal.sends, machine.journal.sends, known.Keys, signum, limit,
                 start.clock, was.clock);
      if r.None? { GoneStays(was.os, machine.os, known.Keys - live.Keys); }
    }

    /** A reason since a later call is one since an earlier call. */
    lemma ExcuseSince(a: Journal, b: Journal)
      requires a.calls <= b.calls && a.faults <= b.faults && Excuse(b)
      ensures Excuse(a)
    {
      hide Mismarked;
      if Crowded(machine.journal, b.calls) {
        var l :| l in machine.journal.listings && b.calls <= l && machine.journal.listings[l].count > MAX_PROCESSES;
        assert a.calls <= l;
      }
    }

    lemma FaultExcuses(a: Journal)
      requires a.faults < machine.journal.faults
      ensures Excuse(a)
    {
    }

    /** No live known lifetime, no recorded error, nothing pending. */
    predicate Clean(live: map<Key, Identity>)
      reads this`errors, this`pending
    {
      live == map[] && errors == {} && pending == map[]
    }

    /** Nothing the last census could see is left running. */
    ghost predicate Clear()
      reads this, machine
    {
      && view.started <= machine.os.used && Listed(view, machine.schedule)
      && Cleared(machine.os, view, self, uid, baseline, recognise, machine.schedule)
    }

    ghost function Sight(): Eyes
      reads this`baseline
    {
      Eyes(self, uid, baseline, recognise, machine.schedule)
    }

    /** The streak of clean censuses since call `from`, as the machine has it on record. */
    ghost predicate InARow(from: nat, end: nat)
      reads this, machine
    {
      Streak(Sight(), machine.journal, machine.os, rounds, from, end)
    }

    /** The last call read a clock value before the end. */
    ghost predicate InTime(end: nat)
      reads machine
    {
      machine.journal.reading.Some? && machine.journal.reading.value < end
    }

    /** This census is the last accepted one. */
    ghost predicate IsAccepted(live: map<Key, Identity>, from: nat, end: nat)
      reads this, machine
    {
      && accepted.Some? && accepted.value.live == live && accepted.value.known <= known.Keys
      && AcceptedOk(machine.journal, machine.os, accepted.value, from, end)
    }

    /** A clean census has settled everything it read, so only the unmarked, the unreadable, other users' and
        foreign lifetimes are left. */
    lemma SurveyClears()
      requires Valid() && Surveyed() && pending == map[] && fatal == {} && forall k <- known :: !Running(machine.os, k)
      ensures Clear()
    {
      hide Denied, Disclosed, PendingOk, Bound, Proven, ProcessesOk, DescriptorsOk, Accounted, Shelved, Numbered,
        Halted, Ledger;
      forall k <- view.started | k.pid in view.listing && k.pid != self && k !in baseline && Running(machine.os, k)
        ensures k.pid in view.read
        ensures if view.read[k.pid].None? then Denied(machine.schedule, view.from, view.past)
                else view.read[k.pid].value.uid != uid || Disclosed(machine.os, recognise, k)
      {
        assert Holds(machine.os, k);
        var identity := view.read[k.pid];
        if identity.Some? && identity.value.uid == uid {
          assert identity.value.key == k && Candidate(identity.value);
          assert Settled(machine.os, recognise, known, pending, fatal, k);
        }
      }
    }

    lemma AccountsStay(a: Os, b: Os, live: map<Key, Identity>)
      requires Accounts(a, known, live) && Later(a, b) && RosterOk() && Proven(a, recognise, proof, uid)
      ensures Accounts(b, known, live)
    {
    }

    /** A census; a clean one leaves nothing that it could see running. */
    method ClearCensus() returns (r: Result<map<Key, Identity>, Failure>)
      requires Valid() && Blocked().None?
      modifies machine, this`known, this`handles, this`proof, this`retirement
      modifies this`pending, this`errors, this`reconciliations, this`fatal, this`view
      ensures Valid() && Onward(old(Now()), Now()) && Lists(old(machine.journal), machine.journal)
      ensures r.Err? ==>
        && r.error.fault != DeadlineFault && retirement == (if r.error.uncertain then Some(r.error) else None)
        && Excuse(old(machine.journal))
      ensures r.Ok? ==> retirement == None && Accounts(machine.os, known, r.value)
      ensures r.Ok? ==>
        && old(machine.os).used <= view.started <= machine.os.used && view.from == old(machine.calls) + 1
        && view.past <= machine.calls && Listed(view, machine.schedule)
      ensures r.Ok? && Clean(r.value) ==> Clear()
    {
      hide PendingOk, Bound, Proven, ProcessesOk, DescriptorsOk, Cleared, Accounted, Shelved, Numbered, Halted,
        Ledger, Lists, Mismarked, Crowded, Onward, Later, ClosesOnlyNew, Covered, Settled, Listed;
      ghost var start := Now();
      r := Discover();
      OnwardListed(start, Now());
      if r.Ok? && Clean(r.value) { SurveyClears(); }
    }

    /** One drain census between two clock checks; a late or failed one is not accepted, and only a clean one
        lengthens the streak. */
    method DrainCensus(end: nat, ghost from: nat) returns (r: Result<map<Key, Identity>, Failure>)
      requires Valid() && Blocked().None? && !duty.owed && InARow(from, end) && from <= machine.calls
      modifies machine, this`known, this`handles, this`proof, this`retirement, this`duty, this`rounds, this`accepted
      modifies this`pending, this`errors, this`reconciliations, this`fatal, this`view
      ensures Valid() && Onward(old(Now()), Now()) && machine.journal.sends == old(machine.journal).sends
      ensures r.Err? ==> retirement == if r.error.uncertain then Some(r.error) else None
      ensures r.Err? ==> accepted == old(accepted)
      ensures r.Err? && r.error == Failure(DeadlineFault, false) ==> end <= machine.clock
      ensures r.Err? && r.error != Failure(DeadlineFault, false) ==> Excuse(old(machine.journal))
      ensures duty.repeat == old(duty).repeat && duty.signalled == old(duty).signalled
      ensures r.Ok? ==>
        && retirement == None && Accounts(machine.os, known, r.value) && old(machine.clock) < end
        && IsAccepted(r.value, from, end)
        && InARow(from, end) && InTime(end) && |rounds| == (if Clean(r.value) then |old(rounds)| + 1 else 0)
        && duty.owed == (!Clean(r.value) && (duty.repeat || !duty.signalled))
      ensures r.Ok? && Clean(r.value) ==> Clear() && old(machine.os).used <= view.started
    {
      hide PendingOk, Bound, Proven, ProcessesOk, DescriptorsOk, Cleared, Accounts, Accounted, Shelved, Numbered,
        Halted, Ledger, Grows, Streak, AcceptedOk, Onward, Later, Listed, RosterOk, Between, Reason;
      ghost var start, closing := Now(), 0;
      r, closing := TimelyDiscover(end);
      if r.Ok? { Accept(r.value, start, start.journal.calls + 1, closing, from, end); }
    }

    /** A census directly after one timely reading and before another, call number `closing`. */
    method TimelyDiscover(end: nat) returns (r: Result<map<Key, Identity>, Failure>, ghost closing: nat)
      requires Valid() && Blocked().None?
      modifies machine, this`known, this`handles, this`proof, this`retirement
      modifies this`pending, this`errors, this`reconciliations, this`fatal, this`view
      ensures Valid() && Onward(old(Now()), Now()) && machine.journal.sends == old(machine.journal).sends
      ensures r.Err? ==> retirement == if r.error.uncertain then Some(r.error) else None
      ensures r.Err? && r.error == Failure(DeadlineFault, false) ==> end <= machine.clock
      ensures r.Err? && r.error != Failure(DeadlineFault, false) ==> Excuse(old(machine.journal))
      ensures r.Ok? ==>
        var listing := old(machine.calls) + 1;
        && retirement == None && Accounts(machine.os, known, r.value) && old(machine.clock) < end && InTime(end)
        && Between(machine.journal, listing, closing, end) && listing in machine.journal.listings
        && machine.journal.listings == old(machine.journal).listings[listing := machine.journal.listings[listing]]
        && view.from == listing + 1 && view.past <= closing && Listed(view, machine.schedule)
        && old(machine.os).used <= view.started <= machine.os.used && (Clean(r.value) ==> Clear())
    {
      hide PendingOk, Bound, Proven, ProcessesOk, DescriptorsOk, Cleared, Accounts, Accounted, Shelved, Numbered,
        Halted, Ledger, Grows, Lists, Reason, Waits, JustRead, Onward, Later, Listed, RosterOk, Between;
      ghost var start := Now();
      closing := 0;
      var early := CheckDeadline(Some(end));
      ghost var read := Now();
      WaitsMeans(start.journal, read.journal);
      OnwardMeans(start, read);
      if early.Some? {
        if early.value.fault != DeadlineFault { FaultExcuses(start.journal); }
        return Err(early.value), closing;
      }
      r := ClearCensus();
      ghost var listed := Now();
      closing := listed.journal.calls;
      OnwardMeans(read, listed);
      OnwardTwice(start, read, listed);
      ListsMeans(read.journal, listed.journal);
      if r.Err? {
        ExcuseSince(start.journal, read.journal);
        return;
      }
      var late := CheckDeadline(Some(end));
      WaitsMeans(listed.journal, machine.journal);
      OnwardMeans(listed, Now());
      OnwardTwice(start, listed, Now());
      AccountsStay(listed.os, machine.os, r.value);
      if Clean(r.value) { ClearedStays(listed.os, machine.os, view, self, uid, baseline, recognise, machine.schedule); }
      if late.Some? {
        if late.value.fault != DeadlineFault { FaultExcuses(start.journal); }
        return Err(late.value), closing;
      }
      TimelyCensus(start.journal, read.journal, listed.journal, machine.journal, read.clock, machine.clock, end);
    }

    /** Put an accepted census on the scope's own record, which the machine's bears out. */
    method Accept(live: map<Key, Identity>, ghost start: Past, ghost listing: nat, ghost closing: nat, ghost from: nat,
                  ghost end: nat)
      requires Valid() && Streak(Sight(), start.journal, start.os, rounds, from, end) && from <= start.journal.calls
      requires Numbered(start.journal) && Onward(start, Now()) && machine.journal.sends == start.journal.sends
      requires Between(machine.journal, listing, closing, end) && listing == start.journal.calls + 1
      requires machine.journal.listings == start.journal.listings[listing := machine.journal.listings[listing]]
      requires view.from == listing + 1 && view.past <= closing && Listed(view, machine.schedule)
      requires view.started <= machine.os.used && Accounts(machine.os, known, live) && (Clean(live) ==> Clear())
      modifies this`accepted, this`rounds, this`duty
      ensures Valid() && InARow(from, end) && IsAccepted(live, from, end)
      ensures |rounds| == if Clean(live) then |old(rounds)| + 1 else 0
      ensures duty == old(duty).(owed := !Clean(live) && (old(duty).repeat || !old(duty).signalled))
    {
      hide PendingOk, Bound, Proven, ProcessesOk, DescriptorsOk, Cleared, Accounts, Accounted, Shelved, Numbered,
        Halted, Ledger, Grows, Streak, AcceptedOk, Onward, Listed, RosterOk, Between;
      accepted := Some(Accepted(listing, closing, machine.os, known.Keys, live));
      AcceptedNow(machine.journal, accepted.value, known, from, end);
      if Clean(live) {
        ghost var round := Round(listing, closing, view, machine.os);
        BetweenMeans(machine.journal, listing, closing, end);
        StreakGrows(Sight(), start, Now(), rounds, round, from, end);
        rounds := rounds + [round];
      } else {
        rounds := [];
        StreakNone(Sight(), machine.journal, machine.os, from, end);
      }
      duty := duty.(owed := !Clean(live) && (duty.repeat || !duty.signalled));
    }

    /** What follows an unclean census: signal, unless this phase has already signalled once for all. */
    method DrainSignals(signum: nat, end: nat, send: bool) returns (r: Option<Failure>)
      requires Valid() && Blocked().None?
      modifies machine, this`known, this`handles, this`proof, this`retirement, this`duty
      modifies this`pending, this`errors, this`reconciliations, this`fatal, this`view
      ensures Valid() && Onward(old(Now()), Now())
      ensures Timed(old(machine.journal).sends, machine.journal.sends, known.Keys, signum, Some(end), old(machine.clock))
      ensures r.None? ==> retirement == None
      ensures r.Some? ==> retirement == if r.value.uncertain then r else None
      ensures r == Some(Failure(DeadlineFault, false)) ==> end <= machine.clock
      ensures r.Some? && r.value != Failure(DeadlineFault, false) ==> Excuse(old(machine.journal))
      ensures duty.repeat == old(duty).repeat
      ensures r.None? && send ==>
        && duty.signalled && !duty.owed
        && forall k <- known :: Delivery(k, signum) in machine.os.delivered || !Running(machine.os, k)
      ensures !send ==> duty == old(duty)
    {
      hide PendingOk, Bound, Proven, ProcessesOk, DescriptorsOk, Accounted, Shelved, Numbered, Halted, Ledger, Grows,
        Timed, Waits, JustRead, Mismarked, Crowded, Onward, Later, Running;
      r := None;
      ghost var start := Now();
      OnwardSame(start);
      TimedNone(start.journal.sends, known.Keys, signum, Some(end), start.clock);
      if send {
        r := SignalAll(signum, Some(end));
        if r.None? {
          ghost var was := Now();
          r := CheckDeadline(Some(end));
          WaitsMeans(was.journal, machine.journal);
          OnwardMeans(start, was);
          OnwardMeans(was, Now());
          OnwardTwice(start, was, Now());
          if r.Some? && r.value.fault != DeadlineFault { FaultExcuses(start.journal); }
          SignalledStays(was.os, machine.os, signum, known.Keys);
        }
      }
    }

    /** One round of a drain phase. `quiet` counts the clean censuses just before it; a round that does
        not end the phase has moved the clock. */
    method DrainRound(signum: nat, end: nat, quiet: nat, quietRequired: nat, send: bool, ghost from: nat)
      returns (r: PhaseResult, live: Option<map<Key, Identity>>, clean: bool)
      requires Valid() && Blocked().None? && |rounds| == quiet && InARow(from, end) && from <= machine.calls
      requires !duty.owed && send == (duty.repeat || !duty.signalled)
      modifies machine, this`known, this`handles, this`proof, this`retirement, this`duty, this`rounds, this`accepted
      modifies this`pending, this`errors, this`reconciliations, this`fatal, this`view
      ensures Valid() && Onward(old(Now()), Now())
      ensures Timed(old(machine.journal).sends, machine.journal.sends, known.Keys, signum, Some(end), old(machine.clock))
      ensures r.Raised? ==> retirement == if r.failure.uncertain then Some(r.failure) else None
      ensures r.Raised? ==> r.failure != Failure(DeadlineFault, false) && Excuse(old(machine.journal))
      ensures !r.Raised? ==> retirement == None
      ensures if live.Some? then IsAccepted(live.value, from, end) else accepted == old(accepted)
      ensures r.Retired? ==>
        && errors == {} && pending == map[] && (forall k <- known :: !Running(machine.os, k))
        && quietRequired <= |rounds| && InARow(from, end) && InTime(end)
      ensures r.Continue? ==> old(machine.clock) < machine.clock && old(machine.clock) < end && live.Some?
      ensures r.Continue? ==> InARow(from, end) && |rounds| == if clean then quiet + 1 else 0
      ensures r.Continue? && !clean && send ==>
        forall k <- known :: Delivery(k, signum) in machine.os.delivered || !Running(machine.os, k)
      ensures r.Expired? ==> end <= machine.clock
      ensures duty.repeat == old(duty).repeat
      ensures r.Continue? ==> !duty.owed && duty.signalled == (old(duty).signalled || !clean)
      ensures r.Retired? ==> Clear() && old(machine.os).used <= view.started
    {
      hide PendingOk, Bound, Proven, ProcessesOk, DescriptorsOk, Cleared, Accounted, Shelved, Numbered, Halted,
        Ledger, Grows, Streak, Timed, AcceptedOk, Reason, Onward, Later, Listed, RosterOk;
      live, clean := None, false;
      ghost var start := Now();
      var census := DrainCensus(end, from);
      ghost var was := Now();
      OnwardMeans(start, was);
      TimedNone(start.journal.sends, known.Keys, signum, Some(end), start.clock);
      if census.Err? {
        r := Outcome(census.error);
        return;
      }
      live, clean := Some(census.value), Clean(census.value);
      if clean && quietRequired <= quiet + 1 {
        r := Retire(start, census.value, end, from);
        return;
      }
      if !clean {
        var failure := DrainSignals(signum, end, send);
        OnwardMeans(was, Now());
        OnwardTwice(start, was, Now());
        TimedTwice(start.journal.sends, was.journal.sends, machine.journal.sends, known.Keys, signum, Some(end),
                   start.clock, was.clock);
        AcceptedStays(was, Now(), accepted.value, from, end);
        StreakNone(Sight(), machine.journal, machine.os, from, end);
        if failure.Some? {
          if failure.value != Failure(DeadlineFault, false) { ExcuseSince(start.journal, was.journal); }
          r := Outcome(failure.value);
          return;
        }
      }
      r := Pause(start, end, from, census.value, if clean || !send then None else Some(signum));
    }

    /** After enough clean censuses, one last reading decides. */
    method Retire(ghost start: Past, live: map<Key, Identity>, end: nat, ghost from: nat) returns (r: PhaseResult)
      requires Valid() && Onward(start, Now()) && InARow(from, end) && IsAccepted(live, from, end) && Clear()
      requires Accounts(machine.os, known, live) && live == map[] && machine.journal.sends == start.journal.sends
      modifies machine
      ensures Valid() && Onward(start, Now()) && IsAccepted(live, from, end) && machine.journal.sends == start.journal.sends
      ensures r.Retired? || r.Expired? || (r.Raised? && !r.failure.uncertain)
      ensures r.Retired? ==> (forall k <- known :: !Running(machine.os, k)) && InARow(from, end) && InTime(end) && Clear()
      ensures r.Expired? ==> end <= machine.clock
      ensures r.Raised? ==> r.failure != Failure(DeadlineFault, false) && Excuse(start.journal)
    {
      hide PendingOk, Bound, Proven, ProcessesOk, DescriptorsOk, Cleared, Accounted, Shelved, Numbered, Halted,
        Ledger, Grows, Streak, AcceptedOk, Waits, Reason, Onward, Later, Listed, RosterOk;
      ghost var was := Now();
      OnwardMeans(start, was);
      var late := CheckDeadline(Some(end));
      WaitsMeans(was.journal, machine.journal);
      OnwardMeans(was, Now());
      OnwardTwice(start, was, Now());
      if late.Some? && late.value.fault != DeadlineFault { FaultExcuses(start.journal); }
      AccountsStay(was.os, machine.os, live);
      AcceptedStays(was, Now(), accepted.value, from, end);
      StreakStays(Sight(), was, Now(), rounds, from, end);
      ClearedStays(was.os, machine.os, view, self, uid, baseline, recognise, machine.schedule);
      r := if late.None? then Retired else Outcome(late.value);
    }

    /** Sleep, unless the phase is over; `signum` was sent to all just before, if any was. */
    method Pause(ghost start: Past, end: nat, ghost from: nat, ghost live: map<Key, Identity>, ghost signum: Option<nat>)
      returns (r: PhaseResult)
      requires Valid() && Onward(start, Now()) && InARow(from, end) && IsAccepted(live, from, end)
      requires signum.Some? ==>
        forall k <- known :: Delivery(k, signum.value) in machine.os.delivered || !Running(machine.os, k)
      modifies machine
      ensures Valid() && Onward(start, Now()) && InARow(from, end) && IsAccepted(live, from, end)
      ensures machine.journal.sends == old(machine.journal).sends
      ensures (r.Expired? && end <= machine.clock) || (r.Continue? && old(machine.clock) < machine.clock)
      ensures signum.Some? ==>
        forall k <- known :: Delivery(k, signum.value) in machine.os.delivered || !Running(machine.os, k)
    {
      hide PendingOk, Bound, Proven, ProcessesOk, DescriptorsOk, Accounted, Shelved, Numbered, Halted, Ledger, Grows,
        Streak, AcceptedOk, Waits, Onward, Later, RosterOk, Running;
      ghost var was := Now();
      r := Rest(end);
      WaitsMeans(was.journal, machine.journal);
      OnwardMeans(was, Now());
      OnwardTwice(start, was, Now());
      AcceptedStays(was, Now(), accepted.value, from, end);
      StreakStays(Sight(), was, Now(), rounds, from, end);
      if signum.Some? { SignalledStays(was.os, machine.os, signum.value, known.Keys); }
    }

    method Rest(end: nat) returns (r: PhaseResult)
      requires Valid()
      modifies machine
      ensures Valid() && Waits(old(machine.journal), machine.journal) && Onward(old(Now()), Now())
      ensures (r.Expired? && end <= machine.clock) || (r.Continue? && old(machine.clock) < machine.clock)
    {
      hide PendingOk, Bound, Proven, ProcessesOk, DescriptorsOk, Accounted, Shelved, Numbered, Halted, Ledger,
        RosterOk, Onward, Waits;
      ghost var start := Now();
      var now := machine.Monotonic();
      ghost var read := Now();
      GripStays(start.os, read.os);
      TickWaits(start.journal, read.journal);
      OnwardQuietly(start, read);
      if now.Some? && end <= now.value {
        return Expired;
      }
      machine.Sleep(if now.Some? && end - now.value < POLL_NS then end - now.value else POLL_NS);
      GripStays(read.os, machine.os);
      TickWaits(read.journal, machine.journal);
      WaitsTwice(start.journal, read.journal, machine.journal);
      OnwardQuietly(read, Now());
      OnwardTwice(start, read, Now());
      r := Continue;
    }

    /** One phase of the bounded drain: it ends in retirement after enough consecutive clean timely
        censuses, by expiry, or with a failure. It terminates because every sleep moves the clock. */
    method DrainPhase(signum: nat, end: nat, quietRequired: nat, repeatSignals: bool, ghost from: nat)
      returns (r: PhaseResult, live: Option<map<Key, Identity>>)
      requires Valid() && Blocked().None? && rounds == [] && from <= machine.calls
      requires !duty.owed && !duty.signalled && duty.repeat == repeatSignals
      modifies machine, this`known, this`handles, this`proof, this`retirement, this`duty, this`rounds, this`accepted
      modifies this`pending, this`errors, this`reconciliations, this`fatal, this`view
      ensures Valid() && Onward(old(Now()), Now())
      ensures Timed(old(machine.journal).sends, machine.journal.sends, known.Keys, signum, Some(end), old(machine.clock))
      ensures r.Raised? ==> retirement == if r.failure.uncertain then Some(r.failure) else None
      ensures r.Raised? ==> r.failure != Failure(DeadlineFault, false) && Excuse(old(machine.journal))
      ensures !r.Raised? ==> retirement == None
      ensures if live.Some? then IsAccepted(live.value, from, end) else accepted == old(accepted)
      ensures r.Retired? ==>
        && errors == {} && pending == map[] && (forall k <- known :: !Running(machine.os, k))
        && quietRequired <= |rounds| && InARow(from, end) && InTime(end)
      ensures !r.Continue? && (r.Expired? ==> end <= machine.clock)
      ensures r.Retired? ==> Clear() && old(machine.os).used <= view.started
    {
      hide PendingOk, Bound, Proven, ProcessesOk, DescriptorsOk, Cleared, Accounted, Shelved, Numbered, Halted,
        Ledger, Grows, Streak, Timed, AcceptedOk, Reason, Onward, Later, Listed, RosterOk;
      live := None;
      var quiet, sent := 0, false;
      ghost var start := Now();
      OnwardSame(start);
      TimedNone(start.journal.sends, known.Keys, signum, Some(end), start.clock);
      StreakNone(Sight(), machine.journal, machine.os, from, end);
      while true
        invariant Valid() && Blocked().None? && |rounds| == quiet && InARow(from, end) && from <= machine.calls
        invariant Onward(start, Now())
        invariant if live.Some? then IsAccepted(live.value, from, end) else accepted == old(accepted)
        invariant !duty.owed && duty.signalled == sent && duty.repeat == repeatSignals
        invariant Timed(start.journal.sends, machine.journal.sends, known.Keys, signum, Some(end), start.clock)
        decreases if machine.clock < end then end - machine.clock else 0
      {
        var observed, clean;
        ghost var was, had := Now(), accepted;
        r, observed, clean := DrainRound(signum, end, quiet, quietRequired, repeatSignals || !sent, from);
        OnwardMeans(start, was);
        OnwardMeans(was, Now());
        OnwardTwice(start, was, Now());
        TimedWider(start.journal.sends, was.journal.sends, was.known, known.Keys, signum, Some(end), start.clock);
        TimedTwice(start.journal.sends, was.journal.sends, machine.journal.sends, known.Keys, signum, Some(end),
                   start.clock, was.clock);
        if observed.None? && live.Some? { AcceptedStays(was, Now(), had.value, from, end); }
        if r.Raised? { ExcuseSince(start.journal, was.journal); }
        live := if observed.Some? then observed else live;
        if !r.Continue? {
          return;
        }
        if clean {
          quiet := quiet + 1;
        } else {
          quiet, sent := 0, true;
        }
      }
    }

    /** `_drain_phase_ends`: one clock reading fixes both ends; neither exceeds the caller's deadline. */
    method PhaseEnds(grace: nat, killWait: nat, deadline: nat) returns (r: Result<(nat, nat), Failure>)
      requires Valid()
      modifies machine
      ensures Valid() && Onward(old(Now()), Now()) && machine.clock == old(machine.NextClock())
      ensures Waits(old(machine.journal), machine.journal) && machine.calls == old(machine.calls) + 1
      ensures r ==
        if old(machine.NextBad()) then Err(Failure(OwnershipFault, false))
        else if deadline <= machine.clock then Err(Failure(DeadlineFault, false))
        else Ok(Ends(machine.clock, grace, killWait, deadline))
      ensures r == Err(Failure(OwnershipFault, false)) ==> old(machine.journal).faults < machine.journal.faults
    {
      hide PendingOk, Bound, Proven, ProcessesOk, DescriptorsOk, Accounted, Shelved, Numbered, Halted, Ledger,
        RosterOk, Onward, Waits;
      ghost var start := Now();
      var started := machine.Monotonic();
      GripStays(start.os, machine.os);
      TickWaits(start.journal, machine.journal);
      OnwardQuietly(start, Now());
      if started.None? {
        r := Err(Failure(OwnershipFault, false));
      } else if deadline <= started.value {
        r := Err(Failure(DeadlineFault, false));
      } else {
        r := Ok((Min(started.value + grace, deadline), Min(started.value + grace + killWait, deadline)));
      }
    }

    /** The TERM phase, then the KILL phase if that was over without a decision. */
    method Phases(ends: (nat, nat), quietRequired: nat, repeatSignals: bool)
      returns (r: PhaseResult, live: Option<map<Key, Identity>>)
      requires Valid() && Blocked().None? && ends.0 <= ends.1
      modifies machine, this`known, this`handles, this`proof, this`retirement, this`duty, this`rounds, this`accepted
      modifies this`pending, this`errors, this`reconciliations, this`fatal, this`view
      ensures Valid() && Onward(old(Now()), Now())
      ensures Phased(old(machine.journal).sends, machine.journal.sends, known.Keys, ends)
      ensures r.Raised? ==> retirement == if r.failure.uncertain then Some(r.failure) else None
      ensures r.Raised? ==> r.failure != Failure(DeadlineFault, false) && Excuse(old(machine.journal))
      ensures !r.Raised? ==> retirement == None
      ensures live.Some? ==> IsAccepted(live.value, old(machine.calls), ends.1)
      ensures r.Retired? ==>
        && errors == {} && pending == map[] && (forall k <- known :: !Running(machine.os, k))
        && quietRequired <= |rounds| && (Rested(old(machine.calls), ends.0) || Rested(old(machine.calls), ends.1))
      ensures !r.Continue? && (r.Expired? ==> ends.1 <= machine.clock)
      ensures r.Retired? ==> Clear() && old(machine.os).used <= view.started
    {
      hide PendingOk, Bound, Proven, ProcessesOk, DescriptorsOk, Cleared, Accounted, Shelved, Numbered, Halted,
        Ledger, Grows, Streak, Timed, Phased, AcceptedOk, Reason, Onward, Later, Listed, RosterOk;
      ghost var start := Now();
      duty, rounds, accepted := Duty(repeatSignals, false, false), [], None;
      r, live := DrainPhase(SIG_TERM, ends.0, quietRequired, repeatSignals, start.journal.calls);
      ghost var was, had := Now(), accepted;
      OnwardMeans(start, was);
      FirstPhase(start.journal.sends, was.journal.sends, known.Keys, ends, start.clock);
      if live.Some? { AcceptedLonger(was.journal, was.os, had.value, start.journal.calls, ends.0, ends.1); }
      if r.Expired? {
        r, live := LastPhase(start, live, ends, quietRequired, repeatSignals);
      }
    }

    /** The KILL phase, after a TERM phase that began at `start`. */
    method LastPhase(ghost start: Past, seen: Option<map<Key, Identity>>, ends: (nat, nat), quietRequired: nat,
                     repeatSignals: bool)
      returns (r: PhaseResult, live: Option<map<Key, Identity>>)
      requires Valid() && Blocked().None? && Onward(start, Now()) && ends.0 <= machine.clock
      requires Phased(start.journal.sends, machine.journal.sends, known.Keys, ends)
      requires seen.Some? ==> IsAccepted(seen.value, start.journal.calls, ends.1)
      modifies machine, this`known, this`handles, this`proof, this`retirement, this`duty, this`rounds, this`accepted
      modifies this`pending, this`errors, this`reconciliations, this`fatal, this`view
      ensures Valid() && Onward(start, Now())
      ensures Phased(start.journal.sends, machine.journal.sends, known.Keys, ends)
      ensures r.Raised? ==> retirement == if r.failure.uncertain then Some(r.failure) else None
      ensures r.Raised? ==> r.failure != Failure(DeadlineFault, false) && Excuse(start.journal)
      ensures !r.Raised? ==> retirement == None
      ensures live.Some? ==> IsAccepted(live.value, start.journal.calls, ends.1)
      ensures r.Retired? ==>
        && errors == {} && pending == map[] && (forall k <- known :: !Running(machine.os, k))
        && quietRequired <= |rounds| && Rested(start.journal.calls, ends.1)
      ensures !r.Continue? && (r.Expired? ==> ends.1 <= machine.clock)
      ensures r.Retired? ==> Clear() && old(machine.os).used <= view.started
    {
      hide PendingOk, Bound, Proven, ProcessesOk, DescriptorsOk, Cleared, Accounted, Shelved, Numbered, Halted,
        Ledger, Grows, Streak, Timed, Phased, AcceptedOk, Reason, Onward, Later, Listed, RosterOk;
      ghost var was, had := Now(), accepted;
      OnwardMeans(start, was);
      duty, rounds := Duty(repeatSignals, false, false), [];
      r, live := DrainPhase(SIG_KILL, ends.1, quietRequired, repeatSignals, start.journal.calls);
      OnwardMeans(was, Now());
      OnwardTwice(start, was, Now());
      SecondPhase(start.journal.sends, was.journal.sends, machine.journal.sends, was.known, known.Keys, ends, was.clock);
      if r.Raised? { ExcuseSince(start.journal, was.journal); }
      if live.None? {
        if seen.Some? { AcceptedStays(was, Now(), had.value, start.journal.calls, ends.1); }
        live := seen;
      }
    }

    /** The streak ended with a reading in time. */
    ghost predicate Rested(from: nat, end: nat)
      reads this, machine
    {
      InARow(from, end) && InTime(end)
    }

    /** The first reading of a drain that begins now refuses it. */
    ghost predicate Refuses(deadline: nat)
      reads machine
    {
      machine.NextBad() || deadline <= machine.NextClock()
    }

    /** `_bounded_drain`. The first system call is a clock reading, which fixes both phase ends before any census or
        signal. The call before every dispatch read the clock: below the first end for TERM, from there to below the
        second for KILL. An empty result means the required number of listings in a row, each directly after one
        reading and followed by another, all below the same phase end, with no dispatch since the first of them and
        each leaving nothing running that it could see; that no fatal message was ever recorded, and that no known
        lifetime is running. A non-empty one is the last timely census of this drain, at the second end. Any other
        failure has a reason. */
    method BoundedDrain(grace: nat, killWait: nat, deadline: nat, quietRequired: nat, repeatSignals: bool)
      returns (r: Result<map<Key, Identity>, Failure>)
      requires Valid()
      modifies machine, this`known, this`handles, this`proof, this`retirement, this`duty, this`rounds, this`accepted
      modifies this`pending, this`errors, this`reconciliations, this`fatal, this`view
      ensures Valid() && Onward(old(Now()), Now())
      ensures forall d <- machine.os.delivered | d !in old(machine.os).delivered ::
        d.target in known && (d.signum == SIG_TERM || d.signum == SIG_KILL)
      ensures old(Blocked()).Some? ==>
        && r == Err(old(Blocked()).value) && machine.os == old(machine.os) && retirement == old(retirement)
        && machine.journal == old(machine.journal)
      ensures old(Blocked()).None? && r.Err? ==> retirement == if r.error.uncertain then Some(r.error) else None
      ensures r.Ok? ==> retirement == None
      ensures old(Blocked()).None? && old(Refuses(deadline)) ==>
        && r == Err(Failure(if old(machine.NextBad()) then OwnershipFault else DeadlineFault, false))
        && machine.calls == old(machine.calls) + 1 && known == old(known) && view == old(view)
        && machine.clock == old(machine.NextClock())
        && machine.journal.sends == old(machine.journal).sends && machine.journal.listings == old(machine.journal).listings
      ensures old(Blocked()).None? && !old(Refuses(deadline)) ==>
        var ends := Ends(old(machine.NextClock()), grace, killWait, deadline);
        && Phased(old(machine.journal).sends, machine.journal.sends, known.Keys, ends)
        && (r == Ok(map[]) ==> Rested(old(machine.calls), ends.0) || Rested(old(machine.calls), ends.1))
        && ((r.Ok? && r.value != map[]) || r == Err(Failure(DeadlineFault, false)) ==> ends.1 <= machine.clock)
        && (r.Ok? && r.value != map[] ==> IsAccepted(r.value, old(machine.calls), ends.1))
      ensures old(Blocked()).None? && r.Err? && r.error != Failure(DeadlineFault, false) ==> Excuse(old(machine.journal))
      ensures r == Ok(map[]) ==>
        && errors == {} && pending == map[] && fatal == {} && (forall k <- known :: !Running(machine.os, k))
        && quietRequired <= |rounds|
      ensures r == Ok(map[]) ==> Clear() && old(machine.os).used <= view.started
      ensures r.Ok? ==> old(Blocked()).None? && !old(Refuses(deadline))
    {
      hide PendingOk, Bound, Proven, ProcessesOk, DescriptorsOk, Cleared, Accounted, Shelved, Numbered, Halted,
        Ledger, Grows, Streak, Phased, AcceptedOk, Waits, Reason, Onward, Later, Listed, RosterOk;
      ghost var start := Now();
      OnwardSame(start);
      if Blocked().Some? {
        r := Err(Blocked().value);
        return;
      }
      var fixed := PhaseEnds(grace, killWait, deadline);
      ghost var read := Now();
      WaitsMeans(start.journal, read.journal);
      OnwardMeans(start, read);
      SendsDeliver(start, read, known.Keys, {SIG_TERM, SIG_KILL});
      if fixed.Err? {
        if fixed.error.fault != DeadlineFault { FaultExcuses(start.journal); }
        r := Err(fixed.error);
        return;
      }
      var outcome, live := Phases(fixed.value, quietRequired, repeatSignals);
      OnwardTwice(start, read, Now());
      PhasedTargets(start.journal.sends, machine.journal.sends, known.Keys, fixed.value);
      SendsDeliver(start, Now(), known.Keys, {SIG_TERM, SIG_KILL});
      RestedEarlier(start.journal.calls, read.journal.calls, fixed.value);
      if live.Some? {
        AcceptedEarlier(machine.journal, machine.os, accepted.value, start.journal.calls, read.journal.calls,
                        fixed.value.1);
      }
      if outcome.Retired? {
        r := Ok(map[]);
      } else if outcome.Raised? {
        ExcuseSince(start.journal, read.journal);
        r := Err(outcome.failure);
      } else {
        r := if live.Some? && live.value != map[] then Ok(live.value) else Err(Failure(DeadlineFault, false));
      }
    }

    lemma RestedEarlier(from: nat, later: nat, ends: (nat, nat))
      requires from <= later
      ensures Rested(later, ends.0) ==> Rested(from, ends.0)
      ensures Rested(later, ends.1) ==> Rested(from, ends.1)
    {
      hide RoundOk;
    }

    /** `LinuxScope.drain` with an explicit deadline. */
    method Drain(grace: nat, killWait: nat, deadline: nat) returns (r: Result<map<Key, Identity>, Failure>)
      requires Valid()
      modifies machine, this`known, this`handles, this`proof, this`retirement, this`duty, this`rounds, this`accepted
      modifies this`pending, this`errors, this`reconciliations, this`fatal, this`view
      ensures Valid() && Onward(old(Now()), Now())
      ensures forall d <- machine.os.delivered | d !in old(machine.os).delivered ::
        d.target in known && (d.signum == SIG_TERM || d.signum == SIG_KILL)
      ensures old(Blocked()).Some? ==>
        && r == Err(old(Blocked()).value) && machine.os == old(machine.os) && retirement == old(retirement)
        && machine.journal == old(machine.journal)
      ensures old(retirement).Some? ==> retirement == old(retirement)
      ensures r == Ok(map[]) ==>
        && errors == {} && pending == map[] && fatal == {} && (forall k <- known :: !Running(machine.os, k))
        && QUIET_REQUIRED <= |rounds|
      ensures old(Blocked()).None? && !old(Refuses(deadline)) ==>
        var ends := Ends(old(machine.NextClock()), grace, killWait, deadline);
        && Phased(old(machine.journal).sends, machine.journal.sends, known.Keys, ends)
        && (r == Ok(map[]) ==> Rested(old(machine.calls), ends.0) || Rested(old(machine.calls), ends.1))
        && ((r.Ok? && r.value != map[]) || r == Err(Failure(DeadlineFault, false)) ==> ends.1 <= machine.clock)
        && (r.Ok? && r.value != map[] ==> IsAccepted(r.value, old(machine.calls), ends.1))
      ensures old(Blocked()).None? && old(Refuses(deadline)) ==>
        && r == Err(Failure(if old(machine.NextBad()) then OwnershipFault else DeadlineFault, false))
        && machine.journal.sends == old(machine.journal).sends && machine.journal.listings == old(machine.journal).listings
        && machine.clock == old(machine.NextClock())
      ensures old(Blocked()).None? && r.Err? && r.error != Failure(DeadlineFault, false) ==>
        Excuse(old(machine.journal)) || pending != map[]
      ensures r.Ok? ==> pending == map[]
      ensures r == Ok(map[]) ==> Clear() && old(machine.os).used <= view.started
      ensures r.Ok? ==> old(Blocked()).None? && !old(Refuses(deadline))
    {
      hide PendingOk, Bound, Proven, ProcessesOk, DescriptorsOk, Clear, Accounted, Shelved, Numbered, Halted, Ledger,
        Grows, Streak, Phased, AcceptedOk, Waits, Reason, Onward, Later, Listed, RosterOk;
      r := BoundedDrain(grace, killWait, deadline, QUIET_REQUIRED, true);
      if r.Ok? && pending != map[] {
        r := Err(Failure(OwnershipFault, false));
      }
    }

    /** The descriptors the scope holds. */
    ghost function Held(): set<Fd>
      requires Valid()
      reads this, machine
    {
      set k <- handles :: machine.os.fds[handles[k]]
    }

    /** Close. The first call attempts every held descriptor, exactly once, even after failures; the first
        failure, earlier or here, stays the scope's answer for good. A later call touches nothing. */
    method Close() returns (r: Option<Failure>)
      requires Valid()
      modifies machine, this`closed, this`handles, this`retirement
      ensures Valid() && closed && handles == map[] && r == retirement
      ensures Later(old(machine.os), machine.os) && machine.os.delivered == old(machine.os).delivered
      ensures old(machine.clock) <= machine.clock && Silent(old(machine.journal), machine.journal)
      ensures old(closed) ==>
        machine.os == old(machine.os) && machine.journal == old(machine.journal) && retirement == old(retirement)
      ensures old(Held()) !! old(machine.os).released
      ensures machine.os.released == old(machine.os).released + old(Held())
      ensures forall f <- machine.journal.obtained | birth <= f.serial :: f in machine.os.released
      ensures retirement ==
        if old(retirement).Some? then old(retirement)
        else if machine.journal.spoiled != old(machine.journal).spoiled then Some(Failure(SystemFault, true)) else None
    {
      hide PendingOk, ProcessesOk, Accounted, Numbered, Halted, Shelved, Proven;
      if closed {
        assert handles == map[];
        return retirement;
      }
      var roster := handles;
      ghost var j, os, was := machine.journal, machine.os, retirement;
      closed, handles := true, map[];
      var ok := CloseAll(machine, roster);
      if !ok && retirement.None? {
        retirement := Some(Failure(SystemFault, true));
      }
      HaltedFails(j, born, machine.journal.spoiled, was, retirement);
      AllReleased(j, os, machine.os.released, roster);
      ProvenStays(os, machine.os);
      r := retirement;
    }

    /** What was opened was filed or closed, so closing what is filed closes all. */
    lemma AllReleased(j: Journal, os: Os, released: set<Fd>, roster: map<Key, nat>)
      requires Ledger(j.obtained, os.released, roster, birth) && Shelved(j.obtained, os.released, os.fds)
      requires Bound(os, roster, birth) && os.released <= released && forall k <- roster :: os.fds[roster[k]] in released
      ensures forall f <- j.obtained | birth <= f.serial :: f in released
      ensures Ledger(j.obtained, released, map[], birth)
    {
    }

    /** The census that a new scope takes: every lifetime it reads is foreign. `seen` is what it read, and whoever
        held a listed PID all along was read, or some access was refused. */
    method TakeBaseline() returns (r: Option<Failure>, ghost seen: View)
      requires Valid() && known == map[] && !closed
      modifies machine, this`baseline
      ensures Valid() && Undisturbed(old(machine.os), machine.os)
      ensures baseline == old(baseline) + KeysRead(seen.read) && KeysRead(seen.read) <= machine.os.used
      ensures seen.started <= machine.os.used
      ensures r.None? ==> old(machine.os).used <= seen.started && Covered(machine.os, seen, machine.schedule)
      ensures r.None? ==> forall p <- seen.listing :: p in seen.read
      ensures Listed(seen, machine.schedule) && seen.from == old(machine.calls) + 1
    {
      hide PendingOk, ProcessesOk, DescriptorsOk, Covered, Denied, KeysRead, Accounted, Shelved, Numbered, Halted,
        Ledger;
      var listing := machine.ListPids();
      seen := View(machine.os.used, listing, map[], machine.calls, machine.calls);
      NothingRead(machine.os, seen);
      if |listing| > MAX_PROCESSES {
        return Some(Failure(OwnershipFault, false)), seen;
      }
      r, seen := ReadBaseline(listing, seen);
    }

    method ReadBaseline(pids: seq<nat>, ghost start: View) returns (r: Option<Failure>, ghost seen: View)
      requires Valid() && known == map[] && start.listing == pids && start.read == map[]
      requires start.started <= machine.os.used && start.from <= start.past == machine.calls
      requires forall i, j | 0 <= i < j < |pids| :: pids[i] != pids[j]
      modifies machine, this`baseline
      ensures Valid() && Undisturbed(old(machine.os), machine.os)
      ensures baseline == old(baseline) + KeysRead(seen.read) && KeysRead(seen.read) <= machine.os.used
      ensures seen.started <= machine.os.used
      ensures seen.started == start.started && seen.listing == pids && seen.from == start.from
      ensures Covered(machine.os, seen, machine.schedule)
      ensures r.None? ==> forall p <- pids :: p in seen.read
    {
      hide PendingOk, Bound, Proven, ProcessesOk, DescriptorsOk, Covered, Denied, KeysRead;
      seen := start;
      NothingRead(machine.os, seen);
      for n := 0 to |pids|
        invariant Valid() && Undisturbed(old(machine.os), machine.os) && known == map[]
        invariant seen.started <= machine.os.used && seen.from <= seen.past == machine.calls
        invariant seen.started == start.started && seen.listing == pids && seen.from == start.from
        invariant Covered(machine.os, seen, machine.schedule)
        invariant forall p <- pids[..n] :: p in seen.read
        invariant forall p <- seen.read :: p in pids[..n]
        invariant baseline == old(baseline) + KeysRead(seen.read) && KeysRead(seen.read) <= machine.os.used
      {
        assert pids[..n + 1] == pids[..n] + [pids[n]] && pids[n] !in pids[..n];
        var identity;
        identity, seen := ReadForeign(pids[n], seen);
        if identity.Err? {
          return Some(identity.error), seen;
        }
        if identity.value.Some? {
          baseline := baseline + {identity.value.value.key};
        }
        ReadOneMore(seen.read, pids[n], identity.value);
        seen := seen.(read := seen.read[pids[n] := identity.value]);
      }
      assert pids[..|pids|] == pids;
      r := None;
    }

    lemma NothingRead(os: Os, v: View)
      requires v.read == map[]
      ensures Covered(os, v, machine.schedule) && KeysRead(v.read) == {}
    {
    }

    lemma ReadOneMore(was: map<nat, Option<Identity>>, pid: nat, identity: Option<Identity>)
      requires pid !in was
      ensures KeysRead(was[pid := identity]) == KeysRead(was) + if identity.Some? then {identity.value.key} else {}
    {
      var now := was[pid := identity];
      forall k <- KeysRead(was) ensures k in KeysRead(now) {
        var p :| p in was && was[p].Some? && was[p].value.key == k;
        assert p in now && now[p] == was[p];
      }
      if identity.Some? { assert pid in now && now[pid] == identity; }
    }

    /** Read one PID; what was covered before stays covered, and will be with this one added. */
    method ReadForeign(pid: nat, ghost seen: View) returns (identity: Result<Option<Identity>, Failure>, ghost now: View)
      requires Valid() && seen.started <= machine.os.used && seen.from <= seen.past == machine.calls
      requires Covered(machine.os, seen, machine.schedule)
      modifies machine
      ensures Valid() && Undisturbed(old(machine.os), machine.os)
      ensures now == seen.(past := machine.calls) && seen.past <= now.past && Covered(machine.os, now, machine.schedule)
      ensures identity.Ok? ==> Covered(machine.os, now.(read := now.read[pid := identity.value]), machine.schedule)
      ensures identity.Ok? && identity.value.Some? ==> identity.value.value.key in machine.os.used
    {
      hide PendingOk, Bound, Proven, ProcessesOk, DescriptorsOk, Covered, Denied;
      ghost var before, calls := machine.os, machine.calls;
      identity := IdentityOf(pid, false);
      now := seen.(past := machine.calls);
      CoveredStays(before, machine.os, seen, machine.schedule, machine.calls);
      if identity.Ok? {
        CoveredNext(before, machine.os, now, machine.schedule, pid, identity.value, calls);
      }
    }
  }

  datatype Call =
    | CallDiscover
    | CallSignal(signum: nat, limit: Option<nat>)
    | CallDrain(grace: nat, killWait: nat, deadline: nat)
    | CallClose

  /** What a call answers. */
  datatype Reply =
    | Found(census: Result<map<Key, Identity>, Failure>)
    | Signalled(failure: Option<Failure>)
    | Drained(left: Result<map<Key, Identity>, Failure>)
    | Closed(failure: Option<Failure>)

  /** Where a scope stands between two calls. */
  datatype Stage = Stage(past: Past, blocked: Option<Failure>, unresolved: bool)

  ghost predicate Excused(a: Stage, b: Stage, recognise: Env -> Verdict) {
    Reason(a.past.journal, b.past.journal, b.past.os, recognise, b.past.reconciliations)
  }

  /** What one call of an open, unspoiled scope did, and what its reply means. */
  ghost predicate Did(call: Call, reply: Reply, a: Stage, b: Stage, recognise: Env -> Verdict, schedule: nat -> Turn) {
    match call
    case CallDiscover =>
      && reply.Found? && Lists(a.past.journal, b.past.journal)
      && (reply.census.Err? ==> Excused(a, b, recognise))
      && (reply.census.Ok? ==>
            && (forall k <- reply.census.value :: k in b.past.known)
            && forall k <- b.past.known | k !in reply.census.value :: !Running(b.past.os, k))
    case CallSignal(signum, limit) =>
      && reply.Signalled?
      && Timed(a.past.journal.sends, b.past.journal.sends, b.past.known, signum, limit, a.past.clock)
      && (reply.failure.None? ==>
            forall k <- b.past.known :: Delivery(k, signum) in b.past.os.delivered || !Running(b.past.os, k))
      && (reply.failure == Some(Failure(DeadlineFault, false)) ==> limit.Some? && limit.value <= b.past.clock)
      && (reply.failure.Some? && reply.failure.value != Failure(DeadlineFault, false) ==> Excused(a, b, recognise))
    case CallDrain(grace, killWait, deadline) =>
      var turn := schedule(a.past.journal.calls);
      var ends := Ends(a.past.clock + turn.elapsed, grace, killWait, deadline);
      && reply.Drained?
      && (if turn.badClock || deadline <= a.past.clock + turn.elapsed
          then && reply.left.Err? && b.past.journal.sends == a.past.journal.sends
               && b.past.journal.listings == a.past.journal.listings
          else && Phased(a.past.journal.sends, b.past.journal.sends, b.past.known, ends)
               && (reply.left == Ok(map[]) ==> forall k <- b.past.known :: !Running(b.past.os, k))
               && ((reply.left.Ok? && reply.left.value != map[]) || reply.left == Err(Failure(DeadlineFault, false)) ==>
                     ends.1 <= b.past.clock))
      && (reply.left.Err? && reply.left.error != Failure(DeadlineFault, false) ==> Excused(a, b, recognise) || b.unresolved)
    case CallClose => reply.Closed? && b.blocked.Some?
  }

  /** A call of a scope that is closed or spoiled does nothing but repeat the failure. */
  ghost predicate Repeated(call: Call, reply: Reply, a: Stage, b: Stage) {
    a.blocked.Some? && b.past.os == a.past.os && b.past.journal == a.past.journal &&
    match call
    case CallDiscover => reply == Found(Err(a.blocked.value))
    case CallSignal(_, _) => reply == Signalled(a.blocked)
    case CallDrain(_, _, _) => reply == Drained(Err(a.blocked.value))
    case CallClose => false
  }

  ghost predicate Replied(call: Call, reply: Reply, a: Stage, b: Stage, recognise: Env -> Verdict, schedule: nat -> Turn) {
    && Moves(a.past, b.past)
    && if a.blocked.Some? && !call.CallClose? then Repeated(call, reply, a, b) else Did(call, reply, a, b, recognise, schedule)
  }

  /** Time, knowledge and the machine's record only move on. */
  ghost predicate Moves(a: Past, b: Past) {
    && Later(a.os, b.os) && a.clock <= b.clock && a.known <= b.known && Grows(a.journal, b.journal)
    && a.reconciliations <= b.reconciliations
  }

  lemma OnwardMoves(a: Past, b: Past)
    requires Onward(a, b)
    ensures Moves(a, b)
  {
  }

  lemma MovesTwice(a: Past, b: Past, c: Past)
    requires Moves(a, b) && Moves(b, c)
    ensures Moves(a, c)
  {
    GrowsTwice(a.journal, b.journal, c.journal);
  }

  /** Safety over a whole session: for every schedule and every sequence of calls, each signal delivered
      reached a lifetime that the scope knows, that its ownership proof covers and that was never foreign;
      each descriptor closed was one the scope itself had opened; no signal was dispatched after a close that failed;
      and once closed, no descriptor that it opened is left. The replies are told call by call, from one stage to the
      next. */
  method Session(scope: Scope, calls: seq<Call>) returns (replies: seq<Reply>, ghost stages: seq<Stage>)
    requires scope.Valid() && scope.machine.os.released == {}
    modifies scope, scope.machine
    ensures scope.Valid() && scope.baseline == old(scope.baseline)
    ensures |replies| == |calls| && |stages| == |calls| + 1 && stages[0] == old(scope.At()) && stages[|calls|] == scope.At()
    ensures forall n | 0 <= n < |calls| ::
      Replied(calls[n], replies[n], stages[n], stages[n + 1], scope.recognise, scope.machine.schedule)
    ensures forall d <- scope.machine.os.delivered | d !in old(scope.machine.os).delivered ::
      && d.target in scope.known && d.target in scope.proof && d.target !in scope.baseline
      && (d.target, scope.uid) in scope.machine.os.owners
    ensures Later(old(scope.machine.os), scope.machine.os)
    ensures Proven(scope.machine.os, scope.recognise, scope.proof, scope.uid)
    ensures forall f <- scope.machine.os.released :: f.target.Some? && scope.birth <= f.serial
    ensures old(scope.retirement).Some? ==> scope.machine.journal.sends == old(scope.machine.journal).sends
    ensures forall c <- scope.machine.journal.spoiled, d <- scope.machine.journal.sends ::
      scope.born <= c && scope.born <= d.call ==> d.call < c
    ensures scope.retirement.None? ==> forall c <- scope.machine.journal.spoiled :: c < scope.born
    ensures CallClose in calls ==>
      && scope.closed && scope.handles == map[]
      && forall f <- scope.machine.journal.obtained | scope.birth <= f.serial :: f in scope.machine.os.released
  {
    hide PendingOk, Proven, ProcessesOk, DescriptorsOk, Bound, Accounted, Shelved, Numbered, Halted, Ledger, Replied,
      Moves, Scope.RosterOk;
    replies, stages := [], [scope.At()];
    MovesSame(scope.Now());
    ghost var start := scope.Now();
    for n := 0 to |calls|
      invariant scope.Valid() && scope.baseline == old(scope.baseline) && Moves(start, scope.Now())
      invariant |replies| == n && |stages| == n + 1 && stages[0] == old(scope.At()) && stages[n] == scope.At()
      invariant forall m | 0 <= m < n ::
        Replied(calls[m], replies[m], stages[m], stages[m + 1], scope.recognise, scope.machine.schedule)
      invariant forall d <- scope.machine.os.delivered | d !in start.os.delivered :: d.target in scope.known
      invariant forall f <- scope.machine.os.released :: scope.birth <= f.serial
      invariant old(scope.retirement).Some? ==>
        scope.retirement == old(scope.retirement) && scope.machine.journal.sends == start.journal.sends
      invariant CallClose in calls[..n] ==> scope.closed
    {
      assert calls[..n + 1] == calls[..n] + [calls[n]];
      ghost var was := scope.Now();
      var reply := Perform(scope, calls[n]);
      MovesTwice(start, was, scope.Now());
      MovesMeans(was, scope.Now());
      replies, stages := replies + [reply], stages + [scope.At()];
    }
    assert calls[..|calls|] == calls;
    MovesMeans(start, scope.Now());
    KnownProven(scope);
  }

  /** A scope that closes only what is new closes only its own. */
  lemma OnwardReleases(a: Past, b: Past, birth: nat)
    requires Onward(a, b) && birth <= a.os.serials && forall f <- a.os.released :: birth <= f.serial
    ensures forall f <- b.os.released :: birth <= f.serial
  {
  }

  lemma BoundBirth(os: Os, handles: map<Key, nat>, birth: nat)
    requires Bound(os, handles, birth)
    ensures birth <= os.serials
  {
  }

  /** What is delivered was dispatched, so it reached one of the lifetimes that were signalled. */
  lemma SendsDeliver(a: Past, b: Past, keys: set<Key>, signums: set<nat>)
    requires Accounted(a.os.delivered, a.journal) && Accounted(b.os.delivered, b.journal) && Onward(a, b)
    requires forall d <- b.journal.sends | d !in a.journal.sends :: d.target in keys && d.signum in signums
    ensures forall x <- b.os.delivered | x !in a.os.delivered :: x.target in keys && x.signum in signums
  {
    hide Accounted, Later, ClosesOnlyNew;
    NewlyDelivered(a.os.delivered, a.journal, b.os.delivered, b.journal);
  }

  lemma TimedTargets(a: set<Dispatch>, b: set<Dispatch>, keys: set<Key>, signum: nat, limit: Option<nat>, from: nat)
    requires Timed(a, b, keys, signum, limit, from)
    ensures forall d <- b | d !in a :: d.target in keys && d.signum in {signum}
  {
  }

  lemma PhasedTargets(a: set<Dispatch>, b: set<Dispatch>, keys: set<Key>, ends: (nat, nat))
    requires Phased(a, b, keys, ends)
    ensures forall d <- b | d !in a :: d.target in keys && d.signum in {SIG_TERM, SIG_KILL}
  {
  }

  lemma MovesStill(a: Past, b: Past)
    requires b.os == a.os && b.journal == a.journal && a.clock <= b.clock && a.known <= b.known
    requires a.reconciliations <= b.reconciliations
    ensures Moves(a, b)
  {
  }

  lemma MovesSame(a: Past)
    ensures Moves(a, a)
  {
  }

  lemma MovesMeans(a: Past, b: Past)
    requires Moves(a, b)
    ensures Later(a.os, b.os) && a.known <= b.known
  {
  }

  lemma KnownProven(scope: Scope)
    requires scope.Valid()
    ensures forall k <- scope.known ::
      k in scope.proof && k !in scope.baseline && (k, scope.uid) in scope.machine.os.owners
    ensures scope.closed ==>
      && scope.handles == map[]
      && forall f <- scope.machine.journal.obtained | scope.birth <= f.serial :: f in scope.machine.os.released
    ensures forall f <- scope.machine.os.released | scope.birth <= f.serial :: f.target.Some?
    ensures scope.retirement.None? ==> forall c <- scope.machine.journal.spoiled :: c < scope.born
    ensures forall c <- scope.machine.journal.spoiled, d <- scope.machine.journal.sends ::
      scope.born <= c && scope.born <= d.call ==> d.call < c
  {
    hide PendingOk, Bound, Accounted, Shelved, Numbered;
    if scope.closed { assert forall k <- scope.handles :: false; }
  }

  /** One call. */
  method Perform(scope: Scope, call: Call) returns (reply: Reply)
    requires scope.Valid() && forall f <- scope.machine.os.released :: scope.birth <= f.serial
    modifies scope, scope.machine
    ensures scope.Valid() && scope.baseline == old(scope.baseline)
    ensures Moves(old(scope.Now()), scope.Now())
    ensures Replied(call, reply, old(scope.At()), scope.At(), scope.recognise, scope.machine.schedule)
    ensures forall d <- scope.machine.os.delivered | d !in old(scope.machine.os).delivered :: d.target in scope.known
    ensures forall f <- scope.machine.os.released :: scope.birth <= f.serial
    ensures old(scope.retirement).Some? ==>
      scope.retirement == old(scope.retirement) && scope.machine.journal.sends == old(scope.machine.journal).sends
    ensures scope.closed == (old(scope.closed) || call == CallClose)
  {
    hide *;
    match call
    case CallDiscover => reply := PerformDiscover(scope);
    case CallSignal(signum, limit) => reply := PerformSignal(scope, signum, limit);
    case CallDrain(grace, killWait, deadline) => reply := PerformDrain(scope, grace, killWait, deadline);
    case CallClose => reply := PerformClose(scope);
  }

  method PerformDiscover(scope: Scope) returns (reply: Reply)
    requires scope.Valid() && forall f <- scope.machine.os.released :: scope.birth <= f.serial
    modifies scope, scope.machine
    ensures scope.Valid() && scope.baseline == old(scope.baseline) && Moves(old(scope.Now()), scope.Now())
    ensures Replied(CallDiscover, reply, old(scope.At()), scope.At(), scope.recognise, scope.machine.schedule)
    ensures forall d <- scope.machine.os.delivered | d !in old(scope.machine.os).delivered :: d.target in scope.known
    ensures forall f <- scope.machine.os.released :: scope.birth <= f.serial
    ensures old(scope.retirement).Some? ==>
      scope.retirement == old(scope.retirement) && scope.machine.journal.sends == old(scope.machine.journal).sends
    ensures scope.closed == old(scope.closed)
  {
    hide PendingOk, Proven, ProcessesOk, DescriptorsOk, Bound, Accounted, Shelved, Numbered, Halted, Ledger, Phased,
      Timed, Lists, Grows, Reason, Later, Onward, Moves, Streak, AcceptedOk, Cleared, Scope.RosterOk, Scope.Surveyed;
    ghost var start := scope.Now();
    var census := scope.Discover();
    BoundBirth(start.os, old(scope.handles), scope.birth);
    if old(scope.Blocked()).Some? {
      MovesStill(start, scope.Now());
    } else {
      OnwardListed(start, scope.Now());
      OnwardMoves(start, scope.Now());
      OnwardReleases(start, scope.Now(), scope.birth);
    }
    reply := Found(census);
  }

  method PerformSignal(scope: Scope, signum: nat, limit: Option<nat>) returns (reply: Reply)
    requires scope.Valid() && forall f <- scope.machine.os.released :: scope.birth <= f.serial
    modifies scope, scope.machine
    ensures scope.Valid() && scope.baseline == old(scope.baseline) && Moves(old(scope.Now()), scope.Now())
    ensures Replied(CallSignal(signum, limit), reply, old(scope.At()), scope.At(), scope.recognise, scope.machine.schedule)
    ensures forall d <- scope.machine.os.delivered | d !in old(scope.machine.os).delivered :: d.target in scope.known
    ensures forall f <- scope.machine.os.released :: scope.birth <= f.serial
    ensures old(scope.retirement).Some? ==>
      scope.retirement == old(scope.retirement) && scope.machine.journal.sends == old(scope.machine.journal).sends
    ensures scope.closed == old(scope.closed)
  {
    hide PendingOk, Proven, ProcessesOk, DescriptorsOk, Bound, Accounted, Shelved, Numbered, Halted, Ledger, Phased,
      Timed, Lists, Grows, Reason, Later, Onward, Moves, Streak, AcceptedOk, Cleared, Scope.RosterOk, Scope.Surveyed;
    ghost var start := scope.Now();
    var failure := scope.SignalAll(signum, limit);
    OnwardMoves(start, scope.Now());
    BoundBirth(start.os, old(scope.handles), scope.birth);
    OnwardReleases(start, scope.Now(), scope.birth);
    reply := Signalled(failure);
  }

  method PerformDrain(scope: Scope, grace: nat, killWait: nat, deadline: nat) returns (reply: Reply)
    requires scope.Valid() && forall f <- scope.machine.os.released :: scope.birth <= f.serial
    modifies scope, scope.machine
    ensures scope.Valid() && scope.baseline == old(scope.baseline) && Moves(old(scope.Now()), scope.Now())
    ensures Replied(CallDrain(grace, killWait, deadline), reply, old(scope.At()), scope.At(), scope.recognise,
                    scope.machine.schedule)
    ensures forall d <- scope.machine.os.delivered | d !in old(scope.machine.os).delivered :: d.target in scope.known
    ensures forall f <- scope.machine.os.released :: scope.birth <= f.serial
    ensures old(scope.retirement).Some? ==>
      scope.retirement == old(scope.retirement) && scope.machine.journal.sends == old(scope.machine.journal).sends
    ensures scope.closed == old(scope.closed)
  {
    hide PendingOk, Proven, ProcessesOk, DescriptorsOk, Bound, Accounted, Shelved, Numbered, Halted, Ledger, Phased,
      Timed, Lists, Grows, Reason, Later, Onward, Moves, Streak, AcceptedOk, Cleared, Scope.RosterOk, Scope.Surveyed;
    ghost var start := scope.Now();
    var left := scope.Drain(grace, killWait, deadline);
    OnwardMoves(start, scope.Now());
    BoundBirth(start.os, old(scope.handles), scope.birth);
    OnwardReleases(start, scope.Now(), scope.birth);
    reply := Drained(left);
  }

  method PerformClose(scope: Scope) returns (reply: Reply)
    requires scope.Valid() && forall f <- scope.machine.os.released :: scope.birth <= f.serial
    modifies scope, scope.machine
    ensures scope.Valid() && scope.baseline == old(scope.baseline) && Moves(old(scope.Now()), scope.Now())
    ensures Replied(CallClose, reply, old(scope.At()), scope.At(), scope.recognise, scope.machine.schedule)
    ensures forall d <- scope.machine.os.delivered | d !in old(scope.machine.os).delivered :: d.target in scope.known
    ensures forall f <- scope.machine.os.released :: scope.birth <= f.serial
    ensures old(scope.retirement).Some? ==>
      scope.retirement == old(scope.retirement) && scope.machine.journal.sends == old(scope.machine.journal).sends
    ensures scope.closed == true
  {
    hide PendingOk, Proven, ProcessesOk, DescriptorsOk, Accounted, Shelved, Numbered, Halted, Ledger, Later,
      Scope.RosterOk;
    ghost var start := scope.Now();
    var failure := scope.Close();
    SilentGrows(start.journal, scope.machine.journal);
    reply := Closed(failure);
  }

  /** A scope from its first census to its last call. No lifetime that the census read is ever signalled; and a
      lifetime that was there before, was listed and is there still was read, unless some access was refused. */
  method Supervise(machine: Machine, recognise: Env -> Verdict, self: nat, uid: nat, calls: seq<Call>)
    returns (scope: Scope, r: Option<Failure>, replies: seq<Reply>, ghost seen: View, ghost stages: seq<Stage>)
    requires machine.Valid() && machine.os.released == {}
    modifies machine
    ensures scope.machine == machine && scope.Valid() && Later(old(machine.os), machine.os)
    ensures scope.baseline == KeysRead(seen.read) && Listed(seen, machine.schedule)
    ensures r.Some? ==> machine.os.delivered == old(machine.os).delivered
    ensures r.None? ==>
      && |replies| == |calls| && |stages| == |calls| + 1 && stages[|calls|] == scope.At()
      && forall n | 0 <= n < |calls| ::
           Replied(calls[n], replies[n], stages[n], stages[n + 1], recognise, machine.schedule)
    ensures forall d <- machine.os.delivered | d !in old(machine.os).delivered ::
      d.target !in KeysRead(seen.read) && d.target in scope.proof && (d.target, uid) in machine.os.owners
    ensures r.None? && !Denied(machine.schedule, seen.from, seen.past) ==>
      forall d <- machine.os.delivered | d !in old(machine.os).delivered ::
        !(d.target in old(machine.os).used && d.target.pid in seen.listing && Holds(machine.os, d.target))
  {
    hide PendingOk, Bound, Proven, ProcessesOk, DescriptorsOk, Denied, KeysRead, Accounted, Shelved, Numbered, Halted,
      Ledger, Replied, Scope.RosterOk, Listed;
    replies, stages := [], [];
    scope := new Scope(machine, recognise, self, uid);
    r, seen := scope.TakeBaseline();
    assert scope.baseline == {} + KeysRead(seen.read) == KeysRead(seen.read);
    if r.None? {
      ghost var os := machine.os;
      replies, stages := Session(scope, calls);
      CoveredStays(os, machine.os, seen, machine.schedule, seen.past);
      if !Denied(machine.schedule, seen.from, seen.past) {
        forall k <- old(machine.os).used | k.pid in seen.listing && Holds(machine.os, k) ensures k in KeysRead(seen.read) {
          ReadUnderPid(machine.os, seen, machine.schedule, k);
        }
      }
    }
  }

  lemma ReadUnderPid(os: Os, v: View, schedule: nat -> Turn, k: Key)
    requires Covered(os, v, schedule) && !Denied(schedule, v.from, v.past)
    requires k in v.started && k.pid in v.read && Holds(os, k)
    ensures k in KeysRead(v.read)
  {
    hide Denied;
  }
}
