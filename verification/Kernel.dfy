/** The Linux kernel as the process supervisor sees it: a process table, a descriptor table and a
    monotonic clock, all of which other programs may change between any two system calls.

    `schedule` decides, call by call, which foreign events happen first and which accesses are refused.
    Every contract holds for every schedule, hence for every interleaving of forks, execs, exits, PID
    reuse and descriptor-number reuse. */
module Kernel {
  import opened Wrappers
  import Collections

  /** What `/proc/<pid>/stat` identifies a lifetime by. */
  datatype Key = Key(pid: nat, startTicks: nat)

  datatype Proc = Proc(key: Key, uid: nat, running: bool, env: Env)

  /** One open descriptor at number `slot`: `serial` never repeats although numbers do. A pidfd has a
      target. */
  datatype Fd = Fd(serial: nat, slot: nat, target: Option<Key>)

  datatype Delivery = Delivery(target: Key, signum: nat)

  datatype Os = Os(
    procs: map<nat, Proc>,
    used: set<Key>,               // keys of all lifetimes ever started
    exposed: set<(Key, Env)>,     // every environment the kernel ever exposed, with its lifetime
    owners: set<(Key, nat)>,      // every user a lifetime ever ran as
    fds: map<nat, Fd>,
    serials: nat,                 // descriptors opened so far
    released: set<Fd>,            // descriptors the supervisor has closed
    delivered: set<Delivery>)     // signals that have reached a process on the supervisor's behalf

  /** What the rest of the machine can do; a step that is not enabled changes nothing. A fork may reuse
      a free PID but never the key of an earlier lifetime. */
  datatype Event =
    | Fork(pid: nat, startTicks: nat, uid: nat, env: Env)
    | Exec(pid: nat, uid: nat, env: Env)
    | Exit(pid: nat)
    | Reap(pid: nat)
    | OpenOther(fd: nat)
    | CloseOther(fd: nat)

  datatype Turn = Turn(
    events: seq<Event>,
    elapsed: nat,       // nanoseconds
    badClock: bool,     // the clock reading is not finite
    denied: bool,       // the access is refused
    garbled: bool,      // the contents are malformed
    closeFails: bool,   // close reports a failure
    slot: nat,          // descriptor number offered to an open
    listing: seq<nat>)  // PIDs listed under /proc

  /** A signal as it was dispatched: by which call, the clock value if the call just before had read the clock, and
      whether it reached its target. */
  datatype Dispatch = Dispatch(target: Key, signum: nat, call: nat, after: Option<nat>, sent: bool)

  /** A listing: the clock value if the call just before had read the clock, and how many PIDs it gave. */
  datatype Listing = Listing(after: Option<nat>, count: nat)

  /** The kernel's own record of what the supervisor called, by the number of the call. */
  datatype Journal = Journal(
    calls: nat,
    reading: Option<nat>,         // the clock value, if the last call read the clock
    sends: set<Dispatch>,
    listings: map<nat, Listing>,
    readings: map<nat, nat>,      // finite clock readings
    faults: nat,                  // replies that were refused, malformed or failures
    obtained: set<Fd>,              // pidfds opened for the supervisor
    spoiled: set<nat>,            // closes that failed
    inherited: set<Delivery>)     // deliveries before the record began

  /** A call that leaves no other trace. */
  ghost function Called(j: Journal, fault: bool): Journal {
    j.(calls := j.calls + 1, reading := None, faults := j.faults + if fault then 1 else 0)
  }

  /** Nothing was signalled or listed and no clock was read. */
  ghost predicate Silent(a: Journal, b: Journal) {
    && b.sends == a.sends && b.listings == a.listings && b.readings == a.readings
    && a.calls <= b.calls && a.faults <= b.faults && b.inherited == a.inherited
  }

  /** The record only grows. */
  ghost predicate Grows(a: Journal, b: Journal) {
    && a.calls <= b.calls && a.faults <= b.faults && a.sends <= b.sends && b.inherited == a.inherited
    && (forall l <- a.listings :: l in b.listings && b.listings[l] == a.listings[l])
    && (forall c <- a.readings :: c in b.readings && b.readings[c] == a.readings[c])
    && (forall d <- b.sends | d !in a.sends :: a.calls <= d.call)
    && (forall l <- b.listings | l !in a.listings :: a.calls <= l)
  }

  lemma GrowsTwice(a: Journal, b: Journal, c: Journal)
    requires Grows(a, b) && Grows(b, c)
    ensures Grows(a, c)
  {
  }

  lemma SilentGrows(a: Journal, b: Journal)
    requires Silent(a, b)
    ensures Grows(a, b)
  {
  }

  /** Exactly what was dispatched and arrived has been delivered. */
  ghost predicate Accounted(delivered: set<Delivery>, j: Journal) {
    && j.inherited <= delivered && (forall d <- j.sends | d.sent :: Delivery(d.target, d.signum) in delivered)
    && (forall x <- delivered | x !in j.inherited ::
          exists d <- j.sends :: d.sent && d.target == x.target && d.signum == x.signum)
  }

  /** Whatever was newly delivered was newly dispatched. */
  lemma NewlyDelivered(a: set<Delivery>, ja: Journal, b: set<Delivery>, jb: Journal)
    requires Accounted(a, ja) && Accounted(b, jb) && jb.inherited == ja.inherited
    ensures forall x <- b | x !in a ::
      exists d <- jb.sends :: d !in ja.sends && d.sent && d.target == x.target && d.signum == x.signum
  {
    forall x <- b | x !in a
      ensures exists d <- jb.sends :: d !in ja.sends && d.sent && d.target == x.target && d.signum == x.signum
    {
      var d :| d in jb.sends && d.sent && d.target == x.target && d.signum == x.signum;
      assert d in ja.sends ==> Delivery(d.target, d.signum) in a;
    }
  }

  /** Every number in the record is that of an earlier call. */
  ghost predicate Numbered(j: Journal) {
    && (forall d <- j.sends :: d.call < j.calls) && (forall l <- j.listings :: l < j.calls)
    && (forall c <- j.readings :: c < j.calls) && (forall c <- j.spoiled :: c < j.calls)
  }

  /** What was opened for the supervisor is closed or still in the table. */
  ghost predicate Shelved(obtained: set<Fd>, released: set<Fd>, fds: map<nat, Fd>) {
    forall f <- obtained :: f.target.Some? && (f in released || (f.slot in fds && fds[f.slot] == f))
  }

  ghost predicate JournalOk(j: Journal, os: Os) {
    Numbered(j) && Accounted(os.delivered, j) && Shelved(j.obtained, os.released, os.fds)
  }

  predicate Holds(os: Os, k: Key) {
    k.pid in os.procs && os.procs[k.pid].key == k
  }

  predicate Running(os: Os, k: Key) {
    Holds(os, k) && os.procs[k.pid].running
  }

  function Expose(os: Os, p: Proc): Os {
    os.(procs := os.procs[p.key.pid := p], used := os.used + {p.key}, exposed := os.exposed + {(p.key, p.env)},
        owners := os.owners + {(p.key, p.uid)})
  }

  function Step(os: Os, e: Event): Os {
    match e
    case Fork(pid, ticks, uid, env) =>
      if pid in os.procs || Key(pid, ticks) in os.used then os
      else Expose(os, Proc(Key(pid, ticks), uid, true, env))
    case Exec(pid, uid, env) =>
      if pid in os.procs && os.procs[pid].running && os.procs[pid].key.pid == pid
      then Expose(os, os.procs[pid].(uid := uid, env := env)) else os
    case Exit(pid) =>
      if pid in os.procs && os.procs[pid].key.pid == pid
      then Expose(os, os.procs[pid].(running := false, env := map[])) else os
    case Reap(pid) =>
      if pid in os.procs && !os.procs[pid].running then os.(procs := os.procs - {pid}) else os
    case OpenOther(fd) =>
      if fd in os.fds then os else os.(fds := os.fds[fd := Fd(os.serials, fd, None)], serials := os.serials + 1)
    case CloseOther(fd) =>
      if fd in os.fds && os.fds[fd].target.None? then os.(fds := os.fds - {fd}) else os
  }

  function Advance(os: Os, events: seq<Event>): Os
    decreases |events|
  {
    if events == [] then os else Advance(Step(os, events[0]), events[1..])
  }

  ghost predicate ProcessesOk(os: Os) {
    forall p <- os.procs ::
      && os.procs[p].key.pid == p && os.procs[p].key in os.used && (os.procs[p].key, os.procs[p].env) in os.exposed
      && (os.procs[p].key, os.procs[p].uid) in os.owners
  }

  ghost predicate DescriptorsOk(fds: map<nat, Fd>, serials: nat, released: set<Fd>) {
    && (forall fd <- fds :: fds[fd].slot == fd && fds[fd].serial < serials && fds[fd] !in released)
    && (forall r <- released :: r.serial < serials && r.target.Some?)
  }

  ghost predicate WellFormed(os: Os) {
    ProcessesOk(os) && DescriptorsOk(os.fds, os.serials, os.released)
  }

  /** What time cannot undo. A started lifetime that has left its PID, or stopped running, never comes
      back. */
  ghost predicate Later(a: Os, b: Os) {
    && a.used <= b.used
    && a.exposed <= b.exposed
    && a.owners <= b.owners
    && a.serials <= b.serials
    && a.released <= b.released
    && a.delivered <= b.delivered
    && (forall k <- a.used :: Holds(b, k) ==> Holds(a, k))
    && (forall k <- a.used :: Running(b, k) ==> Running(a, k))
  }

  /** Every pidfd of `a` still has its number and its target. */
  ghost predicate Keeps(a: Os, b: Os) {
    forall fd <- a.fds | a.fds[fd].target.Some? :: fd in b.fds && b.fds[fd] == a.fds[fd]
  }

  /** The part of `Later` that holds between two supervisor actions: nothing was closed or signalled. */
  ghost predicate Undisturbed(a: Os, b: Os) {
    Later(a, b) && Keeps(a, b) && b.released == a.released && b.delivered == a.delivered
  }

  /** Every descriptor closed since `a` was also opened since `a`. */
  ghost predicate ClosesOnlyNew(a: Os, b: Os) {
    forall f <- b.released | f !in a.released :: a.serials <= f.serial
  }

  lemma JournalStays(j: Journal, a: Os, b: Os, fault: bool)
    requires JournalOk(j, a) && Undisturbed(a, b)
    ensures JournalOk(Called(j, fault), b)
  {
  }

  lemma LaterTransitive(a: Os, b: Os, c: Os)
    requires Later(a, b) && Later(b, c)
    ensures Later(a, c)
  {
  }

  lemma UndisturbedTransitive(a: Os, b: Os, c: Os)
    requires Undisturbed(a, b) && Undisturbed(b, c)
    ensures Undisturbed(a, c)
  {
    LaterTransitive(a, b, c);
  }

  /** Processes may change only in ways that revive nobody. */
  lemma ExposeUndisturbed(os: Os, p: Proc)
    requires WellFormed(os)
    requires p.key in os.used ==> Holds(os, p.key) && (p.running ==> Running(os, p.key))
    requires p.key !in os.used ==> p.key.pid !in os.procs
    ensures WellFormed(Expose(os, p)) && Undisturbed(os, Expose(os, p))
  {
    var after := Expose(os, p);
    forall q <- after.procs
      ensures after.procs[q].key.pid == q && after.procs[q].key in after.used
      ensures (after.procs[q].key, after.procs[q].env) in after.exposed
      ensures (after.procs[q].key, after.procs[q].uid) in after.owners
    {
      if q != p.key.pid {
        assert q in os.procs && after.procs[q] == os.procs[q];
      }
    }
    forall k <- os.used ensures Holds(after, k) ==> Holds(os, k) {
      if k.pid != p.key.pid {
        assert k.pid in after.procs <==> k.pid in os.procs;
      }
    }
    forall k <- os.used ensures Running(after, k) ==> Running(os, k) {
      if k.pid != p.key.pid {
        assert k.pid in after.procs <==> k.pid in os.procs;
      }
    }
  }

  lemma ReapUndisturbed(os: Os, pid: nat)
    requires WellFormed(os)
    ensures WellFormed(Step(os, Reap(pid))) && Undisturbed(os, Step(os, Reap(pid)))
  {
    var after := Step(os, Reap(pid));
    assert forall q <- after.procs :: q in os.procs && after.procs[q] == os.procs[q];
  }

  lemma OpenKeepsDescriptors(fds: map<nat, Fd>, serials: nat, released: set<Fd>, slot: nat, target: Option<Key>)
    requires DescriptorsOk(fds, serials, released) && slot !in fds
    ensures DescriptorsOk(fds[slot := Fd(serials, slot, target)], serials + 1, released)
  {
    var after := fds[slot := Fd(serials, slot, target)];
    forall fd <- after ensures fd == slot || (fd in fds && after[fd] == fds[fd]) {
    }
  }

  lemma CloseKeepsDescriptors(fds: map<nat, Fd>, serials: nat, released: set<Fd>, fd: nat)
    requires DescriptorsOk(fds, serials, released) && fd in fds
    ensures DescriptorsOk(fds - {fd}, serials, released)
    ensures fds[fd].target.Some? ==> DescriptorsOk(fds - {fd}, serials, released + {fds[fd]})
  {
    var after := fds - {fd};
    forall f <- after ensures f in fds && after[f] == fds[f] {
    }
  }

  lemma DescriptorUndisturbed(os: Os, fds: map<nat, Fd>, serials: nat)
    requires WellFormed(os) && DescriptorsOk(fds, serials, os.released) && os.serials <= serials
    requires Keeps(os, os.(fds := fds, serials := serials))
    ensures WellFormed(os.(fds := fds, serials := serials)) && Undisturbed(os, os.(fds := fds, serials := serials))
  {
  }

  lemma OpenUndisturbed(os: Os, slot: nat, target: Option<Key>)
    requires WellFormed(os) && slot !in os.fds
    ensures var after := os.(fds := os.fds[slot := Fd(os.serials, slot, target)], serials := os.serials + 1);
            WellFormed(after) && Undisturbed(os, after)
  {
    OpenKeepsDescriptors(os.fds, os.serials, os.released, slot, target);
    DescriptorUndisturbed(os, os.fds[slot := Fd(os.serials, slot, target)], os.serials + 1);
  }

  lemma CloseOtherUndisturbed(os: Os, fd: nat)
    requires WellFormed(os) && fd in os.fds && os.fds[fd].target.None?
    ensures WellFormed(os.(fds := os.fds - {fd})) && Undisturbed(os, os.(fds := os.fds - {fd}))
  {
    CloseKeepsDescriptors(os.fds, os.serials, os.released, fd);
    DescriptorUndisturbed(os, os.fds - {fd}, os.serials);
    assert os.(fds := os.fds - {fd}) == os.(fds := os.fds - {fd}, serials := os.serials);
  }

  lemma StepUndisturbed(os: Os, e: Event)
    requires WellFormed(os)
    ensures WellFormed(Step(os, e)) && Undisturbed(os, Step(os, e))
  {
    match e
    case Fork(pid, ticks, uid, env) =>
      if pid !in os.procs && Key(pid, ticks) !in os.used {
        ExposeUndisturbed(os, Proc(Key(pid, ticks), uid, true, env));
      } else {
        assert Step(os, e) == os;
      }
    case Exec(pid, uid, env) =>
      if pid in os.procs && os.procs[pid].running {
        ExposeUndisturbed(os, os.procs[pid].(uid := uid, env := env));
      } else {
        assert Step(os, e) == os;
      }
    case Exit(pid) =>
      if pid in os.procs {
        ExposeUndisturbed(os, os.procs[pid].(running := false, env := map[]));
      } else {
        assert Step(os, e) == os;
      }
    case Reap(pid) => ReapUndisturbed(os, pid);
    case OpenOther(fd) =>
      if fd !in os.fds {
        OpenUndisturbed(os, fd, None);
      } else {
        assert Step(os, e) == os;
      }
    case CloseOther(fd) =>
      if fd in os.fds && os.fds[fd].target.None? {
        CloseOtherUndisturbed(os, fd);
      } else {
        assert Step(os, e) == os;
      }
  }

  lemma {:induction false} AdvanceUndisturbed(os: Os, events: seq<Event>)
    requires WellFormed(os)
    ensures WellFormed(Advance(os, events)) && Undisturbed(os, Advance(os, events))
    decreases |events|
  {
    if events != [] {
      StepUndisturbed(os, events[0]);
      AdvanceUndisturbed(Step(os, events[0]), events[1..]);
      UndisturbedTransitive(os, Step(os, events[0]), Advance(os, events));
    }
  }

  /** No PID reuse can hide between two sightings of one key: whoever occupied the PID at any instant in
      between was that same lifetime. */
  lemma KeySandwich(first: Os, before: seq<Event>, after: seq<Event>, k: Key)
    requires WellFormed(first) && k in first.used
    requires Holds(Advance(Advance(first, before), after), k)
    ensures Holds(first, k) && Holds(Advance(first, before), k)
  {
    AdvanceUndisturbed(first, before);
    AdvanceUndisturbed(Advance(first, before), after);
  }

  /** A retired lifetime stays retired under every continuation. */
  lemma RetirementIsFinal(os: Os, events: seq<Event>, k: Key)
    requires WellFormed(os) && k in os.used && !Running(os, k)
    ensures !Running(Advance(os, events), k)
  {
    AdvanceUndisturbed(os, events);
  }

  lemma DispatchAccounted(j: Journal, delivered: set<Delivery>, d: Dispatch, fault: bool)
    requires Accounted(delivered, j)
    ensures Accounted(delivered + if d.sent then {Delivery(d.target, d.signum)} else {},
                      Called(j, fault).(sends := j.sends + {d}))
  {
    var now := Called(j, fault).(sends := j.sends + {d});
    forall x <- delivered | x !in j.inherited
      ensures exists e <- now.sends :: e.sent && e.target == x.target && e.signum == x.signum
    {
      var e :| e in j.sends && e.sent && e.target == x.target && e.signum == x.signum;
      assert e in now.sends;
    }
    assert d in now.sends;
  }

  datatype StatReply = NoProcess | StatDenied | StatGarbled | Stat(key: Key, running: bool)

  datatype UidReply = NoDirectory | UidDenied | Uid(uid: nat)

  datatype EnvReply = NoEnviron | EnvDenied | EnvGarbled | Environ(env: Env)

  datatype OpenReply = NoSuchProcess | OpenFailed | Opened(fd: nat)

  datatype SendReply = Sent | Vanished | SendDenied

  class Machine {
    const schedule: nat -> Turn
    var os: Os
    var calls: nat
    var clock: nat
    ghost var journal: Journal

    constructor (schedule: nat -> Turn, os: Os)
      ensures this.schedule == schedule && this.os == os && calls == 0 && clock == 0
      ensures WellFormed(os) ==> Valid()
    {
      this.schedule, this.os, this.calls, this.clock := schedule, os, 0, 0;
      journal := Journal(0, None, {}, map[], map[], 0, {}, {}, os.delivered);
    }

    ghost predicate Valid()
      reads this
    {
      WellFormed(os) && journal.calls == calls && JournalOk(journal, os)
    }

    /** Everyone else runs, then the system call proceeds. */
    method Yield() returns (turn: Turn)
      requires Valid()
      modifies this`os, this`calls, this`clock
      ensures WellFormed(os) && turn == schedule(old(calls)) && calls == old(calls) + 1
      ensures os == Advance(old(os), turn.events) && Undisturbed(old(os), os)
      ensures clock == old(clock) + turn.elapsed
      ensures JournalOk(Called(journal, false), os) && JournalOk(Called(journal, true), os)
    {
      turn := schedule(calls);
      AdvanceUndisturbed(os, turn.events);
      JournalStays(journal, os, Advance(os, turn.events), false);
      JournalStays(journal, os, Advance(os, turn.events), true);
      os, calls, clock := Advance(os, turn.events), calls + 1, clock + turn.elapsed;
    }

    /** A directory lists each name once. */
    method ListPids() returns (pids: seq<nat>)
      requires Valid()
      modifies this
      ensures forall i, j | 0 <= i < j < |pids| :: pids[i] != pids[j]
      ensures forall p :: p in pids <==> p in schedule(old(calls)).listing
      ensures Valid() && Undisturbed(old(os), os) && old(clock) <= clock && calls == old(calls) + 1
      ensures journal == Called(old(journal), false).(listings := journal.listings)
      ensures journal.listings == old(journal).listings[old(calls) := Listing(old(journal).reading, |pids|)]
    {
      var turn := Yield();
      pids := Collections.Deduped(turn.listing);
      journal := Called(journal, false).(listings := journal.listings[journal.calls := Listing(journal.reading, |pids|)]);
    }

    method ReadStat(pid: nat) returns (r: StatReply)
      requires Valid()
      modifies this
      ensures Valid() && Undisturbed(old(os), os) && old(clock) <= clock && calls == old(calls) + 1
      ensures journal == Called(old(journal), r.StatDenied? || r.StatGarbled?)
      ensures r.Stat? ==> r.key.pid == pid && Holds(os, r.key) && r.running == Running(os, r.key) && r.key in os.used
      ensures r.NoProcess? ==> pid !in os.procs
      ensures r.StatDenied? ==> schedule(old(calls)).denied
      ensures r.StatGarbled? ==> schedule(old(calls)).garbled
    {
      var turn := Yield();
      if pid !in os.procs {
        r := NoProcess;
      } else if turn.denied {
        r := StatDenied;
      } else if turn.garbled {
        r := StatGarbled;
      } else {
        r := Stat(os.procs[pid].key, os.procs[pid].running);
      }
      journal := Called(journal, r.StatDenied? || r.StatGarbled?);
    }

    method StatUid(pid: nat) returns (r: UidReply)
      requires Valid()
      modifies this
      ensures Valid() && Undisturbed(old(os), os) && old(clock) <= clock && calls == old(calls) + 1
      ensures journal == Called(old(journal), r.UidDenied?)
      ensures r.NoDirectory? ==> pid !in os.procs
      ensures r.UidDenied? ==> schedule(old(calls)).denied
      ensures r.Uid? ==> pid in os.procs && (os.procs[pid].key, r.uid) in os.owners
    {
      var turn := Yield();
      r := if pid !in os.procs then NoDirectory else if turn.denied then UidDenied else Uid(os.procs[pid].uid);
      journal := Called(journal, r.UidDenied?);
    }

    /** The environment read belongs to whoever occupies the PID now. */
    method ReadEnviron(pid: nat) returns (r: EnvReply)
      requires Valid()
      modifies this
      ensures Valid() && Undisturbed(old(os), os) && old(clock) <= clock && calls == old(calls) + 1
      ensures journal == Called(old(journal), r.EnvDenied? || r.EnvGarbled?)
      ensures r.Environ? ==> pid in os.procs && (os.procs[pid].key, r.env) in os.exposed
      ensures r.NoEnviron? ==> pid !in os.procs
      ensures r.EnvDenied? ==> schedule(old(calls)).denied
      ensures r.EnvGarbled? ==> schedule(old(calls)).garbled
    {
      var turn := Yield();
      r := if pid !in os.procs then NoEnviron else if turn.denied then EnvDenied
           else if turn.garbled then EnvGarbled else Environ(os.procs[pid].env);
      journal := Called(journal, r.EnvDenied? || r.EnvGarbled?);
    }

    /** The pidfd binds whoever occupies the PID now. */
    method PidfdOpen(pid: nat) returns (r: OpenReply)
      requires Valid()
      modifies this
      ensures Valid() && Undisturbed(old(os), os) && old(clock) <= clock && calls == old(calls) + 1
      ensures journal == Called(old(journal), r.OpenFailed?).(obtained := journal.obtained)
      ensures r.NoSuchProcess? ==> pid !in os.procs
      ensures r.Opened? ==>
        && pid in os.procs
        && r.fd in os.fds && os.fds[r.fd].target == Some(os.procs[pid].key)
        && old(os).serials <= os.fds[r.fd].serial && os.fds[r.fd] !in old(journal).obtained
      ensures journal.obtained == old(journal).obtained + if r.Opened? then {os.fds[r.fd]} else {}
    {
      var turn := Yield();
      if pid !in os.procs {
        r := NoSuchProcess;
        journal := Called(journal, false);
      } else if turn.denied || turn.slot in os.fds {
        r := OpenFailed;
        journal := Called(journal, true);
      } else {
        var before := os;
        var fd := Fd(os.serials, turn.slot, Some(os.procs[pid].key));
        OpenUndisturbed(os, turn.slot, Some(os.procs[pid].key));
        os := os.(fds := os.fds[turn.slot := fd], serials := os.serials + 1);
        UndisturbedTransitive(old(os), before, os);
        r := Opened(turn.slot);
        journal := Called(journal, false).(obtained := journal.obtained + {fd});
      }
    }

    /** A signal through a pidfd reaches the descriptor's own target or nobody. */
    method PidfdSend(fd: nat, signum: nat) returns (r: SendReply)
      requires Valid()
      requires fd in os.fds && os.fds[fd].target.Some?
      modifies this
      ensures Valid() && Later(old(os), os) && old(clock) <= clock && calls == old(calls) + 1
      ensures os.released == old(os).released && Keeps(old(os), os)
      ensures os.delivered == if r.Sent? then old(os).delivered + {Delivery(old(os).fds[fd].target.value, signum)}
                              else old(os).delivered
      ensures r.Vanished? ==> !Holds(os, old(os).fds[fd].target.value)
      ensures journal == Called(old(journal), r.SendDenied?).(sends := old(journal).sends +
        {Dispatch(old(os).fds[fd].target.value, signum, old(calls), old(journal).reading, r.Sent?)})
    {
      var turn := Yield();
      var target := os.fds[fd].target.value;
      if !Holds(os, target) {
        r := Vanished;
      } else if turn.denied {
        r := SendDenied;
      } else {
        var before := os;
        os := os.(delivered := os.delivered + {Delivery(target, signum)});
        LaterTransitive(old(os), before, os);
        r := Sent;
      }
      DispatchAccounted(journal, old(os).delivered, Dispatch(target, signum, journal.calls, journal.reading,
                        r.Sent?), r.SendDenied?);
      journal := Called(journal, r.SendDenied?).(sends := journal.sends +
        {Dispatch(target, signum, journal.calls, journal.reading, r.Sent?)});
    }

    /** The number is free again even when close reports a failure. */
    method CloseFd(fd: nat) returns (ok: bool)
      requires Valid()
      requires fd in os.fds && os.fds[fd].target.Some?
      modifies this
      ensures Valid() && Later(old(os), os) && old(clock) <= clock && calls == old(calls) + 1
      ensures os.released == old(os).released + {old(os).fds[fd]}
      ensures os.delivered == old(os).delivered
      ensures forall f <- old(os).fds | f != fd && old(os).fds[f].target.Some? ::
        f in os.fds && os.fds[f] == old(os).fds[f]
      ensures ok == !schedule(old(calls)).closeFails
      ensures journal == Called(old(journal), !ok).(spoiled := old(journal).spoiled + if ok then {} else {old(calls)})
    {
      var turn := Yield();
      var before := os;
      CloseKeepsDescriptors(os.fds, os.serials, os.released, fd);
      os := os.(fds := os.fds - {fd}, released := os.released + {os.fds[fd]});
      LaterTransitive(old(os), before, os);
      ok := !turn.closeFails;
      journal := Called(journal, !ok).(spoiled := journal.spoiled + if ok then {} else {journal.calls});
    }

    /** What a clock reading made now would say, and whether it would not be finite. */
    ghost function NextClock(): nat
      reads this
    {
      clock + schedule(calls).elapsed
    }

    ghost predicate NextBad()
      reads this
    {
      schedule(calls).badClock
    }

    method Monotonic() returns (r: Option<nat>)
      requires Valid()
      modifies this
      ensures Valid() && Undisturbed(old(os), os) && clock == old(NextClock()) && calls == old(calls) + 1
      ensures old(clock) <= clock
      ensures r == if old(NextBad()) then None else Some(clock)
      ensures journal == Called(old(journal), r.None?).(reading := r, readings := journal.readings)
      ensures journal.readings == if r.Some? then old(journal).readings[old(calls) := clock] else old(journal).readings
    {
      var turn := Yield();
      r := if turn.badClock then None else Some(clock);
      journal := Called(journal, r.None?).(reading := r,
        readings := if r.Some? then journal.readings[journal.calls := clock] else journal.readings);
    }

    method Sleep(duration: nat)
      requires Valid()
      modifies this
      ensures Valid() && Undisturbed(old(os), os) && old(clock) + duration <= clock && calls == old(calls) + 1
      ensures journal == Called(old(journal), false)
    {
      var turn := Yield();
      clock := clock + duration;
      journal := Called(journal, false);
    }
  }
}
