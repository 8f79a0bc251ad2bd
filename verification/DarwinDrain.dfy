/** The Darwin drain with an explicit deadline: two phases with fixed ends, signals that are pending until a
    token was really used or the lifetime was seen to have ended, and discovery failures that later censuses may
    reconcile. What is known is what the lineage scope has proven. */
module DarwinDrain {
  import opened Wrappers
  import opened Collections
  import opened DrainTimes
  import DarwinLineage

  type Key = DarwinLineage.Key
  type Identity = DarwinLineage.Identity

  const QUIET_REQUIRED := 3
  const MAX_EVIDENCE := 1024
  const POLL_NS := 100_000_000

  /** The exception classes that a discovery message can name; the first two may be reconciled later. */
  datatype Class = ObservationExhausted | DiscoveryUncertain | PermissionDenied | Malformed

  predicate Reconcilable(c: Class) {
    c == ObservationExhausted || c == DiscoveryUncertain
  }

  datatype Message = Message(pid: nat, class_: Class)

  datatype Pending = Pending(key: Key, message: Message)

  datatype Fault = Expired | Structural | Exhausted | Gone

  /** A raised exception; `uncertain` says that it carries an unresolved resource retirement. */
  datatype Failure = Failure(fault: Fault, uncertain: bool)

  datatype Token = Acquired | TargetGone | TokenExhausted

  datatype Reply = Sent | Missed | Refused

  /** What the host does during one call: time passes, and the call sees this. `raised` is an
      exception out of it, uncertain or not, and `identity` is who holds each PID. */
  datatype Turn = Turn(
    advance: nat, finite: bool, raised: Option<bool>, listing: seq<nat>, identity: nat -> Option<Identity>,
    answers: DarwinLineage.Answers, class_: Class, token: Key -> Token, reply: Key -> Reply)

  datatype Entry = Entry(pid: nat, identity: Option<Identity>)

  /** What became of one send. */
  datatype Sending = Delivered | Doubtful | Nobody

  /** A signal as it was dispatched: in which turn, and the clock after the turn before, if that was finite. */
  datatype Dispatch = Dispatch(target: Key, signum: nat, turn: nat, after: Option<nat>)

  /** The clock after a turn. */
  datatype Stamp = Stamp(turn: nat, at: nat)

  datatype PhaseResult = Continue | Retired | PhaseOver | Raised(failure: Failure)

  function Outcome(f: Failure): PhaseResult {
    if f == Failure(Expired, false) then PhaseOver else Raised(f)
  }

  /** Each pending lifetime has its own message, of a reconcilable class, among the errors. */
  ghost predicate PendingOk(pending: map<nat, Pending>, errors: set<Message>) {
    forall p <- pending ::
      pending[p].key.pid == p && pending[p].message.pid == p && Reconcilable(pending[p].message.class_)
      && pending[p].message in errors
  }

  ghost predicate FatalOk(fatal: set<Message>, errors: set<Message>) {
    fatal <= errors && forall m <- fatal :: !Reconcilable(m.class_)
  }

  // ----- what was seen, and when -----

  /** The last turn, by lifetime, of: a send whose token was exhausted; a delivery; a send that found nobody; a
      look that found the lifetime ended; and a look that found it alive. */
  datatype Log = Log(doubt: map<Key, nat>, reached: map<Key, nat>, missed: map<Key, nat>, gone: map<Key, nat>,
                     alive: map<Key, nat>)

  predicate Alive(t: Turn, k: Key) {
    var x := t.identity(k.pid);
    x.Some? && x.value.live && x.value.key == k
  }

  /** Every entry of the log is what the host did at that turn. */
  ghost predicate Truthful(host: nat -> Turn, turn: nat, log: Log) {
    && (forall k <- log.doubt :: log.doubt[k] < turn && host(log.doubt[k]).token(k) == TokenExhausted)
    && (forall k <- log.reached :: log.reached[k] < turn && host(log.reached[k]).reply(k) == Sent)
    && (forall k <- log.missed :: log.missed[k] < turn
          && (host(log.missed[k]).token(k) == TargetGone || host(log.missed[k]).reply(k) == Missed))
    && (forall k <- log.gone :: log.gone[k] < turn && !Alive(host(log.gone[k]), k))
    && (forall k <- log.alive :: log.alive[k] < turn && Alive(host(log.alive[k]), k))
  }

  ghost predicate Since(m: map<Key, nat>, k: Key, turn: nat) {
    k in m && turn <= m[k]
  }

  /** The lifetime was delivered to, was in doubt, or could not be found, no earlier than this turn. */
  ghost predicate Answered(log: Log, k: Key, turn: nat) {
    Since(log.reached, k, turn) || Since(log.doubt, k, turn) || Since(log.missed, k, turn)
  }

  /** A doubtful signal is pending, or the lifetime was delivered to or seen ended since. */
  ghost predicate DoubtsOk(signals: set<Key>, log: Log) {
    forall k <- log.doubt :: k in signals || Since(log.reached, k, log.doubt[k] + 1) || Since(log.gone, k, log.doubt[k] + 1)
  }

  ghost predicate MapForward(a: map<Key, nat>, b: map<Key, nat>) {
    forall k <- a :: k in b && a[k] <= b[k]
  }

  ghost predicate Forward(a: Log, b: Log) {
    && MapForward(a.doubt, b.doubt) && MapForward(a.reached, b.reached) && MapForward(a.missed, b.missed)
    && MapForward(a.gone, b.gone) && MapForward(a.alive, b.alive)
  }

  lemma TruthfulLater(host: nat -> Turn, turn: nat, more: nat, log: Log)
    requires Truthful(host, turn, log) && turn <= more
    ensures Truthful(host, more, log)
  {
    hide Alive;
  }

  lemma SawAlive(host: nat -> Turn, turn: nat, log: Log, at: nat, k: Key)
    requires Truthful(host, turn, log) && at < turn && Alive(host(at), k) && (k in log.alive ==> log.alive[k] <= at)
    ensures var now := log.(alive := log.alive[k := at]); Truthful(host, turn, now) && Forward(log, now)
    ensures forall signals :: DoubtsOk(signals, log) ==> DoubtsOk(signals, log.(alive := log.alive[k := at]))
  {
    hide Alive;
  }

  lemma SawGone(host: nat -> Turn, turn: nat, log: Log, at: nat, k: Key, signals: set<Key>)
    requires Truthful(host, turn, log) && at < turn && !Alive(host(at), k) && (k in log.gone ==> log.gone[k] <= at)
    requires DoubtsOk(signals, log)
    ensures var now := log.(gone := log.gone[k := at]);
      && Truthful(host, turn, now) && Forward(log, now) && DoubtsOk(signals, now)
      && ((k in log.doubt ==> log.doubt[k] < at) ==> DoubtsOk(signals - {k}, now))
  {
    hide Alive;
  }

  lemma SawReached(host: nat -> Turn, turn: nat, log: Log, at: nat, k: Key, signals: set<Key>)
    requires Truthful(host, turn, log) && at < turn && host(at).reply(k) == Sent && (k in log.reached ==> log.reached[k] <= at)
    requires DoubtsOk(signals, log)
    ensures var now := log.(reached := log.reached[k := at]);
      && Truthful(host, turn, now) && Forward(log, now) && DoubtsOk(signals, now)
      && ((k in log.doubt ==> log.doubt[k] < at) ==> DoubtsOk(signals - {k}, now))
  {
    hide Alive;
  }

  lemma SawMissed(host: nat -> Turn, turn: nat, log: Log, at: nat, k: Key)
    requires Truthful(host, turn, log) && at < turn && (k in log.missed ==> log.missed[k] <= at)
    requires host(at).token(k) == TargetGone || host(at).reply(k) == Missed
    ensures var now := log.(missed := log.missed[k := at]); Truthful(host, turn, now) && Forward(log, now)
  {
    hide Alive;
  }

  lemma SawDoubt(host: nat -> Turn, turn: nat, log: Log, at: nat, k: Key, signals: set<Key>)
    requires Truthful(host, turn, log) && at < turn && host(at).token(k) == TokenExhausted
    requires (k in log.doubt ==> log.doubt[k] <= at) && DoubtsOk(signals, log)
    ensures var now := log.(doubt := log.doubt[k := at]);
      Truthful(host, turn, now) && Forward(log, now) && DoubtsOk(signals + {k}, now)
  {
    hide Alive;
  }

  /** Whatever is in the log happened before this turn. */
  lemma Recent(host: nat -> Turn, turn: nat, log: Log, k: Key)
    requires Truthful(host, turn + 1, log)
    ensures (k in log.alive ==> log.alive[k] <= turn) && (k in log.gone ==> log.gone[k] <= turn)
    ensures (k in log.doubt ==> log.doubt[k] <= turn) && (k in log.reached ==> log.reached[k] <= turn)
    ensures k in log.missed ==> log.missed[k] <= turn
  {
    hide Alive;
  }

  lemma Earlier(host: nat -> Turn, turn: nat, log: Log, k: Key)
    requires Truthful(host, turn, log)
    ensures (k in log.alive ==> log.alive[k] < turn) && (k in log.gone ==> log.gone[k] < turn)
    ensures (k in log.doubt ==> log.doubt[k] < turn) && (k in log.reached ==> log.reached[k] < turn)
    ensures k in log.missed ==> log.missed[k] < turn
  {
    hide Alive;
  }

  /** A delivery after the last doubt clears the pending signal. */
  lemma DropReached(signals: set<Key>, log: Log, k: Key)
    requires DoubtsOk(signals, log)
    requires k in log.doubt ==> Since(log.reached, k, log.doubt[k] + 1)
    ensures DoubtsOk(signals - {k}, log)
  {
  }

  lemma ClearDoubts(host: nat -> Turn, turn: nat, log: Log)
    requires Truthful(host, turn, log)
    ensures Truthful(host, turn, log.(doubt := map[])) && DoubtsOk({}, log.(doubt := map[]))
  {
    hide Alive;
  }

  lemma KeepsDoubts(a: Log, b: Log, signals: set<Key>)
    requires DoubtsOk(signals, a) && b == a.(missed := b.missed)
    ensures DoubtsOk(signals, b)
  {
  }

  lemma SinceEarlier(a: Log, later: nat, from: nat)
    requires from <= later
    ensures forall k: Key :: Since(a.gone, k, later) ==> Since(a.gone, k, from)
    ensures forall k: Key :: Since(a.alive, k, later) ==> Since(a.alive, k, from)
  {
  }

  lemma StillSince(a: Log, b: Log)
    requires Forward(a, b)
    ensures forall k: Key, t: nat :: Since(a.gone, k, t) ==> Since(b.gone, k, t)
    ensures forall k: Key, t: nat :: Since(a.alive, k, t) ==> Since(b.alive, k, t)
    ensures forall k: Key, t: nat :: Since(a.reached, k, t) ==> Since(b.reached, k, t)
    ensures forall k: Key, t: nat :: Since(a.missed, k, t) ==> Since(b.missed, k, t)
    ensures forall k: Key, t: nat :: Since(a.doubt, k, t) ==> Since(b.doubt, k, t)
  {
  }

  lemma ForwardTwice(a: Log, b: Log, c: Log)
    requires Forward(a, b) && Forward(b, c)
    ensures Forward(a, c)
  {
  }

  lemma ForwardSame(a: Log)
    ensures Forward(a, a)
  {
  }

  /** The turn at which each recorded lifetime was seen and each question answered; for each PID the turn of its last
      reading, for each lifetime the last question about it, and the turn of the last listing. */
  datatype Source = Source(seen: map<Identity, nat>, heard: map<DarwinLineage.Question, nat>, looked: map<nat, nat>,
                           judged: map<Identity, DarwinLineage.Question>, surveyed: nat)

  /** Every lifetime recorded and every question asked since `before` is what the host showed and answered. */
  ghost predicate Sourced(host: nat -> Turn, turn: nat, source: Source, before: DarwinLineage.Trail,
                          trail: DarwinLineage.Trail)
  {
    && (forall i <- trail.recorded | i !in before.recorded ::
          i in source.seen && source.seen[i] < turn && host(source.seen[i]).identity(i.key.pid) == Some(i))
    && (forall q <- trail.asked | q !in before.asked ::
          q.Classified? && q in source.heard && host(source.heard[q]).answers == q.answers)
    && (forall p <- source.looked :: source.looked[p] < turn) && (forall q <- source.heard :: source.heard[q] < turn)
    && (forall i <- source.judged ::
          source.judged[i].Classified? && source.judged[i].identity == i && source.judged[i] in trail.asked)
  }

  lemma SourcedLater(host: nat -> Turn, turn: nat, more: nat, source: Source, before: DarwinLineage.Trail,
                     trail: DarwinLineage.Trail)
    requires Sourced(host, turn, source, before, trail) && turn <= more
    ensures Sourced(host, more, source, before, trail)
  {
  }

  lemma SourcedSeen(host: nat -> Turn, turn: nat, source: Source, before: DarwinLineage.Trail,
                    trail: DarwinLineage.Trail, at: nat, i: Identity)
    requires Sourced(host, turn, source, before, trail) && at < turn && host(at).identity(i.key.pid) == Some(i)
    ensures Sourced(host, turn, source.(seen := source.seen[i := at]), before,
                    trail.(recorded := trail.recorded + {i}))
  {
  }

  lemma SourcedLooked(host: nat -> Turn, turn: nat, source: Source, before: DarwinLineage.Trail,
                      trail: DarwinLineage.Trail, at: nat, pid: nat)
    requires Sourced(host, turn, source, before, trail) && at < turn
    ensures Sourced(host, turn, source.(looked := source.looked[pid := at]), before, trail)
  {
  }

  lemma SourcedListed(host: nat -> Turn, turn: nat, source: Source, before: DarwinLineage.Trail,
                      trail: DarwinLineage.Trail, at: nat)
    requires Sourced(host, turn, source, before, trail)
    ensures Sourced(host, turn, source.(surveyed := at), before, trail)
  {
  }

  lemma SourcedHeard(host: nat -> Turn, turn: nat, source: Source, before: DarwinLineage.Trail,
                     trail: DarwinLineage.Trail, at: nat, q: DarwinLineage.Question, now: DarwinLineage.Trail)
    requires Sourced(host, turn, source, before, trail) && at < turn && q.Classified? && host(at).answers == q.answers
    requires now.recorded == trail.recorded && now.asked == trail.asked + {q}
    ensures Sourced(host, turn, Told(source, q, at), before, now)
  {
  }

  /** A question answered at this turn. */
  ghost function Told(source: Source, q: DarwinLineage.Question, at: nat): Source
    requires q.Classified?
  {
    source.(heard := source.heard[q := at], judged := source.judged[q.identity := q])
  }

  /** Marker or pipe own the lifetime, and its token was acquired. */
  ghost predicate Claimed(q: DarwinLineage.Question)
    requires q.Classified?
  {
    q.answers.token == DarwinLineage.Acquired && DarwinLineage.Owning(q.answers, DarwinLineage.Foreign)
  }

  /** The lifetime was judged since, and neither marker nor pipe owned it. */
  ghost predicate Cleared(source: Source, i: Identity, from: nat) {
    && i in source.judged && source.judged[i] in source.heard && from <= source.heard[source.judged[i]]
    && source.judged[i].Classified? && !Claimed(source.judged[i])
  }

  lemma ClearedEarlier(source: Source, i: Identity, from: nat, earlier: nat)
    requires earlier <= from
    ensures Cleared(source, i, from) ==> Cleared(source, i, earlier)
  {
  }

  lemma ClaimedOwns(answers: DarwinLineage.Answers, lineage: DarwinLineage.Lineage)
    requires DarwinLineage.Owning(answers, DarwinLineage.Foreign)
    ensures DarwinLineage.Owning(answers, lineage)
  {
  }

  /** A later answer clears its lifetime, unless it is claimed, and leaves every other as it was. */
  lemma ToldClears(host: nat -> Turn, turn: nat, source: Source, before: DarwinLineage.Trail,
                   trail: DarwinLineage.Trail, q: DarwinLineage.Question)
    requires Sourced(host, turn, source, before, trail) && turn > 0 && q.Classified?
    ensures !Claimed(q) ==> Cleared(Told(source, q, turn - 1), q.identity, turn - 1)
    ensures forall i: Identity, from: nat | Cleared(source, i, from) && (i == q.identity ==> !Claimed(q)) ::
      Cleared(Told(source, q, turn - 1), i, from)
  {
    hide Claimed;
    forall i: Identity, from: nat | Cleared(source, i, from) && (i == q.identity ==> !Claimed(q))
      ensures Cleared(Told(source, q, turn - 1), i, from)
    {
      assert source.heard[source.judged[i]] <= turn - 1;
    }
  }

  /** The new questions were all judged against one memory, which holds every lifetime that they are about. */
  ghost predicate OneMemory(was: set<DarwinLineage.Question>, now: set<DarwinLineage.Question>,
                            memory: map<nat, Identity>)
  {
    forall q <- now | q !in was ::
      && q.Classified? && q.history == memory
      && q.identity.key.uniqueId in memory && memory[q.identity.key.uniqueId].key == q.identity.key
  }

  lemma NothingAsked(asked: set<DarwinLineage.Question>, memory: map<nat, Identity>)
    ensures OneMemory(asked, asked, memory)
  {
  }

  /** Nothing remembered is lost or becomes another lifetime. */
  ghost predicate Kept(a: map<nat, Identity>, b: map<nat, Identity>) {
    forall u <- a :: u in b && b[u].key == a[u].key
  }

  lemma KeptSame(a: map<nat, Identity>)
    ensures Kept(a, a)
  {
  }

  lemma RememberedKept(a: map<nat, Identity>, i: Identity)
    requires DarwinLineage.Memorable(a, i)
    ensures Kept(a, a[i.key.uniqueId := i])
  {
  }

  // ----- why a turn may end in a failure -----

  ghost predicate Refuses(answers: DarwinLineage.Answers, i: Identity, known: set<Key>, history: map<nat, Identity>,
                          baseline: set<Key>, foreign: set<Key>)
  {
    DarwinLineage.Refusal(answers, DarwinLineage.Walk(history, known, baseline, i, {i.key.uniqueId}, DarwinLineage.MAX_DEPTH),
                          |foreign| >= DarwinLineage.MAX_LINEAGE)
  }

  /** The host raised, its clock was not finite, it answered about another PID or with a lifetime that cannot be
      recorded, it refused a token's use, or its answers about some lifetime could be refused. */
  ghost predicate Trouble(t: Turn, history: map<nat, Identity>, baseline: set<Key>, foreign: set<Key>) {
    || t.raised.Some? || !t.finite
    || (exists p: nat :: t.identity(p).Some? &&
          (t.identity(p).value.key.pid != p || !DarwinLineage.Memorable(history, t.identity(p).value)))
    || (exists i: Identity, k: set<Key> :: Refuses(t.answers, i, k, history, baseline, foreign))
    || (exists k: Key :: t.reply(k) == Refused)
  }

  /** From `a` to `b` only this signal was dispatched, each time directly after a turn whose clock was below the limit,
      no earlier than `from`. */
  ghost predicate Timed(a: set<Dispatch>, b: set<Dispatch>, signum: nat, limit: nat, from: nat) {
    a <= b && forall d <- b | d !in a :: d.signum == signum && d.after.Some? && from <= d.after.value < limit
  }

  /** Every dispatch from `a` to `b` directly followed a turn whose clock was in its signal's phase. */
  ghost predicate Phased(a: set<Dispatch>, b: set<Dispatch>, ends: (nat, nat)) {
    a <= b && forall d <- b | d !in a :: d.after.Some? && InPhase(d.signum, d.after.value, ends)
  }

  lemma TimedNone(a: set<Dispatch>, signum: nat, limit: nat, from: nat)
    ensures Timed(a, a, signum, limit, from)
  {
  }

  lemma TimedTwice(a: set<Dispatch>, b: set<Dispatch>, c: set<Dispatch>, signum: nat, limit: nat, from: nat, later: nat)
    requires Timed(a, b, signum, limit, from) && Timed(b, c, signum, limit, later) && from <= later
    ensures Timed(a, c, signum, limit, from)
  {
  }

  lemma FirstPhase(a: set<Dispatch>, b: set<Dispatch>, ends: (nat, nat), from: nat)
    requires Timed(a, b, SIG_TERM, ends.0, from)
    ensures Phased(a, b, ends)
  {
  }

  lemma SecondPhase(a: set<Dispatch>, b: set<Dispatch>, c: set<Dispatch>, ends: (nat, nat), from: nat)
    requires Phased(a, b, ends) && Timed(b, c, SIG_KILL, ends.1, from) && ends.0 <= from
    ensures Phased(a, c, ends)
  {
  }

  // ----- what a census leaves on record -----

  /** The lifetime needs no judgement, is known, or was judged since and neither marker nor pipe owned it. */
  ghost predicate HandledIn(source: Source, eyes: Eyes, known: set<Key>, i: Identity, from: nat) {
    || !i.live || i.uid != eyes.uid || i.key in eyes.baseline || i.key in known || Cleared(source, i, from)
  }

  /** What decides what a scope can see. */
  datatype Eyes = Eyes(host: nat -> Turn, self: nat, uid: nat, baseline: set<Key>)

  /** Every PID of the last listing was read after it, and whoever was read has been handled since. */
  ghost predicate SurveyedIn(eyes: Eyes, source: Source, known: set<Key>) {
    forall p <- eyes.host(source.surveyed).listing | p != eyes.self ::
      && p in source.looked && source.surveyed < source.looked[p]
      && (eyes.host(source.looked[p]).identity(p).Some? ==>
            HandledIn(source, eyes, known, eyes.host(source.looked[p]).identity(p).value, source.surveyed))
  }

  /** A timely census: the turns and clock values of the readings around it, what was known, which of them it returned,
      when each was last seen ended or alive, and what else it saw. */
  datatype Round = Round(opening: Stamp, closing: Stamp, known: set<Key>, live: set<Key>, gone: map<Key, nat>,
                         alive: map<Key, nat>, source: Source)

  /** The census lies between two readings before the end; it surveyed its listing, and saw each known lifetime alive
      or ended, all in between. */
  ghost predicate RoundOk(eyes: Eyes, stamps: set<Stamp>, r: Round, from: nat, end: nat) {
    && r.opening in stamps && r.closing in stamps && r.opening.at < end && r.closing.at < end && from <= r.opening.turn
    && r.source.surveyed == r.opening.turn + 1 < r.closing.turn
    && SurveyedIn(eyes, r.source, r.known) && (forall p <- r.source.looked :: r.source.looked[p] < r.closing.turn)
    && (forall k <- r.live :: k in r.known)
    && (forall k <- r.known :: if k in r.live then SeenIn(r.alive, k, r) && Alive(eyes.host(r.alive[k]), k)
                               else SeenIn(r.gone, k, r) && !Alive(eyes.host(r.gone[k]), k))
  }

  ghost predicate SeenIn(m: map<Key, nat>, k: Key, r: Round) {
    k in m && r.opening.turn < m[k] < r.closing.turn
  }

  /** Clean censuses in a row since turn `from`, each after the one before, and no signal since the first. */
  ghost predicate Streak(eyes: Eyes, stamps: set<Stamp>, sends: set<Dispatch>, rounds: seq<Round>, from: nat, end: nat) {
    && (forall i | 0 <= i < |rounds| :: RoundOk(eyes, stamps, rounds[i], from, end) && rounds[i].live == {})
    && (forall i | 0 < i < |rounds| :: rounds[i - 1].closing.turn < rounds[i].opening.turn)
    && (rounds != [] ==> forall d <- sends :: d.turn < rounds[0].opening.turn)
  }

  lemma RoundStays(eyes: Eyes, a: set<Stamp>, b: set<Stamp>, r: Round, from: nat, end: nat)
    requires RoundOk(eyes, a, r, from, end) && a <= b
    ensures RoundOk(eyes, b, r, from, end)
  {
    hide SurveyedIn, Alive, SeenIn;
  }

  lemma RoundLonger(eyes: Eyes, a: set<Stamp>, r: Round, from: nat, end: nat, later: nat)
    requires RoundOk(eyes, a, r, from, end) && end <= later
    ensures RoundOk(eyes, a, r, from, later)
  {
    hide SurveyedIn, Alive, SeenIn;
  }

  lemma RoundEarlier(eyes: Eyes, a: set<Stamp>, r: Round, from: nat, later: nat, end: nat)
    requires RoundOk(eyes, a, r, later, end) && from <= later
    ensures RoundOk(eyes, a, r, from, end)
  {
    hide SurveyedIn, Alive, SeenIn;
  }

  lemma StreakNone(eyes: Eyes, stamps: set<Stamp>, sends: set<Dispatch>, from: nat, end: nat)
    ensures Streak(eyes, stamps, sends, [], from, end)
  {
  }

  lemma StreakStays(eyes: Eyes, a: set<Stamp>, b: set<Stamp>, sends: set<Dispatch>, rounds: seq<Round>, from: nat, end: nat)
    requires Streak(eyes, a, sends, rounds, from, end) && a <= b
    ensures Streak(eyes, b, sends, rounds, from, end)
  {
    hide RoundOk;
    forall i | 0 <= i < |rounds| ensures RoundOk(eyes, b, rounds[i], from, end) {
      RoundStays(eyes, a, b, rounds[i], from, end);
    }
  }

  lemma StreakEarlier(eyes: Eyes, stamps: set<Stamp>, sends: set<Dispatch>, rounds: seq<Round>, from: nat, later: nat, end: nat)
    requires Streak(eyes, stamps, sends, rounds, later, end) && from <= later
    ensures Streak(eyes, stamps, sends, rounds, from, end)
  {
    hide RoundOk;
    forall i | 0 <= i < |rounds| ensures RoundOk(eyes, stamps, rounds[i], from, end) {
      RoundEarlier(eyes, stamps, rounds[i], from, later, end);
    }
  }

  /** One more clean census, after every signal and every earlier round. */
  lemma StreakGrows(eyes: Eyes, a: set<Stamp>, b: set<Stamp>, sends: set<Dispatch>, rounds: seq<Round>, r: Round,
                    from: nat, end: nat)
    requires Streak(eyes, a, sends, rounds, from, end) && a <= b && RoundOk(eyes, b, r, from, end) && r.live == {}
    requires forall d <- sends :: d.turn < r.opening.turn
    requires rounds != [] ==> rounds[|rounds| - 1].closing.turn < r.opening.turn
    ensures Streak(eyes, b, sends, rounds + [r], from, end)
  {
    hide RoundOk;
    StreakStays(eyes, a, b, sends, rounds, from, end);
    var more := rounds + [r];
    forall i | 0 <= i < |more| ensures RoundOk(eyes, b, more[i], from, end) && more[i].live == {} {
      assert i < |rounds| ==> more[i] == rounds[i];
    }
  }

  /** A signal's target is known, and its turn and every stamp are past. */
  ghost predicate Dated(sends: set<Dispatch>, stamps: set<Stamp>, known: set<Key>, turn: nat) {
    (forall d <- sends :: d.target in known && d.turn < turn) && (forall s <- stamps :: s.turn < turn)
  }

  lemma DatedNext(sends: set<Dispatch>, stamps: set<Stamp>, known: set<Key>, turn: nat, at: nat)
    requires Dated(sends, stamps, known, turn)
    ensures Dated(sends, stamps, known, turn + 1) && Dated(sends, stamps + {Stamp(turn, at)}, known, turn + 1)
    ensures stamps + {} == stamps
  {
  }

  lemma DatedSend(sends: set<Dispatch>, stamps: set<Stamp>, known: set<Key>, turn: nat, d: Dispatch)
    requires Dated(sends, stamps, known, turn) && d.target in known && d.turn < turn
    ensures Dated(sends + {d}, stamps, known, turn)
  {
  }

  lemma DatedWider(sends: set<Dispatch>, stamps: set<Stamp>, known: set<Key>, more: set<Key>, turn: nat)
    requires Dated(sends, stamps, known, turn) && known <= more
    ensures Dated(sends, stamps, more, turn)
  {
  }

  /** The clock and the turns, what is known, and what the scope never forgets. */
  datatype Past = Past(clock: nat, turn: nat, known: set<Key>, fatal: set<Message>, sends: set<Dispatch>,
                       stamps: set<Stamp>, reconciliations: nat, evidence: nat, log: Log)

  /** Time, knowledge, recorded failures, signals and sightings only move on. */
  ghost predicate Onward(a: Past, b: Past) {
    && a.clock <= b.clock && a.turn <= b.turn && a.known <= b.known && a.fatal <= b.fatal && a.sends <= b.sends
    && a.stamps <= b.stamps && a.reconciliations <= b.reconciliations && a.evidence <= b.evidence && Forward(a.log, b.log)
  }

  lemma OnwardSame(a: Past)
    ensures Onward(a, a)
  {
    ForwardSame(a.log);
  }

  lemma OnwardTwice(a: Past, b: Past, c: Past)
    requires Onward(a, b) && Onward(b, c)
    ensures Onward(a, c)
  {
    hide Forward;
    ForwardTwice(a.log, b.log, c.log);
  }

  lemma OnwardMeans(a: Past, b: Past)
    requires Onward(a, b)
    ensures a.clock <= b.clock && a.turn <= b.turn && a.known <= b.known && a.fatal <= b.fatal && a.sends <= b.sends
    ensures a.stamps <= b.stamps && a.reconciliations <= b.reconciliations && a.evidence <= b.evidence && Forward(a.log, b.log)
  {
    hide Forward;
  }

  /** Only what is known, recorded or counted has grown. */
  lemma OnwardGrown(a: Past, b: Past)
    requires b == a.(known := b.known, fatal := b.fatal, reconciliations := b.reconciliations, evidence := b.evidence)
    requires a.known <= b.known && a.fatal <= b.fatal && a.reconciliations <= b.reconciliations && a.evidence <= b.evidence
    ensures Onward(a, b)
  {
    hide Forward;
    ForwardSame(a.log);
  }

  lemma OnwardSent(a: Past, b: Past)
    requires b == a.(sends := b.sends, log := b.log) && a.sends <= b.sends && Forward(a.log, b.log)
    ensures Onward(a, b)
  {
    hide Forward;
  }

  lemma OnwardSlept(a: Past, b: Past)
    requires b == a.(clock := b.clock) && a.clock <= b.clock
    ensures Onward(a, b)
  {
    hide Forward;
    ForwardSame(a.log);
  }

  lemma OnwardLogged(a: Past, b: Past)
    requires b == a.(log := b.log) && Forward(a.log, b.log)
    ensures Onward(a, b)
  {
    hide Forward;
  }

  class Scope {
    const host: nat -> Turn
    const lineage: DarwinLineage.Scope
    var turn: nat
    var clock: nat
    var errors: set<Message>
    var pending: map<nat, Pending>
    var reconciliations: nat
    var signals: set<Key>                      // known lifetimes that a signal may not have reached
    var evidence: nat
    ghost var log: Log
    ghost var source: Source
    ghost const before: DarwinLineage.Trail    // what the lineage scope knew when this one was made
    ghost var fatal: set<Message>              // messages of classes that no later census may reconcile
    ghost var sends: set<Dispatch>
    ghost var stamps: set<Stamp>               // the finite clock values, turn by turn
    ghost var reading: Option<nat>             // the clock after the last turn, if it was finite
    ghost var rounds: seq<Round>               // the clean censuses just passed, in a row
    ghost var accepted: Option<Round>          // the last timely census of the present drain

    ghost predicate Valid()
      reads this, lineage
    {
      && lineage.Valid() && PendingOk(pending, errors) && FatalOk(fatal, errors)
      && Dated(sends, stamps, lineage.known.Keys, turn)
      && Truthful(host, turn, log) && DoubtsOk(signals, log) && Sourced(host, turn, source, before, lineage.trail)
    }

    ghost function Now(): Past
      reads this, lineage
    {
      Past(clock, turn, lineage.known.Keys, fatal, sends, stamps, reconciliations, evidence, log)
    }

    constructor (host: nat -> Turn, lineage: DarwinLineage.Scope)
      requires lineage.Valid()
      ensures Valid() && errors == {} && pending == map[] && fatal == {} && sends == {} && this.lineage == lineage
      ensures this.host == host
    {
      hide DarwinLineage.ProofsOk, DarwinLineage.HistoryOk, DarwinLineage.RosterOk;
      this.host, this.lineage, turn, clock, errors, pending := host, lineage, 0, 0, {}, map[];
      reconciliations, signals, evidence, fatal, sends := 0, {}, 0, {}, {};
      stamps, reading, rounds, accepted, before := {}, None, [], None, lineage.trail;
      log, source := Log(map[], map[], map[], map[], map[]), Source(map[], map[], map[], map[], 0);
    }

    method Next() returns (t: Turn)
      requires Valid()
      modifies this`turn, this`clock, this`stamps, this`reading
      ensures Valid() && t == host(old(turn)) && turn == old(turn) + 1 && clock == old(clock) + t.advance
      ensures stamps == old(stamps) + if t.finite then {Stamp(old(turn), clock)} else {}
      ensures reading == if t.finite then Some(clock) else None
      ensures Onward(old(Now()), Now())
    {
      hide Truthful, DoubtsOk, Sourced, PendingOk, FatalOk, Dated, Forward, DarwinLineage.ProofsOk,
        DarwinLineage.HistoryOk, DarwinLineage.RosterOk;
      TruthfulLater(host, turn, turn + 1, log);
      SourcedLater(host, turn, turn + 1, source, before, lineage.trail);
      ForwardSame(log);
      t := host(turn);
      DatedNext(sends, stamps, lineage.known.Keys, turn, clock + t.advance);
      turn, clock := turn + 1, clock + t.advance;
      reading, stamps := if t.finite then Some(clock) else None, stamps + if t.finite then {Stamp(turn - 1, clock)} else {};
    }

    ghost function Sight(): Eyes
      reads lineage`baseline
    {
      Eyes(host, lineage.self, lineage.uid, lineage.baseline)
    }

    /** There is a reason to fail: some turn since then was in trouble, or some bound is reached. */
    ghost predicate Excuse(from: nat)
      reads this, lineage
    {
      || reconciliations >= MAX_EVIDENCE || evidence >= MAX_EVIDENCE
      || exists t | from <= t < turn :: Trouble(host(t), lineage.history, lineage.baseline, lineage.foreign)
    }

    lemma TroubleExcuses(t: nat, from: nat)
      requires from <= t < turn && Trouble(host(t), lineage.history, lineage.baseline, lineage.foreign)
      ensures Excuse(from)
    {
      hide Trouble;
    }

    lemma ExcuseSince(from: nat, later: nat)
      requires from <= later && Excuse(later)
      ensures Excuse(from)
    {
      hide Trouble;
    }

    lemma RaisedExcuses(t: nat, from: nat)
      requires from <= t < turn && (host(t).raised.Some? || !host(t).finite)
      ensures Excuse(from)
    {
      TroubleExcuses(t, from);
    }

    // ----- discovery -----

    /** A resolved lifetime takes only its own message away. */
    method Resolve(pid: nat)
      requires Valid()
      modifies this`pending, this`errors
      ensures Valid() && pid !in pending
      ensures forall p <- old(pending) :: p != pid ==> p in pending && pending[p] == old(pending)[p]
      ensures errors == old(errors) - if pid in old(pending) then {old(pending)[pid].message} else {}
    {
      hide Truthful, DoubtsOk, Sourced;
      if pid in pending {
        var record := pending[pid];
        pending := pending - {pid};
        errors := errors - {record.message};
      }
    }

    /** A lifetime that could not be inspected: its message is recorded, and it is pending exactly when the
        failure is of a class that a later census may reconcile. */
    method Fail(key: Key, class_: Class) returns (ok: bool)
      requires Valid() && (key.pid in pending ==> pending[key.pid].key == key)
      modifies this`pending, this`errors, this`reconciliations, this`fatal
      ensures Valid() && old(fatal) <= fatal && old(reconciliations) <= reconciliations
      ensures !ok ==> reconciliations >= MAX_EVIDENCE
      ensures Message(key.pid, class_) in errors
      ensures !Reconcilable(class_) ==> Message(key.pid, class_) in fatal && pending == old(pending)
      ensures ok && Reconcilable(class_) ==> key.pid in pending && pending[key.pid] == Pending(key, Message(key.pid, class_))
      ensures forall m <- old(errors) :: m.pid != key.pid ==> m in errors
    {
      hide Truthful, DoubtsOk, Sourced;
      var message := Message(key.pid, class_);
      errors := errors + {message};
      if !Reconcilable(class_) {
        fatal := fatal + {message};
        return true;
      }
      if key.pid !in pending {
        if reconciliations >= MAX_EVIDENCE { return false; }
        reconciliations := reconciliations + 1;
        pending := pending[key.pid := Pending(key, message)];
      } else if pending[key.pid].message != message {
        errors := errors - {pending[key.pid].message};
        pending := pending[key.pid := Pending(key, message)];
      }
      ok := true;
    }

    lemma MisreadExcuses(t: nat, pid: nat)
      requires t < turn && host(t).identity(pid).Some?
      requires var i := host(t).identity(pid).value; i.key.pid != pid || !DarwinLineage.Memorable(lineage.history, i)
      ensures Excuse(t)
    {
      hide DarwinLineage.Memorable;
      TroubleExcuses(t, t);
    }

    /** Read one PID and remember who holds it; an answer about another PID is refused. */
    method ReadOne(pid: nat) returns (r: Result<Option<Identity>, Failure>)
      requires Valid()
      modifies this`turn, this`clock, this`stamps, this`reading, lineage`history, lineage`trail, this`source
      ensures Valid() && Onward(old(Now()), Now()) && Kept(old(lineage.history), lineage.history)
      ensures lineage.trail == old(lineage.trail).(recorded := lineage.trail.recorded)
      ensures old(lineage.trail).recorded <= lineage.trail.recorded
      ensures r.Ok? ==> r.value == host(old(turn)).identity(pid) && turn == old(turn) + 1
      ensures r.Ok? && r.value.Some? ==> r.value.value.key.pid == pid && Filed(r.value.value)
      ensures r.Err? ==> r.error.fault == Structural && Excuse(old(turn))
      ensures source == old(source).(seen := source.seen, looked := source.looked)
      ensures r.Ok? ==> source.looked == old(source).looked[pid := old(turn)]
    {
      hide Truthful, DoubtsOk, Sourced, PendingOk, FatalOk, Dated, Onward, Excuse, DarwinLineage.ProofsOk,
        DarwinLineage.HistoryOk, DarwinLineage.RosterOk, DarwinLineage.Memorable, Kept, Trouble;
      ghost var start := Now();
      KeptSame(lineage.history);
      var t := Next();
      if t.raised.Some? {
        RaisedExcuses(turn - 1, turn - 1);
        return Err(Failure(Structural, t.raised.value));
      }
      var identity := t.identity(pid);
      if identity.Some? {
        if identity.value.key.pid != pid {
          MisreadExcuses(turn - 1, pid);
          return Err(Failure(Structural, false));
        }
        ghost var was := lineage.trail;
        SourcedSeen(host, turn, source, before, was, turn - 1, identity.value);
        var ok := lineage.Remember(identity.value);
        if !ok {
          assert was.recorded + {} == was.recorded;
          MisreadExcuses(turn - 1, pid);
          return Err(Failure(Structural, false));
        }
        RememberedKept(old(lineage.history), identity.value);
        source := source.(seen := source.seen[identity.value := turn - 1]);
      }
      SourcedLooked(host, turn, source, before, lineage.trail, turn - 1, pid);
      source := source.(looked := source.looked[pid := turn - 1]);
      r := Ok(identity);
    }

    /** The lifetime is recorded and remembered. */
    ghost predicate Filed(i: Identity)
      reads lineage
    {
      && i in lineage.trail.recorded && i.key.uniqueId in lineage.history
      && lineage.history[i.key.uniqueId].key == i.key
    }

    /** Read every PID before any parentage is interpreted. */
    method ReadAll(pids: seq<nat>) returns (r: Result<seq<Entry>, Failure>)
      requires Valid()
      modifies this`turn, this`clock, this`stamps, this`reading, lineage`history, lineage`trail, this`source
      ensures Valid() && Onward(old(Now()), Now()) && lineage.trail == old(lineage.trail).(recorded := lineage.trail.recorded)
      ensures r.Ok? ==> forall e <- r.value | e.identity.Some? :: e.identity.value.key.pid == e.pid && Filed(e.identity.value)
      ensures r.Err? ==> r.error.fault == Structural && Excuse(old(turn))
      ensures source == old(source).(seen := source.seen, looked := source.looked)
      ensures r.Ok? ==> forall p <- pids | p != lineage.self :: Read(p, r.value, old(turn))
    {
      hide Truthful, DoubtsOk, Sourced, PendingOk, FatalOk, Dated, Onward, Excuse, DarwinLineage.ProofsOk,
        DarwinLineage.HistoryOk, DarwinLineage.RosterOk, Filed;
      ghost var start := Now();
      OnwardSame(start);
      var census: seq<Entry> := [];
      for n := 0 to |pids|
        invariant Valid() && Onward(start, Now()) && lineage.trail == old(lineage.trail).(recorded := lineage.trail.recorded)
        invariant forall e <- census | e.identity.Some? :: e.identity.value.key.pid == e.pid && Filed(e.identity.value)
        invariant source == old(source).(seen := source.seen, looked := source.looked)
        invariant forall m | 0 <= m < n && pids[m] != lineage.self :: Read(pids[m], census, start.turn)
      {
        if pids[n] != lineage.self {
          ghost var was := Now();
          var next := ReadNext(pids[n], census, start);
          if next.Err? { return Err(next.error); }
          census := next.value;
        }
      }
      r := Ok(census);
    }

    /** Read one more PID. */
    method ReadNext(pid: nat, census: seq<Entry>, ghost start: Past) returns (r: Result<seq<Entry>, Failure>)
      requires Valid() && Onward(start, Now())
      requires forall e <- census | e.identity.Some? :: e.identity.value.key.pid == e.pid && Filed(e.identity.value)
      modifies this`turn, this`clock, this`stamps, this`reading, lineage`history, lineage`trail, this`source
      ensures Valid() && Onward(start, Now()) && lineage.trail == old(lineage.trail).(recorded := lineage.trail.recorded)
      ensures source == old(source).(seen := source.seen, looked := source.looked)
      ensures r.Err? ==> r.error.fault == Structural && Excuse(start.turn)
      ensures r.Ok? ==>
        && (forall e <- r.value | e.identity.Some? :: e.identity.value.key.pid == e.pid && Filed(e.identity.value))
        && Read(pid, r.value, start.turn) && forall p: nat :: old(Read(p, census, start.turn)) ==> Read(p, r.value, start.turn)
    {
      hide Truthful, DoubtsOk, Sourced, PendingOk, FatalOk, Dated, Onward, Excuse, DarwinLineage.ProofsOk,
        DarwinLineage.HistoryOk, DarwinLineage.RosterOk;
      ghost var was := Now();
      OnwardMeans(start, was);
      var identity := ReadOne(pid);
      OnwardTwice(start, was, Now());
      if identity.Err? {
        ExcuseSince(start.turn, was.turn);
        return Err(identity.error);
      }
      var next := census + [Entry(pid, identity.value)];
      assert Entry(pid, identity.value) in next && forall e <- census :: e in next;
      r := Ok(next);
    }

    /** The PID was read since, and what was read is in the census. */
    ghost predicate Read(pid: nat, census: seq<Entry>, from: nat)
      reads this`source
    {
      && pid in source.looked && from <= source.looked[pid]
      && Entry(pid, host(source.looked[pid]).identity(pid)) in census
    }

    ghost predicate Handled(i: Identity, from: nat)
      reads this`source, lineage
    {
      HandledIn(source, Sight(), lineage.known.Keys, i, from)
    }

    /** Readings stand, and what was handled stays handled. */
    twostate predicate KeepsHandled()
      reads this`source, lineage
    {
      && source.looked == old(source).looked && source.surveyed == old(source).surveyed
      && forall i: Identity, from: nat :: old(Handled(i, from)) ==> Handled(i, from)
    }

    ghost predicate Surveyed()
      reads this`source, lineage
    {
      SurveyedIn(Sight(), source, lineage.known.Keys)
    }

    /** One census entry: settle a pending record that it contradicts, then classify by lineage. It becomes known
        exactly when it is eligible, the host's answers own it and its token was acquired, by the proof that they
        warrant; one that could not be inspected leaves its message. */
    method ConsiderEntry(e: Entry) returns (f: Option<Failure>)
      requires Valid() && (e.identity.Some? ==> e.identity.value.key.pid == e.pid && Filed(e.identity.value))
      modifies this`turn, this`clock, this`stamps, this`reading,
        this`pending, this`errors, this`reconciliations, this`fatal
      modifies lineage`known, lineage`proofs, lineage`trail, this`source, lineage`foreign
      ensures Valid() && Onward(old(Now()), Now()) && lineage.trail.recorded == old(lineage.trail).recorded
      ensures old(lineage.trail).asked <= lineage.trail.asked
      ensures OneMemory(old(lineage.trail).asked, lineage.trail.asked, lineage.history)
      ensures forall k <- lineage.known | k !in old(lineage.known) ::
        && e.identity.Some? && k == e.identity.value.key && old(lineage.Eligible(e.identity.value))
        && host(old(turn)).answers.token == DarwinLineage.Acquired
        && DarwinLineage.Warrants(host(old(turn)).answers, old(lineage.LineageOf(e.identity.value)), lineage.proofs[k])
      ensures f.None? && e.identity.Some? && old(lineage.Eligible(e.identity.value)) ==>
        var answers := host(old(turn)).answers;
        && (answers.token == DarwinLineage.Acquired && DarwinLineage.Owning(answers, old(lineage.LineageOf(e.identity.value))) ==>
              e.identity.value.key in lineage.known)
        && (answers.environment == DarwinLineage.Denied ==> Message(e.pid, host(old(turn)).class_) in errors)
      ensures f.Some? ==> f.value.fault == Structural && Excuse(old(turn))
      ensures KeepsHandled() && (f.None? && e.identity.Some? ==> Handled(e.identity.value, old(turn)))
    {
      hide Truthful, DoubtsOk, Sourced, PendingOk, FatalOk, Dated, Onward, Excuse, DarwinLineage.ProofsOk,
        DarwinLineage.HistoryOk, DarwinLineage.RosterOk, DarwinLineage.Walk, DarwinLineage.Warrants,
        DarwinLineage.Owning, DarwinLineage.Judged, HandledIn;
      ghost var start := Now();
      OnwardSame(start);
      f := None;
      var pid := e.pid;
      if pid in pending && (e.identity.None? || !e.identity.value.live || e.identity.value.key != pending[pid].key) {
        Resolve(pid);
      }
      if e.identity.None? { return; }
      var identity := e.identity.value;
      if !lineage.Eligible(identity) {
        Ineligible(identity, turn);
        if identity.live && identity.uid == lineage.uid && identity.key in lineage.known { lineage.Refresh(identity); }
        return;
      }
      f := Judge(identity);
    }

    /** Leave the lifetime's message, if there is room. */
    method Postpone(ghost start: Past, key: Key, class_: Class) returns (f: Option<Failure>)
      requires Valid() && Onward(start, Now()) && (key.pid in pending ==> pending[key.pid].key == key)
      modifies this`pending, this`errors, this`reconciliations, this`fatal
      ensures Valid() && Onward(start, Now()) && Message(key.pid, class_) in errors
      ensures f.Some? ==> f.value.fault == Structural && Excuse(start.turn)
    {
      hide Truthful, DoubtsOk, Sourced, PendingOk, FatalOk, Dated, Onward, Excuse, DarwinLineage.ProofsOk,
        DarwinLineage.HistoryOk, DarwinLineage.RosterOk;
      ghost var was := Now();
      f := None;
      var ok := Fail(key, class_);
      OnwardGrown(was, Now());
      OnwardTwice(start, was, Now());
      if !ok {
        FullExcuses(start.turn);
        f := Some(Failure(Structural, false));
      }
    }

    lemma FullExcuses(from: nat)
      requires reconciliations >= MAX_EVIDENCE || evidence >= MAX_EVIDENCE
      ensures Excuse(from)
    {
    }

    lemma RefusedExcuses(t: nat, i: Identity, known: set<Key>)
      requires t < turn && Refuses(host(t).answers, i, known, lineage.history, lineage.baseline, lineage.foreign)
      ensures Excuse(t)
    {
      hide Refuses;
      TroubleExcuses(t, t);
    }

    lemma Ineligible(i: Identity, from: nat)
      requires !lineage.Eligible(i)
      ensures Handled(i, from)
    {
    }

    lemma HandledEarlier(i: Identity, from: nat, earlier: nat)
      requires Handled(i, from) && earlier <= from
      ensures Handled(i, earlier)
    {
      ClearedEarlier(source, i, from, earlier);
    }

    /** Ask the host about an eligible lifetime, and act on the verdict. */
    method Judge(identity: Identity) returns (f: Option<Failure>)
      requires Valid() && Filed(identity) && lineage.Eligible(identity)
      requires identity.key.pid in pending ==> pending[identity.key.pid].key == identity.key
      modifies this`turn, this`clock, this`stamps, this`reading,
        this`pending, this`errors, this`reconciliations, this`fatal
      modifies lineage`known, lineage`proofs, lineage`trail, this`source, lineage`foreign
      ensures Valid() && Onward(old(Now()), Now()) && lineage.trail.recorded == old(lineage.trail).recorded
      ensures old(lineage.trail).asked <= lineage.trail.asked
      ensures OneMemory(old(lineage.trail).asked, lineage.trail.asked, lineage.history)
      ensures forall k <- lineage.known | k !in old(lineage.known) ::
        && k == identity.key && host(old(turn)).answers.token == DarwinLineage.Acquired
        && DarwinLineage.Warrants(host(old(turn)).answers, old(lineage.LineageOf(identity)), lineage.proofs[k])
      ensures f.None? ==>
        var answers := host(old(turn)).answers;
        && (answers.token == DarwinLineage.Acquired && DarwinLineage.Owning(answers, old(lineage.LineageOf(identity))) ==>
              identity.key in lineage.known)
        && (answers.environment == DarwinLineage.Denied ==> Message(identity.key.pid, host(old(turn)).class_) in errors)
      ensures f.Some? ==> f.value.fault == Structural && Excuse(old(turn))
      ensures KeepsHandled() && (f.None? ==> Handled(identity, old(turn)))
    {
      hide Truthful, DoubtsOk, Sourced, PendingOk, FatalOk, Dated, Onward, Excuse, DarwinLineage.ProofsOk,
        DarwinLineage.HistoryOk, DarwinLineage.RosterOk, DarwinLineage.Walk, DarwinLineage.Warrants,
        DarwinLineage.Owning, DarwinLineage.Judged, Cleared, Trouble, HandledIn, Refuses;
      ghost var start := Now();
      f := None;
      var t := Next();
      ghost var was, known := Now(), lineage.known.Keys;
      if t.raised.Some? {
        RaisedExcuses(turn - 1, turn - 1);
        return Some(Failure(Structural, t.raised.value));
      }
      var v := Classify(identity, t);
      OnwardTwice(start, was, Now());
      if v == DarwinLineage.Refused {
        RefusedExcuses(turn - 1, identity, known);
        return Some(Failure(Structural, false));
      }
      if v == DarwinLineage.Deferred {
        f := Postpone(start, identity.key,
                      if t.answers.environment == DarwinLineage.Denied then t.class_ else DiscoveryUncertain);
      } else {
        Resolve(identity.key.pid);
      }
    }

    /** Put one lifetime to the lineage scope, with the answers just heard. */
    method Classify(identity: Identity, t: Turn) returns (v: DarwinLineage.Verdict)
      requires Valid() && Filed(identity) && turn > 0 && t == host(turn - 1)
      modifies lineage`known, lineage`proofs, lineage`trail, this`source, lineage`foreign
      ensures Valid() && Onward(old(Now()), Now()) && lineage.trail.recorded == old(lineage.trail).recorded
      ensures old(lineage.trail).asked <= lineage.trail.asked
      ensures OneMemory(old(lineage.trail).asked, lineage.trail.asked, lineage.history)
      ensures forall k <- lineage.known | k !in old(lineage.known) :: k == identity.key && v.Proven?
      ensures v.Proven? ==> old(lineage.Eligible(identity)) && t.answers.token == DarwinLineage.Acquired
      ensures v.Proven? ==>
        && identity.key in lineage.known && lineage.proofs[identity.key] == v.proof
        && DarwinLineage.Warrants(t.answers, old(lineage.LineageOf(identity)), v.proof)
      ensures old(lineage.Eligible(identity)) ==>
        && (t.answers.token == DarwinLineage.Acquired && DarwinLineage.Owning(t.answers, old(lineage.LineageOf(identity))) ==>
              v.Proven?)
        && (t.answers.environment == DarwinLineage.Denied ==> v == DarwinLineage.Deferred)
      ensures v == DarwinLineage.Refused ==>
        Refuses(t.answers, identity, old(lineage.known).Keys, lineage.history, lineage.baseline, lineage.foreign)
      ensures KeepsHandled() && (v != DarwinLineage.Refused ==> Handled(identity, turn - 1))
    {
      hide Truthful, DoubtsOk, Sourced, PendingOk, FatalOk, Dated, Onward, Excuse, DarwinLineage.ProofsOk,
        DarwinLineage.HistoryOk, DarwinLineage.RosterOk, DarwinLineage.Walk, DarwinLineage.Warrants,
        DarwinLineage.Owning, DarwinLineage.Judged, Cleared;
      ghost var start := Now();
      ghost var was, q := lineage.trail, DarwinLineage.Classified(identity, t.answers, lineage.history);
      v := lineage.Consider(identity, t.answers);
      DatedWider(sends, stamps, start.known, lineage.known.Keys, turn);
      OnwardGrown(start, Now());
      SourcedHeard(host, turn, source, before, was, turn - 1, q, lineage.trail);
      ToldClears(host, turn, source, before, was, q);
      if Claimed(q) { ClaimedOwns(t.answers, old(lineage.LineageOf(identity))); }
      source := Told(source, q, turn - 1);
    }

    method ConsiderAll(census: seq<Entry>) returns (f: Option<Failure>)
      requires Valid()
      requires forall e <- census | e.identity.Some? :: e.identity.value.key.pid == e.pid && Filed(e.identity.value)
      modifies this`turn, this`clock, this`stamps, this`reading,
        this`pending, this`errors, this`reconciliations, this`fatal
      modifies lineage`known, lineage`proofs, lineage`trail, this`source, lineage`foreign
      ensures Valid() && Onward(old(Now()), Now()) && OneMemory(old(lineage.trail).asked, lineage.trail.asked, lineage.history)
      ensures f.Some? ==> f.value.fault == Structural && Excuse(old(turn))
      ensures KeepsHandled() && (f.None? ==> forall e <- census | e.identity.Some? :: Handled(e.identity.value, old(turn)))
    {
      hide Truthful, DoubtsOk, Sourced, PendingOk, FatalOk, Dated, Onward, Excuse, DarwinLineage.ProofsOk,
        DarwinLineage.HistoryOk, DarwinLineage.RosterOk, HandledIn;
      ghost var start := Now();
      OnwardSame(start);
      f := None;
      for n := 0 to |census|
        invariant Valid() && Onward(start, Now()) && lineage.trail.recorded == old(lineage.trail).recorded
        invariant OneMemory(old(lineage.trail).asked, lineage.trail.asked, lineage.history) && f.None?
        invariant KeepsHandled()
        invariant forall m | 0 <= m < n && census[m].identity.Some? :: Handled(census[m].identity.value, start.turn)
      {
        ghost var was := Now();
        OnwardMeans(start, was);
        f := ConsiderEntry(census[n]);
        OnwardTwice(start, was, Now());
        if f.Some? {
          ExcuseSince(start.turn, was.turn);
          return;
        }
        if census[n].identity.Some? { HandledEarlier(census[n].identity.value, was.turn, start.turn); }
      }
    }

    /** Look at every known lifetime again: what is not returned was just seen ended. */
    method Recheck() returns (r: Result<set<Key>, Failure>)
      requires Valid()
      modifies this`turn, this`clock, this`stamps, this`reading, this`log, lineage`known
      ensures Valid() && Onward(old(Now()), Now()) && lineage.known.Keys == old(lineage.known).Keys
      ensures log.doubt == old(log).doubt
      ensures r.Ok? ==> forall k <- r.value :: k in lineage.known && Since(log.alive, k, old(turn))
      ensures r.Ok? ==> forall k <- lineage.known | k !in r.value :: Since(log.gone, k, old(turn))
      ensures r.Err? ==> r.error.fault == Structural && Excuse(old(turn))
    {
      hide Truthful, DoubtsOk, Sourced, PendingOk, FatalOk, Dated, Onward, Excuse, DarwinLineage.ProofsOk,
        DarwinLineage.HistoryOk, DarwinLineage.RosterOk, Forward;
      ghost var start := Now();
      OnwardSame(start);
      var todo, live := lineage.known.Keys, {};
      while todo != {}
        invariant Valid() && Onward(start, Now()) && todo <= lineage.known.Keys
        invariant lineage.known.Keys == old(lineage.known).Keys && log.doubt == old(log).doubt
        invariant forall k <- live :: k in lineage.known && Since(log.alive, k, start.turn)
        invariant forall k <- lineage.known.Keys - live - todo :: Since(log.gone, k, start.turn)
      {
        var key :| key in todo;
        ghost var was := Now();
        OnwardMeans(start, was);
        var alive := RecheckOne(key);
        OnwardMeans(was, Now());
        OnwardTwice(start, was, Now());
        StillSince(was.log, log);
        if alive.Err? {
          ExcuseSince(start.turn, was.turn);
          return Err(alive.error);
        }
        if alive.value { live := live + {key}; }
        todo := todo - {key};
      }
      r := Ok(live);
    }

    method RecheckOne(key: Key) returns (r: Result<bool, Failure>)
      requires Valid() && key in lineage.known
      modifies this`turn, this`clock, this`stamps, this`reading, this`log, lineage`known
      ensures Valid() && Onward(old(Now()), Now()) && lineage.known.Keys == old(lineage.known).Keys
      ensures log.doubt == old(log).doubt
      ensures r.Ok? ==> if r.value then Since(log.alive, key, old(turn)) else Since(log.gone, key, old(turn))
      ensures r.Err? ==> r.error.fault == Structural && Excuse(old(turn))
    {
      hide Truthful, DoubtsOk, Sourced, PendingOk, FatalOk, Dated, Onward, Excuse, DarwinLineage.ProofsOk,
        DarwinLineage.HistoryOk, DarwinLineage.RosterOk, Forward;
      ghost var start, at := Now(), turn;
      var t := Next();
      ghost var was := Now();
      if t.raised.Some? {
        RaisedExcuses(turn - 1, turn - 1);
        return Err(Failure(Structural, t.raised.value));
      }
      Recent(host, at, log, key);
      if Alive(t, key) {
        lineage.Refresh(t.identity(key.pid).value);
        SawAlive(host, turn, log, at, key);
        log := log.(alive := log.alive[key := at]);
        r := Ok(true);
      } else {
        SawGone(host, turn, log, at, key, signals);
        log := log.(gone := log.gone[key := at]);
        r := Ok(false);
      }
      OnwardLogged(was, Now());
      OnwardTwice(start, was, Now());
    }

    /** A census: everyone is read, then classified, then every known lifetime is looked at again. */
    method Discover() returns (r: Result<set<Key>, Failure>)
      requires Valid()
      modifies this`turn, this`clock, this`stamps, this`reading,
        this`pending, this`errors, this`reconciliations, this`fatal, this`log
      modifies lineage`history, lineage`trail, this`source, lineage`known, lineage`proofs, lineage`foreign
      ensures Valid() && Onward(old(Now()), Now()) && log.doubt == old(log).doubt && old(turn) < turn
      ensures OneMemory(old(lineage.trail).asked, lineage.trail.asked, lineage.history)
      ensures r.Ok? ==> forall k <- r.value :: k in lineage.known && Since(log.alive, k, old(turn))
      ensures r.Ok? ==> forall k <- lineage.known | k !in r.value :: Since(log.gone, k, old(turn))
      ensures r.Err? ==> r.error.fault == Structural && Excuse(old(turn))
      ensures r.Ok? ==> Surveyed() && source.surveyed == old(turn)
    {
      hide Truthful, DoubtsOk, Sourced, PendingOk, FatalOk, Dated, Onward, Excuse, DarwinLineage.ProofsOk,
        DarwinLineage.HistoryOk, DarwinLineage.RosterOk, Forward, HandledIn, SurveyedIn, OneMemory, Since;
      ghost var start := Now();
      var t := Next();
      if t.raised.Some? {
        RaisedExcuses(turn - 1, turn - 1);
        NothingAsked(lineage.trail.asked, lineage.history);
        return Err(Failure(Structural, t.raised.value));
      }
      SourcedListed(host, turn, source, before, lineage.trail, turn - 1);
      source := source.(surveyed := turn - 1);
      var f := Survey(t.listing, start);
      if f.Some? { return Err(f.value); }
      ghost var was := Now();
      OnwardMeans(start, was);
      r := Recheck();
      OnwardMeans(was, Now());
      OnwardTwice(start, was, Now());
      SinceEarlier(log, was.turn, start.turn);
      if r.Err? { ExcuseSince(start.turn, was.turn); }
    }

    /** Read and judge everyone listed or pending. */
    method Survey(listing: seq<nat>, ghost start: Past) returns (f: Option<Failure>)
      requires Valid() && Onward(start, Now()) && source.surveyed < turn
      requires forall p <- host(source.surveyed).listing :: p in listing
      modifies this`turn, this`clock, this`stamps, this`reading,
        this`pending, this`errors, this`reconciliations, this`fatal
      modifies lineage`history, lineage`trail, this`source, lineage`known, lineage`proofs, lineage`foreign
      ensures Valid() && Onward(start, Now()) && log == old(log) && old(turn) <= turn
      ensures OneMemory(old(lineage.trail).asked, lineage.trail.asked, lineage.history)
      ensures f.Some? ==> f.value.fault == Structural && Excuse(start.turn)
      ensures source.surveyed == old(source).surveyed && (f.None? ==> Surveyed())
    {
      hide Truthful, DoubtsOk, Sourced, PendingOk, FatalOk, Dated, Onward, Excuse, DarwinLineage.ProofsOk,
        DarwinLineage.HistoryOk, DarwinLineage.RosterOk, Forward, HandledIn, SurveyedIn;
      ghost var was := Now();
      OnwardMeans(start, was);
      var unresolved := Enumerate(pending.Keys);
      var pids := Deduped(listing + unresolved);
      var census := ReadAll(pids);
      OnwardMeans(was, Now());
      OnwardTwice(start, was, Now());
      if census.Err? {
        ExcuseSince(start.turn, was.turn);
        return Some(census.error);
      }
      ghost var read := Now();
      OnwardMeans(was, read);
      f := ConsiderAll(census.value);
      OnwardMeans(read, Now());
      OnwardTwice(start, read, Now());
      if f.Some? {
        ExcuseSince(start.turn, read.turn);
        return;
      }
      forall e <- census.value | e.identity.Some? ensures Handled(e.identity.value, was.turn) {
        HandledEarlier(e.identity.value, read.turn, was.turn);
      }
      SurveyDone(pids, census.value, was.turn);
    }

    /** Once every PID that was read is handled, the listing is surveyed. */
    lemma SurveyDone(pids: seq<nat>, census: seq<Entry>, from: nat)
      requires source.surveyed < from && forall p <- host(source.surveyed).listing :: p in pids
      requires forall p <- pids | p != lineage.self :: Read(p, census, from)
      requires forall e <- census | e.identity.Some? :: Handled(e.identity.value, from)
      ensures Surveyed()
    {
      hide Cleared;
      forall p <- host(source.surveyed).listing | p != lineage.self && host(source.looked[p]).identity(p).Some?
        ensures Handled(host(source.looked[p]).identity(p).value, source.surveyed)
      {
        var e := Entry(p, host(source.looked[p]).identity(p));
        assert Read(p, census, from) && e in census && Handled(e.identity.value, from);
        ClearedEarlier(source, e.identity.value, from, source.surveyed);
      }
    }

    // ----- signals -----

    /** The clock after the last turn was finite and before the limit. */
    ghost predicate Prompt(limit: nat)
      reads this`reading
    {
      reading.Some? && reading.value < limit
    }

    /** If nothing failed, the last turn was a reading before the limit; if time was up, the clock says so; and a
        structural failure has a reason. */
    ghost predicate Ran(f: Option<Failure>, limit: nat, from: nat)
      reads this, lineage
    {
      && (f.None? ==> Prompt(limit)) && (f == Some(Failure(Expired, false)) ==> limit <= clock)
      && (f.Some? && f.value.fault == Structural ==> Excuse(from))
    }

    /** A clock reading against a phase end. */
    method Check(limit: nat) returns (f: Option<Failure>)
      requires Valid()
      modifies this`turn, this`clock, this`stamps, this`reading
      ensures Valid() && Onward(old(Now()), Now()) && Ran(f, limit, old(turn)) && turn == old(turn) + 1
      ensures f.None? ==> clock < limit && reading == Some(clock) && Stamp(old(turn), clock) in stamps
      ensures f.Some? ==> f.value == Failure(Expired, false) || f.value == Failure(Structural, false)
    {
      hide Truthful, DoubtsOk, Sourced, PendingOk, FatalOk, Dated, Onward, Excuse, Trouble, DarwinLineage.ProofsOk,
        DarwinLineage.HistoryOk, DarwinLineage.RosterOk;
      var t := Next();
      if !t.finite {
        RaisedExcuses(turn - 1, turn - 1);
        return Some(Failure(Structural, false));
      }
      f := if clock < limit then None else Some(Failure(Expired, false));
    }

    /** A later outcome, seen from an earlier turn. */
    lemma RanSince(f: Option<Failure>, limit: nat, from: nat, later: nat)
      requires Ran(f, limit, later) && from <= later
      ensures Ran(f, limit, from)
    {
      hide Excuse;
      if f.Some? && f.value.fault == Structural { ExcuseSince(from, later); }
    }

    /** A signal that may not have arrived stays pending until its lifetime is seen to have ended; an empty
        census or a failed token is no such sight. */
    method Reconcile(limit: nat) returns (f: Option<Failure>)
      requires Valid() && Prompt(limit)
      modifies this`turn, this`clock, this`stamps, this`reading, this`signals, this`log
      ensures Valid() && Onward(old(Now()), Now()) && Ran(f, limit, old(turn)) && log.doubt == old(log).doubt
      ensures signals <= old(signals) && forall k <- old(signals) | k !in signals :: Since(log.gone, k, old(turn))
      ensures f.None? ==> forall k <- signals :: Since(log.alive, k, old(turn))
    {
      hide Truthful, DoubtsOk, Sourced, PendingOk, FatalOk, Dated, Onward, Excuse, Ran, Forward,
        DarwinLineage.ProofsOk, DarwinLineage.HistoryOk, DarwinLineage.RosterOk;
      ghost var start := Now();
      OnwardSame(start);
      var todo := signals;
      while todo != {}
        invariant Valid() && Onward(start, Now()) && signals <= old(signals) && todo <= signals && log.doubt == old(log).doubt
        invariant Prompt(limit)
        invariant forall k <- old(signals) | k !in signals :: Since(log.gone, k, start.turn)
        invariant forall k <- signals | k !in todo :: Since(log.alive, k, start.turn)
      {
        var key :| key in todo;
        ghost var was := Now();
        OnwardMeans(start, was);
        var ended;
        f, ended := LookAt(key, limit);
        OnwardMeans(was, Now());
        OnwardTwice(start, was, Now());
        StillSince(was.log, log);
        RanSince(f, limit, start.turn, was.turn);
        if f.Some? { return; }
        RanMeans(f, limit, start.turn);
        todo := todo - {key};
      }
      f := None;
      RanNow(limit, start.turn);
    }

    lemma RanMeans(f: Option<Failure>, limit: nat, from: nat)
      requires Ran(f, limit, from)
      ensures f.None? ==> Prompt(limit)
      ensures f == Some(Failure(Expired, false)) ==> limit <= clock
      ensures f.Some? && f.value.fault == Structural ==> Excuse(from)
    {
    }

    lemma RanNow(limit: nat, from: nat)
      requires Prompt(limit)
      ensures Ran(None, limit, from)
    {
    }

    /** Look at one lifetime between two timely readings; drop its pending signal only if it has ended. */
    method LookAt(key: Key, limit: nat) returns (f: Option<Failure>, ended: bool)
      requires Valid()
      modifies this`turn, this`clock, this`stamps, this`reading, this`signals, this`log
      ensures Valid() && Onward(old(Now()), Now()) && Ran(f, limit, old(turn)) && log.doubt == old(log).doubt
      ensures f.Some? ==> signals == old(signals)
      ensures f.None? ==> signals == old(signals) - if ended then {key} else {}
      ensures f.None? ==> if ended then Since(log.gone, key, old(turn)) else Since(log.alive, key, old(turn))
    {
      hide Truthful, DoubtsOk, Sourced, PendingOk, FatalOk, Dated, Onward, Excuse, Forward, DarwinLineage.ProofsOk,
        DarwinLineage.HistoryOk, DarwinLineage.RosterOk;
      ghost var start := Now();
      ended := false;
      f := Check(limit);
      if f.Some? { return; }
      ghost var at, read := turn, Now();
      Earlier(host, at, log, key);
      var t := Next();
      ghost var seen := Now();
      OnwardTwice(start, read, seen);
      if t.raised.Some? {
        RaisedExcuses(at, start.turn);
        return Some(Failure(Structural, t.raised.value)), ended;
      }
      f := Check(limit);
      OnwardTwice(start, seen, Now());
      RanSince(f, limit, start.turn, seen.turn);
      if f.Some? { return; }
      ended := !Alive(t, key);
      Saw(start, key, at, ended);
    }

    /** What turn `at` showed of a lifetime. */
    method Saw(ghost start: Past, key: Key, ghost at: nat, ended: bool)
      requires Valid() && Onward(start, Now()) && at < turn && ended == !Alive(host(at), key)
      requires (key in log.gone ==> log.gone[key] <= at) && (key in log.alive ==> log.alive[key] <= at)
      requires key in log.doubt ==> log.doubt[key] < at
      modifies this`signals, this`log
      ensures Valid() && Onward(start, Now()) && signals == old(signals) - if ended then {key} else {}
      ensures log == if ended then old(log).(gone := old(log).gone[key := at]) else old(log).(alive := old(log).alive[key := at])
    {
      hide Truthful, DoubtsOk, Sourced, PendingOk, FatalOk, Dated, Onward, Forward, DarwinLineage.ProofsOk,
        DarwinLineage.HistoryOk, DarwinLineage.RosterOk;
      ghost var was := Now();
      if ended {
        SawGone(host, turn, log, at, key, signals);
        log := log.(gone := log.gone[key := at]);
        signals := signals - {key};
      } else {
        SawAlive(host, turn, log, at, key);
        log := log.(alive := log.alive[key := at]);
      }
      OnwardLogged(was, Now());
      OnwardTwice(start, was, Now());
    }

    /** Signal one known lifetime through a fresh token; the turn just before the dispatch read a clock below the
        limit. `at` is the turn of the token or the reply that decided. */
    method Send(key: Key, signum: nat, limit: nat) returns (f: Option<Failure>, ghost at: nat)
      requires Valid() && key in lineage.known
      modifies this`turn, this`clock, this`stamps, this`reading, this`sends, this`log
      ensures Valid() && Onward(old(Now()), Now()) && Ran(f, limit, old(turn))
      ensures log.doubt == old(log).doubt && old(turn) <= at
      ensures Timed(old(sends), sends, signum, limit, old(clock)) && forall d <- sends | d !in old(sends) :: d.target == key
      ensures f.None? ==> Reached(key, signum, old(turn))
      ensures f == Some(Failure(Gone, false)) ==> Since(log.missed, key, old(turn))
      ensures f == Some(Failure(Exhausted, false)) ==> at < turn && host(at).token(key) == TokenExhausted
    {
      hide Truthful, DoubtsOk, Sourced, PendingOk, FatalOk, Dated, Onward, Excuse, Forward, Timed,
        DarwinLineage.ProofsOk, DarwinLineage.HistoryOk, DarwinLineage.RosterOk;
      ghost var start := Now();
      TimedNone(sends, signum, limit, clock);
      at := turn;
      f := Check(limit);
      if f.Some? { return; }
      at := turn;
      ghost var read := Now();
      OnwardMeans(start, read);
      Earlier(host, at, log, key);
      var t := Next();
      ghost var seen := Now();
      OnwardMeans(read, seen);
      OnwardTwice(start, read, seen);
      if t.raised.Some? {
        RaisedExcuses(at, start.turn);
        return Some(Failure(Structural, t.raised.value)), at;
      }
      var token := t.token(key);
      if token == TargetGone {
        Miss(start, key, at);
        return Some(Failure(Gone, false)), at;
      }
      if token == TokenExhausted { return Some(Failure(Exhausted, false)), at; }
      f, at := SendChecked(start, key, signum, limit);
    }

    /** The target was gone in turn `at`. */
    method Miss(ghost start: Past, key: Key, ghost at: nat)
      requires Valid() && Onward(start, Now()) && at < turn && host(at).token(key) == TargetGone
      requires key in log.missed ==> log.missed[key] <= at
      modifies this`log
      ensures Valid() && Onward(start, Now()) && log == old(log).(missed := old(log).missed[key := at])
    {
      hide Truthful, DoubtsOk, Sourced, PendingOk, FatalOk, Dated, Onward, Forward, DarwinLineage.ProofsOk,
        DarwinLineage.HistoryOk, DarwinLineage.RosterOk;
      ghost var was := Now();
      SawMissed(host, turn, log, at, key);
      KeepsDoubts(log, log.(missed := log.missed[key := at]), signals);
      log := log.(missed := log.missed[key := at]);
      OnwardLogged(was, Now());
      OnwardTwice(start, was, Now());
    }

    /** The second reading, then the dispatch. */
    method SendChecked(ghost start: Past, key: Key, signum: nat, limit: nat) returns (f: Option<Failure>, ghost at: nat)
      requires Valid() && key in lineage.known && Onward(start, Now()) && sends == start.sends
      modifies this`turn, this`clock, this`stamps, this`reading, this`sends, this`log
      ensures Valid() && Onward(start, Now()) && Ran(f, limit, start.turn)
      ensures log.doubt == old(log).doubt && start.turn <= at
      ensures Timed(start.sends, sends, signum, limit, start.clock) && forall d <- sends | d !in start.sends :: d.target == key
      ensures f.None? ==> Reached(key, signum, start.turn)
      ensures f == Some(Failure(Gone, false)) ==> Since(log.missed, key, start.turn)
      ensures f.Some? ==> f.value.fault != Exhausted
    {
      hide Truthful, DoubtsOk, Sourced, PendingOk, FatalOk, Dated, Onward, Excuse, Forward, Timed,
        DarwinLineage.ProofsOk, DarwinLineage.HistoryOk, DarwinLineage.RosterOk;
      ghost var was := Now();
      OnwardMeans(start, was);
      TimedNone(sends, signum, limit, start.clock);
      at := turn;
      f := Check(limit);
      ghost var read := Now();
      OnwardMeans(was, read);
      OnwardTwice(start, was, read);
      RanSince(f, limit, start.turn, was.turn);
      if f.Some? { return; }
      f, at := Deliver(key, signum, limit);
      OnwardTwice(start, read, Now());
      RanSince(f, limit, start.turn, read.turn);
      TimedEarlier(start.sends, sends, signum, limit, start.clock, read.clock);
      ReachedEarlier(key, signum, start.turn, read.turn);
    }

    lemma TimedEarlier(a: set<Dispatch>, b: set<Dispatch>, signum: nat, limit: nat, from: nat, later: nat)
      requires Timed(a, b, signum, limit, later) && from <= later
      ensures Timed(a, b, signum, limit, from)
    {
    }

    /** The lifetime was dispatched to and delivered to, no earlier than this turn. */
    ghost predicate Reached(key: Key, signum: nat, from: nat)
      reads this`sends, this`log
    {
      && Since(log.reached, key, from)
      && exists d <- sends :: d.target == key && d.signum == signum && from <= d.turn && host(d.turn).reply(key) == Sent
    }

    lemma ReachedEarlier(key: Key, signum: nat, from: nat, later: nat)
      requires from <= later
      ensures Reached(key, signum, later) ==> Reached(key, signum, from)
    {
    }

    /** Use the token. */
    method Deliver(key: Key, signum: nat, limit: nat) returns (f: Option<Failure>, ghost at: nat)
      requires Valid() && key in lineage.known && Prompt(limit) && reading == Some(clock)
      modifies this`turn, this`clock, this`stamps, this`reading, this`sends, this`log
      ensures Valid() && Onward(old(Now()), Now()) && Ran(f, limit, old(turn))
      ensures log.doubt == old(log).doubt && at == old(turn)
      ensures Timed(old(sends), sends, signum, limit, old(clock)) && forall d <- sends | d !in old(sends) :: d.target == key
      ensures f.None? ==> Reached(key, signum, old(turn))
      ensures f == Some(Failure(Gone, false)) ==> Since(log.missed, key, old(turn))
      ensures f.Some? ==> f.value.fault != Exhausted
    {
      hide Truthful, DoubtsOk, Sourced, PendingOk, FatalOk, Dated, Onward, Excuse, Forward, Trouble,
        DarwinLineage.ProofsOk, DarwinLineage.HistoryOk, DarwinLineage.RosterOk;
      ghost var start := Now();
      at := turn;
      var reply := Answer(key, signum);
      ghost var was := Now();
      if reply == Refused {
        RefusedReply(at, key);
        return Some(Failure(Structural, false)), at;
      }
      f := Check(limit);
      OnwardTwice(start, was, Now());
      RanSince(f, limit, start.turn, was.turn);
      if f.None? && reply == Missed { f := Some(Failure(Gone, false)); }
    }

    lemma RefusedReply(t: nat, key: Key)
      requires t < turn && host(t).reply(key) == Refused
      ensures Excuse(t)
    {
      TroubleExcuses(t, t);
    }

    /** The dispatch itself, and the kernel's reply and what it means. */
    method Answer(key: Key, signum: nat) returns (reply: Reply)
      requires Valid() && key in lineage.known
      modifies this`turn, this`clock, this`stamps, this`reading, this`sends, this`log
      ensures Valid() && Onward(old(Now()), Now()) && log.doubt == old(log).doubt && turn == old(turn) + 1
      ensures reply == host(old(turn)).reply(key)
      ensures sends == old(sends) + {Dispatch(key, signum, old(turn), old(reading))}
      ensures reply == Sent ==> Since(log.reached, key, old(turn))
      ensures reply == Missed ==> Since(log.missed, key, old(turn))
    {
      hide Truthful, DoubtsOk, Sourced, PendingOk, FatalOk, Dated, Onward, Forward, DarwinLineage.ProofsOk,
        DarwinLineage.HistoryOk, DarwinLineage.RosterOk;
      ghost var start, at, after := Now(), turn, reading;
      Earlier(host, at, log, key);
      var t := Next();
      reply := t.reply(key);
      ghost var was := Now();
      DatedSend(sends, stamps, lineage.known.Keys, turn, Dispatch(key, signum, at, after));
      sends := sends + {Dispatch(key, signum, at, after)};
      if reply == Sent {
        SawReached(host, turn, log, at, key, signals);
        log := log.(reached := log.reached[key := at]);
      } else if reply == Missed {
        SawMissed(host, turn, log, at, key);
        KeepsDoubts(log, log.(missed := log.missed[key := at]), signals);
        log := log.(missed := log.missed[key := at]);
      } else {
        ForwardSame(log);
      }
      OnwardSent(was, Now());
      OnwardTwice(start, was, Now());
    }

    /** Signal one lifetime of a census, and keep the record of signals that may not have arrived: a delivery
        clears it, an exhausted token sets it, and a send that found nobody makes every pending signal be looked
        at. */
    method SignalOne(key: Key, signum: nat, limit: nat) returns (f: Option<Failure>, ghost outcome: Sending)
      requires Valid() && key in lineage.known
      modifies this`turn, this`clock, this`stamps, this`reading, this`sends, this`signals, this`evidence, this`log
      ensures Valid() && Onward(old(Now()), Now()) && Ran(f, limit, old(turn))
      ensures Timed(old(sends), sends, signum, limit, old(clock)) && forall d <- sends | d !in old(sends) :: d.target == key
      ensures f.None? ==>
        match outcome
        case Delivered => Reached(key, signum, old(turn)) && signals == old(signals) - {key}
        case Doubtful => Since(log.doubt, key, old(turn)) && signals == old(signals) + {key}
        case Nobody =>
          && Since(log.missed, key, old(turn)) && signals <= old(signals)
          && (forall k <- old(signals) | k !in signals :: Since(log.gone, k, old(turn)))
          && (forall k <- signals :: Since(log.alive, k, old(turn)))
    {
      hide Truthful, DoubtsOk, Sourced, PendingOk, FatalOk, Dated, Onward, Excuse, Forward, Timed, Ran,
        DarwinLineage.ProofsOk, DarwinLineage.HistoryOk, DarwinLineage.RosterOk;
      outcome := Delivered;
      ghost var start := Now();
      TimedNone(sends, signum, limit, clock);
      f := Check(limit);
      if f.Some? { return; }
      ghost var read := Now();
      OnwardMeans(start, read);
      Earlier(host, turn, log, key);
      ghost var at;
      f, at := Send(key, signum, limit);
      ghost var sent := Now();
      OnwardMeans(read, sent);
      OnwardTwice(start, read, sent);
      TimedEarlier(start.sends, sends, signum, limit, start.clock, read.clock);
      RanSince(f, limit, start.turn, read.turn);
      f, outcome := Settle(key, limit, f, at, start.turn);
      OnwardMeans(sent, Now());
      OnwardTwice(start, sent, Now());
      StillSince(sent.log, log);
      SinceEarlier(log, sent.turn, start.turn);
    }

    /** What a send means for the pending signals: `sent` is how it failed, if it did. */
    method Settle(key: Key, limit: nat, sent: Option<Failure>, ghost at: nat, ghost from: nat)
      returns (f: Option<Failure>, ghost outcome: Sending)
      requires Valid() && Ran(sent, limit, from) && from <= turn
      requires sent.None? && key in log.doubt ==> Since(log.reached, key, log.doubt[key] + 1)
      requires sent == Some(Failure(Exhausted, false)) ==>
        at < turn && host(at).token(key) == TokenExhausted && (key in log.doubt ==> log.doubt[key] <= at)
      modifies this`turn, this`clock, this`stamps, this`reading, this`signals, this`evidence, this`log
      ensures Valid() && Onward(old(Now()), Now()) && Ran(f, limit, from)
      ensures outcome == if sent.None? then Delivered else if sent.value.fault == Exhausted then Doubtful else Nobody
      ensures f.None? ==>
        match outcome
        case Delivered => signals == old(signals) - {key}
        case Doubtful => sent == Some(Failure(Exhausted, false)) && Since(log.doubt, key, at) && signals == old(signals) + {key}
        case Nobody =>
          && sent == Some(Failure(Gone, false)) && signals <= old(signals)
          && (forall k <- old(signals) | k !in signals :: Since(log.gone, k, old(turn)))
          && (forall k <- signals :: Since(log.alive, k, old(turn)))
    {
      hide Truthful, DoubtsOk, Sourced, PendingOk, FatalOk, Dated, Onward, Excuse, Forward, Ran,
        DarwinLineage.ProofsOk, DarwinLineage.HistoryOk, DarwinLineage.RosterOk;
      ghost var start := Now();
      OnwardSame(start);
      outcome := if sent.None? then Delivered else if sent.value.fault == Exhausted then Doubtful else Nobody;
      if sent.None? {
        f := Clear(key, limit);
      } else if sent == Some(Failure(Gone, false)) {
        f := LookAtAll(limit);
      } else if sent == Some(Failure(Exhausted, false)) {
        f := Doubt(key, limit, at);
      } else {
        return sent, outcome;
      }
      RanSince(f, limit, from, start.turn);
      if f.None? {
        ghost var was := Now();
        OnwardMeans(start, was);
        f := Check(limit);
        OnwardTwice(start, was, Now());
        RanSince(f, limit, from, was.turn);
      }
    }

    /** After a delivery the signal is not pending, unless time ran out first. */
    method Clear(key: Key, limit: nat) returns (f: Option<Failure>)
      requires Valid() && (key in log.doubt ==> Since(log.reached, key, log.doubt[key] + 1))
      modifies this`turn, this`clock, this`stamps, this`reading, this`signals
      ensures Valid() && Onward(old(Now()), Now()) && Ran(f, limit, old(turn)) && log == old(log)
      ensures signals == old(signals) - if f.None? then {key} else {}
    {
      hide Truthful, DoubtsOk, Sourced, PendingOk, FatalOk, Dated, Onward, Excuse, Forward, DarwinLineage.ProofsOk,
        DarwinLineage.HistoryOk, DarwinLineage.RosterOk;
      f := Check(limit);
      if f.None? {
        DropReached(signals, log, key);
        signals := signals - {key};
      }
    }

    /** An exhausted send is pending from now on. */
    method Doubt(key: Key, limit: nat, ghost at: nat) returns (f: Option<Failure>)
      requires Valid() && at < turn && host(at).token(key) == TokenExhausted && (key in log.doubt ==> log.doubt[key] <= at)
      modifies this`turn, this`clock, this`stamps, this`reading, this`signals, this`evidence, this`log
      ensures Valid() && Onward(old(Now()), Now()) && Ran(f, limit, old(turn))
      ensures f.None? ==> Since(log.doubt, key, at) && signals == old(signals) + {key}
    {
      hide Truthful, DoubtsOk, Sourced, PendingOk, FatalOk, Dated, Onward, Excuse, Forward, DarwinLineage.ProofsOk,
        DarwinLineage.HistoryOk, DarwinLineage.RosterOk;
      ghost var start := Now();
      OnwardSame(start);
      if key !in signals {
        if evidence >= MAX_EVIDENCE {
          FullExcuses(turn);
          return Some(Failure(Structural, false));
        }
        evidence := evidence + 1;
      }
      ghost var counted := Now();
      OnwardGrown(start, counted);
      SawDoubt(host, turn, log, at, key, signals);
      signals := signals + {key};
      log := log.(doubt := log.doubt[key := at]);
      ghost var was := Now();
      OnwardLogged(counted, was);
      OnwardTwice(start, counted, was);
      f := Check(limit);
      OnwardTwice(start, was, Now());
    }

    /** After a send that found nobody: check, then look at every pending signal. */
    method LookAtAll(limit: nat) returns (f: Option<Failure>)
      requires Valid()
      modifies this`turn, this`clock, this`stamps, this`reading, this`signals, this`log
      ensures Valid() && Onward(old(Now()), Now()) && Ran(f, limit, old(turn)) && log.doubt == old(log).doubt
      ensures signals <= old(signals) && forall k <- old(signals) | k !in signals :: Since(log.gone, k, old(turn))
      ensures f.None? ==> forall k <- signals :: Since(log.alive, k, old(turn))
    {
      hide Truthful, DoubtsOk, Sourced, PendingOk, FatalOk, Dated, Onward, Excuse, Forward, Ran,
        DarwinLineage.ProofsOk, DarwinLineage.HistoryOk, DarwinLineage.RosterOk;
      ghost var start := Now();
      f := Check(limit);
      if f.Some? { return; }
      RanMeans(f, limit, start.turn);
      ghost var was := Now();
      OnwardMeans(start, was);
      f := Reconcile(limit);
      OnwardTwice(start, was, Now());
      RanSince(f, limit, start.turn, was.turn);
      SinceEarlier(log, was.turn, start.turn);
    }

    /** Signal every known lifetime that a fresh, timely census still sees: afterwards each known lifetime was
        answered for, or was just seen ended. */
    method SignalAll(signum: nat, limit: nat) returns (f: Option<Failure>)
      requires Valid()
      modifies this`turn, this`clock, this`stamps, this`reading,
        this`pending, this`errors, this`reconciliations, this`fatal,
        this`sends, this`signals, this`evidence, this`log
      modifies lineage`history, lineage`trail, this`source, lineage`known, lineage`proofs, lineage`foreign
      ensures Valid() && Onward(old(Now()), Now()) && Ran(f, limit, old(turn))
      ensures Timed(old(sends), sends, signum, limit, old(clock))
      ensures f.None? ==> forall k <- lineage.known :: Answered(log, k, old(turn)) || Since(log.gone, k, old(turn))
    {
      hide Truthful, DoubtsOk, Sourced, PendingOk, FatalOk, Dated, Onward, Excuse, Forward, Timed, Ran,
        DarwinLineage.ProofsOk, DarwinLineage.HistoryOk, DarwinLineage.RosterOk, SurveyedIn;
      ghost var start := Now();
      TimedNone(sends, signum, limit, clock);
      f := Check(limit);
      if f.Some? { return; }
      ghost var read := Now();
      OnwardMeans(start, read);
      var live := Discover();
      ghost var was := Now();
      OnwardMeans(read, was);
      OnwardTwice(start, read, was);
      if live.Err? {
        RaisedRan(live.error, limit, start.turn, read.turn);
        return Some(live.error);
      }
      f := SignalSeen(live.value, signum, limit);
      OnwardMeans(was, Now());
      OnwardTwice(start, was, Now());
      RanSince(f, limit, start.turn, was.turn);
      TimedEarlier(start.sends, sends, signum, limit, start.clock, was.clock);
      StillSince(was.log, log);
      SinceEarlier(log, read.turn, start.turn);
    }

    lemma RaisedRan(e: Failure, limit: nat, from: nat, later: nat)
      requires e.fault == Structural && Excuse(later) && from <= later
      ensures Ran(Some(e), limit, from)
    {
      hide Excuse;
      ExcuseSince(from, later);
    }

    /** The census is used only if it was timely and the pending signals were looked at. */
    method SignalSeen(live: set<Key>, signum: nat, limit: nat) returns (f: Option<Failure>)
      requires Valid() && (forall k <- live :: k in lineage.known)
      modifies this`turn, this`clock, this`stamps, this`reading, this`sends, this`signals, this`evidence, this`log
      ensures Valid() && Onward(old(Now()), Now()) && Ran(f, limit, old(turn))
      ensures Timed(old(sends), sends, signum, limit, old(clock))
      ensures f.None? ==> forall k <- live :: Answered(log, k, old(turn))
    {
      hide Truthful, DoubtsOk, Sourced, PendingOk, FatalOk, Dated, Onward, Excuse, Forward, Timed, Ran,
        DarwinLineage.ProofsOk, DarwinLineage.HistoryOk, DarwinLineage.RosterOk;
      ghost var start := Now();
      TimedNone(sends, signum, limit, clock);
      f := LookAtAll(limit);
      ghost var looked := Now();
      OnwardMeans(start, looked);
      if f.Some? { return; }
      f := Check(limit);
      ghost var was := Now();
      OnwardTwice(start, looked, was);
      OnwardMeans(start, was);
      RanSince(f, limit, start.turn, looked.turn);
      if f.Some? { return; }
      RanMeans(f, limit, start.turn);
      f := SignalEach(live, signum, limit);
      OnwardTwice(start, was, Now());
      RanSince(f, limit, start.turn, was.turn);
      TimedEarlier(start.sends, sends, signum, limit, start.clock, was.clock);
    }

    method SignalEach(live: set<Key>, signum: nat, limit: nat) returns (f: Option<Failure>)
      requires Valid() && (forall k <- live :: k in lineage.known) && Prompt(limit)
      modifies this`turn, this`clock, this`stamps, this`reading, this`sends, this`signals, this`evidence, this`log
      ensures Valid() && Onward(old(Now()), Now()) && Ran(f, limit, old(turn))
      ensures Timed(old(sends), sends, signum, limit, old(clock))
      ensures f.None? ==> forall k <- live :: Answered(log, k, old(turn))
    {
      hide Truthful, DoubtsOk, Sourced, PendingOk, FatalOk, Dated, Onward, Excuse, Forward, Timed, Ran,
        DarwinLineage.ProofsOk, DarwinLineage.HistoryOk, DarwinLineage.RosterOk;
      ghost var start := Now();
      OnwardSame(start);
      TimedNone(sends, signum, limit, clock);
      var todo := live;
      while todo != {}
        invariant Valid() && Onward(start, Now()) && todo <= live && Prompt(limit)
        invariant Timed(start.sends, sends, signum, limit, start.clock)
        invariant forall k <- live | k !in todo :: Answered(log, k, start.turn)
      {
        var key :| key in todo;
        todo := todo - {key};
        ghost var was, outcome := Now(), Delivered;
        OnwardMeans(start, was);
        f, outcome := SignalOne(key, signum, limit);
        OnwardMeans(was, Now());
        OnwardTwice(start, was, Now());
        StillSince(was.log, log);
        TimedTwice(start.sends, was.sends, sends, signum, limit, start.clock, was.clock);
        RanSince(f, limit, start.turn, was.turn);
        if f.Some? { return; }
        RanMeans(f, limit, start.turn);
      }
      f := None;
      RanNow(limit, start.turn);
    }

    // ----- the drain -----

    /** Nothing is known to run, and nothing is undecided. */
    predicate Clean(live: set<Key>)
      reads this
    {
      live == {} && signals == {} && errors == {} && pending == map[]
    }

    /** Every known lifetime was seen ended, no earlier than this turn. */
    ghost predicate Ended(from: nat)
      reads this, lineage
    {
      forall k <- lineage.known :: Since(log.gone, k, from)
    }

    /** The streak of clean censuses since turn `from`, as the host's turns bear it out. */
    ghost predicate InARow(from: nat, end: nat)
      reads this, lineage
    {
      Streak(Sight(), stamps, sends, rounds, from, end) && (rounds != [] ==> rounds[|rounds| - 1].closing.turn < turn)
    }

    /** This census is the last accepted one. */
    ghost predicate IsAccepted(live: set<Key>, from: nat, end: nat)
      reads this, lineage
    {
      && accepted.Some? && accepted.value.live == live && accepted.value.known <= lineage.known.Keys
      && RoundOk(Sight(), stamps, accepted.value, from, end)
    }

    /** There is an accepted census. */
    ghost predicate Holding(from: nat, end: nat)
      reads this, lineage
    {
      accepted.Some? && IsAccepted(accepted.value.live, from, end)
    }

    lemma HoldingStays(stamps0: set<Stamp>, known: set<Key>, from: nat, end: nat)
      requires accepted.Some? && accepted.value.known <= known && RoundOk(Sight(), stamps0, accepted.value, from, end)
      requires stamps0 <= stamps && known <= lineage.known.Keys
      ensures Holding(from, end)
    {
      hide RoundOk;
      RoundStays(Sight(), stamps0, stamps, accepted.value, from, end);
    }

    /** The census itself, accepted only between two timely readings. */
    method TakeCensus(end: nat, ghost from: nat) returns (r: Result<set<Key>, Failure>)
      requires Valid() && from <= turn
      modifies this`turn, this`clock, this`stamps, this`reading,
        this`pending, this`errors, this`reconciliations, this`fatal,
        this`log, this`accepted
      modifies lineage`history, lineage`trail, this`source, lineage`known, lineage`proofs, lineage`foreign
      ensures Valid() && Onward(old(Now()), Now())
      ensures r.Err? ==> Ran(Some(r.error), end, old(turn)) && accepted == old(accepted)
      ensures r.Ok? ==>
        && Prompt(end) && old(clock) < end && IsAccepted(r.value, from, end) && accepted.value.known == lineage.known.Keys
        && accepted.value.opening.turn == old(turn) && accepted.value.closing.turn < turn
        && Surveyed() && old(turn) <= source.surveyed && (r.value == {} ==> Ended(old(turn)))
        && (forall k <- r.value :: k in lineage.known)
    {
      hide Truthful, DoubtsOk, Sourced, PendingOk, FatalOk, Dated, Onward, Excuse, Forward, DarwinLineage.ProofsOk,
        DarwinLineage.HistoryOk, DarwinLineage.RosterOk, SurveyedIn, RoundOk, Since, Trouble, Ran;
      ghost var start := Now();
      var f := Check(end);
      if f.Some? { return Err(f.value); }
      ghost var read, opening := Now(), Stamp(start.turn, clock);
      OnwardMeans(start, read);
      r := Discover();
      ghost var listed := Now();
      OnwardMeans(read, listed);
      OnwardTwice(start, read, listed);
      if r.Err? {
        RaisedRan(r.error, end, start.turn, read.turn);
        return;
      }
      f := Check(end);
      OnwardMeans(listed, Now());
      OnwardTwice(start, listed, Now());
      RanMeans(f, end, listed.turn);
      if f.Some? {
        RanSince(f, end, start.turn, listed.turn);
        r := Err(f.value);
        return;
      }
      ghost var round := Round(opening, Stamp(listed.turn, clock), lineage.known.Keys, r.value, log.gone, log.alive,
                               source);
      Witnessed(round, from, end);
      accepted := Some(round);
      SinceEarlier(log, read.turn, start.turn);
    }

    /** The census just taken is borne out by the host's turns. */
    lemma Witnessed(r: Round, from: nat, end: nat)
      requires Valid() && r.opening in stamps && r.closing in stamps && r.opening.at < end && r.closing.at < end
      requires r.source == source && r.known == lineage.known.Keys && r.gone == log.gone && r.alive == log.alive
      requires source.surveyed == r.opening.turn + 1 && from <= r.opening.turn && r.closing.turn == turn - 1
      requires Truthful(host, turn - 1, log) && Sourced(host, turn - 1, source, before, lineage.trail)
      requires Surveyed() && r.opening.turn + 1 < r.closing.turn
      requires forall k <- r.live :: k in r.known && Since(log.alive, k, r.opening.turn + 1)
      requires forall k <- r.known | k !in r.live :: Since(log.gone, k, r.opening.turn + 1)
      ensures RoundOk(Sight(), stamps, r, from, end)
    {
      hide SurveyedIn, Alive, PendingOk, FatalOk, DoubtsOk, Dated;
    }

    /** A census between two readings before the phase end, then the pending signals. */
    method QuietCensus(end: nat, ghost from: nat) returns (r: Result<set<Key>, Failure>, live: Option<set<Key>>)
      requires Valid() && InARow(from, end) && from <= turn
      modifies this`turn, this`clock, this`stamps, this`reading,
        this`pending, this`errors, this`reconciliations, this`fatal,
        this`signals, this`log, this`accepted, this`rounds
      modifies lineage`history, lineage`trail, this`source, lineage`known, lineage`proofs, lineage`foreign
      ensures Valid() && Onward(old(Now()), Now()) && sends == old(sends)
      ensures r.Err? ==> Ran(Some(r.error), end, old(turn))
      ensures if live.Some? then IsAccepted(live.value, from, end) else accepted == old(accepted)
      ensures r.Ok? ==>
        && live == Some(r.value) && Prompt(end) && InARow(from, end)
        && |rounds| == (if Clean(r.value) then |old(rounds)| + 1 else 0)
        && Surveyed() && old(turn) <= source.surveyed && (Clean(r.value) ==> Ended(old(turn)))
    {
      hide Truthful, DoubtsOk, Sourced, PendingOk, FatalOk, Dated, Onward, Excuse, Forward, Ran,
        DarwinLineage.ProofsOk, DarwinLineage.HistoryOk, DarwinLineage.RosterOk, SurveyedIn, RoundOk, Streak;
      ghost var start := Now();
      PastSends();
      r, live := LookedCensus(end, from);
      OnwardMeans(start, Now());
      if r.Ok? { Count(r.value, start, from, end); }
    }

    lemma PastSends()
      requires Valid()
      ensures forall d <- sends :: d.turn < turn
    {
      hide Truthful, DoubtsOk, Sourced, PendingOk, FatalOk, DarwinLineage.ProofsOk, DarwinLineage.HistoryOk,
        DarwinLineage.RosterOk;
    }

    method LookedCensus(end: nat, ghost from: nat) returns (r: Result<set<Key>, Failure>, live: Option<set<Key>>)
      requires Valid() && from <= turn
      modifies this`turn, this`clock, this`stamps, this`reading,
        this`pending, this`errors, this`reconciliations, this`fatal,
        this`signals, this`log, this`accepted
      modifies lineage`history, lineage`trail, this`source, lineage`known, lineage`proofs, lineage`foreign
      ensures Valid() && Onward(old(Now()), Now())
      ensures r.Err? ==> Ran(Some(r.error), end, old(turn))
      ensures if live.Some? then IsAccepted(live.value, from, end) else accepted == old(accepted)
      ensures r.Ok? ==>
        && live == Some(r.value) && Prompt(end) && accepted.value.opening.turn == old(turn)
        && accepted.value.closing.turn < turn
        && Surveyed() && old(turn) <= source.surveyed && (r.value == {} ==> Ended(old(turn)))
    {
      hide Truthful, DoubtsOk, Sourced, PendingOk, FatalOk, Dated, Onward, Excuse, Forward, Ran,
        DarwinLineage.ProofsOk, DarwinLineage.HistoryOk, DarwinLineage.RosterOk, SurveyedIn, RoundOk;
      ghost var start := Now();
      live := None;
      r := TakeCensus(end, from);
      if r.Err? { return; }
      live := Some(r.value);
      ghost var taken := Now();
      OnwardMeans(start, taken);
      var f := LookAround(end);
      OnwardMeans(taken, Now());
      OnwardTwice(start, taken, Now());
      StillSince(taken.log, log);
      RoundStays(Sight(), taken.stamps, stamps, accepted.value, from, end);
      RanSince(f, end, start.turn, taken.turn);
      RanMeans(f, end, start.turn);
      if f.Some? { return Err(f.value), live; }
    }

    /** Look at every pending signal, then read the clock. */
    method LookAround(end: nat) returns (f: Option<Failure>)
      requires Valid() && Prompt(end)
      modifies this`turn, this`clock, this`stamps, this`reading, this`signals, this`log
      ensures Valid() && Onward(old(Now()), Now()) && Ran(f, end, old(turn)) && signals <= old(signals)
    {
      hide Truthful, DoubtsOk, Sourced, PendingOk, FatalOk, Dated, Onward, Excuse, Forward, Ran,
        DarwinLineage.ProofsOk, DarwinLineage.HistoryOk, DarwinLineage.RosterOk;
      ghost var start := Now();
      f := Reconcile(end);
      if f.Some? { return; }
      ghost var was := Now();
      OnwardMeans(start, was);
      f := Check(end);
      OnwardTwice(start, was, Now());
      RanSince(f, end, start.turn, was.turn);
    }

    /** A clean census lengthens the streak; any other ends it. */
    method Count(live: set<Key>, ghost start: Past, ghost from: nat, ghost end: nat)
      requires Valid() && Streak(Sight(), start.stamps, start.sends, rounds, from, end) && start.sends == sends
      requires rounds != [] ==> rounds[|rounds| - 1].closing.turn < start.turn
      requires start.stamps <= stamps && IsAccepted(live, from, end) && accepted.value.opening.turn == start.turn
      requires accepted.value.closing.turn < turn && forall d <- sends :: d.turn < start.turn
      modifies this`rounds
      ensures Valid() && InARow(from, end) && |rounds| == if Clean(live) then |old(rounds)| + 1 else 0
    {
      hide Truthful, DoubtsOk, Sourced, PendingOk, FatalOk, Dated, RoundOk, Streak, DarwinLineage.ProofsOk,
        DarwinLineage.HistoryOk, DarwinLineage.RosterOk;
      if Clean(live) {
        StreakGrows(Sight(), start.stamps, stamps, sends, rounds, accepted.value, from, end);
        rounds := rounds + [accepted.value];
      } else {
        rounds := [];
        StreakNone(Sight(), stamps, sends, from, end);
      }
    }

    /** One round of a phase. A round that does not end the phase has used up time. */
    method DrainRound(signum: nat, end: nat, quiet: nat, ghost from: nat)
      returns (r: PhaseResult, live: Option<set<Key>>, clean: bool)
      requires Valid() && InARow(from, end) && |rounds| == quiet && from <= turn
      modifies this`turn, this`clock, this`stamps, this`reading,
        this`pending, this`errors, this`reconciliations, this`fatal,
        this`sends, this`signals, this`evidence, this`log, this`accepted, this`rounds
      modifies lineage`history, lineage`trail, this`source, lineage`known, lineage`proofs, lineage`foreign
      ensures Valid() && Onward(old(Now()), Now())
      ensures Timed(old(sends), sends, signum, end, old(clock))
      ensures if live.Some? then IsAccepted(live.value, from, end) else accepted == old(accepted)
      ensures r.Retired? ==>
        && Clean({}) && QUIET_REQUIRED <= |rounds| && InARow(from, end) && Prompt(end)
        && Ended(old(turn)) && Surveyed() && old(turn) <= source.surveyed
      ensures r.Continue? ==> old(clock) < end && (old(clock) < clock || end <= clock)
      ensures r.Continue? ==> InARow(from, end) && |rounds| == if clean then quiet + 1 else 0
      ensures r.Continue? && !clean ==>
        forall k <- lineage.known :: Answered(log, k, old(turn)) || Since(log.gone, k, old(turn))
      ensures r.PhaseOver? ==> end <= clock
      ensures r.Raised? ==> r.failure != Failure(Expired, false) && (r.failure.fault == Structural ==> Excuse(old(turn)))
    {
      hide Truthful, DoubtsOk, Sourced, PendingOk, FatalOk, Dated, Onward, Excuse, Forward, Ran, Timed,
        DarwinLineage.ProofsOk, DarwinLineage.HistoryOk, DarwinLineage.RosterOk, SurveyedIn, RoundOk, Streak, Since,
        Answered;
      ghost var start := Now();
      TimedNone(sends, signum, end, clock);
      live, clean := None, false;
      var census;
      census, live := RoundCensus(end, from);
      if census.Err? {
        RanMeans(Some(census.error), end, start.turn);
        return Outcome(census.error), live, clean;
      }
      clean := Clean(census.value);
      if clean && quiet + 1 >= QUIET_REQUIRED {
        r := LastCheck(start, end, from);
        return;
      }
      if !clean {
        var f := SignalRound(start, signum, end, from);
        if f.Some? { return Outcome(f.value), live, clean; }
      }
      OnwardMeans(start, Now());
      RestRound(start, end, from);
      r := Continue;
    }

    /** The census of a round, unless the phase is over. */
    method RoundCensus(end: nat, ghost from: nat) returns (r: Result<set<Key>, Failure>, live: Option<set<Key>>)
      requires Valid() && InARow(from, end) && from <= turn
      modifies this`turn, this`clock, this`stamps, this`reading,
        this`pending, this`errors, this`reconciliations, this`fatal,
        this`signals, this`log, this`accepted, this`rounds
      modifies lineage`history, lineage`trail, this`source, lineage`known, lineage`proofs, lineage`foreign
      ensures Valid() && Onward(old(Now()), Now()) && sends == old(sends)
      ensures r.Err? ==> Ran(Some(r.error), end, old(turn))
      ensures if live.Some? then IsAccepted(live.value, from, end) else accepted == old(accepted)
      ensures r.Ok? ==>
        && old(clock) < end && live == Some(r.value) && Prompt(end) && InARow(from, end)
        && |rounds| == (if Clean(r.value) then |old(rounds)| + 1 else 0)
        && Surveyed() && old(turn) <= source.surveyed && (Clean(r.value) ==> Ended(old(turn)))
    {
      hide Truthful, DoubtsOk, Sourced, PendingOk, FatalOk, Dated, Onward, Excuse, Forward, Ran,
        DarwinLineage.ProofsOk, DarwinLineage.HistoryOk, DarwinLineage.RosterOk, SurveyedIn, RoundOk, Streak;
      ghost var start := Now();
      var t := Next();
      ghost var first := Now();
      OnwardMeans(start, first);
      if clock >= end {
        LateRan(end, start.turn);
        return Err(Failure(Expired, false)), None;
      }
      StreakStays(Sight(), start.stamps, stamps, sends, rounds, from, end);
      r, live := QuietCensus(end, from);
      OnwardTwice(start, first, Now());
      if r.Err? { RanSince(Some(r.error), end, start.turn, first.turn); }
      SinceEarlier(log, first.turn, start.turn);
    }

    lemma LateRan(limit: nat, from: nat)
      requires limit <= clock
      ensures Ran(Some(Failure(Expired, false)), limit, from)
    {
    }

    /** The signals of an unclean round. */
    method SignalRound(ghost start: Past, signum: nat, end: nat, ghost from: nat) returns (f: Option<Failure>)
      requires Valid() && Onward(start, Now()) && rounds == [] && sends == start.sends && Holding(from, end)
      modifies this`turn, this`clock, this`stamps, this`reading,
        this`pending, this`errors, this`reconciliations, this`fatal,
        this`sends, this`signals, this`evidence, this`log
      modifies lineage`history, lineage`trail, this`source, lineage`known, lineage`proofs, lineage`foreign
      ensures Valid() && Onward(start, Now()) && Timed(start.sends, sends, signum, end, start.clock) && InARow(from, end)
      ensures Holding(from, end)
      ensures f.None? ==> forall k <- lineage.known :: Answered(log, k, start.turn) || Since(log.gone, k, start.turn)
      ensures f == Some(Failure(Expired, false)) ==> end <= clock
      ensures f.Some? && f.value.fault == Structural ==> Excuse(start.turn)
    {
      hide Truthful, DoubtsOk, Sourced, PendingOk, FatalOk, Dated, Onward, Excuse, Forward, Ran, Timed,
        DarwinLineage.ProofsOk, DarwinLineage.HistoryOk, DarwinLineage.RosterOk, RoundOk, Streak;
      ghost var was := Now();
      OnwardMeans(start, was);
      f := SignalAll(signum, end);
      OnwardMeans(was, Now());
      OnwardTwice(start, was, Now());
      TimedEarlier(start.sends, sends, signum, end, start.clock, was.clock);
      HoldingStays(was.stamps, was.known, from, end);
      StreakNone(Sight(), stamps, sends, from, end);
      RanSince(f, end, start.turn, was.turn);
      RanMeans(f, end, start.turn);
      SinceEarlier(log, was.turn, start.turn);
    }

    method RestRound(ghost start: Past, end: nat, ghost from: nat)
      requires Valid() && Onward(start, Now()) && InARow(from, end) && Holding(from, end)
      modifies this`turn, this`clock, this`stamps, this`reading
      ensures Valid() && Onward(start, Now()) && InARow(from, end) && Holding(from, end)
      ensures old(clock) < clock || end <= clock
    {
      hide Truthful, DoubtsOk, Sourced, PendingOk, FatalOk, Dated, Onward, Excuse, Forward, DarwinLineage.ProofsOk,
        DarwinLineage.HistoryOk, DarwinLineage.RosterOk, RoundOk, Streak;
      ghost var was := Now();
      Rest(end);
      OnwardMeans(was, Now());
      OnwardTwice(start, was, Now());
      HoldingStays(was.stamps, was.known, from, end);
      StreakStays(Sight(), was.stamps, stamps, sends, rounds, from, end);
    }

    /** After three clean censuses, one last reading decides. */
    method LastCheck(ghost start: Past, end: nat, ghost from: nat) returns (r: PhaseResult)
      requires Valid() && Onward(start, Now()) && InARow(from, end) && Holding(from, end)
      modifies this`turn, this`clock, this`stamps, this`reading
      ensures Valid() && Onward(start, Now()) && InARow(from, end) && Holding(from, end)
      ensures r.Retired? ==> Prompt(end)
      ensures r.Retired? || r.PhaseOver? || r == Raised(Failure(Structural, false))
      ensures r.PhaseOver? ==> end <= clock
      ensures r.Raised? ==> Excuse(start.turn)
    {
      hide Truthful, DoubtsOk, Sourced, PendingOk, FatalOk, Dated, Onward, Excuse, Forward, Ran,
        DarwinLineage.ProofsOk, DarwinLineage.HistoryOk, DarwinLineage.RosterOk, SurveyedIn, RoundOk, Streak;
      ghost var was := Now();
      OnwardMeans(start, was);
      var late := Check(end);
      OnwardMeans(was, Now());
      OnwardTwice(start, was, Now());
      RanSince(late, end, start.turn, was.turn);
      RanMeans(late, end, start.turn);
      HoldingStays(was.stamps, was.known, from, end);
      StreakStays(Sight(), was.stamps, stamps, sends, rounds, from, end);
      r := if late.None? then Retired else Outcome(late.value);
    }

    /** Sleep up to a tenth of a second, but not past the phase end. */
    method Rest(end: nat)
      requires Valid()
      modifies this`turn, this`clock, this`stamps, this`reading
      ensures Valid() && Onward(old(Now()), Now()) && sends == old(sends) && (old(clock) < clock || end <= clock)
    {
      hide Truthful, DoubtsOk, Sourced, PendingOk, FatalOk, Dated, Onward, Forward, DarwinLineage.ProofsOk,
        DarwinLineage.HistoryOk, DarwinLineage.RosterOk;
      ghost var start := Now();
      var t := Next();
      ghost var first := Now();
      OnwardMeans(start, first);
      if clock < end {
        var rest := Min(POLL_NS, end - clock);
        t := Next();
        ghost var was := Now();
        OnwardMeans(first, was);
        OnwardTwice(start, first, was);
        clock, reading := clock + rest, None;
        OnwardSlept(was, Now());
        OnwardTwice(start, was, Now());
      }
    }

    /** One phase: it retires after three clean timely censuses in a row, is over at its end, or fails. */
    method DrainPhase(signum: nat, end: nat, ghost from: nat) returns (r: PhaseResult, live: Option<set<Key>>)
      requires Valid() && rounds == [] && from <= turn
      modifies this`turn, this`clock, this`stamps, this`reading,
        this`pending, this`errors, this`reconciliations, this`fatal,
        this`sends, this`signals, this`evidence, this`log, this`accepted, this`rounds
      modifies lineage`history, lineage`trail, this`source, lineage`known, lineage`proofs, lineage`foreign
      ensures Valid() && Onward(old(Now()), Now()) && !r.Continue?
      ensures Timed(old(sends), sends, signum, end, old(clock))
      ensures if live.Some? then IsAccepted(live.value, from, end) else accepted == old(accepted)
      ensures r.Retired? ==>
        && Clean({}) && QUIET_REQUIRED <= |rounds| && InARow(from, end) && Prompt(end)
        && Ended(old(turn)) && Surveyed() && old(turn) <= source.surveyed
      ensures r.PhaseOver? ==> end <= clock
      ensures r.Raised? ==> r.failure != Failure(Expired, false) && (r.failure.fault == Structural ==> Excuse(old(turn)))
    {
      hide Truthful, DoubtsOk, Sourced, PendingOk, FatalOk, Dated, Onward, Excuse, Forward, Timed,
        DarwinLineage.ProofsOk, DarwinLineage.HistoryOk, DarwinLineage.RosterOk, SurveyedIn, RoundOk, Streak;
      ghost var start := Now();
      OnwardSame(start);
      TimedNone(sends, signum, end, clock);
      StreakNone(Sight(), stamps, sends, from, end);
      live := None;
      var quiet := 0;
      while true
        invariant Valid() && Onward(start, Now()) && InARow(from, end) && |rounds| == quiet && from <= turn
        invariant if live.Some? then IsAccepted(live.value, from, end) else accepted == old(accepted)
        invariant Timed(start.sends, sends, signum, end, start.clock)
        decreases if clock < end then end - clock else 0
      {
        var seen, clean;
        ghost var was, had := Now(), accepted;
        OnwardMeans(start, was);
        r, seen, clean := DrainRound(signum, end, quiet, from);
        OnwardMeans(was, Now());
        OnwardTwice(start, was, Now());
        TimedTwice(start.sends, was.sends, sends, signum, end, start.clock, was.clock);
        if seen.None? && live.Some? { RoundStays(Sight(), was.stamps, stamps, had.value, from, end); }
        if r.Raised? && r.failure.fault == Structural { ExcuseSince(start.turn, was.turn); }
        SinceEarlier(log, was.turn, start.turn);
        if seen.Some? { live := seen; }
        if !r.Continue? { return; }
        quiet := if clean then quiet + 1 else 0;
      }
    }

    /** The TERM phase, then the KILL phase if that was over without a decision. */
    method Phases(ends: (nat, nat)) returns (r: PhaseResult, live: Option<set<Key>>, last: nat)
      requires Valid() && ends.0 <= ends.1
      modifies this`turn, this`clock, this`stamps, this`reading,
        this`pending, this`errors, this`reconciliations, this`fatal,
        this`sends, this`signals, this`evidence, this`log, this`accepted, this`rounds
      modifies lineage`history, lineage`trail, this`source, lineage`known, lineage`proofs, lineage`foreign
      ensures Valid() && Onward(old(Now()), Now()) && !r.Continue? && (last == ends.0 || last == ends.1)
      ensures Phased(old(sends), sends, ends)
      ensures live.Some? ==> IsAccepted(live.value, old(turn), ends.1)
      ensures r.Retired? ==>
        && Clean({}) && QUIET_REQUIRED <= |rounds| && InARow(old(turn), last) && Prompt(last)
        && Ended(old(turn)) && Surveyed() && old(turn) <= source.surveyed
      ensures r.PhaseOver? ==> ends.1 <= clock
      ensures r.Raised? ==> r.failure != Failure(Expired, false) && (r.failure.fault == Structural ==> Excuse(old(turn)))
    {
      hide Truthful, DoubtsOk, Sourced, PendingOk, FatalOk, Dated, Onward, Excuse, Forward, Timed, Phased,
        DarwinLineage.ProofsOk, DarwinLineage.HistoryOk, DarwinLineage.RosterOk, SurveyedIn, RoundOk, Streak;
      ghost var start := Now();
      accepted, rounds := None, [];
      last := ends.0;
      r, live := DrainPhase(SIG_TERM, ends.0, start.turn);
      ghost var was, had := Now(), accepted;
      OnwardMeans(start, was);
      FirstPhase(start.sends, sends, ends, start.clock);
      if live.Some? { RoundLonger(Sight(), stamps, had.value, start.turn, ends.0, ends.1); }
      if r.PhaseOver? {
        last := ends.1;
        rounds := [];
        var later;
        r, later := DrainPhase(SIG_KILL, ends.1, start.turn);
        OnwardMeans(was, Now());
        OnwardTwice(start, was, Now());
        SecondPhase(start.sends, was.sends, sends, ends, was.clock);
        if later.None? && live.Some? { RoundStays(Sight(), was.stamps, stamps, had.value, start.turn, ends.1); }
        if r.Raised? && r.failure.fault == Structural { ExcuseSince(start.turn, was.turn); }
        SinceEarlier(log, was.turn, start.turn);
        if later.Some? { live := later; }
      }
    }

    /** Every signal in doubt was delivered later, or its lifetime was seen ended later. */
    ghost predicate Undoubted()
      reads this
    {
      forall k <- log.doubt :: Since(log.reached, k, log.doubt[k] + 1) || Since(log.gone, k, log.doubt[k] + 1)
    }

    lemma NoDoubts()
      requires DoubtsOk(signals, log) && signals == {}
      ensures Undoubted()
    {
    }

    /** What the first reading of a drain that begins now would say. */
    ghost function NextClock(): nat
      reads this
    {
      clock + host(turn).advance
    }

    /** Every known lifetime has a proof, and evidence for it among what was recorded and asked. */
    ghost predicate Attested()
      reads lineage
    {
      forall k <- lineage.known ::
        && k !in lineage.baseline && k in lineage.proofs && k in lineage.trail.evidence
        && DarwinLineage.Supports(lineage.trail.evidence[k], k, lineage.proofs[k], lineage.baseline, lineage.uid,
                                  lineage.trail)
    }

    lemma KnownAttested()
      requires lineage.Valid()
      ensures Attested()
    {
      hide DarwinLineage.Supports, DarwinLineage.HistoryOk, DarwinLineage.Ranked;
    }

    /** The streak ended with a reading in time. */
    ghost predicate Rested(from: nat, end: nat)
      reads this, lineage
    {
      InARow(from, end) && Prompt(end)
    }

    /** The drain. Its first act is a clock reading, which fixes both ends within the caller's deadline before any
        census or signal. The turn before every dispatch read the clock: below the first end for TERM, from there to
        below the second for KILL. Every lifetime that is signalled is known by evidence that the host itself gave.
        Nothing is returned only after three clean censuses in a row in one phase, each between two readings before
        that phase's end, with no signal since the first, each of which surveyed its whole listing and saw every
        lifetime then known ended, with no failure ever recorded that could not be reconciled, and a last reading
        before that phase's end; otherwise what is returned is the last timely census, at the second end. Either way
        every signal that was in doubt was delivered later, or its lifetime was seen ended later. */
    method Drain(grace: nat, killWait: nat, deadline: nat) returns (r: Result<set<Key>, Failure>)
      requires Valid()
      modifies this`turn, this`clock, this`stamps, this`reading,
        this`pending, this`errors, this`reconciliations, this`fatal,
        this`sends, this`signals, this`evidence, this`log, this`accepted, this`rounds
      modifies lineage`history, lineage`trail, this`source, lineage`known, lineage`proofs, lineage`foreign
      ensures Valid() && old(fatal) <= fatal && old(lineage.known).Keys <= lineage.known.Keys && old(stamps) <= stamps
      ensures forall d <- sends :: d.target in lineage.known
      ensures Attested() && Sourced(host, turn, source, before, lineage.trail)
      ensures !host(old(turn)).finite || deadline <= old(NextClock()) ==>
        && r == Err(Failure(if host(old(turn)).finite then Expired else Structural, false)) && turn == old(turn) + 1
        && sends == old(sends) && lineage.trail == old(lineage.trail) && lineage.known == old(lineage.known)
      ensures host(old(turn)).finite && old(NextClock()) < deadline ==>
        var ends := Ends(old(NextClock()), grace, killWait, deadline);
        && Phased(old(sends), sends, ends)
        && (r == Ok({}) ==> Rested(old(turn), ends.0) || Rested(old(turn), ends.1))
        && (r.Ok? && r.value != {} ==> ends.1 <= clock && IsAccepted(r.value, old(turn), ends.1))
        && (r == Err(Failure(Expired, false)) ==> ends.0 <= clock)
        && (r.Err? && r.error.fault == Structural ==> Excuse(old(turn)) || ends.1 <= clock)
      ensures r == Ok({}) ==>
        && errors == {} && pending == map[] && signals == {} && fatal == {} && QUIET_REQUIRED <= |rounds|
        && Ended(old(turn)) && Surveyed() && old(turn) <= source.surveyed
      ensures r.Ok? ==> signals == {} && Undoubted() && Truthful(host, turn, log)
    {
      hide Truthful, DoubtsOk, Sourced, PendingOk, FatalOk, Dated, Onward, Excuse, Forward, Phased, Trouble,
        DarwinLineage.ProofsOk, DarwinLineage.HistoryOk, DarwinLineage.RosterOk, SurveyedIn, RoundOk, Streak,
        Attested;
      ghost var start := Now();
      var t := Next();
      ghost var read := Now();
      OnwardMeans(start, read);
      KnownAttested();
      KnownTargets();
      if !t.finite { return Err(Failure(Structural, false)); }
      if deadline <= clock { return Err(Failure(Expired, false)); }
      var ends := (Min(clock + grace, deadline), Min(clock + grace + killWait, deadline));
      r := Work(ends);
      OnwardEarlier(start.turn, read.turn, ends);
      if r.Err? && r.error.fault == Structural && ends.1 > clock { ExcuseSince(start.turn, read.turn); }
      SinceEarlier(log, read.turn, start.turn);
      KnownTargets();
      KnownAttested();
    }

    lemma KnownTargets()
      requires Valid()
      ensures forall d <- sends :: d.target in lineage.known
    {
      hide Truthful, DoubtsOk, Sourced, PendingOk, FatalOk, DarwinLineage.ProofsOk, DarwinLineage.HistoryOk,
        DarwinLineage.RosterOk;
    }

    /** What holds since a later turn holds since an earlier one. */
    lemma OnwardEarlier(from: nat, later: nat, ends: (nat, nat))
      requires from <= later
      ensures Rested(later, ends.0) ==> Rested(from, ends.0)
      ensures Rested(later, ends.1) ==> Rested(from, ends.1)
      ensures forall live :: IsAccepted(live, later, ends.1) ==> IsAccepted(live, from, ends.1)
    {
      hide Streak, RoundOk;
      if Streak(Sight(), stamps, sends, rounds, later, ends.0) {
        StreakEarlier(Sight(), stamps, sends, rounds, from, later, ends.0);
      }
      if Streak(Sight(), stamps, sends, rounds, later, ends.1) {
        StreakEarlier(Sight(), stamps, sends, rounds, from, later, ends.1);
      }
      if accepted.Some? && RoundOk(Sight(), stamps, accepted.value, later, ends.1) {
        RoundEarlier(Sight(), stamps, accepted.value, from, later, ends.1);
      }
    }

    /** Both phases, and what follows from how they went. */
    method Work(ends: (nat, nat)) returns (r: Result<set<Key>, Failure>)
      requires Valid() && ends.0 <= ends.1
      modifies this`turn, this`clock, this`stamps, this`reading,
        this`pending, this`errors, this`reconciliations, this`fatal,
        this`sends, this`signals, this`evidence, this`log, this`accepted, this`rounds
      modifies lineage`history, lineage`trail, this`source, lineage`known, lineage`proofs, lineage`foreign
      ensures Valid() && old(fatal) <= fatal && old(lineage.known).Keys <= lineage.known.Keys && old(stamps) <= stamps
      ensures Phased(old(sends), sends, ends)
      ensures r == Ok({}) ==>
        && (Rested(old(turn), ends.0) || Rested(old(turn), ends.1))
        && errors == {} && pending == map[] && signals == {} && fatal == {} && QUIET_REQUIRED <= |rounds|
        && Ended(old(turn)) && Surveyed() && old(turn) <= source.surveyed
      ensures r.Ok? && r.value != {} ==> ends.1 <= clock && IsAccepted(r.value, old(turn), ends.1)
      ensures r == Err(Failure(Expired, false)) ==> ends.0 <= clock
      ensures r.Err? && r.error.fault == Structural ==> Excuse(old(turn)) || ends.1 <= clock
      ensures r.Ok? ==> signals == {} && Undoubted() && old(turn) <= turn
    {
      hide Truthful, DoubtsOk, Sourced, PendingOk, Dated, Onward, Excuse, Forward, Phased, Ran,
        DarwinLineage.ProofsOk, DarwinLineage.HistoryOk, DarwinLineage.RosterOk, SurveyedIn, RoundOk, Streak;
      ClearDoubts(host, turn, log);
      signals, log := {}, log.(doubt := map[]);
      ghost var start := Now();
      var outcome, live, last := Phases(ends);
      ghost var was := Now();
      OnwardMeans(start, was);
      if outcome.Raised? { return Err(outcome.failure); }
      if outcome.Retired? {
        var late := Check(last);
        OnwardMeans(was, Now());
        RanSince(late, last, start.turn, was.turn);
        RanMeans(late, last, start.turn);
        StreakStays(Sight(), was.stamps, stamps, sends, rounds, start.turn, last);
        NoDoubts();
        r := if late.None? then Ok({}) else Err(late.value);
      } else if signals != {} {
        r := Err(Failure(Exhausted, false));
      } else if live.Some? && live.value != {} {
        NoDoubts();
        r := Ok(live.value);
      } else {
        r := Err(Failure(Structural, false));
      }
    }
  }
}
