/** How the Darwin scope proves ownership: by inherited domain, by inherited pipe, by its own spawn gate,
    or by a recorded chain of original parents that ends at a lifetime admitted earlier. */
module DarwinLineage {
  import opened Wrappers

  const MAX_LINEAGE := 65536
  const MAX_DEPTH := 256
  const REAPER := 1

  datatype Key = Key(pid: nat, uniqueId: nat, startSeconds: nat, startMicroseconds: nat)

  datatype Identity = Identity(key: Key, parentPid: nat, parentUniqueId: nat, traced: bool, live: bool,
                               uid: nat, realUid: nat)

  datatype Proof = InheritedDomain | InheritedPipe | SpawnGate(controller: Key) | OriginalParent(ancestors: seq<Key>)

  datatype Fault = Uncertain | Structural | Vanished

  /** The verdict of the lineage walk: owned with the line of recorded parents up to a known lifetime. */
  datatype Lineage = Owned(line: seq<Identity>) | Foreign | Failed(fault: Fault)

  function Keys(line: seq<Identity>): (keys: seq<Key>)
    ensures |keys| == |line|
    ensures line != [] ==> keys[|keys| - 1] == line[|line| - 1].key
  {
    if line == [] then [] else [line[0].key] + Keys(line[1..])
  }

  /** The walk from `current`, with `turns` parents left to follow. */
  function Walk(history: map<nat, Identity>, known: set<Key>, baseline: set<Key>, current: Identity,
                seen: set<nat>, turns: nat): (r: Lineage)
    ensures r.Owned? ==> 1 <= |r.line| <= turns && r.line[|r.line| - 1].key in known
    decreases turns
  {
    if turns == 0 then Failed(Structural)
    else if current.traced || current.parentUniqueId !in history then Failed(Uncertain)
    else
      var parent := history[current.parentUniqueId];
      if parent.key.pid == REAPER then Failed(Uncertain)
      else if parent.key.uniqueId in seen then Failed(Structural)
      else if parent.key in known then Owned([parent])
      else if parent.key in baseline then Foreign
      else
        var further := Walk(history, known, baseline, parent, seen + {parent.key.uniqueId}, turns - 1);
        if further.Owned? then Owned([parent] + further.line) else further
  }

  /** The walk returns a line exactly when the recorded parents form it: it leaves only untraced lifetimes,
      meets no reaper and no lifetime twice, and its last member alone is known; none before it is foreign. */
  lemma {:induction false} WalkExact(history: map<nat, Identity>, known: set<Key>, baseline: set<Key>,
                                     current: Identity, seen: set<nat>, turns: nat, line: seq<Identity>)
    ensures Walk(history, known, baseline, current, seen, turns) == Owned(line)
       <==> (|line| <= turns && Recorded(history, current, line) && Fresh(seen, line) && Stops(known, baseline, line))
    decreases turns
  {
    if line != [] && turns > 0 && current.parentUniqueId in history {
      var parent := history[current.parentUniqueId];
      var rest, met := line[1..], seen + {parent.key.uniqueId};
      var further := Walk(history, known, baseline, parent, met, turns - 1);
      assert line == [line[0]] + rest;
      if rest == [] {
        assert line == [line[0]];
        assert Recorded(history, line[0], rest) && Fresh(seen + {line[0].key.uniqueId}, rest);
        assert further.Owned? ==> |[parent] + further.line| > 1;
      } else {
        WalkExact(history, known, baseline, parent, met, turns - 1, rest);
        assert |line| != |[parent]|;
        if further.Owned? {
          assert ([parent] + further.line)[0] == parent && ([parent] + further.line)[1..] == further.line;
        }
      }
    }
  }

  /** Each member of `line` is the recorded original parent of the untraced lifetime before it. */
  ghost predicate Recorded(history: map<nat, Identity>, child: Identity, line: seq<Identity>)
    decreases |line|
  {
    line != [] ==>
      && !child.traced && child.parentUniqueId in history && history[child.parentUniqueId] == line[0]
      && line[0].key.pid != REAPER && Recorded(history, line[0], line[1..])
  }

  ghost predicate Fresh(seen: set<nat>, line: seq<Identity>)
    decreases |line|
  {
    line != [] ==> line[0].key.uniqueId !in seen && Fresh(seen + {line[0].key.uniqueId}, line[1..])
  }

  ghost predicate Stops(known: set<Key>, baseline: set<Key>, line: seq<Identity>) {
    line != [] &&
    if |line| == 1 then line[0].key in known
    else line[0].key !in known && line[0].key !in baseline && Stops(known, baseline, line[1..])
  }

  /** `line` leads from `child` upwards: each step leaves an untraced lifetime for its original parent,
      which is neither the reaper nor foreign. */
  ghost predicate Ascends(baseline: set<Key>, child: Identity, line: seq<Identity>)
    decreases |line|
  {
    && line != [] && !child.traced
    && line[0].key.uniqueId == child.parentUniqueId
    && line[0].key.pid != REAPER && line[0].key !in baseline
    && (|line| > 1 ==> Ascends(baseline, line[0], line[1..]))
  }

  /** The walk calls a lifetime owned only on the strength of such a line of recorded lifetimes. */
  lemma {:induction false} WalkAscends(history: map<nat, Identity>, known: set<Key>, baseline: set<Key>,
                                       current: Identity, seen: set<nat>, turns: nat)
    requires forall u <- history :: history[u].key.uniqueId == u
    requires known !! baseline
    ensures var r := Walk(history, known, baseline, current, seen, turns);
            r.Owned? ==>
              && Ascends(baseline, current, r.line)
              && forall i <- r.line :: i.key.uniqueId in history && history[i.key.uniqueId] == i
    decreases turns
  {
    if turns > 0 && current.parentUniqueId in history {
      var parent := history[current.parentUniqueId];
      WalkAscends(history, known, baseline, parent, seen + {parent.key.uniqueId}, turns - 1);
      var further := Walk(history, known, baseline, parent, seen + {parent.key.uniqueId}, turns - 1);
      if further.Owned? {
        assert ([parent] + further.line)[1..] == further.line;
      }
    }
  }

  // ----- the proof graph -----

  /** The earlier lifetime that a parentage proof rests on. */
  function Rests(p: Proof): Key
    requires p.OriginalParent? && p.ancestors != []
  {
    p.ancestors[|p.ancestors| - 1]
  }

  /** Every parentage proof rests on a proven lifetime of strictly lower rank. */
  ghost predicate Ranked(proofs: map<Key, Proof>, rank: map<Key, nat>) {
    forall k <- proofs | proofs[k].OriginalParent? ::
      && k in rank && 1 <= |proofs[k].ancestors| <= MAX_DEPTH
      && Rests(proofs[k]) in proofs && Rests(proofs[k]) in rank && rank[Rests(proofs[k])] < rank[k]
  }

  /** `path` follows, from proof to proof, what each rests on. */
  ghost predicate IsPath(proofs: map<Key, Proof>, path: seq<Key>) {
    path != [] && path[0] in proofs && path[|path| - 1] in proofs &&
    (|path| > 1 ==>
       var p := proofs[path[0]];
       p.OriginalParent? && p.ancestors != [] && Rests(p) == path[1] && IsPath(proofs, path[1..]))
  }

  lemma {:induction false} PathDescends(proofs: map<Key, Proof>, rank: map<Key, nat>, path: seq<Key>)
    requires Ranked(proofs, rank) && IsPath(proofs, path) && |path| > 1
    ensures path[0] in rank && path[|path| - 1] in rank && rank[path[|path| - 1]] < rank[path[0]]
  {
    if |path| > 2 {
      PathDescends(proofs, rank, path[1..]);
      assert path[1..][|path| - 2] == path[|path| - 1];
    }
  }

  /** The proof graph is acyclic. */
  lemma NoCircularProof(proofs: map<Key, Proof>, rank: map<Key, nat>, path: seq<Key>)
    requires Ranked(proofs, rank) && IsPath(proofs, path) && |path| > 1
    ensures path[0] != path[|path| - 1]
  {
    PathDescends(proofs, rank, path);
  }

  /** Every proof unwinds in finitely many steps to a direct one: a domain, a pipe or a spawn gate. */
  lemma {:induction false} Grounded(proofs: map<Key, Proof>, rank: map<Key, nat>, k: Key) returns (path: seq<Key>)
    requires Ranked(proofs, rank) && k in proofs
    ensures IsPath(proofs, path) && path[0] == k && !proofs[path[|path| - 1]].OriginalParent?
    decreases if k in rank then rank[k] + 1 else 0
  {
    path := [k];
    if proofs[k].OriginalParent? {
      var rest := Grounded(proofs, rank, Rests(proofs[k]));
      path := [k] + rest;
      assert path[1..] == rest && path[|path| - 1] == rest[|rest| - 1];
    }
  }

  /** What the walk still has to find, below the line already followed. */
  function Above(line: seq<Identity>, rest: Lineage): Lineage {
    if rest.Owned? then Owned(line + rest.line) else rest
  }

  /** One parent followed: what the walk answers, in terms of the walk from there. */
  lemma WalkStep(history: map<nat, Identity>, known: set<Key>, baseline: set<Key>, current: Identity,
                 seen: set<nat>, turns: nat, line: seq<Identity>)
    ensures
      var rest := Above(line, Walk(history, known, baseline, current, seen, turns));
      if turns == 0 then rest == Failed(Structural)
      else if current.traced || current.parentUniqueId !in history then rest == Failed(Uncertain)
      else
        var parent := history[current.parentUniqueId];
        if parent.key.pid == REAPER then rest == Failed(Uncertain)
        else if parent.key.uniqueId in seen then rest == Failed(Structural)
        else if parent.key in known then rest == Owned(line + [parent])
        else if parent.key in baseline then rest == Foreign
        else rest == Above(line + [parent],
                           Walk(history, known, baseline, parent, seen + {parent.key.uniqueId}, turns - 1))
  {
    if turns > 0 && current.parentUniqueId in history {
      var parent := history[current.parentUniqueId];
      var further := Walk(history, known, baseline, parent, seen + {parent.key.uniqueId}, turns - 1);
      assert further.Owned? ==> (line + [parent]) + further.line == line + ([parent] + further.line);
    }
  }

  // ----- the scope -----

  const NO_SESSION := 0
  const DEFAULT_SESSION := 0xffff_ffff

  datatype Session = Answer(value: nat) | Exhausted | Gone | Broken

  datatype Pipe = Inherited | NotInherited | PipeExhausted | PipeGone | PipeBroken

  datatype Token = Acquired | TargetGone | NotAcquired

  datatype Marking = Marked | Unmarked | Denied | Malformed | Ended

  /** What the host answers, in order, while one lifetime is classified. */
  datatype Answers = Answers(environment: Marking, pipe: Pipe, session: Session, token: Token)

  datatype Verdict = Proven(proof: Proof) | Disowned | Deferred | Departed | Refused

  /** What was put to the scope: one remembered lifetime to classify, with what the host answered and all that was
      remembered at that moment; or a spawn to bind. */
  datatype Question =
    | Classified(identity: Identity, answers: Answers, history: map<nat, Identity>)
    | Bound(owner: Identity, child: Option<Identity>, pipe: Pipe, token: Token)

  /** Why a lifetime was admitted: the question that was answered, and the line of parents if that decided. */
  datatype Evidence = Evidence(question: Question, line: seq<Identity>)

  /** The question was about this live lifetime of the user, and its token was acquired. */
  ghost predicate Answered(q: Question, k: Key, uid: nat, recorded: set<Identity>) {
    && q.Classified? && q.identity.key == k && q.identity in recorded && q.identity.live && q.identity.uid == uid
    && q.answers.token == Acquired
  }

  /** `e` is what proof `p` of lifetime `k` claims: the question was asked, its answers say so, and every lifetime
      in it was recorded. */
  ghost predicate Supports(e: Evidence, k: Key, p: Proof, baseline: set<Key>, uid: nat, trail: Trail) {
    var q := e.question;
    && q in trail.asked
    && match p
       case InheritedDomain => Answered(q, k, uid, trail.recorded) && q.answers.environment == Marked
       case InheritedPipe =>
         Answered(q, k, uid, trail.recorded) && q.answers.environment == Unmarked && q.answers.pipe == Inherited
       case SpawnGate(controller) =>
         && q.Bound? && q.owner.key == controller && q.owner in trail.recorded && q.owner.live
         && q.child.Some? && q.child.value.key == k && q.child.value in trail.recorded && q.child.value.live
         && q.child.value.parentUniqueId == controller.uniqueId && q.child.value.uid == uid == q.child.value.realUid
         && q.pipe == Inherited && q.token == Acquired
       case OriginalParent(ancestors) =>
         && Answered(q, k, uid, trail.recorded) && q.answers.environment == Unmarked && q.answers.pipe == NotInherited
         && (forall i <- e.line :: i in trail.recorded)
         && Keys(e.line) == ancestors && 1 <= |ancestors| <= MAX_DEPTH
         && Ascends(baseline, q.identity, e.line) && Recorded(q.history, q.identity, e.line)
  }

  /** The run so far: all identities ever recorded, all that was asked, the order of admission and the evidence for
      each. */
  datatype Trail = Trail(recorded: set<Identity>, asked: set<Question>, rank: map<Key, nat>, admitted: nat,
                         evidence: map<Key, Evidence>)

  /** What the answers must be for this proof of an unknown lifetime, with this lineage. */
  predicate Warrants(answers: Answers, lineage: Lineage, p: Proof) {
    match p
    case InheritedDomain => answers.environment == Marked
    case InheritedPipe => answers.environment == Unmarked && answers.pipe == Inherited
    case SpawnGate(_) => false
    case OriginalParent(ancestors) =>
      && answers.environment == Unmarked && answers.pipe == NotInherited
      && lineage.Owned? && ancestors == Keys(lineage.line)
  }

  /** Some proof is warranted. */
  predicate Owning(answers: Answers, lineage: Lineage) {
    || answers.environment == Marked
    || (answers.environment == Unmarked
        && (answers.pipe == Inherited || (answers.pipe == NotInherited && lineage.Owned?)))
  }

  ghost predicate HistoryOk(history: map<nat, Identity>, recorded: set<Identity>) {
    forall u <- history :: history[u].key.uniqueId == u && history[u] in recorded
  }

  ghost predicate RosterOk(known: set<Key>, baseline: set<Key>, proofs: map<Key, Proof>) {
    known !! baseline && (forall k <- known :: k in proofs) && (forall k <- proofs :: k in known)
  }

  ghost predicate ProofsOk(proofs: map<Key, Proof>, baseline: set<Key>, uid: nat, trail: Trail) {
    && Ranked(proofs, trail.rank)
    && (forall k <- proofs ::
          && k in trail.rank && trail.rank[k] < trail.admitted && k in trail.evidence
          && Supports(trail.evidence[k], k, proofs[k], baseline, uid, trail))
  }

  lemma RecordingKeepsProofs(proofs: map<Key, Proof>, baseline: set<Key>, uid: nat, trail: Trail, identity: Identity)
    requires ProofsOk(proofs, baseline, uid, trail)
    ensures ProofsOk(proofs, baseline, uid, trail.(recorded := trail.recorded + {identity}))
  {
    hide Ascends, Keys, Ranked, Recorded;
  }

  lemma AskingKeepsProofs(proofs: map<Key, Proof>, baseline: set<Key>, uid: nat, trail: Trail, q: Question)
    requires ProofsOk(proofs, baseline, uid, trail)
    ensures ProofsOk(proofs, baseline, uid, trail.(asked := trail.asked + {q}))
  {
    hide Ascends, Keys, Ranked, Recorded;
  }

  /** A new proof that rests on an older one keeps the proof graph ranked. */
  lemma AdmissionKeepsProofs(proofs: map<Key, Proof>, baseline: set<Key>, uid: nat, trail: Trail,
                             key: Key, proof: Proof, evidence: Evidence)
    requires ProofsOk(proofs, baseline, uid, trail) && key !in proofs
    requires Supports(evidence, key, proof, baseline, uid, trail)
    requires proof.OriginalParent? ==> Rests(proof) in proofs
    ensures ProofsOk(proofs[key := proof], baseline, uid,
                     trail.(rank := trail.rank[key := trail.admitted], admitted := trail.admitted + 1,
                            evidence := trail.evidence[key := evidence]))
  {
    hide Ascends, Keys, Recorded;
    var rank := trail.rank[key := trail.admitted];
    assert Ranked(proofs[key := proof], rank) by {
      var grown := proofs[key := proof];
      forall k <- grown | grown[k].OriginalParent?
        ensures Rests(grown[k]) in grown && rank[Rests(grown[k])] < rank[k]
      {
        assert k != key ==> k in proofs;
      }
    }
  }

  lemma NothingProven(baseline: set<Key>, uid: nat, proofs: map<Key, Proof>, trail: Trail)
    requires forall k <- proofs :: false
    ensures ProofsOk(proofs, baseline, uid, trail)
  {
  }

  /** Another session is evidence only if both are real ones. */
  predicate ElsewhereSession(session: nat, controller: nat) {
    session != controller && session !in {NO_SESSION, DEFAULT_SESSION} && controller !in {NO_SESSION, DEFAULT_SESSION}
  }

  /** What a lineage means for an unmarked lifetime without the pipe: a line owns it, a foreign parent disowns
      it, and an undecided lineage disowns it only in another valid session, and otherwise leaves it pending. */
  ghost predicate Judged(v: Verdict, lineage: Lineage, session: Session, controller: nat) {
    match lineage
    case Owned(line) => v == Proven(OriginalParent(Keys(line)))
    case Foreign => v == Disowned
    case Failed(fault) =>
      && !v.Proven?
      && (fault != Uncertain ==> v == Refused)
      && (v == Disowned ==> session.Answer? && ElsewhereSession(session.value, controller))
      && (fault == Uncertain && session.Answer? && !ElsewhereSession(session.value, controller) ==> v == Deferred)
  }

  /** A lifetime that may be recorded: it has a unique ID of its own that never meant another one, is not its own
      parent, and there is room. */
  ghost predicate Memorable(history: map<nat, Identity>, identity: Identity) {
    var unique := identity.key.uniqueId;
    && unique > 0 && identity.parentUniqueId != unique
    && (if unique in history then history[unique].key == identity.key else |history| < MAX_LINEAGE)
  }

  /** Why a lifetime may be refused: a malformed mark, a broken pipe or session, a broken lineage, no room for another
      foreign one, or no token although it is owned. */
  predicate Refusal(answers: Answers, lineage: Lineage, full: bool) {
    || answers.environment == Malformed || answers.pipe == PipeBroken || answers.session == Broken
    || (lineage.Failed? && lineage.fault != Uncertain) || full
    || (answers.token == NotAcquired && Owning(answers, lineage))
  }

  /** Entry `m` was judged while these lifetimes were known, and could be refused. */
  ghost predicate RefusedAt(census: seq<Identity>, answers: nat -> Answers, m: nat, known: set<Key>,
                            history: map<nat, Identity>, baseline: set<Key>, foreign: set<Key>)
  {
    m < |census| &&
    Refusal(answers(m), Walk(history, known, baseline, census[m], {census[m].key.uniqueId}, MAX_DEPTH),
            |foreign| >= MAX_LINEAGE)
  }

  /** Some entry could be refused, when at least `before` and at most `after` was known. */
  ghost predicate SomeRefused(census: seq<Identity>, answers: nat -> Answers, before: set<Key>, after: set<Key>,
                              history: map<nat, Identity>, baseline: set<Key>, foreign: set<Key>)
  {
    exists m: nat, k: set<Key> :: RefusedAt(census, answers, m, k, history, baseline, foreign) && before <= k <= after
  }

  /** Where a scope stands between two operations. */
  datatype Stage = Stage(history: map<nat, Identity>, known: set<Key>, foreign: set<Key>, trail: Trail)

  /** What an operation did and what its answer means. */
  ghost predicate Done(operation: Operation, ok: bool, a: Stage, b: Stage, self: nat, uid: nat, baseline: set<Key>) {
    match operation
    case Census(identities, answers) =>
      if ok
      then forall m | 0 <= m < |identities| && identities[m].key.pid != self ::
        Classified(identities[m], answers(m), b.history) in b.trail.asked
      else || (exists i <- identities :: i.key.pid != self && !Memorable(b.history, i))
           || SomeRefused(identities, answers, a.known, b.known, b.history, baseline, b.foreign)
    case Spawn(owner, child, pipe, token) =>
      && Bound(owner, child, pipe, token) in b.trail.asked
      && (ok <==> Releasable(a.history, owner, child, pipe, token, self, uid, baseline))
      && (ok ==> child.value.key in b.known)
  }

  /** The child is the directly spawned, same-user, non-foreign lifetime that holds the pipe, with its token. */
  ghost predicate Releasable(history: map<nat, Identity>, owner: Identity, child: Option<Identity>, pipe: Pipe,
                             token: Token, self: nat, uid: nat, baseline: set<Key>)
  {
    && owner.live && Memorable(history, owner)
    && child.Some? && child.value.live && child.value.parentPid == self && child.value.key !in baseline
    && child.value.parentUniqueId == owner.key.uniqueId && child.value.uid == uid == child.value.realUid
    && pipe == Inherited && token == Acquired
    && Memorable(history[owner.key.uniqueId := owner], child.value)
  }

  /** The question classifies an entry of this census with the answers given for it. */
  ghost predicate Posed(q: Question, census: seq<Identity>, answers: nat -> Answers) {
    q.Classified? && exists m | 0 <= m < |census| :: q.identity == census[m] && q.answers == answers(m)
  }

  lemma PosedAt(census: seq<Identity>, answers: nat -> Answers, m: nat, history: map<nat, Identity>)
    requires m < |census|
    ensures Posed(Classified(census[m], answers(m), history), census, answers)
  {
  }

  /** Every entry of the census but the scope's own process is in the history. */
  ghost predicate Remembers(history: map<nat, Identity>, census: seq<Identity>, self: nat) {
    forall i <- census | i.key.pid != self :: i.key.uniqueId in history && history[i.key.uniqueId].key == i.key
  }

  /** The operation puts this question. */
  ghost predicate Asks(operation: Operation, q: Question) {
    match operation
    case Census(identities, answers) => Posed(q, identities, answers)
    case Spawn(owner, child, pipe, token) => q == Bound(owner, child, pipe, token)
  }

  /** The operation shows this lifetime. */
  ghost predicate Shows(operation: Operation, i: Identity) {
    match operation
    case Census(identities, _) => i in identities
    case Spawn(owner, child, _, _) => i == owner || child == Some(i)
  }

  datatype Operation =
    | Census(identities: seq<Identity>, answers: nat -> Answers)
    | Spawn(owner: Identity, child: Option<Identity>, pipe: Pipe, token: Token)

  class Scope {
    const self: nat
    const uid: nat
    const controllerSession: nat
    var history: map<nat, Identity>
    var known: map<Key, Identity>
    var baseline: set<Key>
    var proofs: map<Key, Proof>
    var foreign: set<Key>
    ghost var trail: Trail

    ghost predicate Valid()
      reads this
    {
      && HistoryOk(history, trail.recorded) && RosterOk(known.Keys, baseline, proofs)
      && ProofsOk(proofs, baseline, uid, trail)
    }

    ghost function At(): Stage
      reads this
    {
      Stage(history, known.Keys, foreign, trail)
    }

    constructor (self: nat, uid: nat, controllerSession: nat)
      ensures Valid() && known == map[] && baseline == {} && fresh(this)
    {
      this.self, this.uid, this.controllerSession := self, uid, controllerSession;
      history, known, baseline, proofs, foreign := map[], map[], {}, map[], {};
      trail := Trail({}, {}, map[], 0, map[]);
    }

    /** Record a lifetime; a unique ID never changes its lifetime, and nobody is its own parent. */
    method Remember(identity: Identity) returns (ok: bool)
      requires Valid()
      modifies this`history, this`trail
      ensures Valid()
      ensures trail == old(trail).(recorded := old(trail).recorded + if ok then {identity} else {})
      ensures ok <==> Memorable(old(history), identity)
      ensures history == if ok then old(history)[identity.key.uniqueId := identity] else old(history)
    {
      var unique := identity.key.uniqueId;
      if unique == 0 || identity.parentUniqueId == unique { return false; }
      if unique in history {
        if history[unique].key != identity.key { return false; }
      } else if |history| >= MAX_LINEAGE { return false; }
      RecordingKeepsProofs(proofs, baseline, uid, trail, identity);
      history := history[unique := identity];
      trail := trail.(recorded := trail.recorded + {identity});
      ok := true;
    }

    /** Everything alive at the start is foreign for good. */
    method TakeBaseline(census: seq<Identity>) returns (ok: bool)
      requires Valid() && known == map[]
      modifies this`history, this`trail, this`baseline
      ensures Valid()
      ensures ok ==> baseline == old(baseline) + set i <- census :: i.key
    {
      hide ProofsOk, HistoryOk;
      var n := 0;
      while n < |census|
        invariant n <= |census| && Valid() && known == map[]
        invariant baseline == old(baseline) + set i <- census[..n] :: i.key
      {
        ok := Remember(census[n]);
        if !ok { return; }
        NothingProven(baseline + {census[n].key}, uid, proofs, trail);
        baseline := baseline + {census[n].key};
        n := n + 1;
        assert census[..n] == census[..n - 1] + [census[n - 1]];
      }
      assert census[..n] == census;
      ok := true;
    }

    /** The lineage walk over the recorded history, at most `depth` parents long. */
    method ParentProof(identity: Identity, depth: nat) returns (r: Lineage)
      ensures r == Walk(history, known.Keys, baseline, identity, {identity.key.uniqueId}, depth)
    {
      hide Walk;
      var current, line, seen, turns := identity, [], {identity.key.uniqueId}, depth;
      ghost var answer := Walk(history, known.Keys, baseline, identity, seen, depth);
      while turns > 0
        invariant answer == Above(line, Walk(history, known.Keys, baseline, current, seen, turns))
      {
        WalkStep(history, known.Keys, baseline, current, seen, turns, line);
        if current.traced || current.parentUniqueId !in history { return Failed(Uncertain); }
        var parent := history[current.parentUniqueId];
        if parent.key.pid == REAPER { return Failed(Uncertain); }
        if parent.key.uniqueId in seen { return Failed(Structural); }
        line, seen := line + [parent], seen + {parent.key.uniqueId};
        if parent.key in known { return Owned(line); }
        if parent.key in baseline { return Foreign; }
        current, turns := parent, turns - 1;
      }
      WalkStep(history, known.Keys, baseline, current, seen, turns, line);
      r := Failed(Structural);
    }

    /** The lineage of a lifetime, by the recorded history. */
    ghost function LineageOf(identity: Identity): Lineage
      reads this`history, this`known, this`baseline
    {
      Walk(history, known.Keys, baseline, identity, {identity.key.uniqueId}, MAX_DEPTH)
    }

    /** The ownership test: marker, then pipe, then lineage; a lifetime of undecided lineage is foreign only
        when its audit session is another valid one. */
    method OwnershipProof(identity: Identity, answers: Answers) returns (v: Verdict)
      requires Valid() && identity in trail.recorded
      modifies this`foreign
      ensures answers.environment == Marked ==> v == Proven(InheritedDomain)
      ensures answers.environment == Malformed ==> v == Refused
      ensures answers.environment !in {Marked, Malformed} ==>
        && (answers.pipe == Inherited <==> v == Proven(InheritedPipe))
        && (answers.pipe == NotInherited ==> Judged(v, LineageOf(identity), answers.session, controllerSession))
        && (answers.pipe !in {Inherited, NotInherited} ==> !v.Proven? && v != Disowned)
      ensures (|foreign| <= MAX_LINEAGE || foreign == old(foreign)) && old(foreign) <= foreign
      ensures v == Refused ==>
        || answers.environment == Malformed || answers.pipe == PipeBroken || answers.session == Broken
        || (LineageOf(identity).Failed? && LineageOf(identity).fault != Uncertain) || |foreign| >= MAX_LINEAGE
    {
      if answers.environment == Marked { return Proven(InheritedDomain); }
      if answers.environment == Malformed { return Refused; }
      match answers.pipe
      case PipeExhausted => v := Deferred;
      case PipeGone => v := Departed;
      case PipeBroken => v := Refused;
      case Inherited => v := Proven(InheritedPipe);
      case NotInherited =>
        var lineage := ParentProof(identity, MAX_DEPTH);
        match lineage
        case Owned(line) => v := Proven(OriginalParent(Keys(line)));
        case Foreign => v := Disowned;
        case Failed(fault) =>
          if fault != Uncertain { return Refused; }
          match answers.session
          case Exhausted => v := Deferred;
          case Gone => v := Departed;
          case Broken => v := Refused;
          case Answer(session) =>
            if !ElsewhereSession(session, controllerSession) {
              v := Deferred;
            } else if identity.key !in foreign && |foreign| >= MAX_LINEAGE {
              v := Refused;
            } else {
              foreign := foreign + {identity.key};
              v := Disowned;
            }
    }

    /** File a lifetime with its proof; an earlier proof of the same lifetime stays. */
    method Admit(identity: Identity, proof: Proof, ghost seen: Evidence)
      requires Valid() && identity.key !in baseline
      requires Supports(seen, identity.key, proof, baseline, uid, trail)
      requires proof.OriginalParent? ==> Rests(proof) in known
      modifies this`known, this`proofs, this`trail
      ensures Valid() && trail.recorded == old(trail).recorded && trail.asked == old(trail).asked
      ensures known == old(known)[identity.key := identity]
      ensures proofs == if identity.key in old(proofs) then old(proofs) else old(proofs)[identity.key := proof]
    {
      hide Supports, HistoryOk, Ranked, ProofsOk;
      var key := identity.key;
      known := known[key := identity];
      if key !in proofs {
        AdmissionKeepsProofs(proofs, baseline, uid, trail, key, proof, seen);
        proofs := proofs[key := proof];
        trail := trail.(rank := trail.rank[key := trail.admitted], admitted := trail.admitted + 1,
                        evidence := trail.evidence[key := seen]);
      }
    }

    /** A known lifetime seen again. */
    method Refresh(identity: Identity)
      requires Valid() && identity.key in known
      modifies this`known
      ensures Valid() && known == old(known)[identity.key := identity] && known.Keys == old(known).Keys
    {
      hide ProofsOk, HistoryOk;
      known := known[identity.key := identity];
      assert known.Keys == old(known).Keys;
    }

    /** Live, of the scope's user, not foreign and not known yet. */
    predicate Eligible(identity: Identity)
      reads this
    {
      identity.live && identity.uid == uid && identity.key !in baseline && identity.key !in known
    }

    /** Classify one remembered census entry. It becomes known exactly when it is eligible, its token was acquired
        and the answers own it, and by the proof that these answers warrant. */
    method Consider(identity: Identity, answers: Answers) returns (v: Verdict)
      requires Valid() && identity in trail.recorded
      modifies this`known, this`proofs, this`trail, this`foreign
      ensures Valid() && trail.recorded == old(trail).recorded
      ensures trail.asked == old(trail).asked + {Classified(identity, answers, history)}
      ensures forall k <- old(known) :: k in known && proofs[k] == old(proofs)[k]
      ensures forall k <- known | k !in old(known) :: k == identity.key
      ensures old(known).Keys <= known.Keys
      ensures v.Proven? <==> identity.key in known && identity.key !in old(known)
      ensures v.Proven? <==> old(Eligible(identity)) && answers.token == Acquired && Owning(answers, old(LineageOf(identity)))
      ensures v.Proven? ==> proofs[identity.key] == v.proof && Warrants(answers, old(LineageOf(identity)), v.proof)
      ensures old(Eligible(identity)) ==>
        && (answers.environment == Denied ==> v == Deferred)
        && (answers.environment == Ended ==> v == Departed)
        && (answers.environment == Malformed ==> v == Refused)
        && (Owning(answers, old(LineageOf(identity))) && answers.token != Acquired ==>
              v == if answers.token == TargetGone then Departed else Refused)
        && (answers.environment == Unmarked && answers.pipe == NotInherited && !old(LineageOf(identity)).Owned? ==>
              Judged(v, old(LineageOf(identity)), answers.session, controllerSession))
      ensures v == Refused ==> Refusal(answers, old(LineageOf(identity)), |foreign| >= MAX_LINEAGE)
      ensures old(foreign) <= foreign
    {
      hide Ranked, Supports, Keys, Ascends, Recorded, Walk, HistoryOk;
      ghost var q := Classified(identity, answers, history);
      AskingKeepsProofs(proofs, baseline, uid, trail, q);
      trail := trail.(asked := trail.asked + {q});
      v := Disowned;
      if !identity.live || identity.uid != uid || identity.key in baseline { return; }
      if identity.key in known {
        known := known[identity.key := identity];
        return;
      }
      if answers.environment == Denied { return Deferred; }
      if answers.environment == Ended { return Departed; }
      v := OwnershipProof(identity, answers);
      if v.Proven? {
        match answers.token
        case TargetGone => v := Departed;
        case NotAcquired => v := Refused;
        case Acquired =>
          ghost var line := if v.proof.OriginalParent? then LineageOf(identity).line else [];
          Witnessed(identity, q, v.proof, line);
          Admit(identity, v.proof, Evidence(q, line));
      }
    }

    /** The question just asked supports the proof that its answers warrant. */
    lemma Witnessed(identity: Identity, q: Question, p: Proof, line: seq<Identity>)
      requires Valid() && identity in trail.recorded && q in trail.asked && Eligible(identity)
      requires q.Classified? && q.identity == identity && q.history == history && q.answers.token == Acquired
      requires Warrants(q.answers, LineageOf(identity), p)
      requires p.OriginalParent? ==> line == LineageOf(identity).line
      ensures Supports(Evidence(q, line), identity.key, p, baseline, uid, trail)
      ensures p.OriginalParent? ==> p.ancestors != [] && Rests(p) in known
    {
      hide Ranked, ProofsOk, Walk, Keys, Ascends, Recorded, Fresh, Stops;
      if p.OriginalParent? {
        var lineage := LineageOf(identity);
        WalkAscends(history, known.Keys, baseline, identity, {identity.key.uniqueId}, MAX_DEPTH);
        WalkExact(history, known.Keys, baseline, identity, {identity.key.uniqueId}, MAX_DEPTH, lineage.line);
      }
    }

    /** One census: the whole of it is remembered before any parentage is interpreted, so each entry is judged
        against a history that holds every other. */
    method Discover(census: seq<Identity>, answers: nat -> Answers) returns (ok: bool)
      requires Valid()
      modifies this`history, this`known, this`proofs, this`trail, this`foreign
      ensures Valid()
      ensures old(trail).recorded <= trail.recorded <= old(trail).recorded + set i <- census
      ensures old(trail).asked <= trail.asked
      ensures forall q <- trail.asked | q !in old(trail).asked ::
        Posed(q, census, answers) && q.history == history && Remembers(history, census, self)
      ensures ok ==> forall m | 0 <= m < |census| && census[m].key.pid != self ::
        Classified(census[m], answers(m), history) in trail.asked
      ensures forall k <- old(known) :: k in known && proofs[k] == old(proofs)[k]
      ensures forall k <- known | k !in old(known) ::
        exists i <- census :: i.key == k && i.live && i.uid == uid && i.key.pid != self
      ensures !ok ==>
        || (exists i <- census :: i.key.pid != self && !Memorable(history, i))
        || SomeRefused(census, answers, old(known).Keys, known.Keys, history, baseline, foreign)
    {
      hide ProofsOk, HistoryOk, Walk, Warrants, Owning, Judged, Posed, Remembers, Refusal, Memorable;
      ok := RememberAll(census);
      if !ok { return; }
      ghost var filed := trail.recorded;
      var n := 0;
      while n < |census|
        invariant n <= |census| && Valid() && Remembers(history, census, self)
        invariant trail.recorded == filed && old(trail).asked <= trail.asked
        invariant forall q <- trail.asked | q !in old(trail).asked ::
          q.Classified? && q.history == history && Posed(q, census, answers)
        invariant forall m | 0 <= m < n && census[m].key.pid != self ::
          Classified(census[m], answers(m), history) in trail.asked
        invariant forall k <- old(known) :: k in known && proofs[k] == old(proofs)[k]
        invariant forall k <- known | k !in old(known) ::
          exists i <- census :: i.key == k && i.live && i.uid == uid && i.key.pid != self
      {
        if census[n].key.pid != self {
          PosedAt(census, answers, n, history);
          ghost var was := known.Keys;
          var v := Consider(census[n], answers(n));
          if v == Refused {
            assert RefusedAt(census, answers, n, was, history, baseline, foreign);
            return false;
          }
        }
        n := n + 1;
      }
      ok := true;
    }

    /** Remember a whole census. */
    method RememberAll(census: seq<Identity>) returns (ok: bool)
      requires Valid()
      modifies this`history, this`trail
      ensures Valid() && trail == old(trail).(recorded := trail.recorded)
      ensures old(trail).recorded <= trail.recorded <= old(trail).recorded + set i <- census
      ensures ok ==>
        && Remembers(history, census, self)
        && forall m | 0 <= m < |census| :: census[m].key.pid != self ==> census[m] in trail.recorded
      ensures !ok ==> exists i <- census :: i.key.pid != self && !Memorable(history, i)
    {
      hide ProofsOk, HistoryOk;
      var n := 0;
      while n < |census|
        invariant n <= |census| && Valid() && trail == old(trail).(recorded := trail.recorded)
        invariant old(trail).recorded <= trail.recorded <= old(trail).recorded + set i <- census
        invariant forall m | 0 <= m < n && census[m].key.pid != self ::
          && census[m] in trail.recorded && census[m].key.uniqueId in history
          && history[census[m].key.uniqueId].key == census[m].key
      {
        if census[n].key.pid != self {
          ok := Remember(census[n]);
          if !ok { return; }
        }
        n := n + 1;
      }
      ok := true;
    }

    /** The parent half of a gated spawn up to the release: the child is filed only if it is the directly
        spawned lifetime, holds the pipe and was acquired. */
    method BindSpawn(owner: Identity, child: Option<Identity>, pipe: Pipe, token: Token)
      returns (released: bool)
      requires Valid()
      modifies this`history, this`known, this`proofs, this`trail
      ensures Valid()
      ensures trail.asked == old(trail).asked + {Bound(owner, child, pipe, token)}
      ensures old(trail).recorded <= trail.recorded
      ensures forall i <- trail.recorded | i !in old(trail).recorded :: i == owner || child == Some(i)
      ensures forall k <- old(known) :: k in known && proofs[k] == old(proofs)[k]
      ensures forall k <- known | k !in old(known) :: proofs[k] == SpawnGate(owner.key)
      ensures released ==> child.Some? && child.value.key in known
      ensures released <==> Releasable(old(history), owner, child, pipe, token, self, uid, baseline)
      ensures !released ==> known == old(known)
    {
      hide ProofsOk, HistoryOk;
      ghost var q := Bound(owner, child, pipe, token);
      AskingKeepsProofs(proofs, baseline, uid, trail, q);
      trail := trail.(asked := trail.asked + {q});
      if !owner.live { return false; }
      var ok := Remember(owner);
      if !ok { return false; }
      if child.None? { return false; }
      var c := child.value;
      if !c.live || c.parentPid != self || c.parentUniqueId != owner.key.uniqueId || c.uid != uid
         || c.realUid != uid || c.key in baseline {
        return false;
      }
      if pipe != Inherited { return false; }
      ok := Remember(c);
      if !ok || token != Acquired { return false; }
      Admit(c, SpawnGate(owner.key), Evidence(q, []));
      released := true;
    }
  }

  /** Ownership over a whole run, whatever the host answers and however operations fail: nothing foreign is
      ever known, every known lifetime has a proof that the answers of this run, or of the one before, support,
      and no chain of proofs is circular. What each operation did is told from one stage to the next. */
  method Run(scope: Scope, operations: seq<Operation>) returns (results: seq<bool>, ghost stages: seq<Stage>)
    requires scope.Valid()
    modifies scope
    ensures scope.Valid() && scope.baseline == old(scope.baseline)
    ensures |results| == |operations| && |stages| == |operations| + 1
    ensures stages[0] == old(scope.At()) && stages[|operations|] == scope.At()
    ensures forall n | 0 <= n < |operations| ::
      && stages[n].trail.asked <= stages[n + 1].trail.asked && stages[n].known <= stages[n + 1].known
      && Done(operations[n], results[n], stages[n], stages[n + 1], scope.self, scope.uid, scope.baseline)
    ensures forall k <- old(scope.known) :: k in scope.known && scope.proofs[k] == old(scope.proofs)[k]
    ensures scope.known.Keys !! scope.baseline
    ensures forall k <- scope.known ::
      && k in scope.proofs && k in scope.trail.evidence
      && Supports(scope.trail.evidence[k], k, scope.proofs[k], scope.baseline, scope.uid, scope.trail)
    ensures forall q <- scope.trail.asked | q !in old(scope.trail).asked :: exists o <- operations :: Asks(o, q)
    ensures forall i <- scope.trail.recorded | i !in old(scope.trail).recorded :: exists o <- operations :: Shows(o, i)
    ensures forall path: seq<Key> | |path| > 1 && IsPath(scope.proofs, path) :: path[0] != path[|path| - 1]
  {
    hide Supports, HistoryOk, Remembers, Posed, Ranked, IsPath, Memorable, Done, ProofsOk, Shows, Asks;
    results, stages := [], [scope.At()];
    var n := 0;
    while n < |operations|
      invariant n <= |operations| && scope.Valid() && scope.baseline == old(scope.baseline)
      invariant |results| == n && |stages| == n + 1 && stages[0] == old(scope.At()) && stages[n] == scope.At()
      invariant forall m | 0 <= m < n ::
        && stages[m].trail.asked <= stages[m + 1].trail.asked && stages[m].known <= stages[m + 1].known
        && Done(operations[m], results[m], stages[m], stages[m + 1], scope.self, scope.uid, scope.baseline)
      invariant forall k <- old(scope.known) :: k in scope.known && scope.proofs[k] == old(scope.proofs)[k]
      invariant forall q <- scope.trail.asked | q !in old(scope.trail).asked :: exists o <- operations :: Asks(o, q)
      invariant forall i <- scope.trail.recorded | i !in old(scope.trail).recorded :: exists o <- operations :: Shows(o, i)
    {
      assert operations[n] in operations;
      var ok := Perform(scope, operations[n]);
      results, stages := results + [ok], stages + [scope.At()];
      n := n + 1;
    }
    AllSupported(scope);
  }

  lemma AllSupported(scope: Scope)
    requires scope.Valid()
    ensures scope.known.Keys !! scope.baseline
    ensures forall k <- scope.known ::
      && k in scope.proofs && k in scope.trail.evidence
      && Supports(scope.trail.evidence[k], k, scope.proofs[k], scope.baseline, scope.uid, scope.trail)
    ensures forall path: seq<Key> | |path| > 1 && IsPath(scope.proofs, path) :: path[0] != path[|path| - 1]
  {
    hide Supports, HistoryOk, Ranked, IsPath;
    forall path: seq<Key> | |path| > 1 && IsPath(scope.proofs, path) ensures path[0] != path[|path| - 1] {
      NoCircularProof(scope.proofs, scope.trail.rank, path);
    }
  }

  /** One operation. */
  method Perform(scope: Scope, operation: Operation) returns (ok: bool)
    requires scope.Valid()
    modifies scope
    ensures scope.Valid() && scope.baseline == old(scope.baseline)
    ensures Done(operation, ok, old(scope.At()), scope.At(), scope.self, scope.uid, scope.baseline)
    ensures old(scope.trail).asked <= scope.trail.asked && old(scope.known).Keys <= scope.known.Keys
    ensures forall k <- old(scope.known) :: k in scope.known && scope.proofs[k] == old(scope.proofs)[k]
    ensures forall q <- scope.trail.asked | q !in old(scope.trail).asked :: Asks(operation, q)
    ensures forall i <- scope.trail.recorded | i !in old(scope.trail).recorded :: Shows(operation, i)
  {
    hide Supports, HistoryOk, Remembers, Posed, Ranked, Memorable, ProofsOk, RosterOk, SomeRefused, Releasable;
    match operation
    case Census(identities, answers) => ok := scope.Discover(identities, answers);
    case Spawn(owner, child, pipe, token) => ok := scope.BindSpawn(owner, child, pipe, token);
  }
}
