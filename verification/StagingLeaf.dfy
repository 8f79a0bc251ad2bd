/** The leaf of the staging phases. Unlike the collector's it keeps no flag of its own for a close that it has
    dispatched: it relies on the parent's row, and its `close_one` does not look at it at all. */
module StagingLeaf {
  import opened Wrappers
  import opened LeafLedger

  /** A handle that the leaf acquired, and the row that the parent registered it in, if exactly one. */
  datatype Held = Held(handle: nat, row: Option<nat>)

  /** How the parent behaves in one close: what it marks, whether it raises, and whether retirement is unknown
      afterwards. */
  datatype ParentTurn = ParentTurn(attempted: bool, closed: bool, raises: bool, unknown: bool)

  /** Handles and their rows are the leaf's own, each once. */
  ghost predicate Rostered(held: seq<Held>, ledger: seq<Row>) {
    && (forall i, j | 0 <= i < j < |held| :: held[i].handle != held[j].handle)
    && (forall i | 0 <= i < |held| && held[i].row.Some? ::
          held[i].row.value < |ledger| && ledger[held[i].row.value].owner == held[i].handle)
  }

  /** The close of this handle would be dispatched: its row is registered and nothing is unknown. */
  predicate Dispatchable(h: Held, ledger: seq<Row>, unknown: bool) {
    h.row.Some? && h.row.value < |ledger| && ledger[h.row.value].owner == h.handle && !unknown
  }

  predicate Marked(h: Held, ledger: seq<Row>) {
    h.row.Some? && h.row.value < |ledger| && ledger[h.row.value].attempted
  }

  /** The ledger after the parent was asked to close. */
  function Asked(ledger: seq<Row>, row: nat, turn: ParentTurn): seq<Row>
    requires row < |ledger|
  {
    ledger[row := Row(ledger[row].owner, ledger[row].attempted || turn.attempted, turn.closed)]
  }

  datatype Sweep = Sweep(dispatched: seq<nat>, ledger: seq<Row>, unknown: bool)

  /** What the final close does with the first `n` handles, latest first. */
  function Swept(held: seq<Held>, ledger: seq<Row>, unknown: bool, turns: nat -> ParentTurn, n: nat): Sweep
    requires n <= |held|
    decreases n
  {
    if n == 0 || unknown then Sweep([], ledger, unknown) else
    var h := held[n - 1];
    if Marked(h, ledger) || !Dispatchable(h, ledger, unknown) then Swept(held, ledger, unknown, turns, n - 1)
    else
      var rest := Swept(held, Asked(ledger, h.row.value, turns(n - 1)), turns(n - 1).unknown, turns, n - 1);
      rest.(dispatched := [h.handle] + rest.dispatched)
  }

  lemma AskedRostered(held: seq<Held>, ledger: seq<Row>, row: nat, turn: ParentTurn)
    requires Rostered(held, ledger) && row < |ledger|
    ensures Rostered(held, Asked(ledger, row, turn)) && |Asked(ledger, row, turn)| == |ledger|
    ensures forall i | 0 <= i < |held| && held[i].row.Some? && held[i].row.value != row ::
      Asked(ledger, row, turn)[held[i].row.value] == ledger[held[i].row.value]
  {
  }

  ghost predicate Distinct(s: seq<nat>) {
    forall i, j | 0 <= i < j < |s| :: s[i] != s[j]
  }

  lemma DistinctConcat(a: seq<nat>, b: seq<nat>)
    ensures Distinct(a + b) <==> (Distinct(a) && Distinct(b) && forall x <- b :: x !in a)
  {
    var s := a + b;
    if Distinct(s) {
      forall i, j | 0 <= i < j < |a| ensures a[i] != a[j] { assert s[i] == a[i] && s[j] == a[j]; }
      forall i, j | 0 <= i < j < |b| ensures b[i] != b[j] { assert s[|a| + i] == b[i] && s[|a| + j] == b[j]; }
      forall x <- b ensures x !in a {
        var j :| 0 <= j < |b| && b[j] == x;
        forall i | 0 <= i < |a| ensures a[i] != x { assert s[i] == a[i] && s[|a| + j] == x; }
      }
    }
    if Distinct(a) && Distinct(b) && forall x <- b :: x !in a {
      forall i, j | 0 <= i < j < |s| ensures s[i] != s[j] {
        if j >= |a| {
          assert s[j] == b[j - |a|] && s[j] in b;
          if i < |a| { assert s[i] in a; }
        }
      }
    }
  }

  /** No handle is swept twice, and only handles of the leaf are. */
  lemma {:induction false} SweptOnce(held: seq<Held>, ledger: seq<Row>, unknown: bool, turns: nat -> ParentTurn, n: nat)
    requires n <= |held| && Rostered(held, ledger)
    ensures var s := Swept(held, ledger, unknown, turns, n);
      && Rostered(held, s.ledger) && |s.ledger| == |ledger|
      && Distinct(s.dispatched)
      && (forall h <- s.dispatched :: exists i | 0 <= i < n :: held[i].handle == h)
    decreases n
  {
    if n > 0 && !unknown {
      var h := held[n - 1];
      if Marked(h, ledger) || !Dispatchable(h, ledger, unknown) {
        SweptOnce(held, ledger, unknown, turns, n - 1);
      } else {
        AskedRostered(held, ledger, h.row.value, turns(n - 1));
        SweptOnce(held, Asked(ledger, h.row.value, turns(n - 1)), turns(n - 1).unknown, turns, n - 1);
        var rest := Swept(held, Asked(ledger, h.row.value, turns(n - 1)), turns(n - 1).unknown, turns, n - 1);
        assert forall x <- rest.dispatched :: x != h.handle;
        DistinctConcat([h.handle], rest.dispatched);
      }
    }
  }

  /** The final close dispatches a handle exactly when its registered row is not marked, nothing is unknown, and
      no later handle that it dispatches first leaves retirement unknown. */
  lemma {:induction false} SweptExactly(held: seq<Held>, ledger: seq<Row>, unknown: bool, turns: nat -> ParentTurn,
                                        n: nat, i: nat)
    requires i < n <= |held| && Rostered(held, ledger)
    ensures held[i].handle in Swept(held, ledger, unknown, turns, n).dispatched
       <==> (&& !Marked(held[i], ledger) && Dispatchable(held[i], ledger, unknown)
             && forall j | i < j < n && !Marked(held[j], ledger) && Dispatchable(held[j], ledger, unknown) :: !turns(j).unknown)
    decreases n
  {
    if !unknown {
      var h := held[n - 1];
      if Marked(h, ledger) || !Dispatchable(h, ledger, unknown) {
        if i < n - 1 {
          SweptExactly(held, ledger, unknown, turns, n - 1, i);
        } else {
          SweptOnce(held, ledger, unknown, turns, n - 1);
        }
      } else {
        var now, after := Asked(ledger, h.row.value, turns(n - 1)), turns(n - 1).unknown;
        AskedRostered(held, ledger, h.row.value, turns(n - 1));
        if i < n - 1 {
          SweptExactly(held, now, after, turns, n - 1, i);
          forall j | 0 <= j < n - 1 ensures Marked(held[j], now) == Marked(held[j], ledger)
          ensures Dispatchable(held[j], now, after) == (Dispatchable(held[j], ledger, unknown) && !after)
          {
            OtherRow(held, ledger, j, n - 1, turns(n - 1));
          }
        }
      }
    }
  }

  lemma OtherRow(held: seq<Held>, ledger: seq<Row>, j: nat, m: nat, turn: ParentTurn)
    requires Rostered(held, ledger) && j < m < |held| && held[m].row.Some?
    ensures var now := Asked(ledger, held[m].row.value, turn);
      Marked(held[j], now) == Marked(held[j], ledger) &&
      forall u: bool :: Dispatchable(held[j], now, u) == Dispatchable(held[j], ledger, u)
  {
    assert held[j].handle != held[m].handle;
  }

  /** A parent that closes what it is asked to. */
  predicate Obliging(turn: ParentTurn) {
    turn.attempted && turn.closed && !turn.raises && !turn.unknown
  }

  /** Every handle is registered, a marked one is closed, and from number `n` on all are. */
  ghost predicate Orderly(held: seq<Held>, ledger: seq<Row>, n: nat) {
    forall i | 0 <= i < |held| ::
      && held[i].row.Some? && held[i].row.value < |ledger| && ledger[held[i].row.value].owner == held[i].handle
      && (n <= i ==> Marked(held[i], ledger)) && (Marked(held[i], ledger) ==> ledger[held[i].row.value].closed)
  }

  lemma OrderlyAsked(held: seq<Held>, ledger: seq<Row>, n: nat, turn: ParentTurn)
    requires Orderly(held, ledger, n + 1) && n < |held| && Obliging(turn)
    ensures Dispatchable(held[n], ledger, false) && Marked(held[n], Asked(ledger, held[n].row.value, turn))
    ensures Orderly(held, Asked(ledger, held[n].row.value, turn), n)
  {
  }

  lemma OrderlyPassed(held: seq<Held>, ledger: seq<Row>, n: nat)
    requires Orderly(held, ledger, n + 1) && n < |held| && Marked(held[n], ledger)
    ensures Orderly(held, ledger, n)
  {
  }

  lemma OrderlyClosed(held: seq<Held>, ledger: seq<Row>)
    requires Orderly(held, ledger, 0)
    ensures forall i | 0 <= i < |held| :: Marked(held[i], ledger) && ledger[held[i].row.value].closed
  {
  }

  lemma SweptNothing(held: seq<Held>, ledger: seq<Row>, unknown: bool, turns: nat -> ParentTurn, n: nat)
    requires n <= |held| && (n == 0 || unknown)
    ensures Swept(held, ledger, unknown, turns, n) == Sweep([], ledger, unknown)
  {
  }

  class Leaf {
    var held: seq<Held>
    var ledger: seq<Row>
    var unknown: bool
    var failed: bool
    ghost var dispatched: seq<nat>

    ghost predicate Valid()
      reads this
    {
      Rostered(held, ledger) && forall h <- dispatched :: exists i | 0 <= i < |held| :: held[i].handle == h
    }

    /** Where the leaf stands. */
    ghost function At(): Stage
      reads this
    {
      Stage(ledger, unknown, dispatched)
    }

    constructor (held: seq<Held>, ledger: seq<Row>)
      requires Rostered(held, ledger)
      ensures Valid() && this.held == held && this.ledger == ledger && !unknown && !failed && dispatched == []
    {
      this.held, this.ledger, unknown, failed, dispatched := held, ledger, false, false, [];
    }

    /** Ask the parent to close handle number `i`, whether or not that was done before. */
    method CloseOne(i: nat, turn: ParentTurn) returns (ok: bool)
      requires Valid() && i < |held|
      modifies this`ledger, this`unknown, this`dispatched
      ensures Valid()
      ensures if Dispatchable(held[i], old(ledger), old(unknown))
              then && dispatched == old(dispatched) + [held[i].handle] && unknown == turn.unknown
                   && ledger == Asked(old(ledger), held[i].row.value, turn)
                   && (ok <==> !turn.raises && turn.closed && Marked(held[i], ledger) && !unknown && !failed)
              else !ok && dispatched == old(dispatched) && unknown == old(unknown) && ledger == old(ledger)
    {
      var h := held[i];
      if !Dispatchable(h, ledger, unknown) { return false; }
      AskedRostered(held, ledger, h.row.value, turn);
      dispatched := dispatched + [h.handle];
      ledger, unknown := Asked(ledger, h.row.value, turn), turn.unknown;
      ok := !turn.raises && Marked(h, ledger) && turn.closed && !unknown && !failed;
    }

    /** The final close, latest handle first; a row that the parent has marked is passed over. */
    method Close(turns: nat -> ParentTurn) returns (ok: bool)
      requires Valid()
      modifies this`ledger, this`unknown, this`failed, this`dispatched
      ensures Valid()
      ensures var s := Swept(held, old(ledger), old(unknown), turns, |held|);
        dispatched == old(dispatched) + s.dispatched && ledger == s.ledger && unknown == s.unknown
      ensures ok ==> !unknown && forall i | 0 <= i < |held| :: Marked(held[i], ledger) && ledger[held[i].row.value].closed
      ensures !old(unknown) && !old(failed) && Orderly(held, old(ledger), |held|) && (forall n: nat :: Obliging(turns(n))) ==>
        ok
    {
      hide Rostered, Orderly, Swept, Obliging;
      var n := |held|;
      ghost var s := Swept(held, ledger, unknown, turns, n);
      ghost var good := !unknown && !failed && Orderly(held, ledger, n) && forall m: nat :: Obliging(turns(m));
      while n > 0 && !unknown
        invariant 0 <= n <= |held| && Valid()
        invariant var rest := Swept(held, ledger, unknown, turns, n);
          old(dispatched) + s.dispatched == dispatched + rest.dispatched && s.ledger == rest.ledger && s.unknown == rest.unknown
        invariant good ==> !unknown && !failed && Orderly(held, ledger, n)
      {
        n := n - 1;
        CloseNext(n, turns);
      }
      SweptNothing(held, ledger, unknown, turns, n);
      if good { OrderlyClosed(held, ledger); }
      ok := !failed && !unknown && forall i | 0 <= i < |held| :: Marked(held[i], ledger) && ledger[held[i].row.value].closed;
    }

    /** One step of the final close. */
    method CloseNext(n: nat, turns: nat -> ParentTurn)
      requires Valid() && n < |held| && !unknown
      modifies this`ledger, this`unknown, this`failed, this`dispatched
      ensures Valid()
      ensures var s, rest := Swept(held, old(ledger), false, turns, n + 1), Swept(held, ledger, unknown, turns, n);
        old(dispatched) + s.dispatched == dispatched + rest.dispatched && s.ledger == rest.ledger && s.unknown == rest.unknown
      ensures !old(failed) && Orderly(held, old(ledger), n + 1) && Obliging(turns(n)) ==>
        !unknown && !failed && Orderly(held, ledger, n)
    {
      hide Rostered, Orderly;
      ghost var good := Orderly(held, ledger, n + 1) && Obliging(turns(n));
      var h := held[n];
      if Marked(h, ledger) {
        if good { OrderlyPassed(held, ledger, n); }
      } else {
        if good { OrderlyAsked(held, ledger, n, turns(n)); }
        ghost var before := dispatched;
        var done := CloseOne(n, turns(n));
        if !done { failed := true; }
        ghost var rest := Swept(held, ledger, unknown, turns, n);
        assert (before + [h.handle]) + rest.dispatched == before + ([h.handle] + rest.dispatched);
      }
    }
  }

  datatype Call = One(handle: nat, turn: ParentTurn) | All(turns: nat -> ParentTurn)

  /** What a run has come to: the parent's ledger, whether retirement is unknown, and the handles asked for. */
  datatype Stage = Stage(ledger: seq<Row>, unknown: bool, dispatched: seq<nat>)

  /** The handles are the leaf's own, and nobody else's was asked for. */
  ghost predicate StageOk(held: seq<Held>, s: Stage) {
    Rostered(held, s.ledger) && forall h <- s.dispatched :: exists i | 0 <= i < |held| :: held[i].handle == h
  }

  /** What one call makes of a stage. `handle` is a place in the leaf's list; a call for a handle that is not the
      leaf's is refused. */
  function Did(call: Call, held: seq<Held>, s: Stage): Stage {
    match call
    case One(i, turn) =>
      if i < |held| && Dispatchable(held[i], s.ledger, s.unknown)
      then Stage(Asked(s.ledger, held[i].row.value, turn), turn.unknown, s.dispatched + [held[i].handle])
      else s
    case All(turns) =>
      var sweep := Swept(held, s.ledger, s.unknown, turns, |held|);
      Stage(sweep.ledger, sweep.unknown, s.dispatched + sweep.dispatched)
  }

  /** The stage after the first `n` calls. */
  function After(calls: seq<Call>, held: seq<Held>, start: Stage, n: nat): Stage
    requires n <= |calls|
  {
    if n == 0 then start else Did(calls[n - 1], held, After(calls, held, start, n - 1))
  }

  /** The call would not ask again for a handle that was asked for already. */
  ghost predicate Safe(c: Call, held: seq<Held>, s: Stage) {
    match c
    case One(i, _) => i < |held| && held[i].handle in s.dispatched ==> !Dispatchable(held[i], s.ledger, s.unknown)
    case All(turns) =>
      forall i | 0 <= i < |held| && held[i].handle in s.dispatched && Dispatchable(held[i], s.ledger, s.unknown) ::
        || Marked(held[i], s.ledger)
        || exists j | i < j < |held| && !Marked(held[j], s.ledger) && Dispatchable(held[j], s.ledger, s.unknown) ::
             turns(j).unknown
  }

  /** The calls name each handle at most once, and all of them before any final close. */
  ghost predicate Careful(calls: seq<Call>) {
    forall a, b | 0 <= a < b < |calls| && calls[b].One? :: calls[a].One? && calls[a].handle != calls[b].handle
  }

  /** The parent marks the row of every handle that it is asked to close. */
  ghost predicate Marks(c: Call) {
    if c.One? then c.turn.attempted else forall n: nat :: c.turns(n).attempted
  }

  /** The final close asks again for a handle exactly when it is not safe. */
  lemma SweepSafe(turns: nat -> ParentTurn, held: seq<Held>, s: Stage)
    requires StageOk(held, s) && Distinct(s.dispatched)
    ensures Distinct(Did(All(turns), held, s).dispatched) <==> Safe(All(turns), held, s)
  {
    var sweep := Swept(held, s.ledger, s.unknown, turns, |held|);
    SweptOnce(held, s.ledger, s.unknown, turns, |held|);
    DistinctConcat(s.dispatched, sweep.dispatched);
    forall i | 0 <= i < |held|
      ensures held[i].handle in sweep.dispatched <==>
        (&& !Marked(held[i], s.ledger) && Dispatchable(held[i], s.ledger, s.unknown)
         && forall j | i < j < |held| && !Marked(held[j], s.ledger) && Dispatchable(held[j], s.ledger, s.unknown) ::
              !turns(j).unknown)
    {
      SweptExactly(held, s.ledger, s.unknown, turns, |held|, i);
    }
    hide Swept, Marked, Dispatchable, Rostered, Distinct;
  }

  /** One call keeps the handles apart exactly when they were apart and the call was safe. */
  lemma DidSafe(call: Call, held: seq<Held>, s: Stage)
    requires StageOk(held, s)
    ensures StageOk(held, Did(call, held, s))
    ensures Distinct(Did(call, held, s).dispatched) <==> Distinct(s.dispatched) && Safe(call, held, s)
  {
    hide Swept, Marked, Distinct;
    match call
    case One(i, turn) =>
      if i < |held| && Dispatchable(held[i], s.ledger, s.unknown) {
        AskedRostered(held, s.ledger, held[i].row.value, turn);
        DistinctConcat(s.dispatched, [held[i].handle]);
        SingleDistinct(held[i].handle);
      }
    case All(turns) =>
      SweptOnce(held, s.ledger, s.unknown, turns, |held|);
      DistinctConcat(s.dispatched, Swept(held, s.ledger, s.unknown, turns, |held|).dispatched);
      if Distinct(s.dispatched) { SweepSafe(turns, held, s); }
  }

  /** Any calls, any parent: no handle is asked for twice exactly when every call was safe when it was made. */
  lemma {:induction false} OnceExactly(calls: seq<Call>, held: seq<Held>, start: Stage, n: nat)
    requires n <= |calls| && StageOk(held, start) && Distinct(start.dispatched)
    ensures StageOk(held, After(calls, held, start, n))
    ensures Distinct(After(calls, held, start, n).dispatched)
       <==> forall m | 0 <= m < n :: Safe(calls[m], held, After(calls, held, start, m))
  {
    hide Safe, Rostered, Distinct, StageOk, Did, Swept, Dispatchable;
    if n > 0 {
      OnceExactly(calls, held, start, n - 1);
      DidSafe(calls[n - 1], held, After(calls, held, start, n - 1));
    }
  }

  /** A whole run: it comes to what its calls make of the beginning, and no handle is asked for twice exactly when
      every call was safe when it was made. */
  method Run(leaf: Leaf, calls: seq<Call>)
    requires leaf.Valid() && leaf.dispatched == []
    modifies leaf
    ensures leaf.Valid() && leaf.held == old(leaf.held)
    ensures leaf.At() == After(calls, leaf.held, old(leaf.At()), |calls|)
    ensures Distinct(leaf.dispatched)
       <==> forall n | 0 <= n < |calls| :: Safe(calls[n], leaf.held, After(calls, leaf.held, old(leaf.At()), n))
  {
    hide Safe, Rostered, Distinct, Did;
    var n := 0;
    ghost var start := leaf.At();
    while n < |calls|
      invariant n <= |calls| && leaf.Valid() && leaf.held == old(leaf.held)
      invariant leaf.At() == After(calls, leaf.held, start, n)
    {
      Perform(leaf, calls[n]);
      n := n + 1;
    }
    NothingDistinct();
    OnceExactly(calls, leaf.held, start, |calls|);
  }

  /** One call, and exactly what it makes of the leaf. */
  method Perform(leaf: Leaf, call: Call)
    requires leaf.Valid()
    modifies leaf
    ensures leaf.Valid() && leaf.held == old(leaf.held) && leaf.At() == Did(call, leaf.held, old(leaf.At()))
  {
    hide Swept, Rostered;
    match call
    case One(i, turn) =>
      if i < |leaf.held| {
        var ok := leaf.CloseOne(i, turn);
      }
    case All(turns) =>
      var ok := leaf.Close(turns);
  }

  lemma SingleDistinct(x: nat)
    ensures Distinct([x])
  {
  }

  lemma NothingDistinct()
    ensures Distinct([])
  {
  }

  /** With a parent that marks every row it is asked to close, and calls that name no handle twice nor after the
      final close, no handle is ever asked for twice: both conditions are needed, as the two runs below show. */
  lemma CarefulRun(calls: seq<Call>, held: seq<Held>, start: Stage)
    requires StageOk(held, start) && start.dispatched == []
    requires Careful(calls) && forall c <- calls :: Marks(c)
    ensures Distinct(After(calls, held, start, |calls|).dispatched)
  {
    hide Safe, Distinct, Careful, StageOk;
    NothingDistinct();
    CarefulCalls(calls, held, start, |calls|);
    OnceExactly(calls, held, start, |calls|);
  }

  /** Every handle asked for has its row marked. */
  ghost predicate AllMarked(held: seq<Held>, s: Stage) {
    forall i | 0 <= i < |held| && held[i].handle in s.dispatched :: Marked(held[i], s.ledger)
  }

  /** Before any final close, what was asked for was named by one of the first `n` calls. */
  ghost predicate Named(calls: seq<Call>, held: seq<Held>, dispatched: seq<nat>, n: nat)
    requires n <= |calls|
  {
    (forall m | 0 <= m < n :: calls[m].One?) ==>
      forall h <- dispatched :: exists m | 0 <= m < n :: calls[m].handle < |held| && held[calls[m].handle].handle == h
  }

  lemma {:induction false} CarefulCalls(calls: seq<Call>, held: seq<Held>, start: Stage, n: nat)
    requires StageOk(held, start) && start.dispatched == [] && n <= |calls|
    requires Careful(calls) && forall c <- calls :: Marks(c)
    ensures var s := After(calls, held, start, n); StageOk(held, s) && AllMarked(held, s) && Named(calls, held, s.dispatched, n)
    ensures forall m | 0 <= m < n :: Safe(calls[m], held, After(calls, held, start, m))
  {
    hide Safe, Swept, Rostered, StageOk, Distinct, Did, Dispatchable, Careful, Marked;
    if n > 0 {
      CarefulCalls(calls, held, start, n - 1);
      var s, c := After(calls, held, start, n - 1), calls[n - 1];
      assert Marks(c);
      DidSafe(c, held, s);
      CarefulCall(calls, held, s, n - 1);
      MarkedCall(c, held, s);
      NamedCall(calls, held, s, n);
    }
  }

  lemma NamedCall(calls: seq<Call>, held: seq<Held>, s: Stage, n: nat)
    requires 0 < n <= |calls| && Named(calls, held, s.dispatched, n - 1)
    ensures Named(calls, held, Did(calls[n - 1], held, s).dispatched, n)
  {
    hide Swept, Dispatchable;
    var asked := Did(calls[n - 1], held, s).dispatched;
    if forall m | 0 <= m < n :: calls[m].One? {
      forall h <- asked
        ensures exists m | 0 <= m < n :: calls[m].handle < |held| && held[calls[m].handle].handle == h
      {
        if h !in s.dispatched { assert h == held[calls[n - 1].handle].handle; }
      }
    }
  }

  lemma CarefulCall(calls: seq<Call>, held: seq<Held>, s: Stage, n: nat)
    requires n < |calls| && Careful(calls) && StageOk(held, s) && AllMarked(held, s) && Named(calls, held, s.dispatched, n)
    ensures Safe(calls[n], held, s)
  {
    hide Dispatchable;
    var c := calls[n];
    if c.One? && c.handle < |held| {
      forall h <- s.dispatched ensures h != held[c.handle].handle {
        var m :| 0 <= m < n && calls[m].handle < |held| && held[calls[m].handle].handle == h;
        assert calls[m].handle < c.handle || c.handle < calls[m].handle;
      }
    }
  }

  /** A marking parent leaves every row that it was asked for marked. */
  lemma MarkedCall(call: Call, held: seq<Held>, s: Stage)
    requires StageOk(held, s) && AllMarked(held, s) && Marks(call)
    ensures AllMarked(held, Did(call, held, s))
  {
    hide Swept;
    match call
    case One(i, turn) =>
      if i < |held| && Dispatchable(held[i], s.ledger, s.unknown) {
        forall j | 0 <= j < |held| && held[j].handle in Did(call, held, s).dispatched
          ensures Marked(held[j], Did(call, held, s).ledger)
        {
          assert j != i ==> held[j].handle in s.dispatched;
        }
      }
    case All(turns) =>
      SweptMarks(held, s.ledger, s.unknown, turns, |held|);
  }

  /** A marking parent marks whatever the final close asks for, and unmarks nothing. */
  lemma {:induction false} SweptMarks(held: seq<Held>, ledger: seq<Row>, unknown: bool, turns: nat -> ParentTurn, n: nat)
    requires n <= |held| && Rostered(held, ledger) && forall m: nat :: turns(m).attempted
    ensures var s := Swept(held, ledger, unknown, turns, n);
      forall i | 0 <= i < |held| && (Marked(held[i], ledger) || held[i].handle in s.dispatched) :: Marked(held[i], s.ledger)
    decreases n
  {
    if n > 0 && !unknown {
      var h := held[n - 1];
      if Marked(h, ledger) || !Dispatchable(h, ledger, unknown) {
        SweptMarks(held, ledger, unknown, turns, n - 1);
      } else {
        var now := Asked(ledger, h.row.value, turns(n - 1));
        AskedRostered(held, ledger, h.row.value, turns(n - 1));
        SweptMarks(held, now, turns(n - 1).unknown, turns, n - 1);
        assert Marked(h, now);
        forall i | 0 <= i < |held| && Marked(held[i], ledger) ensures Marked(held[i], now) {}
        assert forall i | 0 <= i < |held| && i != n - 1 :: held[i].handle != h.handle;
      }
    }
  }

  /** A parent that does not mark: the leaf closes its one handle, and the final close asks for it again. */
  method UnmarkedTwice() returns (leaf: Leaf)
    ensures leaf.dispatched == [7, 7]
  {
    leaf := new Leaf([Held(7, Some(0))], [Row(7, false, false)]);
    var forgetful := ParentTurn(false, true, false, false);
    var ok := leaf.CloseOne(0, forgetful);
    assert leaf.ledger == [Row(7, false, true)];
    ghost var s := Swept(leaf.held, leaf.ledger, false, _ => forgetful, 1);
    assert s.dispatched == [7] + Swept(leaf.held, Asked(leaf.ledger, 0, forgetful), false, _ => forgetful, 0).dispatched;
    ok := leaf.Close(_ => forgetful);
  }

  /** A handle named twice is asked for twice, however faithfully the parent marks it. */
  method NamedTwice() returns (leaf: Leaf)
    ensures leaf.dispatched == [7, 7]
  {
    leaf := new Leaf([Held(7, Some(0))], [Row(7, false, false)]);
    var faithful := ParentTurn(true, true, false, false);
    var ok := leaf.CloseOne(0, faithful);
    ok := leaf.CloseOne(0, faithful);
  }
}
