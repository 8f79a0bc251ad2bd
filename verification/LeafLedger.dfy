/** A leaf's resource duties inside its parent's ledger: what it acquired it closes, once, and nothing else,
    whatever the parent and the host do. */
module LeafLedger {
  import opened Wrappers

  const RESOURCES := 4096

  /** A row of the parent's ledger; a handle is known by its identity. */
  datatype Row = Row(owner: nat, attempted: bool, closed: bool)

  /** The leaf's own reference to a handle it acquired, and where the parent registered it. */
  datatype Pin = Pin(value: nat, row: Option<nat>, attempted: bool, closed: bool)

  /** How the parent and the factory behave in one acquisition. The factory may return any handle, even one
      that somebody holds already; the parent may register it any number of times, raise, or return another. */
  datatype AcquireTurn = AcquireTurn(
    checked: bool, invoked: bool, produced: Option<nat>, registrations: nat, raises: bool, returned: nat,
    parentUnknown: bool, checkedAfter: bool)

  /** How the parent, the clocks and the host behave in one close. */
  datatype CloseTurn = CloseTurn(
    live: bool, clockFails: bool, clockUnknown: bool, raises: bool, attempted: bool, closed: bool,
    parentUnknown: bool, clockFailsAfter: bool, clockUnknownAfter: bool)

  function Copies(row: Row, n: nat): (rows: seq<Row>)
    ensures |rows| == n && forall r <- rows :: r == row
  {
    if n == 0 then [] else [row] + Copies(row, n - 1)
  }

  predicate Owns(ledger: seq<Row>, value: nat) {
    exists r <- ledger :: r.owner == value
  }

  ghost predicate NoRepeats(s: seq<nat>) {
    s == [] || (NoRepeats(s[..|s| - 1]) && s[|s| - 1] !in s[..|s| - 1])
  }

  /** Each pin has its own handle, never one that was in the ledger before the leaf began. */
  ghost predicate PinsOk(pins: seq<Pin>, place: map<nat, nat>, borrowed: set<nat>) {
    && (forall i | 0 <= i < |pins| :: pins[i].value in place && place[pins[i].value] == i && pins[i].value !in borrowed)
    && (forall v <- place :: place[v] < |pins| && pins[place[v]].value == v)
  }

  /** Every registered pin names a row of its own handle; without one the retirement is unknown. */
  ghost predicate RowsOk(pins: seq<Pin>, ledger: seq<Row>, unknown: bool) {
    forall i | 0 <= i < |pins| ::
      && (pins[i].row.None? ==> unknown)
      && (pins[i].row.Some? ==> pins[i].row.value < |ledger| && ledger[pins[i].row.value].owner == pins[i].value)
      && (pins[i].closed ==> pins[i].attempted)
  }

  /** What was dispatched was pinned and attempted, and each handle once. */
  ghost predicate DispatchedOk(dispatched: seq<nat>, pins: seq<Pin>, place: map<nat, nat>) {
    NoRepeats(dispatched) && forall v <- dispatched :: v in place && place[v] < |pins| && pins[place[v]].attempted
  }

  /** Every row is of a handle that was there before or that the leaf pinned, and the former stay. */
  ghost predicate Booked(ledger: seq<Row>, place: map<nat, nat>, borrowed: set<nat>) {
    && (forall r <- ledger :: r.owner in borrowed || r.owner in place)
    && (forall v <- borrowed :: Owns(ledger, v))
  }

  lemma LedgerGrows(pins: seq<Pin>, before: seq<Row>, added: seq<Row>, unknown: bool, maybe: bool)
    requires RowsOk(pins, before, unknown)
    ensures RowsOk(pins, before + added, unknown || maybe)
  {
    forall i | 0 <= i < |pins| && pins[i].row.Some?
      ensures (before + added)[pins[i].row.value] == before[pins[i].row.value] {}
  }

  lemma BookedGrows(before: seq<Row>, value: nat, n: nat, place: map<nat, nat>, borrowed: set<nat>, at: nat)
    requires Booked(before, place, borrowed)
    ensures value in borrowed || value in place ==> Booked(before + Copies(Row(value, false, false), n), place, borrowed)
    ensures Booked(before + Copies(Row(value, false, false), n), place[value := at], borrowed)
  {
    var ledger := before + Copies(Row(value, false, false), n);
    forall v <- borrowed ensures Owns(ledger, v) {
      var r :| r in before && r.owner == v;
      assert r in ledger;
    }
  }

  lemma Dispatched(dispatched: seq<nat>, pins: seq<Pin>, place: map<nat, nat>, i: nat)
    requires DispatchedOk(dispatched, pins, place) && i < |pins| && !pins[i].attempted
    requires pins[i].value in place && place[pins[i].value] == i
    ensures NoRepeats(dispatched + [pins[i].value])
  {
    assert (dispatched + [pins[i].value])[..|dispatched|] == dispatched;
  }

  /** While nothing is unknown, the handle of every pin is in the ledger; so a handle that is not there is
      nobody's. */
  lemma Unowned(pins: seq<Pin>, place: map<nat, nat>, borrowed: set<nat>, ledger: seq<Row>, value: nat)
    requires PinsOk(pins, place, borrowed) && RowsOk(pins, ledger, false) && Booked(ledger, place, borrowed)
    ensures !Owns(ledger, value) ==> value !in place && value !in borrowed
    ensures Owns(ledger, value) ==> value in place || value in borrowed
  {
    if value in place {
      var pin := pins[place[value]];
      assert ledger[pin.row.value] in ledger;
    }
  }

  /** A handle of nobody's is pinned. */
  lemma Pinned(pins: seq<Pin>, place: map<nat, nat>, borrowed: set<nat>, before: seq<Row>, unknown: bool,
               dispatched: seq<nat>, value: nat, n: nat)
    requires PinsOk(pins, place, borrowed) && RowsOk(pins, before, unknown) && DispatchedOk(dispatched, pins, place)
    requires value !in place && value !in borrowed
    ensures var pin := Pin(value, if n == 1 then Some(|before|) else None, false, false);
      && PinsOk(pins + [pin], place[value := |pins|], borrowed)
      && RowsOk(pins + [pin], before + Copies(Row(value, false, false), n), unknown || n != 1)
      && DispatchedOk(dispatched, pins + [pin], place[value := |pins|])
  {
    hide Owns, NoRepeats;
    LedgerGrows(pins, before, Copies(Row(value, false, false), n), unknown, n != 1);
  }

  lemma Weakened(pins: seq<Pin>, ledger: seq<Row>, unknown: bool)
    requires RowsOk(pins, ledger, false)
    ensures RowsOk(pins, ledger, unknown)
  {
  }

  /** Pin `i` is attempted: its row and its flags change, and nothing else. */
  lemma Attempted(pins: seq<Pin>, place: map<nat, nat>, borrowed: set<nat>, ledger: seq<Row>, unknown: bool,
                  dispatched: seq<nat>, i: nat, attempted: bool, closed: bool, known: bool)
    requires PinsOk(pins, place, borrowed) && RowsOk(pins, ledger, unknown) && DispatchedOk(dispatched, pins, place)
    requires Booked(ledger, place, borrowed) && i < |pins| && pins[i].row.Some? && !pins[i].attempted
    ensures pins[i].row.value < |ledger|
    ensures var now := pins[i := pins[i].(attempted := true, closed := known)];
      var rows := ledger[pins[i].row.value := Row(pins[i].value, attempted, closed)];
      && PinsOk(now, place, borrowed) && RowsOk(now, rows, unknown) && Booked(rows, place, borrowed)
      && DispatchedOk(dispatched + [pins[i].value], now, place)
  {
    Dispatched(dispatched, pins, place, i);
    var row := pins[i].row.value;
    var rows := ledger[row := Row(pins[i].value, attempted, closed)];
    forall v <- borrowed ensures Owns(rows, v) {
      var k :| 0 <= k < |ledger| && ledger[k].owner == v;
      assert rows[k].owner == v && rows[k] in rows;
    }
    hide NoRepeats, Owns;
  }

  // ----- what each operation makes of the duties -----

  /** The duties of a leaf: the parent's ledger, the leaf's pins, what is unknown or has failed, the handles whose
      close was dispatched, and all handles that its factories made and that nobody held before. */
  datatype Duties = Duties(ledger: seq<Row>, pins: seq<Pin>, parentUnknown: bool, unknown: bool, failed: bool,
                           dispatched: seq<nat>, acquired: set<nat>)

  /** The factory is reached: nothing has failed or is unknown, and there is room. */
  predicate Admissible(d: Duties, turn: AcquireTurn) {
    !d.failed && !d.unknown && !d.parentUnknown && turn.checked && |d.ledger| < RESOURCES
  }

  /** The new handle that the factory makes, if it makes one that no row owned. */
  function Gained(d: Duties, turn: AcquireTurn): set<nat> {
    if Admissible(d, turn) && turn.invoked && turn.produced.Some? && !Owns(d.ledger, turn.produced.value)
    then {turn.produced.value} else {}
  }

  function AfterAcquire(d: Duties, turn: AcquireTurn): Duties {
    if !Admissible(d, turn) then d
    else if !turn.invoked || turn.produced.None? then d.(parentUnknown := turn.parentUnknown, failed := true)
    else
      var value, n := turn.produced.value, turn.registrations;
      var mine := Gained(d, turn) != {};
      var lost := mine && n != 1;
      d.(ledger := d.ledger + Copies(Row(value, false, false), n),
         pins := d.pins + if mine then [Pin(value, if n == 1 then Some(|d.ledger|) else None, false, false)] else [],
         parentUnknown := turn.parentUnknown, unknown := lost,
         failed := !mine || lost || turn.raises || turn.returned != value || !turn.checkedAfter || turn.parentUnknown,
         acquired := d.acquired + Gained(d, turn))
  }

  /** The pin may be closed now: its registered row is untouched and nothing is unknown. */
  predicate Closable(d: Duties, i: nat, live: bool)
    requires i < |d.pins|
  {
    && !d.unknown && !d.parentUnknown && live && d.pins[i].row.Some? && d.pins[i].row.value < |d.ledger|
    && d.ledger[d.pins[i].row.value] == Row(d.pins[i].value, false, false)
  }

  /** The parent did what it was asked to, and said so. */
  predicate Known(turn: CloseTurn) {
    !turn.raises && turn.attempted && turn.closed && !turn.parentUnknown
  }

  function AfterClose(d: Duties, i: nat, turn: CloseTurn): (e: Duties)
    requires i < |d.pins|
    ensures |e.pins| == |d.pins| && e.acquired == d.acquired
  {
    var pin := d.pins[i];
    if pin.attempted || !Closable(d, i, turn.live) then d
    else if turn.clockFails && turn.clockUnknown then d.(failed := true, unknown := true)
    else
      Duties(d.ledger[pin.row.value := Row(pin.value, turn.attempted, turn.closed)],
             d.pins[i := pin.(attempted := true, closed := Known(turn))],
             turn.parentUnknown, !Known(turn) || (turn.clockFailsAfter && turn.clockUnknownAfter),
             d.failed || turn.clockFails || !Known(turn) || turn.clockFailsAfter,
             d.dispatched + [pin.value], d.acquired)
  }

  /** The final close of the first `n` pins, latest first. */
  function AfterSweep(d: Duties, turns: nat -> CloseTurn, n: nat): (e: Duties)
    requires n <= |d.pins|
    ensures |e.pins| == |d.pins| && e.acquired == d.acquired
    decreases n
  {
    if n == 0 || d.unknown || d.parentUnknown then d
    else if d.pins[n - 1].attempted then AfterSweep(d, turns, n - 1)
    else AfterSweep(Noted(AfterClose(d, n - 1, turns(n - 1)), n - 1), turns, n - 1)
  }

  /** A close that did not succeed is a failure; one that was not made leaves retirement unknown. */
  function Noted(d: Duties, i: nat): Duties
    requires i < |d.pins|
  {
    if d.pins[i].closed && !d.failed then d else d.(failed := true, unknown := d.unknown || !d.pins[i].closed)
  }

  /** The first pin of a handle, if there is one. */
  function PinOf(pins: seq<Pin>, value: nat, from: nat := 0): (i: nat)
    requires from <= |pins|
    ensures from <= i <= |pins| && (i < |pins| ==> pins[i].value == value)
    decreases |pins| - from
  {
    if from == |pins| || pins[from].value == value then from else PinOf(pins, value, from + 1)
  }

  function AfterOne(d: Duties, operation: Operation): Duties {
    match operation
    case Acquiring(turn) => AfterAcquire(d, turn)
    case Closing(handle, turn) => if PinOf(d.pins, handle) < |d.pins| then AfterClose(d, PinOf(d.pins, handle), turn) else d
  }

  /** The duties after the first `n` operations. */
  function AfterAll(d: Duties, operations: seq<Operation>, n: nat): Duties
    requires n <= |operations|
  {
    if n == 0 then d else AfterOne(AfterAll(d, operations, n - 1), operations[n - 1])
  }

  /** The handle is pinned and its close was attempted. */
  ghost predicate Tried(pins: seq<Pin>, v: nat) {
    exists p <- pins :: p.value == v && p.attempted
  }

  /** The handle is pinned and closed. */
  ghost predicate Closed(pins: seq<Pin>, v: nat) {
    exists p <- pins :: p.value == v && p.attempted && p.closed
  }

  /** Every pin is either closed or untouched in its row. */
  ghost predicate Tidy(pins: seq<Pin>, ledger: seq<Row>) {
    forall i | 0 <= i < |pins| ::
      if pins[i].attempted then pins[i].closed
      else pins[i].row.Some? && pins[i].row.value < |ledger| && ledger[pins[i].row.value] == Row(pins[i].value, false, false)
  }

  /** A parent that closes what it is asked to, in time. */
  predicate Good(turn: CloseTurn) {
    && turn.live && !turn.clockFails && !turn.raises && turn.attempted && turn.closed && !turn.parentUnknown
    && !turn.clockFailsAfter
  }

  lemma TidyClosed(pins: seq<Pin>, place: map<nat, nat>, borrowed: set<nat>, ledger: seq<Row>, i: nat)
    requires PinsOk(pins, place, borrowed) && Tidy(pins, ledger) && i < |pins| && !pins[i].attempted
    ensures pins[i].row.Some? && pins[i].row.value < |ledger|
    ensures Tidy(pins[i := pins[i].(attempted := true, closed := true)],
                 ledger[pins[i].row.value := Row(pins[i].value, true, true)])
  {
  }

  lemma TidyPinned(pins: seq<Pin>, ledger: seq<Row>, value: nat)
    requires Tidy(pins, ledger)
    ensures Tidy(pins + [Pin(value, Some(|ledger|), false, false)], ledger + Copies(Row(value, false, false), 1))
  {
    assert Copies(Row(value, false, false), 1)[0] == Row(value, false, false);
  }

  // ----- what every operation keeps -----

  ghost predicate DutiesOk(d: Duties, place: map<nat, nat>, borrowed: set<nat>) {
    && PinsOk(d.pins, place, borrowed) && RowsOk(d.pins, d.ledger, d.unknown)
    && DispatchedOk(d.dispatched, d.pins, place) && Booked(d.ledger, place, borrowed)
    && place.Keys == d.acquired && (d.unknown || d.parentUnknown ==> d.failed) && (d.failed || Tidy(d.pins, d.ledger))
  }

  /** Where each handle is pinned after an acquisition. */
  function Placed(d: Duties, place: map<nat, nat>, turn: AcquireTurn): map<nat, nat> {
    if Gained(d, turn) != {} then place[turn.produced.value := |d.pins|] else place
  }

  /** A new handle is pinned before the parent can fail, and is unknown unless registered exactly once; a handle
      that was in the ledger already is borrowed, not pinned. */
  lemma AcquireKeeps(d: Duties, place: map<nat, nat>, borrowed: set<nat>, turn: AcquireTurn)
    requires DutiesOk(d, place, borrowed)
    ensures DutiesOk(AfterAcquire(d, turn), Placed(d, place, turn), borrowed)
    ensures forall v <- Gained(d, turn) :: v !in borrowed && v !in d.acquired
  {
    hide PinsOk, RowsOk, DispatchedOk, Booked, Owns, Tidy, NoRepeats;
    if Admissible(d, turn) && turn.invoked && turn.produced.Some? {
      var value, n := turn.produced.value, turn.registrations;
      Unowned(d.pins, place, borrowed, d.ledger, value);
      BookedGrows(d.ledger, value, n, place, borrowed, |d.pins|);
      if Gained(d, turn) != {} {
        Pinned(d.pins, place, borrowed, d.ledger, false, d.dispatched, value, n);
        TidyPinned(d.pins, d.ledger, value);
      } else {
        LedgerGrows(d.pins, d.ledger, Copies(Row(value, false, false), n), false, false);
        assert AfterAcquire(d, turn).pins == d.pins;
      }
    }
  }

  lemma CloseKeeps(d: Duties, place: map<nat, nat>, borrowed: set<nat>, i: nat, turn: CloseTurn)
    requires DutiesOk(d, place, borrowed) && i < |d.pins|
    ensures DutiesOk(AfterClose(d, i, turn), place, borrowed)
    ensures AfterClose(d, i, turn).pins[i].closed ==> AfterClose(d, i, turn).pins[i].attempted
    ensures Good(turn) && !d.failed ==>
      !AfterClose(d, i, turn).failed && AfterClose(d, i, turn).pins[i].attempted && AfterClose(d, i, turn).pins[i].closed
  {
    hide PinsOk, RowsOk, DispatchedOk, Booked, Tidy;
    var e := AfterClose(d, i, turn);
    ClosedAttempted(d.pins, d.ledger, d.unknown);
    if !d.failed { TidyAt(d.pins, d.ledger, i); }
    if !d.pins[i].attempted && Closable(d, i, turn.live) {
      Weakened(d.pins, d.ledger, e.unknown);
      if !(turn.clockFails && turn.clockUnknown) {
        Attempted(d.pins, place, borrowed, d.ledger, e.unknown, d.dispatched, i, turn.attempted, turn.closed, Known(turn));
        if !e.failed { TidyClosed(d.pins, place, borrowed, d.ledger, i); }
      }
    }
  }

  lemma TidyAt(pins: seq<Pin>, ledger: seq<Row>, i: nat)
    requires Tidy(pins, ledger) && i < |pins|
    ensures if pins[i].attempted then pins[i].closed
            else pins[i].row.Some? && pins[i].row.value < |ledger| && ledger[pins[i].row.value] == Row(pins[i].value, false, false)
  {
  }

  lemma NotedKeeps(d: Duties, place: map<nat, nat>, borrowed: set<nat>, i: nat)
    requires DutiesOk(d, place, borrowed) && i < |d.pins|
    ensures DutiesOk(Noted(d, i), place, borrowed)
  {
    hide PinsOk, DispatchedOk, Booked, Tidy;
  }

  /** The final close leaves every pin attempted, or retirement unknown; what was unknown before stops it; and with
      a good parent nothing fails that had not failed before. */
  lemma {:induction false} SweepKeeps(d: Duties, place: map<nat, nat>, borrowed: set<nat>, turns: nat -> CloseTurn, n: nat)
    requires DutiesOk(d, place, borrowed) && n <= |d.pins|
    ensures var e := AfterSweep(d, turns, n);
      && DutiesOk(e, place, borrowed)
      && (d.unknown || d.parentUnknown ==> e == d)
      && (forall j | n <= j < |d.pins| :: e.pins[j] == d.pins[j])
      && (e.unknown || e.parentUnknown || forall j | 0 <= j < n :: e.pins[j].attempted)
      && (!d.failed && (forall m: nat :: Good(turns(m))) ==> !e.failed)
    decreases n
  {
    hide PinsOk, DispatchedOk, Booked, Tidy, DutiesOk, Good, RowsOk;
    if n > 0 && !d.unknown && !d.parentUnknown {
      if d.pins[n - 1].attempted {
        SweepKeeps(d, place, borrowed, turns, n - 1);
      } else {
        var c := AfterClose(d, n - 1, turns(n - 1));
        CloseKeeps(d, place, borrowed, n - 1, turns(n - 1));
        NotedKeeps(c, place, borrowed, n - 1);
        SweepKeeps(Noted(c, n - 1), place, borrowed, turns, n - 1);
      }
    }
  }

  lemma ClosedAttempted(pins: seq<Pin>, ledger: seq<Row>, unknown: bool)
    requires RowsOk(pins, ledger, unknown)
    ensures forall i | 0 <= i < |pins| :: pins[i].closed ==> pins[i].attempted
  {
  }

  /** Without a failure, all that was attempted is closed. */
  lemma TidyAll(pins: seq<Pin>, ledger: seq<Row>)
    requires Tidy(pins, ledger)
    ensures forall i | 0 <= i < |pins| :: pins[i].attempted ==> pins[i].closed
  {
  }

  /** What holds of every pin holds of every handle acquired. */
  lemma AllPinned(pins: seq<Pin>, place: map<nat, nat>, borrowed: set<nat>)
    requires PinsOk(pins, place, borrowed)
    ensures (forall p <- pins :: p.attempted) ==> forall v <- place :: Tried(pins, v)
    ensures (forall p <- pins :: p.attempted && p.closed) ==> forall v <- place :: Closed(pins, v)
  {
    forall v <- place ensures pins[place[v]] in pins && pins[place[v]].value == v {}
  }

  class Leaf {
    var ledger: seq<Row>
    var pins: seq<Pin>
    var parentUnknown: bool
    var unknown: bool
    var failed: bool
    ghost const borrowed: set<nat>
    ghost var place: map<nat, nat>
    ghost var dispatched: seq<nat>           // the handles whose close was dispatched, in order
    ghost var acquired: set<nat>             // the new handles that the factories made
    ghost var strayed: bool                  // a close was dispatched while retirement was unknown

    ghost function At(): Duties
      reads this
    {
      Duties(ledger, pins, parentUnknown, unknown, failed, dispatched, acquired)
    }

    ghost predicate Valid()
      reads this
    {
      DutiesOk(At(), place, borrowed) && !strayed
    }

    ghost predicate Unknown()
      reads this
    {
      unknown || parentUnknown
    }

    constructor (ledger: seq<Row>)
      ensures Valid() && pins == [] && dispatched == [] && !Unknown() && !failed
      ensures this.ledger == ledger && borrowed == (set r <- ledger :: r.owner) && acquired == {}
    {
      this.ledger, pins, parentUnknown, unknown, failed := ledger, [], false, false, false;
      borrowed, place, dispatched, strayed, acquired := set r <- ledger :: r.owner, map[], [], false, {};
    }

    /** Acquire through the parent. A new handle is among those acquired and is pinned, whatever the parent does
        then; without exactly one registration retirement is unknown. */
    method Acquire(turn: AcquireTurn) returns (r: Option<nat>)
      requires Valid()
      modifies this`ledger, this`pins, this`parentUnknown, this`unknown, this`failed, this`place, this`acquired
      ensures Valid() && At() == AfterAcquire(old(At()), turn)
      ensures acquired == old(acquired) + old(Gained(At(), turn))
      ensures forall v <- old(Gained(At(), turn)) ::
        && v !in borrowed && v !in old(acquired)
        && exists p <- pins :: p.value == v && !p.attempted && if turn.registrations == 1 then p.row.Some? else unknown
      ensures r.Some? ==> !Unknown() && !failed && old(Gained(At(), turn)) == {r.value}
      ensures r.None? && old(Admissible(At(), turn)) ==> failed
    {
      hide DutiesOk, Owns;
      AcquireKeeps(At(), place, borrowed, turn);
      place := Placed(At(), place, turn);
      r := None;
      if failed || unknown || parentUnknown || !turn.checked || |ledger| >= RESOURCES { return; }
      if !turn.invoked || turn.produced.None? {
        parentUnknown, failed := turn.parentUnknown, true;
        return;
      }
      var value, n := turn.produced.value, turn.registrations;
      var mine := !Owns(ledger, value);
      if mine {
        var pin := Pin(value, if n == 1 then Some(|ledger|) else None, false, false);
        acquired := acquired + {value};
        pins := pins + [pin];
        assert pins[|pins| - 1] == pin && pin in pins;
        if n != 1 { unknown, failed := true, true; }
      } else {
        assert pins + [] == pins && acquired + {} == acquired;
      }
      ledger := ledger + Copies(Row(value, false, false), n);
      parentUnknown := turn.parentUnknown;
      if turn.raises || turn.returned != value || !mine || !turn.checkedAfter || unknown || parentUnknown {
        failed := true;
        return;
      }
      r := Some(value);
    }

    predicate MayClose(i: nat, live: bool)
      requires i < |pins|
      reads this
      ensures MayClose(i, live) == Closable(At(), i, live)
    {
      && !unknown && !parentUnknown && live && pins[i].row.Some? && pins[i].row.value < |ledger|
      && ledger[pins[i].row.value] == Row(pins[i].value, false, false)
    }

    /** Close pin `i`. The close is dispatched at most once ever, and never while retirement is unknown. */
    method CloseOne(i: nat, turn: CloseTurn) returns (ok: bool)
      requires Valid() && i < |pins|
      modifies this`ledger, this`pins, this`parentUnknown, this`unknown, this`failed, this`dispatched, this`strayed
      ensures Valid() && At() == AfterClose(old(At()), i, turn)
      ensures old(Unknown()) ==> Unknown() && dispatched == old(dispatched)
      ensures forall j | 0 <= j < |pins| && j != i :: pins[j] == old(pins)[j]
      ensures dispatched == old(dispatched) || dispatched == old(dispatched) + [old(pins)[i].value]
      ensures old(pins)[i].attempted ==> pins == old(pins) && dispatched == old(dispatched)
      ensures ok <==> old(pins)[i].attempted || (pins[i].attempted && pins[i].closed && !failed)
      ensures pins[i].attempted && !old(pins)[i].attempted && !pins[i].closed ==> unknown
      ensures Good(turn) && !old(failed) ==> ok
    {
      hide DutiesOk, Good;
      CloseKeeps(At(), place, borrowed, i, turn);
      if pins[i].attempted { return true; }
      if !MayClose(i, turn.live) { return false; }
      if turn.clockFails {
        failed, unknown := true, turn.clockUnknown;
      }
      if !MayClose(i, turn.live) { return false; }
      strayed := strayed || unknown || parentUnknown;
      var pin := pins[i];
      dispatched := dispatched + [pin.value];
      ledger := ledger[pin.row.value := Row(pin.value, turn.attempted, turn.closed)];
      parentUnknown := turn.parentUnknown;
      pins := pins[i := pin.(attempted := true, closed := Known(turn))];
      if !Known(turn) { failed, unknown := true, true; }
      if turn.clockFailsAfter {
        failed, unknown := true, unknown || turn.clockUnknownAfter;
      }
      ok := pins[i].closed && !failed;
    }

    /** Close what is left, latest first, until something is unknown. Success means that every handle the leaf
        ever acquired was closed, each once; and a leaf without a failure succeeds with a good parent. */
    method Close(turns: nat -> CloseTurn) returns (ok: bool)
      requires Valid()
      modifies this`ledger, this`pins, this`parentUnknown, this`unknown, this`failed, this`dispatched, this`strayed
      ensures Valid() && At() == AfterSweep(old(At()), turns, |old(pins)|)
      ensures old(Unknown()) ==> Unknown() && dispatched == old(dispatched)
      ensures Unknown() || forall v <- acquired :: Tried(pins, v)
      ensures ok ==> !Unknown() && !failed && forall v <- acquired :: Closed(pins, v)
      ensures ok <==> !Unknown() && !failed && forall p <- pins :: p.attempted && p.closed
      ensures (forall n: nat :: Good(turns(n))) && !old(failed) ==> ok
    {
      hide PinsOk, RowsOk, DispatchedOk, Booked, Tidy, AfterClose, Tried, Closed, Good;
      SweepKeeps(At(), place, borrowed, turns, |pins|);
      var i := |pins|;
      ghost var all := AfterSweep(At(), turns, i);
      while i > 0 && !unknown && !parentUnknown
        invariant 0 <= i <= |pins| && Valid() && AfterSweep(At(), turns, i) == all
      {
        i := i - 1;
        if !pins[i].attempted {
          ghost var d := At();
          var done := CloseOne(i, turns(i));
          NotedKeeps(At(), place, borrowed, i);
          CloseKeeps(d, place, borrowed, i, turns(i));
          if !done {
            failed := true;
            if !pins[i].closed { unknown := true; }
          }
        }
      }
      ok := !failed && !unknown && !parentUnknown && forall p <- pins :: p.attempted && p.closed;
      AllPinned(pins, place, borrowed);
      if !failed { TidyAll(pins, ledger); }
    }
  }

  datatype Operation = Acquiring(acquire: AcquireTurn) | Closing(handle: nat, close: CloseTurn)

  /** A leaf from its first acquisition to its last close, whatever the parent, the clocks and the host do:
      no handle is closed twice, none that the leaf did not acquire, none while retirement is unknown; every
      handle that it acquired is attempted, or retirement is unknown; and success means that all are closed. */
  method Run(leaf: Leaf, operations: seq<Operation>, turns: nat -> CloseTurn) returns (ok: bool)
    requires leaf.Valid() && leaf.dispatched == []
    modifies leaf
    ensures var d := AfterAll(old(leaf.At()), operations, |operations|);
      && leaf.At() == AfterSweep(d, turns, |d.pins|)
      && ((forall n: nat :: Good(turns(n))) && !d.failed ==> ok)
    ensures NoRepeats(leaf.dispatched) && !leaf.strayed
    ensures forall v <- leaf.dispatched :: v !in leaf.borrowed && v in leaf.acquired
    ensures leaf.Unknown() || forall v <- leaf.acquired :: Tried(leaf.pins, v)
    ensures ok ==> !leaf.Unknown() && forall v <- leaf.acquired :: Closed(leaf.pins, v)
    ensures ok <==> !leaf.Unknown() && !leaf.failed && forall p <- leaf.pins :: p.attempted && p.closed
  {
    hide AfterClose, AfterAcquire, AfterSweep, RowsOk, Booked, Good, Tried, Closed, Tidy;
    var n := 0;
    ghost var start := leaf.At();
    while n < |operations|
      invariant n <= |operations| && leaf.Valid() && leaf.At() == AfterAll(start, operations, n)
    {
      match operations[n] {
        case Acquiring(turn) =>
          var r := leaf.Acquire(turn);
        case Closing(handle, turn) =>
          var i := PinOf(leaf.pins, handle);
          if i < |leaf.pins| {
            var closed := leaf.CloseOne(i, turn);
          }
      }
      n := n + 1;
    }
    ok := leaf.Close(turns);
  }

  /** The handles that a run acquires are those that its factories made and that no row owned at that time. */
  lemma {:induction false} AcquiredExactly(d: Duties, operations: seq<Operation>, n: nat, v: nat)
    requires n <= |operations|
    ensures v in AfterAll(d, operations, n).acquired
       <==> (v in d.acquired || exists m | 0 <= m < n ::
                operations[m].Acquiring? && v in Gained(AfterAll(d, operations, m), operations[m].acquire))
  {
    hide AfterClose, Admissible, Owns;
    if n > 0 {
      AcquiredExactly(d, operations, n - 1, v);
    }
  }
}
