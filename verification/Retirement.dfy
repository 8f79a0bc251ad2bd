/** Resource retirement: every resource of a roster is attempted once, failures are gathered on one
    exception, and the first failure of a scope is permanent. Exceptions are named, so one exception can be
    at once a failure being reported and the carrier it is reported on. */
module Retirement {
  import opened Wrappers

  const MAX_RETIREMENT_ERRORS := 256

  /** The name of an exception object. */
  type Error = nat

  datatype Row = Row(phase: string, resource: string, unknown: bool)

  datatype Carrier = Carrier(rows: seq<Row>, omitted: nat)

  /** What every exception carries; one that is absent carries nothing. */
  type Carriers = map<Error, Carrier>

  datatype Failure = Failure(row: Row, error: Error)

  /** A cleanup step for one resource, with the exception it raises, if any. */
  datatype Action = Action(name: string, resource: nat, raises: Option<Error>)

  function Rows(carriers: Carriers, e: Error): seq<Row> {
    if e in carriers then carriers[e].rows else []
  }

  function Omitted(carriers: Carriers, e: Error): nat {
    if e in carriers then carriers[e].omitted else 0
  }

  /** How many rows an exception stands for. */
  function Total(carriers: Carriers, e: Error): nat {
    |Rows(carriers, e)| + Omitted(carriers, e)
  }

  // ----- what a batch of failures feeds in -----

  /** One row for each failure, followed by the rows that the failure itself carries. */
  ghost function Flatten(carriers: Carriers, failures: seq<Failure>): seq<Row> {
    if failures == [] then [] else
      var last := failures[|failures| - 1];
      Flatten(carriers, failures[..|failures| - 1]) + [last.row] + Rows(carriers, last.error)
  }

  ghost function Lost(carriers: Carriers, failures: seq<Failure>): nat {
    if failures == [] then 0
    else Lost(carriers, failures[..|failures| - 1]) + Omitted(carriers, failures[|failures| - 1].error)
  }

  /** One for each failure, and all that the failure stands for already. */
  ghost function Weight(carriers: Carriers, failures: seq<Failure>): nat {
    if failures == [] then 0
    else Weight(carriers, failures[..|failures| - 1]) + 1 + Total(carriers, failures[|failures| - 1].error)
  }

  lemma {:induction false} FlattenWeighs(carriers: Carriers, failures: seq<Failure>)
    ensures |Flatten(carriers, failures)| + Lost(carriers, failures) == Weight(carriers, failures)
  {
    if failures != [] { FlattenWeighs(carriers, failures[..|failures| - 1]); }
  }

  /** `now` is `was` after the failures were gathered on `primary`: nothing fed in is unaccounted for, the
      rows kept are the first ones, and no other exception is touched. */
  ghost predicate Gathered(was: Carriers, now: Carriers, failures: seq<Failure>, primary: Error) {
    && primary in now && now == was[primary := now[primary]]
    && |now[primary].rows| <= MAX_RETIREMENT_ERRORS
    && Total(now, primary) == Total(was, primary) + Weight(was, failures)
    && IsPrefix(now[primary].rows, Rows(was, primary) + Flatten(was, failures))
    && (now[primary].omitted > 0 ==> |now[primary].rows| == MAX_RETIREMENT_ERRORS || Omitted(was, primary) + Lost(was, failures) > 0)
  }

  ghost predicate IsPrefix(a: seq<Row>, b: seq<Row>) {
    |a| <= |b| && a == b[..|a|]
  }

  // ----- rosters -----

  /** The failing actions, in order. */
  function Failing(phase: string, actions: seq<Action>): (failures: seq<Failure>)
    ensures |failures| <= |actions|
  {
    if actions == [] then [] else
      var last := actions[|actions| - 1];
      Failing(phase, actions[..|actions| - 1]) +
      if last.raises.Some? then [Failure(Row(phase, last.name, true), last.raises.value)] else []
  }

  /** One row for every action, telling whether it raised. */
  function Outcomes(phase: string, actions: seq<Action>): (rows: seq<Row>)
    ensures |rows| == |actions|
    ensures forall i | 0 <= i < |actions| :: rows[i] == Row(phase, actions[i].name, actions[i].raises.Some?)
  {
    if actions == [] then [] else
      var last := actions[|actions| - 1];
      Outcomes(phase, actions[..|actions| - 1]) + [Row(phase, last.name, last.raises.Some?)]
  }

  function Resources(actions: seq<Action>): (ids: multiset<nat>)
    ensures |ids| == |actions|
  {
    if actions == [] then multiset{} else
      Resources(actions[..|actions| - 1]) + multiset{actions[|actions| - 1].resource}
  }

  lemma Extended(phase: string, actions: seq<Action>, n: nat)
    requires n < |actions|
    ensures Failing(phase, actions[..n + 1]) == Failing(phase, actions[..n]) +
              if actions[n].raises.Some? then [Failure(Row(phase, actions[n].name, true), actions[n].raises.value)] else []
    ensures Outcomes(phase, actions[..n + 1]) ==
            Outcomes(phase, actions[..n]) + [Row(phase, actions[n].name, actions[n].raises.Some?)]
    ensures Resources(actions[..n + 1]) == Resources(actions[..n]) + multiset{actions[n].resource}
  {
    assert actions[..n + 1][..n] == actions[..n];
  }

  lemma Nothing(phase: string)
    ensures Resources([]) == multiset{} && Failing(phase, []) == [] && Outcomes(phase, []) == []
  {
  }

  ghost predicate Once(releases: multiset<nat>) {
    forall r <- releases :: releases[r] == 1
  }

  /** A roster moved from held to attempted. */
  lemma Withdrawn(attempts: multiset<nat>, roster: multiset<nat>, rest: multiset<nat>)
    requires Once(attempts + roster + rest)
    ensures Once(attempts + roster + multiset{} + rest) && Once(attempts + roster + multiset{})
    ensures Once(attempts + roster + rest + multiset{} + multiset{})
  {
    assert attempts + roster + multiset{} + rest == attempts + roster + rest;
    assert attempts + roster + rest + multiset{} + multiset{} == attempts + roster + rest;
    assert attempts + roster + multiset{} == attempts + roster;
    assert forall r :: (attempts + roster)[r] <= (attempts + roster + rest)[r];
  }

  /** An exception gathered on itself alone. */
  lemma Echo(was: Carriers, now: Carriers, row: Row, primary: Error)
    requires Gathered(was, now, [Failure(row, primary)], primary)
    ensures Total(now, primary) == 2 * Total(was, primary) + 1
  {
    var alone := [Failure(row, primary)];
    assert alone[..|alone| - 1] == [] && Weight(was, []) == 0;
    assert Weight(was, alone) == 1 + Total(was, primary);
  }

  // ----- when every row is counted once -----

  ghost function Errors(failures: seq<Failure>): set<Error> {
    set f <- failures :: f.error
  }

  /** The totals of a set of exceptions, each once. */
  ghost function SumOver(carriers: Carriers, errors: set<Error>): nat {
    if errors == {} then 0 else
      var e :| e in errors;
      Total(carriers, e) + SumOver(carriers, errors - {e})
  }

  lemma {:induction false} SumWithout(carriers: Carriers, errors: set<Error>, e: Error)
    requires e in errors
    ensures SumOver(carriers, errors) == Total(carriers, e) + SumOver(carriers, errors - {e})
    decreases errors
  {
    hide Total;
    var x :| x in errors && SumOver(carriers, errors) == Total(carriers, x) + SumOver(carriers, errors - {x});
    if x != e {
      SumWithout(carriers, errors - {x}, e);
      SumWithout(carriers, errors - {e}, x);
      assert errors - {x} - {e} == errors - {e} - {x};
    }
  }

  /** What one failure adds beyond its own row and a total not counted yet. */
  ghost function Again(carriers: Carriers, failures: seq<Failure>, primary: Error): nat {
    if failures == [] then 0 else
      var init, e := failures[..|failures| - 1], failures[|failures| - 1].error;
      Again(carriers, init, primary) + if e == primary || e in Errors(init) then Total(carriers, e) else 0
  }

  /** The rows that gathering counts: one for each failure, each carrying exception once, and all repetitions. */
  lemma {:induction false} WeightSplit(carriers: Carriers, failures: seq<Failure>, primary: Error)
    ensures Weight(carriers, failures) ==
            |failures| + SumOver(carriers, Errors(failures) - {primary}) + Again(carriers, failures, primary)
  {
    hide Total;
    if failures == [] {
      assert Errors(failures) - {primary} == {};
    } else {
      var init, last := failures[..|failures| - 1], failures[|failures| - 1];
      WeightSplit(carriers, init, primary);
      assert failures == init + [last];
      assert Errors(failures) == Errors(init) + {last.error};
      if last.error == primary || last.error in Errors(init) {
        assert Errors(failures) - {primary} == Errors(init) - {primary};
      } else {
        SumWithout(carriers, Errors(failures) - {primary}, last.error);
        assert Errors(failures) - {primary} - {last.error} == Errors(init) - {primary};
      }
    }
  }

  /** No failure that carries rows is the primary itself or was met before. */
  ghost predicate Fresh(carriers: Carriers, failures: seq<Failure>, primary: Error) {
    forall i | 0 <= i < |failures| && Total(carriers, failures[i].error) > 0 ::
      failures[i].error != primary && forall j | 0 <= j < i :: failures[j].error != failures[i].error
  }

  lemma {:induction false} AgainExactly(carriers: Carriers, failures: seq<Failure>, primary: Error)
    ensures Again(carriers, failures, primary) == 0 <==> Fresh(carriers, failures, primary)
  {
    hide Total;
    if failures != [] {
      var n := |failures| - 1;
      var init := failures[..n];
      AgainExactly(carriers, init, primary);
      assert Fresh(carriers, failures, primary) ==> Fresh(carriers, init, primary);
      assert failures[n].error in Errors(init) <==> exists j | 0 <= j < n :: failures[j].error == failures[n].error by {
        if failures[n].error in Errors(init) {
          var f :| f in init && f.error == failures[n].error;
          var j :| 0 <= j < n && init[j] == f;
          assert failures[j].error == failures[n].error;
        }
        if j :| 0 <= j < n && failures[j].error == failures[n].error {
          assert init[j] in init;
        }
      }
      if Fresh(carriers, init, primary) && (Total(carriers, failures[n].error) == 0 ||
         (failures[n].error != primary && failures[n].error !in Errors(init))) {
        forall i | 0 <= i < |failures| && Total(carriers, failures[i].error) > 0
          ensures failures[i].error != primary && forall j | 0 <= j < i :: failures[j].error != failures[i].error
        {
          if i < n {
            assert init[i] == failures[i];
            forall j | 0 <= j < i ensures failures[j].error != failures[i].error { assert init[j] == failures[j]; }
          }
        }
      }
    }
  }

  /** Each row fed in is counted once exactly when no failure that carries rows is the exception they are
      gathered on, or occurs twice among the failures. */
  lemma CountedOnceExactly(was: Carriers, now: Carriers, failures: seq<Failure>, primary: Error)
    requires Gathered(was, now, failures, primary)
    ensures Total(now, primary) == Total(was, primary) + |failures| + SumOver(was, Errors(failures) - {primary})
       <==> Fresh(was, failures, primary)
  {
    hide Total, Weight, Fresh, Again, SumOver;
    WeightSplit(was, failures, primary);
    AgainExactly(was, failures, primary);
  }

  /** Attempt every action, whether or not earlier ones raised. */
  method RetireActions(phase: string, actions: seq<Action>, before: multiset<nat>)
    returns (outcomes: seq<Row>, failures: seq<Failure>, attempts: multiset<nat>)
    ensures attempts == before + Resources(actions)
    ensures failures == Failing(phase, actions)
    ensures outcomes == Outcomes(phase, actions)
  {
    hide Failing, Resources, Outcomes;
    Nothing(phase);
    outcomes, failures, attempts := [], [], before;
    var n := 0;
    assert actions[..0] == [];
    while n < |actions|
      invariant n <= |actions| && outcomes == Outcomes(phase, actions[..n])
      invariant attempts == before + Resources(actions[..n])
      invariant failures == Failing(phase, actions[..n])
    {
      Extended(phase, actions, n);
      var action := actions[n];
      attempts := attempts + multiset{action.resource};
      var row := Row(phase, action.name, false);
      if action.raises.Some? {
        row := row.(unknown := true);
        failures := failures + [Failure(row, action.raises.value)];
      }
      outcomes := outcomes + [row];
      n := n + 1;
    }
    assert actions[..n] == actions;
  }

  /** Gather the failures on `primary`: the carrier keeps the first rows and counts every other one. */
  method Gather(carriers: Carriers, failures: seq<Failure>, primary: Error) returns (now: Carriers)
    requires failures != []
    ensures Gathered(carriers, now, failures, primary)
  {
    var rows, omitted, n := [], 0, 0;
    while n < |failures|
      invariant n <= |failures|
      invariant rows == Flatten(carriers, failures[..n]) && omitted == Lost(carriers, failures[..n])
    {
      rows := rows + [failures[n].row] + Rows(carriers, failures[n].error);
      omitted := omitted + Omitted(carriers, failures[n].error);
      n := n + 1;
      assert failures[..n][..n - 1] == failures[..n - 1];
    }
    assert failures[..n] == failures;
    FlattenWeighs(carriers, failures);
    var combined := Rows(carriers, primary) + rows;
    var kept := if |combined| < MAX_RETIREMENT_ERRORS then |combined| else MAX_RETIREMENT_ERRORS;
    now := carriers[primary := Carrier(combined[..kept], Omitted(carriers, primary) + omitted + |combined| - kept)];
  }

  /** Without an error of the caller's own, the first cancellation among the failures is raised, else a new
      error that stands for exactly the failures fed in. */
  method Finish(carriers: Carriers, failures: seq<Failure>, cancels: Error -> bool, unused: Error)
    returns (now: Carriers, raised: Option<Error>)
    requires unused !in carriers
    ensures failures == [] ==> now == carriers && raised == None
    ensures failures != [] ==> raised.Some? && Gathered(carriers, now, failures, raised.value)
    ensures failures != [] && raised == Some(unused) && (forall f <- failures :: !cancels(f.error)) ==>
      Total(now, unused) == Weight(carriers, failures)
    ensures failures != [] ==>
      if exists f <- failures :: cancels(f.error)
      then exists n | 0 <= n < |failures| ::
        && failures[n].error == raised.value && cancels(raised.value)
        && forall m | 0 <= m < n :: !cancels(failures[m].error)
      else raised == Some(unused)
  {
    now, raised := carriers, None;
    if failures == [] { return; }
    var n := 0;
    while n < |failures| && !cancels(failures[n].error)
      invariant n <= |failures| && forall m | 0 <= m < n :: !cancels(failures[m].error)
    {
      n := n + 1;
    }
    var primary := if n < |failures| then failures[n].error else unused;
    now := Gather(carriers, failures, primary);
    raised := Some(primary);
  }

  // ----- what a Darwin close counts -----

  /** The exception that a close leaves: the earlier one, else the first failing handle's, else the first
      failing pipe end's. */
  function First(was: Option<Error>, handles: seq<Failure>, ends: seq<Failure>): Option<Error> {
    if was.Some? then was else if handles != [] then Some(handles[0].error)
    else if ends != [] then Some(ends[0].error) else None
  }

  /** The common close raises, and so is itself a failing action. */
  predicate Inner(was: Option<Error>, handles: seq<Failure>) {
    was.Some? || handles != []
  }

  function Outer(was: Option<Error>, handles: seq<Failure>, ends: seq<Failure>): seq<Failure> {
    (if Inner(was, handles)
     then [Failure(Row("posix-darwin-close", "scope", true), First(was, handles, ends).value)] else []) + ends
  }

  /** The two gatherings of a close: the handles' failures, then the scope's own with the pipe's. */
  ghost predicate CloseGathered(before: Carriers, mid: Carriers, after: Carriers, was: Option<Error>,
                                handles: seq<Failure>, ends: seq<Failure>)
  {
    var first := First(was, handles, ends);
    if first.None? then mid == after == before
    else
      && (if handles == [] then mid == before else Gathered(before, mid, handles, first.value))
      && Gathered(mid, after, Outer(was, handles, ends), first.value)
  }

  /** `more` for each time that `e` occurs among the failures. */
  function Occurs(failures: seq<Failure>, e: Error, more: nat): nat {
    if failures == [] then 0
    else Occurs(failures[..|failures| - 1], e, more) + if failures[|failures| - 1].error == e then more else 0
  }

  /** The total of the exception that a close leaves. */
  ghost function CloseTotal(before: Carriers, was: Option<Error>, handles: seq<Failure>, ends: seq<Failure>): nat
    requires First(was, handles, ends).Some?
  {
    var primary := First(was, handles, ends).value;
    if Inner(was, handles) then
      2 * (Total(before, primary) + Weight(before, handles)) + 1 + Weight(before, ends)
      + Occurs(ends, primary, Weight(before, handles))
    else Total(before, primary) + Weight(before, ends)
  }

  lemma {:induction false} WeightChanged(before: Carriers, mid: Carriers, failures: seq<Failure>, e: Error, more: nat)
    requires e in mid && mid == before[e := mid[e]] && Total(mid, e) == Total(before, e) + more
    ensures Weight(mid, failures) == Weight(before, failures) + Occurs(failures, e, more)
  {
    if failures != [] {
      var init, last := failures[..|failures| - 1], failures[|failures| - 1];
      WeightChanged(before, mid, init, e, more);
      assert last.error != e ==> Total(mid, last.error) == Total(before, last.error);
    }
  }

  lemma {:induction false} WeightConcat(carriers: Carriers, a: seq<Failure>, b: seq<Failure>)
    ensures Weight(carriers, a + b) == Weight(carriers, a) + Weight(carriers, b)
  {
    hide Total;
    if b == [] {
      assert a + b == a;
    } else {
      WeightConcat(carriers, a, b[..|b| - 1]);
      assert (a + b)[..|a + b| - 1] == a + b[..|b| - 1];
    }
  }

  lemma WeightOne(carriers: Carriers, f: Failure)
    ensures Weight(carriers, [f]) == 1 + Total(carriers, f.error)
  {
    assert [f][..|[f]| - 1] == [] && Weight(carriers, []) == 0;
  }

  lemma {:induction false} WeightAtLeast(carriers: Carriers, failures: seq<Failure>)
    ensures Weight(carriers, failures) >= |failures|
  {
    if failures != [] { WeightAtLeast(carriers, failures[..|failures| - 1]); }
  }

  lemma CloseTotals(before: Carriers, mid: Carriers, after: Carriers, was: Option<Error>,
                    handles: seq<Failure>, ends: seq<Failure>)
    requires CloseGathered(before, mid, after, was, handles, ends) && First(was, handles, ends).Some?
    ensures Total(after, First(was, handles, ends).value) == CloseTotal(before, was, handles, ends)
  {
    hide Total, Weight, Occurs;
    var primary := First(was, handles, ends).value;
    var more := Weight(before, handles);
    if handles == [] {
      NoWeight(before);
      NoMore(ends, primary);
    }
    if Inner(was, handles) {
      var scope := Failure(Row("posix-darwin-close", "scope", true), primary);
      WeightConcat(mid, [scope], ends);
      WeightOne(mid, scope);
      if handles != [] { WeightChanged(before, mid, ends, primary, more); }
    } else {
      assert Outer(was, handles, ends) == ends;
    }
  }

  lemma NoWeight(carriers: Carriers)
    ensures Weight(carriers, []) == 0 && forall e: Error, more: nat :: Occurs([], e, more) == 0
  {
  }

  lemma {:induction false} NoMore(failures: seq<Failure>, e: Error)
    ensures Occurs(failures, e, 0) == 0
  {
    if failures != [] { NoMore(failures[..|failures| - 1], e); }
  }

  /** What a close would count if every row counted once: the earlier ones, one for each failing action, and
      what each other exception carried. */
  ghost function FairTotal(before: Carriers, was: Option<Error>, handles: seq<Failure>, ends: seq<Failure>): nat
    requires First(was, handles, ends).Some?
  {
    var primary := First(was, handles, ends).value;
    Total(before, primary) + |handles| + (if Inner(was, handles) then 1 else 0) + |ends|
    + SumOver(before, Errors(handles + ends) - {primary})
  }

  /** A close counts each row once exactly when the scope had not failed, no handle raises, and the failures of
      the pipe's ends carry nothing twice: then the common close does not raise. */
  lemma CloseCountsOnceExactly(before: Carriers, was: Option<Error>, handles: seq<Failure>, ends: seq<Failure>)
    requires First(was, handles, ends).Some? && (was.Some? ==> Total(before, was.value) > 0)
    ensures CloseTotal(before, was, handles, ends) == FairTotal(before, was, handles, ends)
       <==> (was.None? && handles == [] && Fresh(before, ends, ends[0].error))
  {
    hide Total, Weight, Occurs, Fresh, Again, SumOver, Errors;
    var primary := First(was, handles, ends).value;
    if Inner(was, handles) {
      WeightSplit(before, handles + ends, primary);
      WeightConcat(before, handles, ends);
      WeightAtLeast(before, handles);
    } else {
      assert handles + ends == ends;
      WeightSplit(before, ends, primary);
      AgainExactly(before, ends, primary);
      NoWeight(before);
    }
  }

  function Power(k: nat): nat {
    if k == 0 then 1 else 2 * Power(k - 1)
  }

  /** The retirement state of a Darwin scope. */
  class Scope {
    var attempts: multiset<nat>               // every release so far
    var carriers: Carriers
    var held: seq<Action>                     // handles, then leaders
    var pipe: seq<Action>
    var closed: bool
    var retirement: Option<Error>

    /** Nothing was released twice, nor will be by releasing what is still held; a failure carries its rows. */
    ghost predicate Valid()
      reads this
    {
      && Once(attempts + Resources(held) + Resources(pipe)) && (closed ==> held == [])
      && (retirement.Some? ==> Total(carriers, retirement.value) > 0)
    }

    constructor (held: seq<Action>, pipe: seq<Action>)
      requires Once(Resources(held) + Resources(pipe))
      ensures Valid() && retirement == None && !closed && this.held == held && this.pipe == pipe
      ensures attempts == multiset{} && carriers == map[]
    {
      this.held, this.pipe, closed, retirement, attempts, carriers := held, pipe, false, None, multiset{}, map[];
      assert multiset{} + Resources(held) == Resources(held);
    }

    /** Attempt all of `actions`, after the failures `met` already. The first failure ever recorded stays and
        the others are gathered on it. */
    method Retire(phase: string, met: seq<Failure>, actions: seq<Action>, original: Option<Error>)
      returns (raised: Option<Error>)
      modifies this`attempts, this`retirement, this`carriers
      ensures attempts == old(attempts) + Resources(actions)
      ensures var failures := met + Failing(phase, actions);
        if failures == [] then raised == None && retirement == old(retirement) && carriers == old(carriers)
        else
          && retirement == (if old(retirement).Some? then old(retirement)
                            else if original.Some? then original else Some(failures[0].error))
          && Gathered(old(carriers), carriers, failures, retirement.value)
          && raised == (if original.Some? then None else retirement)
    {
      hide Failing, Resources, Outcomes, Gathered;
      raised := None;
      var outcomes, failures;
      outcomes, failures, attempts := RetireActions(phase, actions, attempts);
      failures := met + failures;
      if failures == [] { return; }
      var primary := if retirement.Some? then retirement.value
                     else if original.Some? then original.value else failures[0].error;
      retirement := Some(primary);
      carriers := Gather(carriers, failures, primary);
      raised := if original.Some? then None else Some(primary);
    }

    /** The common close: the roster is withdrawn before any release, and a second close only repeats the
        failure of the first. */
    method CloseScope() returns (raised: Option<Error>)
      requires Valid()
      modifies this`attempts, this`carriers, this`held, this`closed, this`retirement
      ensures Valid() && closed && held == []
      ensures attempts == old(attempts) + Resources(old(held))
      ensures raised == retirement == First(old(retirement), Failing("posix-scope-close", old(held)), [])
      ensures old(closed) ==> retirement == old(retirement) && carriers == old(carriers)
      ensures var failures := Failing("posix-scope-close", old(held));
        if failures == [] then carriers == old(carriers)
        else raised.Some? && Gathered(old(carriers), carriers, failures, raised.value)
    {
      hide Gathered, Once, Failing, Resources;
      Nothing("posix-scope-close");
      if closed { return retirement; }
      var actions := held;
      closed, held := true, [];
      raised := Retire("posix-scope-close", [], actions, None);
      assert [] + Failing("posix-scope-close", actions) == Failing("posix-scope-close", actions);
      raised := retirement;
      Withdrawn(old(attempts), Resources(actions), Resources(pipe));
      if Failing("posix-scope-close", actions) != [] {
        GatheredMore(old(carriers), carriers, Failing("posix-scope-close", actions), retirement.value);
      }
    }

    /** The Darwin close: the common close is itself an action, and so are the two ends of the pipe. It raises
        exactly when the scope had failed before or some action fails now, and what it raises stays. */
    method Close() returns (raised: Option<Error>, ghost mid: Carriers)
      requires Valid()
      modifies this`attempts, this`carriers, this`held, this`pipe, this`closed, this`retirement
      ensures Valid() && closed && held == [] && pipe == []
      ensures attempts == old(attempts) + Resources(old(held)) + Resources(old(pipe))
      ensures var handles, ends := Failing("posix-scope-close", old(held)), Failing("posix-darwin-close", old(pipe));
        && raised == retirement == First(old(retirement), handles, ends)
        && (raised.Some? <==> old(retirement).Some? || handles != [] || ends != [])
        && CloseGathered(old(carriers), mid, carriers, old(retirement), handles, ends)
        && (raised.Some? ==> Total(carriers, raised.value) == CloseTotal(old(carriers), old(retirement), handles, ends))
      ensures old(closed) && old(pipe) == [] ==> retirement == old(retirement)
      ensures old(closed) && old(pipe) == [] && raised.Some? ==>
        Total(carriers, raised.value) == 2 * Total(old(carriers), raised.value) + 1
    {
      hide Once, Gathered, Total, Resources, Failing, Weight, Occurs;
      Nothing("posix-darwin-close");
      Nothing("posix-scope-close");
      NoWeight(carriers);
      ghost var handles := Failing("posix-scope-close", held);
      var ends := pipe;
      pipe := [];
      Withdrawn(attempts, Resources(held), Resources(ends));
      var inner := CloseScope();
      mid := carriers;
      var before := if inner.Some? then [Failure(Row("posix-darwin-close", "scope", true), inner.value)] else [];
      raised := Retire("posix-darwin-close", before, ends, None);
      ghost var failing := Failing("posix-darwin-close", ends);
      assert before + failing == Outer(old(retirement), handles, failing);
      if raised.Some? {
        CloseTotals(old(carriers), mid, carriers, old(retirement), handles, failing);
        WeightAtLeast(mid, before + failing);
        GatheredMore(mid, carriers, before + failing, raised.value);
      }
    }
  }

  lemma GatheredMore(was: Carriers, now: Carriers, failures: seq<Failure>, primary: Error)
    requires Gathered(was, now, failures, primary) && failures != []
    ensures Total(now, primary) > 0
  {
    WeightAtLeast(was, failures);
  }

  /** One handle that raises an exception without rows: the very first close counts its row twice. */
  method FirstCloseCountsTwice() returns (scope: Scope)
    ensures fresh(scope) && scope.retirement == Some(7) && Total(scope.carriers, 7) == 3
    ensures FairTotal(map[], None, [Failure(Row("posix-scope-close", "handle:0", true), 7)], []) == 2
  {
    var handle := Action("handle:0", 0, Some(7));
    var row := Failure(Row("posix-scope-close", "handle:0", true), 7);
    assert [handle][..0] == [] && Resources([handle]) == multiset{} + multiset{0};
    assert Failing("posix-scope-close", [handle]) == [] + [row];
    assert Failing("posix-darwin-close", []) == [];
    scope := new Scope([handle], []);
    WeightOne(map[], row);
    assert Errors([row] + []) - {7} == {};
    var raised, mid := scope.Close();
  }

  /** Closing a failed scope again releases nothing and raises the first failure again, and every time it
      feeds that failure's own rows back to it: their number doubles. */
  method CloseAgain(scope: Scope, times: nat)
    requires scope.Valid() && scope.closed && scope.pipe == [] && scope.retirement.Some?
    modifies scope
    ensures scope.retirement == old(scope.retirement) && scope.attempts == old(scope.attempts)
    ensures Total(scope.carriers, scope.retirement.value) + 1 ==
            Power(times) * (Total(old(scope.carriers), scope.retirement.value) + 1)
  {
    hide CloseGathered, CloseTotal, First, Once, Resources, Failing, Total;
    var n := 0;
    while n < times
      invariant n <= times && scope.Valid() && scope.closed && scope.held == [] && scope.pipe == []
      invariant scope.retirement == old(scope.retirement) && scope.attempts == old(scope.attempts)
      invariant Total(scope.carriers, scope.retirement.value) + 1 ==
        Power(n) * (Total(old(scope.carriers), scope.retirement.value) + 1)
    {
      var raised, mid := scope.Close();
      n := n + 1;
    }
  }
}
