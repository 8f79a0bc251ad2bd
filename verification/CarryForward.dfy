/** Which attempt of a rerun workflow really executed a job: later attempts may carry an earlier execution
    forward as a copy, and a copy is followed back only as far as its evidence allows. */
module CarryForward {
  import opened Wrappers

  /** One row of a job's history. `stable` holds all fields that a copy must repeat, `bound` says that they are
      all present with steps and a runner; times are seconds. */
  datatype Job = Job(attempt: nat, id: nat, success: bool, stable: Text, bound: bool,
                     created: int, started: int, completed: int)

  /** What the service says of a row: the start of its run attempt, if its own record agrees with the row. */
  type Service = Job -> Option<int>

  function At(rows: seq<Job>, attempt: nat): (r: seq<Job>)
    ensures forall j :: j in r <==> j in rows && j.attempt == attempt
  {
    if rows == [] then [] else (if rows[0].attempt == attempt then [rows[0]] else []) + At(rows[1..], attempt)
  }

  function Below(rows: seq<Job>, attempt: nat): (r: seq<Job>)
    ensures |r| <= |rows| && forall j :: j in r <==> j in rows && j.attempt < attempt
  {
    if rows == [] then [] else (if rows[0].attempt < attempt then [rows[0]] else []) + Below(rows[1..], attempt)
  }

  function MaxAttempt(rows: seq<Job>): (a: nat)
    requires rows != []
    ensures (exists j <- rows :: j.attempt == a) && forall j <- rows :: j.attempt <= a
  {
    if |rows| == 1 then rows[0].attempt else
      var rest := MaxAttempt(rows[1..]);
      assert forall j <- rows :: j == rows[0] || j in rows[1..];
      if rows[0].attempt > rest then rows[0].attempt else rest
  }

  lemma {:induction false} BelowShrinks(rows: seq<Job>, attempt: nat)
    requires exists j <- rows :: j.attempt == attempt
    ensures |Below(rows, attempt)| < |rows|
  {
    if rows[0].attempt != attempt {
      BelowShrinks(rows[1..], attempt);
    }
  }

  /** The row was executed in its own attempt. */
  predicate Genuine(job: Job) {
    job.created <= job.started
  }

  /** `job` is a copy of `previous`, made for a run attempt that started after the execution had ended. */
  predicate Copies(job: Job, previous: Job, service: Service) {
    && service(job).Some? && job.completed < service(job).value <= job.created
    && job.bound && job.id != previous.id && previous.created <= job.created && job.stable == previous.stable
  }

  /** The walk itself, as a loop that shrinks the history. */
  method OriginalExecution(candidates: seq<Job>, service: Service) returns (r: Option<nat>)
    ensures r == Walk(candidates, service)
  {
    var history := candidates;
    while history != []
      invariant Walk(candidates, service) == Walk(history, service)
      decreases |history|
    {
      var attempt := MaxAttempt(history);
      BelowShrinks(history, attempt);
      var latest := At(history, attempt);
      if |latest| != 1 { return None; }
      var job := latest[0];
      if !job.success || service(job).None? { return None; }
      if Genuine(job) { return Some(attempt); }
      if !(job.completed < service(job).value <= job.created) { return None; }
      history := Below(history, attempt);
      if history == [] { return None; }
      var previous := At(history, MaxAttempt(history));
      if |previous| != 1 { return None; }
      if !Copies(job, previous[0], service) { return None; }
    }
    r := None;
  }

  function Walk(rows: seq<Job>, service: Service): Option<nat>
    decreases |rows|
  {
    if rows == [] then None else
    var attempt := MaxAttempt(rows);
    var latest := At(rows, attempt);
    if |latest| != 1 || !latest[0].success || service(latest[0]).None? then None
    else if Genuine(latest[0]) then Some(attempt)
    else
      var rest := Below(rows, attempt);
      BelowShrinks(rows, attempt);
      if rest == [] then None else
      var previous := At(rest, MaxAttempt(rest));
      if |previous| != 1 || !Copies(latest[0], previous[0], service) then None else Walk(rest, service)
  }

  // ----- what the answer means -----

  /** `p` is the only row of the last attempt before `attempt`. */
  ghost predicate Precedes(rows: seq<Job>, attempt: nat, p: Job) {
    && p in rows && p.attempt < attempt && At(rows, p.attempt) == [p]
    && forall q <- rows :: q.attempt < attempt ==> q.attempt <= p.attempt
  }

  /** `g` is the sole and successful row of its attempt, executed there, and every later row is the sole and
      successful row of its attempt and a copy of the one before. */
  ghost predicate Original(rows: seq<Job>, g: Job, service: Service) {
    && g in rows && At(rows, g.attempt) == [g] && Genuine(g) && g.success && service(g).Some?
    && forall j <- rows | j.attempt > g.attempt ::
         && At(rows, j.attempt) == [j] && j.success && !Genuine(j)
         && exists p :: Precedes(rows, j.attempt, p) && Copies(j, p, service)
  }

  lemma {:induction false} AtBelow(rows: seq<Job>, attempt: nat, bound: nat)
    requires attempt < bound
    ensures At(Below(rows, bound), attempt) == At(rows, attempt)
  {
    if rows != [] {
      AtBelow(rows[1..], attempt, bound);
      var rest := Below(rows[1..], bound);
      if rows[0].attempt < bound {
        assert Below(rows, bound) == [rows[0]] + rest;
        assert ([rows[0]] + rest)[1..] == rest;
      } else {
        assert Below(rows, bound) == [] + rest == rest;
      }
    }
  }

  /** Which row precedes an attempt does not depend on later rows. */
  lemma PrecedesBelow(rows: seq<Job>, bound: nat, attempt: nat, p: Job)
    requires attempt <= bound
    ensures Precedes(rows, attempt, p) <==> Precedes(Below(rows, bound), attempt, p)
  {
    if p.attempt < attempt { AtBelow(rows, p.attempt, bound); }
  }

  /** The last attempt has one row, a successful copy of the row before. */
  ghost predicate LastCopied(rows: seq<Job>, service: Service)
    requires rows != []
  {
    forall j <- rows | j.attempt == MaxAttempt(rows) ::
      && At(rows, j.attempt) == [j] && j.success && !Genuine(j)
      && exists p :: Precedes(rows, j.attempt, p) && Copies(j, p, service)
  }

  /** In the walk's own terms. */
  lemma LastCopiedExactly(rows: seq<Job>, service: Service)
    requires rows != []
    ensures var latest, rest := At(rows, MaxAttempt(rows)), Below(rows, MaxAttempt(rows));
      LastCopied(rows, service) <==>
        (|latest| == 1 && latest[0].success && !Genuine(latest[0]) && rest != [] &&
         var previous := At(rest, MaxAttempt(rest)); |previous| == 1 && Copies(latest[0], previous[0], service))
  {
    hide At, Below, MaxAttempt, Copies, Genuine;
    var last := MaxAttempt(rows);
    var latest, rest := At(rows, last), Below(rows, last);
    var m :| m in rows && m.attempt == last;
    assert m in latest;
    if |latest| == 1 { assert latest == [m]; }
    if LastCopied(rows, service) {
      var p :| Precedes(rows, last, p) && Copies(m, p, service);
      PrecedesLast(rows, p);
    }
    if rest != [] && |At(rest, MaxAttempt(rest))| == 1 {
      PrecedesLast(rows, At(rest, MaxAttempt(rest))[0]);
    }
  }

  lemma GenuineLast(rows: seq<Job>, service: Service, m: Job)
    requires rows != [] && At(rows, MaxAttempt(rows)) == [m] && Genuine(m) && m.success && service(m).Some?
    ensures m.attempt == MaxAttempt(rows) && Original(rows, m, service)
  {
    hide At, Below, MaxAttempt, Copies, Genuine;
    assert m in At(rows, MaxAttempt(rows));
  }

  /** An original of the earlier rows is one of all rows, if the latest row is a copy of the one before. */
  lemma OriginalBelow(rows: seq<Job>, g: Job, service: Service)
    requires rows != [] && g.attempt < MaxAttempt(rows)
    ensures Original(rows, g, service) <==>
            (Original(Below(rows, MaxAttempt(rows)), g, service) && LastCopied(rows, service))
  {
    hide Genuine, Copies, Precedes;
    var last := MaxAttempt(rows);
    AtBelow(rows, g.attempt, last);
    forall j <- rows | j.attempt < last
      ensures At(Below(rows, last), j.attempt) == At(rows, j.attempt)
      ensures forall p :: Precedes(rows, j.attempt, p) <==> Precedes(Below(rows, last), j.attempt, p)
    {
      AtBelow(rows, j.attempt, last);
      forall p ensures Precedes(rows, j.attempt, p) <==> Precedes(Below(rows, last), j.attempt, p) {
        PrecedesBelow(rows, last, j.attempt, p);
      }
    }
  }

  /** What precedes the last attempt is the latest of the rows below it. */
  lemma PrecedesLast(rows: seq<Job>, p: Job)
    requires rows != []
    ensures var rest := Below(rows, MaxAttempt(rows));
      Precedes(rows, MaxAttempt(rows), p) <==> (rest != [] && At(rest, MaxAttempt(rest)) == [p])
  {
    var rest := Below(rows, MaxAttempt(rows));
    if rest != [] {
      AtBelow(rows, MaxAttempt(rest), MaxAttempt(rows));
      if p.attempt < MaxAttempt(rows) { AtBelow(rows, p.attempt, MaxAttempt(rows)); }
      if At(rest, MaxAttempt(rest)) == [p] { assert p in At(rest, MaxAttempt(rest)); }
    }
  }

  lemma {:induction false} WalkSound(rows: seq<Job>, service: Service) returns (g: Job)
    requires Walk(rows, service).Some?
    ensures g.attempt == Walk(rows, service).value && Original(rows, g, service)
    decreases |rows|
  {
    hide At, Below, MaxAttempt, Copies, Genuine, Original, LastCopied;
    var last := MaxAttempt(rows);
    var m := At(rows, last)[0];
    if Genuine(m) {
      assert At(rows, last) == [m];
      GenuineLast(rows, service, m);
      g := m;
    } else {
      BelowShrinks(rows, last);
      g := WalkSound(Below(rows, last), service);
      LastCopiedExactly(rows, service);
      OriginalPresent(Below(rows, last), g, service);
      OriginalBelow(rows, g, service);
    }
  }

  lemma OriginalPresent(rows: seq<Job>, g: Job, service: Service)
    requires Original(rows, g, service)
    ensures g in rows && At(rows, g.attempt) == [g] && Genuine(g) && g.success && service(g).Some?
  {
  }

  lemma {:induction false} WalkComplete(rows: seq<Job>, g: Job, service: Service)
    requires Original(rows, g, service)
    ensures Walk(rows, service) == Some(g.attempt)
    decreases |rows|
  {
    hide At, Below, MaxAttempt, Copies, Genuine, Original, LastCopied;
    OriginalPresent(rows, g, service);
    var last := MaxAttempt(rows);
    BelowShrinks(rows, last);
    if g.attempt < last {
      OriginalBelow(rows, g, service);
      WalkComplete(Below(rows, last), g, service);
      LastCopiedExactly(rows, service);
      CopiedVouched(rows, service);
    }
  }

  lemma CopiedVouched(rows: seq<Job>, service: Service)
    requires rows != [] && LastCopied(rows, service)
    ensures |At(rows, MaxAttempt(rows))| == 1 && service(At(rows, MaxAttempt(rows))[0]).Some?
  {
    var last := MaxAttempt(rows);
    var m :| m in rows && m.attempt == last;
    assert At(rows, m.attempt) == [m];
  }

  /** The walk answers exactly the original attempt: it never passes over a later row that failed, was skipped
      or is ambiguous, and never stops short of one it should reach. */
  lemma WalkFindsOriginal(rows: seq<Job>, service: Service, a: nat)
    ensures Walk(rows, service) == Some(a) <==> exists g: Job :: g.attempt == a && Original(rows, g, service)
  {
    if Walk(rows, service) == Some(a) {
      var g := WalkSound(rows, service);
    }
    if g: Job :| g.attempt == a && Original(rows, g, service) {
      WalkComplete(rows, g, service);
    }
  }

  /** Every later row repeats the stable fields of the original execution. */
  lemma {:induction false} CopiesAgree(rows: seq<Job>, g: Job, j: Job, service: Service)
    requires Original(rows, g, service) && j in rows && j.attempt > g.attempt
    ensures j.stable == g.stable && service(j).Some? && j.completed < service(j).value
    decreases j.attempt
  {
    var p :| Precedes(rows, j.attempt, p) && Copies(j, p, service);
    assert g.attempt <= p.attempt;
    if p.attempt > g.attempt {
      CopiesAgree(rows, g, p, service);
    } else {
      assert p in At(rows, g.attempt);
    }
  }
}
