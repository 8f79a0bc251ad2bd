/** The phase roster of one bootstrap job: absolute fences that end at the job end, and the acceptor of
    supplied traces. */
module Allocation {
  import opened Wrappers
  import opened ServiceTime

  const PHASE_COUNT: nat := 48
  const NEW_WORK_SECONDS := 90
  const OBSERVATION_LIMIT := 16384

  /** The cap of each phase, in seconds. */
  function Cap(phase: nat): (seconds: nat)
  {
    match phase
    case 0 => 120   // productive-entry
    case 1 => 240   // recipient-validation
    case 2 => 45    // recipient-final
    case 3 => 30    // recipient-read
    case 4 => 120   // canonical-init
    case 5 => 45    // canonical-init-final
    case 6 => 30    // canonical-init-read
    case 7 => 120   // dependency-stage
    case 8 => 120   // empty-seed
    case 9 => 120   // custody-prepare
    case 10 => 45   // custody-prepare-final
    case 11 => 30   // custody-prepare-read
    case 12 => 600  // producer-work
    case 13 => 225  // producer-return
    case 14 => 45   // producer-final
    case 15 => 30   // producer-read
    case 16 => 120  // custody-collect
    case 17 => 45   // custody-collect-final
    case 18 => 30   // custody-collect-read
    case 19 => 90   // custody-uninstall
    case 20 => 45   // custody-uninstall-final
    case 21 => 30   // custody-uninstall-read
    case 22 => 120  // dependency-export
    case 23 => 120  // save-set-before
    case 24 => 45   // producer-owner-return
    case 25 => 30   // save-transition
    case 26 => 180  // provider-save
    case 27 => 120  // save-readmission
    case 28 => 120  // save-set-after
    case 29 => 30   // save-observation
    case 30 => 45   // save-owner-return
    case 31 => 30   // probe-transition
    case 32 => 180  // provider-probe
    case 33 => 120  // custody-readmission
    case 34 => 30   // provider-observation
    case 35 => 180  // custody-freeze
    case 36 => 240  // custody-encrypt
    case 37 => 45   // custody-encrypt-final
    case 38 => 30   // custody-encrypt-read
    case 39 => 90   // ciphertext-open
    case 40 => 90   // ciphertext-verify
    case 41 => 45   // custody-owner-return
    case 42 => 30   // seal-transition
    case 43 => 120  // separate-seal
    case 44 => 30   // upload-transition
    case 45 => 180  // evidence-upload
    case 46 => 30   // upload-after-guard
    case 47 => 45   // delivery-return
    case _ => 0
  }

  /** The first phase of the native capture group of a phase. */
  function GroupStart(phase: nat): Option<nat> {
    match phase
    case 1 => Some(1) case 2 => Some(1)                       // recipient
    case 4 => Some(4) case 5 => Some(4)                       // initializer
    case 9 => Some(9) case 10 => Some(9)                      // custody-prepare
    case 12 => Some(12) case 13 => Some(12) case 14 => Some(12) // producer
    case 16 => Some(16) case 17 => Some(16)                   // custody-collect
    case 19 => Some(19) case 20 => Some(19)                   // custody-uninstall
    case 36 => Some(36) case 37 => Some(36)                   // custody-encrypt
    case _ => None
  }

  /** empty-seed, dependency-export, save-set-before, save-set-after. */
  predicate IsCopy(phase: nat) {
    phase == 8 || phase == 22 || phase == 23 || phase == 28
  }

  /** The caps of phases `from` to `past - 1` together. */
  function Caps(from: nat, past: nat): (total: nat)
    decreases past
  {
    if past <= from then 0 else Caps(from, past - 1) + Cap(past - 1)
  }

  lemma {:induction false} CapsSplit(from: nat, mid: nat, past: nat)
    requires from <= mid <= past
    ensures Caps(from, past) == Caps(from, mid) + Caps(mid, past)
    decreases past
  {
    if mid < past { CapsSplit(from, mid, past - 1); }
  }

  lemma CapsNext(from: nat, phase: nat)
    requires from <= phase
    ensures Caps(from, phase + 1) == Caps(from, phase) + Cap(phase)
  {
    hide Cap;
  }

  lemma NoCaps()
    ensures Caps(0, 0) == 0
  {
  }

  lemma AllCaps()
    ensures Caps(0, PHASE_COUNT) == 4650 < SOURCE_JOB_SECONDS
  {
    EarlyCaps();
    MiddleCaps();
    LateCaps();
    hide Caps;
    CapsSplit(0, 16, PHASE_COUNT);
    CapsSplit(16, 32, PHASE_COUNT);
  }

  lemma EarlyCaps()
    ensures Caps(0, 16) == 1965
  {
    CapsSplit(0, 8, 16);
    assert Caps(0, 8) == 750 && Caps(8, 16) == 1215;
  }

  lemma MiddleCaps()
    ensures Caps(16, 32) == 1200
  {
    CapsSplit(16, 24, 32);
    assert Caps(16, 24) == 600 && Caps(24, 32) == 600;
  }

  lemma LateCaps()
    ensures Caps(32, PHASE_COUNT) == 1485
  {
    CapsSplit(32, 40, 48);
    assert Caps(32, 40) == 915 && Caps(40, 48) == 570;
  }

  /** Every capture group fits within the native limit of 900 seconds, and is contiguous. */
  lemma GroupsFit(phase: nat)
    requires GroupStart(phase).Some?
    ensures GroupStart(phase).value <= phase < PHASE_COUNT
    ensures Caps(GroupStart(phase).value, phase + 1) < 900
    ensures GroupStart(GroupStart(phase).value) == GroupStart(phase)
    ensures forall p | GroupStart(phase).value <= p <= phase :: GroupStart(p) == GroupStart(phase)
  {
    assert Caps(12, 15) == 870 && Caps(12, 14) == 825 && Caps(12, 13) == 600;
    assert Caps(1, 3) == 285 && Caps(4, 6) == 165 && Caps(9, 11) == 165 && Caps(16, 18) == 165;
    assert Caps(19, 21) == 135 && Caps(36, 38) == 285;
  }

  // ----- fences -----

  datatype Fences = Fences(start: int, end: int, fences: seq<int>)

  /** The absolute fence of a phase: the job end less all later caps. */
  function Fence(end: int, phase: nat): int {
    end - Caps(phase + 1, PHASE_COUNT) * NS
  }

  /** The roster ends exactly at the job end, and begins late enough to have begun at all. */
  method FenceArithmetic(basis: int) returns (r: Option<Fences>)
    ensures r.Some? <==> BasisInteger(basis) && 0 <= basis + (SOURCE_JOB_SECONDS - 4650) * NS
                         && basis <= UINT64 - SOURCE_JOB_SECONDS * NS
    ensures r.Some? ==>
      && r.value.end == basis + SOURCE_JOB_SECONDS * NS && r.value.start == r.value.end - 4650 * NS
      && |r.value.fences| == PHASE_COUNT
      && forall k | 0 <= k < PHASE_COUNT :: r.value.fences[k] == Fence(r.value.end, k)
  {
    AllCaps();
    NoCaps();
    hide Caps, Cap;
    if !BasisInteger(basis) || basis > UINT64 - SOURCE_JOB_SECONDS * NS { return None; }
    var jobEnd := JobEnd(basis);
    if jobEnd.None? { return None; }
    var end := jobEnd.value;
    var start := end - 4650 * NS;
    if !Integer(start) { return None; }
    var cursor, fences, phase := start, [], 0;
    while phase < PHASE_COUNT
      invariant phase <= PHASE_COUNT && |fences| == phase
      invariant cursor == start + Caps(0, phase) * NS
      invariant forall k | 0 <= k < phase :: fences[k] == Fence(end, k)
    {
      CapsSplit(0, phase + 1, PHASE_COUNT);
      CapsNext(0, phase);
      cursor := cursor + Cap(phase) * NS;
      fences := fences + [cursor];
      phase := phase + 1;
    }
    r := Some(Fences(start, end, fences));
  }

  /** Whatever the service reveals, no fence lies later than the true start plus 5400 seconds, less all caps of
      later phases. */
  lemma FencesAreConservative(jobsStart: int, jobEpoch: int, serviceDate: int, trueStart: int, phase: nat)
    requires Basis(jobsStart, jobEpoch, serviceDate).Some? && JobEnd(Basis(jobsStart, jobEpoch, serviceDate).value).Some?
    requires jobsStart - trueStart <= Charged(serviceDate - jobEpoch)
    ensures var end := JobEnd(Basis(jobsStart, jobEpoch, serviceDate).value).value;
      Fence(end, phase) <= trueStart + (SOURCE_JOB_SECONDS - Caps(phase + 1, PHASE_COUNT)) * NS
  {
    hide Caps;
    EndIsConservative(jobsStart, jobEpoch, serviceDate, trueStart);
  }

  /** An older job never gets a later fence. */
  lemma OlderIsNoLater(jobsStart: int, jobEpoch: int, serviceDate: int, olderEpoch: int, laterDate: int, phase: nat)
    requires olderEpoch <= jobEpoch && serviceDate <= laterDate
    requires Basis(jobsStart, jobEpoch, serviceDate).Some? && Basis(jobsStart, olderEpoch, laterDate).Some?
    requires JobEnd(Basis(jobsStart, jobEpoch, serviceDate).value).Some?
    requires JobEnd(Basis(jobsStart, olderEpoch, laterDate).value).Some?
    ensures Fence(JobEnd(Basis(jobsStart, olderEpoch, laterDate).value).value, phase) <=
            Fence(JobEnd(Basis(jobsStart, jobEpoch, serviceDate).value).value, phase)
  {
    hide Caps;
  }

  // ----- traces -----

  datatype Outcome = Succeeded | Failed | Cancelled | Skipped | Unset

  /** One supplied phase observation; `phase` is the place of its name in the roster. */
  datatype Observation = Observation(
    phase: nat, clock: Text, previous: Text, began: int, returned: int, lastNewWork: Option<int>,
    outcome: Outcome, retirementKnown: bool, cancelled: bool)

  datatype Reason = CaptureExpired | PhaseExpired | NewWorkExpired | NotSuccessful | WasCancelled | RetirementUnknown

  /** What a trace is read against. `parse` and `digest` stand for the record grammar and SHA-256. */
  datatype Context = Context(
    end: int, clock: Text, predecessor: Text, predecessorNs: int, serviceLastNs: int,
    parse: Text -> Option<Observation>, digest: Text -> Text)

  datatype Row = Row(sha: Text, observation: Observation, phaseEnd: int, captureEnd: Option<int>, newWorkEnd: Option<int>)

  datatype Status = FailedTrace | CompleteTrace | PrefixTrace

  datatype Trace = Trace(rows: seq<Row>, lastNs: int, lastSha: Text, status: Status, reasons: seq<Reason>)

  function Min(a: int, b: int): int {
    if a < b then a else b
  }

  function PhaseEnd(end: int, o: Observation, phase: nat): int {
    Min(Fence(end, phase), o.began + Cap(phase) * NS)
  }

  /** The capture group's end so far: from the first work of the group, idle gaps included. */
  function CaptureEnd(groupBegan: int, phase: nat): int
    requires GroupStart(phase).Some?
  {
    groupBegan + Caps(GroupStart(phase).value, phase + 1) * NS
  }

  function NewWorkEnd(end: int, o: Observation, phase: nat): int {
    Min(PhaseEnd(end, o, phase), o.began + NEW_WORK_SECONDS * NS)
  }

  /** Why an observation is adverse; `groupBegan` is when its capture group, if any, began. */
  function Reasons(end: int, o: Observation, phase: nat, groupBegan: int): seq<Reason> {
    (if GroupStart(phase).Some? && o.returned >= CaptureEnd(groupBegan, phase) then [CaptureExpired] else []) +
    (if o.returned >= PhaseEnd(end, o, phase) then [PhaseExpired] else []) +
    (if IsCopy(phase) && o.lastNewWork.Some? && o.lastNewWork.value >= NewWorkEnd(end, o, phase) then [NewWorkExpired] else []) +
    (if o.outcome != Succeeded then [NotSuccessful] else []) +
    (if o.cancelled || o.outcome == Cancelled then [WasCancelled] else []) +
    (if !o.retirementKnown then [RetirementUnknown] else [])
  }

  /** The record is in range: its ends fit the clock, and new work is stated for copies only. */
  predicate InRange(o: Observation, phase: nat, groupBegan: int) {
    && Integer(o.began) && Integer(o.returned) && Integer(o.began + Cap(phase) * NS)
    && (GroupStart(phase).Some? ==> Integer(CaptureEnd(groupBegan, phase)))
    && (if IsCopy(phase) then
          && o.lastNewWork.Some? && Integer(o.lastNewWork.value) && o.began <= o.lastNewWork.value <= o.returned
          && Integer(o.began + NEW_WORK_SECONDS * NS)
        else o.lastNewWork.None?)
  }

  function RowFor(end: int, sha: Text, o: Observation, phase: nat, groupBegan: int): Row {
    Row(sha, o, PhaseEnd(end, o, phase),
        if GroupStart(phase).Some? then Some(CaptureEnd(groupBegan, phase)) else None,
        if IsCopy(phase) then Some(NewWorkEnd(end, o, phase)) else None)
  }

  // The declarative reading of a trace, row by row.

  ghost predicate Parsed(c: Context, raws: seq<Text>, i: nat)
    requires i < |raws|
  {
    c.parse(raws[i]).Some?
  }

  ghost function Obs(c: Context, raws: seq<Text>, i: nat): Observation
    requires i < |raws| && Parsed(c, raws, i)
  {
    c.parse(raws[i]).value
  }

  /** When the capture group of row `i` began. */
  ghost function GroupBegan(c: Context, raws: seq<Text>, i: nat): int
    requires i < |raws|
  {
    if GroupStart(i).Some? && GroupStart(i).value < |raws| && Parsed(c, raws, GroupStart(i).value)
    then Obs(c, raws, GroupStart(i).value).began else 0
  }

  /** The time and the digest that row `i` must follow. */
  ghost function Before(c: Context, raws: seq<Text>, i: nat): (int, Text)
    requires i <= |raws|
  {
    if i == 0 then (c.predecessorNs, c.digest(c.predecessor))
    else if Parsed(c, raws, i - 1) then (Obs(c, raws, i - 1).returned, c.digest(raws[i - 1]))
    else (0, [])
  }

  ghost predicate WellFormed(c: Context, raws: seq<Text>, i: nat)
    requires i < |raws|
  {
    && Parsed(c, raws, i)
    && (var o := Obs(c, raws, i);
        && o.phase == i && o.clock == c.clock && o.previous == Before(c, raws, i).1
        && Before(c, raws, i).0 <= o.began <= o.returned && InRange(o, i, GroupBegan(c, raws, i)))
  }

  ghost function RowReasons(c: Context, raws: seq<Text>, i: nat): seq<Reason>
    requires i < |raws| && Parsed(c, raws, i)
  {
    Reasons(c.end, Obs(c, raws, i), i, GroupBegan(c, raws, i))
  }

  ghost function RowOf(c: Context, raws: seq<Text>, i: nat): Row
    requires i < |raws| && Parsed(c, raws, i)
  {
    RowFor(c.end, c.digest(raws[i]), Obs(c, raws, i), i, GroupBegan(c, raws, i))
  }

  /** Every row is well formed, and only the last may be adverse. */
  ghost predicate RowsOk(c: Context, raws: seq<Text>, n: nat)
    requires n <= |raws|
  {
    forall i | 0 <= i < n :: WellFormed(c, raws, i) && (i + 1 < n ==> RowReasons(c, raws, i) == [])
  }

  predicate Admissible(c: Context, raws: seq<Text>) {
    && c.predecessorNs >= c.serviceLastNs && 0 < |c.predecessor| <= 2 * 1024 * 1024
    && |raws| <= PHASE_COUNT && forall raw <- raws :: 0 < |raw| <= OBSERVATION_LIMIT
  }

  ghost predicate Accepted(c: Context, raws: seq<Text>) {
    Admissible(c, raws) && RowsOk(c, raws, |raws|)
  }

  /** Known group starts: for every group begun among the first `n` rows, when it began. */
  ghost predicate Started(c: Context, raws: seq<Text>, n: nat, starts: map<nat, int>)
    requires n <= |raws|
  {
    forall g | 0 <= g < n && GroupStart(g) == Some(g) ::
      g in starts && Parsed(c, raws, g) && starts[g] == Obs(c, raws, g).began
  }

  lemma StartedGroup(c: Context, raws: seq<Text>, n: nat, starts: map<nat, int>)
    requires n < |raws| && Started(c, raws, n, starts) && GroupStart(n).Some? && GroupStart(n).value < n
    ensures GroupStart(n).value in starts && starts[GroupStart(n).value] == GroupBegan(c, raws, n)
  {
    GroupsFit(n);
  }

  lemma NoRows(c: Context, raws: seq<Text>)
    ensures RowsOk(c, raws, 0)
  {
  }

  /** One more row. */
  lemma RowStep(c: Context, raws: seq<Text>, n: nat)
    requires n < |raws| && RowsOk(c, raws, n)
    ensures RowsOk(c, raws, n + 1) <==>
            (WellFormed(c, raws, n) && (n > 0 ==> Parsed(c, raws, n - 1) && RowReasons(c, raws, n - 1) == []))
    ensures RowsOk(c, raws, |raws|) ==> RowsOk(c, raws, n + 1)
  {
    hide WellFormed, RowReasons;
    if n > 0 {
      assert WellFormed(c, raws, n - 1);
      WellParsed(c, raws, n - 1);
    }
  }

  lemma WellParsed(c: Context, raws: seq<Text>, i: nat)
    requires i < |raws| && WellFormed(c, raws, i)
    ensures Parsed(c, raws, i)
  {
  }

  /** The linear acceptor: a trace is accepted exactly when every row is well formed and follows its
      predecessor, and none but the last is adverse. */
  method DeriveTrace(c: Context, raws: seq<Text>) returns (r: Option<Trace>)
    ensures r.Some? <==> Accepted(c, raws)
    ensures r.Some? ==>
      && |r.value.rows| == |raws| && (forall i | 0 <= i < |raws| :: Parsed(c, raws, i) && r.value.rows[i] == RowOf(c, raws, i))
      && r.value.lastNs == Before(c, raws, |raws|).0 && r.value.lastSha == Before(c, raws, |raws|).1
      && r.value.reasons == (if raws == [] then [] else RowReasons(c, raws, |raws| - 1))
      && r.value.status == (if r.value.reasons != [] then FailedTrace
                            else if |raws| == PHASE_COUNT then CompleteTrace else PrefixTrace)
  {
    hide Caps, Cap, Reasons, InRange, PhaseEnd, NewWorkEnd, RowsOk, RowFor, GroupStart;
    NoRows(c, raws);
    if !Admissible(c, raws) { return None; }
    var previous, last, n := c.digest(c.predecessor), c.predecessorNs, 0;
    var rows, reasons, starts: map<nat, int> := [], [], map[];
    while n < |raws|
      invariant 0 <= n <= |raws| && RowsOk(c, raws, n) && Started(c, raws, n, starts)
      invariant (last, previous) == Before(c, raws, n)
      invariant |rows| == n && forall i | 0 <= i < n :: Parsed(c, raws, i) && rows[i] == RowOf(c, raws, i)
      invariant n > 0 ==> Parsed(c, raws, n - 1)
      invariant reasons == if n == 0 then [] else RowReasons(c, raws, n - 1)
    {
      RowStep(c, raws, n);
      if reasons != [] { return None; }
      var parsed := c.parse(raws[n]);
      if parsed.None? { return None; }
      var o := parsed.value;
      if o.phase != n || o.clock != c.clock || o.previous != previous { return None; }
      if !(last <= o.began <= o.returned) { return None; }
      var group := GroupStart(n);
      if group == Some(n) { starts := starts[n := o.began]; }
      var groupBegan := 0;
      if group.Some? {
        GroupsFit(n);
        if group.value < n { StartedGroup(c, raws, n, starts); }
        groupBegan := starts[group.value];
      }
      assert groupBegan == GroupBegan(c, raws, n);
      if !InRange(o, n, groupBegan) { return None; }
      reasons := Reasons(c.end, o, n, groupBegan);
      previous, last := c.digest(raws[n]), o.returned;
      rows := rows + [RowFor(c.end, previous, o, n, groupBegan)];
      n := n + 1;
    }
    var status := if reasons != [] then FailedTrace else if |rows| == PHASE_COUNT then CompleteTrace else PrefixTrace;
    r := Some(Trace(rows, last, previous, status, reasons));
  }

  // ----- what acceptance means -----

  /** Only the last row of an accepted trace can be adverse. */
  lemma OnlyLastAdverse(c: Context, raws: seq<Text>, i: nat)
    requires Accepted(c, raws) && i + 1 < |raws|
    ensures Parsed(c, raws, i) && RowReasons(c, raws, i) == []
  {
    hide RowReasons;
    assert WellFormed(c, raws, i);
  }

  /** Times never go backwards, from any row to any later one. */
  lemma {:induction false} TimesAreMonotone(c: Context, raws: seq<Text>, i: nat, j: nat)
    requires Accepted(c, raws) && i < j < |raws|
    ensures Parsed(c, raws, i) && Parsed(c, raws, j)
    ensures c.predecessorNs <= Obs(c, raws, i).began <= Obs(c, raws, i).returned <= Obs(c, raws, j).began
    decreases j
  {
    hide RowReasons, InRange;
    assert WellFormed(c, raws, i) && WellFormed(c, raws, j);
    if j > i + 1 {
      TimesAreMonotone(c, raws, i, j - 1);
      assert WellFormed(c, raws, j - 1);
    } else if i > 0 {
      TimesAreMonotone(c, raws, 0, i);
      assert WellFormed(c, raws, 0);
    }
  }

  /** A row that is not adverse ended before its fence, in its cap and in its capture group's span (less than
      900 seconds from the group's first work, idle gaps included); the caps of all later phases still fit
      between its fence and the job end. */
  lemma RowInTime(c: Context, raws: seq<Text>, i: nat)
    requires Accepted(c, raws) && i < |raws| && Parsed(c, raws, i) && RowReasons(c, raws, i) == []
    ensures var o := Obs(c, raws, i);
      && o.returned < Fence(c.end, i) && Fence(c.end, i) + Caps(i + 1, PHASE_COUNT) * NS == c.end
      && o.returned < o.began + Cap(i) * NS
      && (GroupStart(i).Some? ==>
            && GroupStart(i).value <= i && Parsed(c, raws, GroupStart(i).value)
            && (var began := Obs(c, raws, GroupStart(i).value).began;
                began <= o.returned < began + Caps(GroupStart(i).value, i + 1) * NS
                && o.returned < began + 900 * NS))
      && (IsCopy(i) ==> o.lastNewWork.Some? && o.began <= o.lastNewWork.value <= o.returned
                        && o.lastNewWork.value < o.began + NEW_WORK_SECONDS * NS)
      && o.outcome == Succeeded && !o.cancelled && o.retirementKnown
  {
    hide Cap, Caps;
    assert WellFormed(c, raws, i);
    NoReasons(c.end, Obs(c, raws, i), i, GroupBegan(c, raws, i));
    if GroupStart(i).Some? {
      GroupsFit(i);
      var g := GroupStart(i).value;
      assert WellFormed(c, raws, g);
      if g < i { TimesAreMonotone(c, raws, g, i); }
    }
  }

  lemma NoReasons(end: int, o: Observation, phase: nat, groupBegan: int)
    requires Reasons(end, o, phase, groupBegan) == []
    ensures GroupStart(phase).Some? ==> o.returned < CaptureEnd(groupBegan, phase)
    ensures o.returned < PhaseEnd(end, o, phase)
    ensures IsCopy(phase) && o.lastNewWork.Some? ==> o.lastNewWork.value < NewWorkEnd(end, o, phase)
    ensures o.outcome == Succeeded && !o.cancelled && o.retirementKnown
  {
    hide CaptureEnd, PhaseEnd, NewWorkEnd, GroupStart;
  }

  ghost predicate Injective(digest: Text -> Text) {
    forall a, b :: digest(a) == digest(b) ==> a == b
  }

  lemma {:induction false} LinkedBack(c: Context, d: Context, raws: seq<Text>, other: seq<Text>, i: nat)
    requires c.parse == d.parse && c.digest == d.digest && Injective(c.digest)
    requires Accepted(c, raws) && Accepted(d, other) && i < |raws| == |other| && raws[i] == other[i]
    ensures raws[..i + 1] == other[..i + 1] && c.predecessor == d.predecessor
  {
    hide InRange, RowReasons;
    assert WellFormed(c, raws, i) && WellFormed(d, other, i);
    if i > 0 {
      assert WellFormed(c, raws, i - 1) && WellFormed(d, other, i - 1);
      assert c.digest(raws[i - 1]) == c.digest(other[i - 1]);
      LinkedBack(c, d, raws, other, i - 1);
      assert raws[..i + 1] == raws[..i] + [raws[i]] && other[..i + 1] == other[..i] + [other[i]];
    } else {
      assert c.digest(c.predecessor) == c.digest(d.predecessor);
    }
  }

  /** The last digest fixes the whole trace: two accepted traces with the same last digest are the same,
      original by original, down to the predecessor. */
  lemma TamperEvident(c: Context, d: Context, raws: seq<Text>, other: seq<Text>)
    requires c.parse == d.parse && c.digest == d.digest && Injective(c.digest)
    requires Accepted(c, raws) && Accepted(d, other) && raws != [] && other != []
    requires c.digest(raws[|raws| - 1]) == d.digest(other[|other| - 1])
    ensures raws == other && c.predecessor == d.predecessor
  {
    hide InRange, RowReasons;
    var n := |raws| - 1;
    assert raws[n] == other[|other| - 1];
    assert WellFormed(c, raws, n) && WellFormed(d, other, |other| - 1);
    LinkedBack(c, d, raws, other, n);
    assert raws[..n + 1] == raws && other[..n + 1] == other;
  }
}
