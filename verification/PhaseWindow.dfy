/** The clock window of a stage or empty-seed leaf, and the checks that its successors make of its record. */
module PhaseWindow {
  import opened Wrappers
  import opened ServiceTime

  const HARD_SECONDS := 120

  datatype Phase = DependencyStage | EmptySeed

  function SoftSeconds(phase: Phase): int {
    if phase == EmptySeed then 90 else HARD_SECONDS
  }

  function Min(a: int, b: int): int {
    if a < b then a else b
  }

  /** The local deadline for a clock fence, rounded towards the past; none if no time is left. */
  type Directed = (real, int, int, int) -> Option<real>

  /** What directed rounding promises. */
  ghost predicate RoundsDown(directed: Directed) {
    forall local, seconds, fence, now :: directed(local, seconds, fence, now).Some? ==>
      var end := directed(local, seconds, fence, now).value;
      local < end <= local + seconds as real && end <= local + (fence - now) as real / 1_000_000_000.0
  }

  /** More time never gives an earlier deadline. */
  ghost predicate Monotone(directed: Directed) {
    forall local, now, s1, f1, s2, f2 | s1 <= s2 && f1 <= f2 ::
      directed(local, s1, f1, now).Some? && directed(local, s2, f2, now).Some? ==>
        directed(local, s1, f1, now).value <= directed(local, s2, f2, now).value
  }

  /** What both a leaf and its successors know: the phase's fence, the job end and the names of their inputs. */
  datatype Inputs = Inputs(fence: int, jobEnd: int, clock: Text, proposalSha: Text, directed: Directed)

  /** The predecessor's return: the digest of its record, when it was checked, and on the local clock. */
  datatype Previous = Previous(sha: Text, checkedNs: int, checkedLocal: real)

  datatype Record = Record(
    phase: Phase, clock: Text, first: int, hard: int, soft: int, lastNewWork: int, finished: int,
    predecessorSha: Text, predecessorNs: int, proposalSha: Text)

  datatype Evidence = Evidence(window: Record, checked: int, localStarted: real, localChecked: real)

  function Hard(i: Inputs, first: int): int {
    Min(Min(first + HARD_SECONDS * NS, i.fence), i.jobEnd)
  }

  function Soft(i: Inputs, first: int, phase: Phase): int {
    Min(Hard(i, first), first + SoftSeconds(phase) * NS)
  }

  /** One observation: the local clock, the shared clock, the local clock again. `intact` says that inputs and
      phase are the originals before it, `sameClock` that the shared clock is, and `intactAfter` that inputs and
      phase still are. */
  datatype Reading = Reading(intact: bool, before: real, sameClock: bool, raw: int, after: real, intactAfter: bool,
                             cancelled: bool)

  /** A sample, for new work or not. */
  datatype Step = Step(reading: Reading, isNew: bool)

  /** What a window fixes when it opens. */
  datatype Frame = Frame(inputs: Inputs, previous: Previous, phase: Phase, first: int, localStart: real,
                         localHard: real, localSoft: real)

  /** The high-water marks of a window. */
  datatype Marks = Marks(last: int, localLast: real, lastNew: int)

  /** A window opens after its predecessor's return and with time left on every clock. */
  predicate Opens(i: Inputs, previous: Previous, phase: Phase, first: int, localStart: real) {
    && previous.checkedNs <= first && previous.checkedLocal <= localStart && Integer(first + HARD_SECONDS * NS)
    && first < Soft(i, first, phase)
    && i.directed(localStart, HARD_SECONDS, Hard(i, first), first).Some?
    && i.directed(localStart, SoftSeconds(phase), Soft(i, first, phase), first).Some?
  }

  function Opened(i: Inputs, previous: Previous, phase: Phase, first: int, localStart: real): Frame
    requires Opens(i, previous, phase, first, localStart)
  {
    Frame(i, previous, phase, first, localStart, i.directed(localStart, HARD_SECONDS, Hard(i, first), first).value,
          i.directed(localStart, SoftSeconds(phase), Soft(i, first, phase), first).value)
  }

  /** A sample passes: nothing changed, no clock went back, and it is early enough on both clocks. */
  predicate Passes(f: Frame, m: Marks, s: Step) {
    var r := s.reading;
    && r.intact && r.sameClock && r.intactAfter && !r.cancelled
    && m.localLast <= r.before <= r.after && m.last <= r.raw
    && (if s.isNew then r.raw < Soft(f.inputs, f.first, f.phase) && r.after < f.localSoft
        else r.raw < Hard(f.inputs, f.first) && r.after < f.localHard)
  }

  /** The marks after a sample, passed or not: a reading that goes back moves nothing, a late one is kept. */
  function Sampled(m: Marks, s: Step): Marks {
    var r := s.reading;
    if !r.intact || r.before < m.localLast then m
    else if !r.sameClock || r.raw < m.last then m.(localLast := r.before)
    else Marks(r.raw, if r.after < r.before then r.before else r.after, if s.isNew then r.raw else m.lastNew)
  }

  /** The marks after the first `n` samples. */
  function After(m: Marks, steps: seq<Step>, n: nat): Marks
    requires n <= |steps|
  {
    if n == 0 then m else Sampled(After(m, steps, n - 1), steps[n - 1])
  }

  ghost predicate AllPass(f: Frame, m: Marks, steps: seq<Step>) {
    forall n | 0 <= n < |steps| :: Passes(f, After(m, steps, n), steps[n])
  }

  /** The samples after the record ask for no new work. */
  function Finals(readings: seq<Reading>): (steps: seq<Step>)
    ensures |steps| == |readings| && forall i | 0 <= i < |steps| :: steps[i] == Step(readings[i], false)
  {
    seq(|readings|, i requires 0 <= i < |readings| => Step(readings[i], false))
  }

  /** The number of the last sample for new work among the first `n`, plus one; none gives zero. */
  function LastNew(steps: seq<Step>, n: nat): (k: nat)
    requires n <= |steps|
    ensures k <= n && (k > 0 ==> steps[k - 1].isNew) && forall i | k <= i < n :: !steps[i].isNew
  {
    if n == 0 then 0 else if steps[n - 1].isNew then n else LastNew(steps, n - 1)
  }

  /** If all samples pass, the marks are the last readings themselves, and those of the last new work. */
  lemma {:induction false} MarksExactly(f: Frame, m: Marks, steps: seq<Step>, n: nat)
    requires AllPass(f, m, steps) && n <= |steps|
    ensures var k := LastNew(steps, n);
      After(m, steps, n) ==
        Marks(if n == 0 then m.last else steps[n - 1].reading.raw,
              if n == 0 then m.localLast else steps[n - 1].reading.after,
              if k == 0 then m.lastNew else steps[k - 1].reading.raw)
    ensures m.last <= After(m, steps, n).last && m.localLast <= After(m, steps, n).localLast
  {
    hide Passes, Sampled;
    if n > 0 {
      MarksExactly(f, m, steps, n - 1);
      PassedMarks(f, After(m, steps, n - 1), steps[n - 1]);
    }
  }

  lemma PassedMarks(f: Frame, m: Marks, s: Step)
    requires Passes(f, m, s)
    ensures Sampled(m, s) == Marks(s.reading.raw, s.reading.after, if s.isNew then s.reading.raw else m.lastNew)
    ensures m.last <= s.reading.raw && m.localLast <= s.reading.after
  {
  }

  class Window {
    const frame: Frame
    var marks: Marks

    /** The marks are in order, and the window is one that opens. */
    ghost predicate Valid()
      reads this
    {
      FrameOk(frame) && MarksOk(frame, marks)
    }

    constructor (f: Frame)
      requires FrameOk(f)
      ensures Valid() && fresh(this) && frame == f && marks == Marks(f.first, f.localStart, f.first)
      ensures Live(frame, marks)
    {
      frame, marks := f, Marks(f.first, f.localStart, f.first);
    }

    /** A late or backward reading is refused, and kept. */
    method Sample(s: Step) returns (ok: bool)
      requires Valid()
      modifies this`marks
      ensures Valid() && marks == Sampled(old(marks), s)
      ensures ok <==> Passes(frame, old(marks), s)
      ensures ok && Live(frame, old(marks)) ==> Live(frame, marks)
    {
      var r := s.reading;
      if !r.intact || r.before < marks.localLast { return false; }
      marks := marks.(localLast := r.before);
      if !r.sameClock || r.raw < marks.last { return false; }
      marks := marks.(last := r.raw);
      if s.isNew { marks := marks.(lastNew := r.raw); }
      if r.after < marks.localLast { return false; }
      marks := marks.(localLast := r.after);
      ok := && marks.last < (if s.isNew then Soft(frame.inputs, frame.first, frame.phase) else Hard(frame.inputs, frame.first))
            && marks.localLast < (if s.isNew then frame.localSoft else frame.localHard)
            && r.intactAfter && !r.cancelled;
    }
  }

  ghost predicate FrameOk(f: Frame) {
    && Opens(f.inputs, f.previous, f.phase, f.first, f.localStart)
    && f == Opened(f.inputs, f.previous, f.phase, f.first, f.localStart)
    && f.localStart < f.localSoft <= f.localHard && Integer(f.first) && Integer(f.previous.checkedNs)
  }

  ghost predicate MarksOk(f: Frame, m: Marks) {
    f.first <= m.lastNew <= m.last && f.localStart <= m.localLast
  }

  /** Nothing observed so far was late. */
  ghost predicate Live(f: Frame, m: Marks) {
    m.last < Hard(f.inputs, f.first) && m.lastNew < Soft(f.inputs, f.first, f.phase) && m.localLast < f.localHard
  }

  function Recorded(f: Frame, m: Marks): Record {
    Record(f.phase, f.inputs.clock, f.first, Hard(f.inputs, f.first), Soft(f.inputs, f.first, f.phase), m.lastNew, m.last,
           f.previous.sha, f.previous.checkedNs, f.inputs.proposalSha)
  }

  /** A window opens after its predecessor's return and before its own end, or not at all. */
  method Open(inputs: Inputs, previous: Previous, phase: Phase, first: int, localStart: real)
    returns (window: Option<Window>)
    requires RoundsDown(inputs.directed) && Monotone(inputs.directed)
    requires Integer(first) && Integer(previous.checkedNs)
    ensures window.Some? <==> Opens(inputs, previous, phase, first, localStart)
    ensures window.Some? ==>
      var f := Opened(inputs, previous, phase, first, localStart);
      && window.value.Valid() && Live(f, window.value.marks) && fresh(window.value)
      && window.value.frame == f && window.value.marks == Marks(first, localStart, first)
  {
    window := None;
    if first < previous.checkedNs || localStart < previous.checkedLocal || !Integer(first + HARD_SECONDS * NS) { return; }
    var hard, soft := Hard(inputs, first), Soft(inputs, first, phase);
    if soft <= first { return; }
    var localHard := inputs.directed(localStart, HARD_SECONDS, hard, first);
    var localSoft := inputs.directed(localStart, SoftSeconds(phase), soft, first);
    if localHard.None? || localSoft.None? { return; }
    var made := new Window(Frame(inputs, previous, phase, first, localStart, localHard.value, localSoft.value));
    window := Some(made);
  }

  // ----- what the successors check -----

  /** The check that the custody phase makes of a leaf's window. */
  predicate LeafWindow(i: Inputs, e: Evidence, previous: Previous, phase: Phase) {
    var w := e.window;
    && Integer(w.first) && Integer(w.hard) && Integer(w.soft) && Integer(w.lastNewWork) && Integer(w.finished)
    && Integer(w.predecessorNs) && Integer(w.first + HARD_SECONDS * NS) && Integer(w.first + SoftSeconds(phase) * NS)
    && (var hard := Min(Min(w.first + HARD_SECONDS * NS, i.fence), i.jobEnd);
        var soft := Min(hard, w.first + SoftSeconds(phase) * NS);
        var localEnd := i.directed(e.localStarted, HARD_SECONDS, hard, w.first);
        && w.phase == phase && w.clock == i.clock && w.predecessorSha == previous.sha
        && w.predecessorNs == previous.checkedNs && w.proposalSha == i.proposalSha
        && previous.checkedNs <= w.first <= w.lastNewWork < soft
        && w.lastNewWork <= w.finished <= e.checked < hard && w.soft == soft && w.hard == hard
        && localEnd.Some? && previous.checkedLocal <= e.localStarted <= e.localChecked < localEnd.value)
  }

  /** The check that the empty-seed leaf makes of the stage leaf's window. */
  predicate StageWindow(i: Inputs, e: Evidence, previous: Previous) {
    var w := e.window;
    var localEnd := i.directed(e.localStarted, HARD_SECONDS, w.hard, w.first);
    && Integer(w.first) && Integer(w.hard) && Integer(w.soft) && Integer(w.lastNewWork) && Integer(w.finished)
    && Integer(w.predecessorNs)
    && w.phase == DependencyStage && w.clock == i.clock && w.predecessorSha == previous.sha
    && w.predecessorNs == previous.checkedNs && w.proposalSha == i.proposalSha
    && previous.checkedNs <= w.first <= w.lastNewWork <= w.finished <= e.checked < w.hard && w.hard == w.soft
    && w.hard == Min(Min(w.first + HARD_SECONDS * NS, i.fence), i.jobEnd)
    && localEnd.Some? && previous.checkedLocal <= e.localStarted <= e.localChecked < localEnd.value
  }

  /** What a leaf returns: nothing unless its window opens and every sample of its work and of its last checks
      passes; then the record of its work and the last readings. */
  ghost function Outcome(f: Frame, m: Marks, work: seq<Step>, finals: seq<Reading>): (e: Option<Evidence>) {
    var done := After(m, work, |work|);
    if AllPass(f, m, work) && AllPass(f, done, Finals(finals))
    then
      var last := After(done, Finals(finals), |finals|);
      Some(Evidence(Recorded(f, done), last.last, f.localStart, last.localLast))
    else None
  }

  /** Every sample must pass; the first that does not is the last. */
  method Samples(window: Window, steps: seq<Step>) returns (ok: bool)
    requires window.Valid() && Live(window.frame, window.marks)
    modifies window
    ensures window.Valid()
    ensures ok <==> AllPass(window.frame, old(window.marks), steps)
    ensures ok ==> window.marks == After(old(window.marks), steps, |steps|) && Live(window.frame, window.marks)
  {
    hide Passes, Live, MarksOk, FrameOk;
    var n := 0;
    while n < |steps|
      invariant n <= |steps| && window.Valid() && Live(window.frame, window.marks)
      invariant window.marks == After(old(window.marks), steps, n)
      invariant forall m | 0 <= m < n :: Passes(window.frame, After(old(window.marks), steps, m), steps[m])
    {
      ok := window.Sample(steps[n]);
      if !ok { return; }
      n := n + 1;
    }
    ok := true;
  }

  /** A leaf: its work, its record, and the last checks after the record. It returns exactly when every sample
      passes, with the readings themselves; and then, whatever the clocks did, its successors accept its record. */
  method Leaf(window: Window, work: seq<Step>, finalChecks: seq<Reading>) returns (e: Option<Evidence>)
    requires window.Valid() && Live(window.frame, window.marks)
    modifies window
    ensures e == Outcome(window.frame, old(window.marks), work, finalChecks)
    ensures e.Some? ==>
      && LeafWindow(window.frame.inputs, e.value, window.frame.previous, window.frame.phase)
      && (window.frame.phase == DependencyStage ==> StageWindow(window.frame.inputs, e.value, window.frame.previous))
  {
    hide Passes, AllPass;
    e := None;
    var ok := Samples(window, work);
    if !ok { return; }
    var done := window.marks;
    var recorded := Recorded(window.frame, done);
    ok := Samples(window, Finals(finalChecks));
    if !ok { return; }
    MarksExactly(window.frame, done, Finals(finalChecks), |finalChecks|);
    e := Some(Evidence(recorded, window.marks.last, window.frame.localStart, window.marks.localLast));
  }

  /** The leaf that opens its window at `first`. */
  ghost function Phased(i: Inputs, previous: Previous, phase: Phase, first: int, localStart: real, work: seq<Step>,
                        finals: seq<Reading>): (e: Option<Evidence>)
  {
    if !Opens(i, previous, phase, first, localStart) then None
    else Outcome(Opened(i, previous, phase, first, localStart), Marks(first, localStart, first), work, finals)
  }

  /** The return of the stage leaf, as the seed leaf's predecessor. */
  function Returned(sha: Text, e: Evidence): Previous {
    Previous(sha, e.checked, e.localChecked)
  }

  /** The seed leaf follows the stage leaf. Both return exactly when both windows open and every sample passes;
      then every time of the first precedes every time of the second, and neither outlives its phase fence, the
      job end or 120 local seconds. */
  method StageThenSeed(stageInputs: Inputs, seedInputs: Inputs, previous: Previous, stage: seq<Step>, seed: seq<Step>,
                       stageChecks: seq<Reading>, seedChecks: seq<Reading>, stageSha: Text,
                       first: int, localStart: real, seedFirst: int, seedLocalStart: real)
    returns (r: Option<(Evidence, Evidence)>)
    requires RoundsDown(stageInputs.directed) && Monotone(stageInputs.directed) && seedInputs.directed == stageInputs.directed
    requires Integer(first) && Integer(seedFirst) && Integer(previous.checkedNs)
    ensures var a := Phased(stageInputs, previous, DependencyStage, first, localStart, stage, stageChecks);
      && (a.None? ==> r.None?)
      && (a.Some? ==>
            var b := Phased(seedInputs, Returned(stageSha, a.value), EmptySeed, seedFirst, seedLocalStart, seed, seedChecks);
            r == if b.Some? then Some((a.value, b.value)) else None)
    ensures r.Some? ==>
      var (a, b) := r.value;
      && StageWindow(stageInputs, a, previous)
      && LeafWindow(seedInputs, b, Returned(stageSha, a), EmptySeed)
      && previous.checkedNs <= a.window.first <= a.window.lastNewWork <= a.window.finished <= a.checked
      && a.checked <= b.window.first <= b.window.lastNewWork <= b.window.finished <= b.checked
      && a.checked < stageInputs.fence && a.checked < stageInputs.jobEnd && a.checked < a.window.first + HARD_SECONDS * NS
      && b.checked < seedInputs.fence && b.checked < seedInputs.jobEnd && b.window.lastNewWork < b.window.first + 90 * NS
      && a.localChecked < a.localStarted + 120.0 && b.localChecked < b.localStarted + 120.0
  {
    hide Outcome, Opens, FrameOk, MarksOk, Live;
    r := None;
    var w := Open(stageInputs, previous, DependencyStage, first, localStart);
    if w.None? { return; }
    var a := Leaf(w.value, stage, stageChecks);
    if a.None? { return; }
    var v := Open(seedInputs, Returned(stageSha, a.value), EmptySeed, seedFirst, seedLocalStart);
    if v.None? { return; }
    var b := Leaf(v.value, seed, seedChecks);
    if b.None? { return; }
    r := Some((a.value, b.value));
  }
}
