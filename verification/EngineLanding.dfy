/** The landing marker: a publish writer raises a marker file with a deadline, waits a grace period
    and swaps the engine; readers check the marker before they import. A timed state machine over
    the steps of one writer at a time and any number of readers. */
module EngineLanding {
  import opened Text

  type Pid = nat

  const GRACE := 0.3
  const POLL := 0.02

  /** A writer: the deadline is computed before the marker file is replaced, and the marker stays up
      until after the swap. */
  datatype Writer =
    | Out
    | Prepared(deadline: real)
    | Raised(at: real, deadline: real)
    | Swapping(at: real, deadline: real)
    | Swapped

  /** A reader: `swap_in_progress` looks for the file, then reads it, then compares the deadline
      with the clock, each at its own time; `seen` is when it last looked. */
  datatype Reader =
    | Outside
    | Found
    | Read(seen: real, deadline: real)
    | Waiting
    | Importing(seen: real)
    | Ungated

  datatype State = State(now: real, marker: Option<real>, writer: Writer, readers: map<Pid, Reader>)

  datatype Action =
    | Tick(dt: real)
    | Prepare(deadlineIn: real)
    | Raise
    | StartSwap
    | EndSwap
    | Lower
    | Crash
    | Look(p: Pid)
    | ReadMarker(p: Pid)
    | Compare(p: Pid)
    | GiveUp(p: Pid)
    | Leave(p: Pid)

  function ReaderOf(s: State, p: Pid): Reader { if p in s.readers then s.readers[p] else Outside }

  function Put(s: State, p: Pid, r: Reader): State { s.(readers := s.readers[p := r]) }

  /** Time may pass only as the parties promise: a swap ends before its deadline, and a reader is
      done importing within the grace period of its last look at the marker. */
  ghost predicate MayPass(s: State, dt: real) {
    && dt >= 0.0
    && (s.writer.Swapping? ==> s.now + dt < s.writer.deadline)
    && (forall p: Pid :: ReaderOf(s, p).Importing? ==> s.now + dt < ReaderOf(s, p).seen + GRACE)
  }

  ghost predicate Enabled(s: State, a: Action) {
    match a
    case Tick(dt) => MayPass(s, dt)
    case Prepare(_) => s.writer.Out?
    case Raise => s.writer.Prepared?
    case StartSwap => s.writer.Raised? && s.writer.at + GRACE <= s.now < s.writer.deadline
    case EndSwap => s.writer.Swapping?
    case Lower => s.writer.Swapped? || s.writer.Raised?
    case Crash => true
    case Look(p) => var r := ReaderOf(s, p); r.Outside? || r.Waiting?
    case ReadMarker(p) => ReaderOf(s, p).Found?
    case Compare(p) => var r := ReaderOf(s, p); r.Read? && (s.now >= r.deadline ==> s.now < r.seen + GRACE)
    case GiveUp(p) => ReaderOf(s, p).Waiting?
    case Leave(p) => var r := ReaderOf(s, p); r.Importing? || r.Ungated?
  }

  function Step(s: State, a: Action): State {
    match a
    case Tick(dt) => s.(now := s.now + dt)
    case Prepare(d) => s.(writer := Prepared(s.now + d))
    case Raise =>
      if s.writer.Prepared? then s.(marker := Some(s.writer.deadline), writer := Raised(s.now, s.writer.deadline)) else s
    case StartSwap => if s.writer.Raised? then s.(writer := Swapping(s.writer.at, s.writer.deadline)) else s
    case EndSwap => s.(writer := Swapped)
    case Lower => s.(marker := None, writer := Out)
    case Crash => s.(writer := Out)
    case Look(p) => Put(s, p, if s.marker.None? then Importing(s.now) else Found)
    case ReadMarker(p) =>
      Put(s, p, if s.marker.None? then Importing(s.now) else Read(s.now, s.marker.value))
    case Compare(p) =>
      var r := ReaderOf(s, p);
      if r.Read? then Put(s, p, if s.now < r.deadline then Waiting else Importing(r.seen)) else s
    case GiveUp(p) => Put(s, p, Ungated)
    case Leave(p) => Put(s, p, Outside)
  }

  const START := State(0.0, None, Out, map[])

  ghost predicate Legal(s: State, actions: seq<Action>)
    decreases |actions|
  {
    actions == [] || (Enabled(s, actions[0]) && Legal(Step(s, actions[0]), actions[1..]))
  }

  function Run(s: State, actions: seq<Action>): State
    decreases |actions|
  {
    if actions == [] then s else Run(Step(s, actions[0]), actions[1..])
  }

  // ---------------------------------------------------------------- safety

  predicate Guarding(w: Writer) { w.Raised? || w.Swapping? }

  /** While a writer holds the marker up, a reader either looked before it was raised, or carries
      this writer's deadline, or got past the gate because that deadline is over. */
  ghost predicate ReaderOk(s: State, p: Pid) {
    var r, w := ReaderOf(s, p), s.writer;
    && (r.Read? ==> r.seen <= s.now && (Guarding(w) ==> r.seen <= w.at || r.deadline == w.deadline))
    && (r.Importing? ==> r.seen <= s.now < r.seen + GRACE && (Guarding(w) ==> r.seen <= w.at || s.now >= w.deadline))
  }

  ghost predicate Inv(s: State) {
    && (Guarding(s.writer) ==> s.marker == Some(s.writer.deadline) && s.writer.at <= s.now)
    && (s.writer.Swapping? ==> s.writer.at + GRACE <= s.now < s.writer.deadline)
    && (forall p: Pid :: ReaderOk(s, p))
  }

  lemma {:induction false} TimeKeeps(s: State, a: Action)
    requires Inv(s) && Enabled(s, a) && a.Tick?
    ensures Inv(Step(s, a))
  {
    var t := Step(s, a);
    forall p: Pid
      ensures ReaderOk(t, p)
    {
      assert ReaderOk(s, p);
      assert ReaderOf(t, p) == ReaderOf(s, p);
    }
  }

  lemma {:induction false} WriterKeeps(s: State, a: Action)
    requires Inv(s) && Enabled(s, a)
    requires a.Prepare? || a.Raise? || a.StartSwap? || a.EndSwap? || a.Lower? || a.Crash?
    ensures Inv(Step(s, a))
  {
    var t := Step(s, a);
    forall p: Pid
      ensures ReaderOk(t, p)
    {
      assert ReaderOk(s, p);
      assert ReaderOf(t, p) == ReaderOf(s, p);
    }
  }

  lemma {:induction false} ReaderKeeps(s: State, a: Action, p: Pid)
    requires Inv(s) && Enabled(s, a)
    requires a in {Look(p), ReadMarker(p), Compare(p), GiveUp(p), Leave(p)}
    ensures Inv(Step(s, a))
  {
    var t := Step(s, a);
    forall q: Pid
      ensures ReaderOk(t, q)
    {
      assert ReaderOk(s, q);
      assert q != p ==> ReaderOf(t, q) == ReaderOf(s, q);
    }
  }

  lemma {:induction false} StepKeeps(s: State, a: Action)
    requires Inv(s) && Enabled(s, a)
    ensures Inv(Step(s, a))
  {
    match a
    case Tick(_) => TimeKeeps(s, a);
    case Look(p) => ReaderKeeps(s, a, p);
    case ReadMarker(p) => ReaderKeeps(s, a, p);
    case Compare(p) => ReaderKeeps(s, a, p);
    case GiveUp(p) => ReaderKeeps(s, a, p);
    case Leave(p) => ReaderKeeps(s, a, p);
    case _ => WriterKeeps(s, a);
  }

  lemma {:induction false} RunKeeps(s: State, actions: seq<Action>)
    requires Inv(s) && Legal(s, actions)
    ensures Inv(Run(s, actions))
    decreases |actions|
  {
    if actions != [] {
      StepKeeps(s, actions[0]);
      RunKeeps(Step(s, actions[0]), actions[1..]);
    }
  }

  /** Over every run, with any number of successive swaps and crashes, no reader whose gate came out
      clear is importing while a writer swaps. */
  lemma {:induction false} NoImportDuringSwap(actions: seq<Action>, p: Pid)
    requires Legal(START, actions) && Run(START, actions).writer.Swapping?
    ensures !ReaderOf(Run(START, actions), p).Importing?
  {
    RunKeeps(START, actions);
    assert ReaderOk(Run(START, actions), p);
  }

  /** A marker left behind by a crash blocks nobody once its deadline is over: the next check passes. */
  lemma {:induction false} StaleMarkerPasses(s: State, p: Pid, d: real)
    requires s.marker == Some(d) && d <= s.now && (ReaderOf(s, p).Outside? || ReaderOf(s, p).Waiting?)
    ensures var check := [Look(p), ReadMarker(p), Compare(p)];
            Legal(s, check) && ReaderOf(Run(s, check), p) == Importing(s.now)
  {
    var s1 := Step(s, Look(p));
    var s2 := Step(s1, ReadMarker(p));
    var s3 := Step(s2, Compare(p));
    assert Legal(s3, []) && Run(s3, []) == s3;
    assert Legal(s2, [Compare(p)]) && Run(s2, [Compare(p)]) == s3;
    assert [ReadMarker(p), Compare(p)][1..] == [Compare(p)];
    assert Legal(s1, [ReadMarker(p), Compare(p)]) && Run(s1, [ReadMarker(p), Compare(p)]) == s3;
    assert [Look(p), ReadMarker(p), Compare(p)][1..] == [ReadMarker(p), Compare(p)];
  }

  /** The grace period is tight: in the run where a reader looks just before the marker rises, time may
      pass up to the grace period but not to its end, and if the reader took that one instant longer the
      swap would start while it imports. */
  lemma {:induction false} GraceIsTight(p: Pid)
    ensures var before := [Look(p), Prepare(1.0), Raise];
            var s := Run(START, before);
            var late := Step(s, Tick(GRACE));
            && Legal(START, before)
            && (forall dt: real :: Enabled(s, Tick(dt)) <==> 0.0 <= dt < GRACE)
            && Enabled(late, StartSwap)
            && Step(late, StartSwap).writer.Swapping? && ReaderOf(Step(late, StartSwap), p).Importing?
  {
    var s1 := Step(START, Look(p));
    var s2 := Step(s1, Prepare(1.0));
    var s := Step(s2, Raise);
    assert Legal(s, []) && Run(s, []) == s;
    assert [Raise][1..] == [];
    assert Legal(s2, [Raise]) && Run(s2, [Raise]) == s;
    assert [Prepare(1.0), Raise][1..] == [Raise];
    assert Legal(s1, [Prepare(1.0), Raise]) && Run(s1, [Prepare(1.0), Raise]) == s;
    assert [Look(p), Prepare(1.0), Raise][1..] == [Prepare(1.0), Raise];
    assert ReaderOf(s, p) == Importing(0.0) && s.now == 0.0;
  }

  // ---------------------------------------------------------------- one check

  /** `swap_in_progress`: the states in which it looks for the marker, reads it and compares the clock;
      other processes may have acted in between. */
  datatype Check = Check(look: State, read: State, compare: State)

  predicate InProgress(c: Check) {
    c.look.marker.Some? && c.read.marker.Some? && c.compare.now < c.read.marker.value
  }

  /** Where the check's own steps leave the reader. */
  function Verdict(c: Check, p: Pid): Reader {
    var looked := ReaderOf(Step(c.look, Look(p)), p);
    if !looked.Found? then looked
    else
      var read := ReaderOf(Step(Put(c.read, p, looked), ReadMarker(p)), p);
      if !read.Read? then read else ReaderOf(Step(Put(c.compare, p, read), Compare(p)), p)
  }

  /** What the code computes is what the reader of the state machine does: it waits exactly when a swap
      is in progress and imports otherwise. */
  lemma {:induction false} CheckIsSteps(c: Check, p: Pid)
    ensures InProgress(c) <==> Verdict(c, p).Waiting?
    ensures !InProgress(c) <==> Verdict(c, p).Importing?
  {
  }

  ghost predicate NoRaise(actions: seq<Action>) { forall i :: 0 <= i < |actions| ==> !actions[i].Raise? }

  /** Nobody but a writer that raises it changes what the marker says. */
  lemma {:induction false} MarkerStays(s: State, actions: seq<Action>)
    requires NoRaise(actions)
    ensures Run(s, actions).marker == s.marker || Run(s, actions).marker.None?
    decreases |actions|
  {
    if actions != [] {
      MarkerStays(Step(s, actions[0]), actions[1..]);
    }
  }

  // ---------------------------------------------------------------- the polling loop

  type Checks = nat -> Check

  /** Each round sleeps at least the poll interval and takes at most `round`. */
  ghost predicate Paced(w: Checks, round: real) {
    forall k: nat :: POLL <= w(k + 1).compare.now - w(k).compare.now <= round
  }

  /** Every check reads a state that follows `s` with no marker raised since. */
  ghost predicate After(w: Checks, s: State) {
    forall k: nat :: exists actions :: NoRaise(actions) && Run(s, actions) == w(k).read
  }

  /** One process's gate. */
  class Gate {
    var reportedOverrun: bool

    constructor ()
      ensures !reportedOverrun
    {
      reportedOverrun := false;
    }

    /** `wait_until_clear`: True at the first check that finds no swap in progress, with the reader then
        importing; False, reported once per process, when one is still in progress at or after the
        budget. A gate that polls at all is left before the budget plus one round. It was entered at
        `start`. */
    method WaitUntilClear(w: Checks, start: real, budget: real, ghost round: real)
        returns (clear: bool, checks: nat, report: bool)
      requires Paced(w, round)
      modifies this
      ensures clear <==> forall p: Pid :: Verdict(w(checks), p).Importing?
      ensures forall k: nat, p: Pid :: k < checks ==> Verdict(w(k), p).Waiting?
      ensures !clear ==> w(checks).compare.now - start >= budget
      ensures checks > 0 ==> w(checks).compare.now - start < budget + round
      ensures (forall k: nat :: w(k).compare.now - start >= budget ==> !InProgress(w(k))) ==> clear
      ensures report <==> !clear && !old(reportedOverrun)
      ensures reportedOverrun <==> old(reportedOverrun) || !clear
    {
      checks, report := 0, false;
      while InProgress(w(checks))
        invariant forall k: nat :: k < checks ==> InProgress(w(k))
        invariant checks > 0 ==> w(checks).compare.now - start < budget + round
        invariant reportedOverrun == old(reportedOverrun)
        decreases (budget - (w(checks).compare.now - start)) / POLL
      {
        if w(checks).compare.now - start >= budget {
          report := !reportedOverrun;
          reportedOverrun := true;
          Verdicts(w, checks);
          return false, checks, report;
        }
        assert POLL <= w(checks + 1).compare.now - w(checks).compare.now <= round;
        checks := checks + 1;
      }
      Verdicts(w, checks);
      return true, checks, false;
    }
  }

  lemma {:induction false} Verdicts(w: Checks, checks: nat)
    requires forall k: nat :: k < checks ==> InProgress(w(k))
    ensures !InProgress(w(checks)) <==> forall p: Pid :: Verdict(w(checks), p).Importing?
    ensures forall k: nat, p: Pid :: k < checks ==> Verdict(w(k), p).Waiting?
  {
    forall k: nat, p: Pid | k <= checks
      ensures InProgress(w(k)) <==> Verdict(w(k), p).Waiting?
      ensures !InProgress(w(k)) <==> Verdict(w(k), p).Importing?
    {
      CheckIsSteps(w(k), p);
    }
    var one: Pid := 0;
    assert Verdict(w(checks), one).Importing? <==> !InProgress(w(checks));
  }

  /** A marker whose writer is gone is waited out when its deadline falls within the budget: no check at
      or past the budget finds it in progress, so the gate comes out clear. */
  lemma {:induction false} CrashedWriterWaitedOut(w: Checks, s: State, start: real, budget: real)
    requires After(w, s) && (s.marker.Some? ==> s.marker.value <= start + budget)
    ensures forall k: nat :: w(k).compare.now - start >= budget ==> !InProgress(w(k))
  {
    forall k: nat | w(k).compare.now - start >= budget
      ensures !InProgress(w(k))
    {
      var actions :| NoRaise(actions) && Run(s, actions) == w(k).read;
      MarkerStays(s, actions);
    }
  }
}
