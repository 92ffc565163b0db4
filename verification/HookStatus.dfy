/** Failure markers of asynchronous hooks: recorders overwrite one marker file per hook, readers
    claim a marker by renaming it before they read, report and delete it. Every process takes its
    steps in any interleaving with the others. */
module HookStatus {
  import opened Text

  type Hook = string
  type Pid = nat

  datatype Record = Record(hook: Hook, exit: int, detail: string)

  /** How far a reader has got: the names still to visit and the claimed copy it is busy with. */
  datatype Reader =
    | Idle
    | Scanning(todo: seq<Hook>)
    | Claimed(todo: seq<Hook>, hook: Hook)
    | Loaded(todo: seq<Hook>, hook: Hook, id: nat)
    | Reported(todo: seq<Hook>, hook: Hook)

  /** The directory, the readers, and what happened so far. A record is identified by its position
      in `recorded`; a marker file holds one. */
  datatype State = State(
    markers: map<Hook, nat>,
    copies: map<(Hook, Pid), nat>,
    readers: map<Pid, Reader>,
    recorded: seq<Record>,
    overwritten: set<nat>,
    surfaced: seq<(Pid, nat)>)

  const EMPTY := State(map[], map[], map[], [], {}, [])

  /** The name a failure is filed under. */
  function FiledAs(hook: Hook): (r: Hook)
    ensures r != ""
  {
    if hook == "" then "unknown" else hook
  }

  // ---------------------------------------------------------------- steps

  datatype Action =
    | Fail(hook: Hook, exit: int, detail: string)
    | List(pid: Pid, names: seq<Hook>)
    | Claim(pid: Pid)
    | Load(pid: Pid)
    | Report(pid: Pid)
    | Discard(pid: Pid)
    | Finish(pid: Pid)

  function ReaderOf(s: State, p: Pid): Reader { if p in s.readers then s.readers[p] else Idle }

  /** One atomic step; a step that is not the process's next one does nothing. Listing the directory
      may return any names, since it is not atomic and a name can vanish or appear meanwhile. */
  function Step(s: State, a: Action): State {
    match a
    case Fail(hook, exit, detail) =>
      var h := FiledAs(hook);
      s.(markers := s.markers[h := |s.recorded|],
         recorded := s.recorded + [Record(h, exit, detail)],
         overwritten := if h in s.markers then s.overwritten + {s.markers[h]} else s.overwritten)
    case List(p, names) =>
      if ReaderOf(s, p).Idle? then s.(readers := s.readers[p := Scanning(names)]) else s
    case Claim(p) =>
      var r := ReaderOf(s, p);
      if !r.Scanning? || r.todo == [] then s
      else
        var h, rest := r.todo[0], r.todo[1..];
        if h in s.markers then
          s.(markers := s.markers - {h}, copies := s.copies[(h, p) := s.markers[h]], readers := s.readers[p := Claimed(rest, h)])
        else s.(readers := s.readers[p := Scanning(rest)])
    case Load(p) =>
      var r := ReaderOf(s, p);
      if r.Claimed? && (r.hook, p) in s.copies
      then s.(readers := s.readers[p := Loaded(r.todo, r.hook, s.copies[(r.hook, p)])]) else s
    case Report(p) =>
      var r := ReaderOf(s, p);
      if r.Loaded? then s.(readers := s.readers[p := Reported(r.todo, r.hook)], surfaced := s.surfaced + [(p, r.id)]) else s
    case Discard(p) =>
      var r := ReaderOf(s, p);
      if r.Reported? then s.(copies := s.copies - {(r.hook, p)}, readers := s.readers[p := Scanning(r.todo)]) else s
    case Finish(p) =>
      var r := ReaderOf(s, p);
      if r.Scanning? && r.todo == [] then s.(readers := s.readers[p := Idle]) else s
  }

  function Run(s: State, actions: seq<Action>): State
    decreases |actions|
  {
    if actions == [] then s else Run(Step(s, actions[0]), actions[1..])
  }

  // ---------------------------------------------------------------- where a record is

  datatype Place = Pending | HeldBy(pid: Pid) | Surfaced(k: nat) | Overwritten(later: nat)

  /** The record a reader has claimed and not yet reported. */
  predicate Holds(s: State, p: Pid, id: nat) {
    var r := ReaderOf(s, p);
    (r.Claimed? && (r.hook, p) in s.copies && s.copies[(r.hook, p)] == id) || (r.Loaded? && r.id == id)
  }

  /** Record `id` is where `place` says. */
  predicate IsAt(s: State, id: nat, place: Place)
    requires id < |s.recorded|
  {
    match place
    case Pending => s.recorded[id].hook in s.markers && s.markers[s.recorded[id].hook] == id
    case HeldBy(p) => Holds(s, p, id)
    case Surfaced(k) => k < |s.surfaced| && s.surfaced[k].1 == id
    case Overwritten(j) => id in s.overwritten && id < j < |s.recorded| && s.recorded[j].hook == s.recorded[id].hook
  }

  /** The files a reader is working on are its own: only it can rename, read or delete them. */
  ghost predicate OwnCopy(s: State, p: Pid) {
    var r := ReaderOf(s, p);
    r.Claimed? ==> (r.hook, p) in s.copies
  }

  ghost predicate OwnCopies(s: State) { forall p: Pid :: OwnCopy(s, p) }

  /** `places` tells where each record is, and nothing is anywhere else. */
  ghost predicate Located(s: State, places: seq<Place>) {
    && |places| == |s.recorded|
    && (forall id :: 0 <= id < |places| ==> IsAt(s, id, places[id]))
    && (forall h :: h in s.markers ==> Has(places, s.markers[h], Pending) && s.recorded[s.markers[h]].hook == h)
    && (forall p: Pid, id: nat :: Holds(s, p, id) ==> Has(places, id, HeldBy(p)))
    && (forall k :: 0 <= k < |s.surfaced| ==> Has(places, s.surfaced[k].1, Surfaced(k)))
    && (forall id :: id in s.overwritten ==> id < |places| && places[id].Overwritten?)
  }

  predicate Has(places: seq<Place>, id: nat, place: Place) { id < |places| && places[id] == place }

  ghost predicate Inv(s: State) { OwnCopies(s) && exists places :: Located(s, places) }

  // ---------------------------------------------------------------- what every step keeps

  /** Where records are after a step. */
  ghost function Moved(s: State, places: seq<Place>, a: Action): seq<Place>
    requires Located(s, places)
  {
    match a
    case Fail(hook, _, _) =>
      var h := FiledAs(hook);
      (if h in s.markers then places[s.markers[h] := Overwritten(|s.recorded|)] else places) + [Pending]
    case Claim(p) =>
      var r := ReaderOf(s, p);
      if r.Scanning? && r.todo != [] && r.todo[0] in s.markers then places[s.markers[r.todo[0]] := HeldBy(p)] else places
    case Report(p) =>
      var r := ReaderOf(s, p);
      if r.Loaded? && Holds(s, p, r.id) then places[r.id := Surfaced(|s.surfaced|)] else places
    case _ => places
  }

  lemma {:induction false} FailKeeps(s: State, places: seq<Place>, a: Action)
    requires OwnCopies(s) && Located(s, places) && a.Fail?
    ensures OwnCopies(Step(s, a)) && Located(Step(s, a), Moved(s, places, a))
  {
    var t := Step(s, a);
    assert forall p: Pid :: OwnCopy(s, p) ==> OwnCopy(t, p);
    assert forall p: Pid, id: nat :: Holds(t, p, id) <==> Holds(s, p, id);
  }

  lemma {:induction false} OthersKeep(s: State, t: State, p: Pid)
    requires forall q: Pid :: q != p ==> ReaderOf(t, q) == ReaderOf(s, q)
    requires forall c :: c in s.copies && c.1 != p ==> c in t.copies && t.copies[c] == s.copies[c]
    requires forall c :: c in t.copies && c.1 != p ==> c in s.copies
    ensures forall q: Pid, id: nat :: q != p ==> (Holds(t, q, id) <==> Holds(s, q, id))
    ensures forall q: Pid :: q != p ==> (OwnCopy(t, q) <==> OwnCopy(s, q))
  {
  }

  /** A step of `p` that changes neither files nor what `p` holds. */
  lemma {:induction false} QuietKeeps(s: State, t: State, places: seq<Place>, p: Pid)
    requires Located(s, places) && t == s.(readers := t.readers, copies := t.copies)
    requires forall q: Pid, id: nat :: Holds(t, q, id) <==> Holds(s, q, id)
    ensures Located(t, places)
  {
  }

  lemma {:induction false} ClaimKeeps(s: State, places: seq<Place>, a: Action)
    requires OwnCopies(s) && Located(s, places) && a.Claim?
    ensures OwnCopies(Step(s, a)) && Located(Step(s, a), Moved(s, places, a))
  {
    var t, p := Step(s, a), a.pid;
    var r := ReaderOf(s, p);
    OthersKeep(s, t, p);
    assert OwnCopy(t, p) by { assert OwnCopy(s, p); }
    if r.Scanning? && r.todo != [] && r.todo[0] in s.markers {
      var id := s.markers[r.todo[0]];
      assert Holds(t, p, id);
      assert forall i: nat :: Holds(t, p, i) ==> i == id;
      assert forall i: nat :: !Holds(s, p, i);
      ClaimedLocated(s, t, places, p, r.todo[0], id);
    } else {
      QuietKeeps(s, t, places, p);
    }
  }

  lemma {:induction false} ClaimedLocated(s: State, t: State, places: seq<Place>, p: Pid, h: Hook, id: nat)
    requires Located(s, places) && h in s.markers && s.markers[h] == id
    requires t == s.(markers := s.markers - {h}, readers := t.readers, copies := t.copies)
    requires forall q: Pid, i: nat :: q != p ==> (Holds(t, q, i) <==> Holds(s, q, i))
    requires forall i: nat :: Holds(t, p, i) <==> i == id
    requires forall i: nat :: !Holds(s, p, i)
    ensures Located(t, places[id := HeldBy(p)])
  {
    var new' := places[id := HeldBy(p)];
    forall i | 0 <= i < |new'|
      ensures IsAt(t, i, new'[i])
    {
      assert IsAt(s, i, places[i]);
    }
  }

  lemma {:induction false} LoadKeeps(s: State, places: seq<Place>, a: Action)
    requires OwnCopies(s) && Located(s, places) && a.Load?
    ensures OwnCopies(Step(s, a)) && Located(Step(s, a), Moved(s, places, a))
  {
    var t, p := Step(s, a), a.pid;
    OthersKeep(s, t, p);
    assert OwnCopy(t, p) by { assert OwnCopy(s, p); }
    assert forall i: nat :: Holds(t, p, i) <==> Holds(s, p, i);
    QuietKeeps(s, t, places, p);
  }

  lemma {:induction false} ReportKeeps(s: State, places: seq<Place>, a: Action)
    requires OwnCopies(s) && Located(s, places) && a.Report?
    ensures OwnCopies(Step(s, a)) && Located(Step(s, a), Moved(s, places, a))
  {
    var t, p := Step(s, a), a.pid;
    var r := ReaderOf(s, p);
    OthersKeep(s, t, p);
    assert OwnCopy(t, p) by { assert OwnCopy(s, p); }
    if r.Loaded? {
      assert Holds(s, p, r.id);
      assert forall i: nat :: !Holds(t, p, i);
      ReportedLocated(s, t, places, p, r.id);
    } else {
      QuietKeeps(s, t, places, p);
    }
  }

  lemma {:induction false} ReportedLocated(s: State, t: State, places: seq<Place>, p: Pid, id: nat)
    requires Located(s, places) && Holds(s, p, id)
    requires t == s.(surfaced := s.surfaced + [(p, id)], readers := t.readers)
    requires forall q: Pid, i: nat :: q != p ==> (Holds(t, q, i) <==> Holds(s, q, i))
    requires forall i: nat :: !Holds(t, p, i)
    ensures Located(t, places[id := Surfaced(|s.surfaced|)])
  {
    var new' := places[id := Surfaced(|s.surfaced|)];
    assert Has(places, id, HeldBy(p));
    forall i | 0 <= i < |new'|
      ensures IsAt(t, i, new'[i])
    {
      assert IsAt(s, i, places[i]);
    }
    forall q: Pid, i: nat | Holds(t, q, i)
      ensures Has(new', i, HeldBy(q))
    {
      assert Has(places, i, HeldBy(q));
    }
  }

  lemma {:induction false} OtherKeeps(s: State, places: seq<Place>, a: Action)
    requires OwnCopies(s) && Located(s, places) && (a.List? || a.Discard? || a.Finish?)
    ensures OwnCopies(Step(s, a)) && Located(Step(s, a), Moved(s, places, a))
  {
    var t, p := Step(s, a), a.pid;
    OthersKeep(s, t, p);
    assert OwnCopy(t, p) by { assert OwnCopy(s, p); }
    assert forall i: nat :: Holds(t, p, i) <==> Holds(s, p, i);
    QuietKeeps(s, t, places, p);
  }

  lemma {:induction false} StepKeeps(s: State, places: seq<Place>, a: Action)
    requires OwnCopies(s) && Located(s, places)
    ensures OwnCopies(Step(s, a)) && Located(Step(s, a), Moved(s, places, a))
  {
    match a
    case Fail(_, _, _) => FailKeeps(s, places, a);
    case Claim(_) => ClaimKeeps(s, places, a);
    case Load(_) => LoadKeeps(s, places, a);
    case Report(_) => ReportKeeps(s, places, a);
    case _ => OtherKeeps(s, places, a);
  }

  lemma {:induction false} RunKeeps(s: State, actions: seq<Action>)
    requires Inv(s)
    ensures Inv(Run(s, actions))
    decreases |actions|
  {
    if actions != [] {
      var places :| Located(s, places);
      StepKeeps(s, places, actions[0]);
      RunKeeps(Step(s, actions[0]), actions[1..]);
    }
  }

  // ---------------------------------------------------------------- every interleaving

  ghost predicate IsPending(s: State, id: nat) { exists h :: h in s.markers && s.markers[h] == id }

  ghost predicate IsHeld(s: State, id: nat) { exists p: Pid :: Holds(s, p, id) }

  ghost predicate IsSurfaced(s: State, id: nat) { exists k :: 0 <= k < |s.surfaced| && s.surfaced[k].1 == id }

  /** Lost to a later failure of the same hook that was recorded before any reader claimed it. */
  ghost predicate IsOverwritten(s: State, id: nat) { id in s.overwritten }

  ghost predicate Superseded(s: State, id: nat)
    requires id < |s.recorded|
  {
    exists j :: id < j < |s.recorded| && s.recorded[j].hook == s.recorded[id].hook
  }

  ghost function Count(a: bool, b: bool, c: bool, d: bool): nat {
    (if a then 1 else 0) + (if b then 1 else 0) + (if c then 1 else 0) + (if d then 1 else 0)
  }

  lemma {:induction false} OnePlace(s: State, id: nat)
    requires Inv(s) && id < |s.recorded|
    ensures Count(IsOverwritten(s, id), IsPending(s, id), IsHeld(s, id), IsSurfaced(s, id)) == 1
    ensures IsOverwritten(s, id) ==> Superseded(s, id)
    ensures forall p: Pid, q: Pid :: Holds(s, p, id) && Holds(s, q, id) ==> p == q
  {
    var places :| Located(s, places);
    assert IsAt(s, id, places[id]);
  }

  lemma {:induction false} NoneTwice(s: State)
    requires Inv(s)
    ensures forall i, j :: 0 <= i < j < |s.surfaced| ==> s.surfaced[i].1 != s.surfaced[j].1
  {
    var places :| Located(s, places);
    forall i, j | 0 <= i < j < |s.surfaced|
      ensures s.surfaced[i].1 != s.surfaced[j].1
    {
      assert Has(places, s.surfaced[i].1, Surfaced(i)) && Has(places, s.surfaced[j].1, Surfaced(j));
    }
  }

  lemma {:induction false} EmptyInv()
    ensures Inv(EMPTY)
  {
    assert Located(EMPTY, []);
    assert OwnCopies(EMPTY);
  }

  /** In every interleaving of recorders and readers, each recorded failure is exactly one of
      overwritten by a later failure of its hook, pending, held by one reader, or surfaced; and no
      failure is surfaced twice. */
  lemma {:induction false} EveryInterleaving(actions: seq<Action>)
    ensures var s := Run(EMPTY, actions);
            && (forall id :: 0 <= id < |s.recorded| ==>
                  && Count(IsOverwritten(s, id), IsPending(s, id), IsHeld(s, id), IsSurfaced(s, id)) == 1
                  && (IsOverwritten(s, id) ==> Superseded(s, id))
                  && forall p: Pid, q: Pid :: Holds(s, p, id) && Holds(s, q, id) ==> p == q)
            && (forall i, j :: 0 <= i < j < |s.surfaced| ==> s.surfaced[i].1 != s.surfaced[j].1)
  {
    EmptyInv();
    RunKeeps(EMPTY, actions);
    var s := Run(EMPTY, actions);
    NoneTwice(s);
    forall id | 0 <= id < |s.recorded|
      ensures Count(IsOverwritten(s, id), IsPending(s, id), IsHeld(s, id), IsSurfaced(s, id)) == 1
      ensures IsOverwritten(s, id) ==> Superseded(s, id)
      ensures forall p: Pid, q: Pid :: Holds(s, p, id) && Holds(s, q, id) ==> p == q
    {
      OnePlace(s, id);
    }
  }

  // ---------------------------------------------------------------- one reader among others

  /** The records `p` has surfaced, in order. */
  function By(surfaced: seq<(Pid, nat)>, p: Pid): seq<nat> {
    if surfaced == [] then []
    else
      var n := |surfaced| - 1;
      By(surfaced[..n], p) + if surfaced[n].0 == p then [surfaced[n].1] else []
  }

  predicate NotOf(a: Action, p: Pid) { a.Fail? || a.pid != p }

  ghost predicate NoneOf(actions: seq<Action>, p: Pid) { forall i :: 0 <= i < |actions| ==> NotOf(actions[i], p) }

  /** What the others do leaves a reader's progress, its claimed copy and its report alone. */
  lemma {:induction false} OthersLeave(s: State, actions: seq<Action>, p: Pid)
    requires NoneOf(actions, p)
    ensures ReaderOf(Run(s, actions), p) == ReaderOf(s, p)
    ensures By(Run(s, actions).surfaced, p) == By(s.surfaced, p)
    ensures forall id: nat :: Holds(Run(s, actions), p, id) <==> Holds(s, p, id)
    decreases |actions|
  {
    if actions != [] {
      assert NotOf(actions[0], p);
      OtherStep(s, actions[0], p);
      OthersLeave(Step(s, actions[0]), actions[1..], p);
    }
  }

  /** A state some interleaving leads to. */
  ghost predicate Reachable(s: State) { exists actions :: s == Run(EMPTY, actions) }

  lemma {:induction false} RunAppend(s: State, a: seq<Action>, b: seq<Action>)
    ensures Run(s, a + b) == Run(Run(s, a), b)
    decreases |a|
  {
    if a == [] {
      assert a + b == b;
    } else {
      assert (a + b)[1..] == a[1..] + b;
      RunAppend(Step(s, a[0]), a[1..], b);
    }
  }

  lemma {:induction false} ReachableRun(s: State, actions: seq<Action>)
    requires Reachable(s)
    ensures Reachable(Run(s, actions))
  {
    var before :| s == Run(EMPTY, before);
    RunAppend(EMPTY, before, actions);
  }

  lemma {:induction false} ReachableStep(s: State, a: Action)
    requires Reachable(s)
    ensures Reachable(Step(s, a))
  {
    ReachableRun(s, [a]);
    assert Run(s, [a]) == Run(Step(s, a), []);
  }

  lemma {:induction false} OtherStep(s: State, a: Action, p: Pid)
    requires NotOf(a, p)
    ensures ReaderOf(Step(s, a), p) == ReaderOf(s, p)
    ensures By(Step(s, a).surfaced, p) == By(s.surfaced, p)
    ensures forall id: nat :: Holds(Step(s, a), p, id) <==> Holds(s, p, id)
  {
    if a.Report? && ReaderOf(s, a.pid).Loaded? {
      var grown := s.surfaced + [(a.pid, ReaderOf(s, a.pid).id)];
      assert grown[..|s.surfaced|] == s.surfaced;
    }
  }

  /** What a reader finds when nobody interferes: the markers of the listed names, in that order. */
  function Found(markers: map<Hook, nat>, names: seq<Hook>): seq<nat> {
    if names == [] then []
    else if names[0] in markers then [markers[names[0]]] + Found(markers - {names[0]}, names[1..])
    else Found(markers, names[1..])
  }

  function Without(markers: map<Hook, nat>, names: seq<Hook>): map<Hook, nat> {
    if names == [] then markers else Without(markers - {names[0]}, names[1..])
  }

  /** The marker directory shared by all processes. */
  class StatusDir {
    var s: State

    constructor ()
      ensures s == EMPTY && Reachable(s)
    {
      s := EMPTY;
      new;
      assert s == Run(EMPTY, []);
    }

    /** `record_failure` */
    method RecordFailure(hook: Hook, exit: int, detail: string)
      requires Reachable(s)
      modifies this
      ensures Reachable(s) && s == Step(old(s), Fail(hook, exit, detail))
      ensures var h, id := FiledAs(hook), |old(s).recorded|;
              h in s.markers && s.markers[h] == id && s.recorded[id] == Record(h, exit, detail)
    {
      ReachableStep(s, Fail(hook, exit, detail));
      s := Step(s, Fail(hook, exit, detail));
    }

    /** Whatever the other processes do next. */
    method Others(actions: seq<Action>, ghost p: Pid)
      requires Reachable(s) && NoneOf(actions, p)
      modifies this
      ensures Reachable(s) && (actions == [] ==> s == old(s))
      ensures ReaderOf(s, p) == ReaderOf(old(s), p) && By(s.surfaced, p) == By(old(s).surfaced, p)
      ensures forall id: nat :: Holds(s, p, id) <==> Holds(old(s), p, id)
    {
      OthersLeave(s, actions, p);
      ReachableRun(s, actions);
      var i := 0;
      while i < |actions|
        invariant i <= |actions| && Run(s, actions[i..]) == Run(old(s), actions)
      {
        s := Step(s, actions[i]);
        assert actions[i..][1..] == actions[i + 1..];
        i := i + 1;
      }
    }

    /** The rename: it succeeds exactly when the marker is still there. */
    method ClaimNext(p: Pid) returns (claimed: bool)
      requires Reachable(s) && ReaderOf(s, p).Scanning? && ReaderOf(s, p).todo != []
      modifies this
      ensures Reachable(s) && By(s.surfaced, p) == By(old(s).surfaced, p)
      ensures var h, rest := ReaderOf(old(s), p).todo[0], ReaderOf(old(s), p).todo[1..];
              && (claimed <==> h in old(s).markers)
              && s.markers == old(s).markers - {h}
              && ReaderOf(s, p) == (if claimed then Claimed(rest, h) else Scanning(rest))
              && (claimed ==> Holds(s, p, old(s).markers[h]))
    {
      var h := ReaderOf(s, p).todo[0];
      claimed := h in s.markers;
      ReachableStep(s, Claim(p));
      s := Step(s, Claim(p));
    }

    method LoadCopy(p: Pid, ghost id: nat)
      requires Reachable(s) && ReaderOf(s, p).Claimed? && Holds(s, p, id)
      modifies this
      ensures Reachable(s) && s.surfaced == old(s).surfaced && s.markers == old(s).markers
      ensures ReaderOf(s, p) == Loaded(ReaderOf(old(s), p).todo, ReaderOf(old(s), p).hook, id)
    {
      ReachableStep(s, Load(p));
      s := Step(s, Load(p));
    }

    method ReportCopy(p: Pid) returns (line: nat)
      requires Reachable(s) && ReaderOf(s, p).Loaded?
      modifies this
      ensures Reachable(s) && s.markers == old(s).markers && line == ReaderOf(old(s), p).id
      ensures ReaderOf(s, p) == Reported(ReaderOf(old(s), p).todo, ReaderOf(old(s), p).hook)
      ensures By(s.surfaced, p) == By(old(s).surfaced, p) + [line]
    {
      line := ReaderOf(s, p).id;
      ReachableStep(s, Report(p));
      s := Step(s, Report(p));
      assert s.surfaced[..|old(s).surfaced|] == old(s).surfaced;
    }

    method DiscardCopy(p: Pid)
      requires Reachable(s) && ReaderOf(s, p).Reported?
      modifies this
      ensures Reachable(s) && s.surfaced == old(s).surfaced && s.markers == old(s).markers
      ensures ReaderOf(s, p) == Scanning(ReaderOf(old(s), p).todo)
    {
      ReachableStep(s, Discard(p));
      s := Step(s, Discard(p));
    }

    /** Read the claimed copy, report it, delete it; the others act in between. */
    method Surface(p: Pid, between: seq<seq<Action>>, ghost id: nat) returns (line: nat)
      requires Reachable(s) && ReaderOf(s, p).Claimed? && Holds(s, p, id)
      requires Rounds(between, p)
      modifies this
      ensures Reachable(s) && line == id
      ensures ReaderOf(s, p) == Scanning(ReaderOf(old(s), p).todo)
      ensures By(s.surfaced, p) == By(old(s).surfaced, p) + [id]
      ensures Silent(between) ==> s.markers == old(s).markers
    {
      Others(between[1], p);
      LoadCopy(p, id);
      Others(between[2], p);
      line := ReportCopy(p);
      Others(between[3], p);
      DiscardCopy(p);
    }

    /** One turn of the loop: claim the next listed marker and, if it was still there, surface it. */
    method Visit(p: Pid, between: seq<seq<Action>>) returns (lines: seq<nat>)
      requires Reachable(s) && ReaderOf(s, p).Scanning? && ReaderOf(s, p).todo != [] && Rounds(between, p)
      modifies this
      ensures Reachable(s) && ReaderOf(s, p) == Scanning(ReaderOf(old(s), p).todo[1..])
      ensures By(s.surfaced, p) == By(old(s).surfaced, p) + lines
      ensures Silent(between) ==>
                && s.markers == old(s).markers - {ReaderOf(old(s), p).todo[0]}
                && lines == Taken(old(s).markers, ReaderOf(old(s), p).todo[0])
    {
      ghost var h := ReaderOf(s, p).todo[0];
      Others(between[0], p);
      ghost var was := s.markers;
      var claimed := ClaimNext(p);
      lines := [];
      if claimed {
        var line := Surface(p, between, was[h]);
        lines := [line];
      }
    }

    /** `surface_and_clear`: one pass over the listed markers. `between` is what the other processes
        do before each of this reader's steps. */
    method SurfaceAndClear(p: Pid, names: seq<Hook>, between: seq<seq<seq<Action>>>) returns (lines: seq<nat>)
      requires Reachable(s) && ReaderOf(s, p).Idle?
      requires |between| == |names| && forall i :: 0 <= i < |names| ==> Rounds(between[i], p)
      modifies this
      ensures Reachable(s) && ReaderOf(s, p).Idle?
      ensures By(s.surfaced, p) == By(old(s).surfaced, p) + lines
      ensures AllSilent(between) ==>
                lines == Found(old(s).markers, names) && s.markers == Without(old(s).markers, names)
    {
      lines := [];
      ReachableStep(s, List(p, names));
      s := Step(s, List(p, names));
      var k := 0;
      while k < |names|
        invariant k <= |names| && Reachable(s) && ReaderOf(s, p) == Scanning(names[k..])
        invariant By(s.surfaced, p) == By(old(s).surfaced, p) + lines
        invariant AllSilent(between) ==> lines + Found(s.markers, names[k..]) == Found(old(s).markers, names)
        invariant AllSilent(between) ==> Without(s.markers, names[k..]) == Without(old(s).markers, names)
      {
        FoundNext(s.markers, names, k);
        Assoc(lines, Taken(s.markers, names[k]), Found(s.markers - {names[k]}, names[k + 1..]));
        var more := Visit(p, between[k]);
        Assoc(By(old(s).surfaced, p), lines, more);
        lines := lines + more;
        k := k + 1;
      }
      ReachableStep(s, Finish(p));
      s := Step(s, Finish(p));
    }
  }

  function Taken(markers: map<Hook, nat>, h: Hook): seq<nat> { if h in markers then [markers[h]] else [] }

  lemma {:induction false} FoundNext(markers: map<Hook, nat>, names: seq<Hook>, k: nat)
    requires k < |names|
    ensures names[k..][1..] == names[k + 1..] && names[k..][0] == names[k]
    ensures Found(markers, names[k..]) == Taken(markers, names[k]) + Found(markers - {names[k]}, names[k + 1..])
    ensures Without(markers, names[k..]) == Without(markers - {names[k]}, names[k + 1..])
  {
    if names[k] !in markers {
      assert markers - {names[k]} == markers;
    }
  }

  ghost predicate Rounds(round: seq<seq<Action>>, p: Pid) {
    |round| == 4 && forall j :: 0 <= j < 4 ==> NoneOf(round[j], p)
  }

  ghost predicate Silent(round: seq<seq<Action>>) { forall j :: 0 <= j < |round| ==> round[j] == [] }

  ghost predicate AllSilent(between: seq<seq<seq<Action>>>) { forall i :: 0 <= i < |between| ==> Silent(between[i]) }
}
