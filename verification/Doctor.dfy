/** The doctor: probes gated by a selector before they run, reduced to one verdict, one exit code
    and one advisory flag. */
module Doctor {
  import opened Text

  type Id = string

  datatype Status = Pass | Degraded | Broken | Info | Other(name: string)

  datatype Result = Result(probe: Id, status: Status, required: bool, skipped: bool)

  datatype Entry = Entry(id: Id, triage: bool, cluster: Option<string>, required: bool)

  datatype Selector = Everything | Triage | Cluster(name: string) | Probe(id: Id)

  // ---------------------------------------------------------------- selection

  /** Does a manifest entry belong to the selection? */
  predicate Matches(e: Entry, sel: Selector) {
    match sel
    case Everything => true
    case Triage => e.triage
    case Cluster(name) => e.cluster == Some(name)
    case Probe(id) => e.id == id
  }

  predicate Wanted(e: Entry, sel: Selector, requiredOnly: bool) { Matches(e, sel) && (requiredOnly ==> e.required) }

  predicate Declares(manifest: seq<Entry>, sel: Selector, requiredOnly: bool, id: Id) {
    exists i :: 0 <= i < |manifest| && manifest[i].id == id && Wanted(manifest[i], sel, requiredOnly)
  }

  /** The manifest is a dictionary: one entry per id. */
  ghost predicate OneEach(manifest: seq<Entry>) {
    forall i, j :: 0 <= i < j < |manifest| ==> manifest[i].id != manifest[j].id
  }

  /** The ids to run, or nothing for the whole suite. */
  function SelectedIds(manifest: seq<Entry>, sel: Selector, requiredOnly: bool): (r: Option<set<Id>>)
    ensures r.None? <==> sel.Everything? && !requiredOnly
    ensures r.Some? ==> forall id :: id in r.value <==> Declares(manifest, sel, requiredOnly, id)
  {
    if sel.Everything? && !requiredOnly then None
    else Some(set i | 0 <= i < |manifest| && Wanted(manifest[i], sel, requiredOnly) :: manifest[i].id)
  }

  /** The gate, in two steps: what the selector picks, then the ids among it that are required. A
      dictionary has one entry per id, so the two steps ask both questions of the same entry. */
  method SelectIds(manifest: seq<Entry>, sel: Selector, requiredOnly: bool) returns (selected: Option<set<Id>>)
    requires OneEach(manifest) && (sel.Probe? ==> Declares(manifest, sel, false, sel.id))
    ensures selected.None? <==> sel.Everything? && !requiredOnly
    ensures selected.Some? ==> forall id :: id in selected.value <==> Declares(manifest, sel, requiredOnly, id)
    ensures selected == SelectedIds(manifest, sel, requiredOnly)
  {
    selected := match sel
      case Everything => None
      case Probe(id) => Some({id})
      case Cluster(name) => Some(set i | 0 <= i < |manifest| && manifest[i].cluster == Some(name) :: manifest[i].id)
      case Triage => Some(set i | 0 <= i < |manifest| && manifest[i].triage :: manifest[i].id);
    assert selected.Some? ==> forall id :: id in selected.value <==> Declares(manifest, sel, false, id);
    if requiredOnly {
      var required := set i | 0 <= i < |manifest| && manifest[i].required :: manifest[i].id;
      forall id
        ensures Declares(manifest, sel, true, id) <==> Declares(manifest, sel, false, id) && id in required
      {
        BothOfOne(manifest, sel, id);
      }
      selected := if selected.None? then Some(required) else Some(selected.value * required);
    }
    SameSelection(manifest, sel, requiredOnly, selected);
  }

  lemma {:induction false} BothOfOne(manifest: seq<Entry>, sel: Selector, id: Id)
    requires OneEach(manifest)
    ensures Declares(manifest, sel, true, id) <==>
            && Declares(manifest, sel, false, id)
            && exists i :: 0 <= i < |manifest| && manifest[i].id == id && manifest[i].required
  {
    if Declares(manifest, sel, true, id) {
      var i :| 0 <= i < |manifest| && manifest[i].id == id && Wanted(manifest[i], sel, true);
      assert Wanted(manifest[i], sel, false);
    }
  }

  lemma {:induction false} SameSelection(manifest: seq<Entry>, sel: Selector, requiredOnly: bool, selected: Option<set<Id>>)
    requires selected.None? <==> sel.Everything? && !requiredOnly
    requires selected.Some? ==> forall id :: id in selected.value <==> Declares(manifest, sel, requiredOnly, id)
    ensures selected == SelectedIds(manifest, sel, requiredOnly)
  {
    if selected.Some? {
      assert selected.value == SelectedIds(manifest, sel, requiredOnly).value;
    }
  }

  function IdsOf(rs: seq<Result>): (r: set<Id>)
    ensures forall id :: id in r <==> exists i :: 0 <= i < |rs| && rs[i].probe == id
  {
    set i | 0 <= i < |rs| :: rs[i].probe
  }

  predicate Runs(selected: Option<set<Id>>, id: Id) { selected.None? || id in selected.value }

  function Gated(suite: seq<Result>, selected: Option<set<Id>>): seq<Result> {
    if suite == [] then []
    else
      var n := |suite| - 1;
      Gated(suite[..n], selected) + if Runs(selected, suite[n].probe) then [suite[n]] else []
  }

  /** `run_probes`: every call site registers its id; only selected probes run. `suite` gives, in call
      order, the result each probe would report. */
  method RunProbes(suite: seq<Result>, selected: Option<set<Id>>) returns (results: seq<Result>, known: set<Id>)
    ensures results == Gated(suite, selected)
    ensures known == IdsOf(suite)
  {
    results, known := [], {};
    var i := 0;
    while i < |suite|
      invariant i <= |suite| && results == Gated(suite[..i], selected) && known == IdsOf(suite[..i])
    {
      assert suite[..i + 1][..i] == suite[..i];
      IdsGrow(suite, i);
      known := known + {suite[i].probe};
      if Runs(selected, suite[i].probe) {
        results := results + [suite[i]];
      }
      i := i + 1;
    }
    assert suite[..|suite|] == suite;
  }

  lemma {:induction false} IdsGrow(rs: seq<Result>, i: nat)
    requires i < |rs|
    ensures IdsOf(rs[..i + 1]) == IdsOf(rs[..i]) + {rs[i].probe}
  {
    assert rs[..i + 1] == rs[..i] + [rs[i]];
    forall id
      ensures id in IdsOf(rs[..i + 1]) <==> id in IdsOf(rs[..i]) + {rs[i].probe}
    {
      if id in IdsOf(rs[..i]) {
        var j :| 0 <= j < i && rs[..i][j].probe == id;
        assert rs[..i + 1][j].probe == id;
      }
      if id in IdsOf(rs[..i + 1]) && id != rs[i].probe {
        var j :| 0 <= j < i + 1 && rs[..i + 1][j].probe == id;
        assert rs[..i][j].probe == id;
      }
      assert rs[..i + 1][i].probe == rs[i].probe;
    }
  }

  // ---------------------------------------------------------------- emission

  datatype Outcome = Emitted(results: seq<Result>) | Raised(id: Id) | BadUsage

  /** The row for a declared probe that nothing implements. */
  function Stub(e: Entry): Result { Result(e.id, Info, e.required, false) }

  /** Which entries are owed a stub: with `--probe` the required-only narrowing is not applied. */
  predicate StubWanted(e: Entry, sel: Selector, requiredOnly: bool) {
    match sel
    case Everything => false
    case Probe(id) => e.id == id
    case _ => Wanted(e, sel, requiredOnly)
  }

  /** Stubs for the entries without a result, in manifest order; an id that has a call site and still
      no result is an error. */
  function Stubs(manifest: seq<Entry>, sel: Selector, requiredOnly: bool, done: set<Id>, known: set<Id>): Outcome {
    if manifest == [] then Emitted([])
    else
      var n := |manifest| - 1;
      var before, e := Stubs(manifest[..n], sel, requiredOnly, done, known), manifest[n];
      if !before.Emitted? || !StubWanted(e, sel, requiredOnly) || e.id in done then before
      else if e.id in known then Raised(e.id)
      else Emitted(before.results + [Stub(e)])
  }

  /** Rows the selector shows. */
  function Shown(rs: seq<Result>, manifest: seq<Entry>, sel: Selector, requiredOnly: bool): seq<Result> {
    if rs == [] then []
    else
      var n := |rs| - 1;
      Shown(rs[..n], manifest, sel, requiredOnly) +
      if (sel.Everything? && !requiredOnly) || Declares(manifest, sel, requiredOnly, rs[n].probe) then [rs[n]] else []
  }

  /** `_apply_selector`, on the rows that ran. */
  method ApplySelector(results: seq<Result>, manifest: seq<Entry>, sel: Selector, requiredOnly: bool, known: set<Id>)
      returns (o: Outcome)
    requires sel.Probe? ==> Declares(manifest, sel, false, sel.id)
    ensures var stubs := Stubs(manifest, sel, requiredOnly, IdsOf(results), known);
            o == if sel.Everything? then Emitted(results)
                 else if stubs.Emitted? then Emitted(Shown(results, manifest, sel, false) + stubs.results)
                 else stubs
  {
    if sel.Everything? {
      return Emitted(results);
    }
    var filtered := ShowRows(results, manifest, sel);
    o := AddStubs(filtered, manifest, sel, requiredOnly, IdsOf(results), known);
  }

  method ShowRows(results: seq<Result>, manifest: seq<Entry>, sel: Selector) returns (filtered: seq<Result>)
    requires !sel.Everything?
    ensures filtered == Shown(results, manifest, sel, false)
  {
    filtered := [];
    var i := 0;
    while i < |results|
      invariant i <= |results| && filtered == Shown(results[..i], manifest, sel, false)
    {
      assert results[..i + 1][..i] == results[..i];
      if Declares(manifest, sel, false, results[i].probe) {
        filtered := filtered + [results[i]];
      }
      i := i + 1;
    }
    assert results[..|results|] == results;
  }

  /** The stub loop: append a stub or raise. */
  method AddStubs(rows: seq<Result>, manifest: seq<Entry>, sel: Selector, requiredOnly: bool, done: set<Id>, known: set<Id>)
      returns (o: Outcome)
    ensures var stubs := Stubs(manifest, sel, requiredOnly, done, known);
            o == if stubs.Emitted? then Emitted(rows + stubs.results) else stubs
  {
    var filtered, k := rows, 0;
    while k < |manifest|
      invariant k <= |manifest|
      invariant Stubs(manifest[..k], sel, requiredOnly, done, known).Emitted?
      invariant filtered == rows + Stubs(manifest[..k], sel, requiredOnly, done, known).results
    {
      var e := manifest[k];
      assert manifest[..k + 1][..k] == manifest[..k];
      if StubWanted(e, sel, requiredOnly) && e.id !in done {
        if e.id in known {
          StubsStick(manifest, k, sel, requiredOnly, done, known);
          return Raised(e.id);
        }
        filtered := filtered + [Stub(e)];
      }
      k := k + 1;
    }
    assert manifest[..|manifest|] == manifest;
    return Emitted(filtered);
  }

  /** The first error is the one reported. */
  lemma {:induction false} StubsStick(manifest: seq<Entry>, k: nat, sel: Selector, requiredOnly: bool, done: set<Id>, known: set<Id>)
    requires k < |manifest| && !Stubs(manifest[..k + 1], sel, requiredOnly, done, known).Emitted?
    ensures Stubs(manifest, sel, requiredOnly, done, known) == Stubs(manifest[..k + 1], sel, requiredOnly, done, known)
    decreases |manifest|
  {
    var n := |manifest| - 1;
    if k < n {
      assert manifest[..n][..k + 1] == manifest[..k + 1];
      StubsStick(manifest[..n], k, sel, requiredOnly, done, known);
    } else {
      assert manifest[..k + 1] == manifest;
    }
  }

  // ---------------------------------------------------------------- gating refines filtering

  /** Declared entries without a call site, in manifest order. */
  function StubRows(manifest: seq<Entry>, sel: Selector, requiredOnly: bool, known: set<Id>): seq<Result> {
    if manifest == [] then []
    else
      var n := |manifest| - 1;
      StubRows(manifest[..n], sel, requiredOnly, known) +
      if StubWanted(manifest[n], sel, requiredOnly) && manifest[n].id !in known then [Stub(manifest[n])] else []
  }

  /** The post-run filter: the whole suite runs, the selector picks rows, and declared probes without
      a call site get a stub. */
  function Filtered(suite: seq<Result>, manifest: seq<Entry>, sel: Selector, requiredOnly: bool): seq<Result> {
    Shown(suite, manifest, sel, requiredOnly) + StubRows(manifest, sel, requiredOnly, IdsOf(suite))
  }

  /** `--probe X --required-only` for an implemented X that the manifest does not require. */
  predicate Misfires(suite: seq<Result>, manifest: seq<Entry>, sel: Selector, requiredOnly: bool) {
    sel.Probe? && sel.id in IdsOf(suite) && !Declares(manifest, sel, requiredOnly, sel.id)
  }

  lemma {:induction false} GatedIsShown(suite: seq<Result>, manifest: seq<Entry>, sel: Selector, requiredOnly: bool)
    ensures Gated(suite, SelectedIds(manifest, sel, requiredOnly)) == Shown(suite, manifest, sel, requiredOnly)
  {
    if suite != [] {
      GatedIsShown(suite[..|suite| - 1], manifest, sel, requiredOnly);
    }
  }

  lemma {:induction false} ShownTwice(rs: seq<Result>, manifest: seq<Entry>, sel: Selector, requiredOnly: bool)
    requires !sel.Everything?
    ensures Shown(Shown(rs, manifest, sel, requiredOnly), manifest, sel, false) == Shown(rs, manifest, sel, requiredOnly)
  {
    if rs != [] {
      var n := |rs| - 1;
      var before, last := Shown(rs[..n], manifest, sel, requiredOnly), rs[n];
      ShownTwice(rs[..n], manifest, sel, requiredOnly);
      if Declares(manifest, sel, requiredOnly, last.probe) {
        assert Declares(manifest, sel, false, last.probe);
        assert (before + [last])[..|before|] == before;
      } else {
        assert before + [] == before;
      }
    }
  }

  lemma {:induction false} ShownIds(rs: seq<Result>, manifest: seq<Entry>, sel: Selector, requiredOnly: bool, id: Id)
    requires !(sel.Everything? && !requiredOnly)
    ensures id in IdsOf(Shown(rs, manifest, sel, requiredOnly)) <==>
            id in IdsOf(rs) && Declares(manifest, sel, requiredOnly, id)
  {
    if rs != [] {
      var n := |rs| - 1;
      var before := Shown(rs[..n], manifest, sel, requiredOnly);
      ShownIds(rs[..n], manifest, sel, requiredOnly, id);
      IdsGrow(rs, n);
      assert rs[..n + 1] == rs;
      if Declares(manifest, sel, requiredOnly, rs[n].probe) {
        var all := before + [rs[n]];
        IdsGrow(all, |before|);
        assert all[..|before|] == before && all[..|before| + 1] == all;
      } else {
        assert before + [] == before;
      }
    }
  }

  /** Where every wanted id with a call site has run, the stubs are those of the post-run filter. */
  lemma {:induction false} StubsAreRows(manifest: seq<Entry>, sel: Selector, requiredOnly: bool, done: set<Id>, known: set<Id>)
    requires done <= known
    requires forall i :: 0 <= i < |manifest| && StubWanted(manifest[i], sel, requiredOnly) && manifest[i].id in known ==>
               manifest[i].id in done
    ensures Stubs(manifest, sel, requiredOnly, done, known) == Emitted(StubRows(manifest, sel, requiredOnly, known))
  {
    if manifest != [] {
      StubsAreRows(manifest[..|manifest| - 1], sel, requiredOnly, done, known);
    }
  }

  /** And where the one named id has a call site but did not run, that is the error. */
  lemma {:induction false} StubsRaise(manifest: seq<Entry>, id: Id, requiredOnly: bool, done: set<Id>, known: set<Id>)
    requires id in known && id !in done
    ensures Stubs(manifest, Probe(id), requiredOnly, done, known) ==
            if exists i :: 0 <= i < |manifest| && manifest[i].id == id then Raised(id) else Emitted([])
  {
    if manifest != [] {
      var n := |manifest| - 1;
      StubsRaise(manifest[..n], id, requiredOnly, done, known);
      if i :| 0 <= i < n && manifest[..n][i].id == id {
        assert manifest[i].id == id;
      }
    }
  }

  predicate Valid(manifest: seq<Entry>, sel: Selector) {
    match sel
    case Probe(id) => Declares(manifest, sel, false, id)
    case Cluster(_) => exists i :: 0 <= i < |manifest| && Matches(manifest[i], sel)
    case _ => true
  }

  lemma {:induction false} AllRan(suite: seq<Result>, manifest: seq<Entry>, sel: Selector, requiredOnly: bool, done: set<Id>)
    requires !sel.Everything? && !Misfires(suite, manifest, sel, requiredOnly)
    requires done == IdsOf(Shown(suite, manifest, sel, requiredOnly))
    ensures done <= IdsOf(suite)
    ensures forall i :: 0 <= i < |manifest| && StubWanted(manifest[i], sel, requiredOnly) && manifest[i].id in IdsOf(suite) ==>
              manifest[i].id in done
  {
    forall id | id in done
      ensures id in IdsOf(suite)
    {
      ShownIds(suite, manifest, sel, requiredOnly, id);
    }
    forall i | 0 <= i < |manifest| && StubWanted(manifest[i], sel, requiredOnly) && manifest[i].id in IdsOf(suite)
      ensures manifest[i].id in done
    {
      ShownIds(suite, manifest, sel, requiredOnly, manifest[i].id);
    }
  }

  /** Deciding before the run gives what deciding after a full run would: the same rows in the same
      order, plus stubs exactly for declared ids without a call site. The one exception raises. */
  lemma {:induction false} GatingRefinesFiltering(suite: seq<Result>, manifest: seq<Entry>, sel: Selector, requiredOnly: bool)
    requires Valid(manifest, sel) && !sel.Everything?
    ensures var rows := Gated(suite, SelectedIds(manifest, sel, requiredOnly));
            var stubs := Stubs(manifest, sel, requiredOnly, IdsOf(rows), IdsOf(suite));
            if Misfires(suite, manifest, sel, requiredOnly) then stubs == Raised(sel.id)
            else stubs.Emitted?
                 && Shown(rows, manifest, sel, false) + stubs.results == Filtered(suite, manifest, sel, requiredOnly)
  {
    GatedIsShown(suite, manifest, sel, requiredOnly);
    ShownTwice(suite, manifest, sel, requiredOnly);
    var done := IdsOf(Shown(suite, manifest, sel, requiredOnly));
    if Misfires(suite, manifest, sel, requiredOnly) {
      ShownIds(suite, manifest, sel, requiredOnly, sel.id);
      StubsRaise(manifest, sel.id, requiredOnly, done, IdsOf(suite));
    } else {
      AllRan(suite, manifest, sel, requiredOnly, done);
      StubsAreRows(manifest, sel, requiredOnly, done, IdsOf(suite));
    }
  }

  /** The command line as a whole. */
  method Diagnose(suite: seq<Result>, manifest: seq<Entry>, sel: Selector, requiredOnly: bool) returns (o: Outcome)
    requires OneEach(manifest)
    ensures o == if !Valid(manifest, sel) then BadUsage
                 else if Misfires(suite, manifest, sel, requiredOnly) then Raised(sel.id)
                 else Emitted(Filtered(suite, manifest, sel, requiredOnly))
  {
    if !Valid(manifest, sel) {
      return BadUsage;
    }
    var selected := SelectIds(manifest, sel, requiredOnly);
    var results, known := RunProbes(suite, selected);
    o := ApplySelector(results, manifest, sel, requiredOnly, known);
    if sel.Everything? {
      GatedIsShown(suite, manifest, sel, requiredOnly);
      NoStubs(manifest, requiredOnly, known);
      assert results + [] == results;
    } else {
      GatingRefinesFiltering(suite, manifest, sel, requiredOnly);
    }
  }

  lemma {:induction false} NoStubs(manifest: seq<Entry>, requiredOnly: bool, known: set<Id>)
    ensures StubRows(manifest, Everything, requiredOnly, known) == []
  {
    if manifest != [] {
      NoStubs(manifest[..|manifest| - 1], requiredOnly, known);
    }
  }

  lemma {:induction false} StubRowFor(manifest: seq<Entry>, sel: Selector, requiredOnly: bool, known: set<Id>)
    ensures StubRows(manifest, sel, requiredOnly, known) == [] <==>
            forall i :: 0 <= i < |manifest| ==> !(StubWanted(manifest[i], sel, requiredOnly) && manifest[i].id !in known)
  {
    if manifest != [] {
      var n := |manifest| - 1;
      StubRowFor(manifest[..n], sel, requiredOnly, known);
      assert forall i :: 0 <= i < n ==> manifest[..n][i] == manifest[i];
    }
  }

  /** A selection comes out empty exactly when the manifest declares nothing for it, which a named
      probe can never cause. */
  lemma {:induction false} EmptyIff(suite: seq<Result>, manifest: seq<Entry>, sel: Selector, requiredOnly: bool)
    requires !sel.Everything? && !Misfires(suite, manifest, sel, requiredOnly)
    ensures Filtered(suite, manifest, sel, requiredOnly) == [] <==>
            forall i :: 0 <= i < |manifest| ==> !StubWanted(manifest[i], sel, requiredOnly)
  {
    var rows, known := Shown(suite, manifest, sel, requiredOnly), IdsOf(suite);
    StubRowFor(manifest, sel, requiredOnly, known);
    AllRan(suite, manifest, sel, requiredOnly, IdsOf(rows));
    if rows != [] {
      ShownIds(suite, manifest, sel, requiredOnly, rows[0].probe);
      assert Declares(manifest, sel, requiredOnly, rows[0].probe);
    }
  }

  // ---------------------------------------------------------------- the verdict

  predicate Bad(s: Status) { s.Broken? || s.Degraded? }

  /** What a row adds to the verdict: a skipped required probe counts as degraded; a skipped optional
      one and an INFO row count for nothing. */
  function Contribution(r: Result): Option<Status> {
    if r.skipped then (if r.required then Some(Degraded) else None)
    else if r.status.Info? then None
    else Some(r.status)
  }

  predicate Has(rs: seq<Result>, s: Status) {
    exists i :: 0 <= i < |rs| && Contribution(rs[i]) == Some(s)
  }

  function FirstContribution(rs: seq<Result>): Option<Status> {
    if rs == [] then None
    else
      var n := |rs| - 1;
      var before := FirstContribution(rs[..n]);
      if before.Some? then before else Contribution(rs[n])
  }

  /** The worst of the known verdicts, else the first unknown one, else nothing. */
  function Worst(rs: seq<Result>): Option<Status> {
    if Has(rs, Broken) then Some(Broken)
    else if Has(rs, Degraded) then Some(Degraded)
    else if Has(rs, Pass) then Some(Pass)
    else FirstContribution(rs)
  }

  function Overall(rs: seq<Result>): Status {
    match Worst(rs)
    case None => Info
    case Some(s) => s
  }

  function Rank(s: Status): nat {
    match s
    case Broken => 3
    case Degraded => 2
    case Pass => 1
    case _ => 0
  }

  lemma {:induction false} HasNext(rs: seq<Result>, r: Result, s: Status)
    ensures Has(rs + [r], s) <==> Has(rs, s) || Contribution(r) == Some(s)
  {
    if Has(rs, s) {
      var i :| 0 <= i < |rs| && Contribution(rs[i]) == Some(s);
      assert (rs + [r])[i] == rs[i];
    }
    assert (rs + [r])[|rs|] == r;
  }

  /** Some row contributes, or the verdict is INFO. */
  lemma {:induction false} FirstMeans(rs: seq<Result>)
    ensures FirstContribution(rs).Some? ==> Has(rs, FirstContribution(rs).value)
    ensures FirstContribution(rs).None? ==> forall s :: !Has(rs, s)
  {
    if rs != [] {
      var n := |rs| - 1;
      FirstMeans(rs[..n]);
      assert rs == rs[..n] + [rs[n]];
      forall s
        ensures Has(rs, s) <==> Has(rs[..n], s) || Contribution(rs[n]) == Some(s)
      {
        HasNext(rs[..n], rs[n], s);
      }
    }
  }

  function Better(best: Option<Status>, c: Option<Status>): Option<Status> {
    if c.None? then best else if best.None? || Rank(c.value) > Rank(best.value) then c else best
  }

  /** One more row is one comparison with the best so far. */
  lemma {:induction false} WorstNext(rs: seq<Result>, r: Result)
    ensures Worst(rs + [r]) == Better(Worst(rs), Contribution(r))
  {
    HasNext(rs, r, Broken);
    HasNext(rs, r, Degraded);
    HasNext(rs, r, Pass);
    FirstMeans(rs);
    assert (rs + [r])[..|rs|] == rs;
  }

  /** `_local_reduce_overall` */
  method ReduceOverall(rs: seq<Result>) returns (overall: Status)
    ensures overall == Overall(rs)
  {
    var best: Option<Status>, i := None, 0;
    while i < |rs|
      invariant i <= |rs| && best == Worst(rs[..i])
    {
      assert rs[..i + 1] == rs[..i] + [rs[i]];
      WorstNext(rs[..i], rs[i]);
      var s := if rs[i].skipped then (if rs[i].required then Some(Degraded) else None)
               else if rs[i].status != Info then Some(rs[i].status) else None;
      if s.Some? && (best.None? || Rank(s.value) > Rank(best.value)) {
        best := s;
      }
      i := i + 1;
    }
    assert rs[..|rs|] == rs;
    return if best.Some? then best.value else Info;
  }

  /** The verdict is a join: of two lists it is the worse verdict, the earlier one on a tie. */
  lemma {:induction false} WorstOfBoth(a: seq<Result>, b: seq<Result>)
    ensures Worst(a + b) == Better(Worst(a), Worst(b))
  {
    if b == [] {
      assert a + b == a;
    } else {
      var n := |b| - 1;
      WorstOfBoth(a, b[..n]);
      WorstNext(a + b[..n], b[n]);
      WorstNext(b[..n], b[n]);
      assert a + b == a + b[..n] + [b[n]];
      assert b == b[..n] + [b[n]];
    }
  }

  ghost predicate Rearranged(a: seq<Result>, b: seq<Result>) { multiset(a) == multiset(b) }

  ghost predicate OrderFree(rs: seq<Result>) {
    forall other :: Rearranged(rs, other) ==> Overall(other) == Overall(rs)
  }

  /** Some row has a known verdict, or all rows that contribute say the same. */
  ghost predicate Decided(rs: seq<Result>) {
    || Has(rs, Broken) || Has(rs, Degraded) || Has(rs, Pass)
    || forall s, t :: Has(rs, s) && Has(rs, t) ==> s == t
  }

  lemma {:induction false} SameContributions(a: seq<Result>, b: seq<Result>, s: Status)
    requires Rearranged(a, b) && Has(a, s)
    ensures Has(b, s)
  {
    var i :| 0 <= i < |a| && Contribution(a[i]) == Some(s);
    assert a[i] in multiset(a);
    assert a[i] in b;
  }

  /** The verdict does not depend on the order of the rows exactly when some row has a known verdict
      or the unknown ones agree. */
  lemma {:induction false} OrderFreeIff(rs: seq<Result>)
    ensures OrderFree(rs) <==> Decided(rs)
  {
    if Decided(rs) {
      forall other | Rearranged(rs, other)
        ensures Overall(other) == Overall(rs)
      {
        SameVerdict(rs, other);
      }
    } else {
      var s, t :| Has(rs, s) && Has(rs, t) && s != t;
      var i := if Overall(rs) == s then Where(rs, t) else Where(rs, s);
      var other := Fronted(rs, i);
      FrontVerdict(rs, i);
    }
  }

  ghost function Where(rs: seq<Result>, s: Status): (i: nat)
    requires Has(rs, s)
    ensures i < |rs| && Contribution(rs[i]) == Some(s)
  {
    var i :| 0 <= i < |rs| && Contribution(rs[i]) == Some(s); i
  }

  ghost function Fronted(rs: seq<Result>, i: nat): (r: seq<Result>)
    requires i < |rs|
    ensures Rearranged(rs, r) && r[0] == rs[i]
  {
    assert rs == rs[..i] + [rs[i]] + rs[i + 1..];
    [rs[i]] + rs[..i] + rs[i + 1..]
  }

  /** With no known verdict among the rows, whichever contributing row comes first decides. */
  lemma {:induction false} FrontVerdict(rs: seq<Result>, i: nat)
    requires i < |rs| && Contribution(rs[i]).Some? && !Has(rs, Broken) && !Has(rs, Degraded) && !Has(rs, Pass)
    ensures Overall(Fronted(rs, i)) == Contribution(rs[i]).value
  {
    var other := Fronted(rs, i);
    FrontWins(other);
    if Has(other, Broken) { SameContributions(other, rs, Broken); }
    if Has(other, Degraded) { SameContributions(other, rs, Degraded); }
    if Has(other, Pass) { SameContributions(other, rs, Pass); }
  }

  lemma {:induction false} FrontWins(rs: seq<Result>)
    requires rs != [] && Contribution(rs[0]).Some?
    ensures FirstContribution(rs) == Contribution(rs[0])
  {
    if |rs| > 1 {
      FrontWins(rs[..|rs| - 1]);
    }
  }

  lemma {:induction false} SameVerdict(a: seq<Result>, b: seq<Result>)
    requires Rearranged(a, b) && Decided(a)
    ensures Overall(b) == Overall(a)
  {
    forall s
      ensures Has(a, s) <==> Has(b, s)
    {
      if Has(a, s) { SameContributions(a, b, s); }
      if Has(b, s) { SameContributions(b, a, s); }
    }
    FirstMeans(a);
    FirstMeans(b);
  }

  /** An all-INFO run is INFO, not PASS. */
  lemma {:induction false} InfoIff(rs: seq<Result>)
    ensures Overall(rs) == Info <==> forall i :: 0 <= i < |rs| ==> Contribution(rs[i]).None?
  {
    FirstMeans(rs);
    assert !Has(rs, Info);
    if i :| 0 <= i < |rs| && Contribution(rs[i]).Some? {
      assert Has(rs, Contribution(rs[i]).value);
    }
  }

  // ---------------------------------------------------------------- exit code and advisory flag

  datatype RowStatus = Verdict(status: Status) | Skip

  /** One row of the envelope; `required` is absent when the row has no id. */
  datatype Row = Row(probe: Id, status: RowStatus, required: Option<bool>)

  function RowOf(r: Result): Row {
    Row(r.probe,
        if !r.skipped then Verdict(r.status) else if r.required then Verdict(Degraded) else Skip,
        None)
  }

  /** The last result with an id, which is what a dictionary keyed by id keeps. */
  function Lookup(rs: seq<Result>, id: Id): Option<Result> {
    if rs == [] then None
    else
      var n := |rs| - 1;
      if rs[n].probe == id then Some(rs[n]) else Lookup(rs[..n], id)
  }

  function Enriched(row: Row, rs: seq<Result>): Row {
    if row.probe == "" || Lookup(rs, row.probe).None? then row
    else row.(required := Some(Lookup(rs, row.probe).value.required))
  }

  function Rows(rs: seq<Result>, all: seq<Result>): (r: seq<Row>)
    ensures |r| == |rs| && forall i :: 0 <= i < |rs| ==> r[i] == Enriched(RowOf(rs[i]), all)
  {
    if rs == [] then []
    else var n := |rs| - 1; Rows(rs[..n], all) + [Enriched(RowOf(rs[n]), all)]
  }

  /** Building the rows, then enriching each in place. */
  method BuildRows(rs: seq<Result>) returns (rows: seq<Row>)
    ensures rows == Rows(rs, rs)
  {
    rows := [];
    var i := 0;
    while i < |rs|
      invariant i <= |rs| && |rows| == i && forall j :: 0 <= j < i ==> rows[j] == RowOf(rs[j])
    {
      rows := rows + [RowOf(rs[i])];
      i := i + 1;
    }
    i := 0;
    while i < |rows|
      invariant i <= |rows| == |rs|
      invariant forall j :: 0 <= j < i ==> rows[j] == Enriched(RowOf(rs[j]), rs)
      invariant forall j :: i <= j < |rs| ==> rows[j] == RowOf(rs[j])
    {
      rows := rows[i := Enriched(rows[i], rs)];
      i := i + 1;
    }
  }

  predicate BlocksAdvisory(row: Row) { row.status.Verdict? && Bad(row.status.status) && row.required == Some(true) }

  /** `_sentinel_advisory_only` */
  method AdvisoryOnly(overall: Status, rows: seq<Row>) returns (advisory: bool)
    ensures advisory <==> Bad(overall) && forall i :: 0 <= i < |rows| ==> !BlocksAdvisory(rows[i])
  {
    if !Bad(overall) {
      return false;
    }
    var i := 0;
    while i < |rows|
      invariant i <= |rows| && forall j :: 0 <= j < i ==> !BlocksAdvisory(rows[j])
    {
      if BlocksAdvisory(rows[i]) {
        return false;
      }
      i := i + 1;
    }
    return true;
  }

  datatype StepZeroStatus = SzPass | SzFail | SzWarn | SzInconclusive

  function StepZeroOf(r: Result): StepZeroStatus {
    if r.skipped then SzInconclusive
    else match r.status
      case Pass => SzPass
      case Broken => SzFail
      case Degraded => SzFail
      case Info => SzWarn
      case Other(_) => SzInconclusive
  }

  predicate HardFail(r: Result) { r.required && StepZeroOf(r) == SzFail }

  /** `emit_step_zero`: the exit code over all rows. */
  method StepZeroExit(rs: seq<Result>) returns (exit: int)
    ensures exit == if exists i :: 0 <= i < |rs| && HardFail(rs[i]) then 1 else 0
  {
    var anyRequiredFail, i := false, 0;
    while i < |rs|
      invariant i <= |rs| && (anyRequiredFail <==> exists j :: 0 <= j < i && HardFail(rs[j]))
    {
      if HardFail(rs[i]) {
        anyRequiredFail := true;
      }
      i := i + 1;
    }
    return if anyRequiredFail then 1 else 0;
  }

  /** Ids are present and each is reported once. */
  ghost predicate DistinctIds(rs: seq<Result>) {
    && (forall i :: 0 <= i < |rs| ==> rs[i].probe != "")
    && (forall i, j :: 0 <= i < j < |rs| ==> rs[i].probe != rs[j].probe)
  }

  lemma {:induction false} LookupDistinct(rs: seq<Result>, i: nat)
    requires DistinctIds(rs) && i < |rs|
    ensures Lookup(rs, rs[i].probe) == Some(rs[i])
  {
    var n := |rs| - 1;
    if i < n {
      assert DistinctIds(rs[..n]);
      LookupDistinct(rs[..n], i);
      assert rs[..n][i] == rs[i];
    }
  }

  predicate RequiredTrouble(r: Result) { r.required && (r.skipped || Bad(r.status)) }

  ghost predicate AnyTrouble(rs: seq<Result>) { exists i :: 0 <= i < |rs| && RequiredTrouble(rs[i]) }

  /** A required row in trouble makes the verdict bad. */
  lemma {:induction false} TroubleIsBad(rs: seq<Result>)
    requires AnyTrouble(rs)
    ensures Bad(Overall(rs))
  {
    var i :| 0 <= i < |rs| && RequiredTrouble(rs[i]);
    assert Has(rs, Contribution(rs[i]).value);
  }

  ghost predicate Blocked(rs: seq<Result>) { exists i :: 0 <= i < |rs| && BlocksAdvisory(Rows(rs, rs)[i]) }

  lemma {:induction false} BlockedIff(rs: seq<Result>)
    requires DistinctIds(rs)
    ensures Blocked(rs) <==> AnyTrouble(rs)
  {
    forall i | 0 <= i < |rs|
      ensures BlocksAdvisory(Rows(rs, rs)[i]) <==> RequiredTrouble(rs[i])
    {
      LookupDistinct(rs, i);
    }
  }

  /** With one result per id, a bad verdict that is not advisory means exactly that some required
      probe failed or was skipped. */
  lemma {:induction false} RealTroubleIff(rs: seq<Result>)
    requires DistinctIds(rs)
    ensures Bad(Overall(rs)) && Blocked(rs) <==> AnyTrouble(rs)
  {
    BlockedIff(rs);
    if AnyTrouble(rs) { TroubleIsBad(rs); }
  }

  /** A failing step-zero exit implies a bad verdict that is not advisory. */
  lemma {:induction false} StepZeroImplies(rs: seq<Result>, i: nat)
    requires DistinctIds(rs) && i < |rs| && HardFail(rs[i])
    ensures Bad(Overall(rs)) && Blocked(rs)
  {
    assert RequiredTrouble(rs[i]);
    RealTroubleIff(rs);
  }

  /** One report per id matters: a later row with the same id can hide a required failure. */
  lemma {:induction false} DuplicateHides(id: Id)
    requires id != ""
    ensures var rs := [Result(id, Broken, true, false), Result(id, Pass, false, false)];
            HardFail(rs[0]) && Bad(Overall(rs)) && !Blocked(rs)
  {
    var rs := [Result(id, Broken, true, false), Result(id, Pass, false, false)];
    assert Has(rs, Broken) by { assert Contribution(rs[0]) == Some(Broken); }
    assert Lookup(rs, id) == Some(rs[1]);
  }
}
