/** The cockpit-contract re-vendor: one directory mirrored from a commit's tree behind two independent
    gates, with a pin and a no-op check. Runs may stop at any file operation. */
module CockpitRevendor {
  import opened Text
  import opened SchemaVersion

  type Name = string
  type Bytes = string
  type Tree = map<Name, Bytes>
  type Parser = Bytes -> Reading

  /** Reading a file as JSON. Only malformed JSON is caught; bytes that do not decode end the run. */
  datatype Reading = Parsed(json: Json) | Malformed | Undecodable

  const CONTRACT: Name := "cockpit-contract.schema.json"

  /** What a run is given: the fetched commit, its tree in the order git lists it, and the flags. */
  datatype Invocation = Invocation(sha: string, tree: Tree, listing: seq<Name>, ack: bool, allow: bool, dryRun: bool)

  /** The listing names every file of the tree once. */
  ghost predicate Listed(inv: Invocation) {
    && (forall n :: n in inv.listing <==> n in inv.tree)
    && forall i, j :: 0 <= i < j < |inv.listing| ==> inv.listing[i] != inv.listing[j]
  }

  datatype Vendored = Vendored(files: Tree, pin: Option<string>)

  predicate IsSchema(n: Name) {
    var tail := ".schema.json";
    |n| >= |tail| && n[|n| - |tail|..] == tail
  }

  // ---------------------------------------------------------------- gates

  function VersionIn(parse: Parser, files: Tree, n: Name): Version {
    if n !in files then Missing
    else
      match parse(files[n])
      case Parsed(json) => VersionOf(json)
      case Malformed => Missing
      case Undecodable => Raises
  }

  /** The parsed schema without its version stamp. */
  function ShapeIn(parse: Parser, files: Tree, n: Name): Option<Json> {
    if n !in files || !parse(files[n]).Parsed? then None else Some(WithoutStamp(parse(files[n]).json))
  }

  /** A surface that needs acknowledging: new, removed, unreadable on either side, or of another shape. */
  predicate Changed(parse: Parser, files: Tree, tree: Tree, n: Name) {
    && IsSchema(n) && (n in files || n in tree)
    && !(ShapeIn(parse, files, n).Some? && ShapeIn(parse, files, n) == ShapeIn(parse, tree, n))
  }

  ghost predicate Delta(parse: Parser, files: Tree, tree: Tree) { exists n :: Changed(parse, files, tree, n) }

  predicate ReadableIncoming(parse: Parser, tree: Tree) {
    var v := VersionIn(parse, tree, CONTRACT);
    v.Text? || v.Unparsable?
  }

  function DirectionOf(parse: Parser, files: Tree, inv: Invocation): Direction {
    Detect(VersionIn(parse, files, CONTRACT), VersionIn(parse, inv.tree, CONTRACT), inv.allow, inv.dryRun)
  }

  /** Comparing `n` raises: its bytes do not decode on a side that is read. */
  predicate RaisesAt(parse: Parser, files: Tree, tree: Tree, n: Name) {
    && IsSchema(n) && n in tree
    && (|| parse(tree[n]).Undecodable?
        || (parse(tree[n]).Parsed? && n in files && parse(files[n]).Undecodable?))
  }

  ghost predicate Crashes(parse: Parser, files: Tree, tree: Tree) { exists n :: RaisesAt(parse, files, tree, n) }

  /** The run can read what it has to compare. */
  ghost predicate Readable(parse: Parser, files: Tree, inv: Invocation) {
    && ReadableIncoming(parse, inv.tree) && !VersionIn(parse, files, CONTRACT).Raises?
    && !DirectionOf(parse, files, inv).Refuse? && !Crashes(parse, files, inv.tree)
  }

  /** Everything that stands between a run and its first write. */
  ghost predicate Admitted(parse: Parser, files: Tree, inv: Invocation) {
    && !inv.dryRun && Readable(parse, files, inv)
    && (Delta(parse, files, inv.tree) ==> inv.ack)
    && (DirectionOf(parse, files, inv).Downgrade? ==> inv.allow)
  }

  predicate AlreadyVendored(v: Vendored, inv: Invocation) {
    v.pin.Some? && Strip(v.pin.value) == inv.sha && inv.tree != map[] && v.files == inv.tree
  }

  // ---------------------------------------------------------------- an interrupted copy

  function At(files: Tree, n: Name): Option<Bytes> { if n in files then Some(files[n]) else None }

  /** Unlinking has begun: some files the tree does not have are gone. */
  ghost predicate Pruning(before: Tree, after: Tree, tree: Tree) {
    forall n :: At(after, n) == At(before, n) || (n !in after && n !in tree)
  }

  /** Every stale file unlinked and the first `k` files of the listing written. */
  function Partial(before: Tree, inv: Invocation, k: nat): Tree
    requires k <= |inv.listing|
  {
    (map n | n in before && n in inv.tree :: before[n]) + (map n | n in inv.listing[..k] && n in inv.tree :: inv.tree[n])
  }

  /** The write of file `k` is the last thing that happened: done up to it, and torn if so marked. */
  ghost predicate Writing(before: Tree, after: Tree, inv: Invocation, k: nat, torn: Option<Name>) {
    && k <= |inv.listing|
    && match torn
       case None => after == Partial(before, inv, k)
       case Some(n) =>
         k < |inv.listing| && n == inv.listing[k] && n in after && after == Partial(before, inv, k)[n := after[n]]
  }

  /** What the copy may leave behind, wherever it stops. */
  ghost predicate MidCopy(before: Tree, after: Tree, inv: Invocation, torn: Option<Name>) {
    (torn.None? && Pruning(before, after, inv.tree)) || exists k :: Writing(before, after, inv, k, torn)
  }

  /** What a run may leave. A pin is only ever written beside an exact copy. */
  ghost predicate MayFollow(parse: Parser, v: Vendored, inv: Invocation, torn: Option<Name>, w: Vendored) {
    || w == v
    || (&& Admitted(parse, v.files, inv) && MidCopy(v.files, w.files, inv, torn)
        && (w.pin == v.pin || w.files == inv.tree))
  }

  /** Every file but a torn one is as before or as in the tree. */
  lemma {:induction false} OldOrNew(before: Tree, after: Tree, inv: Invocation, torn: Option<Name>, n: Name)
    requires Listed(inv) && MidCopy(before, after, inv, torn) && torn != Some(n)
    ensures At(after, n) == At(before, n) || At(after, n) == At(inv.tree, n)
  {
    if !Pruning(before, after, inv.tree) || torn.Some? {
      var k :| Writing(before, after, inv, k, torn);
      PartialAt(before, inv, k, n);
      assert At(after, n) == At(Partial(before, inv, k), n);
    }
  }

  lemma {:induction false} PartialAt(before: Tree, inv: Invocation, k: nat, n: Name)
    requires Listed(inv) && k <= |inv.listing|
    ensures At(Partial(before, inv, k), n) ==
            if n !in inv.tree then None else if n in inv.listing[..k] then Some(inv.tree[n]) else At(before, n)
  {
    if n in inv.listing[..k] {
      assert n in inv.listing;
    }
  }

  /** Shapes of the vendored schema files, the version stamp aside. */
  ghost predicate SameShapes(parse: Parser, a: Tree, b: Tree) {
    forall n :: IsSchema(n) ==> (n in a <==> n in b) && (n in a && At(a, n) != At(b, n) ==>
      ShapeIn(parse, a, n).Some? && ShapeIn(parse, a, n) == ShapeIn(parse, b, n))
  }

  /** Without `--ack-major` a run, finished or aborted, keeps every schema's shape, unless the abort
      tears a schema file. */
  lemma {:induction false} ShapeKept(parse: Parser, v: Vendored, inv: Invocation, torn: Option<Name>, w: Vendored)
    requires Listed(inv) && MayFollow(parse, v, inv, torn, w) && !inv.ack && (torn.Some? ==> !IsSchema(torn.value))
    ensures SameShapes(parse, v.files, w.files)
  {
    forall n | IsSchema(n)
      ensures n in v.files <==> n in w.files
      ensures n in v.files && At(v.files, n) != At(w.files, n) ==>
                ShapeIn(parse, v.files, n).Some? && ShapeIn(parse, v.files, n) == ShapeIn(parse, w.files, n)
    {
      if w != v {
        assert !Changed(parse, v.files, inv.tree, n);
        OldOrNew(v.files, w.files, inv, torn, n);
      }
    }
  }

  ghost function TripleIn(parse: Parser, files: Tree): Option<Triple> { TripleOf(VersionIn(parse, files, CONTRACT)) }

  ghost predicate NotLower(a: Option<Triple>, b: Option<Triple>) {
    a.Some? ==> b.Some? && !Below(b.value, a.value)
  }

  /** Without `--allow-downgrade` a run, finished or aborted, never lowers a version that reads as a
      triple and never loses it, unless the abort tears the contract file. */
  lemma {:induction false} VersionKept(parse: Parser, v: Vendored, inv: Invocation, torn: Option<Name>, w: Vendored)
    requires Listed(inv) && MayFollow(parse, v, inv, torn, w) && !inv.allow && torn != Some(CONTRACT)
    ensures NotLower(TripleIn(parse, v.files), TripleIn(parse, w.files))
  {
    if w != v {
      OldOrNew(v.files, w.files, inv, torn, CONTRACT);
    }
  }

  // ---------------------------------------------------------------- sequences of runs

  datatype Step = Step(inv: Invocation, torn: Option<Name>, after: Vendored)

  ghost predicate History(parse: Parser, v: Vendored, steps: seq<Step>)
    decreases |steps|
  {
    steps == [] || (Listed(steps[0].inv) && MayFollow(parse, v, steps[0].inv, steps[0].torn, steps[0].after) && History(parse, steps[0].after, steps[1..]))
  }

  function Last(v: Vendored, steps: seq<Step>): Vendored { if steps == [] then v else steps[|steps| - 1].after }

  lemma {:induction false} SameShapesTrans(parse: Parser, a: Tree, b: Tree, c: Tree)
    requires SameShapes(parse, a, b) && SameShapes(parse, b, c)
    ensures SameShapes(parse, a, c)
  {
  }

  /** However many runs and aborts, with or without `--allow-downgrade`: no acknowledged change, no
      change of shape. */
  lemma {:induction false} ShapesOverHistory(parse: Parser, v: Vendored, steps: seq<Step>)
    requires History(parse, v, steps)
    requires forall i :: 0 <= i < |steps| ==> !steps[i].inv.ack && (steps[i].torn.Some? ==> !IsSchema(steps[i].torn.value))
    ensures SameShapes(parse, v.files, Last(v, steps).files)
    decreases |steps|
  {
    if steps != [] {
      var w := steps[0].after;
      ShapeKept(parse, v, steps[0].inv, steps[0].torn, w);
      ShapesOverHistory(parse, w, steps[1..]);
      SameShapesTrans(parse, v.files, w.files, Last(w, steps[1..]).files);
    }
  }

  lemma {:induction false} NotLowerTrans(parse: Parser, a: Tree, b: Tree, c: Tree)
    requires NotLower(TripleIn(parse, a), TripleIn(parse, b)) && NotLower(TripleIn(parse, b), TripleIn(parse, c))
    ensures NotLower(TripleIn(parse, a), TripleIn(parse, c))
  {
  }

  /** However many runs and aborts, with or without `--ack-major`: no downgrade without its own flag. */
  lemma {:induction false} VersionOverHistory(parse: Parser, v: Vendored, steps: seq<Step>)
    requires History(parse, v, steps)
    requires forall i :: 0 <= i < |steps| ==> !steps[i].inv.allow && steps[i].torn != Some(CONTRACT)
    ensures NotLower(TripleIn(parse, v.files), TripleIn(parse, Last(v, steps).files))
    decreases |steps|
  {
    if steps != [] {
      var w := steps[0].after;
      VersionKept(parse, v, steps[0].inv, steps[0].torn, w);
      VersionOverHistory(parse, w, steps[1..]);
      assert Last(w, steps[1..]) == Last(v, steps);
      NotLowerTrans(parse, v.files, w.files, Last(w, steps[1..]).files);
    }
  }

  // ---------------------------------------------------------------- when the promises fail

  /** The directory just after the write of `n` tore. */
  ghost function TornAt(v: Vendored, inv: Invocation, n: Name, junk: Bytes): Vendored
    requires Listed(inv) && n in inv.tree
  {
    var k :| 0 <= k < |inv.listing| && inv.listing[k] == n;
    Vendored(Partial(v.files, inv, k)[n := junk], v.pin)
  }

  lemma {:induction false} TearsHere(parse: Parser, v: Vendored, inv: Invocation, n: Name, junk: Bytes)
    requires Listed(inv) && n in inv.tree && Admitted(parse, v.files, inv)
    ensures var w := TornAt(v, inv, n, junk);
            && MayFollow(parse, v, inv, Some(n), w) && w.pin == v.pin
            && n in w.files && w.files[n] == junk
            && forall m :: m in w.files && m != n ==> m in inv.tree && (w.files[m] == inv.tree[m] || At(v.files, m) == Some(w.files[m]))
  {
    var w := TornAt(v, inv, n, junk);
    var k :| 0 <= k < |inv.listing| && inv.listing[k] == n && w.files == Partial(v.files, inv, k)[n := junk];
    assert Writing(v.files, w.files, inv, k, Some(n));
    forall m | m in w.files && m != n
      ensures m in inv.tree && (w.files[m] == inv.tree[m] || At(v.files, m) == Some(w.files[m]))
    {
      PartialAt(v.files, inv, k, m);
      assert At(w.files, m) == At(Partial(v.files, inv, k), m);
    }
  }

  /** The version survives every way a run can end exactly when the contract file is not the one torn. */
  lemma {:induction false} VersionKeptIff(parse: Parser, v: Vendored, inv: Invocation, torn: Option<Name>, junk: Bytes)
    requires Listed(inv) && Admitted(parse, v.files, inv) && !inv.allow
    requires TripleIn(parse, v.files).Some? && !parse(junk).Parsed?
    ensures (forall w :: MayFollow(parse, v, inv, torn, w) ==> NotLower(TripleIn(parse, v.files), TripleIn(parse, w.files)))
            <==> torn != Some(CONTRACT)
  {
    if torn == Some(CONTRACT) {
      TearsHere(parse, v, inv, CONTRACT, junk);
      var w := TornAt(v, inv, CONTRACT, junk);
      assert MayFollow(parse, v, inv, torn, w) && TripleIn(parse, w.files).None?;
    } else {
      forall w | MayFollow(parse, v, inv, torn, w)
        ensures NotLower(TripleIn(parse, v.files), TripleIn(parse, w.files))
      {
        VersionKept(parse, v, inv, torn, w);
      }
    }
  }

  /** Shapes survive every way a run can end exactly when no schema file of the tree is torn. */
  lemma {:induction false} ShapeKeptIff(parse: Parser, v: Vendored, inv: Invocation, torn: Option<Name>, junk: Bytes)
    requires Listed(inv) && Admitted(parse, v.files, inv) && !inv.ack && !parse(junk).Parsed?
    ensures (forall w :: MayFollow(parse, v, inv, torn, w) ==> SameShapes(parse, v.files, w.files))
            <==> !(torn.Some? && IsSchema(torn.value) && torn.value in inv.tree)
  {
    if torn.Some? && IsSchema(torn.value) && torn.value in inv.tree {
      var n := torn.value;
      TearsHere(parse, v, inv, n, junk);
      var w := TornAt(v, inv, n, junk);
      assert !Changed(parse, v.files, inv.tree, n);
      assert MayFollow(parse, v, inv, torn, w) && ShapeIn(parse, w.files, n).None?;
      assert !SameShapes(parse, v.files, w.files);
    } else {
      forall w | MayFollow(parse, v, inv, torn, w)
        ensures SameShapes(parse, v.files, w.files)
      {
        if torn.Some? && torn.value !in inv.tree {
          NeverTorn(v.files, w.files, inv, torn.value);
          assert w == v;
        } else {
          ShapeKept(parse, v, inv, torn, w);
        }
      }
    }
  }

  /** Only files of the tree are ever torn. */
  lemma {:induction false} NeverTorn(before: Tree, after: Tree, inv: Invocation, n: Name)
    requires Listed(inv)
    ensures MidCopy(before, after, inv, Some(n)) ==> n in inv.tree
  {
    if k: nat :| Writing(before, after, inv, k, Some(n)) {
      assert inv.listing[k] in inv.listing;
    }
  }

  ghost predicate Decodes(parse: Parser, files: Tree) { forall n :: n in files ==> !parse(files[n]).Undecodable? }

  /** What a torn contract file leads to: its bytes no longer parse, nothing is left to compare with, and
      a run with `--ack-major` alone installs any older version. Two runs, neither of them allowed to
      downgrade, have lowered the version. */
  lemma {:induction false} TornThenDowngrade(parse: Parser, v: Vendored, first: Invocation, second: Invocation, junk: Bytes)
      returns (steps: seq<Step>)
    requires Listed(first) && Admitted(parse, v.files, first) && !first.allow && parse(junk).Malformed?
    requires Listed(second) && ReadableIncoming(parse, second.tree) && second.ack && !second.dryRun && !second.allow
    requires Decodes(parse, v.files) && Decodes(parse, first.tree) && Decodes(parse, second.tree)
    requires TripleIn(parse, v.files).Some? && TripleIn(parse, second.tree).Some?
    requires Below(TripleIn(parse, second.tree).value, TripleIn(parse, v.files).value)
    ensures |steps| == 2 && steps[0].inv == first && steps[1].inv == second && steps[1].torn.None?
    ensures History(parse, v, steps)
    ensures Last(v, steps) == Vendored(second.tree, Some(second.sha + "\n"))
    ensures !NotLower(TripleIn(parse, v.files), TripleIn(parse, Last(v, steps).files))
  {
    TearsHere(parse, v, first, CONTRACT, junk);
    var torn := TornAt(v, first, CONTRACT, junk);
    AnythingGoes(parse, v.files, torn.files, first, second, junk);
    AllWritten(torn.files, second);
    steps := TwoSteps(parse, v, first, Some(CONTRACT), torn, second, None, Vendored(second.tree, Some(second.sha + "\n")));
  }

  /** Over a contract file that does not parse, a readable tree needs no more than `--ack-major`. */
  lemma {:induction false} AnythingGoes(parse: Parser, before: Tree, torn: Tree, first: Invocation, second: Invocation, junk: Bytes)
    requires CONTRACT in torn && torn[CONTRACT] == junk && parse(junk).Malformed?
    requires forall m :: m in torn && m != CONTRACT ==> m in first.tree && (torn[m] == first.tree[m] || At(before, m) == Some(torn[m]))
    requires ReadableIncoming(parse, second.tree) && second.ack && !second.dryRun
    requires Decodes(parse, before) && Decodes(parse, first.tree) && Decodes(parse, second.tree)
    ensures Admitted(parse, torn, second)
  {
    forall n
      ensures !RaisesAt(parse, torn, second.tree, n)
    {
      if n in torn && n != CONTRACT {
        assert torn[n] == first.tree[n] || At(before, n) == Some(torn[n]);
      }
    }
  }

  lemma {:induction false} TwoSteps(parse: Parser, v: Vendored, first: Invocation, torn: Option<Name>, w: Vendored,
                                    second: Invocation, torn': Option<Name>, x: Vendored) returns (steps: seq<Step>)
    requires Listed(first) && MayFollow(parse, v, first, torn, w) && Listed(second) && MayFollow(parse, w, second, torn', x)
    ensures steps == [Step(first, torn, w), Step(second, torn', x)] && History(parse, v, steps) && Last(v, steps) == x
  {
    steps := [Step(first, torn, w), Step(second, torn', x)];
    assert steps[1..] == [steps[1]] && steps[1..][1..] == [];
    assert History(parse, x, steps[1..][1..]);
    assert History(parse, w, steps[1..]);
  }

  lemma {:induction false} AllWritten(before: Tree, inv: Invocation)
    requires Listed(inv)
    ensures Partial(before, inv, |inv.listing|) == inv.tree
    ensures MidCopy(before, inv.tree, inv, None)
  {
    var n := |inv.listing|;
    assert inv.listing[..n] == inv.listing;
    forall m
      ensures At(Partial(before, inv, n), m) == At(inv.tree, m)
    {
      PartialAt(before, inv, n, m);
    }
    SameTree(Partial(before, inv, n), inv.tree);
    assert Writing(before, inv.tree, inv, n, None);
  }

  // ---------------------------------------------------------------- the no-op check

  lemma {:induction false} PinStrips(sha: string)
    requires sha != "" && NoSpace(sha)
    ensures Strip(sha + "\n") == sha
  {
    var s := sha + "\n";
    assert s[0] == sha[0] && s[|s| - 1] == '\n' && s[..|s| - 1] == sha;
    assert RStrip(sha) == sha;
  }

  /** An exact copy with its pin is what the next run at that commit recognizes as done. */
  lemma {:induction false} ExactIsDone(v: Vendored, inv: Invocation)
    requires inv.sha != "" && NoSpace(inv.sha) && inv.tree != map[]
    requires v.files == inv.tree && v.pin == Some(inv.sha + "\n")
    ensures AlreadyVendored(v, inv)
  {
    PinStrips(inv.sha);
  }

  // ---------------------------------------------------------------- the run

  datatype Exit = NoOp | DryRun | Refused | Aborted | Done | DriftFailed

  /** `_detect_consumer_visible_delta`: the surfaces that need acknowledging, unless reading one raises. */
  method DetectDelta(parse: Parser, files: Tree, tree: Tree, listing: seq<Name>) returns (changed: Option<seq<Name>>)
    requires forall n :: n in listing <==> n in tree
    ensures changed.None? <==> Crashes(parse, files, tree)
    ensures changed.Some? ==> forall n :: n in changed.value <==> Changed(parse, files, tree, n)
  {
    var found := [];
    for k := 0 to |listing|
      invariant forall n :: n in found <==> n in listing[..k] && Changed(parse, files, tree, n)
      invariant forall n :: n in listing[..k] ==> !RaisesAt(parse, files, tree, n)
    {
      var n := listing[k];
      var differs := Differs(parse, files, tree, n);
      if differs.None? {
        assert RaisesAt(parse, files, tree, n);
        return None;
      }
      found := if differs.value then found + [n] else found;
      assert listing[..k + 1] == listing[..k] + [n];
    }
    assert listing[..|listing|] == listing;
    var removed := Removed(files.Keys - tree.Keys);
    return Some(found + removed);
  }

  /** One incoming file: unreadable, new, unreadable as vendored, or of another shape. */
  method Differs(parse: Parser, files: Tree, tree: Tree, n: Name) returns (r: Option<bool>)
    requires n in tree
    ensures r.None? <==> RaisesAt(parse, files, tree, n)
    ensures r.Some? ==> (r.value <==> Changed(parse, files, tree, n))
  {
    if !IsSchema(n) {
      return Some(false);
    }
    var incoming := parse(tree[n]);
    if incoming.Undecodable? {
      return None;
    }
    if incoming.Malformed? || n !in files {
      return Some(true);
    }
    var vendored := parse(files[n]);
    return match vendored
           case Undecodable => None
           case Malformed => Some(true)
           case Parsed(json) => Some(WithoutStamp(incoming.json) != WithoutStamp(json));
  }

  /** Schema files the incoming tree no longer has. */
  method Removed(gone: set<Name>) returns (r: seq<Name>)
    ensures forall n :: n in r <==> n in gone && IsSchema(n)
  {
    r := [];
    var left := gone;
    while left != {}
      invariant left <= gone && forall n :: n in r <==> n in gone && n !in left && IsSchema(n)
      decreases |left|
    {
      var n :| n in left;
      left := left - {n};
      r := if IsSchema(n) then r + [n] else r;
    }
  }

  /** Everything between the no-op check and the first write: None when the run goes on. */
  method PassGates(parse: Parser, files: Tree, inv: Invocation) returns (verdict: Option<Exit>)
    requires Listed(inv)
    ensures verdict.None? <==> Admitted(parse, files, inv)
    ensures verdict.Some? ==> verdict.value == if inv.dryRun && Readable(parse, files, inv) then DryRun else Refused
  {
    var current, incoming := VersionIn(parse, files, CONTRACT), VersionIn(parse, inv.tree, CONTRACT);
    if !(incoming.Text? || incoming.Unparsable?) || current.Raises? {
      return Some(Refused);
    }
    var direction := Detect(current, incoming, inv.allow, inv.dryRun);
    if direction.Refuse? {
      return Some(Refused);
    }
    var changed := DetectDelta(parse, files, inv.tree, inv.listing);
    if changed.None? {
      return Some(Refused);
    }
    DeltaFound(parse, files, inv.tree, changed.value);
    if inv.dryRun {
      return Some(DryRun);
    }
    if (changed.value != [] && !inv.ack) || (direction.Downgrade? && !inv.allow) {
      return Some(Refused);
    }
    return None;
  }

  class VendorDir {
    var files: Tree
    var pin: Option<string>

    ghost function State(): Vendored
      reads this
    {
      Vendored(files, pin)
    }

    /** `_copy_schema`: prune what the tree does not have, then write what it has. File operation number
        `stop` (counting from 1, 0 for none) fails; a failing write may leave `junk`. */
    method CopySchema(inv: Invocation, stop: nat, junk: Option<Bytes>) returns (ok: bool, torn: Option<Name>)
      requires Listed(inv)
      modifies this`files
      ensures ok <==> !(1 <= stop <= Operations(old(files), inv))
      ensures ok ==> files == inv.tree && torn.None?
      ensures MidCopy(old(files), files, inv, torn)
    {
      var stale := |files.Keys - inv.tree.Keys|;
      torn := None;
      ok := Prune(inv.tree, stop);
      if ok {
        ok, torn := WriteFiles(old(files), inv, stale, stop, junk);
      }
    }

    /** Unlink every stale file. */
    method Prune(tree: Tree, stop: nat) returns (ok: bool)
      modifies this`files
      ensures ok <==> !(1 <= stop <= |old(files).Keys - tree.Keys|)
      ensures Pruning(old(files), files, tree)
      ensures ok ==> files == Kept(old(files), tree)
    {
      var used := 0;
      var stale := files.Keys - tree.Keys;
      while stale != {}
        invariant stale == files.Keys - tree.Keys
        invariant used + |stale| == |old(files).Keys - tree.Keys| && (stop == 0 || used < stop)
        invariant Pruning(old(files), files, tree)
        decreases |stale|
      {
        var n :| n in stale;
        used := used + 1;
        if used == stop {
          return false;
        }
        PruneStep(old(files), files, tree, n);
        files := files - {n};
        stale := stale - {n};
      }
      NothingStale(old(files), files, tree);
      return true;
    }

    /** Write every file of the tree, in the order of the listing; `done` operations came before. */
    method WriteFiles(ghost before: Tree, inv: Invocation, done: nat, stop: nat, junk: Option<Bytes>)
        returns (ok: bool, torn: Option<Name>)
      requires Listed(inv) && files == Kept(before, inv.tree)
      requires stop == 0 || done < stop
      modifies this`files
      ensures ok <==> !(1 <= stop <= done + |inv.listing|)
      ensures ok ==> files == inv.tree && torn.None?
      ensures MidCopy(before, files, inv, torn)
    {
      torn := None;
      NoneWritten(before, inv);
      for k := 0 to |inv.listing|
        invariant files == Partial(before, inv, k) && torn.None?
        invariant stop == 0 || done + k < stop
      {
        var n := inv.listing[k];
        if done + k + 1 == stop {
          if junk.Some? {
            torn := Some(n);
            files := files[n := junk.value];
          }
          assert Writing(before, files, inv, k, torn);
          return false, torn;
        }
        OneMore(before, inv, k);
        files := files[n := inv.tree[n]];
      }
      AllWritten(before, inv);
      return true, None;
    }

    /** `_verify_schema_byte_identity`: every file of the tree is there byte for byte, and no other. */
    method Verify(tree: Tree) returns (ok: bool)
      ensures ok <==> files == tree
    {
      var pending := tree.Keys;
      while pending != {}
        invariant pending <= tree.Keys
        invariant forall n :: n in tree && n !in pending ==> n in files && files[n] == tree[n]
        decreases |pending|
      {
        var n :| n in pending;
        if n !in files || files[n] != tree[n] {
          return false;
        }
        pending := pending - {n};
      }
      ok := files.Keys <= tree.Keys;
      if ok {
        assert files.Keys == tree.Keys;
      }
    }

    /** The step order of `main`. `drifted` says that the check that follows the pin failed. */
    method Revendor(parse: Parser, inv: Invocation, stop: nat, junk: Option<Bytes>, drifted: bool)
        returns (exit: Exit, torn: Option<Name>)
      requires inv.sha != "" && NoSpace(inv.sha) && Listed(inv)
      modifies this
      ensures MayFollow(parse, old(State()), inv, torn, State())
      ensures exit.NoOp? <==> AlreadyVendored(old(State()), inv)
      ensures exit.DryRun? <==> !AlreadyVendored(old(State()), inv) && inv.dryRun && Readable(parse, old(files), inv)
      ensures exit.Refused? <==>
                && !AlreadyVendored(old(State()), inv)
                && !(if inv.dryRun then Readable(parse, old(files), inv) else Admitted(parse, old(files), inv))
      ensures exit.NoOp? || exit.DryRun? || exit.Refused? ==> State() == old(State())
      ensures exit.Aborted? <==>
                && !AlreadyVendored(old(State()), inv) && Admitted(parse, old(files), inv)
                && 1 <= stop <= Operations(old(files), inv) + 1
      ensures exit.Done? || exit.DriftFailed? ==>
                && State() == Vendored(inv.tree, Some(inv.sha + "\n")) && AlreadyVendored(State(), inv)
                && (exit.Done? <==> !drifted)
    {
      torn := None;
      if AlreadyVendored(Vendored(files, pin), inv) {
        return NoOp, None;
      }
      var verdict := PassGates(parse, files, inv);
      if verdict.Some? {
        return verdict.value, None;
      }
      exit, torn := Install(inv, stop, junk, drifted);
      if files == inv.tree && pin == Some(inv.sha + "\n") {
        ExactIsDone(Vendored(files, pin), inv);
      }
    }

    /** Copy, verify, pin, check for drift. */
    method Install(inv: Invocation, stop: nat, junk: Option<Bytes>, drifted: bool) returns (exit: Exit, torn: Option<Name>)
      requires Listed(inv)
      modifies this
      ensures MidCopy(old(files), files, inv, torn) && (pin == old(pin) || files == inv.tree)
      ensures exit.Aborted? || exit.Done? || exit.DriftFailed?
      ensures exit.Aborted? <==> 1 <= stop <= Operations(old(files), inv) + 1
      ensures !exit.Aborted? ==> files == inv.tree && pin == Some(inv.sha + "\n") && (exit.Done? <==> !drifted)
    {
      var last := Operations(files, inv) + 1;
      var ok;
      ok, torn := CopySchema(inv, stop, junk);
      if !ok {
        return Aborted, torn;
      }
      ok := Verify(inv.tree);
      if !ok {
        return Aborted, torn;
      }
      if stop == last {
        pin := if junk.Some? then junk else pin;
        return Aborted, torn;
      }
      pin := Some(inv.sha + "\n");
      return if drifted then DriftFailed else Done, torn;
    }
  }

  /** Unlinks and writes of one copy. */
  function Operations(before: Tree, inv: Invocation): nat { |before.Keys - inv.tree.Keys| + |inv.listing| }

  /** The files the tree has too. */
  function Kept(before: Tree, tree: Tree): Tree { map n | n in before && n in tree :: before[n] }

  lemma {:induction false} NothingStale(before: Tree, files: Tree, tree: Tree)
    requires files.Keys - tree.Keys == {} && Pruning(before, files, tree)
    ensures files == Kept(before, tree)
  {
    forall n
      ensures At(files, n) == At(Kept(before, tree), n)
    {
      assert At(files, n) == At(before, n) || (n !in files && n !in tree);
      assert n !in files.Keys - tree.Keys;
    }
    SameTree(files, Kept(before, tree));
  }

  lemma {:induction false} PruneStep(before: Tree, files: Tree, tree: Tree, n: Name)
    requires Pruning(before, files, tree) && n in files && n !in tree
    ensures Pruning(before, files - {n}, tree)
    ensures (files - {n}).Keys - tree.Keys == files.Keys - tree.Keys - {n}
  {
    var now := files - {n};
    forall m
      ensures At(now, m) == At(before, m) || (m !in now && m !in tree)
    {
      assert At(files, m) == At(before, m) || (m !in files && m !in tree);
    }
    assert now.Keys == files.Keys - {n};
  }

  lemma {:induction false} NoneWritten(before: Tree, inv: Invocation)
    requires Listed(inv)
    ensures Partial(before, inv, 0) == Kept(before, inv.tree)
  {
    forall n
      ensures At(Partial(before, inv, 0), n) == At(Kept(before, inv.tree), n)
    {
      PartialAt(before, inv, 0, n);
    }
    SameTree(Partial(before, inv, 0), Kept(before, inv.tree));
  }

  lemma {:induction false} OneMore(before: Tree, inv: Invocation, k: nat)
    requires Listed(inv) && k < |inv.listing|
    ensures inv.listing[k] in inv.tree
    ensures Partial(before, inv, k + 1) == Partial(before, inv, k)[inv.listing[k] := inv.tree[inv.listing[k]]]
  {
    var m := inv.listing[k];
    assert m in inv.listing && inv.listing[..k + 1] == inv.listing[..k] + [m];
    var before', after := Partial(before, inv, k)[m := inv.tree[m]], Partial(before, inv, k + 1);
    forall n
      ensures At(after, n) == At(before', n)
    {
      PartialAt(before, inv, k, n);
      PartialAt(before, inv, k + 1, n);
    }
    SameTree(after, before');
  }

  lemma {:induction false} SameTree(a: Tree, b: Tree)
    requires forall n :: At(a, n) == At(b, n)
    ensures a == b
  {
    forall n
      ensures n in a <==> n in b
    {
      assert At(a, n) == At(b, n);
    }
    forall n | n in a
      ensures a[n] == b[n]
    {
      assert At(a, n) == At(b, n);
    }
  }

  lemma {:induction false} DeltaFound(parse: Parser, files: Tree, tree: Tree, changed: seq<Name>)
    requires forall n :: n in changed <==> Changed(parse, files, tree, n)
    ensures changed != [] <==> Delta(parse, files, tree)
  {
    if changed != [] {
      assert changed[0] in changed;
    }
  }
}
