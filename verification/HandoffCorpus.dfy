/** The migration of a whole handoff corpus: which record continues which, which live copies are
    left alone, and what any sequence of complete or interrupted runs leaves on disk. */
module HandoffCorpus {
  import opened Text
  import opened CorpusMigration

  datatype Record = Record(path: Path, fields: Fields)

  /** `os.path.basename` */
  function Basename(p: Path): Path {
    if p == "" || p[|p| - 1] == '/' then "" else Basename(p[..|p| - 1]) + [p[|p| - 1]]
  }

  predicate Live(p: Path) { After("state/handoffs/", p).Some? }

  predicate Archived(p: Path) { After("archive/handoffs/", p).Some? }

  /** The records found by scanning the files in order; files without frontmatter have none. */
  function Records(files: Corpus, order: seq<Path>): seq<Record> {
    if order == [] then []
    else
      var p, rest := order[0], Records(files, order[1..]);
      if p in files && RecordIn(files[p]).Some? then [Record(p, RecordIn(files[p]).value)] + rest else rest
  }

  // ---------------------------------------------------------------- successors

  function References(f: Fields): seq<string> {
    (if f.predecessor.Some? && f.predecessor.value != "" then [f.predecessor.value] else []) + f.more
  }

  predicate Names(ref: string, candidate: string) { ref == candidate || Basename(ref) == candidate }

  /** `ref` names the record by its file name or by its id. */
  predicate NamesRecord(ref: string, a: Record) {
    Names(ref, Basename(a.path)) || (a.fields.id.Some? && Names(ref, a.fields.id.value))
  }

  /** Another record that refers back to `a`. */
  predicate Continues(rec: Record, a: Record) {
    rec.path != a.path && exists i :: 0 <= i < |References(rec.fields)| && NamesRecord(References(rec.fields)[i], a)
  }

  /** The earliest record of the scan that continues `a` is the one at `k`. */
  ghost predicate FirstContinuing(a: Record, recs: seq<Record>, k: int) {
    0 <= k < |recs| && Continues(recs[k], a) && forall j :: 0 <= j < k ==> !Continues(recs[j], a)
  }

  /** The record the search for a successor of `a` returns. */
  function Successor(a: Record, recs: seq<Record>, from: nat := 0): (r: Option<Record>)
    requires from <= |recs|
    decreases |recs| - from
  {
    if from == |recs| then None
    else if Continues(recs[from], a) then Some(recs[from])
    else Successor(a, recs, from + 1)
  }

  /** There is a successor exactly when some other record refers back, and it is the earliest. */
  lemma {:induction false} SuccessorIff(a: Record, recs: seq<Record>, from: nat)
    requires from <= |recs| && forall j :: 0 <= j < from ==> !Continues(recs[j], a)
    ensures Successor(a, recs, from).Some? ==>
              exists k :: FirstContinuing(a, recs, k) && Successor(a, recs, from) == Some(recs[k])
    ensures Successor(a, recs, from).None? ==> forall k :: 0 <= k < |recs| ==> !Continues(recs[k], a)
    decreases |recs| - from
  {
    if from < |recs| {
      if Continues(recs[from], a) {
        assert FirstContinuing(a, recs, from);
      } else {
        SuccessorIff(a, recs, from + 1);
      }
    }
  }

  /** How a record is named: its id, else its path. */
  function NameOf(r: Record): string { if r.fields.id.Some? then r.fields.id.value else r.path }

  function FateOf(a: Record, recs: seq<Record>): Fate {
    match Successor(a, recs)
    case None => None
    case Some(r) => Some(NameOf(r))
  }

  /** A live copy of a record that is also archived under the same id. */
  predicate Duplicate(a: Record, recs: seq<Record>) {
    && Live(a.path) && a.fields.id.Some?
    && exists k :: 0 <= k < |recs| && Archived(recs[k].path) && recs[k].fields.id == a.fields.id
  }

  // ---------------------------------------------------------------- the migrated corpus

  /** What a visit to `p` leaves there, given the records of the whole corpus. */
  function Visited(p: Path, text: string, recs: seq<Record>): string {
    if RecordIn(text).None? then text
    else
      var a := Record(p, RecordIn(text).value);
      if Duplicate(a, recs) then text else Migrated(text, FateOf(a, recs))
  }

  /** The corpus with every file visited once. */
  function VisitAll(files: Corpus, order: seq<Path>): (r: Corpus)
    ensures r.Keys == files.Keys
  {
    var recs := Records(files, order);
    map p | p in files :: Visited(p, files[p], recs)
  }

  /** `now` at the paths of `visited`, `files` elsewhere. */
  function Mix(files: Corpus, now: Corpus, visited: set<Path>): (r: Corpus)
    requires now.Keys == files.Keys
    ensures r.Keys == files.Keys
  {
    map p | p in files :: if p in visited then now[p] else files[p]
  }

  /** The corpus after the files of `visited` have been migrated and the others not yet. */
  function MigrateOnly(files: Corpus, order: seq<Path>, visited: set<Path>): (r: Corpus)
    ensures r.Keys == files.Keys
  {
    Mix(files, VisitAll(files, order), visited)
  }

  ghost predicate OneLinePaths(order: seq<Path>) { forall i :: 0 <= i < |order| ==> NoBreak(order[i]) }

  ghost predicate AllOneLine(recs: seq<Record>) {
    forall k :: 0 <= k < |recs| ==> NoBreak(NameOf(recs[k]))
  }

  /** The id the parser reports carries no whitespace. */
  ghost predicate GoodId(f: Fields) { f.id.Some? ==> NoBreak(f.id.value) }

  lemma {:induction false} ParseGoodId(block: seq<string>, inList: bool, f: Fields)
    requires GoodId(f)
    ensures GoodId(ParseNotes(Notes(block), inList, f))
    decreases |block|
  {
    if block != [] {
      var note, rest := NoteOf(block[0]), Notes(block[1..]);
      assert Notes(block)[1..] == rest;
      if inList && note.item.Some? {
        ParseGoodId(block[1..], true, f.(more := f.more + [note.item.value]));
      } else {
        ParseGoodId(block[1..], note.change.ListBegins?, Learn(note.change, f));
      }
    }
  }

  lemma {:induction false} RecordGoodId(text: string)
    ensures RecordIn(text).Some? ==> GoodId(RecordIn(text).value)
  {
    var lines := ReadLines(text);
    match Bounds(lines)
    case None =>
    case Some((o, c)) => ParseGoodId(lines[o + 1..c], false, NOTHING);
  }

  lemma {:induction false} RecordsOneLine(files: Corpus, order: seq<Path>)
    requires OneLinePaths(order)
    ensures AllOneLine(Records(files, order))
  {
    if order != [] {
      RecordsOneLine(files, order[1..]);
      if order[0] in files {
        RecordGoodId(files[order[0]]);
      }
    }
  }

  lemma {:induction false} FateIsGood(a: Record, recs: seq<Record>)
    requires AllOneLine(recs)
    ensures GoodFate(FateOf(a, recs))
  {
    SuccessorIff(a, recs, 0);
    if Successor(a, recs).Some? {
      var k :| FirstContinuing(a, recs, k) && Successor(a, recs) == Some(recs[k]);
      assert NoBreak(NameOf(recs[k]));
    }
  }

  /** A visit keeps the record, and a later visit with the same records changes nothing. */
  lemma {:induction false} VisitedOnce(p: Path, text: string, recs: seq<Record>)
    requires AllOneLine(recs)
    ensures RecordIn(Visited(p, text, recs)) == RecordIn(text)
    ensures Visited(p, Visited(p, text, recs), recs) == Visited(p, text, recs)
  {
    if RecordIn(text).Some? {
      var a := Record(p, RecordIn(text).value);
      FateIsGood(a, recs);
      MigratedOnce(text, FateOf(a, recs), FateOf(a, recs));
    }
  }

  lemma {:induction false} SameRecords(files: Corpus, other: Corpus, order: seq<Path>)
    requires files.Keys == other.Keys && forall p :: p in files ==> RecordIn(other[p]) == RecordIn(files[p])
    ensures Records(other, order) == Records(files, order)
  {
    if order != [] {
      SameRecords(files, other, order[1..]);
    }
  }

  /** Every half-migrated corpus scans to the records of the original: ids, references and the
      duplicates to skip are the same, whatever has been visited. */
  lemma {:induction false} RecordsKept(files: Corpus, order: seq<Path>, visited: set<Path>)
    requires OneLinePaths(order)
    ensures Records(MigrateOnly(files, order, visited), order) == Records(files, order)
  {
    var mid := MigrateOnly(files, order, visited);
    forall p | p in files
      ensures RecordIn(mid[p]) == RecordIn(files[p])
    {
      AllIsStable(files, order, p);
    }
    SameRecords(files, mid, order);
  }

  /** Runs compose: migrating some files, stopping, and starting afresh on others, scanning the
      half-migrated corpus again, gives what one run over all of them gives. So a second run changes
      nothing, an interrupted run can be resumed, and the order of the visits does not matter. */
  lemma {:induction false} RunsCompose(files: Corpus, order: seq<Path>, first: set<Path>, second: set<Path>)
    requires OneLinePaths(order)
    ensures MigrateOnly(MigrateOnly(files, order, first), order, second) == MigrateOnly(files, order, first + second)
  {
    SameVisits(files, order, first);
    MixTwice(files, VisitAll(files, order), first, second);
  }

  /** A visit made from the half-migrated corpus leaves what a visit made at the start would have. */
  lemma {:induction false} SameVisits(files: Corpus, order: seq<Path>, first: set<Path>)
    requires OneLinePaths(order)
    ensures VisitAll(MigrateOnly(files, order, first), order) == VisitAll(files, order)
  {
    var mid := MigrateOnly(files, order, first);
    RecordsKept(files, order, first);
    forall p | p in files
      ensures VisitAll(mid, order)[p] == VisitAll(files, order)[p]
    {
      AllIsStable(files, order, p);
    }
  }

  lemma {:induction false} MixTwice(files: Corpus, now: Corpus, first: set<Path>, second: set<Path>)
    requires now.Keys == files.Keys
    ensures Mix(Mix(files, now, first), now, second) == Mix(files, now, first + second)
  {
  }

  /** Any sequence of runs, each stopped anywhere. */
  function Runs(files: Corpus, order: seq<Path>, runs: seq<set<Path>>): Corpus {
    if runs == [] then files else Runs(MigrateOnly(files, order, runs[0]), order, runs[1..])
  }

  function Union(runs: seq<set<Path>>): set<Path> {
    if runs == [] then {} else runs[0] + Union(runs[1..])
  }

  /** After any history of interrupted runs a file is either untouched or fully migrated, and which
      depends only on whether some run reached it. */
  lemma {:induction false} AnyHistory(files: Corpus, order: seq<Path>, runs: seq<set<Path>>)
    requires OneLinePaths(order)
    ensures Runs(files, order, runs) == MigrateOnly(files, order, Union(runs))
  {
    if runs == [] {
      assert MigrateOnly(files, order, {}) == files;
    } else {
      AnyHistory(MigrateOnly(files, order, runs[0]), order, runs[1..]);
      RunsCompose(files, order, runs[0], Union(runs[1..]));
    }
  }

  /** A live copy of an archived record is never touched, however many runs reach it. */
  lemma {:induction false} DuplicateStays(files: Corpus, order: seq<Path>, runs: seq<set<Path>>, p: Path)
    requires OneLinePaths(order) && p in files && RecordIn(files[p]).Some?
    requires Duplicate(Record(p, RecordIn(files[p]).value), Records(files, order))
    ensures p in Runs(files, order, runs) && Runs(files, order, runs)[p] == files[p]
  {
    AnyHistory(files, order, runs);
  }

  /** An abandoned line becomes `continued`, naming the earliest other record that refers back to
      this one, exactly when there is such a record; otherwise it becomes `closed` with reason stale. */
  lemma {:induction false} AbandonedBecomes(a: Record, recs: seq<Record>, line: string)
    requires RuleOf(Chomp(line)) == Abandoned
    ensures var r, e := Rewrite(line, FateOf(a, recs)), Ending(line);
            if exists k :: 0 <= k < |recs| && Continues(recs[k], a) then
              exists k :: FirstContinuing(a, recs, k) && r == ContinuedInto(NameOf(recs[k]), e)
            else r == ClosedStale(e)
  {
    SuccessorIff(a, recs, 0);
    if exists k :: 0 <= k < |recs| && Continues(recs[k], a) {
      var k :| FirstContinuing(a, recs, k) && Successor(a, recs) == Some(recs[k]);
      RewriteAbandoned(line, Some(NameOf(recs[k])));
    } else {
      RewriteAbandoned(line, None);
    }
  }

  function ContinuedInto(name: string, ending: string): seq<string> {
    [Field("deployment_state:", "continued") + ending, Field("continued_into:", name) + ending]
  }

  function ClosedStale(ending: string): seq<string> {
    [Field("deployment_state:", "closed") + ending, Field("closed_reason:", "stale") + ending, Provenance() + ending]
  }

  lemma {:induction false} RewriteAbandoned(line: string, fate: Fate)
    requires RuleOf(Chomp(line)) == Abandoned
    ensures Rewrite(line, fate) ==
            if fate.Some? then ContinuedInto(fate.value, Ending(line)) else ClosedStale(Ending(line))
  {
  }

  // ---------------------------------------------------------------- the run

  /** `find_successor`: records in scan order, then the references of each. */
  method FindSuccessor(a: Record, recs: seq<Record>) returns (r: Option<Record>)
    ensures r == Successor(a, recs)
  {
    var k := 0;
    while k < |recs|
      invariant k <= |recs| && Successor(a, recs) == Successor(a, recs, k)
    {
      if recs[k].path != a.path {
        var refs, i := References(recs[k].fields), 0;
        while i < |refs|
          invariant i <= |refs| && forall j :: 0 <= j < i ==> !NamesRecord(refs[j], a)
        {
          if NamesRecord(refs[i], a) {
            return Some(recs[k]);
          }
          i := i + 1;
        }
      }
      k := k + 1;
    }
    return None;
  }

  /** The record of one file, if it has frontmatter. */
  method ReadRecord(text: string) returns (r: Option<Fields>)
    ensures r == RecordIn(text)
  {
    var lines := ReadLines(text);
    var bounds := FrontmatterBounds(lines);
    if bounds.None? {
      return None;
    }
    var f := ParseRecord(lines[bounds.value.0 + 1..bounds.value.1]);
    return Some(f);
  }

  /** What `migrate_file` makes of a file's text, and whether it would write it. */
  method MigrateText(text: string, a: Record, recs: seq<Record>) returns (now: string, changed: bool)
    requires AllOneLine(recs)
    ensures now == Migrated(text, FateOf(a, recs)) && (changed <==> now != text)
  {
    FateIsGood(a, recs);
    ChangedIffWork(text, FateOf(a, recs));
    var lines := ReadLines(text);
    var bounds := FrontmatterBounds(lines);
    if bounds.None? {
      ConcatReadLines(text);
      return text, false;
    }
    var (o, c) := bounds.value;
    var successor := FindSuccessor(a, recs);
    var out, acted := RewriteBlock(lines[o + 1..c], if successor.Some? then Some(NameOf(successor.value)) else None);
    return if acted then Concat(WithBlock(lines, o, c, out)) else text, acted;
  }

  ghost predicate AllIn(paths: seq<Path>, files: Corpus) {
    forall i :: 0 <= i < |paths| ==> paths[i] in files
  }

  function PathsOf(visit: seq<Path>): (r: set<Path>)
    ensures forall p :: p in r <==> p in visit
  {
    set p | p in visit
  }

  /** The handoff files of one repository. */
  class HandoffStore {
    var files: Corpus

    /** The first loop: the records of all files, in scan order and by path. */
    method Scan(order: seq<Path>) returns (recs: seq<Record>, byPath: map<Path, Fields>)
      requires AllIn(order, files)
      ensures recs == Records(files, order) && Known(byPath, files, order)
    {
      var i := 0;
      recs, byPath := [], map[];
      while i < |order|
        invariant i <= |order|
        invariant recs == Records(files, order[..i]) && Known(byPath, files, order[..i])
      {
        var p := order[i];
        var r := ReadRecord(files[p]);
        ScanStep(files, order, i, r);
        KnownStep(byPath, files, order, i, r);
        recs := recs + Scanned(p, r);
        byPath := if r.Some? then byPath[p := r.value] else byPath;
        i := i + 1;
      }
      assert order[..|order|] == order;
    }

    /** `migrate_file`: rewrite the frontmatter unless nothing in it matches. */
    method MigrateFile(a: Record, recs: seq<Record>, dryRun: bool) returns (changed: bool)
      requires a.path in files && AllOneLine(recs)
      modifies this
      ensures var now := Migrated(old(files)[a.path], FateOf(a, recs));
              && files == (if dryRun then old(files) else old(files)[a.path := now])
              && (changed <==> now != old(files)[a.path])
    {
      var now;
      now, changed := MigrateText(files[a.path], a, recs);
      assert files == files[a.path := files[a.path]];
      if changed && !dryRun {
        files := files[a.path := now];
      }
    }

    /** What the second loop does with one file. */
    method Visit(p: Path, byPath: map<Path, Fields>, recs: seq<Record>, dryRun: bool) returns (changed: bool)
      requires p in files && AllOneLine(recs)
      requires RecordIn(files[p]) == if p in byPath then Some(byPath[p]) else None
      modifies this
      ensures var now := Visited(p, old(files)[p], recs);
              && files == (if dryRun then old(files) else old(files)[p := now])
              && (changed <==> now != old(files)[p])
    {
      changed := false;
      assert files == files[p := files[p]];
      if p in byPath {
        var a := Record(p, byPath[p]);
        if !Duplicate(a, recs) {
          changed := MigrateFile(a, recs, dryRun);
        }
      }
    }

    /** The same, seen from the corpus the run started with: whatever was visited before, the file is
        now as a visit at the start would have left it. */
    method VisitNext(p: Path, byPath: map<Path, Fields>, recs: seq<Record>, dryRun: bool,
                     ghost before: Corpus, ghost order: seq<Path>, ghost done: set<Path>) returns (changed: bool)
      requires p in before && p in order && OneLinePaths(order)
      requires recs == Records(before, order) && Known(byPath, before, order)
      requires files == if dryRun then before else Mix(before, VisitAll(before, order), done)
      modifies this
      ensures files == if dryRun then before else Mix(before, VisitAll(before, order), done + {p})
      ensures var now := VisitAll(before, order)[p];
              (changed ==> now != before[p]) && (p !in done && now != before[p] ==> changed)
    {
      AllIsStable(before, order, p);
      MixStep(before, VisitAll(before, order), done, p);
      changed := Visit(p, byPath, recs, dryRun);
    }

    /** The second loop, over any list of files. */
    method VisitFiles(visit: seq<Path>, byPath: map<Path, Fields>, recs: seq<Record>, dryRun: bool,
                      ghost order: seq<Path>) returns (changed: seq<Path>)
      requires OneLinePaths(order) && VisitsWithin(visit, order, files)
      requires recs == Records(files, order) && Known(byPath, files, order)
      modifies this
      ensures var now := MigrateOnly(old(files), order, PathsOf(visit));
              files == (if dryRun then old(files) else now) && Reports(changed, old(files), now)
    {
      ghost var before, now, done := files, VisitAll(files, order), {};
      assert Mix(before, now, {}) == before;
      changed := [];
      var i := 0;
      while i < |visit|
        invariant i <= |visit| && done == PathsOf(visit[..i])
        invariant files == if dryRun then before else Mix(before, now, done)
        invariant Reports(changed, before, Mix(before, now, done))
      {
        OneMore(visit, i);
        var hit := VisitNext(visit[i], byPath, recs, dryRun, before, order, done);
        ReportStep(changed, before, now, done, visit[i], hit);
        changed := if hit then changed + [visit[i]] else changed;
        done := done + {visit[i]};
        i := i + 1;
      }
      assert visit[..|visit|] == visit;
    }

    /** The whole run: scan every file, then visit the files. The visits may come in any order; a dry
        run writes nothing and reports exactly the files a real run would change. */
    method Migrate(order: seq<Path>, visit: seq<Path>, dryRun: bool) returns (changed: seq<Path>)
      requires OneLinePaths(order) && AllIn(order, files) && VisitsWithin(visit, order, files)
      modifies this
      ensures var now := MigrateOnly(old(files), order, PathsOf(visit));
              files == (if dryRun then old(files) else now) && Reports(changed, old(files), now)
    {
      var recs, byPath := Scan(order);
      changed := VisitFiles(visit, byPath, recs, dryRun, order);
    }
  }

  ghost predicate VisitsWithin(visit: seq<Path>, order: seq<Path>, files: Corpus) {
    forall i :: 0 <= i < |visit| ==> visit[i] in order && visit[i] in files
  }

  lemma {:induction false} OneMore(visit: seq<Path>, i: nat)
    requires i < |visit|
    ensures PathsOf(visit[..i + 1]) == PathsOf(visit[..i]) + {visit[i]}
  {
    assert visit[..i + 1] == visit[..i] + [visit[i]];
  }

  lemma {:induction false} MixStep(files: Corpus, now: Corpus, done: set<Path>, p: Path)
    requires p in files && now.Keys == files.Keys
    ensures Mix(files, now, done + {p}) == Mix(files, now, done)[p := now[p]]
  {
  }

  /** The paths reported are those whose text differs. */
  ghost predicate Reports(changed: seq<Path>, before: Corpus, now: Corpus)
    requires now.Keys == before.Keys
  {
    forall p :: p in changed <==> p in before && now[p] != before[p]
  }

  lemma {:induction false} ReportStep(changed: seq<Path>, before: Corpus, now: Corpus, done: set<Path>, p: Path, hit: bool)
    requires p in before && now.Keys == before.Keys && Reports(changed, before, Mix(before, now, done))
    requires (hit ==> now[p] != before[p]) && (p !in done && now[p] != before[p] ==> hit)
    ensures Reports(if hit then changed + [p] else changed, before, Mix(before, now, done + {p}))
  {
    MixStep(before, now, done, p);
  }

  ghost predicate Known(byPath: map<Path, Fields>, files: Corpus, order: seq<Path>) {
    && (forall p :: p in byPath ==> p in files && RecordIn(files[p]) == Some(byPath[p]))
    && (forall p :: p in files && p in order && p !in byPath ==> RecordIn(files[p]) == None)
  }

  function Scanned(p: Path, r: Option<Fields>): seq<Record> { if r.Some? then [Record(p, r.value)] else [] }

  lemma {:induction false} ScanStep(files: Corpus, order: seq<Path>, i: nat, r: Option<Fields>)
    requires i < |order| && order[i] in files && r == RecordIn(files[order[i]])
    ensures Records(files, order[..i + 1]) == Records(files, order[..i]) + Scanned(order[i], r)
  {
    RecordsAppend(files, order[..i], order[i]);
    assert order[..i + 1] == order[..i] + [order[i]];
  }

  lemma {:induction false} KnownStep(byPath: map<Path, Fields>, files: Corpus, order: seq<Path>, i: nat, r: Option<Fields>)
    requires i < |order| && order[i] in files && r == RecordIn(files[order[i]]) && Known(byPath, files, order[..i])
    ensures Known(if r.Some? then byPath[order[i] := r.value] else byPath, files, order[..i + 1])
  {
    var next := if r.Some? then byPath[order[i] := r.value] else byPath;
    forall p | p in files && p in order[..i + 1] && p !in next
      ensures RecordIn(files[p]) == None
    {
      assert p == order[i] || p in order[..i] by { assert order[..i + 1] == order[..i] + [order[i]]; }
    }
  }

  lemma {:induction false} RecordsAppend(files: Corpus, order: seq<Path>, p: Path)
    requires p in files
    ensures Records(files, order + [p]) == Records(files, order) + Scanned(p, RecordIn(files[p]))
  {
    if order == [] {
      assert order + [p] == [p];
    } else {
      RecordsAppend(files, order[1..], p);
      assert (order + [p])[1..] == order[1..] + [p];
    }
  }

  /** One visit settles a file: the record is kept and a further visit changes nothing. */
  lemma {:induction false} AllIsStable(files: Corpus, order: seq<Path>, p: Path)
    requires p in files && OneLinePaths(order)
    ensures var recs, now := Records(files, order), VisitAll(files, order)[p];
            && AllOneLine(recs)
            && now == Visited(p, files[p], recs) == Visited(p, now, recs)
            && RecordIn(now) == RecordIn(files[p])
  {
    RecordsOneLine(files, order);
    VisitedOnce(p, files[p], Records(files, order));
  }
}
