/** The commit facts cache: one candidate walk renders every commit's date and session trailer into one
    text, and the guards read them back instead of asking git once per commit. */
module CommitFacts {
  import opened Text
  import ShippedIn

  const US := '\U{1f}'
  const RS := '\U{1e}'

  /** What git holds for a commit: date and subject are single lines, the trailer as git prints it. */
  datatype Commit = Commit(sha: string, date: string, trailer: string, subject: string)

  /** `str.split(sep)` */
  function Split(s: string, sep: char): (r: seq<string>)
    ensures |r| > 0
  {
    if s == "" then [""]
    else
      var rest := Split(s[1..], sep);
      if s[0] == sep then [""] + rest else [[s[0]] + rest[0]] + rest[1..]
  }

  ghost predicate Without(s: string, sep: char) { forall i :: 0 <= i < |s| ==> s[i] != sep }

  lemma {:induction false} SplitNone(s: string, sep: char)
    requires Without(s, sep)
    ensures Split(s, sep) == [s]
  {
    if s != "" {
      SplitNone(s[1..], sep);
      assert [s[0]] + s[1..] == s;
    }
  }

  lemma {:induction false} SplitFirst(a: string, b: string, sep: char)
    requires Without(a, sep)
    ensures Split(a + ([sep] + b), sep) == [a] + Split(b, sep)
  {
    var s := a + ([sep] + b);
    if a == "" {
      assert s[1..] == b;
    } else {
      assert s[1..] == a[1..] + ([sep] + b);
      SplitFirst(a[1..], b, sep);
      assert [a[0]] + a[1..] == a;
    }
  }

  // ---------------------------------------------------------------- rendering

  function RecordOf(c: Commit): string { c.sha + ([US] + (c.date + ([US] + (c.trailer + ([US] + c.subject))))) }

  /** `git log --pretty=format:...`: each record ends in the record separator, and git puts a line feed
      between records. */
  function Render(commits: seq<Commit>): string {
    if commits == [] then ""
    else RecordOf(commits[0]) + ([RS] + if |commits| == 1 then "" else "\n" + Render(commits[1..]))
  }

  // ---------------------------------------------------------------- reading it back

  function StripBreaksL(s: string): string { if s != "" && IsBreak(s[0]) then StripBreaksL(s[1..]) else s }

  /** `record.strip("\r\n")` */
  function StripBreaks(s: string): string { Chomp(StripBreaksL(s)) }

  type Facts = map<string, (string, string)>

  /** One record: the candidate and its facts, unless it does not have four fields or has no id. */
  function ReadRecord(text: string): Option<Commit> {
    var record := StripBreaks(text);
    var fields := Split(record, US);
    if record == "" || |fields| != 4 || Strip(fields[0]) == "" then None
    else Some(Commit(Strip(fields[0]), Strip(fields[1]), fields[2], fields[3]))
  }

  /** The values of those that have one. */
  function Somes<T>(rs: seq<Option<T>>): seq<T> {
    if rs == [] then [] else var n := |rs| - 1; Somes(rs[..n]) + AsList(rs[n])
  }

  function AsList<T>(r: Option<T>): seq<T> { if r.Some? then [r.value] else [] }

  function Reads(texts: seq<string>): (rs: seq<Option<Commit>>)
    ensures |rs| == |texts| && forall i :: 0 <= i < |rs| ==> rs[i] == ReadRecord(texts[i])
  {
    seq(|texts|, i requires 0 <= i < |texts| => ReadRecord(texts[i]))
  }

  function ReadAll(texts: seq<string>): seq<Commit> { Somes(Reads(texts)) }

  function FactsOf(read: seq<Commit>): Facts {
    if read == [] then map[]
    else var n := |read| - 1; FactsOf(read[..n])[read[n].sha := (read[n].date, read[n].trailer)]
  }

  /** `_scope_commit_candidates`: the candidates, and the facts filled on the way. */
  method ReadCandidates(stdout: string) returns (candidates: seq<(string, string)>, facts: Facts)
    ensures Filled(candidates, facts, ReadAll(Split(stdout, RS)))
  {
    var texts, i := Split(stdout, RS), 0;
    candidates, facts := [], map[];
    ghost var rs := Reads(texts);
    ghost var read: seq<Commit> := [];
    while i < |texts|
      invariant i <= |texts| == |rs| && read == Somes(rs[..i]) && Filled(candidates, facts, read)
    {
      var r := ReadRecord(texts[i]);
      SomesStep(rs, i);
      if r.Some? {
        FilledStep(candidates, facts, read, r.value);
        candidates := candidates + [(r.value.sha, r.value.subject)];
        facts := facts[r.value.sha := (r.value.date, r.value.trailer)];
        read := read + [r.value];
      }
      i := i + 1;
    }
    assert rs[..|texts|] == rs;
  }

  lemma {:induction false} SomesStep<T>(rs: seq<Option<T>>, i: nat)
    requires i < |rs|
    ensures Somes(rs[..i + 1]) == if rs[i].Some? then Somes(rs[..i]) + [rs[i].value] else Somes(rs[..i])
  {
    assert rs[..i + 1][..i] == rs[..i];
  }

  /** The candidates and the facts of what was read. */
  ghost predicate Filled(candidates: seq<(string, string)>, facts: Facts, read: seq<Commit>) {
    && facts == FactsOf(read)
    && |candidates| == |read| && forall k :: 0 <= k < |read| ==> candidates[k] == (read[k].sha, read[k].subject)
  }

  lemma {:induction false} FilledStep(candidates: seq<(string, string)>, facts: Facts, read: seq<Commit>, c: Commit)
    requires Filled(candidates, facts, read)
    ensures Filled(candidates + [(c.sha, c.subject)], facts[c.sha := (c.date, c.trailer)], read + [c])
  {
    assert (read + [c])[..|read|] == read;
  }

  // ---------------------------------------------------------------- the walk reads what git holds

  /** What git vouches for: an id without whitespace, a date without surrounding whitespace, a subject
      on one line. */
  ghost predicate Framed(c: Commit) {
    c.sha != "" && NoSpace(c.sha) && Strip(c.date) == c.date && NoBreak(c.subject)
  }

  ghost predicate NoSeparator(c: Commit, sep: char) {
    Without(c.sha, sep) && Without(c.date, sep) && Without(c.trailer, sep) && Without(c.subject, sep)
  }

  /** Framed, and without the record separator. */
  ghost predicate Whole(c: Commit) { Framed(c) && NoSeparator(c, RS) }

  ghost predicate AllFramed(commits: seq<Commit>) { forall i :: 0 <= i < |commits| ==> Framed(commits[i]) }

  ghost predicate AllWhole(commits: seq<Commit>) { forall i :: 0 <= i < |commits| ==> Whole(commits[i]) }

  lemma {:induction false} ChompNoBreak(s: string)
    requires s != "" && !IsBreak(s[|s| - 1])
    ensures Chomp(s) == s
  {
  }

  lemma {:induction false} RecordEnds(c: Commit)
    requires Framed(c)
    ensures var r := RecordOf(c);
            r != "" && !IsBreak(r[0]) && !IsBreak(r[|r| - 1]) && (NoSeparator(c, RS) ==> Without(r, RS))
  {
    var r := RecordOf(c);
    assert r[0] == c.sha[0] && !IsSpace(c.sha[0]);
    var tail := c.trailer + ([US] + c.subject);
    assert r[|r| - 1] == tail[|tail| - 1];
    assert tail[|tail| - 1] == if c.subject == "" then US else c.subject[|c.subject| - 1];
  }

  lemma {:induction false} FieldsOf(c: Commit)
    requires NoSeparator(c, US)
    ensures Split(RecordOf(c), US) == [c.sha, c.date, c.trailer, c.subject]
  {
    SplitNone(c.subject, US);
    SplitFirst(c.trailer, c.subject, US);
    SplitFirst(c.date, c.trailer + ([US] + c.subject), US);
    SplitFirst(c.sha, c.date + ([US] + (c.trailer + ([US] + c.subject))), US);
  }

  lemma {:induction false} SplitJoin(a: string, b: string, sep: char)
    ensures |Split(a + ([sep] + b), sep)| == |Split(a, sep)| + |Split(b, sep)|
  {
    var s := a + ([sep] + b);
    if a == "" {
      assert s[1..] == b;
    } else {
      assert s[1..] == a[1..] + ([sep] + b);
      SplitJoin(a[1..], b, sep);
    }
  }

  lemma {:induction false} SplitOne(s: string, sep: char)
    ensures |Split(s, sep)| == 1 <==> Without(s, sep)
  {
    if s != "" {
      SplitOne(s[1..], sep);
      assert Without(s, sep) <==> s[0] != sep && Without(s[1..], sep) by {
        assert forall i :: 0 <= i < |s[1..]| ==> s[1..][i] == s[i + 1];
        assert Without(s, sep) ==> Without(s[1..], sep);
      }
    }
  }

  /** A record has four fields exactly when none of them holds the field separator. */
  lemma {:induction false} FourFields(c: Commit)
    ensures |Split(RecordOf(c), US)| == 4 <==> NoSeparator(c, US)
  {
    SplitJoin(c.sha, c.date + ([US] + (c.trailer + ([US] + c.subject))), US);
    SplitJoin(c.date, c.trailer + ([US] + c.subject), US);
    SplitJoin(c.trailer, c.subject, US);
    SplitOne(c.sha, US);
    SplitOne(c.date, US);
    SplitOne(c.trailer, US);
    SplitOne(c.subject, US);
  }

  lemma {:induction false} StripNoSpace(s: string)
    requires s != "" && NoSpace(s)
    ensures Strip(s) == s
  {
  }

  lemma {:induction false} RecordStripped(c: Commit, front: string)
    requires Framed(c) && (front == "" || front == "\n")
    ensures StripBreaks(front + RecordOf(c)) == RecordOf(c) != ""
  {
    var r := RecordOf(c);
    RecordEnds(c);
    assert StripBreaksL(r) == r;
    assert front == "\n" ==> (front + r)[1..] == r;
    assert front == "" ==> front + r == r;
    assert StripBreaksL(front + r) == r;
    ChompNoBreak(r);
  }

  /** A record comes back as the commit it was made from, or is dropped for a field separator, with or
      without the line feed git puts in front of it. */
  lemma {:induction false} RecordReads(c: Commit, front: string)
    requires Framed(c) && (front == "" || front == "\n")
    ensures ReadRecord(front + RecordOf(c)) == if NoSeparator(c, US) then Some(c) else None
  {
    RecordStripped(c, front);
    FourFields(c);
    if NoSeparator(c, US) {
      FieldsOf(c);
      StripNoSpace(c.sha);
    }
  }

  /** The texts the record separator splits the rendering into. */
  function Texts(commits: seq<Commit>, front: string): seq<string> {
    if commits == [] then [""] else [front + RecordOf(commits[0])] + Texts(commits[1..], "\n")
  }

  lemma {:induction false} SplitRender(commits: seq<Commit>, front: string)
    requires AllWhole(commits) && commits != [] && (front == "" || front == "\n")
    ensures Split(front + Render(commits), RS) == Texts(commits, front)
    decreases |commits|
  {
    var r := RecordOf(commits[0]);
    var rest := if |commits| == 1 then "" else "\n" + Render(commits[1..]);
    RecordEnds(commits[0]);
    Assoc(front, r, [RS] + rest);
    SplitFirst(front + r, rest, RS);
    if |commits| == 1 {
      assert Texts(commits[1..], "\n") == [""];
    } else {
      SplitRender(commits[1..], "\n");
    }
  }

  lemma {:induction false} SomesCons<T>(r: Option<T>, rs: seq<Option<T>>)
    ensures Somes([r] + rs) == AsList(r) + Somes(rs)
    decreases |rs|
  {
    var all, n := [r] + rs, |rs|;
    if rs == [] {
      assert all[..0] == [] && Somes(all[..0]) == [];
    } else {
      SomesCons(r, rs[..n - 1]);
      assert all[..n] == [r] + rs[..n - 1];
      Assoc(AsList(r), Somes(rs[..n - 1]), AsList(rs[n - 1]));
    }
  }

  lemma {:induction false} ReadCons(text: string, texts: seq<string>)
    ensures ReadAll([text] + texts) == AsList(ReadRecord(text)) + ReadAll(texts)
  {
    SomesCons(ReadRecord(text), Reads(texts));
    assert Reads([text] + texts) == [ReadRecord(text)] + Reads(texts);
  }

  /** The commits without a field separator. */
  ghost function Undropped(commits: seq<Commit>): seq<Commit> {
    if commits == [] then []
    else (if NoSeparator(commits[0], US) then [commits[0]] else []) + Undropped(commits[1..])
  }

  lemma {:induction false} ReadNothing()
    ensures ReadAll([""]) == []
  {
    assert [""] == [""] + [];
    ReadCons("", []);
    assert StripBreaks("") == "";
  }

  lemma {:induction false} ReadTexts(commits: seq<Commit>, front: string)
    requires AllWhole(commits) && (front == "" || front == "\n")
    ensures ReadAll(Texts(commits, front)) == Undropped(commits)
    decreases |commits|
  {
    if commits == [] {
      ReadNothing();
    } else {
      RecordReads(commits[0], front);
      ReadTexts(commits[1..], "\n");
      ReadCons(front + RecordOf(commits[0]), Texts(commits[1..], "\n"));
    }
  }

  /** The commits the walk sees. */
  function Walk(commits: seq<Commit>): seq<Commit> { ReadAll(Split(Render(commits), RS)) }

  /** Without record separators the walk reads back the rendered commits in order, but for those a field
      separator drops. */
  lemma {:induction false} WalkReads(commits: seq<Commit>)
    requires AllWhole(commits)
    ensures Walk(commits) == Undropped(commits)
  {
    if commits == [] {
      ReadNothing();
    } else {
      SplitRender(commits, "");
      assert "" + Render(commits) == Render(commits);
      ReadTexts(commits, "");
    }
  }

  ghost predicate AllPlain(commits: seq<Commit>) {
    forall i :: 0 <= i < |commits| ==> NoSeparator(commits[i], US) && NoSeparator(commits[i], RS)
  }

  lemma {:induction false} NoneDropped(commits: seq<Commit>)
    requires AllPlain(commits)
    ensures Undropped(commits) == commits
  {
    if commits != [] {
      NoneDropped(commits[1..]);
    }
  }

  ghost predicate AllWithout(texts: seq<string>, sep: char) { forall i :: 0 <= i < |texts| ==> Without(texts[i], sep) }

  lemma {:induction false} PiecesWithout(s: string, sep: char, other: char)
    ensures AllWithout(Split(s, sep), sep)
    ensures Without(s, other) ==> AllWithout(Split(s, sep), other)
  {
    if s != "" {
      PiecesWithout(s[1..], sep, other);
    }
  }

  lemma {:induction false} StripWithin(s: string, sep: char)
    requires Without(s, sep)
    ensures Without(Strip(s), sep) && Without(StripBreaks(s), sep)
  {
    StripPart(s);
    var t := StripBreaksL(s);
    BreaksPart(s);
  }

  lemma {:induction false} StripPart(s: string)
    ensures forall i :: 0 <= i < |Strip(s)| ==> Strip(s)[i] in s
  {
    LStripPart(s);
    RStripPart(LStrip(s));
  }

  lemma {:induction false} LStripPart(s: string)
    ensures forall i :: 0 <= i < |LStrip(s)| ==> LStrip(s)[i] in s
  {
    if s != "" && IsSpace(s[0]) { LStripPart(s[1..]); }
  }

  lemma {:induction false} RStripPart(s: string)
    ensures forall i :: 0 <= i < |RStrip(s)| ==> RStrip(s)[i] in s
  {
    if s != "" && IsSpace(s[|s| - 1]) { RStripPart(s[..|s| - 1]); }
  }

  lemma {:induction false} BreaksPart(s: string)
    ensures forall i :: 0 <= i < |StripBreaksL(s)| ==> StripBreaksL(s)[i] in s
  {
    if s != "" && IsBreak(s[0]) { BreaksPart(s[1..]); }
  }

  lemma {:induction false} RecordPlain(text: string)
    requires Without(text, RS) && ReadRecord(text).Some?
    ensures var c := ReadRecord(text).value; NoSeparator(c, US) && NoSeparator(c, RS)
  {
    var record := StripBreaks(text);
    StripWithin(text, RS);
    PiecesWithout(record, US, RS);
    var fields := Split(record, US);
    StripWithin(fields[0], US);
    StripWithin(fields[0], RS);
    StripWithin(fields[1], US);
    StripWithin(fields[1], RS);
  }

  lemma {:induction false} SomesPlain(rs: seq<Option<Commit>>)
    requires forall i :: 0 <= i < |rs| && rs[i].Some? ==> NoSeparator(rs[i].value, US) && NoSeparator(rs[i].value, RS)
    ensures AllPlain(Somes(rs))
  {
    if rs != [] {
      SomesPlain(rs[..|rs| - 1]);
    }
  }

  /** What is read holds no separator of either kind. */
  lemma {:induction false} ReadPlain(texts: seq<string>)
    requires AllWithout(texts, RS)
    ensures AllPlain(ReadAll(texts))
  {
    var rs := Reads(texts);
    forall i | 0 <= i < |rs| && rs[i].Some?
      ensures NoSeparator(rs[i].value, US) && NoSeparator(rs[i].value, RS)
    {
      RecordPlain(texts[i]);
    }
    SomesPlain(rs);
  }

  /** The walk reads back exactly the commits git rendered, in order, if and only if no field of theirs
      holds a separator. */
  lemma {:induction false} WalkRoundTrip(commits: seq<Commit>)
    requires AllFramed(commits)
    ensures Walk(commits) == commits <==> AllPlain(commits)
  {
    if AllPlain(commits) {
      WalkReads(commits);
      NoneDropped(commits);
    } else {
      PiecesWithout(Render(commits), RS, RS);
      ReadPlain(Split(Render(commits), RS));
    }
  }

  // ---------------------------------------------------------------- the guards, cached or not

  type History = map<string, Commit>
  type Clock = string -> Option<real>

  /** `_commit_committer_date`: from the cache if the walk saw the commit, else from git, which ends its
      line with a line feed. */
  function CommitDate(iso: Clock, git: History, sha: string, facts: Facts): Option<real> {
    if sha in facts then iso(Strip(facts[sha].0))
    else if sha in git then iso(Strip(git[sha].date + "\n"))
    else None
  }

  predicate IsHexDigit(c: char) { '0' <= c <= '9' || 'a' <= c <= 'f' || 'A' <= c <= 'F' }

  /** The shape a session id must have to count. */
  predicate SessionShaped(s: string) {
    && |s| >= 3 && IsHexDigit(s[0]) && IsHexDigit(s[|s| - 1])
    && forall i :: 0 <= i < |s| ==> IsHexDigit(s[i]) || s[i] == '-'
  }

  function SessionFrom(text: string): Option<string> {
    var sid := StripBreaks(Strip(text));
    if SessionShaped(sid) then Some(sid) else None
  }

  /** `_commit_session_id` */
  function CommitSession(git: History, sha: string, facts: Facts): Option<string> {
    if sha in facts then SessionFrom(facts[sha].1)
    else if sha in git then SessionFrom(git[sha].trailer + "\n")
    else None
  }

  /** `_scope_sha_postdates_trigger`: an unreadable date on either side objects. */
  predicate Postdates(iso: Clock, git: History, sha: string, notAfter: string, facts: Facts) {
    notAfter != "" &&
    (iso(Strip(notAfter)).None? || CommitDate(iso, git, sha, facts).None?
     || CommitDate(iso, git, sha, facts).value > iso(Strip(notAfter)).value)
  }

  /** `_scope_sha_predates_creation` */
  predicate Predates(iso: Clock, git: History, sha: string, created: string, facts: Facts) {
    created != "" &&
    (iso(Strip(created)).None? || CommitDate(iso, git, sha, facts).None?
     || CommitDate(iso, git, sha, facts).value < iso(Strip(created)).value)
  }

  /** `_ownership_block_reason`: whatever is not established as the caller's own objects. */
  predicate Unowned(git: History, sha: string, caller: string, facts: Facts) {
    caller == "" || CommitSession(git, sha, facts) != Some(caller)
  }

  ghost predicate From(git: History, commits: seq<Commit>) {
    forall i :: 0 <= i < |commits| ==> commits[i].sha in git && git[commits[i].sha] == commits[i]
  }

  lemma {:induction false} FactsAreTrue(git: History, commits: seq<Commit>, sha: string)
    requires From(git, commits) && sha in FactsOf(commits)
    ensures sha in git && FactsOf(commits)[sha] == (git[sha].date, git[sha].trailer)
  {
    var n := |commits| - 1;
    if commits[n].sha != sha {
      FactsAreTrue(git, commits[..n], sha);
    }
  }

  lemma {:induction false} StripLineFeed(s: string)
    ensures Strip(s + "\n") == Strip(s)
  {
    var t := s + "\n";
    if s == "" {
      assert t[1..] == "";
    } else if IsSpace(s[0]) {
      assert t[1..] == s[1..] + "\n";
      StripLineFeed(s[1..]);
    } else {
      assert t[..|s|] == s;
    }
  }

  /** The facts the walk leaves behind. */
  function WalkFacts(commits: seq<Commit>): Facts { FactsOf(Walk(commits)) }

  lemma {:induction false} UndroppedFrom(git: History, commits: seq<Commit>)
    requires From(git, commits)
    ensures From(git, Undropped(commits))
  {
    if commits != [] {
      UndroppedFrom(git, commits[1..]);
    }
  }

  /** For every commit, seen by the walk or not, the cache and a question to git agree: a field separator
      only sends the question to git. */
  lemma {:induction false} CacheAgrees(iso: Clock, git: History, commits: seq<Commit>, sha: string)
    requires AllWhole(commits) && From(git, commits)
    ensures CommitDate(iso, git, sha, WalkFacts(commits)) == CommitDate(iso, git, sha, map[])
    ensures CommitSession(git, sha, WalkFacts(commits)) == CommitSession(git, sha, map[])
  {
    WalkReads(commits);
    UndroppedFrom(git, commits);
    if sha in WalkFacts(commits) {
      FactsAreTrue(git, Undropped(commits), sha);
      StripLineFeed(git[sha].date);
      StripLineFeed(git[sha].trailer);
    }
  }

  /** So every guard gives the same verdict with the cache as without. */
  lemma {:induction false} GuardsAgree(iso: Clock, git: History, commits: seq<Commit>, sha: string,
                                       notAfter: string, created: string, caller: string)
    requires AllWhole(commits) && From(git, commits)
    ensures Postdates(iso, git, sha, notAfter, WalkFacts(commits)) <==> Postdates(iso, git, sha, notAfter, map[])
    ensures Predates(iso, git, sha, created, WalkFacts(commits)) <==> Predates(iso, git, sha, created, map[])
    ensures Unowned(git, sha, caller, WalkFacts(commits)) <==> Unowned(git, sha, caller, map[])
  {
    CacheAgrees(iso, git, commits, sha);
  }

  /** A record separator is different: what follows it in a subject is read as a record of its own, and
      the cache answers for that commit with a date and a session that git does not hold. */
  lemma {:induction false} SubjectReadAsRecord(iso: Clock, git: History, a: Commit, b: Commit, pre: string)
    requires Whole(a.(subject := pre)) && Framed(b) && NoSeparator(b, US) && NoSeparator(b, RS)
    requires a.subject == pre + ([RS] + RecordOf(b))
    ensures b.sha in WalkFacts([a]) && WalkFacts([a])[b.sha] == (b.date, b.trailer)
    ensures CommitDate(iso, git, b.sha, WalkFacts([a])) == iso(b.date)
    ensures CommitSession(git, b.sha, WalkFacts([a])) == SessionFrom(b.trailer)
  {
    WalkEndsIn(a, b, pre);
  }

  lemma {:induction false} WalkEndsIn(a: Commit, b: Commit, pre: string)
    requires Whole(a.(subject := pre)) && Framed(b) && NoSeparator(b, US) && NoSeparator(b, RS)
    requires a.subject == pre + ([RS] + RecordOf(b))
    ensures Walk([a]) != [] && Walk([a])[|Walk([a])| - 1] == b
  {
    var first := a.(subject := pre);
    TwoTexts(a, b, pre);
    RecordReads(b, "");
    assert "" + RecordOf(b) == RecordOf(b);
    ReadNothing();
    LastOfThree(RecordOf(first), RecordOf(b), "", b);
  }

  lemma {:induction false} LastOfThree(s: string, t: string, u: string, b: Commit)
    requires ReadRecord(t) == Some(b) && ReadAll([u]) == []
    ensures var read := ReadAll([s, t, u]); read != [] && read[|read| - 1] == b
  {
    ReadCons(t, [u]);
    assert [t] + [u] == [t, u];
    ReadCons(s, [t, u]);
    assert [s] + [t, u] == [s, t, u];
  }

  /** So with such a subject the cache and git disagree: on the date of a commit git does not have, on its
      session, and on whether its session's owner may stamp it. */
  lemma {:induction false} CacheDisagrees(iso: Clock, git: History, a: Commit, b: Commit, pre: string)
    requires Whole(a.(subject := pre)) && Framed(b) && NoSeparator(b, US) && NoSeparator(b, RS)
    requires a.subject == pre + ([RS] + RecordOf(b))
    requires From(git, [a]) && b.sha !in git && iso(b.date).Some? && SessionFrom(b.trailer).Some?
    ensures CommitDate(iso, git, b.sha, WalkFacts([a])) != CommitDate(iso, git, b.sha, map[])
    ensures CommitSession(git, b.sha, WalkFacts([a])) != CommitSession(git, b.sha, map[])
    ensures var owner := SessionFrom(b.trailer).value;
            !Unowned(git, b.sha, owner, WalkFacts([a])) && Unowned(git, b.sha, owner, map[])
  {
    SubjectReadAsRecord(iso, git, a, b, pre);
  }

  lemma {:induction false} TwoTexts(a: Commit, b: Commit, pre: string)
    requires Whole(a.(subject := pre)) && Whole(b) && a.subject == pre + ([RS] + RecordOf(b))
    ensures Split(Render([a]), RS) == [RecordOf(a.(subject := pre)), RecordOf(b), ""]
  {
    var first, rest := RecordOf(a.(subject := pre)), RecordOf(b) + ([RS] + "");
    RecordEnds(a.(subject := pre));
    RecordEnds(b);
    RecordTail(a, pre, [RS] + RecordOf(b));
    assert Render([a]) == first + ([RS] + rest);
    SplitFirst(first, rest, RS);
    SplitFirst(RecordOf(b), "", RS);
  }

  lemma {:induction false} RecordTail(a: Commit, pre: string, more: string)
    requires a.subject == pre + more
    ensures RecordOf(a) == RecordOf(a.(subject := pre)) + more
  {
    var t := [US] + pre;
    var u := a.trailer + t;
    Assoc([US], pre, more);
    Assoc(a.trailer, t, more);
    Assoc([US], u, more);
    Assoc(a.date, [US] + u, more);
    Assoc([US], a.date + ([US] + u), more);
    Assoc(a.sha, [US] + (a.date + ([US] + u)), more);
  }

  // ---------------------------------------------------------------- the stamp decision

  /** The guards of a stamp call, reading dates and sessions through `facts`. */
  function GuardsFrom(iso: Clock, git: History, uncommitted: bool, notAfter: string, created: string, caller: string,
                      facts: Facts): ShippedIn.Guards {
    ShippedIn.Guards(
      uncommitted,
      sha => Postdates(iso, git, sha, notAfter, facts),
      sha => Predates(iso, git, sha, created, facts),
      sha => Unowned(git, sha, caller, facts))
  }

  /** A stamp call decides the same with the facts of its own walk as by asking git per commit. */
  lemma {:induction false} DecisionAgrees(iso: Clock, git: History, commits: seq<Commit>, c: ShippedIn.Call, w: ShippedIn.World,
                                          notAfter: string, created: string, caller: string)
    requires AllWhole(commits) && From(git, commits)
    ensures var cached := GuardsFrom(iso, git, w.guards.uncommitted, notAfter, created, caller, WalkFacts(commits));
            var asked := GuardsFrom(iso, git, w.guards.uncommitted, notAfter, created, caller, map[]);
            ShippedIn.Decide(c, w.(guards := cached)) == ShippedIn.Decide(c, w.(guards := asked))
  {
    var cached := GuardsFrom(iso, git, w.guards.uncommitted, notAfter, created, caller, WalkFacts(commits));
    var asked := GuardsFrom(iso, git, w.guards.uncommitted, notAfter, created, caller, map[]);
    forall sha
      ensures cached.postdates(sha) == asked.postdates(sha)
      ensures cached.predates(sha) == asked.predates(sha)
      ensures cached.unowned(sha) == asked.unowned(sha)
    {
      GuardsAgree(iso, git, commits, sha, notAfter, created, caller);
    }
    ShippedIn.GuardsOnlyRefuse(c, w.(guards := cached), asked);
    ShippedIn.GuardsOnlyRefuse(c, w.(guards := asked), cached);
  }
}
