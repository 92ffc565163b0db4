/** The handoff-vocabulary migration: frontmatter lines of every record rewritten in place, with
    the fate of an abandoned record decided by the rest of the corpus. */
module CorpusMigration {
  import opened Text

  // ---------------------------------------------------------------- line patterns

  /** The text after `key` on a line that starts with it. */
  function After(key: string, s: string): Option<string> {
    if |key| <= |s| && s[..|key|] == key then Some(s[|key|..]) else None
  }

  /** `^key\s*(\S+)\s*$`: the single token that is the whole value. */
  function Token(key: string, s: string): Option<string> {
    match After(key, s)
    case None => None
    case Some(rest) => if Strip(rest) != "" && NoSpace(Strip(rest)) then Some(Strip(rest)) else None
  }

  /** `^\s*-\s*(.*)$` */
  function ListItem(s: string): Option<string> {
    var t := LStrip(s);
    if t != "" && t[0] == '-' then Some(LStrip(t[1..])) else None
  }

  /** `^handoff_id:\s*"?([^"\s]+)"?\s*$` */
  function HandoffId(s: string): (r: Option<string>)
    ensures r.Some? ==> r.value != "" && NoSpace(r.value)
  {
    match After("handoff_id:", s)
    case None => None
    case Some(rest) =>
      var t := Strip(rest);
      var u := if t != "" && t[0] == '"' then t[1..] else t;
      var v := if u != "" && u[|u| - 1] == '"' then u[..|u| - 1] else u;
      if v != "" && NoSpace(v) && (forall i :: 0 <= i < |v| ==> v[i] != '"') then Some(v) else None
  }

  function StripQuotes(value: string): string {
    var v := Strip(value);
    if |v| >= 2 && v[0] == v[|v| - 1] && (v[0] == '"' || v[0] == '\'') then v[1..|v| - 1] else v
  }

  predicate ListStart(s: string) {
    After("additional_predecessors:", s).Some? && Strip(After("additional_predecessors:", s).value) == ""
  }

  predicate Delimiter(line: string) { Chomp(line) == "---" }

  // ---------------------------------------------------------------- rewriting one line

  /** What an abandoned record turns into: the record that continues it, if any. */
  type Fate = Option<string>

  datatype Rule = Open | Claimed | ClaimedAt(rest: string) | ClaimedBy(rest: string) | Abandoned | Keep

  /** The first rule that matches a line with contents `s`. */
  function RuleOf(s: string): Rule {
    if Token("status:", s) == Some("active") then Open
    else if Token("status:", s) == Some("consumed") then Claimed
    else if After("consumed_at:", s).Some? then ClaimedAt(After("consumed_at:", s).value)
    else if After("consumed_by:", s).Some? then ClaimedBy(After("consumed_by:", s).value)
    else if Token("deployment_state:", s) == Some("abandoned") then Abandoned
    else Keep
  }

  const MIGRATION_DATE := "2026-07-22"

  function Field(key: string, value: string): string { key + " " + value }

  /** The comment left beside a record that was closed for want of a successor. */
  function Provenance(): string {
    "# migration: DR-084" + " C8 re-expression " + MIGRATION_DATE + " (was: abandoned)"
  }

  /** The contents a rule writes in place of the line. */
  function Written(rule: Rule, fate: Fate): seq<string> {
    match rule
    case Open => [Field("status:", "open")]
    case Claimed => [Field("status:", "claimed")]
    case ClaimedAt(rest) => ["claimed_at:" + rest]
    case ClaimedBy(rest) => ["claimed_by:" + rest]
    case Abandoned =>
      if fate.Some? then [Field("deployment_state:", "continued"), Field("continued_into:", fate.value)]
      else [Field("deployment_state:", "closed"), Field("closed_reason:", "stale"), Provenance()]
    case Keep => []
  }

  predicate Matched(line: string) { RuleOf(Chomp(line)) != Keep }

  function WithEnding(contents: seq<string>, ending: string): (r: seq<string>)
    ensures |r| == |contents|
    ensures forall i :: 0 <= i < |r| ==> r[i] == contents[i] + ending
  {
    seq(|contents|, i requires 0 <= i < |contents| => contents[i] + ending)
  }

  function Rewrite(line: string, fate: Fate): seq<string> {
    if Matched(line) then WithEnding(Written(RuleOf(Chomp(line)), fate), Ending(line)) else [line]
  }

  function RewriteAll(lines: seq<string>, fate: Fate): seq<string> {
    if lines == [] then [] else Rewrite(lines[0], fate) + RewriteAll(lines[1..], fate)
  }

  // ---------------------------------------------------------------- new lines are inert

  /** A line the parser learns nothing from. */
  predicate Neutral(s: string) {
    After("predecessor:", s).None? && HandoffId(s).None? && !ListStart(s) && ListItem(s).None?
  }

  predicate SettledStatus(s: string) {
    Token("status:", s) != Some("active") && Token("status:", s) != Some("consumed")
  }

  predicate SettledDeployment(s: string) { Token("deployment_state:", s) != Some("abandoned") }

  /** Contents that start in one of the ways the rules write, and carry no line break. */
  predicate Inert(s: string) {
    && s != "" && NoBreak(s)
    && (|| s[0] == '#'
        || (|s| > 1 && s[0] == 'c' && s[1] == 'l')
        || (|s| > 3 && s[0] == 'c' && s[1] == 'o' && s[2] == 'n' && s[3] == 't')
        || (s[0] == 's' && SettledStatus(s))
        || (s[0] == 'd' && SettledDeployment(s)))
  }

  ghost predicate AllInert(contents: seq<string>) {
    forall i :: 0 <= i < |contents| ==> Inert(contents[i])
  }

  lemma {:induction false} Differs(key: string, s: string, i: nat)
    requires i < |key| && i < |s| && key[i] != s[i]
    ensures After(key, s).None?
  {
    if |key| <= |s| {
      assert s[..|key|][i] == s[i];
    }
  }

  /** What is inert matches no rule again, tells the parser nothing and delimits nothing. */
  lemma {:induction false} InertMeans(s: string)
    requires Inert(s)
    ensures RuleOf(s) == Keep && Neutral(s) && s != "---"
  {
    Differs("predecessor:", s, 0);
    Differs("handoff_id:", s, 0);
    Differs("additional_predecessors:", s, 0);
    if s[0] != 's' { Differs("status:", s, 0); }
    if s[0] != 'd' { Differs("deployment_state:", s, 0); }
    NotConsumed(s);
  }

  lemma {:induction false} NotConsumed(s: string)
    requires s != "" && (s[0] != 'c' || (|s| > 1 && s[1] == 'l') || (|s| > 3 && s[3] == 't'))
    ensures After("consumed_at:", s).None? && After("consumed_by:", s).None?
  {
    var i := if s[0] != 'c' then 0 else if |s| > 1 && s[1] == 'l' then 1 else 3;
    Differs("consumed_at:", s, i);
    Differs("consumed_by:", s, i);
  }

  lemma {:induction false} KeyValue(key: string, value: string)
    requires key != "" && NoBreak(key) && value != "" && NoSpace(value)
    ensures Token(key, Field(key, value)) == Some(value)
    ensures Field(key, value)[0] == key[0] && NoBreak(Field(key, value))
  {
    var s := Field(key, value);
    assert s[..|key|] == key && s[|key|..] == " " + value;
    assert LStrip(" " + value) == LStrip(value) by { assert (" " + value)[1..] == value; }
  }

  lemma {:induction false} InertStatus(value: string)
    requires value == "open" || value == "claimed"
    ensures Inert(Field("status:", value))
  {
    KeyValue("status:", value);
  }

  lemma {:induction false} InertDeployment(value: string)
    requires value == "continued" || value == "closed"
    ensures Inert(Field("deployment_state:", value))
  {
    KeyValue("deployment_state:", value);
  }

  ghost predicate GoodFate(fate: Fate) { fate.Some? ==> NoBreak(fate.value) }

  ghost predicate GoodRule(rule: Rule) {
    && (rule.ClaimedAt? ==> NoBreak(rule.rest))
    && (rule.ClaimedBy? ==> NoBreak(rule.rest))
  }

  /** Everything a rule writes is inert. */
  lemma {:induction false} WrittenInert(rule: Rule, fate: Fate)
    requires GoodRule(rule) && GoodFate(fate)
    ensures AllInert(Written(rule, fate))
    ensures Written(rule, fate) == [] <==> rule == Keep
  {
    match rule {
      case Open => InertStatus("open");
      case Claimed => InertStatus("claimed");
      case ClaimedAt(rest) =>
      case ClaimedBy(rest) =>
      case Abandoned =>
        InertDeployment("continued");
        InertDeployment("closed");
        InertFate(fate);
      case Keep =>
    }
  }

  lemma {:induction false} ProvenanceInert()
    ensures Inert(Provenance())
  {
    var a, b, c := "# migration: DR-084", " C8 re-expression ", " (was: abandoned)";
    assert NoBreak(a) && NoBreak(b) && NoBreak(MIGRATION_DATE) && NoBreak(c);
    assert a[0] == '#';
    assert Provenance()[0] == '#';
  }

  lemma {:induction false} InertFate(fate: Fate)
    requires GoodFate(fate)
    ensures fate.Some? ==> Inert(Field("continued_into:", fate.value))
    ensures Inert(Field("closed_reason:", "stale"))
    ensures Inert(Provenance())
  {
    if fate.Some? {
      var s := Field("continued_into:", fate.value);
      assert s[0] == 'c' && s[1] == 'o' && s[2] == 'n' && s[3] == 't';
    }
    var r := Field("closed_reason:", "stale");
    assert r[0] == 'c' && r[1] == 'l';
    ProvenanceInert();
  }

  lemma {:induction false} RuleGood(s: string)
    requires NoBreak(s)
    ensures GoodRule(RuleOf(s))
  {
  }

  lemma {:induction false} FirstOf(key: string, s: string)
    requires key != "" && After(key, s).Some?
    ensures s != "" && s[0] == key[0]
  {
    assert s[..|key|][0] == s[0];
  }

  /** A line some rule matches is one the parser learns nothing from. */
  lemma {:induction false} MatchedNeutral(s: string)
    requires RuleOf(s) != Keep
    ensures Neutral(s) && s != "---"
  {
    assert s != "" && (s[0] == 's' || s[0] == 'c' || s[0] == 'd') by {
      if After("status:", s).Some? { FirstOf("status:", s); }
      if After("consumed_at:", s).Some? { FirstOf("consumed_at:", s); }
      if After("consumed_by:", s).Some? { FirstOf("consumed_by:", s); }
      if After("deployment_state:", s).Some? { FirstOf("deployment_state:", s); }
    }
    Differs("predecessor:", s, 0);
    Differs("handoff_id:", s, 0);
    Differs("additional_predecessors:", s, 0);
  }

  // ---------------------------------------------------------------- rewritten lines

  /** A line the migration leaves alone and the parser ignores. */
  ghost predicate Spent(line: string) {
    !Matched(line) && Neutral(Chomp(line)) && !Delimiter(line)
  }

  /** The lines written for a matched line: at least one, all spent, each a line that can stand
      where the old one stood. */
  lemma {:induction false} RewriteMatched(line: string, fate: Fate)
    requires IsLine(line) && Matched(line) && GoodFate(fate)
    ensures var r := Rewrite(line, fate);
            && |r| > 0
            && forall i :: 0 <= i < |r| ==>
                 && Spent(r[i]) && IsLine(r[i]) && r[i][0] != '\n'
                 && (IsBreak(line[|line| - 1]) ==> r[i][|r[i]| - 1] == line[|line| - 1])
  {
    LineContent(line);
    RuleGood(Chomp(line));
    var contents := Written(RuleOf(Chomp(line)), fate);
    WrittenInert(RuleOf(Chomp(line)), fate);
    var r := WithEnding(contents, Ending(line));
    forall i | 0 <= i < |r|
      ensures Spent(r[i]) && IsLine(r[i]) && r[i][0] != '\n'
      ensures IsBreak(line[|line| - 1]) ==> r[i][|r[i]| - 1] == line[|line| - 1]
    {
      assert Inert(contents[i]);
      InertLine(line, contents[i]);
    }
  }

  lemma {:induction false} InertLine(line: string, s: string)
    requires IsLine(line) && Inert(s)
    ensures var l := s + Ending(line);
            && Spent(l) && IsLine(l) && l[0] != '\n'
            && (IsBreak(line[|line| - 1]) ==> l[|l| - 1] == line[|line| - 1])
  {
    ChompAppend(s, Ending(line));
    InertMeans(s);
    Retermed(line, s);
    if IsBreak(line[|line| - 1]) {
      EndsAlike(line, s);
    }
  }

  // ---------------------------------------------------------------- what the new vocabulary says

  /** The content of the only line written in place of `line`. */
  function Sole(line: string, fate: Fate): string
    requires |Rewrite(line, fate)| > 0
  {
    Chomp(Rewrite(line, fate)[0])
  }

  lemma {:induction false} SoleContent(line: string, fate: Fate, content: string)
    requires IsLine(line) && Matched(line) && Written(RuleOf(Chomp(line)), fate) == [content]
    requires content != "" && NoBreak(content)
    ensures |Rewrite(line, fate)| == 1 && Sole(line, fate) == content && Ending(Rewrite(line, fate)[0]) == Ending(line)
  {
    ChompAppend(content, Ending(line));
  }

  lemma {:induction false} StatusBecomes(line: string, fate: Fate, word: string)
    requires IsLine(line) && Matched(line) && word != "" && NoSpace(word)
    requires Written(RuleOf(Chomp(line)), fate) == [Field("status:", word)]
    ensures |Rewrite(line, fate)| == 1 && Token("status:", Sole(line, fate)) == Some(word)
  {
    KeyValue("status:", word);
    SoleContent(line, fate, Field("status:", word));
  }

  /** A record that read `active` reads `open` afterwards. */
  lemma {:induction false} ActiveReadsOpen(line: string, fate: Fate)
    requires IsLine(line) && Token("status:", Chomp(line)) == Some("active")
    ensures |Rewrite(line, fate)| == 1 && Token("status:", Sole(line, fate)) == Some("open")
  {
    assert RuleOf(Chomp(line)) == Open;
    StatusBecomes(line, fate, "open");
  }

  /** A record that read `consumed` reads `claimed` afterwards. */
  lemma {:induction false} ConsumedReadsClaimed(line: string, fate: Fate)
    requires IsLine(line) && Token("status:", Chomp(line)) == Some("consumed")
    ensures |Rewrite(line, fate)| == 1 && Token("status:", Sole(line, fate)) == Some("claimed")
  {
    assert RuleOf(Chomp(line)) == Claimed by { assert "active" != "consumed" by { assert |"active"| != |"consumed"|; } }
    StatusBecomes(line, fate, "claimed");
  }

  lemma {:induction false} AfterOwn(key: string, rest: string)
    ensures After(key, key + rest) == Some(rest)
  {
    assert (key + rest)[..|key|] == key && (key + rest)[|key|..] == rest;
  }

  /** A renamed field keeps its value, spaces and all. */
  lemma {:induction false} RenamedKeepsValue(line: string, fate: Fate)
    requires IsLine(line) && (RuleOf(Chomp(line)).ClaimedAt? || RuleOf(Chomp(line)).ClaimedBy?)
    ensures |Rewrite(line, fate)| == 1
    ensures RuleOf(Chomp(line)).ClaimedAt? ==> After("claimed_at:", Sole(line, fate)) == After("consumed_at:", Chomp(line))
    ensures RuleOf(Chomp(line)).ClaimedBy? ==> After("claimed_by:", Sole(line, fate)) == After("consumed_by:", Chomp(line))
  {
    var rule := RuleOf(Chomp(line));
    var key := if rule.ClaimedAt? then "claimed_at:" else "claimed_by:";
    LineContent(line);
    RuleGood(Chomp(line));
    AfterOwn(key, rule.rest);
    SoleContent(line, fate, key + rule.rest);
  }

  // ---------------------------------------------------------------- what the parser reads

  datatype Fields = Fields(predecessor: Option<string>, id: Option<string>, more: seq<string>)

  const NOTHING := Fields(None, None, [])

  datatype Change = NoChange | Predecessor(value: string) | Identity(value: string) | ListBegins

  /** All the parser asks of a line: the list item it would be inside a list, and what it says outside. */
  datatype Note = Note(item: Option<string>, change: Change)

  const QUIET := Note(None, NoChange)

  function NoteOf(line: string): Note {
    var s := Chomp(line);
    Note(
      match ListItem(s) case None => None case Some(v) => Some(StripQuotes(v)),
      if After("predecessor:", s).Some? then Predecessor(StripQuotes(After("predecessor:", s).value))
      else if HandoffId(s).Some? then Identity(HandoffId(s).value)
      else if ListStart(s) then ListBegins
      else NoChange)
  }

  function Notes(block: seq<string>): (r: seq<Note>)
    ensures |r| == |block|
  {
    if block == [] then [] else [NoteOf(block[0])] + Notes(block[1..])
  }

  function Learn(c: Change, f: Fields): Fields {
    match c
    case Predecessor(v) => f.(predecessor := Some(v))
    case Identity(v) => f.(id := Some(v))
    case _ => f
  }

  /** The parser's state machine over the notes of a block. */
  function ParseNotes(notes: seq<Note>, inList: bool, f: Fields): Fields
    decreases |notes|
  {
    if notes == [] then f
    else if inList && notes[0].item.Some? then ParseNotes(notes[1..], true, f.(more := f.more + [notes[0].item.value]))
    else ParseNotes(notes[1..], notes[0].change.ListBegins?, Learn(notes[0].change, f))
  }

  function Parse(block: seq<string>): Fields { ParseNotes(Notes(block), false, NOTHING) }

  /** A line that says something outside a list is never a list item. */
  lemma {:induction false} NoteExclusive(line: string)
    ensures NoteOf(line).change != NoChange ==> NoteOf(line).item.None?
  {
    var s := Chomp(line);
    if After("predecessor:", s).Some? { FirstOf("predecessor:", s); }
    if After("handoff_id:", s).Some? { FirstOf("handoff_id:", s); }
    if After("additional_predecessors:", s).Some? { FirstOf("additional_predecessors:", s); }
  }

  ghost predicate Exclusive(notes: seq<Note>) {
    forall i :: 0 <= i < |notes| ==> notes[i].change != NoChange ==> notes[i].item.None?
  }

  /** The note at `i` is the last one saying what the predecessor (or the id) is. */
  ghost predicate LastSaying(notes: seq<Note>, i: int, id: bool) {
    && 0 <= i < |notes| && Says(notes[i], id)
    && forall j :: i < j < |notes| ==> !Says(notes[j], id)
  }

  predicate Says(n: Note, id: bool) { if id then n.change.Identity? else n.change.Predecessor? }

  function Said(f: Fields, id: bool): Option<string> { if id then f.id else f.predecessor }

  lemma {:induction false} UnsaidKept(notes: seq<Note>, inList: bool, f: Fields, id: bool)
    requires forall j :: 0 <= j < |notes| ==> !Says(notes[j], id)
    ensures Said(ParseNotes(notes, inList, f), id) == Said(f, id)
    decreases |notes|
  {
    if notes != [] {
      if inList && notes[0].item.Some? {
        UnsaidKept(notes[1..], true, f.(more := f.more + [notes[0].item.value]), id);
      } else {
        UnsaidKept(notes[1..], notes[0].change.ListBegins?, Learn(notes[0].change, f), id);
      }
    }
  }

  lemma {:induction false} LastNoteWins(notes: seq<Note>, inList: bool, f: Fields, i: int, id: bool)
    requires Exclusive(notes) && LastSaying(notes, i, id)
    ensures Said(ParseNotes(notes, inList, f), id) == Some(notes[i].change.value)
    decreases |notes|
  {
    if i == 0 {
      UnsaidKept(notes[1..], false, Learn(notes[0].change, f), id);
    } else if inList && notes[0].item.Some? {
      LastNoteWins(notes[1..], true, f.(more := f.more + [notes[0].item.value]), i - 1, id);
    } else {
      LastNoteWins(notes[1..], notes[0].change.ListBegins?, Learn(notes[0].change, f), i - 1, id);
    }
  }

  lemma {:induction false} NotesExclusive(block: seq<string>)
    ensures Exclusive(Notes(block))
    ensures forall i :: 0 <= i < |block| ==> Notes(block)[i] == NoteOf(block[i])
  {
    forall i | 0 <= i < |block|
      ensures Notes(block)[i] == NoteOf(block[i])
      ensures Notes(block)[i].change != NoChange ==> Notes(block)[i].item.None?
    {
      NoteAt(block, i);
      NoteExclusive(block[i]);
    }
  }

  /** Line `i` of a block is the last one saying what the predecessor (or the id) is. */
  ghost predicate LastLine(block: seq<string>, i: int, id: bool) {
    && 0 <= i < |block| && Says(NoteOf(block[i]), id)
    && forall j :: i < j < |block| ==> !Says(NoteOf(block[j]), id)
  }

  /** The parsed predecessor and id of a block are those of its last line that gives one, inside lists or
      out; without such a line there is none. */
  lemma {:induction false} LastLineWins(block: seq<string>, id: bool)
    ensures forall i :: LastLine(block, i, id) ==> Said(Parse(block), id) == Some(NoteOf(block[i]).change.value)
    ensures Said(Parse(block), id).None? <==> forall i :: 0 <= i < |block| ==> !Says(NoteOf(block[i]), id)
  {
    NotesExclusive(block);
    forall i | LastLine(block, i, id)
      ensures Said(Parse(block), id) == Some(NoteOf(block[i]).change.value)
    {
      LastNoteWins(Notes(block), false, NOTHING, i, id);
    }
    if k :| 0 <= k < |block| && Says(NoteOf(block[k]), id) {
      var i := LastOf(block, k, id);
      assert LastLine(block, i, id);
    } else {
      UnsaidKept(Notes(block), false, NOTHING, id);
    }
  }

  lemma {:induction false} LastOf(block: seq<string>, k: nat, id: bool) returns (i: nat)
    requires k < |block| && Says(NoteOf(block[k]), id)
    ensures LastLine(block, i, id)
    decreases |block| - k
  {
    if j :| k < j < |block| && Says(NoteOf(block[j]), id) {
      i := LastOf(block, j, id);
    } else {
      i := k;
    }
  }

  lemma {:induction false} StripPlain(value: string)
    requires value != "" && NoSpace(value) && value[0] != '"' && value[0] != '\''
    ensures StripQuotes(" " + value) == value
  {
    assert (" " + value)[1..] == value;
    assert LStrip(" " + value) == LStrip(value) == value;
    assert RStrip(value) == value;
  }

  /** A predecessor written in the plain way is read as it was written. */
  lemma {:induction false} PredecessorReads(value: string, ending: string, line: string)
    requires value != "" && NoSpace(value) && value[0] != '"' && value[0] != '\''
    requires forall i :: 0 <= i < |ending| ==> IsBreak(ending[i])
    requires line == "predecessor:" + (" " + value) + ending
    ensures NoteOf(line).change == Predecessor(value)
  {
    var s := "predecessor:" + (" " + value);
    assert NoBreak("predecessor:") && NoBreak(" " + value);
    assert s != "" && NoBreak(s);
    ChompAppend(s, ending);
    AfterOwn("predecessor:", " " + value);
    StripPlain(value);
  }

  lemma {:induction false} BareId(value: string)
    requires value != "" && NoSpace(value) && forall i :: 0 <= i < |value| ==> value[i] != '"'
    ensures HandoffId("handoff_id:" + (" " + value)) == Some(value)
  {
    AfterOwn("handoff_id:", " " + value);
    assert (" " + value)[1..] == value;
    assert LStrip(" " + value) == LStrip(value) == value;
    assert RStrip(value) == value;
  }

  /** An id written in the plain way is read as it was written. */
  lemma {:induction false} IdReads(value: string, ending: string, line: string)
    requires value != "" && NoSpace(value) && forall i :: 0 <= i < |value| ==> value[i] != '"'
    requires forall i :: 0 <= i < |ending| ==> IsBreak(ending[i])
    requires line == "handoff_id:" + (" " + value) + ending
    ensures NoteOf(line).change == Identity(value)
  {
    var s := "handoff_id:" + (" " + value);
    assert NoBreak("handoff_id:") && NoBreak(" " + value);
    assert s[0] == 'h' && NoBreak(s);
    ChompAppend(s, ending);
    Differs("predecessor:", s, 0);
    BareId(value);
  }

  lemma {:induction false} NoteAt(block: seq<string>, i: nat)
    requires i < |block|
    ensures Notes(block)[i] == NoteOf(block[i])
  {
    if i > 0 {
      NoteAt(block[1..], i - 1);
    }
  }

  lemma {:induction false} NotesAppend(a: seq<string>, b: seq<string>)
    ensures Notes(a + b) == Notes(a) + Notes(b)
  {
    if a == [] {
      assert a + b == b;
    } else {
      ConsAppend(a, b);
      NotesAppend(a[1..], b);
      Assoc([NoteOf(a[0])], Notes(a[1..]), Notes(b));
    }
  }

  lemma {:induction false} NeutralQuiet(line: string)
    requires Neutral(Chomp(line))
    ensures NoteOf(line) == QUIET
  {
  }

  ghost predicate AllQuiet(notes: seq<Note>) { forall i :: 0 <= i < |notes| ==> notes[i] == QUIET }

  /** Quiet notes only end a list. */
  lemma {:induction false} ParseQuiet(quiet: seq<Note>, rest: seq<Note>, inList: bool, f: Fields)
    requires quiet != [] && AllQuiet(quiet)
    ensures ParseNotes(quiet + rest, inList, f) == ParseNotes(rest, false, f)
    decreases |quiet|
  {
    assert (quiet + rest)[1..] == quiet[1..] + rest;
    if |quiet| > 1 {
      ParseQuiet(quiet[1..], rest, false, f);
    } else {
      assert quiet[1..] + rest == rest;
    }
  }

  /** What a line is rewritten to tells the parser as much as the line did: nothing, or itself. */
  lemma {:induction false} RewrittenNotes(line: string, fate: Fate)
    requires IsLine(line) && GoodFate(fate)
    ensures var new' := Notes(Rewrite(line, fate));
            new' == [NoteOf(line)] || (NoteOf(line) == QUIET && new' != [] && AllQuiet(new'))
  {
    var r := Rewrite(line, fate);
    if Matched(line) {
      RewriteMatched(line, fate);
      MatchedNeutral(Chomp(line));
      NeutralQuiet(line);
      forall i | 0 <= i < |r|
        ensures Notes(r)[i] == QUIET
      {
        NoteAt(r, i);
        NeutralQuiet(r[i]);
      }
    } else {
      NoteAt(r, 0);
    }
  }

  lemma {:induction false} ParseStep(first: seq<Note>, note: Note, new': seq<Note>, old': seq<Note>, inList: bool, f: Fields)
    requires first == [note] || (note == QUIET && first != [] && AllQuiet(first))
    requires forall g, l :: ParseNotes(new', l, g) == ParseNotes(old', l, g)
    ensures ParseNotes(first + new', inList, f) == ParseNotes([note] + old', inList, f)
  {
    assert ([note] + new')[1..] == new' && ([note] + old')[1..] == old';
    if first != [note] {
      ParseQuiet(first, new', inList, f);
      ParseQuiet([note], old', inList, f);
    }
  }

  /** Ids and references parse the same from the rewritten block. */
  lemma {:induction false} ParseRewritten(block: seq<string>, fate: Fate)
    requires GoodFate(fate) && forall i :: 0 <= i < |block| ==> IsLine(block[i])
    ensures forall f, inList :: ParseNotes(Notes(RewriteAll(block, fate)), inList, f) == ParseNotes(Notes(block), inList, f)
  {
    if block != [] {
      var rest := RewriteAll(block[1..], fate);
      ParseRewritten(block[1..], fate);
      RewrittenNotes(block[0], fate);
      NotesAppend(Rewrite(block[0], fate), rest);
      forall f, inList
        ensures ParseNotes(Notes(RewriteAll(block, fate)), inList, f) == ParseNotes(Notes(block), inList, f)
      {
        ParseStep(Notes(Rewrite(block[0], fate)), NoteOf(block[0]), Notes(rest), Notes(block[1..]), inList, f);
      }
    }
  }

  // ---------------------------------------------------------------- finding the frontmatter

  /** `line.find("-->")` */
  function Arrow(line: string, from: nat): (r: Option<nat>)
    ensures r.Some? ==> from <= r.value && r.value + 3 <= |line| && line[r.value + 2] == '>'
    decreases |line| - from
  {
    if from + 3 > |line| then None
    else if line[from] == '-' && line[from + 1] == '-' && line[from + 2] == '>' then Some(from)
    else Arrow(line, from + 1)
  }

  predicate OpensComment(s: string) {
    var t := LStrip(s);
    |t| >= 4 && t[0] == '<' && t[1] == '!' && t[2] == '-' && t[3] == '-'
  }

  /** What follows the first comment end on a line. */
  function Trailing(line: string): string
    requires Arrow(line, 0).Some?
  {
    var s, p := Chomp(line), Arrow(line, 0).value + 3;
    if p <= |s| then s[p..] else ""
  }

  /** All the search for the frontmatter asks of a line: is it blank, does it open a comment, does
      one end on it and with what behind it, is it a delimiter. */
  datatype Mark = Mark(blank: bool, opens: bool, closes: bool, closesBare: bool, closesOnFence: bool, fence: bool)

  function MarkOf(line: string): Mark {
    var s := Chomp(line);
    var closes := Arrow(line, 0).Some?;
    Mark(Strip(s) == "", OpensComment(s), closes,
         closes && Strip(Trailing(line)) == "", closes && Trailing(line) == "---", Delimiter(line))
  }

  function Marks(lines: seq<string>): (r: seq<Mark>)
    ensures |r| == |lines|
  {
    if lines == [] then [] else [MarkOf(lines[0])] + Marks(lines[1..])
  }

  lemma {:induction false} MarkAt(lines: seq<string>, i: nat)
    requires i < |lines|
    ensures Marks(lines)[i] == MarkOf(lines[i])
  {
    if i > 0 {
      MarkAt(lines[1..], i - 1);
    }
  }

  /** The first line from `i` on that closes a comment. */
  function CloseLine(ms: seq<Mark>, i: nat): (r: Option<nat>)
    ensures r.Some? ==> i <= r.value < |ms|
    decreases |ms| - i
  {
    if i >= |ms| then None else if ms[i].closes then Some(i) else CloseLine(ms, i + 1)
  }

  /** The opening delimiter, after blank lines and leading comments. */
  function Opener(ms: seq<Mark>, i: nat): (r: Option<nat>)
    ensures r.Some? ==> i <= r.value < |ms|
    decreases |ms| - i
  {
    if i >= |ms| then None
    else if ms[i].blank then Opener(ms, i + 1)
    else if ms[i].opens then
      match CloseLine(ms, i)
      case None => None
      case Some(j) =>
        if ms[j].closesBare then Opener(ms, j + 1) else if ms[j].closesOnFence then Some(j) else None
    else if ms[i].fence then Some(i)
    else None
  }

  function Closer(ms: seq<Mark>, k: nat): (r: Option<nat>)
    ensures r.Some? ==> k <= r.value < |ms| && ms[r.value].fence
    ensures r.Some? ==> forall i :: k <= i < r.value ==> !ms[i].fence
    decreases |ms| - k
  {
    if k >= |ms| then None else if ms[k].fence then Some(k) else Closer(ms, k + 1)
  }

  /** Indices of the two delimiters. */
  function BoundsOf(ms: seq<Mark>): (r: Option<(nat, nat)>)
    ensures r.Some? ==> r.value.0 < r.value.1 < |ms| && ms[r.value.1].fence
    ensures r.Some? ==> forall i :: r.value.0 < i < r.value.1 ==> !ms[i].fence
  {
    match Opener(ms, 0)
    case None => None
    case Some(o) =>
      match Closer(ms, o + 1)
      case None => None
      case Some(c) => Some((o, c))
  }

  function Bounds(lines: seq<string>): (r: Option<(nat, nat)>)
    ensures r.Some? ==> r.value.0 < r.value.1 < |lines|
  {
    BoundsOf(Marks(lines))
  }

  ghost predicate SameUpTo(a: seq<Mark>, b: seq<Mark>, n: nat) {
    n <= |a| && n <= |b| && forall i :: 0 <= i < n ==> a[i] == b[i]
  }

  lemma {:induction false} CloseLineLocal(a: seq<Mark>, b: seq<Mark>, i: nat, n: nat)
    requires SameUpTo(a, b, n) && CloseLine(a, i).Some? && CloseLine(a, i).value < n
    ensures CloseLine(b, i) == CloseLine(a, i)
    decreases |a| - i
  {
    if !a[i].closes {
      CloseLineLocal(a, b, i + 1, n);
    }
  }

  /** The opener is found from the lines up to it alone. */
  lemma {:induction false} OpenerLocal(a: seq<Mark>, b: seq<Mark>, i: nat, n: nat)
    requires SameUpTo(a, b, n) && Opener(a, i).Some? && Opener(a, i).value < n
    ensures Opener(b, i) == Opener(a, i)
    decreases |a| - i
  {
    if a[i].blank {
      OpenerLocal(a, b, i + 1, n);
    } else if a[i].opens {
      var j := CloseLine(a, i).value;
      CloseLineLocal(a, b, i, n);
      if a[j].closesBare {
        OpenerLocal(a, b, j + 1, n);
      }
    }
  }

  lemma {:induction false} CloserAt(ms: seq<Mark>, k: nat, c: nat)
    requires k <= c < |ms| && ms[c].fence
    requires forall i :: k <= i < c ==> !ms[i].fence
    ensures Closer(ms, k) == Some(c)
    decreases c - k
  {
    if k < c {
      CloserAt(ms, k + 1, c);
    }
  }

  /** New lines between the delimiters, none of them a delimiter, move only the closing one. */
  lemma {:induction false} BoundsLocal(a: seq<Mark>, b: seq<Mark>, c: nat)
    requires BoundsOf(a).Some? && SameUpTo(a, b, BoundsOf(a).value.0 + 1)
    requires BoundsOf(a).value.0 < c < |b| && b[c].fence
    requires forall i :: BoundsOf(a).value.0 < i < c ==> !b[i].fence
    ensures BoundsOf(b) == Some((BoundsOf(a).value.0, c))
  {
    var o := BoundsOf(a).value.0;
    OpenerLocal(a, b, 0, o + 1);
    CloserAt(b, o + 1, c);
  }

  // ---------------------------------------------------------------- one file

  /** The file's lines with `block` between the delimiters at `o` and `c`. */
  function WithBlock(lines: seq<string>, o: nat, c: nat, block: seq<string>): seq<string>
    requires o < c < |lines|
  {
    lines[..o + 1] + block + lines[c..]
  }

  /** Replacing the block by lines that delimit nothing moves only the closing delimiter. */
  lemma {:induction false} BoundsOfWithBlock(lines: seq<string>, o: nat, c: nat, block: seq<string>)
    requires Bounds(lines) == Some((o, c)) && forall i :: 0 <= i < |block| ==> !Delimiter(block[i])
    ensures Bounds(WithBlock(lines, o, c, block)) == Some((o, o + 1 + |block|))
  {
    var out := WithBlock(lines, o, c, block);
    MarksOfWithBlock(lines, block, o, c, out);
    BoundsLocal(Marks(lines), Marks(out), o + 1 + |block|);
  }

  lemma {:induction false} BlockOfWithBlock(lines: seq<string>, o: nat, c: nat, block: seq<string>)
    requires o < c < |lines|
    ensures var out := WithBlock(lines, o, c, block);
            var d := o + 1 + |block|;
            && o < d < |out|
            && out[o + 1..d] == block
            && WithBlock(out, o, d, block) == out
  {
    Pieces(lines[..o + 1], block, lines[c..]);
  }

  lemma {:induction false} MarksOfWithBlock(lines: seq<string>, block: seq<string>, o: nat, c: nat, out: seq<string>)
    requires o < c < |lines| && out == lines[..o + 1] + block + lines[c..] && Marks(lines)[c].fence
    requires forall i :: 0 <= i < |block| ==> !Delimiter(block[i])
    ensures SameUpTo(Marks(lines), Marks(out), o + 1)
    ensures o + 1 + |block| < |out| && Marks(out)[o + 1 + |block|].fence
    ensures forall i :: o < i < o + 1 + |block| ==> !Marks(out)[i].fence
  {
    assert out[o + 1 + |block|] == lines[c];
    MarkAt(out, o + 1 + |block|);
    MarkAt(lines, c);
    forall i | o < i < o + 1 + |block|
      ensures !Marks(out)[i].fence
    {
      assert out[i] == block[i - (o + 1)];
      MarkAt(out, i);
    }
    forall i | 0 <= i < o + 1
      ensures Marks(lines)[i] == Marks(out)[i]
    {
      assert out[i] == lines[i];
      MarkAt(out, i);
      MarkAt(lines, i);
    }
  }

  lemma {:induction false} Pieces<T>(a: seq<T>, b: seq<T>, c: seq<T>)
    ensures var s := a + b + c;
            s[..|a|] == a && s[|a|..|a| + |b|] == b && s[|a| + |b|..] == c
  {
  }

  lemma {:induction false} BlockLines(lines: seq<string>, o: nat, c: nat, block: seq<string>)
    requires IsLineList(lines) && Bounds(lines) == Some((o, c)) && block == lines[o + 1..c]
    ensures forall i :: 0 <= i < |block| ==> IsLine(block[i]) && !Delimiter(block[i])
  {
    var ms := Marks(lines);
    assert BoundsOf(ms) == Some((o, c));
    forall i | 0 <= i < |block|
      ensures IsLine(block[i]) && !Delimiter(block[i])
    {
      assert block[i] == lines[o + 1 + i];
      MarkAt(lines, o + 1 + i);
      assert !ms[o + 1 + i].fence;
    }
  }

  /** No line of the rewritten block matches a rule again, and none delimits. */
  lemma {:induction false} RewrittenSettled(block: seq<string>, fate: Fate)
    requires GoodFate(fate)
    requires forall i :: 0 <= i < |block| ==> IsLine(block[i]) && !Delimiter(block[i])
    ensures forall i :: 0 <= i < |RewriteAll(block, fate)| ==>
              !Matched(RewriteAll(block, fate)[i]) && !Delimiter(RewriteAll(block, fate)[i])
  {
    if block != [] {
      RewrittenSettled(block[1..], fate);
      if Matched(block[0]) {
        RewriteMatched(block[0], fate);
      }
    }
  }

  lemma {:induction false} RewriteSettled(block: seq<string>, fate: Fate)
    requires forall i :: 0 <= i < |block| ==> !Matched(block[i])
    ensures RewriteAll(block, fate) == block
  {
    if block != [] {
      RewriteSettled(block[1..], fate);
    }
  }

  function MigrateLines(lines: seq<string>, fate: Fate): seq<string> {
    match Bounds(lines)
    case None => lines
    case Some((o, c)) => WithBlock(lines, o, c, RewriteAll(lines[o + 1..c], fate))
  }

  /** What the rest of the corpus sees of a file. */
  function RecordOf(lines: seq<string>): Option<Fields> {
    match Bounds(lines)
    case None => None
    case Some((o, c)) => Some(Parse(lines[o + 1..c]))
  }

  /** Migrating a file leaves its place in the corpus as it was, and a second migration, whatever
      fate it is told, changes nothing. */
  lemma {:induction false} MigrateLinesOnce(lines: seq<string>, fate: Fate, again: Fate)
    requires IsLineList(lines) && GoodFate(fate)
    ensures RecordOf(MigrateLines(lines, fate)) == RecordOf(lines)
    ensures MigrateLines(MigrateLines(lines, fate), again) == MigrateLines(lines, fate)
  {
    match Bounds(lines)
    case None =>
    case Some((o, c)) =>
      var block := lines[o + 1..c];
      var out := RewriteAll(block, fate);
      BlockLines(lines, o, c, block);
      RewrittenSettled(block, fate);
      Remigrated(lines, o, c, out, again);
      ParseRewritten(block, fate);
  }

  lemma {:induction false} Remigrated(lines: seq<string>, o: nat, c: nat, out: seq<string>, again: Fate)
    requires Bounds(lines) == Some((o, c))
    requires forall i :: 0 <= i < |out| ==> !Matched(out[i]) && !Delimiter(out[i])
    ensures RecordOf(WithBlock(lines, o, c, out)) == Some(Parse(out))
    ensures MigrateLines(WithBlock(lines, o, c, out), again) == WithBlock(lines, o, c, out)
  {
    BoundsOfWithBlock(lines, o, c, out);
    BlockOfWithBlock(lines, o, c, out);
    RewriteSettled(out, again);
  }

  // ---------------------------------------------------------------- from lines back to bytes

  /** `b` can follow whatever `a` follows. */
  ghost predicate Follows(a: seq<string>, b: seq<string>) {
    a != [] && b != [] && a[0] != "" && b[0] != "" && (b[0] == a[0] || b[0][0] != '\n')
  }

  lemma {:induction false} MayPrecedeAlike(x: string, y: string, next: string, other: string)
    requires MayPrecede(x, next) && y != "" && y[|y| - 1] == x[|x| - 1]
    requires other != "" && (other == next || other[0] != '\n')
    ensures MayPrecede(y, other)
  {
  }

  lemma {:induction false} JoinLists(a: seq<string>, b: seq<string>)
    requires IsLineList(a) && IsLineList(b)
    requires a != [] && b != [] ==> MayPrecede(a[|a| - 1], b[0])
    ensures IsLineList(a + b)
  {
  }

  lemma {:induction false} SplitLists(a: seq<string>, b: seq<string>)
    requires IsLineList(a + b)
    ensures IsLineList(a) && IsLineList(b)
    ensures a != [] && b != [] ==> MayPrecede(a[|a| - 1], b[0])
  {
    var s := a + b;
    forall i | 0 <= i < |a|
      ensures IsLine(a[i]) && (i < |a| - 1 ==> MayPrecede(a[i], a[i + 1]))
    {
      assert s[i] == a[i];
      if i < |a| - 1 { assert s[i + 1] == a[i + 1]; }
    }
    forall i | 0 <= i < |b|
      ensures IsLine(b[i]) && (i < |b| - 1 ==> MayPrecede(b[i], b[i + 1]))
    {
      assert s[|a| + i] == b[i];
      if i < |b| - 1 { assert s[|a| + i + 1] == b[i + 1]; }
    }
    if a != [] && b != [] {
      assert s[|a| - 1] == a[|a| - 1] && s[|a|] == b[0];
    }
  }

  /** Lines that can stand where `line` stood. */
  ghost predicate StandsFor(r: seq<string>, line: string) {
    && r != [] && line != ""
    && forall i :: 0 <= i < |r| ==>
         && IsLine(r[i]) && (r[i] == line || r[i][0] != '\n')
         && (IsBreak(line[|line| - 1]) ==> r[i][|r[i]| - 1] == line[|line| - 1])
  }

  lemma {:induction false} RewriteStands(line: string, fate: Fate)
    requires IsLine(line) && GoodFate(fate)
    ensures StandsFor(Rewrite(line, fate), line)
  {
    if Matched(line) {
      RewriteMatched(line, fate);
    }
  }

  /** Lines standing for one line, in front of lines that still follow. */
  lemma {:induction false} InFront(line: string, r: seq<string>, next: seq<string>, out: seq<string>)
    requires StandsFor(r, line) && (|r| == 1 || forall i :: 0 <= i < |r| ==> r[i][0] != '\n')
    requires IsLineList([line] + next) && IsLineList(out) && Follows(next, out)
    ensures IsLineList(r + out) && Follows([line] + next, r + out)
  {
    SplitLists([line], next);
    MayPrecedeAlike(line, r[|r| - 1], next[0], out[0]);
    assert IsLineList(r);
    JoinLists(r, out);
  }

  lemma {:induction false} OneOrNoBreak(line: string, fate: Fate)
    requires IsLine(line) && GoodFate(fate)
    ensures var r := Rewrite(line, fate); |r| == 1 || forall i :: 0 <= i < |r| ==> r[i] != "" && r[i][0] != '\n'
  {
    if Matched(line) {
      RewriteMatched(line, fate);
    }
  }

  /** One rewritten line, in front of lines that still follow. */
  lemma {:induction false} RewriteInFront(line: string, next: seq<string>, out: seq<string>, fate: Fate)
    requires IsLineList([line] + next) && IsLineList(out) && Follows(next, out) && GoodFate(fate)
    ensures IsLineList(Rewrite(line, fate) + out)
    ensures Follows([line] + next, Rewrite(line, fate) + out)
  {
    assert IsLine(([line] + next)[0]);
    RewriteStands(line, fate);
    OneOrNoBreak(line, fate);
    InFront(line, Rewrite(line, fate), next, out);
  }

  lemma {:induction false} RewriteAllLines(block: seq<string>, tail: seq<string>, fate: Fate)
    requires tail != [] && IsLineList(block + tail) && GoodFate(fate)
    ensures IsLineList(RewriteAll(block, fate) + tail)
    ensures Follows(block + tail, RewriteAll(block, fate) + tail)
  {
    if block == [] {
      assert block + tail == tail && RewriteAll(block, fate) + tail == tail;
    } else {
      ConsAppend(block, tail);
      SplitLists([block[0]], block[1..] + tail);
      RewriteAllLines(block[1..], tail, fate);
      RewriteInFront(block[0], block[1..] + tail, RewriteAll(block[1..], fate) + tail, fate);
      Assoc(Rewrite(block[0], fate), RewriteAll(block[1..], fate), tail);
    }
  }

  /** A migrated file's lines are what reading the written file gives. */
  lemma {:induction false} MigratedIsLines(lines: seq<string>, fate: Fate)
    requires IsLineList(lines) && GoodFate(fate)
    ensures IsLineList(MigrateLines(lines, fate))
  {
    match Bounds(lines)
    case None =>
    case Some((o, c)) =>
      var head, block, tail := lines[..o + 1], lines[o + 1..c], lines[c..];
      assert lines == head + (block + tail);
      SplitLists(head, block + tail);
      RewriteAllLines(block, tail, fate);
      NewBlock(head, block, tail, RewriteAll(block, fate));
  }

  lemma {:induction false} NewBlock(head: seq<string>, block: seq<string>, tail: seq<string>, out: seq<string>)
    requires head != [] && IsLineList(head + (block + tail)) && IsLineList(out + tail) && Follows(block + tail, out + tail)
    ensures IsLineList(head + out + tail)
  {
    SplitLists(head, block + tail);
    MayPrecedeAlike(head[|head| - 1], head[|head| - 1], (block + tail)[0], (out + tail)[0]);
    JoinLists(head, out + tail);
    Assoc(head, out, tail);
  }

  // ---------------------------------------------------------------- the corpus

  type Path = string
  type Corpus = map<Path, string>

  function Migrated(text: string, fate: Fate): string { Concat(MigrateLines(ReadLines(text), fate)) }

  function RecordIn(text: string): Option<Fields> { RecordOf(ReadLines(text)) }

  /** Migrating the bytes of a file keeps its record and is done after one pass. */
  lemma {:induction false} MigratedOnce(text: string, fate: Fate, again: Fate)
    requires GoodFate(fate)
    ensures RecordIn(Migrated(text, fate)) == RecordIn(text)
    ensures Migrated(Migrated(text, fate), again) == Migrated(text, fate)
  {
    var lines := ReadLines(text);
    ConcatReadLines(text);
    MigratedIsLines(lines, fate);
    ReadLinesConcat(MigrateLines(lines, fate));
    MigrateLinesOnce(lines, fate, again);
  }

  lemma {:induction false} RewriteAppend(a: seq<string>, b: seq<string>, fate: Fate)
    ensures RewriteAll(a + b, fate) == RewriteAll(a, fate) + RewriteAll(b, fate)
  {
    if a == [] {
      assert a + b == b;
    } else {
      ConsAppend(a, b);
      RewriteAppend(a[1..], b, fate);
      Assoc(Rewrite(a[0], fate), RewriteAll(a[1..], fate), RewriteAll(b, fate));
    }
  }

  /** Every line of the block is answered, in its place, by exactly what its rule writes for it:
      itself when no rule matches. */
  lemma {:induction false} KeptInOrder(block: seq<string>, fate: Fate, i: nat)
    requires i < |block|
    ensures RewriteAll(block, fate)
         == RewriteAll(block[..i], fate) + Rewrite(block[i], fate) + RewriteAll(block[i + 1..], fate)
    ensures !Matched(block[i]) ==> Rewrite(block[i], fate) == [block[i]]
  {
    var a, b := block[..i], block[i + 1..];
    assert block == a + ([block[i]] + b);
    RewriteAppend(a, [block[i]] + b, fate);
    RewriteCons(block[i], b, fate);
    Assoc(RewriteAll(a, fate), Rewrite(block[i], fate), RewriteAll(b, fate));
  }

  lemma {:induction false} RewriteCons(line: string, rest: seq<string>, fate: Fate)
    ensures RewriteAll([line] + rest, fate) == Rewrite(line, fate) + RewriteAll(rest, fate)
  {
    assert ([line] + rest)[1..] == rest;
  }

  /** The bytes before and after the block are kept: the migrated file is the old one with the
      block's bytes replaced. */
  lemma {:induction false} OutsideKept(text: string, fate: Fate)
    ensures var lines := ReadLines(text);
            match Bounds(lines)
            case None => Migrated(text, fate) == text
            case Some((o, c)) =>
              var before, block, after := Concat(lines[..o + 1]), lines[o + 1..c], Concat(lines[c..]);
              && text == before + Concat(block) + after
              && Migrated(text, fate) == before + Concat(RewriteAll(block, fate)) + after
  {
    var lines := ReadLines(text);
    ConcatReadLines(text);
    match Bounds(lines)
    case None =>
    case Some((o, c)) =>
      var head, block, tail := lines[..o + 1], lines[o + 1..c], lines[c..];
      assert lines == head + block + tail;
      ConcatThree(head, block, tail);
      ConcatThree(head, RewriteAll(block, fate), tail);
  }

  ghost predicate AnyMatched(block: seq<string>) {
    exists i :: 0 <= i < |block| && Matched(block[i])
  }

  /** Does the migration have anything to do in this file? */
  ghost predicate HasWork(text: string) {
    var lines := ReadLines(text);
    match Bounds(lines)
    case None => false
    case Some((o, c)) => AnyMatched(lines[o + 1..c])
  }

  /** A file changes exactly when some line of its frontmatter matches a rule. */
  lemma {:induction false} ChangedIffWork(text: string, fate: Fate)
    requires GoodFate(fate)
    ensures Migrated(text, fate) != text <==> HasWork(text)
  {
    var lines := ReadLines(text);
    ConcatReadLines(text);
    MigratedIsLines(lines, fate);
    ReadLinesConcat(MigrateLines(lines, fate));
    match Bounds(lines)
    case None =>
    case Some((o, c)) =>
      var block := lines[o + 1..c];
      SameBlock(lines, o, c, RewriteAll(block, fate));
      BlockLines(lines, o, c, block);
      RewrittenSettled(block, fate);
      if !AnyMatched(block) {
        RewriteSettled(block, fate);
      }
  }

  lemma {:induction false} SameBlock(lines: seq<string>, o: nat, c: nat, out: seq<string>)
    requires o < c < |lines|
    ensures WithBlock(lines, o, c, out) == lines <==> out == lines[o + 1..c]
  {
    Pieces(lines[..o + 1], out, lines[c..]);
    assert lines == lines[..o + 1] + lines[o + 1..c] + lines[c..];
  }

  // ---------------------------------------------------------------- the loops

  /** What the search asks of line `i`, without unfolding how it is answered. */
  lemma {:induction false} MarkMeans(lines: seq<string>, i: nat, ms: seq<Mark>)
    requires i < |lines| && ms == Marks(lines)
    ensures ms[i].blank <==> Strip(Chomp(lines[i])) == ""
    ensures ms[i].opens <==> OpensComment(Chomp(lines[i]))
    ensures ms[i].closes <==> Arrow(lines[i], 0).Some?
    ensures ms[i].closes ==> (ms[i].closesBare <==> Strip(Trailing(lines[i])) == "")
    ensures ms[i].closes ==> (ms[i].closesOnFence <==> IsFence(Trailing(lines[i])))
    ensures ms[i].fence <==> IsFence(Chomp(lines[i]))
  {
    MarkAt(lines, i);
  }

  predicate IsFence(s: string) { s == "---" }

  /** `frontmatter_bounds`: skip blank lines and leading comments, then find both delimiters. */
  method FrontmatterBounds(lines: seq<string>) returns (r: Option<(nat, nat)>)
    ensures r == Bounds(lines)
  {
    ghost var ms := Marks(lines);
    var opener := FindOpener(lines, ms);
    if opener.None? {
      return None;
    }
    r := FindCloser(lines, opener.value, ms);
  }

  method FindOpener(lines: seq<string>, ghost ms: seq<Mark>) returns (r: Option<nat>)
    requires ms == Marks(lines)
    ensures r == Opener(ms, 0)
  {
    var i, n := 0, |lines|;
    while i < n
      invariant i <= n && Opener(ms, 0) == Opener(ms, i)
    {
      MarkMeans(lines, i, ms);
      var stripped := Chomp(lines[i]);
      if Strip(stripped) == "" {
        i := i + 1;
        continue;
      }
      if !OpensComment(stripped) {
        return if IsFence(stripped) then Some(i) else None;
      }
      var end := CommentEnd(lines, i, ms);
      if end == n {
        return None;
      }
      var trailing := Trailing(lines[end]);
      if Strip(trailing) != "" {
        return if IsFence(trailing) then Some(end) else None;
      }
      i := end + 1;
    }
    return None;
  }

  /** The inner search for the line on which a comment ends. */
  method CommentEnd(lines: seq<string>, from: nat, ghost ms: seq<Mark>) returns (j: nat)
    requires from < |lines| && ms == Marks(lines)
    ensures from <= j <= |lines|
    ensures CloseLine(ms, from) == if j == |lines| then None else Some(j)
    ensures j < |lines| ==> Arrow(lines[j], 0).Some?
    ensures j < |lines| ==> (ms[j].closesBare <==> Strip(Trailing(lines[j])) == "")
    ensures j < |lines| ==> (ms[j].closesOnFence <==> IsFence(Trailing(lines[j])))
  {
    j := from;
    while j < |lines| && Arrow(lines[j], 0).None?
      invariant from <= j <= |lines| && CloseLine(ms, from) == CloseLine(ms, j)
    {
      MarkMeans(lines, j, ms);
      j := j + 1;
    }
    if j < |lines| {
      MarkMeans(lines, j, ms);
    }
  }

  method FindCloser(lines: seq<string>, opener: nat, ghost ms: seq<Mark>) returns (r: Option<(nat, nat)>)
    requires opener < |lines| && ms == Marks(lines)
    ensures r == match Closer(ms, opener + 1) case None => None case Some(k) => Some((opener, k))
  {
    var k := opener + 1;
    while k < |lines|
      invariant opener < k <= |lines| && Closer(ms, opener + 1) == Closer(ms, k)
    {
      MarkMeans(lines, k, ms);
      if IsFence(Chomp(lines[k])) {
        return Some((opener, k));
      }
      k := k + 1;
    }
    return None;
  }

  /** `parse_record`: the fields other records can refer to. */
  method ParseRecord(block: seq<string>) returns (f: Fields)
    ensures f == Parse(block)
  {
    ghost var notes := Notes(block);
    var i := 0;
    f := NOTHING;
    while i < |block|
      invariant i <= |block|
      invariant ParseNotes(notes[i..], false, f) == ParseNotes(notes, false, NOTHING)
    {
      NoteAt(block, i);
      var note := NoteOf(block[i]);
      f := Learn(note.change, f);
      i := i + 1;
      if note.change.ListBegins? {
        i, f := ParseList(block, i, f, notes);
      }
    }
  }

  /** The nested loop over the items of the list of additional predecessors. */
  method ParseList(block: seq<string>, from: nat, fields: Fields, ghost notes: seq<Note>) returns (i: nat, f: Fields)
    requires from <= |block| && notes == Notes(block)
    ensures from <= i <= |block|
    ensures ParseNotes(notes[i..], false, f) == ParseNotes(notes[from..], true, fields)
  {
    i, f := from, fields;
    while i < |block|
      invariant from <= i <= |block|
      invariant ParseNotes(notes[i..], true, f) == ParseNotes(notes[from..], true, fields)
    {
      NoteAt(block, i);
      var item := NoteOf(block[i]).item;
      if item.None? {
        return;
      }
      f := f.(more := f.more + [item.value]);
      i := i + 1;
    }
  }

  lemma {:induction false} RewriteUpTo(block: seq<string>, i: nat, fate: Fate, written: seq<string>)
    requires i < |block| && written == Rewrite(block[i], fate)
    ensures RewriteAll(block[..i + 1], fate) == RewriteAll(block[..i], fate) + written
  {
    KeptInOrder(block[..i + 1], fate, i);
    assert block[..i + 1][..i] == block[..i];
    assert block[..i + 1][i + 1..] == [];
    assert RewriteAll([], fate) == [];
    assert RewriteAll(block[..i], fate) + written + [] == RewriteAll(block[..i], fate) + written;
  }

  lemma {:induction false} MatchedUpTo(block: seq<string>, i: nat, hit: bool)
    requires i < |block| && hit == Matched(block[i])
    ensures AnyMatched(block[..i + 1]) == (AnyMatched(block[..i]) || hit)
  {
    var a, b := block[..i], block[..i + 1];
    assert b == a + [block[i]];
    if AnyMatched(a) {
      var k :| 0 <= k < |a| && Matched(a[k]);
      assert b[k] == a[k];
    }
    if AnyMatched(b) {
      var k :| 0 <= k < |b| && Matched(b[k]);
      assert k < i ==> b[k] == a[k];
    }
    assert b[i] == block[i];
  }

  /** The rewriting loop of `migrate_file`: the output list, and whether any rule acted. */
  method RewriteBlock(block: seq<string>, fate: Fate) returns (out: seq<string>, acted: bool)
    ensures out == RewriteAll(block, fate)
    ensures acted <==> AnyMatched(block)
  {
    out, acted := [], false;
    var i := 0;
    assert block[..0] == [] && block[..|block|] == block;
    while i < |block|
      invariant i <= |block|
      invariant out == RewriteAll(block[..i], fate)
      invariant acted == AnyMatched(block[..i])
    {
      var written, hit := RewriteLine(block[i], fate);
      RewriteUpTo(block, i, fate, written);
      MatchedUpTo(block, i, hit);
      acted := acted || hit;
      out := out + written;
      i := i + 1;
    }
  }

  /** One turn of that loop. */
  method RewriteLine(line: string, fate: Fate) returns (written: seq<string>, acted: bool)
    ensures written == Rewrite(line, fate)
    ensures acted == Matched(line)
  {
    var stripped := Chomp(line);
    var suffix := line[|stripped|..];
    var rule := RuleOf(stripped);
    acted := rule != Keep;
    match rule {
      case Open => written := [Field("status:", "open") + suffix];
      case Claimed => written := [Field("status:", "claimed") + suffix];
      case ClaimedAt(value) => written := ["claimed_at:" + value + suffix];
      case ClaimedBy(value) => written := ["claimed_by:" + value + suffix];
      case Abandoned =>
        if fate.Some? {
          written := [Field("deployment_state:", "continued") + suffix, Field("continued_into:", fate.value) + suffix];
        } else {
          written := [Field("deployment_state:", "closed") + suffix, Field("closed_reason:", "stale") + suffix,
                      Provenance() + suffix];
        }
      case Keep => written := [line];
    }
  }
}
