/** The gating pin registry: a dict literal inside a Python module, read into entries with
    source coordinates and rewritten in place by splicing values and inserting comment lines.

    Columns are counted in characters: the rewriter splices UTF-8 bytes at byte columns that name
    the same places. */
module PinRegistry {
  import opened Text

  // ---------------------------------------------------------------- tokens

  datatype Token = Str(text: string) | Name(text: string) | Punct(c: char) | Bad

  predicate Blank(c: char) { c == ' ' || c == '\t' || c == '\U{0c}' || IsBreak(c) }

  predicate IdChar(c: char) {
    'a' <= c <= 'z' || 'A' <= c <= 'Z' || '0' <= c <= '9' || c == '_'
  }

  predicate Quote(c: char) { c == '"' || c == '\'' }

  /** Length of the literal body that `q` closes in `s`; all of `s` when an escape or the end
      comes first. */
  function Close(s: string, q: char): (r: nat)
    ensures r <= |s|
  {
    if s == "" || s[0] == q then 0
    else if s[0] == '\\' then |s|
    else 1 + Close(s[1..], q)
  }

  /** Length of the identifier `s` starts with. */
  function IdLength(s: string): (r: nat)
    ensures r <= |s|
  {
    if s != "" && IdChar(s[0]) then 1 + IdLength(s[1..]) else 0
  }

  /** The token `s` starts with and its length. A literal with an escape, or without its
      closing quote, is `Bad`. */
  function First(s: string): (r: (Token, nat))
    requires s != ""
    ensures 0 < r.1 <= |s|
  {
    if Quote(s[0]) then
      var n := Close(s[1..], s[0]);
      if n + 1 == |s| then (Bad, |s|) else (Str(s[1..n + 1]), n + 2)
    else if IdChar(s[0]) then
      (Name(s[..IdLength(s)]), IdLength(s))
    else
      (Punct(s[0]), 1)
  }

  /** The tokens of one line; a `#` ends the line. */
  function Shape(s: string): seq<Token>
    decreases |s|
  {
    if s == "" || s[0] == '#' then []
    else if Blank(s[0]) then Shape(s[1..])
    else [First(s).0] + Shape(s[First(s).1..])
  }

  /** The byte span of token `k`. */
  function Span(s: string, k: nat): (r: (nat, nat))
    requires k < |Shape(s)|
    ensures r.0 < r.1 <= |s|
    decreases |s|
  {
    if Blank(s[0]) then
      var r := Span(s[1..], k); (1 + r.0, 1 + r.1)
    else if k == 0 then
      (0, First(s).1)
    else
      var n := First(s).1;
      var r := Span(s[n..], k - 1); (n + r.0, n + r.1)
  }

  // ---------------------------------------------------------------- splicing one value

  /** Text that can stand between double quotes without ending or escaping the literal. */
  predicate Literal(v: string) {
    forall i :: 0 <= i < |v| ==> v[i] != '"' && v[i] != '\\' && !IsBreak(v[i])
  }

  /** `raw[:col] + '"' + value + '"' + raw[end:]` */
  function Splice(line: string, col: nat, end: nat, value: string): string
    requires col <= end <= |line|
  {
    line[..col] + ("\"" + value + "\"" + line[end..])
  }

  /** What follows token `k` is lexed on its own. */
  lemma {:induction false} ShapeAfter(s: string, k: nat)
    requires k < |Shape(s)|
    ensures Shape(s)[k + 1..] == Shape(s[Span(s, k).1..])
    decreases |s|
  {
    var e := Span(s, k).1;
    if Blank(s[0]) {
      ShapeAfter(s[1..], k);
      assert s[1..][e - 1..] == s[e..];
    } else if k > 0 {
      var n := First(s).1;
      ShapeAfter(s[n..], k - 1);
      assert s[n..][e - n..] == s[e..];
    }
  }

  predicate Agree(s: string, t: string, c: nat) {
    c <= |s| && c <= |t| && forall i :: 0 <= i < c ==> s[i] == t[i]
  }

  /** A line equal to `s` up to token `k`, with a quote there, has the same first `k` tokens. */
  lemma {:induction false} ShapeBefore(s: string, k: nat, t: string)
    requires k < |Shape(s)|
    requires var c := Span(s, k).0; Agree(s, t, c) && c < |t| && t[c] == '"'
    ensures Shape(t) == Shape(s)[..k] + Shape(t[Span(s, k).0..])
    decreases |s|
  {
    var c := Span(s, k).0;
    if Blank(s[0]) {
      assert t[0] == s[0];
      ShapeBefore(s[1..], k, t[1..]);
      assert t[1..][c - 1..] == t[c..];
    } else if k > 0 {
      var (first, n) := First(s);
      FirstBefore(s, t, c);
      assert t[0] == s[0];
      ShapeBefore(s[n..], k - 1, t[n..]);
      assert t[n..][c - n..] == t[c..];
      FirstKept(first, Shape(s[n..]), k, Shape(t[c..]));
    }
  }

  lemma {:induction false} FirstKept<T>(first: T, rest: seq<T>, k: nat, tail: seq<T>)
    requires 0 < k <= |rest| + 1
    ensures [first] + (rest[..k - 1] + tail) == ([first] + rest)[..k] + tail
  {
    assert ([first] + rest)[..k] == [first] + rest[..k - 1];
  }

  /** Splicing a literal over one token changes that token and no other. */
  lemma {:induction false} ShapeOfSplice(s: string, k: nat, v: string)
    requires k < |Shape(s)| && Literal(v)
    ensures Shape(Splice(s, Span(s, k).0, Span(s, k).1, v)) == Shape(s)[..k] + [Str(v)] + Shape(s)[k + 1..]
  {
    var (c, e) := Span(s, k);
    var t := Splice(s, c, e, v);
    var rest := "\"" + v + "\"" + s[e..];
    FirstOfLiteral(v, s[e..]);
    assert t[c..] == rest && rest[0] == '"';
    ShapeBefore(s, k, t);
    ShapeAfter(s, k);
    assert Shape(rest) == [Str(v)] + Shape(s[e..]);
    Assoc(Shape(s)[..k], [Str(v)], Shape(s[e..]));
  }

  lemma {:induction false} CloseLiteral(v: string, rest: string)
    requires Literal(v)
    ensures Close(v + "\"" + rest, '"') == |v|
  {
    if v != "" {
      CloseLiteral(v[1..], rest);
      assert (v + "\"" + rest)[1..] == v[1..] + "\"" + rest;
    }
  }

  lemma {:induction false} FirstOfLiteral(v: string, rest: string)
    requires Literal(v)
    ensures var t := "\"" + v + "\"" + rest;
            First(t) == (Str(v), |v| + 2) && t[|v| + 2..] == rest
  {
    CloseLiteral(v, rest);
    var t := "\"" + v + "\"" + rest;
    assert t[0] == '"' && t[1..] == v + "\"" + rest;
    assert t[1..1 + |v|] == v;
  }

  /** A token that ends by column `c` is the same in any text equal up to `c` with a quote there. */
  lemma {:induction false} FirstBefore(s: string, t: string, c: nat)
    requires s != "" && First(s).1 <= c < |s| && Agree(s, t, c) && c < |t| && t[c] == '"'
    ensures t != "" && First(t) == First(s)
  {
    assert s[0] == t[0];
    if Quote(s[0]) {
      CloseBefore(s[1..], t[1..], s[0], c - 1);
      var n := Close(s[1..], s[0]);
      assert t[1..n + 1] == s[1..n + 1];
    } else if IdChar(s[0]) {
      IdBefore(s, t, c);
      assert t[..IdLength(s)] == s[..IdLength(s)];
    }
  }

  lemma {:induction false} CloseBefore(s: string, t: string, q: char, c: nat)
    requires Close(s, q) < c && Agree(s, t, c)
    ensures Close(t, q) == Close(s, q)
  {
    if s[0] != q {
      CloseBefore(s[1..], t[1..], q, c - 1);
    }
  }

  lemma {:induction false} IdBefore(s: string, t: string, c: nat)
    requires IdLength(s) <= c && Agree(s, t, c) && c < |t| && !IdChar(t[c])
    ensures IdLength(t) == IdLength(s)
  {
    if c > 0 && IdChar(s[0]) {
      IdBefore(s[1..], t[1..], c - 1);
    }
  }

  // ---------------------------------------------------------------- where tokens sit

  /** All tokens of a run of lines, in reading order; line ends carry no meaning inside the literal. */
  function Tokens(lines: seq<string>): seq<Token> {
    if lines == [] then [] else Shape(lines[0]) + Tokens(lines[1..])
  }

  datatype Place = Place(line: nat, col: nat, end: nat)

  /** Source coordinates of token `t`, with `lines[0]` as line number `at`. */
  function PlaceOf(lines: seq<string>, at: nat, t: nat): (p: Place)
    requires t < |Tokens(lines)|
    ensures at <= p.line < at + |lines|
  {
    var n := |Shape(lines[0])|;
    if t < n then Place(at, Span(lines[0], t).0, Span(lines[0], t).1)
    else PlaceOf(lines[1..], at + 1, t - n)
  }

  lemma {:induction false} SpanOrder(s: string, j: nat, k: nat)
    requires j < k < |Shape(s)|
    ensures Span(s, j).1 <= Span(s, k).0
    decreases |s|
  {
    if Blank(s[0]) {
      SpanOrder(s[1..], j, k);
    } else if j > 0 {
      SpanOrder(s[First(s).1..], j - 1, k - 1);
    }
  }

  /** Reading order is source order, so no two tokens share coordinates. */
  lemma {:induction false} PlaceOrder(lines: seq<string>, at: nat, t: nat, u: nat)
    requires t < u < |Tokens(lines)|
    ensures var p, q := PlaceOf(lines, at, t), PlaceOf(lines, at, u);
            p.line < q.line || (p.line == q.line && p.end <= q.col)
  {
    var n := |Shape(lines[0])|;
    if u < n {
      SpanOrder(lines[0], t, u);
    } else if t >= n {
      PlaceOrder(lines[1..], at + 1, t - n, u - n);
    }
  }

  // ---------------------------------------------------------------- moves, top-down

  /** A pin move: the entry's coordinates, the value that replaces its old one, and the text of
      the note that records why. */
  datatype Move = Move(keyLine: nat, valueLine: nat, col: nat, end: nat, sha: string, note: Note)

  /** A note is a list of paragraphs, each behind its own prefix and wrapped to its own width less the
      indentation: `lines` gives its lines for the width that is left. */
  datatype Block = Block(prefix: string, width: nat, lines: int -> seq<string>)
  type Note = seq<Block>

  ghost predicate AllUnbroken(lines: seq<string>) { forall i :: 0 <= i < |lines| ==> NoBreak(lines[i]) }

  ghost predicate Unbroken(block: Block) { forall left: int :: AllUnbroken(block.lines(left)) }

  /** Every paragraph is emitted inside a comment. */
  predicate WellPrefixed(note: Note) {
    forall i :: 0 <= i < |note| ==> note[i].prefix != "" && note[i].prefix[0] == '#'
  }

  function KeyMove(moves: seq<Move>, line: nat): Option<Move> {
    if moves == [] then None
    else if moves[0].keyLine == line then Some(moves[0])
    else KeyMove(moves[1..], line)
  }

  function ValueMove(moves: seq<Move>, line: nat): Option<Move> {
    if moves == [] then None
    else if moves[0].valueLine == line then Some(moves[0])
    else ValueMove(moves[1..], line)
  }

  function Indent(line: string): (r: string)
    ensures forall i :: 0 <= i < |r| ==> Blank(r[i])
  {
    if line != "" && Blank(line[0]) then [line[0]] + Indent(line[1..]) else ""
  }

  function OrEmpty(chunks: seq<string>): (r: seq<string>)
    ensures r != []
  {
    if chunks == [] then [""] else chunks
  }

  function Prefixed(prefix: string, chunks: seq<string>, eol: string): (r: seq<string>)
    ensures |r| == |chunks|
    ensures forall i :: 0 <= i < |r| ==> r[i] == prefix + chunks[i] + eol
  {
    seq(|chunks|, i requires 0 <= i < |chunks| => prefix + chunks[i] + eol)
  }

  function Paragraph(block: Block, indent: string, eol: string): (r: seq<string>)
    ensures |r| > 0
  {
    Prefixed(indent + block.prefix, OrEmpty(block.lines(block.width - |indent|)), eol)
  }

  /** The comment block inserted above a moved entry. */
  function NoteLines(note: Note, indent: string, eol: string): seq<string> {
    if note == [] then [] else Paragraph(note[0], indent, eol) + NoteLines(note[1..], indent, eol)
  }

  function Spliced(line: string, at: nat, moves: seq<Move>): string {
    match ValueMove(moves, at)
    case None => line
    case Some(m) => if m.col <= m.end <= |line| then Splice(line, m.col, m.end, m.sha) else line
  }

  function NotesFor(line: string, at: nat, moves: seq<Move>, eol: string): seq<string> {
    match KeyMove(moves, at)
    case None => []
    case Some(m) => NoteLines(m.note, Indent(line), eol)
  }

  /** The rewritten source in one downward pass: every old line appears once, in order, with its
      moved value replaced, and the only new lines are the comment blocks above moved keys. */
  function TopDown(lines: seq<string>, at: nat, moves: seq<Move>, eol: string): seq<string> {
    if lines == [] then []
    else
      var line := Spliced(lines[0], at, moves);
      NotesFor(line, at, moves, eol) + [line] + TopDown(lines[1..], at + 1, moves, eol)
  }

  lemma {:induction false} IndentThenHash(indent: string, rest: string)
    requires forall i :: 0 <= i < |indent| ==> Blank(indent[i])
    ensures Shape(indent + "#" + rest) == []
  {
    var s := indent + "#" + rest;
    if indent != "" {
      IndentThenHash(indent[1..], rest);
      assert s[1..] == indent[1..] + "#" + rest;
    } else {
      assert s[0] == '#';
    }
  }

  lemma {:induction false} TokensAppend(a: seq<string>, b: seq<string>)
    ensures Tokens(a + b) == Tokens(a) + Tokens(b)
  {
    if a == [] {
      assert a + b == b;
    } else {
      TokensAppend(a[1..], b);
      assert (a + b)[0] == a[0] && (a + b)[1..] == a[1..] + b;
      Assoc(Shape(a[0]), Tokens(a[1..]), Tokens(b));
    }
  }

  lemma {:induction false} PrefixedTokens(indent: string, prefix: string, chunks: seq<string>, eol: string)
    requires forall i :: 0 <= i < |indent| ==> Blank(indent[i])
    requires prefix != "" && prefix[0] == '#'
    ensures Tokens(Prefixed(indent + prefix, chunks, eol)) == []
  {
    if chunks != [] {
      var all := Prefixed(indent + prefix, chunks, eol);
      PrefixedTokens(indent, prefix, chunks[1..], eol);
      assert all[1..] == Prefixed(indent + prefix, chunks[1..], eol);
      IndentThenHash(indent, prefix[1..] + chunks[0] + eol);
      assert all[0] == indent + "#" + (prefix[1..] + chunks[0] + eol);
    }
  }

  lemma {:induction false} ParagraphTokens(block: Block, indent: string, eol: string)
    requires block.prefix != "" && block.prefix[0] == '#' && forall i :: 0 <= i < |indent| ==> Blank(indent[i])
    ensures Tokens(Paragraph(block, indent, eol)) == []
  {
    PrefixedTokens(indent, block.prefix, OrEmpty(block.lines(block.width - |indent|)), eol);
  }

  /** A note adds lines and no tokens, whatever its text contains. */
  lemma {:induction false} NotesHaveNoTokens(note: Note, indent: string, eol: string)
    requires WellPrefixed(note) && forall i :: 0 <= i < |indent| ==> Blank(indent[i])
    ensures Tokens(NoteLines(note, indent, eol)) == []
  {
    if note != [] {
      ParagraphTokens(note[0], indent, eol);
      NotesHaveNoTokens(note[1..], indent, eol);
      TokensAppend(Paragraph(note[0], indent, eol), NoteLines(note[1..], indent, eol));
    }
  }

  // ---------------------------------------------------------------- tokens of the rewritten source

  /** Every move points at one value token of its line. */
  ghost predicate Placed(lines: seq<string>, at: nat, moves: seq<Move>) {
    forall i :: 0 <= i < |lines| ==> PlacedOn(lines[i], ValueMove(moves, at + i))
  }

  ghost predicate PlacedOn(line: string, m: Option<Move>) {
    m.Some? ==>
      && Literal(m.value.sha)
      && exists k :: 0 <= k < |Shape(line)| && Shape(line)[k] != Bad && Span(line, k) == (m.value.col, m.value.end)
  }

  /** Token `t` after the moves: the new value where a move points, else itself. */
  ghost function Retargeted(lines: seq<string>, at: nat, moves: seq<Move>, t: nat): Token
    requires t < |Tokens(lines)|
  {
    var p := PlaceOf(lines, at, t);
    var m := ValueMove(moves, p.line);
    if m.Some? && m.value.col == p.col then Str(m.value.sha) else Tokens(lines)[t]
  }

  /** Token `t` of the line numbered `at` after the moves. */
  function TokenAfter(line: string, at: nat, moves: seq<Move>, t: nat): Token
    requires t < |Shape(line)|
  {
    var m := ValueMove(moves, at);
    if m.Some? && m.value.col == Span(line, t).0 then Str(m.value.sha) else Shape(line)[t]
  }

  lemma {:induction false} RetargetedSplit(lines: seq<string>, at: nat, moves: seq<Move>, t: nat)
    requires t < |Tokens(lines)|
    ensures var n := |Shape(lines[0])|;
            Retargeted(lines, at, moves, t) ==
            if t < n then TokenAfter(lines[0], at, moves, t)
            else Retargeted(lines[1..], at + 1, moves, t - n)
  {
  }

  lemma {:induction false} SplicedTokens(line: string, at: nat, moves: seq<Move>)
    requires PlacedOn(line, ValueMove(moves, at))
    ensures |Shape(Spliced(line, at, moves))| == |Shape(line)|
    ensures forall t :: 0 <= t < |Shape(line)| ==>
              Shape(Spliced(line, at, moves))[t] == TokenAfter(line, at, moves, t)
  {
    var mv := ValueMove(moves, at);
    if mv.Some? {
      var m := mv.value;
      var k :| 0 <= k < |Shape(line)| && Shape(line)[k] != Bad && Span(line, k) == (m.col, m.end);
      var out := Shape(Splice(line, m.col, m.end, m.sha));
      ShapeOfSplice(line, k, m.sha);
      assert |out| == |Shape(line)| && out[k] == Str(m.sha);
      forall t | 0 <= t < |Shape(line)|
        ensures out[t] == TokenAfter(line, at, moves, t)
      {
        if t < k { SpanOrder(line, t, k); } else if k < t { SpanOrder(line, k, t); }
      }
    }
  }

  ghost predicate Commented(moves: seq<Move>) {
    forall i :: 0 <= i < |moves| ==> WellPrefixed(moves[i].note)
  }

  lemma {:induction false} KeyMoveIn(moves: seq<Move>, line: nat)
    requires KeyMove(moves, line).Some? && Commented(moves)
    ensures WellPrefixed(KeyMove(moves, line).value.note)
  {
    if moves[0].keyLine != line {
      KeyMoveIn(moves[1..], line);
    }
  }

  lemma {:induction false} TokensOfFirst(lines: seq<string>, at: nat, moves: seq<Move>, eol: string)
    requires lines != [] && Commented(moves)
    ensures Tokens(TopDown(lines, at, moves, eol)) ==
            Shape(Spliced(lines[0], at, moves)) + Tokens(TopDown(lines[1..], at + 1, moves, eol))
  {
    var line := Spliced(lines[0], at, moves);
    var notes := NotesFor(line, at, moves, eol);
    var rest := TopDown(lines[1..], at + 1, moves, eol);
    assert Tokens(notes) == [] by {
      match KeyMove(moves, at) {
        case None =>
        case Some(m) =>
          KeyMoveIn(moves, at);
          NotesHaveNoTokens(m.note, Indent(line), eol);
      }
    }
    TokensAppend(notes, [line] + rest);
    assert notes + [line] + rest == notes + ([line] + rest);
    assert ([line] + rest)[1..] == rest;
  }

  ghost predicate TokensMatch(out: seq<Token>, lines: seq<string>, at: nat, moves: seq<Move>) {
    && |out| == |Tokens(lines)|
    && forall t :: 0 <= t < |out| ==> out[t] == Retargeted(lines, at, moves, t)
  }

  lemma {:induction false} MatchCons(first: seq<Token>, rest: seq<Token>, lines: seq<string>, at: nat, moves: seq<Move>)
    requires lines != [] && |first| == |Shape(lines[0])|
    requires forall t :: 0 <= t < |first| ==> first[t] == TokenAfter(lines[0], at, moves, t)
    requires TokensMatch(rest, lines[1..], at + 1, moves)
    ensures TokensMatch(first + rest, lines, at, moves)
  {
    forall t | 0 <= t < |first + rest|
      ensures (first + rest)[t] == Retargeted(lines, at, moves, t)
    {
      RetargetedSplit(lines, at, moves, t);
    }
  }

  /** The rewrite changes exactly the tokens its moves point at. */
  lemma {:induction false} TokensOfTopDown(lines: seq<string>, at: nat, moves: seq<Move>, eol: string)
    requires Placed(lines, at, moves) && Commented(moves)
    ensures TokensMatch(Tokens(TopDown(lines, at, moves, eol)), lines, at, moves)
  {
    if lines != [] {
      assert PlacedOn(lines[0], ValueMove(moves, at + 0));
      SplicedTokens(lines[0], at, moves);
      PlacedTail(lines, at, moves);
      TokensOfTopDown(lines[1..], at + 1, moves, eol);
      TokensOfFirst(lines, at, moves, eol);
      MatchCons(Shape(Spliced(lines[0], at, moves)), Tokens(TopDown(lines[1..], at + 1, moves, eol)), lines, at, moves);
    }
  }

  lemma {:induction false} PlacedTail(lines: seq<string>, at: nat, moves: seq<Move>)
    requires lines != [] && Placed(lines, at, moves)
    ensures Placed(lines[1..], at + 1, moves)
  {
    forall i | 0 <= i < |lines[1..]|
      ensures PlacedOn(lines[1..][i], ValueMove(moves, at + 1 + i))
    {
      assert PlacedOn(lines[i + 1], ValueMove(moves, at + (i + 1)));
    }
  }

  // ---------------------------------------------------------------- reading the literal

  /** `SYMBOL = {` ... `}`: the token index of each key, or None when the literal is not a dict
      of single-token values under string keys. The value sits two tokens after its key. */
  function Entries(ts: seq<Token>, i: nat): Option<seq<nat>>
    decreases |ts| - i
  {
    if i + 1 == |ts| && ts[i] == Punct('}') then Some([])
    else if i + 3 < |ts| && ts[i].Str? && ts[i + 1] == Punct(':') && (ts[i + 2].Str? || ts[i + 2].Name?) then
      if ts[i + 3] == Punct(',') then
        match Entries(ts, i + 4)
        case None => None
        case Some(rest) => Some([i] + rest)
      else if ts[i + 3] == Punct('}') && i + 4 == |ts| then Some([i])
      else None
    else None
  }

  function Keys(ts: seq<Token>): Option<seq<nat>> {
    if |ts| > 3 && ts[0] == Name("_QUEUE_SCHEMA_PINS") && ts[1] == Punct('=') && ts[2] == Punct('{')
    then Entries(ts, 3) else None
  }

  /** Keys are literals, values literals or names, and entries do not overlap. */
  predicate KeysAt(ts: seq<Token>, i: nat, ks: seq<nat>) {
    && (forall a :: 0 <= a < |ks| ==> i <= ks[a] && EntryAt(ts, ks[a]))
    && (forall a, b :: 0 <= a < b < |ks| ==> ks[a] + 2 < ks[b])
  }

  predicate EntryAt(ts: seq<Token>, k: nat) {
    k + 2 < |ts| && ts[k].Str? && (ts[k + 2].Str? || ts[k + 2].Name?)
  }

  lemma {:induction false} EntriesShape(ts: seq<Token>, i: nat)
    requires Entries(ts, i).Some?
    ensures KeysAt(ts, i, Entries(ts, i).value)
    decreases |ts| - i
  {
    if i + 3 < |ts| && ts[i + 3] == Punct(',') && Entries(ts, i + 4).Some? {
      EntriesShape(ts, i + 4);
    }
  }

  /** Replacing values by literals leaves the entries where they were. */
  lemma {:induction false} EntriesStable(ts: seq<Token>, us: seq<Token>, i: nat)
    requires Entries(ts, i).Some? && |us| == |ts|
    requires forall t :: i <= t < |ts| ==>
               us[t] == ts[t] || (us[t].Str? && t >= 2 && t - 2 in Entries(ts, i).value)
    ensures Entries(us, i) == Entries(ts, i)
    decreases |ts| - i
  {
    var ks := Entries(ts, i).value;
    EntriesShape(ts, i);
    if i + 1 != |ts| || ts[i] != Punct('}') {
      assert ks[0] == i;
      forall k | k in ks && k != i
        ensures k > i + 2
      {
        var a :| 0 <= a < |ks| && ks[a] == k;
        assert ks[0] + 2 < ks[a];
      }
      assert us[i] == ts[i] && us[i + 1] == ts[i + 1] && us[i + 3] == ts[i + 3];
      if ts[i + 3] == Punct(',') {
        var rest := Entries(ts, i + 4).value;
        forall t | i + 4 <= t < |ts|
          ensures us[t] == ts[t] || (us[t].Str? && t >= 2 && t - 2 in rest)
        {
          if us[t] != ts[t] {
            assert t - 2 in [i] + rest;
          }
        }
        EntriesStable(ts, us, i + 4);
      }
    }
  }

  // ---------------------------------------------------------------- the registry

  /** The gating module: the lines of the `_QUEUE_SCHEMA_PINS` assignment, what precedes and
      follows it, and the module-level string constants its values may name. */
  datatype Source = Source(head: seq<string>, body: seq<string>, tail: seq<string>, consts: map<string, string>)

  type Pins = map<string, string>

  function ValueOf(tok: Token, consts: map<string, string>): Option<string> {
    match tok
    case Str(text) => Some(text)
    case Name(alias) => if alias in consts then Some(consts[alias]) else None
    case _ => None
  }

  /** Later duplicates of a key win, as in a dict display. */
  function PinsFrom(ts: seq<Token>, ks: seq<nat>, consts: map<string, string>): Option<Pins>
    requires KeysAt(ts, 0, ks)
  {
    if ks == [] then Some(map[])
    else
      var n := |ks| - 1;
      match (PinsFrom(ts, ks[..n], consts), ValueOf(ts[ks[n] + 2], consts))
      case (Some(pins), Some(sha)) => Some(pins[ts[ks[n]].text := sha])
      case _ => None
  }

  /** The key positions, when the literal can be read. */
  function KeysOf(ts: seq<Token>): (r: Option<seq<nat>>)
    ensures r.Some? ==> KeysAt(ts, 0, r.value)
  {
    match Keys(ts)
    case None => None
    case Some(ks) => (EntriesShape(ts, 3); Some(ks))
  }

  /** `_load_pin_registry`; None where it exits with an error. */
  function Load(src: Source): Option<Pins> {
    match KeysOf(Tokens(src.body))
    case None => None
    case Some(ks) => if ks == [] then None else PinsFrom(Tokens(src.body), ks, src.consts)
  }

  /** The entry a name stands for: the last key that spells it. */
  function LastKey(ts: seq<Token>, ks: seq<nat>, name: string): (r: Option<nat>)
    requires KeysAt(ts, 0, ks)
    ensures r.Some? ==> r.value in ks && EntryAt(ts, r.value) && ts[r.value].text == name
  {
    if ks == [] then None
    else if ts[ks[|ks| - 1]].text == name then Some(ks[|ks| - 1])
    else LastKey(ts, ks[..|ks| - 1], name)
  }

  lemma {:induction false} PinsByLastKey(ts: seq<Token>, ks: seq<nat>, consts: map<string, string>, name: string)
    requires KeysAt(ts, 0, ks) && PinsFrom(ts, ks, consts).Some?
    ensures var pins := PinsFrom(ts, ks, consts).value;
            var k := LastKey(ts, ks, name);
            && (name in pins <==> k.Some?)
            && (k.Some? ==> ValueOf(ts[k.value + 2], consts) == Some(pins[name]))
  {
    if ks != [] {
      PinsByLastKey(ts, ks[..|ks| - 1], consts, name);
    }
  }

  lemma {:induction false} PinsRead(ts: seq<Token>, ks: seq<nat>, consts: map<string, string>)
    requires KeysAt(ts, 0, ks)
    ensures PinsFrom(ts, ks, consts).Some? <==>
              forall a :: 0 <= a < |ks| ==> ValueOf(ts[ks[a] + 2], consts).Some?
  {
    if ks != [] {
      PinsRead(ts, ks[..|ks| - 1], consts);
    }
  }

  lemma {:induction false} SameLastKey(ts: seq<Token>, us: seq<Token>, ks: seq<nat>, name: string)
    requires KeysAt(ts, 0, ks) && KeysAt(us, 0, ks)
    requires forall a :: 0 <= a < |ks| ==> us[ks[a]] == ts[ks[a]]
    ensures LastKey(us, ks, name) == LastKey(ts, ks, name)
  {
    if ks != [] {
      SameLastKey(ts, us, ks[..|ks| - 1], name);
    }
  }

  predicate Tracks(src: Source, name: string) {
    KeysOf(Tokens(src.body)).Some? && LastKey(Tokens(src.body), KeysOf(Tokens(src.body)).value, name).Some?
  }

  function KeyOf(src: Source, name: string): (k: nat)
    requires Tracks(src, name)
    ensures EntryAt(Tokens(src.body), k)
  {
    LastKey(Tokens(src.body), KeysOf(Tokens(src.body)).value, name).value
  }

  /** The move of one pin, at the coordinates the registry was read with. */
  function MoveOf(src: Source, name: string, sha: string, note: Note): Move
    requires Tracks(src, name)
  {
    var key := PlaceOf(src.body, |src.head|, KeyOf(src, name));
    var value := PlaceOf(src.body, |src.head|, KeyOf(src, name) + 2);
    Move(key.line, value.line, value.col, value.end, sha, note)
  }

  function MovesOf(src: Source, names: seq<string>, sha: string, notes: map<string, Note>): (r: seq<Move>)
    requires forall i :: 0 <= i < |names| ==> Tracks(src, names[i]) && names[i] in notes && WellPrefixed(notes[names[i]])
    ensures |r| == |names|
    ensures forall i :: 0 <= i < |r| ==> r[i] == MoveOf(src, names[i], sha, notes[names[i]])
  {
    seq(|names|, i requires 0 <= i < |names| => MoveOf(src, names[i], sha, notes[names[i]]))
  }

  ghost predicate Distinct(names: seq<string>) {
    forall i, j :: 0 <= i < j < |names| ==> names[i] != names[j]
  }

  /** Moves whose line ranges do not touch. */
  ghost predicate Apart(moves: seq<Move>) {
    && (forall i :: 0 <= i < |moves| ==> moves[i].keyLine <= moves[i].valueLine)
    && (forall i, j :: 0 <= i < |moves| && 0 <= j < |moves| && i != j ==>
          moves[i].valueLine < moves[j].keyLine || moves[j].valueLine < moves[i].keyLine)
  }

  /** The line ranges of two tracked entries, from key to value, do not meet. */
  ghost predicate Clear(src: Source, m: string, n: string)
    requires Tracks(src, m) && Tracks(src, n)
  {
    var at := |src.head|;
    || PlaceOf(src.body, at, KeyOf(src, m) + 2).line < PlaceOf(src.body, at, KeyOf(src, n)).line
    || PlaceOf(src.body, at, KeyOf(src, n) + 2).line < PlaceOf(src.body, at, KeyOf(src, m)).line
  }

  /** The moved entries keep apart; entries that do not move may share lines as they like. */
  ghost predicate RangesApart(src: Source, names: seq<string>) {
    forall i, j :: 0 <= i < |names| && 0 <= j < |names| && i != j && Tracks(src, names[i]) && Tracks(src, names[j]) ==>
      Clear(src, names[i], names[j])
  }

  lemma {:induction false} MovesApart(src: Source, names: seq<string>, sha: string, notes: map<string, Note>)
    requires RangesApart(src, names)
    requires forall i :: 0 <= i < |names| ==> Tracks(src, names[i]) && names[i] in notes && WellPrefixed(notes[names[i]])
    ensures Apart(MovesOf(src, names, sha, notes))
  {
    var moves := MovesOf(src, names, sha, notes);
    forall i | 0 <= i < |names|
      ensures moves[i].keyLine <= moves[i].valueLine
    {
      PlaceOrder(src.body, |src.head|, KeyOf(src, names[i]), KeyOf(src, names[i]) + 2);
    }
    forall i, j | 0 <= i < |names| && 0 <= j < |names| && i != j
      ensures moves[i].valueLine < moves[j].keyLine || moves[j].valueLine < moves[i].keyLine
    {
      assert Clear(src, names[i], names[j]);
    }
  }

  lemma {:induction false} ValueMoveIs(moves: seq<Move>, i: nat)
    requires Apart(moves) && i < |moves|
    ensures ValueMove(moves, moves[i].valueLine) == Some(moves[i])
  {
    if i > 0 {
      ValueMoveIs(moves[1..], i - 1);
    }
  }

  lemma {:induction false} ValueMoveFrom(moves: seq<Move>, line: nat) returns (i: nat)
    requires ValueMove(moves, line).Some?
    ensures i < |moves| && ValueMove(moves, line) == Some(moves[i]) && moves[i].valueLine == line
  {
    if moves[0].valueLine == line {
      i := 0;
    } else {
      i := ValueMoveFrom(moves[1..], line);
      i := i + 1;
    }
  }

  lemma {:induction false} PlaceIsSpan(lines: seq<string>, at: nat, t: nat) returns (k: nat)
    requires t < |Tokens(lines)|
    ensures var p := PlaceOf(lines, at, t);
            && k < |Shape(lines[p.line - at])|
            && Shape(lines[p.line - at])[k] == Tokens(lines)[t]
            && Span(lines[p.line - at], k) == (p.col, p.end)
  {
    var n := |Shape(lines[0])|;
    if t < n {
      k := t;
    } else {
      k := PlaceIsSpan(lines[1..], at + 1, t - n);
    }
  }

  lemma {:induction false} TokenPlaced(lines: seq<string>, at: nat, t: nat)
    requires t < |Tokens(lines)| && Tokens(lines)[t] != Bad
    ensures var p := PlaceOf(lines, at, t);
            var line := lines[p.line - at];
            && Shape(line) != []
            && exists k :: 0 <= k < |Shape(line)| && Shape(line)[k] != Bad && Span(line, k) == (p.col, p.end)
  {
    var k := PlaceIsSpan(lines, at, t);
  }

  lemma {:induction false} MovePlaced(src: Source, name: string, sha: string, note: Note)
    requires Tracks(src, name) && Literal(sha)
    ensures var m := MoveOf(src, name, sha, note);
            && |src.head| <= m.keyLine < |src.head| + |src.body|
            && |src.head| <= m.valueLine < |src.head| + |src.body|
            && Shape(src.body[m.keyLine - |src.head|]) != []
            && PlacedOn(src.body[m.valueLine - |src.head|], Some(m))
  {
    var k := KeyOf(src, name);
    PlacedAs(src.body, |src.head|, k, k + 2, sha, note);
  }

  lemma {:induction false} PlacedAs(lines: seq<string>, at: nat, k: nat, v: nat, sha: string, note: Note)
    requires k < |Tokens(lines)| && v < |Tokens(lines)| && Literal(sha)
    requires Tokens(lines)[k] != Bad && Tokens(lines)[v] != Bad
    ensures var p, q := PlaceOf(lines, at, k), PlaceOf(lines, at, v);
            && Shape(lines[p.line - at]) != []
            && PlacedOn(lines[q.line - at], Some(Move(p.line, q.line, q.col, q.end, sha, note)))
  {
    TokenPlaced(lines, at, k);
    TokenPlaced(lines, at, v);
  }

  lemma {:induction false} MovesPlaced(src: Source, names: seq<string>, sha: string, notes: map<string, Note>)
    requires Literal(sha)
    requires forall i :: 0 <= i < |names| ==> Tracks(src, names[i]) && names[i] in notes && WellPrefixed(notes[names[i]])
    ensures Placed(src.body, |src.head|, MovesOf(src, names, sha, notes))
  {
    var moves := MovesOf(src, names, sha, notes);
    forall i | 0 <= i < |src.body|
      ensures PlacedOn(src.body[i], ValueMove(moves, |src.head| + i))
    {
      if ValueMove(moves, |src.head| + i).Some? {
        var j := ValueMoveFrom(moves, |src.head| + i);
        MovePlaced(src, names[j], sha, notes[names[j]]);
      }
    }
  }

  /** Two tokens on one line with the same column are the same token. */
  lemma {:induction false} SamePlace(lines: seq<string>, at: nat, t: nat, u: nat)
    requires t < |Tokens(lines)| && u < |Tokens(lines)|
    requires PlaceOf(lines, at, t).line == PlaceOf(lines, at, u).line
    requires PlaceOf(lines, at, t).col == PlaceOf(lines, at, u).col
    ensures t == u
  {
    PlaceWidth(lines, at, t);
    PlaceWidth(lines, at, u);
    if t < u {
      PlaceOrder(lines, at, t, u);
    } else if u < t {
      PlaceOrder(lines, at, u, t);
    }
  }

  lemma {:induction false} RetargetedElsewhere(src: Source, names: seq<string>, sha: string, notes: map<string, Note>, t: nat)
    requires forall i :: 0 <= i < |names| ==> Tracks(src, names[i]) && names[i] in notes && WellPrefixed(notes[names[i]])
    requires t < |Tokens(src.body)|
    requires forall i :: 0 <= i < |names| ==> KeyOf(src, names[i]) + 2 != t
    ensures Retargeted(src.body, |src.head|, MovesOf(src, names, sha, notes), t) == Tokens(src.body)[t]
  {
    var moves := MovesOf(src, names, sha, notes);
    var p := PlaceOf(src.body, |src.head|, t);
    if ValueMove(moves, p.line).Some? && ValueMove(moves, p.line).value.col == p.col {
      var j := ValueMoveFrom(moves, p.line);
      SamePlace(src.body, |src.head|, t, KeyOf(src, names[j]) + 2);
    }
  }

  /** Token `t` changes exactly when it is the value of a moved name. */
  lemma {:induction false} RetargetedValue(src: Source, names: seq<string>, sha: string, notes: map<string, Note>, t: nat)
    requires RangesApart(src, names)
    requires forall i :: 0 <= i < |names| ==> Tracks(src, names[i]) && names[i] in notes && WellPrefixed(notes[names[i]])
    requires t < |Tokens(src.body)|
    ensures var u := Retargeted(src.body, |src.head|, MovesOf(src, names, sha, notes), t);
            if exists i :: 0 <= i < |names| && KeyOf(src, names[i]) + 2 == t
            then u == Str(sha) else u == Tokens(src.body)[t]
  {
    if i :| 0 <= i < |names| && KeyOf(src, names[i]) + 2 == t {
      MovesApart(src, names, sha, notes);
      ValueMoveIs(MovesOf(src, names, sha, notes), i);
    } else {
      RetargetedElsewhere(src, names, sha, notes, t);
    }
  }

  lemma {:induction false} PlaceWidth(lines: seq<string>, at: nat, t: nat)
    requires t < |Tokens(lines)|
    ensures PlaceOf(lines, at, t).col < PlaceOf(lines, at, t).end
  {
    var k := PlaceIsSpan(lines, at, t);
  }

  function Rewritten(src: Source, names: seq<string>, sha: string, notes: map<string, Note>, eol: string): Source
    requires forall i :: 0 <= i < |names| ==> Tracks(src, names[i]) && names[i] in notes && WellPrefixed(notes[names[i]])
  {
    src.(body := TopDown(src.body, |src.head|, MovesOf(src, names, sha, notes), eol))
  }

  function Moved(pins: Pins, names: seq<string>, sha: string): Pins {
    pins + map n | n in names :: sha
  }

  /** A rewritten registry always reads back, to the old pins with the moved ones at the new
      value, whatever the notes say. */
  lemma {:induction false} RewrittenReloads(src: Source, names: seq<string>, sha: string, notes: map<string, Note>, eol: string)
    requires Load(src).Some? && RangesApart(src, names) && Literal(sha)
    requires forall i :: 0 <= i < |names| ==> Tracks(src, names[i]) && names[i] in notes && WellPrefixed(notes[names[i]])
    ensures Load(Rewritten(src, names, sha, notes, eol)) == Some(Moved(Load(src).value, names, sha))
  {
    var ts := Tokens(src.body);
    var ks := KeysOf(ts).value;
    var us := Tokens(Rewritten(src, names, sha, notes, eol).body);
    RewrittenTokens(src, names, sha, notes, eol);
    KeysKept(src, names, ts, us, ks, sha);
    PinsMoved(src, names, ts, us, ks, sha);
  }

  lemma {:induction false} RewrittenTokens(src: Source, names: seq<string>, sha: string, notes: map<string, Note>, eol: string)
    requires RangesApart(src, names) && Literal(sha)
    requires forall i :: 0 <= i < |names| ==> Tracks(src, names[i]) && names[i] in notes && WellPrefixed(notes[names[i]])
    ensures ValuesMoved(src, names, Tokens(src.body), Tokens(Rewritten(src, names, sha, notes, eol).body), sha)
  {
    var ts := Tokens(src.body);
    var us := Tokens(Rewritten(src, names, sha, notes, eol).body);
    MovesPlaced(src, names, sha, notes);
    TokensOfTopDown(src.body, |src.head|, MovesOf(src, names, sha, notes), eol);
    forall t | 0 <= t < |ts|
      ensures if exists i :: 0 <= i < |names| && KeyOf(src, names[i]) + 2 == t
              then us[t] == Str(sha) else us[t] == ts[t]
    {
      RetargetedValue(src, names, sha, notes, t);
    }
  }

  // ---------------------------------------------------------------- the next rewrite

  lemma {:induction false} NotesForTokens(line: string, at: nat, moves: seq<Move>, eol: string)
    requires Commented(moves)
    ensures Tokens(NotesFor(line, at, moves, eol)) == []
  {
    if KeyMove(moves, at).Some? {
      KeyMoveIn(moves, at);
      NotesHaveNoTokens(KeyMove(moves, at).value.note, Indent(line), eol);
    }
  }

  /** Token `t` is on a line above token `u`. */
  ghost predicate Above(lines: seq<string>, at: nat, t: nat, u: nat)
    requires t < |Tokens(lines)| && u < |Tokens(lines)|
  {
    PlaceOf(lines, at, t).line < PlaceOf(lines, at, u).line
  }

  /** How many tokens the lines hold that hold any. */
  function Loads(lines: seq<string>): seq<nat> {
    if lines == [] then [] else Load1(|Shape(lines[0])|) + Loads(lines[1..])
  }

  function Load1(n: nat): seq<nat> { if n == 0 then [] else [n] }

  /** Token `t` belongs to an earlier load than token `u`. */
  predicate Earlier(loads: seq<nat>, t: int, u: int) {
    loads != [] && u >= loads[0] && (t < loads[0] || Earlier(loads[1..], t - loads[0], u - loads[0]))
  }

  /** Which token is above which depends on the loads alone. */
  lemma {:induction false} AboveByLoads(lines: seq<string>, at: nat, t: nat, u: nat)
    requires t < |Tokens(lines)| && u < |Tokens(lines)|
    ensures Above(lines, at, t, u) <==> Earlier(Loads(lines), t, u)
  {
    var n := |Shape(lines[0])|;
    var rest := Loads(lines[1..]);
    assert n > 0 ==> ([n] + rest)[1..] == rest;
    assert n == 0 ==> [] + rest == rest;
    if n <= t && n <= u {
      AboveByLoads(lines[1..], at + 1, t - n, u - n);
    }
  }

  lemma {:induction false} NoLoad(lines: seq<string>)
    requires Tokens(lines) == []
    ensures Loads(lines) == []
  {
    if lines != [] {
      assert Shape(lines[0]) + Tokens(lines[1..]) == [];
      NoLoad(lines[1..]);
    }
  }

  lemma {:induction false} LoadsAppend(a: seq<string>, b: seq<string>)
    ensures Loads(a + b) == Loads(a) + Loads(b)
  {
    if a == [] {
      assert a + b == b;
    } else {
      LoadsAppend(a[1..], b);
      assert (a + b)[0] == a[0] && (a + b)[1..] == a[1..] + b;
      Assoc(Load1(|Shape(a[0])|), Loads(a[1..]), Loads(b));
    }
  }

  lemma {:induction false} LoadsCons(notes: seq<string>, line: string, rest: seq<string>)
    requires Tokens(notes) == []
    ensures Loads(notes + [line] + rest) == Load1(|Shape(line)|) + Loads(rest)
  {
    Assoc(notes, [line], rest);
    LoadsAppend(notes, [line] + rest);
    NoLoad(notes);
    assert ([line] + rest)[1..] == rest;
  }

  /** The rewrite adds whole lines without tokens and keeps the tokens of every line on one line. */
  lemma {:induction false} LoadsKept(lines: seq<string>, at: nat, moves: seq<Move>, eol: string)
    requires Placed(lines, at, moves) && Commented(moves)
    ensures Loads(TopDown(lines, at, moves, eol)) == Loads(lines)
  {
    if lines != [] {
      var line := Spliced(lines[0], at, moves);
      PlacedTail(lines, at, moves);
      LoadsKept(lines[1..], at + 1, moves, eol);
      assert PlacedOn(lines[0], ValueMove(moves, at + 0));
      SplicedTokens(lines[0], at, moves);
      NotesForTokens(line, at, moves, eol);
      LoadsCons(NotesFor(line, at, moves, eol), line, TopDown(lines[1..], at + 1, moves, eol));
    }
  }

  ghost predicate ValuesMoved(src: Source, names: seq<string>, ts: seq<Token>, us: seq<Token>, sha: string) {
    && |us| == |ts|
    && (forall i :: 0 <= i < |names| ==> Tracks(src, names[i]))
    && forall t :: 0 <= t < |ts| ==>
         if exists i :: 0 <= i < |names| && KeyOf(src, names[i]) + 2 == t
         then us[t] == Str(sha) else us[t] == ts[t]
  }

  lemma {:induction false} KeysKept(src: Source, names: seq<string>, ts: seq<Token>, us: seq<Token>, ks: seq<nat>, sha: string)
    requires ts == Tokens(src.body) && KeysOf(ts) == Some(ks) && ValuesMoved(src, names, ts, us, sha)
    ensures KeysOf(us) == Some(ks)
    ensures forall a :: 0 <= a < |ks| ==> us[ks[a]] == ts[ks[a]]
  {
    EntriesShape(ts, 3);
    forall t | 0 <= t < |ts| && us[t] != ts[t]
      ensures us[t].Str? && t >= 2 && t - 2 in ks
    {
    }
    forall a | 0 <= a < |ks|
      ensures us[ks[a]] == ts[ks[a]]
    {
      assert forall b :: 0 <= b < |ks| ==> ks[b] + 2 != ks[a];
    }
    EntriesStable(ts, us, 3);
    assert us[0] == ts[0] && us[1] == ts[1] && us[2] == ts[2];
  }

  lemma {:induction false} ValueAfter(src: Source, names: seq<string>, ts: seq<Token>, us: seq<Token>, ks: seq<nat>, sha: string, n: string)
    requires ts == Tokens(src.body) && KeysOf(ts) == Some(ks) && ValuesMoved(src, names, ts, us, sha)
    ensures n in names ==> LastKey(ts, ks, n).Some?
    ensures LastKey(ts, ks, n).Some? ==>
              var v := LastKey(ts, ks, n).value + 2;
              us[v] == if n in names then Str(sha) else ts[v]
  {
    if n in names {
      var i :| 0 <= i < |names| && names[i] == n;
      assert KeyOf(src, names[i]) + 2 == LastKey(ts, ks, n).value + 2;
    } else if LastKey(ts, ks, n).Some? {
      var v := LastKey(ts, ks, n).value + 2;
      assert us[v] == ts[v];
    }
  }

  lemma {:induction false} PinMoved(ts: seq<Token>, us: seq<Token>, ks: seq<nat>, consts: map<string, string>,
                 names: seq<string>, sha: string, n: string)
    requires KeysAt(ts, 0, ks) && KeysAt(us, 0, ks)
    requires PinsFrom(ts, ks, consts).Some? && PinsFrom(us, ks, consts).Some?
    requires forall a :: 0 <= a < |ks| ==> us[ks[a]] == ts[ks[a]]
    requires n in names ==> LastKey(ts, ks, n).Some?
    requires LastKey(ts, ks, n).Some? ==>
               var v := LastKey(ts, ks, n).value + 2;
               us[v] == if n in names then Str(sha) else ts[v]
    ensures MovedAt(PinsFrom(ts, ks, consts).value, PinsFrom(us, ks, consts).value, names, sha, n)
  {
    PinsByLastKey(ts, ks, consts, n);
    PinsByLastKey(us, ks, consts, n);
    SameLastKey(ts, us, ks, n);
  }

  lemma {:induction false} PinsStillRead(src: Source, names: seq<string>, ts: seq<Token>, us: seq<Token>, ks: seq<nat>, sha: string)
    requires KeysAt(ts, 0, ks) && KeysAt(us, 0, ks) && ValuesMoved(src, names, ts, us, sha)
    requires PinsFrom(ts, ks, src.consts).Some?
    ensures PinsFrom(us, ks, src.consts).Some?
  {
    PinsRead(ts, ks, src.consts);
    PinsRead(us, ks, src.consts);
    forall a | 0 <= a < |ks|
      ensures ValueOf(us[ks[a] + 2], src.consts).Some?
    {
      assert us[ks[a] + 2] == ts[ks[a] + 2] || us[ks[a] + 2] == Str(sha);
    }
  }

  lemma {:induction false} PinsMoved(src: Source, names: seq<string>, ts: seq<Token>, us: seq<Token>, ks: seq<nat>, sha: string)
    requires ts == Tokens(src.body) && KeysOf(ts) == Some(ks) && ValuesMoved(src, names, ts, us, sha)
    requires KeysOf(us) == Some(ks) && PinsFrom(ts, ks, src.consts).Some?
    requires forall a :: 0 <= a < |ks| ==> us[ks[a]] == ts[ks[a]]
    ensures PinsFrom(us, ks, src.consts) == Some(Moved(PinsFrom(ts, ks, src.consts).value, names, sha))
  {
    PinsStillRead(src, names, ts, us, ks, sha);
    var before := PinsFrom(ts, ks, src.consts).value;
    var after := PinsFrom(us, ks, src.consts).value;
    forall n
      ensures MovedAt(before, after, names, sha, n)
    {
      ValueAfter(src, names, ts, us, ks, sha, n);
      PinMoved(ts, us, ks, src.consts, names, sha, n);
    }
    MovedEverywhere(before, after, names, sha);
  }

  predicate MovedAt(before: Pins, after: Pins, names: seq<string>, sha: string, n: string) {
    && (n in after <==> n in before)
    && (n in names ==> n in after && after[n] == sha)
    && (n !in names && n in before ==> after[n] == before[n])
  }

  lemma {:induction false} MovedEverywhere(before: Pins, after: Pins, names: seq<string>, sha: string)
    requires forall n :: MovedAt(before, after, names, sha, n)
    ensures after == Moved(before, names, sha)
  {
    var m := Moved(before, names, sha);
    forall n
      ensures n in after <==> n in m
      ensures n in after ==> after[n] == m[n]
    {
      assert MovedAt(before, after, names, sha, n);
    }
  }
}
