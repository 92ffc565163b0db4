/** Rewriting the pin registry: the in-place edit loop, what happens when moved entries meet, and the way
    back to text. */
module PinRewrite {
  import opened Text
  import opened PinRegistry

  // ---------------------------------------------------------------- the bottom-up rewrite

  /** `sorted(moves, key=key_lineno, reverse=True)` */
  function Insert(m: Move, moves: seq<Move>): seq<Move> {
    if moves == [] || moves[0].keyLine <= m.keyLine then [m] + moves
    else [moves[0]] + Insert(m, moves[1..])
  }

  function SortDown(moves: seq<Move>): seq<Move> {
    if moves == [] then [] else Insert(moves[0], SortDown(moves[1..]))
  }

  lemma {:induction false} InsertHolds(m: Move, moves: seq<Move>)
    ensures |Insert(m, moves)| == |moves| + 1
    ensures forall i :: 0 <= i < |Insert(m, moves)| ==> Insert(m, moves)[i] == m || Insert(m, moves)[i] in moves
  {
    if moves != [] && moves[0].keyLine > m.keyLine {
      InsertHolds(m, moves[1..]);
    }
  }

  lemma {:induction false} SortHolds(moves: seq<Move>)
    ensures |SortDown(moves)| == |moves|
    ensures forall i :: 0 <= i < |SortDown(moves)| ==> SortDown(moves)[i] in moves
  {
    if moves != [] {
      SortHolds(moves[1..]);
      InsertHolds(moves[0], SortDown(moves[1..]));
    }
  }

  /** Moves in the order they are applied: bottom-up, each wholly below the next. */
  ghost predicate BottomUp(moves: seq<Move>) {
    && (forall i :: 0 <= i < |moves| ==> moves[i].keyLine <= moves[i].valueLine)
    && (forall i, j :: 0 <= i < j < |moves| ==> moves[j].valueLine < moves[i].keyLine)
  }

  ghost predicate ApartFrom(m: Move, moves: seq<Move>) {
    && m.keyLine <= m.valueLine
    && forall i :: 0 <= i < |moves| ==>
         moves[i].valueLine < m.keyLine || m.valueLine < moves[i].keyLine
  }

  lemma {:induction false} InsertBottomUp(m: Move, moves: seq<Move>)
    requires BottomUp(moves) && ApartFrom(m, moves)
    ensures BottomUp(Insert(m, moves))
  {
    if moves == [] {
    } else if moves[0].keyLine <= m.keyLine {
      assert forall i :: 0 <= i < |moves| ==> moves[i].valueLine < m.keyLine;
    } else {
      var rest := Insert(m, moves[1..]);
      InsertBottomUp(m, moves[1..]);
      InsertHolds(m, moves[1..]);
      forall i | 0 <= i < |rest|
        ensures rest[i].valueLine < moves[0].keyLine
      {
        assert rest[i] == m || rest[i] in moves[1..];
      }
    }
  }

  lemma {:induction false} MoveCons(m: Move, moves: seq<Move>, line: nat)
    ensures KeyMove([m] + moves, line) == if m.keyLine == line then Some(m) else KeyMove(moves, line)
    ensures ValueMove([m] + moves, line) == if m.valueLine == line then Some(m) else ValueMove(moves, line)
  {
    assert ([m] + moves)[1..] == moves;
  }

  lemma {:induction false} InsertKeeps(m: Move, moves: seq<Move>, line: nat)
    requires ApartFrom(m, moves) && (forall i :: 0 <= i < |moves| ==> moves[i].keyLine <= moves[i].valueLine)
    ensures KeyMove(Insert(m, moves), line) == KeyMove([m] + moves, line)
    ensures ValueMove(Insert(m, moves), line) == ValueMove([m] + moves, line)
  {
    if moves != [] && moves[0].keyLine > m.keyLine {
      InsertKeeps(m, moves[1..], line);
      MoveCons(m, moves, line);
      MoveCons(m, moves[1..], line);
      MoveCons(moves[0], Insert(m, moves[1..]), line);
    }
  }

  /** Sorting moves that keep apart gives the bottom-up order and loses none of them. */
  lemma {:induction false} SortDownBottomUp(moves: seq<Move>)
    requires Apart(moves)
    ensures BottomUp(SortDown(moves))
    ensures forall line :: KeyMove(SortDown(moves), line) == KeyMove(moves, line)
    ensures forall line :: ValueMove(SortDown(moves), line) == ValueMove(moves, line)
  {
    if moves != [] {
      var m, rest := moves[0], SortDown(moves[1..]);
      SortDownBottomUp(moves[1..]);
      SortHolds(moves[1..]);
      forall i | 0 <= i < |rest|
        ensures rest[i].valueLine < m.keyLine || m.valueLine < rest[i].keyLine
      {
        assert rest[i] in moves[1..];
        var j :| 0 <= j < |moves[1..]| && moves[1..][j] == rest[i];
        assert moves[j + 1] == rest[i];
      }
      InsertBottomUp(m, rest);
      forall line
        ensures KeyMove(SortDown(moves), line) == KeyMove(moves, line)
        ensures ValueMove(SortDown(moves), line) == ValueMove(moves, line)
      {
        InsertKeeps(m, rest, line);
        MoveCons(m, rest, line);
      }
    }
  }

  lemma {:induction false} SameTopDown(lines: seq<string>, at: nat, moves: seq<Move>, others: seq<Move>, eol: string)
    requires forall line :: KeyMove(moves, line) == KeyMove(others, line)
    requires forall line :: ValueMove(moves, line) == ValueMove(others, line)
    ensures TopDown(lines, at, moves, eol) == TopDown(lines, at, others, eol)
  {
    if lines != [] {
      SameTopDown(lines[1..], at + 1, moves, others, eol);
    }
  }

  lemma {:induction false} KeyMoveNone(moves: seq<Move>, line: nat)
    requires forall i :: 0 <= i < |moves| ==> moves[i].keyLine != line
    ensures KeyMove(moves, line) == None
  {
    if moves != [] { KeyMoveNone(moves[1..], line); }
  }

  lemma {:induction false} ValueMoveNone(moves: seq<Move>, line: nat)
    requires forall i :: 0 <= i < |moves| ==> moves[i].valueLine != line
    ensures ValueMove(moves, line) == None
  {
    if moves != [] { ValueMoveNone(moves[1..], line); }
  }

  lemma {:induction false} KeyMoveIs(moves: seq<Move>, i: nat)
    requires BottomUp(moves) && i < |moves|
    ensures KeyMove(moves, moves[i].keyLine) == Some(moves[i])
    ensures ValueMove(moves, moves[i].valueLine) == Some(moves[i])
  {
    if i > 0 {
      KeyMoveIs(moves[1..], i - 1);
    }
  }

  /** Lines with a block of inserted lines above each, from line `i` on. */
  function Weave<T>(lines: seq<T>, above: seq<seq<T>>, i: nat): seq<T>
    requires |above| == |lines|
    decreases |lines| - i
  {
    if i >= |lines| then [] else above[i] + ([lines[i]] + Weave(lines, above, i + 1))
  }

  lemma {:induction false} WeavePlain<T>(lines: seq<T>, above: seq<seq<T>>, a: nat, b: nat)
    requires |above| == |lines| && a <= b <= |lines|
    requires forall i :: a <= i < b ==> above[i] == []
    ensures Weave(lines, above, a) == lines[a..b] + Weave(lines, above, b)
    decreases b - a
  {
    if a < b {
      WeavePlain(lines, above, a + 1, b);
      PlainFirst(above[a], lines[a], lines[a + 1..b], Weave(lines, above, b));
      assert lines[a..b] == [lines[a]] + lines[a + 1..b];
    }
  }

  lemma {:induction false} PlainFirst<T>(none: seq<T>, first: T, rest: seq<T>, tail: seq<T>)
    requires none == []
    ensures none + ([first] + (rest + tail)) == [first] + rest + tail
  {
  }

  function EditedLines(lines: seq<string>, moves: seq<Move>): (r: seq<string>)
    ensures |r| == |lines|
    ensures forall i :: 0 <= i < |lines| ==> r[i] == Spliced(lines[i], i, moves)
  {
    seq(|lines|, i requires 0 <= i < |lines| => Spliced(lines[i], i, moves))
  }

  function NotesAbove(lines: seq<string>, moves: seq<Move>, eol: string): (r: seq<seq<string>>)
    ensures |r| == |lines|
    ensures forall i :: 0 <= i < |lines| ==> r[i] == NotesFor(Spliced(lines[i], i, moves), i, moves, eol)
  {
    seq(|lines|, i requires 0 <= i < |lines| => NotesFor(Spliced(lines[i], i, moves), i, moves, eol))
  }

  lemma {:induction false} TopDownIsWeave(lines: seq<string>, i: nat, moves: seq<Move>, eol: string)
    requires i <= |lines|
    ensures TopDown(lines[i..], i, moves, eol) == Weave(EditedLines(lines, moves), NotesAbove(lines, moves, eol), i)
    decreases |lines| - i
  {
    if i < |lines| {
      TopDownIsWeave(lines, i + 1, moves, eol);
      assert lines[i..][0] == lines[i] && lines[i..][1..] == lines[i + 1..];
    }
  }

  /** `out` without the `|above[i]|` lines in front of its i-th old line. */
  function DropNotes<T>(out: seq<T>, above: seq<seq<T>>, i: nat): seq<T>
    decreases |above| - i
  {
    if i >= |above| || |out| <= |above[i]| then []
    else [out[|above[i]|]] + DropNotes(out[|above[i]| + 1..], above, i + 1)
  }

  lemma {:induction false} WeaveUndone<T>(lines: seq<T>, above: seq<seq<T>>, i: nat)
    requires |above| == |lines| && i <= |lines|
    ensures DropNotes(Weave(lines, above, i), above, i) == lines[i..]
    decreases |lines| - i
  {
    if i < |lines| {
      var out, rest := Weave(lines, above, i), Weave(lines, above, i + 1);
      WeaveUndone(lines, above, i + 1);
      assert out[|above[i]|] == lines[i] && out[|above[i]| + 1..] == rest;
      assert lines[i..] == [lines[i]] + lines[i + 1..];
    }
  }

  /** Line `i` is as before, or one move replaced one span of it. */
  ghost predicate OnlySpan(line: string, now: string, i: nat, moves: seq<Move>) {
    now == line || exists k :: 0 <= k < |moves| && moves[k].valueLine == i
                               && moves[k].col <= moves[k].end <= |line|
                               && now == Splice(line, moves[k].col, moves[k].end, moves[k].sha)
  }

  /** Deleting the inserted comment lines gives back the original lines except for the replaced value
      spans, and what is deleted holds no token at all, whatever the reason text contains. */
  lemma {:induction false} NotesDropped(lines: seq<string>, moves: seq<Move>, eol: string)
    requires Commented(moves)
    ensures var above := NotesAbove(lines, moves, eol);
            var left := DropNotes(TopDown(lines, 0, moves, eol), above, 0);
            && |left| == |lines|
            && (forall i :: 0 <= i < |lines| ==> OnlySpan(lines[i], left[i], i, moves))
            && (forall i :: 0 <= i < |lines| ==> Tokens(above[i]) == [])
  {
    var edited, above := EditedLines(lines, moves), NotesAbove(lines, moves, eol);
    TopDownIsWeave(lines, 0, moves, eol);
    WeaveUndone(edited, above, 0);
    assert lines[0..] == lines && edited[0..] == edited;
    forall i | 0 <= i < |lines|
      ensures OnlySpan(lines[i], edited[i], i, moves) && Tokens(above[i]) == []
    {
      if ValueMove(moves, i).Some? {
        var k := ValueMoveFrom(moves, i);
      }
      if KeyMove(moves, i).Some? {
        KeyMoveIn(moves, i);
        NotesHaveNoTokens(KeyMove(moves, i).value.note, Indent(edited[i]), eol);
      }
    }
  }

  ghost predicate InRange(moves: seq<Move>, lines: seq<string>) {
    forall i :: 0 <= i < |moves| ==>
      moves[i].keyLine <= moves[i].valueLine < |lines| && moves[i].col <= moves[i].end <= |lines[moves[i].valueLine]|
  }

  /** The lines above `cut` with move `i` spliced in. */
  function Top(source: seq<string>, cut: nat, m: Move): seq<string>
    requires m.valueLine < cut <= |source| && m.col <= m.end <= |source[m.valueLine]|
  {
    source[..cut][m.valueLine := Splice(source[m.valueLine], m.col, m.end, m.sha)]
  }

  lemma {:induction false} TopLine(source: seq<string>, cut: nat, moves: seq<Move>, i: nat, l: nat)
    requires BottomUp(moves) && InRange(moves, source) && i < |moves| && cut <= |source|
    requires moves[i].valueLine < cut && moves[i].keyLine <= l < cut
    requires forall j :: 0 <= j < i ==> cut <= moves[j].keyLine
    ensures l != moves[i].keyLine ==> KeyMove(moves, l) == None
    ensures Top(source, cut, moves[i])[l] == Spliced(source[l], l, moves)
  {
    assert forall j :: 0 <= j < |moves| && j != i ==> moves[j].keyLine != l && moves[j].valueLine != l;
    if l != moves[i].keyLine { KeyMoveNone(moves, l); }
    if l != moves[i].valueLine { ValueMoveNone(moves, l); } else { KeyMoveIs(moves, i); }
  }

  /** One move applied above line `cut`, all lines from there on already rewritten. */
  lemma {:induction false} StepDown(source: seq<string>, cut: nat, moves: seq<Move>, i: nat, eol: string,
                 edited: seq<string>, above: seq<seq<string>>)
    requires BottomUp(moves) && InRange(moves, source) && i < |moves| && cut <= |source|
    requires moves[i].valueLine < cut
    requires forall j :: 0 <= j < i ==> cut <= moves[j].keyLine
    requires edited == EditedLines(source, moves) && above == NotesAbove(source, moves, eol)
    ensures var m := moves[i];
            var top := Top(source, cut, m);
            Weave(edited, above, m.keyLine) ==
            NoteLines(m.note, Indent(top[m.keyLine]), eol) + (top[m.keyLine..] + Weave(edited, above, cut))
  {
    var k := moves[i].keyLine;
    var top := Top(source, cut, moves[i]);
    forall l | k <= l < cut
      ensures edited[l] == top[l]
      ensures l != k ==> above[l] == []
    {
      TopLine(source, cut, moves, i, l);
    }
    KeyMoveIs(moves, i);
    WeaveStep(edited, above, k, cut, top);
  }

  lemma {:induction false} WeaveStep<T>(lines: seq<T>, above: seq<seq<T>>, k: nat, cut: nat, top: seq<T>)
    requires |above| == |lines| && k < cut <= |lines| && |top| == cut
    requires forall l :: k <= l < cut ==> lines[l] == top[l]
    requires forall l :: k < l < cut ==> above[l] == []
    ensures Weave(lines, above, k) == above[k] + (top[k..] + Weave(lines, above, cut))
  {
    WeavePlain(lines, above, k + 1, cut);
    Assoc([lines[k]], lines[k + 1..cut], Weave(lines, above, cut));
    assert top[k..] == [lines[k]] + lines[k + 1..cut];
  }

  lemma {:induction false} Untouched(source: seq<string>, cut: nat, moves: seq<Move>, eol: string)
    requires cut <= |source|
    requires forall j :: 0 <= j < |moves| ==> cut <= moves[j].keyLine <= moves[j].valueLine
    ensures var edited, above := EditedLines(source, moves), NotesAbove(source, moves, eol);
            Weave(edited, above, 0) == source[..cut] + Weave(edited, above, cut)
  {
    var edited, above := EditedLines(source, moves), NotesAbove(source, moves, eol);
    forall l | 0 <= l < cut
      ensures above[l] == [] && edited[l] == source[l]
    {
      KeyMoveNone(moves, l);
      ValueMoveNone(moves, l);
    }
    WeavePlain(edited, above, 0, cut);
    assert edited[0..cut] == source[..cut];
  }

  lemma {:induction false} InsertAbove(source: seq<string>, cut: nat, m: Move, note: seq<string>, below: seq<string>)
    requires m.keyLine <= m.valueLine < cut <= |source| && m.col <= m.end <= |source[m.valueLine]|
    ensures var lines := source[..cut] + below;
            var edited := lines[m.valueLine := Splice(lines[m.valueLine], m.col, m.end, m.sha)];
            var top := Top(source, cut, m);
            && edited == top + below
            && edited[..m.keyLine] + note + edited[m.keyLine..] ==
               source[..m.keyLine] + (note + (top[m.keyLine..] + below))
  {
  }

  // ---------------------------------------------------------------- the edit loop

  function Upto(line: string, col: nat): (c: nat)
    ensures c <= |line|
  {
    if col <= |line| then col else |line|
  }

  /** The splice as Python slices it, whatever line the coordinates are applied to. */
  function SpliceAny(line: string, col: nat, end: nat, value: string): string {
    line[..Upto(line, col)] + ("\"" + value + "\"" + line[Upto(line, end)..])
  }

  /** One pass: the value spliced into its line, then a note inserted above the key. */
  function EditWith(lines: seq<string>, m: Move, note: seq<string>): (r: seq<string>)
    requires m.keyLine <= m.valueLine < |lines|
    ensures |r| == |lines| + |note|
  {
    var spliced := lines[m.valueLine := SpliceAny(lines[m.valueLine], m.col, m.end, m.sha)];
    spliced[..m.keyLine] + note + spliced[m.keyLine..]
  }

  /** The note a pass inserts. */
  function NoteIn(lines: seq<string>, m: Move, eol: string): seq<string>
    requires m.keyLine <= m.valueLine < |lines|
  {
    NoteLines(m.note, Indent(lines[m.valueLine := SpliceAny(lines[m.valueLine], m.col, m.end, m.sha)][m.keyLine]), eol)
  }

  function EditAny(lines: seq<string>, m: Move, eol: string): (r: seq<string>)
    requires m.keyLine <= m.valueLine < |lines|
    ensures |r| >= |lines|
  {
    EditWith(lines, m, NoteIn(lines, m, eol))
  }

  ghost predicate Inside(moves: seq<Move>, n: nat) {
    forall i :: 0 <= i < |moves| ==> moves[i].keyLine <= moves[i].valueLine < n
  }

  /** All passes, in the order given. */
  function EditAll(lines: seq<string>, moves: seq<Move>, eol: string): (r: seq<string>)
    requires Inside(moves, |lines|)
    ensures |r| >= |lines|
    decreases |moves|
  {
    if moves == [] then lines else EditAll(EditAny(lines, moves[0], eol), moves[1..], eol)
  }

  lemma {:induction false} EditStep(source: seq<string>, cut: nat, moves: seq<Move>, i: nat, eol: string,
                 edited: seq<string>, above: seq<seq<string>>)
    requires BottomUp(moves) && InRange(moves, source) && i < |moves| && cut <= |source|
    requires moves[i].valueLine < cut
    requires forall j :: 0 <= j < i ==> cut <= moves[j].keyLine
    requires edited == EditedLines(source, moves) && above == NotesAbove(source, moves, eol)
    ensures var m := moves[i];
            EditAny(source[..cut] + Weave(edited, above, cut), m, eol) ==
            source[..m.keyLine] + Weave(edited, above, m.keyLine)
  {
    var m := moves[i];
    var top := Top(source, cut, m);
    StepDown(source, cut, moves, i, eol, edited, above);
    InsertAbove(source, cut, m, NoteLines(m.note, Indent(top[m.keyLine]), eol), Weave(edited, above, cut));
  }

  /** Moves that keep apart, applied bottom-up, give the downward pass over the original lines. */
  lemma {:induction false} EditAllFrom(source: seq<string>, cut: nat, moves: seq<Move>, i: nat, eol: string,
                 edited: seq<string>, above: seq<seq<string>>)
    requires BottomUp(moves) && InRange(moves, source) && i <= |moves| && cut <= |source|
    requires forall j :: i <= j < |moves| ==> moves[j].valueLine < cut
    requires forall j :: 0 <= j < i ==> cut <= moves[j].keyLine
    requires edited == EditedLines(source, moves) && above == NotesAbove(source, moves, eol)
    requires Inside(moves[i..], |source[..cut] + Weave(edited, above, cut)|)
    ensures EditAll(source[..cut] + Weave(edited, above, cut), moves[i..], eol) == Weave(edited, above, 0)
    decreases |moves| - i
  {
    if i == |moves| {
      Untouched(source, cut, moves, eol);
    } else {
      var m := moves[i];
      EditStep(source, cut, moves, i, eol, edited, above);
      assert moves[i..][0] == m && moves[i..][1..] == moves[i + 1..];
      EditAllFrom(source, m.keyLine, moves, i + 1, eol, edited, above);
    }
  }

  lemma {:induction false} EditAllDownward(source: seq<string>, moves: seq<Move>, eol: string)
    requires Apart(moves) && InRange(moves, source)
    ensures Inside(SortDown(moves), |source|)
    ensures EditAll(source, SortDown(moves), eol) == TopDown(source, 0, moves, eol)
  {
    var order := SortDown(moves);
    SortDownBottomUp(moves);
    SortHolds(moves);
    assert InRange(order, source);
    var edited, above := EditedLines(source, order), NotesAbove(source, order, eol);
    assert source[..|source|] + Weave(edited, above, |source|) == source && order[0..] == order;
    EditAllFrom(source, |source|, order, 0, eol, edited, above);
    TopDownIsWeave(source, 0, order, eol);
    assert source[0..] == source;
    SameTopDown(source, 0, order, moves, eol);
  }

  lemma {:induction false} SortInside(moves: seq<Move>, n: nat)
    requires Inside(moves, n)
    ensures Inside(SortDown(moves), n)
  {
    SortHolds(moves);
  }

  /** Every paragraph of a note has width left beside the indentation; wrapping raises otherwise. */
  predicate HasRoom(note: Note, indent: string) { forall j :: 0 <= j < |note| ==> |indent| < note[j].width }

  /** Some pass finds its key line indented too far for its note. */
  predicate Cramped(lines: seq<string>, moves: seq<Move>, eol: string)
    requires Inside(moves, |lines|)
    decreases |moves|
  {
    moves != [] &&
    (!HasRoom(moves[0].note, KeyIndent(lines, moves[0])) || Cramped(EditAny(lines, moves[0], eol), moves[1..], eol))
  }

  function KeyIndent(lines: seq<string>, m: Move): string
    requires m.keyLine <= m.valueLine < |lines|
  {
    Indent(lines[m.valueLine := SpliceAny(lines[m.valueLine], m.col, m.end, m.sha)][m.keyLine])
  }

  /** The edit loop: descending by key line, splicing each value and inserting its note above the key, until
      wrapping a note raises. Where the moves keep apart no insertion disturbs the coordinates of a move
      still to come. */
  method RewritePinRegistry(source: seq<string>, moves: seq<Move>, eol: string) returns (lines: Option<seq<string>>)
    requires Inside(moves, |source|)
    ensures Inside(SortDown(moves), |source|)
    ensures lines == if Cramped(source, SortDown(moves), eol) then None else Some(EditAll(source, SortDown(moves), eol))
    ensures lines.Some? && Apart(moves) && InRange(moves, source) ==> lines.value == TopDown(source, 0, moves, eol)
  {
    var order := SortDown(moves);
    SortInside(moves, |source|);
    var current := source;
    for i := 0 to |order|
      invariant Inside(order[i..], |current|)
      invariant EditAll(current, order[i..], eol) == EditAll(source, order, eol)
      invariant Cramped(current, order[i..], eol) == Cramped(source, order, eol)
    {
      var m := order[i];
      assert order[i..][0] == m && order[i..][1..] == order[i + 1..];
      ghost var next := EditAny(current, m, eol);
      current := current[m.valueLine := SpliceAny(current[m.valueLine], m.col, m.end, m.sha)];
      var indent := Indent(current[m.keyLine]);
      if !HasRoom(m.note, indent) {
        return None;
      }
      current := current[..m.keyLine] + NoteLines(m.note, indent, eol) + current[m.keyLine..];
      assert current == next;
    }
    if Apart(moves) && InRange(moves, source) {
      EditAllDownward(source, moves, eol);
    }
    return Some(current);
  }

  // ---------------------------------------------------------------- what becomes of a line

  /** All passes with the notes given. */
  function EditSeq(lines: seq<string>, moves: seq<Move>, notes: seq<seq<string>>): (r: seq<string>)
    requires Inside(moves, |lines|) && |notes| == |moves|
    decreases |moves|
  {
    if moves == [] then lines else EditSeq(EditWith(lines, moves[0], notes[0]), moves[1..], notes[1..])
  }

  /** The notes the loop inserts, in the order it does. */
  function NotesUsed(lines: seq<string>, moves: seq<Move>, eol: string): (r: seq<seq<string>>)
    requires Inside(moves, |lines|)
    ensures |r| == |moves|
    decreases |moves|
  {
    if moves == [] then []
    else [NoteIn(lines, moves[0], eol)] + NotesUsed(EditAny(lines, moves[0], eol), moves[1..], eol)
  }

  lemma {:induction false} EditAllIsSeq(lines: seq<string>, moves: seq<Move>, eol: string)
    requires Inside(moves, |lines|)
    ensures EditAll(lines, moves, eol) == EditSeq(lines, moves, NotesUsed(lines, moves, eol))
    decreases |moves|
  {
    if moves != [] {
      EditAllIsSeq(EditAny(lines, moves[0], eol), moves[1..], eol);
    }
  }

  lemma {:induction false} NotesUsedSome(lines: seq<string>, moves: seq<Move>, eol: string)
    requires Inside(moves, |lines|) && forall i :: 0 <= i < |moves| ==> moves[i].note != []
    ensures forall i :: 0 <= i < |moves| ==> NotesUsed(lines, moves, eol)[i] != []
    decreases |moves|
  {
    if moves != [] {
      NotesUsedSome(EditAny(lines, moves[0], eol), moves[1..], eol);
    }
  }

  /** Where line `p` is after all passes. */
  function Slot(moves: seq<Move>, notes: seq<seq<string>>, p: nat): nat
    requires |notes| == |moves|
  {
    if moves == [] then p else Slot(moves[1..], notes[1..], if p < moves[0].keyLine then p else p + |notes[0]|)
  }

  lemma {:induction false} SlotInside(lines: seq<string>, moves: seq<Move>, notes: seq<seq<string>>, p: nat)
    requires Inside(moves, |lines|) && |notes| == |moves| && p < |lines|
    ensures Slot(moves, notes, p) < |EditSeq(lines, moves, notes)|
    decreases |moves|
  {
    if moves != [] {
      SlotInside(EditWith(lines, moves[0], notes[0]), moves[1..], notes[1..], if p < moves[0].keyLine then p else p + |notes[0]|);
    }
  }

  /** What line `p` reads after all passes. */
  function LineAfter(lines: seq<string>, moves: seq<Move>, notes: seq<seq<string>>, p: nat): string
    requires Inside(moves, |lines|) && |notes| == |moves| && p < |lines|
  {
    SlotInside(lines, moves, notes, p);
    EditSeq(lines, moves, notes)[Slot(moves, notes, p)]
  }

  lemma {:induction false} LineStep(lines: seq<string>, moves: seq<Move>, notes: seq<seq<string>>, p: nat)
      returns (once: seq<string>, q: nat)
    requires moves != [] && Inside(moves, |lines|) && |notes| == |moves| && p < |lines|
    ensures Inside(moves[1..], |once|) && q < |once|
    ensures LineAfter(lines, moves, notes, p) == LineAfter(once, moves[1..], notes[1..], q)
    ensures q == if p < moves[0].keyLine then p else p + |notes[0]|
    ensures once[q] ==
            if p == moves[0].valueLine then SpliceAny(lines[p], moves[0].col, moves[0].end, moves[0].sha) else lines[p]
  {
    once, q := EditWith(lines, moves[0], notes[0]), if p < moves[0].keyLine then p else p + |notes[0]|;
  }

  /** A line below all the lines the coordinates still name stays as it is. */
  lemma {:induction false} LineStays(lines: seq<string>, moves: seq<Move>, notes: seq<seq<string>>, p: nat)
    requires Inside(moves, |lines|) && |notes| == |moves| && p < |lines|
    requires forall i :: 0 <= i < |moves| ==> moves[i].valueLine < p
    ensures LineAfter(lines, moves, notes, p) == lines[p]
    decreases |moves|
  {
    if moves != [] {
      var once, q := LineStep(lines, moves, notes, p);
      LineStays(once, moves[1..], notes[1..], q);
    }
  }

  /** The first pass whose key is at or above a line moves that line down. It is the last one that can
      change it, unless a later one names a line further down. */
  lemma {:induction false} LineFate(lines: seq<string>, moves: seq<Move>, notes: seq<seq<string>>, p: nat, f: nat)
    requires Inside(moves, |lines|) && |notes| == |moves| && p < |lines| && f < |moves|
    requires moves[f].keyLine <= p && notes[f] != []
    requires forall i :: 0 <= i < f ==> p < moves[i].keyLine
    requires forall i :: f < i < |moves| ==> moves[i].valueLine <= p
    ensures LineAfter(lines, moves, notes, p) ==
            if moves[f].valueLine == p then SpliceAny(lines[p], moves[f].col, moves[f].end, moves[f].sha) else lines[p]
    decreases |moves|
  {
    var once, q := LineStep(lines, moves, notes, p);
    assert forall i :: 0 <= i < |moves[1..]| ==> moves[1..][i] == moves[i + 1];
    if f == 0 {
      LineStays(once, moves[1..], notes[1..], q);
    } else {
      LineFate(once, moves[1..], notes[1..], q, f - 1);
    }
  }

  // ---------------------------------------------------------------- which pins land

  /** `line` holds the new value at the token the move points at in `before`. */
  ghost predicate Landed(before: string, line: string, m: Move) {
    exists k :: 0 <= k < |Shape(before)| && Span(before, k) == (m.col, m.end) && k < |Shape(line)| && Shape(line)[k] == Str(m.sha)
  }

  ghost predicate LandedAt(lines: seq<string>, moves: seq<Move>, notes: seq<seq<string>>, j: nat)
    requires Inside(moves, |lines|) && |notes| == |moves| && j < |moves|
  {
    Landed(lines[moves[j].valueLine], LineAfter(lines, moves, notes, moves[j].valueLine), moves[j])
  }

  ghost predicate AllLanded(lines: seq<string>, moves: seq<Move>, notes: seq<seq<string>>)
    requires Inside(moves, |lines|) && |notes| == |moves|
  {
    forall j :: 0 <= j < |moves| ==> LandedAt(lines, moves, notes, j)
  }

  /** One note of at least one line for every move. */
  ghost predicate NotesFit(moves: seq<Move>, notes: seq<seq<string>>) {
    |notes| == |moves| && forall i :: 0 <= i < |notes| ==> notes[i] != []
  }

  /** A move that has something to do: it points at a token that is not yet its new value. */
  ghost predicate Due(lines: seq<string>, m: Move) {
    && m.keyLine <= m.valueLine < |lines| && PlacedOn(lines[m.valueLine], Some(m))
    && Stale(lines[m.valueLine], m.col, m.end, m.sha)
  }

  /** The token at these columns is not yet `sha`. */
  ghost predicate Stale(line: string, col: nat, end: nat, sha: string) {
    forall k :: 0 <= k < |Shape(line)| && Span(line, k) == (col, end) ==> Shape(line)[k] != Str(sha)
  }

  ghost predicate AllDue(lines: seq<string>, moves: seq<Move>) {
    forall i :: 0 <= i < |moves| ==> Due(lines, moves[i])
  }

  predicate SamePoint(m: Move, n: Move) { m.valueLine == n.valueLine && m.col == n.col }

  /** No two moves point at the same token. */
  ghost predicate NoTwins(moves: seq<Move>) {
    forall i, j :: 0 <= i < j < |moves| ==> !SamePoint(moves[i], moves[j])
  }

  lemma {:induction false} SpliceExact(line: string, col: nat, end: nat, v: string)
    requires col <= end <= |line|
    ensures SpliceAny(line, col, end, v) == Splice(line, col, end, v)
  {
  }

  lemma {:induction false} OwnSplice(line: string, m: Move)
    requires PlacedOn(line, Some(m))
    ensures Landed(line, SpliceAny(line, m.col, m.end, m.sha), m)
  {
    var k :| 0 <= k < |Shape(line)| && Shape(line)[k] != Bad && Span(line, k) == (m.col, m.end);
    SpliceExact(line, m.col, m.end, m.sha);
    ShapeOfSplice(line, k, m.sha);
  }

  lemma {:induction false} SpanOnce(s: string, j: nat, k: nat)
    requires j < |Shape(s)| && k < |Shape(s)| && Span(s, j).0 == Span(s, k).0
    ensures j == k
  {
    if j < k { SpanOrder(s, j, k); } else if k < j { SpanOrder(s, k, j); }
  }

  /** A splice over another token, or none, leaves a due move's token old. */
  lemma {:induction false} OtherSplice(lines: seq<string>, m: Move, n: Move)
    requires Due(lines, n) && PlacedOn(lines[n.valueLine], Some(m)) && m.col != n.col
    ensures !Landed(lines[n.valueLine], SpliceAny(lines[n.valueLine], m.col, m.end, m.sha), n)
  {
    var line := lines[n.valueLine];
    var k :| 0 <= k < |Shape(line)| && Shape(line)[k] != Bad && Span(line, k) == (m.col, m.end);
    SpliceExact(line, m.col, m.end, m.sha);
    ShapeOfSplice(line, k, m.sha);
    var now := SpliceAny(line, m.col, m.end, m.sha);
    forall j | 0 <= j < |Shape(line)| && Span(line, j) == (n.col, n.end)
      ensures Shape(now)[j] == Shape(line)[j]
    {
      assert j != k;
    }
  }

  /** The first move whose key is at or above line `p`, which move `j` is one of. */
  lemma {:induction false} FirstAbove(moves: seq<Move>, p: nat, j: nat) returns (f: nat)
    requires j < |moves| && moves[j].keyLine <= p
    ensures f <= j && moves[f].keyLine <= p && forall i :: 0 <= i < f ==> p < moves[i].keyLine
  {
    f := 0;
    while moves[f].keyLine > p
      invariant f <= j && forall i :: 0 <= i < f ==> p < moves[i].keyLine
      decreases j - f
    {
      f := f + 1;
    }
  }

  /** An earlier move has its key inside the line range of move `j`, or on its lines above. */
  ghost predicate Missed(moves: seq<Move>, j: nat)
    requires j < |moves|
  {
    exists i :: 0 <= i < j && moves[i].keyLine <= moves[j].valueLine
  }

  lemma {:induction false} MissedBy(moves: seq<Move>, i: nat, j: nat)
    requires i < j < |moves|
    ensures moves[i].keyLine <= moves[j].valueLine ==> Missed(moves, j)
  {
  }

  /** The missed move with the lowest value line. */
  lemma {:induction false} LowestMissed(moves: seq<Move>, n: nat, j: nat) returns (l: nat)
    requires Inside(moves, n) && j < |moves| && Missed(moves, j)
    ensures l < |moves| && Missed(moves, l)
    ensures forall q :: 0 <= q < |moves| && Missed(moves, q) ==> moves[q].valueLine <= moves[l].valueLine
    decreases n - moves[j].valueLine
  {
    if q :| 0 <= q < |moves| && Missed(moves, q) && moves[q].valueLine > moves[j].valueLine {
      l := LowestMissed(moves, n, q);
    } else {
      l := j;
    }
  }

  lemma {:induction false} LowestDoesNotLand(lines: seq<string>, moves: seq<Move>, notes: seq<seq<string>>, l: nat)
    requires AllDue(lines, moves) && NoTwins(moves) && Inside(moves, |lines|) && NotesFit(moves, notes) && l < |moves| && Missed(moves, l)
    requires forall q :: 0 <= q < |moves| && Missed(moves, q) ==> moves[q].valueLine <= moves[l].valueLine
    ensures !LandedAt(lines, moves, notes, l)
  {
    var p := moves[l].valueLine;
    var i :| 0 <= i < l && moves[i].keyLine <= p;
    var f := FirstAbove(moves, p, i);
    forall q | f < q < |moves|
      ensures moves[q].valueLine <= p
    {
      MissedBy(moves, f, q);
    }
    assert Due(lines, moves[l]) && Due(lines, moves[f]);
    LineFate(lines, moves, notes, p, f);
    if moves[f].valueLine == p {
      assert !SamePoint(moves[f], moves[l]);
      OtherSplice(lines, moves[f], moves[l]);
    }
  }

  lemma {:induction false} NotMissedLands(lines: seq<string>, moves: seq<Move>, notes: seq<seq<string>>, j: nat)
    requires AllDue(lines, moves) && Inside(moves, |lines|) && NotesFit(moves, notes) && j < |moves|
    requires forall q :: 0 <= q < |moves| ==> !Missed(moves, q)
    ensures LandedAt(lines, moves, notes, j)
  {
    var p := moves[j].valueLine;
    assert Due(lines, moves[j]);
    assert !Missed(moves, j);
    forall q | j < q < |moves|
      ensures moves[q].valueLine <= p
    {
      assert !Missed(moves, q);
    }
    LineFate(lines, moves, notes, p, j);
    OwnSplice(lines[p], moves[j]);
  }

  /** Every new value lands on its token if and only if the moves come bottom-up with room between them. */
  lemma {:induction false} AllLandIff(lines: seq<string>, moves: seq<Move>, notes: seq<seq<string>>)
    requires AllDue(lines, moves) && NoTwins(moves) && Inside(moves, |lines|) && NotesFit(moves, notes)
    ensures AllLanded(lines, moves, notes) <==> BottomUp(moves)
  {
    if j :| 0 <= j < |moves| && Missed(moves, j) {
      var l := LowestMissed(moves, |lines|, j);
      LowestDoesNotLand(lines, moves, notes, l);
      var i :| 0 <= i < j && moves[i].keyLine <= moves[j].valueLine;
      assert !BottomUp(moves);
    } else {
      forall j | 0 <= j < |moves|
        ensures LandedAt(lines, moves, notes, j)
      {
        NotMissedLands(lines, moves, notes, j);
      }
      forall i, j | 0 <= i < j < |moves|
        ensures moves[j].valueLine < moves[i].keyLine
      {
        assert !Missed(moves, j);
      }
    }
  }

  /** Of two moves the second lands if and only if its value line is above the key line of the first. */
  lemma {:induction false} SecondLandsIff(lines: seq<string>, m: Move, n: Move, notes: seq<seq<string>>)
    requires Due(lines, m) && Due(lines, n) && !SamePoint(m, n) && NotesFit([m, n], notes)
    ensures LandedAt(lines, [m, n], notes, 1) <==> n.valueLine < m.keyLine
  {
    var moves := [m, n];
    if n.valueLine < m.keyLine {
      LineFate(lines, moves, notes, n.valueLine, 1);
      OwnSplice(lines[n.valueLine], n);
    } else {
      LineFate(lines, moves, notes, n.valueLine, 0);
      if m.valueLine == n.valueLine { OtherSplice(lines, m, n); }
    }
  }

  lemma {:induction false} InsertNoTwins(m: Move, moves: seq<Move>)
    requires NoTwins(moves) && forall i :: 0 <= i < |moves| ==> !SamePoint(m, moves[i])
    ensures NoTwins(Insert(m, moves)) && m in Insert(m, moves)
    ensures forall x :: x in moves ==> x in Insert(m, moves)
  {
    if moves != [] && moves[0].keyLine > m.keyLine {
      var rest := Insert(m, moves[1..]);
      InsertNoTwins(m, moves[1..]);
      InsertHolds(m, moves[1..]);
      forall i | 0 <= i < |rest|
        ensures !SamePoint(moves[0], rest[i])
      {
        assert rest[i] == m || rest[i] in moves[1..];
      }
      assert Insert(m, moves) == [moves[0]] + rest;
      assert forall x :: x in moves ==> x == moves[0] || x in moves[1..];
    }
  }

  lemma {:induction false} SortNoTwins(moves: seq<Move>)
    requires NoTwins(moves)
    ensures NoTwins(SortDown(moves)) && forall x :: x in moves ==> x in SortDown(moves)
  {
    if moves != [] {
      var rest := SortDown(moves[1..]);
      SortNoTwins(moves[1..]);
      SortHolds(moves[1..]);
      forall i | 0 <= i < |rest|
        ensures !SamePoint(moves[0], rest[i])
      {
        assert rest[i] in moves[1..];
      }
      InsertNoTwins(moves[0], rest);
      assert forall x :: x in moves ==> x == moves[0] || x in moves[1..];
    }
  }

  /** The sorted order is bottom-up exactly for moves that keep apart. */
  lemma {:induction false} BottomUpIff(moves: seq<Move>, n: nat)
    requires NoTwins(moves) && Inside(moves, n)
    ensures BottomUp(SortDown(moves)) <==> Apart(moves)
  {
    if Apart(moves) {
      SortDownBottomUp(moves);
    } else if BottomUp(SortDown(moves)) {
      var order := SortDown(moves);
      SortNoTwins(moves);
      forall i, j | 0 <= i < |moves| && 0 <= j < |moves| && i != j
        ensures moves[i].valueLine < moves[j].keyLine || moves[j].valueLine < moves[i].keyLine
      {
        assert !SamePoint(moves[i], moves[j]);
        assert moves[i] in order && moves[j] in order;
        var a :| 0 <= a < |order| && order[a] == moves[i];
        var b :| 0 <= b < |order| && order[b] == moves[j];
        assert a < b || b < a;
      }
    }
  }

  /** The pins of distinct names whose values are not yet the new one all land if and only if their line
      ranges do not meet, whatever shares lines with them otherwise. */
  lemma {:induction false} PinsLandIff(src: Source, names: seq<string>, sha: string, notes: map<string, Note>, eol: string)
    requires Distinct(names) && Literal(sha)
    requires forall i :: 0 <= i < |names| ==> Tracks(src, names[i]) && names[i] in notes && WellPrefixed(notes[names[i]])
    requires forall i :: 0 <= i < |names| ==>
               notes[names[i]] != [] && Tokens(src.body)[KeyOf(src, names[i]) + 2] != Str(sha)
    ensures var order := SortDown(MovesOf(src, names, sha, notes));
            && Inside(order, |AllLines(src)|)
            && EditAll(AllLines(src), order, eol) == EditSeq(AllLines(src), order, NotesUsed(AllLines(src), order, eol))
            && (AllLanded(AllLines(src), order, NotesUsed(AllLines(src), order, eol)) <==> RangesApart(src, names))
  {
    var moves := MovesOf(src, names, sha, notes);
    var order, lines := SortDown(moves), AllLines(src);
    MovesDue(src, names, sha, notes);
    SortInside(moves, |lines|);
    SortHolds(moves);
    SortNoTwins(moves);
    forall i | 0 <= i < |order|
      ensures order[i].note != [] && Due(lines, order[i])
    {
      assert order[i] in moves;
    }
    EditAllIsSeq(lines, order, eol);
    NotesUsedSome(lines, order, eol);
    AllLandIff(lines, order, NotesUsed(lines, order, eol));
    BottomUpIff(moves, |lines|);
    ApartIff(src, names, sha, notes);
  }

  lemma {:induction false} ApartIff(src: Source, names: seq<string>, sha: string, notes: map<string, Note>)
    requires forall i :: 0 <= i < |names| ==> Tracks(src, names[i]) && names[i] in notes && WellPrefixed(notes[names[i]])
    ensures Apart(MovesOf(src, names, sha, notes)) <==> RangesApart(src, names)
  {
    var moves := MovesOf(src, names, sha, notes);
    if RangesApart(src, names) {
      MovesApart(src, names, sha, notes);
    } else {
      var i, j :| 0 <= i < |names| && 0 <= j < |names| && i != j && Tracks(src, names[i]) && Tracks(src, names[j])
                  && !Clear(src, names[i], names[j]);
      assert moves[i] == MoveOf(src, names[i], sha, notes[names[i]]) && moves[j] == MoveOf(src, names[j], sha, notes[names[j]]);
    }
  }

  lemma {:induction false} MovesDue(src: Source, names: seq<string>, sha: string, notes: map<string, Note>)
    requires Distinct(names) && Literal(sha)
    requires forall i :: 0 <= i < |names| ==> Tracks(src, names[i]) && names[i] in notes && WellPrefixed(notes[names[i]])
    requires forall i :: 0 <= i < |names| ==>
               notes[names[i]] != [] && Tokens(src.body)[KeyOf(src, names[i]) + 2] != Str(sha)
    ensures var moves := MovesOf(src, names, sha, notes);
            AllDue(AllLines(src), moves) && NoTwins(moves) && Inside(moves, |AllLines(src)|)
  {
    var moves := MovesOf(src, names, sha, notes);
    forall i | 0 <= i < |moves|
      ensures Due(AllLines(src), moves[i])
    {
      MoveDue(src, names[i], sha, notes[names[i]]);
    }
    forall i, j | 0 <= i < j < |moves|
      ensures !SamePoint(moves[i], moves[j])
    {
      OtherPoint(src, names[i], names[j]);
    }
  }

  /** Two names are two tokens. */
  lemma {:induction false} OtherPoint(src: Source, m: string, n: string)
    requires Tracks(src, m) && Tracks(src, n) && m != n
    ensures var p, q := PlaceOf(src.body, |src.head|, KeyOf(src, m) + 2), PlaceOf(src.body, |src.head|, KeyOf(src, n) + 2);
            !(p.line == q.line && p.col == q.col)
  {
    var k, l := KeyOf(src, m), KeyOf(src, n);
    var p, q := PlaceOf(src.body, |src.head|, k + 2), PlaceOf(src.body, |src.head|, l + 2);
    assert Tokens(src.body)[k].text == m && Tokens(src.body)[l].text == n;
    if p.line == q.line && p.col == q.col {
      SamePlace(src.body, |src.head|, k + 2, l + 2);
    }
  }

  lemma {:induction false} MoveDue(src: Source, name: string, sha: string, note: Note)
    requires Tracks(src, name) && Literal(sha) && note != [] && Tokens(src.body)[KeyOf(src, name) + 2] != Str(sha)
    ensures Due(AllLines(src), MoveOf(src, name, sha, note))
  {
    var k := KeyOf(src, name);
    DueAs(src, k, k + 2, sha, note);
  }

  lemma {:induction false} DueAs(src: Source, k: nat, v: nat, sha: string, note: Note)
    requires k < v < |Tokens(src.body)| && Literal(sha)
    requires Tokens(src.body)[k] != Bad && Tokens(src.body)[v] != Bad && Tokens(src.body)[v] != Str(sha)
    ensures var p, q := PlaceOf(src.body, |src.head|, k), PlaceOf(src.body, |src.head|, v);
            Due(AllLines(src), Move(p.line, q.line, q.col, q.end, sha, note))
  {
    var at := |src.head|;
    var p, q := PlaceOf(src.body, at, k), PlaceOf(src.body, at, v);
    PlacedAs(src.body, at, k, v, sha, note);
    PlaceOrder(src.body, at, k, v);
    StaleToken(src.body, at, v, sha);
    BodyLine(src, q.line);
    DueFrom(AllLines(src), src.body[q.line - at], Move(p.line, q.line, q.col, q.end, sha, note));
  }

  lemma {:induction false} BodyLine(src: Source, l: nat)
    requires |src.head| <= l < |src.head| + |src.body|
    ensures AllLines(src)[l] == src.body[l - |src.head|]
  {
  }

  lemma {:induction false} DueFrom(lines: seq<string>, line: string, m: Move)
    requires m.keyLine <= m.valueLine < |lines| && lines[m.valueLine] == line && PlacedOn(line, Some(m))
    requires Stale(line, m.col, m.end, m.sha)
    ensures Due(lines, m)
  {
  }

  lemma {:induction false} StaleToken(lines: seq<string>, at: nat, v: nat, sha: string)
    requires v < |Tokens(lines)| && Tokens(lines)[v] != Str(sha)
    ensures var p := PlaceOf(lines, at, v);
            Stale(lines[p.line - at], p.col, p.end, sha)
  {
    var p := PlaceOf(lines, at, v);
    var line := lines[p.line - at];
    var t := PlaceIsSpan(lines, at, v);
    forall k | 0 <= k < |Shape(line)| && Span(line, k) == (p.col, p.end)
      ensures Shape(line)[k] != Str(sha)
    {
      SpanOnce(line, k, t);
    }
  }

  // ---------------------------------------------------------------- a splice that hits the note

  /** The line the second splice hits: one of the note just inserted. */
  function Hit(lines: seq<string>, m: Move, n: Move, eol: string): string
    requires m.keyLine <= m.valueLine < |lines| && 0 <= n.valueLine - m.keyLine < |NoteIn(lines, m, eol)|
  {
    SpliceAny(NoteIn(lines, m, eol)[n.valueLine - m.keyLine], n.col, n.end, n.sha)
  }

  /** Where the second splice hits the first move's note, the two passes together leave the tokens of the
      first pass with those of the line hit put in front of the first move's key line. */
  lemma {:induction false} MeetingTokens(lines: seq<string>, m: Move, n: Move, eol: string, spliced: seq<string>)
    requires n.keyLine <= m.keyLine <= m.valueLine < |lines| && m.keyLine <= n.valueLine < |lines|
    requires n.valueLine - m.keyLine < |NoteIn(lines, m, eol)|
    requires WellPrefixed(m.note) && WellPrefixed(n.note)
    requires spliced == lines[m.valueLine := SpliceAny(lines[m.valueLine], m.col, m.end, m.sha)]
    ensures Tokens(EditAny(EditAny(lines, m, eol), n, eol)) ==
            Tokens(spliced[..m.keyLine]) + (Shape(Hit(lines, m, n, eol)) + Tokens(spliced[m.keyLine..]))
  {
    SilentNote(lines, m, eol);
    SameEdit(lines, m, NoteIn(lines, m, eol), spliced);
    HitTokens(spliced, m.keyLine, NoteIn(lines, m, eol), n, Hit(lines, m, n, eol), eol);
  }

  lemma {:induction false} SilentNote(lines: seq<string>, m: Move, eol: string)
    requires m.keyLine <= m.valueLine < |lines| && WellPrefixed(m.note)
    ensures Tokens(NoteIn(lines, m, eol)) == []
  {
    NotesHaveNoTokens(m.note, Indent(lines[m.valueLine := SpliceAny(lines[m.valueLine], m.col, m.end, m.sha)][m.keyLine]), eol);
  }

  lemma {:induction false} SameEdit(lines: seq<string>, m: Move, note: seq<string>, spliced: seq<string>)
    requires m.keyLine <= m.valueLine < |lines|
    requires spliced == lines[m.valueLine := SpliceAny(lines[m.valueLine], m.col, m.end, m.sha)]
    ensures EditWith(lines, m, note) == spliced[..m.keyLine] + note + spliced[m.keyLine..]
  {
  }

  lemma {:induction false} HitTokens(spliced: seq<string>, v: nat, note: seq<string>, n: Move, hit: string, eol: string)
    requires n.keyLine <= v <= n.valueLine < |spliced| && n.valueLine - v < |note| && Tokens(note) == [] && WellPrefixed(n.note)
    requires hit == SpliceAny(note[n.valueLine - v], n.col, n.end, n.sha)
    ensures Tokens(EditAny(spliced[..v] + note + spliced[v..], n, eol)) == Tokens(spliced[..v]) + (Shape(hit) + Tokens(spliced[v..]))
  {
    var once := spliced[..v] + note + spliced[v..];
    var again := once[n.valueLine := hit];
    TokensHit(spliced, v, note, n.valueLine - v, hit);
    assert once[n.valueLine] == note[n.valueLine - v];
    SilentNote(once, n, eol);
    SameEdit(once, n, NoteIn(once, n, eol), again);
    SameTokensWithNote(again, n.keyLine, NoteIn(once, n, eol));
  }

  lemma {:induction false} TokensHit(lines: seq<string>, v: nat, note: seq<string>, r: nat, hit: string)
    requires v <= |lines| && r < |note| && Tokens(note) == []
    ensures Tokens((lines[..v] + note + lines[v..])[v + r := hit]) == Tokens(lines[..v]) + (Shape(hit) + Tokens(lines[v..]))
  {
    assert (lines[..v] + note + lines[v..])[v + r := hit] == lines[..v] + note[..r] + ([hit] + (note[r + 1..] + lines[v..]));
    PartsSilent(note, r);
    TokensAmong(lines[..v], note[..r], hit, note[r + 1..], lines[v..]);
  }

  lemma {:induction false} PartsSilent(note: seq<string>, r: nat)
    requires r < |note| && Tokens(note) == []
    ensures Tokens(note[..r]) == [] && Tokens(note[r + 1..]) == []
  {
    TokensSplit(note, r);
    TokensSplit(note, r + 1);
  }

  lemma {:induction false} TokensAmong(a: seq<string>, silent: seq<string>, hit: string, quiet: seq<string>, b: seq<string>)
    requires Tokens(silent) == [] && Tokens(quiet) == []
    ensures Tokens(a + silent + ([hit] + (quiet + b))) == Tokens(a) + (Shape(hit) + Tokens(b))
  {
    TokensAppend(a + silent, [hit] + (quiet + b));
    TokensAppend(a, silent);
    TokensAppend(quiet, b);
    assert ([hit] + (quiet + b))[1..] == quiet + b;
  }

  lemma {:induction false} TokensSplit(lines: seq<string>, k: nat)
    requires k <= |lines|
    ensures Tokens(lines[..k]) + Tokens(lines[k..]) == Tokens(lines)
  {
    TokensAppend(lines[..k], lines[k..]);
    assert lines[..k] + lines[k..] == lines;
  }

  lemma {:induction false} SameTokensWithNote(lines: seq<string>, k: nat, inserted: seq<string>)
    requires k <= |lines| && Tokens(inserted) == []
    ensures Tokens(lines[..k] + inserted + lines[k..]) == Tokens(lines)
  {
    TokensAppend(lines[..k] + inserted, lines[k..]);
    TokensAppend(lines[..k], inserted);
    TokensSplit(lines, k);
  }

  /** Every line of a note is the indentation and a comment sign before anything else. */
  lemma {:induction false} NoteBegins(note: Note, indent: string, eol: string, r: nat)
    requires WellPrefixed(note) && r < |NoteLines(note, indent, eol)|
    ensures var line := NoteLines(note, indent, eol)[r];
            |line| > |indent| && line[..|indent|] == indent && line[|indent|] == '#'
  {
    var first := Paragraph(note[0], indent, eol);
    if r >= |first| {
      NoteBegins(note[1..], indent, eol, r - |first|);
    }
  }

  lemma {:induction false} NoteInBegins(lines: seq<string>, m: Move, eol: string, spliced: seq<string>, r: nat)
    requires m.keyLine <= m.valueLine < |lines| && WellPrefixed(m.note) && r < |NoteIn(lines, m, eol)|
    requires spliced == lines[m.valueLine := SpliceAny(lines[m.valueLine], m.col, m.end, m.sha)]
    ensures var indent, line := Indent(spliced[m.keyLine]), NoteIn(lines, m, eol)[r];
            |line| > |indent| && line[..|indent|] == indent && line[|indent|] == '#'
  {
    NoteBegins(m.note, Indent(spliced[m.keyLine]), eol, r);
  }

  /** If the missed value starts to the right of the note's comment sign, the splice stays behind it: the
      registry then reads as if only the first entry had been moved. */
  lemma {:induction false} MeetingBehindHash(lines: seq<string>, m: Move, n: Move, eol: string, spliced: seq<string>)
    requires n.keyLine <= m.keyLine <= m.valueLine < |lines| && m.keyLine <= n.valueLine < |lines|
    requires n.valueLine - m.keyLine < |NoteIn(lines, m, eol)|
    requires WellPrefixed(m.note) && WellPrefixed(n.note)
    requires spliced == lines[m.valueLine := SpliceAny(lines[m.valueLine], m.col, m.end, m.sha)]
    requires n.col > |Indent(spliced[m.keyLine])|
    ensures Tokens(EditAny(EditAny(lines, m, eol), n, eol)) == Tokens(spliced)
  {
    HitIsComment(lines, m, n, eol, spliced);
    MeetingTokens(lines, m, n, eol, spliced);
    NothingBetween(Tokens(spliced[..m.keyLine]), Shape(Hit(lines, m, n, eol)), Tokens(spliced[m.keyLine..]));
    TokensSplit(spliced, m.keyLine);
  }

  lemma {:induction false} NothingBetween<T>(a: seq<T>, b: seq<T>, c: seq<T>)
    requires b == []
    ensures a + (b + c) == a + c
  {
    assert b + c == c;
  }

  lemma {:induction false} HitIsComment(lines: seq<string>, m: Move, n: Move, eol: string, spliced: seq<string>)
    requires m.keyLine <= m.valueLine < |lines| && WellPrefixed(m.note)
    requires 0 <= n.valueLine - m.keyLine < |NoteIn(lines, m, eol)|
    requires spliced == lines[m.valueLine := SpliceAny(lines[m.valueLine], m.col, m.end, m.sha)]
    requires n.col > |Indent(spliced[m.keyLine])|
    ensures Shape(Hit(lines, m, n, eol)) == []
  {
    var indent, r := Indent(spliced[m.keyLine]), n.valueLine - m.keyLine;
    NoteInBegins(lines, m, eol, spliced, r);
    StaysComment(NoteIn(lines, m, eol)[r], indent, n.col, n.end, n.sha);
  }

  lemma {:induction false} StaysComment(first: string, indent: string, col: nat, end: nat, sha: string)
    requires |first| > |indent| && first[..|indent|] == indent && first[|indent|] == '#'
    requires col > |indent| && forall i :: 0 <= i < |indent| ==> Blank(indent[i])
    ensures Shape(SpliceAny(first, col, end, sha)) == []
  {
    var hit := SpliceAny(first, col, end, sha);
    assert hit[..|indent|] == indent && hit[|indent|] == '#';
    assert hit == indent + "#" + hit[|indent| + 1..];
    IndentThenHash(indent, hit[|indent| + 1..]);
  }

  lemma {:induction false} BlanksThen(blanks: string, s: string)
    requires forall i :: 0 <= i < |blanks| ==> Blank(blanks[i])
    ensures Shape(blanks + s) == Shape(s)
  {
    if blanks == "" {
      assert blanks + s == s;
    } else {
      assert (blanks + s)[1..] == blanks[1..] + s;
      BlanksThen(blanks[1..], s);
    }
  }

  predicate Separator(t: Token) { t == Punct(',') || t == Punct('}') || t == Punct(':') }

  /** A literal and what follows it, put anywhere inside the dict: unless a separator follows it, the
      entries cannot be read any more. */
  lemma {:induction false} EntriesBroken(ts: seq<Token>, i: nat, p: nat, hit: seq<Token>)
    requires Entries(ts, i).Some? && i <= p < |ts|
    requires hit != [] && hit[0].Str? && (|hit| > 1 ==> !Separator(hit[1]))
    ensures Entries(ts[..p] + (hit + ts[p..]), i).None?
    decreases |ts| - i
  {
    var us := ts[..p] + (hit + ts[p..]);
    assert forall t :: 0 <= t < p ==> us[t] == ts[t];
    assert us[p] == hit[0] && us[p + 1] == (if |hit| > 1 then hit[1] else ts[p]);
    if p >= i + 4 {
      EntriesBroken(ts, i + 4, p, hit);
    }
  }

  lemma {:induction false} KeysBroken(ts: seq<Token>, p: nat, hit: seq<Token>)
    requires Keys(ts).Some? && p < |ts|
    requires hit != [] && hit[0].Str? && (|hit| > 1 ==> !Separator(hit[1]))
    ensures Keys(ts[..p] + (hit + ts[p..])).None?
  {
    var us := ts[..p] + (hit + ts[p..]);
    assert forall t :: 0 <= t < p ==> us[t] == ts[t];
    if p >= 3 {
      EntriesBroken(ts, 3, p, hit);
    } else {
      assert us[p] == hit[0];
    }
  }

  /** If the missed value starts at or before the column of the note's comment sign, the splice overwrites
      that sign: the new literal and the rest of the comment stand among the entries, and, unless that rest
      happens to start with a separator, the registry can no longer be read. */
  lemma {:induction false} MeetingUnreadable(lines: seq<string>, m: Move, n: Move, eol: string, spliced: seq<string>, rest: string)
    requires n.keyLine <= m.keyLine <= m.valueLine < |lines| && m.keyLine <= n.valueLine < |lines|
    requires n.valueLine - m.keyLine < |NoteIn(lines, m, eol)|
    requires WellPrefixed(m.note) && WellPrefixed(n.note) && Literal(n.sha)
    requires spliced == lines[m.valueLine := SpliceAny(lines[m.valueLine], m.col, m.end, m.sha)]
    requires n.col <= |Indent(spliced[m.keyLine])| && Shape(spliced[m.keyLine]) != []
    requires var line := NoteIn(lines, m, eol)[n.valueLine - m.keyLine]; rest == line[Upto(line, n.end)..]
    requires Keys(Tokens(spliced)).Some? && (Shape(rest) == [] || !Separator(Shape(rest)[0]))
    ensures Keys(Tokens(EditAny(EditAny(lines, m, eol), n, eol))) == None
  {
    var v := m.keyLine;
    var a, b := Tokens(spliced[..v]), Tokens(spliced[v..]);
    TokensSplit(spliced, v);
    HitShape(lines, m, n, eol, spliced, rest);
    MeetingTokens(lines, m, n, eol, spliced);
    var ts, hit, p := Tokens(spliced), [Str(n.sha)] + Shape(rest), |a|;
    assert b == Shape(spliced[v..][0]) + Tokens(spliced[v..][1..]);
    assert ts[..p] == a && ts[p..] == b;
    KeysBroken(ts, p, hit);
  }

  lemma {:induction false} HitShape(lines: seq<string>, m: Move, n: Move, eol: string, spliced: seq<string>, rest: string)
    requires m.keyLine <= m.valueLine < |lines| && WellPrefixed(m.note) && Literal(n.sha)
    requires 0 <= n.valueLine - m.keyLine < |NoteIn(lines, m, eol)|
    requires spliced == lines[m.valueLine := SpliceAny(lines[m.valueLine], m.col, m.end, m.sha)]
    requires n.col <= |Indent(spliced[m.keyLine])|
    requires var line := NoteIn(lines, m, eol)[n.valueLine - m.keyLine]; rest == line[Upto(line, n.end)..]
    ensures Shape(Hit(lines, m, n, eol)) == [Str(n.sha)] + Shape(rest)
  {
    var indent := Indent(spliced[m.keyLine]);
    NoteInBegins(lines, m, eol, spliced, n.valueLine - m.keyLine);
    SpliceInIndent(NoteIn(lines, m, eol)[n.valueLine - m.keyLine], indent, n.col, n.end, n.sha, rest);
  }

  lemma {:induction false} SpliceInIndent(line: string, indent: string, col: nat, end: nat, sha: string, rest: string)
    requires |line| > |indent| && line[..|indent|] == indent && col <= |indent| && rest == line[Upto(line, end)..]
    requires Literal(sha) && forall i :: 0 <= i < |indent| ==> Blank(indent[i])
    ensures Shape(SpliceAny(line, col, end, sha)) == [Str(sha)] + Shape(rest)
  {
    var quoted := "\"" + sha + "\"" + rest;
    assert line[..col] == indent[..col];
    assert SpliceAny(line, col, end, sha) == indent[..col] + quoted;
    BlanksThen(indent[..col], quoted);
    FirstOfLiteral(sha, rest);
  }

  // ---------------------------------------------------------------- back to text

  /** Lines ending in LF or CRLF; the last may lack its terminator. */
  ghost predicate LfLines(lines: seq<string>) {
    && (forall i :: 0 <= i < |lines| ==> IsLine(lines[i]))
    && (forall i :: 0 <= i < |lines| - 1 ==> lines[i][|lines[i]| - 1] == '\n')
  }

  lemma {:induction false} EolLine(body: string, eol: string)
    requires NoBreak(body) && body != "" && (eol == "\n" || eol == "\r\n")
    ensures IsLine(body + eol) && (body + eol)[|body + eol| - 1] == '\n'
  {
    AnyContent(body, eol);
  }

  /** However the note's text breaks across lines, what is inserted is whole comment lines. */
  lemma {:induction false} NoteIsLines(note: Note, indent: string, eol: string)
    requires NoBreak(indent) && (eol == "\n" || eol == "\r\n")
    requires forall i :: 0 <= i < |note| ==> note[i].prefix != "" && NoBreak(note[i].prefix) && Unbroken(note[i])
    ensures AllLf(NoteLines(note, indent, eol))
  {
    if note != [] {
      NoteIsLines(note[1..], indent, eol);
      ParagraphIsLines(note[0], indent, eol);
      AllLfAppend(Paragraph(note[0], indent, eol), NoteLines(note[1..], indent, eol));
    }
  }

  ghost predicate AllLf(lines: seq<string>) { forall i :: 0 <= i < |lines| ==> IsLine(lines[i]) && EndsLf(lines[i]) }

  lemma {:induction false} AllLfAppend(a: seq<string>, b: seq<string>)
    requires AllLf(a) && AllLf(b)
    ensures AllLf(a + b)
  {
  }

  lemma {:induction false} ParagraphIsLines(block: Block, indent: string, eol: string)
    requires NoBreak(indent) && (eol == "\n" || eol == "\r\n")
    requires block.prefix != "" && NoBreak(block.prefix) && Unbroken(block)
    ensures AllLf(Paragraph(block, indent, eol))
  {
    var chunks := OrEmpty(block.lines(block.width - |indent|));
    assert AllUnbroken(block.lines(block.width - |indent|));
    var ls := Prefixed(indent + block.prefix, chunks, eol);
    forall i | 0 <= i < |ls|
      ensures IsLine(ls[i]) && EndsLf(ls[i])
    {
      EolLine(indent + block.prefix + chunks[i], eol);
    }
  }

  lemma {:induction false} IndentNoBreak(line: string)
    requires IsLine(line) && Shape(line) != []
    ensures NoBreak(Indent(line))
  {
    if IsBreak(line[0]) {
      BlankLine(line);
    } else if Blank(line[0]) {
      IndentNoBreak(line[1..]);
    }
  }

  lemma {:induction false} BlankLine(line: string)
    requires IsLine(line) && IsBreak(line[0])
    ensures Shape(line) == []
  {
    if |line| == 2 {
      assert line[1] == '\n';
      assert Shape(line[1..]) == Shape(line[1..][1..]);
    }
  }

  /** A value token ends on a visible character. */
  lemma {:induction false} SpanEnd(s: string, k: nat)
    requires k < |Shape(s)| && Shape(s)[k] != Bad
    ensures !Blank(s[Span(s, k).1 - 1])
    decreases |s|
  {
    if Blank(s[0]) {
      SpanEnd(s[1..], k);
    } else if k > 0 {
      SpanEnd(s[First(s).1..], k - 1);
    } else if Quote(s[0]) {
      CloseAtQuote(s[1..], s[0]);
    } else if IdChar(s[0]) {
      IdRun(s);
    }
  }

  lemma {:induction false} CloseAtQuote(s: string, q: char)
    ensures Close(s, q) == |s| || s[Close(s, q)] == q
  {
    if s != "" && s[0] != q && s[0] != '\\' {
      CloseAtQuote(s[1..], q);
    }
  }

  lemma {:induction false} IdRun(s: string)
    ensures forall i :: 0 <= i < IdLength(s) ==> IdChar(s[i])
  {
    if s != "" && IdChar(s[0]) {
      IdRun(s[1..]);
    }
  }

  lemma {:induction false} SpliceIsLine(line: string, k: nat, v: string)
    requires IsLine(line) && k < |Shape(line)| && Shape(line)[k] != Bad && Literal(v)
    ensures var t := Splice(line, Span(line, k).0, Span(line, k).1, v);
            IsLine(t) && (line[|line| - 1] == '\n' ==> t[|t| - 1] == '\n')
  {
    var (c, e) := Span(line, k);
    SpanEnd(line, k);
    LineContent(line);
    SpliceInContent(line, c, e, v);
  }

  /** Any splice in front of the terminator leaves a line. */
  lemma {:induction false} SpliceInContent(line: string, c: nat, e: nat, v: string)
    requires IsLine(line) && c <= e <= |Chomp(line)| && Literal(v)
    ensures var t := Splice(line, c, e, v);
            IsLine(t) && (line[|line| - 1] == '\n' ==> t[|t| - 1] == '\n')
  {
    LineContent(line);
    var content := Chomp(line);
    SplicedNoBreak(content, c, e, v);
    var body := Splice(content, c, e, v);
    Retermed(line, body);
    assert line == content + Ending(line);
    SpliceBeforeEnding(content, Ending(line), c, e, v);
    if line[|line| - 1] == '\n' {
      EndsAlike(line, body);
    }
  }

  lemma {:induction false} SpliceBeforeEnding(content: string, ending: string, c: nat, e: nat, v: string)
    requires c <= e <= |content|
    ensures Splice(content + ending, c, e, v) == Splice(content, c, e, v) + ending
  {
    var all := content + ending;
    var quoted := "\"" + v + "\"";
    assert all[..c] == content[..c] && all[e..] == content[e..] + ending;
    Assoc(quoted, content[e..], ending);
    Assoc(content[..c], quoted + content[e..], ending);
  }

  lemma {:induction false} SplicedNoBreak(content: string, c: nat, e: nat, v: string)
    requires c <= e <= |content| && NoBreak(content) && Literal(v)
    ensures NoBreak(Splice(content, c, e, v))
  {
    var rest := "\"" + v + "\"" + content[e..];
    assert NoBreak(content[..c]) && NoBreak(v) && NoBreak(content[e..]);
    assert NoBreak(rest);
  }

  ghost predicate KeyedLine(line: string, m: Option<Move>) {
    m.Some? ==> Shape(line) != [] && forall i :: 0 <= i < |m.value.note| ==>
      m.value.note[i].prefix != "" && NoBreak(m.value.note[i].prefix) && Unbroken(m.value.note[i])
  }

  ghost predicate Editable(lines: seq<string>, at: nat, moves: seq<Move>) {
    forall i :: 0 <= i < |lines| ==>
      PlacedOn(lines[i], ValueMove(moves, at + i)) && KeyedLine(lines[i], KeyMove(moves, at + i))
  }

  lemma {:induction false} EditableTail(lines: seq<string>, at: nat, moves: seq<Move>)
    requires lines != [] && Editable(lines, at, moves)
    ensures PlacedOn(lines[0], ValueMove(moves, at)) && KeyedLine(lines[0], KeyMove(moves, at))
    ensures Editable(lines[1..], at + 1, moves)
  {
    assert PlacedOn(lines[0], ValueMove(moves, at + 0)) && KeyedLine(lines[0], KeyMove(moves, at + 0));
    forall i | 0 <= i < |lines[1..]|
      ensures PlacedOn(lines[1..][i], ValueMove(moves, at + 1 + i)) && KeyedLine(lines[1..][i], KeyMove(moves, at + 1 + i))
    {
      assert PlacedOn(lines[1 + i], ValueMove(moves, at + (1 + i))) && KeyedLine(lines[1 + i], KeyMove(moves, at + (1 + i)));
    }
  }

  predicate EndsLf(line: string) { line != "" && line[|line| - 1] == '\n' }

  lemma {:induction false} SplicedIsLine(line: string, at: nat, moves: seq<Move>)
    requires IsLine(line) && PlacedOn(line, ValueMove(moves, at))
    ensures IsLine(Spliced(line, at, moves))
    ensures EndsLf(line) ==> EndsLf(Spliced(line, at, moves))
    ensures |Shape(Spliced(line, at, moves))| == |Shape(line)|
  {
    SplicedTokens(line, at, moves);
    if ValueMove(moves, at).Some? {
      var m := ValueMove(moves, at).value;
      var k :| 0 <= k < |Shape(line)| && Shape(line)[k] != Bad && Span(line, k) == (m.col, m.end);
      SpliceIsLine(line, k, m.sha);
    }
  }

  lemma {:induction false} LfAppend(a: seq<string>, b: seq<string>)
    requires AllLf(a) && LfLines(b)
    ensures LfLines(a + b)
  {
  }

  lemma {:induction false} LfCons(lines: seq<string>, line: string, rest: seq<string>)
    requires lines != [] && LfLines(lines) && IsLine(line) && (EndsLf(lines[0]) ==> EndsLf(line))
    requires LfLines(rest) && (|lines| == 1 ==> rest == [])
    ensures LfLines([line] + rest)
  {
  }

  /** The rewritten lines are lines: written out and read back, they are the same lines. */
  lemma {:induction false} TopDownLf(lines: seq<string>, at: nat, moves: seq<Move>, eol: string)
    requires LfLines(lines) && Editable(lines, at, moves) && (eol == "\n" || eol == "\r\n")
    ensures LfLines(TopDown(lines, at, moves, eol))
  {
    if lines != [] {
      EditableTail(lines, at, moves);
      SplicedIsLine(lines[0], at, moves);
      var line := Spliced(lines[0], at, moves);
      var notes := NotesFor(line, at, moves, eol);
      var rest := TopDown(lines[1..], at + 1, moves, eol);
      TopDownLf(lines[1..], at + 1, moves, eol);
      if KeyMove(moves, at).Some? {
        IndentNoBreak(line);
        NoteIsLines(KeyMove(moves, at).value.note, Indent(line), eol);
      }
      LfCons(lines, line, rest);
      LfAppend(notes, [line] + rest);
      assert notes + [line] + rest == notes + ([line] + rest);
    }
  }

  lemma {:induction false} LfIsLineList(lines: seq<string>)
    requires LfLines(lines)
    ensures IsLineList(lines)
  {
  }

  function AllLines(src: Source): seq<string> { src.head + src.body + src.tail }

  /** `len(head) <= line < len(head) + len(body)` for every move. */
  ghost predicate InBody(src: Source, moves: seq<Move>) {
    forall i :: 0 <= i < |moves| ==>
      && |src.head| <= moves[i].keyLine < |src.head| + |src.body|
      && |src.head| <= moves[i].valueLine < |src.head| + |src.body|
  }

  function BlockFor(line: string, at: nat, moves: seq<Move>, eol: string): seq<string> {
    NotesFor(Spliced(line, at, moves), at, moves, eol) + [Spliced(line, at, moves)]
  }

  lemma {:induction false} TopDownFirst(line: string, rest: seq<string>, at: nat, moves: seq<Move>, eol: string)
    ensures TopDown([line] + rest, at, moves, eol) == BlockFor(line, at, moves, eol) + TopDown(rest, at + 1, moves, eol)
  {
    assert ([line] + rest)[1..] == rest;
  }

  lemma {:induction false} TopDownAppend(a: seq<string>, b: seq<string>, at: nat, moves: seq<Move>, eol: string)
    ensures TopDown(a + b, at, moves, eol) == TopDown(a, at, moves, eol) + TopDown(b, at + |a|, moves, eol)
  {
    if a == [] {
      AppendNone(b, at, moves, eol);
    } else {
      TopDownAppend(a[1..], b, at + 1, moves, eol);
      AppendCons(a, b, at, moves, eol);
    }
  }

  lemma {:induction false} AppendNone(b: seq<string>, at: nat, moves: seq<Move>, eol: string)
    ensures TopDown([] + b, at, moves, eol) == TopDown([], at, moves, eol) + TopDown(b, at, moves, eol)
  {
    assert [] + b == b;
  }

  lemma {:induction false} AppendCons(a: seq<string>, b: seq<string>, at: nat, moves: seq<Move>, eol: string)
    requires a != []
    requires TopDown(a[1..] + b, at + 1, moves, eol) == TopDown(a[1..], at + 1, moves, eol) + TopDown(b, at + |a|, moves, eol)
    ensures TopDown(a + b, at, moves, eol) == TopDown(a, at, moves, eol) + TopDown(b, at + |a|, moves, eol)
  {
    var line, rest := a[0], a[1..];
    ConsAppend(a, b);
    TopDownFirst(line, rest + b, at, moves, eol);
    TopDownFirst(line, rest, at, moves, eol);
    Assoc(BlockFor(line, at, moves, eol), TopDown(rest, at + 1, moves, eol), TopDown(b, at + |a|, moves, eol));
  }

  lemma {:induction false} TopDownIdle(lines: seq<string>, at: nat, moves: seq<Move>, eol: string)
    requires forall i :: 0 <= i < |moves| ==>
               !(at <= moves[i].keyLine < at + |lines|) && !(at <= moves[i].valueLine < at + |lines|)
    ensures TopDown(lines, at, moves, eol) == lines
  {
    if lines != [] {
      KeyMoveNone(moves, at);
      ValueMoveNone(moves, at);
      TopDownIdle(lines[1..], at + 1, moves, eol);
    }
  }

  /** The edit stays inside the literal: what precedes and follows it is untouched. */
  lemma {:induction false} OnlyBodyChanges(src: Source, moves: seq<Move>, eol: string)
    requires InBody(src, moves)
    ensures TopDown(AllLines(src), 0, moves, eol) ==
            src.head + TopDown(src.body, |src.head|, moves, eol) + src.tail
  {
    OnlyMiddle(src.head, src.body, src.tail, moves, eol);
  }

  lemma {:induction false} OnlyMiddle(head: seq<string>, body: seq<string>, tail: seq<string>, moves: seq<Move>, eol: string)
    requires forall i :: 0 <= i < |moves| ==>
               && |head| <= moves[i].keyLine < |head| + |body| && |head| <= moves[i].valueLine < |head| + |body|
    ensures TopDown(head + body + tail, 0, moves, eol) == head + TopDown(body, |head|, moves, eol) + tail
  {
    HeadIdle(head, body, moves, eol);
    TailIdle(head + body, tail, moves, eol);
  }

  lemma {:induction false} TailIdle(above: seq<string>, tail: seq<string>, moves: seq<Move>, eol: string)
    requires forall i :: 0 <= i < |moves| ==> moves[i].keyLine < |above| && moves[i].valueLine < |above|
    ensures TopDown(above + tail, 0, moves, eol) == TopDown(above, 0, moves, eol) + tail
  {
    TopDownIdle(tail, |above|, moves, eol);
    TopDownAppend(above, tail, 0, moves, eol);
  }

  lemma {:induction false} HeadIdle(head: seq<string>, body: seq<string>, moves: seq<Move>, eol: string)
    requires forall i :: 0 <= i < |moves| ==> |head| <= moves[i].keyLine && |head| <= moves[i].valueLine
    ensures TopDown(head + body, 0, moves, eol) == head + TopDown(body, |head|, moves, eol)
  {
    TopDownIdle(head, 0, moves, eol);
    TopDownAppend(head, body, 0, moves, eol);
  }

  ghost predicate Ready(src: Source, names: seq<string>, sha: string, notes: map<string, Note>) {
    && Load(src).Some? && RangesApart(src, names) && LfLines(AllLines(src)) && Literal(sha)
    && forall i :: 0 <= i < |names| ==> Tracks(src, names[i]) && names[i] in notes && WellPrefixed(notes[names[i]])
                                        && forall j :: 0 <= j < |notes[names[i]]| ==>
                                             NoBreak(notes[names[i]][j].prefix) && Unbroken(notes[names[i]][j])
  }

  lemma {:induction false} MoveInFile(src: Source, name: string, sha: string, note: Note)
    requires Tracks(src, name) && Literal(sha)
    requires WellPrefixed(note) && forall j :: 0 <= j < |note| ==> NoBreak(note[j].prefix) && Unbroken(note[j])
    ensures var m := MoveOf(src, name, sha, note);
            && |src.head| <= m.keyLine < |src.head| + |src.body|
            && |src.head| <= m.valueLine < |src.head| + |src.body|
            && KeyedLine(AllLines(src)[m.keyLine], Some(m))
            && PlacedOn(AllLines(src)[m.valueLine], Some(m))
            && m.col <= m.end <= |AllLines(src)[m.valueLine]|
  {
    MovePlaced(src, name, sha, note);
  }

  lemma {:induction false} FromEach(lines: seq<string>, moves: seq<Move>)
    requires forall i :: 0 <= i < |moves| ==>
               && moves[i].keyLine < |lines| && KeyedLine(lines[moves[i].keyLine], Some(moves[i]))
               && moves[i].valueLine < |lines| && PlacedOn(lines[moves[i].valueLine], Some(moves[i]))
    ensures Editable(lines, 0, moves)
  {
    forall l | 0 <= l < |lines|
      ensures PlacedOn(lines[l], ValueMove(moves, 0 + l)) && KeyedLine(lines[l], KeyMove(moves, 0 + l))
    {
      if ValueMove(moves, l).Some? { var j := ValueMoveFrom(moves, l); }
      if KeyMove(moves, l).Some? { var j := KeyMoveFrom(moves, l); }
    }
  }

  ghost predicate MoveReady(src: Source, m: Move) {
    && |src.head| <= m.keyLine < |src.head| + |src.body|
    && |src.head| <= m.valueLine < |src.head| + |src.body|
    && KeyedLine(AllLines(src)[m.keyLine], Some(m))
    && PlacedOn(AllLines(src)[m.valueLine], Some(m))
    && m.col <= m.end <= |AllLines(src)[m.valueLine]|
  }

  lemma {:induction false} AllReady(src: Source, moves: seq<Move>)
    requires Apart(moves) && forall i :: 0 <= i < |moves| ==> MoveReady(src, moves[i])
    ensures InBody(src, moves) && InRange(moves, AllLines(src)) && Editable(AllLines(src), 0, moves)
  {
    FromEach(AllLines(src), moves);
  }

  lemma {:induction false} MovesReady(src: Source, names: seq<string>, sha: string, notes: map<string, Note>)
    requires Ready(src, names, sha, notes)
    ensures var moves := MovesOf(src, names, sha, notes);
            Apart(moves) && InBody(src, moves) && InRange(moves, AllLines(src)) && Editable(AllLines(src), 0, moves)
  {
    var moves := MovesOf(src, names, sha, notes);
    MovesApart(src, names, sha, notes);
    forall i | 0 <= i < |moves|
      ensures MoveReady(src, moves[i])
    {
      MoveInFile(src, names[i], sha, notes[names[i]]);
    }
    AllReady(src, moves);
  }

  lemma {:induction false} KeyMoveFrom(moves: seq<Move>, line: nat) returns (i: nat)
    requires KeyMove(moves, line).Some?
    ensures i < |moves| && KeyMove(moves, line) == Some(moves[i]) && moves[i].keyLine == line
  {
    if moves[0].keyLine == line {
      i := 0;
    } else {
      i := KeyMoveFrom(moves[1..], line);
      i := i + 1;
    }
  }

  // ---------------------------------------------------------------- ready for the next rewrite

  /** Every name is tracked as before, at the same tokens. */
  lemma {:induction false} KeyKept(src: Source, names: seq<string>, sha: string, notes: map<string, Note>, eol: string, n: string)
    requires Load(src).Some? && RangesApart(src, names) && Literal(sha)
    requires forall i :: 0 <= i < |names| ==> Tracks(src, names[i]) && names[i] in notes && WellPrefixed(notes[names[i]])
    ensures var next := Rewritten(src, names, sha, notes, eol);
            && (Tracks(next, n) <==> Tracks(src, n))
            && (Tracks(src, n) ==> KeyOf(next, n) == KeyOf(src, n))
  {
    var ts, us := Tokens(src.body), Tokens(Rewritten(src, names, sha, notes, eol).body);
    var ks := KeysOf(ts).value;
    RewrittenTokens(src, names, sha, notes, eol);
    KeysKept(src, names, ts, us, ks, sha);
    SameLastKey(ts, us, ks, n);
  }

  lemma {:induction false} ClearKept(src: Source, names: seq<string>, sha: string, notes: map<string, Note>, eol: string, m: string, n: string)
    requires Load(src).Some? && RangesApart(src, names) && Literal(sha)
    requires forall i :: 0 <= i < |names| ==> Tracks(src, names[i]) && names[i] in notes && WellPrefixed(notes[names[i]])
    requires Tracks(src, m) && Tracks(src, n) && Clear(src, m, n)
    ensures var next := Rewritten(src, names, sha, notes, eol);
            Tracks(next, m) && Tracks(next, n) && Clear(next, m, n)
  {
    var at, k, l := |src.head|, KeyOf(src, m), KeyOf(src, n);
    KeyKept(src, names, sha, notes, eol, m);
    KeyKept(src, names, sha, notes, eol, n);
    if Above(src.body, at, k + 2, l) {
      StillAbove(src, names, sha, notes, eol, k + 2, l);
    } else {
      StillAbove(src, names, sha, notes, eol, l + 2, k);
    }
  }

  lemma {:induction false} StillAbove(src: Source, names: seq<string>, sha: string, notes: map<string, Note>, eol: string, t: nat, u: nat)
    requires Literal(sha)
    requires forall i :: 0 <= i < |names| ==> Tracks(src, names[i]) && names[i] in notes && WellPrefixed(notes[names[i]])
    requires t < |Tokens(src.body)| && u < |Tokens(src.body)| && Above(src.body, |src.head|, t, u)
    ensures var body := Rewritten(src, names, sha, notes, eol).body;
            t < |Tokens(body)| && u < |Tokens(body)| && Above(body, |src.head|, t, u)
  {
    var moves := MovesOf(src, names, sha, notes);
    MovesPlaced(src, names, sha, notes);
    assert Commented(moves);
    var body := TopDown(src.body, |src.head|, moves, eol);
    TokensOfTopDown(src.body, |src.head|, moves, eol);
    LoadsKept(src.body, |src.head|, moves, eol);
    AboveByLoads(src.body, |src.head|, t, u);
    AboveByLoads(body, |src.head|, t, u);
  }

  /** Entries that keep apart keep apart after the rewrite too, so any further rewrite of them is sound. */
  lemma {:induction false} RangesKept(src: Source, names: seq<string>, sha: string, notes: map<string, Note>, eol: string, others: seq<string>)
    requires Load(src).Some? && RangesApart(src, names) && Literal(sha)
    requires forall i :: 0 <= i < |names| ==> Tracks(src, names[i]) && names[i] in notes && WellPrefixed(notes[names[i]])
    requires RangesApart(src, others)
    ensures RangesApart(Rewritten(src, names, sha, notes, eol), others)
  {
    var next := Rewritten(src, names, sha, notes, eol);
    forall i, j | 0 <= i < |others| && 0 <= j < |others| && i != j && Tracks(next, others[i]) && Tracks(next, others[j])
      ensures Clear(next, others[i], others[j])
    {
      KeyKept(src, names, sha, notes, eol, others[i]);
      KeyKept(src, names, sha, notes, eol, others[j]);
      assert Clear(src, others[i], others[j]);
      ClearKept(src, names, sha, notes, eol, others[i], others[j]);
    }
  }

  lemma {:induction false} RewrittenLf(src: Source, names: seq<string>, sha: string, notes: map<string, Note>, eol: string)
    requires Ready(src, names, sha, notes) && (eol == "\n" || eol == "\r\n")
    ensures LfLines(AllLines(Rewritten(src, names, sha, notes, eol)))
  {
    var moves := MovesOf(src, names, sha, notes);
    MovesReady(src, names, sha, notes);
    OnlyBodyChanges(src, moves, eol);
    TopDownLf(AllLines(src), 0, moves, eol);
  }

  // ---------------------------------------------------------------- from text to text

  lemma {:induction false} MovesInBody(src: Source, names: seq<string>, sha: string, notes: map<string, Note>)
    requires forall i :: 0 <= i < |names| ==> Tracks(src, names[i]) && names[i] in notes && WellPrefixed(notes[names[i]])
    ensures var moves := MovesOf(src, names, sha, notes);
            InBody(src, moves) && InBody(src, SortDown(moves))
    ensures Inside(MovesOf(src, names, sha, notes), |AllLines(src)|)
  {
    var moves := MovesOf(src, names, sha, notes);
    forall i | 0 <= i < |moves|
      ensures |src.head| <= moves[i].keyLine <= moves[i].valueLine < |src.head| + |src.body|
    {
      var k := KeyOf(src, names[i]);
      PlaceOrder(src.body, |src.head|, k, k + 2);
    }
    SortHolds(moves);
  }

  /** Passes inside a region leave what precedes and follows it. */
  lemma {:induction false} EditEnds(lines: seq<string>, moves: seq<Move>, notes: seq<seq<string>>, lo: nat, after: nat)
    requires Inside(moves, |lines|) && |notes| == |moves| && lo + after <= |lines|
    requires forall i :: 0 <= i < |moves| ==> lo <= moves[i].keyLine && moves[i].valueLine < |lines| - after
    ensures var out := EditSeq(lines, moves, notes);
            |out| >= |lines| && out[..lo] == lines[..lo] && out[|out| - after..] == lines[|lines| - after..]
    decreases |moves|
  {
    if moves != [] {
      OnceEnds(lines, moves[0], notes[0], lo, after);
      EditEnds(EditWith(lines, moves[0], notes[0]), moves[1..], notes[1..], lo, after);
    }
  }

  lemma {:induction false} OnceEnds(lines: seq<string>, m: Move, note: seq<string>, lo: nat, after: nat)
    requires lo <= m.keyLine <= m.valueLine < |lines| - after
    ensures var once := EditWith(lines, m, note);
            once[..lo] == lines[..lo] && once[|once| - after..] == lines[|lines| - after..]
  {
  }

  /** The registry as it is read again: the lines of the assignment are split anew from the text written. */
  function Next(src: Source, names: seq<string>, sha: string, notes: map<string, Note>, eol: string): Source
    requires forall i :: 0 <= i < |names| ==> Tracks(src, names[i]) && names[i] in notes && WellPrefixed(notes[names[i]])
  {
    MovesInBody(src, names, sha, notes);
    SortInside(MovesOf(src, names, sha, notes), |AllLines(src)|);
    src.(body := ReadLines(Concat(Middle(src, EditAll(AllLines(src), SortDown(MovesOf(src, names, sha, notes)), eol)))))
  }

  function Middle(src: Source, out: seq<string>): seq<string>
    requires |out| >= |AllLines(src)|
  {
    out[|src.head|..|out| - |src.tail|]
  }

  /** Where the moved entries keep apart, that is the registry of the downward pass. */
  lemma {:induction false} NextIsRewritten(src: Source, names: seq<string>, sha: string, notes: map<string, Note>, eol: string)
    requires Ready(src, names, sha, notes) && (eol == "\n" || eol == "\r\n")
    ensures Next(src, names, sha, notes, eol) == Rewritten(src, names, sha, notes, eol)
  {
    var moves := MovesOf(src, names, sha, notes);
    var next := Rewritten(src, names, sha, notes, eol);
    MovesReady(src, names, sha, notes);
    EditAllDownward(AllLines(src), moves, eol);
    OnlyBodyChanges(src, moves, eol);
    RewrittenLf(src, names, sha, notes, eol);
    var out := src.head + next.body + src.tail;
    assert Middle(src, out) == next.body;
    MiddleLf(src.head, next.body, src.tail);
    LinesReadBack(next.body);
  }

  lemma {:induction false} MiddleLf(head: seq<string>, body: seq<string>, tail: seq<string>)
    requires LfLines(head + body + tail)
    ensures LfLines(body)
  {
    var all := head + body + tail;
    assert forall i :: 0 <= i < |body| ==> body[i] == all[|head| + i];
  }

  /** The registry rewrite from text to text, for any moves: what is written is the text of `Next`. Where
      the moved entries keep apart, reading it gives the old lines with comment blocks above the moved keys
      and new literals for their values, and the registry in it reads as the old pins with the moved ones at
      the new value. */
  method RewriteText(src: Source, names: seq<string>, sha: string, notes: map<string, Note>, eol: string)
    returns (text: Option<string>)
    requires forall i :: 0 <= i < |names| ==> Tracks(src, names[i]) && names[i] in notes && WellPrefixed(notes[names[i]])
    requires eol == "\n" || eol == "\r\n"
    ensures text == if NoRoom(src, names, sha, notes, eol) then None else Some(Concat(AllLines(Next(src, names, sha, notes, eol))))
    ensures text.Some? && Ready(src, names, sha, notes) ==>
              && ReadLines(text.value) == AllLines(Rewritten(src, names, sha, notes, eol))
              && Next(src, names, sha, notes, eol) == Rewritten(src, names, sha, notes, eol)
              && Load(Next(src, names, sha, notes, eol)) == Some(Moved(Load(src).value, names, sha))
  {
    var moves := MovesOf(src, names, sha, notes);
    MovesInBody(src, names, sha, notes);
    var lines := RewritePinRegistry(AllLines(src), moves, eol);
    if lines.None? {
      return None;
    }
    TextOfNext(src, names, sha, notes, eol, lines.value);
    if Ready(src, names, sha, notes) {
      ReadyText(src, names, sha, notes, eol);
    }
    return Some(Concat(lines.value));
  }

  /** The rewrite raises: a note has no room at its turn. */
  predicate NoRoom(src: Source, names: seq<string>, sha: string, notes: map<string, Note>, eol: string)
    requires forall i :: 0 <= i < |names| ==> Tracks(src, names[i]) && names[i] in notes && WellPrefixed(notes[names[i]])
  {
    MovesInBody(src, names, sha, notes);
    SortInside(MovesOf(src, names, sha, notes), |AllLines(src)|);
    Cramped(AllLines(src), SortDown(MovesOf(src, names, sha, notes)), eol)
  }

  lemma {:induction false} TextOfNext(src: Source, names: seq<string>, sha: string, notes: map<string, Note>, eol: string, out: seq<string>)
    requires forall i :: 0 <= i < |names| ==> Tracks(src, names[i]) && names[i] in notes && WellPrefixed(notes[names[i]])
    requires Inside(SortDown(MovesOf(src, names, sha, notes)), |AllLines(src)|)
    requires out == EditAll(AllLines(src), SortDown(MovesOf(src, names, sha, notes)), eol)
    ensures Concat(out) == Concat(AllLines(Next(src, names, sha, notes, eol)))
  {
    MovesInBody(src, names, sha, notes);
    EndsKept(src, SortDown(MovesOf(src, names, sha, notes)), eol);
    Resplit(src, out);
  }

  lemma {:induction false} EndsKept(src: Source, order: seq<Move>, eol: string)
    requires InBody(src, order) && Inside(order, |AllLines(src)|)
    ensures var out := EditAll(AllLines(src), order, eol);
            out[..|src.head|] == src.head && out[|out| - |src.tail|..] == src.tail
  {
    var lines := AllLines(src);
    EditAllIsSeq(lines, order, eol);
    EditEnds(lines, order, NotesUsed(lines, order, eol), |src.head|, |src.tail|);
    assert lines[..|src.head|] == src.head && lines[|lines| - |src.tail|..] == src.tail;
  }

  lemma {:induction false} ReadyText(src: Source, names: seq<string>, sha: string, notes: map<string, Note>, eol: string)
    requires Ready(src, names, sha, notes) && (eol == "\n" || eol == "\r\n")
    ensures var next := Next(src, names, sha, notes, eol);
            && next == Rewritten(src, names, sha, notes, eol) && ReadLines(Concat(AllLines(next))) == AllLines(next)
            && Load(next) == Some(Moved(Load(src).value, names, sha))
  {
    NextIsRewritten(src, names, sha, notes, eol);
    RewrittenLf(src, names, sha, notes, eol);
    LinesReadBack(AllLines(Rewritten(src, names, sha, notes, eol)));
    RewrittenReloads(src, names, sha, notes, eol);
  }

  lemma {:induction false} LinesReadBack(lines: seq<string>)
    requires LfLines(lines)
    ensures ReadLines(Concat(lines)) == lines
  {
    LfIsLineList(lines);
    ReadLinesConcat(lines);
  }

  /** Splitting the middle anew does not change the text. */
  lemma {:induction false} Resplit(src: Source, out: seq<string>)
    requires |out| >= |AllLines(src)| && out[..|src.head|] == src.head && out[|out| - |src.tail|..] == src.tail
    ensures Concat(out) == Concat(AllLines(src.(body := ReadLines(Concat(Middle(src, out))))))
  {
    var middle := Middle(src, out);
    assert out == src.head + middle + src.tail;
    ConcatReadLines(Concat(middle));
    ConcatThree(src.head, middle, src.tail);
    ConcatThree(src.head, ReadLines(Concat(middle)), src.tail);
  }

  // ---------------------------------------------------------------- tokens written out

  function Glyph(t: Token): string {
    match t
    case Str(v) => "\"" + v + "\""
    case Name(id) => id
    case Punct(c) => [c]
    case Bad => ""
  }

  /** The text of a line of tokens, without blanks. */
  function Spell(ts: seq<Token>): string { if ts == [] then "" else Glyph(ts[0]) + Spell(ts[1..]) }

  predicate Plain(t: Token) {
    match t
    case Str(v) => Literal(v)
    case Name(id) => id != "" && forall i :: 0 <= i < |id| ==> IdChar(id[i])
    case Punct(c) => !Quote(c) && !IdChar(c) && !Blank(c) && c != '#'
    case Bad => false
  }

  /** Tokens that can stand next to each other without a blank. */
  ghost predicate Spellable(ts: seq<Token>) {
    && (forall i :: 0 <= i < |ts| ==> Plain(ts[i]))
    && (forall i :: 0 <= i < |ts| - 1 ==> !(ts[i].Name? && ts[i + 1].Name?))
  }

  lemma {:induction false} IdOf(id: string, rest: string)
    requires (forall i :: 0 <= i < |id| ==> IdChar(id[i])) && (rest != "" ==> !IdChar(rest[0]))
    ensures IdLength(id + rest) == |id|
  {
    if id == "" {
      assert id + rest == rest;
    } else {
      assert (id + rest)[1..] == id[1..] + rest;
      IdOf(id[1..], rest);
    }
  }

  lemma {:induction false} GlyphFirst(t: Token, rest: string)
    requires Plain(t) && (t.Name? && rest != "" ==> !IdChar(rest[0]))
    ensures Glyph(t) != "" && !Blank(Glyph(t)[0]) && Glyph(t)[0] != '#' && (!t.Name? ==> !IdChar(Glyph(t)[0]))
    ensures First(Glyph(t) + rest) == (t, |Glyph(t)|)
  {
    var s := Glyph(t) + rest;
    assert s[0] == Glyph(t)[0];
    match t
    case Str(v) => FirstOfLiteral(v, rest);
    case Name(id) => IdOf(id, rest); assert s[..|id|] == id;
    case Punct(c) =>
  }

  lemma {:induction false} GlyphShape(t: Token, rest: string)
    requires Plain(t) && (t.Name? && rest != "" ==> !IdChar(rest[0]))
    ensures Shape(Glyph(t) + rest) == [t] + Shape(rest)
    ensures Span(Glyph(t) + rest, 0) == (0, |Glyph(t)|)
  {
    GlyphFirst(t, rest);
    assert (Glyph(t) + rest)[|Glyph(t)|..] == rest;
  }

  lemma {:induction false} SpellTail(ts: seq<Token>)
    requires ts != [] && Spellable(ts)
    ensures Spellable(ts[1..]) && Plain(ts[0])
    ensures Spell(ts) + "\n" == Glyph(ts[0]) + (Spell(ts[1..]) + "\n")
    ensures ts[0].Name? ==> !IdChar((Spell(ts[1..]) + "\n")[0])
  {
    Assoc(Glyph(ts[0]), Spell(ts[1..]), "\n");
    if ts[0].Name? && |ts| > 1 {
      assert !(ts[0].Name? && ts[0 + 1].Name?);
      GlyphFirst(ts[1], "");
      assert (Spell(ts[1..]) + "\n")[0] == Glyph(ts[1])[0];
    }
  }

  /** Tokens written out on a line read back as those tokens. */
  lemma {:induction false} ShapeOfSpell(ts: seq<Token>)
    requires Spellable(ts)
    ensures Shape(Spell(ts) + "\n") == ts
  {
    if ts == [] {
      assert ("" + "\n")[1..] == "";
    } else {
      SpellTail(ts);
      ShapeOfSpell(ts[1..]);
      GlyphShape(ts[0], Spell(ts[1..]) + "\n");
    }
  }

  /** A literal at the start of a line is its first token, and splicing over it replaces it alone. */
  lemma {:induction false} SpellOpens(v: string, ts: seq<Token>, w: string)
    requires Literal(v) && Spellable([Str(v)] + ts)
    ensures Shape(Spell([Str(v)] + ts) + "\n") != [] && Span(Spell([Str(v)] + ts) + "\n", 0) == (0, |v| + 2)
    ensures SpliceAny(Spell([Str(v)] + ts) + "\n", 0, |v| + 2, w) == Spell([Str(w)] + ts) + "\n"
  {
    var all, rest := [Str(v)] + ts, Spell(ts) + "\n";
    SpellTail(all);
    assert all[1..] == ts && ([Str(w)] + ts)[1..] == ts;
    GlyphShape(Str(v), rest);
    assert (Glyph(Str(v)) + rest)[..0] == "" && (Glyph(Str(v)) + rest)[|v| + 2..] == rest;
    Assoc(Glyph(Str(w)), Spell(ts), "\n");
  }

  lemma {:induction false} SpellLine(ts: seq<Token>)
    requires Spellable(ts) && ts != []
    ensures Spell(ts) != "" && NoBreak(Spell(ts)) && IsLine(Spell(ts) + "\n") && EndsLf(Spell(ts) + "\n")
    ensures Indent(Spell(ts) + "\n") == ""
  {
    SpellNoBreak(ts);
    GlyphFirst(ts[0], "");
    assert Glyph(ts[0]) + "" == Glyph(ts[0]);
    assert Spell(ts)[0] == Glyph(ts[0])[0];
    EolLine(Spell(ts), "\n");
  }

  lemma {:induction false} SpellNoBreak(ts: seq<Token>)
    requires Spellable(ts)
    ensures NoBreak(Spell(ts))
  {
    if ts != [] {
      SpellTail(ts);
      SpellNoBreak(ts[1..]);
    }
  }

  // ---------------------------------------------------------------- a registry that cannot be read again

  const SYMBOL := "_QUEUE_SCHEMA_PINS"

  function Opening(a: string): (ts: seq<Token>)
    ensures |ts| == 5
  {
    [Name(SYMBOL), Punct('='), Punct('{'), Str(a), Punct(':')]
  }

  function Shared(x: string, b: string): (ts: seq<Token>)
    ensures |ts| == 4 && ts == [Str(x)] + [Punct(','), Str(b), Punct(':')]
  {
    [Str(x), Punct(','), Str(b), Punct(':')]
  }

  function Closing(y: string): (ts: seq<Token>)
    ensures |ts| == 2 && ts == [Str(y)] + [Punct('}')]
  {
    [Str(y), Punct('}')]
  }

  function Line(ts: seq<Token>): string { Spell(ts) + "\n" }

  /** Two entries: the first one's value opens the line that ends with the second one's key. */
  function Tight(a: string, b: string, x: string, y: string): Source {
    Source([], [Line(Opening(a)), Line(Shared(x, b)), Line(Closing(y))], [], map[])
  }

  lemma {:induction false} TightSpellable(a: string, b: string, x: string, y: string)
    requires Literal(a) && Literal(b) && Literal(x) && Literal(y)
    ensures Spellable(Opening(a)) && Spellable(Shared(x, b)) && Spellable(Closing(y))
  {
    assert Plain(Name(SYMBOL));
  }

  lemma {:induction false} TwoLines(l: string, m: string, at: nat)
    ensures Tokens([l, m]) == Shape(l) + Shape(m)
    ensures forall t: nat :: t < |Shape(l)| ==> PlaceOf([l, m], at, t) == Place(at, Span(l, t).0, Span(l, t).1)
    ensures forall t: nat :: |Shape(l)| <= t < |Shape(l)| + |Shape(m)| ==>
              var n := t - |Shape(l)|; PlaceOf([l, m], at, t) == Place(at + 1, Span(m, n).0, Span(m, n).1)
  {
    assert [l, m][1..] == [m] && [m][1..] == [];
    assert Tokens([m]) == Shape(m) + [];
  }

  lemma {:induction false} ThreeLines(k: string, l: string, m: string)
    ensures Tokens([k, l, m]) == Shape(k) + (Shape(l) + Shape(m))
    ensures forall t: nat :: t < |Shape(k)| ==> PlaceOf([k, l, m], 0, t).line == 0
    ensures forall t: nat :: |Shape(k)| <= t < |Shape(k)| + |Shape(l)| ==>
              var n := t - |Shape(k)|; PlaceOf([k, l, m], 0, t) == Place(1, Span(l, n).0, Span(l, n).1)
    ensures forall t: nat :: |Shape(k)| + |Shape(l)| <= t < |Shape(k)| + |Shape(l)| + |Shape(m)| ==>
              var n := t - |Shape(k)| - |Shape(l)|; PlaceOf([k, l, m], 0, t) == Place(2, Span(m, n).0, Span(m, n).1)
  {
    assert [k, l, m][1..] == [l, m];
    TwoLines(l, m, 1);
    forall t: nat | |Shape(k)| <= t < |Shape(k)| + |Shape(l)| + |Shape(m)|
      ensures PlaceOf([k, l, m], 0, t) == PlaceOf([l, m], 1, t - |Shape(k)|)
    {
    }
  }

  lemma {:induction false} TwoEntries(ts: seq<Token>)
    requires |ts| == 11 && ts[0] == Name(SYMBOL) && ts[1] == Punct('=') && ts[2] == Punct('{')
    requires ts[3].Str? && ts[4] == Punct(':') && ts[5].Str? && ts[6] == Punct(',')
    requires ts[7].Str? && ts[8] == Punct(':') && ts[9].Str? && ts[10] == Punct('}')
    ensures KeysOf(ts) == Some([3, 7])
  {
    var first: seq<nat>, last: seq<nat> := [3], [7];
    assert Entries(ts, 7) == Some(last);
    assert Entries(ts, 3) == Some(first + last);
    assert first + last == [3, 7];
    assert SYMBOL == "_QUEUE_SCHEMA_PINS";
  }

  lemma {:induction false} TightShapes(a: string, b: string, x: string, y: string)
    requires Literal(a) && Literal(b) && Literal(x) && Literal(y)
    ensures Shape(Line(Opening(a))) == Opening(a) && Shape(Line(Shared(x, b))) == Shared(x, b) && Shape(Line(Closing(y))) == Closing(y)
  {
    TightSpellable(a, b, x, y);
    ShapeOfSpell(Opening(a));
    ShapeOfSpell(Shared(x, b));
    ShapeOfSpell(Closing(y));
  }

  lemma {:induction false} TightRead(a: string, b: string, x: string, y: string)
    requires Literal(a) && Literal(b) && Literal(x) && Literal(y)
    ensures var ts := Tokens(Tight(a, b, x, y).body);
            ts == Opening(a) + (Shared(x, b) + Closing(y)) && KeysOf(ts) == Some([3, 7])
  {
    TightShapes(a, b, x, y);
    ThreeLines(Line(Opening(a)), Line(Shared(x, b)), Line(Closing(y)));
    TwoEntries(Opening(a) + (Shared(x, b) + Closing(y)));
  }

  /** It loads to its two pins. */
  lemma {:induction false} TightLoads(a: string, b: string, x: string, y: string)
    requires Literal(a) && Literal(b) && Literal(x) && Literal(y)
    ensures Load(Tight(a, b, x, y)) == Some(map[a := x][b := y])
  {
    TightRead(a, b, x, y);
    TwoPins(Opening(a) + (Shared(x, b) + Closing(y)), a, b, x, y);
  }

  lemma {:induction false} TwoPins(ts: seq<Token>, a: string, b: string, x: string, y: string)
    requires |ts| == 11 && KeysAt(ts, 0, [3, 7]) && ts[3] == Str(a) && ts[5] == Str(x) && ts[7] == Str(b) && ts[9] == Str(y)
    ensures PinsFrom(ts, [3, 7], map[]) == Some(map[a := x][b := y])
    ensures a != b ==> LastKey(ts, [3, 7], a) == Some(3) && LastKey(ts, [3, 7], b) == Some(7)
  {
    var none: seq<nat>, first: seq<nat>, both: seq<nat> := [], [3], [3, 7];
    assert both[..1] == first && first[..0] == none;
    assert PinsFrom(ts, first, map[]) == Some(map[a := x]);
    assert a != b ==> LastKey(ts, first, a) == Some(3);
  }

  lemma {:induction false} TightMoveOf(a: string, b: string, x: string, y: string, sha: string, one: Note, other: Note)
    requires Literal(a) && Literal(b) && Literal(x) && Literal(y) && a != b
    ensures var src := Tight(a, b, x, y);
            && Tracks(src, a) && MoveOf(src, a, sha, one) == Move(0, 1, 0, |x| + 2, sha, one)
            && Tracks(src, b) && MoveOf(src, b, sha, other) == Move(1, 2, 0, |y| + 2, sha, other)
  {
    var k, l, m := Line(Opening(a)), Line(Shared(x, b)), Line(Closing(y));
    TightRead(a, b, x, y);
    TightShapes(a, b, x, y);
    TightSpellable(a, b, x, y);
    TwoPins(Opening(a) + (Shared(x, b) + Closing(y)), a, b, x, y);
    ThreeLines(k, l, m);
    SpellOpens(x, [Punct(','), Str(b), Punct(':')], x);
    SpellOpens(y, [Punct('}')], y);
  }

  /** The two moves, in the order they are applied. */
  lemma {:induction false} TightMoves(a: string, b: string, x: string, y: string, sha: string, notes: map<string, Note>)
    requires Literal(a) && Literal(b) && Literal(x) && Literal(y) && a != b
    requires a in notes && b in notes && WellPrefixed(notes[a]) && WellPrefixed(notes[b])
    ensures var src := Tight(a, b, x, y);
            && Tracks(src, a) && Tracks(src, b)
            && SortDown(MovesOf(src, [a, b], sha, notes)) ==
               [Move(1, 2, 0, |y| + 2, sha, notes[b]), Move(0, 1, 0, |x| + 2, sha, notes[a])]
  {
    TightMoveOf(a, b, x, y, sha, notes[a], notes[b]);
    TwoMovesOf(Tight(a, b, x, y), a, b, sha, notes);
  }

  lemma {:induction false} TwoMovesOf(src: Source, a: string, b: string, sha: string, notes: map<string, Note>)
    requires Tracks(src, a) && Tracks(src, b)
    requires a in notes && b in notes && WellPrefixed(notes[a]) && WellPrefixed(notes[b])
    requires MoveOf(src, a, sha, notes[a]).keyLine < MoveOf(src, b, sha, notes[b]).keyLine
    ensures SortDown(MovesOf(src, [a, b], sha, notes)) == [MoveOf(src, b, sha, notes[b]), MoveOf(src, a, sha, notes[a])]
  {
    var n, m := MoveOf(src, a, sha, notes[a]), MoveOf(src, b, sha, notes[b]);
    assert MovesOf(src, [a, b], sha, notes) == [n, m];
    SortTwo(n, m);
  }

  lemma {:induction false} SortTwo(n: Move, m: Move)
    requires n.keyLine < m.keyLine
    ensures SortDown([n, m]) == [m, n]
  {
    assert [n, m][1..] == [m] && [m][1..] == [] && SortDown([]) == [];
    assert SortDown([m]) == Insert(m, []) == [m];
    assert [m][1..] == [] && Insert(n, []) == [n];
  }

  ghost predicate GoodLines(note: Note) {
    WellPrefixed(note) && forall j :: 0 <= j < |note| ==> NoBreak(note[j].prefix) && Unbroken(note[j])
  }

  /** Splicing `n` characters over the start of a note's first line keeps its end and leaves nothing that
      starts with a separator. */
  ghost predicate Overwritten(note: seq<string>, n: nat) {
    && note != [] && n <= |Chomp(note[0])|
    && (Shape(note[0][n..]) == [] || !Separator(Shape(note[0][n..])[0]))
  }

  /** Both pins of such a registry are tracked, and once both have moved it cannot be read again. */
  lemma {:induction false} TightUnreadable(a: string, b: string, x: string, y: string, sha: string, notes: map<string, Note>, eol: string)
    requires Literal(a) && Literal(b) && Literal(x) && Literal(y) && Literal(sha) && a != b
    requires a in notes && b in notes && GoodLines(notes[a]) && GoodLines(notes[b])
    requires (eol == "\n" || eol == "\r\n") && Overwritten(NoteLines(notes[b], "", eol), |x| + 2)
    ensures var src := Tight(a, b, x, y);
            Tracks(src, a) && Tracks(src, b) && Load(Next(src, [a, b], sha, notes, eol)) == None
  {
    var src := Tight(a, b, x, y);
    var n, m := Move(0, 1, 0, |x| + 2, sha, notes[a]), Move(1, 2, 0, |y| + 2, sha, notes[b]);
    TightMoves(a, b, x, y, sha, notes);
    var out := TightOut(a, b, x, y, n, m, eol);
    NotReadAgain(src, a, b, sha, notes, eol, [m, n], out);
  }

  lemma {:induction false} TwoPasses(lines: seq<string>, m: Move, n: Move, eol: string)
    requires m.keyLine <= m.valueLine < |lines| && n.keyLine <= n.valueLine < |lines|
    ensures Inside([m, n], |lines|) && EditAll(lines, [m, n], eol) == EditAny(EditAny(lines, m, eol), n, eol)
  {
    var once := EditAny(lines, m, eol);
    assert [m, n][1..] == [n] && [n][1..] == [];
    assert EditAll(once, [n], eol) == EditAll(EditAny(once, n, eol), [], eol);
  }

  lemma {:induction false} NotReadAgain(src: Source, a: string, b: string, sha: string, notes: map<string, Note>, eol: string,
                                        order: seq<Move>, out: seq<string>)
    requires Tracks(src, a) && Tracks(src, b) && a in notes && b in notes && WellPrefixed(notes[a]) && WellPrefixed(notes[b])
    requires src.head == [] && src.tail == [] && |src.body| == 3 && order == SortDown(MovesOf(src, [a, b], sha, notes))
    requires Inside(order, 3) && out == EditAll(src.body, order, eol) && LfLines(out) && KeysOf(Tokens(out)) == None
    ensures Load(Next(src, [a, b], sha, notes, eol)) == None
  {
    NothingAround(src, [a, b], sha, notes, eol, order, out);
  }

  lemma {:induction false} NothingAround(src: Source, names: seq<string>, sha: string, notes: map<string, Note>, eol: string,
                                         order: seq<Move>, out: seq<string>)
    requires forall i :: 0 <= i < |names| ==> Tracks(src, names[i]) && names[i] in notes && WellPrefixed(notes[names[i]])
    requires src.head == [] && src.tail == [] && order == SortDown(MovesOf(src, names, sha, notes))
    requires Inside(order, |src.body|) && out == EditAll(src.body, order, eol) && LfLines(out)
    ensures Next(src, names, sha, notes, eol).body == out && Next(src, names, sha, notes, eol).consts == src.consts
  {
    assert AllLines(src) == src.body;
    MiddleAll(src, out);
    LinesReadBack(out);
  }

  lemma {:induction false} MiddleAll(src: Source, out: seq<string>)
    requires src.head == [] && src.tail == [] && |out| >= |AllLines(src)|
    ensures Middle(src, out) == out
  {
  }

  lemma {:induction false} TightOut(a: string, b: string, x: string, y: string, n: Move, m: Move, eol: string) returns (out: seq<string>)
    requires Literal(a) && Literal(b) && Literal(x) && Literal(y) && Literal(n.sha) && n.sha == m.sha
    requires n == Move(0, 1, 0, |x| + 2, n.sha, n.note) && m == Move(1, 2, 0, |y| + 2, m.sha, m.note)
    requires GoodLines(n.note) && GoodLines(m.note) && (eol == "\n" || eol == "\r\n")
    requires Overwritten(NoteLines(m.note, "", eol), |x| + 2)
    ensures Inside([m, n], 3) && out == EditAll(Tight(a, b, x, y).body, [m, n], eol) && LfLines(out) && KeysOf(Tokens(out)) == None
  {
    var k, l, last, now := Line(Opening(a)), Line(Shared(x, b)), Line(Closing(y)), Line(Closing(m.sha));
    TightLines(a, b, x, y, m.sha);
    TightRead(a, b, x, m.sha);
    out := EditAny(EditAny([k, l, last], m, eol), n, eol);
    TwoPasses([k, l, last], m, n, eol);
    HitKeys(k, l, last, now, n, m, eol);
    HitBody(k, l, last, now, n, m, eol, NoteLines(m.note, "", eol));
  }

  lemma {:induction false} TightLines(a: string, b: string, x: string, y: string, sha: string)
    requires Literal(a) && Literal(b) && Literal(x) && Literal(y) && Literal(sha)
    ensures AllLf([Line(Opening(a))]) && AllLf([Line(Shared(x, b))]) && AllLf([Line(Closing(sha))])
    ensures Indent(Line(Opening(a))) == "" && Indent(Line(Shared(x, b))) == "" && Shape(Line(Shared(x, b))) != []
    ensures SpliceAny(Line(Closing(y)), 0, |y| + 2, sha) == Line(Closing(sha))
  {
    TightSpellable(a, b, x, y);
    TightSpellable(a, b, x, sha);
    TightShapes(a, b, x, y);
    SpellOpens(y, [Punct('}')], sha);
    SpellLine(Opening(a));
    SpellLine(Shared(x, b));
    SpellLine(Closing(sha));
  }

  lemma {:induction false} FirstPass(k: string, l: string, last: string, now: string, m: Move, eol: string)
    requires m.keyLine == 1 && m.valueLine == 2 && now == SpliceAny(last, m.col, m.end, m.sha) && Indent(l) == ""
    ensures [k, l, last][2 := SpliceAny([k, l, last][2], m.col, m.end, m.sha)] == [k, l, now]
    ensures NoteIn([k, l, last], m, eol) == NoteLines(m.note, "", eol)
    ensures EditAny([k, l, last], m, eol) == [k] + NoteLines(m.note, "", eol) + [l, now]
  {
    assert [k, l, last][2 := now] == [k, l, now];
  }

  lemma {:induction false} HitKeys(k: string, l: string, last: string, now: string, n: Move, m: Move, eol: string)
    requires m.keyLine == 1 && m.valueLine == 2 && n.keyLine == 0 && n.valueLine == 1 && n.col == 0 && Literal(n.sha)
    requires now == SpliceAny(last, m.col, m.end, m.sha) && Shape(l) != [] && Indent(l) == ""
    requires WellPrefixed(n.note) && WellPrefixed(m.note) && Keys(Tokens([k, l, now])).Some?
    requires Overwritten(NoteLines(m.note, "", eol), n.end)
    ensures Keys(Tokens(EditAny(EditAny([k, l, last], m, eol), n, eol))) == None
  {
    FirstPass(k, l, last, now, m, eol);
    MeetingUnreadable([k, l, last], m, n, eol, [k, l, now], NoteLines(m.note, "", eol)[0][n.end..]);
  }

  lemma {:induction false} HitBody(k: string, l: string, last: string, now: string, n: Move, m: Move, eol: string, note: seq<string>)
    requires m.keyLine == 1 && m.valueLine == 2 && n.keyLine == 0 && n.valueLine == 1 && n.col == 0 && Literal(n.sha)
    requires now == SpliceAny(last, m.col, m.end, m.sha) && Indent(k) == "" && Indent(l) == ""
    requires AllLf([k]) && AllLf([l]) && AllLf([now]) && GoodLines(n.note) && GoodLines(m.note) && (eol == "\n" || eol == "\r\n")
    requires note == NoteLines(m.note, "", eol) && note != [] && n.end <= |Chomp(note[0])|
    ensures LfLines(EditAny(EditAny([k, l, last], m, eol), n, eol))
  {
    FirstPass(k, l, last, now, m, eol);
    NoteIsLines(m.note, "", eol);
    NoteIsLines(n.note, "", eol);
    AllLfAppend([l], [now]);
    assert [l] + [now] == [l, now];
    HitLines(k, note, [l, now], n, eol);
  }

  lemma {:induction false} HitLines(k: string, note: seq<string>, below: seq<string>, n: Move, eol: string)
    requires n.keyLine == 0 && n.valueLine == 1 && n.col == 0 && Literal(n.sha) && note != [] && Indent(k) == ""
    requires AllLf([k]) && AllLf(below) && AllLf(note) && AllLf(NoteLines(n.note, "", eol)) && n.end <= |Chomp(note[0])|
    ensures LfLines(EditAny([k] + note + below, n, eol))
  {
    var once, hit, top := [k] + note + below, SpliceAny(note[0], n.col, n.end, n.sha), NoteLines(n.note, "", eol);
    SpliceExact(note[0], n.col, n.end, n.sha);
    SpliceInContent(note[0], n.col, n.end, n.sha);
    assert once[1 := hit] == [k] + ([hit] + (note[1..] + below));
    assert NoteIn(once, n, eol) == top;
    WithTop(once, n, top, [k] + ([hit] + (note[1..] + below)));
    AllLfAppend(note[1..], below);
    AllLfAppend([hit], note[1..] + below);
    AllLfAppend([k], [hit] + (note[1..] + below));
    AllLfAppend(top, [k] + ([hit] + (note[1..] + below)));
  }

  lemma {:induction false} WithTop(once: seq<string>, n: Move, top: seq<string>, rest: seq<string>)
    requires n.keyLine == 0 && n.valueLine < |once| && rest == once[n.valueLine := SpliceAny(once[n.valueLine], n.col, n.end, n.sha)]
    ensures EditWith(once, n, top) == top + rest
  {
  }

  /** One such registry, with notes of one line each. */
  lemma {:induction false} TightExample(note: Note, notes: map<string, Note>)
    requires note == [Block("# ", 76, left => ["Pin moved"])] && notes == map["a" := note]["b" := note]
    ensures WellPrefixed(note) && Load(Tight("a", "b", "x", "y")) == Some(map["a" := "x"]["b" := "y"])
    ensures Tracks(Tight("a", "b", "x", "y"), "a") && Tracks(Tight("a", "b", "x", "y"), "b")
    ensures Load(Next(Tight("a", "b", "x", "y"), ["a", "b"], "z", notes, "\n")) == None
  {
    var a, b, x, y, z := "a", "b", "x", "y", "z";
    assert |a| == 1 && a[0] == 'a' && b[0] == 'b';
    assert Literal(a) && Literal(b) && Literal(x) && Literal(y) && Literal(z);
    TightLoads(a, b, x, y);
    OneLineNote(note[0]);
    TightUnreadable(a, b, x, y, z, notes, "\n");
  }

  lemma {:induction false} OneLineNote(block: Block)
    requires block.prefix == "# " && block.width == 76 && forall left: int :: block.lines(left) == ["Pin moved"]
    ensures GoodLines([block]) && Overwritten(NoteLines([block], "", "\n"), 3)
  {
    var first := "# Pin moved\n";
    assert NoteLines([block], "", "\n") == Paragraph(block, "", "\n") + [];
    assert "" + "# " + "Pin moved" + "\n" == first;
    assert NoteLines([block], "", "\n")[0] == first;
    assert NoBreak("Pin moved") && NoBreak("# ");
    ChompAppend("# Pin moved", "\n");
    assert first == "# Pin moved" + "\n";
    assert first[3..] == "in" + " moved\n";
    IdOf("in", " moved\n");
    assert First(first[3..]).0 == Name("in");
  }
}
