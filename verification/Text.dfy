/** Strings as the Python sources see them: whitespace, stripping, and reading a
    file as a list of lines that keep their terminators. */
module Text {

  datatype Option<+T> = None | Some(value: T)

  /** `str.isspace`, which is also what `\s` matches. */
  predicate IsSpace(c: char) {
    || c == ' ' || '\t' <= c <= '\r' || '\U{1c}' <= c <= '\U{1f}' || c == '\U{85}' || c == '\U{a0}'
    || c == '\U{1680}' || '\U{2000}' <= c <= '\U{200a}' || c == '\U{2028}' || c == '\U{2029}'
    || c == '\U{202f}' || c == '\U{205f}' || c == '\U{3000}'
  }

  predicate NoSpace(s: string) {
    forall i :: 0 <= i < |s| ==> !IsSpace(s[i])
  }

  function LStrip(s: string): string {
    if s != "" && IsSpace(s[0]) then LStrip(s[1..]) else s
  }

  function RStrip(s: string): string {
    if s != "" && IsSpace(s[|s| - 1]) then RStrip(s[..|s| - 1]) else s
  }

  function Strip(s: string): string { RStrip(LStrip(s)) }

  predicate IsBreak(c: char) { c == '\n' || c == '\r' }

  predicate NoBreak(s: string) {
    forall i :: 0 <= i < |s| ==> !IsBreak(s[i])
  }

  /** `line.rstrip("\r\n")` */
  function Chomp(line: string): (r: string)
    ensures |r| <= |line| && r == line[..|r|]
    ensures r != "" ==> !IsBreak(r[|r| - 1])
    ensures forall i :: |r| <= i < |line| ==> IsBreak(line[i])
  {
    if line != "" && IsBreak(line[|line| - 1]) then Chomp(line[..|line| - 1]) else line
  }

  /** The terminator `Chomp` removes. */
  function Ending(line: string): string { line[|Chomp(line)|..] }

  function Concat(lines: seq<string>): string {
    if lines == [] then "" else lines[0] + Concat(lines[1..])
  }

  /** Length of the first line of `s`, terminator included. */
  function FirstLine(s: string): (n: nat)
    requires s != ""
    ensures 0 < n <= |s|
  {
    if s[0] == '\n' then 1
    else if s[0] == '\r' then (if |s| > 1 && s[1] == '\n' then 2 else 1)
    else if |s| == 1 then 1
    else 1 + FirstLine(s[1..])
  }

  /** `open(..., newline="").readlines()`: breaks at LF, CRLF and lone CR, terminators kept. */
  function ReadLines(s: string): seq<string>
    decreases |s|
  {
    if s == "" then [] else [s[..FirstLine(s)]] + ReadLines(s[FirstLine(s)..])
  }

  /** A string that is its own first line: at most one terminator, at the end. */
  predicate IsLine(line: string) { line != "" && FirstLine(line) == |line| }

  /** `line` may be followed by `next`: it ends in a terminator that `next` does not extend. */
  predicate MayPrecede(line: string, next: string) {
    && line != "" && IsBreak(line[|line| - 1])
    && (line[|line| - 1] == '\r' ==> next == "" || next[0] != '\n')
  }

  ghost predicate IsLineList(lines: seq<string>) {
    && (forall i :: 0 <= i < |lines| ==> IsLine(lines[i]))
    && (forall i :: 0 <= i < |lines| - 1 ==> MayPrecede(lines[i], lines[i + 1]))
  }

  lemma {:induction false} FirstLineOf(s: string)
    requires s != ""
    ensures IsLine(s[..FirstLine(s)])
    ensures FirstLine(s) < |s| ==> MayPrecede(s[..FirstLine(s)], s[FirstLine(s)..])
  {
    if !IsBreak(s[0]) && |s| > 1 {
      FirstLineOf(s[1..]);
      assert s[..FirstLine(s)][1..] == s[1..][..FirstLine(s[1..])];
    }
  }

  /** Reading gives well-formed lines that are exactly the bytes read. */
  lemma {:induction false} ConcatReadLines(s: string)
    ensures Concat(ReadLines(s)) == s
    ensures IsLineList(ReadLines(s))
    decreases |s|
  {
    if s != "" {
      var n := FirstLine(s);
      ConcatReadLines(s[n..]);
      FirstLineOf(s);
      assert ReadLines(s)[1..] == ReadLines(s[n..]);
    }
  }

  lemma {:induction false} FirstLineOfConcat(line: string, rest: string)
    requires IsLine(line)
    requires rest != "" ==> MayPrecede(line, rest)
    ensures FirstLine(line + rest) == |line|
  {
    if !IsBreak(line[0]) && |line| > 1 {
      FirstLineOfConcat(line[1..], rest);
      assert (line + rest)[1..] == line[1..] + rest;
    }
  }

  /** Well-formed lines survive being written and read back. */
  lemma {:induction false} ReadLinesConcat(lines: seq<string>)
    requires IsLineList(lines)
    ensures ReadLines(Concat(lines)) == lines
  {
    if lines != [] {
      var rest := Concat(lines[1..]);
      if |lines| > 1 {
        assert MayPrecede(lines[0], lines[1]);
      }
      FirstLineOfConcat(lines[0], rest);
      ReadLinesConcat(lines[1..]);
      assert (lines[0] + rest)[|lines[0]|..] == rest;
    }
  }

  lemma {:induction false} ConcatAppend(a: seq<string>, b: seq<string>)
    ensures Concat(a + b) == Concat(a) + Concat(b)
  {
    if a == [] {
      assert a + b == b;
    } else {
      assert (a + b)[1..] == a[1..] + b;
      ConcatAppend(a[1..], b);
    }
  }

  /** A line's content carries no break, so putting one terminator after it makes a line again. */
  lemma {:induction false} LineContent(line: string)
    requires IsLine(line)
    ensures NoBreak(Chomp(line))
  {
    if !IsBreak(line[0]) && |line| > 1 {
      LineContent(line[1..]);
    }
  }

  /** New content before an old line's terminator is a line, usable wherever the old one was. */
  lemma {:induction false} Retermed(line: string, body: string)
    requires IsLine(line) && NoBreak(body) && body != ""
    ensures IsLine(body + Ending(line))
    ensures forall next :: MayPrecede(line, next) ==> MayPrecede(body + Ending(line), next)
  {
    EndingOfLine(line);
    AnyContent(body, Ending(line));
  }

  lemma {:induction false} EndsAlike(line: string, s: string)
    requires IsLine(line) && s != "" && IsBreak(line[|line| - 1])
    ensures (s + Ending(line))[|s + Ending(line)| - 1] == line[|line| - 1]
  {
    var e := Ending(line);
    assert e != "" by { assert |Chomp(line)| < |line|; }
    assert e[|e| - 1] == line[|line| - 1];
  }

  lemma {:induction false} EndingOfLine(line: string)
    requires IsLine(line)
    ensures Ending(line) == "" || FirstLine(Ending(line)) == |Ending(line)|
  {
    var c := Chomp(line);
    if c == "" {
      assert Ending(line) == line;
    } else if |line| > 1 {
      var t := line[1..];
      assert !IsBreak(line[0]) by {
        LineContent(line);
      }
      EndingOfLine(t);
      ChompTail(line);
    }
  }

  lemma {:induction false} ChompTail(line: string)
    requires Chomp(line) != ""
    ensures Ending(line[1..]) == Ending(line)
  {
    var t := line[1..];
    var c, d := Chomp(line), Chomp(t);
    assert |d| + 1 == |c|;
  }

  lemma {:induction false} AnyContent(body: string, ending: string)
    requires NoBreak(body) && body != ""
    requires ending == "" || FirstLine(ending) == |ending|
    ensures FirstLine(body + ending) == |body + ending|
  {
    var s := body + ending;
    if |body| == 1 {
      assert s[1..] == ending;
    } else {
      AnyContent(body[1..], ending);
      assert s[1..] == body[1..] + ending;
    }
  }

  lemma {:induction false} ChompAppend(content: string, ending: string)
    requires content != "" && NoBreak(content) && forall i :: 0 <= i < |ending| ==> IsBreak(ending[i])
    ensures Chomp(content + ending) == content && Ending(content + ending) == ending
  {
    var n := |ending|;
    if n > 0 {
      ChompAppend(content, ending[..n - 1]);
      assert (content + ending)[..|content| + n - 1] == content + ending[..n - 1];
    } else {
      assert content + ending == content;
    }
  }

  lemma {:induction false} Assoc<T>(a: seq<T>, b: seq<T>, c: seq<T>)
    ensures a + (b + c) == a + b + c
  {
  }

  lemma {:induction false} ConsAppend<T>(a: seq<T>, b: seq<T>)
    requires a != []
    ensures a == [a[0]] + a[1..] && a + b == [a[0]] + (a[1..] + b)
  {
  }

  lemma {:induction false} ConcatThree(a: seq<string>, b: seq<string>, c: seq<string>)
    ensures Concat(a + b + c) == Concat(a) + Concat(b) + Concat(c)
  {
    ConcatAppend(a + b, c);
    ConcatAppend(a, b);
  }
}
