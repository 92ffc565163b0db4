/** Wrapping a paragraph the way `textwrap.wrap` does: the text arrives as chunks (runs of whitespace,
    words, and the pieces of hyphenated words) and is laid out line by line. */
module TextWrap {
  import opened Text

  predicate BlankChunk(chunk: string) { forall i :: 0 <= i < |chunk| ==> IsSpace(chunk[i]) }

  function Size(chunks: seq<string>): nat {
    if chunks == [] then 0 else |chunks[0]| + 1 + Size(chunks[1..])
  }

  /** How many leading chunks fit on a line that already holds `used` characters. */
  function Fitting(chunks: seq<string>, width: nat, used: nat): (k: nat)
    requires used <= width
    ensures k <= |chunks| && used + |Concat(chunks[..k])| <= width
    ensures k < |chunks| ==> used + |Concat(chunks[..k])| + |chunks[k]| > width
  {
    if chunks == [] || used + |chunks[0]| > width then 0
    else
      var k := 1 + Fitting(chunks[1..], width, used + |chunks[0]|);
      assert chunks[..k][0] == chunks[0] && chunks[..k][1..] == chunks[1..][..k - 1];
      k
  }

  /** `chunk.rfind("-", 0, before)`, or 0 when there is none that late. */
  function LastHyphen(chunk: string, before: nat): (h: nat)
    requires before <= |chunk|
    ensures h < before || h == 0
  {
    if before == 0 then 0 else if chunk[before - 1] == '-' then before - 1 else LastHyphen(chunk, before - 1)
  }

  /** Where a chunk too long for any line is cut: behind a late hyphen, else where the line is full. */
  function CutAt(chunk: string, left: nat): (end: nat)
    requires left < |chunk|
    ensures end <= left && (left > 0 ==> end > 0)
  {
    var h := LastHyphen(chunk, left);
    if h > 0 && exists i :: 0 <= i < h && chunk[i] != '-' then h + 1 else left
  }

  /** The chunks of the next line and those left over. */
  function NextLine(chunks: seq<string>, width: nat): (r: (seq<string>, seq<string>))
    requires chunks != [] && width > 0
    ensures |Concat(r.0)| <= width && Concat(r.0) + Concat(r.1) == Concat(chunks) && Size(r.1) < Size(chunks)
  {
    var k := Fitting(chunks, width, 0);
    var cur, rest := chunks[..k], chunks[k..];
    Cut(chunks, k);
    if rest != [] && |rest[0]| > width then
      var end := CutAt(rest[0], width - |Concat(cur)|);
      CutLong(cur, rest, end);
      (cur + [rest[0][..end]], [rest[0][end..]] + rest[1..])
    else (cur, rest)
  }

  lemma {:induction false} SizeAppend(a: seq<string>, b: seq<string>)
    ensures Size(a + b) == Size(a) + Size(b)
  {
    if a == [] {
      assert a + b == b;
    } else {
      ConsAppend(a, b);
      assert ([a[0]] + (a[1..] + b))[1..] == a[1..] + b;
      SizeAppend(a[1..], b);
    }
  }

  lemma {:induction false} Cut(chunks: seq<string>, k: nat)
    requires k <= |chunks|
    ensures Concat(chunks[..k]) + Concat(chunks[k..]) == Concat(chunks)
    ensures Size(chunks[..k]) + Size(chunks[k..]) == Size(chunks) && (k > 0 ==> Size(chunks[..k]) > 0)
  {
    assert chunks == chunks[..k] + chunks[k..];
    ConcatAppend(chunks[..k], chunks[k..]);
    SizeAppend(chunks[..k], chunks[k..]);
  }

  lemma {:induction false} CutLong(cur: seq<string>, rest: seq<string>, end: nat)
    requires rest != [] && end <= |rest[0]|
    ensures var new', left := cur + [rest[0][..end]], [rest[0][end..]] + rest[1..];
            && Concat(new') + Concat(left) == Concat(cur) + Concat(rest)
            && |Concat(new')| == |Concat(cur)| + end
            && Size(left) == Size(rest) - end
  {
    var a, b := rest[0][..end], rest[0][end..];
    var left := [b] + rest[1..];
    ConcatAppend(cur, [a]);
    assert Concat([a]) == a + Concat([a][1..]) == a + "" == a;
    assert left[1..] == rest[1..] && rest[0] == a + b;
    Assoc(Concat(cur), a, Concat(left));
    Assoc(a, b, Concat(rest[1..]));
  }

  function DropBlank(chunks: seq<string>): seq<string> {
    if chunks != [] && BlankChunk(chunks[|chunks| - 1]) then chunks[..|chunks| - 1] else chunks
  }

  /** The wrapping loop: a line does not start with whitespace once there is a line, nor end with it. */
  function WrapLines(chunks: seq<string>, width: nat, any: bool): seq<string>
    requires width > 0
    decreases Size(chunks)
  {
    var cs := if any && chunks != [] && BlankChunk(chunks[0]) then chunks[1..] else chunks;
    if cs == [] then []
    else
      var (cur, rest) := NextLine(cs, width);
      var kept := DropBlank(cur);
      if kept == [] then WrapLines(rest, width, any) else [Concat(kept)] + WrapLines(rest, width, true)
  }

  function Wrapped(chunks: seq<string>, width: int): seq<string> {
    if width <= 0 then [] else WrapLines(chunks, width, false)
  }

  /** A text without its whitespace. */
  function Squeeze(s: string): string {
    if s == "" then "" else (if IsSpace(s[0]) then "" else [s[0]]) + Squeeze(s[1..])
  }

  lemma {:induction false} SqueezeAppend(a: string, b: string)
    ensures Squeeze(a + b) == Squeeze(a) + Squeeze(b)
  {
    if a == "" {
      assert a + b == b;
    } else {
      assert (a + b)[1..] == a[1..] + b;
      SqueezeAppend(a[1..], b);
    }
  }

  lemma {:induction false} SqueezeBlank(s: string)
    requires BlankChunk(s)
    ensures Squeeze(s) == ""
  {
    if s != "" {
      SqueezeBlank(s[1..]);
    }
  }

  lemma {:induction false} DropBlankKeeps(chunks: seq<string>)
    ensures Squeeze(Concat(DropBlank(chunks))) == Squeeze(Concat(chunks))
    ensures |Concat(DropBlank(chunks))| <= |Concat(chunks)|
    ensures NoBreak(Concat(chunks)) ==> NoBreak(Concat(DropBlank(chunks)))
  {
    var n := |chunks| - 1;
    if chunks != [] && BlankChunk(chunks[n]) {
      Cut(chunks, n);
      assert chunks[n..] == [chunks[n]];
      assert Concat(chunks[n..]) == chunks[n] + Concat(chunks[n..][1..]) == chunks[n] + "" == chunks[n];
      SqueezeAppend(Concat(chunks[..n]), chunks[n]);
      SqueezeBlank(chunks[n]);
      if NoBreak(Concat(chunks)) { NoBreakParts(Concat(chunks[..n]), chunks[n]); }
    }
  }

  /** However a paragraph is split and wrapped, only whitespace is lost, and no line is too long. */
  lemma {:induction false} WrapKeepsText(chunks: seq<string>, width: nat, any: bool)
    requires width > 0
    ensures Squeeze(Concat(WrapLines(chunks, width, any))) == Squeeze(Concat(chunks))
    ensures forall i :: 0 <= i < |WrapLines(chunks, width, any)| ==> |WrapLines(chunks, width, any)[i]| <= width
    decreases Size(chunks)
  {
    var cs := if any && chunks != [] && BlankChunk(chunks[0]) then chunks[1..] else chunks;
    if cs != chunks {
      SqueezeAppend(chunks[0], Concat(cs));
      SqueezeBlank(chunks[0]);
    }
    if cs != [] {
      var (cur, rest) := NextLine(cs, width);
      var kept := DropBlank(cur);
      DropBlankKeeps(cur);
      SqueezeAppend(Concat(cur), Concat(rest));
      WrapKeepsText(rest, width, if kept == [] then any else true);
      if kept != [] {
        var more := WrapLines(rest, width, true);
        SqueezeAppend(Concat(kept), Concat(more));
        assert ([Concat(kept)] + more)[1..] == more;
      }
    }
  }

  lemma {:induction false} WrappedKeeps(chunks: seq<string>, text: string, width: nat)
    requires width > 0 && Squeeze(Concat(chunks)) == Squeeze(text)
    ensures Squeeze(Concat(Wrapped(chunks, width))) == Squeeze(text)
    ensures forall i :: 0 <= i < |Wrapped(chunks, width)| ==> |Wrapped(chunks, width)[i]| <= width
  {
    WrapKeepsText(chunks, width, false);
  }

  lemma {:induction false} WrapNoBreak(chunks: seq<string>, width: nat, any: bool)
    requires width > 0 && NoBreak(Concat(chunks))
    ensures Unbroken(WrapLines(chunks, width, any))
    decreases Size(chunks)
  {
    var cs := if any && chunks != [] && BlankChunk(chunks[0]) then chunks[1..] else chunks;
    if cs != chunks {
      NoBreakParts(chunks[0], Concat(cs));
    }
    if cs != [] {
      var (cur, rest) := NextLine(cs, width);
      NoBreakParts(Concat(cur), Concat(rest));
      DropBlankKeeps(cur);
      WrapNoBreak(rest, width, if DropBlank(cur) == [] then any else true);
    }
  }

  lemma {:induction false} NoBreakParts(a: string, b: string)
    requires NoBreak(a + b)
    ensures NoBreak(a) && NoBreak(b)
  {
    forall i | 0 <= i < |a|
      ensures !IsBreak(a[i])
    {
      assert (a + b)[i] == a[i];
    }
    forall i | 0 <= i < |b|
      ensures !IsBreak(b[i])
    {
      assert (a + b)[|a| + i] == b[i];
    }
  }

  ghost predicate Unbroken(lines: seq<string>) { forall i :: 0 <= i < |lines| ==> NoBreak(lines[i]) }

  lemma {:induction false} UnbrokenConcat(chunks: seq<string>)
    requires Unbroken(chunks)
    ensures NoBreak(Concat(chunks))
  {
    if chunks != [] {
      UnbrokenConcat(chunks[1..]);
    }
  }

  /** Without line breaks in the text there are none in the wrapped lines, whatever the width. */
  lemma {:induction false} WrappedUnbroken(chunks: seq<string>, width: int)
    requires Unbroken(chunks)
    ensures Unbroken(Wrapped(chunks, width))
  {
    UnbrokenConcat(chunks);
    if width > 0 {
      WrapNoBreak(chunks, width, false);
    }
  }
}
