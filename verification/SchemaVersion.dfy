/** What the cockpit re-vendor reads out of a schema file: its version, the direction of a change,
    and its shape with the version stamp taken out. */
module SchemaVersion {
  import opened Text

  /** Parsed JSON; booleans are the numbers Python compares them equal to. */
  datatype Json = JObj(fields: map<string, Json>) | JArr(items: seq<Json>) | JStr(text: string) | JNum(value: real) | JNull

  // ---------------------------------------------------------------- integers and semver

  predicate IsDigit(c: char) { '0' <= c <= '9' }

  function DigitValue(c: char): nat
    requires IsDigit(c)
  {
    (c - '0') as int
  }

  /** Digits with single underscores between them, read left to right. */
  function Digits(s: string, acc: nat): Option<nat>
    decreases |s|
  {
    if s == "" || !IsDigit(s[0]) then None
    else
      var v := acc * 10 + DigitValue(s[0]);
      if |s| == 1 then Some(v)
      else if s[1] == '_' then Digits(s[2..], v)
      else Digits(s[1..], v)
  }

  /** Python's `int(text)`: surrounding whitespace, a sign and underscores are accepted. */
  function PyInt(s: string): Option<int> {
    var t := Strip(s);
    if t == "" then None
    else
      var unsigned := Digits(if t[0] == '-' || t[0] == '+' then t[1..] else t, 0);
      if unsigned.None? then None
      else
        var n: int := unsigned.value;
        Some(if t[0] == '-' then -n else n)
  }

  /** `text.split(".")` */
  function SplitDots(s: string): (r: seq<string>)
    ensures |r| > 0
  {
    if s == "" then [""]
    else
      var rest := SplitDots(s[1..]);
      if s[0] == '.' then [""] + rest else [[s[0]] + rest[0]] + rest[1..]
  }

  datatype Triple = Triple(major: int, minor: int, patch: int)

  function ParseSemver(s: string): Option<Triple> {
    var parts := SplitDots(s);
    if |parts| != 3 then None
    else
      match (PyInt(parts[0]), PyInt(parts[1]), PyInt(parts[2]))
      case (Some(a), Some(b), Some(c)) => Some(Triple(a, b, c))
      case _ => None
  }

  /** Tuple order, which on non-negative triples is precedence in item 11 of SemVer 2.0.0. */
  predicate Below(a: Triple, b: Triple) {
    a.major < b.major || (a.major == b.major && (a.minor < b.minor || (a.minor == b.minor && a.patch < b.patch)))
  }

  // ---------------------------------------------------------------- canonical versions

  predicate AllDigits(s: string) { s != "" && forall i :: 0 <= i < |s| ==> IsDigit(s[i]) }

  function Digit(d: nat): (c: char)
    requires d < 10
    ensures IsDigit(c) && DigitValue(c) == d
  {
    '0' + d as char
  }

  function Decimal(n: nat): (s: string)
    ensures AllDigits(s)
  {
    if n < 10 then [Digit(n)] else Decimal(n / 10) + [Digit(n % 10)]
  }

  lemma {:induction false} DigitsSnoc(s: string, d: char, acc: nat)
    requires AllDigits(s) && IsDigit(d)
    ensures Digits(s, acc).Some?
    ensures Digits(s + [d], acc) == Some(Digits(s, acc).value * 10 + DigitValue(d))
  {
    var t := s + [d];
    assert t[1..] == s[1..] + [d];
    if |s| > 1 {
      DigitsSnoc(s[1..], d, acc * 10 + DigitValue(s[0]));
    }
  }

  lemma {:induction false} DecimalReads(n: nat)
    ensures Digits(Decimal(n), 0) == Some(n)
  {
    if n >= 10 {
      DecimalReads(n / 10);
      DigitsSnoc(Decimal(n / 10), Digit(n % 10), 0);
    }
  }

  lemma {:induction false} StripDigits(s: string)
    requires s != "" && !IsSpace(s[0]) && !IsSpace(s[|s| - 1])
    ensures Strip(s) == s
  {
  }

  /** A sign is accepted too, which the documented contract of the parser rules out. */
  lemma {:induction false} IntReads(n: nat)
    ensures PyInt(Decimal(n)) == Some(n)
    ensures PyInt("-" + Decimal(n)).Some? && PyInt("-" + Decimal(n)).value == 0 - n
  {
    var d, m := Decimal(n), "-" + Decimal(n);
    DecimalReads(n);
    assert IsDigit(d[0]) && IsDigit(d[|d| - 1]);
    StripDigits(d);
    assert m[|m| - 1] == d[|d| - 1] && m[1..] == d;
    StripDigits(m);
  }

  ghost predicate NoDot(s: string) { forall i :: 0 <= i < |s| ==> s[i] != '.' }

  lemma {:induction false} SplitAt(x: string, y: string)
    requires NoDot(x)
    ensures SplitDots(x + ("." + y)) == [x] + SplitDots(y)
  {
    var s := x + ("." + y);
    if x == "" {
      assert s[1..] == y;
    } else {
      assert s[1..] == x[1..] + ("." + y);
      SplitAt(x[1..], y);
      assert [s[0]] + x[1..] == x;
    }
  }

  lemma {:induction false} SplitNoDot(x: string)
    requires NoDot(x)
    ensures SplitDots(x) == [x]
  {
    if x != "" {
      SplitNoDot(x[1..]);
      assert [x[0]] + x[1..] == x;
    }
  }

  /** Three dotted pieces. */
  function Stamp(a: string, b: string, c: string): string { a + ("." + (b + ("." + c))) }

  /** A version written in the usual way reads back as its three numbers, so versions are compared as
      numbers and never as text. */
  lemma {:induction false} SemverRoundTrip(a: nat, b: nat, c: nat)
    ensures ParseSemver(Stamp(Decimal(a), Decimal(b), Decimal(c))) == Some(Triple(a, b, c))
  {
    SplitAt(Decimal(a), Decimal(b) + ("." + Decimal(c)));
    SplitAt(Decimal(b), Decimal(c));
    SplitNoDot(Decimal(c));
    IntReads(a);
    IntReads(b);
    IntReads(c);
  }

  // ---------------------------------------------------------------- a schema's version

  datatype Version = Missing | Text(text: string) | Unparsable | Raises

  /** `schema.get("version")`, falsy values counting as missing; a value that is not a string never
      reads as three integers. */
  function VersionOf(j: Json): Version {
    if !j.JObj? then Raises
    else if "version" !in j.fields then Missing
    else
      match j.fields["version"]
      case JStr(s) => if s == "" then Missing else Text(s)
      case JNum(v) => if v == 0.0 then Missing else Unparsable
      case JArr(items) => if items == [] then Missing else Unparsable
      case JObj(fields) => if fields == map[] then Missing else Unparsable
      case JNull => Missing
  }

  function TripleOf(v: Version): Option<Triple> { if v.Text? then ParseSemver(v.text) else None }

  datatype Direction = NotDowngrade | Downgrade | Overridden | Refuse

  /** `_detect_downgrade` */
  function Detect(current: Version, incoming: Version, allow: bool, dryRun: bool): Direction {
    if current.Missing? then NotDowngrade
    else if TripleOf(current).None? || TripleOf(incoming).None? then
      (if allow || dryRun then Overridden else Refuse)
    else if Below(TripleOf(incoming).value, TripleOf(current).value) then Downgrade
    else NotDowngrade
  }

  // ---------------------------------------------------------------- the version stamp

  function DigitRun(s: string): (n: nat)
    ensures n <= |s| && forall i :: 0 <= i < n ==> IsDigit(s[i])
    ensures n < |s| ==> !IsDigit(s[n])
  {
    if s == "" || !IsDigit(s[0]) then 0 else 1 + DigitRun(s[1..])
  }

  /** Length of a `\d+\.\d+` match at the start of `s`, or 0. */
  function PairLength(s: string): (n: nat)
    ensures n <= |s|
  {
    var b := DigitRun(s);
    if b == 0 || b >= |s| || s[b] != '.' then 0
    else
      var c := DigitRun(s[b + 1..]);
      if c == 0 then 0 else b + 1 + c
  }

  /** Length of a `\d+\.\d+\.\d+` match at the start of `s`, or 0. */
  function StampLength(s: string): (n: nat)
    ensures n <= |s|
  {
    var a := DigitRun(s);
    if a == 0 || a >= |s| || s[a] != '.' || PairLength(s[a + 1..]) == 0 then 0 else a + 1 + PairLength(s[a + 1..])
  }

  const BLANK := "X.Y.Z"

  /** One step of the substitution: how much of `s` is consumed and what is written for it. */
  function Turn(s: string): (n: nat)
    requires s != ""
    ensures 0 < n <= |s|
  {
    if StampLength(s) > 0 then StampLength(s) else 1
  }

  function Out(s: string): string
    requires s != ""
  {
    if StampLength(s) > 0 then BLANK else [s[0]]
  }

  /** `re.sub(r"\d+\.\d+\.\d+", "X.Y.Z", text)` */
  function BlankStamps(s: string): string
    decreases |s|
  {
    if s == "" then "" else Out(s) + BlankStamps(s[Turn(s)..])
  }

  /** `_strip_version_stamp_churn` */
  function WithoutStamp(j: Json): Json {
    if !j.JObj? then j
    else
      var rest := j.fields - {"version"};
      if "description" in rest && rest["description"].JStr?
      then JObj(rest["description" := JStr(BlankStamps(rest["description"].text))])
      else JObj(rest)
  }

  lemma {:induction false} RunOf(run: string, rest: string)
    requires AllDigits(run) && (rest != "" ==> !IsDigit(rest[0]))
    ensures DigitRun(run + rest) == |run|
  {
    var s := run + rest;
    assert forall i :: 0 <= i < |run| ==> s[i] == run[i];
    assert rest != "" ==> s[|run|] == rest[0];
  }

  lemma {:induction false} Behind(a: string, t: string, s: string)
    requires s == a + ("." + t)
    ensures |s| == |a| + 1 + |t| && s[|a|] == '.' && s[|a| + 1..] == t
    ensures forall i :: 0 <= i < |t| ==> s[|a| + 1 + i] == t[i]
  {
  }

  lemma {:induction false} PairMatches(b: string, c: string)
    requires AllDigits(b) && c != "" && DigitRun(c) > 0
    ensures PairLength(b + ("." + c)) == |b| + 1 + DigitRun(c)
  {
    RunOf(b, "." + c);
    Behind(b, c, b + ("." + c));
  }

  lemma {:induction false} StampMatches(a: string, b: string, c: string)
    requires AllDigits(a) && AllDigits(b) && c != "" && DigitRun(c) > 0
    ensures StampLength(Stamp(a, b, c)) == |a| + |b| + 2 + DigitRun(c)
  {
    var t := b + ("." + c);
    RunOf(a, "." + t);
    Behind(a, t, Stamp(a, b, c));
    PairMatches(b, c);
  }

  lemma {:induction false} StampAppend(a: string, b: string, c: string, post: string)
    ensures Stamp(a, b, c) + post == Stamp(a, b, c + post)
  {
    var t := b + ("." + c);
    Assoc(".", c, post);
    Assoc(b, "." + c, post);
    Assoc(".", t, post);
    Assoc(a, "." + t, post);
  }

  /** A stamp at the start is blanked whatever its numbers are. */
  lemma {:induction false} StampFirst(a: string, b: string, c: string, post: string)
    requires AllDigits(a) && AllDigits(b) && AllDigits(c) && (post != "" ==> !IsDigit(post[0]))
    ensures BlankStamps(Stamp(a, b, c) + post) == BLANK + BlankStamps(post)
  {
    var s := Stamp(a, b, c) + post;
    StampAppend(a, b, c, post);
    RunOf(c, post);
    StampMatches(a, b, c + post);
    assert s[|Stamp(a, b, c)|..] == post;
  }

  // ---------------------------------------------------------------- what stands before the stamp

  /** All of `s` is the beginning of a stamp, past its first dot. */
  predicate Begun(s: string) {
    var a := DigitRun(s);
    0 < a < |s| && s[a] == '.' && PairBegun(s[a + 1..])
  }

  /** All of `s` is the beginning of two dotted numbers that digits could complete or lengthen. */
  predicate PairBegun(s: string) {
    var b := DigitRun(s);
    b == |s| || (b > 0 && s[b] == '.' && DigitRun(s[b + 1..]) == |s[b + 1..]|)
  }

  /** Blanking `pre` ends inside a stamp that has begun and that more digits could complete. */
  predicate Dangling(pre: string)
    decreases |pre|
  {
    if pre == "" || AllDigits(pre) then false else Begun(pre) || Dangling(pre[Turn(pre)..])
  }

  /** What `pre` turns into in front of a stamp: digits right before the stamp become part of it. */
  function Front(pre: string): string
    decreases |pre|
  {
    if pre == "" || AllDigits(pre) then "" else Out(pre) + Front(pre[Turn(pre)..])
  }

  lemma {:induction false} RunIn(s: string, rest: string)
    requires DigitRun(s) < |s|
    ensures DigitRun(s + rest) == DigitRun(s)
  {
    assert forall i :: 0 <= i < |s| ==> (s + rest)[i] == s[i];
  }

  lemma {:induction false} PairDecided(s: string, rest: string)
    requires !PairBegun(s)
    ensures PairLength(s + rest) == PairLength(s) < |s|
  {
    var b := DigitRun(s);
    RunIn(s, rest);
    assert (s + rest)[b] == s[b];
    if b > 0 && s[b] == '.' {
      assert (s + rest)[b + 1..] == s[b + 1..] + rest;
      RunIn(s[b + 1..], rest);
    }
  }

  /** Text that has not begun a stamp decides on its own whether it starts with one. */
  lemma {:induction false} StampDecided(pre: string, rest: string)
    requires pre != "" && !AllDigits(pre) && !Begun(pre)
    ensures StampLength(pre + rest) == StampLength(pre)
  {
    var s, a := pre + rest, DigitRun(pre);
    assert a < |pre|;
    RunIn(pre, rest);
    assert s[a] == pre[a];
    if a > 0 && pre[a] == '.' {
      assert s[a + 1..] == pre[a + 1..] + rest;
      PairDecided(pre[a + 1..], rest);
    }
  }

  lemma {:induction false} TurnDecided(pre: string, rest: string)
    requires pre != "" && !AllDigits(pre) && !Begun(pre)
    ensures BlankStamps(pre + rest) == Out(pre) + BlankStamps(pre[Turn(pre)..] + rest)
  {
    StampDecided(pre, rest);
    var s := pre + rest;
    assert s[0] == pre[0];
    assert s[Turn(pre)..] == pre[Turn(pre)..] + rest;
  }

  lemma {:induction false} DigitsThenStamp(pre: string, a: string, b: string, c: string, post: string)
    requires (pre == "" || AllDigits(pre)) && AllDigits(a) && AllDigits(b) && AllDigits(c) && (post != "" ==> !IsDigit(post[0]))
    ensures BlankStamps(pre + (Stamp(a, b, c) + post)) == BLANK + BlankStamps(post)
  {
    StampFirst(pre + a, b, c, post);
    Assoc(pre, a, "." + (b + ("." + c)));
    Assoc(pre, Stamp(a, b, c), post);
  }

  /** Before a stamp, text that does not dangle turns into the same whatever the stamp says. */
  lemma {:induction false} StampBlanked(pre: string, a: string, b: string, c: string, post: string)
    requires !Dangling(pre) && AllDigits(a) && AllDigits(b) && AllDigits(c) && (post != "" ==> !IsDigit(post[0]))
    ensures BlankStamps(pre + (Stamp(a, b, c) + post)) == Front(pre) + (BLANK + BlankStamps(post))
    decreases |pre|
  {
    var rest := Stamp(a, b, c) + post;
    if pre == "" || AllDigits(pre) {
      DigitsThenStamp(pre, a, b, c, post);
      assert Front(pre) == "";
      assert "" + (BLANK + BlankStamps(post)) == BLANK + BlankStamps(post);
    } else {
      TurnDecided(pre, rest);
      StampBlanked(pre[Turn(pre)..], a, b, c, post);
      Assoc(Out(pre), Front(pre[Turn(pre)..]), BLANK + BlankStamps(post));
    }
  }

  /** Text that ends in neither a digit nor a dot never dangles and is blanked on its own. */
  lemma {:induction false} PlainEnd(pre: string)
    requires pre == "" || (!IsDigit(pre[|pre| - 1]) && pre[|pre| - 1] != '.')
    ensures !Dangling(pre) && Front(pre) == BlankStamps(pre)
    decreases |pre|
  {
    if pre != "" {
      NotBegun(pre);
      var rest := pre[Turn(pre)..];
      assert rest == "" || rest[|rest| - 1] == pre[|pre| - 1];
      PlainEnd(rest);
    }
  }

  lemma {:induction false} NotBegun(s: string)
    requires s != "" && !IsDigit(s[|s| - 1]) && s[|s| - 1] != '.'
    ensures !AllDigits(s) && !Begun(s)
  {
    var a := DigitRun(s);
    if 0 < a < |s| && s[a] == '.' {
      assert s[a + 1..] != "" && s[a + 1..][|s[a + 1..]| - 1] == s[|s| - 1];
      NotPairBegun(s[a + 1..]);
    }
  }

  lemma {:induction false} NotPairBegun(s: string)
    requires s != "" && !IsDigit(s[|s| - 1]) && s[|s| - 1] != '.'
    ensures !PairBegun(s)
  {
    var b := DigitRun(s);
    if 0 < b < |s| && s[b] == '.' {
      var q := s[b + 1..];
      assert q != "" && q[|q| - 1] == s[|s| - 1];
    }
  }

  // ---------------------------------------------------------------- a stamp behind a dangling text

  ghost predicate EndsWith(s: string, d: char) { s != "" && s[|s| - 1] == d }

  lemma {:induction false} PlainStep(c: char, s: string)
    requires StampLength([c] + s) == 0
    ensures BlankStamps([c] + s) == [c] + BlankStamps(s)
  {
    assert ([c] + s)[1..] == s;
  }

  lemma {:induction false} ShortRest(c: char, d: char)
    requires c == '.' && IsDigit(d)
    ensures BlankStamps([d]) == [d] && BlankStamps([c, d]) == [c, d]
  {
    var none := "";
    assert [d] + none == [d] && DigitRun([d]) == 1;
    PlainStep(d, none);
    assert [c] + [d] == [c, d] && DigitRun([c, d]) == 0;
    PlainStep(c, [d]);
  }

  lemma {:induction false} LongRest(c: char, z: char, d: char)
    requires c == '.' && IsDigit(z) && IsDigit(d)
    ensures BlankStamps([c, z, c, d]) == [c, z, c, d]
  {
    ShortRest(c, d);
    var three, four := [z, c, d], [c, z, c, d];
    assert [z] + [c, d] == three && DigitRun(three) == 1;
    assert three[2..] == [d] && DigitRun([d]) == 1 && PairLength([d]) == 0;
    PlainStep(z, [c, d]);
    assert [c] + three == four && DigitRun(four) == 0;
    PlainStep(c, three);
    assert [c] + ([z] + [c, d]) == four;
  }

  lemma {:induction false} CutRest(s: string, n: nat, d: char)
    requires IsDigit(d) && n == StampLength(s) > 0 && (s[n..] == ['.', d] || s[n..] == ['.', '0', '.', d])
    ensures EndsWith(BlankStamps(s), d)
  {
    ShortRest('.', d);
    LongRest('.', '0', d);
    assert BlankStamps(s) == BLANK + s[n..];
  }

  /** The last number of a stamp behind a begun one is left standing. */
  lemma {:induction false} BegunLeaves(pre: string, d: char)
    requires Begun(pre) && IsDigit(d)
    ensures EndsWith(BlankStamps(pre + ['0', '.', '0', '.', d]), d)
  {
    var a := DigitRun(pre);
    var r := pre[a + 1..];
    AtDot(pre, a);
    if DigitRun(r) == |r| {
      LeavesOne(pre, pre[..a], r, d);
    } else {
      var b := DigitRun(r);
      AtDot(r, b);
      LeavesTwo(pre, pre[..a], r[..b], r[b + 1..], d);
    }
  }

  lemma {:induction false} AtDot(s: string, i: nat)
    requires i < |s| && s[i] == '.'
    ensures s == s[..i] + ("." + s[i + 1..])
  {
  }

  lemma {:induction false} LeavesOne(pre: string, x: string, y: string, d: char)
    requires pre == x + ("." + y) && AllDigits(x) && DigitRun(y) == |y| && IsDigit(d)
    ensures EndsWith(BlankStamps(pre + ['0', '.', '0', '.', d]), d)
  {
    var s, z := pre + ['0', '.', '0', '.', d], ['0', '.', d];
    ZeroRun("", ['.', d]);
    assert "" + (['0'] + ['.', d]) == z;
    assert s == x + ("." + ((y + ['0']) + ("." + z)));
    Pieces(s, x, y + ['0'], z, ['.', d]);
    CutRest(s, StampLength(s), d);
  }

  lemma {:induction false} LeavesTwo(pre: string, x: string, y: string, q: string, d: char)
    requires pre == x + ("." + (y + ("." + q))) && AllDigits(x) && AllDigits(y) && DigitRun(q) == |q| && IsDigit(d)
    ensures EndsWith(BlankStamps(pre + ['0', '.', '0', '.', d]), d)
  {
    var rest := ['0', '.', '0', '.', d];
    var s := pre + rest;
    ZeroRun(q, ['.', '0', '.', d]);
    assert rest == ['0'] + ['.', '0', '.', d];
    assert s == x + ("." + (y + ("." + (q + rest))));
    Pieces(s, x, y, q + rest, ['.', '0', '.', d]);
    CutRest(s, StampLength(s), d);
  }

  lemma {:induction false} ZeroRun(q: string, left: string)
    requires DigitRun(q) == |q| && left != "" && !IsDigit(left[0])
    ensures var z := q + (['0'] + left); DigitRun(z) == |q| + 1 && z[DigitRun(z)..] == left
  {
    var z := q + (['0'] + left);
    assert AllDigits(q + ['0']) && z == (q + ['0']) + left;
    RunOf(q + ['0'], left);
  }

  lemma {:induction false} Pieces(s: string, x: string, y: string, z: string, left: string)
    requires AllDigits(x) && AllDigits(y) && s == Stamp(x, y, z)
    requires 0 < DigitRun(z) && z[DigitRun(z)..] == left
    ensures StampLength(s) > 0 && s[StampLength(s)..] == left
  {
    StampMatches(x, y, z);
    Behind(x, y + ("." + z), s);
    Behind(y, z, y + ("." + z));
    assert s[|x| + |y| + 2..] == z;
  }

  /** Where the begun stamp of a dangling text starts. */
  lemma {:induction false} DanglingAt(pre: string, rest: string) returns (done: string, from: nat)
    requires Dangling(pre)
    ensures from <= |pre| && Begun(pre[from..])
    ensures BlankStamps(pre + rest) == done + BlankStamps(pre[from..] + rest)
    decreases |pre|
  {
    if Begun(pre) {
      done, from := "", 0;
      assert pre[0..] == pre;
    } else {
      var more, at := DanglingAt(pre[Turn(pre)..], rest);
      done, from := DanglingOn(pre, rest, more, at);
    }
  }

  lemma {:induction false} DanglingOn(pre: string, rest: string, more: string, at: nat) returns (done: string, from: nat)
    requires pre != "" && !AllDigits(pre) && !Begun(pre) && at <= |pre[Turn(pre)..]|
    requires BlankStamps(pre[Turn(pre)..] + rest) == more + BlankStamps(pre[Turn(pre)..][at..] + rest)
    ensures from <= |pre| && pre[from..] == pre[Turn(pre)..][at..]
    ensures BlankStamps(pre + rest) == done + BlankStamps(pre[from..] + rest)
  {
    TurnDecided(pre, rest);
    done, from := Out(pre) + more, Turn(pre) + at;
    Assoc(Out(pre), more, BlankStamps(pre[from..] + rest));
  }

  /** A dangling text takes digits of the stamp, and leaves its last number standing. */
  lemma {:induction false} DanglingLeaves(pre: string, d: char)
    requires Dangling(pre) && IsDigit(d)
    ensures EndsWith(BlankStamps(pre + ['0', '.', '0', '.', d]), d)
  {
    var done, from := DanglingAt(pre, ['0', '.', '0', '.', d]);
    BegunLeaves(pre[from..], d);
  }

  function Written(t: Triple): string
    requires t.major >= 0 && t.minor >= 0 && t.patch >= 0
  {
    Stamp(Decimal(t.major), Decimal(t.minor), Decimal(t.patch))
  }

  predicate Proper(t: Triple) { t.major >= 0 && t.minor >= 0 && t.patch >= 0 }

  /** Replacing the stamp behind `pre` by any other never shows. */
  ghost predicate StampsAlike(pre: string) {
    forall t: Triple, u: Triple, post: string :: Proper(t) && Proper(u) && (post != "" ==> !IsDigit(post[0])) ==>
      AlikeIn(pre, t, u, post)
  }

  predicate AlikeIn(pre: string, t: Triple, u: Triple, post: string)
    requires Proper(t) && Proper(u)
  {
    BlankStamps(pre + (Written(t) + post)) == BlankStamps(pre + (Written(u) + post))
  }

  /** A new stamp goes unnoticed exactly behind text that does not dangle: behind "1." or "1.2", say, the
      numbers in front swallow part of it. */
  lemma {:induction false} StampsAlikeIff(pre: string)
    ensures StampsAlike(pre) <==> !Dangling(pre)
  {
    if Dangling(pre) {
      NotAlike(pre);
    } else {
      Alike(pre);
    }
  }

  lemma {:induction false} Alike(pre: string)
    requires !Dangling(pre)
    ensures StampsAlike(pre)
  {
    forall t: Triple, u: Triple, post: string | Proper(t) && Proper(u) && (post != "" ==> !IsDigit(post[0]))
      ensures AlikeIn(pre, t, u, post)
    {
      WrittenBlanked(pre, t, post);
      WrittenBlanked(pre, u, post);
    }
  }

  lemma {:induction false} WrittenBlanked(pre: string, t: Triple, post: string)
    requires !Dangling(pre) && Proper(t) && (post != "" ==> !IsDigit(post[0]))
    ensures BlankStamps(pre + (Written(t) + post)) == Front(pre) + (BLANK + BlankStamps(post))
  {
    StampBlanked(pre, Decimal(t.major), Decimal(t.minor), Decimal(t.patch), post);
  }

  lemma {:induction false} SmallStamp(pre: string, n: nat)
    requires n < 10 && Dangling(pre)
    ensures EndsWith(BlankStamps(pre + (Written(Triple(0, 0, n)) + "")), Digit(n))
  {
    assert Decimal(0) == ['0'] && Decimal(n) == [Digit(n)];
    assert Stamp(['0'], ['0'], [Digit(n)]) == ['0', '.', '0', '.', Digit(n)];
    assert Written(Triple(0, 0, n)) + "" == ['0', '.', '0', '.', Digit(n)];
    DanglingLeaves(pre, Digit(n));
  }

  lemma {:induction false} NotAlike(pre: string)
    requires Dangling(pre)
    ensures !StampsAlike(pre)
  {
    var t, u, none := Triple(0, 0, 0), Triple(0, 0, 1), "";
    SmallStamp(pre, 0);
    SmallStamp(pre, 1);
    assert !AlikeIn(pre, t, u, none);
  }

  // ---------------------------------------------------------------- version bumps

  /** A release that only moves the version field has the same shape, whatever else the schema says. */
  lemma {:induction false} VersionFieldIgnored(fields: map<string, Json>, v: Json)
    ensures WithoutStamp(JObj(fields["version" := v])) == WithoutStamp(JObj(fields))
  {
    assert fields["version" := v] - {"version"} == fields - {"version"};
  }

  /** A release that moves the version field and the stamp in the description has the same shape. */
  lemma {:induction false} VersionBumpSameShape(fields: map<string, Json>, v: Json, w: Json, pre: string, post: string,
                                                old': Triple, new': Triple)
    requires !Dangling(pre) && (post != "" ==> !IsDigit(post[0])) && Proper(old') && Proper(new')
    ensures WithoutStamp(JObj(fields["version" := v]["description" := JStr(pre + (Written(old') + post))])) ==
            WithoutStamp(JObj(fields["version" := w]["description" := JStr(pre + (Written(new') + post))]))
  {
    StampsAlikeIff(pre);
    assert AlikeIn(pre, old', new', post);
    SameRest(fields, v, w, pre + (Written(old') + post), pre + (Written(new') + post));
  }

  lemma {:induction false} SameRest(fields: map<string, Json>, v: Json, w: Json, d: string, e: string)
    requires BlankStamps(d) == BlankStamps(e)
    ensures WithoutStamp(JObj(fields["version" := v]["description" := JStr(d)])) ==
            WithoutStamp(JObj(fields["version" := w]["description" := JStr(e)]))
  {
    var k, l := "version", "description";
    assert |k| != |l|;
    WithoutField(fields, k, l, v, JStr(d), w, JStr(e), JStr(BlankStamps(d)));
  }

  lemma {:induction false} WithoutField(fields: map<string, Json>, k: string, l: string, v: Json, x: Json, w: Json, y: Json, z: Json)
    requires k != l
    ensures l in fields[k := v][l := x] - {k} && (fields[k := v][l := x] - {k})[l] == x
    ensures l in fields[k := w][l := y] - {k} && (fields[k := w][l := y] - {k})[l] == y
    ensures (fields[k := v][l := x] - {k})[l := z] == (fields[k := w][l := y] - {k})[l := z]
  {
  }
}
