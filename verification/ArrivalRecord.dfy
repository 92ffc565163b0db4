/** The per-session arrival log: one compact JSON line per stopped agent, queried by a substring
    test that stands in for looking the record up. */
module ArrivalRecord {
  import opened Text

  datatype Arrival = Arrival(id: string, kind: string, at: string)

  // ---------------------------------------------------------------- JSON strings

  function HexDigit(n: nat): char
    requires n < 16
  {
    if n < 10 then '0' + n as char else 'a' + (n - 10) as char
  }

  /** A `\uXXXX` escape for one UTF-16 code unit. */
  function Unit(n: nat): string
    requires n < 0x1_0000
  {
    ['\\', 'u', HexDigit(n / 4096), HexDigit(n / 256 % 16), HexDigit(n / 16 % 16), HexDigit(n % 16)]
  }

  /** Printable ASCII other than the quote and the backslash stands for itself (section 7 of
      RFC 8259 together with ASCII-only output). */
  predicate PlainChar(c: char) { ' ' <= c <= '~' && c != '"' && c != '\\' }

  predicate Plain(s: string) { forall i :: 0 <= i < |s| ==> PlainChar(s[i]) }

  function EscapeChar(c: char): (r: string)
    ensures |r| > 0
    ensures PlainChar(c) ==> r == [c]
    ensures !PlainChar(c) ==> r[0] == '\\'
  {
    if PlainChar(c) then [c]
    else if c == '"' then ['\\', '"']
    else if c == '\\' then ['\\', '\\']
    else if c == '\n' then ['\\', 'n']
    else if c == '\r' then ['\\', 'r']
    else if c == '\t' then ['\\', 't']
    else if c == '\U{8}' then ['\\', 'b']
    else if c == '\U{c}' then ['\\', 'f']
    else LongEscape(c)
  }

  /** One code unit, or the surrogate pair of a character beyond the basic plane. */
  function LongEscape(c: char): (r: string)
    ensures |r| > 0 && r[0] == '\\'
  {
    var n := c as int;
    if n < 0x1_0000 then Unit(n)
    else Unit(0xd800 + (n - 0x1_0000) / 0x400 % 0x400) + Unit(0xdc00 + (n - 0x1_0000) % 0x400)
  }

  function Escape(s: string): string {
    if s == "" then "" else EscapeChar(s[0]) + Escape(s[1..])
  }

  // ---------------------------------------------------------------- reading JSON strings back

  function HexValue(c: char): Option<nat> {
    if '0' <= c <= '9' then Some((c as int - '0' as int) as nat)
    else if 'a' <= c <= 'f' then Some(c as int - 'a' as int + 10)
    else if 'A' <= c <= 'F' then Some(c as int - 'A' as int + 10)
    else None
  }

  /** The code unit of a `\uXXXX` escape at the start of `s`. */
  function UnitAt(s: string): (r: Option<nat>)
    ensures r.Some? ==> |s| >= 6 && r.value < 0x1_0000
  {
    if |s| < 6 || s[0] != '\\' || s[1] != 'u' then None
    else
      match (HexValue(s[2]), HexValue(s[3]), HexValue(s[4]), HexValue(s[5]))
      case (Some(a), Some(b), Some(c), Some(d)) => Some(a * 4096 + b * 256 + c * 16 + d)
      case _ => None
  }

  predicate High(n: nat) { 0xd800 <= n < 0xdc00 }

  predicate Low(n: nat) { 0xdc00 <= n < 0xe000 }

  /** The character the string body starts with and its length, as section 7 of RFC 8259 reads it. */
  function FirstChar(s: string): (r: Option<(char, nat)>)
    ensures r.Some? ==> 0 < r.value.1 <= |s|
  {
    if s == "" || s[0] == '"' || s[0] < ' ' then None
    else if s[0] != '\\' then Some((s[0], 1))
    else if |s| < 2 then None
    else if s[1] == '"' || s[1] == '\\' || s[1] == '/' then Some((s[1], 2))
    else if s[1] == 'n' then Some(('\n', 2))
    else if s[1] == 'r' then Some(('\r', 2))
    else if s[1] == 't' then Some(('\t', 2))
    else if s[1] == 'b' then Some(('\U{8}', 2))
    else if s[1] == 'f' then Some(('\U{c}', 2))
    else
      match UnitAt(s)
      case None => None
      case Some(n) =>
        if High(n) then
          (match UnitAt(s[6..])
           case None => None
           case Some(m) => if Low(m) then Some((((n - 0xd800) * 0x400 + (m - 0xdc00) + 0x1_0000) as char, 12)) else None)
        else if Low(n) then None
        else Some((n as char, 6))
  }

  function Unescape(s: string): Option<string>
    decreases |s|
  {
    if s == "" then Some("")
    else
      match FirstChar(s)
      case None => None
      case Some((c, n)) =>
        match Unescape(s[n..])
        case None => None
        case Some(rest) => Some([c] + rest)
  }

  lemma {:induction false} HexReads(n: nat)
    requires n < 16
    ensures HexValue(HexDigit(n)) == Some(n)
  {
  }

  lemma {:induction false} FourDigits(n: nat, a: nat, b: nat, c: nat, d: nat)
    requires n < 0x1_0000 && a == n / 4096 && b == n / 256 % 16 && c == n / 16 % 16 && d == n % 16
    ensures a < 16 && a * 4096 + b * 256 + c * 16 + d == n
  {
    assert n / 256 == a * 16 + b;
    assert n / 16 == n / 256 * 16 + c;
  }

  lemma {:induction false} UnitReads(n: nat, rest: string)
    requires n < 0x1_0000
    ensures UnitAt(Unit(n) + rest) == Some(n) && (Unit(n) + rest)[6..] == rest
  {
    var a, b, c, d := n / 4096, n / 256 % 16, n / 16 % 16, n % 16;
    FourDigits(n, a, b, c, d);
    SixReads(a, b, c, d, rest);
  }

  lemma {:induction false} SixReads(a: nat, b: nat, c: nat, d: nat, rest: string)
    requires a < 16 && b < 16 && c < 16 && d < 16
    ensures var s := ['\\', 'u', HexDigit(a), HexDigit(b), HexDigit(c), HexDigit(d)] + rest;
            UnitAt(s) == Some(a * 4096 + b * 256 + c * 16 + d) && s[6..] == rest
  {
    HexReads(a);
    HexReads(b);
    HexReads(c);
    HexReads(d);
  }

  predicate NamedEscape(c: char) {
    c == '"' || c == '\\' || c == '\n' || c == '\r' || c == '\t' || c == '\U{8}' || c == '\U{c}'
  }

  lemma {:induction false} ShortReads(c: char, rest: string)
    requires PlainChar(c) || NamedEscape(c)
    ensures FirstChar(EscapeChar(c) + rest) == Some((c, |EscapeChar(c)|))
  {
    var e := EscapeChar(c);
    var s := e + rest;
    assert s[0] == e[0] && (|e| > 1 ==> s[1] == e[1]);
  }

  lemma {:induction false} Surrogates(n: nat, hi: nat, lo: nat)
    requires 0x1_0000 <= n < 0x11_0000
    requires hi == 0xd800 + (n - 0x1_0000) / 0x400 % 0x400 && lo == 0xdc00 + (n - 0x1_0000) % 0x400
    ensures High(hi) && Low(lo) && (hi - 0xd800) * 0x400 + (lo - 0xdc00) + 0x1_0000 == n
  {
    assert (n - 0x1_0000) / 0x400 < 0x400;
  }

  lemma {:induction false} FromUnit(s: string, c: char)
    requires UnitAt(s) == Some(c as int)
    ensures FirstChar(s) == Some((c, 6))
  {
  }

  lemma {:induction false} FromPair(s: string, c: char, hi: nat, lo: nat)
    requires UnitAt(s) == Some(hi) && UnitAt(s[6..]) == Some(lo)
    requires High(hi) && Low(lo) && (hi - 0xd800) * 0x400 + (lo - 0xdc00) + 0x1_0000 == c as int
    ensures FirstChar(s) == Some((c, 12))
  {
  }

  lemma {:induction false} PairReads(c: char, hi: nat, lo: nat, rest: string)
    requires High(hi) && Low(lo) && (hi - 0xd800) * 0x400 + (lo - 0xdc00) + 0x1_0000 == c as int
    ensures FirstChar(Unit(hi) + Unit(lo) + rest) == Some((c, 12))
  {
    Assoc(Unit(hi), Unit(lo), rest);
    UnitReads(hi, Unit(lo) + rest);
    UnitReads(lo, rest);
    FromPair(Unit(hi) + (Unit(lo) + rest), c, hi, lo);
  }

  lemma {:induction false} LongReads(c: char, rest: string)
    ensures FirstChar(LongEscape(c) + rest) == Some((c, |LongEscape(c)|))
  {
    if c as int < 0x1_0000 {
      UnitReads(c as int, rest);
      FromUnit(Unit(c as int) + rest, c);
    } else {
      FarReads(c, rest);
    }
  }

  lemma {:induction false} FarReads(c: char, rest: string)
    requires c as int >= 0x1_0000
    ensures FirstChar(LongEscape(c) + rest) == Some((c, 12)) && |LongEscape(c)| == 12
  {
    var n := c as int;
    var hi, lo := 0xd800 + (n - 0x1_0000) / 0x400 % 0x400, 0xdc00 + (n - 0x1_0000) % 0x400;
    Surrogates(n, hi, lo);
    PairReads(c, hi, lo, rest);
  }

  /** Every field reads back as it was written: the escaping loses nothing. */
  lemma {:induction false} EscapeRoundTrip(s: string)
    ensures Unescape(Escape(s)) == Some(s)
  {
    if s != "" {
      var e, rest := EscapeChar(s[0]), Escape(s[1..]);
      if PlainChar(s[0]) || NamedEscape(s[0]) {
        ShortReads(s[0], rest);
      } else {
        LongReads(s[0], rest);
      }
      assert (e + rest)[|e|..] == rest;
      EscapeRoundTrip(s[1..]);
      assert s == [s[0]] + s[1..];
    }
  }

  // ---------------------------------------------------------------- the log

  const KEY_ID := "{\"agent_id\":\""
  const KEY_KIND := "\",\"agent_type\":\""
  const KEY_AT := "\",\"stopped_at\":\""

  /** A line with given field texts. */
  function Assembled(a: string, b: string, c: string): string {
    KEY_ID + (a + (KEY_KIND + b + KEY_AT + c + "\"}\n"))
  }

  function LineOf(r: Arrival): string { Assembled(Escape(r.id), Escape(r.kind), Escape(r.at)) }

  function LinesOf(records: seq<Arrival>): (r: seq<string>)
    ensures |r| == |records|
  {
    if records == [] then [] else [LineOf(records[0])] + LinesOf(records[1..])
  }

  function LogOf(records: seq<Arrival>): string { Concat(LinesOf(records)) }

  lemma {:induction false} LineAt(records: seq<Arrival>, k: nat)
    requires k < |records|
    ensures LinesOf(records)[k] == LineOf(records[k])
  {
    if k > 0 {
      LineAt(records[1..], k - 1);
    }
  }

  lemma {:induction false} OneRecord(r: Arrival)
    ensures LogOf([r]) == LineOf(r) + ""
  {
    assert LinesOf([r]) == [LineOf(r)];
    assert Concat([LineOf(r)][1..]) == "";
  }

  const HEAD := "\"agent_id\":\""

  function Needle(id: string): string { HEAD + id + "\"" }

  predicate At(text: string, needle: string, p: nat) {
    p + |needle| <= |text| && forall i :: 0 <= i < |needle| ==> text[p + i] == needle[i]
  }

  /** `needle in text` */
  predicate Contains(text: string, needle: string) {
    exists p :: 0 <= p <= |text| && At(text, needle, p)
  }

  /** The one path segment check both operations make. */
  predicate Segment(s: string) {
    && s != "" && s != "." && s != ".."
    && forall i :: 0 <= i < |s| ==> s[i] != '/' && s[i] != '\\' && s[i] != '\0' && s[i] != ':'
  }

  ghost predicate Member(records: seq<Arrival>, id: string) {
    exists i :: 0 <= i < |records| && records[i].id == id
  }

  // ---------------------------------------------------------------- where the needle can start

  /** No line feed here, and a quote only behind a backslash. */
  predicate InsideAt(s: string, i: nat)
    requires i < |s|
  {
    s[i] != '\n' && (s[i] == '"' ==> i > 0 && s[i - 1] == '\\')
  }

  ghost predicate Inside(s: string) { forall i :: 0 <= i < |s| ==> InsideAt(s, i) }

  lemma {:induction false} EscapeCharInside(c: char)
    ensures Inside(EscapeChar(c))
  {
  }

  lemma {:induction false} EscapeInside(s: string)
    ensures Inside(Escape(s))
  {
    if s != "" {
      var a, b := EscapeChar(s[0]), Escape(s[1..]);
      EscapeInside(s[1..]);
      EscapeCharInside(s[0]);
      forall i | 0 <= i < |a + b|
        ensures InsideAt(a + b, i)
      {
        assert if i < |a| then InsideAt(a, i) else InsideAt(b, i - |a|);
      }
    }
  }

  /** A quote right after a `d` and right before a colon. */
  predicate KeyQuote(s: string, q: nat) {
    0 < q && q + 1 < |s| && s[q] == '"' && s[q - 1] == 'd' && s[q + 1] == ':'
  }

  /** No such quote here, nor at the first character whatever comes before it. */
  ghost predicate Clean(s: string) {
    && (forall q :: 0 <= q < |s| ==> !KeyQuote(s, q))
    && |s| > 1 && !(s[0] == '"' && s[1] == ':')
  }

  lemma {:induction false} FieldClean(field: string, after: string)
    requires Inside(field) && Clean(after)
    ensures Clean(field + after)
  {
    var s, n := field + after, |field|;
    forall q | 0 <= q < |s|
      ensures !KeyQuote(s, q)
    {
      if q < n {
        assert InsideAt(field, q) && s[q] == field[q];
        assert q > 0 ==> s[q - 1] == field[q - 1];
      } else {
        assert !KeyQuote(after, q - n);
        assert s[q] == after[q - n];
        assert q > n ==> s[q - 1] == after[q - 1 - n];
        assert q + 1 < |s| ==> s[q + 1] == after[q + 1 - n];
      }
    }
    if n > 0 { assert InsideAt(field, 0); }
  }

  lemma {:induction false} SeparatorClean(sep: string, after: string)
    requires Clean(sep) && sep[|sep| - 1] == '"' && sep[|sep| - 2] == ':' && Clean(after)
    ensures Clean(sep + after)
  {
    var s, n := sep + after, |sep|;
    forall q | 0 <= q < |s|
      ensures !KeyQuote(s, q)
    {
      if q < n {
        assert !KeyQuote(sep, q) && s[q] == sep[q];
        assert q > 0 ==> s[q - 1] == sep[q - 1];
        assert q + 1 < n ==> s[q + 1] == sep[q + 1];
      } else {
        assert !KeyQuote(after, q - n);
        assert s[q] == after[q - n];
        assert q > n ==> s[q - 1] == after[q - 1 - n];
        assert q + 1 < |s| ==> s[q + 1] == after[q + 1 - n];
      }
    }
  }

  lemma {:induction false} BehindClean(b: string, c: string)
    requires Inside(b) && Inside(c)
    ensures Clean(KEY_KIND + b + KEY_AT + c + "\"}\n")
  {
    var e := "\"}\n";
    FieldClean(c, e);
    SeparatorClean(KEY_AT, c + e);
    FieldClean(b, KEY_AT + (c + e));
    SeparatorClean(KEY_KIND, b + (KEY_AT + (c + e)));
    Assoc(KEY_KIND + b + KEY_AT, c, e);
    Assoc(KEY_KIND + b, KEY_AT, c + e);
    Assoc(KEY_KIND, b, KEY_AT + (c + e));
  }

  /** In a whole line only the id key is closed by such a quote. */
  lemma {:induction false} OnlyKey(a: string, b: string, c: string, q: nat)
    requires Inside(a) && Inside(b) && Inside(c)
    ensures KeyQuote(Assembled(a, b, c), q) ==> q == 10
  {
    var behind := KEY_KIND + b + KEY_AT + c + "\"}\n";
    BehindClean(b, c);
    FieldClean(a, behind);
    FirstKey(a + behind, q);
  }

  lemma {:induction false} FirstKey(tail: string, q: nat)
    requires Clean(tail)
    ensures KeyQuote(KEY_ID + tail, q) ==> q == 10
  {
    var s := KEY_ID + tail;
    if 13 <= q < |s| {
      var k := q - 13;
      assert !KeyQuote(tail, k) && s[q] == tail[k];
      assert q + 1 < |s| ==> s[q + 1] == tail[k + 1];
    } else if 0 < q < 13 {
      assert s[q] == KEY_ID[q] && s[q - 1] == KEY_ID[q - 1];
    }
  }

  lemma {:induction false} HeadInLine(line: string, rest: string, p: nat)
    requires p < |line| && line[|line| - 1] == '\n' && At(line + rest, HEAD, p)
    requires KeyQuote(line, p + 9) ==> p + 9 == 10
    ensures p == 1
  {
    var text, n := line + rest, |line|;
    assert text[n - 1] == '\n';
    assert n - 1 - p < 12 ==> text[p + (n - 1 - p)] == HEAD[n - 1 - p];
    assert text[p + 8] == HEAD[8] && text[p + 9] == HEAD[9] && text[p + 10] == HEAD[10];
  }

  /** The needle's head occurs in a line only at the line's own id key. */
  lemma {:induction false} HeadAt(r: Arrival, rest: string, p: nat)
    requires p < |LineOf(r)| && At(LineOf(r) + rest, HEAD, p)
    ensures p == 1
  {
    EscapeInside(r.id);
    EscapeInside(r.kind);
    EscapeInside(r.at);
    OnlyKey(Escape(r.id), Escape(r.kind), Escape(r.at), p + 9);
    HeadInLine(LineOf(r), rest, p);
  }

  /** Behind a common stretch only what follows it is compared. */
  lemma {:induction false} AtBehind(before: string, common: string, tail: string, want: string)
    ensures At(before + (common + tail), common + want, |before|) <==> At(tail, want, 0)
  {
    var text, needle, n := before + (common + tail), common + want, |before|;
    if At(text, needle, n) {
      forall i | 0 <= i < |want|
        ensures tail[0 + i] == want[i]
      {
        assert text[n + (|common| + i)] == needle[|common| + i];
      }
    }
    if At(tail, want, 0) {
      forall i | 0 <= i < |needle|
        ensures text[n + i] == needle[i]
      {
        if i >= |common| { assert tail[0 + (i - |common|)] == want[i - |common|]; }
      }
    }
  }

  /** A needle that starts at the line's id key compares the sought id with the escaped one. */
  lemma {:induction false} FromKey(tail: string, id: string)
    ensures At(KEY_ID + tail, Needle(id), 1) <==> At(tail, id + "\"", 0)
  {
    AtBehind("{", HEAD, tail, id + "\"");
    assert KEY_ID == "{" + HEAD;
    Assoc("{", HEAD, tail);
    Assoc(HEAD, id, "\"");
  }

  ghost predicate NoBackslash(s: string) { forall i :: 0 <= i < |s| ==> s[i] != '\\' }

  /** Escaped text followed by a quote starts with an id and a quote only if the id is the one
      escaped (when it is plain), and never for the id itself when it is not. */
  lemma {:induction false} Matches(id: string, x: string, rest: string)
    requires NoBackslash(id) && rest != "" && rest[0] == '"' && At(Escape(x) + rest, id + "\"", 0)
    ensures Plain(id) ==> id == x
    ensures id == x ==> Plain(id)
  {
    var text, want := Escape(x) + rest, id + "\"";
    assert text[0 + 0] == want[0];
    if id != "" && x != "" {
      assert text[0] == EscapeChar(x[0])[0] && want[0] == id[0];
      assert Escape(x) == [x[0]] + Escape(x[1..]);
      var text', want' := Escape(x[1..]) + rest, id[1..] + "\"";
      assert text == [x[0]] + text' && want == [id[0]] + want';
      assert forall i :: 0 <= i < |want'| ==> text'[0 + i] == text[0 + (1 + i)] == want[1 + i] == want'[i];
      Matches(id[1..], x[1..], rest);
      assert id == [id[0]] + id[1..] && x == [x[0]] + x[1..];
      assert Plain(id) <==> PlainChar(id[0]) && Plain(id[1..]);
    }
  }

  lemma {:induction false} EscapePlain(s: string)
    requires Plain(s)
    ensures Escape(s) == s
  {
    if s != "" {
      EscapePlain(s[1..]);
    }
  }

  /** The rest of the line behind the escaped id. */
  function Behind(r: Arrival): string { KEY_KIND + Escape(r.kind) + KEY_AT + Escape(r.at) + "\"}\n" }

  lemma {:induction false} LineSplit(r: Arrival, rest: string)
    ensures LineOf(r) + rest == KEY_ID + (Escape(r.id) + (Behind(r) + rest))
    ensures (Behind(r) + rest)[0] == '"'
  {
    Assoc(Escape(r.id), Behind(r), rest);
    Assoc(KEY_ID, Escape(r.id) + Behind(r), rest);
    QuoteFirst(Escape(r.kind), Escape(r.at));
  }

  lemma {:induction false} QuoteFirst(b: string, c: string)
    ensures (KEY_KIND + b + KEY_AT + c + "\"}\n")[0] == '"'
  {
    assert (KEY_KIND + b)[0] == '"';
  }

  /** The needle starts in this line exactly when it is found right at the id key. */
  lemma {:induction false} FoundInLine(r: Arrival, rest: string, id: string, p: nat)
    requires NoBackslash(id) && p < |LineOf(r)| && At(LineOf(r) + rest, Needle(id), p)
    ensures Plain(id) ==> id == r.id
    ensures id == r.id ==> Plain(id)
  {
    var text, needle := LineOf(r) + rest, Needle(id);
    assert forall i :: 0 <= i < 12 ==> needle[i] == HEAD[i];
    assert At(text, HEAD, p);
    HeadAt(r, rest, p);
    LineSplit(r, rest);
    FromKey(Escape(r.id) + (Behind(r) + rest), id);
    Matches(id, r.id, Behind(r) + rest);
  }

  lemma {:induction false} OwnLine(r: Arrival, rest: string)
    requires Plain(r.id)
    ensures At(LineOf(r) + rest, Needle(r.id), 1)
  {
    LineSplit(r, rest);
    EscapePlain(r.id);
    var tail := r.id + (Behind(r) + rest);
    assert forall i :: 0 <= i < |r.id| + 1 ==> tail[0 + i] == (r.id + "\"")[i];
    FromKey(tail, r.id);
  }

  // ---------------------------------------------------------------- membership

  lemma {:induction false} Later(line: string, rest: string, needle: string, p: nat)
    ensures At(line + rest, needle, |line| + p) <==> At(rest, needle, p)
  {
    var text := line + rest;
    if At(rest, needle, p) {
      forall i | 0 <= i < |needle|
        ensures text[|line| + p + i] == needle[i]
      {
        assert rest[p + i] == needle[i];
      }
    }
    if At(text, needle, |line| + p) {
      forall i | 0 <= i < |needle|
        ensures rest[p + i] == needle[i]
      {
        assert text[|line| + p + i] == needle[i];
      }
    }
  }

  /** An occurrence starts in one of the lines, and continues into what follows it. */
  lemma {:induction false} InSomeLine(lines: seq<string>, needle: string, p: nat) returns (k: nat, q: nat)
    requires needle != "" && At(Concat(lines), needle, p)
    ensures k < |lines| && q < |lines[k]| && At(lines[k] + Concat(lines[k + 1..]), needle, q)
  {
    var rest := Concat(lines[1..]);
    if p < |lines[0]| {
      k, q := 0, p;
    } else {
      Later(lines[0], rest, needle, p - |lines[0]|);
      k, q := InSomeLine(lines[1..], needle, p - |lines[0]|);
      assert lines[1..][k + 1..] == lines[k + 2..];
      k := k + 1;
    }
  }

  lemma {:induction false} FromLine(lines: seq<string>, needle: string, k: nat, q: nat) returns (p: nat)
    requires k < |lines| && At(lines[k] + Concat(lines[k + 1..]), needle, q)
    ensures At(Concat(lines), needle, p)
  {
    if k == 0 {
      p := q;
    } else {
      assert lines[1..][k - 1 + 1..] == lines[k + 1..];
      p := FromLine(lines[1..], needle, k - 1, q);
      Later(lines[0], Concat(lines[1..]), needle, p);
      p := |lines[0]| + p;
    }
  }

  lemma {:induction false} FoundIsMember(records: seq<Arrival>, id: string, p: nat)
    requires Plain(id) && At(LogOf(records), Needle(id), p)
    ensures Member(records, id)
  {
    var lines := LinesOf(records);
    var k, q := InSomeLine(lines, Needle(id), p);
    LineAt(records, k);
    FoundInLine(records[k], Concat(lines[k + 1..]), id, q);
    assert records[k].id == id;
  }

  lemma {:induction false} MemberIsFound(records: seq<Arrival>, id: string, k: nat) returns (p: nat)
    requires Plain(id) && k < |records| && records[k].id == id
    ensures At(LogOf(records), Needle(id), p)
  {
    var lines := LinesOf(records);
    LineAt(records, k);
    OwnLine(records[k], Concat(lines[k + 1..]));
    p := FromLine(lines, Needle(id), k, 1);
  }

  /** For an id that needs no escape the substring test is record membership, whatever the other
      fields and the other ids contain. */
  lemma {:induction false} PlainAgrees(records: seq<Arrival>, id: string)
    requires Plain(id)
    ensures Contains(LogOf(records), Needle(id)) <==> Member(records, id)
  {
    if Contains(LogOf(records), Needle(id)) {
      var p :| 0 <= p <= |LogOf(records)| && At(LogOf(records), Needle(id), p);
      FoundIsMember(records, id, p);
    }
    if Member(records, id) {
      var k :| 0 <= k < |records| && records[k].id == id;
      var p := MemberIsFound(records, id, k);
    }
  }

  ghost predicate Agrees(id: string) {
    forall records: seq<Arrival> :: Contains(LogOf(records), Needle(id)) <==> Member(records, id)
  }

  /** An id that does need an escape is not found in the log of its own arrival. */
  lemma {:induction false} EscapedMissed(r: Arrival)
    requires Segment(r.id) && !Plain(r.id)
    ensures !Contains(LogOf([r]), Needle(r.id)) && Member([r], r.id)
  {
    OneRecord(r);
    assert [r][0].id == r.id;
    forall p | 0 <= p <= |LogOf([r])|
      ensures !At(LogOf([r]), Needle(r.id), p)
    {
      if At(LogOf([r]), Needle(r.id), p) {
        FoundInLine(r, "", r.id, p);
      }
    }
  }

  /** The test stands for membership on every log exactly for the ids that need no JSON escape. */
  lemma {:induction false} AgreesIffPlain(id: string)
    requires Segment(id)
    ensures Agrees(id) <==> Plain(id)
  {
    if Plain(id) {
      forall records: seq<Arrival>
        ensures Contains(LogOf(records), Needle(id)) <==> Member(records, id)
      {
        PlainAgrees(records, id);
      }
    } else {
      EscapedMissed(Arrival(id, "", ""));
    }
  }

  const QUOTED_KEY := "\",\"agent_type"

  /** And the other way round: a quote in the queried id can make it match another record's line. */
  lemma {:induction false} QuoteMismatch(r: Arrival)
    requires Plain(r.id)
    ensures Contains(LogOf([r]), Needle(r.id + QUOTED_KEY)) && !Member([r], r.id + QUOTED_KEY)
  {
    var id, behind, want := r.id + QUOTED_KEY, Behind(r) + "", QUOTED_KEY + "\"";
    LineSplit(r, "");
    EscapePlain(r.id);
    KindKeyFirst(Escape(r.kind), Escape(r.at));
    AtBehind("", r.id, behind, want);
    Assoc(r.id, QUOTED_KEY, "\"");
    assert "" + (r.id + behind) == r.id + behind;
    FromKey(r.id + behind, id);
    OneLineLog(r, Needle(id));
    assert |id| > |r.id|;
  }

  lemma {:induction false} OneLineLog(r: Arrival, needle: string)
    requires At(LineOf(r) + "", needle, 1)
    ensures Contains(LogOf([r]), needle)
  {
    OneRecord(r);
    assert At(LogOf([r]), needle, 1);
  }

  lemma {:induction false} KindKeyFirst(b: string, c: string)
    ensures At(KEY_KIND + b + KEY_AT + c + "\"}\n" + "", QUOTED_KEY + "\"", 0)
  {
    var want, text := QUOTED_KEY + "\"", KEY_KIND + b + KEY_AT + c + "\"}\n" + "";
    assert KEY_KIND == want + ":\"";
    assert forall i :: 0 <= i < |KEY_KIND| ==> text[0 + i] == KEY_KIND[i];
  }

  lemma {:induction false} LinesAppend(records: seq<Arrival>, r: Arrival)
    ensures LinesOf(records + [r]) == LinesOf(records) + [LineOf(r)]
  {
    if records == [] {
      assert records + [r] == [r];
    } else {
      LinesAppend(records[1..], r);
      assert (records + [r])[1..] == records[1..] + [r];
      Assoc([LineOf(records[0])], LinesOf(records[1..]), [LineOf(r)]);
    }
  }

  lemma {:induction false} LogAppend(records: seq<Arrival>, r: Arrival, line: string)
    requires line == LineOf(r)
    ensures LogOf(records + [r]) == LogOf(records) + line
  {
    LinesAppend(records, r);
    ConcatAppend(LinesOf(records), [line]);
    assert Concat([line]) == line + Concat([line][1..]) == line + "" == line;
  }

  // ---------------------------------------------------------------- the store

  datatype Outcome<T> = Ok(value: T) | BadSegment

  /** The arrival logs of all sessions; `arrivals` is what was appended to each. */
  class ArrivalStore {
    var logs: map<string, string>
    ghost var arrivals: map<string, seq<Arrival>>

    ghost predicate Valid()
      reads this
    {
      logs.Keys == arrivals.Keys && forall s :: s in logs ==> logs[s] == LogOf(arrivals[s])
    }

    constructor ()
      ensures Valid() && arrivals == map[]
    {
      logs, arrivals := map[], map[];
    }

    /** `append_arrival`: unconditional, no read before the write, refused for a bad id or session. */
    method Append(session: string, r: Arrival) returns (outcome: Outcome<()>)
      requires Valid()
      modifies this
      ensures Valid()
      ensures outcome.Ok? <==> Segment(session) && Segment(r.id)
      ensures outcome.BadSegment? ==> arrivals == old(arrivals) && logs == old(logs)
      ensures outcome.Ok? ==>
                var before := if session in old(arrivals) then old(arrivals)[session] else [];
                arrivals == old(arrivals)[session := before + [r]]
    {
      if !Segment(r.id) || !Segment(session) {
        return BadSegment;
      }
      ghost var before := if session in arrivals then arrivals[session] else [];
      LogAppend(before, r, LineOf(r));
      logs := logs[session := (if session in logs then logs[session] else "") + LineOf(r)];
      arrivals := arrivals[session := before + [r]];
      return Ok(());
    }

    /** `has_arrived`: a missing log answers no. */
    method HasArrived(session: string, id: string) returns (outcome: Outcome<bool>)
      requires Valid()
      ensures outcome.Ok? <==> Segment(session) && Segment(id)
      ensures outcome.Ok? && Plain(id) ==>
                (outcome.value <==> session in arrivals && Member(arrivals[session], id))
    {
      if !Segment(id) || !Segment(session) {
        return BadSegment;
      }
      if session !in logs {
        return Ok(false);
      }
      if Plain(id) {
        PlainAgrees(arrivals[session], id);
      }
      return Ok(Contains(logs[session], Needle(id)));
    }
  }
}
