/** The `shipped_in` stamp: which value and kind may be written, how a value is derived when the caller
    gives none, and what calls may change on a record that has one already. */
module ShippedIn {
  import opened Text

  datatype Kind = ShipCommit | Successor | ScopeDerived | NoCommit | UnknownKind

  // ---------------------------------------------------------------- the value grammar

  predicate IsHexDigit(c: char) { '0' <= c <= '9' || 'a' <= c <= 'f' || 'A' <= c <= 'F' }

  predicate AllHex(s: string) { forall i :: 0 <= i < |s| ==> IsHexDigit(s[i]) }

  /** `[0-9a-fA-F]{7,64}` */
  predicate IsHex(s: string) { 7 <= |s| <= 64 && AllHex(s) }

  const TOKEN_HEAD := "substantively-" + "shipped-no-commit:"

  predicate IsDigit(c: char) { '0' <= c <= '9' }

  /** `\d{4}-\d{2}-\d{2}` */
  predicate IsDate(s: string) {
    && |s| == 10 && s[4] == '-' && s[7] == '-'
    && forall i :: 0 <= i < 10 && i != 4 && i != 7 ==> IsDigit(s[i])
  }

  /** The sanctioned value for work that shipped without a commit. */
  predicate IsToken(s: string) {
    |s| == 42 && s[..32] == TOKEN_HEAD && IsDate(s[32..])
  }

  /** What is stored: the token as it is, a commit id cut to eight characters. */
  function FinalValue(s: string): (r: string)
    ensures r <= s
  {
    if IsToken(s) || |s| <= 8 then s else s[..8]
  }

  /** The pairs the field may hold. */
  predicate GoodPair(value: string, kind: Kind) {
    match kind
    case NoCommit => IsToken(value)
    case UnknownKind => false
    case _ => 7 <= |value| <= 8 && AllHex(value)
  }

  lemma {:induction false} TokenLength()
    ensures |TOKEN_HEAD| == 32 && TOKEN_HEAD[0] == 's'
  {
  }

  /** No value is both a commit id and the token. */
  lemma {:induction false} TokenNotHex(s: string)
    ensures !(IsHex(s) && IsToken(s))
  {
    TokenLength();
    if IsToken(s) {
      assert s[..32][0] == s[0];
      assert !IsHexDigit(s[0]);
    }
  }

  // ---------------------------------------------------------------- deriving a candidate

  datatype Commit = Commit(sha: string, mechanical: bool)

  /** The first commit of the window, newest first, that is not housekeeping. */
  function FirstReal(window: seq<Commit>): Option<string> {
    if window == [] then None
    else if !window[0].mechanical then Some(window[0].sha)
    else FirstReal(window[1..])
  }

  const WINDOW := 50

  /** `git log -n50`: only the newest commits are looked at. */
  function Newest(touching: seq<Commit>): seq<Commit> { if |touching| <= WINDOW then touching else touching[..WINDOW] }

  /** `_resolve_scope_sha`: walk the window and stop at the first real commit. */
  method ResolveScopeSha(window: seq<Commit>) returns (r: Option<string>)
    ensures r == FirstReal(window)
    ensures r.Some? ==> exists i :: FirstRealAt(window, i) && window[i].sha == r.value
    ensures r.None? ==> forall i :: 0 <= i < |window| ==> window[i].mechanical
  {
    var i := 0;
    assert window[0..] == window;
    while i < |window|
      invariant i <= |window| && forall j :: 0 <= j < i ==> window[j].mechanical
      invariant FirstReal(window) == FirstReal(window[i..])
    {
      if !window[i].mechanical {
        assert FirstRealAt(window, i);
        return Some(window[i].sha);
      }
      assert window[i..][1..] == window[i + 1..];
      i := i + 1;
    }
    return None;
  }

  ghost predicate FirstRealAt(window: seq<Commit>, i: int) {
    0 <= i < |window| && !window[i].mechanical && forall j :: 0 <= j < i ==> window[j].mechanical
  }

  /** What the guards say about a candidate: each can only object. */
  datatype Guards = Guards(uncommitted: bool, postdates: string -> bool, predates: string -> bool, unowned: string -> bool)

  /** What a call meets: the scope of the handoff (does it name paths), the commits that touch it, the
      branch tip, and the guards. */
  datatype World = World(hasScope: bool, touching: seq<Commit>, tip: Option<string>, guards: Guards)

  /** A call. `sha` is the caller's own value, already stripped and `None` when blank. */
  datatype Call = Call(kind: Kind, sha: Option<string>, force: bool, allowTip: bool, fallback: Option<string>)

  datatype Decision = Reject | Leave | Write(value: string, kind: Kind)

  /** Shape and kind of a value the caller supplies. */
  predicate Accepts(kind: Kind, sha: string) {
    match kind
    case NoCommit => IsToken(sha)
    case ShipCommit => IsHex(sha)
    case Successor => IsHex(sha)
    case _ => false
  }

  function Objects(g: Guards, sha: string): bool { g.uncommitted || g.postdates(sha) || g.predates(sha) }

  /** The decision, in the order the checks are made. */
  function Decide(c: Call, w: World): Decision {
    if c.kind.UnknownKind? || (c.force && c.sha.None?) then Reject
    else if c.sha.Some? then
      (if Accepts(c.kind, c.sha.value) then Write(FinalValue(c.sha.value), c.kind) else Reject)
    else if c.kind != ScopeDerived then Reject
    else
      var resolved := if w.hasScope then FirstReal(Newest(w.touching)) else None;
      if resolved.Some? then
        (if Objects(w.guards, resolved.value) || w.guards.unowned(resolved.value) then Leave
         else Write(FinalValue(resolved.value), ScopeDerived))
      else if !w.hasScope && c.fallback.Some? then
        (if IsHex(c.fallback.value) then Write(FinalValue(c.fallback.value), ShipCommit) else Reject)
      else if c.allowTip && w.tip.Some? then
        (if w.guards.unowned(w.tip.value) then Leave else Write(FinalValue(w.tip.value), ScopeDerived))
      else Leave
  }

  /** The same checks as they are interleaved in the source: resolve, three guards on a scope-derived
      candidate, fall back, ownership. */
  method DecideStepwise(c: Call, w: World) returns (d: Decision)
    ensures d == Decide(c, w)
  {
    if c.kind.UnknownKind? {
      return Reject;
    }
    if c.force && c.sha.None? {
      return Reject;
    }
    var resolved, kind := c.sha, c.kind;
    if c.sha.Some? {
      var token, hex := IsToken(c.sha.value), IsHex(c.sha.value);
      if !(token || hex) || (kind.NoCommit? && !token) || ((kind.ShipCommit? || kind.Successor?) && !hex) || kind.ScopeDerived? {
        return Reject;
      }
    } else {
      if kind != ScopeDerived {
        return Reject;
      }
      if w.hasScope {
        resolved := ResolveScopeSha(Newest(w.touching));
      }
      if resolved.Some? && w.hasScope && w.guards.uncommitted {
        return Leave;
      }
      if resolved.Some? && w.hasScope && w.guards.postdates(resolved.value) {
        return Leave;
      }
      if resolved.Some? && w.hasScope && w.guards.predates(resolved.value) {
        return Leave;
      }
      if resolved.None? && !w.hasScope && c.fallback.Some? {
        if !IsHex(c.fallback.value) {
          return Reject;
        }
        kind, resolved := ShipCommit, c.fallback;
      } else if resolved.None? && c.allowTip {
        resolved := w.tip;
      }
      if resolved.None? {
        return Leave;
      }
      if kind != ShipCommit && w.guards.unowned(resolved.value) {
        return Leave;
      }
    }
    return Write(FinalValue(resolved.value), kind);
  }

  // ---------------------------------------------------------------- guards only refuse

  datatype Source = Scope | Fallback | Tip

  /** The candidate of a deriving call, chosen without asking any guard. */
  function Candidate(c: Call, w: World): Option<(string, Source)> {
    if w.hasScope && FirstReal(Newest(w.touching)).Some? then Some((FirstReal(Newest(w.touching)).value, Scope))
    else if !w.hasScope && c.fallback.Some? then (if IsHex(c.fallback.value) then Some((c.fallback.value, Fallback)) else None)
    else if c.allowTip && w.tip.Some? then Some((w.tip.value, Tip))
    else None
  }

  /** Which guards a candidate from each source has to pass. */
  predicate Passes(g: Guards, sha: string, source: Source) {
    match source
    case Scope => !Objects(g, sha) && !g.unowned(sha)
    case Fallback => true
    case Tip => !g.unowned(sha)
  }

  predicate Derives(c: Call) { c.kind == ScopeDerived && c.sha.None? && !c.force }

  /** A deriving call writes exactly its candidate, and exactly when the guards of that source pass. */
  lemma {:induction false} WritesCandidate(c: Call, w: World)
    requires Derives(c)
    ensures Decide(c, w).Write? <==> Candidate(c, w).Some? && Passes(w.guards, Candidate(c, w).value.0, Candidate(c, w).value.1)
    ensures Decide(c, w).Write? ==> Decide(c, w).value == FinalValue(Candidate(c, w).value.0)
    ensures Decide(c, w).Write? ==> Decide(c, w).kind == if Candidate(c, w).value.1 == Fallback then ShipCommit else ScopeDerived
  {
  }

  /** Guards at least as strict as `g`. */
  ghost predicate Stricter(g: Guards, h: Guards) {
    && (g.uncommitted ==> h.uncommitted)
    && forall sha :: (g.postdates(sha) ==> h.postdates(sha)) && (g.predates(sha) ==> h.predates(sha)) && (g.unowned(sha) ==> h.unowned(sha))
  }

  /** Strengthening the guards can only turn a write into no write: never into another value, another
      kind, an error, or a write where there was none. */
  lemma {:induction false} GuardsOnlyRefuse(c: Call, w: World, stricter: Guards)
    requires Stricter(w.guards, stricter)
    ensures var d, e := Decide(c, w), Decide(c, w.(guards := stricter));
            e == d || (d.Write? && e == Leave)
  {
    if Derives(c) {
      WritesCandidate(c, w);
      WritesCandidate(c, w.(guards := stricter));
    }
  }

  /** Git hands out full commit ids. */
  ghost predicate RealIds(w: World) {
    && (forall i :: 0 <= i < |w.touching| ==> IsHex(w.touching[i].sha))
    && (w.tip.Some? ==> IsHex(w.tip.value))
  }

  lemma {:induction false} FirstRealHex(window: seq<Commit>)
    requires forall i :: 0 <= i < |window| ==> IsHex(window[i].sha)
    ensures FirstReal(window).Some? ==> IsHex(FirstReal(window).value)
  {
    if window != [] {
      FirstRealHex(window[1..]);
    }
  }

  lemma {:induction false} FinalHex(s: string)
    requires IsHex(s)
    ensures 7 <= |FinalValue(s)| <= 8 && AllHex(FinalValue(s))
  {
    TokenNotHex(s);
  }

  /** Whatever is written obeys the grammar: the token exactly with kind no-commit, and with every
      other kind a commit id of at most eight characters. */
  lemma {:induction false} WrittenIsGood(c: Call, w: World)
    requires RealIds(w) && Decide(c, w).Write?
    ensures GoodPair(Decide(c, w).value, Decide(c, w).kind)
  {
    FirstRealHex(Newest(w.touching));
    if c.sha.Some? {
      if IsHex(c.sha.value) { FinalHex(c.sha.value); }
    } else {
      WritesCandidate(c, w);
      FinalHex(Candidate(c, w).value.0);
    }
  }

  // ---------------------------------------------------------------- the record

  /** The two frontmatter fields; a value can be present and blank. */
  datatype Fields = Fields(value: Option<string>, kind: Option<Kind>)

  /** The stamp operation: insert if absent, skip if present, replace on force; the kind is written in
      lockstep and never alone. */
  function Stamped(f: Fields, value: string, kind: Kind, force: bool): Fields {
    if f.value.None? || force then Fields(Some(value), Some(kind)) else f
  }

  predicate Blank(value: string) { value == "" || value == "null" }

  /** A skipped stamp that may still fill a missing kind beside the identical value. */
  predicate FillsKind(f: Fields, value: string) {
    f.kind.None? && f.value == Some(value) && !Blank(value)
  }

  predicate Lands(f: Fields, value: string, force: bool) { f.value.None? || force || FillsKind(f, value) }

  /** A whole call. */
  function After(f: Fields, c: Call, w: World): Fields {
    match Decide(c, w)
    case Write(value, kind) =>
      if f.value.Some? && !c.force && FillsKind(f, value) then f.(kind := Some(kind)) else Stamped(f, value, kind, c.force)
    case _ => f
  }

  datatype Outcome = Outcome(exit: int, applied: bool, replaced: bool, prior: Option<string>)

  function PriorOf(f: Fields): Option<string> { if f.value.Some? && Blank(f.value.value) then None else f.value }

  class Handoff {
    var fields: Fields

    /** `handoff.stamp` */
    method Stamp(value: string, kind: Kind, force: bool) returns (applied: bool, replaced: bool, prior: Option<string>)
      modifies this
      ensures fields == Stamped(old(fields), value, kind, force)
      ensures applied <==> old(fields).value.None? || force
      ensures replaced <==> old(fields).value.Some? && force
      ensures prior == if replaced then old(fields).value else None
    {
      if fields.value.Some? {
        if !force {
          return false, false, None;
        }
        prior := fields.value;
        fields := Fields(Some(value), Some(kind));
        return true, true, prior;
      }
      fields := Fields(Some(value), Some(kind));
      return true, false, None;
    }

    /** `stamp_shipped_in` */
    method StampShippedIn(c: Call, w: World) returns (o: Outcome)
      modifies this
      ensures fields == After(old(fields), c, w)
      ensures o.exit == if Decide(c, w).Reject? then 1 else 0
      ensures o.applied == (Decide(c, w).Write? && Lands(old(fields), Decide(c, w).value, c.force))
      ensures o.replaced ==> o.applied && old(fields).value.Some?
    {
      var d := DecideStepwise(c, w);
      if !d.Write? {
        return Outcome(if d.Reject? then 1 else 0, false, false, None);
      }
      var was := fields;
      var applied, replaced, prior := Stamp(d.value, d.kind, c.force);
      if !applied {
        prior := PriorOf(was);
        if fields.kind.None? && prior.Some? && prior.value == d.value {
          var again, over, _ := Stamp(d.value, d.kind, true);
          return Outcome(0, again, over, prior);
        }
      }
      return Outcome(0, applied, replaced, prior);
    }
  }

  // ---------------------------------------------------------------- sequences of calls

  datatype Visit = Visit(call: Call, world: World)

  function Run(f: Fields, visits: seq<Visit>): Fields
    decreases |visits|
  {
    if visits == [] then f else Run(After(f, visits[0].call, visits[0].world), visits[1..])
  }

  predicate Replaces(c: Call) { c.force && c.sha.Some? }

  /** A present value changes only in a call with force and an explicit value. */
  lemma {:induction false} PresentStays(f: Fields, c: Call, w: World)
    requires f.value.Some? && After(f, c, w).value != f.value
    ensures Replaces(c) && After(f, c, w).value == Some(FinalValue(c.sha.value))
  {
  }

  /** A kind changes beside an unchanged value only by force, or where it was missing and the call
      arrived at the identical value. */
  lemma {:induction false} KindFilled(f: Fields, c: Call, w: World)
    requires f.value.Some? && After(f, c, w).value == f.value && After(f, c, w).kind != f.kind
    ensures Replaces(c) || (f.kind.None? && Decide(c, w).Write? && f.value == Some(Decide(c, w).value))
  {
  }

  /** Over any sequence of calls: without a forced replacement, the first value stays for ever. */
  lemma {:induction false} FirstValueStays(f: Fields, visits: seq<Visit>)
    requires f.value.Some? && forall i :: 0 <= i < |visits| ==> !Replaces(visits[i].call)
    ensures Run(f, visits).value == f.value
    ensures f.kind.Some? ==> Run(f, visits) == f
    decreases |visits|
  {
    if visits != [] {
      var v := visits[0];
      var g := After(f, v.call, v.world);
      if g.value != f.value { PresentStays(f, v.call, v.world); }
      if g.kind != f.kind { KindFilled(f, v.call, v.world); }
      FirstValueStays(g, visits[1..]);
    }
  }

  /** The record is as it was found, or holds a pair of the grammar. */
  ghost predicate Lawful(f: Fields, now: Fields) {
    now == f || (now.value.Some? && now.kind.Some? && GoodPair(now.value.value, now.kind.value))
  }

  lemma {:induction false} AfterLawful(f: Fields, c: Call, w: World)
    requires RealIds(w)
    ensures Lawful(f, After(f, c, w))
  {
    if Decide(c, w).Write? {
      WrittenIsGood(c, w);
    }
  }

  /** Over any sequence of calls, whatever the record was found with. */
  lemma {:induction false} AlwaysLawful(f: Fields, visits: seq<Visit>)
    requires forall i :: 0 <= i < |visits| ==> RealIds(visits[i].world)
    ensures Lawful(f, Run(f, visits))
    decreases |visits|
  {
    if visits != [] {
      AfterLawful(f, visits[0].call, visits[0].world);
      AlwaysLawful(After(f, visits[0].call, visits[0].world), visits[1..]);
    }
  }
}
