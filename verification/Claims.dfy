/** Claiming a handoff: who may take it, and which names end up beside the claim. */
module Claims {
  import opened Text

  type Session = string

  /** The claim fields of a handoff's frontmatter. */
  datatype Fields = Fields(holder: Option<Session>, name: Option<string>, human: Option<string>)

  datatype Liveness = Live | Dead | Unknown

  /** A registry lookup: it can raise, find nothing, or find a record that may carry no name. */
  datatype Lookup = Raised | NoRecord | Found(name: string)

  /** What one claim call meets: the caller, how live each session is known to be, the registry's
      record of this process and of the caller, the operating human, and which writes land. */
  datatype Call = Call(
    caller: Session,
    liveness: Session -> Liveness,
    own: Option<(Session, string)>,
    lookup: Lookup,
    human: string,
    transitionLands: bool,
    identityLands: bool)

  function HolderOf(f: Fields): Session { if f.holder.None? then "" else Strip(f.holder.value) }

  /** `_foreign_live_holder_refusal`: only a holder known to be live and different blocks. */
  predicate Refused(f: Fields, c: Call) {
    var holder := HolderOf(f);
    holder != "" && holder != c.caller && c.liveness(holder) == Live
  }

  /** The record describing the caller: this process's own if it is the caller's, else a lookup. */
  function Resolved(c: Call): Lookup {
    if c.own.Some? && c.own.value.0 == c.caller then Found(c.own.value.1) else c.lookup
  }

  /** The identity fields after the write: the human is inserted once; the name is replaced by the
      caller's, dropped when the caller has none, and left alone when the lookup raised. */
  function WithIdentity(f: Fields, c: Call): Fields {
    var human := if f.human.None? && c.human != "" then Some(c.human) else f.human;
    var name :=
      match Resolved(c)
      case Found(n) => if n != "" then Some(n) else None
      case NoRecord => None
      case Raised => f.name;
    f.(name := name, human := human)
  }

  predicate Claimed(f: Fields, c: Call) { c.caller != "" && !Refused(f, c) && c.transitionLands }

  function After(f: Fields, c: Call): Fields {
    if !Claimed(f, c) then f
    else
      var g := f.(holder := Some(c.caller));
      if c.identityLands then WithIdentity(g, c) else g
  }

  datatype Outcome = Refusal | NoSession | TransitionFailed | Taken(identity: bool)

  class Handoff {
    var fields: Fields

    /** `_record_claimant_identity_best_effort`: the fields to write are collected first, then applied
        one after the other to the text that is read under the lock. */
    method RecordIdentity(c: Call) returns (landed: bool)
      modifies this
      ensures fields == if c.identityLands then WithIdentity(old(fields), c) else old(fields)
      ensures landed == c.identityLands
    {
      var lookupRaised, name := false, "";
      if c.own.Some? && c.own.value.0 == c.caller {
        name := c.own.value.1;
      } else {
        lookupRaised := c.lookup.Raised?;
        if c.lookup.Found? {
          name := c.lookup.name;
        }
      }
      if !c.identityLands {
        return false;
      }
      var text := fields;
      if c.human != "" && text.human.None? {
        text := text.(human := Some(c.human));
      }
      if name != "" {
        text := text.(name := Some(name));
      }
      if name == "" && !lookupRaised && text.name.Some? {
        text := text.(name := None);
      }
      fields := text;
      return true;
    }

    /** `cs_claim_handoff` */
    method Claim(c: Call) returns (o: Outcome)
      modifies this
      ensures fields == After(old(fields), c)
      ensures o.Taken? <==> Claimed(old(fields), c)
      ensures o.Refusal? <==> c.caller != "" && Refused(old(fields), c)
      ensures !o.Taken? ==> fields == old(fields)
    {
      if c.caller == "" {
        return NoSession;
      }
      var holder := if fields.holder.Some? then Strip(fields.holder.value) else "";
      if holder != "" && holder != c.caller && c.liveness(holder) == Live {
        return Refusal;
      }
      if !c.transitionLands {
        return TransitionFailed;
      }
      fields := fields.(holder := Some(c.caller));
      var landed := RecordIdentity(c);
      return Taken(landed);
    }
  }

  // ---------------------------------------------------------------- sequences of claims

  function Run(f: Fields, calls: seq<Call>): Fields
    decreases |calls|
  {
    if calls == [] then f else Run(After(f, calls[0]), calls[1..])
  }

  /** The fields just before call `i`. */
  function Before(f: Fields, calls: seq<Call>, i: nat): Fields
    requires i <= |calls|
  {
    Run(f, calls[..i])
  }

  lemma {:induction false} RunLast(f: Fields, calls: seq<Call>)
    requires calls != []
    ensures Run(f, calls) == After(Run(f, calls[..|calls| - 1]), calls[|calls| - 1])
    decreases |calls|
  {
    var n := |calls| - 1;
    if n > 0 {
      assert calls[1..][..n - 1] == calls[..n][1..];
      RunLast(After(f, calls[0]), calls[1..]);
    }
  }

  /** Over any sequence of whole claim calls, no call takes the handoff from a holder it knows to be
      live and different. */
  lemma {:induction false} NeverDisplacesLive(f: Fields, calls: seq<Call>, i: nat)
    requires i < |calls|
    requires var was := Before(f, calls, i); was.holder.Some? && HolderOf(was) != "" && calls[i].liveness(HolderOf(was)) == Live
    requires HolderOf(Before(f, calls, i)) != calls[i].caller
    ensures Before(f, calls, i + 1) == Before(f, calls, i)
  {
    var upto := calls[..i + 1];
    RunLast(f, upto);
    assert upto[..i] == calls[..i];
  }

  /** The human claimant, once recorded, is never changed. */
  lemma {:induction false} HumanStays(f: Fields, calls: seq<Call>)
    requires f.human.Some?
    ensures Run(f, calls).human == f.human
    decreases |calls|
  {
    if calls != [] {
      HumanStays(After(f, calls[0]), calls[1..]);
    }
  }

  /** Did call `i` write the identity from an answer of the registry? */
  predicate Answered(f: Fields, c: Call) { Claimed(f, c) && c.identityLands && !Resolved(c).Raised? }

  function NameFrom(c: Call): Option<string> {
    if Resolved(c).Found? && Resolved(c).name != "" then Some(Resolved(c).name) else None
  }

  /** The last call of the sequence whose identity write landed and whose lookup did not raise. */
  ghost predicate LastAnswered(f: Fields, calls: seq<Call>, i: int) {
    && 0 <= i < |calls| && Answered(Before(f, calls, i), calls[i])
    && forall j :: i < j < |calls| ==> !Answered(Before(f, calls, j), calls[j])
  }

  lemma {:induction false} NameUnlessAnswered(f: Fields, c: Call)
    ensures After(f, c).name == if Answered(f, c) then NameFrom(c) else f.name
  {
  }

  /** Over any sequence of claims the recorded name is the one resolved in the last answered claim:
      that claimant's name, or absent if it has none. */
  lemma {:induction false} NameOfLastAnswered(f: Fields, calls: seq<Call>, i: int)
    requires LastAnswered(f, calls, i)
    ensures Run(f, calls).name == NameFrom(calls[i])
    decreases |calls|
  {
    var n := |calls| - 1;
    var shorter := calls[..n];
    RunLast(f, calls);
    NameUnlessAnswered(Run(f, shorter), calls[n]);
    assert Before(f, calls, n) == Run(f, shorter);
    if i < n {
      forall j | 0 <= j <= n
        ensures Before(f, shorter, j) == Before(f, calls, j)
      {
        assert shorter[..j] == calls[..j];
      }
      NameOfLastAnswered(f, shorter, i);
    }
  }

  /** Before any answered claim the name is as it was found. */
  lemma {:induction false} NameUntouched(f: Fields, calls: seq<Call>)
    requires forall j :: 0 <= j < |calls| ==> !Answered(Before(f, calls, j), calls[j])
    ensures Run(f, calls).name == f.name
    decreases |calls|
  {
    if calls != [] {
      var n := |calls| - 1;
      var shorter := calls[..n];
      RunLast(f, calls);
      NameUnlessAnswered(Run(f, shorter), calls[n]);
      forall j | 0 <= j < n
        ensures !Answered(Before(f, shorter, j), shorter[j])
      {
        assert shorter[..j] == calls[..j];
      }
      NameUntouched(f, shorter);
    }
  }

  /** So the name can be another session's: after a takeover the record carries the new holder beside
      the old holder's name exactly when the identity write failed or its lookup raised. */
  lemma {:induction false} StaleNameIff(f: Fields, c: Call)
    requires Claimed(f, c) && f.name.Some? && NameFrom(c) != f.name
    ensures After(f, c).holder == Some(c.caller)
    ensures After(f, c).name == f.name <==> !c.identityLands || Resolved(c).Raised?
  {
    NameUnlessAnswered(f, c);
  }
}
