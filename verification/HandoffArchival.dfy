/** The archival guard: a handoff may move to the archive only when no live handoff names it as its
    parent, and moving one is what stops it from being a live child of others. */
module HandoffArchival {
  type Id = string

  datatype Status = Open | Claimed | Consumed | Superseded | AbandonedStatus | OtherStatus
  datatype Deployment = Absent | Shipped | Abandoned | Continued | Closed | InFlight | OtherState

  /** What the guard reads of a handoff: where it is, its normalized fields (unreadable frontmatter
      reads as `OtherStatus` and `Absent`), and the handoffs it names as parents. */
  datatype Handoff = Handoff(archived: bool, status: Status, deployment: Deployment, parents: set<Id>)

  type Corpus = map<Id, Handoff>

  predicate TerminalDeployment(d: Deployment) { d.Shipped? || d.Abandoned? || d.Continued? || d.Closed? }

  /** `_is_terminal_or_archived_child`: a claimed or consumed child that carries a deployment state is
      judged by that state alone. */
  predicate Excluded(h: Handoff) {
    if h.archived || TerminalDeployment(h.deployment) then true
    else if h.status.Open? || h.status.OtherStatus? then false
    else if h.status.Consumed? || h.status.Claimed? then h.deployment.Absent?
    else true
  }

  predicate LiveChild(corpus: Corpus, exclude: set<Id>, n: Id, c: Id) {
    c in corpus && c !in exclude && n in corpus[c].parents && !Excluded(corpus[c])
  }

  /** The guard lets `n` go: there is an index to ask, and nobody in it is a live child. */
  predicate MayArchive(corpus: Corpus, exclude: set<Id>, n: Id) {
    corpus != map[] && forall c | c in corpus :: !LiveChild(corpus, exclude, n, c)
  }

  datatype Answer = Children(ids: set<Id>) | EmptyIndex

  ghost predicate Indexes(index: seq<Id>, corpus: Corpus) { forall c :: c in index <==> c in corpus }

  /** `reverse_membership`: whoever names `n`, then those of them that are live. An empty index proves
      nothing and is refused; any other answer is empty exactly when the guard lets `n` go. */
  method ReverseMembership(corpus: Corpus, index: seq<Id>, exclude: set<Id>, n: Id) returns (r: Answer)
    requires Indexes(index, corpus)
    ensures r.EmptyIndex? <==> corpus == map[]
    ensures r.Children? ==> forall c :: c in r.ids <==> LiveChild(corpus, exclude, n, c)
    ensures r == Children({}) <==> MayArchive(corpus, exclude, n)
  {
    if index == [] {
      assert corpus.Keys == {};
      return EmptyIndex;
    }
    assert index[0] in corpus;
    var referencers := [];
    for i := 0 to |index|
      invariant forall c :: c in referencers <==> c in index[..i] && c !in exclude && n in corpus[c].parents
    {
      if index[i] !in exclude && n in corpus[index[i]].parents {
        referencers := referencers + [index[i]];
      }
      assert index[..i + 1] == index[..i] + [index[i]];
    }
    assert index[..|index|] == index;
    var live := {};
    for i := 0 to |referencers|
      invariant forall c :: c in live <==> c in referencers[..i] && !Excluded(corpus[c])
    {
      if !Excluded(corpus[referencers[i]]) {
        live := live + {referencers[i]};
      }
      assert referencers[..i + 1] == referencers[..i] + [referencers[i]];
    }
    assert referencers[..|referencers|] == referencers;
    r := Children(live);
    assert MayArchive(corpus, exclude, n) ==> live == {};
  }

  // ---------------------------------------------------------------- archive moves

  /** `cs_chain_archive_handoff`: move if the guard allows, otherwise retain; no field is stamped. */
  function Attempt(corpus: Corpus, exclude: set<Id>, n: Id): (r: Corpus)
    ensures r.Keys == corpus.Keys
  {
    if n in corpus && MayArchive(corpus, exclude, n) then corpus[n := corpus[n].(archived := true)] else corpus
  }

  function Attempts(corpus: Corpus, exclude: set<Id>, order: seq<Id>): (r: Corpus)
    ensures r.Keys == corpus.Keys
  {
    if order == [] then corpus else Attempts(Attempt(corpus, exclude, order[0]), exclude, order[1..])
  }

  predicate InArchive(corpus: Corpus, n: Id) { n in corpus && corpus[n].archived }

  /** `later` differs from `corpus` only in that more handoffs are archived. */
  ghost predicate OnlyMoved(corpus: Corpus, later: Corpus) {
    && later.Keys == corpus.Keys
    && forall n :: n in corpus ==>
         later[n] == corpus[n].(archived := later[n].archived) && (corpus[n].archived ==> later[n].archived)
  }

  /** A move never adds a live child anywhere. */
  lemma {:induction false} LiveChildrenShrink(corpus: Corpus, later: Corpus, exclude: set<Id>, n: Id, c: Id)
    requires OnlyMoved(corpus, later) && LiveChild(later, exclude, n, c)
    ensures LiveChild(corpus, exclude, n, c)
  {
  }

  /** So a guard that once let a handoff go keeps letting it go. */
  lemma {:induction false} GuardStays(corpus: Corpus, later: Corpus, exclude: set<Id>, n: Id)
    requires OnlyMoved(corpus, later) && MayArchive(corpus, exclude, n)
    ensures MayArchive(later, exclude, n)
  {
    forall c
      ensures !LiveChild(later, exclude, n, c)
    {
      assert c in corpus ==> !LiveChild(corpus, exclude, n, c);
    }
  }

  lemma {:induction false} AttemptsOnlyMove(corpus: Corpus, exclude: set<Id>, order: seq<Id>)
    ensures OnlyMoved(corpus, Attempts(corpus, exclude, order))
  {
    if order != [] {
      AttemptsOnlyMove(Attempt(corpus, exclude, order[0]), exclude, order[1..]);
    }
  }

  // ---------------------------------------------------------------- order does not matter

  /** Nothing more of `candidates` can move. */
  ghost predicate Exhausted(corpus: Corpus, exclude: set<Id>, candidates: set<Id>) {
    forall n :: n in candidates && n in corpus && !corpus[n].archived ==> !MayArchive(corpus, exclude, n)
  }

  ghost predicate Among(order: seq<Id>, candidates: set<Id>) {
    forall i :: 0 <= i < |order| ==> order[i] in candidates
  }

  /** An exhausted corpus stays ahead of any run over the same candidates. */
  lemma {:induction false} StaysAhead(a: Corpus, final: Corpus, exclude: set<Id>, candidates: set<Id>, order: seq<Id>)
    requires OnlyMoved(a, final) && Exhausted(final, exclude, candidates) && Among(order, candidates)
    ensures OnlyMoved(Attempts(a, exclude, order), final)
  {
    if order != [] {
      var n, next := order[0], Attempt(a, exclude, order[0]);
      assert order[0] in candidates;
      if n in a && MayArchive(a, exclude, n) {
        GuardStays(a, final, exclude, n);
        assert final[n].archived;
      }
      assert Among(order[1..], candidates);
      StaysAhead(next, final, exclude, candidates, order[1..]);
    }
  }

  /** Guarded moves that go on until nothing more of the candidates can move reach the same corpus in
      any order. */
  lemma {:induction false} AnyOrder(corpus: Corpus, exclude: set<Id>, candidates: set<Id>, one: seq<Id>, other: seq<Id>)
    requires Among(one, candidates) && Among(other, candidates)
    requires Exhausted(Attempts(corpus, exclude, one), exclude, candidates)
    requires Exhausted(Attempts(corpus, exclude, other), exclude, candidates)
    ensures Attempts(corpus, exclude, one) == Attempts(corpus, exclude, other)
  {
    var a, b := Attempts(corpus, exclude, one), Attempts(corpus, exclude, other);
    AttemptsOnlyMove(corpus, exclude, one);
    AttemptsOnlyMove(corpus, exclude, other);
    StaysAhead(corpus, b, exclude, candidates, one);
    StaysAhead(corpus, a, exclude, candidates, other);
    forall n | n in corpus
      ensures a[n] == b[n]
    {
    }
  }

  // ---------------------------------------------------------------- what stays behind

  /** Handoffs that keep each other alive: each is not archived and has a live child that is in the
      set or is never up for archiving. */
  ghost predicate KeptAlive(corpus: Corpus, exclude: set<Id>, candidates: set<Id>, s: set<Id>) {
    forall n :: n in s ==>
      && n in corpus && !corpus[n].archived
      && exists c :: LiveChild(corpus, exclude, n, c) && (c in s || c !in candidates)
  }

  lemma {:induction false} KeptThroughout(corpus: Corpus, exclude: set<Id>, candidates: set<Id>, s: set<Id>, order: seq<Id>)
    requires KeptAlive(corpus, exclude, candidates, s) && Among(order, candidates)
    ensures KeptAlive(Attempts(corpus, exclude, order), exclude, candidates, s)
  {
    if order != [] {
      var next := Attempt(corpus, exclude, order[0]);
      assert order[0] in candidates;
      forall n | n in s
        ensures n in next && !next[n].archived
        ensures exists c :: LiveChild(next, exclude, n, c) && (c in s || c !in candidates)
      {
        Blocked(corpus, exclude, candidates, s, n);
        var c :| LiveChild(corpus, exclude, n, c) && (c in s || c !in candidates);
        if c in s { Blocked(corpus, exclude, candidates, s, c); }
        assert LiveChild(next, exclude, n, c);
      }
      assert Among(order[1..], candidates);
      KeptThroughout(next, exclude, candidates, s, order[1..]);
    }
  }

  lemma {:induction false} Blocked(corpus: Corpus, exclude: set<Id>, candidates: set<Id>, s: set<Id>, n: Id)
    requires KeptAlive(corpus, exclude, candidates, s) && n in s
    ensures !MayArchive(corpus, exclude, n)
  {
    var c :| LiveChild(corpus, exclude, n, c) && (c in s || c !in candidates);
    assert c in corpus;
  }

  /** A candidate is left behind by an exhausted run exactly when it belongs to a set of handoffs that
      keep each other alive in the corpus the run started from. */
  lemma {:induction false} LeftBehindIff(corpus: Corpus, exclude: set<Id>, candidates: set<Id>, order: seq<Id>, n: Id)
    requires Among(order, candidates) && Exhausted(Attempts(corpus, exclude, order), exclude, candidates)
    requires n in candidates && n in corpus
    ensures !InArchive(Attempts(corpus, exclude, order), n) <==>
            exists s :: n in s && s <= candidates && KeptAlive(corpus, exclude, candidates, s)
  {
    var final := Attempts(corpus, exclude, order);
    AttemptsOnlyMove(corpus, exclude, order);
    if !InArchive(final, n) {
      var s := set m | m in candidates && m in final && !final[m].archived;
      forall m | m in s
        ensures m in corpus && !corpus[m].archived
        ensures exists c :: LiveChild(corpus, exclude, m, c) && (c in s || c !in candidates)
      {
        var c :| c in final && LiveChild(final, exclude, m, c);
        LiveChildrenShrink(corpus, final, exclude, m, c);
      }
      assert n in s && s <= candidates && KeptAlive(corpus, exclude, candidates, s);
    }
    if s :| n in s && s <= candidates && KeptAlive(corpus, exclude, candidates, s) {
      KeptThroughout(corpus, exclude, candidates, s, order);
    }
  }

  function Remaining(corpus: Corpus, candidates: set<Id>): set<Id> {
    set n | n in candidates && n in corpus && !corpus[n].archived
  }

  /** Such a run always exists: moving whatever can move comes to an end. */
  lemma {:induction false} RunsOut(corpus: Corpus, exclude: set<Id>, candidates: set<Id>) returns (order: seq<Id>)
    ensures Among(order, candidates) && Exhausted(Attempts(corpus, exclude, order), exclude, candidates)
    decreases |Remaining(corpus, candidates)|
  {
    if n :| n in Remaining(corpus, candidates) && MayArchive(corpus, exclude, n) {
      var next := Attempt(corpus, exclude, n);
      assert Remaining(corpus, candidates) == Remaining(next, candidates) + {n};
      var rest := RunsOut(next, exclude, candidates);
      order := [n] + rest;
      assert order[1..] == rest;
    } else {
      order := [];
    }
  }
}
