/** The advisory census: which hook modules the dispatchers can reach, found with a worklist. */
module ModuleReach {
  /** A dotted module name as its parts. */
  type Name = seq<string>

  /** A module's file: the names it refers to, or nothing when it does not parse. */
  datatype Module = Parsed(references: seq<Name>) | Unparsed

  type Tree = map<Name, Module>

  predicate InScope(name: Name) {
    && |name| >= 3
    && name[0] == "coordinator_core"
    && (name[1] == "hooks" || name[1] == "bash_guards" || name[1] == "write_guards")
    && "tests" !in name
  }

  /** In scope and on disk: the names the census follows. */
  predicate Followed(tree: Tree, name: Name) { InScope(name) && name in tree }

  function ReferencesOf(tree: Tree, name: Name): seq<Name> {
    if name in tree && tree[name].Parsed? then tree[name].references else []
  }

  /** A chain of references from a root, through followed modules only. */
  ghost predicate Chain(tree: Tree, roots: seq<Name>, chain: seq<Name>) {
    && chain != [] && chain[0] in roots
    && (forall i :: 0 <= i < |chain| ==> Followed(tree, chain[i]))
    && (forall i :: 0 < i < |chain| ==> Refers(tree, chain[i - 1], chain[i]))
  }

  predicate Refers(tree: Tree, from: Name, to: Name) { to in ReferencesOf(tree, from) }

  ghost predicate Reachable(tree: Tree, roots: seq<Name>, name: Name) {
    exists chain :: Chain(tree, roots, chain) && chain[|chain| - 1] == name
  }

  lemma {:induction false} Extend(tree: Tree, roots: seq<Name>, from: Name, to: Name)
    requires Reachable(tree, roots, from) && Refers(tree, from, to) && Followed(tree, to)
    ensures Reachable(tree, roots, to)
  {
    var chain :| Chain(tree, roots, chain) && chain[|chain| - 1] == from;
    ChainSnoc(tree, roots, chain, to);
    var longer := chain + [to];
    assert Chain(tree, roots, longer) && longer[|longer| - 1] == to;
  }

  lemma {:induction false} ChainSnoc(tree: Tree, roots: seq<Name>, chain: seq<Name>, to: Name)
    requires Chain(tree, roots, chain) && Refers(tree, chain[|chain| - 1], to) && Followed(tree, to)
    ensures Chain(tree, roots, chain + [to])
  {
    var longer := chain + [to];
    forall i | 0 < i < |longer|
      ensures Refers(tree, longer[i - 1], longer[i])
    {
      if i < |chain| { assert Refers(tree, chain[i - 1], chain[i]); }
    }
    forall i | 0 <= i < |longer|
      ensures Followed(tree, longer[i])
    {
      if i < |chain| { assert Followed(tree, chain[i]); }
    }
  }

  lemma {:induction false} Start(tree: Tree, roots: seq<Name>, root: Name)
    requires root in roots && Followed(tree, root)
    ensures Reachable(tree, roots, root)
  {
    assert Chain(tree, roots, [root]);
  }

  /** A set holding every followed root and every followed reference of its members. */
  ghost predicate Closed(tree: Tree, roots: seq<Name>, found: set<Name>) {
    && (forall r :: r in roots && Followed(tree, r) ==> r in found)
    && (forall a, b :: a in found && Refers(tree, a, b) && Followed(tree, b) ==> b in found)
  }

  lemma {:induction false} ClosedHoldsChain(tree: Tree, roots: seq<Name>, found: set<Name>, chain: seq<Name>)
    requires Closed(tree, roots, found) && Chain(tree, roots, chain)
    ensures chain[|chain| - 1] in found
  {
    var n := |chain| - 1;
    if n > 0 {
      var shorter := chain[..n];
      assert Chain(tree, roots, shorter);
      ClosedHoldsChain(tree, roots, found, shorter);
      assert Refers(tree, chain[n - 1], chain[n]);
    }
  }

  /** What the loop keeps: found modules are reachable, everything still to be found is a queued
      name or leads through one, and queued names are roots or references of found modules. */
  ghost predicate Progress(tree: Tree, roots: seq<Name>, found: set<Name>, open: set<Name>) {
    && (forall a :: a in found ==> Followed(tree, a) && Reachable(tree, roots, a))
    && (forall r :: r in roots && Followed(tree, r) ==> r in found || r in open)
    && (forall a, b :: a in found && Refers(tree, a, b) && Followed(tree, b) ==> b in found || b in open)
    && (forall q :: q in open ==> Sourced(tree, roots, found, q))
  }

  ghost predicate Sourced(tree: Tree, roots: seq<Name>, found: set<Name>, q: Name) {
    q in roots || exists a :: a in found && Refers(tree, a, q)
  }

  /** Dropping a queued name that is found already or not followed. */
  lemma {:induction false} Skip(tree: Tree, roots: seq<Name>, found: set<Name>, open: set<Name>, rest: set<Name>, name: Name)
    requires Progress(tree, roots, found, open) && rest <= open <= rest + {name}
    requires name in found || !Followed(tree, name)
    ensures Progress(tree, roots, found, rest)
  {
  }

  /** Taking a queued name up and queueing its references that are not found yet. */
  lemma {:induction false} Take(tree: Tree, roots: seq<Name>, found: set<Name>, open: set<Name>, rest: set<Name>,
                                name: Name, more: set<Name>)
    requires Progress(tree, roots, found, open) && name in open && rest <= open <= rest + {name}
    requires Followed(tree, name)
    requires forall q :: q in more <==> Refers(tree, name, q) && q !in found + {name}
    ensures Progress(tree, roots, found + {name}, rest + more)
  {
    assert Sourced(tree, roots, found, name);
    if name in roots {
      Start(tree, roots, name);
    } else {
      var a :| a in found && Refers(tree, a, name);
      Extend(tree, roots, a, name);
    }
    forall q | q in rest + more
      ensures Sourced(tree, roots, found + {name}, q)
    {
      if q in rest {
        assert Sourced(tree, roots, found, q);
      } else {
        assert name in found + {name} && Refers(tree, name, q);
      }
    }
  }

  lemma {:induction false} Finished(tree: Tree, roots: seq<Name>, found: set<Name>)
    requires Progress(tree, roots, found, {})
    ensures forall name :: name in found <==> Reachable(tree, roots, name)
  {
    forall name | Reachable(tree, roots, name)
      ensures name in found
    {
      var chain :| Chain(tree, roots, chain) && chain[|chain| - 1] == name;
      ClosedHoldsChain(tree, roots, found, chain);
    }
  }

  function NamesIn(queue: seq<Name>): (r: set<Name>)
    ensures forall q :: q in r <==> q in queue
  {
    set q | q in queue
  }

  lemma {:induction false} Popped(queue: seq<Name>, n: nat)
    requires |queue| == n + 1
    ensures NamesIn(queue[..n]) <= NamesIn(queue) <= NamesIn(queue[..n]) + {queue[n]}
  {
    assert queue == queue[..n] + [queue[n]];
  }

  method Unseen(references: seq<Name>, seen: set<Name>) returns (r: seq<Name>)
    ensures forall q :: q in r <==> q in references && q !in seen
  {
    r := [];
    var i := 0;
    while i < |references|
      invariant i <= |references|
      invariant forall q :: q in r <==> q in references[..i] && q !in seen
    {
      assert references[..i + 1] == references[..i] + [references[i]];
      if references[i] !in seen {
        r := r + [references[i]];
      }
      i := i + 1;
    }
    assert references[..|references|] == references;
  }

  /** `reachable_modules`: terminates on every tree, cyclic or not, and returns exactly the in-scope
      existing modules reachable from the roots. */
  method ReachableModules(tree: Tree, roots: seq<Name>) returns (seen: set<Name>)
    ensures forall name :: name in seen <==> Reachable(tree, roots, name)
  {
    seen := {};
    var queue := roots;
    while queue != []
      invariant Progress(tree, roots, seen, NamesIn(queue))
      decreases |tree.Keys - seen|, |queue|
    {
      var n := |queue| - 1;
      var name := queue[n];
      ghost var open, rest := NamesIn(queue), NamesIn(queue[..n]);
      Popped(queue, n);
      queue := queue[..n];
      if name in seen || !InScope(name) || name !in tree {
        Skip(tree, roots, seen, open, rest, name);
        continue;
      }
      var more := Unseen(ReferencesOf(tree, name), seen + {name});
      Take(tree, roots, seen, open, rest, name, NamesIn(more));
      Shrinks(tree.Keys, seen, name);
      Queued(queue, more);
      seen := seen + {name};
      queue := queue + more;
    }
    assert NamesIn([]) == {};
    Finished(tree, roots, seen);
  }

  lemma {:induction false} Queued(queue: seq<Name>, more: seq<Name>)
    ensures NamesIn(queue + more) == NamesIn(queue) + NamesIn(more)
  {
  }

  lemma {:induction false} Shrinks(all: set<Name>, seen: set<Name>, name: Name)
    requires name in all && name !in seen
    ensures |all - (seen + {name})| < |all - seen|
  {
    assert all - seen == (all - (seen + {name})) + {name};
  }
}
