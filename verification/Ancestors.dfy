/** Bounded search through lexical ancestors, over parent maps that may be
    malformed: a parent may be missing, and a chain may lead back to where it
    started. */
module Ancestors {
  import opened Prelude

  type SymbolId = nat

  datatype Decl = Decl(name: string, parent: Option<SymbolId>)

  function ParentOf(defs: map<SymbolId, Decl>, d: Decl): Option<Decl> {
    if d.parent.Some? && d.parent.value in defs then Some(defs[d.parent.value]) else None
  }

  /** The `k`-th ancestor, counting the declaration itself as the zeroth. */
  function Ancestor(defs: map<SymbolId, Decl>, d: Decl, k: nat): Option<Decl> {
    if k == 0 then Some(d)
    else
      var below := Ancestor(defs, d, k - 1);
      if below.None? then None else ParentOf(defs, below.value)
  }

  ghost predicate MatchesAt(defs: map<SymbolId, Decl>, d: Decl, matches: string -> bool, k: nat) {
    Ancestor(defs, d, k).Some? && matches(Ancestor(defs, d, k).value.name)
  }

  lemma {:induction false} AncestorsBelow(defs: map<SymbolId, Decl>, d: Decl, k: nat, n: nat)
    requires Ancestor(defs, d, n).Some? && k <= n
    ensures Ancestor(defs, d, k).Some?
    decreases n - k
  {
    if k < n {
      AncestorsBelow(defs, d, k, n - 1);
    }
  }

  /** Chains that meet go on alike. */
  lemma {:induction false} ChainsMerge(defs: map<SymbolId, Decl>, d: Decl, i: nat, j: nat, k: nat)
    requires Ancestor(defs, d, i) == Ancestor(defs, d, j)
    ensures Ancestor(defs, d, i + k) == Ancestor(defs, d, j + k)
  {
    if k > 0 {
      ChainsMerge(defs, d, i, j, k - 1);
    }
  }

  /** The symbols the chain climbs through. */
  function Climbed(defs: map<SymbolId, Decl>, d: Decl, n: nat): (symbols: seq<SymbolId>)
    requires Ancestor(defs, d, n).Some?
    ensures |symbols| == n
    ensures forall k :: 0 <= k < n ==>
              symbols[k] in defs && Ancestor(defs, d, k + 1) == Some(defs[symbols[k]])
  {
    if n == 0 then [] else Climbed(defs, d, n - 1) + [Ancestor(defs, d, n - 1).value.parent.value]
  }

  /** A match anywhere up the chain, however long or cyclic, has a match within
      the first map-size ancestors. */
  lemma {:induction false} MatchIsNear(defs: map<SymbolId, Decl>, d: Decl, matches: string -> bool, n: nat)
    returns (k: nat)
    requires MatchesAt(defs, d, matches, n)
    ensures k <= |defs| && MatchesAt(defs, d, matches, k)
    decreases n
  {
    if n <= |defs| {
      k := n;
    } else {
      var symbols := Climbed(defs, d, n);
      var i, j := RepeatsSomewhere(symbols, defs.Keys);
      ChainsMerge(defs, d, i + 1, j + 1, n - (j + 1));
      k := MatchIsNear(defs, d, matches, n - (j - i));
    }
  }

  /** `chain` climbs from `d` link by link. */
  ghost predicate Climbs(defs: map<SymbolId, Decl>, d: Decl, chain: seq<Decl>) {
    && chain != [] && chain[0] == d
    && forall i :: 0 <= i < |chain| - 1 ==>
         chain[i].parent.Some? && chain[i].parent.value in defs && chain[i + 1] == defs[chain[i].parent.value]
  }

  lemma {:induction false} ChainIsAncestry(defs: map<SymbolId, Decl>, d: Decl, chain: seq<Decl>)
    requires Climbs(defs, d, chain)
    ensures Ancestor(defs, d, |chain| - 1) == Some(chain[|chain| - 1])
    decreases |chain|
  {
    if |chain| > 1 {
      ChainIsAncestry(defs, d, chain[..|chain| - 1]);
    }
  }

  lemma {:induction false} AncestryIsChain(defs: map<SymbolId, Decl>, d: Decl, k: nat) returns (chain: seq<Decl>)
    requires Ancestor(defs, d, k).Some?
    ensures Climbs(defs, d, chain) && chain[|chain| - 1] == Ancestor(defs, d, k).value
  {
    if k == 0 {
      chain := [d];
    } else {
      chain := AncestryIsChain(defs, d, k - 1);
      chain := chain + [Ancestor(defs, d, k).value];
    }
  }

  /** A match somewhere up means a chain of parent links to it. */
  lemma MatchMeans(defs: map<SymbolId, Decl>, d: Decl, matches: string -> bool)
    ensures (exists k :: MatchesAt(defs, d, matches, k)) <==>
            exists chain: seq<Decl> :: Climbs(defs, d, chain) && matches(chain[|chain| - 1].name)
  {
    if exists k: nat :: MatchesAt(defs, d, matches, k) {
      var k: nat :| MatchesAt(defs, d, matches, k);
      var chain := AncestryIsChain(defs, d, k);
    }
    if exists chain: seq<Decl> :: Climbs(defs, d, chain) && matches(chain[|chain| - 1].name) {
      var chain: seq<Decl> :| Climbs(defs, d, chain) && matches(chain[|chain| - 1].name);
      ChainIsAncestry(defs, d, chain);
      assert MatchesAt(defs, d, matches, |chain| - 1);
    }
  }

  /** The bounded loop is exact: it answers true exactly when the declaration or
      some declaration reachable by parent links matches. */
  method DeclOrAncestorMatches(d: Decl, defs: map<SymbolId, Decl>, matches: string -> bool) returns (found: bool)
    ensures found <==> exists k :: MatchesAt(defs, d, matches, k)
    ensures found <==> exists chain: seq<Decl> ::
      && chain != [] && chain[0] == d && matches(chain[|chain| - 1].name)
      && forall i :: 0 <= i < |chain| - 1 ==>
           chain[i].parent.Some? && chain[i].parent.value in defs && chain[i + 1] == defs[chain[i].parent.value]
  {
    MatchMeans(defs, d, matches);
    var current := Some(d);
    for step := 0 to |defs| + 1
      invariant current == Ancestor(defs, d, step)
      invariant forall k :: 0 <= k < step ==> !MatchesAt(defs, d, matches, k)
    {
      if current.None? {
        forall k: nat | MatchesAt(defs, d, matches, k)
          ensures false
        {
          if k >= step {
            AncestorsBelow(defs, d, step, k);
          }
        }
        return false;
      }
      if matches(current.value.name) {
        assert MatchesAt(defs, d, matches, step);
        return true;
      }
      current := ParentOf(defs, current.value);
    }
    forall k: nat | MatchesAt(defs, d, matches, k)
      ensures false
    {
      var near := MatchIsNear(defs, d, matches, k);
    }
    return false;
  }
}
