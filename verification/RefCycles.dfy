/** Which recursions a schema may contain. A reference that comes back to itself without
    descending into the value would recurse forever; every other recursion ends because the
    value is finite. The search below tells the two apart, and leaves a rank behind. */
module RefCycles {
  import opened Wrappers
  import opened Json
  import opened SchemaCheck

  /** References applied to the same value as this schema. */
  function SamePositionRefs(schema: Json): (found: seq<string>)
    decreases Size(schema), 1
  {
    (if HasRef(schema) then [RefOf(schema)] else [])
    + if schema.Obj? then
        AlternativesInside(schema.fields);
        SamePositionRefsOf(Alternatives(schema.fields), Size(schema))
      else []
  }

  function SamePositionRefsOf(subs: seq<Json>, ghost bound: nat): (found: seq<string>)
    requires forall i :: 0 <= i < |subs| ==> Size(subs[i]) < bound
    decreases bound, 0, |subs|
  {
    if subs == [] then [] else SamePositionRefs(subs[0]) + SamePositionRefsOf(subs[1..], bound)
  }

  lemma {:induction false} SamePositionRefsOfMember(subs: seq<Json>, bound: nat, r: string)
    requires forall i :: 0 <= i < |subs| ==> Size(subs[i]) < bound
    ensures r in SamePositionRefsOf(subs, bound) <==> exists i :: 0 <= i < |subs| && r in SamePositionRefs(subs[i])
    decreases |subs|
  {
    if subs != [] {
      var rest := subs[1..];
      SamePositionRefsOfMember(rest, bound, r);
      if r in SamePositionRefsOf(subs, bound) && r !in SamePositionRefs(subs[0]) {
        var i :| 0 <= i < |rest| && r in SamePositionRefs(rest[i]);
        assert r in SamePositionRefs(subs[i + 1]);
      }
      forall i | 0 <= i < |subs| && r in SamePositionRefs(subs[i]) ensures r in SamePositionRefsOf(subs, bound) {
        if i > 0 { assert rest[i - 1] == subs[i]; }
      }
    }
  }

  /** The references of a schema are its own and those of its alternatives. */
  lemma SamePositionRefsMember(schema: Json, r: string)
    requires schema.Obj?
    ensures r in SamePositionRefs(schema) <==>
              || (HasRef(schema) && r == RefOf(schema))
              || exists i :: 0 <= i < |Alternatives(schema.fields)|
                             && r in SamePositionRefs(Alternatives(schema.fields)[i])
  {
    AlternativesInside(schema.fields);
    SamePositionRefsOfMember(Alternatives(schema.fields), Size(schema), r);
  }

  lemma AlternativeChecked(schema: Json, i: nat, known: set<string>, py: Python)
    requires Checked(schema, known, py) && i < |Alternatives(schema.fields)|
    ensures Checked(Alternatives(schema.fields)[i], known, py)
    ensures Inside(Alternatives(schema.fields)[i], schema.fields)
  {
    CheckedMember(schema, Alternatives(schema.fields)[i], known, py);
  }

  /** A checked schema only applies known references to its own value. */
  lemma {:induction false} SamePositionRefsKnown(schema: Json, known: set<string>, py: Python)
    requires Checked(schema, known, py)
    ensures forall r :: r in SamePositionRefs(schema) ==> r in known
    decreases Size(schema)
  {
    var subs := Alternatives(schema.fields);
    forall r | r in SamePositionRefs(schema) ensures r in known {
      SamePositionRefsMember(schema, r);
      if i :| 0 <= i < |subs| && r in SamePositionRefs(subs[i]) {
        AlternativeChecked(schema, i, known, py);
        SamePositionRefsKnown(subs[i], known, py);
      }
    }
  }

  // ---- the reference graph ----

  /** Each reference with those its target applies to the same value. */
  type Graph = map<string, seq<string>>

  function GraphOf(refs: Refs): (g: Graph)
    ensures g.Keys == refs.Keys
    ensures forall r :: r in refs ==> g[r] == SamePositionRefs(refs[r])
  {
    map r | r in refs :: SamePositionRefs(refs[r])
  }

  predicate Edge(g: Graph, a: string, b: string)
  {
    a in g && b in g[a]
  }

  ghost predicate Complete(g: Graph)
  {
    forall a, b :: Edge(g, a, b) ==> b in g
  }

  ghost predicate IsPath(g: Graph, path: seq<string>)
  {
    forall i :: 0 <= i < |path| - 1 ==> Edge(g, path[i], path[i + 1])
  }

  /** A walk of at least one reference that ends where it began. */
  ghost predicate IsCycle(g: Graph, path: seq<string>)
  {
    |path| >= 2 && path[0] == path[|path| - 1] && IsPath(g, path)
  }

  /** A number for every node, falling along every edge. */
  ghost predicate Ranked(g: Graph, rank: map<string, nat>)
  {
    && g.Keys <= rank.Keys
    && forall a, b :: Edge(g, a, b) ==> b in rank && rank[b] < rank[a]
  }

  lemma {:induction false} RankFalls(g: Graph, rank: map<string, nat>, path: seq<string>, k: nat)
    requires Ranked(g, rank) && IsPath(g, path) && 0 < k < |path|
    ensures path[0] in rank && path[k] in rank && rank[path[k]] < rank[path[0]]
  {
    assert Edge(g, path[0], path[1]);
    if k > 1 {
      RankFalls(g, rank, path, k - 1);
      assert Edge(g, path[k - 1], path[k]);
    }
  }

  /** A ranked graph has no cycle. */
  lemma RankedHasNoCycle(g: Graph, rank: map<string, nat>)
    requires Ranked(g, rank)
    ensures forall path :: !IsCycle(g, path)
  {
    forall path ensures !IsCycle(g, path) {
      if IsCycle(g, path) { RankFalls(g, rank, path, |path| - 1); }
    }
  }

  /** What the search knows about the references it is done with: everything they lead to
      is done too, at a lower rank. */
  ghost predicate Settled(g: Graph, done: set<string>, rank: map<string, nat>)
  {
    && done == rank.Keys
    && done <= g.Keys
    && forall a, b :: a in done && Edge(g, a, b) ==> b in done && rank[b] < rank[a]
  }

  ghost predicate RanksBelow(rank: map<string, nat>, top: nat)
  {
    forall r :: r in rank ==> rank[r] < top
  }

  /** ref follows the last reference of the chain. */
  ghost predicate Follows(g: Graph, chain: seq<string>, ref: string)
  {
    ref in g && (chain != [] ==> Edge(g, chain[|chain| - 1], ref))
  }

  /** The references being visited, each leading to the next and none twice. */
  ghost predicate IsChain(g: Graph, chain: seq<string>)
  {
    chain == [] ||
    (var n := |chain| - 1;
     IsChain(g, chain[..n]) && chain[n] !in chain[..n] && Follows(g, chain[..n], chain[n]))
  }

  lemma {:induction false} ChainFacts(g: Graph, chain: seq<string>)
    requires IsChain(g, chain)
    ensures IsPath(g, chain)
    ensures forall i :: 0 <= i < |chain| ==> chain[i] in g
    ensures forall i, j :: 0 <= i < j < |chain| ==> chain[i] != chain[j]
  {
    if chain != [] {
      var front := chain[..|chain| - 1];
      ChainFacts(g, front);
      if front != [] { PathGrows(g, front, chain[|chain| - 1]); }
      assert chain == front + [chain[|chain| - 1]];
    }
  }

  ghost predicate Ordered(g: Graph, done: set<string>, rank: map<string, nat>)
  {
    Settled(g, done, rank) && RanksBelow(rank, |rank|)
  }

  ghost predicate Extends(done: set<string>, rank: map<string, nat>, done': set<string>, rank': map<string, nat>)
  {
    done <= done' && forall r :: r in rank ==> r in rank' && rank'[r] == rank[r]
  }

  /** One call of the depth-first search: a cycle, or one more reference done. */
  method Visit(g: Graph, ref: string, chain: seq<string>, done: set<string>, ghost rank: map<string, nat>)
    returns (loop: Option<seq<string>>, done': set<string>, ghost rank': map<string, nat>)
    requires Complete(g) && IsChain(g, chain) && Follows(g, chain, ref)
    requires Ordered(g, done, rank)
    ensures loop.Some? ==> IsCycle(g, loop.value)
    ensures loop.None? ==> Ordered(g, done', rank') && Extends(done, rank, done', rank') && ref in done'
    decreases |g| - |chain|, 1, 0
  {
    if ref in chain {
      var start :| 0 <= start < |chain| && chain[start] == ref;
      CycleClosed(g, chain, start, ref);
      return Some(chain[start..] + [ref]), done, rank;
    }
    if ref in done {
      return None, done, rank;
    }
    var longer := chain + [ref];
    ChainGrows(g, chain, ref);
    AllFollowLast(g, chain, ref);
    loop, done', rank' := VisitAll(g, g[ref], longer, done, rank);
    if loop.None? && ref !in done' {
      SettleOne(g, ref, done', rank');
      rank' := rank'[ref := |rank'|];
      done' := done' + {ref};
    }
  }

  lemma CycleClosed(g: Graph, chain: seq<string>, start: nat, ref: string)
    requires IsChain(g, chain) && Follows(g, chain, ref)
    requires start < |chain| && chain[start] == ref
    ensures IsCycle(g, chain[start..] + [ref])
  {
    ChainFacts(g, chain);
    var tail := chain[start..];
    forall i | 0 <= i < |tail| - 1 ensures Edge(g, tail[i], tail[i + 1]) {
      assert Edge(g, chain[start + i], chain[start + i + 1]);
    }
    PathGrows(g, tail, ref);
  }

  lemma ChainGrows(g: Graph, chain: seq<string>, ref: string)
    requires IsChain(g, chain) && Follows(g, chain, ref) && ref !in chain
    ensures IsChain(g, chain + [ref]) && |chain| + 1 <= |g|
  {
    assert (chain + [ref])[..|chain|] == chain;
    ChainFacts(g, chain + [ref]);
    ChainIsShort(g, chain + [ref]);
  }

  lemma SettleOne(g: Graph, ref: string, done: set<string>, rank: map<string, nat>)
    requires Ordered(g, done, rank) && ref in g && ref !in done
    requires AllDone(g[ref], done)
    ensures Ordered(g, done + {ref}, rank[ref := |rank|])
  {
  }

  ghost predicate AllFollow(g: Graph, chain: seq<string>, nexts: seq<string>)
  {
    forall k :: 0 <= k < |nexts| ==> Follows(g, chain, nexts[k])
  }

  lemma AllFollowLast(g: Graph, chain: seq<string>, ref: string)
    requires Complete(g) && ref in g
    ensures AllFollow(g, chain + [ref], g[ref])
  {
    forall k | 0 <= k < |g[ref]| ensures Follows(g, chain + [ref], g[ref][k]) {
      assert Edge(g, ref, g[ref][k]);
    }
  }

  ghost predicate AllDone(nexts: seq<string>, done: set<string>)
  {
    forall k :: 0 <= k < |nexts| ==> nexts[k] in done
  }

  lemma AllDoneGrows(nexts: seq<string>, i: nat, before: set<string>, done: set<string>)
    requires i < |nexts| && AllDone(nexts[..i], before) && before <= done && nexts[i] in done
    ensures AllDone(nexts[..i + 1], done)
  {
  }

  /** The loop over the references one schema leads to; the chain ends at that schema. */
  method VisitAll(g: Graph, nexts: seq<string>, chain: seq<string>, done: set<string>, ghost rank: map<string, nat>)
    returns (loop: Option<seq<string>>, done': set<string>, ghost rank': map<string, nat>)
    requires Complete(g) && IsChain(g, chain) && |chain| <= |g|
    requires AllFollow(g, chain, nexts) && Ordered(g, done, rank)
    ensures loop.Some? ==> IsCycle(g, loop.value)
    ensures loop.None? ==> Ordered(g, done', rank') && Extends(done, rank, done', rank') && AllDone(nexts, done')
    decreases |g| - |chain| + 1, 0, |nexts|
  {
    done', rank' := done, rank;
    for i := 0 to |nexts|
      invariant Ordered(g, done', rank') && Extends(done, rank, done', rank') && AllDone(nexts[..i], done')
    {
      ghost var before := done';
      loop, done', rank' := Visit(g, nexts[i], chain, done', rank');
      if loop.Some? {
        return;
      }
      AllDoneGrows(nexts, i, before, done');
    }
    assert nexts[..|nexts|] == nexts;
    loop := None;
  }

  lemma PathGrows(g: Graph, path: seq<string>, next: string)
    requires path != [] && IsPath(g, path) && Edge(g, path[|path| - 1], next)
    ensures IsPath(g, path + [next])
  {
  }

  /** A chain of distinct references is no longer than there are references. */
  lemma ChainIsShort(g: Graph, chain: seq<string>)
    requires forall i :: 0 <= i < |chain| ==> chain[i] in g
    requires forall i, j :: 0 <= i < j < |chain| ==> chain[i] != chain[j]
    ensures |chain| <= |g|
  {
    var members := set i | 0 <= i < |chain| :: chain[i];
    DistinctCount(chain, members);
    SubsetCount(members, g.Keys);
    assert |g.Keys| == |g|;
  }

  lemma {:induction false} DistinctCount(chain: seq<string>, members: set<string>)
    requires forall i, j :: 0 <= i < j < |chain| ==> chain[i] != chain[j]
    requires members == set i | 0 <= i < |chain| :: chain[i]
    ensures |members| == |chain|
  {
    if chain != [] {
      var front := chain[..|chain| - 1];
      var rest := set i | 0 <= i < |front| :: front[i];
      DistinctCount(front, rest);
      assert members == rest + {chain[|chain| - 1]} by {
        forall s | s in members ensures s in rest + {chain[|chain| - 1]} {
          var i :| 0 <= i < |chain| && chain[i] == s;
          if i < |front| { assert front[i] == s; }
        }
        forall s | s in rest ensures s in members {
          var i :| 0 <= i < |front| && front[i] == s;
          assert chain[i] == s;
        }
      }
    }
  }

  lemma {:induction false} SubsetCount(a: set<string>, b: set<string>)
    requires a <= b
    ensures |a| <= |b|
  {
    if a != {} {
      var x :| x in a;
      SubsetCount(a - {x}, b - {x});
    }
  }

  /** The whole search refuses exactly the graphs that have a cycle, and an accepted graph
      comes with a rank. */
  method RefuseRefCycles(g: Graph) returns (loop: Option<seq<string>>, ghost rank: map<string, nat>)
    requires Complete(g)
    ensures loop.None? <==> forall path :: !IsCycle(g, path)
    ensures loop.None? ==> Ranked(g, rank)
    ensures loop.Some? ==> IsCycle(g, loop.value)
  {
    var done: set<string> := {};
    rank := map[];
    var todo := g.Keys;
    while todo != {}
      invariant todo <= g.Keys && g.Keys - todo <= done
      invariant Ordered(g, done, rank)
      decreases |todo|
    {
      var ref :| ref in todo;
      todo := todo - {ref};
      ghost var before := done;
      loop, done, rank := Visit(g, ref, [], done, rank);
      if loop.Some? {
        return;
      }
      assert before <= done;
    }
    loop := None;
    RankedHasNoCycle(g, rank);
  }

  // ---- the gate ----

  /** The targets of a set of references. */
  ghost function Targets(known: set<string>, root: Json, py: Python): (refs: Refs)
    requires Closed(known, root, py)
    ensures refs.Keys == known
    ensures forall r :: r in known ==> Resolve(r, root, py) == Some(refs[r])
  {
    map r | r in known :: Resolve(r, root, py).value
  }

  /** A finite set of references that makes sense of the schema, and a rank along the
      references applied to one value. */
  datatype Meaning = Meaning(known: set<string>, rank: map<string, nat>)

  ghost predicate Explains(m: Meaning, root: Json, py: Python)
  {
    && Closed(m.known, root, py)
    && Checked(root, m.known, py)
    && Ranked(GraphOf(Targets(m.known, root, py)), m.rank)
  }

  /** The schemas this validator enforces whole. */
  ghost predicate Acceptable(root: Json, py: Python)
  {
    exists m :: Explains(m, root, py)
  }

  lemma ClosedIsComplete(known: set<string>, root: Json, py: Python)
    requires Closed(known, root, py)
    ensures Complete(GraphOf(Targets(known, root, py)))
  {
    var refs := Targets(known, root, py);
    forall a, b | Edge(GraphOf(refs), a, b) ensures b in refs {
      SamePositionRefsKnown(refs[a], known, py);
    }
  }

  lemma FewerRefsRanked(few: Refs, many: Refs, rank: map<string, nat>)
    requires Ranked(GraphOf(many), rank)
    requires few.Keys <= many.Keys && forall r :: r in few ==> few[r] == many[r]
    ensures Ranked(GraphOf(few), rank)
  {
    forall a, b | Edge(GraphOf(few), a, b) ensures b in rank && rank[b] < rank[a] {
      assert Edge(GraphOf(many), a, b);
    }
  }

  /** The gate agrees to a schema exactly when the schema is acceptable. */
  method CheckSupported(root: Json, py: Python) returns (refusal: Option<Refusal>)
    ensures refusal.None? <==> Acceptable(root, py)
  {
    var refs: Refs;
    refusal, refs := CheckSchema(root, root, map[], py);
    if refusal.Some? {
      forall m ensures !Explains(m, root, py) {
        if Explains(m, root, py) { assert AllChecked([root], m.known, py); }
      }
      return;
    }
    assert Checked([root][0], refs.Keys, py);
    assert Closed(refs.Keys, root, py);
    assert Targets(refs.Keys, root, py) == refs;
    ClosedIsComplete(refs.Keys, root, py);
    var loop;
    ghost var rank;
    loop, rank := RefuseRefCycles(GraphOf(refs));
    if loop.Some? {
      refusal := Some(ReferenceCycle(loop.value));
      forall m ensures !Explains(m, root, py) {
        if Explains(m, root, py) {
          assert AllChecked([root], m.known, py);
          FewerRefsRanked(refs, Targets(m.known, root, py), m.rank);
          RankedHasNoCycle(GraphOf(refs), m.rank);
        }
      }
    } else {
      assert Explains(Meaning(refs.Keys, rank), root, py);
    }
  }
}
