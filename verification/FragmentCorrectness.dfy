/** When fragment resolution succeeds, and that what it yields is the recursive expansion of the definitions. */
module FragmentCorrectness {
  import opened Graph
  import opened Graphql
  import opened Schemas
  import opened Fragments
  import opened FragmentProcess

  /** The definitions by name. */
  function Definitions(defs: seq<Entry>): FragmentMap {
    if defs == [] then map[] else Definitions(defs[..|defs| - 1])[defs[|defs| - 1].0 := defs[|defs| - 1].1]
  }

  ghost predicate UniqueNames(entries: seq<Entry>) {
    forall i, k :: 0 <= i < k < |entries| ==> entries[i].0 != entries[k].0
  }

  ghost function Conds(originals: FragmentMap): map<string, string> {
    map n | n in originals :: originals[n].cond
  }

  ghost function SpreadGraph(originals: FragmentMap): Graph {
    map n | n in originals :: SpreadNames(originals[n].selections.selections)
  }

  /** Following direct spreads from the fragment leads into a cycle or to an undefined name. */
  ghost predicate Unresolvable(g: Graph, n: string) {
    ReachesCycle(g, n) || exists m :: Reaches(g, n, m) && m !in g
  }

  ghost predicate AllDirect(fragments: FragmentMap) {
    forall n :: n in fragments ==> SpreadsDirect(fragments[n].selections.selections)
  }

  ghost predicate SameInlining(original: seq<Selection>, current: seq<Selection>, fragments: FragmentMap) {
    forall later :: Extends(fragments, later) ==> Inline(current, later) == Inline(original, later)
  }

  /** A definition that still waits: it lost exactly the spreads of fragments already in the map. */
  ghost predicate Waits(schema: Schema, originals: FragmentMap, fragments: FragmentMap, e: Entry) {
    && e.0 in originals && e.0 !in fragments && e.1.cond == originals[e.0].cond
    && SpreadNames(e.1.selections.selections) != {}
    && Fits(schema, e.1.cond, e.1.selections.selections, Conds(originals))
    && SpreadNames(e.1.selections.selections) <= SpreadNames(originals[e.0].selections.selections)
    && SpreadNames(originals[e.0].selections.selections) - SpreadNames(e.1.selections.selections) <= fragments.Keys
    && (AllDirect(originals) ==>
          && SpreadsDirect(e.1.selections.selections)
          && SameInlining(originals[e.0].selections.selections, e.1.selections.selections, fragments))
  }

  /** The map holds definitions free of direct spreads, each settled after everything it spreads directly. */
  ghost predicate Settled(schema: Schema, originals: FragmentMap, fragments: FragmentMap, rank: map<string, nat>) {
    && Clean(fragments)
    && FragmentsFit(schema, fragments, Conds(originals))
    && fragments.Keys == rank.Keys && fragments.Keys <= originals.Keys
    && RanksFall(SpreadGraph(originals), rank)
    && (forall n :: n in rank ==> rank[n] < |rank|)
    && (AllDirect(originals) ==> AllDirect(fragments) && Inlined(originals, fragments))
  }

  /** Each definition is the original with its direct spreads replaced from the map itself. */
  ghost predicate Inlined(originals: FragmentMap, fragments: FragmentMap) {
    forall n :: n in fragments ==>
      n in originals && fragments[n].selections.selections == Inline(originals[n].selections.selections, fragments)
  }

  ghost predicate HasEntry(open: seq<Entry>, n: string) {
    exists i :: 0 <= i < |open| && open[i].0 == n
  }

  /** The open entries are, once each, the definitions that are not settled. */
  ghost predicate OpenEntries(schema: Schema, originals: FragmentMap, fragments: FragmentMap, open: seq<Entry>) {
    && UniqueNames(open)
    && (forall i :: 0 <= i < |open| ==> open[i].0 !in fragments && Waits(schema, originals, fragments, open[i]))
    && (forall n :: n in originals && n !in fragments ==> HasEntry(open, n))
  }

  ghost predicate State(schema: Schema, originals: FragmentMap, fragments: FragmentMap, rank: map<string, nat>, open: seq<Entry>) {
    Settled(schema, originals, fragments, rank) && OpenEntries(schema, originals, fragments, open)
  }

  lemma {:induction false} InlineStable(list: seq<Selection>, small: FragmentMap, large: FragmentMap)
    requires SpreadNames(list) <= small.Keys && Extends(small, large)
    ensures Inline(list, small) == Inline(list, large)
  {
    if list != [] {
      assert list == [list[0]] + list[1..];
      SpreadNamesAppend([list[0]], list[1..]);
      if list[0].Fragment? {
        assert list[0].name in SpreadNames(list);
      }
      InlineStable(list[1..], small, large);
    }
  }

  /** A definition that spreads nothing directly any more. */
  ghost predicate Settles(schema: Schema, originals: FragmentMap, fragments: FragmentMap, name: string, def: FragmentDef) {
    && name in originals && name !in fragments && def.cond == originals[name].cond
    && DirectSpreads(def.selections.selections) == 0
    && Fits(schema, def.cond, def.selections.selections, Conds(originals))
    && SpreadNames(originals[name].selections.selections) <= fragments.Keys
    && (AllDirect(originals) ==>
          && SpreadsDirect(def.selections.selections)
          && SameInlining(originals[name].selections.selections, def.selections.selections, fragments))
  }

  function Rewritten(e: Entry, r: Resolution): FragmentDef {
    FragmentDef(e.1.cond, Selections(e.1.selections.fieldType, r.left, r.list))
  }

  /** What one step makes of a waiting definition. */
  lemma StepWaits(schema: Schema, originals: FragmentMap, fragments: FragmentMap, rank: map<string, nat>, e: Entry)
    requires Settled(schema, originals, fragments, rank)
    requires Waits(schema, originals, fragments, e)
    ensures var outcome := Resolve(schema, e.1.cond, e.1.selections.selections, fragments);
      && outcome.Done?
      && var r := outcome.value;
      && (r.resolved == 0 ==> r.left)
      && (r.left ==> Waits(schema, originals, fragments, (e.0, Rewritten(e, r))))
      && (r.left ==> SpreadNames(r.list) * fragments.Keys == {})
      && (!r.left ==> Settles(schema, originals, fragments, e.0, Rewritten(e, r)))
  {
    var list := e.1.selections.selections;
    ResolveFits(schema, e.1.cond, list, fragments, Conds(originals));
    ResolveNames(schema, e.1.cond, list, fragments);
    ResolveCounts(schema, e.1.cond, list, fragments);
    var r := Resolve(schema, e.1.cond, list, fragments).value;
    NoSpreadNames(r.list);
    var original := SpreadNames(originals[e.0].selections.selections);
    assert !r.left ==> original <= fragments.Keys by {
      assert original <= (original - SpreadNames(list)) + (SpreadNames(list) - SpreadNames(r.list)) + SpreadNames(r.list);
    }
    if r.resolved == 0 {
      ResolvedNone(schema, e.1.cond, list, fragments);
      NoSpreadNames(list);
    }
    if AllDirect(originals) {
      ResolveInlines(schema, e.1.cond, list, fragments);
      InlineKeepsDirect(list, fragments);
      forall later | Extends(fragments, later)
        ensures Inline(r.list, later) == Inline(originals[e.0].selections.selections, later)
      {
        InlineTwice(list, fragments, later);
      }
    }
  }

  lemma {:induction false} ResolvedNone(schema: Schema, cond: string, list: seq<Selection>, fragments: FragmentMap)
    requires Resolve(schema, cond, list, fragments).Done? && Resolve(schema, cond, list, fragments).value.resolved == 0
    ensures SpreadNames(list) * fragments.Keys == {}
  {
    if list != [] {
      ResolvedNone(schema, cond, list[1..], fragments);
      assert list == [list[0]] + list[1..];
      SpreadNamesAppend([list[0]], list[1..]);
    }
  }

  // ----- one step -----

  lemma WaitsLater(schema: Schema, originals: FragmentMap, small: FragmentMap, large: FragmentMap, e: Entry)
    requires Waits(schema, originals, small, e) && Extends(small, large) && e.0 !in large
    ensures Waits(schema, originals, large, e)
  {
  }

  /** A definition with spreads left goes back to the waiting ones. */
  lemma {:induction false} StepWaiting(schema: Schema, originals: FragmentMap, fragments: FragmentMap, open: seq<Entry>, i: nat, e': Entry)
    requires OpenEntries(schema, originals, fragments, open) && i < |open|
    requires e'.0 == open[i].0 && Waits(schema, originals, fragments, e')
    ensures OpenEntries(schema, originals, fragments, open[i := e'])
  {
    hide Waits;
    forall n | n in originals && n !in fragments ensures HasEntry(open[i := e'], n) {
      var k :| 0 <= k < |open| && open[k].0 == n;
      assert open[i := e'][k].0 == n;
    }
  }

  /** A definition without spreads left leaves the waiting ones. */
  lemma {:induction false} StepLeaves(schema: Schema, originals: FragmentMap, fragments: FragmentMap, open: seq<Entry>, i: nat, def: FragmentDef)
    requires OpenEntries(schema, originals, fragments, open) && i < |open| && open[i].0 !in fragments
    ensures OpenEntries(schema, originals, fragments[open[i].0 := def], open[..i] + open[i + 1..])
  {
    hide Waits;
    var fragments', open' := fragments[open[i].0 := def], open[..i] + open[i + 1..];
    forall k | 0 <= k < |open'| ensures Waits(schema, originals, fragments', open'[k]) {
      var e := open[if k < i then k else k + 1];
      assert open'[k] == e && e.0 != open[i].0;
      WaitsLater(schema, originals, fragments, fragments', e);
    }
    forall n | n in originals && n !in fragments' ensures HasEntry(open', n) {
      var k :| 0 <= k < |open| && open[k].0 == n;
      assert open'[if k < i then k else k - 1].0 == n;
    }
  }

  /** The definition enters the map, after everything it spread. */
  lemma {:induction false} StepSettles(schema: Schema, originals: FragmentMap, fragments: FragmentMap, rank: map<string, nat>,
                                       name: string, def: FragmentDef)
    requires Settled(schema, originals, fragments, rank) && Settles(schema, originals, fragments, name, def)
    ensures Settled(schema, originals, fragments[name := def], rank[name := |rank|])
  {
    hide SpreadNames, SameInlining, Fits, SpreadsDirect, Inlined, RanksFall;
    SettleRanks(originals, fragments, rank, name);
    if AllDirect(originals) {
      SettleInlines(originals, fragments, rank, name, def);
    }
  }

  lemma SettleRanks(originals: FragmentMap, fragments: FragmentMap, rank: map<string, nat>, name: string)
    requires fragments.Keys == rank.Keys && name in originals && name !in rank
    requires RanksFall(SpreadGraph(originals), rank) && forall n :: n in rank ==> rank[n] < |rank|
    requires SpreadNames(originals[name].selections.selections) <= fragments.Keys
    ensures var rank' := rank[name := |rank|];
      RanksFall(SpreadGraph(originals), rank') && (forall n :: n in rank' ==> rank'[n] < |rank'|)
  {
    var rank', g := rank[name := |rank|], SpreadGraph(originals);
    assert |rank'| == |rank| + 1;
    forall p, q | p in rank' && p in g && q in g[p] ensures q in rank' && rank'[q] < rank'[p] {
      if p == name {
        assert q in fragments;
      } else {
        assert q in rank;
      }
    }
  }

  lemma {:induction false} SettleInlines(originals: FragmentMap, fragments: FragmentMap, rank: map<string, nat>, name: string, def: FragmentDef)
    requires fragments.Keys == rank.Keys && fragments.Keys <= originals.Keys && name in originals && name !in fragments
    requires RanksFall(SpreadGraph(originals), rank)
    requires DirectSpreads(def.selections.selections) == 0
    requires SameInlining(originals[name].selections.selections, def.selections.selections, fragments)
    requires Inlined(originals, fragments)
    ensures Inlined(originals, fragments[name := def])
  {
    hide SpreadNames, Inline;
    var fragments' := fragments[name := def];
    forall n | n in fragments'
      ensures fragments'[n].selections.selections == Inline(originals[n].selections.selections, fragments')
    {
      if n == name {
        InlineNothing(def.selections.selections, fragments');
      } else {
        forall m | m in SpreadNames(originals[n].selections.selections) ensures m in fragments {
          assert m in SpreadGraph(originals)[n];
        }
        InlineStable(originals[n].selections.selections, fragments, fragments');
      }
    }
  }

  // ----- one pass -----

  /** No waiting definition of the pass spreads a fragment the map holds. */
  ghost predicate Stale(remaining: seq<Entry>, fragments: FragmentMap) {
    forall i :: 0 <= i < |remaining| ==> SpreadNames(remaining[i].1.selections.selections) * fragments.Keys == {}
  }

  lemma OpenAt(schema: Schema, originals: FragmentMap, fragments: FragmentMap, open: seq<Entry>, i: nat)
    requires OpenEntries(schema, originals, fragments, open) && i < |open|
    ensures open[i].0 !in fragments && Waits(schema, originals, fragments, open[i])
  {
  }

  lemma StepStale(schema: Schema, e: Entry, pass: Pass)
    requires Clean(pass.fragments) && SpreadNames(e.1.selections.selections) != {} && Stale(pass.remaining, pass.fragments)
    requires Step(schema, e, pass).Done? && Step(schema, e, pass).value.resolved == pass.resolved
    ensures var next := Step(schema, e, pass).value; next.fragments == pass.fragments && Stale(next.remaining, next.fragments)
  {
    ResolveNames(schema, e.1.cond, e.1.selections.selections, pass.fragments);
    ResolveCounts(schema, e.1.cond, e.1.selections.selections, pass.fragments);
    NoSpreadNames(e.1.selections.selections);
  }

  lemma {:induction false} StepState(schema: Schema, originals: FragmentMap, e: Entry, rest: seq<Entry>, pass: Pass, rank: map<string, nat>)
    returns (rank': map<string, nat>)
    requires State(schema, originals, pass.fragments, rank, pass.remaining + ([e] + rest))
    ensures Clean(pass.fragments) && SpreadNames(e.1.selections.selections) != {}
    ensures Step(schema, e, pass).Done? && Step(schema, e, pass).value.resolved >= pass.resolved
    ensures State(schema, originals, Step(schema, e, pass).value.fragments, rank', Step(schema, e, pass).value.remaining + rest)
  {
    hide Resolve, Settles, OpenEntries, RanksFall, SpreadNames, Inlined, Fits, SameInlining, FragmentsFit, AllDirect, SpreadGraph;
    var open, i := pass.remaining + ([e] + rest), |pass.remaining|;
    assert open[i] == e;
    OpenAt(schema, originals, pass.fragments, open, i);
    StepWaits(schema, originals, pass.fragments, rank, e);
    var r := Resolve(schema, e.1.cond, e.1.selections.selections, pass.fragments).value;
    var def := Rewritten(e, r);
    if r.left {
      rank' := rank;
      StepWaiting(schema, originals, pass.fragments, open, i, (e.0, def));
      assert open[i := (e.0, def)] == pass.remaining + [(e.0, def)] + rest;
    } else {
      rank' := rank[e.0 := |rank|];
      StepSettles(schema, originals, pass.fragments, rank, e.0, def);
      StepLeaves(schema, originals, pass.fragments, open, i, def);
      assert open[..i] + open[i + 1..] == pass.remaining + rest;
    }
  }

  lemma {:induction false} PassState(schema: Schema, originals: FragmentMap, todo: seq<Entry>, pass: Pass, rank: map<string, nat>)
    returns (rank': map<string, nat>)
    requires State(schema, originals, pass.fragments, rank, pass.remaining + todo)
    ensures RunPass(schema, todo, pass).Done?
    ensures var next := RunPass(schema, todo, pass).value;
      && State(schema, originals, next.fragments, rank', next.remaining)
      && (next.resolved == pass.resolved && Stale(pass.remaining, pass.fragments) ==>
            next.fragments == pass.fragments && Stale(next.remaining, next.fragments))
      && next.resolved >= pass.resolved
    decreases |todo|
  {
    if todo == [] {
      assert pass.remaining + todo == pass.remaining;
      rank' := rank;
    } else {
      assert todo == [todo[0]] + todo[1..];
      var mid := StepState(schema, originals, todo[0], todo[1..], pass, rank);
      if Step(schema, todo[0], pass).value.resolved == pass.resolved && Stale(pass.remaining, pass.fragments) {
        StepStale(schema, todo[0], pass);
      }
      rank' := PassState(schema, originals, todo[1..], Step(schema, todo[0], pass).value, mid);
    }
  }

  // ----- the fixpoint -----

  /** If nothing moves, some waiting definition leads into a cycle or to an undefined name. */
  lemma {:induction false} StuckIsUnresolvable(schema: Schema, originals: FragmentMap, fragments: FragmentMap, open: seq<Entry>)
    requires OpenEntries(schema, originals, fragments, open) && Stale(open, fragments) && open != []
    ensures exists n :: n in originals && Unresolvable(SpreadGraph(originals), n)
  {
    hide SpreadNames, ReachesCycle, Reaches;
    var g := SpreadGraph(originals);
    var stuck := originals.Keys - fragments.Keys;
    if exists m, x :: m in stuck && x in g[m] && x !in g {
      var m, x :| m in stuck && x in g[m] && x !in g;
      ReachesSelf(g, m);
      ReachesStep(g, m, m, x);
      assert Unresolvable(g, m);
    } else {
      forall m | m in stuck ensures g[m] * stuck != {} {
        var i :| 0 <= i < |open| && open[i].0 == m;
        var x :| x in SpreadNames(open[i].1.selections.selections);
        assert Waits(schema, originals, fragments, open[i]);
        assert x !in SpreadNames(open[i].1.selections.selections) * fragments.Keys;
        assert x in g[m] && x !in fragments;
        assert x in g;
        assert x in g[m] * stuck;
      }
      assert Waits(schema, originals, fragments, open[0]);
      StuckReachesCycle(g, stuck, open[0].0);
      assert Unresolvable(g, open[0].0);
    }
  }

  lemma SettledIsResolvable(schema: Schema, originals: FragmentMap, fragments: FragmentMap, rank: map<string, nat>, n: string)
    requires State(schema, originals, fragments, rank, []) && n in originals
    ensures n in fragments && !Unresolvable(SpreadGraph(originals), n)
  {
    var g := SpreadGraph(originals);
    assert n in fragments by { assert n !in fragments ==> HasEntry([], n); }
    RankedNoCycle(g, rank, n);
    forall m | Reaches(g, n, m) ensures m in g {
      var path :| |path| >= 1 && IsPath(g, path) && path[0] == n && path[|path| - 1] == m;
      RanksFallAlong(g, rank, path, 0, |path| - 1);
    }
  }

  lemma {:induction false} SettleOutcome(schema: Schema, originals: FragmentMap, todo: seq<Entry>, fragments: FragmentMap, rank: map<string, nat>)
    requires State(schema, originals, fragments, rank, todo)
    ensures var outcome := Settle(schema, todo, fragments);
      match outcome
      case Done(settled) => exists final :: State(schema, originals, settled, final, [])
      case Failed(e) => e == FragmentResolverFailed && exists n :: n in originals && Unresolvable(SpreadGraph(originals), n)
      case Panicked => false
    decreases TotalSpreads(todo)
  {
    var start := Pass(fragments, 0, []);
    assert [] + todo == todo;
    var rank' := PassState(schema, originals, todo, start, rank);
    PassCounts(schema, todo, start);
    var pass := RunPass(schema, todo, start).value;
    if pass.remaining != [] {
      if pass.resolved == 0 {
        StuckIsUnresolvable(schema, originals, pass.fragments, pass.remaining);
      } else {
        SettleOutcome(schema, originals, pass.remaining, pass.fragments, rank');
      }
    }
  }

  // ----- the whole document -----

  lemma {:induction false} DefinitionAt(defs: seq<Entry>, i: nat)
    requires UniqueNames(defs) && i < |defs|
    ensures defs[i].0 in Definitions(defs) && Definitions(defs)[defs[i].0] == defs[i].1
  {
    var init := defs[..|defs| - 1];
    if i < |init| {
      DefinitionAt(init, i);
      assert init[i] == defs[i];
    }
  }

  lemma {:induction false} DefinedSomewhere(defs: seq<Entry>, n: string) returns (i: nat)
    requires n in Definitions(defs)
    ensures i < |defs| && defs[i].0 == n
  {
    if defs[|defs| - 1].0 == n {
      i := |defs| - 1;
    } else {
      i := DefinedSomewhere(defs[..|defs| - 1], n);
    }
  }

  lemma {:induction false} ReadyAndWaiting(defs: seq<Entry>)
    requires UniqueNames(defs)
    ensures forall n :: n in Ready(defs) <==> n in Definitions(defs) && !Definitions(defs)[n].selections.hasFragments
    ensures forall n :: n in Ready(defs) ==> Ready(defs)[n] == Definitions(defs)[n]
    ensures UniqueNames(Waiting(defs))
    ensures forall i :: 0 <= i < |Waiting(defs)| ==>
      var e := Waiting(defs)[i]; e.0 in Definitions(defs) && Definitions(defs)[e.0] == e.1 && e.1.selections.hasFragments
    ensures forall n :: n in Definitions(defs) && Definitions(defs)[n].selections.hasFragments ==> HasEntry(Waiting(defs), n)
  {
    if defs != [] {
      var init, e := defs[..|defs| - 1], defs[|defs| - 1];
      ReadyAndWaiting(init);
      assert e.0 !in Definitions(init) by {
        if e.0 in Definitions(init) {
          var i := DefinedSomewhere(init, e.0);
        }
      }
      forall n | n in Definitions(defs) && Definitions(defs)[n].selections.hasFragments ensures HasEntry(Waiting(defs), n) {
        if n == e.0 {
          assert Waiting(defs)[|Waiting(init)|].0 == n;
        } else {
          var i :| 0 <= i < |Waiting(init)| && Waiting(init)[i].0 == n;
          assert Waiting(defs)[i].0 == n;
        }
      }
    }
  }

  /** Fields exist under their types, and spreads of defined fragments match those fragments' type conditions. */
  ghost predicate WellFormed(schema: Schema, defs: seq<Entry>) {
    && UniqueNames(defs)
    && (forall e :: e in defs ==> Flagged(e))
    && (forall n :: n in Definitions(defs) ==>
          Fits(schema, Definitions(defs)[n].cond, Definitions(defs)[n].selections.selections, Conds(Definitions(defs))))
  }

  /** The flag of a definition tells whether it spreads anything directly. */
  lemma FlagTells(defs: seq<Entry>, n: string)
    requires UniqueNames(defs) && (forall e :: e in defs ==> Flagged(e)) && n in Definitions(defs)
    ensures var def := Definitions(defs)[n];
      && (def.selections.hasFragments <==> SpreadNames(def.selections.selections) != {})
      && (def.selections.hasFragments <==> DirectSpreads(def.selections.selections) > 0)
  {
    var i := DefinedSomewhere(defs, n);
    DefinitionAt(defs, i);
    assert Flagged(defs[i]);
    NoSpreadNames(Definitions(defs)[n].selections.selections);
  }

  lemma {:induction false} InitialOpen(schema: Schema, defs: seq<Entry>)
    requires WellFormed(schema, defs)
    ensures OpenEntries(schema, Definitions(defs), Ready(defs), Waiting(defs))
  {
    hide Fits, SpreadsDirect, SpreadNames, Inline, Flagged;
    ReadyAndWaiting(defs);
    forall i | 0 <= i < |Waiting(defs)|
      ensures Waiting(defs)[i].0 !in Ready(defs) && Waits(schema, Definitions(defs), Ready(defs), Waiting(defs)[i])
    {
      FlagTells(defs, Waiting(defs)[i].0);
    }
  }

  lemma {:induction false} InitialState(schema: Schema, defs: seq<Entry>) returns (rank: map<string, nat>)
    requires WellFormed(schema, defs)
    ensures State(schema, Definitions(defs), Ready(defs), rank, Waiting(defs))
  {
    hide Fits, SpreadsDirect, SpreadNames, OpenEntries, Inline, Flagged, Definitions, Ready, Waiting, DirectSpreads;
    var originals, fragments := Definitions(defs), Ready(defs);
    InitialOpen(schema, defs);
    ReadyAndWaiting(defs);
    rank := map n | n in fragments :: 0;
    forall n | n in fragments
      ensures DirectSpreads(fragments[n].selections.selections) == 0 && SpreadGraph(originals)[n] == {}
      ensures fragments[n].selections.selections == Inline(originals[n].selections.selections, fragments)
    {
      FlagTells(defs, n);
      InlineNothing(fragments[n].selections.selections, fragments);
    }
    assert forall n :: n in rank ==> 0 < |rank|;
  }

  /** Resolution succeeds exactly when no definition leads, along direct spreads, into a cycle or to an undefined
      name, in whatever order the definitions come; it never panics and fails in no other way. */
  lemma ProcessSucceedsIff(schema: Schema, defs: seq<Entry>)
    requires WellFormed(schema, defs)
    ensures Process(schema, defs).Done? <==> forall n :: n in Definitions(defs) ==> !Unresolvable(SpreadGraph(Definitions(defs)), n)
    ensures !Process(schema, defs).Done? ==> Process(schema, defs) == Failed(FragmentResolverFailed)
  {
    var originals := Definitions(defs);
    var rank := InitialState(schema, defs);
    ReadyIsClean(defs);
    SettleOutcome(schema, originals, Waiting(defs), Ready(defs), rank);
    var outcome := Process(schema, defs);
    if outcome.Done? {
      var final :| State(schema, originals, outcome.value, final, []);
      forall n | n in originals ensures !Unresolvable(SpreadGraph(originals), n) {
        SettledIsResolvable(schema, originals, outcome.value, final, n);
      }
    }
  }

  // ----- the result is the recursive expansion -----

  /** Recursive in-place expansion in source order, at every depth, following at most `depth` nested spreads. */
  function Expand(definitions: FragmentMap, list: seq<Selection>, depth: nat): seq<Selection>
    decreases depth, list
  {
    if list == [] then []
    else
      (match list[0]
       case Fragment(name) =>
         if name in definitions && depth > 0 then Expand(definitions, definitions[name].selections.selections, depth - 1) else [list[0]]
       case Field(name, params, sub, alias) =>
         var sub' := Expand(definitions, sub.selections, depth);
         [Field(name, params, Selections(sub.fieldType, DirectSpreads(sub') > 0, sub'), alias)])
      + Expand(definitions, list[1..], depth)
  }

  lemma {:induction false} ExpandSpreadFree(definitions: FragmentMap, list: seq<Selection>, depth: nat)
    requires SpreadFree(list)
    ensures Expand(definitions, list, depth) == list && DirectSpreads(list) == 0
    decreases list
  {
    if list != [] {
      ExpandSpreadFree(definitions, list[0].sub.selections, depth);
      ExpandSpreadFree(definitions, list[1..], depth);
      assert [list[0]] + list[1..] == list;
    }
  }

  predicate RanksBelow(rank: map<string, nat>, names: set<string>, depth: nat) {
    forall n :: n in names && n in rank ==> rank[n] < depth
  }

  /** With enough depth for the ranks of its spreads, a list expands to its inlining from the settled map. */
  lemma {:induction false} ExpandIsInline(originals: FragmentMap, fragments: FragmentMap, rank: map<string, nat>, list: seq<Selection>, depth: nat)
    requires AllDirect(originals) && Inlined(originals, fragments)
    requires fragments.Keys == rank.Keys == originals.Keys && RanksFall(SpreadGraph(originals), rank)
    requires SpreadsDirect(list) && RanksBelow(rank, SpreadNames(list), depth)
    ensures Expand(originals, list, depth) == Inline(list, fragments)
    decreases depth, list
  {
    if list != [] {
      var head := list[0];
      NamesOfCons(list, rank, depth);
      DirectCons(list);
      hide *;
      ExpandIsInline(originals, fragments, rank, list[1..], depth);
      if head.Field? {
        ExpandSpreadFree(originals, head.sub.selections, depth);
      } else if head.name in originals {
        BodyRanks(originals, rank, head.name, depth);
        ExpandIsInline(originals, fragments, rank, originals[head.name].selections.selections, depth - 1);
        InlinedAt(originals, fragments, head.name);
      }
      ExpandInlineCons(originals, fragments, list, depth);
    }
  }

  lemma ExpandInlineCons(originals: FragmentMap, fragments: FragmentMap, list: seq<Selection>, depth: nat)
    requires list != [] && fragments.Keys == originals.Keys
    requires Expand(originals, list[1..], depth) == Inline(list[1..], fragments)
    requires list[0].Field? ==>
      && Expand(originals, list[0].sub.selections, depth) == list[0].sub.selections
      && DirectSpreads(list[0].sub.selections) == 0 && !list[0].sub.hasFragments
    requires list[0].Fragment? && list[0].name in originals ==>
      && depth > 0
      && fragments[list[0].name].selections.selections
         == Expand(originals, originals[list[0].name].selections.selections, depth - 1)
    ensures Expand(originals, list, depth) == Inline(list, fragments)
  {
    ExpandCons(originals, list, depth);
    InlineCons(list, fragments);
  }

  lemma ExpandCons(originals: FragmentMap, list: seq<Selection>, depth: nat)
    requires list != []
    ensures var head := list[0];
      && (head.Field? && Expand(originals, head.sub.selections, depth) == head.sub.selections
          && DirectSpreads(head.sub.selections) == 0 && !head.sub.hasFragments ==>
            Expand(originals, list, depth) == [head] + Expand(originals, list[1..], depth))
      && (head.Fragment? && head.name in originals && depth > 0 ==>
            Expand(originals, list, depth) ==
              Expand(originals, originals[head.name].selections.selections, depth - 1) + Expand(originals, list[1..], depth))
      && (head.Fragment? && head.name !in originals ==>
            Expand(originals, list, depth) == [head] + Expand(originals, list[1..], depth))
  {
  }

  lemma InlineCons(list: seq<Selection>, fragments: FragmentMap)
    requires list != []
    ensures Inline(list, fragments) ==
      (if list[0].Fragment? && list[0].name in fragments then fragments[list[0].name].selections.selections else [list[0]])
      + Inline(list[1..], fragments)
  {
  }

  lemma DirectCons(list: seq<Selection>)
    requires SpreadsDirect(list) && list != []
    ensures SpreadsDirect(list[1..])
    ensures list[0].Field? ==> SpreadFree(list[0].sub.selections) && !list[0].sub.hasFragments
  {
  }

  lemma NamesOfCons(list: seq<Selection>, rank: map<string, nat>, depth: nat)
    requires list != [] && RanksBelow(rank, SpreadNames(list), depth)
    ensures RanksBelow(rank, SpreadNames(list[1..]), depth)
    ensures list[0].Fragment? && list[0].name in rank ==> rank[list[0].name] < depth
  {
    assert list == [list[0]] + list[1..];
    SpreadNamesAppend([list[0]], list[1..]);
    assert list[0].Fragment? ==> list[0].name in SpreadNames(list);
  }

  lemma BodyRanks(originals: FragmentMap, rank: map<string, nat>, name: string, depth: nat)
    requires AllDirect(originals) && name in originals && name in rank && RanksFall(SpreadGraph(originals), rank)
    requires rank[name] < depth
    ensures SpreadsDirect(originals[name].selections.selections)
    ensures RanksBelow(rank, SpreadNames(originals[name].selections.selections), depth - 1)
  {
    forall n | n in SpreadNames(originals[name].selections.selections) && n in rank ensures rank[n] < depth - 1 {
      assert n in SpreadGraph(originals)[name];
    }
  }

  lemma InlinedAt(originals: FragmentMap, fragments: FragmentMap, name: string)
    requires Inlined(originals, fragments) && name in originals && name in fragments
    ensures fragments[name].selections.selections == Inline(originals[name].selections.selections, fragments)
  {
  }

  /** When spreads inside fragments are direct, every settled definition is the recursive expansion of its
      source, and spreads nothing any more. */
  lemma {:induction false} ProcessExpands(schema: Schema, defs: seq<Entry>, n: string, depth: nat)
    requires WellFormed(schema, defs) && AllDirect(Definitions(defs)) && Process(schema, defs).Done?
    requires n in Definitions(defs) && depth >= |Definitions(defs)|
    ensures var fragments, originals := Process(schema, defs).value, Definitions(defs);
      && fragments.Keys == originals.Keys && fragments[n].cond == originals[n].cond
      && fragments[n].selections.selections == Expand(originals, originals[n].selections.selections, depth)
      && SpreadFree(fragments[n].selections.selections)
  {
    hide Settle, Definitions, Ready, Waiting, Expand, Inline, SpreadsDirect, SpreadFree, Fits;
    var originals, fragments := Definitions(defs), Process(schema, defs).value;
    var final := SettledState(schema, defs);
    assert |final| == |final.Keys| && |originals| == |originals.Keys|;
    ExpandIsInline(originals, fragments, final, originals[n].selections.selections, depth);
    DirectAndCleanIsFree(fragments[n].selections.selections);
  }

  lemma {:induction false} SettledState(schema: Schema, defs: seq<Entry>) returns (final: map<string, nat>)
    requires WellFormed(schema, defs) && Process(schema, defs).Done?
    ensures Settled(schema, Definitions(defs), Process(schema, defs).value, final)
    ensures Process(schema, defs).value.Keys == Definitions(defs).Keys == final.Keys
  {
    var originals, fragments := Definitions(defs), Process(schema, defs).value;
    var rank := InitialState(schema, defs);
    ReadyIsClean(defs);
    SettleOutcome(schema, originals, Waiting(defs), Ready(defs), rank);
    final :| State(schema, originals, fragments, final, []);
    forall m | m in originals ensures m in fragments {
      SettledIsResolvable(schema, originals, fragments, final, m);
    }
  }

  lemma {:induction false} DirectAndCleanIsFree(list: seq<Selection>)
    requires SpreadsDirect(list) && DirectSpreads(list) == 0
    ensures SpreadFree(list)
  {
    if list != [] {
      DirectAndCleanIsFree(list[1..]);
    }
  }

  /** Spreads below fields are not tracked: when no definition spreads directly, every one is settled as it
      stands, with whatever spreads its fields hold. */
  lemma {:induction false} NestedSpreadsStay(schema: Schema, defs: seq<Entry>)
    requires forall e :: e in defs ==> Flagged(e) && !e.1.selections.hasFragments
    ensures Process(schema, defs) == Done(Definitions(defs))
  {
    NothingWaits(defs);
    ReadyIsClean(defs);
  }

  lemma {:induction false} NothingWaits(defs: seq<Entry>)
    requires forall e :: e in defs ==> !e.1.selections.hasFragments
    ensures Waiting(defs) == [] && Ready(defs) == Definitions(defs)
  {
    if defs != [] {
      NothingWaits(defs[..|defs| - 1]);
      assert defs[|defs| - 1] in defs;
    }
  }

  // ----- operations -----

  /** No spread of a defined fragment anywhere in the list. */
  predicate Expanded(definitions: FragmentMap, list: seq<Selection>)
    decreases list
  {
    list == [] ||
    ((match list[0]
      case Fragment(name) => name !in definitions
      case Field(_, _, sub, _) => Expanded(definitions, sub.selections))
     && Expanded(definitions, list[1..]))
  }

  lemma {:induction false} FreeIsExpanded(definitions: FragmentMap, list: seq<Selection>)
    requires SpreadFree(list)
    ensures Expanded(definitions, list)
    decreases list
  {
    if list != [] {
      FreeIsExpanded(definitions, list[0].sub.selections);
      FreeIsExpanded(definitions, list[1..]);
    }
  }

  lemma {:induction false} ExpandedAppend(definitions: FragmentMap, a: seq<Selection>, b: seq<Selection>)
    requires Expanded(definitions, a) && Expanded(definitions, b)
    ensures Expanded(definitions, a + b)
  {
    if a == [] {
      assert a + b == b;
    } else {
      ExpandedAppend(definitions, a[1..], b);
      assert (a + b)[1..] == a[1..] + b;
    }
  }

  /** The settled map agrees with the recursive expansion of every definition. */
  ghost predicate Expands(originals: FragmentMap, fragments: FragmentMap, depth: nat) {
    && fragments.Keys == originals.Keys
    && forall n :: n in originals ==>
         && fragments[n].cond == originals[n].cond
         && fragments[n].selections.selections == Expand(originals, originals[n].selections.selections, depth)
         && SpreadFree(fragments[n].selections.selections)
  }

  /** Resolving a query's selections expands them recursively, in place and in order, at every depth of the tree. */
  lemma {:induction false} ResolveExpands(schema: Schema, cond: string, list: seq<Selection>, originals: FragmentMap, fragments: FragmentMap, depth: nat)
    requires Expands(originals, fragments, depth) && Fits(schema, cond, list, Conds(originals))
    ensures Resolve(schema, cond, list, fragments).Done?
    ensures Resolve(schema, cond, list, fragments).value.list == Expand(originals, list, depth + 1)
    ensures Resolve(schema, cond, list, fragments).value.left <==> DirectSpreads(Expand(originals, list, depth + 1)) > 0
    ensures Expanded(originals, Expand(originals, list, depth + 1))
    decreases list
  {
    if list != [] {
      ResolveExpands(schema, cond, list[1..], originals, fragments, depth);
      match list[0] {
        case Fragment(name) =>
          if name in originals {
            ExpandSpreadFree(originals, fragments[name].selections.selections, depth);
            FreeIsExpanded(originals, fragments[name].selections.selections);
          }
        case Field(name, _, sub, _) =>
          ResolveExpands(schema, schema.FieldType(cond, name).value, sub.selections, originals, fragments, depth);
      }
      var head := ResolveOne(schema, cond, list[0], fragments).value;
      var tail := Expand(originals, list[1..], depth + 1);
      hide Expanded, Expands, Fits, SpreadFree;
      assert |head.list| == 1 ==> head.list[1..] == [];
      DirectSpreadsAppend(head.list, tail);
      ExpandedAppend(originals, head.list, tail);
    }
  }

  /** Inlining preserves meaning: after processing the document's fragments, a query's selections are their
      recursive in-place expansion, hold no spread of a defined fragment, and no field lookup failed. */
  lemma {:induction false} QueryExpands(schema: Schema, defs: seq<Entry>, query: string, list: seq<Selection>, depth: nat)
    requires WellFormed(schema, defs) && AllDirect(Definitions(defs)) && Process(schema, defs).Done?
    requires Fits(schema, query, list, Conds(Definitions(defs))) && depth >= |Definitions(defs)|
    ensures var outcome := Resolve(schema, query, list, Process(schema, defs).value);
      && outcome.Done?
      && outcome.value.list == Expand(Definitions(defs), list, depth + 1)
      && Expanded(Definitions(defs), outcome.value.list)
  {
    var fragments := Process(schema, defs).value;
    hide Process, Expand, Fits, SpreadsDirect, SpreadFree, Definitions;
    var final := SettledState(schema, defs);
    forall n | n in Definitions(defs)
      ensures fragments[n].selections.selections == Expand(Definitions(defs), Definitions(defs)[n].selections.selections, depth)
      ensures fragments[n].cond == Definitions(defs)[n].cond && SpreadFree(fragments[n].selections.selections)
    {
      ProcessExpands(schema, defs, n, depth);
    }
    ResolveExpands(schema, query, list, Definitions(defs), fragments, depth);
  }
}
