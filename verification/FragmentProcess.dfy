/** The fixpoint over all fragment definitions of a document. */
module FragmentProcess {
  import opened Graphql
  import opened Schemas
  import opened Fragments

  /** A fragment's name and what is left of its definition. */
  type Entry = (string, FragmentDef)

  /** As Selections::new builds a definition: the flag says whether the set spreads a fragment directly. */
  predicate Flagged(e: Entry) {
    e.1.selections.hasFragments <==> DirectSpreads(e.1.selections.selections) > 0
  }

  function TotalSpreads(entries: seq<Entry>): nat {
    if entries == [] then 0 else DirectSpreads(entries[0].1.selections.selections) + TotalSpreads(entries[1..])
  }

  // ----- the passes -----

  datatype Pass = Pass(fragments: FragmentMap, resolved: nat, remaining: seq<Entry>)

  function Step(schema: Schema, e: Entry, pass: Pass): Outcome<Pass> {
    match Resolve(schema, e.1.cond, e.1.selections.selections, pass.fragments)
    case Failed(error) => Failed(error)
    case Panicked => Panicked
    case Done(r) =>
      var def := FragmentDef(e.1.cond, Selections(e.1.selections.fieldType, r.left, r.list));
      Done(if r.left
           then Pass(pass.fragments, pass.resolved + r.resolved, pass.remaining + [(e.0, def)])
           else Pass(pass.fragments[e.0 := def], pass.resolved + r.resolved, pass.remaining))
  }

  function RunPass(schema: Schema, todo: seq<Entry>, pass: Pass): Outcome<Pass>
    decreases |todo|
  {
    if todo == [] then Done(pass)
    else match Step(schema, todo[0], pass)
      case Done(next) => RunPass(schema, todo[1..], next)
      case Failed(error) => Failed(error)
      case Panicked => Panicked
  }

  lemma {:induction false} TotalSpreadsAppend(a: seq<Entry>, e: Entry)
    ensures TotalSpreads(a + [e]) == TotalSpreads(a) + DirectSpreads(e.1.selections.selections)
  {
    if a == [] {
      assert a + [e] == [e] && [e][1..] == [];
    } else {
      TotalSpreadsAppend(a[1..], e);
      assert (a + [e])[1..] == a[1..] + [e];
    }
  }

  lemma StepCounts(schema: Schema, e: Entry, pass: Pass)
    requires Clean(pass.fragments) && Step(schema, e, pass).Done?
    ensures var next := Step(schema, e, pass).value;
      && Clean(next.fragments)
      && TotalSpreads(next.remaining) + next.resolved
         == TotalSpreads(pass.remaining) + pass.resolved + DirectSpreads(e.1.selections.selections)
      && (forall r :: r in next.remaining ==> r in pass.remaining || Flagged(r))
  {
    ResolveCounts(schema, e.1.cond, e.1.selections.selections, pass.fragments);
    var r := Resolve(schema, e.1.cond, e.1.selections.selections, pass.fragments).value;
    var def := FragmentDef(e.1.cond, Selections(e.1.selections.fieldType, r.left, r.list));
    TotalSpreadsAppend(pass.remaining, (e.0, def));
  }

  /** A pass trades direct spreads for resolutions, one for one. */
  lemma {:induction false} PassCounts(schema: Schema, todo: seq<Entry>, pass: Pass)
    requires Clean(pass.fragments) && RunPass(schema, todo, pass).Done?
    requires forall r :: r in pass.remaining ==> Flagged(r)
    ensures var next := RunPass(schema, todo, pass).value;
      && Clean(next.fragments)
      && TotalSpreads(next.remaining) + next.resolved == TotalSpreads(pass.remaining) + pass.resolved + TotalSpreads(todo)
      && (forall r :: r in next.remaining ==> Flagged(r))
    decreases |todo|
  {
    if todo != [] {
      StepCounts(schema, todo[0], pass);
      PassCounts(schema, todo[1..], Step(schema, todo[0], pass).value);
    }
  }

  /** Passes repeat while they resolve something: the direct spreads left over fall every time. */
  function Settle(schema: Schema, todo: seq<Entry>, fragments: FragmentMap): Outcome<FragmentMap>
    requires Clean(fragments)
    decreases TotalSpreads(todo)
  {
    match RunPass(schema, todo, Pass(fragments, 0, []))
    case Failed(error) => Failed(error)
    case Panicked => Panicked
    case Done(pass) =>
      PassCounts(schema, todo, Pass(fragments, 0, []));
      if pass.remaining != [] && pass.resolved == 0 then Failed(FragmentResolverFailed)
      else if pass.remaining == [] then Done(pass.fragments)
      else Settle(schema, pass.remaining, pass.fragments)
  }

  // ----- the document -----

  function Ready(defs: seq<Entry>): FragmentMap {
    if defs == [] then map[]
    else
      var (name, def) := defs[|defs| - 1];
      var before := Ready(defs[..|defs| - 1]);
      if def.selections.hasFragments then before else before[name := def]
  }

  function Waiting(defs: seq<Entry>): seq<Entry> {
    if defs == [] then []
    else
      var e := defs[|defs| - 1];
      Waiting(defs[..|defs| - 1]) + if e.1.selections.hasFragments then [e] else []
  }

  lemma {:induction false} ReadyIsClean(defs: seq<Entry>)
    requires forall e :: e in defs ==> Flagged(e)
    ensures Clean(Ready(defs)) && forall e :: e in Waiting(defs) ==> e in defs
  {
    if defs != [] {
      ReadyIsClean(defs[..|defs| - 1]);
      assert defs[|defs| - 1] in defs;
    }
  }

  function Process(schema: Schema, defs: seq<Entry>): Outcome<FragmentMap>
    requires forall e :: e in defs ==> Flagged(e)
  {
    ReadyIsClean(defs);
    Settle(schema, Waiting(defs), Ready(defs))
  }

  /** The passes over the waiting definitions, until none waits or nothing moves. */
  method SettleFragments(schema: Schema, waiting: seq<Entry>, ready: FragmentMap) returns (result: Outcome<FragmentMap>)
    requires Clean(ready)
    ensures result == Settle(schema, waiting, ready)
  {
    var fragments, toResolve := ready, waiting;
    while true
      invariant Clean(fragments)
      invariant Settle(schema, waiting, ready) == Settle(schema, toResolve, fragments)
      decreases TotalSpreads(toResolve)
    {
      ghost var start := Pass(fragments, 0, []);
      var resolved: nat, remaining: seq<Entry> := 0, [];
      for i := 0 to |toResolve|
        invariant RunPass(schema, toResolve, start) == RunPass(schema, toResolve[i..], Pass(fragments, resolved, remaining))
      {
        assert toResolve[i..][1..] == toResolve[i + 1..];
        var (name, frag) := toResolve[i];
        var outcome := ResolveFragments(schema, frag.cond, frag.selections, fragments);
        match outcome {
          case Failed(error) => return Failed(error);
          case Panicked => return Panicked;
          case Done((selections, n)) =>
            resolved := resolved + n;
            if selections.hasFragments {
              remaining := remaining + [(name, FragmentDef(frag.cond, selections))];
            } else {
              fragments := fragments[name := FragmentDef(frag.cond, selections)];
            }
        }
      }
      assert toResolve[|toResolve|..] == [];
      PassCounts(schema, toResolve, start);
      if remaining != [] && resolved == 0 {
        return Failed(FragmentResolverFailed);
      } else if remaining == [] {
        return Done(fragments);
      }
      toResolve := remaining;
    }
  }
}
