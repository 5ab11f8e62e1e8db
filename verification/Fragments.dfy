/** Fragment definitions are inlined into one another until none of them spreads another directly. */
module Fragments {
  import opened Graphql
  import opened Schemas
  import FilterParsing

  datatype FragmentDef = FragmentDef(cond: string, selections: Selections)

  type FragmentMap = map<string, FragmentDef>

  datatype GraphqlError =
    | UnrecognizedType(name: string)
    | UnrecognizedField(entity: string, name: string)
    | ArgumentProblem(problem: FilterParsing.FilterError)
    | SelectionNotSupported
    | OperationNotSupported(kind: string)
    | InvalidFragmentSelection(fragment: FragmentDef, cond: string)
    | FragmentResolverFailed

  /** A run ends normally, with an error, or in the panic of a failed `expect`. */
  datatype Outcome<+T> = Done(value: T) | Failed(error: GraphqlError) | Panicked

  /** The rewritten list, how many direct spreads were replaced, and whether one is left. */
  datatype Resolution = Resolution(list: seq<Selection>, resolved: nat, left: bool)

  // ----- one resolving pass over a selection set -----

  function Resolve(schema: Schema, cond: string, list: seq<Selection>, fragments: FragmentMap): Outcome<Resolution>
    decreases list
  {
    if list == [] then Done(Resolution([], 0, false))
    else
      match ResolveOne(schema, cond, list[0], fragments)
      case Failed(e) => Failed(e)
      case Panicked => Panicked
      case Done(head) => Prepend(head, Resolve(schema, cond, list[1..], fragments))
  }

  function Append(a: Resolution, b: Resolution): Resolution {
    Resolution(a.list + b.list, a.resolved + b.resolved, a.left || b.left)
  }

  function Prepend(done: Resolution, rest: Outcome<Resolution>): Outcome<Resolution> {
    match rest
    case Done(r) => Done(Append(done, r))
    case _ => rest
  }

  lemma PrependTwice(a: Resolution, b: Resolution, rest: Outcome<Resolution>)
    ensures Prepend(a, Prepend(b, rest)) == Prepend(Append(a, b), rest)
  {
    if rest.Done? {
      assert a.list + (b.list + rest.value.list) == a.list + b.list + rest.value.list;
    }
  }

  lemma PrependNothing(rest: Outcome<Resolution>)
    ensures Prepend(Resolution([], 0, false), rest) == rest
  {
    if rest.Done? {
      assert [] + rest.value.list == rest.value.list;
    }
  }

  function ResolveOne(schema: Schema, cond: string, s: Selection, fragments: FragmentMap): Outcome<Resolution>
    decreases s
  {
    match s
    case Fragment(name) =>
      if name !in fragments then Done(Resolution([s], 0, true))
      else if fragments[name].cond != cond then Failed(InvalidFragmentSelection(fragments[name], cond))
      else Done(Resolution(fragments[name].selections.selections, 1, false))
    case Field(name, params, sub, alias) =>
      match schema.FieldType(cond, name)
      case None => Panicked
      case Some(fieldType) =>
        match Resolve(schema, fieldType, sub.selections, fragments)
        case Failed(e) => Failed(e)
        case Panicked => Panicked
        case Done(r) => Done(Resolution([Field(name, params, Selections(sub.fieldType, r.left, r.list), alias)], 0, false))
  }

  method ResolveFragments(schema: Schema, cond: string, selections: Selections, fragments: FragmentMap)
    returns (result: Outcome<(Selections, nat)>)
    ensures result == match Resolve(schema, cond, selections.selections, fragments)
      case Failed(e) => Failed(e)
      case Panicked => Panicked
      case Done(r) => Done((Selections(selections.fieldType, r.left, r.list), r.resolved))
    decreases selections
  {
    var list := selections.selections;
    var done := Resolution([], 0, false);
    PrependNothing(Resolve(schema, cond, list, fragments));
    assert list[0..] == list;
    for i := 0 to |list|
      invariant Resolve(schema, cond, list, fragments) == Prepend(done, Resolve(schema, cond, list[i..], fragments))
    {
      assert list[i..][1..] == list[i + 1..];
      ghost var before, head := done, ResolveOne(schema, cond, list[i], fragments);
      match list[i] {
        case Fragment(name) =>
          if name in fragments {
            if fragments[name].cond != cond {
              return Failed(InvalidFragmentSelection(fragments[name], cond));
            }
            done := Resolution(done.list + fragments[name].selections.selections, done.resolved + 1, done.left);
          } else {
            done := Resolution(done.list + [list[i]], done.resolved, true);
          }
        case Field(name, params, sub, alias) =>
          match schema.FieldType(cond, name) {
            case None =>
              return Panicked;
            case Some(fieldType) =>
              var inner := ResolveFragments(schema, fieldType, sub, fragments);
              match inner {
                case Failed(e) => return Failed(e);
                case Panicked => return Panicked;
                case Done((sub', _)) =>
                  done := Resolution(done.list + [Field(name, params, sub', alias)], done.resolved, done.left);
              }
          }
      }
      PrependTwice(before, head.value, Resolve(schema, cond, list[i + 1..], fragments));
      assert done == Append(before, head.value);
    }
    assert list[|list|..] == [] && done.list + [] == done.list;
    return Done((Selections(selections.fieldType, done.left, done.list), done.resolved));
  }

  // ----- direct spreads -----

  /** The number of direct spreads in a list. */
  function DirectSpreads(list: seq<Selection>): nat {
    if list == [] then 0 else (if list[0].Fragment? then 1 else 0) + DirectSpreads(list[1..])
  }

  function SpreadNames(list: seq<Selection>): set<string> {
    set s | s in list && s.Fragment? :: s.name
  }

  /** Fragments enter the map only once they spread nothing directly. */
  ghost predicate Clean(fragments: FragmentMap) {
    forall n :: n in fragments ==> DirectSpreads(fragments[n].selections.selections) == 0
  }

  lemma {:induction false} DirectSpreadsAppend(a: seq<Selection>, b: seq<Selection>)
    ensures DirectSpreads(a + b) == DirectSpreads(a) + DirectSpreads(b)
  {
    if a == [] {
      assert a + b == b;
    } else {
      DirectSpreadsAppend(a[1..], b);
      assert (a + b)[1..] == a[1..] + b;
    }
  }

  lemma {:induction false} NoSpreadNames(list: seq<Selection>)
    ensures DirectSpreads(list) == 0 <==> SpreadNames(list) == {}
  {
    if list != [] {
      NoSpreadNames(list[1..]);
      assert list == [list[0]] + list[1..];
      if list[0].Fragment? {
        assert list[0].name in SpreadNames(list);
      } else {
        assert SpreadNames(list) == SpreadNames(list[1..]);
      }
    }
  }

  /** A pass replaces each counted spread by selections without direct spreads. */
  lemma {:induction false} ResolveCounts(schema: Schema, cond: string, list: seq<Selection>, fragments: FragmentMap)
    requires Clean(fragments) && Resolve(schema, cond, list, fragments).Done?
    ensures var r := Resolve(schema, cond, list, fragments).value;
      && DirectSpreads(r.list) + r.resolved == DirectSpreads(list)
      && (r.left <==> DirectSpreads(r.list) > 0)
  {
    if list != [] {
      var head := ResolveOne(schema, cond, list[0], fragments).value;
      var tail := Resolve(schema, cond, list[1..], fragments).value;
      ResolveCounts(schema, cond, list[1..], fragments);
      DirectSpreadsAppend(head.list, tail.list);
      if list[0].Field? || list[0].name !in fragments {
        assert head.list[1..] == [];
      }
    }
  }

  // ----- typing: the field lookups of a pass never fail -----

  /** Fields exist under their parent's type, and spreads of defined fragments stand under those fragments' own type. */
  predicate Fits(schema: Schema, cond: string, list: seq<Selection>, conds: map<string, string>)
    decreases list
  {
    list == [] ||
    (&& (match list[0]
         case Fragment(name) => name in conds ==> conds[name] == cond
         case Field(name, _, sub, _) =>
           && schema.FieldType(cond, name).Some?
           && Fits(schema, schema.FieldType(cond, name).value, sub.selections, conds))
     && Fits(schema, cond, list[1..], conds))
  }

  ghost predicate FragmentsFit(schema: Schema, fragments: FragmentMap, conds: map<string, string>) {
    forall n :: n in fragments ==>
      && n in conds && fragments[n].cond == conds[n]
      && Fits(schema, fragments[n].cond, fragments[n].selections.selections, conds)
  }

  lemma {:induction false} FitsAppend(schema: Schema, cond: string, a: seq<Selection>, b: seq<Selection>, conds: map<string, string>)
    requires Fits(schema, cond, a, conds) && Fits(schema, cond, b, conds)
    ensures Fits(schema, cond, a + b, conds)
  {
    if a == [] {
      assert a + b == b;
    } else {
      FitsAppend(schema, cond, a[1..], b, conds);
      assert (a + b)[1..] == a[1..] + b;
    }
  }

  lemma {:induction false} ResolveFits(schema: Schema, cond: string, list: seq<Selection>, fragments: FragmentMap, conds: map<string, string>)
    requires Fits(schema, cond, list, conds) && FragmentsFit(schema, fragments, conds)
    ensures Resolve(schema, cond, list, fragments).Done?
    ensures Fits(schema, cond, Resolve(schema, cond, list, fragments).value.list, conds)
    decreases list
  {
    if list != [] {
      ResolveFits(schema, cond, list[1..], fragments, conds);
      if list[0].Field? {
        ResolveFits(schema, schema.FieldType(cond, list[0].name).value, list[0].sub.selections, fragments, conds);
      }
      var head := ResolveOne(schema, cond, list[0], fragments).value;
      if list[0].Field? || list[0].name !in fragments {
        assert head.list[1..] == [];
      }
      FitsAppend(schema, cond, head.list, Resolve(schema, cond, list[1..], fragments).value.list, conds);
    }
  }

  /** A pass removes exactly the names the map holds. */
  lemma {:induction false} ResolveNames(schema: Schema, cond: string, list: seq<Selection>, fragments: FragmentMap)
    requires Clean(fragments) && Resolve(schema, cond, list, fragments).Done?
    ensures SpreadNames(Resolve(schema, cond, list, fragments).value.list) == SpreadNames(list) - fragments.Keys
  {
    if list != [] {
      ResolveNames(schema, cond, list[1..], fragments);
      var head := ResolveOne(schema, cond, list[0], fragments).value.list;
      var tail := Resolve(schema, cond, list[1..], fragments).value.list;
      assert list == [list[0]] + list[1..];
      SpreadNamesAppend([list[0]], list[1..]);
      SpreadNamesAppend(head, tail);
      if list[0].Fragment? {
        assert list[0] in [list[0]];
        assert SpreadNames([list[0]]) == {list[0].name};
        if list[0].name in fragments {
          NoSpreadNames(head);
        }
      } else {
        assert SpreadNames([list[0]]) == {} && SpreadNames(head) == {};
      }
    }
  }

  lemma SpreadNamesAppend(a: seq<Selection>, b: seq<Selection>)
    ensures SpreadNames(a + b) == SpreadNames(a) + SpreadNames(b)
  {
    forall n ensures n in SpreadNames(a + b) <==> n in SpreadNames(a) || n in SpreadNames(b) {
      if n in SpreadNames(a) || n in SpreadNames(b) {
        assert Fragment(n) in a || Fragment(n) in b;
        assert Fragment(n) in a + b;
      }
    }
  }

  // ----- inlining -----

  /** Direct spreads of known fragments replaced, in place and in order, by the fragments' selections. */
  function Inline(list: seq<Selection>, fragments: FragmentMap): seq<Selection> {
    if list == [] then [] else InlineOne(list[0], fragments) + Inline(list[1..], fragments)
  }

  function InlineOne(s: Selection, fragments: FragmentMap): seq<Selection> {
    if s.Fragment? && s.name in fragments then fragments[s.name].selections.selections else [s]
  }

  /** No spread below any field, at any depth. */
  predicate SpreadFree(list: seq<Selection>)
    decreases list
  {
    list == [] || (list[0].Field? && !list[0].sub.hasFragments && SpreadFree(list[0].sub.selections) && SpreadFree(list[1..]))
  }

  /** Spreads stand at the top of the list only. */
  predicate SpreadsDirect(list: seq<Selection>) {
    list == [] ||
    ((list[0].Field? ==> !list[0].sub.hasFragments && SpreadFree(list[0].sub.selections)) && SpreadsDirect(list[1..]))
  }

  lemma {:induction false} SpreadFreeUnchanged(schema: Schema, cond: string, list: seq<Selection>, fragments: FragmentMap)
    requires SpreadFree(list) && Resolve(schema, cond, list, fragments).Done?
    ensures Resolve(schema, cond, list, fragments).value == Resolution(list, 0, false)
    decreases list
  {
    if list != [] {
      SpreadFreeUnchanged(schema, cond, list[1..], fragments);
      SpreadFreeUnchanged(schema, schema.FieldType(cond, list[0].name).value, list[0].sub.selections, fragments);
      assert [list[0]] + list[1..] == list;
    }
  }

  lemma {:induction false} ResolveInlines(schema: Schema, cond: string, list: seq<Selection>, fragments: FragmentMap)
    requires SpreadsDirect(list) && Resolve(schema, cond, list, fragments).Done?
    ensures Resolve(schema, cond, list, fragments).value.list == Inline(list, fragments)
    decreases list
  {
    if list != [] {
      ResolveInlines(schema, cond, list[1..], fragments);
      if list[0].Field? {
        SpreadFreeUnchanged(schema, schema.FieldType(cond, list[0].name).value, list[0].sub.selections, fragments);
      }
    }
  }

  ghost predicate Extends(small: FragmentMap, large: FragmentMap) {
    forall n :: n in small ==> n in large && large[n] == small[n]
  }

  lemma {:induction false} InlineAppend(a: seq<Selection>, b: seq<Selection>, fragments: FragmentMap)
    ensures Inline(a + b, fragments) == Inline(a, fragments) + Inline(b, fragments)
  {
    if a == [] {
      assert a + b == b;
    } else {
      hide InlineOne;
      var head := InlineOne(a[0], fragments);
      InlineAppend(a[1..], b, fragments);
      assert (a + b)[1..] == a[1..] + b && (a + b)[0] == a[0];
      assert head + (Inline(a[1..], fragments) + Inline(b, fragments)) == head + Inline(a[1..], fragments) + Inline(b, fragments);
    }
  }

  lemma {:induction false} InlineNothing(list: seq<Selection>, fragments: FragmentMap)
    requires DirectSpreads(list) == 0
    ensures Inline(list, fragments) == list
  {
    if list != [] {
      InlineNothing(list[1..], fragments);
      assert [list[0]] + list[1..] == list;
    }
  }

  /** Inlining early with part of the map changes nothing in the end. */
  lemma {:induction false} InlineTwice(list: seq<Selection>, small: FragmentMap, large: FragmentMap)
    requires Clean(small) && Extends(small, large)
    ensures Inline(Inline(list, small), large) == Inline(list, large)
  {
    if list != [] {
      InlineTwice(list[1..], small, large);
      var head := if list[0].Fragment? && list[0].name in small then small[list[0].name].selections.selections else [list[0]];
      InlineAppend(head, Inline(list[1..], small), large);
      if list[0].Fragment? && list[0].name in small {
        InlineNothing(head, large);
      } else {
        assert head[1..] == [];
        assert Inline(head[1..], large) == [];
      }
    }
  }

  lemma {:induction false} InlineKeepsDirect(list: seq<Selection>, fragments: FragmentMap)
    requires SpreadsDirect(list) && forall n :: n in fragments ==> SpreadsDirect(fragments[n].selections.selections)
    ensures SpreadsDirect(Inline(list, fragments))
  {
    if list != [] {
      InlineKeepsDirect(list[1..], fragments);
      var head := if list[0].Fragment? && list[0].name in fragments then fragments[list[0].name].selections.selections else [list[0]];
      SpreadsDirectAppend(head, Inline(list[1..], fragments));
    }
  }

  lemma {:induction false} SpreadsDirectAppend(a: seq<Selection>, b: seq<Selection>)
    requires SpreadsDirect(a) && SpreadsDirect(b)
    ensures SpreadsDirect(a + b)
  {
    if a == [] {
      assert a + b == b;
    } else {
      SpreadsDirectAppend(a[1..], b);
      assert (a + b)[1..] == a[1..] + b;
    }
  }
}
