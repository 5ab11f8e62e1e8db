/** What the flattening loop promises about the element list, against the selection tree itself. */
module Flattening {
  import opened Common
  import opened Elements
  import opened Graphql

  // ----- for every tree -----

  lemma {:induction false} EmitBalances(fks: ForeignKeys, ns: string, visits: seq<Visit>, stack: seq<string>, shrunk: bool)
    ensures Balanced(Emit(fks, ns, visits, stack, shrunk), |stack|)
  {
    if visits == [] {
      ClosingsBalance(|stack|);
    } else {
      var one := EmitOne(ns, visits[0], stack, shrunk);
      var stack', shrunk' := StackAfter(fks, visits[0], stack, shrunk), !IsObject(visits[0].sel);
      var rest := Emit(fks, ns, visits[1..], stack', shrunk');
      EmitBalances(fks, ns, visits[1..], stack', shrunk');
      if one == [] {
        assert one + rest == rest;
      } else {
        assert (one + rest)[1..] == one[1..] + rest;
        if |one| == 1 {
          assert one[1..] + rest == rest;
        } else {
          assert (one[1..] + rest)[1..] == rest;
        }
      }
    }
  }

  /** The columns a tree asks for, each under the entity whose selection set it stands in. */
  function Columns(ns: string, visits: seq<Visit>): seq<QueryElement> {
    if visits == [] then [] else ColumnOf(ns, visits[0].entity, visits[0].sel) + Columns(ns, visits[1..])
  }

  /** A field without sub-selections reads its own column and answers under its alias, if it has one. */
  function ColumnOf(ns: string, entity: string, s: Selection): seq<QueryElement> {
    if s.Fragment? || s.sub.selections != [] then []
    else [FieldElement(key := if s.alias.Some? then s.alias.value else s.name, value := ns + "." + entity + "." + s.name)]
  }

  lemma {:induction false} EmitColumns(fks: ForeignKeys, ns: string, visits: seq<Visit>, stack: seq<string>, shrunk: bool)
    ensures Fields(Emit(fks, ns, visits, stack, shrunk)) == Columns(ns, visits)
  {
    if visits == [] {
      ClosingsBalance(|stack|);
    } else {
      hide EmitOne, ColumnOf, StackAfter;
      var one := EmitOne(ns, visits[0], stack, shrunk);
      var stack', shrunk' := StackAfter(fks, visits[0], stack, shrunk), !IsObject(visits[0].sel);
      EmitColumns(fks, ns, visits[1..], stack', shrunk');
      FieldsAppend(one, Emit(fks, ns, visits[1..], stack', shrunk'));
      OneColumn(ns, visits[0], stack, shrunk);
    }
  }

  lemma OneColumn(ns: string, v: Visit, stack: seq<string>, shrunk: bool)
    ensures Fields(EmitOne(ns, v, stack, shrunk)) == ColumnOf(ns, v.entity, v.sel)
  {
    var closing := if Closes(stack, shrunk, v.entity) then [Closing] else [];
    var own := if v.sel.Fragment? then [] else if IsObject(v.sel) then [Opening(Key(v.sel))] else [Leaf(ns, v.entity, v.sel)];
    FieldsAppend(closing, own);
    assert |closing| == 1 ==> closing[1..] == [];
    assert |own| == 1 ==> own[1..] == [];
    assert Fields(closing) == [];
  }

  // ----- the exact condition for a faithful bracketing -----

  /** No fragment spread anywhere in the list. */
  predicate FragmentFree(list: seq<Selection>)
    decreases list
  {
    list == [] ||
    (var s := list[|list| - 1];
     s.Field? && FragmentFree(s.sub.selections) && FragmentFree(list[..|list| - 1]))
  }

  /** The bracketed form of a list of selections, last selection first: an object field's selections are columns of the
      table its foreign key leads to. */
  function Flatten(fks: ForeignKeys, ns: string, list: seq<Selection>, entity: string): seq<QueryElement>
    requires FragmentFree(list)
    decreases list
  {
    if list == [] then []
    else FlattenItem(fks, ns, list[|list| - 1], entity) + Flatten(fks, ns, list[..|list| - 1], entity)
  }

  function FlattenItem(fks: ForeignKeys, ns: string, s: Selection, entity: string): seq<QueryElement>
    requires s.Field? && FragmentFree(s.sub.selections)
    decreases s
  {
    var key := if s.alias.Some? then s.alias.value else s.name;
    var known := Lower(entity) in fks && Lower(s.name) in fks[Lower(entity)];
    if s.sub.selections == [] then ColumnOf(ns, entity, s)
    else [Opening(key)] + Flatten(fks, ns, s.sub.selections, if known then fks[Lower(entity)][Lower(s.name)].0 else s.name) + [Closing]
  }

  predicate BeginsWithObject(list: seq<Selection>) {
    list != [] && IsObject(list[0])
  }

  /** Every object field, unless it stands first in its list, neither targets the table it is selected from nor
      has a selection set that begins with an object field. */
  predicate ClosesCleanly(fks: ForeignKeys, list: seq<Selection>, entity: string)
    requires FragmentFree(list)
    decreases list
  {
    list == [] ||
    (var s, before := list[|list| - 1], list[..|list| - 1];
     && ClosesCleanly(fks, before, entity)
     && (IsObject(s) ==>
           var child := ChildEntity(fks, entity, s.name);
           && ClosesCleanly(fks, s.sub.selections, child)
           && (before != [] ==> child != entity && !BeginsWithObject(s.sub.selections))))
  }

  /** The entities still open after a list was visited: the first selection is visited last. */
  function Trail(fks: ForeignKeys, list: seq<Selection>, entity: string): seq<string>
    decreases list
  {
    if list == [] then [] else TrailItem(fks, list[0], entity)
  }

  function TrailItem(fks: ForeignKeys, s: Selection, entity: string): seq<string>
    decreases s
  {
    if !IsObject(s) then []
    else [ChildEntity(fks, entity, s.name)] + Trail(fks, s.sub.selections, ChildEntity(fks, entity, s.name))
  }

  /** Flatten without the closing boundaries at its very end. */
  function OpenFlatten(fks: ForeignKeys, ns: string, list: seq<Selection>, entity: string): seq<QueryElement>
    requires FragmentFree(list)
    decreases list
  {
    if list == [] then []
    else if |list| == 1 then OpenItem(fks, ns, list[0], entity)
    else FlattenItem(fks, ns, list[|list| - 1], entity) + OpenFlatten(fks, ns, list[..|list| - 1], entity)
  }

  function OpenItem(fks: ForeignKeys, ns: string, s: Selection, entity: string): seq<QueryElement>
    requires s.Field? && FragmentFree(s.sub.selections)
    decreases s
  {
    if IsObject(s)
    then [Opening(Key(s))] + OpenFlatten(fks, ns, s.sub.selections, ChildEntity(fks, entity, s.name))
    else [Leaf(ns, entity, s)]
  }

  lemma {:induction false} FlattenIsOpenThenClosings(fks: ForeignKeys, ns: string, list: seq<Selection>, entity: string)
    requires FragmentFree(list)
    ensures Flatten(fks, ns, list, entity)
         == OpenFlatten(fks, ns, list, entity) + Closings(|Trail(fks, list, entity)|)
    decreases list
  {
    if |list| == 1 {
      assert Flatten(fks, ns, list[..0], entity) == [];
      ItemIsOpenThenClosings(fks, ns, list[0], entity);
    } else if |list| > 1 {
      FlattenIsOpenThenClosings(fks, ns, list[..|list| - 1], entity);
      assert list[..|list| - 1][0] == list[0];
    }
  }

  lemma {:induction false} ItemIsOpenThenClosings(fks: ForeignKeys, ns: string, s: Selection, entity: string)
    requires s.Field? && FragmentFree(s.sub.selections)
    ensures FlattenItem(fks, ns, s, entity) == OpenItem(fks, ns, s, entity) + Closings(|TrailItem(fks, s, entity)|)
    decreases s
  {
    if IsObject(s) {
      var sub, child := s.sub.selections, ChildEntity(fks, entity, s.name);
      FlattenIsOpenThenClosings(fks, ns, sub, child);
      var n := |Trail(fks, sub, child)|;
      assert Closings(n) + [Closing] == Closings(n + 1);
    }
  }

  /** The innermost open entity is the one whose selections are being visited. */
  predicate InStep(stack: seq<string>, entity: string) {
    stack == [] || stack[|stack| - 1] == entity
  }

  /** One pending level is closed by the next selection of the enclosing entity. */
  lemma {:induction false} CloseThenContinue(fks: ForeignKeys, ns: string, visits: seq<Visit>, stack: seq<string>, child: string)
    requires visits != [] && child != visits[0].entity && InStep(stack, visits[0].entity)
    ensures Emit(fks, ns, visits, stack + [child], true) == [Closing] + Emit(fks, ns, visits, stack, true)
  {
    hide Preorder, PreorderItem, FragmentFree, Flatten, Trail, Closings, Leaf, ForeignKey;
    assert (stack + [child])[..|stack|] == stack;
    var one := EmitOne(ns, visits[0], stack, true);
    assert EmitOne(ns, visits[0], stack + [child], true) == [Closing] + one;
  }

  lemma EmitCons(fks: ForeignKeys, ns: string, v: Visit, visits: seq<Visit>, stack: seq<string>, shrunk: bool)
    ensures Emit(fks, ns, [v] + visits, stack, shrunk)
         == EmitOne(ns, v, stack, shrunk) + Emit(fks, ns, visits, StackAfter(fks, v, stack, shrunk), !IsObject(v.sel))
  {
    assert ([v] + visits)[1..] == visits;
  }

  /** An object field opens its own level and closes nothing. */
  lemma EmitObject(fks: ForeignKeys, ns: string, s: Selection, entity: string, visits: seq<Visit>, stack: seq<string>, shrunk: bool)
    requires IsObject(s) && InStep(stack, entity)
    ensures Emit(fks, ns, [Visit(s, entity)] + visits, stack, shrunk)
         == [Opening(Key(s))] + Emit(fks, ns, visits, stack + [ChildEntity(fks, entity, s.name)], false)
  {
    EmitCons(fks, ns, Visit(s, entity), visits, stack, shrunk);
  }

  /** A column is added and nothing is closed. */
  lemma EmitLeaf(fks: ForeignKeys, ns: string, s: Selection, entity: string, visits: seq<Visit>, stack: seq<string>, shrunk: bool)
    requires s.Field? && !IsObject(s) && InStep(stack, entity)
    ensures Emit(fks, ns, [Visit(s, entity)] + visits, stack, shrunk) == [Leaf(ns, entity, s)] + Emit(fks, ns, visits, stack, true)
  {
    EmitCons(fks, ns, Visit(s, entity), visits, stack, shrunk);
    assert stack + [] == stack;
  }

  lemma PreorderNothing(fks: ForeignKeys, entity: string)
    ensures Preorder(fks, [], entity) == []
  {
  }

  lemma {:induction false} FlattenSplit(fks: ForeignKeys, ns: string, list: seq<Selection>, entity: string, more: seq<QueryElement>)
    requires list != [] && FragmentFree(list)
    ensures var s, init := list[|list| - 1], list[..|list| - 1];
      FlattenItem(fks, ns, s, entity) + (Flatten(fks, ns, init, entity) + more) == Flatten(fks, ns, list, entity) + more
  {
    hide FlattenItem;
  }

  lemma PreorderItemFirst(fks: ForeignKeys, s: Selection, entity: string)
    ensures PreorderItem(fks, s, entity) != [] && PreorderItem(fks, s, entity)[0] == Visit(s, entity)
  {
  }

  lemma {:induction false} PreorderSplit(fks: ForeignKeys, list: seq<Selection>, entity: string, rest: seq<Visit>)
    requires list != []
    ensures var s, after := list[|list| - 1], Preorder(fks, list[..|list| - 1], entity) + rest;
      Preorder(fks, list, entity) + rest == PreorderItem(fks, s, entity) + after
    ensures (Preorder(fks, list, entity) + rest)[0] == Visit(list[|list| - 1], entity)
  {
    hide PreorderItem;
    var s, init := list[|list| - 1], list[..|list| - 1];
    PreorderItemFirst(fks, s, entity);
    assert PreorderItem(fks, s, entity) + Preorder(fks, init, entity) + rest
        == PreorderItem(fks, s, entity) + (Preorder(fks, init, entity) + rest);
  }

  /** A cleanly closing list is emitted as its flattening, up to the levels left open at its end. */
  lemma {:induction false} EmitClean(fks: ForeignKeys, ns: string, list: seq<Selection>, entity: string,
                                     rest: seq<Visit>, stack: seq<string>, shrunk: bool)
    requires list != [] && FragmentFree(list) && ClosesCleanly(fks, list, entity) && InStep(stack, entity)
    ensures Emit(fks, ns, Preorder(fks, list, entity) + rest, stack, shrunk)
         == OpenFlatten(fks, ns, list, entity) + Emit(fks, ns, rest, stack + Trail(fks, list, entity), true)
    decreases list
  {
    hide Emit, Preorder, PreorderItem;
    var s, init := list[|list| - 1], list[..|list| - 1];
    var after := Preorder(fks, init, entity) + rest;
    PreorderSplit(fks, list, entity, rest);
    EmitCleanItem(fks, ns, s, entity, after, stack, shrunk);
    if init == [] {
      PreorderNothing(fks, entity);
      assert after == rest;
    } else {
      PreorderSplit(fks, init, entity, rest);
      CloseItem(fks, ns, s, entity, after, stack);
      EmitClean(fks, ns, init, entity, rest, stack, true);
    }
  }

  lemma {:induction false} EmitCleanItem(fks: ForeignKeys, ns: string, s: Selection, entity: string,
                                         after: seq<Visit>, stack: seq<string>, shrunk: bool)
    requires s.Field? && FragmentFree(s.sub.selections) && InStep(stack, entity)
    requires ClosesCleanly(fks, s.sub.selections, ChildEntity(fks, entity, s.name))
    ensures Emit(fks, ns, PreorderItem(fks, s, entity) + after, stack, shrunk)
         == OpenItem(fks, ns, s, entity) + Emit(fks, ns, after, stack + TrailItem(fks, s, entity), true)
    decreases s
  {
    hide Emit, Preorder, OpenFlatten, Trail;
    if IsObject(s) {
      var sub, child := s.sub.selections, ChildEntity(fks, entity, s.name);
      var inner := Preorder(fks, sub, child) + after;
      assert PreorderItem(fks, s, entity) + after == [Visit(s, entity)] + inner;
      EmitObject(fks, ns, s, entity, inner, stack, shrunk);
      EmitClean(fks, ns, sub, child, after, stack + [child], false);
      assert stack + [child] + Trail(fks, sub, child) == stack + TrailItem(fks, s, entity);
    } else {
      assert stack + [] == stack;
      assert PreorderItem(fks, s, entity) == [Visit(s, entity)];
      EmitLeaf(fks, ns, s, entity, after, stack, shrunk);
    }
  }

  lemma LeafEndsTrail(fks: ForeignKeys, list: seq<Selection>, entity: string)
    ensures Trail(fks, list, entity) == [] <==> !BeginsWithObject(list)
  {
  }

  /** After an item that closes cleanly, the next selection of its list restores the stack. */
  lemma {:induction false} CloseItem(fks: ForeignKeys, ns: string, s: Selection, entity: string, after: seq<Visit>, stack: seq<string>)
    requires s.Field? && FragmentFree(s.sub.selections) && InStep(stack, entity)
    requires IsObject(s) ==> ChildEntity(fks, entity, s.name) != entity && !BeginsWithObject(s.sub.selections)
    requires after != [] && after[0].entity == entity
    ensures OpenItem(fks, ns, s, entity) + Emit(fks, ns, after, stack + TrailItem(fks, s, entity), true)
         == FlattenItem(fks, ns, s, entity) + Emit(fks, ns, after, stack, true)
  {
    hide Emit;
    ItemIsOpenThenClosings(fks, ns, s, entity);
    if IsObject(s) {
      var child := ChildEntity(fks, entity, s.name);
      LeafEndsTrail(fks, s.sub.selections, child);
      assert TrailItem(fks, s, entity) == [child] && Closings(1) == [Closing];
      CloseThenContinue(fks, ns, after, stack, child);
      var open, rest := OpenItem(fks, ns, s, entity), Emit(fks, ns, after, stack, true);
      assert open + ([Closing] + rest) == open + [Closing] + rest;
    } else {
      assert stack + [] == stack;
    }
  }

  /** Too few levels are closed before the next selection of the enclosing entity. */
  lemma LateClosingDiverges(fks: ForeignKeys, ns: string, visits: seq<Visit>, stack: seq<string>, child: string,
                            trail: seq<string>, more: seq<QueryElement>)
    requires visits != [] && visits[0].sel.Field?
    requires trail != [] || child == visits[0].entity
    ensures Diverge(Emit(fks, ns, visits, stack + [child] + trail, true), Closings(|trail|) + ([Closing] + more))
  {
    var deep := stack + [child] + trail;
    var emitted := Emit(fks, ns, visits, deep, true);
    var wanted := Closings(|trail|) + ([Closing] + more);
    if Closes(deep, true, visits[0].entity) {
      assert !emitted[1].Closing? && wanted[1] == Closing;
    } else {
      assert !emitted[0].Closing? && wanted[0] == Closing;
    }
  }

  /** A clean item followed by siblings goes wrong where it should close, or the siblings do. */
  lemma {:induction false} SiblingsDiverge(fks: ForeignKeys, ns: string, s: Selection, entity: string, after: seq<Visit>, stack: seq<string>,
                        wanted: seq<QueryElement>)
    requires s.Field? && after != [] && after[0].sel.Field? && after[0].entity == entity && InStep(stack, entity)
    requires (IsObject(s) && (ChildEntity(fks, entity, s.name) == entity || BeginsWithObject(s.sub.selections)))
          || Diverge(Emit(fks, ns, after, stack, true), wanted)
    ensures Diverge(Emit(fks, ns, after, stack + TrailItem(fks, s, entity), true), Closings(|TrailItem(fks, s, entity)|) + wanted)
  {
    if IsObject(s) {
      var child := ChildEntity(fks, entity, s.name);
      var trail := Trail(fks, s.sub.selections, child);
      LeafEndsTrail(fks, s.sub.selections, child);
      assert stack + TrailItem(fks, s, entity) == stack + [child] + trail;
      assert Closings(|trail| + 1) + wanted == Closings(|trail|) + ([Closing] + wanted);
      if child == entity || BeginsWithObject(s.sub.selections) {
        LateClosingDiverges(fks, ns, after, stack, child, trail, wanted);
      } else {
        assert stack + [child] + [] == stack + [child];
        CloseThenContinue(fks, ns, after, stack, child);
        DivergeAfter([Closing], Emit(fks, ns, after, stack, true), wanted);
        assert Closings(1) + wanted == [Closing] + wanted;
      }
    } else {
      assert stack + [] == stack && Closings(0) + wanted == wanted;
    }
  }

  lemma {:induction false} EmitUncleanDiverges(fks: ForeignKeys, ns: string, list: seq<Selection>, entity: string,
                                               rest: seq<Visit>, stack: seq<string>, shrunk: bool, more: seq<QueryElement>)
    requires FragmentFree(list) && !ClosesCleanly(fks, list, entity) && InStep(stack, entity)
    ensures Diverge(Emit(fks, ns, Preorder(fks, list, entity) + rest, stack, shrunk), Flatten(fks, ns, list, entity) + more)
    decreases list
  {
    hide Emit, Preorder, PreorderItem, Diverge, Flatten, FlattenItem, OpenItem, TrailItem;
    var s, init := list[|list| - 1], list[..|list| - 1];
    var after, wanted := Preorder(fks, init, entity) + rest, Flatten(fks, ns, init, entity) + more;
    PreorderSplit(fks, list, entity, rest);
    FlattenSplit(fks, ns, list, entity, more);
    if IsObject(s) && !ClosesCleanly(fks, s.sub.selections, ChildEntity(fks, entity, s.name)) {
      UncleanItemDiverges(fks, ns, s, entity, after, stack, shrunk, wanted);
    } else {
      EmitCleanItem(fks, ns, s, entity, after, stack, shrunk);
      ItemIsOpenThenClosings(fks, ns, s, entity);
      PreorderSplit(fks, init, entity, rest);
      if !ClosesCleanly(fks, init, entity) {
        EmitUncleanDiverges(fks, ns, init, entity, rest, stack, true, more);
      }
      var tail, owed := Emit(fks, ns, after, stack + TrailItem(fks, s, entity), true), Closings(|TrailItem(fks, s, entity)|) + wanted;
      SiblingsDiverge(fks, ns, s, entity, after, stack, wanted);
      DivergeAfter(OpenItem(fks, ns, s, entity), tail, owed);
      assert OpenItem(fks, ns, s, entity) + owed == FlattenItem(fks, ns, s, entity) + wanted;
    }
  }

  lemma {:induction false} UncleanItemDiverges(fks: ForeignKeys, ns: string, s: Selection, entity: string, after: seq<Visit>,
                                               stack: seq<string>, shrunk: bool, wanted: seq<QueryElement>)
    requires IsObject(s) && FragmentFree(s.sub.selections) && InStep(stack, entity)
    requires !ClosesCleanly(fks, s.sub.selections, ChildEntity(fks, entity, s.name))
    ensures Diverge(Emit(fks, ns, PreorderItem(fks, s, entity) + after, stack, shrunk), FlattenItem(fks, ns, s, entity) + wanted)
    decreases s
  {
    hide Emit, Preorder, Flatten, Diverge;
    var sub, child := s.sub.selections, ChildEntity(fks, entity, s.name);
    var inner, owed := Preorder(fks, sub, child) + after, Flatten(fks, ns, sub, child) + ([Closing] + wanted);
    assert PreorderItem(fks, s, entity) + after == [Visit(s, entity)] + inner;
    EmitObject(fks, ns, s, entity, inner, stack, shrunk);
    EmitUncleanDiverges(fks, ns, sub, child, after, stack + [child], false, [Closing] + wanted);
    DivergeAfter([Opening(Key(s))], Emit(fks, ns, inner, stack + [child], false), owed);
    assert [Opening(Key(s))] + owed == FlattenItem(fks, ns, s, entity) + wanted;
  }

  /** The loop writes the bracketed form of the tree exactly when the tree closes cleanly. */
  lemma FlattensIffClean(fks: ForeignKeys, ns: string, selections: seq<Selection>, entity: string)
    requires FragmentFree(Reverse(selections))
    ensures var list := Reverse(selections);
      Emit(fks, ns, Preorder(fks, list, entity), [], true) == Flatten(fks, ns, list, entity) <==> ClosesCleanly(fks, list, entity)
  {
    var list := Reverse(selections);
    var visits, flat := Preorder(fks, list, entity), Flatten(fks, ns, list, entity);
    assert visits + [] == visits && flat + [] == flat;
    if list == [] {
    } else if ClosesCleanly(fks, list, entity) {
      EmitClean(fks, ns, list, entity, [], [], true);
      assert [] + Trail(fks, list, entity) == Trail(fks, list, entity);
      FlattenIsOpenThenClosings(fks, ns, list, entity);
    } else {
      EmitUncleanDiverges(fks, ns, list, entity, [], [], true, []);
    }
  }

  // ----- a tree that does not close cleanly -----

  function NewField(name: string, selections: seq<Selection>): Selection {
    Field(name, [], Selections("", false, selections), None)
  }

  /** `entity { outer { inner { leaf } } last }`: before `last` the inner object is closed and the outer one is not,
      so that `last` becomes a member of the outer object. */
  lemma {:induction false} LastMovesInside(ns: string, entity: string, outer: string, inner: string, leaf: string, last: string)
    requires inner != entity
    ensures var selections := [NewField(outer, [NewField(inner, [NewField(leaf, [])])]), NewField(last, [])];
      var list, column, other := Reverse(selections), Leaf(ns, inner, NewField(leaf, [])), Leaf(ns, entity, NewField(last, []));
      && FragmentFree(list)
      && Flatten(map[], ns, list, entity) == [Opening(outer), Opening(inner), column, Closing, Closing, other]
      && Emit(map[], ns, Preorder(map[], list, entity), [], true) == [Opening(outer), Opening(inner), column, Closing, other, Closing]
  {
    var bottom, other := NewField(leaf, []), NewField(last, []);
    var middle := NewField(inner, [bottom]);
    var top := NewField(outer, [middle]);
    var list := [other, top];
    assert Reverse([top, other]) == list && list[..1] == [other];
    OneSelection(ns, bottom, inner);
    OneSelection(ns, middle, outer);
    OneSelection(ns, other, entity);
    assert Flatten(map[], ns, list, entity) == FlattenItem(map[], ns, top, entity) + Flatten(map[], ns, [other], entity);
    var v0, v1, v2, v3 := Visit(top, entity), Visit(middle, outer), Visit(bottom, inner), Visit(other, entity);
    assert Preorder(map[], list, entity) == [v0] + ([v1] + ([v2] + [v3]));
    hide Preorder, Flatten, FragmentFree, Emit;
    assert [] + [outer] == [outer] && [outer] + [inner] == [outer, inner];
    EmitCons(map[], ns, v0, [v1] + ([v2] + [v3]), [], true);
    EmitCons(map[], ns, v1, [v2] + [v3], [outer], false);
    EmitCons(map[], ns, v2, [v3], [outer, inner], false);
    EmitLast(ns, v3, [outer, inner], true);
  }

  lemma OneSelection(ns: string, s: Selection, entity: string)
    requires s.Field? && FragmentFree(s.sub.selections)
    ensures FragmentFree([s])
    ensures Flatten(map[], ns, [s], entity) == FlattenItem(map[], ns, s, entity)
    ensures Preorder(map[], [s], entity) == PreorderItem(map[], s, entity)
  {
    assert [s][..0] == [];
  }

  lemma EmitLast(ns: string, v: Visit, stack: seq<string>, shrunk: bool)
    ensures Emit(map[], ns, [v], stack, shrunk) == EmitOne(ns, v, stack, shrunk) + Closings(|StackAfter(map[], v, stack, shrunk)|)
  {
    assert [v][1..] == [];
  }
}
