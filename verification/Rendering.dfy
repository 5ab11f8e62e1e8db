/** The two texts rendered from one element list: the JSON object and the projection over its top-level keys. */
module Rendering {
  import opened Common
  import opened Elements

  // ----- json_build_object arguments -----

  function ElementText(e: QueryElement): string {
    match e
    case FieldElement(key, value) => "'" + key + "', " + value
    case Opening(key) => "'" + key + "', json_build_object("
    case Closing => ")"
  }

  const COMMA := ", "

  /** A comma follows a finished member when another member comes next. */
  function Separator(elements: seq<QueryElement>): string
    requires elements != []
  {
    if !elements[0].Opening? && |elements| > 1 && !elements[1].Closing? then COMMA else ""
  }

  function SelectionText(elements: seq<QueryElement>): string {
    if elements == [] then "" else ElementText(elements[0]) + Separator(elements) + SelectionText(elements[1..])
  }

  method ParseQueryElementsIntoSelections(elements: seq<QueryElement>) returns (selections: seq<string>)
    ensures Concat(selections) == SelectionText(elements)
  {
    hide *;
    NothingToRender();
    selections := [];
    var i := 0;
    while i < |elements|
      invariant 0 <= i <= |elements|
      invariant Concat(selections) + SelectionText(elements[i..]) == SelectionText(elements)
    {
      var e := elements[i];
      ghost var before, rest := selections, elements[i..];
      i := i + 1;
      ghost var more := !e.Opening? && i < |elements| && !elements[i].Closing?;
      match e {
        case FieldElement(_, _) =>
          selections := selections + [ElementText(e)];
          if i < |elements| && !elements[i].Closing? {
            selections := selections + [COMMA];
          }
        case Opening(_) =>
          selections := selections + [ElementText(e)];
        case Closing =>
          selections := selections + [ElementText(e)];
          if i < |elements| && !elements[i].Closing? {
            selections := selections + [COMMA];
          }
      }
      PushedText(before, ElementText(e), more, selections);
      assert rest == [e] + elements[i..];
      TextCons(e, elements[i..]);
    }
    assert elements[i..] == [];
    NothingToRender();
  }

  lemma NothingToRender()
    ensures Concat([]) == "" && SelectionText([]) == ""
  {
  }

  lemma {:induction false} PushedText(before: seq<string>, text: string, more: bool, after: seq<string>)
    requires after == before + [text] + (if more then [COMMA] else [])
    ensures Concat(after) == Concat(before) + (text + (if more then COMMA else ""))
  {
    hide COMMA;
    ConcatAppend(before, [text] + (if more then [COMMA] else []));
    assert ([text] + (if more then [COMMA] else []))[1..] == if more then [COMMA] else [];
    assert Concat([COMMA]) == COMMA;
    assert after == before + ([text] + (if more then [COMMA] else []));
  }

  /** The SQL text of a forest, with separators exactly between siblings. */
  function RenderNodes(nodes: seq<Node>): string {
    if nodes == [] then ""
    else RenderNode(nodes[0]) + if |nodes| == 1 then "" else COMMA + RenderNodes(nodes[1..])
  }

  function RenderNode(node: Node): string {
    match node
    case Column(key, value) => ElementText(FieldElement(key, value))
    case Object(key, fields) => ElementText(Opening(key)) + RenderNodes(fields) + ElementText(Closing)
  }

  lemma {:induction false} TextCons(e: QueryElement, tail: seq<QueryElement>)
    ensures SelectionText([e] + tail)
         == ElementText(e) + (if !e.Opening? && tail != [] && !tail[0].Closing? then COMMA else "") + SelectionText(tail)
  {
    hide ElementText, COMMA;
    assert ([e] + tail)[1..] == tail;
  }

  lemma {:induction false} TextOfFlat(nodes: seq<Node>, rest: seq<QueryElement>)
    requires rest == [] || rest[0] == Closing
    ensures SelectionText(Flat(nodes) + rest) == RenderNodes(nodes) + SelectionText(rest)
    decreases nodes
  {
    hide *;
    if nodes == [] {
      TextOfNothing(rest);
    } else {
      assert nodes == [nodes[0]] + nodes[1..];
      RenderCons(nodes);
      FlatStarts(nodes[1..], rest);
      FlatCons(nodes[0], nodes[1..], rest);
      TextOfFlat(nodes[1..], rest);
      TextOfNode(nodes[0], Flat(nodes[1..]) + rest);
    }
  }

  lemma {:induction false} TextOfNothing(rest: seq<QueryElement>)
    ensures SelectionText(Flat([]) + rest) == RenderNodes([]) + SelectionText(rest)
  {
    hide SelectionText;
    assert Flat([]) + rest == rest;
    assert "" + SelectionText(rest) == SelectionText(rest);
  }

  lemma {:induction false} RenderCons(nodes: seq<Node>)
    requires nodes != []
    ensures RenderNodes(nodes) == RenderNode(nodes[0]) + (if |nodes| == 1 then "" else COMMA) + RenderNodes(nodes[1..])
  {
    hide RenderNode, COMMA;
    if |nodes| > 1 {
      assert RenderNode(nodes[0]) + (COMMA + RenderNodes(nodes[1..])) == RenderNode(nodes[0]) + COMMA + RenderNodes(nodes[1..]);
    }
  }

  lemma FlatStarts(nodes: seq<Node>, rest: seq<QueryElement>)
    requires rest == [] || rest[0] == Closing
    ensures var all := Flat(nodes) + rest; all != [] && !all[0].Closing? <==> nodes != []
  {
  }

  lemma {:induction false} TextOfNode(node: Node, tail: seq<QueryElement>)
    ensures SelectionText(FlatNode(node) + tail)
         == RenderNode(node) + (if tail != [] && !tail[0].Closing? then COMMA else "") + SelectionText(tail)
    decreases node
  {
    hide ElementText, COMMA;
    match node {
      case Column(key, value) =>
        TextCons(FieldElement(key, value), tail);
      case Object(key, fields) =>
        FlatObject(key, fields, tail);
        TextOfFlat(fields, [Closing] + tail);
        TextOfObject(key, Flat(fields), tail);
    }
  }

  lemma {:induction false} TextOfObject(key: string, inner: seq<QueryElement>, tail: seq<QueryElement>)
    ensures SelectionText([Opening(key)] + (inner + ([Closing] + tail)))
         == ElementText(Opening(key)) + SelectionText(inner + ([Closing] + tail))
    ensures SelectionText([Closing] + tail) == ElementText(Closing) + (if tail != [] && !tail[0].Closing? then COMMA else "") + SelectionText(tail)
  {
    hide ElementText, COMMA;
    TextCons(Opening(key), inner + ([Closing] + tail));
    TextCons(Closing, tail);
  }

  // ----- the projection over the CTE -----

  function Projection(entity: string, key: string): string {
    entity + "->'" + key + "' AS " + key
  }

  /** The keys met outside any object. */
  function TopKeys(elements: seq<QueryElement>, depth: nat): seq<string> {
    if elements == [] then []
    else match elements[0]
      case FieldElement(key, _) => (if depth == 0 then [key] else []) + TopKeys(elements[1..], depth)
      case Opening(key) => (if depth == 0 then [key] else []) + TopKeys(elements[1..], depth + 1)
      case Closing => TopKeys(elements[1..], if depth == 0 then 0 else depth - 1)
  }

  function Projections(entity: string, keys: seq<string>): (r: seq<string>)
    ensures |r| == |keys| && forall i :: 0 <= i < |keys| ==> r[i] == Projection(entity, keys[i])
  {
    seq(|keys|, i requires 0 <= i < |keys| => Projection(entity, keys[i]))
  }

  /** Each key is taken from the entity's common table expression and keeps its name. */
  lemma ProjectionsAre(entity: string, keys: seq<string>)
    ensures |Projections(entity, keys)| == |keys|
    ensures forall i :: 0 <= i < |keys| ==> Projections(entity, keys)[i] == entity + "->'" + keys[i] + "' AS " + keys[i]
  {
  }

  method GetJsonSelectionsFromCte(elements: seq<QueryElement>, entity: string) returns (selections: seq<string>)
    ensures selections == Projections(entity, TopKeys(elements, 0))
  {
    selections := [];
    ghost var keys: seq<string> := [];
    var i, nesting := 0, 0;
    while i < |elements|
      invariant 0 <= i <= |elements|
      invariant selections == Projections(entity, keys)
      invariant i < |elements| ==> nesting == 0
      invariant keys + TopKeys(elements[i..], nesting) == TopKeys(elements, 0)
      invariant nesting >= 0
      decreases |elements| - i
    {
      var e := elements[i];
      assert elements[i..][1..] == elements[i + 1..];
      i := i + 1;
      if e.FieldElement? {
        selections := selections + [Projection(entity, e.key)];
        keys := keys + [e.key];
      } else if e.Opening? {
        selections := selections + [Projection(entity, e.key)];
        keys := keys + [e.key];
        nesting := nesting + 1;
        while i < |elements| && nesting != 0
          invariant 0 <= i <= |elements| && nesting >= 0
          invariant keys + TopKeys(elements[i..], nesting) == TopKeys(elements, 0)
          decreases |elements| - i
        {
          assert elements[i..][1..] == elements[i + 1..];
          match elements[i] {
            case Opening(_) => nesting := nesting + 1;
            case Closing => nesting := nesting - 1;
            case FieldElement(_, _) =>
          }
          i := i + 1;
        }
      }
    }
    assert elements[i..] == [];
  }

  function Keys(nodes: seq<Node>): seq<string> {
    if nodes == [] then [] else [nodes[0].key] + Keys(nodes[1..])
  }

  lemma {:induction false} TopKeysOfFlat(nodes: seq<Node>, rest: seq<QueryElement>, depth: nat)
    ensures TopKeys(Flat(nodes) + rest, depth) == (if depth == 0 then Keys(nodes) else []) + TopKeys(rest, depth)
    decreases nodes
  {
    if nodes == [] {
      assert Flat(nodes) + rest == rest;
    } else {
      var tail := Flat(nodes[1..]) + rest;
      assert nodes == [nodes[0]] + nodes[1..];
      FlatCons(nodes[0], nodes[1..], rest);
      TopKeysOfFlat(nodes[1..], rest, depth);
      match nodes[0]
      case Column(key, value) =>
        assert ([FieldElement(key, value)] + tail)[1..] == tail;
      case Object(key, fields) =>
        FlatObject(key, fields, tail);
        var inner := Flat(fields) + ([Closing] + tail);
        assert ([Opening(key)] + inner)[1..] == inner;
        TopKeysOfFlat(fields, [Closing] + tail, depth + 1);
        assert ([Closing] + tail)[1..] == tail;
    }
  }
}
