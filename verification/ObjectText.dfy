/** Reading the rendered object text back: the text determines the object tree it was rendered from. */
module ObjectText {
  import opened Common
  import opened Elements
  import opened Rendering

  // ----- a reader of json_build_object arguments -----

  /** The longest prefix without any of the stopping characters. */
  function Prefix(text: string, stops: string): (r: string)
    ensures |r| <= |text|
  {
    if text == "" || text[0] in stops then "" else [text[0]] + Prefix(text[1..], stops)
  }

  predicate StartsWith(text: string, word: string) {
    |word| <= |text| && text[..|word|] == word
  }

  const QUOTE := "'"
  const KEY_END := "', "
  const VALUE_STOPS := ",()"
  const OBJECT_WORD := "json_build_object"

  /** Members up to the end of the text or the closing parenthesis of the enclosing object. */
  function ReadNodes(text: string): (r: Option<(seq<Node>, string)>)
    ensures r.Some? ==> |r.value.1| <= |text|
    decreases |text|, 1
  {
    if text == "" || text[0] == ')' then Some(([], text)) else ReadMembers(text)
  }

  /** One member, and further ones as long as a separator follows. */
  function ReadMembers(text: string): (r: Option<(seq<Node>, string)>)
    ensures r.Some? ==> |r.value.1| < |text|
    decreases |text|, 0
  {
    match ReadKey(text)
    case None => None
    case Some((key, after)) =>
      var word := Prefix(after, VALUE_STOPS);
      var behind := after[|word|..];
      if !StartsWith(behind, "(") then ReadMore(Column(key, word), behind)
      else if word != OBJECT_WORD then None
      else
        match ReadNodes(behind[1..])
        case None => None
        case Some((fields, rest)) => if StartsWith(rest, ")") then ReadMore(Object(key, fields), rest[1..]) else None
  }

  function ReadMore(node: Node, text: string): (r: Option<(seq<Node>, string)>)
    ensures r.Some? ==> |r.value.1| <= |text|
    decreases |text|, 2
  {
    if !StartsWith(text, COMMA) then Some(([node], text))
    else
      match ReadMembers(text[|COMMA|..])
      case None => None
      case Some((nodes, rest)) => Some(([node] + nodes, rest))
  }

  function ReadKey(text: string): (r: Option<(string, string)>)
    ensures r.Some? ==> |r.value.1| < |text|
  {
    if !StartsWith(text, QUOTE) then None
    else
      var key := Prefix(text[1..], QUOTE);
      var behind := text[1 + |key|..];
      if StartsWith(behind, KEY_END) then Some((key, behind[|KEY_END|..])) else None
  }

  // ----- which trees are read back -----

  predicate Without(s: string, stops: string) {
    forall i :: 0 <= i < |s| ==> s[i] !in stops
  }

  /** No key contains a quote, and no column a comma or a parenthesis. */
  predicate Legible(nodes: seq<Node>)
    decreases nodes
  {
    nodes == [] || (LegibleNode(nodes[0]) && Legible(nodes[1..]))
  }

  predicate LegibleNode(node: Node)
    decreases node
  {
    Without(node.key, QUOTE)
    && match node case Column(_, value) => Without(value, VALUE_STOPS) case Object(_, fields) => Legible(fields)
  }

  lemma {:induction false} PrefixIs(word: string, rest: string, stops: string)
    requires Without(word, stops) && (rest == "" || rest[0] in stops)
    ensures Prefix(word + rest, stops) == word
  {
    if word == "" {
      assert word + rest == rest;
    } else {
      assert (word + rest)[1..] == word[1..] + rest;
      PrefixIs(word[1..], rest, stops);
    }
  }

  lemma {:induction false} KeyReads(key: string, after: string)
    requires Without(key, QUOTE)
    ensures ReadKey(QUOTE + key + KEY_END + after) == Some((key, after))
  {
    var behind := KEY_END + after;
    var text := QUOTE + (key + behind);
    assert QUOTE + key + KEY_END + after == text;
    assert text[1..] == key + behind && text[1 + |key|..] == behind;
    PrefixIs(key, behind, QUOTE);
    assert behind[|KEY_END|..] == after && behind[..|KEY_END|] == KEY_END;
  }

  /** What may stand behind a member: nothing, a separator or a closing parenthesis. */
  predicate EndsMember(text: string) {
    text == "" || text[0] == ')' || StartsWith(text, COMMA)
  }

  lemma {:induction false} ColumnReads(key: string, value: string, behind: string)
    requires LegibleNode(Column(key, value)) && EndsMember(behind)
    ensures ReadMembers(RenderNode(Column(key, value)) + behind) == ReadMore(Column(key, value), behind)
  {
    ColumnSplit(key, value, behind);
    KeyReads(key, value + behind);
    PrefixIs(value, behind, VALUE_STOPS);
    hide *;
    assert (value + behind)[|value|..] == behind;
    ValueReads(RenderNode(Column(key, value)) + behind, key, value + behind, value, behind);
  }

  lemma {:induction false} ValueReads(text: string, key: string, after: string, value: string, behind: string)
    requires ReadKey(text) == Some((key, after)) && EndsMember(behind)
    requires Prefix(after, VALUE_STOPS) == value && |value| <= |after| && after[|value|..] == behind
    ensures ReadMembers(text) == ReadMore(Column(key, value), behind)
  {
    hide ReadKey, ReadMore, Prefix, OBJECT_WORD;
  }

  lemma ColumnSplit(key: string, value: string, behind: string)
    ensures RenderNode(Column(key, value)) + behind == QUOTE + key + KEY_END + (value + behind)
  {
  }

  lemma {:induction false} ObjectReads(key: string, fields: seq<Node>, behind: string)
    requires Without(key, QUOTE)
    requires ReadNodes(RenderNodes(fields) + (")" + behind)) == Some((fields, ")" + behind))
    ensures ReadMembers(RenderNode(Object(key, fields)) + behind) == ReadMore(Object(key, fields), behind)
  {
    var inner := RenderNodes(fields) + (")" + behind);
    var after := OBJECT_WORD + ("(" + inner);
    ObjectSplit(key, fields, behind);
    KeyReads(key, after);
    WordReads(inner);
    hide *;
    MemberReads(RenderNode(Object(key, fields)) + behind, key, after, inner, fields, behind);
  }

  lemma {:induction false} WordReads(inner: string)
    ensures var after := OBJECT_WORD + ("(" + inner);
            Prefix(after, VALUE_STOPS) == OBJECT_WORD && after[|OBJECT_WORD|..] == "(" + inner
  {
    PrefixIs(OBJECT_WORD, "(" + inner, VALUE_STOPS);
  }

  lemma {:induction false} MemberReads(text: string, key: string, after: string, inner: string, fields: seq<Node>, behind: string)
    requires ReadKey(text) == Some((key, after))
    requires Prefix(after, VALUE_STOPS) == OBJECT_WORD && |OBJECT_WORD| <= |after| && after[|OBJECT_WORD|..] == "(" + inner
    requires ReadNodes(inner) == Some((fields, ")" + behind))
    ensures ReadMembers(text) == ReadMore(Object(key, fields), behind)
  {
    hide ReadKey, ReadMore, ReadNodes, Prefix, OBJECT_WORD;
    assert ("(" + inner)[1..] == inner && (")" + behind)[1..] == behind;
  }

  lemma {:induction false} ObjectSplit(key: string, fields: seq<Node>, behind: string)
    ensures RenderNode(Object(key, fields)) + behind ==
            QUOTE + key + KEY_END + (OBJECT_WORD + ("(" + (RenderNodes(fields) + (")" + behind))))
  {
    hide RenderNodes;
    assert ElementText(Opening(key)) == QUOTE + key + KEY_END + (OBJECT_WORD + "(");
    assert QUOTE + key + KEY_END + (OBJECT_WORD + "(") + RenderNodes(fields) + ")" + behind ==
           QUOTE + key + KEY_END + (OBJECT_WORD + ("(" + (RenderNodes(fields) + (")" + behind))));
  }

  lemma {:induction false} NodeReads(node: Node, behind: string)
    requires LegibleNode(node) && EndsMember(behind)
    ensures ReadMembers(RenderNode(node) + behind) == ReadMore(node, behind)
    decreases node
  {
    match node {
      case Column(key, value) => ColumnReads(key, value, behind);
      case Object(key, fields) =>
        hide ReadMembers, ReadMore, ReadNodes, RenderNode, RenderNodes;
        NodesRead(fields, ")" + behind);
        ObjectReads(key, fields, behind);
    }
  }

  /** The text rendered from a legible forest reads back to that forest. */
  lemma {:induction false} NodesRead(nodes: seq<Node>, tail: string)
    requires Legible(nodes) && (tail == "" || tail[0] == ')')
    ensures ReadNodes(RenderNodes(nodes) + tail) == Some((nodes, tail))
    ensures nodes != [] ==> ReadMembers(RenderNodes(nodes) + tail) == Some((nodes, tail))
    decreases nodes, 1
  {
    if nodes == [] {
      assert RenderNodes(nodes) + tail == tail;
    } else {
      var node, others := nodes[0], nodes[1..];
      var behind := Behind(others, tail);
      RenderSplit(nodes, tail);
      NodeStarts(node, behind);
      BehindEnds(others, tail);
      hide ReadMembers, ReadMore, RenderNodes, RenderNode, LegibleNode, Behind;
      NodeReads(node, behind);
      assert nodes == [node] + others;
      if others != [] {
        NodesRead(others, tail);
      }
      MoreReads(node, others, tail);
    }
  }

  /** What stands behind the first of several members. */
  function Behind(others: seq<Node>, tail: string): string {
    if others == [] then tail else COMMA + (RenderNodes(others) + tail)
  }

  lemma BehindEnds(others: seq<Node>, tail: string)
    requires tail == "" || tail[0] == ')'
    ensures EndsMember(Behind(others, tail))
  {
    hide RenderNodes;
  }

  lemma {:induction false} MoreReads(node: Node, others: seq<Node>, tail: string)
    requires tail == "" || tail[0] == ')'
    requires others != [] ==> ReadMembers(RenderNodes(others) + tail) == Some((others, tail))
    ensures ReadMore(node, Behind(others, tail)) == Some(([node] + others, tail))
  {
    hide ReadMembers, RenderNodes;
    if others != [] {
      assert Behind(others, tail)[|COMMA|..] == RenderNodes(others) + tail;
    } else {
      assert [node] + others == [node];
    }
  }

  lemma {:induction false} RenderSplit(nodes: seq<Node>, tail: string)
    requires nodes != []
    ensures RenderNodes(nodes) + tail == RenderNode(nodes[0]) + Behind(nodes[1..], tail)
  {
    hide RenderNode;
  }

  lemma NodeStarts(node: Node, behind: string)
    ensures var text := RenderNode(node) + behind; text != "" && text[0] == '\''
  {
  }

  /** No two legible forests are rendered as one text. */
  lemma {:induction false} TextsDiffer(a: seq<Node>, b: seq<Node>)
    requires Legible(a) && Legible(b) && RenderNodes(a) == RenderNodes(b)
    ensures a == b
  {
    NodesRead(a, "");
    NodesRead(b, "");
    assert RenderNodes(a) + "" == RenderNodes(a) && RenderNodes(b) + "" == RenderNodes(b);
  }

  predicate LegibleElement(e: QueryElement) {
    match e
    case FieldElement(key, value) => Without(key, QUOTE) && Without(value, VALUE_STOPS)
    case Opening(key) => Without(key, QUOTE)
    case Closing => true
  }

  predicate AllLegible(elements: seq<QueryElement>) {
    forall i :: 0 <= i < |elements| ==> LegibleElement(elements[i])
  }

  lemma AllLegibleParts(a: seq<QueryElement>, b: seq<QueryElement>)
    ensures AllLegible(a + b) <==> AllLegible(a) && AllLegible(b)
  {
    if AllLegible(a + b) {
      assert forall i :: 0 <= i < |a| ==> a[i] == (a + b)[i];
      assert forall i :: 0 <= i < |b| ==> b[i] == (a + b)[|a| + i];
    }
  }

  lemma {:induction false} FlatLegible(nodes: seq<Node>)
    requires AllLegible(Flat(nodes))
    ensures Legible(nodes)
    decreases nodes, 1
  {
    if nodes != [] {
      AllLegibleParts(FlatNode(nodes[0]), Flat(nodes[1..]));
      hide AllLegible;
      FlatNodeLegible(nodes[0]);
      FlatLegible(nodes[1..]);
    }
  }

  lemma {:induction false} FlatNodeLegible(node: Node)
    requires AllLegible(FlatNode(node))
    ensures LegibleNode(node)
    decreases node
  {
    assert LegibleElement(FlatNode(node)[0]);
    if node.Object? {
      AllLegibleParts([Opening(node.key)] + Flat(node.fields), [Closing]);
      AllLegibleParts([Opening(node.key)], Flat(node.fields));
      FlatLegible(node.fields);
    }
  }

  /** One balanced list stands for one forest and both texts are renderings of it; with legible keys and columns the
      object text reads back to it. */
  lemma {:induction false} RenderingsAgree(elements: seq<QueryElement>) returns (nodes: seq<Node>)
    requires Balanced(elements, 0)
    ensures Flat(nodes) == elements && forall other :: Flat(other) == elements ==> other == nodes
    ensures SelectionText(elements) == RenderNodes(nodes)
    ensures AllLegible(elements) ==> ReadNodes(SelectionText(elements)) == Some((nodes, ""))
    ensures TopKeys(elements, 0) == Keys(nodes)
  {
    UnflattenBalanced(elements, 0);
    nodes := Unflatten(elements).0;
    assert elements + [] == elements;
    forall other | Flat(other) == elements ensures other == nodes {
      UnflattenFlat(other, []);
    }
    TextOfFlat(nodes, []);
    TopKeysOfFlat(nodes, [], 0);
    assert SelectionText(elements) == RenderNodes(nodes);
    assert TopKeys(elements, 0) == Keys(nodes);
    if AllLegible(elements) {
      hide *;
      FlatLegible(nodes);
      NodesRead(nodes, "");
      assert RenderNodes(nodes) + "" == RenderNodes(nodes);
    }
  }
}
