/** The bracketed element list of a user query and the trees it stands for. */
module Elements {

  datatype QueryElement = FieldElement(key: string, value: string) | Opening(key: string) | Closing

  /** No closing boundary without an open object, and nothing left open at the end. */
  ghost predicate Balanced(elements: seq<QueryElement>, depth: nat) {
    if elements == [] then depth == 0
    else match elements[0]
      case FieldElement(_, _) => Balanced(elements[1..], depth)
      case Opening(_) => Balanced(elements[1..], depth + 1)
      case Closing => depth > 0 && Balanced(elements[1..], depth - 1)
  }

  function Fields(elements: seq<QueryElement>): seq<QueryElement> {
    if elements == [] then []
    else OwnField(elements[0]) + Fields(elements[1..])
  }

  function OwnField(e: QueryElement): seq<QueryElement> {
    if e.FieldElement? then [e] else []
  }

  function Closings(n: nat): (r: seq<QueryElement>)
    ensures |r| == n && forall i :: 0 <= i < n ==> r[i] == Closing
  {
    if n == 0 then [] else [Closing] + Closings(n - 1)
  }

  lemma {:induction false} FieldsAppend(a: seq<QueryElement>, b: seq<QueryElement>)
    ensures Fields(a + b) == Fields(a) + Fields(b)
  {
    if a == [] {
      assert a + b == b;
    } else {
      var head := OwnField(a[0]);
      hide Fields, OwnField;
      FieldsAppend(a[1..], b);
      FieldsCons(a);
      FieldsCons(a + b);
      assert (a + b)[1..] == a[1..] + b && (a + b)[0] == a[0];
      assert head + (Fields(a[1..]) + Fields(b)) == head + Fields(a[1..]) + Fields(b);
    }
  }

  lemma FieldsCons(elements: seq<QueryElement>)
    requires elements != []
    ensures Fields(elements) == OwnField(elements[0]) + Fields(elements[1..])
  {
  }

  lemma ClosingsBalance(n: nat)
    ensures Balanced(Closings(n), n) && Fields(Closings(n)) == []
  {
    if n > 0 {
      ClosingsBalance(n - 1);
      assert Closings(n)[1..] == Closings(n - 1);
    }
  }

  /** The two lists disagree at a position both of them have. */
  ghost predicate Diverge<T>(a: seq<T>, b: seq<T>) {
    exists k :: 0 <= k < |a| && k < |b| && a[k] != b[k]
  }

  lemma DivergeAfter<T>(p: seq<T>, a: seq<T>, b: seq<T>)
    requires Diverge(a, b)
    ensures Diverge(p + a, p + b)
  {
    var k :| 0 <= k < |a| && k < |b| && a[k] != b[k];
    assert (p + a)[|p| + k] != (p + b)[|p| + k];
  }

  // ----- the trees balanced lists stand for -----

  /** A key of the JSON object with its column, or with a nested object. */
  datatype Node = Column(key: string, value: string) | Object(key: string, fields: seq<Node>)

  function Flat(nodes: seq<Node>): seq<QueryElement> {
    if nodes == [] then [] else FlatNode(nodes[0]) + Flat(nodes[1..])
  }

  function FlatNode(node: Node): seq<QueryElement> {
    match node
    case Column(key, value) => [FieldElement(key, value)]
    case Object(key, fields) => [Opening(key)] + Flat(fields) + [Closing]
  }

  /** Reads nodes up to the end of the list or the closing boundary of the enclosing object. */
  function Unflatten(elements: seq<QueryElement>): (r: (seq<Node>, seq<QueryElement>))
    ensures |r.1| <= |elements|
    decreases |elements|
  {
    if elements == [] || elements[0].Closing? then ([], elements)
    else match elements[0]
      case FieldElement(key, value) =>
        var (nodes, rest) := Unflatten(elements[1..]);
        ([Column(key, value)] + nodes, rest)
      case Opening(key) =>
        var (inner, closing) := Unflatten(elements[1..]);
        if closing == [] then ([Object(key, inner)], [])
        else var (nodes, rest) := Unflatten(closing[1..]); ([Object(key, inner)] + nodes, rest)
  }

  lemma {:induction false} UnflattenBalanced(elements: seq<QueryElement>, depth: nat)
    requires Balanced(elements, depth)
    ensures var (nodes, rest) := Unflatten(elements);
      && elements == Flat(nodes) + rest
      && Balanced(rest, depth)
      && (if depth == 0 then rest == [] else rest != [] && rest[0] == Closing)
    decreases |elements|
  {
    if elements != [] && !elements[0].Closing? {
      var tail := elements[1..];
      assert elements == [elements[0]] + tail;
      if elements[0].FieldElement? {
        UnflattenBalanced(tail, depth);
        var (nodes, rest) := Unflatten(tail);
        FlatCons(Column(elements[0].key, elements[0].value), nodes, rest);
      } else {
        UnflattenBalanced(tail, depth + 1);
        var (inner, closing) := Unflatten(tail);
        assert closing == [Closing] + closing[1..];
        UnflattenBalanced(closing[1..], depth);
        var (nodes, rest) := Unflatten(closing[1..]);
        FlatCons(Object(elements[0].key, inner), nodes, rest);
        FlatObject(elements[0].key, inner, Flat(nodes) + rest);
      }
    }
  }

  lemma FlatCons(node: Node, nodes: seq<Node>, rest: seq<QueryElement>)
    ensures Flat([node] + nodes) + rest == FlatNode(node) + (Flat(nodes) + rest)
  {
    assert ([node] + nodes)[1..] == nodes;
  }

  lemma FlatObject(key: string, fields: seq<Node>, rest: seq<QueryElement>)
    ensures FlatNode(Object(key, fields)) + rest == [Opening(key)] + (Flat(fields) + ([Closing] + rest))
  {
  }

  lemma UnflattenField(key: string, value: string, tail: seq<QueryElement>)
    ensures Unflatten([FieldElement(key, value)] + tail) == ([Column(key, value)] + Unflatten(tail).0, Unflatten(tail).1)
  {
    assert ([FieldElement(key, value)] + tail)[1..] == tail;
  }

  lemma UnflattenObject(key: string, tail: seq<QueryElement>, after: seq<QueryElement>)
    requires Unflatten(tail).1 == [Closing] + after
    ensures Unflatten([Opening(key)] + tail)
         == ([Object(key, Unflatten(tail).0)] + Unflatten(after).0, Unflatten(after).1)
  {
    assert ([Opening(key)] + tail)[1..] == tail;
    assert ([Closing] + after)[1..] == after;
  }

  /** Reading back a bracketed forest gives that forest: no two forests share an element list. */
  lemma {:induction false} UnflattenFlat(nodes: seq<Node>, rest: seq<QueryElement>)
    requires rest == [] || rest[0] == Closing
    ensures Unflatten(Flat(nodes) + rest) == (nodes, rest)
    decreases nodes
  {
    if nodes == [] {
      assert Flat(nodes) + rest == rest;
    } else {
      var tail := Flat(nodes[1..]) + rest;
      UnflattenFlat(nodes[1..], rest);
      assert nodes == [nodes[0]] + nodes[1..];
      FlatCons(nodes[0], nodes[1..], rest);
      match nodes[0]
      case Column(key, value) =>
        UnflattenField(key, value, tail);
      case Object(key, fields) =>
        UnflattenFlat(fields, [Closing] + tail);
        FlatObject(key, fields, tail);
        UnflattenObject(key, Flat(fields) + ([Closing] + tail), tail);
    }
  }
}
