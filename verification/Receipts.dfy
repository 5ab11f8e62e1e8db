/** The generated loop that pairs the return data of a transaction's receipts with the calls they answer. */
module Receipts {
  import opened Common

  type ContractId = nat

  /** The id under which a script returns; no contract has it. */
  const SCRIPT: ContractId := 0

  /** The receipts the pairing depends on; every other kind is `OtherReceipt`. */
  datatype Receipt =
    | CallReceipt(to: ContractId, selector: nat)
    | ReturnReceipt(id: ContractId)
    | ReturnDataReceipt(id: ContractId, data: seq<nat>)
    | OtherReceipt

  /** The contracts the indexer subscribes to; None subscribes to all. */
  type Subscription = Option<set<ContractId>>

  predicate Subscribed(s: Subscription, id: ContractId) {
    match s case None => true case Some(ids) => id in ids
  }

  /** The selector each decoded datum is decoded with. */
  type Decoded = seq<(nat, seq<nat>)>

  /** Decoding, or None for the panic of popping an empty stack. */
  function Decode(s: Subscription, receipts: seq<Receipt>, stack: seq<nat>, callees: set<ContractId>): Option<Decoded>
    decreases |receipts|
  {
    if receipts == [] then Some([])
    else match receipts[0]
      case CallReceipt(to, selector) =>
        if Subscribed(s, to) then Decode(s, receipts[1..], stack + [selector], callees + {to})
        else Decode(s, receipts[1..], stack, callees)
      case ReturnDataReceipt(id, data) =>
        if Subscribed(s, id) && id in callees then
          if stack == [] then None
          else Prefix([(stack[|stack| - 1], data)], Decode(s, receipts[1..], stack[..|stack| - 1], callees))
        else Decode(s, receipts[1..], stack, callees)
      case _ => Decode(s, receipts[1..], stack, callees)
  }

  function Prefix(a: Decoded, rest: Option<Decoded>): Option<Decoded> {
    match rest case None => None case Some(b) => Some(a + b)
  }

  method DecodeReceipts(s: Subscription, receipts: seq<Receipt>) returns (result: Option<Decoded>)
    ensures result == Decode(s, receipts, [], {})
  {
    var returnTypes: seq<nat> := [];
    var callees: set<ContractId> := {};
    var decoded: Decoded := [];
    PrefixNothing(Decode(s, receipts, [], {}));
    for i := 0 to |receipts|
      invariant Decode(s, receipts, [], {}) == Prefix(decoded, Decode(s, receipts[i..], returnTypes, callees))
    {
      assert receipts[i..][0] == receipts[i] && receipts[i..][1..] == receipts[i + 1..];
      match receipts[i] {
        case CallReceipt(to, selector) =>
          if Subscribed(s, to) {
            returnTypes := returnTypes + [selector];
            callees := callees + {to};
          }
        case ReturnDataReceipt(id, data) =>
          if Subscribed(s, id) && id in callees {
            if returnTypes == [] {
              return None;
            }
            var selector := returnTypes[|returnTypes| - 1];
            returnTypes := returnTypes[..|returnTypes| - 1];
            PrefixTwice(decoded, [(selector, data)], Decode(s, receipts[i + 1..], returnTypes, callees));
            decoded := decoded + [(selector, data)];
          }
        case ReturnReceipt(_) =>
        case OtherReceipt =>
      }
    }
    assert receipts[|receipts|..] == [] && decoded + [] == decoded;
    return Some(decoded);
  }

  lemma PrefixNothing(rest: Option<Decoded>)
    ensures Prefix([], rest) == rest
  {
    if rest.Some? {
      assert [] + rest.value == rest.value;
    }
  }

  lemma PrefixTwice(a: Decoded, b: Decoded, rest: Option<Decoded>)
    ensures Prefix(a, Prefix(b, rest)) == Prefix(a + b, rest)
  {
    if rest.Some? {
      assert a + (b + rest.value) == a + b + rest.value;
    }
  }

  // ----- well-nested traces -----

  /** A call, what happens inside it, and how it returns: with data, or plainly. A script's own data is no call's. */
  datatype Item = Event | ScriptData(data: seq<nat>) | Call(to: ContractId, selector: nat, body: seq<Item>, returned: Option<seq<nat>>)

  function Trace(items: seq<Item>): seq<Receipt>
    decreases items
  {
    if items == [] then [] else ItemTrace(items[0]) + Trace(items[1..])
  }

  function ItemTrace(item: Item): seq<Receipt>
    decreases item
  {
    match item
    case Event => [OtherReceipt]
    case ScriptData(data) => [ReturnDataReceipt(SCRIPT, data)]
    case Call(to, selector, body, data) =>
      [CallReceipt(to, selector)] + Trace(body) + [EndReceipt(to, data)]
  }

  /** Each subscribed call's data under its own selector, in the order the calls return. */
  function Expected(s: Subscription, items: seq<Item>): Decoded
    decreases items
  {
    if items == [] then [] else ExpectedItem(s, items[0]) + Expected(s, items[1..])
  }

  function ExpectedItem(s: Subscription, item: Item): Decoded
    decreases item
  {
    match item
    case Event => []
    case ScriptData(_) => []
    case Call(to, selector, body, data) =>
      Expected(s, body) + if Subscribed(s, to) && data.Some? then [(selector, data.value)] else []
  }

  /** The selectors a stretch of trace leaves on the stack: plain returns do not pop theirs. */
  function Stale(s: Subscription, items: seq<Item>): seq<nat>
    decreases items
  {
    if items == [] then [] else StaleItem(s, items[0]) + Stale(s, items[1..])
  }

  function StaleItem(s: Subscription, item: Item): seq<nat>
    decreases item
  {
    match item
    case Event => []
    case ScriptData(_) => []
    case Call(to, selector, body, data) =>
      if !Subscribed(s, to) then Stale(s, body)
      else
        var open := [selector] + Stale(s, body);
        if data.Some? then open[..|open| - 1] else open
  }

  /** What the loop decodes: the datum of a call is decoded with whatever is on top of the stack. */
  function Actual(s: Subscription, items: seq<Item>): Decoded
    decreases items
  {
    if items == [] then [] else ActualItem(s, items[0]) + Actual(s, items[1..])
  }

  function ActualItem(s: Subscription, item: Item): Decoded
    decreases item
  {
    match item
    case Event => []
    case ScriptData(_) => []
    case Call(to, selector, body, data) =>
      Actual(s, body)
      + if Subscribed(s, to) && data.Some? then
          var open := [selector] + Stale(s, body); [(open[|open| - 1], data.value)]
        else []
  }

  function Callees(s: Subscription, items: seq<Item>): set<ContractId>
    decreases items
  {
    if items == [] then {} else CalleesItem(s, items[0]) + Callees(s, items[1..])
  }

  function CalleesItem(s: Subscription, item: Item): set<ContractId>
    decreases item
  {
    match item
    case Event => {}
    case ScriptData(_) => {}
    case Call(to, _, body, _) => (if Subscribed(s, to) then {to} else {}) + Callees(s, body)
  }

  lemma {:induction false} DecodeTrace(s: Subscription, items: seq<Item>, rest: seq<Receipt>, stack: seq<nat>, callees: set<ContractId>)
    requires SCRIPT !in callees + Callees(s, items)
    ensures Decode(s, Trace(items) + rest, stack, callees)
         == Prefix(Actual(s, items), Decode(s, rest, stack + Stale(s, items), callees + Callees(s, items)))
    decreases items
  {
    if items == [] {
      assert Trace(items) + rest == rest && stack + [] == stack && callees + {} == callees;
      PrefixNothing(Decode(s, rest, stack, callees));
    } else {
      var head, tail := items[0], items[1..];
      var stack', callees' := stack + StaleItem(s, head), callees + CalleesItem(s, head);
      assert Trace(items) + rest == ItemTrace(head) + (Trace(tail) + rest);
      assert stack' + Stale(s, tail) == stack + Stale(s, items);
      assert callees' + Callees(s, tail) == callees + Callees(s, items);
      hide Decode, Trace, ItemTrace, Stale, StaleItem, Callees, CalleesItem, ActualItem;
      DecodeItem(s, head, Trace(tail) + rest, stack, callees);
      DecodeTrace(s, tail, rest, stack', callees');
      PrefixTwice(ActualItem(s, head), Actual(s, tail), Decode(s, rest, stack + Stale(s, items), callees + Callees(s, items)));
    }
  }

  function EndReceipt(to: ContractId, data: Option<seq<nat>>): Receipt {
    match data case Some(d) => ReturnDataReceipt(to, d) case None => ReturnReceipt(to)
  }

  lemma DecodeCall(s: Subscription, to: ContractId, selector: nat, inner: seq<Receipt>, stack: seq<nat>, callees: set<ContractId>)
    ensures Decode(s, [CallReceipt(to, selector)] + inner, stack, callees)
         == if Subscribed(s, to) then Decode(s, inner, stack + [selector], callees + {to}) else Decode(s, inner, stack, callees)
  {
    assert ([CallReceipt(to, selector)] + inner)[1..] == inner;
  }

  /** A call's return pops the top of what the call left above the stack it found. */
  lemma DecodeEnd(s: Subscription, to: ContractId, data: Option<seq<nat>>, rest: seq<Receipt>, stack: seq<nat>, own: seq<nat>, callees: set<ContractId>)
    requires Subscribed(s, to) ==> own != [] && to in callees
    ensures Decode(s, [EndReceipt(to, data)] + rest, stack + own, callees)
         == if Subscribed(s, to) && data.Some?
            then Prefix([(own[|own| - 1], data.value)], Decode(s, rest, stack + own[..|own| - 1], callees))
            else Decode(s, rest, stack + own, callees)
  {
    assert ([EndReceipt(to, data)] + rest)[1..] == rest;
    if own != [] {
      assert (stack + own)[..|stack + own| - 1] == stack + own[..|own| - 1];
    }
  }

  lemma {:induction false} DecodeItem(s: Subscription, item: Item, rest: seq<Receipt>, stack: seq<nat>, callees: set<ContractId>)
    requires SCRIPT !in callees + CalleesItem(s, item)
    ensures Decode(s, ItemTrace(item) + rest, stack, callees)
         == Prefix(ActualItem(s, item), Decode(s, rest, stack + StaleItem(s, item), callees + CalleesItem(s, item)))
    decreases item
  {
    match item {
      case Event =>
        NothingDecoded(s, item, rest, stack, callees);
      case ScriptData(_) =>
        NothingDecoded(s, item, rest, stack, callees);
      case Call(to, selector, body, data) =>
        DecodeCallItem(s, to, selector, body, data, rest, stack, callees);
        var pushed := if Subscribed(s, to) then stack + [selector] else stack;
        DecodeTrace(s, body, [EndReceipt(to, data)] + rest, pushed, if Subscribed(s, to) then callees + {to} else callees);
    }
  }

  lemma NothingDecoded(s: Subscription, item: Item, rest: seq<Receipt>, stack: seq<nat>, callees: set<ContractId>)
    requires !item.Call? && SCRIPT !in callees
    ensures Decode(s, ItemTrace(item) + rest, stack, callees)
         == Prefix(ActualItem(s, item), Decode(s, rest, stack + StaleItem(s, item), callees + CalleesItem(s, item)))
  {
    assert (ItemTrace(item) + rest)[1..] == rest && stack + [] == stack && callees + {} == callees;
    PrefixNothing(Decode(s, rest, stack, callees));
  }

  lemma {:induction false} DecodeCallItem(s: Subscription, to: ContractId, selector: nat, body: seq<Item>, data: Option<seq<nat>>,
                                          rest: seq<Receipt>, stack: seq<nat>, callees: set<ContractId>)
    ensures var item, end := Call(to, selector, body, data), [EndReceipt(to, data)] + rest;
      var pushed := if Subscribed(s, to) then stack + [selector] else stack;
      var called := if Subscribed(s, to) then callees + {to} else callees;
      Decode(s, Trace(body) + end, pushed, called)
        == Prefix(Actual(s, body), Decode(s, end, pushed + Stale(s, body), called + Callees(s, body)))
      ==> Decode(s, ItemTrace(item) + rest, stack, callees)
          == Prefix(ActualItem(s, item), Decode(s, rest, stack + StaleItem(s, item), callees + CalleesItem(s, item)))
  {
    hide Decode;
    var item, end := Call(to, selector, body, data), [EndReceipt(to, data)] + rest;
    assert ItemTrace(item) + rest == [CallReceipt(to, selector)] + (Trace(body) + end);
    DecodeCall(s, to, selector, Trace(body) + end, stack, callees);
    var own := (if Subscribed(s, to) then [selector] else []) + Stale(s, body);
    var pushed := if Subscribed(s, to) then stack + [selector] else stack;
    var known := callees + CalleesItem(s, item);
    assert pushed + Stale(s, body) == stack + own;
    assert (if Subscribed(s, to) then callees + {to} else callees) + Callees(s, body) == known;
    DecodeEnd(s, to, data, rest, stack, own, known);
    if Subscribed(s, to) && data.Some? {
      PrefixTwice(Actual(s, body), [(own[|own| - 1], data.value)], Decode(s, rest, stack + own[..|own| - 1], known));
    } else {
      assert Actual(s, body) + [] == Actual(s, body);
    }
  }

  /** No pop fails on a well-nested trace. */
  lemma TraceDecodes(s: Subscription, items: seq<Item>)
    requires SCRIPT !in Callees(s, items)
    ensures Decode(s, Trace(items), [], {}) == Some(Actual(s, items))
  {
    DecodeTrace(s, items, [], [], {});
    assert Trace(items) + [] == Trace(items) && Actual(s, items) + [] == Actual(s, items);
  }

  // ----- when each datum meets its own selector -----

  function PlainReturns(s: Subscription, items: seq<Item>): nat
    decreases items
  {
    if items == [] then 0 else PlainReturnsItem(s, items[0]) + PlainReturns(s, items[1..])
  }

  /** The subscribed calls that return plainly, in the item and below it. */
  function PlainReturnsItem(s: Subscription, item: Item): nat
    decreases item
  {
    match item
    case Event => 0
    case ScriptData(_) => 0
    case Call(to, _, body, data) => (if Subscribed(s, to) && data.None? then 1 else 0) + PlainReturns(s, body)
  }

  lemma {:induction false} StaleCounts(s: Subscription, items: seq<Item>)
    ensures |Stale(s, items)| == PlainReturns(s, items)
    decreases items
  {
    if items != [] {
      StaleCountsItem(s, items[0]);
      StaleCounts(s, items[1..]);
    }
  }

  lemma {:induction false} StaleCountsItem(s: Subscription, item: Item)
    ensures |StaleItem(s, item)| == PlainReturnsItem(s, item)
    decreases item
  {
    if item.Call? {
      StaleCounts(s, item.body);
    }
  }

  /** Wherever a subscribed call returns data, the calls below it left nothing on the stack, or its own selector
      again on top. */
  predicate TopsMatch(s: Subscription, items: seq<Item>)
    decreases items
  {
    items == [] || (TopsMatchItem(s, items[0]) && TopsMatch(s, items[1..]))
  }

  predicate TopsMatchItem(s: Subscription, item: Item)
    decreases item
  {
    match item
    case Event => true
    case ScriptData(_) => true
    case Call(to, selector, body, data) =>
      TopsMatch(s, body) && (Subscribed(s, to) && data.Some? ==>
        var stale := Stale(s, body); stale == [] || stale[|stale| - 1] == selector)
  }

  lemma {:induction false} SameLength(s: Subscription, items: seq<Item>)
    ensures |Actual(s, items)| == |Expected(s, items)|
    decreases items
  {
    if items != [] {
      SameLengthItem(s, items[0]);
      SameLength(s, items[1..]);
    }
  }

  lemma {:induction false} SameLengthItem(s: Subscription, item: Item)
    ensures |ActualItem(s, item)| == |ExpectedItem(s, item)|
    decreases item
  {
    if item.Call? {
      SameLength(s, item.body);
    }
  }

  lemma SplitEqual<T>(a: seq<T>, b: seq<T>, c: seq<T>, d: seq<T>)
    requires a + b == c + d && |a| == |c|
    ensures a == c && b == d
  {
    assert a == (a + b)[..|a|] && c == (c + d)[..|c|];
    assert b == (a + b)[|a|..] && d == (c + d)[|c|..];
  }

  lemma {:induction false} OwnIffTops(s: Subscription, items: seq<Item>)
    ensures Actual(s, items) == Expected(s, items) <==> TopsMatch(s, items)
    decreases items
  {
    if items != [] {
      OwnIffTopsItem(s, items[0]);
      OwnIffTops(s, items[1..]);
      if Actual(s, items) == Expected(s, items) {
        SameLengthItem(s, items[0]);
        SplitEqual(ActualItem(s, items[0]), Actual(s, items[1..]), ExpectedItem(s, items[0]), Expected(s, items[1..]));
      }
    }
  }

  lemma {:induction false} OwnIffTopsItem(s: Subscription, item: Item)
    ensures ActualItem(s, item) == ExpectedItem(s, item) <==> TopsMatchItem(s, item)
    decreases item
  {
    if item.Call? {
      var open := [item.selector] + Stale(s, item.body);
      OwnIffTops(s, item.body);
      if Subscribed(s, item.to) && item.returned.Some? {
        var actual, expected := [(open[|open| - 1], item.returned.value)], [(item.selector, item.returned.value)];
        assert actual[0] == expected[0] <==> actual == expected;
        if ActualItem(s, item) == ExpectedItem(s, item) {
          SameLength(s, item.body);
          SplitEqual(Actual(s, item.body), actual, Expected(s, item.body), expected);
        }
      } else {
        assert Actual(s, item.body) + [] == Actual(s, item.body) && Expected(s, item.body) + [] == Expected(s, item.body);
      }
    }
  }

  /** On well-nested traces, with or without a contract filter: every returned datum is decoded with the selector of
      its own call exactly when that selector is on top of the stack at each return of data. */
  lemma OwnSelectorsIff(s: Subscription, items: seq<Item>)
    requires SCRIPT !in Callees(s, items)
    ensures Decode(s, Trace(items), [], {}) == Some(Expected(s, items)) <==> TopsMatch(s, items)
  {
    TraceDecodes(s, items);
    OwnIffTops(s, items);
  }

  /** No subscribed call that returns data has, below it, a subscribed call that returns plainly. */
  predicate ReturnsMatch(s: Subscription, items: seq<Item>)
    decreases items
  {
    items == [] || (ReturnsMatchItem(s, items[0]) && ReturnsMatch(s, items[1..]))
  }

  predicate ReturnsMatchItem(s: Subscription, item: Item)
    decreases item
  {
    match item
    case Event => true
    case ScriptData(_) => true
    case Call(to, _, body, data) =>
      ReturnsMatch(s, body) && (Subscribed(s, to) && data.Some? ==> PlainReturns(s, body) == 0)
  }

  /** Without plain returns below data returns, nothing is left over at any return of data. */
  lemma {:induction false} MatchingTops(s: Subscription, items: seq<Item>)
    requires ReturnsMatch(s, items)
    ensures TopsMatch(s, items)
    decreases items
  {
    if items != [] {
      if items[0].Call? {
        MatchingTops(s, items[0].body);
        StaleCounts(s, items[0].body);
      }
      MatchingTops(s, items[1..]);
    }
  }

  /** A call returning data around one returning plainly: the datum is decoded with the inner selector, unless both
      calls are to the same function. */
  lemma PlainReturnShifts(s: Subscription, to: ContractId, outer: nat, inner: nat, data: seq<nat>)
    requires Subscribed(s, to) && to != SCRIPT
    ensures var items := [Call(to, outer, [Call(to, inner, [], None)], Some(data))];
      Decode(s, Trace(items), [], {}) == Some([(inner, data)]) && Expected(s, items) == [(outer, data)]
  {
    var call := Call(to, inner, [], None);
    var items := [Call(to, outer, [call], Some(data))];
    SingleItem(s, call);
    SingleItem(s, items[0]);
    assert Callees(s, [call]) == {to} && Callees(s, items) == {to};
    TraceDecodes(s, items);
    assert Stale(s, [call]) == [inner] && Actual(s, [call]) == [];
    assert Actual(s, items) == ActualItem(s, items[0]) == [(inner, data)];
  }

  lemma SingleItem(s: Subscription, item: Item)
    ensures Stale(s, [item]) == StaleItem(s, item)
    ensures Actual(s, [item]) == ActualItem(s, item)
    ensures Expected(s, [item]) == ExpectedItem(s, item)
    ensures Callees(s, [item]) == CalleesItem(s, item)
  {
    assert [item][1..] == [];
    hide StaleItem, ActualItem, ExpectedItem;
    assert StaleItem(s, item) + [] == StaleItem(s, item);
    assert ActualItem(s, item) + [] == ActualItem(s, item);
    assert ExpectedItem(s, item) + [] == ExpectedItem(s, item);
  }
}
