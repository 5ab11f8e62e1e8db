/** INNER JOIN clauses and when their tables are in scope. */
module Clauses {
  import opened Joins

  /** INNER JOIN table ON on[0] AND on[1] ... */
  datatype InnerJoin = InnerJoin(table: string, on: seq<JoinCondition>)

  function Conditions(clauses: seq<InnerJoin>): seq<JoinCondition> {
    if clauses == [] then [] else Conditions(clauses[..|clauses| - 1]) + clauses[|clauses| - 1].on
  }

  /** Neighbouring conditions with one primary table share a clause, and no others do. */
  ghost predicate Folded(clauses: seq<InnerJoin>, sorted: seq<JoinCondition>) {
    && Conditions(clauses) == sorted
    && (forall i :: 0 <= i < |clauses| ==> clauses[i].on != [] && forall c :: c in clauses[i].on ==> c.primaryTable == clauses[i].table)
    && (forall i :: 0 < i < |clauses| ==> clauses[i - 1].table != clauses[i].table)
  }

  method FoldJoins(sorted: seq<JoinCondition>) returns (clauses: seq<InnerJoin>)
    requires forall c :: c in sorted ==> c.primaryTable != ""
    ensures Folded(clauses, sorted)
  {
    hide Folded;
    FoldNothing();
    var lastSeen := "";
    clauses := [];
    for n := 0 to |sorted|
      invariant Folded(clauses, sorted[..n])
      invariant lastSeen == if clauses == [] then "" else clauses[|clauses| - 1].table
    {
      assert sorted[..n + 1] == sorted[..n] + [sorted[n]];
      var last := |clauses| - 1;
      if sorted[n].primaryTable == lastSeen {
        if clauses != [] {
          FoldIntoLast(clauses, sorted[..n], sorted[n]);
          clauses := clauses[last := clauses[last].(on := clauses[last].on + [sorted[n]])];
        }
      } else {
        FoldApart(clauses, sorted[..n], sorted[n]);
        clauses := clauses + [InnerJoin(sorted[n].primaryTable, [sorted[n]])];
        lastSeen := sorted[n].primaryTable;
      }
    }
    assert sorted[..|sorted|] == sorted;
  }

  lemma FoldNothing()
    ensures Folded([], [])
  {
  }

  lemma FoldIntoLast(clauses: seq<InnerJoin>, sorted: seq<JoinCondition>, c: JoinCondition)
    requires Folded(clauses, sorted) && clauses != [] && clauses[|clauses| - 1].table == c.primaryTable
    ensures var last := |clauses| - 1; Folded(clauses[last := clauses[last].(on := clauses[last].on + [c])], sorted + [c])
  {
    var last := |clauses| - 1;
    var longer := clauses[last := clauses[last].(on := clauses[last].on + [c])];
    assert longer[..last] == clauses[..last];
    assert Conditions(longer) == Conditions(clauses[..last]) + (clauses[last].on + [c]) == sorted + [c];
  }

  lemma FoldApart(clauses: seq<InnerJoin>, sorted: seq<JoinCondition>, c: JoinCondition)
    requires Folded(clauses, sorted) && (clauses == [] || clauses[|clauses| - 1].table != c.primaryTable)
    ensures Folded(clauses + [InnerJoin(c.primaryTable, [c])], sorted + [c])
  {
    var longer := clauses + [InnerJoin(c.primaryTable, [c])];
    assert longer[..|clauses|] == clauses;
    assert Conditions(longer) == Conditions(clauses) + [c];
  }

  // ----- scoping -----

  ghost predicate InScope(from: string, clauses: seq<InnerJoin>, n: nat, table: string)
    requires n <= |clauses|
  {
    table == from || exists k :: 0 <= k < n && clauses[k].table == table
  }

  /** Every clause introduces a new table, and its conditions refer to it and to tables before it. */
  ghost predicate WellScoped(from: string, clauses: seq<InnerJoin>) {
    && (forall i :: 0 <= i < |clauses| ==> !InScope(from, clauses, i, clauses[i].table))
    && (forall i, c :: 0 <= i < |clauses| && c in clauses[i].on ==>
          c.primaryTable == clauses[i].table && InScope(from, clauses, i, c.referencingTable))
  }

  function Start(clauses: seq<InnerJoin>, i: nat): nat
    requires i <= |clauses|
  {
    |Conditions(clauses[..i])|
  }

  lemma {:induction false} ConditionAt(clauses: seq<InnerJoin>, i: nat, j: nat)
    requires i < |clauses| && j < |clauses[i].on|
    ensures Start(clauses, i) + j < |Conditions(clauses)|
    ensures Conditions(clauses)[Start(clauses, i) + j] == clauses[i].on[j]
    decreases |clauses|
  {
    var init := clauses[..|clauses| - 1];
    if i < |init| {
      ConditionAt(init, i, j);
      assert init[..i] == clauses[..i];
    }
  }

  lemma {:induction false} ClauseOf(clauses: seq<InnerJoin>, m: nat) returns (i: nat, j: nat)
    requires m < |Conditions(clauses)|
    ensures i < |clauses| && j < |clauses[i].on| && m == Start(clauses, i) + j
    decreases |clauses|
  {
    var init := clauses[..|clauses| - 1];
    if m < |Conditions(init)| {
      i, j := ClauseOf(init, m);
      assert init[..i] == clauses[..i];
    } else {
      i, j := |clauses| - 1, m - |Conditions(init)|;
    }
  }

  lemma {:induction false} StartsRise(clauses: seq<InnerJoin>, i: nat, k: nat)
    requires i < k <= |clauses|
    ensures Start(clauses, i) + |clauses[i].on| <= Start(clauses, k)
    decreases k
  {
    assert clauses[..k][..k - 1] == clauses[..k - 1];
    if i < k - 1 {
      StartsRise(clauses, i, k - 1);
    }
  }

  lemma TablesDistinct(clauses: seq<InnerJoin>, sorted: seq<JoinCondition>, i: nat, k: nat)
    requires Folded(clauses, sorted) && Grouped(sorted) && i < k < |clauses|
    ensures clauses[i].table != clauses[k].table
  {
    if i + 1 < k {
      ConditionAt(clauses, i, 0);
      ConditionAt(clauses, i + 1, 0);
      ConditionAt(clauses, k, 0);
      StartsRise(clauses, i, i + 1);
      StartsRise(clauses, i + 1, k);
      assert clauses[i].on[0] in clauses[i].on && clauses[i + 1].on[0] in clauses[i + 1].on && clauses[k].on[0] in clauses[k].on;
    }
  }

  /** The clause that introduces a referencing table stands before the condition that uses it. */
  lemma IntroducedBefore(clauses: seq<InnerJoin>, sorted: seq<JoinCondition>, i: nat, j: nat, d: JoinCondition) returns (k: nat)
    requires Folded(clauses, sorted) && PrimariesFirst(sorted)
    requires i < |clauses| && j < |clauses[i].on| && d in sorted && d.primaryTable == clauses[i].on[j].referencingTable
    ensures k < i && clauses[k].table == d.primaryTable
  {
    ConditionAt(clauses, i, j);
    var m :| 0 <= m < |sorted| && sorted[m] == d;
    var l;
    k, l := ClauseOf(clauses, m);
    ConditionAt(clauses, k, l);
    assert clauses[k].on[l] in clauses[k].on && clauses[i].on[j] in clauses[i].on;
    assert sorted[Start(clauses, i) + j].referencingTable == sorted[m].primaryTable;
    assert m < Start(clauses, i) + j;
    if i < k {
      StartsRise(clauses, i, k);
    }
  }

  ghost predicate Introduces(from: string, sorted: seq<JoinCondition>, table: string) {
    table == from || exists d :: d in sorted && d.primaryTable == table
  }

  /** Clauses folded from a join order are well scoped when every referencing table is queried or joined and
      the queried table is not joined again. */
  lemma FoldedWellScoped(from: string, clauses: seq<InnerJoin>, sorted: seq<JoinCondition>)
    requires Folded(clauses, sorted) && Grouped(sorted) && PrimariesFirst(sorted)
    requires forall c :: c in sorted ==> c.primaryTable != from && Introduces(from, sorted, c.referencingTable)
    ensures WellScoped(from, clauses)
  {
    forall i | 0 <= i < |clauses|
      ensures !InScope(from, clauses, i, clauses[i].table)
    {
      ConditionAt(clauses, i, 0);
      assert clauses[i].on[0] in clauses[i].on && clauses[i].on[0] in sorted;
      forall k | 0 <= k < i ensures clauses[k].table != clauses[i].table {
        TablesDistinct(clauses, sorted, k, i);
      }
    }
    forall i, c | 0 <= i < |clauses| && c in clauses[i].on
      ensures InScope(from, clauses, i, c.referencingTable)
    {
      var j :| 0 <= j < |clauses[i].on| && clauses[i].on[j] == c;
      ConditionAt(clauses, i, j);
      assert c in sorted;
      if c.referencingTable != from {
        var d :| d in sorted && d.primaryTable == c.referencingTable;
        var k := IntroducedBefore(clauses, sorted, i, j, d);
      }
    }
  }

  /** A table some condition introduces has its clause. */
  lemma IntroducedHasClause(from: string, clauses: seq<InnerJoin>, sorted: seq<JoinCondition>, table: string)
    requires Folded(clauses, sorted) && Introduces(from, sorted, table)
    ensures InScope(from, clauses, |clauses|, table)
  {
    if table != from {
      var d :| d in sorted && d.primaryTable == table;
      var m :| 0 <= m < |sorted| && sorted[m] == d;
      var k, l := ClauseOf(clauses, m);
      ConditionAt(clauses, k, l);
      assert clauses[k].on[l] in clauses[k].on;
    }
  }
}
