/** The rows of a file's connections, and the closing stage of each group: a
    stable sort by call site, and the removal of neighbours with one edge id. */
module ModuleEdges {
  import opened Prelude
  import opened Ordering
  import opened CallGraphs

  /** A rendered edge.  The id hashes the two names and the call site, and not the
      functions themselves. */
  datatype ModuleEdge = ModuleEdge(
    callerFunc: FuncId, calleeFunc: FuncId, edgeId: string,
    caller: string, callerLine: nat, callee: string, calleeLine: nat, line: nat, column: nat)

  /** By line, column and callee. */
  predicate RowOrder(a: ModuleEdge, b: ModuleEdge) {
    || a.line < b.line
    || (a.line == b.line && (a.column < b.column || (a.column == b.column &&
         (a.callee == b.callee || Less(a.callee, b.callee)))))
  }

  lemma RowOrderIsTotal()
    ensures TotalPreorder(RowOrder)
  {
    forall a, b
      ensures RowOrder(a, b) || RowOrder(b, a)
    {
      LessIsTotal(a.callee, b.callee);
    }
    forall a, b, c | RowOrder(a, b) && RowOrder(b, c)
      ensures RowOrder(a, c)
    {
      if Less(a.callee, b.callee) && Less(b.callee, c.callee) {
        LessIsTransitive(a.callee, b.callee, c.callee);
      }
    }
  }

  // ------------------------------------------------------------ closing stage

  /** Of neighbours with one id, only the first stays. */
  function DropRepeats(rows: seq<ModuleEdge>): seq<ModuleEdge> {
    if rows == [] then []
    else
      var kept, row := DropRepeats(rows[..|rows| - 1]), rows[|rows| - 1];
      if kept != [] && kept[|kept| - 1].edgeId == row.edgeId then kept else kept + [row]
  }

  ghost predicate Closes(rows: seq<ModuleEdge>, closed: seq<ModuleEdge>) {
    exists sorted :: SortsTo(rows, RowOrder, sorted) && closed == DropRepeats(sorted)
  }

  method CloseGroup(rows: seq<ModuleEdge>) returns (closed: seq<ModuleEdge>)
    ensures Closes(rows, closed)
  {
    ghost var any := (a: ModuleEdge, b: ModuleEdge) => true;
    RowOrderIsTotal();
    var sorted := StableSort(rows, RowOrder, any);
    closed := [];
    for k := 0 to |sorted|
      invariant closed == DropRepeats(sorted[..k])
    {
      assert sorted[..k + 1][..k] == sorted[..k];
      if closed == [] || closed[|closed| - 1].edgeId != sorted[k].edgeId {
        closed := closed + [sorted[k]];
      }
    }
    assert sorted[..|sorted|] == sorted;
  }

  /** The same rows in the same order always close to the same group. */
  lemma ClosesOnce(rows: seq<ModuleEdge>, a: seq<ModuleEdge>, b: seq<ModuleEdge>)
    requires Closes(rows, a) && Closes(rows, b)
    ensures a == b
  {
    var x: seq<ModuleEdge> :| SortsTo(rows, RowOrder, x) && a == DropRepeats(x);
    var y: seq<ModuleEdge> :| SortsTo(rows, RowOrder, y) && b == DropRepeats(y);
    var f :| Arranged(rows, RowOrder, f, x);
    var g :| Arranged(rows, RowOrder, g, y);
    ArrangementIsUnique(rows, RowOrder, f, g);
  }

  lemma ClosingExists(rows: seq<ModuleEdge>) returns (closed: seq<ModuleEdge>)
    ensures Closes(rows, closed)
  {
    RowOrderIsTotal();
    var from := ArrangementExists(rows, RowOrder);
    var sorted := Picked(rows, from);
    assert Arranged(rows, RowOrder, from, sorted);
    closed := DropRepeats(sorted);
  }

  // -------------------------------------------------------- what stays and why

  /** The row at `k` opens a run of its id. */
  predicate Opens(rows: seq<ModuleEdge>, k: nat) {
    k < |rows| && (k > 0 ==> rows[k - 1].edgeId != rows[k].edgeId)
  }

  ghost predicate OpensRun(rows: seq<ModuleEdge>, m: ModuleEdge) {
    exists k: nat :: k < |rows| && rows[k] == m && Opens(rows, k)
  }

  /** A row stays exactly where it opens a run of its id. */
  lemma {:induction false} StaysWhere(rows: seq<ModuleEdge>, m: ModuleEdge)
    ensures m in DropRepeats(rows) <==> OpensRun(rows, m)
    decreases |rows|
  {
    if rows != [] {
      StaysWhere(rows[..|rows| - 1], m);
    }
  }

  /** Position `j` of the unsorted rows is the one that ends up directly before
      position `i`. */
  ghost predicate JustBefore(rows: seq<ModuleEdge>, j: nat, i: nat) {
    && Precedes(rows, RowOrder, j, i)
    && !exists k: nat :: Precedes(rows, RowOrder, j, k) && Precedes(rows, RowOrder, k, i)
  }

  /** The row at `i` opens a run of its id. */
  ghost predicate Leads(rows: seq<ModuleEdge>, i: nat)
    requires i < |rows|
  {
    forall j: nat :: JustBefore(rows, j, i) ==> rows[j].edgeId != rows[i].edgeId
  }

  lemma NeighboursAreJustBefore(rows: seq<ModuleEdge>, from: seq<nat>, k: nat)
    requires Arranges(rows, RowOrder, from) && k < |from|
    ensures forall j: nat :: JustBefore(rows, j, from[k]) <==> k > 0 && j == from[k - 1]
  {
    forall j: nat
      ensures JustBefore(rows, j, from[k]) <==> k > 0 && j == from[k - 1]
    {
      if Precedes(rows, RowOrder, j, from[k]) {
        assert j in from;
        var p :| 0 <= p < |from| && from[p] == j;
        if p < k - 1 {
          assert Precedes(rows, RowOrder, from[p], from[k - 1]) && Precedes(rows, RowOrder, from[k - 1], from[k]);
        }
      }
      if k > 0 && j == from[k - 1] {
        assert Precedes(rows, RowOrder, j, from[k]);
        forall between: nat | Precedes(rows, RowOrder, j, between) && Precedes(rows, RowOrder, between, from[k])
          ensures false
        {
          assert between in from;
          var p :| 0 <= p < |from| && from[p] == between;
        }
      }
    }
  }

  /** A row survives the closing stage if and only if one of its occurrences
      opens a run of its id. */
  lemma SurvivesExactlyWhen(rows: seq<ModuleEdge>, closed: seq<ModuleEdge>, m: ModuleEdge)
    requires Closes(rows, closed)
    ensures m in closed <==> exists i :: 0 <= i < |rows| && rows[i] == m && Leads(rows, i)
  {
    hide RowOrder, JustBefore, DropRepeats, Leads, Opens;
    var sorted: seq<ModuleEdge> :| SortsTo(rows, RowOrder, sorted) && closed == DropRepeats(sorted);
    var from :| Arranged(rows, RowOrder, from, sorted);
    StaysWhere(sorted, m);
    forall k | 0 <= k < |sorted|
      ensures sorted[k] == rows[from[k]] && (Leads(rows, from[k]) <==> Opens(sorted, k))
    {
      LeadsWhere(rows, from, sorted, k);
    }
    if OpensRun(sorted, m) {
      var k: nat :| k < |sorted| && sorted[k] == m && Opens(sorted, k);
      assert rows[from[k]] == m && Leads(rows, from[k]);
    }
    if exists i :: 0 <= i < |rows| && rows[i] == m && Leads(rows, i) {
      var i :| 0 <= i < |rows| && rows[i] == m && Leads(rows, i);
      assert i in from;
      var k :| 0 <= k < |from| && from[k] == i;
      assert sorted[k] == m && Opens(sorted, k);
    }
  }

  lemma LeadsWhere(rows: seq<ModuleEdge>, from: seq<nat>, sorted: seq<ModuleEdge>, k: nat)
    requires Arranged(rows, RowOrder, from, sorted) && k < |sorted|
    ensures sorted[k] == rows[from[k]] && (Leads(rows, from[k]) <==> Opens(sorted, k))
  {
    hide RowOrder, JustBefore;
    NeighboursAreJustBefore(rows, from, k);
    assert k > 0 ==> JustBefore(rows, from[k - 1], from[k]) && sorted[k - 1] == rows[from[k - 1]];
  }

  /** No id is lost, and no row is invented. */
  lemma ClosingKeepsIds(rows: seq<ModuleEdge>, closed: seq<ModuleEdge>)
    requires Closes(rows, closed)
    ensures forall m :: m in closed ==> m in rows
    ensures forall m :: m in rows ==> HasId(closed, m.edgeId)
  {
    var sorted: seq<ModuleEdge> :| SortsTo(rows, RowOrder, sorted) && closed == DropRepeats(sorted);
    var from :| Arranged(rows, RowOrder, from, sorted);
    DropKeepsIds(sorted);
    forall m | m in rows
      ensures m in sorted
    {
      var i :| 0 <= i < |rows| && rows[i] == m;
      assert i in from;
      var k :| 0 <= k < |from| && from[k] == i;
      assert sorted[k] == m;
    }
    forall m | m in sorted
      ensures m in rows
    {
      var k :| 0 <= k < |sorted| && sorted[k] == m;
      assert rows[from[k]] == m;
    }
  }

  ghost predicate HasId(rows: seq<ModuleEdge>, id: string) {
    exists q :: q in rows && q.edgeId == id
  }

  lemma {:induction false} DropKeepsIds(rows: seq<ModuleEdge>)
    ensures forall m :: m in DropRepeats(rows) ==> m in rows
    ensures forall m :: m in rows ==> HasId(DropRepeats(rows), m.edgeId)
    decreases |rows|
  {
    if rows != [] {
      var init, row := rows[..|rows| - 1], rows[|rows| - 1];
      var kept := DropRepeats(init);
      DropKeepsIds(init);
      assert rows == init + [row];
      assert row in kept + [row];
      assert kept != [] ==> kept[|kept| - 1] in kept;
      forall m | m in init
        ensures HasId(DropRepeats(rows), m.edgeId)
      {
        var q :| q in kept && q.edgeId == m.edgeId;
        assert q in DropRepeats(rows);
      }
    }
  }

  lemma {:induction false} DropKeepsOrder(rows: seq<ModuleEdge>)
    requires Related(rows, RowOrder)
    ensures Related(DropRepeats(rows), RowOrder)
    decreases |rows|
  {
    if rows != [] {
      hide RowOrder;
      var init, row := rows[..|rows| - 1], rows[|rows| - 1];
      DropKeepsOrder(init);
      DropKeepsIds(init);
      forall m | m in DropRepeats(init)
        ensures RowOrder(m, row)
      {
        var i :| 0 <= i < |init| && init[i] == m;
        assert rows[i] == m;
      }
    }
  }

  /** A closed group is listed by line, then column, then callee, and no two
      neighbours share an id. */
  lemma ClosedIsListed(rows: seq<ModuleEdge>, closed: seq<ModuleEdge>)
    requires Closes(rows, closed)
    ensures forall i, j :: 0 <= i < j < |closed| ==>
      || closed[i].line < closed[j].line
      || (closed[i].line == closed[j].line
          && (|| closed[i].column < closed[j].column
              || (closed[i].column == closed[j].column
                  && (closed[i].callee == closed[j].callee || Less(closed[i].callee, closed[j].callee)))))
    ensures forall i :: 0 < i < |closed| ==> closed[i - 1].edgeId != closed[i].edgeId
  {
    var sorted: seq<ModuleEdge> :| SortsTo(rows, RowOrder, sorted) && closed == DropRepeats(sorted);
    var from :| Arranged(rows, RowOrder, from, sorted);
    ArrangedAscends(rows, RowOrder, from, sorted);
    DropKeepsOrder(sorted);
    NeighboursDiffer(sorted);
    forall i, j | 0 <= i < j < |closed|
      ensures RowOrder(closed[i], closed[j])
    {
    }
  }

  ghost predicate NeighbourIdsDiffer(rows: seq<ModuleEdge>) {
    forall i :: 0 < i < |rows| ==> rows[i - 1].edgeId != rows[i].edgeId
  }

  lemma {:induction false} NeighboursDiffer(rows: seq<ModuleEdge>)
    ensures NeighbourIdsDiffer(DropRepeats(rows))
    decreases |rows|
  {
    if rows != [] {
      NeighboursDiffer(rows[..|rows| - 1]);
    }
  }

  // ------------------------------------------------------- ambiguous call sites

  /** One id stands for one row. */
  ghost predicate Unambiguous(rows: seq<ModuleEdge>) {
    forall m, n :: m in rows && n in rows && m.edgeId == n.edgeId ==> m == n
  }

  /** One id stands for one place in the sort order, as it does unless the hash
      collides. */
  ghost predicate IdsPlace(rows: seq<ModuleEdge>) {
    forall m, n :: m in rows && n in rows && m.edgeId == n.edgeId ==> RowOrder(m, n)
  }

  lemma UnambiguousSurvives(rows: seq<ModuleEdge>, closed: seq<ModuleEdge>)
    requires Closes(rows, closed) && Unambiguous(rows)
    ensures Elements(closed) == Elements(rows)
  {
    ClosingKeepsIds(rows, closed);
    forall m | m in rows
      ensures m in closed
    {
      var q :| q in closed && q.edgeId == m.edgeId;
    }
  }

  /** Two rows that share an id: only the one that comes first is shown. */
  lemma FirstShadowsSecond(first: ModuleEdge, second: ModuleEdge, others: seq<ModuleEdge>, closed: seq<ModuleEdge>)
    requires first != second && first.edgeId == second.edgeId && first !in others && second !in others
    requires IdsPlace([first, second] + others) && Closes([first, second] + others, closed)
    ensures first in closed && second !in closed
  {
    var rows := [first, second] + others;
    assert rows[0] == first && rows[1] == second;
    SurvivesExactlyWhen(rows, closed, first);
    SurvivesExactlyWhen(rows, closed, second);
    FirstLeads(rows);
    SecondFollows(rows);
    forall i | 2 <= i < |rows|
      ensures rows[i] != second
    {
      assert rows[i] == others[i - 2];
    }
  }

  lemma FirstLeads(rows: seq<ModuleEdge>)
    requires |rows| > 0 && IdsPlace(rows)
    ensures Leads(rows, 0)
  {
    hide RowOrder;
    forall j: nat | JustBefore(rows, j, 0)
      ensures rows[j].edgeId != rows[0].edgeId
    {
      assert rows[j] in rows && rows[0] in rows;
    }
  }

  lemma SecondFollows(rows: seq<ModuleEdge>)
    requires |rows| > 1 && rows[0].edgeId == rows[1].edgeId && IdsPlace(rows)
    ensures !Leads(rows, 1)
  {
    RowOrderIsTotal();
    hide RowOrder;
    assert rows[0] in rows && rows[1] in rows;
    forall k: nat
      ensures !(Precedes(rows, RowOrder, 0, k) && Precedes(rows, RowOrder, k, 1))
    {
      if k < |rows| && RowOrder(rows[0], rows[k]) {
        assert RowOrder(rows[1], rows[k]);
      }
    }
    assert JustBefore(rows, 0, 1);
  }

  /** Which rows a group shows depends on the order in which they were gathered,
      exactly when two of them share an id. */
  lemma OrderIsIrrelevantExactlyWhen(rows: seq<ModuleEdge>)
    requires IdsPlace(rows)
    ensures (forall other, a, b :: Elements(other) == Elements(rows) && Closes(rows, a) && Closes(other, b) ==>
               Elements(a) == Elements(b))
            <==> Unambiguous(rows)
  {
    if Unambiguous(rows) {
      forall other, a, b | Elements(other) == Elements(rows) && Closes(rows, a) && Closes(other, b)
        ensures Elements(a) == Elements(b)
      {
        SameElements(rows, other);
        UnambiguousSurvives(rows, a);
        UnambiguousSurvives(other, b);
      }
    } else {
      var m, n :| m in rows && n in rows && m.edgeId == n.edgeId && m != n;
      hide Closes, RowOrder, IdsPlace;
      var a := ClosingExists(rows);
      var one, b := Alternative(rows, m, n);
      var two, c := Alternative(rows, n, m);
      assert m in Elements(b) && m !in Elements(c);
      assert Elements(a) != Elements(b) || Elements(a) != Elements(c);
    }
  }

  /** The same rows, gathered so that `m` comes first. */
  lemma Alternative(rows: seq<ModuleEdge>, m: ModuleEdge, n: ModuleEdge)
    returns (other: seq<ModuleEdge>, closed: seq<ModuleEdge>)
    requires IdsPlace(rows) && m in rows && n in rows && m.edgeId == n.edgeId && m != n
    ensures Elements(other) == Elements(rows) && Closes(other, closed)
    ensures m in closed && n !in closed
  {
    hide Closes, RowOrder;
    var others := Fronted(rows, m, n);
    other := [m, n] + others;
    SameElements(rows, other);
    closed := ClosingExists(other);
    FirstShadowsSecond(m, n, others, closed);
  }

  lemma SameElements(a: seq<ModuleEdge>, b: seq<ModuleEdge>)
    requires Elements(a) == Elements(b)
    ensures forall m :: m in a <==> m in b
  {
    forall m: ModuleEdge
      ensures m in a <==> m in b
    {
      assert m in a <==> m in Elements(a);
      assert m in b <==> m in Elements(b);
    }
  }

  /** The other rows, to be put behind `m` and `n`. */
  lemma {:induction false} Fronted(rows: seq<ModuleEdge>, m: ModuleEdge, n: ModuleEdge)
    returns (others: seq<ModuleEdge>)
    ensures m !in others && n !in others
    ensures forall x :: x in others <==> x in rows && x != m && x != n
    ensures m in rows && n in rows ==> Elements([m, n] + others) == Elements(rows)
    decreases |rows|
  {
    if rows == [] {
      others := [];
    } else {
      var last := rows[|rows| - 1];
      assert rows == rows[..|rows| - 1] + [last];
      others := Fronted(rows[..|rows| - 1], m, n);
      others := if last == m || last == n then others else others + [last];
    }
    assert forall x :: x in [m, n] + others <==> x == m || x == n || x in others;
  }
}
