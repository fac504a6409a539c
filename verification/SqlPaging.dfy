/**
 Paging over the row store. The query orders by creation time only, newest first, so the database
 may put rows that were created at one instant in a different order each time it is asked.
 */
module SqlPaging {
  import opened Prelude
  import opened Domain
  import opened TaskListing
  import opened StoreCalls

  lemma {:induction false} MatchingRowsCount(
    rows: seq<TaskRow>, tenant: Option<string>, direction: Option<Direction>, r: TaskRow)
    ensures multiset(MatchingRows(rows, tenant, direction))[r]
      == if RowMatches(r.value, tenant, direction) then multiset(rows)[r] else 0
    decreases |rows|
  {
    if rows != [] {
      MatchingRowsCount(rows[1..], tenant, direction, r);
      var tail := MatchingRows(rows[1..], tenant, direction);
      assert rows == [rows[0]] + rows[1..];
      assert multiset(rows) == multiset{rows[0]} + multiset(rows[1..]);
      if RowMatches(rows[0].value, tenant, direction) {
        assert multiset([rows[0]] + tail) == multiset{rows[0]} + multiset(tail);
      } else {
        assert MatchingRows(rows, tenant, direction) == tail;
      }
    }
  }

  /** A filter that is given must be met, one that is not is no condition. */
  lemma FiltersExactly(rows: seq<TaskRow>, tenant: Option<string>, direction: Option<Direction>, r: TaskRow)
    ensures r in MatchingRows(rows, tenant, direction) <==>
      r in rows && (tenant == None || tenant == Some(r.value.tenant))
      && (direction == None || direction == Some(r.value.direction))
  {
    MatchingRowsCount(rows, tenant, direction, r);
    assert r in MatchingRows(rows, tenant, direction) <==> multiset(MatchingRows(rows, tenant, direction))[r] > 0;
    assert r in rows <==> multiset(rows)[r] > 0;
  }

  /** SQL PAGING PARTITION. If the database breaks ties alike on every query, the pages laid end to
      end are the matching rows, newest first: each as often as the table holds it, and no other. */
  lemma SqlPagesPartition(
    rows: seq<TaskRow>, tenant: Option<string>, direction: Option<Direction>, ranked: seq<TaskRow>, limit: nat)
    requires limit >= 1 && Ranking(ranked, MatchingRows(rows, tenant, direction))
    ensures
      var pages := Slices(ranked, limit, 0);
      && Descending(pages)
      && forall r :: multiset(pages)[r] == if RowMatches(r.value, tenant, direction) then multiset(rows)[r] else 0
  {
    SlicesCover(ranked, limit, 0);
    assert ranked[0..] == ranked;
    forall r
      ensures multiset(ranked)[r] == if RowMatches(r.value, tenant, direction) then multiset(rows)[r] else 0
    {
      MatchingRowsCount(rows, tenant, direction, r);
    }
  }

  /** Every list of rows can be ranked. */
  lemma {:induction false} RankingExists(rows: seq<TaskRow>) returns (ranked: seq<TaskRow>)
    ensures Ranking(ranked, rows)
    decreases |rows|
  {
    if rows == [] {
      ranked := [];
    } else {
      var rest := RankingExists(rows[1..]);
      ranked := RankIn(rows[0], rest);
      assert rows == [rows[0]] + rows[1..];
    }
  }

  lemma {:induction false} RankIn(r: TaskRow, s: seq<TaskRow>) returns (ranked: seq<TaskRow>)
    requires Descending(s)
    ensures Descending(ranked) && multiset(ranked) == multiset(s) + multiset{r}
    ensures forall x :: x in ranked <==> x == r || x in s
    decreases |s|
  {
    if s == [] || r.value.createdAt >= s[0].value.createdAt {
      ranked := [r] + s;
      FirstInFront(r, s);
    } else {
      var rest := RankIn(r, s[1..]);
      ranked := [s[0]] + rest;
      assert s == [s[0]] + s[1..];
      FirstInFront(s[0], rest);
    }
  }

  lemma FirstInFront(r: TaskRow, s: seq<TaskRow>)
    requires Descending(s) && forall x :: x in s ==> r.value.createdAt >= x.value.createdAt
    ensures Descending([r] + s)
  {
  }

  ghost predicate DistinctTimes(rows: seq<TaskRow>) {
    forall i, j :: 0 <= i < j < |rows| ==> rows[i].value.createdAt != rows[j].value.createdAt
  }

  /** The rows up to any page boundary from one query and the rows after it from another make up the
      whole, each row once, however each query breaks its ties. */
  ghost predicate PagesFit(rows: seq<TaskRow>) {
    forall a: seq<TaskRow>, b: seq<TaskRow>, cut: nat ::
      Ranking(a, rows) && Ranking(b, rows) && cut <= |a| && cut <= |b| ==>
        multiset(a[..cut]) + multiset(b[cut..]) == multiset(rows)
  }

  lemma {:induction false} UniqueCounts(rows: seq<TaskRow>, r: TaskRow)
    requires KeysUnique(rows)
    ensures multiset(rows)[r] == if r in rows then 1 else 0
    decreases |rows|
  {
    if rows != [] {
      UniqueCounts(rows[1..], r);
      assert rows == [rows[0]] + rows[1..];
    }
  }

  lemma NoneTwice(s: seq<TaskRow>, i: nat, j: nat)
    requires i < j < |s| && s[i] == s[j]
    ensures multiset(s)[s[i]] >= 2
  {
    assert s == s[..j] + s[j..];
    assert s[i] == s[..j][i] && s[j] == s[j..][0];
    assert multiset(s) == multiset(s[..j]) + multiset(s[j..]);
    assert s[i] in multiset(s[..j]) && s[i] in multiset(s[j..]);
  }

  /** Distinct times leave nothing to choose. */
  lemma {:induction false} OneRanking(a: seq<TaskRow>, b: seq<TaskRow>)
    requires multiset(a) == multiset(b) && Descending(a) && Descending(b) && DistinctTimes(a)
    ensures a == b
    decreases |a|
  {
    assert |a| == |multiset(a)| == |multiset(b)| == |b|;
    if a != [] {
      HeadsAgree(a, b);
      TailCount(a);
      TailCount(b);
      OneRanking(a[1..], b[1..]);
    }
  }

  lemma HeadsAgree(a: seq<TaskRow>, b: seq<TaskRow>)
    requires multiset(a) == multiset(b) && Descending(a) && Descending(b) && DistinctTimes(a) && a != [] && b != []
    ensures a[0] == b[0]
  {
    assert a[0] in multiset(b) && b[0] in multiset(a);
    var q :| 0 <= q < |b| && b[q] == a[0];
    var p :| 0 <= p < |a| && a[p] == b[0];
  }

  lemma TailCount(s: seq<TaskRow>)
    requires s != []
    ensures multiset(s[1..]) == multiset(s) - multiset{s[0]}
  {
    assert s == [s[0]] + s[1..];
  }

  lemma RankedTimesDistinct(a: seq<TaskRow>, rows: seq<TaskRow>)
    requires Ranking(a, rows) && DistinctTimes(rows) && KeysUnique(rows)
    ensures DistinctTimes(a)
  {
    forall i, j | 0 <= i < j < |a|
      ensures a[i].value.createdAt != a[j].value.createdAt
    {
      assert a[i] in multiset(rows) && a[j] in multiset(rows);
      if a[i] == a[j] {
        NoneTwice(a, i, j);
        UniqueCounts(rows, a[i]);
      }
    }
  }

  /** Two rows of one instant stand next to two such rows in every ranking. */
  lemma AdjacentTie(a: seq<TaskRow>, rows: seq<TaskRow>, i: nat, j: nat) returns (k: nat)
    requires Ranking(a, rows) && KeysUnique(rows) && i < j < |rows|
    requires rows[i].value.createdAt == rows[j].value.createdAt
    ensures k + 1 < |a| && a[k].value.createdAt == a[k + 1].value.createdAt && a[k] != a[k + 1]
  {
    assert rows[i] in multiset(a) && rows[j] in multiset(a);
    var p :| 0 <= p < |a| && a[p] == rows[i];
    var q :| 0 <= q < |a| && a[q] == rows[j];
    k := if p < q then p else q;
    if a[k] == a[k + 1] {
      NoneTwice(a, k, k + 1);
      UniqueCounts(rows, a[k]);
    }
  }

  lemma TieSwapped(a: seq<TaskRow>, rows: seq<TaskRow>, k: nat)
    requires Ranking(a, rows) && k + 1 < |a| && a[k].value.createdAt == a[k + 1].value.createdAt
    ensures Ranking(a[k := a[k + 1]][k + 1 := a[k]], rows)
  {
  }

  /** A tie broken two ways shows one row on both sides of a page boundary. */
  lemma TieBreaksFit(a: seq<TaskRow>, rows: seq<TaskRow>, k: nat)
    requires Ranking(a, rows) && KeysUnique(rows)
    requires k + 1 < |a| && a[k].value.createdAt == a[k + 1].value.createdAt && a[k] != a[k + 1]
    ensures !PagesFit(rows)
  {
    var b, cut := a[k := a[k + 1]][k + 1 := a[k]], k + 1;
    TieSwapped(a, rows, k);
    assert a[..cut][k] == a[k] && b[cut..][0] == a[k];
    assert a[k] in multiset(a[..cut]) && a[k] in multiset(b[cut..]);
    UniqueCounts(rows, a[k]);
    assert (multiset(a[..cut]) + multiset(b[cut..]))[a[k]] >= 2;
  }

  /** WHEN SQL PAGES FIT, exactly. Whatever the database does with ties from one query to the next,
      pages of different queries fit together at every boundary if and only if no two of the rows
      were created at one instant. */
  lemma PagesFitExactly(rows: seq<TaskRow>)
    requires KeysUnique(rows)
    ensures PagesFit(rows) <==> DistinctTimes(rows)
  {
    if DistinctTimes(rows) {
      forall a: seq<TaskRow>, b: seq<TaskRow>, cut: nat
        | Ranking(a, rows) && Ranking(b, rows) && cut <= |a| && cut <= |b|
        ensures multiset(a[..cut]) + multiset(b[cut..]) == multiset(rows)
      {
        RankedTimesDistinct(a, rows);
        OneRanking(a, b);
        assert a == a[..cut] + a[cut..];
      }
    } else {
      var i, j :| 0 <= i < j < |rows| && rows[i].value.createdAt == rows[j].value.createdAt;
      var a := RankingExists(rows);
      var k := AdjacentTie(a, rows, i, j);
      TieBreaksFit(a, rows, k);
    }
  }
}
