/** The allocation list a settlement writes: filtering and sorting lose nothing, the keys
    come out strictly ascending, and each investor gets what the settlement computed. */
module Allotment {
  import opened Arithmetic
  import opened Accounts
  import opened Settlement

  predicate HasKey(allocs: seq<InvestorAlloc>, key: Pubkey) {
    exists i :: 0 <= i < |allocs| && allocs[i].investor == key
  }

  predicate Ascending(allocs: seq<InvestorAlloc>) {
    forall i, j :: 0 <= i < j < |allocs| ==> allocs[i].investor < allocs[j].investor
  }

  predicate OneEach(allocs: seq<InvestorAlloc>) {
    forall i, j :: 0 <= i < j < |allocs| ==> allocs[i].investor != allocs[j].investor
  }

  predicate AllPositive(allocs: seq<InvestorAlloc>) {
    forall i :: 0 <= i < |allocs| ==> allocs[i].walnAmount > 0
  }

  // ---------- filtering and sorting ----------

  lemma {:induction false} RetainTotal(allocs: seq<InvestorAlloc>, f: InvestorAlloc -> int)
    requires forall a: InvestorAlloc :: a.walnAmount == 0 ==> f(a) == 0
    ensures Total(Retain(allocs), f) == Total(allocs, f)
  {
    if |allocs| > 0 {
      var init, last := allocs[..|allocs| - 1], allocs[|allocs| - 1];
      RetainTotal(init, f);
      assert allocs == init + [last];
      TotalAppend(init, last, f);
      TotalAppend(Retain(init), last, f);
      assert Retain(init) + [] == Retain(init);
    }
  }

  lemma {:induction false} RetainKeeps(allocs: seq<InvestorAlloc>)
    requires OneEach(allocs)
    ensures OneEach(Retain(allocs)) && AllPositive(Retain(allocs))
    ensures forall i :: 0 <= i < |Retain(allocs)| ==> HasKey(allocs, Retain(allocs)[i].investor)
  {
    if |allocs| > 0 {
      var init, last := allocs[..|allocs| - 1], allocs[|allocs| - 1];
      RetainKeeps(init);
      forall i | 0 <= i < |Retain(init)|
        ensures HasKey(allocs, Retain(init)[i].investor) && Retain(init)[i].investor != last.investor
      {
        var k :| 0 <= k < |init| && init[k].investor == Retain(init)[i].investor;
        assert allocs[k].investor == Retain(init)[i].investor;
      }
      assert HasKey(allocs, last.investor);
    }
  }

  lemma {:induction false} InsertSorts(a: InvestorAlloc, s: seq<InvestorAlloc>)
    requires Ascending(s) && !HasKey(s, a.investor)
    ensures Ascending(Insert(a, s)) && |Insert(a, s)| == |s| + 1
    ensures forall i :: 0 <= i < |Insert(a, s)| ==> Insert(a, s)[i] == a || Insert(a, s)[i] in s
  {
    if |s| > 0 {
      assert s[0].investor != a.investor;
      if a.investor > s[0].investor {
        assert forall i :: 0 <= i < |s| - 1 ==> s[1..][i] == s[i + 1];
        InsertSorts(a, s[1..]);
        assert forall x :: x in s[1..] ==> x in s && s[0].investor < x.investor;
      }
    }
  }

  lemma {:induction false} InsertTotal(a: InvestorAlloc, s: seq<InvestorAlloc>, f: InvestorAlloc -> int)
    ensures Total(Insert(a, s), f) == Total(s, f) + f(a)
  {
    if |s| == 0 || a.investor <= s[0].investor {
      TotalConcat([a], s, f);
      TotalAppend([], a, f);
      assert [] + [a] == [a];
    } else {
      InsertTotal(a, s[1..], f);
      TotalConcat([s[0]], s[1..], f);
      TotalConcat([s[0]], Insert(a, s[1..]), f);
      assert [s[0]] + s[1..] == s;
    }
  }

  /** Sorting keeps every sum over the entries. */
  lemma {:induction false} SortTotal(allocs: seq<InvestorAlloc>, f: InvestorAlloc -> int)
    ensures Total(SortAllocs(allocs), f) == Total(allocs, f)
  {
    if |allocs| > 0 {
      var init, last := allocs[..|allocs| - 1], allocs[|allocs| - 1];
      SortTotal(init, f);
      InsertTotal(last, SortAllocs(init), f);
      assert allocs == init + [last];
      TotalAppend(init, last, f);
    }
  }

  /** Entries of distinct investors come out strictly ascending, none lost or invented. */
  lemma {:induction false} SortSorts(allocs: seq<InvestorAlloc>)
    requires OneEach(allocs)
    ensures Ascending(SortAllocs(allocs)) && |SortAllocs(allocs)| == |allocs|
    ensures forall i :: 0 <= i < |allocs| ==> SortAllocs(allocs)[i] in allocs
  {
    if |allocs| > 0 {
      var init, last := allocs[..|allocs| - 1], allocs[|allocs| - 1];
      SortSorts(init);
      var sorted := SortAllocs(init);
      forall i | 0 <= i < |sorted|
        ensures sorted[i].investor != last.investor && sorted[i] in allocs
      {
        assert sorted[i] in init;
        var k :| 0 <= k < |init| && init[k] == sorted[i];
        assert allocs[k] == init[k];
      }
      InsertSorts(last, sorted);
      forall i | 0 <= i < |allocs|
        ensures SortAllocs(allocs)[i] in allocs
      {
        var x := Insert(last, sorted)[i];
        if x != last {
          var k :| 0 <= k < |sorted| && sorted[k] == x;
        }
      }
    }
  }

  /** The list as stored: same sums, strictly ascending keys, positive amounts only. */
  lemma Stored(allocs: seq<InvestorAlloc>)
    requires OneEach(allocs)
    ensures var stored := SortAllocs(Retain(allocs));
      && Ascending(stored) && AllPositive(stored)
      && |stored| == Total(stored, UnpaidOf) == |Retain(allocs)|
      && Total(stored, WalnOf) == Total(allocs, WalnOf)
      && forall key :: Total(stored, WalnFor(key)) == Total(allocs, WalnFor(key))
  {
    StoredOrdered(allocs);
    StoredTotal(allocs, WalnOf);
    forall key
      ensures Total(SortAllocs(Retain(allocs)), WalnFor(key)) == Total(allocs, WalnFor(key))
    {
      StoredTotal(allocs, WalnFor(key));
    }
  }

  lemma StoredOrdered(allocs: seq<InvestorAlloc>)
    requires OneEach(allocs)
    ensures var stored := SortAllocs(Retain(allocs));
      Ascending(stored) && AllPositive(stored) && |stored| == Total(stored, UnpaidOf) == |Retain(allocs)|
  {
    RetainKeeps(allocs);
    SortKeeps(Retain(allocs));
    UnpaidCount(SortAllocs(Retain(allocs)));
  }

  lemma UnpaidCount(allocs: seq<InvestorAlloc>)
    requires AllPositive(allocs)
    ensures Total(allocs, UnpaidOf) == |allocs|
  {
    SumConstant(Column(allocs, UnpaidOf), 1, |allocs|);
  }

  lemma SortKeeps(kept: seq<InvestorAlloc>)
    requires OneEach(kept) && AllPositive(kept)
    ensures Ascending(SortAllocs(kept)) && AllPositive(SortAllocs(kept)) && |SortAllocs(kept)| == |kept|
  {
    SortSorts(kept);
    forall i | 0 <= i < |kept|
      ensures SortAllocs(kept)[i].walnAmount > 0
    {
      var k :| 0 <= k < |kept| && kept[k] == SortAllocs(kept)[i];
    }
  }

  lemma StoredTotal(allocs: seq<InvestorAlloc>, f: InvestorAlloc -> int)
    requires forall a: InvestorAlloc :: a.walnAmount == 0 ==> f(a) == 0
    ensures Total(SortAllocs(Retain(allocs)), f) == Total(allocs, f)
  {
    RetainTotal(allocs, f);
    SortTotal(Retain(allocs), f);
  }

  // ---------- the entries of the participants ----------

  lemma {:induction false} AllocationsTotal(pool: seq<InvestorRecord>, amounts: seq<int>, n: nat)
    requires n <= |pool| == |amounts|
    requires forall i :: 0 <= i < n ==> 0 <= amounts[i] <= U64_MAX && (pool[i].usdcLocked == 0 ==> amounts[i] == 0)
    ensures Total(Allocations(pool, amounts, n), WalnOf) == SumTo(amounts, n)
  {
    if n > 0 {
      AllocationsTotal(pool, amounts, n - 1);
      TotalAppend(Allocations(pool, amounts, n - 1), InvestorAlloc(pool[n - 1].investor, amounts[n - 1]), WalnOf);
    }
  }

  lemma {:induction false} AllocationsKeys(pool: seq<InvestorRecord>, amounts: seq<int>, n: nat)
    requires n <= |pool| == |amounts| && Distinct(Keys(pool))
    requires forall i :: 0 <= i < n ==> 0 <= amounts[i] <= U64_MAX
    ensures OneEach(Allocations(pool, amounts, n))
    ensures forall k :: 0 <= k < |Allocations(pool, amounts, n)| ==>
      exists i :: 0 <= i < n && pool[i].usdcLocked > 0 && Allocations(pool, amounts, n)[k].investor == pool[i].investor
    ensures |Allocations(pool, amounts, n)| == SumTo(Positive(Column(pool, LockOf)), n)
  {
    if n > 0 {
      AllocationsKeys(pool, amounts, n - 1);
      ColumnAt(pool, LockOf, n - 1);
      var before := Allocations(pool, amounts, n - 1);
      forall k | 0 <= k < |before|
        ensures before[k].investor != pool[n - 1].investor
      {
        var i :| 0 <= i < n - 1 && pool[i].usdcLocked > 0 && before[k].investor == pool[i].investor;
        assert Keys(pool)[i] != Keys(pool)[n - 1];
      }
    }
  }

  /** Participant `i` gets exactly its amount. */
  lemma {:induction false} AllocationsFor(pool: seq<InvestorRecord>, amounts: seq<int>, n: nat, i: nat)
    requires i < |pool| == |amounts| && n <= |pool| && Distinct(Keys(pool)) && pool[i].usdcLocked > 0
    requires forall j :: 0 <= j < |pool| ==> 0 <= amounts[j] <= U64_MAX
    ensures Total(Allocations(pool, amounts, n), WalnFor(pool[i].investor)) == (if i < n then amounts[i] else 0)
  {
    if n > 0 {
      AllocationsFor(pool, amounts, n - 1, i);
      var last := InvestorAlloc(pool[n - 1].investor, amounts[n - 1]);
      TotalAppend(Allocations(pool, amounts, n - 1), last, WalnFor(pool[i].investor));
      if i != n - 1 {
        assert Keys(pool)[i] != Keys(pool)[n - 1];
      }
    }
  }

  /** Nobody without a lock gets anything. */
  lemma {:induction false} AllocationsForOthers(pool: seq<InvestorRecord>, amounts: seq<int>, n: nat, key: Pubkey)
    requires n <= |pool| == |amounts|
    requires forall j :: 0 <= j < |pool| ==> 0 <= amounts[j] <= U64_MAX
    requires forall j :: 0 <= j < |pool| && pool[j].usdcLocked > 0 ==> pool[j].investor != key
    ensures Total(Allocations(pool, amounts, n), WalnFor(key)) == 0
  {
    if n > 0 {
      AllocationsForOthers(pool, amounts, n - 1, key);
      TotalAppend(Allocations(pool, amounts, n - 1), InvestorAlloc(pool[n - 1].investor, amounts[n - 1]), WalnFor(key));
    }
  }
}
