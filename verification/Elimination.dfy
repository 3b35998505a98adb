/** What the elimination loop computes: the largest set of candidates whose deposits
    cover their shares, how many passes it needs, and that pool order is irrelevant. */
module Elimination {
  import opened Arithmetic
  import opened Accounts
  import opened StartRound

  /** Every masked investor has a volume. */
  predicate Voting(pool: seq<InvestorRecord>, mask: seq<bool>)
    requires |mask| == |pool|
  {
    forall i :: 0 <= i < |pool| && mask[i] ==> pool[i].aatVolume > 0
  }

  /** Everyone in the set can pay the share that the set's own total gives. */
  predicate Covered(pool: seq<InvestorRecord>, cap: nat, mask: seq<bool>)
    requires |mask| == |pool|
  {
    Volume(pool, mask) > 0 ==>
      forall i :: 0 <= i < |pool| && mask[i] ==> Covers(pool[i], cap, Volume(pool, mask))
  }

  /** `g` is covered and contains every covered subset of `mask`. */
  ghost predicate GreatestCovered(pool: seq<InvestorRecord>, cap: nat, mask: seq<bool>, g: seq<bool>)
    requires |mask| == |pool|
  {
    Subset(g, mask) && Covered(pool, cap, g) &&
    forall w: seq<bool> :: Subset(w, mask) && Covered(pool, cap, w) ==> Subset(w, g)
  }

  /** The investors of `members` whose share of the cap over `mask` does not round to 0. */
  predicate SharesVisible(pool: seq<InvestorRecord>, cap: nat, mask: seq<bool>, members: seq<bool>)
    requires |mask| == |pool| && |members| == |pool|
  {
    Volume(pool, mask) > 0 ==>
      forall i :: 0 <= i < |pool| && members[i] ==> Share(cap, pool[i].aatVolume, Volume(pool, mask)) > 0
  }

  function Nobody(n: nat): (mask: seq<bool>) {
    seq(n, i requires 0 <= i < n => false)
  }

  /** The set the loop ends with, nobody when it reports no eligible investors. */
  function EligibleSet(pool: seq<InvestorRecord>, cap: nat, mask: seq<bool>): (e: seq<bool>)
    requires |mask| == |pool|
    ensures |e| == |pool|
  {
    match Eliminate(pool, cap, mask)
    case Ok(e) => e
    case Err(_) => Nobody(|pool|)
  }

  // ---------- monotonicity ----------

  lemma VolumeMonotone(pool: seq<InvestorRecord>, w: seq<bool>, mask: seq<bool>)
    requires |mask| == |pool| && Subset(w, mask)
    ensures 0 <= Volume(pool, w) <= Volume(pool, mask)
  {
    SumToMonotone(Weights(pool, w), Weights(pool, mask), |pool|);
    SumToNonNegative(Weights(pool, w), |pool|);
  }

  lemma FitsMonotone(pool: seq<InvestorRecord>, cap: nat, w: seq<bool>, mask: seq<bool>)
    requires |mask| == |pool| && Subset(w, mask) && Fits(pool, cap, mask)
    ensures Fits(pool, cap, w)
  {
    VolumeMonotone(pool, w, mask);
  }

  lemma VolumeAtLeastMember(pool: seq<InvestorRecord>, mask: seq<bool>, i: nat)
    requires |mask| == |pool| && i < |pool| && mask[i]
    ensures pool[i].aatVolume <= Volume(pool, mask)
  {
    SumToNonNegative(Weights(pool, mask), |pool|);
    assert Weights(pool, mask)[i] == pool[i].aatVolume;
  }

  lemma TwoMembersVolume(pool: seq<InvestorRecord>, mask: seq<bool>, i: nat, k: nat)
    requires |mask| == |pool| && i < |pool| && k < |pool| && i != k && mask[i] && mask[k]
    ensures pool[i].aatVolume + pool[k].aatVolume <= Volume(pool, mask)
  {
    var ws := Weights(pool, mask);
    SumToUpdate(ws, k, 0, |ws|);
    SumToNonNegative(ws[k := 0], |ws|);
    assert ws[k := 0][i] == pool[i].aatVolume;
  }

  lemma EmptyIffNoVolume(pool: seq<InvestorRecord>, mask: seq<bool>)
    requires |mask| == |pool| && Voting(pool, mask)
    ensures Empty(mask) <==> Volume(pool, mask) == 0
    ensures Volume(pool, mask) >= 0
  {
    SumToNonNegative(Weights(pool, mask), |pool|);
    if Empty(mask) {
      SumToZero(Weights(pool, mask), |pool|);
    } else {
      var i :| 0 <= i < |mask| && mask[i];
      VolumeAtLeastMember(pool, mask, i);
    }
  }

  /** A smaller total never shrinks a share. */
  lemma ShareAntitone(cap: nat, volume: nat, small: int, big: int)
    requires 0 < small <= big
    ensures Share(cap, volume, big) <= Share(cap, volume, small)
  {
    var q := Share(cap, volume, big);
    FloorBounds(cap * volume, big);
    MulMonotone(small, big, q);
    FloorAtLeast(cap * volume, small, q);
  }

  // ---------- the greatest covered set ----------

  /** No covered set whose members all have a visible share ever loses a member. */
  lemma {:induction false} EliminateKeepsCovered(pool: seq<InvestorRecord>, cap: nat, mask: seq<bool>, w: seq<bool>)
    requires |mask| == |pool| && Voting(pool, mask) && Fits(pool, cap, mask)
    requires Subset(w, mask) && Covered(pool, cap, w) && SharesVisible(pool, cap, mask, w)
    ensures Subset(w, EligibleSet(pool, cap, mask))
    decreases Size(mask)
  {
    VolumeMonotone(pool, w, mask);
    EmptyIffNoVolume(pool, mask);
    if Volume(pool, mask) > 0 {
      var next := Survivors(pool, cap, mask);
      forall i | 0 <= i < |pool| && w[i]
        ensures next[i]
      {
        VolumeAtLeastMember(pool, w, i);
        ShareAntitone(cap, pool[i].aatVolume, Volume(pool, w), Volume(pool, mask));
      }
      if next != mask {
        SizeShrinks(next, mask);
        FitsMonotone(pool, cap, next, mask);
        VolumeMonotone(pool, next, mask);
        if Volume(pool, next) > 0 {
          forall i | 0 <= i < |pool| && w[i]
            ensures Share(cap, pool[i].aatVolume, Volume(pool, next)) > 0
          {
            ShareAntitone(cap, pool[i].aatVolume, Volume(pool, next), Volume(pool, mask));
          }
        }
        EliminateKeepsCovered(pool, cap, next, w);
      }
    }
  }

  /** Within u64 and u128 the loop ends with a covered set or reports no eligible investors. */
  lemma {:induction false} EliminateEnds(pool: seq<InvestorRecord>, cap: nat, mask: seq<bool>)
    requires |mask| == |pool| && Voting(pool, mask) && Fits(pool, cap, mask)
    ensures var r := Eliminate(pool, cap, mask);
      r.Ok? || r == Err(NoEligibleInvestors)
    ensures var e := EligibleSet(pool, cap, mask);
      Subset(e, mask) && Covered(pool, cap, e) && (Eliminate(pool, cap, mask).Err? <==> Empty(e))
    decreases Size(mask)
  {
    EmptyIffNoVolume(pool, mask);
    if Volume(pool, mask) > 0 {
      var next := Survivors(pool, cap, mask);
      if next != mask {
        SizeShrinks(next, mask);
        FitsMonotone(pool, cap, next, mask);
        EliminateEnds(pool, cap, next);
      } else {
        assert forall i :: 0 <= i < |pool| && mask[i] ==> next[i];
      }
    } else {
      EmptyIffNoVolume(pool, Nobody(|pool|));
    }
  }

  /** There always is a greatest covered set: dropping an investor whom the current total
      leaves uncovered never drops a member of a covered subset. */
  lemma {:induction false} GreatestCoveredExists(pool: seq<InvestorRecord>, cap: nat, mask: seq<bool>) returns (g: seq<bool>)
    requires |mask| == |pool| && Voting(pool, mask)
    ensures GreatestCovered(pool, cap, mask, g)
    decreases Size(mask)
  {
    if Covered(pool, cap, mask) {
      g := mask;
    } else {
      var total := Volume(pool, mask);
      var k :| 0 <= k < |pool| && mask[k] && !Covers(pool[k], cap, total);
      var rest := mask[k := false];
      SizeShrinks(rest, mask);
      g := GreatestCoveredExists(pool, cap, rest);
      forall w: seq<bool> | Subset(w, mask) && Covered(pool, cap, w)
        ensures Subset(w, g)
      {
        VolumeMonotone(pool, w, mask);
        if w[k] {
          VolumeAtLeastMember(pool, w, k);
          ShareAntitone(cap, pool[k].aatVolume, Volume(pool, w), total);
        }
        assert Subset(w, rest);
      }
    }
  }

  /** The loop finds the greatest covered set exactly when none of its members starts
      with a share that rounds to 0. */
  lemma EliminationFindsGreatest(pool: seq<InvestorRecord>, cap: nat, mask: seq<bool>, g: seq<bool>)
    requires |mask| == |pool| && Voting(pool, mask) && Fits(pool, cap, mask)
    requires GreatestCovered(pool, cap, mask, g)
    ensures EligibleSet(pool, cap, mask) == g <==> SharesVisible(pool, cap, mask, g)
  {
    var e := EligibleSet(pool, cap, mask);
    EliminateEnds(pool, cap, mask);
    assert Subset(e, g);
    if SharesVisible(pool, cap, mask, g) {
      EliminateKeepsCovered(pool, cap, mask, g);
      assert forall i :: 0 <= i < |pool| ==> e[i] == g[i];
    }
    if e == g && Volume(pool, mask) > 0 {
      EliminateWithinSurvivors(pool, cap, mask);
    }
  }

  lemma EliminateWithinSurvivors(pool: seq<InvestorRecord>, cap: nat, mask: seq<bool>)
    requires |mask| == |pool| && Voting(pool, mask) && Fits(pool, cap, mask) && Volume(pool, mask) > 0
    ensures Subset(EligibleSet(pool, cap, mask), Survivors(pool, cap, mask))
  {
    var next := Survivors(pool, cap, mask);
    if next != mask {
      SizeShrinks(next, mask);
      FitsMonotone(pool, cap, next, mask);
      EliminateEnds(pool, cap, next);
    }
  }

  /** A cap of at least the total volume makes every share visible. */
  lemma LargeCapSharesVisible(pool: seq<InvestorRecord>, cap: nat, mask: seq<bool>, w: seq<bool>)
    requires |mask| == |pool| && Voting(pool, mask) && Subset(w, mask)
    requires cap >= Volume(pool, mask)
    ensures SharesVisible(pool, cap, mask, w)
  {
    var total := Volume(pool, mask);
    if total > 0 {
      forall i | 0 <= i < |pool| && w[i]
        ensures Share(cap, pool[i].aatVolume, total) > 0
      {
        MulMonotone(1, pool[i].aatVolume, cap);
        FloorAtLeast(cap * pool[i].aatVolume, total, 1);
      }
    }
  }

  /** With a cap of at least the candidates' total volume, the result is the greatest
      covered set, and the start is refused exactly when only nobody is covered. */
  lemma LargeCapFindsGreatest(pool: seq<InvestorRecord>, cap: nat)
    requires var mask := InitialMask(pool, cap); Fits(pool, cap, mask) && cap >= Volume(pool, mask)
    ensures var mask := InitialMask(pool, cap);
      GreatestCovered(pool, cap, mask, EligibleSet(pool, cap, mask))
    ensures Eliminate(pool, cap, InitialMask(pool, cap)) == Err(NoEligibleInvestors) <==>
      forall w: seq<bool> :: Subset(w, InitialMask(pool, cap)) && Covered(pool, cap, w) ==> Empty(w)
  {
    var mask := InitialMask(pool, cap);
    var e := EligibleSet(pool, cap, mask);
    EliminateEnds(pool, cap, mask);
    forall w: seq<bool> | Subset(w, mask) && Covered(pool, cap, w)
      ensures Subset(w, e)
    {
      LargeCapSharesVisible(pool, cap, mask, w);
      EliminateKeepsCovered(pool, cap, mask, w);
    }
  }

  /** A small cap can lose a covered investor: of two with volumes 1 and 9, a cap of 5
      gives the first a share of 0, although both together are covered. */
  lemma SmallCapLosesInvestor()
    ensures var pool := [InvestorRecord(1, 5, 0, 0, 0, 1, 0), InvestorRecord(2, 5, 0, 0, 0, 9, 0)];
      var mask := InitialMask(pool, 5);
      mask == [true, true] && Covered(pool, 5, mask) && EligibleSet(pool, 5, mask) == [false, true]
  {
    var pool := [InvestorRecord(1, 5, 0, 0, 0, 1, 0), InvestorRecord(2, 5, 0, 0, 0, 9, 0)];
    var mask := InitialMask(pool, 5);
    assert mask == [true, true];
    assert Weights(pool, mask) == [1, 9];
    assert SumTo([1, 9], 1) == 1;
    assert Volume(pool, mask) == 10;
    var next := Survivors(pool, 5, mask);
    assert next == [false, true];
    assert Weights(pool, next) == [0, 9];
    assert SumTo([0, 9], 1) == 0;
    assert Volume(pool, next) == 9;
    assert Survivors(pool, 5, next) == next;
    SizeShrinks(next, mask);
    assert Eliminate(pool, 5, next) == Ok(next);
    assert Eliminate(pool, 5, mask) == Ok(next);
  }

  // ---------- passes ----------

  function Log2(n: nat): nat {
    if n < 2 then 0 else 1 + Log2(n / 2)
  }

  lemma {:induction false} Log2Monotone(m: nat, n: nat)
    requires m <= n
    ensures Log2(m) <= Log2(n)
  {
    if m >= 2 {
      Log2Monotone(m / 2, n / 2);
    }
  }

  /** Whatever the cap, each pass but the last drops somebody. */
  lemma {:induction false} PassesAtMostCandidates(pool: seq<InvestorRecord>, cap: nat, mask: seq<bool>)
    requires |mask| == |pool|
    ensures Passes(pool, cap, mask) <= Size(mask) + 1 <= |pool| + 1
    decreases Size(mask)
  {
    SumToMonotone(Bits(mask), Bits(seq(|mask|, i requires 0 <= i < |mask| => true)), |mask|);
    SumConstant(Bits(seq(|mask|, i requires 0 <= i < |mask| => true)), 1, |mask|);
    SumToNonNegative(Bits(mask), |mask|);
    if Volume(pool, mask) > 0 && Fits(pool, cap, mask) && Survivors(pool, cap, mask) != mask {
      SizeShrinks(Survivors(pool, cap, mask), mask);
      PassesAtMostCandidates(pool, cap, Survivors(pool, cap, mask));
    }
  }

  /** An investor with half the cap who cannot cover the share holds over half the volume. */
  lemma DroppedHoldsMajority(r: InvestorRecord, cap: nat, total: int)
    requires total > 0 && r.usdcDeposited >= cap / 2 && !Covers(r, cap, total)
    ensures 2 * r.aatVolume > total
  {
    var share := Share(cap, r.aatVolume, total);
    assert 2 * share > cap;
    FloorBounds(cap * r.aatVolume, total);
    assert total * (2 * share) <= 2 * (cap * r.aatVolume);
    MulMonotone(cap + 1, 2 * share, total);
    assert cap * total < cap * (2 * r.aatVolume) by {
      assert total * (cap + 1) == cap * total + total;
      assert 2 * (cap * r.aatVolume) == cap * (2 * r.aatVolume);
    }
    if 2 * r.aatVolume <= total {
      MulMonotone(2 * r.aatVolume, total, cap);
    }
  }

  /** One pass over candidates with half the cap each and visible shares: everyone stays,
      or exactly one leaves, taking over half of the volume along. */
  lemma PassHalvesVolume(pool: seq<InvestorRecord>, cap: nat, mask: seq<bool>)
    requires |mask| == |pool| && Voting(pool, mask) && Volume(pool, mask) > 0
    requires forall i :: 0 <= i < |pool| && mask[i] ==> pool[i].usdcDeposited >= cap / 2
    requires SharesVisible(pool, cap, mask, mask)
    requires Survivors(pool, cap, mask) != mask
    ensures 0 <= 2 * Volume(pool, Survivors(pool, cap, mask)) < Volume(pool, mask)
    ensures Size(Survivors(pool, cap, mask)) == Size(mask) - 1
  {
    var total, next := Volume(pool, mask), Survivors(pool, cap, mask);
    var k :| 0 <= k < |mask| && next[k] != mask[k];
    DroppedHoldsMajority(pool[k], cap, total);
    var ws := Weights(pool, mask);
    forall i | 0 <= i < |pool| && i != k
      ensures next[i] == mask[i]
    {
      if next[i] != mask[i] {
        DroppedHoldsMajority(pool[i], cap, total);
        TwoMembersVolume(pool, mask, i, k);
      }
    }
    assert Weights(pool, next) == ws[k := 0];
    SumToUpdate(ws, k, 0, |ws|);
    assert Bits(next) == Bits(mask)[k := 0];
    SumToUpdate(Bits(mask), k, 0, |mask|);
    SumToNonNegative(Weights(pool, next), |pool|);
  }

  lemma {:induction false} PassesLogarithmic(pool: seq<InvestorRecord>, cap: nat, mask: seq<bool>)
    requires |mask| == |pool| && Voting(pool, mask)
    requires forall i :: 0 <= i < |pool| && mask[i] ==> pool[i].usdcDeposited >= cap / 2
    requires SharesVisible(pool, cap, mask, mask)
    ensures Volume(pool, mask) >= 0
    ensures Passes(pool, cap, mask) <= Log2(Volume(pool, mask)) + 2
    decreases Size(mask)
  {
    EmptyIffNoVolume(pool, mask);
    var total := Volume(pool, mask);
    if total > 0 && Fits(pool, cap, mask) && Survivors(pool, cap, mask) != mask {
      var next := Survivors(pool, cap, mask);
      SizeShrinks(next, mask);
      PassHalvesVolume(pool, cap, mask);
      if Volume(pool, next) > 0 {
        forall i | 0 <= i < |pool| && next[i]
          ensures Share(cap, pool[i].aatVolume, Volume(pool, next)) > 0
        {
          ShareAntitone(cap, pool[i].aatVolume, Volume(pool, next), total);
        }
        PassesLogarithmic(pool, cap, next);
        Log2Monotone(Volume(pool, next), total / 2);
      }
    }
  }

  /** The pass bound for a round start: with a cap of at least the candidates' volume
      the loop is entered at most log2(volume) + 2 times. */
  lemma RoundStartPasses(pool: seq<InvestorRecord>, cap: nat)
    requires cap >= Volume(pool, InitialMask(pool, cap))
    ensures Volume(pool, InitialMask(pool, cap)) >= 0
    ensures Passes(pool, cap, InitialMask(pool, cap)) <= Log2(Volume(pool, InitialMask(pool, cap))) + 2
  {
    var mask := InitialMask(pool, cap);
    LargeCapSharesVisible(pool, cap, mask, mask);
    PassesLogarithmic(pool, cap, mask);
  }

  // ---------- order independence ----------

  /** The same record has the same standing in both pools. */
  predicate Agree(p: seq<InvestorRecord>, m: seq<bool>, q: seq<InvestorRecord>, w: seq<bool>)
    requires |m| == |p| && |w| == |q|
  {
    forall i, j :: 0 <= i < |p| && 0 <= j < |q| && p[i] == q[j] ==> m[i] == w[j]
  }

  function WeightIn(p: seq<InvestorRecord>, m: seq<bool>, r: InvestorRecord): int
    requires |m| == |p|
  {
    if exists i :: 0 <= i < |p| && p[i] == r && m[i] then r.aatVolume else 0
  }

  lemma VolumePermuted(p: seq<InvestorRecord>, m: seq<bool>, q: seq<InvestorRecord>, w: seq<bool>)
    requires |m| == |p| && |w| == |q| && multiset(p) == multiset(q)
    requires Agree(p, m, p, m) && Agree(p, m, q, w)
    ensures Volume(p, m) == Volume(q, w)
  {
    var f := (r: InvestorRecord) => WeightIn(p, m, r);
    forall j | 0 <= j < |q|
      ensures Weights(q, w)[j] == f(q[j])
    {
      assert q[j] in multiset(p);
      var i :| 0 <= i < |p| && p[i] == q[j];
    }
    assert Weights(p, m) == Column(p, f);
    assert Weights(q, w) == Column(q, f);
    TotalPermuted(p, q, f);
  }

  /** The elimination of permuted pools, started with agreeing masks, ends alike. */
  lemma {:induction false} EliminatePermuted(cap: nat, p: seq<InvestorRecord>, m: seq<bool>, q: seq<InvestorRecord>, w: seq<bool>)
    requires |m| == |p| && |w| == |q| && multiset(p) == multiset(q)
    requires Agree(p, m, p, m) && Agree(p, m, q, w)
    ensures Eliminate(p, cap, m).Ok? <==> Eliminate(q, cap, w).Ok?
    ensures Eliminate(p, cap, m).Err? ==> Eliminate(q, cap, w) == Eliminate(p, cap, m)
    ensures Eliminate(p, cap, m).Ok? ==>
      Agree(p, Eliminate(p, cap, m).value, q, Eliminate(q, cap, w).value) &&
      Volume(p, Eliminate(p, cap, m).value) == Volume(q, Eliminate(q, cap, w).value)
    decreases Size(m)
  {
    VolumePermuted(p, m, q, w);
    assert Fits(p, cap, m) <==> Fits(q, cap, w) by {
      forall i | 0 <= i < |p| && m[i]
        ensures exists j :: 0 <= j < |q| && q[j] == p[i] && w[j]
      {
        assert p[i] in multiset(q);
      }
      forall j | 0 <= j < |q| && w[j]
        ensures exists i :: 0 <= i < |p| && p[i] == q[j] && m[i]
      {
        assert q[j] in multiset(p);
      }
    }
    if Volume(p, m) > 0 && Fits(p, cap, m) {
      var nextP, nextQ := Survivors(p, cap, m), Survivors(q, cap, w);
      assert nextP == m <==> nextQ == w by {
        if nextP != m {
          var i :| 0 <= i < |p| && nextP[i] != m[i];
          assert p[i] in multiset(q);
          var j :| 0 <= j < |q| && q[j] == p[i];
          assert nextQ[j] != w[j];
        }
        if nextQ != w {
          var j :| 0 <= j < |q| && nextQ[j] != w[j];
          assert q[j] in multiset(p);
          var i :| 0 <= i < |p| && p[i] == q[j];
          assert nextP[i] != m[i];
        }
      }
      if nextP != m {
        SizeShrinks(nextP, m);
        SizeShrinks(nextQ, w);
        EliminatePermuted(cap, p, nextP, q, nextQ);
      }
    }
  }

  /** Reordering the pool changes neither who is eligible nor anyone's lock before the gap. */
  lemma OrderIndependence(p: seq<InvestorRecord>, q: seq<InvestorRecord>, cap: nat, i: nat, j: nat)
    requires multiset(p) == multiset(q)
    requires i < |p| && j < |q| && p[i] == q[j]
    ensures var ep, eq := Eliminate(p, cap, InitialMask(p, cap)), Eliminate(q, cap, InitialMask(q, cap));
      (ep.Ok? <==> eq.Ok?) && (ep.Err? ==> eq == ep) &&
      (ep.Ok? ==> ep.value[i] == eq.value[j] && FloorLocks(p, ep.value, cap)[i] == FloorLocks(q, eq.value, cap)[j])
  {
    EliminatePermuted(cap, p, InitialMask(p, cap), q, InitialMask(q, cap));
  }
}
