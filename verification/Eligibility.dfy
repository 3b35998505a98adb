/** Who takes part in a round and with how much, in terms of the records alone: the locks
    that a round start writes, without its mask, its passes or its shares. */
module Eligibility {
  import opened Arithmetic
  import opened Accounts
  import opened StartRound
  import opened Elimination
  import opened Gap

  /** A deposit and a volume, and half the cap. */
  predicate Candidate(r: InvestorRecord, cap: nat) {
    r.usdcDeposited > 0 && r.aatVolume > 0 && r.usdcDeposited >= cap / 2
  }

  function Candidates(pool: seq<InvestorRecord>, cap: nat): (w: seq<bool>) {
    seq(|pool|, i requires 0 <= i < |pool| => Candidate(pool[i], cap))
  }

  /** The volume of the chosen ones among the first `n` records. */
  function VolumeIn(pool: seq<InvestorRecord>, w: seq<bool>, n: nat): (volume: nat)
    requires |w| == |pool| && n <= |pool|
  {
    if n == 0 then 0 else VolumeIn(pool, w, n - 1) + (if w[n - 1] then pool[n - 1].aatVolume else 0)
  }

  /** Candidates who can each pay floor(cap * own volume / volume of all of them). */
  predicate Affordable(pool: seq<InvestorRecord>, cap: nat, w: seq<bool>) {
    |w| == |pool| &&
    var total := VolumeIn(pool, w, |pool|);
    forall i :: 0 <= i < |pool| && w[i] ==>
      Candidate(pool[i], cap) && (total > 0 ==> pool[i].usdcDeposited >= cap * pool[i].aatVolume / total)
  }

  ghost predicate GreatestAffordable(pool: seq<InvestorRecord>, cap: nat, g: seq<bool>) {
    Affordable(pool, cap, g) && forall w: seq<bool> :: Affordable(pool, cap, w) ==> Subset(w, g)
  }

  /** Who holds a lock after a start, nobody when it was refused. */
  function Holders(pool: seq<InvestorRecord>, r: Result<Started>): (w: seq<bool>)
    requires r.Ok? ==> |r.value.pool| == |pool|
  {
    seq(|pool|, i requires 0 <= i < |pool| => r.Ok? && r.value.pool[i].usdcLocked > 0)
  }

  // ---------- the connection ----------

  lemma {:induction false} VolumeInIsSum(pool: seq<InvestorRecord>, w: seq<bool>, n: nat)
    requires |w| == |pool| && n <= |pool|
    ensures VolumeIn(pool, w, n) == SumTo(Weights(pool, w), n)
  {
    if n > 0 {
      VolumeInIsSum(pool, w, n - 1);
    }
  }

  lemma CandidatesStart(pool: seq<InvestorRecord>, cap: nat)
    ensures InitialMask(pool, cap) == Candidates(pool, cap)
  {
  }

  lemma AffordableIsCovered(pool: seq<InvestorRecord>, cap: nat, w: seq<bool>)
    ensures Affordable(pool, cap, w) <==> |w| == |pool| && Subset(w, InitialMask(pool, cap)) && Covered(pool, cap, w)
  {
    CandidatesStart(pool, cap);
    if |w| == |pool| {
      VolumeInIsSum(pool, w, |pool|);
      assert Volume(pool, w) == VolumeIn(pool, w, |pool|);
      if Subset(w, InitialMask(pool, cap)) && Covered(pool, cap, w) {
        forall i | 0 <= i < |pool| && w[i]
          ensures Candidate(pool[i], cap)
        {
          assert InitialMask(pool, cap)[i];
        }
      }
    }
  }

  lemma GreatestIsCovered(pool: seq<InvestorRecord>, cap: nat, g: seq<bool>)
    ensures GreatestAffordable(pool, cap, g) <==>
      |g| == |pool| && GreatestCovered(pool, cap, InitialMask(pool, cap), g)
  {
    AffordableIsCovered(pool, cap, g);
    forall w: seq<bool>
      ensures Affordable(pool, cap, w) <==> |w| == |pool| && Subset(w, InitialMask(pool, cap)) && Covered(pool, cap, w)
    {
      AffordableIsCovered(pool, cap, w);
    }
  }

  lemma HoldersAreEligible(pool: seq<InvestorRecord>, size: u64, price: u64, scale: Scale)
    requires Sound(pool) && Unlocked(pool) && size * price / scale > 0
    ensures Holders(pool, RoundStart(pool, size, price, scale)) ==
      EligibleSet(pool, size * price / scale, InitialMask(pool, size * price / scale))
  {
    var cap := UsdcValue(size, price, scale);
    var e := EligibleSet(pool, cap, InitialMask(pool, cap));
    RoundStartNeverOverflows(pool, size, price, scale);
    if RoundStart(pool, size, price, scale).Ok? {
      var mask, locks := StartExplained(pool, size, price, scale);
      LocksWritten(pool, cap, mask, locks, RoundStart(pool, size, price, scale).value);
    }
  }

  // ---------- who takes part ----------

  /** Among all affordable sets one contains the others. */
  lemma GreatestAffordableExists(pool: seq<InvestorRecord>, cap: nat) returns (g: seq<bool>)
    ensures GreatestAffordable(pool, cap, g)
  {
    g := GreatestCoveredExists(pool, cap, InitialMask(pool, cap));
    GreatestIsCovered(pool, cap, g);
  }

  /** A start is refused for want of investors or succeeds, and the locks it writes are held
      by the greatest affordable set exactly when nobody in that set has a share of the cap
      that, among all candidates, rounds to 0. */
  lemma StartFindsGreatest(pool: seq<InvestorRecord>, size: u64, price: u64, scale: Scale, g: seq<bool>)
    requires Sound(pool) && Unlocked(pool) && size * price / scale > 0
    requires GreatestAffordable(pool, size * price / scale, g)
    ensures var cap, r := size * price / scale, RoundStart(pool, size, price, scale);
      && (r.Ok? || r == Err(NoEligibleInvestors))
      && (Holders(pool, r) == g <==> forall i :: 0 <= i < |pool| && g[i] ==>
        cap * pool[i].aatVolume >= VolumeIn(pool, Candidates(pool, cap), |pool|))
  {
    var cap := size * price / scale;
    var mask := InitialMask(pool, cap);
    RoundStartNeverOverflows(pool, size, price, scale);
    HoldersAreEligible(pool, size, price, scale);
    GreatestIsCovered(pool, cap, g);
    InitialFits(pool, cap);
    EliminationFindsGreatest(pool, cap, mask, g);
    CandidatesStart(pool, cap);
    VolumeInIsSum(pool, mask, |pool|);
    VisibleByFields(pool, cap, mask, g);
  }

  lemma VisibleByFields(pool: seq<InvestorRecord>, cap: nat, mask: seq<bool>, g: seq<bool>)
    requires |mask| == |pool| && |g| == |pool| && Voting(pool, mask) && Subset(g, mask)
    ensures SharesVisible(pool, cap, mask, g) <==>
      forall i :: 0 <= i < |pool| && g[i] ==> cap * pool[i].aatVolume >= Volume(pool, mask)
  {
    var total := Volume(pool, mask);
    forall i | 0 <= i < |pool| && g[i]
      ensures total > 0 && (Share(cap, pool[i].aatVolume, total) > 0 <==> cap * pool[i].aatVolume >= total)
    {
      VolumeAtLeastMember(pool, mask, i);
      FloorBounds(cap * pool[i].aatVolume, total);
      if cap * pool[i].aatVolume >= total {
        FloorAtLeast(cap * pool[i].aatVolume, total, 1);
      } else {
        FloorAtMost(cap * pool[i].aatVolume, total, 0);
      }
    }
  }

  /** With a cap of at least the candidates' volume, the locks are held by the greatest
      affordable set, and the start is refused exactly when no affordable set has a member. */
  lemma LargeCapStart(pool: seq<InvestorRecord>, size: u64, price: u64, scale: Scale)
    requires Sound(pool) && Unlocked(pool) && size * price / scale > 0
    requires size * price / scale >= VolumeIn(pool, Candidates(pool, size * price / scale), |pool|)
    ensures var cap, r := size * price / scale, RoundStart(pool, size, price, scale);
      && GreatestAffordable(pool, cap, Holders(pool, r))
      && (r.Err? <==> forall w: seq<bool> :: Affordable(pool, cap, w) ==> Empty(w))
  {
    var cap := size * price / scale;
    var g := GreatestAffordableExists(pool, cap);
    StartFindsGreatest(pool, size, price, scale, g);
    forall i | 0 <= i < |pool| && g[i]
      ensures cap * pool[i].aatVolume >= VolumeIn(pool, Candidates(pool, cap), |pool|)
    {
      MulMonotone(1, pool[i].aatVolume, cap);
    }
    StartedHasHolder(pool, size, price, scale);
  }

  lemma StartedHasHolder(pool: seq<InvestorRecord>, size: u64, price: u64, scale: Scale)
    requires Sound(pool) && Unlocked(pool) && size * price / scale > 0
    ensures RoundStart(pool, size, price, scale).Err? <==> Empty(Holders(pool, RoundStart(pool, size, price, scale)))
  {
    RoundStartNeverOverflows(pool, size, price, scale);
    HoldersAreEligible(pool, size, price, scale);
  }

  // ---------- for any cap ----------

  /** One pass over `w`: of its members those stay whose share is positive and paid for. */
  predicate Pass(pool: seq<InvestorRecord>, cap: nat, w: seq<bool>, next: seq<bool>) {
    |w| == |next| == |pool| &&
    var total := VolumeIn(pool, w, |pool|);
    forall i :: 0 <= i < |pool| ==>
      (next[i] <==> w[i] && total > 0 && 0 < cap * pool[i].aatVolume / total <= pool[i].usdcDeposited)
  }

  predicate PassesInto(pool: seq<InvestorRecord>, cap: nat, chain: seq<seq<bool>>, k: nat)
    requires k + 1 < |chain|
  {
    Pass(pool, cap, chain[k], chain[k + 1]) && chain[k] != chain[k + 1]
  }

  /** Passes from `first` on, each dropping somebody, to a set that a pass leaves as it is. */
  ghost predicate PassesTo(pool: seq<InvestorRecord>, cap: nat, chain: seq<seq<bool>>, first: seq<bool>, last: seq<bool>) {
    && |chain| > 0 && chain[0] == first && chain[|chain| - 1] == last && Pass(pool, cap, last, last)
    && forall k: nat :: k + 1 < |chain| ==> PassesInto(pool, cap, chain, k)
  }

  lemma SurvivorsPass(pool: seq<InvestorRecord>, cap: nat, mask: seq<bool>)
    requires |mask| == |pool| && Volume(pool, mask) > 0
    ensures Pass(pool, cap, mask, Survivors(pool, cap, mask))
  {
    VolumeInIsSum(pool, mask, |pool|);
  }

  lemma {:induction false} EliminationPasses(pool: seq<InvestorRecord>, cap: nat, mask: seq<bool>) returns (chain: seq<seq<bool>>)
    requires |mask| == |pool| && Voting(pool, mask) && Fits(pool, cap, mask)
    ensures PassesTo(pool, cap, chain, mask, EligibleSet(pool, cap, mask))
    decreases Size(mask)
  {
    chain := [mask];
    EmptyIffNoVolume(pool, mask);
    if Volume(pool, mask) > 0 {
      var next := Survivors(pool, cap, mask);
      SurvivorsPass(pool, cap, mask);
      if next != mask {
        SizeShrinks(next, mask);
        FitsMonotone(pool, cap, next, mask);
        var rest := EliminationPasses(pool, cap, next);
        chain := [mask] + rest;
        forall k: nat | k + 1 < |chain|
          ensures PassesInto(pool, cap, chain, k)
        {
          if k > 0 {
            assert PassesInto(pool, cap, rest, k - 1);
          }
        }
      }
    } else {
      assert mask == Nobody(|pool|);
    }
  }

  /** With any cap, the holders are those whom the passes over all candidates leave, a start
      being refused when that is nobody. */
  lemma StartPasses(pool: seq<InvestorRecord>, size: u64, price: u64, scale: Scale) returns (chain: seq<seq<bool>>)
    requires Sound(pool) && Unlocked(pool) && size * price / scale > 0
    ensures var cap, held := size * price / scale, Holders(pool, RoundStart(pool, size, price, scale));
      && PassesTo(pool, cap, chain, Candidates(pool, cap), held)
      && (RoundStart(pool, size, price, scale).Err? <==> Empty(held))
  {
    var cap := size * price / scale;
    CandidatesStart(pool, cap);
    InitialFits(pool, cap);
    HoldersAreEligible(pool, size, price, scale);
    StartedHasHolder(pool, size, price, scale);
    chain := EliminationPasses(pool, cap, InitialMask(pool, cap));
  }

  /** There is no other set that such passes end with. */
  lemma {:induction false} PassesDetermine(pool: seq<InvestorRecord>, cap: nat, a: seq<seq<bool>>, b: seq<seq<bool>>, first: seq<bool>, u: seq<bool>, v: seq<bool>)
    requires PassesTo(pool, cap, a, first, u) && PassesTo(pool, cap, b, first, v)
    ensures u == v
    decreases |a|
  {
    if |a| > 1 && |b| > 1 {
      assert PassesInto(pool, cap, a, 0) && PassesInto(pool, cap, b, 0);
      PassUnique(pool, cap, first, a[1], b[1]);
      PassesTail(pool, cap, a, first, u);
      PassesTail(pool, cap, b, first, v);
      PassesDetermine(pool, cap, a[1..], b[1..], a[1], u, v);
    } else if |a| > 1 {
      assert PassesInto(pool, cap, a, 0);
      PassUnique(pool, cap, first, a[1], v);
    } else if |b| > 1 {
      assert PassesInto(pool, cap, b, 0);
      PassUnique(pool, cap, first, b[1], u);
    }
  }

  lemma PassUnique(pool: seq<InvestorRecord>, cap: nat, w: seq<bool>, x: seq<bool>, y: seq<bool>)
    requires Pass(pool, cap, w, x) && Pass(pool, cap, w, y)
    ensures x == y
  {
    assert forall i :: 0 <= i < |pool| ==> x[i] == y[i];
  }

  lemma PassesTail(pool: seq<InvestorRecord>, cap: nat, chain: seq<seq<bool>>, first: seq<bool>, last: seq<bool>)
    requires PassesTo(pool, cap, chain, first, last) && |chain| > 1
    ensures PassesTo(pool, cap, chain[1..], chain[1], last)
  {
    forall k: nat | k + 1 < |chain[1..]|
      ensures PassesInto(pool, cap, chain[1..], k)
    {
      assert PassesInto(pool, cap, chain, k + 1);
    }
  }

  // ---------- with how much ----------

  /** Every holder locks floor(cap * own volume / volume of the holders); what is missing to
      the cap goes, whole, to the first of them in the pool whose deposit still covers it,
      and to nobody when there is none. Nothing else in any record changes. */
  ghost predicate SharesLocked(pool: seq<InvestorRecord>, cap: nat, held: seq<bool>, s: Started, floors: seq<int>, recipient: nat) {
    && |held| == |floors| == |s.pool| == |pool| && recipient <= |pool|
    && var total, gap := VolumeIn(pool, held, |pool|), cap - Sum(floors);
    && total > 0 && gap >= 0 && s.volume == total
    && (forall i :: 0 <= i < |pool| ==> floors[i] == if held[i] then cap * pool[i].aatVolume / total else 0)
    && (forall i :: 0 <= i < recipient && held[i] ==> pool[i].usdcDeposited - floors[i] < gap)
    && (recipient < |pool| ==> held[recipient] && pool[recipient].usdcDeposited - floors[recipient] >= gap)
    && (forall i :: 0 <= i < |pool| ==>
      && s.pool[i].usdcLocked == floors[i] + (if i == recipient then gap else 0)
      && s.pool[i].usdcDeposited == pool[i].usdcDeposited - s.pool[i].usdcLocked
      && s.pool[i] == pool[i].(usdcDeposited := s.pool[i].usdcDeposited, usdcLocked := s.pool[i].usdcLocked))
    && s.locked == (if recipient < |pool| then cap else Sum(floors))
  }

  lemma StartLocks(pool: seq<InvestorRecord>, size: u64, price: u64, scale: Scale) returns (floors: seq<int>, recipient: nat)
    requires Sound(pool) && Unlocked(pool) && RoundStart(pool, size, price, scale).Ok?
    ensures var s := RoundStart(pool, size, price, scale);
      SharesLocked(pool, UsdcValue(size, price, scale), Holders(pool, s), s.value, floors, recipient)
  {
    var cap := UsdcValue(size, price, scale);
    var mask := Eliminate(pool, cap, InitialMask(pool, cap)).value;
    EliminationApportions(pool, cap, mask);
    HoldersAreEligible(pool, size, price, scale);
    floors, recipient := LockRoundShares(pool, cap, mask);
  }

  lemma LockRoundShares(pool: seq<InvestorRecord>, cap: nat, mask: seq<bool>) returns (floors: seq<int>, recipient: nat)
    requires Apportioned(pool, cap, mask) && Unlocked(pool) && LockRound(pool, cap, mask).Ok?
    ensures SharesLocked(pool, cap, mask, LockRound(pool, cap, mask).value, floors, recipient)
  {
    LocksAreShares(pool, cap, mask);
    GapBelowCount(pool, cap, mask);
    VolumeInIsSum(pool, mask, |pool|);
    floors := FloorLocks(pool, mask, cap);
    recipient := FirstWithRoom(ApplyLocks(pool, floors), mask, cap - Sum(floors), 0);
    SharesWritten(pool, floors);
    forall i | 0 <= i < |pool|
      ensures floors[i] == if mask[i] then cap * pool[i].aatVolume / Volume(pool, mask) else 0
    {
    }
  }

  lemma SharesWritten(pool: seq<InvestorRecord>, floors: seq<int>)
    requires Unlocked(pool) && |floors| == |pool|
    requires forall i :: 0 <= i < |pool| ==> 0 <= floors[i] <= pool[i].usdcDeposited
    ensures forall i :: 0 <= i < |pool| ==>
      ApplyLocks(pool, floors)[i] == pool[i].(usdcDeposited := pool[i].usdcDeposited - floors[i], usdcLocked := floors[i])
  {
  }
}
