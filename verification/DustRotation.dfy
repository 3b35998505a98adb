/** The old dust goes round: over consecutive timestamps every participant is picked once. */
module DustRotation {
  import opened Arithmetic
  import opened Accounts
  import opened SettlementEffects

  /** Record `w` is picked `t` seconds after `first`. */
  predicate PicksAfter(pool: seq<InvestorRecord>, first: int, t: nat, w: nat) {
    Picks(pool, first + t, w)
  }

  /** Timestamps that, read as u64, do not wrap within as many seconds as there are participants. */
  predicate NoWrapFrom(pool: seq<InvestorRecord>, first: int) {
    first % TWO_TO_64 + LocksBefore(pool, |pool|) <= TWO_TO_64
  }

  lemma PicksByRank(pool: seq<InvestorRecord>, first: int, t: nat, w: nat)
    requires NoWrapFrom(pool, first) && t < LocksBefore(pool, |pool|) && w < |pool| && pool[w].usdcLocked > 0
    ensures PicksAfter(pool, first, t, w) <==>
      LocksBefore(pool, w) == (first % TWO_TO_64 + t) % LocksBefore(pool, |pool|)
  {
    NoWrap(first, t, TWO_TO_64);
  }

  /** Over as many consecutive timestamps as there are participants, each is picked exactly once. */
  lemma DustRotates(pool: seq<InvestorRecord>, first: int, w: nat) returns (t: nat)
    requires NoWrapFrom(pool, first) && w < |pool| && pool[w].usdcLocked > 0
    ensures t < LocksBefore(pool, |pool|) && PicksAfter(pool, first, t, w)
    ensures forall u :: 0 <= u < LocksBefore(pool, |pool|) && PicksAfter(pool, first, u, w) ==> u == t
  {
    LocksBeforeGrows(pool, w + 1, |pool|);
    var n, k, base := LocksBefore(pool, |pool|), LocksBefore(pool, w), first % TWO_TO_64;
    t := (k - base) % n;
    Residue(base, k, n, t);
    PicksByRank(pool, first, t, w);
    forall u | 0 <= u < n && PicksAfter(pool, first, u, w)
      ensures u == t
    {
      PicksByRank(pool, first, u, w);
      ResidueUnique(base, n, t, u);
    }
  }
}
