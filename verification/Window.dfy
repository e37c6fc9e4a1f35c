/** The K-of-N hit window: a 64-bit shift register refines the history of hits. */
module Window {
  /** `(1 << n) - 1`, built bit by bit. */
  function MaskOf(n: nat): bv64
    requires n <= 63
  {
    if n == 0 then 0 else Grow(MaskOf(n - 1))
  }

  function Grow(m: bv64): bv64 { (m << 1) | 1 }

  function Masked(b: bv64, m: bv64): bv64 { b & m }

  function Bit(hit: bool): bv64 { if hit then 1 else 0 }

  function Shifted(bits: bv64, hit: bool, mask: bv64): bv64 { ((bits << 1) | Bit(hit)) & mask }

  /** Number of ones among the low `k` bits. */
  function Ones(bits: bv64, k: nat): (r: nat)
    ensures r <= k
  {
    if k == 0 then 0 else (if LowBit(bits) then 1 else 0) + Ones(Half(bits), k - 1)
  }

  predicate LowBit(bits: bv64) { bits & 1 == 1 }

  function Half(bits: bv64): bv64 { bits >> 1 }

  /** The register after a history of hits, oldest first, since the last clear. */
  function Pack(hist: seq<bool>, n: nat): bv64
    requires n <= 63
  {
    if hist == [] then 0 else Shifted(Pack(hist[..|hist| - 1], n), hist[|hist| - 1], MaskOf(n))
  }

  /** Number of hits among the last `n` entries of the history. */
  function RecentHits(hist: seq<bool>, n: nat): nat {
    if n == 0 || hist == [] then 0
    else (if hist[|hist| - 1] then 1 else 0) + RecentHits(hist[..|hist| - 1], n - 1)
  }

  // ---- facts about masks ----------------------------------------------------------------------------------

  lemma NextMask(m: bv64)
    requires Masked(m, Grow(m)) == m
    ensures Masked(Grow(m), Grow(Grow(m))) == Grow(m)
  {}

  lemma {:induction false} MaskIsSolid(n: nat)
    requires n <= 63
    ensures Masked(MaskOf(n), Grow(MaskOf(n))) == MaskOf(n)
  {
    if n > 0 {
      MaskIsSolid(n - 1);
      NextMask(MaskOf(n - 1));
    } else {
      assert MaskOf(0) == 0;
    }
  }

  lemma Submask(a: bv64, b: bv64, c: bv64)
    requires a & b == a && b & c == b
    ensures a & c == a
  {}

  lemma {:induction false} MaskOrder(n: nat, k: nat)
    requires n <= k <= 63
    ensures MaskOf(n) & MaskOf(k) == MaskOf(n)
    decreases k - n
  {
    if n < k {
      MaskOrder(n + 1, k);
      MaskIsSolid(n);
      Submask(MaskOf(n), MaskOf(n + 1), MaskOf(k));
    }
  }

  lemma MaskTopClear(n: nat)
    requires n <= 62
    ensures MaskOf(n) & 0x8000_0000_0000_0000 == 0
  {
    hide MaskOf, Grow;
    MaskOrder(n, 62);
    Mask62();
    ClearedBySuperset(MaskOf(n), MaskOf(62));
  }

  lemma Mask4(n: nat, m: bv64)
    requires n <= 59 && MaskOf(n) == m
    ensures MaskOf(n + 4) == (m << 4) | 0xF
  {
    MaskUnfold(n + 1);
    MaskUnfold(n + 2);
    MaskUnfold(n + 3);
    MaskUnfold(n + 4);
    hide MaskOf, Grow;
    FourBits(m);
  }

  lemma FourBits(m: bv64)
    ensures Grow(Grow(Grow(Grow(m)))) == (m << 4) | 0xF
  {}

  lemma Mask62()
    ensures MaskOf(62) == 0x3FFF_FFFF_FFFF_FFFF
  {
    assert MaskOf(0) == 0 && MaskOf(1) == 1 && MaskOf(2) == 3;
    hide MaskOf, Grow;
    Mask4(2, 0x3);
    Mask4(6, 0x3F);
    Mask4(10, 0x3FF);
    Mask4(14, 0x3FFF);
    Mask4(18, 0x3_FFFF);
    Mask4(22, 0x3F_FFFF);
    Mask4(26, 0x3FF_FFFF);
    Mask4(30, 0x3FFF_FFFF);
    Mask4(34, 0x3_FFFF_FFFF);
    Mask4(38, 0x3F_FFFF_FFFF);
    Mask4(42, 0x3FF_FFFF_FFFF);
    Mask4(46, 0x3FFF_FFFF_FFFF);
    Mask4(50, 0x3_FFFF_FFFF_FFFF);
    Mask4(54, 0x3F_FFFF_FFFF_FFFF);
    Mask4(58, 0x3FF_FFFF_FFFF_FFFF);
  }

  lemma ClearedBySuperset(a: bv64, b: bv64)
    requires a & b == a && b & 0x8000_0000_0000_0000 == 0
    ensures a & 0x8000_0000_0000_0000 == 0
  {}

  // ---- the register counts the recent hits ----------------------------------------------------------------

  lemma ShiftedParts(b: bv64, hit: bool, m: bv64)
    requires m & 0x8000_0000_0000_0000 == 0
    ensures var r := Shifted(b, hit, Grow(m)); Half(r) == Masked(b, m) && (LowBit(r) <==> hit)
  {}

  lemma ShiftedTruncates(b: bv64, hit: bool, m: bv64)
    requires Masked(m, Grow(m)) == m
    ensures Masked(Shifted(b, hit, Grow(m)), m) == Shifted(Masked(b, m), hit, m)
  {}

  /** Masking a register to one bit fewer forgets the oldest entry only. */
  lemma {:induction false} PackTruncates(hist: seq<bool>, n: nat)
    requires 1 <= n <= 63
    ensures Masked(Pack(hist, n), MaskOf(n - 1)) == Pack(hist, n - 1)
  {
    MaskUnfold(n);
    hide Shifted, MaskOf, Grow, Masked;
    if hist != [] {
      PackTruncates(hist[..|hist| - 1], n);
      MaskIsSolid(n - 1);
      ShiftedTruncates(Pack(hist[..|hist| - 1], n), hist[|hist| - 1], MaskOf(n - 1));
    } else {
      ZeroMasked(MaskOf(n - 1));
    }
  }

  lemma MaskUnfold(n: nat)
    requires 1 <= n <= 63
    ensures MaskOf(n) == Grow(MaskOf(n - 1))
  {}

  lemma ZeroMasked(m: bv64)
    ensures Masked(0, m) == 0
  {}

  lemma {:induction false} OnesOfZero(k: nat)
    ensures Ones(0, k) == 0
  {
    if k > 0 {
      assert Half(0) == 0 && !LowBit(0);
      OnesOfZero(k - 1);
    }
  }

  lemma {:induction false} PackZero(hist: seq<bool>)
    ensures Pack(hist, 0) == 0
  {
    if hist != [] {
      PackZero(hist[..|hist| - 1]);
    }
  }

  /** The population count of the register is the number of hits among the last `n` ticks since the clear. */
  lemma {:induction false} OnesArePackedHits(hist: seq<bool>, n: nat, k: nat)
    requires n <= 63 && n <= k
    ensures Ones(Pack(hist, n), k) == RecentHits(hist, n)
    decreases n
  {
    hide Shifted, MaskOf, LowBit, Half, Grow, Masked;
    if n == 0 {
      PackZero(hist);
      OnesOfZero(k);
    } else if hist == [] {
      OnesOfZero(k);
    } else {
      MaskUnfold(n);
      var h := hist[..|hist| - 1];
      MaskTopClear(n - 1);
      ShiftedParts(Pack(h, n), hist[|hist| - 1], MaskOf(n - 1));
      PackTruncates(h, n);
      OnesArePackedHits(h, n - 1, k - 1);
    }
  }

  // ---- the algorithm --------------------------------------------------------------------------------------

  /** The shift register. `history` is the ghost record of the hits since the last clear. */
  class HitWindow {
    var bits: bv64
    ghost var history: seq<bool>

    constructor ()
      ensures bits == 0 && history == []
    {
      bits, history := 0, [];
    }

    ghost predicate Valid(n: nat)
      reads this
    {
      n <= 63 && bits == Pack(history, n)
    }

    method Push(hit: bool, mask: bv64, ghost n: nat)
      requires Valid(n) && mask == MaskOf(n)
      modifies this
      ensures Valid(n) && history == old(history) + [hit]
      ensures bits == Shifted(old(bits), hit, mask)
    {
      hide MaskOf, Shifted;
      bits := Shifted(bits, hit, mask);
      history := history + [hit];
      assert history[..|history| - 1] == old(history);
    }

    /** The popcount, computed bit by bit, is the number of hits among the last `n` pushes since the clear. */
    method Hits(ghost n: nat) returns (r: nat)
      requires Valid(n)
      ensures r == Ones(bits, 64) == RecentHits(history, n)
    {
      hide LowBit, Half, MaskOf, Shifted;
      r := 0;
      var b, i := bits, 0;
      while i < 64
        invariant i <= 64
        invariant r + Ones(b, 64 - i) == Ones(bits, 64)
      {
        if LowBit(b) {
          r := r + 1;
        }
        b, i := Half(b), i + 1;
      }
      OnesArePackedHits(history, n, 64);
    }

    method Clear(ghost n: nat)
      requires n <= 63
      modifies this
      ensures Valid(n) && bits == 0 && history == []
    {
      bits, history := 0, [];
    }
  }
}
