/** The capability masks of src/security.c: 64-bit words read as sets of numbers. */
module Capabilities {

  type Mask = bv64

  /** Capability number `cap` is in the mask. */
  predicate Has(m: Mask, cap: bv64)
    requires cap < 64
  {
    (m >> cap) & 1 == 1
  }

  lemma AddBit(m: Mask, cap: bv64, x: bv64)
    requires cap < 64 && x < 64
    ensures Has(m | (1 << cap), x) <==> x == cap || Has(m, x)
  {
  }

  lemma DropBit(m: Mask, cap: bv64, x: bv64)
    requires cap < 64 && x < 64
    ensures Has(m & !(1 << cap), x) <==> x != cap && Has(m, x)
  {
  }

  lemma MaskBit(m: Mask, keep: Mask, x: bv64)
    requires x < 64
    ensures Has(m & keep, x) <==> Has(m, x) && Has(keep, x)
  {
  }

  /** The two 32-bit halves that capget and capset exchange, put together. */
  function Join(low: bv32, high: bv32): Mask {
    (high as bv64 << 32) | (low as bv64)
  }

  /** Masking each half with its half of the keep mask masks the whole. */
  lemma HalvesMask(low: bv32, high: bv32, keep: Mask)
    ensures Join(low & ((keep & 0xFFFFFFFF) as bv32), high & (((keep >> 32) & 0xFFFFFFFF) as bv32))
            == Join(low, high) & keep
  {
  }

  /** The capabilities in a mask. */
  ghost function CapSet(m: Mask): iset<bv64> {
    iset x: bv64 | x < 64 && Has(m, x)
  }

  /** What security_cap_add does to a mask, for a number in range. */
  function Adding(m: Mask, cap: bv64): (r: Mask)
    requires cap < 64
    ensures CapSet(r) == CapSet(m) + iset{cap}
  {
    assert CapSet(m | (1 << cap)) == CapSet(m) + iset{cap} by {
      forall x: bv64 | x < 64 ensures Has(m | (1 << cap), x) <==> x == cap || Has(m, x) { AddBit(m, cap, x); }
    }
    m | (1 << cap)
  }

  /** What security_cap_drop does to a mask, for a number in range. */
  function Dropping(m: Mask, cap: bv64): (r: Mask)
    requires cap < 64
    ensures CapSet(r) == CapSet(m) - iset{cap}
  {
    assert CapSet(m & !(1 << cap)) == CapSet(m) - iset{cap} by {
      forall x: bv64 | x < 64 ensures Has(m & !(1 << cap), x) <==> x != cap && Has(m, x) { DropBit(m, cap, x); }
    }
    m & !(1 << cap)
  }

  function Masking(m: Mask, keep: Mask): (r: Mask)
    ensures CapSet(r) == CapSet(m) * CapSet(keep)
  {
    assert CapSet(m & keep) == CapSet(m) * CapSet(keep) by {
      forall x: bv64 | x < 64 ensures Has(m & keep, x) <==> Has(m, x) && Has(keep, x) { MaskBit(m, keep, x); }
    }
    m & keep
  }

  /** The masking of one pair of capget words by the keep mask. */
  function MaskHalves(halves: (bv32, bv32), keep: Mask): (r: (bv32, bv32))
    ensures CapSet(Join(r.0, r.1)) == CapSet(Join(halves.0, halves.1)) * CapSet(keep)
  {
    HalvesMask(halves.0, halves.1, keep);
    var whole := Masking(Join(halves.0, halves.1), keep);
    (halves.0 & ((keep & 0xFFFFFFFF) as bv32), halves.1 & (((keep >> 32) & 0xFFFFFFFF) as bv32))
  }

  class SecurityConfig {
    var privileged: bool
    var keep: Mask

    constructor (privileged: bool, keep: Mask)
      ensures this.privileged == privileged && this.keep == keep
    {
      this.privileged, this.keep := privileged, keep;
    }

    /** security_cap_add: a number outside 0..63 changes nothing. */
    method Add(cap: int)
      modifies this`keep
      ensures CapSet(keep) == CapSet(old(keep)) + if 0 <= cap < 64 then iset{cap as bv64} else iset{}
    {
      if cap < 0 || cap > 63 { return; }
      keep := Adding(keep, cap as bv64);
    }

    /** security_cap_drop */
    method Drop(cap: int)
      modifies this`keep
      ensures CapSet(keep) == CapSet(old(keep)) - if 0 <= cap < 64 then iset{cap as bv64} else iset{}
    {
      if cap < 0 || cap > 63 { return; }
      keep := Dropping(keep, cap as bv64);
    }
  }

  const LAST_DROPPED: bv64 := 37   // the bound of the PR_CAPBSET_DROP loop

  /** Of the capabilities below n, those that are neither kept nor such that the
      kernel refuses to drop them. */
  ghost function Lost(keep: Mask, refused: Mask, n: bv64): iset<bv64>
    requires n <= 64
    decreases n
  {
    if n == 0 then iset{}
    else
      Lost(keep, refused, n - 1) + if Has(keep, n - 1) || Has(refused, n - 1) then iset{} else iset{n - 1}
  }

  lemma {:induction false} InLost(keep: Mask, refused: Mask, n: bv64, x: bv64)
    requires n <= 64 && x < 64
    ensures x in Lost(keep, refused, n) <==> x < n && !Has(keep, x) && !Has(refused, x)
    decreases n
  {
    hide Has;
    if n > 0 {
      InLost(keep, refused, n - 1, x);
      BelowNext(x, n);
    }
  }

  lemma BelowNext(x: bv64, n: bv64)
    requires 0 < n <= 64
    ensures x < n <==> x < n - 1 || x == n - 1
  {
  }

  lemma LostStep(keep: Mask, refused: Mask, cap: bv64)
    requires cap < 64
    ensures Lost(keep, refused, cap + 1) ==
              Lost(keep, refused, cap) + if Has(keep, cap) || Has(refused, cap) then iset{} else iset{cap}
  {
    hide Has;
    assert cap + 1 != 0 && cap + 1 - 1 == cap;
  }

  /** The capability state the kernel keeps for the calling process. */
  class Process {
    var effective: (bv32, bv32)
    var permitted: (bv32, bv32)
    var inheritable: (bv32, bv32)
    var bounding: Mask

    ghost function Effective(): iset<bv64> reads this { CapSet(Join(effective.0, effective.1)) }
    ghost function Permitted(): iset<bv64> reads this { CapSet(Join(permitted.0, permitted.1)) }

    /** The first step of security_apply_caps.  The kernel may refuse to drop a
        capability, which the loop ignores; `refused` says for which.
        Capabilities numbered 38 and above stay in the bounding set. */
    method DropBounding(keep: Mask, refused: Mask)
      modifies this`bounding
      ensures CapSet(bounding) == CapSet(old(bounding)) - Lost(keep, refused, 38)
    {
      var cap: bv64 := 0;
      assert Lost(keep, refused, cap) == iset{};
      hide Has, CapSet, Lost;
      while cap <= LAST_DROPPED
        invariant cap <= LAST_DROPPED + 1
        invariant CapSet(bounding) == CapSet(old(bounding)) - Lost(keep, refused, cap)
        decreases LAST_DROPPED + 1 - cap
      {
        DropOne(keep, refused, cap, CapSet(old(bounding)));
        cap := cap + 1;
      }
    }

    /** One round of that loop. */
    method DropOne(keep: Mask, refused: Mask, cap: bv64, ghost all: iset<bv64>)
      requires cap < 64 && CapSet(bounding) == all - Lost(keep, refused, cap)
      modifies this`bounding
      ensures CapSet(bounding) == all - Lost(keep, refused, cap + 1)
    {
      hide Has, CapSet, Lost;
      LostStep(keep, refused, cap);
      if !Has(keep, cap) && !Has(refused, cap) {
        bounding := Dropping(bounding, cap);
      }
    }

    /** security_apply_caps: bounding set first, then the effective and permitted
        sets; capget and capset may each be refused. */
    method ApplyCaps(cfg: SecurityConfig, refused: Mask, getOk: bool, setOk: bool) returns (rc: int)
      modifies this
      ensures cfg.privileged ==> rc == 0 && unchanged(this)
      ensures !cfg.privileged ==> (rc == 0 <==> getOk && setOk)
      ensures !cfg.privileged ==>
                CapSet(bounding) == CapSet(old(bounding)) - Lost(cfg.keep, refused, 38)
      ensures rc != 0 ==> unchanged(this`effective) && unchanged(this`permitted) && unchanged(this`inheritable)
      ensures !cfg.privileged && rc == 0 ==>
                inheritable == (0, 0)
                && Effective() == old(Effective()) * CapSet(cfg.keep)
                && Permitted() == old(Permitted()) * CapSet(cfg.keep)
    {
      if cfg.privileged { return 0; }
      DropBounding(cfg.keep, refused);
      if !getOk || !setOk { return -1; }
      effective, permitted := MaskHalves(effective, cfg.keep), MaskHalves(permitted, cfg.keep);
      inheritable := (0, 0);
      return 0;
    }
  }
}
