/** A version 1 transaction's rate from its total fee and limit, and the accounts a transaction writes. */
module Rates {
  import opened Options

  const U32_MAX := 0xFFFF_FFFF
  const U64_MAX := 0xFFFF_FFFF_FFFF_FFFF
  const U128_MAX := 0xFFFF_FFFF_FFFF_FFFF_FFFF_FFFF_FFFF_FFFF
  const MICRO_LAMPORTS_PER_LAMPORT := 1_000_000
  const MAX_COMPUTE_UNIT_LIMIT := 1_400_000

  type U32 = n: nat | n <= U32_MAX
  type U64 = n: nat | n <= U64_MAX

  datatype TransactionConfig = TransactionConfig(priorityFee: Option<U64>, computeUnitLimit: Option<U32>)

  function SaturatingMul(a: nat, b: nat): nat {
    if a * b <= U128_MAX then a * b else U128_MAX
  }

  function Clamp(limit: U32): (c: U32)
    ensures limit > 0 ==> c > 0
  {
    if limit <= MAX_COMPUTE_UNIT_LIMIT then limit else MAX_COMPUTE_UNIT_LIMIT
  }

  function Total(config: TransactionConfig): U64 {
    if config.priorityFee.Some? then config.priorityFee.value else 0
  }

  /** A value that does not fit 64 bits becomes 0. */
  function Narrowed(v: nat): U64 {
    if v <= U64_MAX then v else 0
  }

  function V1PriorityRate(config: TransactionConfig): Option<U64> {
    if config.computeUnitLimit == None || config.computeUnitLimit.value == 0 then None
    else
      var product, c: nat := SaturatingMul(Total(config), MICRO_LAMPORTS_PER_LAMPORT), Clamp(config.computeUnitLimit.value);
      Some(Narrowed(product / c))
  }

  function Priced(total: U64, limit: U32): TransactionConfig {
    TransactionConfig(Some(total), Some(limit))
  }

  lemma DivideBounds(x: nat, c: nat, k: nat)
    requires c > 0
    ensures x / c >= k <==> x >= k * c
    ensures x / c * c <= x < x / c * c + c
  {
    var d := x / c;
    assert x == d * c + x % c;
    if d >= k {
      Scale(k, d, c);
    } else {
      Scale(d + 1, k, c);
      assert (d + 1) * c == d * c + c;
    }
  }

  lemma Scale(a: nat, b: nat, c: nat)
    requires a <= b
    ensures a * c <= b * c
  {
  }

  /**
   No rate exactly without a usable limit. Otherwise the 128-bit product never saturates, and the
   rate is the total in micro-lamports over the limit, the limit capped at 1,400,000 and the quotient
   rounded down, when that fits 64 bits, and 0 when it does not.
   */
  lemma V1RateIsExact(config: TransactionConfig)
    ensures V1PriorityRate(config) == None <==> config.computeUnitLimit == None || config.computeUnitLimit == Some(0)
    ensures V1PriorityRate(config).Some? ==>
      var limit: nat := config.computeUnitLimit.value;
      var c := if limit <= 1_400_000 then limit else 1_400_000;
      var total: nat := if config.priorityFee == None then 0 else config.priorityFee.value;
      && c > 0 && total * 1_000_000 <= 0xFFFF_FFFF_FFFF_FFFF_FFFF_FFFF_FFFF_FFFF
      && (var exact := total * 1_000_000 / c;
          && V1PriorityRate(config).value == (if exact <= 0xFFFF_FFFF_FFFF_FFFF then exact else 0)
          && (exact <= 0xFFFF_FFFF_FFFF_FFFF <==> total * 1_000_000 < 0x1_0000_0000_0000_0000 * c))
  {
    if V1PriorityRate(config).Some? {
      DivideBounds(Total(config) * 1_000_000, Clamp(config.computeUnitLimit.value), U64_MAX + 1);
    }
  }

  /** The rate of a total over a usable limit, where it fits. */
  lemma RateWhereItFits(total: U64, limit: U32, c: nat)
    requires limit > 0 && c == if limit <= 1_400_000 then limit else 1_400_000
    requires total * 1_000_000 / c <= U64_MAX
    ensures V1PriorityRate(Priced(total, limit)) == Some(total * 1_000_000 / c)
  {
    V1RateIsExact(Priced(total, limit));
  }

  /** Any limit from the cap on gives the cap's rate, and a missing fee is a rate of 0, not a missing rate. */
  lemma CapAndMissingFee(fee: Option<U64>, limit: U32)
    ensures limit >= 1_400_000 ==>
      V1PriorityRate(TransactionConfig(fee, Some(limit))) == V1PriorityRate(TransactionConfig(fee, Some(1_400_000)))
    ensures limit > 0 ==> V1PriorityRate(TransactionConfig(None, Some(limit))) == Some(0)
  {
    if limit > 0 {
      NoFeeNoRate(limit);
    }
    assert limit >= 1_400_000 ==> Clamp(limit) == Clamp(1_400_000);
  }

  lemma NoFeeNoRate(limit: U32)
    requires limit > 0
    ensures V1PriorityRate(TransactionConfig(None, Some(limit))) == Some(0)
  {
    V1RateIsExact(TransactionConfig(None, Some(limit)));
  }

  /** The values the source's tests pin: an ordinary rate, the cap, and the overflow. */
  lemma PinnedRates()
    ensures V1PriorityRate(Priced(420, 42_000)) == Some(10_000)
    ensures V1PriorityRate(Priced(3_240_000, 4_200_000)) == Some(2_314_285)
    ensures V1PriorityRate(Priced(U64_MAX, 1)) == Some(0)
  {
    V1RateIsExact(Priced(U64_MAX, 1));
  }

  /** A limit of a million units or more never overflows, whatever the total. */
  lemma LargeLimitFits(total: U64, limit: U32)
    requires limit >= 1_000_000
    ensures var c := if limit <= 1_400_000 then limit else 1_400_000;
      total * 1_000_000 / c <= total && V1PriorityRate(Priced(total, limit)) == Some(total * 1_000_000 / c)
  {
    var c := if limit <= 1_400_000 then limit else 1_400_000;
    DivideByMillions(total, c);
    RateWhereItFits(total, limit, c);
  }

  lemma DivideByMillions(total: nat, c: nat)
    requires c >= 1_000_000
    ensures total * 1_000_000 / c <= total
  {
    DivideBounds(total * 1_000_000, c, total + 1);
    assert (total + 1) * c == total * c + c && total * c == total * 1_000_000 + total * (c - 1_000_000);
    assert total * (c - 1_000_000) >= 0;
  }

  lemma DivideMonotone(x: nat, y: nat, c: nat, d: nat)
    requires x <= y && 0 < c <= d
    ensures x / d <= y / c
  {
    DivideBounds(x, d, x / d);
    DivideBounds(y, c, x / d);
    assert x / d * c <= x / d * d;
  }

  /** Where nothing overflows, a larger total never lowers the rate and a larger limit never raises it. */
  lemma V1RateMonotone(total: U64, limit: U32, total': U64, limit': U32)
    requires 0 < limit' <= limit && total <= total'
    requires total' * 1_000_000 / (if limit' <= 1_400_000 then limit' else 1_400_000) <= U64_MAX
    ensures var low, high := V1PriorityRate(Priced(total, limit)), V1PriorityRate(Priced(total', limit'));
      low.Some? && high.Some? && low.value <= high.value
  {
    var c: nat, c': nat := if limit <= 1_400_000 then limit else 1_400_000, if limit' <= 1_400_000 then limit' else 1_400_000;
    DivideMonotone(total * 1_000_000, total' * 1_000_000, c', c);
    RateWhereItFits(total, limit, c);
    RateWhereItFits(total', limit', c');
  }

  lemma DivideShifted(p: nat, limit: nat, excess: nat)
    requires limit > 0
    ensures (p * limit + excess) / limit == p + excess / limit
  {
    DivideBounds(excess, limit, 0);
    DivideBounds(p * limit + excess, limit, p + excess / limit);
    DivideBounds(p * limit + excess, limit, p + excess / limit + 1);
    assert (p + excess / limit) * limit == p * limit + excess / limit * limit;
    assert (p + excess / limit + 1) * limit == p * limit + excess / limit * limit + limit;
  }

  /**
   A legacy price over a limit charges `total`, the whole lamports that just cover it. Paying that
   total through a version 1 config gives the price back, or a little more: exactly the price if and
   only if rounding up to whole lamports added less than the limit.
   */
  lemma RateRoundTrip(price: nat, limit: U32, total: U64)
    requires 0 < limit <= 1_400_000
    requires price * limit <= total * 1_000_000 < price * limit + 1_000_000
    requires total * 1_000_000 / limit <= U64_MAX
    ensures var r, excess := V1PriorityRate(Priced(total, limit)), total * 1_000_000 - price * limit;
      && r.Some?
      && price <= r.value <= price + 999_999 / limit
      && r.value == price + excess / limit
      && (r.value == price <==> excess < limit)
  {
    var excess := total * 1_000_000 - price * limit;
    RateWhereItFits(total, limit, limit);
    DivideShifted(price, limit, excess);
    ExcessOver(excess, limit);
  }

  lemma ExcessOver(excess: nat, limit: nat)
    requires limit > 0 && excess <= 999_999
    ensures 0 <= excess / limit <= 999_999 / limit
    ensures excess / limit == 0 <==> excess < limit
  {
    DivideBounds(excess, limit, 1);
    DivideMonotone(excess, 999_999, limit, limit);
  }

  /** Whole-lamport prices and limits of a million units are given back exactly. */
  lemma ExactRoundTrips(price: nat, limit: U32, total: U64)
    requires 0 < limit <= 1_400_000
    requires price * limit <= total * 1_000_000 < price * limit + 1_000_000
    requires total * 1_000_000 / limit <= U64_MAX
    requires price * limit % 1_000_000 == 0 || limit >= 1_000_000
    ensures V1PriorityRate(Priced(total, limit)) == Some(price)
  {
    RateRoundTrip(price, limit, total);
    if price * limit % 1_000_000 == 0 {
      WholeLamports(price * limit, total);
    }
  }

  lemma WholeLamports(charge: nat, total: nat)
    requires charge % 1_000_000 == 0 && charge <= total * 1_000_000 < charge + 1_000_000
    ensures charge == total * 1_000_000
  {
    assert charge == charge / 1_000_000 * 1_000_000;
  }

  /** Neither is necessary: one micro-lamport over 999,999 units is a fraction of a lamport, yet comes back exactly. */
  lemma FractionComesBack()
    ensures 1 * 999_999 % 1_000_000 != 0 && 1 * 999_999 <= 1 * 1_000_000 < 1 * 999_999 + 1_000_000
    ensures V1PriorityRate(Priced(1, 999_999)) == Some(1)
  {
    V1RateIsExact(Priced(1, 999_999));
  }

  // ---------------------------------------------------------------- writable accounts

  datatype MessageHeader = MessageHeader(numRequiredSignatures: U32, numReadonlySigned: U32, numReadonlyUnsigned: U32)

  /** The first writable-signer bound, saturating at zero. */
  function SignerEnd(h: MessageHeader): nat {
    if h.numReadonlySigned <= h.numRequiredSignatures then h.numRequiredSignatures - h.numReadonlySigned else 0
  }

  /** The non-signer bound; more read-only accounts than accounts means no bound. */
  function NonSignerEnd(h: MessageHeader, n: nat): nat {
    if h.numReadonlyUnsigned <= n then n - h.numReadonlyUnsigned else n
  }

  predicate IsWritable(h: MessageHeader, n: nat, i: nat) {
    i < SignerEnd(h) || (i >= h.numRequiredSignatures && i < NonSignerEnd(h, n))
  }

  /** The positions below `k` that the filter keeps, in order. */
  function Keep<T>(accounts: seq<T>, h: MessageHeader, k: nat): seq<T>
    requires k <= |accounts|
  {
    if k == 0 then []
    else Keep(accounts, h, k - 1) + (if IsWritable(h, |accounts|, k - 1) then [accounts[k-1]] else [])
  }

  function WritableAccounts<T>(accounts: seq<T>, header: Option<MessageHeader>): seq<T> {
    match header
    case None => accounts
    case Some(h) => Keep(accounts, h, |accounts|)
  }

  function Least(a: nat, b: nat): nat {
    if a <= b then a else b
  }

  /** The part of `accounts` in `[lo, hi)` that lies below `k`. */
  function Below<T>(accounts: seq<T>, lo: nat, hi: nat, k: nat): seq<T>
    requires k <= |accounts|
  {
    if lo < Least(hi, k) then accounts[lo..Least(hi, k)] else []
  }

  lemma {:induction false} KeepIsSlices<T>(accounts: seq<T>, h: MessageHeader, k: nat)
    requires k <= |accounts|
    ensures Keep(accounts, h, k)
         == Below(accounts, 0, SignerEnd(h), k) + Below(accounts, h.numRequiredSignatures, NonSignerEnd(h, |accounts|), k)
  {
    if k > 0 {
      KeepIsSlices(accounts, h, k - 1);
      BelowOneMore(accounts, 0, SignerEnd(h), k);
      BelowOneMore(accounts, h.numRequiredSignatures, NonSignerEnd(h, |accounts|), k);
      assert k - 1 < SignerEnd(h) ==> Below(accounts, h.numRequiredSignatures, NonSignerEnd(h, |accounts|), k) == [];
    }
  }

  lemma BelowOneMore<T>(accounts: seq<T>, lo: nat, hi: nat, k: nat)
    requires 0 < k <= |accounts|
    ensures Below(accounts, lo, hi, k) == Below(accounts, lo, hi, k - 1) + (if lo <= k - 1 < hi then [accounts[k-1]] else [])
  {
  }

  /**
   For every header, well formed or not, the filter is two disjoint slices in order: the writable
   signers, as many as the signers outnumber the read-only ones, and the writable non-signers, up to
   the read-only ones at the end, or up to the end when there are more of those than accounts.
   Without a header every account is kept.
   */
  lemma WritableAreSlices<T>(accounts: seq<T>, h: MessageHeader)
    ensures WritableAccounts(accounts, None) == accounts
    ensures var n := |accounts|;
      var writableSigners: nat := if h.numReadonlySigned <= h.numRequiredSignatures then h.numRequiredSignatures - h.numReadonlySigned else 0;
      var signers: nat := if writableSigners <= n then writableSigners else n;
      var from: nat, to: nat := h.numRequiredSignatures, if h.numReadonlyUnsigned <= n then n - h.numReadonlyUnsigned else n;
      && signers <= from && to <= n
      && WritableAccounts(accounts, Some(h)) == accounts[..signers] + (if from < to then accounts[from..to] else [])
  {
    KeepIsSlices(accounts, h, |accounts|);
  }

  /** A well-formed header leaves out exactly its read-only accounts. */
  lemma WritableCount<T>(accounts: seq<T>, h: MessageHeader)
    requires h.numReadonlySigned <= h.numRequiredSignatures
    requires h.numRequiredSignatures + h.numReadonlyUnsigned <= |accounts|
    ensures |WritableAccounts(accounts, Some(h))| == |accounts| - h.numReadonlySigned - h.numReadonlyUnsigned
  {
    WritableAreSlices(accounts, h);
  }

  function Mapped<A, B>(f: A -> B, s: seq<A>): (r: seq<B>)
    ensures |r| == |s| && forall i :: 0 <= i < |s| ==> r[i] == f(s[i])
  {
    seq(|s|, i requires 0 <= i < |s| => f(s[i]))
  }

  /** The selection looks at positions only: choosing then mapping is mapping then choosing. */
  lemma WritableCommutes<A, B>(f: A -> B, accounts: seq<A>, header: Option<MessageHeader>)
    ensures WritableAccounts(Mapped(f, accounts), header) == Mapped(f, WritableAccounts(accounts, header))
  {
    if header.Some? {
      KeepCommutes(f, accounts, header.value, |accounts|);
    }
  }

  lemma {:induction false} KeepCommutes<A, B>(f: A -> B, accounts: seq<A>, h: MessageHeader, k: nat)
    requires k <= |accounts|
    ensures Keep(Mapped(f, accounts), h, k) == Mapped(f, Keep(accounts, h, k))
  {
    if k > 0 {
      KeepCommutes(f, accounts, h, k - 1);
    }
  }
}
