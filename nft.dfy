/**
 * The nft pallet: supporters back a KOL (an influencer's DID) by paying into
 * its pot before the KOL's NFT exists; the KOL then mints the NFT and its
 * fungible fragments; after minting every backer, and after a lockup the KOL
 * too, claims fragments in proportion to the deposit. The NFT, asset and
 * swap pallets it calls are an external host that may refuse each step.
 */
module Nft {
  import opened Primitives
  import Ledger
  import Identity

  /** `StringLimit`; metadata may use all but four of its bytes. */
  type StringLimit = x: nat | x >= 4 witness 4

  /** `U512::MAX`, the width of the payout arithmetic. */
  const U512_MAX: int := 0xffff_ffff_ffff_ffff_ffff_ffff_ffff_ffff_ffff_ffff_ffff_ffff_ffff_ffff_ffff_ffff_ffff_ffff_ffff_ffff_ffff_ffff_ffff_ffff_ffff_ffff_ffff_ffff_ffff_ffff_ffff_ffff

  /** The first instance of a class, `AssetId::min_value()`. */
  const FIRST_INSTANCE: nat := 0

  /** Decimals of the fragment asset. */
  const DECIMALS: nat := 18

  /** One step of `mint` or `claim` performed by the NFT, asset or swap pallet. */
  datatype ExternalCall =
    | CreateClass(cid: nat, owner: Account, admin: Account)
    | MintInstance(cid: nat, tid: nat, owner: Account)
    | CreateAsset(cid: nat, admin: Account, sufficient: bool, minBalance: nat)
    | SetMetadata(cid: nat, owner: Account, name: seq<Byte>, symbol: seq<Byte>, decimals: nat)
    | MintFragments(cid: nat, beneficiary: Account, amount: Balance)
    | NewSwap(cid: nat)
    | AddLiquidity(provider: Account, cid: nat, currency: Balance, maxCurrency: Balance, tokens: Balance, keepAlive: bool)
    | TransferFragments(cid: nat, from: Account, to: Account, amount: Balance, keepAlive: bool)

  datatype Error =
    | BadMetadata
    | InsufficientBalance
    | Minted
    | Overflow
    | NotExists
    | NoToken
    | YourSelf
    | BadOrigin
    | Currency(cause: Ledger.Error)
    | Refused(call: ExternalCall)

  datatype Event =
    | Backed(did: Did, kol: Did, value: Balance)
    | Claimed(did: Did, kol: Did, tokens: Balance)
    | Minted(kol: Did, cid: nat, tid: nat, name: seq<Byte>, symbol: seq<Byte>, tokens: Balance)

  // ---------------------------------------------------------------------------
  // Bookkeeping helpers
  // ---------------------------------------------------------------------------

  /** `mutate` with `saturating_accrue`: adds `value` to the entry, or creates it as `value`. */
  function Accrue<K>(m: map<K, Balance>, k: K, value: Balance): (r: map<K, Balance>)
    ensures r.Keys == m.Keys + {k}
    ensures r[k] == if k in m then SaturatingAdd(m[k], value) else value
    ensures value <= r[k] && (k in m ==> m[k] <= r[k])
    ensures forall j | j in m && j != k :: r[j] == m[j]
  {
    m[k := if k in m then SaturatingAdd(m[k], value) else value]
  }

  /**
   * `Pallet::try_into`: converts through `u128` into a type whose largest
   * value is `targetMax`, failing with `Overflow` when either step does not fit.
   */
  function TryInto(value: nat, targetMax: nat): (r: Result<nat, Error>)
    ensures r.Success? <==> value <= U128_MAX && value <= targetMax
    ensures r.Success? ==> r.value == value
    ensures r.Failure? ==> r.error == Overflow
  {
    if value > U128_MAX then Failure(Overflow)
    else if value > targetMax then Failure(Overflow)
    else Success(value)
  }

  /** Every balance fits the 512-bit payout arithmetic, so widening one never fails. */
  lemma BalanceFitsWide(b: Balance)
    ensures TryInto(b, U512_MAX) == Success(b)
  {
  }

  // ---------------------------------------------------------------------------
  // Metadata validation
  // ---------------------------------------------------------------------------

  /** `u8::is_ascii_whitespace`: space, tab, line feed, form feed, carriage return. */
  predicate IsAsciiWhitespace(c: Byte)
  {
    c == 0x20 || c == 0x09 || c == 0x0A || c == 0x0C || c == 0x0D
  }

  predicate IsAsciiAlphabetic(c: Byte)
  {
    (0x41 <= c <= 0x5A) || (0x61 <= c <= 0x7A)
  }

  predicate IsAsciiAlphanumeric(c: Byte)
  {
    IsAsciiAlphabetic(c) || (0x30 <= c <= 0x39)
  }

  /** The `is_valid_char` closure. */
  predicate IsValidChar(c: Byte)
  {
    IsAsciiWhitespace(c) || IsAsciiAlphanumeric(c)
  }

  /** A name or symbol: one to `limit` bytes, a letter first, only letters, digits and whitespace. */
  predicate WellFormed(s: seq<Byte>, limit: nat)
  {
    0 < |s| <= limit && IsAsciiAlphabetic(s[0]) && forall i | 0 <= i < |s| :: IsValidChar(s[i])
  }

  /** The metadata check `mint` evidently intends: name and symbol both well formed. */
  predicate ValidMetadata(name: seq<Byte>, symbol: seq<Byte>, limit: nat)
  {
    WellFormed(name, limit) && WellFormed(symbol, limit)
  }

  /** How the check as written ends: accepted, refused with `BadMetadata`, or a panic. */
  datatype Verdict = Accepted | Rejected | Trapped

  /**
   * The four `ensure!`s as written: the second repeats `0 < name.len()` where
   * the symbol's length is meant, so an empty symbol reaches `symbol[0]`.
   */
  function ValidateAsWritten(name: seq<Byte>, symbol: seq<Byte>, limit: nat): (v: Verdict)
    ensures v == Trapped <==> WellFormed(name, limit) && |symbol| == 0
    ensures v == Accepted ==> ValidMetadata(name, symbol, limit)
  {
    if !(0 < |name| && |name| <= limit) then Rejected
    else if !(0 < |name| && |symbol| <= limit) then Rejected
    else if !(IsAsciiAlphabetic(name[0]) && forall i | 0 <= i < |name| :: IsValidChar(name[i])) then Rejected
    else if |symbol| == 0 then Trapped
    else if !(IsAsciiAlphabetic(symbol[0]) && forall i | 0 <= i < |symbol| :: IsValidChar(symbol[i])) then Rejected
    else Accepted
  }

  /** A good name with an empty symbol makes the check as written index past the end. */
  lemma ValidateAsWrittenTrapsOnEmptySymbol()
    ensures ValidateAsWritten([0x41], [], 10) == Trapped
    ensures !ValidMetadata([0x41], [], 10)
  {
  }

  /** For every non-empty symbol the check as written and the intended one agree. */
  lemma ValidateAsWrittenAgreesOnNonEmptySymbol(name: seq<Byte>, symbol: seq<Byte>, limit: nat)
    requires |symbol| > 0
    ensures ValidateAsWritten(name, symbol, limit) == if ValidMetadata(name, symbol, limit) then Accepted else Rejected
  {
  }

  // ---------------------------------------------------------------------------
  // The lockup and the payout
  // ---------------------------------------------------------------------------

  /**
   * The lockup check as written: `height - minted` on 32-bit block numbers
   * wraps around when the recorded date lies ahead of the current height.
   */
  function LockupElapsedAsWritten(now: Height, minted: Height, lockup: Height): (ok: bool)
    ensures minted <= now <= minted + U32_MAX ==> (ok <==> now - minted >= lockup)
    ensures now < minted <= now + U32_MAX ==> (ok <==> U32_MAX + 1 - (minted - now) >= lockup)
  {
    (now - minted) % (U32_MAX + 1) >= lockup
  }

  /** The lockup check with the subtraction saturating at zero. */
  function LockupElapsed(now: Height, minted: Height, lockup: Height): (ok: bool)
    ensures lockup > 0 ==> (ok <==> now >= minted + lockup)
  {
    (if now >= minted then now - minted else 0) >= lockup
  }

  /**
   * Genesis dates every class at the lockup period itself, so at height 1 a
   * genesis KOL passes the check as written although its lockup has not begun to run.
   */
  lemma LockupAsWrittenReleasesGenesisClassEarly()
    ensures LockupElapsedAsWritten(1, 100, 100) && !LockupElapsed(1, 100, 100)
  {
  }

  /** For a date no later than the current height the two checks agree. */
  lemma LockupAsWrittenAgreesAfterMinting(now: Height, minted: Height, lockup: Height)
    requires minted <= now <= U32_MAX
    ensures LockupElapsedAsWritten(now, minted, lockup) == LockupElapsed(now, minted, lockup)
  {
  }

  /** `initial * deposit / total` in 512-bit arithmetic, which the product of two balances never overflows. */
  function Payout(initial: Balance, share: Balance, total: Balance): (r: nat)
    requires total > 0
    ensures r * total <= initial * share < (r + 1) * total
  {
    MulGrows(0, share, initial);
    initial * share / total
  }

  lemma MulGrows(a: int, b: int, k: nat)
    requires a <= b
    ensures k * a <= k * b
  {
  }

  lemma Distribute(x: int, y: int, k: int)
    ensures (x + y) * k == x * k + y * k
    ensures k * (x + y) == k * x + k * y
  {
  }

  /** Dividing both sides of `q * t <= k * t` by a positive `t`. */
  lemma ScaledBound(q: nat, k: nat, t: nat)
    requires t > 0
    requires q * t <= k * t
    ensures q <= k
  {
    if q > k {
      MulGrows(k + 1, q, t);
      assert false;
    }
  }

  /** The payout never exceeds the exact pro-rata amount. */
  lemma PayoutProRata(initial: Balance, share: Balance, total: Balance)
    requires total > 0
    ensures Payout(initial, share, total) * total <= initial * share
  {
    var x := initial * share;
    assert x == (x / total) * total + x % total;
  }

  /** A backer whose deposit is at most the total is paid at most the base amount. */
  lemma PayoutWithinBase(initial: Balance, share: Balance, total: Balance)
    requires 0 < total
    requires share <= total
    ensures Payout(initial, share, total) <= initial
  {
    PayoutProRata(initial, share, total);
    MulGrows(share, total, initial);
    ScaledBound(Payout(initial, share, total), initial, total);
  }

  /** The payouts of all the given deposits against one total. */
  function PayoutsOf(initial: Balance, shares: seq<Balance>, total: Balance): nat
    requires total > 0
  {
    if shares == [] then 0
    else PayoutsOf(initial, shares[..|shares| - 1], total) + Payout(initial, shares[|shares| - 1], total)
  }

  lemma {:induction false} PayoutsProRata(initial: Balance, shares: seq<Balance>, total: Balance)
    requires total > 0
    ensures PayoutsOf(initial, shares, total) * total <= initial * Sum(shares)
    decreases |shares|
  {
    if shares != [] {
      var n := |shares| - 1;
      var rest, last := PayoutsOf(initial, shares[..n], total), Payout(initial, shares[n], total);
      PayoutProRata(initial, shares[n], total);
      PayoutsProRata(initial, shares[..n], total);
      Distribute(rest, last, total);
      Distribute(Sum(shares[..n]), shares[n], initial);
    }
  }

  /**
   * Backers whose deposits add up to at most the total are paid, all
   * together, at most the base amount: rounding down never over-commits.
   */
  lemma PayoutsWithinBase(initial: Balance, shares: seq<Balance>, total: Balance)
    requires 0 < total
    requires Sum(shares) <= total
    ensures PayoutsOf(initial, shares, total) <= initial
  {
    PayoutsProRata(initial, shares, total);
    MulGrows(Sum(shares), total, initial);
    ScaledBound(PayoutsOf(initial, shares, total), initial, total);
  }

  // ---------------------------------------------------------------------------
  // The checks of back, mint and claim
  // ---------------------------------------------------------------------------

  /** The checks of `back`, in order; on success the caller and the KOL's pot. */
  function BackCheck(metaOf: map<Did, Identity.Meta>, origin: Option<Identity.Caller>, kol: Did): (r: Result<(Identity.Caller, Account), Error>)
    ensures origin.None? ==> r == Failure(BadOrigin)
    ensures origin.Some? && kol == origin.value.did ==> r == Failure(YourSelf)
    ensures origin.Some? && kol != origin.value.did && kol !in metaOf ==> r == Failure(NotExists)
    ensures origin.Some? && kol != origin.value.did && kol in metaOf && metaOf[kol].nft.Some? ==>
            r == Failure(Error.Minted)
    ensures r.Success? <==>
            origin.Some? && kol != origin.value.did && kol in metaOf && metaOf[kol].nft.None?
    ensures r.Success? ==> r.value == (origin.value, metaOf[kol].pot)
  {
    if origin.None? then Failure(BadOrigin)
    else if kol == origin.value.did then Failure(YourSelf)
    else if kol !in metaOf then Failure(NotExists)
    else if metaOf[kol].nft.Some? then Failure(Error.Minted)
    else Success((origin.value, metaOf[kol].pot))
  }

  /** What `mint` settles on before its external steps. */
  datatype MintPlan = MintPlan(did: Did, meta: Identity.Meta, deposit: Balance, cid: nat)

  /**
   * The checks of `mint`, in order: metadata first, then the origin, the
   * caller's meta, not yet minted, the pot funded, and the class counter
   * not at its largest value.
   */
  function MintCheck(limit: nat, minimumDeposit: Balance, nextClassId: nat, maxAssetId: nat,
                     metaOf: map<Did, Identity.Meta>, free: map<Account, Balance>,
                     origin: Option<Identity.Caller>, name: seq<Byte>, symbol: seq<Byte>): (r: Result<MintPlan, Error>)
    ensures !ValidMetadata(name, symbol, limit) ==> r == Failure(BadMetadata)
    ensures ValidMetadata(name, symbol, limit) && origin.None? ==> r == Failure(BadOrigin)
    ensures ValidMetadata(name, symbol, limit) && origin.Some? && origin.value.did !in metaOf ==>
            r == Failure(NotExists)
    ensures (ValidMetadata(name, symbol, limit) && origin.Some? && origin.value.did in metaOf &&
             metaOf[origin.value.did].nft.Some?) ==> r == Failure(Error.Minted)
    ensures (ValidMetadata(name, symbol, limit) && origin.Some? && origin.value.did in metaOf &&
             metaOf[origin.value.did].nft.None? &&
             Ledger.FreeOf(free, metaOf[origin.value.did].pot) < minimumDeposit) ==> r == Failure(InsufficientBalance)
    ensures (ValidMetadata(name, symbol, limit) && origin.Some? && origin.value.did in metaOf &&
             metaOf[origin.value.did].nft.None? &&
             Ledger.FreeOf(free, metaOf[origin.value.did].pot) >= minimumDeposit &&
             nextClassId >= maxAssetId) ==> r == Failure(Overflow)
    ensures r.Success? <==>
            && ValidMetadata(name, symbol, limit) && origin.Some? && origin.value.did in metaOf
            && metaOf[origin.value.did].nft.None?
            && Ledger.FreeOf(free, metaOf[origin.value.did].pot) >= minimumDeposit
            && nextClassId < maxAssetId
    ensures r.Success? ==>
            r.value == MintPlan(origin.value.did, metaOf[origin.value.did],
                                Ledger.FreeOf(free, metaOf[origin.value.did].pot), nextClassId)
  {
    if !ValidMetadata(name, symbol, limit) then Failure(BadMetadata)
    else if origin.None? then Failure(BadOrigin)
    else if origin.value.did !in metaOf then Failure(NotExists)
    else
      var meta := metaOf[origin.value.did];
      if meta.nft.Some? then Failure(Error.Minted)
      else if Ledger.FreeOf(free, meta.pot) < minimumDeposit then Failure(InsufficientBalance)
      else if nextClassId + 1 > maxAssetId then Failure(Overflow)
      else Success(MintPlan(origin.value.did, meta, Ledger.FreeOf(free, meta.pot), nextClassId))
  }

  /** Whoever calls and whatever the name, an empty symbol is refused as bad metadata. */
  lemma MintCheckRefusesEmptySymbol(limit: nat, minimumDeposit: Balance, nextClassId: nat, maxAssetId: nat,
                                    metaOf: map<Did, Identity.Meta>, free: map<Account, Balance>,
                                    origin: Option<Identity.Caller>, name: seq<Byte>)
    ensures MintCheck(limit, minimumDeposit, nextClassId, maxAssetId, metaOf, free, origin, name, []) == Failure(BadMetadata)
  {
  }

  /**
   * The external steps of `mint`, in order: the class and its first
   * instance, the fragment asset and its metadata, three base amounts of
   * fragments to the pot, and a swap seeded with the pot's deposit and one
   * base amount of fragments.
   */
  function MintCalls(plan: MintPlan, name: seq<Byte>, symbol: seq<Byte>, initial: Balance): (calls: seq<ExternalCall>)
    ensures |calls| == 7
    ensures MintFragments(plan.cid, plan.meta.pot, SaturatingMul(initial, 3)) in calls
    ensures AddLiquidity(plan.meta.pot, plan.cid, plan.deposit, plan.deposit, initial, false) in calls
    ensures forall i | 0 <= i < |calls| :: calls[i].cid == plan.cid
  {
    var pot := plan.meta.pot;
    [ CreateClass(plan.cid, pot, pot),
      MintInstance(plan.cid, FIRST_INSTANCE, pot),
      CreateAsset(plan.cid, pot, true, 1),
      SetMetadata(plan.cid, pot, name, symbol, DECIMALS),
      MintFragments(plan.cid, pot, SaturatingMul(initial, 3)),
      NewSwap(plan.cid),
      AddLiquidity(pot, plan.cid, plan.deposit, plan.deposit, initial, false) ]
  }

  /** The first step the host refuses; `?` stops `mint` there. */
  function FirstRefused(calls: seq<ExternalCall>, host: ExternalCall -> bool): (r: Option<ExternalCall>)
    ensures r.None? <==> forall i | 0 <= i < |calls| :: host(calls[i])
    ensures r.Some? ==> exists i | 0 <= i < |calls| ::
      calls[i] == r.value && !host(calls[i]) && forall j | 0 <= j < i :: host(calls[j])
    decreases |calls|
  {
    if calls == [] then None
    else if !host(calls[0]) then Some(calls[0])
    else
      var rest := FirstRefused(calls[1..], host);
      if rest.Some? then
        ghost var i :| 0 <= i < |calls[1..]| && calls[1..][i] == rest.value && !host(calls[1..][i]) &&
          forall j | 0 <= j < i :: host(calls[1..][j]);
        assert calls[i + 1] == rest.value;
        rest
      else rest
  }

  /** What a successful claim pays and to whom. */
  datatype Payment = Payment(did: Did, who: Account, cid: nat, pot: Account, tokens: Balance)

  /**
   * The checks of `claim`, in order, and on success the payment. The KOL
   * itself must also wait out the lockup from its class's date; everyone is
   * paid `initial * deposit / total` once, from the record of their deposit.
   * A zero total, which the division cannot take, is refused with `NoToken`.
   */
  function Entitlement(lockup: Height, initial: Balance, metaOf: map<Did, Identity.Meta>, date: map<nat, Height>,
                       deposit: map<Did, Balance>, deposits: map<(Did, Did), Balance>,
                       origin: Option<Identity.Caller>, kol: Did, now: Height): (r: Result<Payment, Error>)
    ensures origin.None? ==> r == Failure(BadOrigin)
    ensures origin.Some? && (kol !in metaOf || metaOf[kol].nft.None?) ==> r == Failure(NotExists)
    ensures (origin.Some? && kol in metaOf && metaOf[kol].nft.Some? && kol == origin.value.did &&
             metaOf[kol].nft.value !in date) ==> r == Failure(NotExists)
    ensures (origin.Some? && kol in metaOf && metaOf[kol].nft.Some? && kol == origin.value.did &&
             metaOf[kol].nft.value in date && !LockupElapsed(now, date[metaOf[kol].nft.value], lockup))
            ==> r == Failure(NoToken)
    ensures (origin.Some? && kol in metaOf && metaOf[kol].nft.Some? &&
             (kol == origin.value.did ==>
                metaOf[kol].nft.value in date && LockupElapsed(now, date[metaOf[kol].nft.value], lockup)))
            ==>
            && (kol !in deposit ==> r == Failure(NotExists))
            && (kol in deposit && (kol, origin.value.did) !in deposits ==> r == Failure(NoToken))
            && (kol in deposit && (kol, origin.value.did) in deposits && deposit[kol] == 0 ==> r == Failure(NoToken))
            && ((kol in deposit && (kol, origin.value.did) in deposits && deposit[kol] > 0 &&
                 Payout(initial, deposits[(kol, origin.value.did)], deposit[kol]) > U128_MAX) ==> r == Failure(Overflow))
    ensures r.Success? <==>
      && origin.Some? && kol in metaOf && metaOf[kol].nft.Some?
      && (kol == origin.value.did ==>
            metaOf[kol].nft.value in date && LockupElapsed(now, date[metaOf[kol].nft.value], lockup))
      && kol in deposit && (kol, origin.value.did) in deposits && deposit[kol] > 0
      && Payout(initial, deposits[(kol, origin.value.did)], deposit[kol]) <= U128_MAX
    ensures r.Success? ==>
      r.value == Payment(origin.value.did, origin.value.who, metaOf[kol].nft.value, metaOf[kol].pot,
                         Payout(initial, deposits[(kol, origin.value.did)], deposit[kol]))
  {
    if origin.None? then Failure(BadOrigin)
    else
      var did := origin.value.did;
      if kol !in metaOf then Failure(NotExists)
      else if metaOf[kol].nft.None? then Failure(NotExists)
      else
        var cid := metaOf[kol].nft.value;
        if kol == did && cid !in date then Failure(NotExists)
        else if kol == did && !LockupElapsed(now, date[cid], lockup) then Failure(NoToken)
        else if kol !in deposit then Failure(NotExists)
        else if (kol, did) !in deposits then Failure(NoToken)
        else if deposit[kol] == 0 then Failure(NoToken)
        else
          var tokens := Payout(initial, deposits[(kol, did)], deposit[kol]);
          if tokens > U128_MAX then Failure(Overflow)
          else Success(Payment(did, origin.value.who, cid, metaOf[kol].pot, tokens))
  }

  /**
   * A claim overflows only for a deposit record larger than the KOL's
   * total, which only the KOL's own record, set from the pot's balance at
   * minting, can be.
   */
  lemma ClaimOverflowNeedsOversizedShare(lockup: Height, initial: Balance, metaOf: map<Did, Identity.Meta>,
                                         date: map<nat, Height>, deposit: map<Did, Balance>,
                                         deposits: map<(Did, Did), Balance>,
                                         origin: Option<Identity.Caller>, kol: Did, now: Height)
    requires Entitlement(lockup, initial, metaOf, date, deposit, deposits, origin, kol, now) == Failure(Overflow)
    ensures origin.Some? && kol in deposit && (kol, origin.value.did) in deposits
    ensures deposits[(kol, origin.value.did)] > deposit[kol]
  {
    var share := deposits[(kol, origin.value.did)];
    if share <= deposit[kol] {
      PayoutWithinBase(initial, share, deposit[kol]);
    }
  }

  /** Once a claim has removed its deposit record, the same claim again fails with `NoToken`. */
  lemma ClaimIsOneShot(lockup: Height, initial: Balance, metaOf: map<Did, Identity.Meta>, date: map<nat, Height>,
                       deposit: map<Did, Balance>, deposits: map<(Did, Did), Balance>,
                       origin: Option<Identity.Caller>, kol: Did, now: Height)
    requires Entitlement(lockup, initial, metaOf, date, deposit, deposits, origin, kol, now).Success?
    ensures Entitlement(lockup, initial, metaOf, date, deposit, deposits - {(kol, origin.value.did)}, origin, kol, now)
            == Failure(NoToken)
  {
  }

  /** The division of `claim` as written: `None` where `U512` division by a zero total panics. */
  function PayoutAsWritten(initial: Balance, share: Balance, total: Balance): (r: Option<nat>)
    ensures r.None? <==> total == 0
    ensures total > 0 ==> r == Some(Payout(initial, share, total))
  {
    if total == 0 then None else Some(Payout(initial, share, total))
  }

  /**
   * `back(kol, 0)` for a KOL nobody has backed transfers nothing, yet
   * records a zero total and a zero deposit for the backer, so the backer's
   * claim reaches the division with a zero total.
   */
  lemma BackOfNothingLeavesZeroTotal(free: map<Account, Balance>, minimum: Balance, who: Account, pot: Account,
                                     deposit: map<Did, Balance>, deposits: map<(Did, Did), Balance>,
                                     kol: Did, did: Did, initial: Balance)
    requires kol !in deposit
    ensures Ledger.Transferred(free, minimum, who, pot, 0, Ledger.Existence.KeepAlive) == Success(free)
    ensures var total := Accrue(deposit, kol, 0);
            var records := Accrue(deposits, (kol, did), 0);
            && kol in total && total[kol] == 0 && (kol, did) in records
            && PayoutAsWritten(initial, records[(kol, did)], total[kol]) == None
  {
  }

  // ---------------------------------------------------------------------------
  // Genesis
  // ---------------------------------------------------------------------------

  /** Classes `0 .. n` each dated at `lockup`. */
  function DatesBelow(n: nat, lockup: Height): (m: map<nat, Height>)
    ensures forall t: nat :: t in m <==> t < n
    ensures forall t | t in m :: m[t] == lockup
    decreases n
  {
    if n == 0 then map[] else DatesBelow(n - 1, lockup)[n - 1 := lockup]
  }

  /** Genesis dates classes `0 .. next` at the lockup period, or none when `next` exceeds 32 bits. */
  function GenesisDates(nextClassId: nat, lockup: Height): (m: map<nat, Height>)
    ensures nextClassId <= U32_MAX ==> forall t: nat :: t in m <==> t < nextClassId
    ensures nextClassId > U32_MAX ==> m == map[]
    ensures forall t | t in m :: m[t] == lockup
  {
    DatesBelow(if nextClassId <= U32_MAX then nextClassId else 0, lockup)
  }

  // ---------------------------------------------------------------------------
  // The pallet
  // ---------------------------------------------------------------------------

  class Pallet {
    const stringLimit: StringLimit
    const initialMintingDeposit: Balance
    const initialMintingLockupPeriod: Height
    const initialMintingValueBase: Balance
    /** `AssetId::max_value()`. */
    const maxAssetId: nat

    var deposit: map<Did, Balance>
    var deposits: map<(Did, Did), Balance>
    var date: map<nat, Height>
    var nextClassId: nat

    /** The counter never passes the largest class id, and every dated class lies below it. */
    ghost predicate Valid()
      reads this
    {
      nextClassId <= maxAssetId && forall cid | cid in date :: cid < nextClassId
    }

    /** `GenesisBuild::build`. */
    constructor Genesis(stringLimit: StringLimit, initialMintingDeposit: Balance, initialMintingLockupPeriod: Height,
                        initialMintingValueBase: Balance, maxAssetId: nat,
                        depositConfig: seq<(Did, Balance)>, depositsConfig: seq<((Did, Did), Balance)>,
                        nextClassId: nat)
      requires nextClassId <= maxAssetId
      ensures this.stringLimit == stringLimit && this.initialMintingDeposit == initialMintingDeposit
      ensures this.initialMintingLockupPeriod == initialMintingLockupPeriod
      ensures this.initialMintingValueBase == initialMintingValueBase && this.maxAssetId == maxAssetId
      ensures this.nextClassId == nextClassId
      ensures date == GenesisDates(nextClassId, initialMintingLockupPeriod)
      ensures deposit == Assign(map[], depositConfig) && deposits == Assign(map[], depositsConfig)
      ensures deposit.Keys == InsertedKeys(depositConfig) && deposits.Keys == InsertedKeys(depositsConfig)
      ensures forall i | 0 <= i < |depositConfig| && LastInsertOf(depositConfig, i) ::
        deposit[depositConfig[i].0] == depositConfig[i].1
      ensures forall i | 0 <= i < |depositsConfig| && LastInsertOf(depositsConfig, i) ::
        deposits[depositsConfig[i].0] == depositsConfig[i].1
      ensures Valid()
    {
      this.stringLimit := stringLimit;
      this.initialMintingDeposit := initialMintingDeposit;
      this.initialMintingLockupPeriod := initialMintingLockupPeriod;
      this.initialMintingValueBase := initialMintingValueBase;
      this.maxAssetId := maxAssetId;
      this.nextClassId := nextClassId;
      var n := if nextClassId <= U32_MAX then nextClassId else 0;
      var dates: map<nat, Height> := map[];
      for token := 0 to n
        invariant dates == DatesBelow(token, initialMintingLockupPeriod)
      {
        dates := dates[token := initialMintingLockupPeriod];
      }
      date := dates;
      var totals: map<Did, Balance> := map[];
      for i := 0 to |depositConfig|
        invariant totals == Assign(map[], depositConfig[..i])
      {
        assert depositConfig[..i + 1][..i] == depositConfig[..i];
        totals := totals[depositConfig[i].0 := depositConfig[i].1];
      }
      assert depositConfig[..|depositConfig|] == depositConfig;
      deposit := totals;
      var shares: map<(Did, Did), Balance> := map[];
      for i := 0 to |depositsConfig|
        invariant shares == Assign(map[], depositsConfig[..i])
      {
        assert depositsConfig[..i + 1][..i] == depositsConfig[..i];
        shares := shares[depositsConfig[i].0 := depositsConfig[i].1];
      }
      assert depositsConfig[..|depositsConfig|] == depositsConfig;
      deposits := shares;
      AssignKeys(map[], depositConfig);
      AssignKeys(map[], depositsConfig);
      forall i | 0 <= i < |depositConfig| && LastInsertOf(depositConfig, i)
        ensures totals[depositConfig[i].0] == depositConfig[i].1
      {
        AssignLastWins(map[], depositConfig, i);
      }
      forall i | 0 <= i < |depositsConfig| && LastInsertOf(depositsConfig, i)
        ensures shares[depositsConfig[i].0] == depositsConfig[i].1
      {
        AssignLastWins(map[], depositsConfig, i);
      }
    }

    /**
     * `back(kol, value)`: the caller pays `value` into the KOL's pot
     * (keep-alive) and both its total and the caller's own record grow by
     * `value`, saturating.
     */
    method Back(ledger: Ledger.Balances, registry: Identity.Registry, origin: Option<Identity.Caller>, kol: Did, value: Balance)
      returns (r: Result<Event, Error>)
      modifies this, ledger
      ensures date == old(date) && nextClassId == old(nextClassId)
      ensures BackCheck(registry.metaOf, origin, kol).Failure? ==>
        && r == Failure(BackCheck(registry.metaOf, origin, kol).error)
        && deposit == old(deposit) && deposits == old(deposits) && ledger.free == old(ledger.free)
      ensures BackCheck(registry.metaOf, origin, kol).Success? ==>
        var did := origin.value.did;
        var paid := Ledger.Transferred(old(ledger.free), ledger.minimum, origin.value.who,
                                       BackCheck(registry.metaOf, origin, kol).value.1, value, Ledger.Existence.KeepAlive);
        && (paid.Failure? ==>
              r == Failure(Currency(paid.error)) &&
              deposit == old(deposit) && deposits == old(deposits) && ledger.free == old(ledger.free))
        && (paid.Success? ==>
              && r == Success(Backed(did, kol, value))
              && ledger.free == paid.value
              && deposit == Accrue(old(deposit), kol, value)
              && deposits == Accrue(old(deposits), (kol, did), value))
      ensures old(Valid()) ==> Valid()
    {
      if origin.None? {
        return Failure(BadOrigin);
      }
      var did, who := origin.value.did, origin.value.who;
      if kol == did {
        return Failure(YourSelf);
      }
      if kol !in registry.metaOf {
        return Failure(NotExists);
      }
      var meta := registry.metaOf[kol];
      if meta.nft.Some? {
        return Failure(Error.Minted);
      }
      var paid := ledger.Transfer(who, meta.pot, value, Ledger.Existence.KeepAlive);
      if paid.Failure? {
        return Failure(Currency(paid.error));
      }
      deposit := Accrue(deposit, kol, value);
      deposits := Accrue(deposits, (kol, did), value);
      r := Success(Backed(did, kol, value));
    }

    /**
     * `mint(name, symbol)` at height `now`. Every refusal, including one by
     * the host part-way through the external steps, leaves storage as it was.
     */
    method Mint(ledger: Ledger.Balances, registry: Identity.Registry, origin: Option<Identity.Caller>,
                name: seq<Byte>, symbol: seq<Byte>, now: Height, host: ExternalCall -> bool)
      returns (r: Result<Event, Error>)
      modifies this, registry
      ensures deposit == old(deposit)
      ensures var plan := MintCheck(stringLimit - 4, initialMintingDeposit, old(nextClassId), maxAssetId,
                                    old(registry.metaOf), ledger.free, origin, name, symbol);
        && (plan.Failure? ==>
              && r == Failure(plan.error)
              && deposits == old(deposits) && date == old(date) && nextClassId == old(nextClassId)
              && registry.metaOf == old(registry.metaOf))
        && (plan.Success? && FirstRefused(MintCalls(plan.value, name, symbol, initialMintingValueBase), host).Some? ==>
              && r == Failure(Refused(FirstRefused(MintCalls(plan.value, name, symbol, initialMintingValueBase), host).value))
              && deposits == old(deposits) && date == old(date) && nextClassId == old(nextClassId)
              && registry.metaOf == old(registry.metaOf))
        && (plan.Success? && FirstRefused(MintCalls(plan.value, name, symbol, initialMintingValueBase), host).None? ==>
              var cid := plan.value.cid;
              && r == Success(Event.Minted(plan.value.did, cid, FIRST_INSTANCE, name, symbol, initialMintingValueBase))
              && nextClassId == old(nextClassId) + 1
              && registry.metaOf == old(registry.metaOf)[plan.value.did := plan.value.meta.(nft := Some(cid))]
              && date == old(date)[cid := now]
              && deposits == old(deposits)[(plan.value.did, plan.value.did) := plan.value.deposit])
      ensures old(Valid()) && r.Success? ==> r.value.Minted? && r.value.cid !in old(date)
      ensures old(Valid()) ==> Valid()
    {
      var limit := stringLimit - 4;
      if !WellFormed(name, limit) {
        return Failure(BadMetadata);
      }
      if !WellFormed(symbol, limit) {
        return Failure(BadMetadata);
      }
      var minted := now;
      if origin.None? {
        return Failure(BadOrigin);
      }
      var did := origin.value.did;

      if did !in registry.metaOf {
        return Failure(NotExists);
      }
      var meta := registry.metaOf[did];
      if meta.nft.Some? {
        return Failure(Error.Minted);
      }
      var funds := ledger.FreeBalance(meta.pot);
      if funds < initialMintingDeposit {
        return Failure(InsufficientBalance);
      }

      var cid := nextClassId;
      if cid + 1 > maxAssetId {
        return Failure(Overflow);
      }

      var plan := MintPlan(did, meta, funds, cid);
      var refused := FirstRefused(MintCalls(plan, name, symbol, initialMintingValueBase), host);
      if refused.Some? {
        // the host's transaction undoes every step already taken, the counter's increment included
        return Failure(Refused(refused.value));
      }

      nextClassId := cid + 1;
      registry.SetMeta(did, meta.(nft := Some(cid)));
      date := date[cid := minted];
      deposits := deposits[(did, did) := funds];
      r := Success(Event.Minted(did, cid, FIRST_INSTANCE, name, symbol, initialMintingValueBase));
    }

    /**
     * `claim(kol)` at height `now`: pays the caller's fragments from the
     * KOL's pot and removes the caller's deposit record. A zero total, on
     * which the division would panic, is refused with `NoToken`.
     */
    method Claim(registry: Identity.Registry, origin: Option<Identity.Caller>, kol: Did, now: Height, host: ExternalCall -> bool)
      returns (r: Result<Event, Error>)
      modifies this
      ensures deposit == old(deposit) && date == old(date) && nextClassId == old(nextClassId)
      ensures var e := Entitlement(initialMintingLockupPeriod, initialMintingValueBase, registry.metaOf,
                                   date, deposit, old(deposits), origin, kol, now);
        && (e.Failure? ==> r == Failure(e.error) && deposits == old(deposits))
        && (e.Success? && !host(TransferFragments(e.value.cid, e.value.pot, e.value.who, e.value.tokens, false)) ==>
              r == Failure(Refused(TransferFragments(e.value.cid, e.value.pot, e.value.who, e.value.tokens, false))) &&
              deposits == old(deposits))
        && (e.Success? && host(TransferFragments(e.value.cid, e.value.pot, e.value.who, e.value.tokens, false)) ==>
              r == Success(Claimed(e.value.did, kol, e.value.tokens)) &&
              deposits == old(deposits) - {(kol, e.value.did)})
      ensures old(Valid()) ==> Valid()
    {
      if origin.None? {
        return Failure(BadOrigin);
      }
      var did, who := origin.value.did, origin.value.who;
      var height := now;
      if kol !in registry.metaOf {
        return Failure(NotExists);
      }
      var meta := registry.metaOf[kol];
      if meta.nft.None? {
        return Failure(NotExists);
      }
      var cid := meta.nft.value;
      if kol == did {
        if cid !in date {
          return Failure(NotExists);
        }
        var mintedAt := date[cid];
        if !LockupElapsed(height, mintedAt, initialMintingLockupPeriod) {
          return Failure(NoToken);
        }
      }
      if kol !in deposit {
        return Failure(NotExists);
      }
      var total := deposit[kol];
      if (kol, did) !in deposits {
        return Failure(NoToken);
      }
      var share := deposits[(kol, did)];
      if total == 0 {
        return Failure(NoToken);
      }
      var initial := initialMintingValueBase;

      // widening the three balances to 512 bits cannot fail (`BalanceFitsWide`)
      var tokens := Payout(initial, share, total);
      var paid := TryInto(tokens, U128_MAX);
      if paid.Failure? {
        return Failure(paid.error);
      }

      var transfer := TransferFragments(cid, meta.pot, who, paid.value, false);
      if !host(transfer) {
        return Failure(Refused(transfer));
      }
      deposits := deposits - {(kol, did)};
      r := Success(Claimed(did, kol, paid.value));
    }
  }
}
