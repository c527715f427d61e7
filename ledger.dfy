/**
 * The fungible-currency ledger the pallets call through the `Currency` trait:
 * `free_balance`, `minimum_balance`, `transfer` with a keep-alive or
 * allow-death policy, and the withdrawal behind `settle`. The rules follow the
 * balances pallet for accounts without reserves or locks: an account whose
 * free balance would fall below the existential deposit (`minimum`) is reaped
 * and its dust dropped.
 */
module Ledger {
  import opened Primitives

  /** `ExistenceRequirement`. */
  datatype Existence = KeepAlive | AllowDeath

  /** Why a ledger operation refuses, leaving every balance as it was. */
  datatype Error = InsufficientBalance | Overflow | ExistentialDeposit | KeepAlive

  /** `free_balance(a)`: an account that is not stored holds nothing. */
  function FreeOf(free: map<Account, Balance>, a: Account): Balance
  {
    if a in free then free[a] else 0
  }

  /** Sets `a`'s free balance to `v`, reaping the account when `v` is below `minimum`. */
  function Settle(free: map<Account, Balance>, minimum: Balance, a: Account, v: Balance): (r: map<Account, Balance>)
    ensures FreeOf(r, a) == if v < minimum then 0 else v
    ensures forall b | b != a :: FreeOf(r, b) == FreeOf(free, b)
  {
    if v < minimum then free - {a} else free[a := v]
  }

  /**
   * `transfer(from, to, amount, policy)`. A zero amount or a transfer to
   * oneself changes nothing. Otherwise it is refused when `from` holds less
   * than `amount`, when `to` would overflow or end below the existential
   * deposit, or, under `KeepAlive`, when `from` would end below it; under
   * `AllowDeath` such a `from` is reaped.
   */
  function Transferred(free: map<Account, Balance>, minimum: Balance, from: Account, to: Account,
                       amount: Balance, policy: Existence): (r: Result<map<Account, Balance>, Error>)
    ensures amount == 0 || from == to ==> r == Success(free)
    ensures r.Failure? <==>
      amount != 0 && from != to &&
      (FreeOf(free, from) < amount || FreeOf(free, to) + amount > U128_MAX ||
       FreeOf(free, to) + amount < minimum ||
       (policy == Existence.KeepAlive && FreeOf(free, from) - amount < minimum))
    ensures r.Success? && amount != 0 && from != to ==>
      && FreeOf(r.value, to) == FreeOf(free, to) + amount
      && FreeOf(r.value, from) == (if FreeOf(free, from) - amount < minimum then 0 else FreeOf(free, from) - amount)
    ensures r.Success? ==> forall a | a != from && a != to :: FreeOf(r.value, a) == FreeOf(free, a)
  {
    if amount == 0 || from == to then Success(free)
    else if FreeOf(free, from) < amount then Failure(InsufficientBalance)
    else if FreeOf(free, to) + amount > U128_MAX then Failure(Overflow)
    else if FreeOf(free, to) + amount < minimum then Failure(ExistentialDeposit)
    else if policy == Existence.KeepAlive && FreeOf(free, from) - amount < minimum then Failure(Error.KeepAlive)
    else
      var credited := free[to := FreeOf(free, to) + amount];
      Success(Settle(credited, minimum, from, FreeOf(free, from) - amount))
  }

  /**
   * `withdraw(who, amount, reasons, policy)`, which `settle` performs after a
   * `burn`. A zero amount changes nothing. It is refused when `who` holds
   * less than `amount`, or under `KeepAlive` when a live account would be
   * reaped by it.
   */
  function Withdrawn(free: map<Account, Balance>, minimum: Balance, who: Account, amount: Balance,
                     policy: Existence): (r: Result<map<Account, Balance>, Error>)
    ensures amount == 0 ==> r == Success(free)
    ensures r.Failure? <==>
      amount != 0 &&
      (FreeOf(free, who) < amount ||
       (policy == Existence.KeepAlive && FreeOf(free, who) - amount < minimum <= FreeOf(free, who)))
    ensures r.Success? && amount != 0 ==>
      FreeOf(r.value, who) == if FreeOf(free, who) - amount < minimum then 0 else FreeOf(free, who) - amount
    ensures r.Success? ==> forall a | a != who :: FreeOf(r.value, a) == FreeOf(free, a)
  {
    if amount == 0 then Success(free)
    else if FreeOf(free, who) < amount then Failure(InsufficientBalance)
    else if policy == Existence.KeepAlive && FreeOf(free, who) - amount < minimum <= FreeOf(free, who) then Failure(Error.KeepAlive)
    else Success(Settle(free, minimum, who, FreeOf(free, who) - amount))
  }

  /** The ledger every pallet of the runtime shares. */
  class Balances {
    /** `minimum_balance()`, the existential deposit. */
    const minimum: Balance
    var free: map<Account, Balance>

    constructor (minimum: Balance, free: map<Account, Balance>)
      ensures this.minimum == minimum && this.free == free
    {
      this.minimum := minimum;
      this.free := free;
    }

    function FreeBalance(a: Account): Balance
      reads this
    {
      FreeOf(free, a)
    }

    method Transfer(from: Account, to: Account, amount: Balance, policy: Existence) returns (r: Result<(), Error>)
      modifies this
      ensures Transferred(old(free), minimum, from, to, amount, policy).Success? ==>
        r == Success(()) && free == Transferred(old(free), minimum, from, to, amount, policy).value
      ensures Transferred(old(free), minimum, from, to, amount, policy).Failure? ==>
        r == Failure(Transferred(old(free), minimum, from, to, amount, policy).error) && free == old(free)
    {
      match Transferred(free, minimum, from, to, amount, policy)
      case Success(next) =>
        free := next;
        r := Success(());
      case Failure(e) =>
        r := Failure(e);
    }

    method Withdraw(who: Account, amount: Balance, policy: Existence) returns (r: Result<(), Error>)
      modifies this
      ensures Withdrawn(old(free), minimum, who, amount, policy).Success? ==>
        r == Success(()) && free == Withdrawn(old(free), minimum, who, amount, policy).value
      ensures Withdrawn(old(free), minimum, who, amount, policy).Failure? ==>
        r == Failure(Withdrawn(old(free), minimum, who, amount, policy).error) && free == old(free)
    {
      match Withdrawn(free, minimum, who, amount, policy)
      case Success(next) =>
        free := next;
        r := Success(());
      case Failure(e) =>
        r := Failure(e);
    }
  }
}
