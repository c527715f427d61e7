/**
 * The magic pallet: stable accounts. A magic account authorises a controller
 * account to run a stash account on its behalf. Three storage maps index a
 * stable account record: by controller (`StableAccountOf`), magic to
 * controller (`ControllerAccountOf`) and stash to controller (`Controller`);
 * `StorageVersion` records whether the stash index has been backfilled.
 */
module Magic {
  import opened Primitives
  import Ledger

  /** `types::StableAccount`. */
  datatype StableAccount = StableAccount(stash: Account, controller: Account, magic: Account, created: Height)

  /** `types::Releases`; the unmigrated `V0` is the default value. */
  datatype Releases = V0 | V1

  datatype Error =
    | BadOrigin
    | ControllerAccountUsed
    | ControllerEqualToMagic
    | InsufficientBalance
    | MagicAccountUsed
    | ObsoletedMagicAccount
    | StableAccountNotFound
    | Currency(cause: Ledger.Error)

  /** The error an inner dispatch reports; `CallFiltered` is the host's refusal of a filtered call. */
  datatype DispatchError = CallFiltered | Failed(code: nat)

  datatype DispatchResult = Ok | Err(error: DispatchError)

  /** The overarching call type: this pallet's three calls and, opaquely, any other pallet's. */
  datatype Call =
    | CreateStableAccount(magic: Account, stashed: Balance)
    | ChangeController(newController: Account)
    | Codo(call: Call)
    | Other(pallet: nat, index: nat)

  datatype Event =
    | Created(stash: Account, controller: Account)
    | Changed(stash: Account, controller: Account)
    | Codo(result: DispatchResult)

  /** A signed origin together with the call filter attached to it. */
  datatype Origin = Signed(who: Account, filter: Call -> bool)

  /** A genesis triple `(magic, stash, controller)`. */
  datatype GenesisAccount = GenesisAccount(magic: Account, stash: Account, controller: Account)

  /** The three storage maps. */
  datatype Index = Index(
    stableOf: map<Account, StableAccount>,
    controllerOf: map<Account, Account>,
    controller: map<Account, Account>)

  /** The bond is fifty times the existential deposit. */
  const DEPOSIT_MULTIPLE: nat := 50

  /** `minimum.saturating_mul(50)`. */
  function Deposit(minimum: Balance): Balance
  {
    SaturatingMul(minimum, DEPOSIT_MULTIPLE)
  }

  /**
   * The stash of a magic account created at a height, as the pallet evidently
   * intends to derive it: a distinct account for every pair, never one that
   * somebody holds the key of.
   */
  function StashOf(magic: Account, created: Height): Account
  {
    Derived(magic, created)
  }

  /** Distinct magic accounts or heights never derive the same stash. */
  lemma StashOfInjective(m1: Account, h1: Height, m2: Account, h2: Height)
    ensures StashOf(m1, h1) == StashOf(m2, h2) ==> m1 == m2 && h1 == h2
  {
  }

  // ---------------------------------------------------------------------------
  // The stash derivation as written, on 32-byte account ids
  // ---------------------------------------------------------------------------

  /** The `TypeId` of `PalletId`, `b"modl"`, which precedes its sub-accounts. */
  const MODL: seq<Byte> := [0x6d, 0x6f, 0x64, 0x6c]

  /** The SCALE encoding of a 32-bit block number, least significant byte first. */
  function EncodeU32(n: nat): (r: seq<Byte>)
    requires n <= U32_MAX
    ensures |r| == 4
  {
    [n % 0x100, n / 0x100 % 0x100, n / 0x1_0000 % 0x100, n / 0x100_0000 % 0x100]
  }

  /** The SCALE encoding of a `Vec<u8>` shorter than 64 bytes: a one-byte compact length, `len << 2`, then the bytes. */
  function EncodeShortVec(v: seq<Byte>): (r: seq<Byte>)
    requires |v| < 64
    ensures |r| == |v| + 1 && r[0] == 4 * |v| && r[1..] == v
  {
    [4 * |v|] + v
  }

  /**
   * `PalletId::into_sub_account(raw)` with `raw = encode(magic) ++
   * encode(created)`: the 32-byte account is decoded from the front of the
   * encoding of `(b"modl", pallet id, raw)`, so only the first 19 bytes of the
   * magic account reach it and the height does not.
   */
  function SubAccountAsWritten(palletId: seq<Byte>, magic: seq<Byte>, created: Height): (r: seq<Byte>)
    requires |palletId| == 8 && |magic| == 32 && created <= U32_MAX
    ensures |r| == 32
    ensures r[..12] == MODL + palletId && r[12] == 4 * 36
    ensures r[13..] == magic[..19]
  {
    var encoded := MODL + palletId + EncodeShortVec(magic + EncodeU32(created));
    assert encoded[13..32] == magic[..19];
    encoded[..32]
  }

  /**
   * As written, two magic accounts that agree on their first 19 bytes derive
   * the same stash, whatever their creation heights.
   */
  lemma SubAccountAsWrittenCollides(palletId: seq<Byte>, m1: seq<Byte>, h1: Height, m2: seq<Byte>, h2: Height)
    requires |palletId| == 8 && |m1| == 32 && |m2| == 32 && h1 <= U32_MAX && h2 <= U32_MAX
    requires m1[..19] == m2[..19]
    ensures SubAccountAsWritten(palletId, m1, h1) == SubAccountAsWritten(palletId, m2, h2)
  {
    var a, b := SubAccountAsWritten(palletId, m1, h1), SubAccountAsWritten(palletId, m2, h2);
    assert a == a[..12] + [a[12]] + a[13..];
    assert b == b[..12] + [b[12]] + b[13..];
  }

  // ---------------------------------------------------------------------------
  // Invariants of the three indices
  // ---------------------------------------------------------------------------

  /**
   * What the controller- and magic-keyed maps promise each other: a record is
   * stored under its own controller; no account is both a magic and a
   * controller key; magic -> controller is exactly the inverse of the records'
   * magic field; no two records share a stash; and a derived stash names the
   * magic account of its own record.
   */
  ghost predicate RecordsAgree(ix: Index)
  {
    && (forall c | c in ix.stableOf :: ix.stableOf[c].controller == c)
    && ix.controllerOf.Keys !! ix.stableOf.Keys
    && (forall m | m in ix.controllerOf ::
          ix.controllerOf[m] in ix.stableOf && ix.stableOf[ix.controllerOf[m]].magic == m)
    && (forall c | c in ix.stableOf ::
          ix.stableOf[c].magic in ix.controllerOf && ix.controllerOf[ix.stableOf[c].magic] == c)
    && (forall c, d | c in ix.stableOf && d in ix.stableOf && c != d ::
          ix.stableOf[c].stash != ix.stableOf[d].stash)
    && (forall c | c in ix.stableOf && ix.stableOf[c].stash.Derived? ::
          ix.stableOf[c].stash.magic == ix.stableOf[c].magic)
  }

  /** The stash index resolves every record's stash to that record's controller. */
  ghost predicate StashIndexAgrees(ix: Index)
  {
    forall c | c in ix.stableOf ::
      ix.stableOf[c].stash in ix.controller && ix.controller[ix.stableOf[c].stash] == c
  }

  /** The record invariant does not look at the stash index. */
  lemma RecordsIgnoreStashIndex(ix: Index, index: map<Account, Account>)
    requires RecordsAgree(ix)
    ensures RecordsAgree(ix.(controller := index))
  {
  }

  /** Under the invariant no record has the same account as magic and controller. */
  lemma RecordsKeepRolesApart(ix: Index, c: Account)
    requires RecordsAgree(ix)
    requires c in ix.stableOf
    ensures ix.stableOf[c].magic != ix.stableOf[c].controller
  {
  }

  // ---------------------------------------------------------------------------
  // The index updates
  // ---------------------------------------------------------------------------

  /** The three inserts that register a record. */
  function Insert(ix: Index, sa: StableAccount): Index
  {
    Index(
      ix.stableOf[sa.controller := sa],
      ix.controllerOf[sa.magic := sa.controller],
      ix.controller[sa.stash := sa.controller])
  }

  /** Moves the record of `current` to `next` and repoints its magic and stash entries. */
  function Rekey(ix: Index, current: Account, next: Account): Index
    requires current in ix.stableOf
  {
    var sa := ix.stableOf[current].(controller := next);
    Index(
      (ix.stableOf - {current})[next := sa],
      ix.controllerOf[sa.magic := next],
      ix.controller[sa.stash := next])
  }

  /**
   * Registering a record stores it under its controller and resolves its
   * magic account and stash to that controller; every other entry is kept.
   */
  lemma InsertRegisters(ix: Index, sa: StableAccount)
    ensures var r := Insert(ix, sa);
      && r.stableOf.Keys == ix.stableOf.Keys + {sa.controller} && r.stableOf[sa.controller] == sa
      && r.controllerOf.Keys == ix.controllerOf.Keys + {sa.magic} && r.controllerOf[sa.magic] == sa.controller
      && r.controller.Keys == ix.controller.Keys + {sa.stash} && r.controller[sa.stash] == sa.controller
      && (forall c | c in ix.stableOf && c != sa.controller :: r.stableOf[c] == ix.stableOf[c])
      && (forall m | m in ix.controllerOf && m != sa.magic :: r.controllerOf[m] == ix.controllerOf[m])
      && (forall t | t in ix.controller && t != sa.stash :: r.controller[t] == ix.controller[t])
  {
  }

  /**
   * Re-keying drops `current`, stores its record under `next` with `next` as
   * controller, and points the magic and stash entries at `next`; every other
   * entry is kept.
   */
  lemma RekeyMoves(ix: Index, current: Account, next: Account)
    requires current in ix.stableOf
    ensures var sa := ix.stableOf[current];
      var r := Rekey(ix, current, next);
      && r.stableOf.Keys == ix.stableOf.Keys - {current} + {next}
      && r.stableOf[next] == StableAccount(sa.stash, next, sa.magic, sa.created)
      && r.controllerOf.Keys == ix.controllerOf.Keys + {sa.magic} && r.controllerOf[sa.magic] == next
      && r.controller.Keys == ix.controller.Keys + {sa.stash} && r.controller[sa.stash] == next
      && (forall c | c in ix.stableOf && c != current && c != next :: r.stableOf[c] == ix.stableOf[c])
      && (forall m | m in ix.controllerOf && m != sa.magic :: r.controllerOf[m] == ix.controllerOf[m])
      && (forall t | t in ix.controller && t != sa.stash :: r.controller[t] == ix.controller[t])
  {
  }

  // ---------------------------------------------------------------------------
  // create_stable_account
  // ---------------------------------------------------------------------------

  /** The four existence checks of `create_stable_account`, in the order it makes them. */
  function CreateCheck(ix: Index, controller: Account, magic: Account): (e: Option<Error>)
    ensures controller == magic ==> e == Some(ControllerEqualToMagic)
    ensures controller != magic && magic in ix.controllerOf ==> e == Some(MagicAccountUsed)
    ensures controller != magic && magic !in ix.controllerOf &&
            (controller in ix.controllerOf || controller in ix.stableOf)
            ==> e == Some(ControllerAccountUsed)
    ensures controller != magic && magic !in ix.controllerOf &&
            controller !in ix.controllerOf && controller !in ix.stableOf && magic in ix.stableOf ==>
            e == Some(MagicAccountUsed)
    ensures e == None <==>
            controller != magic && magic !in ix.controllerOf && magic !in ix.stableOf &&
            controller !in ix.controllerOf && controller !in ix.stableOf
  {
    if controller == magic then Some(ControllerEqualToMagic)
    else if magic in ix.controllerOf then Some(MagicAccountUsed)
    else if controller in ix.controllerOf then Some(ControllerAccountUsed)
    else if controller in ix.stableOf then Some(ControllerAccountUsed)
    else if magic in ix.stableOf then Some(MagicAccountUsed)
    else None
  }

  /**
   * Under the invariant, the four lookups pass exactly when the two accounts
   * differ and neither is the magic or the controller of any record.
   */
  lemma CreateCheckMeansUnregistered(ix: Index, controller: Account, magic: Account)
    requires RecordsAgree(ix)
    ensures CreateCheck(ix, controller, magic) == None <==>
      controller != magic &&
      forall c | c in ix.stableOf ::
        ix.stableOf[c].controller != controller && ix.stableOf[c].magic != controller &&
        ix.stableOf[c].controller != magic && ix.stableOf[c].magic != magic
  {
    if CreateCheck(ix, controller, magic) != None && controller != magic {
      if magic in ix.controllerOf {
        var c := ix.controllerOf[magic];
        assert ix.stableOf[c].magic == magic;
      } else if controller in ix.controllerOf {
        var c := ix.controllerOf[controller];
        assert ix.stableOf[c].magic == controller;
      } else if controller in ix.stableOf {
        assert ix.stableOf[controller].controller == controller;
      } else {
        assert ix.stableOf[magic].controller == magic;
      }
    }
  }

  /**
   * The funding check: the controller's free balance, less the existential
   * deposit, covers the bond plus the stashed amount (their saturating sum).
   * The subtraction saturates, so an account holding less than the
   * existential deposit is refused.
   */
  function Funded(free: Balance, minimum: Balance, stashed: Balance): (ok: bool)
    ensures ok <==> free >= minimum + SaturatingAdd(Deposit(minimum), stashed)
  {
    free >= minimum && free - minimum >= SaturatingAdd(Deposit(minimum), stashed)
  }

  /** The funding check as written: `free - minimum` on 128-bit balances wraps around. */
  function FundedAsWritten(free: Balance, minimum: Balance, stashed: Balance): (ok: bool)
    ensures free >= minimum ==> (ok <==> free - minimum >= SaturatingAdd(Deposit(minimum), stashed))
    ensures free < minimum ==> (ok <==> U128_MAX + 1 - (minimum - free) >= SaturatingAdd(Deposit(minimum), stashed))
  {
    (free - minimum) % (U128_MAX + 1) >= SaturatingAdd(Deposit(minimum), stashed)
  }

  /** An empty controller passes the wrapping check although it cannot pay the bond. */
  lemma FundedAsWrittenAdmitsEmptyController()
    ensures FundedAsWritten(0, 1, 0) && !Funded(0, 1, 0)
  {
  }

  /** The two checks agree whenever the controller holds at least the existential deposit. */
  lemma FundedAsWrittenAgreesAboveMinimum(free: Balance, minimum: Balance, stashed: Balance)
    requires free >= minimum
    ensures FundedAsWritten(free, minimum, stashed) == Funded(free, minimum, stashed)
  {
  }

  /**
   * A controller the wrapping check lets through although it is below the
   * existential deposit is still stopped by the bond transfer, so as written
   * the create fails with the ledger's `InsufficientBalance` rather than the
   * pallet's.
   */
  lemma FundedAsWrittenFailsInLedger(free: map<Account, Balance>, minimum: Balance, controller: Account,
                                     magic: Account, stash: Account, stashed: Balance)
    requires controller != magic
    requires FundedAsWritten(Ledger.FreeOf(free, controller), minimum, stashed)
    requires !Funded(Ledger.FreeOf(free, controller), minimum, stashed)
    ensures Funding(free, minimum, controller, magic, stash, stashed) == Failure(Ledger.InsufficientBalance)
  {
  }

  /** The two keep-alive transfers of a create, deposit to magic then stash to the stash. */
  function Funding(free: map<Account, Balance>, minimum: Balance, controller: Account, magic: Account,
                   stash: Account, stashed: Balance): (r: Result<map<Account, Balance>, Ledger.Error>)
    ensures var first := Ledger.Transferred(free, minimum, controller, magic, Deposit(minimum), Ledger.Existence.KeepAlive);
      && (first.Failure? ==> r == Failure(first.error))
      && (first.Success? ==>
            r == Ledger.Transferred(first.value, minimum, controller, stash, stashed, Ledger.Existence.KeepAlive))
  {
    match Ledger.Transferred(free, minimum, controller, magic, Deposit(minimum), Ledger.Existence.KeepAlive)
    case Failure(e) => Failure(e)
    case Success(afterDeposit) =>
      Ledger.Transferred(afterDeposit, minimum, controller, stash, stashed, Ledger.Existence.KeepAlive)
  }

  /**
   * A funded controller can always pay both transfers without its own account
   * dying: when the receiving accounts can take the amounts, the bond moves to
   * the magic account, the stashed amount to the stash, and nothing else changes.
   */
  lemma FundedCreateMovesFunds(free: map<Account, Balance>, minimum: Balance, controller: Account,
                               magic: Account, stash: Account, stashed: Balance)
    requires controller != magic && controller != stash && magic != stash
    requires Funded(Ledger.FreeOf(free, controller), minimum, stashed)
    requires minimum * DEPOSIT_MULTIPLE + stashed <= U128_MAX
    requires Ledger.FreeOf(free, magic) + Deposit(minimum) <= U128_MAX
    requires Ledger.FreeOf(free, stash) + stashed <= U128_MAX
    requires stashed == 0 || Ledger.FreeOf(free, stash) + stashed >= minimum
    ensures Funding(free, minimum, controller, magic, stash, stashed).Success?
    ensures var after := Funding(free, minimum, controller, magic, stash, stashed).value;
      && Ledger.FreeOf(after, controller) == Ledger.FreeOf(free, controller) - Deposit(minimum) - stashed
      && Ledger.FreeOf(after, magic) == Ledger.FreeOf(free, magic) + Deposit(minimum)
      && Ledger.FreeOf(after, stash) == Ledger.FreeOf(free, stash) + stashed
      && forall a | a != controller && a != magic && a != stash ::
           Ledger.FreeOf(after, a) == Ledger.FreeOf(free, a)
  {
    var deposit := Deposit(minimum);
    assert deposit == minimum * DEPOSIT_MULTIPLE;
    var first := Ledger.Transferred(free, minimum, controller, magic, deposit, Ledger.Existence.KeepAlive);
    assert first.Success?;
    var second := Ledger.Transferred(first.value, minimum, controller, stash, stashed, Ledger.Existence.KeepAlive);
    assert second.Success?;
  }

  /** Under the invariant a freshly derived stash is nobody's stash yet. */
  lemma DerivedStashIsFresh(ix: Index, magic: Account, created: Height)
    requires RecordsAgree(ix)
    requires magic !in ix.controllerOf
    ensures forall c | c in ix.stableOf :: ix.stableOf[c].stash != StashOf(magic, created)
  {
    forall c | c in ix.stableOf
      ensures ix.stableOf[c].stash != StashOf(magic, created)
    {
      if ix.stableOf[c].stash.Derived? {
        assert ix.stableOf[c].stash.magic in ix.controllerOf;
      }
    }
  }

  /** Registering a record that passes the checks, with a fresh stash, keeps both invariants. */
  lemma InsertKeepsAgreement(ix: Index, sa: StableAccount)
    requires RecordsAgree(ix)
    requires CreateCheck(ix, sa.controller, sa.magic) == None
    requires forall c | c in ix.stableOf :: ix.stableOf[c].stash != sa.stash
    requires sa.stash.Derived? ==> sa.stash.magic == sa.magic
    ensures RecordsAgree(Insert(ix, sa))
    ensures StashIndexAgrees(ix) ==> StashIndexAgrees(Insert(ix, sa))
  {
  }

  /**
   * With a derivation `derive` that is not injective, a fresh magic account
   * whose stash is already the stash of `victim`'s record passes every check,
   * and the insert hands that stash to the new controller: its own record
   * names the victim's stash, the stash index no longer resolves it to the
   * victim, and neither invariant survives.
   */
  lemma CollidingStashBreaksStashIndex(ix: Index, derive: (Account, Height) -> Account, victim: Account,
                                       controller: Account, magic: Account, now: Height)
    requires RecordsAgree(ix)
    requires victim in ix.stableOf && derive(magic, now) == ix.stableOf[victim].stash
    requires CreateCheck(ix, controller, magic) == None
    ensures var stash := ix.stableOf[victim].stash;
      var after := Insert(ix, StableAccount(derive(magic, now), controller, magic, now));
      && victim != controller && victim in after.stableOf
      && after.stableOf[controller].stash == stash
      && after.controller[stash] == controller
      && !StashIndexAgrees(after) && !RecordsAgree(after)
  {
    var after := Insert(ix, StableAccount(derive(magic, now), controller, magic, now));
    assert after.stableOf[victim].stash == after.stableOf[controller].stash;
  }

  // ---------------------------------------------------------------------------
  // change_controller
  // ---------------------------------------------------------------------------

  /** The checks of `change_controller`, in order; on success, the current controller. */
  function ChangeCheck(ix: Index, magic: Account, next: Account): (r: Result<Account, Error>)
    ensures next == magic ==> r == Failure(ControllerEqualToMagic)
    ensures next != magic && (next in ix.controllerOf || next in ix.stableOf) ==>
            r == Failure(ControllerAccountUsed)
    ensures next != magic && next !in ix.controllerOf && next !in ix.stableOf && magic !in ix.controllerOf ==>
            r == Failure(ObsoletedMagicAccount)
    ensures next != magic && next !in ix.controllerOf && next !in ix.stableOf && magic in ix.controllerOf &&
            ix.controllerOf[magic] !in ix.stableOf
            ==> r == Failure(StableAccountNotFound)
    ensures r.Success? <==>
            next != magic && next !in ix.controllerOf && next !in ix.stableOf &&
            magic in ix.controllerOf && ix.controllerOf[magic] in ix.stableOf
    ensures r.Success? ==> r.value == ix.controllerOf[magic]
  {
    if next == magic then Failure(ControllerEqualToMagic)
    else if next in ix.controllerOf then Failure(ControllerAccountUsed)
    else if next in ix.stableOf then Failure(ControllerAccountUsed)
    else if magic !in ix.controllerOf then Failure(ObsoletedMagicAccount)
    else if ix.controllerOf[magic] !in ix.stableOf then Failure(StableAccountNotFound)
    else Success(ix.controllerOf[magic])
  }

  /** Under the invariant a registered magic account always finds its record. */
  lemma ChangeNeverMissesRecord(ix: Index, magic: Account, next: Account)
    requires RecordsAgree(ix)
    ensures ChangeCheck(ix, magic, next) != Failure(StableAccountNotFound)
  {
  }

  /**
   * Re-keying keeps both invariants; the old controller no longer resolves,
   * the new one holds the record with stash, magic and created unchanged, and
   * the magic and stash entries point at it.
   */
  lemma RekeyKeepsAgreement(ix: Index, magic: Account, next: Account)
    requires RecordsAgree(ix)
    requires ChangeCheck(ix, magic, next).Success?
    ensures var current := ChangeCheck(ix, magic, next).value;
      var r := Rekey(ix, current, next);
      && RecordsAgree(r)
      && (StashIndexAgrees(ix) ==> StashIndexAgrees(r))
      && current !in r.stableOf && current != next
      && next in r.stableOf
      && r.stableOf[next].stash == ix.stableOf[current].stash
      && r.stableOf[next].magic == ix.stableOf[current].magic == magic
      && r.stableOf[next].created == ix.stableOf[current].created
      && r.controllerOf[magic] == next
      && r.controller[r.stableOf[next].stash] == next
  {
    var current := ChangeCheck(ix, magic, next).value;
    var sa := ix.stableOf[current];
    var r := Rekey(ix, current, next);
    assert sa.magic == magic;
    forall c | c in r.stableOf
      ensures r.stableOf[c].magic in r.controllerOf && r.controllerOf[r.stableOf[c].magic] == c
    {
      if c != next {
        assert r.stableOf[c] == ix.stableOf[c];
        assert ix.stableOf[c].magic != magic;
      }
    }
    forall m | m in r.controllerOf
      ensures r.controllerOf[m] in r.stableOf && r.stableOf[r.controllerOf[m]].magic == m
    {
      if m != magic {
        var c := ix.controllerOf[m];
        assert c != current;
      }
    }
    if StashIndexAgrees(ix) {
      forall c | c in r.stableOf
        ensures r.stableOf[c].stash in r.controller && r.controller[r.stableOf[c].stash] == c
      {
        if c != next {
          assert ix.stableOf[c].stash != sa.stash;
        }
      }
    }
  }

  /** The best-effort refund of the bond from the stash to the magic account: a refusal changes nothing. */
  function Refunded(free: map<Account, Balance>, minimum: Balance, stash: Account, magic: Account): (r: map<Account, Balance>)
    ensures var t := Ledger.Transferred(free, minimum, stash, magic, Deposit(minimum), Ledger.Existence.KeepAlive);
      r == if t.Success? then t.value else free
    ensures forall a | a != stash && a != magic :: Ledger.FreeOf(r, a) == Ledger.FreeOf(free, a)
  {
    match Ledger.Transferred(free, minimum, stash, magic, Deposit(minimum), Ledger.Existence.KeepAlive)
    case Success(next) => next
    case Failure(_) => free
  }

  // ---------------------------------------------------------------------------
  // codo
  // ---------------------------------------------------------------------------

  /** The filter `codo` attaches to the stash origin: it refuses this pallet's own three calls. */
  predicate CodoFilter(call: Call): (ok: bool)
    ensures ok <==> !(call.CreateStableAccount? || call.ChangeController? || call.Codo?)
  {
    match call
    case CreateStableAccount(_, _) => false
    case ChangeController(_) => false
    case Codo(_) => false
    case Other(_, _) => true
  }

  /**
   * `call.dispatch(origin)`: the host refuses a call the origin's filter
   * rejects before running it; an accepted call runs with the whole origin,
   * filter included, so whatever it dispatches in turn is filtered too.
   */
  function Dispatch(origin: Origin, call: Call, execute: (Origin, Call) -> DispatchResult): (r: DispatchResult)
    ensures !origin.filter(call) ==> r == Err(CallFiltered)
    ensures origin.filter(call) ==> r == execute(origin, call)
  {
    if origin.filter(call) then execute(origin, call) else Err(CallFiltered)
  }

  /**
   * Through the stash origin, exactly this pallet's three calls are filtered
   * and never reach `execute`; every other call is run as the stash, still
   * under the filter.
   */
  lemma CodoDispatchFiltersOwnCalls(stash: Account, call: Call, execute: (Origin, Call) -> DispatchResult)
    ensures var e := Dispatch(Signed(stash, CodoFilter), call, execute);
      && (call.CreateStableAccount? || call.ChangeController? || call.Codo? ==> e == Err(CallFiltered))
      && (call.Other? ==> e == execute(Signed(stash, CodoFilter), call))
  {
  }

  // ---------------------------------------------------------------------------
  // on_runtime_upgrade
  // ---------------------------------------------------------------------------

  /** The stashes of the records stored under the controllers in `done`. */
  function Stashes(stableOf: map<Account, StableAccount>, done: set<Account>): set<Account>
  {
    set c | c in done && c in stableOf :: stableOf[c].stash
  }

  /**
   * `writer` names, for every stash of a record under `done`, the visited
   * record whose controller the stash index now holds for it.
   */
  ghost predicate WrittenBy(after: map<Account, Account>, stableOf: map<Account, StableAccount>,
                            done: set<Account>, writer: map<Account, Account>)
  {
    && writer.Keys == Stashes(stableOf, done)
    && forall s | s in writer ::
         && writer[s] in done && writer[s] in stableOf && stableOf[writer[s]].stash == s
         && s in after && after[s] == stableOf[writer[s]].controller
  }

  /**
   * The stash index `after` is `before` with the records under `done`
   * visited: exactly their stashes were written, each to the controller of a
   * visited record with that stash, and every other entry was kept.
   */
  ghost predicate Backfilled(before: map<Account, Account>, after: map<Account, Account>,
                             stableOf: map<Account, StableAccount>, done: set<Account>)
  {
    && after.Keys == before.Keys + Stashes(stableOf, done)
    && (forall s | s in before && s !in Stashes(stableOf, done) :: after[s] == before[s])
    && exists writer :: WrittenBy(after, stableOf, done, writer)
  }

  lemma StashesGrow(stableOf: map<Account, StableAccount>, done: set<Account>, c: Account)
    requires c in stableOf
    ensures Stashes(stableOf, done + {c}) == Stashes(stableOf, done) + {stableOf[c].stash}
  {
  }

  /** Visiting one more record extends the backfill by that record. */
  lemma BackfillStep(before: map<Account, Account>, after: map<Account, Account>,
                     stableOf: map<Account, StableAccount>, done: set<Account>, c: Account)
    requires Backfilled(before, after, stableOf, done)
    requires c in stableOf
    ensures Backfilled(before, after[stableOf[c].stash := stableOf[c].controller], stableOf, done + {c})
  {
    StashesGrow(stableOf, done, c);
    var writer :| WrittenBy(after, stableOf, done, writer);
    var stash := stableOf[c].stash;
    assert WrittenBy(after[stash := stableOf[c].controller], stableOf, done + {c}, writer[stash := c]);
  }

  /** Once every record is visited, records with distinct stashes make the stash index agree. */
  lemma BackfillAgrees(ix: Index, before: map<Account, Account>)
    requires RecordsAgree(ix)
    requires Backfilled(before, ix.controller, ix.stableOf, ix.stableOf.Keys)
    ensures StashIndexAgrees(ix)
  {
    forall c | c in ix.stableOf
      ensures ix.stableOf[c].stash in ix.controller && ix.controller[ix.stableOf[c].stash] == c
    {
      var writer :| WrittenBy(ix.controller, ix.stableOf, ix.stableOf.Keys, writer);
      var s := ix.stableOf[c].stash;
      assert s in Stashes(ix.stableOf, ix.stableOf.Keys);
      assert writer[s] == c;
    }
  }

  /** The migration loop: writes every record's stash to its controller, in an unspecified order. */
  method Backfill(stableOf: map<Account, StableAccount>, before: map<Account, Account>)
    returns (index: map<Account, Account>)
    ensures Backfilled(before, index, stableOf, stableOf.Keys)
  {
    index := before;
    var pending := stableOf.Keys;
    ghost var done: set<Account> := {};
    assert WrittenBy(index, stableOf, done, map[]);
    while pending != {}
      invariant done + pending == stableOf.Keys && done !! pending
      invariant Backfilled(before, index, stableOf, done)
      decreases pending
    {
      var c :| c in pending;
      BackfillStep(before, index, stableOf, done, c);
      var sa := stableOf[c];
      index := index[sa.stash := sa.controller];
      pending := pending - {c};
      done := done + {c};
    }
    assert done == stableOf.Keys;
  }

  // ---------------------------------------------------------------------------
  // genesis
  // ---------------------------------------------------------------------------

  function GenesisRecord(g: GenesisAccount): StableAccount
  {
    StableAccount(g.stash, g.controller, g.magic, 0)
  }

  /** The indices after the genesis loop has inserted the first `|accounts|` triples. */
  function Built(accounts: seq<GenesisAccount>): Index
    decreases |accounts|
  {
    if accounts == [] then Index(map[], map[], map[])
    else Insert(Built(accounts[..|accounts| - 1]), GenesisRecord(accounts[|accounts| - 1]))
  }

  function Magics(accounts: seq<GenesisAccount>): set<Account>
  {
    set i | 0 <= i < |accounts| :: accounts[i].magic
  }

  function Controllers(accounts: seq<GenesisAccount>): set<Account>
  {
    set i | 0 <= i < |accounts| :: accounts[i].controller
  }

  /**
   * Genesis triples that can form consistent indices: magic accounts,
   * controllers and stashes each distinct, no magic account also a
   * controller, and a derived stash naming its own magic account.
   */
  ghost predicate DistinctRoles(accounts: seq<GenesisAccount>)
  {
    && (forall i, j | 0 <= i < j < |accounts| ::
          && accounts[i].magic != accounts[j].magic
          && accounts[i].controller != accounts[j].controller
          && accounts[i].stash != accounts[j].stash)
    && (forall i, j | 0 <= i < |accounts| && 0 <= j < |accounts| :: accounts[i].magic != accounts[j].controller)
    && (forall i | 0 <= i < |accounts| && accounts[i].stash.Derived? :: accounts[i].stash.magic == accounts[i].magic)
  }

  /** The genesis indices hold genesis records under the triples' controllers and magic accounts. */
  lemma {:induction false} BuiltShape(accounts: seq<GenesisAccount>)
    ensures Built(accounts).stableOf.Keys == Controllers(accounts)
    ensures Built(accounts).controllerOf.Keys == Magics(accounts)
    ensures forall c | c in Built(accounts).stableOf ::
      exists i | 0 <= i < |accounts| :: Built(accounts).stableOf[c] == GenesisRecord(accounts[i])
  {
    if accounts != [] {
      var n := |accounts| - 1;
      var prefix := accounts[..n];
      BuiltShape(prefix);
      assert Controllers(accounts) == Controllers(prefix) + {accounts[n].controller} by {
        forall k | k in Controllers(accounts) ensures k in Controllers(prefix) + {accounts[n].controller} {
          var i :| 0 <= i < |accounts| && accounts[i].controller == k;
          if i < n { assert prefix[i].controller == k; }
        }
      }
      assert Magics(accounts) == Magics(prefix) + {accounts[n].magic} by {
        forall k | k in Magics(accounts) ensures k in Magics(prefix) + {accounts[n].magic} {
          var i :| 0 <= i < |accounts| && accounts[i].magic == k;
          if i < n { assert prefix[i].magic == k; }
        }
      }
      forall c | c in Built(accounts).stableOf
        ensures exists i | 0 <= i < |accounts| :: Built(accounts).stableOf[c] == GenesisRecord(accounts[i])
      {
        if c != accounts[n].controller {
          var i :| 0 <= i < n && Built(prefix).stableOf[c] == GenesisRecord(prefix[i]);
          assert Built(accounts).stableOf[c] == GenesisRecord(accounts[i]);
        } else {
          assert Built(accounts).stableOf[c] == GenesisRecord(accounts[n]);
        }
      }
    }
  }

  /** Genesis triples with distinct roles build indices that satisfy both invariants. */
  lemma {:induction false} GenesisAgrees(accounts: seq<GenesisAccount>)
    requires DistinctRoles(accounts)
    ensures RecordsAgree(Built(accounts)) && StashIndexAgrees(Built(accounts))
  {
    if accounts != [] {
      var n := |accounts| - 1;
      var prefix := accounts[..n];
      var g := accounts[n];
      assert DistinctRoles(prefix) by {
        forall i, j | 0 <= i < |prefix| && 0 <= j < |prefix|
          ensures prefix[i].magic != prefix[j].controller
        {
          assert prefix[i] == accounts[i] && prefix[j] == accounts[j];
        }
      }
      GenesisAgrees(prefix);
      BuiltShape(prefix);
      var ix := Built(prefix);
      assert g.magic !in Magics(prefix) && g.controller !in Magics(prefix);
      assert g.magic !in Controllers(prefix) && g.controller !in Controllers(prefix);
      forall c | c in ix.stableOf
        ensures ix.stableOf[c].stash != g.stash
      {
        var i :| 0 <= i < n && ix.stableOf[c] == GenesisRecord(prefix[i]);
        assert prefix[i] == accounts[i];
      }
      InsertKeepsAgreement(ix, GenesisRecord(g));
    }
  }

  // ---------------------------------------------------------------------------
  // The pallet's storage and calls
  // ---------------------------------------------------------------------------

  class Pallet {
    var stableAccountOf: map<Account, StableAccount>
    var controllerAccountOf: map<Account, Account>
    var controller: map<Account, Account>
    var storageVersion: Releases

    function Snapshot(): Index
      reads this
    {
      Index(stableAccountOf, controllerAccountOf, controller)
    }

    /** The records agree, and once migrated the stash index agrees with them too. */
    ghost predicate Valid()
      reads this
    {
      RecordsAgree(Snapshot()) && (storageVersion == V1 ==> StashIndexAgrees(Snapshot()))
    }

    /** Neither the indices nor the ledger's balances differ from the call's start. */
    twostate predicate Unchanged(ledger: Ledger.Balances)
      reads this, ledger
    {
      Snapshot() == old(Snapshot()) && storageVersion == old(storageVersion) && ledger.free == old(ledger.free)
    }

    /** `GenesisBuild::build`: inserts every triple into the three maps, with no checks. */
    constructor Genesis(accounts: seq<GenesisAccount>)
      ensures Snapshot() == Built(accounts) && storageVersion == V0
      ensures DistinctRoles(accounts) ==> Valid() && StashIndexAgrees(Snapshot())
    {
      stableAccountOf, controllerAccountOf, controller := map[], map[], map[];
      storageVersion := V0;
      new;
      for i := 0 to |accounts|
        invariant storageVersion == V0
        invariant Snapshot() == Built(accounts[..i])
      {
        var sa := GenesisRecord(accounts[i]);
        stableAccountOf := stableAccountOf[sa.controller := sa];
        controllerAccountOf := controllerAccountOf[sa.magic := sa.controller];
        controller := controller[sa.stash := sa.controller];
        assert accounts[..i + 1][..i] == accounts[..i];
      }
      assert accounts[..|accounts|] == accounts;
      if DistinctRoles(accounts) {
        GenesisAgrees(accounts);
      }
    }

    /**
     * `create_stable_account(magic, stashed)` at height `now`, whose signer
     * `origin` (none when `ensure_signed` refuses) becomes the controller. A
     * refusal leaves the indices and the ledger as they were; the host rolls
     * back the bond transfer if the stash transfer fails.
     */
    method CreateStableAccount(ledger: Ledger.Balances, now: Height, origin: Option<Account>, magic: Account,
                               stashed: Balance)
      returns (r: Result<Event, Error>)
      modifies this, ledger
      ensures storageVersion == old(storageVersion)
      ensures origin.None? ==> r == Failure(BadOrigin) && Unchanged(ledger)
      ensures origin.Some? && CreateCheck(old(Snapshot()), origin.value, magic).Some? ==>
        r == Failure(CreateCheck(old(Snapshot()), origin.value, magic).value) && Unchanged(ledger)
      ensures origin.Some? && CreateCheck(old(Snapshot()), origin.value, magic).None? &&
              !Funded(Ledger.FreeOf(old(ledger.free), origin.value), ledger.minimum, stashed) ==>
        r == Failure(InsufficientBalance) && Unchanged(ledger)
      ensures origin.Some? && CreateCheck(old(Snapshot()), origin.value, magic).None? &&
              Funded(Ledger.FreeOf(old(ledger.free), origin.value), ledger.minimum, stashed) ==>
        var who := origin.value;
        var stash := StashOf(magic, now);
        var funding := Funding(old(ledger.free), ledger.minimum, who, magic, stash, stashed);
        && (funding.Failure? ==> r == Failure(Currency(funding.error)) && Unchanged(ledger))
        && (funding.Success? ==>
              && r == Success(Created(stash, who))
              && ledger.free == funding.value
              && Snapshot() == Insert(old(Snapshot()), StableAccount(stash, who, magic, now)))
      ensures old(RecordsAgree(Snapshot())) ==> RecordsAgree(Snapshot())
      ensures old(Valid()) ==> Valid()
    {
      if origin.None? {
        return Failure(BadOrigin);
      }
      var who := origin.value;
      if who == magic {
        return Failure(ControllerEqualToMagic);
      }
      if magic in controllerAccountOf {
        return Failure(MagicAccountUsed);
      }
      if who in controllerAccountOf {
        return Failure(ControllerAccountUsed);
      }
      if who in stableAccountOf {
        return Failure(ControllerAccountUsed);
      }
      if magic in stableAccountOf {
        return Failure(MagicAccountUsed);
      }

      var minimum := ledger.minimum;
      var deposit := Deposit(minimum);
      if !Funded(ledger.FreeBalance(who), minimum, stashed) {
        return Failure(InsufficientBalance);
      }

      var created := now;
      var sa := StableAccount(StashOf(magic, created), who, magic, created);

      var before := ledger.free;
      var paid := ledger.Transfer(sa.controller, sa.magic, deposit, Ledger.Existence.KeepAlive);
      if paid.Failure? {
        return Failure(Currency(paid.error));
      }
      var stashedPaid := ledger.Transfer(sa.controller, sa.stash, stashed, Ledger.Existence.KeepAlive);
      if stashedPaid.Failure? {
        // the host's transaction undoes the bond transfer
        ledger.free := before;
        return Failure(Currency(stashedPaid.error));
      }

      ghost var ix := Snapshot();
      stableAccountOf := stableAccountOf[sa.controller := sa];
      controllerAccountOf := controllerAccountOf[sa.magic := sa.controller];
      controller := controller[sa.stash := sa.controller];

      if RecordsAgree(ix) {
        DerivedStashIsFresh(ix, magic, created);
        InsertKeepsAgreement(ix, sa);
      }
      r := Success(Created(sa.stash, sa.controller));
    }

    /**
     * `change_controller(next)`, whose signer `origin` (none when
     * `ensure_signed` refuses) is the magic account. The old controller's
     * whole free balance moves to `next` (its account may die); the bond's
     * refund from stash to magic is attempted and its failure ignored.
     */
    method ChangeController(ledger: Ledger.Balances, origin: Option<Account>, next: Account)
      returns (r: Result<Event, Error>)
      modifies this, ledger
      ensures storageVersion == old(storageVersion)
      ensures origin.None? ==> r == Failure(BadOrigin) && Unchanged(ledger)
      ensures origin.Some? && ChangeCheck(old(Snapshot()), origin.value, next).Failure? ==>
        r == Failure(ChangeCheck(old(Snapshot()), origin.value, next).error) && Unchanged(ledger)
      ensures origin.Some? && ChangeCheck(old(Snapshot()), origin.value, next).Success? ==>
        var current := ChangeCheck(old(Snapshot()), origin.value, next).value;
        var sa := old(stableAccountOf)[current];
        var handover := Ledger.Transferred(old(ledger.free), ledger.minimum, current, next,
                                           Ledger.FreeOf(old(ledger.free), current), Ledger.Existence.AllowDeath);
        && (handover.Failure? ==> r == Failure(Currency(handover.error)) && Unchanged(ledger))
        && (handover.Success? ==>
              && r == Success(Changed(sa.stash, next))
              && ledger.free == Refunded(handover.value, ledger.minimum, sa.stash, sa.magic)
              && Snapshot() == Rekey(old(Snapshot()), current, next))
      ensures old(RecordsAgree(Snapshot())) ==> RecordsAgree(Snapshot())
      ensures old(Valid()) ==> Valid()
    {
      if origin.None? {
        return Failure(BadOrigin);
      }
      var who := origin.value;
      if next == who {
        return Failure(ControllerEqualToMagic);
      }
      if next in controllerAccountOf {
        return Failure(ControllerAccountUsed);
      }
      if next in stableAccountOf {
        return Failure(ControllerAccountUsed);
      }
      if who !in controllerAccountOf {
        return Failure(ObsoletedMagicAccount);
      }
      var current := controllerAccountOf[who];
      if current !in stableAccountOf {
        return Failure(StableAccountNotFound);
      }
      var sa := stableAccountOf[current];

      var free := ledger.FreeBalance(current);
      var handedOver := ledger.Transfer(current, next, free, Ledger.Existence.AllowDeath);
      if handedOver.Failure? {
        return Failure(Currency(handedOver.error));
      }

      var deposit := Deposit(ledger.minimum);
      // the refund is best effort: its result is deliberately ignored
      var _ := ledger.Transfer(sa.stash, sa.magic, deposit, Ledger.Existence.KeepAlive);

      ghost var ix := Snapshot();
      sa := sa.(controller := next);
      stableAccountOf := stableAccountOf - {current};
      stableAccountOf := stableAccountOf[sa.controller := sa];
      controllerAccountOf := controllerAccountOf[sa.magic := next];
      controller := controller[sa.stash := sa.controller];

      if RecordsAgree(ix) {
        RekeyKeepsAgreement(ix, who, next);
      }
      r := Success(Changed(sa.stash, sa.controller));
    }

    /**
     * `codo(call)`, whose signer `origin` (none when `ensure_signed` refuses)
     * is a controller: dispatches `call` as the stash under `CodoFilter`, and
     * succeeds whatever the inner outcome, which it reports in the event. The
     * inner call's effects belong to `execute`; this pallet's storage is not written.
     */
    method Codo(origin: Option<Account>, call: Call, execute: (Origin, Call) -> DispatchResult)
      returns (r: Result<Event, Error>)
      ensures origin.None? ==> r == Failure(BadOrigin)
      ensures origin.Some? && origin.value !in stableAccountOf ==> r == Failure(StableAccountNotFound)
      ensures origin.Some? && origin.value in stableAccountOf ==> r.Success? && r.value.Codo?
      ensures origin.Some? && origin.value in stableAccountOf && !CodoFilter(call) ==>
        r == Success(Event.Codo(Err(CallFiltered)))
      ensures origin.Some? && origin.value in stableAccountOf && CodoFilter(call) ==>
        r == Success(Event.Codo(execute(Signed(stableAccountOf[origin.value].stash, CodoFilter), call)))
    {
      if origin.None? {
        return Failure(BadOrigin);
      }
      var who := origin.value;
      if who !in stableAccountOf {
        return Failure(StableAccountNotFound);
      }
      var sa := stableAccountOf[who];
      var origin := Signed(sa.stash, CodoFilter);
      var e := Dispatch(origin, call, execute);
      r := Success(Event.Codo(e));
    }

    /**
     * `on_runtime_upgrade`: when not yet at `V1`, points every record's stash
     * at its controller, visiting the records in an unspecified order, then
     * sets `V1`. At `V1` it reads and writes nothing.
     */
    method OnRuntimeUpgrade()
      modifies this
      ensures storageVersion == V1
      ensures stableAccountOf == old(stableAccountOf) && controllerAccountOf == old(controllerAccountOf)
      ensures old(storageVersion) == V1 ==> controller == old(controller)
      ensures old(storageVersion) != V1 ==> Backfilled(old(controller), controller, stableAccountOf, stableAccountOf.Keys)
      ensures old(Valid()) ==> Valid() && StashIndexAgrees(Snapshot())
    {
      if storageVersion == V1 {
        return;
      }
      var index := Backfill(stableAccountOf, controller);
      ghost var ix := Snapshot();
      if RecordsAgree(ix) {
        RecordsIgnoreStashIndex(ix, index);
        BackfillAgrees(ix.(controller := index), controller);
      }
      controller := index;
      assert Snapshot() == ix.(controller := index);
      storageVersion := V1;
    }
  }
}
