/**
 * Vocabulary shared by the magic, nft and tag pallets: accounts, the runtime's
 * 128-bit balance type with its saturating arithmetic, block heights,
 * decentralised identifiers, and the effect of a loop of storage inserts.
 */
module Primitives {

  datatype Option<T> = None | Some(value: T)

  datatype Result<T, E> = Success(value: T) | Failure(error: E)

  /** One element of a `Vec<u8>`. */
  type Byte = x: int | 0 <= x < 256

  const U32_MAX: int := 0xffff_ffff
  const U128_MAX: int := 0xffff_ffff_ffff_ffff_ffff_ffff_ffff_ffff
  const I64_MIN: int := -0x8000_0000_0000_0000
  const I64_MAX: int := 0x7fff_ffff_ffff_ffff

  /** The runtime's balance type, an unsigned 128-bit integer. */
  type Balance = x: int | 0 <= x <= U128_MAX

  /** A signed 64-bit score. */
  type I64 = x: int | I64_MIN <= x <= I64_MAX

  /** A block number. */
  type Height = nat

  /** A decentralised identifier of the identity pallet; `0` is its `Default`. */
  type Did = nat

  const DEFAULT_DID: Did := 0

  /**
   * An account id. `Key(id)` is an account somebody holds the key of;
   * `Derived(magic, created)` is the stash the magic pallet derives for a
   * magic account and creation height. Being a constructor, this derivation
   * is injective and never yields a `Key`, which the pallet's own derivation
   * (`Magic.SubAccountAsWritten`) is not.
   */
  datatype Account = Key(id: nat) | Derived(magic: Account, created: Height)

  /** The sum of a sequence, adding its elements from the first to the last. */
  function Sum(xs: seq<int>): int
  {
    if xs == [] then 0 else Sum(xs[..|xs| - 1]) + xs[|xs| - 1]
  }

  /** `a.saturating_add(b)` on 128-bit balances. */
  function SaturatingAdd(a: Balance, b: Balance): (r: Balance)
    ensures a + b <= U128_MAX ==> r == a + b
    ensures a + b > U128_MAX ==> r == U128_MAX
    ensures a <= r && b <= r
  {
    if a + b <= U128_MAX then a + b else U128_MAX
  }

  /** `a.saturating_mul(k)` of a balance by a small constant. */
  function SaturatingMul(a: Balance, k: nat): (r: Balance)
    ensures a * k <= U128_MAX ==> r == a * k
    ensures a * k > U128_MAX ==> r == U128_MAX
  {
    if a * k <= U128_MAX then a * k else U128_MAX
  }

  /**
   * The map `m` after `insert(k, v)` for every pair of `kvs`, first to last,
   * as a genesis loop of storage inserts leaves it.
   */
  function Assign<K, V>(m: map<K, V>, kvs: seq<(K, V)>): map<K, V>
    decreases |kvs|
  {
    if kvs == [] then m
    else Assign(m, kvs[..|kvs| - 1])[kvs[|kvs| - 1].0 := kvs[|kvs| - 1].1]
  }

  /** The keys a sequence of inserts writes. */
  function InsertedKeys<K, V>(kvs: seq<(K, V)>): set<K>
  {
    set i | 0 <= i < |kvs| :: kvs[i].0
  }

  /** The keys after the inserts are the old keys and the inserted ones. */
  lemma {:induction false} AssignKeys<K, V>(m: map<K, V>, kvs: seq<(K, V)>)
    ensures Assign(m, kvs).Keys == m.Keys + InsertedKeys(kvs)
  {
    if kvs != [] {
      var n := |kvs| - 1;
      AssignKeys(m, kvs[..n]);
      assert InsertedKeys(kvs) == InsertedKeys(kvs[..n]) + {kvs[n].0} by {
        forall k | k in InsertedKeys(kvs)
          ensures k in InsertedKeys(kvs[..n]) + {kvs[n].0}
        {
          var i :| 0 <= i < |kvs| && kvs[i].0 == k;
          if i < n { assert kvs[..n][i].0 == k; }
        }
      }
    }
  }

  /** The insert at position `i` is the last one of its key. */
  predicate LastInsertOf<K(==), V>(kvs: seq<(K, V)>, i: nat)
    requires i < |kvs|
  {
    forall j | i < j < |kvs| :: kvs[j].0 != kvs[i].0
  }

  /** A key inserted at position `i` and never again holds the value inserted there. */
  lemma {:induction false} AssignLastWins<K, V>(m: map<K, V>, kvs: seq<(K, V)>, i: nat)
    requires i < |kvs|
    requires LastInsertOf(kvs, i)
    ensures kvs[i].0 in Assign(m, kvs) && Assign(m, kvs)[kvs[i].0] == kvs[i].1
  {
    var n := |kvs| - 1;
    if i < n {
      AssignLastWins(m, kvs[..n], i);
    }
  }
}
