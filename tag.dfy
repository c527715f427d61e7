/**
 * The tag pallet: a registry of tags, each created once with its creator
 * and height, and two per-DID score tables keyed by a tag's storage key:
 * `PersonasOf` for the tags a user is interested in and `InfluencesOf` for
 * those a KOL is known for. Other pallets read it through two `StoredMap`
 * views, one over tags and one over the tag lists of advertisements.
 */
module Tag {
  import opened Primitives
  import Ledger
  import Identity

  /** `types::Metadata`. */
  datatype Meta = Meta(creator: Did, created: Height)

  datatype Error = Exists | InsufficientBalance | NotExists | BadOrigin

  datatype Event = Created(hash: seq<Byte>, creator: Did)

  /** The hash that names an advertisement. */
  type Hash = nat

  /** The storage prefix of `Metadata`: the hashed pallet and item names, 32 bytes. */
  type Prefix = s: seq<Byte> | |s| == 32 witness seq(32, i => 0)

  /** The metadata every genesis tag is created with. */
  const GENESIS_META: Meta := Meta(DEFAULT_DID, 0)

  /** The score of a DID for a tag key: a missing entry counts as zero. */
  function ScoreOf(scores: map<(Did, seq<Byte>), I64>, k: (Did, seq<Byte>)): int
  {
    if k in scores then scores[k] else 0
  }

  /**
   * `mutate` adding `delta` to the score, or inserting `delta` when there is
   * none. The sum must stay within `i64`, where `+=` would overflow.
   */
  function Accumulate(scores: map<(Did, seq<Byte>), I64>, k: (Did, seq<Byte>), delta: I64): (r: map<(Did, seq<Byte>), I64>)
    requires I64_MIN <= ScoreOf(scores, k) + delta <= I64_MAX
    ensures r.Keys == scores.Keys + {k}
    ensures ScoreOf(r, k) == ScoreOf(scores, k) + delta
    ensures forall j | j != k :: ScoreOf(r, j) == ScoreOf(scores, j)
  {
    scores[k := if k in scores then scores[k] + delta else delta]
  }

  /** Every running total of the deltas, from the starting score on, fits in `i64`. */
  ghost predicate RunningTotalsFit(start: int, deltas: seq<I64>)
  {
    forall i | 0 <= i <= |deltas| :: I64_MIN <= start + Sum(deltas[..i]) <= I64_MAX
  }

  /**
   * The scores after `influence` (or `impact`) with each delta in turn, for
   * one DID and tag. The counters accumulate: the score ends as the starting
   * score (zero when absent) plus the deltas' sum, and every other entry is
   * as it was.
   */
  function AccumulateAll(scores: map<(Did, seq<Byte>), I64>, k: (Did, seq<Byte>), deltas: seq<I64>): (r: map<(Did, seq<Byte>), I64>)
    requires RunningTotalsFit(ScoreOf(scores, k), deltas)
    ensures ScoreOf(r, k) == ScoreOf(scores, k) + Sum(deltas)
    ensures forall j | j != k :: ScoreOf(r, j) == ScoreOf(scores, j)
    decreases |deltas|
  {
    if deltas == [] then scores
    else
      var n := |deltas| - 1;
      assert RunningTotalsFit(ScoreOf(scores, k), deltas[..n]) by {
        forall i | 0 <= i <= n
          ensures I64_MIN <= ScoreOf(scores, k) + Sum(deltas[..n][..i]) <= I64_MAX
        {
          assert deltas[..n][..i] == deltas[..i];
        }
      }
      var before := AccumulateAll(scores, k, deltas[..n]);
      assert deltas[..|deltas|] == deltas;
      Accumulate(before, k, deltas[n])
  }

  /** The tag list of an advertisement, after a `mutate` that left `v` in the entry. */
  function Written(tagsOf: map<Hash, seq<seq<Byte>>>, k: Hash, v: Option<seq<seq<Byte>>>): (r: map<Hash, seq<seq<Byte>>>)
    ensures v.Some? ==> k in r && r[k] == v.value
    ensures v.None? ==> k !in r
    ensures forall j | j != k :: (j in r <==> j in tagsOf) && (j in r ==> r[j] == tagsOf[j])
  {
    if v.Some? then tagsOf[k := v.value] else tagsOf - {k}
  }

  class Pallet {
    const metadataPrefix: Prefix
    /** `SubmissionFee`. */
    const submissionFee: Balance

    var metadata: map<seq<Byte>, Meta>
    var tagsOf: map<Hash, seq<seq<Byte>>>
    var personasOf: map<(Did, seq<Byte>), I64>
    var influencesOf: map<(Did, seq<Byte>), I64>

    /** `key(tag)`: the storage key of the tag's metadata entry, its prefix followed by the tag. */
    function Key(tag: seq<Byte>): (k: seq<Byte>)
      ensures |k| == |metadataPrefix| + |tag| && k[..|metadataPrefix|] == metadataPrefix
      ensures k[|metadataPrefix|..] == tag
    {
      metadataPrefix + tag
    }

    /** Distinct tags have distinct keys, and no key is empty. */
    lemma KeyInjective(a: seq<Byte>, b: seq<Byte>)
      ensures Key(a) == Key(b) ==> a == b
      ensures Key(a) != []
    {
      if Key(a) == Key(b) {
        assert a == Key(a)[|metadataPrefix|..] == Key(b)[|metadataPrefix|..] == b;
      }
    }

    /** Every scored key, in both tables, is the key of a registered tag. */
    ghost predicate Valid()
      reads this
    {
      && (forall p | p in personasOf :: exists t | t in metadata :: Key(t) == p.1)
      && (forall p | p in influencesOf :: exists t | t in metadata :: Key(t) == p.1)
    }

    /** `GenesisBuild::build`: every configured tag, created by the default DID at height zero. */
    constructor Genesis(metadataPrefix: Prefix, submissionFee: Balance, tags: seq<seq<Byte>>)
      ensures this.metadataPrefix == metadataPrefix && this.submissionFee == submissionFee
      ensures forall t :: t in metadata <==> t in tags
      ensures forall t | t in metadata :: metadata[t] == GENESIS_META
      ensures tagsOf == map[] && personasOf == map[] && influencesOf == map[]
      ensures Valid()
    {
      this.metadataPrefix := metadataPrefix;
      this.submissionFee := submissionFee;
      tagsOf, personasOf, influencesOf := map[], map[], map[];
      var registered: map<seq<Byte>, Meta> := map[];
      for i := 0 to |tags|
        invariant forall t :: t in registered <==> t in tags[..i]
        invariant forall t | t in registered :: registered[t] == GENESIS_META
      {
        assert tags[..i + 1] == tags[..i] + [tags[i]];
        registered := registered[tags[i] := GENESIS_META];
      }
      assert tags[..|tags|] == tags;
      metadata := registered;
    }

    /** `inner_create`: records the tag, created by `creator` at height `now`, and returns its key. */
    method InnerCreate(creator: Did, tag: seq<Byte>, now: Height) returns (hash: seq<Byte>)
      modifies this
      ensures metadata == old(metadata)[tag := Meta(creator, now)]
      ensures hash == Key(tag)
      ensures tagsOf == old(tagsOf) && personasOf == old(personasOf) && influencesOf == old(influencesOf)
      ensures old(Valid()) ==> Valid()
    {
      ghost var before := metadata;
      metadata := metadata[tag := Meta(creator, now)];
      if old(Valid()) {
        forall p | p in personasOf
          ensures exists t | t in metadata :: Key(t) == p.1
        {
          var t :| t in before && Key(t) == p.1;
          assert t in metadata;
        }
        forall p | p in influencesOf
          ensures exists t | t in metadata :: Key(t) == p.1
        {
          var t :| t in before && Key(t) == p.1;
          assert t in metadata;
        }
      }
      hash := Key(tag);
    }

    /**
     * `create(tag)`: a new tag costs the caller the submission fee, burnt
     * with keep-alive; a caller who cannot pay is refused.
     */
    method Create(ledger: Ledger.Balances, now: Height, origin: Option<Identity.Caller>, tag: seq<Byte>)
      returns (r: Result<Event, Error>)
      modifies this, ledger
      ensures tagsOf == old(tagsOf) && personasOf == old(personasOf) && influencesOf == old(influencesOf)
      ensures origin.None? ==> r == Failure(BadOrigin) && metadata == old(metadata) && ledger.free == old(ledger.free)
      ensures origin.Some? && tag in old(metadata) ==>
        r == Failure(Exists) && metadata == old(metadata) && ledger.free == old(ledger.free)
      ensures origin.Some? && tag !in old(metadata) ==>
        var paid := Ledger.Withdrawn(old(ledger.free), ledger.minimum, origin.value.who, submissionFee, Ledger.Existence.KeepAlive);
        && (paid.Failure? ==>
              r == Failure(InsufficientBalance) && metadata == old(metadata) && ledger.free == old(ledger.free))
        && (paid.Success? ==>
              && r == Success(Created(Key(tag), origin.value.did))
              && ledger.free == paid.value
              && metadata == old(metadata)[tag := Meta(origin.value.did, now)])
      ensures old(Valid()) ==> Valid()
    {
      if origin.None? {
        return Failure(BadOrigin);
      }
      var did, who := origin.value.did, origin.value.who;
      if tag in metadata {
        return Failure(Exists);
      }
      var fee := submissionFee;
      var settled := ledger.Withdraw(who, fee, Ledger.Existence.KeepAlive);
      if settled.Failure? {
        return Failure(InsufficientBalance);
      }
      var hash := InnerCreate(did, tag, now);
      r := Success(Created(hash, did));
    }

    /** `force_create(tag)` by the privileged origin: a free tag, created by the default DID. */
    method ForceCreate(authorised: bool, now: Height, tag: seq<Byte>) returns (r: Result<Event, Error>)
      modifies this
      ensures tagsOf == old(tagsOf) && personasOf == old(personasOf) && influencesOf == old(influencesOf)
      ensures !authorised ==> r == Failure(BadOrigin) && metadata == old(metadata)
      ensures authorised && tag in old(metadata) ==> r == Failure(Exists) && metadata == old(metadata)
      ensures authorised && tag !in old(metadata) ==>
        r == Success(Created(Key(tag), DEFAULT_DID)) && metadata == old(metadata)[tag := Meta(DEFAULT_DID, now)]
      ensures old(Valid()) ==> Valid()
    {
      if !authorised {
        return Failure(BadOrigin);
      }
      if tag in metadata {
        return Failure(Exists);
      }
      var did := DEFAULT_DID;
      var hash := InnerCreate(did, tag, now);
      r := Success(Created(hash, did));
    }

    /** `influence(did, tag, delta)`: adds `delta` to the DID's interest in a registered tag. */
    method Influence(did: Did, tag: seq<Byte>, delta: I64) returns (r: Result<(), Error>)
      requires tag in metadata ==> I64_MIN <= ScoreOf(personasOf, (did, Key(tag))) + delta <= I64_MAX
      modifies this
      ensures metadata == old(metadata) && tagsOf == old(tagsOf) && influencesOf == old(influencesOf)
      ensures tag !in metadata ==> r == Failure(NotExists) && personasOf == old(personasOf)
      ensures tag in metadata ==>
        r == Success(()) && personasOf == Accumulate(old(personasOf), (did, Key(tag)), delta)
      ensures old(Valid()) ==> Valid()
    {
      if tag !in metadata {
        return Failure(NotExists);
      }
      var hash := Key(tag);
      personasOf := Accumulate(personasOf, (did, hash), delta);
      r := Success(());
    }

    /** `impact(did, tag, delta)`: adds `delta` to a KOL's influence for a registered tag. */
    method Impact(did: Did, tag: seq<Byte>, delta: I64) returns (r: Result<(), Error>)
      requires tag in metadata ==> I64_MIN <= ScoreOf(influencesOf, (did, Key(tag))) + delta <= I64_MAX
      modifies this
      ensures metadata == old(metadata) && tagsOf == old(tagsOf) && personasOf == old(personasOf)
      ensures tag !in metadata ==> r == Failure(NotExists) && influencesOf == old(influencesOf)
      ensures tag in metadata ==>
        r == Success(()) && influencesOf == Accumulate(old(influencesOf), (did, Key(tag)), delta)
      ensures old(Valid()) ==> Valid()
    {
      if tag !in metadata {
        return Failure(NotExists);
      }
      var hash := Key(tag);
      influencesOf := Accumulate(influencesOf, (did, hash), delta);
      r := Success(());
    }

    /** `StoredMap<Vec<u8>, Vec<u8>>::get`: a registered tag's key, otherwise empty. */
    function Get(k: seq<Byte>): (r: seq<Byte>)
      reads this
      ensures r != [] <==> k in metadata
      ensures k in metadata ==> r == Key(k)
    {
      KeyInjective(k, k);
      if k in metadata then Key(k) else []
    }

    /** Two tags with the same non-empty view are the same tag. */
    lemma GetIdentifiesTag(a: seq<Byte>, b: seq<Byte>)
      ensures Get(a) == Get(b) && Get(a) != [] ==> a == b
    {
      KeyInjective(a, b);
    }

    /**
     * In a valid state every key a persona score is kept under is the view of
     * exactly one registered tag.
     */
    lemma ScoredKeyNamesOneTag(p: (Did, seq<Byte>))
      requires Valid()
      requires p in personasOf
      ensures exists t | t in metadata :: Get(t) == p.1
      ensures forall t, u | t in metadata && u in metadata && Get(t) == p.1 && Get(u) == p.1 :: t == u
    {
    }

    /**
     * `StoredMap<Vec<u8>, Vec<u8>>::try_mutate_exists`: hands `f` an absent
     * entry whatever `k` is, returns its result and stores nothing of it.
     */
    method TryMutateExists<R, E>(k: seq<Byte>, f: Option<seq<Byte>> -> (Option<seq<Byte>>, Result<R, E>))
      returns (r: Result<R, E>)
      ensures r == f(None).1
    {
      var some: Option<seq<Byte>> := None;
      var outcome := f(some);
      r := outcome.1;
    }

    /** `StoredMap<HashOf, Vec<Vec<u8>>>::get`: the advertisement's tags, or none. */
    function TagsGet(k: Hash): (r: seq<seq<Byte>>)
      reads this
      ensures k in tagsOf ==> r == tagsOf[k]
      ensures k !in tagsOf ==> r == []
    {
      if k in tagsOf then tagsOf[k] else []
    }

    /**
     * `StoredMap<HashOf, Vec<Vec<u8>>>::try_mutate_exists`, which is
     * `TagsOf::mutate`: whatever entry `f` leaves is written back, even when
     * `f` reports an error, and `f`'s result is returned.
     */
    method TryMutateTags<R, E>(k: Hash, f: Option<seq<seq<Byte>>> -> (Option<seq<seq<Byte>>>, Result<R, E>))
      returns (r: Result<R, E>)
      modifies this
      ensures var entry := if k in old(tagsOf) then Some(old(tagsOf)[k]) else None;
        r == f(entry).1 && tagsOf == Written(old(tagsOf), k, f(entry).0)
      ensures var left := f(if k in old(tagsOf) then Some(old(tagsOf)[k]) else None).0;
        TagsGet(k) == if left.Some? then left.value else []
      ensures forall j | j != k :: TagsGet(j) == old(TagsGet(j))
      ensures metadata == old(metadata) && personasOf == old(personasOf) && influencesOf == old(influencesOf)
      ensures old(Valid()) ==> Valid()
    {
      var entry := if k in tagsOf then Some(tagsOf[k]) else None;
      var outcome := f(entry);
      tagsOf := Written(tagsOf, k, outcome.0);
      r := outcome.1;
    }
  }
}
