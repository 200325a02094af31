/** The store object: transactions that update the map in place, iterator loops, and
    lookups that scan in one transaction and fetch in another (the store package). */
module Store {
  import opened Reputation
  import opened StoreKeys
  import opened StoreModel
  import opened StringOrder
  import opened Text
  import opened Wrappers

  class NodeStore {
    var db: map<string, Value>

    constructor ()
      ensures db == map[]
    {
      db := map[];
    }

    // ----- write transactions -----

    method WriteClaim(c: Claim) returns (error: Option<StoreError>)
      modifies this
      ensures error == ErrorOf(old(db), Op.WriteClaim(c)) && db == Exec(old(db), Op.WriteClaim(c))
    {
      var pk := ClaimKey(c.claimId);
      if pk in db {
        return Some(AlreadyExists);
      }
      db := db[pk := ClaimValue(c)];
      error := None;
    }

    method DeleteClaim(claimId: string) returns (error: Option<StoreError>)
      modifies this
      ensures error == ErrorOf(old(db), Op.DeleteClaim(claimId)) && db == Exec(old(db), Op.DeleteClaim(claimId))
    {
      var pk := ClaimKey(claimId);
      if pk !in db {
        return Some(ClaimNotFound);
      }
      db := db - {pk};
      error := None;
    }

    method WriteValidatorRecord(r: ValidatorRecord)
      modifies this
      ensures db == Exec(old(db), Op.WriteValidatorRecord(r))
    {
      db := db[ValidatorKey(r.validatorId) := ValidatorValue(r)];
    }

    method DeleteValidatorRecord(validatorId: string) returns (error: Option<StoreError>)
      modifies this
      ensures error == ErrorOf(old(db), Op.DeleteValidatorRecord(validatorId))
      ensures db == Exec(old(db), Op.DeleteValidatorRecord(validatorId))
    {
      var pk := ValidatorKey(validatorId);
      if pk !in db {
        return Some(ValidatorNotFound);
      }
      db := db - {pk};
      error := None;
    }

    method WriteValidationRecord(r: ValidationRecord) returns (error: Option<StoreError>)
      modifies this
      ensures error == ErrorOf(old(db), Op.WriteValidationRecord(r))
      ensures db == Exec(old(db), Op.WriteValidationRecord(r))
    {
      if !ValidValidationRecord(r) {
        return Some(InvalidRecord);
      }
      var stored := r.(domain := Normalize(r.domain));
      var pk := ValidationKey(r.claimId);
      if pk in db {
        return Some(AlreadyExists);
      }
      db := db[pk := ValidationValue(stored)];
      db := db[IdxDomainKey(stored.domain, r.claimId) := Empty];
      db := db[IdxEpochKey(r.epoch, r.claimId) := Empty];
      error := None;
    }

    method WriteVote(v: VoteRecord) returns (error: Option<StoreError>)
      modifies this
      ensures error == ErrorOf(old(db), Op.WriteVote(v)) && db == Exec(old(db), Op.WriteVote(v))
    {
      if !ValidVoteRecord(v) {
        return Some(InvalidRecord);
      }
      var pk := VoteKey(v.claimId, v.validatorId);
      if pk in db {
        return Some(AlreadyExists);
      }
      db := db[pk := VoteValue(v)];
      db := db[IdxVoteByValidatorKey(v.validatorId, v.claimId) := Empty];
      error := None;
    }

    /** Commits the transactions of other clients, in the order they are serialized. */
    method Commit(ops: seq<Op>)
      modifies this
      ensures db == ExecAll(old(db), ops)
    {
      for i := 0 to |ops|
        invariant db == ExecAll(old(db), ops[..i])
      {
        assert ops[..i + 1][..i] == ops[..i];
        match ops[i] {
          case WriteClaim(c) => var _ := WriteClaim(c);
          case DeleteClaim(id) => var _ := DeleteClaim(id);
          case WriteValidatorRecord(r) => WriteValidatorRecord(r);
          case DeleteValidatorRecord(id) => var _ := DeleteValidatorRecord(id);
          case WriteValidationRecord(r) => var _ := WriteValidationRecord(r);
          case WriteVote(v) => var _ := WriteVote(v);
        }
      }
      assert ops[..|ops|] == ops;
    }

    // ----- iterators -----

    /** The first key at or after a position, if any. */
    function Seek(from: string): (k: Option<string>)
      reads this
      ensures k.Some? ==> k.value in db && AtMost(from, k.value)
      ensures forall x | x in db && AtMost(from, x) :: k.Some? && AtMost(k.value, x)
    {
      var after := set x | x in db && AtMost(from, x);
      if after == {} then
        assert forall x | x in db :: !AtMost(from, x) by {
          forall x | x in db ensures !AtMost(from, x) {
            assert x !in after;
          }
        }
        None
      else
        Some(Least(after))
    }

    /** The first key strictly after a key, if any. */
    function Next(key: string): (k: Option<string>)
      reads this
      ensures k.Some? ==> k.value in db && Less(key, k.value)
      ensures forall x | x in db && Less(key, x) :: k.Some? && AtMost(k.value, x)
    {
      var after := set x | x in db && Less(key, x);
      if after == {} then
        assert forall x | x in db :: !Less(key, x) by {
          forall x | x in db ensures !Less(key, x) {
            assert x !in after;
          }
        }
        None
      else
        Some(Least(after))
    }

    /** The iterator has passed exactly the matching keys in `seen` and stands at `at`. */
    ghost predicate Passed(prefix: string, seen: seq<string>, at: Option<string>)
      reads this
    {
      && Ascending(seen)
      && (forall k | k in seen :: k in db && prefix <= k && (at.Some? ==> Less(k, at.value)))
      && (at.Some? ==> at.value in db && AtMost(prefix, at.value))
      && (forall k | k in db && prefix <= k && k !in seen :: at.Some? && AtMost(at.value, k))
    }

    lemma PassedNothing(prefix: string)
      ensures Passed(prefix, [], Seek(prefix))
    {
      forall k | k in db && prefix <= k ensures AtMost(prefix, k) {
        PrefixIsAtMost(prefix, k);
        Trichotomy(prefix, k);
      }
    }

    lemma PassedOneMore(prefix: string, seen: seq<string>, at: string)
      requires Passed(prefix, seen, Some(at)) && prefix <= at
      ensures Passed(prefix, seen + [at], Next(at))
    {
      var next := Next(at);
      if next.Some? {
        forall k | k in seen ensures Less(k, next.value) {
          Transitive(k, at, next.value);
        }
        PrefixIsAtMost(prefix, at);
        Trichotomy(prefix, at);
        if prefix != at {
          Transitive(prefix, at, next.value);
        }
      }
    }

    /** Past the last matching key nothing matches any more. */
    lemma PassedAll(prefix: string, seen: seq<string>, at: Option<string>)
      requires Passed(prefix, seen, at) && (at.Some? ==> !(prefix <= at.value))
      ensures seen == ScanKeys(db, prefix)
    {
      forall k | k in db && prefix <= k ensures k in seen {
        if k !in seen {
          Trichotomy(prefix, at.value);
          PrefixIsConvex(prefix, at.value, k);
        }
      }
      AscendingIsSorted(seen, set k | k in db && prefix <= k);
    }

    lemma StepLeavesFewer(at: string, next: string)
      requires at in db && Less(at, next)
      ensures |set x | x in db && AtMost(next, x)| < |set x | x in db && AtMost(at, x)|
    {
      var small, large := set x | x in db && AtMost(next, x), set x | x in db && AtMost(at, x);
      forall x | x in small ensures x in large {
        if x != next {
          Transitive(at, next, x);
        }
      }
      assert at in large;
      assert at !in small by {
        Trichotomy(at, next);
      }
      SmallerSet(small, large, at);
    }

    /** Iterates over the keys with a prefix and extracts an identifier from each. */
    method PrefixScanKeys(prefix: string, extract: string --> string) returns (ids: seq<string>)
      requires forall k | prefix <= k :: extract.requires(k)
      ensures |ids| == |ScanKeys(db, prefix)|
      ensures forall i | 0 <= i < |ids| ::
                prefix <= ScanKeys(db, prefix)[i] && ids[i] == extract(ScanKeys(db, prefix)[i])
    {
      ids := [];
      ghost var seen: seq<string> := [];
      var at := Seek(prefix);
      PassedNothing(prefix);
      while at.Some? && prefix <= at.value
        invariant Passed(prefix, seen, at)
        invariant |ids| == |seen|
        invariant forall i | 0 <= i < |ids| :: prefix <= seen[i] && ids[i] == extract(seen[i])
        decreases if at.Some? then 1 + |set x | x in db && AtMost(at.value, x)| else 0
      {
        var key := at.value;
        ids := ids + [extract(key)];
        PassedOneMore(prefix, seen, key);
        seen := seen + [key];
        at := Next(key);
        if at.Some? {
          StepLeavesFewer(key, at.value);
        }
      }
      PassedAll(prefix, seen, at);
    }

    // ----- lookups -----

    method Fetch(ids: seq<string>) returns (r: Result<seq<ValidationRecord>, StoreError>)
      ensures r == FetchValidations(db, ids)
    {
      var results: seq<ValidationRecord> := [];
      for i := 0 to |ids|
        invariant FetchValidations(db, ids[..i]) == Success(results)
      {
        assert ids[..i + 1][..i] == ids[..i];
        var one := ReadValidation(db, ids[i]);
        if one.Failure? {
          FailureStays(ids, i + 1);
          return Failure(one.error);
        }
        results := results + [one.value];
      }
      assert ids[..|ids|] == ids;
      r := Success(results);
    }

    lemma FailureStays(ids: seq<string>, n: nat)
      requires n <= |ids| && FetchValidations(db, ids[..n]).Failure?
      ensures FetchValidations(db, ids) == FetchValidations(db, ids[..n])
      decreases |ids| - n
    {
      hide ReadValidation, ReadVote;
      if n == |ids| {
        assert ids[..n] == ids;
      } else {
        assert ids[..n + 1][..n] == ids[..n];
        FailureStays(ids, n + 1);
      }
    }

    lemma VoteFailureStays(ids: seq<string>, validatorId: string, n: nat)
      requires n <= |ids| && FetchVotes(db, ids[..n], validatorId).Failure?
      ensures FetchVotes(db, ids, validatorId) == FetchVotes(db, ids[..n], validatorId)
      decreases |ids| - n
    {
      hide ReadValidation, ReadVote;
      if n == |ids| {
        assert ids[..n] == ids;
      } else {
        assert ids[..n + 1][..n] == ids[..n];
        VoteFailureStays(ids, validatorId, n + 1);
      }
    }

    /** Between the scan and the fetch, other clients may commit any transactions. */
    method ValidationsByDomain(domain: string, others: seq<Op>) returns (r: Result<seq<ValidationRecord>, StoreError>)
      modifies this
      ensures db == ExecAll(old(db), others)
      ensures r == StoreModel.ValidationsByDomain(old(db), db, domain)
    {
      var d := Normalize(domain);
      var claimIds := PrefixScanKeys(DomainPrefix(d),
        (key: string) requires DomainPrefix(d) <= key => ClaimIdFromDomainIndex(key, d));
      assert claimIds == ScanIds(db, DomainPrefix(d));
      Commit(others);
      r := Fetch(claimIds);
    }

    method ValidationsByEpoch(epoch: Uint64, others: seq<Op>) returns (r: Result<seq<ValidationRecord>, StoreError>)
      modifies this
      ensures db == ExecAll(old(db), others)
      ensures r == StoreModel.ValidationsByEpoch(old(db), db, epoch)
    {
      var claimIds := PrefixScanKeys(EpochPrefix(epoch),
        (key: string) requires EpochPrefix(epoch) <= key => ClaimIdFromEpochIndex(key, epoch));
      assert claimIds == ScanIds(db, EpochPrefix(epoch));
      Commit(others);
      r := Fetch(claimIds);
    }

    method VotesByValidator(validatorId: string, others: seq<Op>) returns (r: Result<seq<VoteRecord>, StoreError>)
      modifies this
      ensures db == ExecAll(old(db), others)
      ensures r == StoreModel.VotesByValidator(old(db), db, validatorId)
    {
      var claimIds := PrefixScanKeys(ValidatorPrefix(validatorId),
        (key: string) requires ValidatorPrefix(validatorId) <= key =>
          ClaimIdFromVoteByValidatorIndex(key, validatorId));
      assert claimIds == ScanIds(db, ValidatorPrefix(validatorId));
      Commit(others);
      r := FetchFor(claimIds, validatorId);
    }

    /** Reads the vote of one validator on each claim. */
    method FetchFor(claimIds: seq<string>, validatorId: string) returns (r: Result<seq<VoteRecord>, StoreError>)
      ensures r == FetchVotes(db, claimIds, validatorId)
    {
      hide ReadVote;
      var votes: seq<VoteRecord> := [];
      for i := 0 to |claimIds|
        invariant FetchVotes(db, claimIds[..i], validatorId) == Success(votes)
      {
        assert claimIds[..i + 1][..i] == claimIds[..i];
        var one := ReadVote(db, claimIds[i], validatorId);
        if one.Failure? {
          VoteFailureStays(claimIds, validatorId, i + 1);
          return Failure(one.error);
        }
        votes := votes + [one.value];
      }
      assert claimIds[..|claimIds|] == claimIds;
      r := Success(votes);
    }

    /** Decodes each vote where the iterator finds it. */
    method VotesForClaim(claimId: string) returns (r: Result<seq<VoteRecord>, StoreError>)
      ensures r == StoreModel.VotesForClaim(db, claimId)
    {
      var keys := PrefixScanKeys(VotePrefix(claimId), (key: string) => key);
      hide ScanKeys, VotePrefix;
      assert keys == ScanKeys(db, VotePrefix(claimId));
      r := Decode(keys);
    }

    method Decode(keys: seq<string>) returns (r: Result<seq<VoteRecord>, StoreError>)
      requires forall k | k in keys :: k in db
      ensures r == DecodeVotes(db, keys)
    {
      var votes: seq<VoteRecord> := [];
      for i := 0 to |keys|
        invariant DecodeVotes(db, keys[..i]) == Success(votes)
      {
        assert keys[..i + 1][..i] == keys[..i];
        if !db[keys[i]].VoteValue? {
          DecodeFailureStays(keys, i + 1);
          return Failure(Undecodable);
        }
        votes := votes + [db[keys[i]].vote];
      }
      assert keys[..|keys|] == keys;
      r := Success(votes);
    }

    lemma DecodeFailureStays(keys: seq<string>, n: nat)
      requires n <= |keys| && (forall k | k in keys :: k in db) && DecodeVotes(db, keys[..n]).Failure?
      ensures DecodeVotes(db, keys) == DecodeVotes(db, keys[..n])
      decreases |keys| - n
    {
      if n == |keys| {
        assert keys[..n] == keys;
      } else {
        assert keys[..n + 1][..n] == keys[..n];
        DecodeFailureStays(keys, n + 1);
      }
    }
  }

  lemma SmallerSet(small: set<string>, large: set<string>, x: string)
    requires small <= large && x in large && x !in small
    ensures |small| < |large|
  {
    SubsetSize(small, large - {x});
  }

  lemma {:induction false} SubsetSize(small: set<string>, large: set<string>)
    requires small <= large
    ensures |small| <= |large|
  {
    if small != {} {
      var x :| x in small;
      SubsetSize(small - {x}, large - {x});
    }
  }
}
