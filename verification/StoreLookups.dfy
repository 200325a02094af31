/** When a lookup returns exactly the records a filter over the whole store would return. */
module StoreLookups {
  import opened Reputation
  import opened StoreKeys
  import opened StoreLaws
  import opened StoreModel
  import opened StringOrder
  import opened Text
  import opened Verdicts
  import opened Wrappers

  // ----- the plain filters -----

  type Filter = ValidationRecord -> bool

  function InDomain(domain: string): Filter {
    (r: ValidationRecord) => r.domain == domain
  }

  function InEpoch(epoch: Uint64): Filter {
    (r: ValidationRecord) => r.epoch == epoch
  }

  /** rs is every validation in db that passes the filter, each once, by claim ID. */
  ghost predicate Lists(db: Db, p: Filter, rs: seq<ValidationRecord>) {
    && (forall r :: r in rs <==> HasValidation(db, r) && p(r))
    && (forall i, j | 0 <= i < j < |rs| :: Less(rs[i].claimId, rs[j].claimId))
  }

  ghost predicate ListsValidator(db: Db, validatorId: string, vs: seq<VoteRecord>) {
    && (forall v :: v in vs <==> HasVote(db, v) && v.validatorId == validatorId)
    && (forall i, j | 0 <= i < j < |vs| :: Less(vs[i].claimId, vs[j].claimId))
  }

  ghost predicate ListsClaim(db: Db, claimId: string, vs: seq<VoteRecord>) {
    && (forall v :: v in vs <==> HasVote(db, v) && v.claimId == claimId)
    && (forall i, j | 0 <= i < j < |vs| :: Less(vs[i].validatorId, vs[j].validatorId))
  }

  // ----- scans and fetches -----

  /** The identifiers of a scan are ascending, and are exactly those whose key is stored. */
  lemma ScanIdsAre(db: Db, prefix: string, ids: seq<string>)
    requires ids == ScanIds(db, prefix)
    ensures Ascending(ids)
    ensures forall id :: id in ids <==> prefix + id in db
  {
    var keys := ScanKeys(db, prefix);
    hide ScanKeys;
    forall i | 0 <= i < |ids| ensures keys[i] == prefix + ids[i] && keys[i] in db {
      assert keys[i] in keys;
    }
    forall i, j | 0 <= i < j < |ids| ensures Less(ids[i], ids[j]) {
      assert Less(keys[i], keys[j]);
      CommonPrefix(prefix, ids[i], ids[j]);
    }
    forall id | prefix + id in db ensures id in ids {
      assert prefix + id in keys;
      var i :| 0 <= i < |keys| && keys[i] == prefix + id;
      assert ids[i] == id;
    }
  }

  lemma {:induction false} FetchReads(db: Db, ids: seq<string>)
    ensures var r := FetchValidations(db, ids);
            && (r.Success? <==> forall id | id in ids :: ReadValidation(db, id).Success?)
            && (r.Success? ==> |r.value| == |ids|)
            && (r.Success? ==> forall i | 0 <= i < |ids| :: ReadValidation(db, ids[i]) == Success(r.value[i]))
  {
    if ids != [] {
      var m := |ids| - 1;
      FetchReads(db, ids[..m]);
      assert forall id :: id in ids <==> id in ids[..m] || id == ids[m];
      hide ReadValidation;
    }
  }

  lemma {:induction false} FetchReadsVotes(db: Db, ids: seq<string>, validatorId: string)
    ensures var r := FetchVotes(db, ids, validatorId);
            && (r.Success? <==> forall id | id in ids :: ReadVote(db, id, validatorId).Success?)
            && (r.Success? ==> |r.value| == |ids|)
            && (r.Success? ==> forall i | 0 <= i < |ids| :: ReadVote(db, ids[i], validatorId) == Success(r.value[i]))
  {
    if ids != [] {
      var m := |ids| - 1;
      FetchReadsVotes(db, ids[..m], validatorId);
      assert forall id :: id in ids <==> id in ids[..m] || id == ids[m];
      hide ReadVote;
    }
  }

  // ----- validations under a filter -----

  /** The record under this claim ID passes the filter. */
  ghost predicate Matches(db: Db, p: Filter, id: string) {
    ReadValidation(db, id).Success? && p(ReadValidation(db, id).value)
  }

  lemma RecordUnderKey(db: Db, id: string)
    requires Consistent(db) && ReadValidation(db, id).Success?
    ensures var r := ReadValidation(db, id).value;
            && r.claimId == id && HasValidation(db, r)
            && IdxDomainKey(r.domain, r.claimId) in db && IdxEpochKey(r.epoch, r.claimId) in db
            && ValidValidationRecord(r) && Normalize(r.domain) == r.domain
  {
    hide IdxDomainKey, IdxEpochKey, ValidValidationRecord, Normalize;
    var k := ValidationKey(id);
    KeyKinds(id, "", 0);
    assert EntryOk(db, k);
    assert k[|PREFIX_VALIDATION|..] == id;
    var r := db[k].validation;
    assert ValidationKey(r.claimId)[|PREFIX_VALIDATION|..] == r.claimId;
  }

  lemma StaysReadable(db: Db, db': Db, id: string)
    requires Keeps(db, db') && ReadValidation(db, id).Success?
    ensures ReadValidation(db', id) == ReadValidation(db, id)
  {
    assert Permanent(ValidationKey(id));
  }

  /** One record for each identifier, in ascending order, is a listing. */
  lemma ListedById(db: Db, ids: seq<string>, rs: seq<ValidationRecord>, p: Filter)
    requires Ascending(ids) && |rs| == |ids|
    requires forall i | 0 <= i < |ids| :: rs[i].claimId == ids[i] && HasValidation(db, rs[i]) && p(rs[i])
    requires forall r | HasValidation(db, r) && p(r) :: r.claimId in ids
    ensures Lists(db, p, rs)
  {
    forall r | HasValidation(db, r) && p(r) ensures r in rs {
      var i :| 0 <= i < |ids| && ids[i] == r.claimId;
      assert rs[i] == r;
    }
    hide HasValidation;
  }

  lemma MatchIsRecord(db: Db, db': Db, p: Filter, id: string)
    requires Consistent(db) && Keeps(db, db') && Matches(db, p, id)
    ensures var r := ReadValidation(db', id);
            r.Success? && r.value.claimId == id && HasValidation(db, r.value) && p(r.value)
  {
    StaysReadable(db, db', id);
    RecordUnderKey(db, id);
    hide Consistent, Keeps;
  }

  /** If the scanned identifiers are those of the matching records, then a fetch from any
      later state of the store lists exactly the records that matched at the scan. */
  lemma FetchLists(db: Db, db': Db, ids: seq<string>, p: Filter)
    requires Consistent(db) && Keeps(db, db') && Ascending(ids)
    requires forall id :: id in ids <==> Matches(db, p, id)
    ensures var r := FetchValidations(db', ids);
            r.Success? && Lists(db, p, r.value)
  {
    hide Consistent, Keeps, Lists, ReadValidation, HasValidation, Matches, Ascending;
    FetchReads(db', ids);
    forall id | id in ids
      ensures var r := ReadValidation(db', id);
              r.Success? && r.value.claimId == id && HasValidation(db, r.value) && p(r.value)
    {
      MatchIsRecord(db, db', p, id);
    }
    forall r | HasValidation(db, r) && p(r) ensures r.claimId in ids {
      RecordMatches(db, p, r);
    }
    ListedById(db, ids, FetchValidations(db', ids).value, p);
  }

  lemma RecordMatches(db: Db, p: Filter, r: ValidationRecord)
    requires HasValidation(db, r) && p(r)
    ensures Matches(db, p, r.claimId)
  {
  }

  // ----- lookups by domain -----

  /** No record of another domain has an index entry inside the scanned range, unless it
      shares that entry with a record of this domain. */
  ghost predicate DomainSeparated(db: Db, domain: string) {
    forall r | HasValidation(db, r) && DomainPrefix(domain) <= IdxDomainKey(r.domain, r.claimId) ::
      exists own :: HasValidation(db, own) && own.domain == domain
                    && IdxDomainKey(own.domain, own.claimId) == IdxDomainKey(r.domain, r.claimId)
  }

  lemma CutPrefix(prefix: string, a: string, b: string)
    requires prefix + a == prefix + b
    ensures a == b
  {
    assert a == (prefix + a)[|prefix|..] == (prefix + b)[|prefix|..] == b;
  }

  lemma DomainEntryHasRecord(db: Db, domain: string, id: string) returns (r: ValidationRecord)
    requires Consistent(db) && DomainPrefix(domain) + id in db
    ensures HasValidation(db, r) && DomainPrefix(domain) + id == IdxDomainKey(r.domain, r.claimId)
  {
    var k := DomainPrefix(domain) + id;
    assert PREFIX_IDX_DOMAIN <= k;
    assert EntryOk(db, k);
    hide IdxDomainKey, DomainPrefix, HasValidation, ValidationOk, VoteOk;
    r :| HasValidation(db, r) && k == IdxDomainKey(r.domain, r.claimId);
  }

  lemma DomainEntryMatches(db: Db, domain: string, id: string)
    requires Consistent(db) && DomainSeparated(db, domain) && DomainPrefix(domain) + id in db
    ensures Matches(db, InDomain(domain), id)
  {
    hide Consistent, IdxDomainKey, DomainPrefix, HasValidation, Matches;
    var k := DomainPrefix(domain) + id;
    var r := DomainEntryHasRecord(db, domain, id);
    assert DomainPrefix(domain) <= k;
    var own :| HasValidation(db, own) && own.domain == domain && IdxDomainKey(own.domain, own.claimId) == k;
    KeyOfId(domain, own.claimId, id);
    RecordMatches(db, InDomain(domain), own);
  }

  lemma KeyOfId(domain: string, claimId: string, id: string)
    ensures IdxDomainKey(domain, claimId) == DomainPrefix(domain) + id ==> claimId == id
  {
    hide DomainPrefix;
    if IdxDomainKey(domain, claimId) == DomainPrefix(domain) + id {
      CutPrefix(DomainPrefix(domain), claimId, id);
    }
  }

  lemma DomainScan(db: Db, domain: string, id: string)
    requires Consistent(db) && DomainSeparated(db, domain)
    ensures DomainPrefix(domain) + id in db <==> Matches(db, InDomain(domain), id)
  {
    if DomainPrefix(domain) + id in db {
      DomainEntryMatches(db, domain, id);
    }
    if Matches(db, InDomain(domain), id) {
      RecordUnderKey(db, id);
    }
    hide Consistent, DomainSeparated;
  }

  /** Whatever other transactions commit between the scan and the fetch, a lookup by domain
      returns exactly the records of that domain as of the scan, each once and in claim-ID
      order, and never fails. */
  lemma DomainLookupExact(db: Db, others: seq<Op>, domain: string)
    requires Consistent(db) && DomainSeparated(db, Normalize(domain))
    ensures var r := ValidationsByDomain(db, ExecAll(db, others), domain);
            r.Success? && Lists(db, InDomain(Normalize(domain)), r.value)
  {
    var d := Normalize(domain);
    var ids := ScanIds(db, DomainPrefix(d));
    HistoryKeepsInvariant(db, others);
    ScanIdsAre(db, DomainPrefix(d), ids);
    forall id ensures id in ids <==> Matches(db, InDomain(d), id) {
      DomainScan(db, d, id);
    }
    hide ScanIds, Consistent, DomainSeparated, Keeps, Matches, Lists, DomainPrefix, Normalize;
    FetchLists(db, ExecAll(db, others), ids, InDomain(d));
  }

  /** The condition is exact: without it even an undisturbed lookup fails or returns a
      record of another domain. */
  lemma DomainLookupNeedsSeparation(db: Db, domain: string)
    requires Consistent(db)
    ensures var r := ValidationsByDomain(db, db, domain);
            r.Success? && Lists(db, InDomain(Normalize(domain)), r.value) ==> DomainSeparated(db, Normalize(domain))
  {
    var d := Normalize(domain);
    var r := ValidationsByDomain(db, db, domain);
    if r.Success? && Lists(db, InDomain(d), r.value) {
      forall foreign | HasValidation(db, foreign) && DomainPrefix(d) <= IdxDomainKey(foreign.domain, foreign.claimId)
        ensures exists own :: HasValidation(db, own) && own.domain == d
                  && IdxDomainKey(own.domain, own.claimId) == IdxDomainKey(foreign.domain, foreign.claimId)
      {
        var own := ScannedRecord(db, d, foreign, r.value);
      }
    }
    hide Consistent, Lists, Normalize, ValidationsByDomain;
  }

  /** The record that an exact lookup returned for the index entry of a given record. */
  lemma ScannedRecord(db: Db, d: string, foreign: ValidationRecord, rs: seq<ValidationRecord>)
    returns (own: ValidationRecord)
    requires Consistent(db) && HasValidation(db, foreign)
    requires DomainPrefix(d) <= IdxDomainKey(foreign.domain, foreign.claimId)
    requires FetchValidations(db, ScanIds(db, DomainPrefix(d))) == Success(rs) && Lists(db, InDomain(d), rs)
    ensures HasValidation(db, own) && own.domain == d
    ensures IdxDomainKey(own.domain, own.claimId) == IdxDomainKey(foreign.domain, foreign.claimId)
  {
    hide ScanIds, FetchValidations, Consistent, HasValidation, IdxDomainKey, DomainPrefix, ReadValidation;
    var prefix, key := DomainPrefix(d), IdxDomainKey(foreign.domain, foreign.claimId);
    var ids, id := ScanIds(db, prefix), key[|prefix|..];
    assert key == prefix + id;
    RecordHasEntry(db, foreign);
    ScanIdsAre(db, prefix, ids);
    FetchReads(db, ids);
    var i :| 0 <= i < |ids| && ids[i] == id;
    own := rs[i];
    assert own in rs;
    OwnEntry(db, d, id, own);
  }

  lemma RecordHasEntry(db: Db, r: ValidationRecord)
    requires Consistent(db) && HasValidation(db, r)
    ensures IdxDomainKey(r.domain, r.claimId) in db
  {
    assert ReadValidation(db, r.claimId) == Success(r);
    hide IdxDomainKey, Consistent;
    RecordUnderKey(db, r.claimId);
  }

  lemma OwnEntry(db: Db, domain: string, id: string, own: ValidationRecord)
    requires Consistent(db) && ReadValidation(db, id) == Success(own) && own.domain == domain
    ensures HasValidation(db, own) && IdxDomainKey(own.domain, own.claimId) == DomainPrefix(domain) + id
  {
    RecordUnderKey(db, id);
  }

  /** Slash-free domains meet the condition. */
  lemma SlashFreeDomainsSeparate(db: Db, domain: string)
    requires '/' !in domain && forall r | HasValidation(db, r) :: '/' !in r.domain
    ensures DomainSeparated(db, domain)
  {
    forall r | HasValidation(db, r) && DomainPrefix(domain) <= IdxDomainKey(r.domain, r.claimId)
      ensures r.domain == domain
    {
      HeadOfPrefix(PREFIX_IDX_DOMAIN, domain, r.domain, r.claimId);
    }
  }

  lemma HeadOfPrefix(p: string, a: string, b: string, rest: string)
    requires '/' !in a && '/' !in b && p + a + "/" <= p + b + "/" + rest
    ensures a == b
  {
    var s := p + b + "/" + rest;
    TailAfter(p, b, rest);
    var tail := s[|p|..];
    assert (p + a + "/")[|p|..] == a + "/";
    assert a + "/" <= tail;
    var rest' := tail[|a| + 1..];
    assert tail == a + "/" + rest';
    SplitAtSlash(a, rest', b, rest);
  }

  // ----- lookups by epoch -----

  lemma EpochScan(db: Db, epoch: Uint64, id: string)
    requires Consistent(db)
    ensures EpochPrefix(epoch) + id in db <==> Matches(db, InEpoch(epoch), id)
  {
    hide Hex;
    var k := EpochPrefix(epoch) + id;
    if k in db {
      assert EpochEntryOk(db, k) by { assert EntryOk(db, k); }
      var r :| HasValidation(db, r) && k == IdxEpochKey(r.epoch, r.claimId);
      assert k == IdxEpochKey(epoch, id);
      EpochKeysSortByEpoch(epoch, id, r.epoch, r.claimId);
    }
    if Matches(db, InEpoch(epoch), id) {
      RecordUnderKey(db, id);
    }
    hide Consistent;
  }

  /** Lookups by epoch need no condition: the epoch has a fixed width in the key. */
  lemma EpochLookupExact(db: Db, others: seq<Op>, epoch: Uint64)
    requires Consistent(db)
    ensures var r := ValidationsByEpoch(db, ExecAll(db, others), epoch);
            r.Success? && Lists(db, InEpoch(epoch), r.value)
  {
    var ids := ScanIds(db, EpochPrefix(epoch));
    HistoryKeepsInvariant(db, others);
    ScanIdsAre(db, EpochPrefix(epoch), ids);
    forall id ensures id in ids <==> Matches(db, InEpoch(epoch), id) {
      EpochScan(db, epoch, id);
    }
    hide ScanIds, Consistent, Keeps, Matches, Lists, EpochPrefix;
    FetchLists(db, ExecAll(db, others), ids, InEpoch(epoch));
  }

  // ----- lookups by validator -----

  /** No vote of another validator has an index entry inside the scanned range, unless it
      shares that entry with a vote of this validator. */
  ghost predicate ValidatorSeparated(db: Db, validatorId: string) {
    forall v | HasVote(db, v) && ValidatorPrefix(validatorId) <= IdxVoteByValidatorKey(v.validatorId, v.claimId) ::
      exists own :: HasVote(db, own) && own.validatorId == validatorId
                    && IdxVoteByValidatorKey(own.validatorId, own.claimId)
                       == IdxVoteByValidatorKey(v.validatorId, v.claimId)
  }

  /** The vote read for this claim and validator really is of this pair. */
  ghost predicate VoteMatches(db: Db, validatorId: string, id: string) {
    var r := ReadVote(db, id, validatorId);
    r.Success? && r.value.claimId == id && r.value.validatorId == validatorId
  }

  lemma ValidatorEntryHasRecord(db: Db, validatorId: string, id: string) returns (v: VoteRecord)
    requires Consistent(db) && ValidatorPrefix(validatorId) + id in db
    ensures HasVote(db, v) && ValidatorPrefix(validatorId) + id == IdxVoteByValidatorKey(v.validatorId, v.claimId)
  {
    var k := ValidatorPrefix(validatorId) + id;
    assert PREFIX_IDX_VOTE_BY_VALIDATOR <= k;
    assert EntryOk(db, k);
    hide IdxVoteByValidatorKey, ValidatorPrefix, HasVote, ValidationOk, VoteOk;
    v :| HasVote(db, v) && k == IdxVoteByValidatorKey(v.validatorId, v.claimId);
  }

  lemma ValidatorEntryMatches(db: Db, validatorId: string, id: string)
    requires Consistent(db) && ValidatorSeparated(db, validatorId) && ValidatorPrefix(validatorId) + id in db
    ensures VoteMatches(db, validatorId, id)
  {
    hide Consistent, IdxVoteByValidatorKey, ValidatorPrefix, HasVote, VoteMatches;
    var k := ValidatorPrefix(validatorId) + id;
    var v := ValidatorEntryHasRecord(db, validatorId, id);
    assert ValidatorPrefix(validatorId) <= k;
    var own :| HasVote(db, own) && own.validatorId == validatorId
      && IdxVoteByValidatorKey(own.validatorId, own.claimId) == k;
    VoteKeyOfId(validatorId, own.claimId, id);
    StoredVoteMatches(db, own);
  }

  lemma VoteKeyOfId(validatorId: string, claimId: string, id: string)
    ensures IdxVoteByValidatorKey(validatorId, claimId) == ValidatorPrefix(validatorId) + id ==> claimId == id
  {
    hide ValidatorPrefix;
    if IdxVoteByValidatorKey(validatorId, claimId) == ValidatorPrefix(validatorId) + id {
      CutPrefix(ValidatorPrefix(validatorId), claimId, id);
    }
  }

  lemma StoredVoteMatches(db: Db, v: VoteRecord)
    requires HasVote(db, v)
    ensures VoteMatches(db, v.validatorId, v.claimId)
  {
  }

  lemma ValidatorScan(db: Db, validatorId: string, id: string)
    requires Consistent(db) && ValidatorSeparated(db, validatorId)
    ensures ValidatorPrefix(validatorId) + id in db <==> VoteMatches(db, validatorId, id)
  {
    if ValidatorPrefix(validatorId) + id in db {
      ValidatorEntryMatches(db, validatorId, id);
    }
    if VoteMatches(db, validatorId, id) {
      VoteHasEntry(db, ReadVote(db, id, validatorId).value);
    }
    hide Consistent, ValidatorSeparated;
  }

  lemma VoteHasEntry(db: Db, v: VoteRecord)
    requires Consistent(db) && HasVote(db, v)
    ensures IdxVoteByValidatorKey(v.validatorId, v.claimId) in db
  {
    KeyKinds(v.claimId, v.validatorId, v.epoch);
    assert EntryOk(db, VoteKey(v.claimId, v.validatorId));
  }

  lemma VoteStaysReadable(db: Db, db': Db, id: string, validatorId: string)
    requires Keeps(db, db') && ReadVote(db, id, validatorId).Success?
    ensures ReadVote(db', id, validatorId) == ReadVote(db, id, validatorId)
  {
    assert Permanent(VoteKey(id, validatorId));
  }

  lemma FetchListsVotes(db: Db, db': Db, ids: seq<string>, validatorId: string)
    requires Keeps(db, db') && Ascending(ids)
    requires forall id :: id in ids <==> VoteMatches(db, validatorId, id)
    ensures var r := FetchVotes(db', ids, validatorId);
            r.Success? && ListsValidator(db, validatorId, r.value)
  {
    FetchReadsVotes(db', ids, validatorId);
    forall id | id in ids
      ensures ReadVote(db', id, validatorId) == ReadVote(db, id, validatorId) && VoteMatches(db, validatorId, id)
    {
      VoteStaysReadable(db, db', id, validatorId);
    }
    hide Keeps;
    var vs := FetchVotes(db', ids, validatorId).value;
    forall i | 0 <= i < |ids|
      ensures vs[i].claimId == ids[i] && HasVote(db, vs[i]) && vs[i].validatorId == validatorId
    {
      assert ids[i] in ids;
    }
    forall v | HasVote(db, v) && v.validatorId == validatorId ensures v in vs {
      assert VoteMatches(db, validatorId, v.claimId);
      var i :| 0 <= i < |ids| && ids[i] == v.claimId;
      assert vs[i] == v;
    }
  }

  /** The same for votes by validator. Claim IDs may contain slashes here. */
  lemma ValidatorLookupExact(db: Db, others: seq<Op>, validatorId: string)
    requires Consistent(db) && ValidatorSeparated(db, validatorId)
    ensures var r := VotesByValidator(db, ExecAll(db, others), validatorId);
            r.Success? && ListsValidator(db, validatorId, r.value)
  {
    var ids := ScanIds(db, ValidatorPrefix(validatorId));
    HistoryKeepsInvariant(db, others);
    ScanIdsAre(db, ValidatorPrefix(validatorId), ids);
    forall id ensures id in ids <==> VoteMatches(db, validatorId, id) {
      ValidatorScan(db, validatorId, id);
    }
    hide ScanIds, Consistent, ValidatorSeparated, Keeps, VoteMatches, ListsValidator, ValidatorPrefix;
    FetchListsVotes(db, ExecAll(db, others), ids, validatorId);
  }

  /** Here too the condition is exact. */
  lemma ValidatorLookupNeedsSeparation(db: Db, validatorId: string)
    requires Consistent(db)
    ensures var r := VotesByValidator(db, db, validatorId);
            r.Success? && ListsValidator(db, validatorId, r.value) ==> ValidatorSeparated(db, validatorId)
  {
    var r := VotesByValidator(db, db, validatorId);
    if r.Success? && ListsValidator(db, validatorId, r.value) {
      forall foreign | HasVote(db, foreign)
          && ValidatorPrefix(validatorId) <= IdxVoteByValidatorKey(foreign.validatorId, foreign.claimId)
        ensures exists own :: HasVote(db, own) && own.validatorId == validatorId
                  && IdxVoteByValidatorKey(own.validatorId, own.claimId)
                     == IdxVoteByValidatorKey(foreign.validatorId, foreign.claimId)
      {
        var own := ScannedOwnVote(db, validatorId, foreign, r.value);
      }
    }
    hide Consistent, ListsValidator, VotesByValidator;
  }

  lemma ScannedOwnVote(db: Db, validatorId: string, foreign: VoteRecord, vs: seq<VoteRecord>) returns (own: VoteRecord)
    requires Consistent(db) && HasVote(db, foreign)
    requires ValidatorPrefix(validatorId) <= IdxVoteByValidatorKey(foreign.validatorId, foreign.claimId)
    requires FetchVotes(db, ScanIds(db, ValidatorPrefix(validatorId)), validatorId) == Success(vs)
    requires ListsValidator(db, validatorId, vs)
    ensures HasVote(db, own) && own.validatorId == validatorId
    ensures IdxVoteByValidatorKey(own.validatorId, own.claimId)
            == IdxVoteByValidatorKey(foreign.validatorId, foreign.claimId)
  {
    hide ScanIds, FetchVotes, Consistent, HasVote, IdxVoteByValidatorKey, ValidatorPrefix, ReadVote;
    var prefix, key := ValidatorPrefix(validatorId), IdxVoteByValidatorKey(foreign.validatorId, foreign.claimId);
    var ids, id := ScanIds(db, prefix), key[|prefix|..];
    assert key == prefix + id;
    VoteHasEntry(db, foreign);
    ScanIdsAre(db, prefix, ids);
    FetchReadsVotes(db, ids, validatorId);
    var i :| 0 <= i < |ids| && ids[i] == id;
    own := vs[i];
    assert own in vs;
    OwnVoteEntry(db, validatorId, id, own);
  }

  lemma OwnVoteEntry(db: Db, validatorId: string, id: string, own: VoteRecord)
    requires Consistent(db) && ReadVote(db, id, validatorId) == Success(own) && own.validatorId == validatorId
    ensures IdxVoteByValidatorKey(own.validatorId, own.claimId) == ValidatorPrefix(validatorId) + id
  {
    VoteUnderKey(db, validatorId, id);
    hide ReadVote, Consistent, VotePrefix, ValidatorPrefix;
    assert VoteKey(own.claimId, validatorId) == VoteKey(id, validatorId);
    SameClaim(own.claimId, id, validatorId);
  }

  lemma VoteUnderKey(db: Db, validatorId: string, id: string)
    requires Consistent(db) && ReadVote(db, id, validatorId).Success?
    ensures var v := ReadVote(db, id, validatorId).value;
            VoteKey(v.claimId, v.validatorId) == VoteKey(id, validatorId)
  {
    var k := VoteKey(id, validatorId);
    KeyKinds(id, validatorId, 0);
    hide VoteKey;
    assert EntryOk(db, k);
  }

  lemma SameClaim(a: string, b: string, validatorId: string)
    requires VoteKey(a, validatorId) == VoteKey(b, validatorId)
    ensures a == b
  {
    assert VoteKey(a, validatorId) == PREFIX_VOTE + a + ("/" + validatorId);
    assert VoteKey(b, validatorId) == PREFIX_VOTE + b + ("/" + validatorId);
    hide VoteKey;
    CutAround(PREFIX_VOTE, a, b, "/" + validatorId);
  }

  lemma CutAround(p: string, a: string, b: string, rest: string)
    ensures p + a + rest == p + b + rest ==> a == b
  {
    if p + a + rest == p + b + rest {
      assert |a| == |b|;
      assert a == (p + a + rest)[|p|..|p| + |a|] == (p + b + rest)[|p|..|p| + |b|] == b;
    }
  }

  /** Slash-free validator IDs meet the condition. */
  lemma SlashFreeValidatorsSeparate(db: Db, validatorId: string)
    requires '/' !in validatorId && forall v | HasVote(db, v) :: '/' !in v.validatorId
    ensures ValidatorSeparated(db, validatorId)
  {
    forall v | HasVote(db, v) && ValidatorPrefix(validatorId) <= IdxVoteByValidatorKey(v.validatorId, v.claimId)
      ensures v.validatorId == validatorId
    {
      HeadOfPrefix(PREFIX_IDX_VOTE_BY_VALIDATOR, validatorId, v.validatorId, v.claimId);
    }
  }

  // ----- votes of a claim -----

  lemma {:induction false} DecodeReads(db: Db, keys: seq<string>)
    requires forall k | k in keys :: k in db
    ensures var r := DecodeVotes(db, keys);
            && (r.Success? <==> forall k | k in keys :: db[k].VoteValue?)
            && (r.Success? ==>
                 && |r.value| == |keys|
                 && forall i | 0 <= i < |keys| :: db[keys[i]] == VoteValue(r.value[i]))
  {
    if keys != [] {
      var m := |keys| - 1;
      DecodeReads(db, keys[..m]);
      assert forall k :: k in keys <==> k in keys[..m] || k == keys[m];
    }
  }

  /** No vote of another claim is stored inside the scanned range. */
  ghost predicate ClaimSeparated(db: Db, claimId: string) {
    forall v | HasVote(db, v) && VotePrefix(claimId) <= VoteKey(v.claimId, v.validatorId) :: v.claimId == claimId
  }

  lemma ScannedVote(db: Db, claimId: string, k: string)
    requires Consistent(db) && k in db && VotePrefix(claimId) <= k
    ensures db[k].VoteValue? && HasVote(db, db[k].vote) && k == VoteKey(db[k].vote.claimId, db[k].vote.validatorId)
  {
    assert PREFIX_VOTE <= k;
    assert EntryOk(db, k);
  }

  /** The scan of a claim reads every vote whose key is in range, in key order. */
  lemma ClaimScan(db: Db, claimId: string) returns (vs: seq<VoteRecord>)
    requires Consistent(db)
    ensures VotesForClaim(db, claimId) == Success(vs)
    ensures forall v :: v in vs <==> HasVote(db, v) && VotePrefix(claimId) <= VoteKey(v.claimId, v.validatorId)
    ensures forall i, j | 0 <= i < j < |vs| ::
              Less(VoteKey(vs[i].claimId, vs[i].validatorId), VoteKey(vs[j].claimId, vs[j].validatorId))
  {
    var keys := ScanKeys(db, VotePrefix(claimId));
    DecodeReads(db, keys);
    forall k | k in keys
      ensures db[k].VoteValue? && HasVote(db, db[k].vote) && k == VoteKey(db[k].vote.claimId, db[k].vote.validatorId)
    {
      ScannedVote(db, claimId, k);
    }
    hide Consistent, ScanKeys, VotePrefix, VoteKey;
    vs := DecodeVotes(db, keys).value;
    forall i | 0 <= i < |keys| ensures HasVote(db, vs[i]) && keys[i] == VoteKey(vs[i].claimId, vs[i].validatorId) {
      assert keys[i] in keys;
    }
    forall v | HasVote(db, v) && VotePrefix(claimId) <= VoteKey(v.claimId, v.validatorId) ensures v in vs {
      var i :| 0 <= i < |keys| && keys[i] == VoteKey(v.claimId, v.validatorId);
      assert vs[i] == v;
    }
  }

  /** The primary keys of a claim's votes are scanned directly. This never fails, and is
      exact exactly when no vote of another claim is stored inside the scanned range. */
  lemma ClaimLookupExact(db: Db, claimId: string)
    requires Consistent(db)
    ensures var r := VotesForClaim(db, claimId);
            r.Success? && (ListsClaim(db, claimId, r.value) <==> ClaimSeparated(db, claimId))
  {
    var vs := ClaimScan(db, claimId);
    if ClaimSeparated(db, claimId) {
      forall i, j | 0 <= i < j < |vs| ensures Less(vs[i].validatorId, vs[j].validatorId) {
        assert vs[i] in vs && vs[j] in vs;
        CommonPrefix(VotePrefix(claimId), vs[i].validatorId, vs[j].validatorId);
      }
    }
    hide Consistent, VotesForClaim, HasVote, VotePrefix;
  }

  lemma SlashFreeClaimsSeparate(db: Db, claimId: string, v: VoteRecord)
    requires '/' !in claimId && '/' !in v.claimId
    requires VotePrefix(claimId) <= VoteKey(v.claimId, v.validatorId)
    ensures v.claimId == claimId
  {
    HeadOfPrefix(PREFIX_VOTE, claimId, v.claimId, v.validatorId);
  }

  // ----- lookups after a history of operations -----

  /** If no committed write stored a domain with a slash, then whatever else happened to a
      store that was empty once, a lookup by a slash-free domain returns exactly the records
      that committed writes stored under it. */
  lemma DomainHistoryExact(ops: seq<Op>, others: seq<Op>, domain: string)
    requires '/' !in Normalize(domain)
    requires forall op | op in Committed(map[], ops) && op.WriteValidationRecord? ::
               '/' !in Normalize(op.validation.domain)
    ensures var db := ExecAll(map[], ops);
            var r := ValidationsByDomain(db, ExecAll(db, others), domain);
            && r.Success?
            && Lists(db, InDomain(Normalize(domain)), r.value)
            && forall x :: x in r.value <==>
                 x.domain == Normalize(domain) && exists op | op in Committed(map[], ops) :: WroteValidation(op, x)
  {
    hide Normalize, Consistent, ValidationsByDomain, DomainSeparated, ExecAll, Committed, HasValidation, Keeps;
    var db := ExecAll(map[], ops);
    HistoryKeepsInvariant(map[], ops) by { EmptyIsConsistent(); }
    forall r ensures HasValidation(db, r) <==> exists op | op in Committed(map[], ops) :: WroteValidation(op, r) {
      CommittedValidations(ops, r);
    }
    SlashFreeDomainsSeparate(db, Normalize(domain));
    DomainLookupExact(db, others, domain);
  }

  /** A lookup by epoch returns exactly what committed writes stored with that epoch, without
      any condition. */
  lemma EpochHistoryExact(ops: seq<Op>, others: seq<Op>, epoch: Uint64)
    ensures var db := ExecAll(map[], ops);
            var r := ValidationsByEpoch(db, ExecAll(db, others), epoch);
            && r.Success?
            && Lists(db, InEpoch(epoch), r.value)
            && forall x :: x in r.value <==>
                 exists op | op in Committed(map[], ops) :: WroteValidation(op, x) && op.validation.epoch == epoch
  {
    hide Normalize, Consistent, ValidationsByEpoch, ExecAll, Committed, HasValidation, Keeps;
    var db := ExecAll(map[], ops);
    HistoryKeepsInvariant(map[], ops) by { EmptyIsConsistent(); }
    forall r ensures HasValidation(db, r) <==> exists op | op in Committed(map[], ops) :: WroteValidation(op, r) {
      CommittedValidations(ops, r);
    }
    EpochLookupExact(db, others, epoch);
  }

  lemma EmptyIsConsistent()
    ensures Consistent(map[])
  {
  }

  lemma CommittedValidations(ops: seq<Op>, r: ValidationRecord)
    ensures HasValidation(ExecAll(map[], ops), r) <==>
            exists op | op in Committed(map[], ops) :: WroteValidation(op, r)
  {
    RecordsAreCommittedWrites(map[], ops, r, VoteRecord("", "", Supported, 0.0, 0.0, 0.0, 0, 0, 0));
  }

  lemma CommittedVotes(ops: seq<Op>, v: VoteRecord)
    ensures HasVote(ExecAll(map[], ops), v) <==> WriteVote(v) in Committed(map[], ops)
  {
    RecordsAreCommittedWrites(map[], ops, ValidationRecord("", "", Supported, 0.0, 0.0, 0, 0, "", 0), v);
    hide VoteKey;
  }

  /** The same for the votes of a validator. */
  lemma ValidatorHistoryExact(ops: seq<Op>, others: seq<Op>, validatorId: string)
    requires '/' !in validatorId
    requires forall op | op in Committed(map[], ops) && op.WriteVote? :: '/' !in op.vote.validatorId
    ensures var db := ExecAll(map[], ops);
            var r := VotesByValidator(db, ExecAll(db, others), validatorId);
            && r.Success?
            && ListsValidator(db, validatorId, r.value)
            && forall v :: v in r.value <==> v.validatorId == validatorId && WriteVote(v) in Committed(map[], ops)
  {
    hide Consistent, VotesByValidator, ValidatorSeparated, ExecAll, Committed, HasVote, Keeps;
    var db := ExecAll(map[], ops);
    HistoryKeepsInvariant(map[], ops) by { EmptyIsConsistent(); }
    forall v ensures HasVote(db, v) <==> WriteVote(v) in Committed(map[], ops) {
      CommittedVotes(ops, v);
    }
    SlashFreeValidatorsSeparate(db, validatorId);
    ValidatorLookupExact(db, others, validatorId);
  }

  /** And for the votes on a claim. */
  lemma ClaimHistoryExact(ops: seq<Op>, claimId: string)
    requires '/' !in claimId
    requires forall op | op in Committed(map[], ops) && op.WriteVote? :: '/' !in op.vote.claimId
    ensures var r := VotesForClaim(ExecAll(map[], ops), claimId);
            && r.Success?
            && ListsClaim(ExecAll(map[], ops), claimId, r.value)
            && forall v :: v in r.value <==> v.claimId == claimId && WriteVote(v) in Committed(map[], ops)
  {
    hide Consistent, VotesForClaim, ExecAll, Committed, HasVote, Keeps, VotePrefix, VoteKey;
    var db := ExecAll(map[], ops);
    HistoryKeepsInvariant(map[], ops) by { EmptyIsConsistent(); }
    forall v ensures HasVote(db, v) <==> WriteVote(v) in Committed(map[], ops) {
      CommittedVotes(ops, v);
    }
    forall v | HasVote(db, v) && VotePrefix(claimId) <= VoteKey(v.claimId, v.validatorId) ensures v.claimId == claimId {
      SlashFreeClaimsSeparate(db, claimId, v);
    }
    ClaimLookupExact(db, claimId);
  }

  // ----- write-once -----

  /** A validation that was accepted is read back, normalised but otherwise as written,
      after any later history, and a second write for its claim is refused. */
  lemma ValidationIsPermanent(db: Db, r: ValidationRecord, later: seq<Op>, again: ValidationRecord)
    requires Consistent(db) && ErrorOf(db, WriteValidationRecord(r)).None?
    requires again.claimId == r.claimId
    ensures var db' := ExecAll(Exec(db, WriteValidationRecord(r)), later);
            && ReadValidation(db', r.claimId) == Success(r.(domain := Normalize(r.domain)))
            && ErrorOf(db', WriteValidationRecord(again)).Some?
            && Exec(db', WriteValidationRecord(again)) == db'
  {
    var written := Exec(db, WriteValidationRecord(r));
    ExecKeepsInvariant(db, WriteValidationRecord(r));
    HistoryKeepsInvariant(written, later);
    PutHasValidation(db, Stored(r));
    StaysReadable(written, ExecAll(written, later), r.claimId);
    hide Consistent, Keeps, PutValidation, ValidValidationRecord;
  }

  lemma PutHasValidation(db: Db, s: ValidationRecord)
    ensures HasValidation(PutValidation(db, s), s)
  {
    KeyKinds(s.claimId, s.domain, s.epoch);
    hide ValidationKey, IdxDomainKey, IdxEpochKey;
  }

  lemma PutHasVote(db: Db, v: VoteRecord)
    ensures HasVote(PutVote(db, v), v)
  {
    KeyKinds(v.claimId, v.validatorId, v.epoch);
    hide VoteKey, IdxVoteByValidatorKey;
  }

  /** The same for votes. With slash-free claim IDs, a vote is refused as a duplicate only if a
      vote of the same pair is stored. */
  lemma VoteIsPermanent(db: Db, v: VoteRecord, later: seq<Op>, again: VoteRecord)
    requires Consistent(db) && ErrorOf(db, WriteVote(v)).None? && ValidVoteRecord(again)
    ensures var db' := ExecAll(Exec(db, WriteVote(v)), later);
            && ReadVote(db', v.claimId, v.validatorId) == Success(v)
            && (again.claimId == v.claimId && again.validatorId == v.validatorId ==>
                 ErrorOf(db', WriteVote(again)) == Some(AlreadyExists))
            && (ErrorOf(db', WriteVote(again)) == Some(AlreadyExists) && '/' !in again.claimId
                && (forall w | HasVote(db', w) :: '/' !in w.claimId) ==>
                 exists w :: HasVote(db', w) && w.claimId == again.claimId && w.validatorId == again.validatorId)
  {
    var written := Exec(db, WriteVote(v));
    var db' := ExecAll(written, later);
    PutHasVote(db, v);
    hide Consistent, Keeps, PutVote, HasVote, ValidVoteRecord, VoteKey;
    ExecKeepsInvariant(db, WriteVote(v));
    HistoryKeepsInvariant(written, later);
    VoteReadsBack(written, db', v);
    if VoteKey(again.claimId, again.validatorId) in db' && '/' !in again.claimId
       && (forall w | HasVote(db', w) :: '/' !in w.claimId)
    {
      var w := VoteOfKey(db', again);
    }
  }

  lemma VoteReadsBack(db: Db, db': Db, v: VoteRecord)
    requires HasVote(db, v) && Keeps(db, db')
    ensures ReadVote(db', v.claimId, v.validatorId) == Success(v)
    ensures VoteKey(v.claimId, v.validatorId) in db'
  {
    hide VoteKey, Keeps;
    VoteStaysReadable(db, db', v.claimId, v.validatorId);
  }

  /** The vote stored under the key of another vote is of the same pair, without slashes. */
  lemma VoteOfKey(db: Db, again: VoteRecord) returns (w: VoteRecord)
    requires Consistent(db) && VoteKey(again.claimId, again.validatorId) in db
    requires '/' !in again.claimId && forall w | HasVote(db, w) :: '/' !in w.claimId
    ensures HasVote(db, w) && w.claimId == again.claimId && w.validatorId == again.validatorId
  {
    var k := VoteKey(again.claimId, again.validatorId);
    KeyKinds(again.claimId, again.validatorId, 0);
    hide VoteKey;
    assert EntryOk(db, k);
    w := db[k].vote;
    assert HasVote(db, w);
    CompositeKeysInjective(again.claimId, again.validatorId, w.claimId, w.validatorId);
  }

  /** This pair of claim and validator has a stored vote. */
  ghost predicate HasVoted(db: Db, claimId: string, validatorId: string) {
    exists w :: HasVote(db, w) && w.claimId == claimId && w.validatorId == validatorId
  }

  /** Some stored vote, of this pair or another, has the key of this vote. */
  ghost predicate KeyTaken(db: Db, v: VoteRecord) {
    exists w :: HasVote(db, w) && VoteKey(w.claimId, w.validatorId) == VoteKey(v.claimId, v.validatorId)
  }

  /** Every stored vote under the key of this vote is of the same pair. */
  ghost predicate KeyIsOwn(db: Db, v: VoteRecord) {
    forall w | HasVote(db, w) && VoteKey(w.claimId, w.validatorId) == VoteKey(v.claimId, v.validatorId) ::
      w.claimId == v.claimId && w.validatorId == v.validatorId
  }

  /** A valid vote is refused as a duplicate exactly when its composite key is taken, so
      "write-once per pair" holds for it exactly when that key is not taken by another pair. */
  lemma VoteRefusedExactly(db: Db, v: VoteRecord)
    requires Consistent(db) && ValidVoteRecord(v)
    ensures var refused := ErrorOf(db, WriteVote(v)) == Some(AlreadyExists);
            && (refused <==> KeyTaken(db, v))
            && ((refused <==> HasVoted(db, v.claimId, v.validatorId)) <==> KeyIsOwn(db, v))
  {
    if VoteKey(v.claimId, v.validatorId) in db {
      var w := StoredUnder(db, v);
    }
    hide VoteKey, Consistent, ValidVoteRecord;
  }

  lemma StoredUnder(db: Db, v: VoteRecord) returns (w: VoteRecord)
    requires Consistent(db) && VoteKey(v.claimId, v.validatorId) in db
    ensures HasVote(db, w) && VoteKey(w.claimId, w.validatorId) == VoteKey(v.claimId, v.validatorId)
  {
    var k := VoteKey(v.claimId, v.validatorId);
    KeyKinds(v.claimId, v.validatorId, 0);
    hide VoteKey;
    assert EntryOk(db, k);
    w := db[k].vote;
  }

  /** The promise fails on a store with one vote in it: another pair's first vote is refused,
      and reading that pair returns the vote that took its key. */
  lemma SlashClaimBlocksVote(v: VoteRecord, other: VoteRecord)
    requires ValidVoteRecord(v) && v.claimId == "a/b" && v.validatorId == "c"
    requires ValidVoteRecord(other) && other.claimId == "a" && other.validatorId == "b/c"
    ensures var db := Exec(map[], WriteVote(v));
            && Consistent(db) && HasVote(db, v)
            && !HasVoted(db, "a", "b/c")
            && ErrorOf(db, WriteVote(other)) == Some(AlreadyExists)
            && ReadVote(db, "a", "b/c") == Success(v)
  {
    hide Consistent, ValidVoteRecord, IdxVoteByValidatorKey, VoteKey;
    ExecKeepsInvariant(map[], WriteVote(v));
    PutHasVote(map[], v);
    SlashesShareKeys();
  }

  /** Claims and validator records are not permanent: a delete undoes a first write and
      leaves nothing behind, and its key can be written again. */
  lemma DeleteUndoesWrite(db: Db, c: Claim, r: ValidatorRecord)
    ensures var w := WriteClaim(c);
            ErrorOf(db, w).None? ==>
              && ReadClaim(Exec(db, w), c.claimId) == Success(c)
              && Exec(Exec(db, w), w) == Exec(db, w)
              && Exec(Exec(db, w), DeleteClaim(c.claimId)) == db
    ensures ReadClaim(Exec(db, DeleteClaim(c.claimId)), c.claimId) == Failure(ClaimNotFound)
    ensures ErrorOf(Exec(db, DeleteClaim(c.claimId)), WriteClaim(c)).None?
    ensures ReadValidator(Exec(db, WriteValidatorRecord(r)), r.validatorId) == Success(r)
    ensures ValidatorKey(r.validatorId) !in db ==>
              Exec(Exec(db, WriteValidatorRecord(r)), DeleteValidatorRecord(r.validatorId)) == db
    ensures ReadValidator(Exec(db, DeleteValidatorRecord(r.validatorId)), r.validatorId) == Failure(ValidatorNotFound)
  {
    hide ClaimKey, ValidatorKey;
    var k, n := ClaimKey(c.claimId), ValidatorKey(r.validatorId);
    assert k !in db ==> db[k := ClaimValue(c)] - {k} == db;
    assert n !in db ==> db[n := ValidatorValue(r)] - {n} == db;
  }

  /** A domain with a slash in it makes lookups of the part before the slash fail. */
  lemma SlashDomainBreaksLookup(r: ValidationRecord)
    requires ValidValidationRecord(r) && r.domain == "a/b" && r.claimId == "c"
    ensures var db := Exec(map[], WriteValidationRecord(r));
            Consistent(db) && ValidationsByDomain(db, db, "a") == Failure(ValidationNotFound)
  {
    hide Normalize, Consistent, PutValidation, ScanIds, FetchValidations, ValidValidationRecord;
    LiteralsAreNormal();
    ExecKeepsInvariant(map[], WriteValidationRecord(r));
    assert Stored(r) == r;
    NotFoundByDomain(r, Exec(map[], WriteValidationRecord(r)));
  }

  lemma LiteralsAreNormal()
    ensures Normalize("a/b") == "a/b" && Normalize("a") == "a"
  {
  }

  lemma NotFoundByDomain(r: ValidationRecord, db: Db)
    requires Consistent(db) && db == PutValidation(map[], r) && r.domain == "a/b" && r.claimId == "c"
    ensures FetchValidations(db, ScanIds(db, DomainPrefix("a"))) == Failure(ValidationNotFound)
  {
    OnlyRecord(r);
    hide ScanIds, ReadValidation, PutValidation, Consistent, DomainPrefix, FetchValidations;
    var ids := ScanIds(db, DomainPrefix("a"));
    ScannedSlash(db, ids);
    FetchReads(db, ids);
    FetchFails(db, ids);
  }

  lemma ScannedSlash(db: Db, ids: seq<string>)
    requires ids == ScanIds(db, DomainPrefix("a")) && DomainPrefix("a") + "b/c" in db
    ensures "b/c" in ids
  {
    hide ScanIds, DomainPrefix;
    ScanIdsAre(db, DomainPrefix("a"), ids);
  }

  lemma OnlyRecord(r: ValidationRecord)
    requires r.domain == "a/b" && r.claimId == "c"
    ensures DomainPrefix("a") + "b/c" in PutValidation(map[], r)
    ensures ReadValidation(PutValidation(map[], r), "b/c").Failure?
  {
    KeyKinds("b/c", "a/b", r.epoch);
    KeyKinds("c", "a/b", r.epoch);
    assert DomainPrefix("a") + "b/c" == IdxDomainKey("a/b", "c");
    assert ValidationKey("b/c")[|PREFIX_VALIDATION|] != ValidationKey("c")[|PREFIX_VALIDATION|];
    hide IdxEpochKey;
  }

  lemma {:induction false} FetchFails(db: Db, ids: seq<string>)
    requires Consistent(db)
    ensures FetchValidations(db, ids).Failure? ==> FetchValidations(db, ids).error == ValidationNotFound
  {
    if ids != [] {
      FetchFails(db, ids[..|ids| - 1]);
      var k := ValidationKey(ids[|ids| - 1]);
      assert k in db ==> EntryOk(db, k);
    }
  }
}
