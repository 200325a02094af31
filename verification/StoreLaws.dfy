/** What every history of transactions keeps, and when lookups by index agree with a plain
    filter over the records. */
module StoreLaws {
  import opened StoreKeys
  import opened StoreModel
  import opened Text
  import opened Verdicts
  import opened Wrappers

  // ----- the invariant -----

  ghost predicate HasValidation(db: Db, r: ValidationRecord) {
    ValidationKey(r.claimId) in db && db[ValidationKey(r.claimId)] == ValidationValue(r)
  }

  ghost predicate HasVote(db: Db, v: VoteRecord) {
    VoteKey(v.claimId, v.validatorId) in db && db[VoteKey(v.claimId, v.validatorId)] == VoteValue(v)
  }

  ghost predicate ValidationOk(db: Db, k: string)
    requires k in db
  {
    && db[k].ValidationValue?
    && var r := db[k].validation;
       && k == ValidationKey(r.claimId)
       && ValidValidationRecord(r) && Normalize(r.domain) == r.domain
       && IdxDomainKey(r.domain, r.claimId) in db
       && IdxEpochKey(r.epoch, r.claimId) in db
  }

  ghost predicate VoteOk(db: Db, k: string)
    requires k in db
  {
    && db[k].VoteValue?
    && var v := db[k].vote;
       && k == VoteKey(v.claimId, v.validatorId)
       && ValidVoteRecord(v)
       && IdxVoteByValidatorKey(v.validatorId, v.claimId) in db
  }

  ghost predicate DomainEntryOk(db: Db, k: string) {
    exists r :: HasValidation(db, r) && k == IdxDomainKey(r.domain, r.claimId)
  }

  ghost predicate EpochEntryOk(db: Db, k: string) {
    exists r :: HasValidation(db, r) && k == IdxEpochKey(r.epoch, r.claimId)
  }

  ghost predicate ValidatorEntryOk(db: Db, k: string) {
    exists v :: HasVote(db, v) && k == IdxVoteByValidatorKey(v.validatorId, v.claimId)
  }

  ghost predicate EntryOk(db: Db, k: string)
    requires k in db
  {
    && (PREFIX_VALIDATION <= k ==> ValidationOk(db, k))
    && (PREFIX_VOTE <= k ==> VoteOk(db, k))
    && (PREFIX_IDX_DOMAIN <= k ==> db[k] == Empty && DomainEntryOk(db, k))
    && (PREFIX_IDX_EPOCH <= k ==> db[k] == Empty && EpochEntryOk(db, k))
    && (PREFIX_IDX_VOTE_BY_VALIDATOR <= k ==> db[k] == Empty && ValidatorEntryOk(db, k))
  }

  /** Records sit under their own key, every record has its index entries, and every index
      entry has its record. */
  ghost predicate Consistent(db: Db) {
    forall k | k in db :: EntryOk(db, k)
  }

  /** Keys that are written once and never deleted. */
  predicate Permanent(k: string) {
    || PREFIX_VALIDATION <= k
    || PREFIX_VOTE <= k
    || PREFIX_IDX_DOMAIN <= k
    || PREFIX_IDX_EPOCH <= k
    || PREFIX_IDX_VOTE_BY_VALIDATOR <= k
  }

  /** Everything written once is still there, unchanged. */
  ghost predicate Keeps(db: Db, db': Db) {
    forall k | k in db && Permanent(k) :: k in db' && db'[k] == db[k]
  }

  // ----- namespaces of the keys that operations touch -----

  lemma ClaimsAndValidatorsNotPermanent(id: string)
    ensures !Permanent(ClaimKey(id)) && !Permanent(ValidatorKey(id))
  {
    Namespaces(ClaimKey(id));
    Namespaces(ValidatorKey(id));
    assert PREFIXES[0] <= ClaimKey(id) && PREFIXES[1] <= ValidatorKey(id);
  }

  lemma Namespaces(k: string)
    ensures forall i, j | 0 <= i < j < 7 :: !(PREFIXES[i] <= k && PREFIXES[j] <= k)
    ensures PREFIXES[2] == PREFIX_VALIDATION && PREFIXES[3] == PREFIX_VOTE && PREFIXES[4] == PREFIX_IDX_DOMAIN
    ensures PREFIXES[5] == PREFIX_IDX_EPOCH && PREFIXES[6] == PREFIX_IDX_VOTE_BY_VALIDATOR
  {
    forall i, j | 0 <= i < j < 7 ensures !(PREFIXES[i] <= k && PREFIXES[j] <= k) {
      NamespacesDisjoint(k, i, j);
    }
  }

  /** The five permanent namespaces, one at a time. */
  lemma KeyKinds(claimId: string, other: string, epoch: Uint64)
    ensures var k := ValidationKey(claimId);
            PREFIX_VALIDATION <= k && !(PREFIX_VOTE <= k) && !(PREFIX_IDX_DOMAIN <= k)
            && !(PREFIX_IDX_EPOCH <= k) && !(PREFIX_IDX_VOTE_BY_VALIDATOR <= k)
    ensures var k := VoteKey(claimId, other);
            PREFIX_VOTE <= k && !(PREFIX_VALIDATION <= k) && !(PREFIX_IDX_DOMAIN <= k)
            && !(PREFIX_IDX_EPOCH <= k) && !(PREFIX_IDX_VOTE_BY_VALIDATOR <= k)
    ensures var k := IdxDomainKey(other, claimId);
            PREFIX_IDX_DOMAIN <= k && !(PREFIX_VALIDATION <= k) && !(PREFIX_VOTE <= k)
            && !(PREFIX_IDX_EPOCH <= k) && !(PREFIX_IDX_VOTE_BY_VALIDATOR <= k)
    ensures var k := IdxEpochKey(epoch, claimId);
            PREFIX_IDX_EPOCH <= k && !(PREFIX_VALIDATION <= k) && !(PREFIX_VOTE <= k)
            && !(PREFIX_IDX_DOMAIN <= k) && !(PREFIX_IDX_VOTE_BY_VALIDATOR <= k)
    ensures var k := IdxVoteByValidatorKey(other, claimId);
            PREFIX_IDX_VOTE_BY_VALIDATOR <= k && !(PREFIX_VALIDATION <= k) && !(PREFIX_VOTE <= k)
            && !(PREFIX_IDX_DOMAIN <= k) && !(PREFIX_IDX_EPOCH <= k)
  {
    hide Hex;
    Namespaces(ValidationKey(claimId));
    Namespaces(VoteKey(claimId, other));
    Namespaces(IdxDomainKey(other, claimId));
    Namespaces(IdxEpochKey(epoch, claimId));
    Namespaces(IdxVoteByValidatorKey(other, claimId));
  }

  // ----- every transaction keeps the invariant -----

  lemma EntrySurvives(db: Db, db': Db, k: string)
    requires k in db && EntryOk(db, k) && Keeps(db, db') && Permanent(k)
    ensures k in db' && EntryOk(db', k)
  {
    if PREFIX_IDX_DOMAIN <= k {
      var r :| HasValidation(db, r) && k == IdxDomainKey(r.domain, r.claimId);
      KeyKinds(r.claimId, r.domain, r.epoch);
      assert HasValidation(db', r);
    }
    if PREFIX_IDX_EPOCH <= k {
      var r :| HasValidation(db, r) && k == IdxEpochKey(r.epoch, r.claimId);
      KeyKinds(r.claimId, r.domain, r.epoch);
      assert HasValidation(db', r);
    }
    if PREFIX_IDX_VOTE_BY_VALIDATOR <= k {
      var v :| HasVote(db, v) && k == IdxVoteByValidatorKey(v.validatorId, v.claimId);
      KeyKinds(v.claimId, v.validatorId, v.epoch);
      assert HasVote(db', v);
    }
    if PREFIX_VALIDATION <= k {
      var r := db[k].validation;
      KeyKinds(r.claimId, r.domain, r.epoch);
    }
    if PREFIX_VOTE <= k {
      var v := db[k].vote;
      KeyKinds(v.claimId, v.validatorId, v.epoch);
    }
    hide ValidationKey, VoteKey, IdxDomainKey, IdxEpochKey, IdxVoteByValidatorKey, ValidValidationRecord,
      ValidVoteRecord, Normalize;
  }

  lemma ConsistentAfter(db: Db, db': Db, written: set<string>)
    requires Consistent(db) && Keeps(db, db')
    requires forall k | k in db' && k !in written && Permanent(k) :: k in db
    requires forall k | k in written :: k in db' && EntryOk(db', k)
    ensures Consistent(db')
  {
    forall k | k in db' ensures EntryOk(db', k) {
      if k !in written && Permanent(k) {
        EntrySurvives(db, db', k);
      }
    }
  }

  /** The three keys a validation is written under, each in its own namespace. */
  lemma PutValidationKeeps(db: Db, s: ValidationRecord)
    requires Consistent(db) && ValidationKey(s.claimId) !in db
    ensures Keeps(db, PutValidation(db, s))
  {
    var dk, ek := IdxDomainKey(s.domain, s.claimId), IdxEpochKey(s.epoch, s.claimId);
    KeyKinds(s.claimId, s.domain, s.epoch);
    hide ValidationKey, IdxDomainKey, IdxEpochKey;
    assert dk in db ==> EntryOk(db, dk);
    assert ek in db ==> EntryOk(db, ek);
    hide EntryOk;
  }

  lemma PutValidationEntries(db: Db, s: ValidationRecord)
    requires ValidValidationRecord(s) && Normalize(s.domain) == s.domain
    ensures var db' := PutValidation(db, s);
            && EntryOk(db', ValidationKey(s.claimId))
            && EntryOk(db', IdxDomainKey(s.domain, s.claimId))
            && EntryOk(db', IdxEpochKey(s.epoch, s.claimId))
  {
    KeyKinds(s.claimId, s.domain, s.epoch);
    hide ValidationKey, IdxDomainKey, IdxEpochKey, Normalize, ValidValidationRecord;
    assert HasValidation(PutValidation(db, s), s);
  }

  lemma WriteValidationStep(db: Db, r: ValidationRecord)
    requires Consistent(db) && ErrorOf(db, WriteValidationRecord(r)).None?
    ensures Consistent(Exec(db, WriteValidationRecord(r))) && Keeps(db, Exec(db, WriteValidationRecord(r)))
  {
    hide Stored, PutValidation, Consistent, Keeps, ValidValidationRecord, ValidationKey, Normalize;
    StoredIsValid(r);
    PutValidationStep(db, Stored(r));
  }

  lemma StoredIsValid(r: ValidationRecord)
    requires ValidValidationRecord(r)
    ensures var s := Stored(r);
            ValidValidationRecord(s) && Normalize(s.domain) == s.domain && s.claimId == r.claimId
  {
    NormalizeIsIdempotent(r.domain);
    hide Normalize, TrimSpace;
  }

  lemma PutValidationStep(db: Db, s: ValidationRecord)
    requires Consistent(db) && ValidationKey(s.claimId) !in db
    requires ValidValidationRecord(s) && Normalize(s.domain) == s.domain
    ensures Consistent(PutValidation(db, s)) && Keeps(db, PutValidation(db, s))
  {
    PutValidationKeeps(db, s);
    PutValidationEntries(db, s);
    hide EntryOk, Permanent, ValidationKey, IdxDomainKey, IdxEpochKey, Normalize, ValidValidationRecord, Consistent,
      Keeps;
    ConsistentAfter(db, PutValidation(db, s),
      {ValidationKey(s.claimId), IdxDomainKey(s.domain, s.claimId), IdxEpochKey(s.epoch, s.claimId)});
  }

  lemma PutVoteKeeps(db: Db, v: VoteRecord)
    requires Consistent(db) && VoteKey(v.claimId, v.validatorId) !in db
    ensures Keeps(db, PutVote(db, v))
  {
    var ik := IdxVoteByValidatorKey(v.validatorId, v.claimId);
    KeyKinds(v.claimId, v.validatorId, v.epoch);
    hide VoteKey, IdxVoteByValidatorKey;
    assert ik in db ==> EntryOk(db, ik);
    hide EntryOk;
  }

  lemma PutVoteEntries(db: Db, v: VoteRecord)
    requires ValidVoteRecord(v)
    ensures var db' := PutVote(db, v);
            && EntryOk(db', VoteKey(v.claimId, v.validatorId))
            && EntryOk(db', IdxVoteByValidatorKey(v.validatorId, v.claimId))
  {
    KeyKinds(v.claimId, v.validatorId, v.epoch);
    hide VoteKey, IdxVoteByValidatorKey, ValidVoteRecord;
    assert HasVote(PutVote(db, v), v);
  }

  lemma WriteVoteStep(db: Db, v: VoteRecord)
    requires Consistent(db) && ErrorOf(db, WriteVote(v)).None?
    ensures Consistent(Exec(db, WriteVote(v))) && Keeps(db, Exec(db, WriteVote(v)))
  {
    hide EntryOk, Permanent, VoteKey, IdxVoteByValidatorKey, ValidVoteRecord, Consistent, Keeps;
    PutVoteKeeps(db, v);
    PutVoteEntries(db, v);
    ConsistentAfter(db, PutVote(db, v),
      {VoteKey(v.claimId, v.validatorId), IdxVoteByValidatorKey(v.validatorId, v.claimId)});
  }

  /** Every transaction, refused or committed, keeps the invariant and everything that is
      written once; deletes reach claims and validator records only. */
  lemma ExecKeepsInvariant(db: Db, op: Op)
    requires Consistent(db)
    ensures Consistent(Exec(db, op)) && Keeps(db, Exec(db, op))
  {
    if ErrorOf(db, op).None? {
      match op {
        case WriteClaim(c) =>
          ClaimsAndValidatorsNotPermanent(c.claimId);
          ConsistentAfter(db, Exec(db, op), {ClaimKey(c.claimId)});
        case DeleteClaim(id) =>
          ClaimsAndValidatorsNotPermanent(id);
          ConsistentAfter(db, Exec(db, op), {});
        case WriteValidatorRecord(r) =>
          ClaimsAndValidatorsNotPermanent(r.validatorId);
          ConsistentAfter(db, Exec(db, op), {ValidatorKey(r.validatorId)});
        case DeleteValidatorRecord(id) =>
          ClaimsAndValidatorsNotPermanent(id);
          ConsistentAfter(db, Exec(db, op), {});
        case WriteValidationRecord(r) =>
          WriteValidationStep(db, r);
        case WriteVote(v) =>
          WriteVoteStep(db, v);
      }
    }
  }

  // ----- the records are those of the committed writes -----

  /** The transactions of a history that committed, in order. */
  function Committed(db: Db, ops: seq<Op>): seq<Op> {
    if ops == [] then
      []
    else
      var m := |ops| - 1;
      Committed(db, ops[..m]) + if ErrorOf(ExecAll(db, ops[..m]), ops[m]).None? then [ops[m]] else []
  }

  ghost predicate WroteValidation(op: Op, r: ValidationRecord) {
    op.WriteValidationRecord? && op.validation.(domain := Normalize(op.validation.domain)) == r
  }

  lemma SamePermanentRecords(db: Db, db': Db, r: ValidationRecord, v: VoteRecord)
    requires forall k | Permanent(k) :: (k in db <==> k in db') && (k in db ==> db'[k] == db[k])
    ensures HasValidation(db', r) <==> HasValidation(db, r)
    ensures HasVote(db', v) <==> HasVote(db, v)
  {
    assert Permanent(ValidationKey(r.claimId)) && Permanent(VoteKey(v.claimId, v.validatorId));
  }

  lemma PutValidationRecords(db: Db, s: ValidationRecord, r: ValidationRecord, v: VoteRecord)
    requires ValidationKey(s.claimId) !in db
    ensures HasValidation(PutValidation(db, s), r) <==> HasValidation(db, r) || r == s
    ensures HasVote(PutValidation(db, s), v) <==> HasVote(db, v)
  {
    hide ValidationKey, IdxDomainKey, IdxEpochKey, VoteKey;
    KeyKinds(s.claimId, s.domain, s.epoch);
    KeyKinds(r.claimId, r.domain, r.epoch);
    KeyKinds(v.claimId, v.validatorId, 0);
    assert ValidationKey(r.claimId) !in {IdxDomainKey(s.domain, s.claimId), IdxEpochKey(s.epoch, s.claimId)};
    assert VoteKey(v.claimId, v.validatorId)
      !in {ValidationKey(s.claimId), IdxDomainKey(s.domain, s.claimId), IdxEpochKey(s.epoch, s.claimId)};
  }

  lemma PutVoteRecords(db: Db, s: VoteRecord, r: ValidationRecord, v: VoteRecord)
    requires VoteKey(s.claimId, s.validatorId) !in db
    ensures HasValidation(PutVote(db, s), r) <==> HasValidation(db, r)
    ensures HasVote(PutVote(db, s), v) <==> HasVote(db, v) || v == s
  {
    KeyKinds(s.claimId, s.validatorId, s.epoch);
    KeyKinds(v.claimId, v.validatorId, v.epoch);
    KeyKinds(r.claimId, r.domain, r.epoch);
    hide VoteKey, IdxVoteByValidatorKey, ValidationKey;
  }

  lemma ExecRecords(db: Db, op: Op, r: ValidationRecord, v: VoteRecord)
    requires ErrorOf(db, op).None?
    ensures HasValidation(Exec(db, op), r) <==> HasValidation(db, r) || WroteValidation(op, r)
    ensures HasVote(Exec(db, op), v) <==> HasVote(db, v) || op == WriteVote(v)
  {
    match op {
      case WriteValidationRecord(x) =>
        PutValidationRecords(db, Stored(x), r, v);
        hide PutValidation, HasValidation, HasVote, ValidValidationRecord;
      case WriteVote(x) =>
        PutVoteRecords(db, x, r, v);
        hide PutVote, HasValidation, HasVote, ValidVoteRecord;
      case WriteClaim(c) =>
        ClaimsAndValidatorsNotPermanent(c.claimId);
        SamePermanentRecords(db, Exec(db, op), r, v);
      case DeleteClaim(id) =>
        ClaimsAndValidatorsNotPermanent(id);
        SamePermanentRecords(db, Exec(db, op), r, v);
      case WriteValidatorRecord(x) =>
        ClaimsAndValidatorsNotPermanent(x.validatorId);
        SamePermanentRecords(db, Exec(db, op), r, v);
      case DeleteValidatorRecord(id) =>
        ClaimsAndValidatorsNotPermanent(id);
        SamePermanentRecords(db, Exec(db, op), r, v);
    }
  }

  /** After every history, the records in the store are those it held before and those of the
      committed writes. */
  lemma {:induction false} RecordsAreCommittedWrites(db: Db, ops: seq<Op>, r: ValidationRecord, v: VoteRecord)
    ensures HasValidation(ExecAll(db, ops), r) <==>
            HasValidation(db, r) || exists op | op in Committed(db, ops) :: WroteValidation(op, r)
    ensures HasVote(ExecAll(db, ops), v) <==> HasVote(db, v) || WriteVote(v) in Committed(db, ops)
  {
    hide HasValidation, HasVote, Exec, ErrorOf, WroteValidation;
    if ops != [] {
      var m := |ops| - 1;
      var before := ExecAll(db, ops[..m]);
      RecordsAreCommittedWrites(db, ops[..m], r, v);
      assert forall op :: op in Committed(db, ops) <==>
        op in Committed(db, ops[..m]) || (op == ops[m] && ErrorOf(before, ops[m]).None?);
      if ErrorOf(before, ops[m]).None? {
        ExecRecords(before, ops[m], r, v);
      } else {
        RefusedChangesNothing(before, ops[m]);
      }
    }
  }

  lemma RefusedChangesNothing(db: Db, op: Op)
    requires ErrorOf(db, op).Some?
    ensures Exec(db, op) == db
  {
  }

  lemma {:induction false} HistoryKeepsInvariant(db: Db, ops: seq<Op>)
    requires Consistent(db)
    ensures Consistent(ExecAll(db, ops)) && Keeps(db, ExecAll(db, ops))
  {
    if ops != [] {
      HistoryKeepsInvariant(db, ops[..|ops| - 1]);
      ExecKeepsInvariant(ExecAll(db, ops[..|ops| - 1]), ops[|ops| - 1]);
      hide Exec, Permanent;
    }
  }

  // ----- what is accepted -----

  /** Exactly when a validation is accepted: its fields are in range, its claim has none yet. */
  lemma ValidationAcceptedExactly(db: Db, r: ValidationRecord)
    requires Consistent(db)
    ensures ErrorOf(db, WriteValidationRecord(r)).None? <==>
            && !Blank(r.claimId) && !Blank(r.domain)
            && r.verdict in {Supported, Unsupported, Misleading, Indeterminate}
            && 0.0 <= r.confidenceScore <= 1.0 && 0.0 <= r.participationRate <= 1.0 && r.finalizedAt != 0
            && !exists x :: HasValidation(db, x) && x.claimId == r.claimId
    ensures ErrorOf(db, WriteValidationRecord(r)) == Some(AlreadyExists) ==>
              exists x :: HasValidation(db, x) && x.claimId == r.claimId
  {
    hide Blank, Consistent, ValidationKey;
    if ValidationKey(r.claimId) in db {
      var x := ValidationUnder(db, r.claimId);
    }
  }

  lemma ValidationUnder(db: Db, claimId: string) returns (x: ValidationRecord)
    requires Consistent(db) && ValidationKey(claimId) in db
    ensures HasValidation(db, x) && x.claimId == claimId
  {
    var k := ValidationKey(claimId);
    KeyKinds(claimId, "", 0);
    assert EntryOk(db, k);
    assert k[|PREFIX_VALIDATION|..] == claimId;
    x := db[k].validation;
    assert ValidationKey(x.claimId)[|PREFIX_VALIDATION|..] == x.claimId;
    hide EntryOk, Consistent;
  }

  /** Exactly when a vote is refused for its fields. */
  lemma VoteInvalidExactly(db: Db, v: VoteRecord)
    ensures ErrorOf(db, WriteVote(v)) == Some(InvalidRecord) <==>
            || Blank(v.claimId) || Blank(v.validatorId)
            || v.verdict !in {Supported, Unsupported, Misleading, Indeterminate}
            || v.confidence < 0.0 || v.confidence > 1.0
            || v.domainReputation < 0.0 || v.domainReputation > 1.0
            || v.biasCoefficient < 0.0 || v.biasCoefficient > 1.0
            || v.validatorSetSize <= 0
  {
    hide Blank, VoteKey;
  }
}
