/** What a read by ID returns after any history, whatever else was written: claims, validator
    records and validations are registers that do not see each other. */
module StoreRegisters {
  import opened Reputation
  import opened StoreKeys
  import opened StoreModel
  import opened Text
  import opened Wrappers

  // ----- the registers -----

  /** A claim stays as first written until it is deleted. */
  function ClaimAfter(ops: seq<Op>, id: string): (r: Result<Claim, StoreError>)
    ensures r.Failure? ==> r.error == ClaimNotFound
  {
    if ops == [] then
      Failure(ClaimNotFound)
    else
      var before := ClaimAfter(ops[..|ops| - 1], id);
      match ops[|ops| - 1]
      case WriteClaim(c) => if c.claimId == id && before.Failure? then Success(c) else before
      case DeleteClaim(gone) => if gone == id then Failure(ClaimNotFound) else before
      case _ => before
  }

  /** A validator record is as last written, unless it was deleted since. */
  function ValidatorAfter(ops: seq<Op>, id: string): (r: Result<ValidatorRecord, StoreError>)
    ensures r.Failure? ==> r.error == ValidatorNotFound
  {
    if ops == [] then
      Failure(ValidatorNotFound)
    else
      var before := ValidatorAfter(ops[..|ops| - 1], id);
      match ops[|ops| - 1]
      case WriteValidatorRecord(r) => if r.validatorId == id then Success(r) else before
      case DeleteValidatorRecord(gone) => if gone == id then Failure(ValidatorNotFound) else before
      case _ => before
  }

  /** A validation is the first valid one written, in its normalised domain, for ever. */
  function ValidationAfter(ops: seq<Op>, id: string): (r: Result<ValidationRecord, StoreError>)
    ensures r.Failure? ==> r.error == ValidationNotFound
  {
    if ops == [] then
      Failure(ValidationNotFound)
    else
      var before := ValidationAfter(ops[..|ops| - 1], id);
      match ops[|ops| - 1]
      case WriteValidationRecord(r) =>
        if r.claimId == id && before.Failure? && ValidValidationRecord(r) then
          Success(r.(domain := Normalize(r.domain)))
        else
          before
      case _ => before
  }

  // ----- the store implements them -----

  lemma ClaimKeyApart(id: string, x: string, y: string, epoch: Uint64)
    ensures ClaimKey(id) == ClaimKey(x) <==> id == x
    ensures ClaimKey(id) != ValidatorKey(x) && ClaimKey(id) != ValidationKey(x) && ClaimKey(id) != VoteKey(x, y)
    ensures ClaimKey(id) != IdxDomainKey(x, y) && ClaimKey(id) != IdxEpochKey(epoch, x)
    ensures ClaimKey(id) != IdxVoteByValidatorKey(x, y)
  {
    hide Hex;
    assert ClaimKey(id)[0] == 'c' && ClaimKey(id)[6..] == id && ClaimKey(x)[6..] == x;
    assert ValidatorKey(x)[0] == ValidationKey(x)[0] == VoteKey(x, y)[0] == 'v';
    assert IdxDomainKey(x, y)[0] == IdxEpochKey(epoch, x)[0] == IdxVoteByValidatorKey(x, y)[0] == 'i';
  }

  lemma ValidatorKeyApart(id: string, x: string, y: string, epoch: Uint64)
    ensures ValidatorKey(id) == ValidatorKey(x) <==> id == x
    ensures ValidatorKey(id) != ValidationKey(x) && ValidatorKey(id) != VoteKey(x, y)
    ensures ValidatorKey(id) != IdxDomainKey(x, y) && ValidatorKey(id) != IdxEpochKey(epoch, x)
    ensures ValidatorKey(id) != IdxVoteByValidatorKey(x, y)
  {
    hide Hex;
    assert ValidatorKey(id)[10..] == id && ValidatorKey(x)[10..] == x;
    assert ValidatorKey(id)[0] == 'v' && ValidatorKey(id)[1] == 'a' && ValidatorKey(id)[7] == 'o';
    assert ValidationKey(x)[7] == 'i' && VoteKey(x, y)[1] == 'o';
    assert IdxDomainKey(x, y)[0] == IdxEpochKey(epoch, x)[0] == IdxVoteByValidatorKey(x, y)[0] == 'i';
  }

  lemma ValidationKeyApart(id: string, x: string, y: string, epoch: Uint64)
    ensures ValidationKey(id) == ValidationKey(x) <==> id == x
    ensures ValidationKey(id) != VoteKey(x, y)
    ensures ValidationKey(id) != IdxDomainKey(x, y) && ValidationKey(id) != IdxEpochKey(epoch, x)
    ensures ValidationKey(id) != IdxVoteByValidatorKey(x, y)
  {
    hide Hex;
    assert ValidationKey(id)[11..] == id && ValidationKey(x)[11..] == x;
    assert ValidationKey(id)[0] == 'v' && ValidationKey(id)[1] == 'a' && VoteKey(x, y)[1] == 'o';
    assert IdxDomainKey(x, y)[0] == IdxEpochKey(epoch, x)[0] == IdxVoteByValidatorKey(x, y)[0] == 'i';
  }

  /** After any history a read by ID returns what the register of this ID holds. */
  lemma {:induction false} ReadsAreRegisters(ops: seq<Op>, id: string)
    ensures ReadClaim(ExecAll(map[], ops), id) == ClaimAfter(ops, id)
    ensures ReadValidator(ExecAll(map[], ops), id) == ValidatorAfter(ops, id)
    ensures ReadValidation(ExecAll(map[], ops), id) == ValidationAfter(ops, id)
  {
    hide Exec, ClaimKey, ValidatorKey, ValidationKey, ValidValidationRecord, Normalize;
    if ops != [] {
      var m := |ops| - 1;
      ReadsAreRegisters(ops[..m], id);
      var db := ExecAll(map[], ops[..m]);
      ReadClaimAfter(db, ops[m], id);
      ReadValidatorAfter(db, ops[m], id);
      ReadValidationAfter(db, ops[m], id);
    }
  }

  lemma ReadClaimAfter(db: Db, op: Op, id: string)
    ensures ReadClaim(Exec(db, op), id) ==
            if op.WriteClaim? && op.claim.claimId == id && ClaimKey(id) !in db then Success(op.claim)
            else if op.DeleteClaim? && op.claimId == id then Failure(ClaimNotFound)
            else ReadClaim(db, id)
  {
    hide ClaimKey, ValidatorKey, ValidationKey, VoteKey, IdxDomainKey, IdxEpochKey, IdxVoteByValidatorKey, Stored,
      ValidValidationRecord, ValidVoteRecord;
    match op {
      case WriteClaim(c) => ClaimKeyApart(id, c.claimId, "", 0);
      case DeleteClaim(gone) => ClaimKeyApart(id, gone, "", 0);
      case WriteValidatorRecord(r) => ClaimKeyApart(id, r.validatorId, "", 0);
      case DeleteValidatorRecord(gone) => ClaimKeyApart(id, gone, "", 0);
      case WriteValidationRecord(r) =>
        var s := Stored(r);
        ClaimKeyApart(id, s.claimId, "", s.epoch);
        ClaimKeyApart(id, s.domain, s.claimId, 0);
      case WriteVote(v) =>
        ClaimKeyApart(id, v.claimId, v.validatorId, 0);
        ClaimKeyApart(id, v.validatorId, v.claimId, 0);
    }
  }

  lemma ReadValidatorAfter(db: Db, op: Op, id: string)
    ensures ReadValidator(Exec(db, op), id) ==
            if op.WriteValidatorRecord? && op.validator.validatorId == id then Success(op.validator)
            else if op.DeleteValidatorRecord? && op.validatorId == id then Failure(ValidatorNotFound)
            else ReadValidator(db, id)
  {
    hide ClaimKey, ValidatorKey, ValidationKey, VoteKey, IdxDomainKey, IdxEpochKey, IdxVoteByValidatorKey, Stored,
      ValidValidationRecord, ValidVoteRecord;
    match op {
      case WriteClaim(c) => ClaimKeyApart(c.claimId, id, "", 0);
      case DeleteClaim(gone) => ClaimKeyApart(gone, id, "", 0);
      case WriteValidatorRecord(r) => ValidatorKeyApart(id, r.validatorId, "", 0);
      case DeleteValidatorRecord(gone) => ValidatorKeyApart(id, gone, "", 0);
      case WriteValidationRecord(r) =>
        var s := Stored(r);
        ValidatorKeyApart(id, s.claimId, "", s.epoch);
        ValidatorKeyApart(id, s.domain, s.claimId, 0);
      case WriteVote(v) =>
        ValidatorKeyApart(id, v.claimId, v.validatorId, 0);
        ValidatorKeyApart(id, v.validatorId, v.claimId, 0);
    }
  }

  lemma ReadValidationAfter(db: Db, op: Op, id: string)
    ensures ReadValidation(Exec(db, op), id) ==
            if op.WriteValidationRecord? && op.validation.claimId == id && ValidationKey(id) !in db
               && ValidValidationRecord(op.validation)
              then Success(op.validation.(domain := Normalize(op.validation.domain)))
            else ReadValidation(db, id)
  {
    hide ClaimKey, ValidatorKey, ValidationKey, VoteKey, IdxDomainKey, IdxEpochKey, IdxVoteByValidatorKey, Normalize,
      ValidValidationRecord, ValidVoteRecord;
    match op {
      case WriteClaim(c) => ClaimKeyApart(c.claimId, id, "", 0);
      case DeleteClaim(gone) => ClaimKeyApart(gone, id, "", 0);
      case WriteValidatorRecord(r) => ValidatorKeyApart(r.validatorId, id, "", 0);
      case DeleteValidatorRecord(gone) => ValidatorKeyApart(gone, id, "", 0);
      case WriteValidationRecord(r) =>
        var s := Stored(r);
        ValidationKeyApart(id, s.claimId, "", s.epoch);
        ValidationKeyApart(id, s.domain, s.claimId, 0);
      case WriteVote(v) =>
        ValidationKeyApart(id, v.claimId, v.validatorId, 0);
        ValidationKeyApart(id, v.validatorId, v.claimId, 0);
    }
  }
}
