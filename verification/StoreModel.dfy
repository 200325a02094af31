/** The store as a state machine over an ordered key-value map. One step is one committed
    transaction (store/claim.go, store/validator.go, store/validation.go, store/vote.go). */
module StoreModel {
  import opened Reals
  import opened Reputation
  import opened StoreKeys
  import opened StringOrder
  import opened Text
  import opened Verdicts
  import opened Wrappers

  /** A claim; the store reads nothing of it but its ID. */
  datatype Claim = Claim(claimId: string, content: string)

  datatype ValidationRecord = ValidationRecord(
    claimId: string,
    domain: string,
    verdict: Verdict,
    confidenceScore: real,
    participationRate: real,
    validatorCount: int,
    epoch: Uint64,
    merkleRoot: string,
    finalizedAt: int)

  datatype VoteRecord = VoteRecord(
    claimId: string,
    validatorId: string,
    verdict: Verdict,
    confidence: real,
    domainReputation: real,
    biasCoefficient: real,
    validatorSetSize: int,
    epoch: Uint64,
    recordedAt: int)

  /** A stored value, decoded; index entries are empty. */
  datatype Value =
    | ClaimValue(claim: Claim)
    | ValidatorValue(validator: ValidatorRecord)
    | ValidationValue(validation: ValidationRecord)
    | VoteValue(vote: VoteRecord)
    | Empty

  type Db = map<string, Value>

  datatype StoreError =
    | ClaimNotFound
    | ValidatorNotFound
    | ValidationNotFound
    | VoteNotFound
    | AlreadyExists
    | InvalidRecord
    | Undecodable

  /** The zero time, which a finalized record must not carry. */
  const ZERO_TIME: int := 0

  predicate ValidValidationRecord(r: ValidationRecord) {
    && !Blank(r.claimId)
    && !Blank(r.domain)
    && !r.verdict.Unrecognised?
    && InUnit(r.confidenceScore)
    && InUnit(r.participationRate)
    && r.finalizedAt != ZERO_TIME
  }

  predicate ValidVoteRecord(v: VoteRecord) {
    && !Blank(v.claimId)
    && !Blank(v.validatorId)
    && !v.verdict.Unrecognised?
    && InUnit(v.confidence)
    && InUnit(v.domainReputation)
    && InUnit(v.biasCoefficient)
    && v.validatorSetSize > 0
  }

  // ----- transactions -----

  datatype Op =
    | WriteClaim(claim: Claim)
    | DeleteClaim(claimId: string)
    | WriteValidatorRecord(validator: ValidatorRecord)
    | DeleteValidatorRecord(validatorId: string)
    | WriteValidationRecord(validation: ValidationRecord)
    | WriteVote(vote: VoteRecord)

  /** The record as it is stored: under its normalised domain. */
  function Stored(r: ValidationRecord): ValidationRecord {
    r.(domain := Normalize(r.domain))
  }

  function PutValidation(db: Db, r: ValidationRecord): Db {
    db[ValidationKey(r.claimId) := ValidationValue(r)]
      [IdxDomainKey(r.domain, r.claimId) := Empty]
      [IdxEpochKey(r.epoch, r.claimId) := Empty]
  }

  function PutVote(db: Db, v: VoteRecord): Db {
    db[VoteKey(v.claimId, v.validatorId) := VoteValue(v)]
      [IdxVoteByValidatorKey(v.validatorId, v.claimId) := Empty]
  }

  /** The error an operation returns, if any; then it changes nothing. */
  function ErrorOf(db: Db, op: Op): Option<StoreError> {
    match op
    case WriteClaim(c) => if ClaimKey(c.claimId) in db then Some(AlreadyExists) else None
    case DeleteClaim(id) => if ClaimKey(id) !in db then Some(ClaimNotFound) else None
    case WriteValidatorRecord(_) => None
    case DeleteValidatorRecord(id) => if ValidatorKey(id) !in db then Some(ValidatorNotFound) else None
    case WriteValidationRecord(r) =>
      if !ValidValidationRecord(r) then Some(InvalidRecord)
      else if ValidationKey(r.claimId) in db then Some(AlreadyExists)
      else None
    case WriteVote(v) =>
      if !ValidVoteRecord(v) then Some(InvalidRecord)
      else if VoteKey(v.claimId, v.validatorId) in db then Some(AlreadyExists)
      else None
  }

  function Exec(db: Db, op: Op): Db {
    if ErrorOf(db, op).Some? then
      db
    else
      match op
      case WriteClaim(c) => db[ClaimKey(c.claimId) := ClaimValue(c)]
      case DeleteClaim(id) => db - {ClaimKey(id)}
      case WriteValidatorRecord(r) => db[ValidatorKey(r.validatorId) := ValidatorValue(r)]
      case DeleteValidatorRecord(id) => db - {ValidatorKey(id)}
      case WriteValidationRecord(r) => PutValidation(db, Stored(r))
      case WriteVote(v) => PutVote(db, v)
  }

  function ExecAll(db: Db, ops: seq<Op>): Db {
    if ops == [] then db else Exec(ExecAll(db, ops[..|ops| - 1]), ops[|ops| - 1])
  }

  // ----- reads -----

  function ReadClaim(db: Db, claimId: string): Result<Claim, StoreError> {
    var k := ClaimKey(claimId);
    if k !in db then Failure(ClaimNotFound)
    else if db[k].ClaimValue? then Success(db[k].claim)
    else Failure(Undecodable)
  }

  function ReadValidator(db: Db, validatorId: string): Result<ValidatorRecord, StoreError> {
    var k := ValidatorKey(validatorId);
    if k !in db then Failure(ValidatorNotFound)
    else if db[k].ValidatorValue? then Success(db[k].validator)
    else Failure(Undecodable)
  }

  function ReadValidation(db: Db, claimId: string): Result<ValidationRecord, StoreError> {
    var k := ValidationKey(claimId);
    if k !in db then Failure(ValidationNotFound)
    else if db[k].ValidationValue? then Success(db[k].validation)
    else Failure(Undecodable)
  }

  function ReadVote(db: Db, claimId: string, validatorId: string): Result<VoteRecord, StoreError> {
    var k := VoteKey(claimId, validatorId);
    if k !in db then Failure(VoteNotFound)
    else if db[k].VoteValue? then Success(db[k].vote)
    else Failure(Undecodable)
  }

  /** The keys under a prefix, in the order of the store. */
  function ScanKeys(db: Db, prefix: string): (keys: seq<string>)
    ensures Ascending(keys)
    ensures forall k :: k in keys <==> k in db && prefix <= k
  {
    Sorted(set k | k in db && prefix <= k)
  }

  /** The identifiers left when the prefix is cut off. */
  function ScanIds(db: Db, prefix: string): (ids: seq<string>)
    ensures |ids| == |ScanKeys(db, prefix)|
  {
    var keys := ScanKeys(db, prefix);
    seq(|keys|, i requires 0 <= i < |keys| => assert keys[i] in keys; keys[i][|prefix|..])
  }

  /** Reads the records one by one and stops at the first that cannot be read. */
  function FetchValidations(db: Db, ids: seq<string>): Result<seq<ValidationRecord>, StoreError> {
    if ids == [] then
      Success([])
    else
      var rest := FetchValidations(db, ids[..|ids| - 1]);
      var last := ReadValidation(db, ids[|ids| - 1]);
      if rest.Failure? then rest
      else if last.Failure? then Failure(last.error)
      else Success(rest.value + [last.value])
  }

  function FetchVotes(db: Db, ids: seq<string>, validatorId: string): Result<seq<VoteRecord>, StoreError> {
    if ids == [] then
      Success([])
    else
      var rest := FetchVotes(db, ids[..|ids| - 1], validatorId);
      var last := ReadVote(db, ids[|ids| - 1], validatorId);
      if rest.Failure? then rest
      else if last.Failure? then Failure(last.error)
      else Success(rest.value + [last.value])
  }

  /** A lookup by index reads twice: it scans one snapshot and fetches from a later one. */
  function ValidationsByDomain(scanned: Db, fetched: Db, domain: string): Result<seq<ValidationRecord>, StoreError> {
    FetchValidations(fetched, ScanIds(scanned, DomainPrefix(Normalize(domain))))
  }

  function ValidationsByEpoch(scanned: Db, fetched: Db, epoch: Uint64): Result<seq<ValidationRecord>, StoreError> {
    FetchValidations(fetched, ScanIds(scanned, EpochPrefix(epoch)))
  }

  function VotesByValidator(scanned: Db, fetched: Db, validatorId: string): Result<seq<VoteRecord>, StoreError> {
    FetchVotes(fetched, ScanIds(scanned, ValidatorPrefix(validatorId)), validatorId)
  }

  /** The votes of a claim are read where they are scanned. */
  function DecodeVotes(db: Db, keys: seq<string>): Result<seq<VoteRecord>, StoreError>
    requires forall k | k in keys :: k in db
  {
    if keys == [] then
      Success([])
    else
      var rest := DecodeVotes(db, keys[..|keys| - 1]);
      var last := db[keys[|keys| - 1]];
      if rest.Failure? then rest
      else if !last.VoteValue? then Failure(Undecodable)
      else Success(rest.value + [last.vote])
  }

  function VotesForClaim(db: Db, claimId: string): Result<seq<VoteRecord>, StoreError> {
    DecodeVotes(db, ScanKeys(db, VotePrefix(claimId)))
  }
}
