/** Key builders and extractors (store/keys.go), and what they keep apart. Separators are
    not escaped, so some of this holds only for identifiers without a slash. */
module StoreKeys {
  import opened StringOrder
  import opened Wrappers

  const PREFIX_CLAIM := "claim/"
  const PREFIX_VALIDATOR := "validator/"
  const PREFIX_VALIDATION := "validation/"
  const PREFIX_VOTE := "vote/"
  const PREFIX_IDX_DOMAIN := "idx/domain/"
  const PREFIX_IDX_EPOCH := "idx/epoch/"
  const PREFIX_IDX_VOTE_BY_VALIDATOR := "idx/vote_by_validator/"

  const PREFIXES: seq<string> := [
    PREFIX_CLAIM, PREFIX_VALIDATOR, PREFIX_VALIDATION, PREFIX_VOTE,
    PREFIX_IDX_DOMAIN, PREFIX_IDX_EPOCH, PREFIX_IDX_VOTE_BY_VALIDATOR]

  function HexDigit(d: nat): char
    requires d < 16
  {
    if d < 10 then '0' + d as char else 'a' + (d - 10) as char
  }

  /** The last `width` hexadecimal digits of n, most significant first. */
  function Hex(n: nat, width: nat): (s: string)
    ensures |s| == width
  {
    if width == 0 then "" else Hex(n / 16, width - 1) + [HexDigit(n % 16)]
  }

  function ClaimKey(claimId: string): string {
    PREFIX_CLAIM + claimId
  }

  function ValidatorKey(validatorId: string): string {
    PREFIX_VALIDATOR + validatorId
  }

  function ValidationKey(claimId: string): string {
    PREFIX_VALIDATION + claimId
  }

  function VotePrefix(claimId: string): string {
    PREFIX_VOTE + claimId + "/"
  }

  function VoteKey(claimId: string, validatorId: string): string {
    VotePrefix(claimId) + validatorId
  }

  function DomainPrefix(domain: string): string {
    PREFIX_IDX_DOMAIN + domain + "/"
  }

  function IdxDomainKey(domain: string, claimId: string): string {
    DomainPrefix(domain) + claimId
  }

  function EpochPrefix(epoch: Uint64): string {
    PREFIX_IDX_EPOCH + Hex(epoch, 16) + "/"
  }

  function IdxEpochKey(epoch: Uint64, claimId: string): string {
    EpochPrefix(epoch) + claimId
  }

  function ValidatorPrefix(validatorId: string): string {
    PREFIX_IDX_VOTE_BY_VALIDATOR + validatorId + "/"
  }

  function IdxVoteByValidatorKey(validatorId: string, claimId: string): string {
    ValidatorPrefix(validatorId) + claimId
  }

  function ClaimIdFromDomainIndex(key: string, domain: string): string
    requires |DomainPrefix(domain)| <= |key|
  {
    key[|DomainPrefix(domain)|..]
  }

  function ClaimIdFromEpochIndex(key: string, epoch: Uint64): string
    requires |EpochPrefix(epoch)| <= |key|
  {
    key[|EpochPrefix(epoch)|..]
  }

  function ClaimIdFromVoteByValidatorIndex(key: string, validatorId: string): string
    requires |ValidatorPrefix(validatorId)| <= |key|
  {
    key[|ValidatorPrefix(validatorId)|..]
  }

  // ----- round trips -----

  lemma ExtractorsInvertBuilders(domain: string, epoch: Uint64, validatorId: string, claimId: string)
    ensures ClaimIdFromDomainIndex(IdxDomainKey(domain, claimId), domain) == claimId
    ensures ClaimIdFromEpochIndex(IdxEpochKey(epoch, claimId), epoch) == claimId
    ensures ClaimIdFromVoteByValidatorIndex(IdxVoteByValidatorKey(validatorId, claimId), validatorId) == claimId
  {
    hide Hex;
  }

  // ----- layout -----

  /** The number a string of hexadecimal digits denotes. */
  function ParseHex(s: string): int {
    if s == "" then
      0
    else
      var c := s[|s| - 1];
      16 * ParseHex(s[..|s| - 1]) + if c <= '9' then c as int - '0' as int else c as int - 'a' as int + 10
  }

  lemma {:induction false} HexDenotes(n: nat, width: nat)
    requires n < Pow16(width)
    ensures ParseHex(Hex(n, width)) == n
    ensures forall c | c in Hex(n, width) :: '0' <= c <= '9' || 'a' <= c <= 'f'
  {
    if width > 0 {
      HexDenotes(n / 16, width - 1);
      assert Hex(n, width)[..width - 1] == Hex(n / 16, width - 1);
    }
  }

  /** The epoch in an index key is its value as sixteen hexadecimal digits. */
  lemma EpochInKey(epoch: Uint64, claimId: string)
    ensures exists digits: string ::
              && IdxEpochKey(epoch, claimId) == "idx/epoch/" + digits + "/" + claimId
              && |digits| == 16
              && ParseHex(digits) == epoch
              && forall c | c in digits :: '0' <= c <= '9' || 'a' <= c <= 'f'
  {
    Pow16Is();
    HexDenotes(epoch, 16);
    assert IdxEpochKey(epoch, claimId) == "idx/epoch/" + Hex(epoch, 16) + "/" + claimId;
  }

  /** The other layouts, separators included. */
  lemma KeyLayouts(claimId: string, validatorId: string, domain: string)
    ensures ClaimKey(claimId) == "claim/" + claimId
    ensures ValidatorKey(validatorId) == "validator/" + validatorId
    ensures ValidationKey(claimId) == "validation/" + claimId
    ensures VoteKey(claimId, validatorId) == "vote/" + claimId + "/" + validatorId
    ensures IdxDomainKey(domain, claimId) == "idx/domain/" + domain + "/" + claimId
    ensures IdxVoteByValidatorKey(validatorId, claimId) == "idx/vote_by_validator/" + validatorId + "/" + claimId
    ensures VotePrefix(claimId) <= VoteKey(claimId, validatorId)
    ensures DomainPrefix(domain) <= IdxDomainKey(domain, claimId)
    ensures ValidatorPrefix(validatorId) <= IdxVoteByValidatorKey(validatorId, claimId)
  {
  }

  // ----- namespaces -----

  /** No key lies in two of the seven namespaces. */
  lemma NamespacesDisjoint(key: string, i: nat, j: nat)
    requires i < j < |PREFIXES|
    ensures !(PREFIXES[i] <= key && PREFIXES[j] <= key)
  {
    assert PREFIX_CLAIM <= key ==> key[0] == 'c';
    assert PREFIX_VALIDATOR <= key ==> key[0] == 'v' && key[1] == 'a' && key[7] == 'o';
    assert PREFIX_VALIDATION <= key ==> key[0] == 'v' && key[1] == 'a' && key[7] == 'i';
    assert PREFIX_VOTE <= key ==> key[0] == 'v' && key[1] == 'o';
    assert PREFIX_IDX_DOMAIN <= key ==> key[0] == 'i' && key[4] == 'd';
    assert PREFIX_IDX_EPOCH <= key ==> key[0] == 'i' && key[4] == 'e';
    assert PREFIX_IDX_VOTE_BY_VALIDATOR <= key ==> key[0] == 'i' && key[4] == 'v';
  }

  // ----- composite keys -----

  /** A slash-free head ends at the first slash. */
  lemma SplitAtSlash(a: string, b: string, a': string, b': string)
    requires '/' !in a && '/' !in a' && a + "/" + b == a' + "/" + b'
    ensures a == a' && b == b'
  {
    var s := a + "/" + b;
    assert s[|a|] == '/' && s[|a'|] == '/';
    assert forall i | 0 <= i < |a| :: s[i] == a[i];
    assert forall i | 0 <= i < |a'| :: s[i] == a'[i];
    assert |a| == |a'|;
    assert a == s[..|a|] == a';
    assert b == s[|a| + 1..] == b';
  }

  lemma TailAfter(p: string, a: string, b: string)
    ensures (p + a + "/" + b)[|p|..] == a + "/" + b
  {
  }

  /** Composite keys are injective when their first component has no slash. */
  lemma CompositeKeysInjective(a: string, b: string, a': string, b': string)
    requires '/' !in a && '/' !in a'
    ensures VoteKey(a, b) == VoteKey(a', b') ==> a == a' && b == b'
    ensures IdxDomainKey(a, b) == IdxDomainKey(a', b') ==> a == a' && b == b'
    ensures IdxVoteByValidatorKey(a, b) == IdxVoteByValidatorKey(a', b') ==> a == a' && b == b'
  {
    forall p: string | p + a + "/" + b == p + a' + "/" + b' ensures a == a' && b == b' {
      TailAfter(p, a, b);
      TailAfter(p, a', b');
      SplitAtSlash(a, b, a', b');
    }
  }

  /** With a slash in it, different pairs share one key. */
  lemma SlashesShareKeys()
    ensures VoteKey("a/b", "c") == VoteKey("a", "b/c")
    ensures IdxDomainKey("a/b", "c") == IdxDomainKey("a", "b/c")
    ensures IdxVoteByValidatorKey("a/b", "c") == IdxVoteByValidatorKey("a", "b/c")
  {
  }

  // ----- epochs -----

  lemma {:induction false} HexOrder(m: nat, n: nat, width: nat)
    requires m < n < Pow16(width)
    ensures Less(Hex(m, width), Hex(n, width)) && Hex(m, width) != Hex(n, width)
  {
    var p, q := Hex(m / 16, width - 1), Hex(n / 16, width - 1);
    var x, y := [HexDigit(m % 16)], [HexDigit(n % 16)];
    if m / 16 == n / 16 {
      CommonPrefix(p, x, y);
      assert Hex(m, width)[width - 1] == x[0] && Hex(n, width)[width - 1] == y[0];
    } else {
      HexOrder(m / 16, n / 16, width - 1);
      FixedWidth(p, q, x, y);
      assert Hex(m, width)[..width - 1] == p && Hex(n, width)[..width - 1] == q;
    }
  }

  function Pow16(k: nat): nat {
    if k == 0 then 1 else 16 * Pow16(k - 1)
  }

  lemma Pow16Is()
    ensures Pow16(16) == TWO_TO_THE_64
  {
    assert Pow16(4) == 0x1_0000;
    assert Pow16(8) == 0x1_0000_0000;
    assert Pow16(12) == 0x1_0000_0000_0000;
  }

  /** Over all 64-bit epochs, index keys sort byte-wise exactly by epoch and then claim ID,
      and no condition on the claim ID is needed to tell them apart. */
  lemma EpochKeysSortByEpoch(e: Uint64, c: string, e': Uint64, c': string)
    ensures Less(IdxEpochKey(e, c), IdxEpochKey(e', c')) <==> e < e' || (e == e' && Less(c, c'))
    ensures IdxEpochKey(e, c) == IdxEpochKey(e', c') <==> e == e' && c == c'
    ensures EpochPrefix(e) <= IdxEpochKey(e', c') <==> e == e'
  {
    Pow16Is();
    var h, h' := Hex(e, 16), Hex(e', 16);
    var x, x' := "/" + c, "/" + c';
    assert IdxEpochKey(e, c) == PREFIX_IDX_EPOCH + (h + x);
    assert IdxEpochKey(e', c') == PREFIX_IDX_EPOCH + (h' + x');
    CommonPrefix(PREFIX_IDX_EPOCH, h + x, h' + x');
    assert IdxEpochKey(e, c)[|PREFIX_IDX_EPOCH|..][..16] == h;
    assert IdxEpochKey(e', c')[|PREFIX_IDX_EPOCH|..][..16] == h';
    assert EpochPrefix(e)[|PREFIX_IDX_EPOCH|..][..16] == h;
    assert EpochPrefix(e) <= IdxEpochKey(e', c') ==> h == h' by {
      assert EpochPrefix(e) <= IdxEpochKey(e', c') ==>
        IdxEpochKey(e', c')[..|EpochPrefix(e)|] == EpochPrefix(e);
    }
    if e == e' {
      CommonPrefix(EpochPrefix(e), c, c');
      assert IdxEpochKey(e, c)[|EpochPrefix(e)|..] == c && IdxEpochKey(e, c')[|EpochPrefix(e)|..] == c';
    } else if e < e' {
      HexOrder(e, e', 16);
      FixedWidth(h, h', x, x');
    } else {
      HexOrder(e', e, 16);
      FixedWidth(h, h', x, x');
      Trichotomy(h, h');
    }
  }
}
