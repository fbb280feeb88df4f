/** The signed preimages of internal/signer; Keccak-256 is a parameter about which nothing is known. */
module Signer {
  import opened Core

  type Keccak = Bytes -> Word

  /** Two different inputs with the same hash. */
  ghost predicate Collision(keccak: Keccak, x: Bytes, y: Bytes) {
    x != y && keccak(x) == keccak(y)
  }

  function Ascii(s: string): Bytes {
    seq(|s|, i requires 0 <= i < |s| => s[i] as int % 256)
  }

  // ---- claim.go -----------------------------------------------------------------------------------

  const MESSAGE_PREFIX: Bytes := [0x19] + Ascii("Ethereum Signed Message:\n32")

  /** abi.encodePacked(intentId, solver). */
  function ClaimPacking(id: Word, solver: Address): Bytes {
    id + solver
  }

  function ClaimPreimage(keccak: Keccak, id: Word, solver: Address): Bytes {
    MESSAGE_PREFIX + keccak(ClaimPacking(id, solver))
  }

  function ClaimDigest(keccak: Keccak, id: Word, solver: Address): Word {
    keccak(ClaimPreimage(keccak, id, solver))
  }

  /**
   The bytes that are signed: Keccak of the 28 bytes of section "version 0x45" of EIP-191 for a 32-byte
   message, followed by Keccak of the id and then the solver.
   */
  lemma ClaimLayout(keccak: Keccak, id: Word, solver: Address)
    ensures |ClaimPacking(id, solver)| == 52
    ensures ClaimPacking(id, solver)[..32] == id && ClaimPacking(id, solver)[32..] == solver
    ensures |ClaimPreimage(keccak, id, solver)| == 60
    ensures ClaimPreimage(keccak, id, solver)[..28] == [
              0x19, 0x45, 0x74, 0x68, 0x65, 0x72, 0x65, 0x75, 0x6d, 0x20, 0x53, 0x69, 0x67, 0x6e, 0x65,
              0x64, 0x20, 0x4d, 0x65, 0x73, 0x73, 0x61, 0x67, 0x65, 0x3a, 0x0a, 0x33, 0x32]
    ensures ClaimPreimage(keccak, id, solver)[28..] == keccak(id + solver)
    ensures ClaimDigest(keccak, id, solver) == keccak(ClaimPreimage(keccak, id, solver))
  {
    PrefixBytes();
  }

  lemma PrefixBytes()
    ensures MESSAGE_PREFIX == [
              0x19, 0x45, 0x74, 0x68, 0x65, 0x72, 0x65, 0x75, 0x6d, 0x20, 0x53, 0x69, 0x67, 0x6e, 0x65,
              0x64, 0x20, 0x4d, 0x65, 0x73, 0x73, 0x61, 0x67, 0x65, 0x3a, 0x0a, 0x33, 0x32]
  {
  }

  lemma PackingIsInjective(id: Word, solver: Address, id': Word, solver': Address)
    requires ClaimPacking(id, solver) == ClaimPacking(id', solver')
    ensures id == id' && solver == solver'
  {
    assert id == ClaimPacking(id, solver)[..32] == ClaimPacking(id', solver')[..32] == id';
    assert solver == ClaimPacking(id, solver)[32..] == ClaimPacking(id', solver')[32..] == solver';
  }

  /** A claim digest binds the id and the solver: anything else with the same digest exhibits a collision. */
  lemma ClaimDigestBinds(keccak: Keccak, id: Word, solver: Address, id': Word, solver': Address)
    returns (x: Bytes, y: Bytes)
    requires ClaimDigest(keccak, id, solver) == ClaimDigest(keccak, id', solver')
    ensures (id == id' && solver == solver') || Collision(keccak, x, y)
  {
    x, y := ClaimPreimage(keccak, id, solver), ClaimPreimage(keccak, id', solver');
    if x == y {
      assert x[|MESSAGE_PREFIX|..] == y[|MESSAGE_PREFIX|..];
      x, y := ClaimPacking(id, solver), ClaimPacking(id', solver');
      if x == y {
        PackingIsInjective(id, solver, id', solver');
      }
    }
  }

  // ---- eip712.go ----------------------------------------------------------------------------------

  /** A Go uint64. */
  type ChainId = n: int | 0 <= n < 0x1_0000_0000_0000_0000

  datatype Domain = Domain(name: Bytes, version: Bytes, chainId: ChainId, verifyingContract: Address)

  datatype Member = Member(solidityType: string, name: string)

  function MemberList(members: seq<Member>): string {
    if members == [] then ""
    else members[0].solidityType + " " + members[0].name
         + if |members| == 1 then "" else "," + MemberList(members[1..])
  }

  /** "Definition of encodeType" in EIP-712: the struct's name and its members in parentheses. */
  function EncodeType(name: string, members: seq<Member>): Bytes {
    Ascii(name + "(" + MemberList(members) + ")")
  }

  /** A(t x,u y) */
  lemma EncodeTypeExample()
    ensures EncodeType("A", [Member("t", "x"), Member("u", "y")]) ==
            [0x41, 0x28, 0x74, 0x20, 0x78, 0x2c, 0x75, 0x20, 0x79, 0x29]
  {
    var m := [Member("t", "x"), Member("u", "y")];
    assert m[1..] == [Member("u", "y")];
    assert MemberList(m[1..]) == "u y";
    assert MemberList(m) == "t x,u y";
    assert "A" + "(" + MemberList(m) + ")" == "A(t x,u y)";
  }

  const DOMAIN_MEMBERS: seq<Member> := [
    Member("string", "name"), Member("string", "version"), Member("uint256", "chainId"),
    Member("address", "verifyingContract")]

  const INTENT_MEMBERS: seq<Member> := [
    Member("address", "sender"), Member("address", "tokenIn"), Member("address", "tokenOut"),
    Member("uint256", "amountIn"), Member("uint256", "minAmountOut"), Member("uint256", "deadline"),
    Member("uint256", "nonce")]

  const DOMAIN_TYPE: Bytes := EncodeType("EIP712Domain", DOMAIN_MEMBERS)

  const INTENT_TYPE: Bytes := EncodeType("Intent", INTENT_MEMBERS)

  function Pow256(k: nat): (p: nat)
    ensures p > 0
  {
    if k == 0 then 1 else 256 * Pow256(k - 1)
  }

  /** The last k base-256 digits of n, most significant first. */
  function BigEndian(n: nat, k: nat): (b: Bytes)
    ensures |b| == k
  {
    if k == 0 then [] else BigEndian(n / 256, k - 1) + [n % 256]
  }

  function FromBigEndian(b: Bytes): nat {
    if b == [] then 0 else 256 * FromBigEndian(b[..|b| - 1]) + b[|b| - 1]
  }

  /** Byte i is the base-256 digit of weight 256^(k - 1 - i): the most significant comes first. */
  lemma {:induction false} BigEndianDigits(n: nat, k: nat, i: nat)
    requires i < k
    ensures BigEndian(n, k)[i] == n / Pow256(k - 1 - i) % 256
  {
    if i < k - 1 {
      BigEndianDigits(n / 256, k - 1, i);
      DivideTwice(n, Pow256(k - 2 - i));
    }
  }

  lemma DivideTwice(n: nat, b: nat)
    requires b > 0
    ensures n / 256 / b == n / (256 * b)
  {
    var p, left := n / 256 / b, n / 256 % b;
    assert n / 256 == p * b + left;
    assert p * (256 * b) == 256 * (p * b);
    QuotientIs(n, 256 * b, p, 256 * left + n % 256);
  }

  lemma Ordered(a: nat, b: nat, m: nat)
    requires a <= b
    ensures a * m <= b * m
  {
  }

  lemma QuotientIs(n: nat, m: nat, q: nat, rest: nat)
    requires m > 0 && rest < m && n == q * m + rest
    ensures n / m == q
  {
    var d := n / m;
    assert d * m <= n < d * m + m;
    assert (d + 1) * m == d * m + m && (q + 1) * m == q * m + m;
    if d < q {
      Ordered(d + 1, q, m);
    } else if d > q {
      Ordered(q + 1, d, m);
    }
  }

  /** k digits suffice for any number below 256^k. */
  lemma {:induction false} BigEndianRoundTrip(n: nat, k: nat)
    requires n < Pow256(k)
    ensures FromBigEndian(BigEndian(n, k)) == n
  {
    if k > 0 {
      BigEndianRoundTrip(n / 256, k - 1);
      assert BigEndian(n, k)[..k - 1] == BigEndian(n / 256, k - 1);
    }
  }

  /** The integers a uint256 field can hold. */
  predicate FitsWord(n: int) {
    0 <= n < Pow256(32)
  }

  function UintWord(n: nat): Word {
    BigEndian(n, 32)
  }

  /** How the ABI library packs an integer into a uint256 word, or refuses it. */
  type Packer = int -> Option<Word>

  /** What the ABI fixes: integers in range are packed big-endian. Elsewhere the library does as it likes. */
  ghost predicate Packs(pack: Packer) {
    forall n | FitsWord(n) :: pack(n) == Some(UintWord(n))
  }

  function AddressWord(a: Address): Word {
    seq(12, _ => 0) + a
  }

  predicate IntentFits(i: Intent) {
    FitsWord(i.amountIn) && FitsWord(i.minAmountOut) && FitsWord(i.deadline) && FitsWord(i.nonce)
  }

  function DomainEncoding(keccak: Keccak, d: Domain): Bytes {
    keccak(DOMAIN_TYPE) + keccak(d.name) + keccak(d.version) + UintWord(d.chainId) + AddressWord(d.verifyingContract)
  }

  /** The eight words of the struct, in the order of its type string. */
  function IntentEncoding(keccak: Keccak, pack: Packer, i: Intent): Option<Bytes> {
    match (pack(i.amountIn), pack(i.minAmountOut), pack(i.deadline), pack(i.nonce))
    case (Some(amountIn), Some(minAmountOut), Some(deadline), Some(nonce)) =>
      Some(keccak(INTENT_TYPE) + AddressWord(i.sender) + AddressWord(i.tokenIn) + AddressWord(i.tokenOut)
           + amountIn + minAmountOut + deadline + nonce)
    case _ => None
  }

  function IntentPreimage(keccak: Keccak, d: Domain, encoding: Bytes): Bytes {
    [0x19, 0x01] + keccak(DomainEncoding(keccak, d)) + keccak(encoding)
  }

  /** The digest, or the library's refusal to encode. */
  function HashIntent(keccak: Keccak, pack: Packer, d: Domain, i: Intent): Option<Word> {
    match IntentEncoding(keccak, pack, i)
    case None => None
    case Some(e) => Some(keccak(IntentPreimage(keccak, d, e)))
  }

  /** The k-th 32-byte word of an encoding. */
  function WordAt(b: Bytes, k: nat): Word
    requires 32 * k + 32 <= |b|
  {
    b[32 * k..32 * k + 32]
  }

  function DecodeUint(w: Word): nat {
    FromBigEndian(w)
  }

  lemma UintWordRoundTrip(n: int)
    requires FitsWord(n)
    ensures DecodeUint(UintWord(n)) == n
  {
    BigEndianRoundTrip(n, 32);
  }

  lemma ChainIdFits(n: ChainId)
    ensures FitsWord(n)
  {
    assert Pow256(8) == 0x1_0000_0000_0000_0000;
    Pow256Grows(8, 32);
  }

  lemma {:induction false} Pow256Grows(a: nat, b: nat)
    requires a <= b
    ensures Pow256(a) <= Pow256(b)
  {
    if a < b {
      Pow256Grows(a, b - 1);
    }
  }

  /** Twelve zero bytes and then the address. */
  ghost predicate PadsAddress(w: Word, a: Address) {
    w[..12] == [0, 0, 0, 0, 0, 0, 0, 0, 0, 0, 0, 0] && w[12..] == a
  }

  lemma AddressWordPads(a: Address)
    ensures PadsAddress(AddressWord(a), a)
  {
  }

  /** The word carries what the library made of n, which is n itself if n fits. */
  ghost predicate Carries(pack: Packer, w: Word, n: int) {
    pack(n) == Some(w) && (FitsWord(n) ==> DecodeUint(w) == n)
  }

  lemma PackedCarries(pack: Packer, w: Word, n: int)
    requires Packs(pack) && pack(n) == Some(w)
    ensures Carries(pack, w, n)
  {
    if FitsWord(n) {
      UintWordRoundTrip(n);
    }
  }

  /**
   The 256-byte encoding decodes back to the seven fields, each read at the offset of its position; only an
   integer outside [0, 2^256) may be refused or come out changed.
   */
  lemma IntentEncodingRoundTrip(keccak: Keccak, pack: Packer, i: Intent)
    requires Packs(pack)
    ensures IntentFits(i) ==> IntentEncoding(keccak, pack, i).Some?
    ensures IntentEncoding(keccak, pack, i).Some? ==>
              var e := IntentEncoding(keccak, pack, i).value;
              && |e| == 256
              && WordAt(e, 0) == keccak(INTENT_TYPE)
              && PadsAddress(WordAt(e, 1), i.sender)
              && PadsAddress(WordAt(e, 2), i.tokenIn)
              && PadsAddress(WordAt(e, 3), i.tokenOut)
              && Carries(pack, WordAt(e, 4), i.amountIn)
              && Carries(pack, WordAt(e, 5), i.minAmountOut)
              && Carries(pack, WordAt(e, 6), i.deadline)
              && Carries(pack, WordAt(e, 7), i.nonce)
  {
    if IntentEncoding(keccak, pack, i).Some? {
      var a, m, d, n :=
        pack(i.amountIn).value, pack(i.minAmountOut).value, pack(i.deadline).value, pack(i.nonce).value;
      EightWords(keccak(INTENT_TYPE), AddressWord(i.sender), AddressWord(i.tokenIn), AddressWord(i.tokenOut),
                 a, m, d, n);
      AddressWordPads(i.sender);
      AddressWordPads(i.tokenIn);
      AddressWordPads(i.tokenOut);
      PackedCarries(pack, a, i.amountIn);
      PackedCarries(pack, m, i.minAmountOut);
      PackedCarries(pack, d, i.deadline);
      PackedCarries(pack, n, i.nonce);
    }
  }

  lemma EightWords(a: Word, b: Word, c: Word, d: Word, e: Word, f: Word, g: Word, h: Word)
    ensures var x := a + b + c + d + e + f + g + h;
            && |x| == 256
            && WordAt(x, 0) == a && WordAt(x, 1) == b && WordAt(x, 2) == c && WordAt(x, 3) == d
            && WordAt(x, 4) == e && WordAt(x, 5) == f && WordAt(x, 6) == g && WordAt(x, 7) == h
  {
  }

  /** The word is what the struct's member of this type and name requires. */
  ghost predicate EncodesMember(pack: Packer, i: Intent, m: Member, w: Word) {
    if m.solidityType == "address" then
      if m.name == "sender" then PadsAddress(w, i.sender)
      else if m.name == "tokenIn" then PadsAddress(w, i.tokenIn)
      else m.name == "tokenOut" && PadsAddress(w, i.tokenOut)
    else
      && m.solidityType == "uint256"
      && if m.name == "amountIn" then Carries(pack, w, i.amountIn)
         else if m.name == "minAmountOut" then Carries(pack, w, i.minAmountOut)
         else if m.name == "deadline" then Carries(pack, w, i.deadline)
         else m.name == "nonce" && Carries(pack, w, i.nonce)
  }

  /** The type string and the encoding agree: after the type hash, one word per member, in the members' order. */
  lemma TypeStringMatchesEncoding(keccak: Keccak, pack: Packer, i: Intent)
    requires Packs(pack) && IntentEncoding(keccak, pack, i).Some?
    ensures var e := IntentEncoding(keccak, pack, i).value;
            && |e| == 32 + 32 * |INTENT_MEMBERS|
            && WordAt(e, 0) == keccak(EncodeType("Intent", INTENT_MEMBERS))
            && forall k | 0 <= k < |INTENT_MEMBERS| :: EncodesMember(pack, i, INTENT_MEMBERS[k], WordAt(e, k + 1))
  {
    var e := IntentEncoding(keccak, pack, i).value;
    IntentEncodingRoundTrip(keccak, pack, i);
    NamesDiffer();
    forall k | 0 <= k < |INTENT_MEMBERS|
      ensures EncodesMember(pack, i, INTENT_MEMBERS[k], WordAt(e, k + 1))
    {
      assert k == 0 || k == 1 || k == 2 || k == 3 || k == 4 || k == 5 || k == 6;
    }
  }

  lemma NamesDiffer()
    ensures "address" != "uint256" && "amountIn" != "deadline"
  {
    assert "address"[0] != "uint256"[0] && "amountIn"[0] != "deadline"[0];
  }

  /** The fields a digest covers; the id, the pointer and the relayer's own bookkeeping are not among them. */
  ghost predicate SameFields(i: Intent, j: Intent) {
    && i.sender == j.sender && i.tokenIn == j.tokenIn && i.tokenOut == j.tokenOut
    && i.amountIn == j.amountIn && i.minAmountOut == j.minAmountOut
    && i.deadline == j.deadline && i.nonce == j.nonce
  }

  /** The same addresses, and integers the library packs alike. */
  ghost predicate SamePacked(pack: Packer, i: Intent, j: Intent) {
    && i.sender == j.sender && i.tokenIn == j.tokenIn && i.tokenOut == j.tokenOut
    && pack(i.amountIn) == pack(j.amountIn) && pack(i.minAmountOut) == pack(j.minAmountOut)
    && pack(i.deadline) == pack(j.deadline) && pack(i.nonce) == pack(j.nonce)
  }

  /** The domain's five words sit at their offsets. */
  lemma DomainEncodingLayout(keccak: Keccak, d: Domain)
    ensures var e := DomainEncoding(keccak, d);
            && |e| == 160
            && WordAt(e, 0) == keccak(DOMAIN_TYPE)
            && WordAt(e, 1) == keccak(d.name)
            && WordAt(e, 2) == keccak(d.version)
            && DecodeUint(WordAt(e, 3)) == d.chainId
            && PadsAddress(WordAt(e, 4), d.verifyingContract)
  {
    var e := DomainEncoding(keccak, d);
    assert WordAt(e, 3) == UintWord(d.chainId);
    assert WordAt(e, 4) == AddressWord(d.verifyingContract);
    AddressWordPads(d.verifyingContract);
    ChainIdFits(d.chainId);
    UintWordRoundTrip(d.chainId);
  }

  lemma DomainBinds(keccak: Keccak, d: Domain, d': Domain) returns (x: Bytes, y: Bytes)
    requires keccak(DomainEncoding(keccak, d)) == keccak(DomainEncoding(keccak, d'))
    ensures d == d' || Collision(keccak, x, y)
  {
    x, y := DomainEncoding(keccak, d), DomainEncoding(keccak, d');
    if x == y {
      DomainEncodingLayout(keccak, d);
      DomainEncodingLayout(keccak, d');
      if d.name != d'.name {
        x, y := d.name, d'.name;
      } else if d.version != d'.version {
        x, y := d.version, d'.version;
      }
    }
  }

  /** An intent digest binds its domain and its seven fields as packed, or exhibits a collision. */
  lemma HashIntentBinds(keccak: Keccak, pack: Packer, d: Domain, i: Intent, d': Domain, i': Intent)
    returns (x: Bytes, y: Bytes)
    requires Packs(pack)
    requires HashIntent(keccak, pack, d, i).Some? && HashIntent(keccak, pack, d, i) == HashIntent(keccak, pack, d', i')
    ensures || (d == d' && SamePacked(pack, i, i') && (IntentFits(i) && IntentFits(i') ==> SameFields(i, i')))
            || Collision(keccak, x, y)
  {
    var e, e' := IntentEncoding(keccak, pack, i).value, IntentEncoding(keccak, pack, i').value;
    x, y := IntentPreimage(keccak, d, e), IntentPreimage(keccak, d', e');
    if x == y {
      assert x[2..34] == y[2..34];
      assert x[34..] == y[34..];
      x, y := e, e';
      if x == y {
        IntentEncodingRoundTrip(keccak, pack, i);
        IntentEncodingRoundTrip(keccak, pack, i');
        x, y := DomainBinds(keccak, d, d');
      }
    }
  }

  /** The bytes that are signed: 0x19 0x01, then the domain separator, then the struct hash. */
  lemma IntentLayout(keccak: Keccak, pack: Packer, d: Domain, i: Intent)
    requires IntentEncoding(keccak, pack, i).Some?
    ensures var e := IntentEncoding(keccak, pack, i).value;
            var preimage := IntentPreimage(keccak, d, e);
            && |preimage| == 66 && preimage[..2] == [0x19, 0x01]
            && preimage[2..34] == keccak(DomainEncoding(keccak, d)) && preimage[34..] == keccak(e)
            && HashIntent(keccak, pack, d, i) == Some(keccak(preimage))
  {
  }

  /** Conversely nothing but the packed fields enters: the digest is blind to what the library packs alike. */
  lemma PackedFieldsFixTheDigest(keccak: Keccak, pack: Packer, d: Domain, i: Intent, i': Intent)
    requires SamePacked(pack, i, i')
    ensures HashIntent(keccak, pack, d, i) == HashIntent(keccak, pack, d, i')
  {
  }

  /** A claim signature never doubles as an intent signature: the two preimages always differ. */
  lemma ClaimAndIntentDigestsAreSeparate(
    keccak: Keccak, pack: Packer, id: Word, solver: Address, d: Domain, i: Intent)
    requires HashIntent(keccak, pack, d, i).Some?
    ensures var preimage := IntentPreimage(keccak, d, IntentEncoding(keccak, pack, i).value);
            && |ClaimPreimage(keccak, id, solver)| == 60 && |preimage| == 66
            && (HashIntent(keccak, pack, d, i) == Some(ClaimDigest(keccak, id, solver)) ==>
                  Collision(keccak, ClaimPreimage(keccak, id, solver), preimage))
  {
    assert |MESSAGE_PREFIX| == 28;
  }
}
