/** Bitcoin address validation: segwit addresses in bech32 and bech32m, and the older base58
    forms. */
module Addresses {
  import opened Wrappers
  import opened Numerals
  import opened Texts
  import opened Bech32
  import opened BitGroups
  import opened Base58

  datatype AddressKind = P2Pkh | P2Sh | SegwitV0 | SegwitV1

  datatype Params = Params(hrp: string, p2pkhVersion: nat, p2shVersion: nat)

  function Network(name: string): Option<Params> {
    if name == "mainnet" then Some(Params("bc", 0x00, 0x05))
    else if name == "testnet" || name == "signet" then Some(Params("tb", 0x6F, 0xC4))
    else if name == "regtest" then Some(Params("bcrt", 0x6F, 0xC4))
    else None
  }

  /** Version 0 keeps the original constant, everything above it uses bech32m. */
  function Expected(version: nat): bv30 {
    if version == 0 then BECH32_CONST else BECH32M_CONST
  }

  predicate ProgramFits(version: nat, program: Bytes) {
    2 <= |program| <= 40 && (version == 0 ==> |program| == 20 || |program| == 32)
  }

  function ValidateBech32(address: string, params: Params): Result<AddressKind, AddressError> {
    match Split(address, Some(90))
    case Failure(_) => Failure(BadText)
    case Success(Checked(hrp, data, checksum)) =>
      if hrp != params.hrp then Failure(WrongNetwork)
      else if data == [] then Failure(BadProgram)
      else if data[0] > 16 then Failure(BadVersion)
      else if checksum != Expected(data[0]) then Failure(WrongChecksum)
      else match Converted(data[1..], 5, 8)
        case None => Failure(BadProgram)
        case Some(program) =>
          if !ProgramFits(data[0], program) then Failure(BadProgram)
          else if data[0] == 0 then Success(SegwitV0) else Success(SegwitV1)
  }

  function ValidateBase58(address: string, params: Params, digest: Bytes -> Bytes): Result<AddressKind, AddressError> {
    match Decode(address)
    case Failure(err) => Failure(err)
    case Success(decoded) =>
      if |decoded| != 25 then Failure(WrongLength)
      else if digest(decoded[..21]) != decoded[21..] then Failure(WrongChecksum)
      else if decoded[0] == params.p2pkhVersion then Success(P2Pkh)
      else if decoded[0] == params.p2shVersion then Success(P2Sh)
      else Failure(WrongNetwork)
  }

  /** The part before the first `1` in lower case, when there is one. */
  function Prefix(address: string): Option<string> {
    var at := IndexOf(Lower(address), '1');
    if at < |address| then Some(Lower(address)[..at]) else None
  }

  /** `validate_bitcoin_address`. */
  function Validate(address: string, network: string, digest: Bytes -> Bytes): Result<AddressKind, AddressError> {
    match Network(network)
    case None => Failure(UnknownNetwork)
    case Some(params) =>
      if Strip(address) == "" then Failure(Empty)
      else if Strip(address) != address then Failure(Whitespace)
      else if params.hrp + "1" <= Lower(address) then ValidateBech32(address, params)
      else if Prefix(address).Some? && Prefix(address).value in {"bc", "tb", "bcrt"} then ValidateBech32(address, params)
      else ValidateBase58(address, params, digest)
  }

  /** No corruption of at most six consecutive data symbols of an accepted segwit address is
      accepted, as long as it does not turn version 0 into another version or back: single
      typos and adjacent swaps included. */
  lemma TypoIsRejected(hrp: string, a: seq<nat>, x: seq<nat>, y: seq<nat>, b: seq<nat>, params: Params)
    requires LowerHrp(hrp) && AreDigits(32, a) && AreDigits(32, x) && AreDigits(32, y) && AreDigits(32, b)
    requires |x| == |y| <= 6 && x != y && 6 < |a + x + b| <= 89 - |hrp|
    requires (a + x + b)[0] == 0 <==> (a + y + b)[0] == 0
    requires AreDigits(32, a + x + b) && ValidateBech32(Address(hrp, a + x + b), params).Success?
    ensures AreDigits(32, a + y + b) && ValidateBech32(Address(hrp, a + y + b), params).Failure?
  {
    hide Polymod, Split, Converted, Address;
    SplitUndoesAddress(hrp, a + x + b, Some(90));
    SplitUndoesAddress(hrp, a + y + b, Some(90));
    assert AreDigits(32, HrpExpand(hrp) + a);
    BurstIsDetected(HrpExpand(hrp) + a, x, y, b);
    assert HrpExpand(hrp) + a + x + b == HrpExpand(hrp) + (a + x + b);
    assert HrpExpand(hrp) + a + y + b == HrpExpand(hrp) + (a + y + b);
  }

  // -- validation as a whole ------------------------------------------------------------------------

  /** A segwit address shows its network before its first `1`. */
  lemma SegwitShowsPrefix(address: string, params: Params)
    requires ValidateBech32(address, params).Success? && '1' !in params.hrp
    ensures Prefix(address) == Some(params.hrp)
  {
    hide Polymod, Converted, SymbolsOf, HrpExpand, OneCase, LowerChar;
    var lowered := Lower(address);
    var at := LastIndexOf(lowered, '1').value;
    assert lowered[..at] == params.hrp;
    assert forall k :: 0 <= k < at ==> lowered[k] == params.hrp[k];
  }

  /** Every segwit prefix leads to the bech32 rules, whatever the network asked for. */
  lemma SegwitGoesToBech32(address: string, network: string, digest: Bytes -> Bytes)
    requires Prefix(address).Some? && Prefix(address).value in {"bc", "tb", "bcrt"} && Validate(address, network, digest).Success?
    ensures ValidateBech32(address, Network(network).value) == Validate(address, network, digest)
  {
    hide ValidateBech32, ValidateBase58, Prefix, Strip;
  }

  /** What one network accepts, another accepts only as the same kind of address and under the
      same prefix or version byte. So no address is valid both on mainnet and on a test network. */
  lemma NetworksAreSeparate(address: string, network: string, other: string, digest: Bytes -> Bytes)
    requires Validate(address, network, digest).Success? && Validate(address, other, digest).Success?
    ensures Validate(address, network, digest) == Validate(address, other, digest)
    ensures var p, q := Network(network).value, Network(other).value;
      match Validate(address, network, digest).value
      case P2Pkh => p.p2pkhVersion == q.p2pkhVersion
      case P2Sh => p.p2shVersion == q.p2shVersion
      case _ => p.hrp == q.hrp
    ensures network == "mainnet" <==> other == "mainnet"
  {
    hide Split, Decode, Converted, Prefix, Strip, Lower;
    var p, q := Network(network).value, Network(other).value;
    if ValidateBech32(address, p).Success? {
      SegwitShowsPrefix(address, p);
      SegwitGoesToBech32(address, network, digest);
      SegwitGoesToBech32(address, other, digest);
    } else if ValidateBech32(address, q).Success? {
      SegwitShowsPrefix(address, q);
      SegwitGoesToBech32(address, network, digest);
      assert false;
    }
  }

  lemma AddressShowsPrefix(hrp: string, symbols: seq<nat>)
    requires LowerHrp(hrp) && '1' !in hrp && AreDigits(32, symbols)
    ensures Prefix(Address(hrp, symbols)) == Some(hrp)
  {
    hide Address, Lower, Printable, CharsOf;
    AddressShape(hrp, symbols);
    PrefixEndsAtOne(hrp, Address(hrp, symbols));
  }

  lemma PrefixEndsAtOne(hrp: string, text: string)
    requires '1' !in hrp && |hrp| < |text| && text[..|hrp|] == hrp && text[|hrp|] == '1'
    ensures IndexOf(text, '1') == |hrp|
  {
    assert forall k :: 0 <= k < |hrp| ==> text[k] == hrp[k];
  }

  lemma KnownPrefixes()
    ensures forall hrp :: hrp in {"bc", "tb", "bcrt"} ==> LowerHrp(hrp) && '1' !in hrp
  {
  }

  /** A mistyped segwit address is refused on every network: up to six consecutive symbols may be
      wrong, as long as version 0 stays version 0 and another version another. */
  lemma MistypedIsRefused(hrp: string, a: seq<nat>, x: seq<nat>, y: seq<nat>, b: seq<nat>, network: string, other: string, digest: Bytes -> Bytes)
    requires hrp in {"bc", "tb", "bcrt"} && AreDigits(32, a) && AreDigits(32, x) && AreDigits(32, y) && AreDigits(32, b)
    requires |x| == |y| <= 6 && x != y && 6 < |a + x + b| <= 89 - |hrp| && ((a + x + b)[0] == 0 <==> (a + y + b)[0] == 0)
    requires AreDigits(32, a + x + b) && Validate(Address(hrp, a + x + b), network, digest).Success?
    ensures AreDigits(32, a + y + b) && Validate(Address(hrp, a + y + b), other, digest).Failure?
  {
    hide ValidateBech32, ValidateBase58, Prefix, Strip, Address, Lower, Printable, Network;
    KnownPrefixes();
    AddressShowsPrefix(hrp, a + x + b);
    AddressShowsPrefix(hrp, a + y + b);
    SegwitGoesToBech32(Address(hrp, a + x + b), network, digest);
    var params := Network(network).value;
    OwnPrefix(hrp, a + x + b, params);
    TypoIsRejected(hrp, a, x, y, b, params);
    if Validate(Address(hrp, a + y + b), other, digest).Success? {
      SegwitGoesToBech32(Address(hrp, a + y + b), other, digest);
      OwnPrefix(hrp, a + y + b, Network(other).value);
      SameRules(Address(hrp, a + y + b), params, Network(other).value);
    }
  }

  lemma OwnPrefix(hrp: string, symbols: seq<nat>, params: Params)
    requires LowerHrp(hrp) && AreDigits(32, symbols) && 6 < |symbols| <= 89 - |hrp|
    requires ValidateBech32(Address(hrp, symbols), params).Success?
    ensures params.hrp == hrp
  {
    hide Polymod, Split, Converted, Address;
    SplitUndoesAddress(hrp, symbols, Some(90));
  }

  /** The bech32 rules know a network by its prefix alone. */
  lemma SameRules(address: string, params: Params, others: Params)
    requires params.hrp == others.hrp
    ensures ValidateBech32(address, params) == ValidateBech32(address, others)
  {
    hide Split, Converted;
  }

  // -- every program has an address --------------------------------------------------------------

  /** How many zero bits complete the last five-bit group. */
  function Padding(bytes: nat): (p: nat)
    ensures p < 5 && (8 * bytes + p) % 5 == 0
  {
    (5 - 8 * bytes % 5) % 5
  }

  /** The five-bit groups of a byte string, zero-padded. */
  function Grouped(bytes: Bytes): (r: seq<nat>)
    ensures AreDigits(32, r) && |r| == (8 * |bytes| + Padding(|bytes|)) / 5
  {
    Fixed(32, (8 * |bytes| + Padding(|bytes|)) / 5, Val(256, bytes) * Pow(2, Padding(|bytes|)))
  }

  lemma Powers()
    ensures Pow(2, 5) == 32 && Pow(2, 8) == 256
  {
    assert Pow(2, 4) == 16;
    assert Pow(2, 7) == 128;
  }

  /** The groups of a byte string convert back to it. */
  lemma GroupedConverts(bytes: Bytes)
    requires AreBytes(bytes)
    ensures Converted(Grouped(bytes), 5, 8) == Some(bytes)
  {
    hide Val, Pow, Converted, Bits;
    Powers();
    var p, n := Padding(|bytes|), |Grouped(bytes)|;
    var value := Val(256, bytes);
    ValBound(256, bytes);
    PowOfPow(2, 8, |bytes|);
    PowOfPow(2, 5, n);
    PowAdds(2, 8 * |bytes|, p);
    PowPositive(2, p);
    assert value * Pow(2, p) < Pow(32, n) by {
      BoundStep(value, Pow(2, 8 * |bytes|), Pow(2, p), 0);
    }
    FixedVal(32, n, value * Pow(2, p));
    PaddingShifts(5, 8, Grouped(bytes), bytes, p);
    assert PaddedBy(5, 8, Grouped(bytes), bytes, p);
    ConvertsExactly(Grouped(bytes), 5, 8, bytes);
  }

  /** The address of a witness program. */
  function SegwitAddress(hrp: string, version: nat, program: Bytes): string
    requires version <= 16 && Printable(hrp)
  {
    SealedAddress(hrp, [version] + Grouped(program), Expected(version))
  }

  function SealedAddress(hrp: string, data: seq<nat>, constant: bv30): string
    requires AreDigits(32, data) && Printable(hrp)
  {
    Address(hrp, data + Checksum(HrpExpand(hrp) + data, constant))
  }

  /** Every program a version allows has an address, and it is accepted on its own network. */
  lemma SegwitAddressIsValid(params: Params, version: nat, program: Bytes)
    requires LowerHrp(params.hrp) && |params.hrp| <= 4 && version <= 16 && AreBytes(program) && ProgramFits(version, program)
    ensures ValidateBech32(SegwitAddress(params.hrp, version, program), params)
         == Success(if version == 0 then SegwitV0 else SegwitV1)
  {
    hide Polymod, Split, Converted, Address, Checksum, Grouped;
    var data := [version] + Grouped(program);
    GroupedSize(program);
    assert AreDigits(32, HrpExpand(params.hrp) + data);
    ChecksumMeets(HrpExpand(params.hrp) + data, Expected(version));
    var sum := Checksum(HrpExpand(params.hrp) + data, Expected(version));
    assert HrpExpand(params.hrp) + data + sum == HrpExpand(params.hrp) + (data + sum);
    SplitUndoesAddress(params.hrp, data + sum, Some(90));
    assert (data + sum)[..|data + sum| - 6] == data && data[1..] == Grouped(program);
    GroupedConverts(program);
  }

  lemma GroupedSize(bytes: Bytes)
    requires |bytes| <= 40
    ensures |Grouped(bytes)| <= 64
  {
  }

  // -- base58 ----------------------------------------------------------------------------------------

  /** A base58 address is accepted exactly when it encodes a version byte of this network, an
      account and the digest of the two. */
  lemma Base58Accepts(address: string, params: Params, digest: Bytes -> Bytes)
    ensures ValidateBase58(address, params, digest).Success? <==>
      InAlphabet(address) && exists payload: Bytes ::
        && |payload| == 21 && (payload[0] == params.p2pkhVersion || payload[0] == params.p2shVersion)
        && |digest(payload)| == 4 && AreBytes(payload + digest(payload)) && address == Encode(payload + digest(payload))
  {
    hide Encode, Decode, AreDigits, InAlphabet;
    if ValidateBase58(address, params, digest).Success? {
      DecodedIsBytes(address);
      DecodesAlphabet(address);
      var decoded := Decode(address).value;
      assert decoded[..21] + decoded[21..] == decoded;
    }
    if InAlphabet(address) {
      forall payload: Bytes |
        && |payload| == 21 && (payload[0] == params.p2pkhVersion || payload[0] == params.p2shVersion)
        && |digest(payload)| == 4 && AreBytes(payload + digest(payload)) && address == Encode(payload + digest(payload))
        ensures ValidateBase58(address, params, digest).Success?
      {
        DecodeUndoesEncode(payload + digest(payload));
        assert (payload + digest(payload))[..21] == payload && (payload + digest(payload))[21..] == digest(payload);
      }
    }
  }

  lemma DecodesAlphabet(address: string)
    ensures Decode(address).Success? <==> InAlphabet(address)
  {
  }
}
