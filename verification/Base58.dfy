/** Base58 and the TRON forms of an address. The four bytes of double SHA-256 behind a checksum
    are a parameter: any function of the payload. */
module Base58 {
  import opened Wrappers
  import opened Numerals
  import opened Texts

  const FIRST_HALF := "123456789ABCDEFGHJKLMNPQRSTUVWXYZ"

  const SECOND_HALF := "abcdefghijkmnopqrstuvwxyz"

  const ALPHABET := FIRST_HALF + SECOND_HALF

  const TRON_PREFIX := 0x41

  const TRON_ADDRESS_BYTES := 21

  datatype AddressError =
    | Empty | Whitespace | BadCharacter | WrongLength | WrongPrefix | WrongChecksum | NotHex | EvmStyle
    | WrongNetwork | UnknownNetwork | BadVersion | BadProgram | BadText

  type Bytes = seq<nat>

  predicate AreBytes(b: Bytes) {
    AreDigits(256, b)
  }

  // -- the alphabet ------------------------------------------------------------------------------

  /** The alphabet read backwards. */
  function DigitOf(c: char): nat {
    if '1' <= c <= '9' then c as int - '1' as int
    else if 'A' <= c <= 'H' then c as int - 'A' as int + 9
    else if 'J' <= c <= 'N' then c as int - 'J' as int + 17
    else if 'P' <= c <= 'Z' then c as int - 'P' as int + 22
    else if 'a' <= c <= 'k' then c as int - 'a' as int + 33
    else if 'm' <= c <= 'z' then c as int - 'm' as int + 44
    else 58
  }

  lemma AlphabetSize()
    ensures |FIRST_HALF| == 33 && |SECOND_HALF| == 25 && |ALPHABET| == 58
  {
  }

  lemma FirstPositions(n: nat)
    requires n < 33 && |FIRST_HALF| == 33
    ensures DigitOf(FIRST_HALF[n]) == n
  {
  }

  lemma SecondPositions(n: nat)
    requires n < 25 && |SECOND_HALF| == 25
    ensures DigitOf(SECOND_HALF[n]) == n + 33
  {
  }

  lemma AlphabetIsDistinct(n: nat)
    requires n < 58
    ensures |ALPHABET| == 58 && IndexOf(ALPHABET, ALPHABET[n]) == n
  {
    hide DigitOf, ALPHABET;
    AlphabetSize();
    var i := IndexOf(ALPHABET, ALPHABET[n]);
    PositionIs(n);
    if i < 58 {
      PositionIs(i);
    }
  }

  lemma PositionIs(n: nat)
    requires n < 58 && |ALPHABET| == 58
    ensures DigitOf(ALPHABET[n]) == n
  {
    hide DigitOf, FIRST_HALF, SECOND_HALF;
    AlphabetSize();
    if n < 33 {
      FirstPositions(n);
    } else {
      SecondPositions(n - 33);
    }
  }

  /** The digit of a character; 58 when it has none. */
  function Digit(c: char): nat {
    IndexOf(ALPHABET, c)
  }

  predicate InAlphabet(s: string) {
    forall i :: 0 <= i < |s| ==> Digit(s[i]) < 58
  }

  function Digits(s: string): (r: seq<nat>)
    ensures |r| == |s| && forall i :: 0 <= i < |s| ==> r[i] == Digit(s[i])
  {
    seq(|s|, i requires 0 <= i < |s| => Digit(s[i]))
  }

  /** The characters of base 58 digits. */
  function Chars(ds: seq<nat>): (s: string)
    requires AreDigits(58, ds)
    ensures |s| == |ds| && forall i :: 0 <= i < |ds| ==> |ALPHABET| == 58 && s[i] == ALPHABET[ds[i]]
  {
    AlphabetSize();
    seq(|ds|, i requires 0 <= i < |ds| => ALPHABET[ds[i]])
  }

  lemma DigitsOfChars(ds: seq<nat>)
    requires AreDigits(58, ds)
    ensures InAlphabet(Chars(ds)) && Digits(Chars(ds)) == ds
  {
    hide ALPHABET;
    forall i | 0 <= i < |ds| ensures Digit(Chars(ds)[i]) == ds[i] {
      AlphabetIsDistinct(ds[i]);
    }
  }

  lemma CharsOfDigits(s: string)
    requires InAlphabet(s)
    ensures AreDigits(58, Digits(s)) && Chars(Digits(s)) == s
  {
    hide ALPHABET;
    AlphabetSize();
    forall i | 0 <= i < |s| ensures ALPHABET[Digit(s[i])] == s[i] {
      assert InAlphabet(s);
    }
    assert Chars(Digits(s)) == s;
  }

  // -- encode and decode ---------------------------------------------------------------------------

  function Decode(s: string): Result<Bytes, AddressError> {
    if !InAlphabet(s) then Failure(BadCharacter)
    else Success(Zeros(Leading(Digits(s))) + Minimal(256, Val(58, Digits(s))))
  }

  function Encode(raw: Bytes): string {
    Chars(Zeros(Leading(raw)) + Minimal(58, Val(256, raw)))
  }

  /** Decoding undoes encoding, for every byte string, leading zeros included. */
  lemma DecodeUndoesEncode(raw: Bytes)
    requires AreBytes(raw)
    ensures Decode(Encode(raw)) == Success(raw)
  {
    hide ALPHABET, Val, Leading;
    var ds := Zeros(Leading(raw)) + Minimal(58, Val(256, raw));
    DigitsOfChars(ds);
    LeadingOf(Leading(raw), Minimal(58, Val(256, raw)));
    LeadingZeros(58, Leading(raw), Minimal(58, Val(256, raw)));
    MinimalVal(58, Val(256, raw));
    ZerosAndMinimal(256, raw);
  }

  /** Encoding undoes decoding, for every string over the alphabet. */
  lemma EncodeUndoesDecode(s: string)
    requires InAlphabet(s)
    ensures AreBytes(Decode(s).value) && Encode(Decode(s).value) == s
  {
    hide ALPHABET, Val, Leading;
    var ds := Digits(s);
    CharsOfDigits(s);
    var raw := Zeros(Leading(ds)) + Minimal(256, Val(58, ds));
    LeadingOf(Leading(ds), Minimal(256, Val(58, ds)));
    LeadingZeros(256, Leading(ds), Minimal(256, Val(58, ds)));
    MinimalVal(256, Val(58, ds));
    ZerosAndMinimal(58, ds);
  }

  /** `_base58_decode`. */
  method ComputeDecode(s: string) returns (r: Result<Bytes, AddressError>)
    ensures r == Decode(s)
  {
    hide ALPHABET, Minimal, Leading, Val;
    AlphabetSize();
    ghost var digits := Digits(s);
    var value: nat := 0;
    assert Val(58, digits[..0]) == 0 by {
      EmptyVal(58, digits[..0]);
    }
    for n := 0 to |s|
      invariant forall i :: 0 <= i < n ==> Digit(s[i]) < 58
      invariant value == Val(58, digits[..n])
    {
      var index := IndexOf(ALPHABET, s[n]);
      if index >= |ALPHABET| {
        assert Digit(s[n]) >= 58;
        return Failure(BadCharacter);
      }
      assert digits[..n + 1] == digits[..n] + [index];
      ValAppend(58, digits[..n], index);
      value := value * 58 + index;
    }
    assert digits[..|s|] == digits;
    var ones := 0;
    while ones < |s| && Digit(s[ones]) == 0
      invariant ones <= |s| && forall i :: 0 <= i < ones ==> Digits(s)[i] == 0
    {
      ones := ones + 1;
    }
    LeadingIs(Digits(s), ones);
    return Success(Zeros(ones) + Minimal(256, value));
  }

  lemma EmptyVal(b: nat, ds: seq<nat>)
    requires ds == []
    ensures Val(b, ds) == 0
  {
  }

  lemma {:induction false} LeadingIs(ds: seq<nat>, n: nat)
    requires n <= |ds| && (forall i :: 0 <= i < n ==> ds[i] == 0) && (n < |ds| ==> ds[n] != 0)
    ensures Leading(ds) == n
  {
    assert ds == Zeros(n) + ds[n..];
    LeadingOf(n, ds[n..]);
  }

  function Reversed(ds: seq<nat>): (r: seq<nat>)
    ensures |r| == |ds| && forall i :: 0 <= i < |ds| ==> r[i] == ds[|ds| - 1 - i]
  {
    seq(|ds|, i requires 0 <= i < |ds| => ds[|ds| - 1 - i])
  }

  /** `_base58_encode`: the digits come out least significant first and are turned round. */
  method ComputeEncode(raw: Bytes) returns (s: string)
    requires AreBytes(raw)
    ensures s == Encode(raw)
  {
    hide ALPHABET, Leading, Val;
    var value := Val(256, raw);
    var digits: seq<nat> := [];
    while value != 0
      invariant AreDigits(58, digits)
      invariant Minimal(58, Val(256, raw)) == Minimal(58, value) + Reversed(digits)
    {
      DivMod(value, 58);
      var remainder := value % 58;
      assert Minimal(58, value) == Minimal(58, value / 58) + [remainder];
      assert [remainder] + Reversed(digits) == Reversed(digits + [remainder]);
      assert Minimal(58, value) + Reversed(digits) == Minimal(58, value / 58) + ([remainder] + Reversed(digits));
      value := value / 58;
      digits := digits + [remainder];
    }
    assert Minimal(58, 0) + Reversed(digits) == Reversed(digits);
    var zeros := 0;
    while zeros < |raw| && raw[zeros] == 0
      invariant zeros <= |raw| && forall i :: 0 <= i < zeros ==> raw[i] == 0
    {
      zeros := zeros + 1;
    }
    LeadingIs(raw, zeros);
    return Chars(Zeros(zeros) + Reversed(digits));
  }

  // -- hexadecimal ------------------------------------------------------------------------------------

  function HexValue(c: char): Option<nat> {
    if '0' <= c <= '9' then Some(c as int - '0' as int)
    else if 'a' <= c <= 'f' then Some(c as int - 'a' as int + 10)
    else if 'A' <= c <= 'F' then Some(c as int - 'A' as int + 10)
    else None
  }

  /** Two lower-case digits a byte. */
  function Hex(b: Bytes): (s: string)
    requires AreBytes(b)
    ensures |s| == 2 * |b|
  {
    if b == [] then "" else [HexChar(b[0] / 16), HexChar(b[0] % 16)] + Hex(b[1..])
  }

  /** `bytes.fromhex`: pairs of digits, whitespace allowed between them. */
  function FromHex(s: string): Option<Bytes> {
    if s == "" then Some([])
    else if IsSpace(s[0]) then FromHex(s[1..])
    else if |s| < 2 || HexValue(s[0]).None? || HexValue(s[1]).None? then None
    else match FromHex(s[2..])
      case None => None
      case Some(rest) => Some([HexValue(s[0]).value * 16 + HexValue(s[1]).value] + rest)
  }

  lemma HexCharReads(n: nat)
    requires n < 16
    ensures HexValue(HexChar(n)) == Some(n) && !IsSpace(HexChar(n)) && LowerChar(HexChar(n)) == HexChar(n)
  {
  }

  lemma {:induction false} FromHexReads(b: Bytes)
    requires AreBytes(b)
    ensures FromHex(Hex(b)) == Some(b)
  {
    hide HexChar, HexValue, IsSpace;
    if b != [] {
      FromHexReads(b[1..]);
      HexCharReads(b[0] / 16);
      HexCharReads(b[0] % 16);
      assert Hex(b)[2..] == Hex(b[1..]);
      assert b == [b[0]] + b[1..];
    }
  }

  lemma {:induction false} HexIsLower(b: Bytes)
    requires AreBytes(b)
    ensures Lower(Hex(b)) == Hex(b)
  {
    hide HexChar;
    if b != [] {
      HexIsLower(b[1..]);
      HexCharReads(b[0] / 16);
      HexCharReads(b[0] % 16);
      var h := Hex(b);
      assert h[2..] == Hex(b[1..]);
      forall i | 0 <= i < |h| ensures LowerChar(h[i]) == h[i] {
        if i >= 2 {
          assert h[i] == Hex(b[1..])[i - 2] && Lower(Hex(b[1..]))[i - 2] == LowerChar(h[i]);
        }
      }
    }
  }

  // -- TRON -------------------------------------------------------------------------------------------

  /** `validate_tron_address`. */
  function ValidateTron(address: string, digest: Bytes -> Bytes): Result<(), AddressError> {
    if Strip(address) == "" then Failure(Empty)
    else if Strip(address) != address then Failure(Whitespace)
    else if "0x" <= address then Failure(EvmStyle)
    else if !("T" <= address) then Failure(WrongPrefix)
    else match Decode(address)
      case Failure(err) => Failure(err)
      case Success(decoded) =>
        if |decoded| != TRON_ADDRESS_BYTES + 4 then Failure(WrongLength)
        else if decoded[0] != TRON_PREFIX then Failure(WrongPrefix)
        else if digest(decoded[..TRON_ADDRESS_BYTES]) != decoded[TRON_ADDRESS_BYTES..] then Failure(WrongChecksum)
        else Success(())
  }

  function PadTo(s: string, width: nat): string {
    seq(if |s| < width then width - |s| else 0, _ => '0') + s
  }

  /** `_pad_address`: the account as a 32-byte ABI argument. */
  function PadAddress(address: string): Result<string, AddressError> {
    match Decode(address)
    case Failure(err) => Failure(err)
    case Success(decoded) =>
      var raw := if |decoded| > 21 then decoded[..21] else decoded;
      var account := if raw == [] then [] else raw[1..];
      if !AreBytes(account) then Failure(NotHex) else Success(PadTo(Hex(account), 64))
  }

  /** `tron_address_from_hex`. */
  function TronAddressFromHex(value: string, digest: Bytes -> Bytes): Result<string, AddressError> {
    var lowered := Lower(value);
    var raw := if "0x" <= lowered then lowered[2..] else lowered;
    var topic := if |raw| == 64 then "41" + raw[|raw| - 40..] else raw;
    var prefixed := if |topic| == 40 then "41" + topic else topic;
    if |prefixed| != 42 then Failure(NotHex)
    else match FromHex(prefixed)
      case None => Failure(NotHex)
      case Some(payload) => Success(Encode(payload + digest(payload)))
  }

  lemma {:induction false} HexConcat(a: Bytes, b: Bytes)
    requires AreBytes(a) && AreBytes(b)
    ensures AreBytes(a + b) && Hex(a + b) == Hex(a) + Hex(b)
  {
    if a == [] {
      assert a + b == b;
    } else {
      HexConcat(a[1..], b);
      assert (a + b)[1..] == a[1..] + b;
    }
  }

  /** Padding a valid address and reading it back gives the address. */
  lemma TronHexRoundTrip(address: string, digest: Bytes -> Bytes)
    requires ValidateTron(address, digest).Success?
    ensures PadAddress(address).Success?
    ensures TronAddressFromHex(PadAddress(address).value, digest) == Success(address)
  {
    hide Decode, Encode, Strip, FromHex, Hex, AreDigits;
    var decoded := Decode(address).value;
    DecodedIsBytes(address);
    var payload, account := decoded[..21], decoded[1..21];
    assert decoded[..21][1..] == account && payload == [TRON_PREFIX] + account;
    SubBytes(decoded);
    var padded := PadTo(Hex(account), 64);
    PaddedReads(account);
    HexConcat([TRON_PREFIX], account);
    PrefixHex();
    FromHexReads(payload);
    assert payload + decoded[21..] == decoded;
  }

  lemma DecodedIsBytes(address: string)
    requires Decode(address).Success?
    ensures AreBytes(Decode(address).value) && Encode(Decode(address).value) == address
  {
    EncodeUndoesDecode(address);
  }

  lemma SubBytes(b: Bytes)
    requires |b| >= 21 && AreBytes(b)
    ensures AreBytes(b[..21]) && AreBytes(b[1..21]) && AreBytes([TRON_PREFIX])
  {
  }

  lemma PrefixHex()
    ensures AreBytes([TRON_PREFIX]) && Hex([TRON_PREFIX]) == "41"
  {
    assert Hex([TRON_PREFIX]) == [HexChar(4), HexChar(1)] + Hex([]);
  }

  /** Twenty bytes in 64 digits: lower case, no `0x`, and the account in the last 40. */
  lemma PaddedReads(account: Bytes)
    requires AreBytes(account) && |account| == 20
    ensures var padded := PadTo(Hex(account), 64);
      |padded| == 64 && Lower(padded) == padded && !("0x" <= padded) && padded[24..] == Hex(account)
  {
    hide Hex, AreDigits;
    HexIsLower(account);
    var padded := PadTo(Hex(account), 64);
    forall i | 0 <= i < 64 ensures LowerChar(padded[i]) == padded[i] {
      if i >= 24 {
        assert padded[i] == Hex(account)[i - 24] && Lower(Hex(account))[i - 24] == LowerChar(padded[i]);
      }
    }
    assert padded[1] == '0';
  }
}
