/** Lightning invoices: BOLT 11, sections "Human-Readable Part", "Data Part" and "Tagged
    Fields". An encoder is defined beside the decoder, and decoding undoes it. */
module Bolt11 {
  import opened Wrappers
  import opened Numerals
  import opened Texts
  import opened Bech32

  const SIGNATURE_GROUPS := 104
  const TIMESTAMP_GROUPS := 7
  const PAYMENT_HASH_GROUPS := 52
  const DEFAULT_EXPIRY := 3600
  const BTC_IN_MSAT := 100_000_000_000

  const TAG_PAYMENT_HASH := 'p'
  const TAG_EXPIRY := 'x'

  datatype InvoiceError =
    | UnknownNetwork | Empty | Whitespace | NotAnInvoice | BadText(error: TextError) | WrongChecksum
    | UnknownPrefix | WrongNetwork | TooShort | RunsPastTheEnd | NoPaymentHash | BadAmount

  datatype Invoice = Invoice(network: string, amountMsat: Option<nat>, timestamp: nat, expiry: nat, paymentHash: string)

  // -- amounts -------------------------------------------------------------------------------------

  function Multiplier(c: char): Option<nat> {
    if c == 'm' then Some(100_000_000) else if c == 'u' then Some(100_000) else if c == 'n' then Some(100) else None
  }

  /** `\d+` and at most one multiplier; a pico amount must be a whole number of millisatoshi. */
  function AmountMsat(part: string): Result<Option<nat>, InvoiceError> {
    if part == "" then Success(None)
    else
      var last := part[|part| - 1];
      var digits := if IsDigit(last) then part else part[..|part| - 1];
      if digits == "" || !AllDigits(digits) then Failure(BadAmount)
      else if IsDigit(last) then Success(Some(ReadNat(digits) * BTC_IN_MSAT))
      else if last == 'p' then
        if ReadNat(digits) % 10 != 0 then Failure(BadAmount) else Success(Some(ReadNat(digits) / 10))
      else match Multiplier(last)
        case Some(factor) => Success(Some(ReadNat(digits) * factor))
        case None => Failure(BadAmount)
  }

  datatype Unit = Btc | Milli | Micro | Nano | Pico

  /** An amount an encoder may write: `count` of a unit, exact in millisatoshi. */
  datatype Amount = Amount(count: nat, unit: Unit) {
    predicate Exact() {
      unit == Pico ==> count % 10 == 0
    }

    function Msat(): nat {
      match unit
      case Btc => count * 100_000_000_000
      case Milli => count * 100_000_000
      case Micro => count * 100_000
      case Nano => count * 100
      case Pico => count / 10
    }

    function Text(): string {
      ShowNat(count) + match unit
        case Btc => ""
        case Milli => "m"
        case Micro => "u"
        case Nano => "n"
        case Pico => "p"
    }
  }

  lemma SuffixReads(digits: string, suffix: char)
    requires digits != "" && AllDigits(digits) && !IsDigit(suffix)
    ensures AmountMsat(digits + [suffix])
         == if suffix == 'p' then (if ReadNat(digits) % 10 != 0 then Failure(BadAmount) else Success(Some(ReadNat(digits) / 10)))
            else match Multiplier(suffix)
              case Some(factor) => Success(Some(ReadNat(digits) * factor))
              case None => Failure(BadAmount)
  {
    hide ReadNat;
    assert (digits + [suffix])[..|digits|] == digits;
  }

  /** An exact amount reads as its value. */
  lemma AmountReads(amount: Amount)
    requires amount.Exact()
    ensures AmountMsat(amount.Text()) == Success(Some(amount.Msat()))
  {
    hide ReadNat, AmountMsat;
    var digits := ShowNat(amount.count);
    match amount.unit {
      case Btc => PlainReads(digits);
      case Milli => SuffixReads(digits, 'm');
      case Micro => SuffixReads(digits, 'u');
      case Nano => SuffixReads(digits, 'n');
      case Pico => SuffixReads(digits, 'p');
    }
  }

  lemma PlainReads(digits: string)
    requires digits != "" && AllDigits(digits)
    ensures digits + "" == digits && AmountMsat(digits) == Success(Some(ReadNat(digits) * BTC_IN_MSAT))
  {
    hide ReadNat;
  }

  /** Every number of millisatoshi can be asked for: as ten times as many pico units. */
  lemma EveryAmountCanBeWritten(msat: nat)
    ensures AmountMsat(Amount(msat * 10, Pico).Text()) == Success(Some(msat))
  {
    AmountReads(Amount(msat * 10, Pico));
  }

  // -- groups -----------------------------------------------------------------------------------------

  /** `_as_int`. */
  method AsInt(groups: seq<nat>) returns (value: nat)
    ensures value == Val(32, groups)
  {
    value := 0;
    for n := 0 to |groups|
      invariant value == Val(32, groups[..n])
    {
      assert groups[..n + 1] == groups[..n] + [groups[n]];
      ValAppend(32, groups[..n], groups[n]);
      value := value * 32 + groups[n];
    }
    assert groups[..|groups|] == groups;
  }

  // -- tagged fields -------------------------------------------------------------------------------------

  function TagChar(symbol: nat): char
    requires symbol < 32
  {
    CharsetSize();
    CHARSET[symbol]
  }

  function FieldLength(payload: seq<nat>, index: nat): nat
    requires index + 3 <= |payload|
  {
    payload[index + 1] * 32 + payload[index + 2]
  }

  /** The fields of a payload from `index` on; the first occurrence of a tag wins. */
  function FieldsFrom(payload: seq<nat>, index: nat): Result<map<char, seq<nat>>, InvoiceError>
    requires AreDigits(32, payload) && index <= |payload|
    decreases |payload| - index
  {
    if index + 3 > |payload| then Success(map[])
    else
      var next := index + 3 + FieldLength(payload, index);
      if next > |payload| then Failure(RunsPastTheEnd)
      else match FieldsFrom(payload, next)
        case Failure(err) => Failure(err)
        case Success(rest) => Success(rest[TagChar(payload[index]) := payload[index + 3..next]])
  }

  function Fields(payload: seq<nat>): Result<map<char, seq<nat>>, InvoiceError>
    requires AreDigits(32, payload)
  {
    FieldsFrom(payload, 0)
  }

  /** Fields found earlier win over those found later. */
  function Over(later: Result<map<char, seq<nat>>, InvoiceError>, fields: map<char, seq<nat>>): Result<map<char, seq<nat>>, InvoiceError> {
    match later
    case Success(rest) => Success(rest + fields)
    case Failure(err) => Failure(err)
  }

  lemma NothingOver(later: Result<map<char, seq<nat>>, InvoiceError>)
    ensures Over(later, map[]) == later
  {
    if later.Success? {
      var none: map<char, seq<nat>> := map[];
      assert later.value + none == later.value;
    }
  }

  lemma MapOver(later: map<char, seq<nat>>, fields: map<char, seq<nat>>, tag: char, value: seq<nat>)
    ensures later[tag := value] + fields == later + if tag in fields then fields else fields[tag := value]
  {
  }

  /** One more field, unless its tag was there already. */
  lemma OverOne(payload: seq<nat>, index: nat, fields: map<char, seq<nat>>)
    requires AreDigits(32, payload) && index + 3 <= |payload| && index + 3 + FieldLength(payload, index) <= |payload|
    ensures var tag, next := TagChar(payload[index]), index + 3 + FieldLength(payload, index);
      Over(FieldsFrom(payload, index), fields)
      == Over(FieldsFrom(payload, next), if tag in fields then fields else fields[tag := payload[index + 3..next]])
  {
    hide CHARSET, TagChar, FieldLength;
    var tag, next := TagChar(payload[index]), index + 3 + FieldLength(payload, index);
    var later := FieldsFrom(payload, next);
    if later.Success? {
      MapOver(later.value, fields, tag, payload[index + 3..next]);
    }
  }

  /** `_tagged_fields`: `setdefault` in one pass. */
  method TaggedFields(payload: seq<nat>) returns (r: Result<map<char, seq<nat>>, InvoiceError>)
    requires AreDigits(32, payload)
    ensures r == Fields(payload)
  {
    hide CHARSET, TagChar, Over, FieldLength;
    var fields: map<char, seq<nat>> := map[];
    var index := 0;
    NothingOver(Fields(payload));
    while index + 3 <= |payload|
      invariant index <= |payload| && Fields(payload) == Over(FieldsFrom(payload, index), fields)
      decreases |payload| - index
    {
      var tag := TagChar(payload[index]);
      var next := index + 3 + FieldLength(payload, index);
      if next > |payload| {
        FailsOver(FieldsFrom(payload, index), fields);
        return Failure(RunsPastTheEnd);
      }
      OverOne(payload, index, fields);
      if tag !in fields {
        fields := fields[tag := payload[index + 3..next]];
      }
      index := next;
    }
    EmptyOver(fields);
    return Success(fields);
  }

  lemma FailsOver(later: Result<map<char, seq<nat>>, InvoiceError>, fields: map<char, seq<nat>>)
    ensures later.Failure? ==> Over(later, fields) == later
  {
  }

  lemma EmptyOver(fields: map<char, seq<nat>>)
    ensures Over(Success(map[]), fields) == Success(fields)
  {
    var none: map<char, seq<nat>> := map[];
    assert none + fields == fields;
  }

  /** A field an encoder writes. */
  datatype Field = Field(tag: nat, data: seq<nat>)

  predicate FieldOk(f: Field) {
    f.tag < 32 && AreDigits(32, f.data) && |f.data| < 1024
  }

  predicate FieldsOk(fields: seq<Field>) {
    forall i :: 0 <= i < |fields| ==> FieldOk(fields[i])
  }

  function Written(f: Field): (r: seq<nat>)
    requires FieldOk(f)
    ensures AreDigits(32, r) && |r| == 3 + |f.data|
  {
    [f.tag, |f.data| / 32, |f.data| % 32] + f.data
  }

  function AllWritten(fields: seq<Field>): (r: seq<nat>)
    requires FieldsOk(fields)
    ensures AreDigits(32, r)
  {
    if fields == [] then [] else Written(fields[0]) + AllWritten(fields[1..])
  }

  /** The data of the first field with this tag. */
  function FirstOf(fields: seq<Field>, tag: char): Option<seq<nat>>
    requires FieldsOk(fields)
  {
    if fields == [] then None
    else if TagChar(fields[0].tag) == tag then Some(fields[0].data)
    else FirstOf(fields[1..], tag)
  }

  /** What a scan found is what was written, first occurrences first. */
  ghost predicate FoundFirst(found: map<char, seq<nat>>, fields: seq<Field>)
    requires FieldsOk(fields)
  {
    forall tag :: (tag in found <==> FirstOf(fields, tag).Some?) && (tag in found ==> Some(found[tag]) == FirstOf(fields, tag))
  }

  lemma {:induction false} SuffixUndoesWriting(payload: seq<nat>, index: nat, fields: seq<Field>)
    requires AreDigits(32, payload) && index <= |payload| && FieldsOk(fields) && payload[index..] == AllWritten(fields)
    ensures var r := FieldsFrom(payload, index); r.Success? && FoundFirst(r.value, fields)
    decreases |fields|
  {
    hide CHARSET, TagChar;
    if fields != [] {
      var f := fields[0];
      WrittenAt(payload, index, f, AllWritten(fields[1..]));
      SuffixUndoesWriting(payload, index + 3 + |f.data|, fields[1..]);
    }
  }

  lemma WrittenAt(payload: seq<nat>, index: nat, f: Field, rest: seq<nat>)
    requires index <= |payload| && FieldOk(f) && payload[index..] == Written(f) + rest
    ensures index + 3 + |f.data| <= |payload| && payload[index] == f.tag && FieldLength(payload, index) == |f.data|
    ensures payload[index + 3..index + 3 + |f.data|] == f.data && payload[index + 3 + |f.data|..] == rest
  {
    var tail := payload[index..];
    assert tail[0] == payload[index] && tail[1] == payload[index + 1] && tail[2] == payload[index + 2];
    assert tail[3..3 + |f.data|] == f.data && tail[3 + |f.data|..] == rest;
  }

  /** The scan gives back every field list: unknown tags are carried along, the first occurrence
      of a tag wins, and the scan always ends. */
  lemma FieldsUndoWriting(fields: seq<Field>)
    requires FieldsOk(fields)
    ensures Fields(AllWritten(fields)).Success? && FoundFirst(Fields(AllWritten(fields)).value, fields)
  {
    hide FieldsFrom;
    assert AllWritten(fields)[0..] == AllWritten(fields);
    SuffixUndoesWriting(AllWritten(fields), 0, fields);
  }

  // -- the decoder ---------------------------------------------------------------------------------------

  function Prefixes(network: string): Option<set<string>> {
    if network == "mainnet" then Some({"bc"})
    else if network == "testnet" then Some({"tb"})
    else if network == "signet" then Some({"tbs", "sb"})
    else if network == "regtest" then Some({"bcrt"})
    else None
  }

  /** The bitcoin prefix of what follows `ln`, longest first. */
  function PrefixOf(rest: string): (r: Option<string>)
    ensures r.Some? ==> r.value <= rest
  {
    if "bcrt" <= rest then Some("bcrt")
    else if "tbs" <= rest then Some("tbs")
    else if "bc" <= rest then Some("bc")
    else if "tb" <= rest then Some("tb")
    else if "sb" <= rest then Some("sb")
    else None
  }

  function HexDigits(ds: seq<nat>): string
    requires AreDigits(16, ds)
  {
    seq(|ds|, i requires 0 <= i < |ds| => HexChar(ds[i]))
  }

  function Unprefixed(invoice: string): string {
    var once := if "lightning:" <= invoice then invoice[10..] else invoice;
    if "LIGHTNING:" <= once then once[10..] else once
  }

  /** What the checked data part says, once its prefix is known. */
  function Read(network: string, amount: string, payload: seq<nat>): Result<Invoice, InvoiceError>
    requires AreDigits(32, payload)
  {
    if |payload| < TIMESTAMP_GROUPS + SIGNATURE_GROUPS then Failure(TooShort)
    else match Fields(payload[TIMESTAMP_GROUPS..|payload| - SIGNATURE_GROUPS])
      case Failure(err) => Failure(err)
      case Success(fields) =>
        if TAG_PAYMENT_HASH !in fields || |fields[TAG_PAYMENT_HASH]| != PAYMENT_HASH_GROUPS then Failure(NoPaymentHash)
        else match AmountMsat(amount)
          case Failure(err) => Failure(err)
          case Success(msat) =>
            Success(Invoice(network, msat, Val(32, payload[..TIMESTAMP_GROUPS]),
                            if TAG_EXPIRY in fields then Val(32, fields[TAG_EXPIRY]) else DEFAULT_EXPIRY,
                            HexDigits(Fixed(16, 64, Val(32, fields[TAG_PAYMENT_HASH]) / 16))))
  }

  /** The prefix, the network and then the data of an invoice whose text is in order. */
  function ReadChecked(checked: Checked, network: string): Result<Invoice, InvoiceError>
    requires AreDigits(32, checked.data) && Prefixes(network).Some?
  {
    if checked.checksum != BECH32_CONST then Failure(WrongChecksum)
    else
      var rest := if |checked.hrp| >= 2 then checked.hrp[2..] else "";
      match PrefixOf(rest)
      case None => Failure(UnknownPrefix)
      case Some(prefix) =>
        if prefix !in Prefixes(network).value then Failure(WrongNetwork) else Read(network, rest[|prefix|..], checked.data)
  }

  /** `decode_bolt11`. */
  function DecodeBolt11(invoice: string, network: string): Result<Invoice, InvoiceError> {
    if Prefixes(network).None? then Failure(UnknownNetwork)
    else if Strip(invoice) == "" then Failure(Empty)
    else if Strip(invoice) != invoice then Failure(Whitespace)
    else if !("ln" <= Lower(Unprefixed(invoice))) then Failure(NotAnInvoice)
    else match Split(Unprefixed(invoice), None)
      case Failure(err) => Failure(BadText(err))
      case Success(checked) => ReadChecked(checked, network)
  }

  // -- the encoder ----------------------------------------------------------------------------------------

  /** Everything an encoder puts into an invoice. */
  datatype Request = Request(prefix: string, amount: Option<Amount>, timestamp: nat, fields: seq<Field>, signature: seq<nat>)

  predicate RequestOk(r: Request, network: string) {
    && Prefixes(network).Some? && r.prefix in Prefixes(network).value
    && (r.amount.Some? ==> r.amount.value.Exact())
    && r.timestamp < Pow(32, TIMESTAMP_GROUPS)
    && FieldsOk(r.fields)
    && |r.signature| == SIGNATURE_GROUPS && AreDigits(32, r.signature)
  }

  function InvoiceAmount(amount: Option<Amount>): string {
    match amount
    case Some(a) => a.Text()
    case None => ""
  }

  function Hrp(r: Request): string {
    "ln" + r.prefix + InvoiceAmount(r.amount)
  }

  function Payload(r: Request): (d: seq<nat>)
    requires FieldsOk(r.fields) && AreDigits(32, r.signature)
    ensures AreDigits(32, d)
  {
    Fixed(32, TIMESTAMP_GROUPS, r.timestamp) + AllWritten(r.fields) + r.signature
  }

  function EncodeBolt11(r: Request): string
    requires FieldsOk(r.fields) && AreDigits(32, r.signature) && Printable(Hrp(r))
  {
    Address(Hrp(r), Payload(r) + Checksum(HrpExpand(Hrp(r)) + Payload(r), BECH32_CONST))
  }

  /** The groups of a 32-byte payment hash, given as a number. */
  function HashGroups(hash: nat): (r: seq<nat>)
    ensures |r| == PAYMENT_HASH_GROUPS && AreDigits(32, r)
  {
    Fixed(32, PAYMENT_HASH_GROUPS, hash * 16)
  }

  lemma HashReads(hash: nat)
    requires hash < Pow(16, 64)
    ensures Val(32, HashGroups(hash)) / 16 == hash
  {
    hide Pow, Val;
    SameSpan();
    PowPositive(16, 64);
    BoundStep(hash, Pow(16, 64), 16, 0);
    FixedVal(32, PAYMENT_HASH_GROUPS, hash * 16);
  }

  /** 64 hexadecimal digits and four more bits are 52 groups of five. */
  lemma SameSpan()
    ensures 16 * Pow(16, 64) == Pow(32, 52)
  {
    hide Pow;
    SmallPowers();
    PowOfPow(2, 4, 64);
    PowOfPow(2, 5, 52);
    PowAdds(2, 4, 256);
  }

  lemma SmallPowers()
    ensures Pow(2, 4) == 16 && Pow(2, 5) == 32
  {
  }

  // -- decoding undoes encoding -----------------------------------------------------------------------

  predicate BitcoinPrefix(prefix: string) {
    prefix == "bc" || prefix == "tb" || prefix == "tbs" || prefix == "sb" || prefix == "bcrt"
  }

  lemma PrefixIsBitcoin(network: string, prefix: string)
    requires Prefixes(network).Some? && prefix in Prefixes(network).value
    ensures BitcoinPrefix(prefix)
  {
  }

  predicate StartsWithDigit(s: string) {
    s != "" && IsDigit(s[0])
  }

  /** An amount starts with a digit, so the longest prefix that matches is the one written. */
  lemma PrefixIsFound(prefix: string, amount: string)
    requires BitcoinPrefix(prefix) && (amount == "" || StartsWithDigit(amount))
    ensures PrefixOf(prefix + amount) == Some(prefix) && (prefix + amount)[|prefix|..] == amount
  {
    var rest := prefix + amount;
    assert rest[|prefix|..] == amount;
    assert prefix <= rest;
    if |prefix| < |rest| {
      assert rest[|prefix|] == amount[0];
    }
  }

  lemma AmountShape(amount: Option<Amount>)
    ensures var text := InvoiceAmount(amount);
      && (text == "" || StartsWithDigit(text))
      && (forall i :: 0 <= i < |text| ==> 33 <= text[i] as int <= 126 && LowerChar(text[i]) == text[i])
  {
    hide ReadNat;
    if amount.Some? {
      var digits, text := ShowNat(amount.value.count), InvoiceAmount(amount);
      assert forall i :: 0 <= i < |digits| ==> IsDigit(digits[i]) && text[i] == digits[i];
    }
  }

  lemma PrefixShape(prefix: string)
    requires BitcoinPrefix(prefix)
    ensures forall i :: 0 <= i < |prefix| ==> 33 <= prefix[i] as int <= 126 && LowerChar(prefix[i]) == prefix[i]
  {
  }

  lemma HrpShape(r: Request)
    requires BitcoinPrefix(r.prefix)
    ensures LowerHrp(Hrp(r)) && |Hrp(r)| >= 2 && Hrp(r)[0] == 'l' && Hrp(r)[1] == 'n'
    ensures Hrp(r)[2..] == r.prefix + InvoiceAmount(r.amount)
  {
    hide InvoiceAmount, BitcoinPrefix;
    AmountShape(r.amount);
    PrefixShape(r.prefix);
    var hrp := Hrp(r);
    assert hrp[2..] == r.prefix + InvoiceAmount(r.amount);
    forall i | 0 <= i < |hrp| ensures 33 <= hrp[i] as int <= 126 && LowerChar(hrp[i]) == hrp[i] {
      if 2 <= i < 2 + |r.prefix| {
        assert hrp[i] == r.prefix[i - 2];
      } else if i >= 2 {
        assert hrp[i] == InvoiceAmount(r.amount)[i - 2 - |r.prefix|];
      }
    }
  }

  /** What an invoice of this request says. */
  function Said(r: Request, network: string, hash: nat): Invoice
    requires FieldsOk(r.fields)
  {
    var expiry := FirstOf(r.fields, TAG_EXPIRY);
    Invoice(network, if r.amount.Some? then Some(r.amount.value.Msat()) else None, r.timestamp,
            if expiry.Some? then Val(32, expiry.value) else DEFAULT_EXPIRY, HexDigits(Fixed(16, 64, hash)))
  }

  lemma PayloadReads(r: Request, network: string, hash: nat)
    requires RequestOk(r, network) && hash < Pow(16, 64) && FirstOf(r.fields, TAG_PAYMENT_HASH) == Some(HashGroups(hash))
    ensures Read(network, InvoiceAmount(r.amount), Payload(r)) == Success(Said(r, network, hash))
  {
    hide Fields, AmountMsat, AllWritten, Val, Pow, HexDigits, HashGroups, FirstOf, Prefixes;
    var payload, time := Payload(r), Fixed(32, TIMESTAMP_GROUPS, r.timestamp);
    assert payload[..TIMESTAMP_GROUPS] == time;
    assert payload[TIMESTAMP_GROUPS..|payload| - SIGNATURE_GROUPS] == AllWritten(r.fields);
    FixedVal(32, TIMESTAMP_GROUPS, r.timestamp);
    FieldsUndoWriting(r.fields);
    var found := Fields(AllWritten(r.fields)).value;
    FoundTag(found, r.fields, TAG_PAYMENT_HASH);
    FoundTag(found, r.fields, TAG_EXPIRY);
    HashReads(hash);
    if r.amount.Some? {
      AmountReads(r.amount.value);
    } else {
      NoAmountReads();
    }
  }

  lemma NoAmountReads()
    ensures AmountMsat("") == Success(None)
  {
  }

  lemma FoundTag(found: map<char, seq<nat>>, fields: seq<Field>, tag: char)
    requires FieldsOk(fields) && FoundFirst(found, fields)
    ensures (tag in found <==> FirstOf(fields, tag).Some?) && (tag in found ==> Some(found[tag]) == FirstOf(fields, tag))
  {
  }

  lemma InvoiceText(text: string)
    requires |text| >= 2 && text[0] == 'l' && text[1] == 'n' && Lower(text) == text && !IsSpace(text[|text| - 1])
    ensures Strip(text) == text && "ln" <= Lower(text) && Unprefixed(text) == text
  {
    hide Strip, LowerChar;
    StripsToItself(text);
    assert !("lightning:" <= text) && !("LIGHTNING:" <= text);
  }

  lemma SchemeIsRemoved(text: string)
    requires |text| >= 2 && text[0] == 'l'
    ensures Unprefixed("lightning:" + text) == text
  {
    var whole := "lightning:" + text;
    assert "lightning:" <= whole && whole[10..] == text;
    assert !("LIGHTNING:" <= text);
  }

  lemma EncodedShape(r: Request)
    requires BitcoinPrefix(r.prefix) && FieldsOk(r.fields) && AreDigits(32, r.signature)
    ensures LowerHrp(Hrp(r))
    ensures var text := EncodeBolt11(r);
      Strip(text) == text && "ln" <= Lower(text) && Unprefixed(text) == text && Unprefixed("lightning:" + text) == text
  {
    hide BitcoinPrefix, InvoiceAmount, CHARSET, Checksum, HrpExpand, Hrp, Payload, Strip, LowerChar, Unprefixed, CharsOf;
    HrpShape(r);
    var symbols := Payload(r) + Checksum(HrpExpand(Hrp(r)) + Payload(r), BECH32_CONST);
    AddressShape(Hrp(r), symbols);
    var text := Address(Hrp(r), symbols);
    assert text[|Hrp(r)| + 1..] == CharsOf(symbols);
    LastIsPlain(symbols);
    InvoiceText(text);
    SchemeIsRemoved(text);
  }

  lemma LastIsPlain(symbols: seq<nat>)
    requires AreDigits(32, symbols) && symbols != []
    ensures !IsSpace(CharsOf(symbols)[|symbols| - 1])
  {
    hide CHARSET;
    CharsetIsDistinct(symbols[|symbols| - 1]);
  }

  /** Decoding gives back what was encoded: any network prefix, exact amount, timestamp, payment
      hash and field list, with or without the `lightning:` scheme. Unknown tags are skipped,
      the first occurrence of a tag counts, and a missing expiry is an hour. */
  lemma DecodeUndoesEncode(r: Request, network: string, hash: nat)
    requires RequestOk(r, network) && hash < Pow(16, 64) && FirstOf(r.fields, TAG_PAYMENT_HASH) == Some(HashGroups(hash))
    ensures LowerHrp(Hrp(r))
    ensures DecodeBolt11(EncodeBolt11(r), network) == Success(Said(r, network, hash))
    ensures DecodeBolt11("lightning:" + EncodeBolt11(r), network) == Success(Said(r, network, hash))
  {
    hide Prefixes, Read, Split, Polymod, Checksum, HrpExpand, Payload, InvoiceAmount, Hrp, Strip, Unprefixed, Address, PrefixOf;
    PrefixIsBitcoin(network, r.prefix);
    EncodedShape(r);
    HrpShape(r);
    EncodedSplits(r);
    AmountShape(r.amount);
    PrefixIsFound(r.prefix, InvoiceAmount(r.amount));
    PayloadReads(r, network, hash);
    EncodedNotEmpty(r);
    SchemeStrips(EncodeBolt11(r));
  }

  lemma SchemeStrips(text: string)
    requires text != "" && Strip(text) == text
    ensures Strip("lightning:" + text) == "lightning:" + text
  {
    hide Strip;
    StrippedEnds(text);
    StripsToItself("lightning:" + text);
  }

  lemma EncodedNotEmpty(r: Request)
    requires LowerHrp(Hrp(r)) && FieldsOk(r.fields) && AreDigits(32, r.signature)
    ensures EncodeBolt11(r) != ""
  {
    hide Checksum, Payload, HrpExpand;
  }

  lemma EncodedSplits(r: Request)
    requires LowerHrp(Hrp(r)) && FieldsOk(r.fields) && AreDigits(32, r.signature)
    ensures Split(EncodeBolt11(r), None) == Success(Checked(Hrp(r), Payload(r), BECH32_CONST))
  {
    hide Split, Polymod, Checksum, HrpExpand, Payload, Hrp, Address;
    var data := Payload(r);
    assert AreDigits(32, HrpExpand(Hrp(r)) + data);
    var sum := Checksum(HrpExpand(Hrp(r)) + data, BECH32_CONST);
    ChecksumMeets(HrpExpand(Hrp(r)) + data, BECH32_CONST);
    assert HrpExpand(Hrp(r)) + data + sum == HrpExpand(Hrp(r)) + (data + sum);
    SplitUndoesAddress(Hrp(r), data + sum, None);
    assert (data + sum)[..|data + sum| - 6] == data;
  }
}
