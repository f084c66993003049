/** The event log of a TRON transaction: which TRC-20 transfers it records. */
module TronLog {
  import opened Wrappers
  import opened Numerals
  import opened Texts
  import opened Base58
  import opened Tron

  const TRANSFER_TOPIC_HIGH := "ddf252ad1be2c89b69c2b068fc378daa"

  const TRANSFER_TOPIC_LOW := "952ba7f163c4a11628f55a4df523b3ef"

  /** The signature hash of `Transfer(address,address,uint256)`. */
  const TRANSFER_TOPIC := TRANSFER_TOPIC_HIGH + TRANSFER_TOPIC_LOW

  datatype LogEntry = LogEntry(address: string, topics: seq<string>, data: string)

  function HexDigitsOf(s: string): (r: Option<seq<nat>>)
    ensures r.Some? ==> |r.value| == |s| && AreDigits(16, r.value) && forall i :: 0 <= i < |s| ==> HexValue(s[i]) == Some(r.value[i])
    ensures r.None? ==> exists i :: 0 <= i < |s| && HexValue(s[i]).None?
  {
    if s == "" then Some([])
    else
      var n := |s| - 1;
      match HexDigitsOf(s[..n])
      case Some(ds) => if HexValue(s[n]).Some? then Some(ds + [HexValue(s[n]).value]) else None
      case None => None
  }

  /** `int(data or "0", 16)` on plain digits. */
  function AmountOf(data: string): Option<nat> {
    match HexDigitsOf(data)
    case Some(ds) => Some(Val(16, ds))
    case None => None
  }

  /** One entry: a transfer, or nothing when it is another event or cannot be read. */
  function ParseEntry(e: LogEntry, digest: Bytes -> Bytes): Option<Transfer> {
    if |e.topics| < 3 || Lower(e.topics[0]) != TRANSFER_TOPIC then None
    else
      var contract := TronAddressFromHex(e.address, digest);
      var sender := TronAddressFromHex(e.topics[1], digest);
      var recipient := TronAddressFromHex(e.topics[2], digest);
      var amount := AmountOf(e.data);
      if contract.Success? && sender.Success? && recipient.Success? && amount.Some?
      then Some(Transfer(contract.value, sender.value, recipient.value, amount.value)) else None
  }

  function Transfers(log: seq<LogEntry>, digest: Bytes -> Bytes): seq<Transfer> {
    if log == [] then []
    else
      var n := |log| - 1;
      Transfers(log[..n], digest) + match ParseEntry(log[n], digest)
        case Some(t) => [t]
        case None => []
  }

  /** The loop of `parse_transaction_info`. */
  method ParseTransfers(log: seq<LogEntry>, digest: Bytes -> Bytes) returns (transfers: seq<Transfer>)
    ensures transfers == Transfers(log, digest)
  {
    hide TRANSFER_TOPIC, TronAddressFromHex, AmountOf;
    transfers := [];
    for n := 0 to |log|
      invariant transfers == Transfers(log[..n], digest)
    {
      var e := log[n];
      assert log[..n + 1][..n] == log[..n];
      if e.topics == [] || Lower(e.topics[0]) != TRANSFER_TOPIC {
        continue;
      }
      if |e.topics| < 3 {
        continue;
      }
      var contract := TronAddressFromHex(e.address, digest);
      var sender := TronAddressFromHex(e.topics[1], digest);
      var recipient := TronAddressFromHex(e.topics[2], digest);
      if contract.Failure? || sender.Failure? || recipient.Failure? {
        continue;
      }
      var amount := AmountOf(e.data);
      if amount.None? {
        continue;
      }
      transfers := transfers + [Transfer(contract.value, sender.value, recipient.value, amount.value)];
    }
    assert log[..|log|] == log;
  }

  // -- what a transfer looks like on the chain -----------------------------------------------------

  predicate OnChain(t: Transfer, digest: Bytes -> Bytes) {
    && ValidateTron(t.contract, digest).Success? && ValidateTron(t.sender, digest).Success?
    && ValidateTron(t.recipient, digest).Success? && t.amount < Pow(16, 64)
  }

  function HexText(ds: seq<nat>): (s: string)
    requires AreDigits(16, ds)
    ensures |s| == |ds| && forall i :: 0 <= i < |ds| ==> s[i] == HexChar(ds[i])
  {
    seq(|ds|, i requires 0 <= i < |ds| => HexChar(ds[i]))
  }

  /** The hexadecimal form of an address: its 21 bytes. */
  function AccountHex(address: string): string {
    match Decode(address)
    case Success(b) => if |b| >= 21 && AreBytes(b[..21]) then Hex(b[..21]) else ""
    case Failure(_) => ""
  }

  /** The entry a token contract writes for a transfer. */
  function Emitted(t: Transfer): LogEntry {
    LogEntry(AccountHex(t.contract),
             [TRANSFER_TOPIC, PadAddress(t.sender).GetOr(""), PadAddress(t.recipient).GetOr("")],
             HexText(Fixed(16, 64, t.amount)))
  }

  lemma HighIsLower(i: nat)
    requires i < 32 && |TRANSFER_TOPIC_HIGH| == 32
    ensures LowerChar(TRANSFER_TOPIC_HIGH[i]) == TRANSFER_TOPIC_HIGH[i]
  {
  }

  lemma LowIsLower(i: nat)
    requires i < 32 && |TRANSFER_TOPIC_LOW| == 32
    ensures LowerChar(TRANSFER_TOPIC_LOW[i]) == TRANSFER_TOPIC_LOW[i]
  {
  }

  lemma TopicSizes()
    ensures |TRANSFER_TOPIC_HIGH| == 32 && |TRANSFER_TOPIC_LOW| == 32
  {
  }

  lemma TopicIsLower()
    ensures Lower(TRANSFER_TOPIC) == TRANSFER_TOPIC
  {
    hide TRANSFER_TOPIC_HIGH, TRANSFER_TOPIC_LOW, LowerChar;
    TopicSizes();
    forall i | 0 <= i < 64 ensures LowerChar(TRANSFER_TOPIC[i]) == TRANSFER_TOPIC[i] {
      if i < 32 {
        HighIsLower(i);
      } else {
        LowIsLower(i - 32);
      }
    }
  }

  lemma {:induction false} AmountReads(amount: nat)
    requires amount < Pow(16, 64)
    ensures AmountOf(HexText(Fixed(16, 64, amount))) == Some(amount)
  {
    hide Pow, HexChar, HexValue;
    var ds := Fixed(16, 64, amount);
    var s := HexText(ds);
    forall i | 0 <= i < |s| ensures HexValue(s[i]) == Some(ds[i]) {
      HexCharReads(ds[i]);
    }
    assert HexDigitsOf(s).Some?;
    assert HexDigitsOf(s).value == ds;
    FixedVal(16, 64, amount);
  }

  /** The 21 bytes of a valid address read back as the address. */
  lemma AccountHexReads(address: string, digest: Bytes -> Bytes)
    requires ValidateTron(address, digest).Success?
    ensures TronAddressFromHex(AccountHex(address), digest) == Success(address)
  {
    hide Decode, Encode, Strip, FromHex, Hex, AreDigits;
    var decoded := Decode(address).value;
    DecodedIsBytes(address);
    SubBytes(decoded);
    var payload, account := decoded[..21], decoded[1..21];
    assert payload == [TRON_PREFIX] + account;
    HexConcat([TRON_PREFIX], account);
    PrefixHex();
    HexIsLower(payload);
    assert Hex(payload)[0] == '4';
    FromHexReads(payload);
    assert payload + decoded[21..] == decoded;
  }

  /** Reading the log gives back every list of transfers that were written to it, in order. */
  lemma {:induction false} ParsingUndoesEmitting(transfers: seq<Transfer>, digest: Bytes -> Bytes)
    requires forall i :: 0 <= i < |transfers| ==> OnChain(transfers[i], digest)
    ensures Transfers(seq(|transfers|, i requires 0 <= i < |transfers| => Emitted(transfers[i])), digest) == transfers
  {
    hide Emitted, ParseEntry, OnChain;
    var log := seq(|transfers|, i requires 0 <= i < |transfers| => Emitted(transfers[i]));
    if transfers != [] {
      var n := |transfers| - 1;
      ParsingUndoesEmitting(transfers[..n], digest);
      assert log[..n] == seq(n, i requires 0 <= i < n => Emitted(transfers[..n][i]));
      EntryReads(transfers[n], digest);
      assert transfers == transfers[..n] + [transfers[n]];
    }
  }

  lemma EntryReads(t: Transfer, digest: Bytes -> Bytes)
    requires OnChain(t, digest)
    ensures ParseEntry(Emitted(t), digest) == Some(t)
  {
    hide TRANSFER_TOPIC, TronAddressFromHex, PadAddress, AccountHex, AmountOf, ValidateTron, HexText, Pow;
    TopicIsLower();
    AccountHexReads(t.contract, digest);
    TronHexRoundTrip(t.sender, digest);
    TronHexRoundTrip(t.recipient, digest);
    AmountReads(t.amount);
  }
}
