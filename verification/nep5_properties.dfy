/** Properties of the NEP-5 token helper that relate several operations or
    several calls: the order of the failure checks, which part of the
    response is read, the round trips from a value the node encodes back
    to the value the caller receives, and how request parameters bind
    by position.
 */
module Nep5Properties {
  import opened Results
  import opened Bytes
  import opened Strconv
  import Hex
  import opened Nep5

  /** The injected hex decoder does what hex decoding means on s. */
  predicate AgreesWithHex(hexToBytes: string -> seq<byte>, s: string) {
    Hex.IsHex(s) && hexToBytes(s) == Hex.Decode(s)
  }

  /** A response that passes the gate and carries value on top. */
  predicate Answers(resp: InvokeResponse, value: string) {
    resp.errMsg == "" && resp.state != Fault && |resp.stack| > 0 && resp.stack[0].value == value
  }

  // The failure gate, for all four decoders.

  /** A non-empty error message is the result, whatever the state and stack. */
  lemma NodeErrorWins(resp: InvokeResponse, hexToBytes: string -> seq<byte>)
    requires resp.errMsg != ""
    ensures DecodeAmount(resp, hexToBytes) == Failure(resp.errMsg)
    ensures DecodeText(resp, hexToBytes) == Failure(resp.errMsg)
    ensures DecodeDecimals(resp) == Failure(resp.errMsg)
    ensures DecodeBool(resp) == Failure(resp.errMsg)
  {
  }

  /** With no error message, a faulted engine fails whatever the stack holds. */
  lemma FaultWins(resp: InvokeResponse, hexToBytes: string -> seq<byte>)
    requires resp.errMsg == "" && resp.state == Fault
    ensures DecodeAmount(resp, hexToBytes) == Failure(EngineFaulted)
    ensures DecodeText(resp, hexToBytes) == Failure(EngineFaulted)
    ensures DecodeDecimals(resp) == Failure(EngineFaulted)
    ensures DecodeBool(resp) == Failure(EngineFaulted)
  {
  }

  /** With no error and no fault, an empty stack is a failure, not a zero or
      empty value. */
  lemma EmptyStackFails(resp: InvokeResponse, hexToBytes: string -> seq<byte>)
    requires resp.errMsg == "" && resp.state != Fault && resp.stack == []
    ensures DecodeAmount(resp, hexToBytes) == Failure(NoStackResult)
    ensures DecodeText(resp, hexToBytes) == Failure(NoStackResult)
    ensures DecodeDecimals(resp) == Failure(NoStackResult)
    ensures DecodeBool(resp) == Failure(NoStackResult)
  {
  }

  /** Only the value of the top stack item is read: two responses that agree
      on the error message, the state and that value decode alike, whatever
      the top item's type tag and whatever lies below it. */
  lemma OnlyTopValueRead(a: InvokeResponse, b: InvokeResponse, hexToBytes: string -> seq<byte>)
    requires a.errMsg == b.errMsg && a.state == b.state
    requires |a.stack| > 0 && |b.stack| > 0 && a.stack[0].value == b.stack[0].value
    ensures DecodeAmount(a, hexToBytes) == DecodeAmount(b, hexToBytes)
    ensures DecodeText(a, hexToBytes) == DecodeText(b, hexToBytes)
    ensures DecodeDecimals(a) == DecodeDecimals(b)
    ensures DecodeBool(a) == DecodeBool(b)
  {
  }

  // Operations that share a decoding.

  /** Given the same answer, total supply and balance decode identically. */
  lemma TotalSupplyDecodesLikeBalanceOf(contract: UInt160, account: UInt160,
                                        node: Invocation -> InvokeResponse,
                                        hexToBytes: string -> seq<byte>)
    requires node(TotalSupplyCall(contract)) == node(BalanceOfCall(contract, account))
    ensures TotalSupply(contract, node, hexToBytes) == BalanceOf(contract, account, node, hexToBytes)
  {
  }

  /** Given the same answer, name and symbol decode identically. */
  lemma NameDecodesLikeSymbol(contract: UInt160, node: Invocation -> InvokeResponse,
                              hexToBytes: string -> seq<byte>)
    requires node(NameCall(contract)) == node(SymbolCall(contract))
    ensures Name(contract, node, hexToBytes) == Symbol(contract, node, hexToBytes)
  {
  }

  // Round trips: what the node encodes is what the caller receives.

  /** An amount the node returns as the hex of its minimal little-endian
      bytes, followed by any number of zero bytes, decodes to that amount. */
  lemma AmountRoundTrip(resp: InvokeResponse, hexToBytes: string -> seq<byte>, n: u64, k: nat)
    requires Answers(resp, Hex.Encode(LittleEndianBytes(n) + Zeros(k)))
    requires AgreesWithHex(hexToBytes, resp.stack[0].value)
    ensures DecodeAmount(resp, hexToBytes) == Success(n)
  {
    Hex.DecodeEncode(LittleEndianBytes(n) + Zeros(k));
    ReadUint64RoundTrip(n, k);
  }

  /** A supply the node returns as its little-endian bytes with k trailing
      zero bytes (k = 1 for the sign byte of "8000", the node's 128) is the
      supply the caller receives. */
  lemma TotalSupplyRoundTrip(contract: UInt160, node: Invocation -> InvokeResponse,
                             hexToBytes: string -> seq<byte>, n: u64, k: nat)
    requires Answers(node(TotalSupplyCall(contract)), Hex.Encode(LittleEndianBytes(n) + Zeros(k)))
    requires AgreesWithHex(hexToBytes, Hex.Encode(LittleEndianBytes(n) + Zeros(k)))
    ensures TotalSupply(contract, node, hexToBytes) == Success(n)
  {
    AmountRoundTrip(node(TotalSupplyCall(contract)), hexToBytes, n, k);
  }

  /** The same for a balance. */
  lemma BalanceOfRoundTrip(contract: UInt160, account: UInt160, node: Invocation -> InvokeResponse,
                           hexToBytes: string -> seq<byte>, n: u64, k: nat)
    requires Answers(node(BalanceOfCall(contract, account)), Hex.Encode(LittleEndianBytes(n) + Zeros(k)))
    requires AgreesWithHex(hexToBytes, Hex.Encode(LittleEndianBytes(n) + Zeros(k)))
    ensures BalanceOf(contract, account, node, hexToBytes) == Success(n)
  {
    AmountRoundTrip(node(BalanceOfCall(contract, account)), hexToBytes, n, k);
  }

  /** A text the node returns as the hex of its bytes decodes to that text. */
  lemma TextRoundTrip(resp: InvokeResponse, hexToBytes: string -> seq<byte>, text: string)
    requires IsByteString(text)
    requires Answers(resp, Hex.Encode(StringToBytes(text)))
    requires AgreesWithHex(hexToBytes, resp.stack[0].value)
    ensures DecodeText(resp, hexToBytes) == Success(text)
  {
    Hex.DecodeEncode(StringToBytes(text));
    var r := DecodeText(resp, hexToBytes).value;
    assert StringToBytes(r) == StringToBytes(text);
    assert r == text by {
      forall i | 0 <= i < |r| ensures r[i] == text[i] {
        assert StringToBytes(r)[i] == StringToBytes(text)[i];
      }
    }
  }

  lemma NameRoundTrip(contract: UInt160, node: Invocation -> InvokeResponse,
                      hexToBytes: string -> seq<byte>, name: string)
    requires IsByteString(name)
    requires Answers(node(NameCall(contract)), Hex.Encode(StringToBytes(name)))
    requires AgreesWithHex(hexToBytes, Hex.Encode(StringToBytes(name)))
    ensures Name(contract, node, hexToBytes) == Success(name)
  {
    TextRoundTrip(node(NameCall(contract)), hexToBytes, name);
  }

  lemma SymbolRoundTrip(contract: UInt160, node: Invocation -> InvokeResponse,
                        hexToBytes: string -> seq<byte>, symbol: string)
    requires IsByteString(symbol)
    requires Answers(node(SymbolCall(contract)), Hex.Encode(StringToBytes(symbol)))
    requires AgreesWithHex(hexToBytes, Hex.Encode(StringToBytes(symbol)))
    ensures Symbol(contract, node, hexToBytes) == Success(symbol)
  {
    TextRoundTrip(node(SymbolCall(contract)), hexToBytes, symbol);
  }

  /** Decimals written in decimal text come back as the same 8-bit value. */
  lemma DecimalsRoundTrip(contract: UInt160, node: Invocation -> InvokeResponse, n: u8)
    requires Answers(node(DecimalsCall(contract)), FormatDecimal(n))
    ensures Decimals(contract, node) == Success(n)
  {
    ParseFormatDecimal(n);
  }

  /** A transfer outcome written as a boolean literal comes back unchanged. */
  lemma TransferRoundTrip(contract: UInt160, from: UInt160, to: UInt160, amount: u64,
                          node: Invocation -> InvokeResponse, b: bool)
    requires Answers(node(TransferCall(contract, from, to, amount)), FormatBool(b))
    ensures Transfer(contract, from, to, amount, node) == Success(b)
  {

  }

  // Concrete cases.

  /** Short hex values keep their byte positions: "01" is 1, "0002" is 512,
      "e803" is 1000, and the empty value is a successful zero. A trailing
      sign byte is harmless: "8000" is 128, and the nine bytes of 2^63 with
      its sign byte read back as 2^63. */
  lemma AmountExamples()
    ensures ReadUint64(Hex.Decode("01")) == 1
    ensures ReadUint64(Hex.Decode("0002")) == 512
    ensures ReadUint64(Hex.Decode("e803")) == 1000
    ensures ReadUint64(Hex.Decode("")) == 0
    ensures ReadUint64(Hex.Decode("8000")) == 128
    ensures ReadUint64([0, 0, 0, 0, 0, 0, 0, 0x80, 0]) == 0x8000_0000_0000_0000
  {

  }

  /** A balance query answered with "e803" yields 1000. */
  lemma BalanceOfScenario(contract: UInt160, account: UInt160, node: Invocation -> InvokeResponse,
                          hexToBytes: string -> seq<byte>)
    requires node(BalanceOfCall(contract, account)) ==
             InvokeResponse("", "HALT", [StackItem("ByteArray", "e803")])
    requires AgreesWithHex(hexToBytes, "e803")
    ensures BalanceOf(contract, account, node, hexToBytes) == Success(1000)
  {

  }

  /** A transfer of 100 answered with "true" yields true. */
  lemma TransferScenario(contract: UInt160, from: UInt160, to: UInt160,
                         node: Invocation -> InvokeResponse)
    requires node(TransferCall(contract, from, to, 100)) ==
             InvokeResponse("", "HALT", [StackItem("Boolean", "true")])
    ensures Transfer(contract, from, to, 100, node) == Success(true)
  {
  }

  /** "8" parses to 8; "bad", "", "-1", "+8" and the out-of-range "256" are
      "conversion failed" rather than a partial or truncated value; a
      leading zero is accepted. */
  lemma DecimalsExamples()
    ensures DecodeDecimals(InvokeResponse("", "HALT", [StackItem("Integer", "8")])) == Success(8)
    ensures DecodeDecimals(InvokeResponse("", "HALT", [StackItem("Integer", "08")])) == Success(8)
    ensures DecodeDecimals(InvokeResponse("", "HALT", [StackItem("Integer", "bad")])) == Failure(ConversionFailed)
    ensures DecodeDecimals(InvokeResponse("", "HALT", [StackItem("Integer", "")])) == Failure(ConversionFailed)
    ensures DecodeDecimals(InvokeResponse("", "HALT", [StackItem("Integer", "-1")])) == Failure(ConversionFailed)
    ensures DecodeDecimals(InvokeResponse("", "HALT", [StackItem("Integer", "+8")])) == Failure(ConversionFailed)
    ensures DecodeDecimals(InvokeResponse("", "HALT", [StackItem("Integer", "256")])) == Failure(ConversionFailed)
  {

  }

  /** A boolean result outside Go's literals is "conversion failed". */
  lemma TransferRejectsNonLiteral(resp: InvokeResponse, v: string)
    requires Answers(resp, v)
    requires v !in {"1", "t", "T", "TRUE", "true", "True", "0", "f", "F", "FALSE", "false", "False"}
    ensures DecodeBool(resp) == Failure(ConversionFailed)
  {
  }

  // Request shaping.

  /** Binding is positional: a transfer request with the sender and the
      receiver exchanged does not bind the arguments of the transfer it
      was meant to make, unless the two accounts are the same. */
  lemma SwappedTransferRejected(contract: UInt160, from: UInt160, to: UInt160, amount: u64)
    requires from != to
    ensures !BindsArguments(
      Invocation(contract, "transfer", [HashParameter(to), HashParameter(from), IntegerParameter(amount)]),
      map["from" := HashParameter(from), "to" := HashParameter(to), "amount" := IntegerParameter(amount)])
  {
    var inv := Invocation(contract, "transfer", [HashParameter(to), HashParameter(from), IntegerParameter(amount)]);
    assert inv.params[0] != HashParameter(from);
  }

  /** A transfer request determines its contract, sender, receiver and
      amount: exchanging the sender and the receiver changes the request
      unless they are the same account. */
  lemma TransferCallInjective(c1: UInt160, f1: UInt160, t1: UInt160, a1: u64,
                              c2: UInt160, f2: UInt160, t2: UInt160, a2: u64)
    requires TransferCall(c1, f1, t1, a1) == TransferCall(c2, f2, t2, a2)
    ensures c1 == c2 && f1 == f2 && t1 == t2 && a1 == a2
  {

  }

  /** A balance request determines its contract and account. */
  lemma BalanceOfCallInjective(c1: UInt160, a1: UInt160, c2: UInt160, a2: UInt160)
    requires BalanceOfCall(c1, a1) == BalanceOfCall(c2, a2)
    ensures c1 == c2 && a1 == a2
  {

  }
}
