/** The NEP-5 token helper: six operations that each build a contract
    invocation, send it through the node's `invokescript` call, pass the
    response through one shared failure gate and decode the top stack
    item in one of four ways.

    The script builder, the hex-encoding of the script and the RPC round
    trip are collapsed into a `node` parameter that maps the invocation
    (contract, method name, tagged parameters) to the node's response. The
    helper library's hex decoder is the `hexToBytes` parameter.
 */
module Nep5 {
  import opened Results
  import opened Bytes
  import opened Strconv

  /** A 20-byte script hash (`helper.UInt160`), modelled as the bytes its
      `Bytes()` method hands to the script builder. */
  type UInt160 = b: seq<byte> | |b| == 20
    witness [0, 0, 0, 0, 0, 0, 0, 0, 0, 0, 0, 0, 0, 0, 0, 0, 0, 0, 0, 0]

  /** One entry of the virtual machine's result stack; the helper reads only
      `value`. */
  datatype StackItem = StackItem(typ: string, value: string)

  /** The parts of an `invokescript` response the helper reads: the error
      message (filled by the node or by the transport), the execution state
      and the result stack, top first. */
  datatype InvokeResponse = InvokeResponse(errMsg: string, state: string, stack: seq<StackItem>)

  /** Tags of the contract parameters the helper builds. */
  datatype ParameterType = Hash160 | Integer

  datatype ParameterValue = HashBytes(bytes: seq<byte>) | IntegerValue(n: u64)

  /** A tagged argument of a contract call (`sc.ContractParameter`). */
  datatype ContractParameter = ContractParameter(typ: ParameterType, value: ParameterValue)

  /** What the helper hands to the script builder: the target contract, the
      method name and the ordered parameter list. */
  datatype Invocation = Invocation(contract: UInt160, operation: string, params: seq<ContractParameter>)

  const Fault := "FAULT"
  const EngineFaulted := "engine faulted"
  const NoStackResult := "no stack result returned"
  const ConversionFailed := "conversion failed"

  /** The checks every operation runs, in this order, before decoding: a node
      or transport error message, a faulted engine, an empty stack. On
      success it yields the top stack item. */
  function CheckResponse(resp: InvokeResponse): (r: Result<StackItem>)
    ensures r.Success? <==> resp.errMsg == "" && resp.state != Fault && |resp.stack| > 0
    ensures r.Success? ==> r.value == resp.stack[0]
    ensures r.Failure? ==> r.error != ""
  {
    if |resp.errMsg| != 0 then Failure(resp.errMsg)
    else if resp.state == Fault then Failure(EngineFaulted)
    else if |resp.stack| == 0 then Failure(NoStackResult)
    else Success(resp.stack[0])
  }

  /** Go's `string(bytes)`: a byte-for-byte copy, one character per byte,
      with no text decoding. */
  function BytesToString(b: seq<byte>): (s: string)
    ensures IsByteString(s) && StringToBytes(s) == b
  {
    seq(|b|, i requires 0 <= i < |b| => b[i] as char)
  }

  /** A string every character of which is a single byte. */
  predicate IsByteString(s: string) {
    forall i :: 0 <= i < |s| ==> s[i] as int < 0x100
  }

  /** The bytes of a string of byte-sized characters. */
  function StringToBytes(s: string): (b: seq<byte>)
    requires IsByteString(s)
    ensures |b| == |s|
  {
    seq(|s|, i requires 0 <= i < |s| => s[i] as int)
  }

  // The four decoders.

  /** Integer result (`totalSupply`, `balanceOf`): hex-decode the top value,
      pad with zero bytes at the end to eight bytes, read little-endian. It
      fails only at the gate; a short value keeps its byte positions and an
      over-long one is cut to its first eight bytes. */
  function DecodeAmount(resp: InvokeResponse, hexToBytes: string -> seq<byte>): (r: Result<u64>)
    ensures r.Success? <==> CheckResponse(resp).Success?
    ensures r.Failure? ==> r.error == CheckResponse(resp).error
    ensures r.Success? ==>
      var b := hexToBytes(resp.stack[0].value);
      (|b| <= 8 ==> r.value == LeValue(b) && r.value < Pow256(|b|)) &&
      (|b| > 8 ==> r.value == LeValue(b[..8]))
  {
    var top :- CheckResponse(resp);
    Success(ReadUint64(hexToBytes(top.value)))
  }

  /** Text result (`name`, `symbol`): exactly the hex-decoded bytes of the top
      value, as a string. It fails only at the gate. */
  function DecodeText(resp: InvokeResponse, hexToBytes: string -> seq<byte>): (r: Result<string>)
    ensures r.Success? <==> CheckResponse(resp).Success?
    ensures r.Failure? ==> r.error == CheckResponse(resp).error
    ensures r.Success? ==>
      IsByteString(r.value) && StringToBytes(r.value) == hexToBytes(resp.stack[0].value)
  {
    var top :- CheckResponse(resp);
    Success(BytesToString(hexToBytes(top.value)))
  }

  /** `decimals` result: the top value itself (not hex) parsed as an 8-bit
      base-10 unsigned integer; a value that does not parse or does not fit
      is the failure "conversion failed". */
  function DecodeDecimals(resp: InvokeResponse): (r: Result<u8>)
    ensures r.Success? <==>
      CheckResponse(resp).Success? &&
      var v := resp.stack[0].value; |v| > 0 && AllDigits(v) && DecimalValue(v) < 0x100
    ensures r.Success? ==> r.value == DecimalValue(resp.stack[0].value)
    ensures r.Failure? && CheckResponse(resp).Success? ==> r.error == ConversionFailed
    ensures CheckResponse(resp).Failure? ==> r.Failure? && r.error == CheckResponse(resp).error
  {
    var top :- CheckResponse(resp);
    match ParseUint8(top.value)
    case Some(d) => Success(d)
    case None => Failure(ConversionFailed)
  }

  /** Boolean result (`transfer`): the top value parsed as a Go boolean
      literal; anything else is the failure "conversion failed". */
  function DecodeBool(resp: InvokeResponse): (r: Result<bool>)
    ensures r.Success? <==> CheckResponse(resp).Success? && ParseBool(resp.stack[0].value).Some?
    ensures r.Success? ==> ParseBool(resp.stack[0].value) == Some(r.value)
    ensures r.Failure? && CheckResponse(resp).Success? ==> r.error == ConversionFailed
    ensures CheckResponse(resp).Failure? ==> r.Failure? && r.error == CheckResponse(resp).error
  {
    var top :- CheckResponse(resp);
    match ParseBool(top.value)
    case Some(b) => Success(b)
    case None => Failure(ConversionFailed)
  }

  // Request shaping: the method name and parameters of each operation.

  /** The parameters of each NEP-5 method, by the name the NEP-5 standard
      gives them and in its order, each with the tag this helper attaches
      (the standard itself declares `byte[]` addresses and a BigInteger
      amount, not tags);
      None for a name the standard does not define. */
  function HelperSignature(operation: string): Option<seq<(string, ParameterType)>> {
    match operation
    case "totalSupply" => Some([])
    case "name" => Some([])
    case "symbol" => Some([])
    case "decimals" => Some([])
    case "balanceOf" => Some([("account", Hash160)])
    case "transfer" => Some([("from", Hash160), ("to", Hash160), ("amount", Integer)])
    case _ => None
  }

  /** A parameter whose value has the shape its tag promises. */
  predicate WellFormedParameter(p: ContractParameter) {
    match p.typ
    case Hash160 => p.value.HashBytes? && |p.value.bytes| == 20
    case Integer => p.value.IntegerValue?
  }

  /** The invocation calls a NEP-5 method and its i-th parameter is the
      argument named by the i-th entry of that method's signature, carrying
      that entry's tag. */
  predicate BindsArguments(inv: Invocation, args: map<string, ContractParameter>) {
    var sig := HelperSignature(inv.operation);
    sig.Some? && |inv.params| == |sig.value| &&
    forall i :: 0 <= i < |inv.params| ==>
      sig.value[i].0 in args && inv.params[i] == args[sig.value[i].0] &&
      inv.params[i].typ == sig.value[i].1 && WellFormedParameter(inv.params[i])
  }

  function HashParameter(h: UInt160): ContractParameter {
    ContractParameter(Hash160, HashBytes(h))
  }

  function IntegerParameter(n: u64): ContractParameter {
    ContractParameter(Integer, IntegerValue(n))
  }

  function TotalSupplyCall(contract: UInt160): (r: Invocation)
    ensures r.contract == contract && r.operation == "totalSupply" && BindsArguments(r, map[])
  {
    Invocation(contract, "totalSupply", [])
  }

  function NameCall(contract: UInt160): (r: Invocation)
    ensures r.contract == contract && r.operation == "name" && BindsArguments(r, map[])
  {
    Invocation(contract, "name", [])
  }

  function SymbolCall(contract: UInt160): (r: Invocation)
    ensures r.contract == contract && r.operation == "symbol" && BindsArguments(r, map[])
  {
    Invocation(contract, "symbol", [])
  }

  function DecimalsCall(contract: UInt160): (r: Invocation)
    ensures r.contract == contract && r.operation == "decimals" && BindsArguments(r, map[])
  {
    Invocation(contract, "decimals", [])
  }

  function BalanceOfCall(contract: UInt160, account: UInt160): (r: Invocation)
    ensures r.contract == contract && r.operation == "balanceOf"
    ensures BindsArguments(r, map["account" := HashParameter(account)])
  {
    Invocation(contract, "balanceOf", [HashParameter(account)])
  }

  function TransferCall(contract: UInt160, from: UInt160, to: UInt160, amount: u64): (r: Invocation)
    ensures r.contract == contract && r.operation == "transfer"
    ensures BindsArguments(r, map["from" := HashParameter(from), "to" := HashParameter(to),
                                  "amount" := IntegerParameter(amount)])
  {
    Invocation(contract, "transfer", [HashParameter(from), HashParameter(to), IntegerParameter(amount)])
  }

  // The six operations.

  function TotalSupply(contract: UInt160, node: Invocation -> InvokeResponse,
                       hexToBytes: string -> seq<byte>): (r: Result<u64>)
    ensures r.Success? <==> CheckResponse(node(TotalSupplyCall(contract))).Success?
  {
    DecodeAmount(node(TotalSupplyCall(contract)), hexToBytes)
  }

  function Name(contract: UInt160, node: Invocation -> InvokeResponse,
                hexToBytes: string -> seq<byte>): (r: Result<string>)
    ensures r.Success? <==> CheckResponse(node(NameCall(contract))).Success?
  {
    DecodeText(node(NameCall(contract)), hexToBytes)
  }

  function Symbol(contract: UInt160, node: Invocation -> InvokeResponse,
                  hexToBytes: string -> seq<byte>): (r: Result<string>)
    ensures r.Success? <==> CheckResponse(node(SymbolCall(contract))).Success?
  {
    DecodeText(node(SymbolCall(contract)), hexToBytes)
  }

  function Decimals(contract: UInt160, node: Invocation -> InvokeResponse): (r: Result<u8>)
    ensures r.Failure? ==>
      r.error in {node(DecimalsCall(contract)).errMsg, EngineFaulted, NoStackResult, ConversionFailed}
  {
    DecodeDecimals(node(DecimalsCall(contract)))
  }

  function BalanceOf(contract: UInt160, account: UInt160, node: Invocation -> InvokeResponse,
                     hexToBytes: string -> seq<byte>): (r: Result<u64>)
    ensures r.Success? <==> CheckResponse(node(BalanceOfCall(contract, account))).Success?
  {
    DecodeAmount(node(BalanceOfCall(contract, account)), hexToBytes)
  }

  function Transfer(contract: UInt160, from: UInt160, to: UInt160, amount: u64,
                    node: Invocation -> InvokeResponse): (r: Result<bool>)
    ensures r.Failure? ==>
      r.error in {node(TransferCall(contract, from, to, amount)).errMsg, EngineFaulted, NoStackResult, ConversionFailed}
  {
    DecodeBool(node(TransferCall(contract, from, to, amount)))
  }
}
