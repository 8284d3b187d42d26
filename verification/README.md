# NEP-5 token helper: a verified model of its result decoding

This project models the NEP-5 token helper of `neo-gogogo` (`nep5/nep5Helper.go`).
Each of its six operations works the same way. `TotalSupply`, `Name`, `Symbol`, `Decimals`,
`BalanceOf` and `Transfer` build a contract invocation, send it through the node's `invokescript`
RPC call, and pass the response through one failure gate. The gate checks three things in order:
a non-empty error message, the execution state `"FAULT"`, and an empty result stack. The operation
then decodes the value of the top stack item in one of four ways:

- an unsigned 64-bit integer: hex-decode, append zero bytes up to eight, read little-endian;
- a string: the hex-decoded bytes, copied byte for byte;
- `decimals`: Go's `strconv.ParseUint(value, 10, 8)`;
- a boolean: Go's `strconv.ParseBool(value)`.

Modules:

- `Results` (`results.dfy`): `Option`, and `Result<T>` = `Success(value)` | `Failure(error: string)`.
  This replaces Go's `(value, error)` pair.
- `Bytes` (`bytes.dfy`): byte and integer ranges, the padding loop, and `binary.LittleEndian.Uint64`.
  Both are checked against a reference little-endian value `LeValue`.
- `Hex` (`hex.dfy`): what hex decoding means on well-formed input, and its inverse encoder.
- `Strconv` (`strconv.dfy`): the Go base-10 scan behind `ParseUint(s, 10, 8)`, checked against a
  reference decimal value; also `ParseBool`, and the formatters these two parses invert.
- `Nep5` (`nep5.dfy`): the response and stack-item data, the gate `CheckResponse`, the four decoders,
  the request built by each operation, and the six operations. Each request's method name and ordered tagged parameters are checked against `HelperSignature`. That table gives the NEP-5 parameter names with the tags this helper attaches; the standard itself declares `byte[]` addresses (20 bytes) and a BigInteger amount, with no tags.
- `Nep5Properties` (`nep5_properties.dfy`): the gate order, the fact that only the top value is
  read, the round trips, the concrete cases, and the positional binding of request parameters.

Some collaborators are not modelled and become parameters instead:

- The script builder, the hex encoding of the script and the RPC round trip become one parameter,
  `node: Invocation -> InvokeResponse`.
- The helper library's hex decoder becomes the parameter `hexToBytes`. Any lemma that needs concrete
  bytes asks only that this decoder agrees with `Hex.Decode` on the value in question. Its behaviour
  on malformed hex is therefore left open.

Two details of the code matter for the decoding:

- The integer padding appends zero bytes at the END (`nep5/nep5Helper.go:46-48`), so the existing bytes keep their positions.
- `Name` and `Symbol` use Go's `string(bytes)` (`nep5/nep5Helper.go:69`, `:89`). This is a byte copy with no UTF-8 decoding, so the model keeps one character per byte.

## Model

| member | source | states |
|---|---|---|
| Bytes.PadRight | nep5/nep5Helper.go:46-48 | The padding loop reaches exactly max(len, 8) bytes. It keeps the original bytes as a prefix and adds only zero bytes after them. |
| Bytes.Uint64LE | nep5/nep5Helper.go:49 | `binary.LittleEndian.Uint64`: Go's fixed eight-byte formula (b[0] least significant) equals the reference value of the first eight bytes. Any further bytes are not read. |
| Bytes.LeValueOfEightBytes | nep5/nep5Helper.go:49 | The reference value of eight bytes, the sum of b[i]·256^i, written out term by term. |
| Bytes.ReadUint64 | nep5/nep5Helper.go:45-49 | For n ≤ 8 bytes, pad-then-read is the little-endian value of the bytes and lies below 256^n. For more than 8 bytes, only the first eight are read. |
| Bytes.LeValueZeroPad | nep5/nep5Helper.go:46-48 | Appending zero bytes at the end never changes the little-endian value. |
| Bytes.LeValueBound | nep5/nep5Helper.go:49 | n bytes read little-endian give a value below 256^n. |
| Bytes.ReadUint64RoundTrip | nep5/nep5Helper.go:136-140 | The minimal little-endian bytes of any 64-bit value, followed by any number of zero bytes, decode back to that value. Past eight bytes, the extra zeros are not read. This covers the nine-byte sign-byte form of values of 2^63 and above. |
| Bytes.LittleEndianBytesFit | nep5/nep5Helper.go:136-140 | Any 64-bit value has at most eight minimal little-endian bytes, so decoding it involves no truncation. |
| Hex.Decode | nep5/nep5Helper.go:45 | Well-formed hex of length 2k denotes exactly k bytes. |
| Hex.DecodeEncode | nep5/nep5Helper.go:69 | Decoding the hex of any byte sequence gives back that sequence. |
| Hex.EncodeDecode | nep5/nep5Helper.go:89 | Decoding lower-case hex and encoding the result gives back the same text. |
| Strconv.ScanDecimal | nep5/nep5Helper.go:109 | Go's left-to-right digit scan with an early range check succeeds exactly when the string is all digits with value ≤ max. It then yields that value. |
| Strconv.ParseUint8 | nep5/nep5Helper.go:109-113 | `ParseUint(s, 10, 8)` succeeds exactly on a non-empty, all-digit string whose value is below 256. It then yields that value. |
| Strconv.ParseFormatDecimal | nep5/nep5Helper.go:109 | Parsing the decimal text of any 8-bit value gives back that value. |
| Strconv.LeadingZeroAccepted | nep5/nep5Helper.go:109 | `ParseUint(s, 10, 8)` accepts leading zeros: for non-empty s, "0" + s parses exactly when s does, and to the same value. |
| Strconv.PrefixValueBound | nep5/nep5Helper.go:109 | A digit string's value is at least that of any of its prefixes, so a prefix that overflows means the whole string overflows. |
| Strconv.ParseBool | nep5/nep5Helper.go:172 | `strconv.ParseBool` yields true exactly on the spellings of "true" (lower, upper and capitalised case, "t", "T", "1"). It yields false exactly on the matching spellings of "false". Every other string is rejected. |
| Strconv.ParseFormatBool | nep5/nep5Helper.go:172 | Parsing the formatted text of a boolean gives back that boolean. |
| Nep5.CheckResponse | nep5/nep5Helper.go:34-44 | The gate passes exactly when there is no error message, the state is not FAULT, and the stack is non-empty. It then yields `Stack[0]`. Every failure it reports has a non-empty message. |
| Nep5.BytesToString | nep5/nep5Helper.go:69 | The string holds exactly the given bytes, one character per byte. Converting it back gives the bytes. |
| Nep5.DecodeAmount | nep5/nep5Helper.go:44-50 | Succeeds exactly when the gate passes, and otherwise reports the gate's message. The value is the little-endian value of the decoded bytes (the first eight, if there are more) and lies below 256^n for n ≤ 8 bytes. |
| Nep5.DecodeText | nep5/nep5Helper.go:68-70 | Succeeds exactly when the gate passes, and otherwise reports the gate's message. The resulting string's bytes are exactly the hex-decoded bytes. |
| Nep5.DecodeDecimals | nep5/nep5Helper.go:108-113 | Succeeds exactly when the gate passes and the value is a non-empty digit string below 256. It then yields that value. After a passed gate, any other value gives "conversion failed". |
| Nep5.DecodeBool | nep5/nep5Helper.go:171-176 | Succeeds exactly when the gate passes and the value is a Go boolean literal. It then yields that literal's boolean. After a passed gate, anything else gives "conversion failed". |
| Nep5.TotalSupplyCall | nep5/nep5Helper.go:31 | The request calls `totalSupply` on the given contract with no parameters. |
| Nep5.NameCall | nep5/nep5Helper.go:55 | The request calls `name` on the given contract with no parameters. |
| Nep5.SymbolCall | nep5/nep5Helper.go:75 | The request calls `symbol` on the given contract with no parameters. |
| Nep5.DecimalsCall | nep5/nep5Helper.go:95 | The request calls `decimals` on the given contract with no parameters. |
| Nep5.BalanceOfCall | nep5/nep5Helper.go:118-122 | The request calls `balanceOf` on the given contract. Its single parameter is the `account` of the NEP-5 signature, a Hash160-tagged 20-byte value. |
| Nep5.TransferCall | nep5/nep5Helper.go:146-158 | The request calls `transfer` on the given contract. Its parameters are the signature's `from`, `to` and `amount`, in that order: the sender and receiver tagged Hash160, and the amount tagged Integer. |
| Nep5.TotalSupply | nep5/nep5Helper.go:29-51 | Fails exactly when the gate rejects the node's answer to the `totalSupply` request. |
| Nep5.Name | nep5/nep5Helper.go:53-71 | Fails exactly when the gate rejects the answer to the `name` request. |
| Nep5.Symbol | nep5/nep5Helper.go:73-91 | Fails exactly when the gate rejects the answer to the `symbol` request. |
| Nep5.Decimals | nep5/nep5Helper.go:93-114 | Any failure is one of: the node's message, "engine faulted", "no stack result returned", or "conversion failed". |
| Nep5.BalanceOf | nep5/nep5Helper.go:116-142 | Fails exactly when the gate rejects the answer to the `balanceOf` request. |
| Nep5.Transfer | nep5/nep5Helper.go:144-177 | Any failure is one of: the node's message, "engine faulted", "no stack result returned", or "conversion failed". |
| Nep5Properties.NodeErrorWins | nep5/nep5Helper.go:34-37 | A non-empty error message is the failure of all four decoders, whatever the state and the stack. |
| Nep5Properties.FaultWins | nep5/nep5Helper.go:38-40 | With no error message, state FAULT makes all four decoders fail with "engine faulted", whatever the stack holds. |
| Nep5Properties.EmptyStackFails | nep5/nep5Helper.go:41-43 | With no error and no fault, an empty stack makes all four decoders fail with "no stack result returned". This is not a zero or empty success. |
| Nep5Properties.OnlyTopValueRead | nep5/nep5Helper.go:44 | Two responses that agree on the message, the state and the top item's value decode alike in all four ways. The top item's type tag and every item below it do not matter. |
| Nep5Properties.TotalSupplyDecodesLikeBalanceOf | nep5/nep5Helper.go:135-141 | Given the same node answer, `TotalSupply` and `BalanceOf` return the same result. |
| Nep5Properties.NameDecodesLikeSymbol | nep5/nep5Helper.go:88-90 | Given the same node answer, `Name` and `Symbol` return the same result. |
| Nep5Properties.AmountRoundTrip | nep5/nep5Helper.go:44-50 | An amount returned as the hex of its minimal little-endian bytes, followed by any number of trailing zero bytes, decodes to that amount. |
| Nep5Properties.TotalSupplyRoundTrip | nep5/nep5Helper.go:29-51 | A supply the node returns as little-endian hex, with any trailing zero bytes (such as the sign byte in "8000" for 128), is the supply the caller receives. |
| Nep5Properties.BalanceOfRoundTrip | nep5/nep5Helper.go:116-142 | A balance the node returns as little-endian hex, with any trailing zero bytes, is the balance the caller receives. |
| Nep5Properties.TextRoundTrip | nep5/nep5Helper.go:68-70 | A byte string returned as the hex of its bytes decodes to that string. |
| Nep5Properties.NameRoundTrip | nep5/nep5Helper.go:53-71 | A name the node returns as hex is the name the caller receives. |
| Nep5Properties.SymbolRoundTrip | nep5/nep5Helper.go:73-91 | A symbol the node returns as hex is the symbol the caller receives. |
| Nep5Properties.DecimalsRoundTrip | nep5/nep5Helper.go:93-114 | An 8-bit decimals value the node returns as decimal text is the value the caller receives. |
| Nep5Properties.TransferRoundTrip | nep5/nep5Helper.go:144-177 | A boolean the node returns as "true" or "false" is the boolean the caller receives. |
| Nep5Properties.AmountExamples | nep5/nep5Helper.go:45-49 | "01" decodes to 1, "0002" to 512, "e803" to 1000, the empty value to 0, and "8000" to 128. The nine bytes of 2^63 with its sign byte read back as 2^63. |
| Nep5Properties.BalanceOfScenario | nep5/nep5Helper.go:116-142 | A balance query answered by HALT with top value "e803" yields 1000. |
| Nep5Properties.TransferScenario | nep5/nep5Helper.go:144-177 | A transfer of 100 answered by HALT with top value "true" yields true. |
| Nep5Properties.DecimalsExamples | nep5/nep5Helper.go:108-113 | "8" and "08" give 8. "bad", "", "-1", "+8" and the out-of-range "256" all give "conversion failed", never a partial or truncated value. |
| Nep5Properties.TransferRejectsNonLiteral | nep5/nep5Helper.go:172-175 | After a passed gate, any value outside Go's twelve boolean literals gives "conversion failed". |
| Nep5Properties.SwappedTransferRejected | nep5/nep5Helper.go:146-158 | Parameters bind by position. A transfer request with sender and receiver exchanged does not bind the intended `from` and `to` unless they are the same account. |
| Nep5Properties.TransferCallInjective | nep5/nep5Helper.go:146-158 | A transfer request determines its contract, sender, receiver and amount. Swapping sender and receiver changes the request unless they are the same account. |
| Nep5Properties.BalanceOfCallInjective | nep5/nep5Helper.go:118-122 | A balance request determines its contract and account. |

## Left out

- The RPC transport client (`rpc/rpcClient.go`) is not modelled: HTTP, the JSON envelope, the 60-second timeout and the connection headers. Its only effect here is a copied error message, which the `errMsg` field of a response represents.
- The shown RPC client's `InvokeScript` takes a second argument, `checkWitnessHashes` (`rpc/rpcClient.go:511-513`). The helper instead calls a one-argument `InvokeScript` on its `rpc.IRpcClient` interface (`nep5/nep5Helper.go:15`, `:33`), which is not part of this model. The model follows the helper and passes only the invocation.
- The script builder's bytecode and the hex encoding of the script are not modelled. They are collapsed into the `node` parameter, which receives the invocation data (contract, method name, tagged parameters).
- The internals of the helper library's hex decoder and of `UInt160` are not modelled; that code is not part of this model. Hex decoding is a parameter, fixed only on well-formed hex. A `UInt160` is its 20 bytes.
- Construction (`NewNep5Helper`, URL parsing) is not modelled. It only wraps `url.Parse`.
- The "true transfer" with witnesses is not modelled, because it is only a TODO in the source.
- Nep5.CheckResponse: the node's message is carried verbatim. The source passes it to `fmt.Errorf` as a format string, so Go would rewrite a message containing `%` verbs; that formatting is not modelled.
- Response fields the helper never reads are not modelled: the script, gas consumed, and the error code.
- Go strings are represented in two ways. The response fields (error message, state, stack values) are Dafny strings of Unicode characters. The results of `Name` and `Symbol` hold one character per byte. The gate and both parses compare only against ASCII text, so neither representation changes any outcome.
