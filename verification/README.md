# Loan-application chaincode, modelled in Dafny

This project models the loan-application chaincode of the `balance-transfer`
sample (`loanApp.go`). The chaincode is a small transaction processor over a
Hyperledger Fabric world state. `Invoke` routes a named function with string
arguments to one of four handlers:

- `createLoanRequest` stores a new loan request as JSON under a caller-chosen key.
- `getLoanOfUser` returns the stored JSON text unparsed.
- `updateLoanStatus` sets the `Status` field on a best-effort basis. It is also
  the fallback for every name the dispatcher does not recognise.
- `queryLoanByBank` sends a CouchDB selector on `BankId`. It assembles the
  matches into a JSON array text.

Each transaction is a pure function. It takes the arguments, the world state
(`map<string, string>`; an absent key is what `GetState` reports as nil) and
an `Env`, and returns the result with the world state it leaves behind. `Env`
holds three collaborators:

- the record codec;
- per-key ledger faults, so that any `GetState` or `PutState` can fail with a
  given message;
- the ledger's rich-query evaluation. It is a function from the query string
  to a cursor: a sequence of hits plus, optionally, the position at which
  `Next` fails.

The record codec is a `Codec` value. The transactions rely only on its
round-trip law, `Lawful`. The concrete JSON codec (`JsonCodec`) mirrors
`json.Marshal` on the `loanApplication` struct:

- fields in declaration order, keyed by their tags, with no whitespace;
- `"` and `\` escaped with a backslash;
- newline, carriage return and tab written as `\n`, `\r` and `\t`;
- other control characters and `<`, `>`, `&` written as `\u00xx`;
- U+2028 and U+2029 written as `\u2028` and `\u2029`.

It is proved lawful (`JsonCodec.JsonLawful`).

`getQueryResultForQueryString` is modelled twice:

- an imperative method that follows the Go loop, with its comma-suppression
  flag;
- a reference definition, `"[" + Join(",", members) + "]"`.

The method is proved equal to the reference. A reader for the array text,
which reads each key as a JSON string and each record with a given record
reader, is proved to recover the hits' keys and records. On top of that,
`Lifecycle.QueryByBankFindsMatches` shows what an honest ledger's answer
yields: the array reads back as exactly the stored requests at the bank.

`Init` (seeding two integer holdings, inherited from `example_cc0`) is also
modelled, together with Go's `strconv.Atoi` and `strconv.Itoa` on a 64-bit
`int` and the index-out-of-range panic on short argument lists. Its holdings are not records, so the world-state invariant the
lemmas use (`Lifecycle.WellFormed`) constrains only the values that decode
as records: each is the encoding of the record it decodes to. `Init` and
every transaction keep it.

Modules, one per file: `Outcomes` (Option/Result/Parsed/Termination), `Shim`
(world state, faults, response, query cursor), `LoanRecords` (the record and
`Codec`), `JsonCodec`, `Query`, `LoanApp`, `Lifecycle` (cross-transaction
properties), `Strconv`, `ChaincodeInit`.

Behaviours of the code worth noting, which the model follows:

- The result-array members are written `{"Key":"<key>", "Record":<value>}`.
  There is no space after `"Key":` and one space before `"Record"`.
- `Status` is any string. No transition table is enforced.
- Create checks only that there are exactly ten arguments, not that fields are
  present. Its error text is "Incorrect arguments. Expecting a key and a value".
- Create has no reachable serialization error. Marshalling a struct of
  strings cannot fail.

Two more behaviours of the code:

- The key of each hit and the bank id are inserted verbatim, without JSON
  escaping. A key containing `"`, `\` or a control character produces an
  array that is not well-formed JSON, and a bank id containing `"` or `\`
  changes or breaks the selector. The read-back lemmas therefore require
  JSON-safe keys (no `"`, no `\`, no control character) for the requests
  they read back.
- `Invoke` sends a misspelt function name, including `""` and
  `"updateLoanStatus"` itself, to the status update.

## Model

| member | source | states |
|---|---|---|
| JsonCodec.Encode | balance-transfer/artifacts/src/github.com/loanApp/loanApp.go:131-132 | `json.Marshal` of a record is text that `json.Unmarshal` turns back into exactly that record |
| JsonCodec.Decode | balance-transfer/artifacts/src/github.com/loanApp/loanApp.go:170-173 | only text that opens with `{` decodes as a record; a holding such as `Init` stores never does |
| JsonCodec.EscapeRoundTrip | balance-transfer/artifacts/src/github.com/loanApp/loanApp.go:132 | the escaped text of any string value, closed by a quote, parses back to exactly that string and leaves the following input untouched |
| JsonCodec.DecodeEncode | balance-transfer/artifacts/src/github.com/loanApp/loanApp.go:171-176 | unmarshalling the marshalled form of any loan record gives that record back, empty fields included |
| JsonCodec.JsonLawful | balance-transfer/artifacts/src/github.com/loanApp/loanApp.go:132 | the JSON codec the chaincode stores records with satisfies the round-trip law the transactions rely on |
| JsonCodec.ParseRecordRoundTrip | balance-transfer/artifacts/src/github.com/loanApp/loanApp.go:235-236 | a record's JSON embedded in longer text reads back as that record, with the rest of the text left over |
| LoanApp.RequestOf | balance-transfer/artifacts/src/github.com/loanApp/loanApp.go:131 | the new request carries the first nine arguments as its nine descriptive fields, in order, and status "Requested"; the tenth argument is unused |
| LoanApp.CreateLoanRequest | balance-transfer/artifacts/src/github.com/loanApp/loanApp.go:123-142 | other than ten arguments: arity error, nothing written; failed write: "Failed to set asset: key", nothing written; otherwise answers args[1], adds only key args[0], whose value is the encoding of the request and decodes back to it, all other keys unchanged |
| LoanApp.GetLoanOfUser | balance-transfer/artifacts/src/github.com/loanApp/loanApp.go:145-158 | other than one argument: arity error; failed read: "Failed to get asset" with the ledger's error; absent key: "Asset not found: key"; otherwise exactly the stored text, unparsed |
| LoanApp.CurrentRecord | balance-transfer/artifacts/src/github.com/loanApp/loanApp.go:170-173 | the update starts from the stored record when it can be read and decoded, and from the all-empty record when the read fails, the key is absent or the value does not decode |
| LoanApp.UpdateLoanStatus | balance-transfer/artifacts/src/github.com/loanApp/loanApp.go:162-180 | other than two arguments: arity error, nothing written; otherwise always answers args[1]; a failed write changes nothing; a successful one stores, under args[0] only, the encoding of the starting record with its status set to args[1], which decodes to a record with status args[1] and every other field as the starting record had it |
| LoanApp.Respond | balance-transfer/artifacts/src/github.com/loanApp/loanApp.go:113-118 | a handler's error becomes an error response with its message and a handler's answer becomes the success payload |
| LoanApp.Route | balance-transfer/artifacts/src/github.com/loanApp/loanApp.go:104-112 | exactly the names createLoanRequest, getLoanOfUser and queryLoanByBank select their handlers; every other name selects the update |
| LoanApp.Invoke | balance-transfer/artifacts/src/github.com/loanApp/loanApp.go:98-119 | runs the selected handler; get and query leave the world state as it was; create and update answers are wrapped as responses with the handler's world state; the query's response is returned as built |
| Query.Selector | balance-transfer/artifacts/src/github.com/loanApp/loanApp.go:189-192 | the query string is the fixed selector prefix, the bank id verbatim, and the fixed suffix |
| Query.SelectorInjective | balance-transfer/artifacts/src/github.com/loanApp/loanApp.go:192 | two banks give the same query string only if they are the same bank |
| Query.JoinSnoc | balance-transfer/artifacts/src/github.com/loanApp/loanApp.go:225-228 | appending a member after at least one other adds exactly one separator, which is what the comma-suppression flag achieves |
| Query.WritesMakeElement | balance-transfer/artifacts/src/github.com/loanApp/loanApp.go:229-237 | the seven buffer writes for one hit append exactly the member `{"Key":"<key>", "Record":<value>}` |
| Query.GetQueryResultForQueryString | balance-transfer/artifacts/src/github.com/loanApp/loanApp.go:205-245 | the imperative loop returns the query's error, or the first failing Next's error with no partial output, or else "[" followed by the members joined by "," and "]" ("[]" for no hits) |
| Query.QueryLoanByBank | balance-transfer/artifacts/src/github.com/loanApp/loanApp.go:183-199 | no argument: "Incorrect number of arguments. Expecting 1"; otherwise only args[0] is used, to build the selector, and the array or the query error becomes the response |
| Query.VerbatimKeyRoundTrip | balance-transfer/artifacts/src/github.com/loanApp/loanApp.go:229-232 | a key with no quote, backslash or control character, written verbatim between quotes, is a JSON string that reads back as exactly that key, leaving the following text untouched |
| Query.ParseArrayRoundTrip | balance-transfer/artifacts/src/github.com/loanApp/loanApp.go:215-240 | the array text for hits with JSON-safe keys and readable records reads back, each key read as a JSON string, as exactly those keys and records, in cursor order |
| Query.ArrayTextRoundTrip | balance-transfer/artifacts/src/github.com/loanApp/loanApp.go:215-240 | the array built from JSON-encoded records under JSON-safe keys reads back, keys as JSON strings and records with the JSON record reader, as exactly those entries in order |
| Lifecycle.UnknownNameUpdates | balance-transfer/artifacts/src/github.com/loanApp/loanApp.go:110-112 | every unrecognised function name behaves exactly like the empty name: with two arguments it answers the new status, otherwise the update's arity error with nothing written |
| Lifecycle.CreateArity | balance-transfer/artifacts/src/github.com/loanApp/loanApp.go:125-127 | through the dispatcher, a create with other than ten arguments is an error response and writes nothing |
| Lifecycle.CreateThenGet | balance-transfer/artifacts/src/github.com/loanApp/loanApp.go:123-158 | after a create that could write, a read of args[0] answers text that decodes to the request, with status "Requested" |
| Lifecycle.GetUnwritten | balance-transfer/artifacts/src/github.com/loanApp/loanApp.go:154-156 | reading a key never written answers "Asset not found" |
| Lifecycle.UpdateUnwritten | balance-transfer/artifacts/src/github.com/loanApp/loanApp.go:170-177 | updating a key never written succeeds and stores the all-empty record carrying only the new status |
| Lifecycle.CreateThenUpdate | balance-transfer/artifacts/src/github.com/loanApp/loanApp.go:123-180 | create then update: the stored record is the request with the new status, the other nine fields as created |
| Lifecycle.UpdateIdempotent | balance-transfer/artifacts/src/github.com/loanApp/loanApp.go:162-180 | setting the same status a second time changes nothing further, including when the read fails and both updates start from the empty record |
| Lifecycle.InvokePreservesWellFormed | balance-transfer/artifacts/src/github.com/loanApp/loanApp.go:98-180 | if every stored value that decodes as a record is that record's encoding before a transaction, the same holds after it, whatever the function name, arguments or faults |
| Lifecycle.HoldingIsNoRecord | balance-transfer/artifacts/src/github.com/loanApp/loanApp.go:80-86 | the decimal text `Init` stores for a holding never decodes as a loan record |
| Lifecycle.InitPreservesWellFormed | balance-transfer/artifacts/src/github.com/loanApp/loanApp.go:59-93 | `Init`, from the empty world state or any well-formed one, leaves a well-formed world state whenever it returns |
| Lifecycle.QueryByBankFindsMatches | balance-transfer/artifacts/src/github.com/loanApp/loanApp.go:183-245 | over a well-formed world state whose requests at the bank sit under JSON-safe keys, with an honest ledger, the query by bank succeeds, writes nothing, and its array reads back as exactly the stored requests at that bank (none missing, none extra, each key once) |
| Lifecycle.JsonQueryByBankFindsMatches | balance-transfer/artifacts/src/github.com/loanApp/loanApp.go:183-245 | the same with the JSON codec, keys read as JSON strings and records with the JSON record reader: the query writes nothing, and the array reads back as exactly the stored requests at that bank, each key once |
| Shim.GetState | balance-transfer/artifacts/src/github.com/loanApp/loanApp.go:150-153 | a read fails exactly for a faulting key; otherwise it reports nil exactly for an absent key and the stored value for a present one |
| Shim.PutState | balance-transfer/artifacts/src/github.com/loanApp/loanApp.go:137-140 | a write fails exactly for a faulting key; otherwise it binds the key to the value and keeps every other key as it was |
| Strconv.Atoi | balance-transfer/artifacts/src/github.com/loanApp/loanApp.go:69-77 | a digit string, optionally after `-` or `+`, reads as the number it denotes when that fits in 64 bits and is refused otherwise; any other text (empty, a lone sign, a non-digit after the first character) is refused |
| Strconv.Itoa | balance-transfer/artifacts/src/github.com/loanApp/loanApp.go:80-81 | the text written for a holding is its digits, without leading zeros, denoting its absolute value, with `-` before a negative one |
| Strconv.Decimal | balance-transfer/artifacts/src/github.com/loanApp/loanApp.go:81 | the decimal form of a natural number is non-empty digits, has no leading zero, and denotes that number |
| Strconv.AtoiItoa | balance-transfer/artifacts/src/github.com/loanApp/loanApp.go:69-81 | reading back what Itoa writes gives every 64-bit value back |
| Strconv.ItoaCanonical | balance-transfer/artifacts/src/github.com/loanApp/loanApp.go:69-81 | corollary of the round trip: what Init stores for a holding denotes the same integer as the argument it was given |
| ChaincodeInit.Init | balance-transfer/artifacts/src/github.com/loanApp/loanApp.go:59-93 | panics when an argument it indexes is missing; a non-integer holding is the holding error with nothing written; a failed write reports the ledger's error; a failed second write leaves the first holding written; otherwise both keys hold the canonical decimal forms of their holdings (which read back as the same integers) and nothing else changes |

## Left out

- JsonCodec.Decode: accepts only the exact layout the encoder writes, with any standard escape inside strings. Go's `json.Unmarshal` is more lenient: other field orders, whitespace, case-insensitive keys, unknown and missing fields. It also keeps fields already set when a later value has the wrong type. For stored text of another shape, the update therefore starts from the empty record, where Go may keep some fields.
- JsonCodec.ParseEscape: refuses `\u` escapes naming a surrogate half. Go combines surrogate pairs and replaces lone halves with U+FFFD.
- JsonCodec.EscapeChar: follows the escaping of Go releases before 1.22. Later releases also write `\b` and `\f`.
- Arguments that are not valid UTF-8 are not modelled: Dafny strings hold Unicode scalar values. Go keeps such bytes in the argument strings and `json.Marshal` writes them as `\ufffd`, so for them the stored record differs from the arguments and the create-then-read round trip does not hold.
- Stored values, payloads and messages are strings rather than byte slices, and `string(bytes)` conversions are the identity.
- `GetFunctionAndParameters` is not modelled. `Invoke` and `Init` receive the function name and arguments already split.
- CouchDB evaluation of the selector is external. It is the `engine` parameter; what it returns is only constrained by `Lifecycle.AnswersByBank` in the query lemmas.
- `HasNext` cannot fail in the model. A cursor failure is a failing `Next` at a given position.
- Closing the query iterator (`defer resultsIterator.Close()`) is resource management with no effect on results.
- Logging (`logger`, `fmt.Printf`), the unused `user` struct, and `main`/`shim.Start` are process start-up and tracing.
- Fabric's transaction isolation, endorsement and commit are platform concerns. So is the rule that the peer discards the writes of a transaction whose response is an error. The model returns the writes the chaincode made, as in `Init`'s second failing write.
