/**
 * The part of the chaincode shim the loan chaincode talks to: the world state
 * as a key-value map, the per-key faults a ledger call may report, the
 * peer response, and the rich-query cursor.
 */
module Shim {
  import opened Outcomes

  /** The world state. A key that is absent is one `GetState` reports as nil. */
  type Ledger = map<string, string>

  /** The peer response: `shim.Success(payload)` or `shim.Error(message)`. */
  datatype Response = Success(payload: string) | Error(message: string)

  /** What one transaction returns together with the world state it leaves behind. */
  datatype Txn<+T> = Txn(result: T, ledger: Ledger)

  /**
   * Ledger calls that fail in this transaction: reading a key of `readErrors`
   * or writing a key of `writeErrors` reports the mapped message as its error.
   */
  datatype Faults = Faults(readErrors: map<string, string>, writeErrors: map<string, string>)

  const NoFaults: Faults := Faults(map[], map[])

  /** `stub.GetState(key)`: an error, nil (None) or the stored value. */
  function GetState(ledger: Ledger, faults: Faults, key: string): (r: Result<Option<string>>)
    ensures key in faults.readErrors <==> r.Err?
    ensures r.Ok? ==> (r.value.Some? <==> key in ledger)
    ensures r.Ok? && key in ledger ==> r.value.value == ledger[key]
  {
    if key in faults.readErrors then Err(faults.readErrors[key])
    else if key in ledger then Ok(Some(ledger[key]))
    else Ok(None)
  }

  /** `stub.PutState(key, value)`: an error, or the state with `key` bound to `value`. */
  function PutState(ledger: Ledger, faults: Faults, key: string, value: string): (r: Result<Ledger>)
    ensures key in faults.writeErrors <==> r.Err?
    ensures r.Ok? ==> r.value.Keys == ledger.Keys + {key} && r.value[key] == value
    ensures r.Ok? ==> forall k :: k in ledger && k != key ==> r.value[k] == ledger[k]
  {
    if key in faults.writeErrors then Err(faults.writeErrors[key])
    else Ok(ledger[key := value])
  }

  /** One match of a rich query: the key and the stored value. */
  datatype Hit = Hit(key: string, value: string)

  /** The `Next` call for `hits[at]` reports `message` instead of returning it. */
  datatype NextFailure = NextFailure(at: nat, message: string)

  /**
   * What `stub.GetQueryResult(query)` hands back: an error, or a forward-only
   * cursor over `hits` in the ledger's order, which may fail part way.
   */
  datatype QueryOutcome =
    | QueryFailed(message: string)
    | Cursor(hits: seq<Hit>, failure: Option<NextFailure>)
  {
    /** The cursor fails before it is exhausted. */
    predicate FailsBeforeEnd()
      requires Cursor?
    {
      failure.Some? && failure.value.at < |hits|
    }
  }
}
