/**
 * The loan chaincode's transactions: create, read and status update of a
 * loan request, the query by bank, and the `Invoke` dispatcher. Each is a
 * function of the arguments, the world state and the collaborators the
 * transaction runs against, returning the result and the world state it
 * leaves behind.
 */
module LoanApp {
  import opened Outcomes
  import opened Shim
  import opened LoanRecords
  import opened Query

  /**
   * The collaborators of one transaction: the record codec, the faults the
   * ledger reports, and the ledger's evaluation of a rich query.
   */
  datatype Env = Env(codec: Codec, faults: Faults, engine: string -> QueryOutcome)

  const CreateArityError: string := "Incorrect arguments. Expecting a key and a value"
  const GetArityError: string := "Incorrect arguments. Expecting a key"
  const UpdateArityError: string := "Incorrect arguments. Expecting a key and a value"

  /** The request `createLoanRequest` builds from its ten arguments; the tenth is unused. */
  function RequestOf(args: seq<string>): (r: LoanRecord)
    requires |args| == 10
    ensures r.status == InitialStatus
    ensures forall i :: 0 <= i < 9 ==> Fields(r)[i] == args[i]
  {
    LoanRecord(args[0], args[1], args[2], args[3], args[4], args[5], args[6], args[7], args[8], InitialStatus)
  }

  /**
   * `createLoanRequest`: store the encoded request under `args[0]` and answer
   * with the applicant's name `args[1]`. Marshalling a record of strings
   * cannot fail, so its error branch is not reachable.
   */
  function CreateLoanRequest(args: seq<string>, ledger: Ledger, env: Env): (t: Txn<Result<string>>)
    ensures |args| != 10 ==> t == Txn(Err(CreateArityError), ledger)
    ensures |args| == 10 && args[0] in env.faults.writeErrors ==>
      t == Txn(Err("Failed to set asset: " + args[0]), ledger)
    ensures |args| == 10 && args[0] !in env.faults.writeErrors ==>
      && t.result == Ok(args[1])
      && t.ledger.Keys == ledger.Keys + {args[0]}
      && t.ledger[args[0]] == env.codec.encode(RequestOf(args))
      && (Lawful(env.codec) ==> env.codec.decode(t.ledger[args[0]]) == Some(RequestOf(args)))
      && (forall k :: k in ledger && k != args[0] ==> t.ledger[k] == ledger[k])
  {
    if |args| != 10 then Txn(Err(CreateArityError), ledger)
    else
      var key := args[0];
      match PutState(ledger, env.faults, key, env.codec.encode(RequestOf(args)))
      case Err(_) => Txn(Err("Failed to set asset: " + key), ledger)
      case Ok(written) => Txn(Ok(args[1]), written)
  }

  /** `getLoanOfUser`: the stored text under `args[0]`, unparsed. It never writes. */
  function GetLoanOfUser(args: seq<string>, ledger: Ledger, env: Env): (r: Result<string>)
    ensures |args| != 1 ==> r == Err(GetArityError)
    ensures |args| == 1 && args[0] in env.faults.readErrors ==>
      r == Err("Failed to get asset: " + args[0] + " with error: " + env.faults.readErrors[args[0]])
    ensures |args| == 1 && args[0] !in env.faults.readErrors ==>
      (if args[0] in ledger then r == Ok(ledger[args[0]]) else r == Err("Asset not found: " + args[0]))
  {
    if |args| != 1 then Err(GetArityError)
    else
      var key := args[0];
      match GetState(ledger, env.faults, key)
      case Err(e) => Err("Failed to get asset: " + key + " with error: " + e)
      case Ok(None) => Err("Asset not found: " + key)
      case Ok(Some(value)) => Ok(value)
  }

  /**
   * The record `updateLoanStatus` starts from: the stored one when it can be
   * read and decoded, the zero record otherwise (errors are ignored).
   */
  function CurrentRecord(ledger: Ledger, env: Env, key: string): (r: LoanRecord)
    ensures key !in env.faults.readErrors && key in ledger && env.codec.decode(ledger[key]).Some? ==>
      r == env.codec.decode(ledger[key]).value
    ensures key in env.faults.readErrors || key !in ledger || env.codec.decode(ledger[key]).None? ==>
      r == Empty
  {
    match GetState(ledger, env.faults, key)
    case Ok(Some(value)) => env.codec.decode(value).GetOr(Empty)
    case _ => Empty
  }

  /**
   * `updateLoanStatus`: best effort. It sets the status of the record under
   * `args[0]` to `args[1]` and answers `args[1]`; a failed read or decode
   * starts from the zero record, and a failed write is ignored.
   */
  function UpdateLoanStatus(args: seq<string>, ledger: Ledger, env: Env): (t: Txn<Result<string>>)
    ensures |args| != 2 ==> t == Txn(Err(UpdateArityError), ledger)
    ensures |args| == 2 ==> t.result == Ok(args[1])
    ensures |args| == 2 && args[0] in env.faults.writeErrors ==> t.ledger == ledger
    ensures |args| == 2 && args[0] !in env.faults.writeErrors ==>
      && t.ledger.Keys == ledger.Keys + {args[0]}
      && t.ledger[args[0]] == env.codec.encode(CurrentRecord(ledger, env, args[0]).(status := args[1]))
      && (Lawful(env.codec) ==>
            && env.codec.decode(t.ledger[args[0]]).Some?
            && env.codec.decode(t.ledger[args[0]]).value.status == args[1]
            && SameExceptStatus(env.codec.decode(t.ledger[args[0]]).value, CurrentRecord(ledger, env, args[0])))
      && (forall k :: k in ledger && k != args[0] ==> t.ledger[k] == ledger[k])
  {
    if |args| != 2 then Txn(Err(UpdateArityError), ledger)
    else
      var key, status := args[0], args[1];
      var updated := CurrentRecord(ledger, env, key).(status := status);
      match PutState(ledger, env.faults, key, env.codec.encode(updated))
      case Err(_) => Txn(Ok(status), ledger)
      case Ok(written) => Txn(Ok(status), written)
  }

  /** A handler's `(string, error)` as the peer response. */
  function Respond(r: Result<string>): (resp: Response)
    ensures r.Ok? <==> resp.Success?
    ensures r.Ok? ==> resp.payload == r.value
    ensures r.Err? ==> resp.message == r.message
  {
    match r
    case Ok(text) => Success(text)
    case Err(msg) => Error(msg)
  }

  /** The handler a function name selects. */
  datatype Handler = Create | Get | QueryByBank | Update

  /** `Invoke`'s routing: three names are recognised and every other one means update. */
  function Route(fn: string): (h: Handler)
    ensures h == Create <==> fn == "createLoanRequest"
    ensures h == Get <==> fn == "getLoanOfUser"
    ensures h == QueryByBank <==> fn == "queryLoanByBank"
  {
    if fn == "createLoanRequest" then Create
    else if fn == "getLoanOfUser" then Get
    else if fn == "queryLoanByBank" then QueryByBank
    else Update
  }

  /**
   * `Invoke`: run the handler `fn` selects on `args`. A handler's error
   * becomes an error response and its answer the success payload; the query
   * builds its own response.
   */
  function Invoke(fn: string, args: seq<string>, ledger: Ledger, env: Env): (t: Txn<Response>)
    ensures Route(fn) == Get || Route(fn) == QueryByBank ==> t.ledger == ledger
    ensures Route(fn) == Get ==> t.result == Respond(GetLoanOfUser(args, ledger, env))
    ensures Route(fn) == QueryByBank ==> t.result == QueryLoanByBank(args, env.engine)
    ensures Route(fn) == Create ==>
      var c := CreateLoanRequest(args, ledger, env); t == Txn(Respond(c.result), c.ledger)
    ensures Route(fn) == Update ==>
      var u := UpdateLoanStatus(args, ledger, env); t == Txn(Respond(u.result), u.ledger)
  {
    match Route(fn)
    case Create =>
      var c := CreateLoanRequest(args, ledger, env);
      Txn(Respond(c.result), c.ledger)
    case Get => Txn(Respond(GetLoanOfUser(args, ledger, env)), ledger)
    case QueryByBank => Txn(QueryLoanByBank(args, env.engine), ledger)
    case Update =>
      var u := UpdateLoanStatus(args, ledger, env);
      Txn(Respond(u.result), u.ledger)
  }
}
