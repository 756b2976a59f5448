/**
 * `Init`, run when the chaincode is instantiated: it stores two integer
 * holdings, `args[1]` under `args[0]` and `args[3]` under `args[2]`, each in
 * canonical decimal form. It checks no argument count, so short input
 * panics on an index out of range.
 */
module ChaincodeInit {
  import opened Outcomes
  import opened Shim
  import opened Strconv

  const HoldingError: string := "Expecting integer value for asset holding"
  const IndexPanic: string := "index out of range"

  function Init(args: seq<string>, ledger: Ledger, faults: Faults): (o: Termination<Txn<Response>>)
    ensures |args| < 2 ==> o.Panicked?
    ensures |args| >= 2 && Atoi(args[1]).None? ==> o == Returned(Txn(Error(HoldingError), ledger))
    ensures 2 <= |args| < 4 && Atoi(args[1]).Some? ==> o.Panicked?
    ensures |args| >= 4 && Atoi(args[1]).Some? && Atoi(args[3]).None? ==>
      o == Returned(Txn(Error(HoldingError), ledger))
    ensures |args| >= 4 && Atoi(args[1]).Some? && Atoi(args[3]).Some? ==>
      if args[0] in faults.writeErrors then o == Returned(Txn(Error(faults.writeErrors[args[0]]), ledger))
      else if args[2] in faults.writeErrors then
        o == Returned(Txn(Error(faults.writeErrors[args[2]]), ledger[args[0] := Itoa(Atoi(args[1]).value)]))
      else
        && o.Returned? && o.value.result == Success("")
        && o.value.ledger.Keys == ledger.Keys + {args[0], args[2]}
        && o.value.ledger[args[2]] == Itoa(Atoi(args[3]).value)
        && (args[0] != args[2] ==> o.value.ledger[args[0]] == Itoa(Atoi(args[1]).value))
        && Atoi(o.value.ledger[args[2]]) == Atoi(args[3])
        && (args[0] != args[2] ==> Atoi(o.value.ledger[args[0]]) == Atoi(args[1]))
        && (forall k :: k in ledger && k != args[0] && k != args[2] ==> o.value.ledger[k] == ledger[k])
  {
    if |args| < 2 then Panicked(IndexPanic)
    else
      match Atoi(args[1])
      case None => Returned(Txn(Error(HoldingError), ledger))
      case Some(aval) =>
        if |args| < 4 then Panicked(IndexPanic)
        else
          match Atoi(args[3])
          case None => Returned(Txn(Error(HoldingError), ledger))
          case Some(bval) =>
            AtoiItoa(aval);
            AtoiItoa(bval);
            match PutState(ledger, faults, args[0], Itoa(aval))
            case Err(e) => Returned(Txn(Error(e), ledger))
            case Ok(first) =>
              match PutState(first, faults, args[2], Itoa(bval))
              case Err(e) => Returned(Txn(Error(e), first))
              case Ok(second) => Returned(Txn(Success(""), second))
  }
}
