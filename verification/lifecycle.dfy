/**
 * Properties that relate several transactions: what a read sees after a
 * create or an update, that an update is idempotent, that every transaction
 * and `Init` keep the world state well formed, the dispatcher's
 * fallback, and what the query by bank returns from an honest ledger.
 */
module Lifecycle {
  import opened Outcomes
  import opened Shim
  import opened LoanRecords
  import opened JsonCodec
  import opened Query
  import opened LoanApp
  import opened Strconv
  import opened ChaincodeInit

  // ---------------------------------------------------------------------
  // Dispatch
  // ---------------------------------------------------------------------

  /**
   * Any name other than the three recognised ones, the empty name and
   * `"updateLoanStatus"` included, runs the status update.
   */
  lemma UnknownNameUpdates(fn: string, args: seq<string>, ledger: Ledger, env: Env)
    requires fn !in {"createLoanRequest", "getLoanOfUser", "queryLoanByBank"}
    ensures Invoke(fn, args, ledger, env) == Invoke("", args, ledger, env)
    ensures |args| == 2 ==> Invoke(fn, args, ledger, env).result == Success(args[1])
    ensures |args| != 2 ==> Invoke(fn, args, ledger, env) == Txn(Error(UpdateArityError), ledger)
  {
  }

  /** A create with other than ten arguments is refused and writes nothing. */
  lemma CreateArity(args: seq<string>, ledger: Ledger, env: Env)
    requires |args| != 10
    ensures Invoke("createLoanRequest", args, ledger, env) == Txn(Error(CreateArityError), ledger)
  {
  }

  // ---------------------------------------------------------------------
  // Create, read, update
  // ---------------------------------------------------------------------

  /** The record stored under `key`, when there is one that decodes. */
  function StoredRecord(ledger: Ledger, codec: Codec, key: string): Option<LoanRecord> {
    if key in ledger then codec.decode(ledger[key]) else None
  }

  /**
   * After a create that could write, reading the key answers the encoded
   * request: the first nine arguments in order and status "Requested".
   */
  lemma CreateThenGet(args: seq<string>, ledger: Ledger, env: Env)
    requires Lawful(env.codec)
    requires |args| == 10 && args[0] !in env.faults.writeErrors && args[0] !in env.faults.readErrors
    ensures var created := Invoke("createLoanRequest", args, ledger, env);
      && created.result == Success(args[1])
      && var read := Invoke("getLoanOfUser", [args[0]], created.ledger, env);
      && read.result.Success?
      && env.codec.decode(read.result.payload) == Some(RequestOf(args))
      && StoredRecord(created.ledger, env.codec, args[0]).value.status == InitialStatus
  {
  }

  /** Reading a key nobody wrote reports it as not found. */
  lemma GetUnwritten(key: string, ledger: Ledger, env: Env)
    requires key !in ledger && key !in env.faults.readErrors
    ensures Invoke("getLoanOfUser", [key], ledger, env).result == Error("Asset not found: " + key)
  {
  }

  /**
   * Updating a key nobody wrote succeeds and stores the zero record carrying
   * only the new status.
   */
  lemma UpdateUnwritten(key: string, status: string, ledger: Ledger, env: Env)
    requires Lawful(env.codec)
    requires key !in ledger && key !in env.faults.writeErrors
    ensures var t := Invoke("updateLoanStatus", [key, status], ledger, env);
      && t.result == Success(status)
      && StoredRecord(t.ledger, env.codec, key) == Some(Empty.(status := status))
  {
  }

  /**
   * Create, then update the status: the stored record is the request with
   * the new status and the other nine fields as created.
   */
  lemma CreateThenUpdate(args: seq<string>, status: string, ledger: Ledger, env: Env)
    requires Lawful(env.codec)
    requires |args| == 10 && args[0] !in env.faults.writeErrors && args[0] !in env.faults.readErrors
    ensures var created := Invoke("createLoanRequest", args, ledger, env);
      var updated := Invoke("updateLoanStatus", [args[0], status], created.ledger, env);
      && updated.result == Success(status)
      && StoredRecord(updated.ledger, env.codec, args[0]) == Some(RequestOf(args).(status := status))
  {
    var created := CreateLoanRequest(args, ledger, env);
    assert CurrentRecord(created.ledger, env, args[0]) == RequestOf(args);
  }

  /** Setting the same status twice leaves the same world state as setting it once. */
  lemma UpdateIdempotent(key: string, status: string, ledger: Ledger, env: Env)
    requires Lawful(env.codec)
    ensures var once := UpdateLoanStatus([key, status], ledger, env);
      UpdateLoanStatus([key, status], once.ledger, env) == once
  {
    var once := UpdateLoanStatus([key, status], ledger, env);
    if key !in env.faults.writeErrors {
      var r := CurrentRecord(ledger, env, key).(status := status);
      var l1 := ledger[key := env.codec.encode(r)];
      assert once == Txn(Ok(status), l1);
      assert CurrentRecord(l1, env, key).(status := status) == r;
      assert l1[key := env.codec.encode(r)] == l1;
    }
  }

  // ---------------------------------------------------------------------
  // The world state holds record encodings
  // ---------------------------------------------------------------------

  /** `value` is the encoding of the record it decodes to. */
  ghost predicate Canonical(codec: Codec, value: string) {
    codec.decode(value).Some? && codec.encode(codec.decode(value).value) == value
  }

  /**
   * Every stored value that decodes as a record is that record's encoding.
   * The loan transactions write only record encodings; `Init` writes integer
   * holdings, which do not decode as records.
   */
  ghost predicate WellFormed(ledger: Ledger, codec: Codec) {
    forall k :: k in ledger && codec.decode(ledger[k]).Some? ==> Canonical(codec, ledger[k])
  }

  /** The decimal text of a holding never decodes as a JSON record. */
  lemma HoldingIsNoRecord(n: int)
    ensures Decode(Itoa(n)).None?
  {
  }

  /** Storing a holding keeps the world state well formed. */
  lemma HoldingKeepsWellFormed(ledger: Ledger, key: string, n: int)
    requires WellFormed(ledger, Json)
    ensures WellFormed(ledger[key := Itoa(n)], Json)
  {
    HoldingIsNoRecord(n);
  }

  /** `Init` keeps the world state well formed, starting from the empty one in particular. */
  lemma InitPreservesWellFormed(args: seq<string>, ledger: Ledger, faults: Faults)
    requires WellFormed(ledger, Json)
    ensures Init(args, ledger, faults).Returned? ==> WellFormed(Init(args, ledger, faults).value.ledger, Json)
  {
    var o := Init(args, ledger, faults);
    if o.Returned? && |args| >= 4 && Atoi(args[1]).Some? && Atoi(args[3]).Some? && args[0] !in faults.writeErrors {
      var first := ledger[args[0] := Itoa(Atoi(args[1]).value)];
      HoldingKeepsWellFormed(ledger, args[0], Atoi(args[1]).value);
      if args[2] !in faults.writeErrors {
        assert o.value.ledger == first[args[2] := Itoa(Atoi(args[3]).value)];
        HoldingKeepsWellFormed(first, args[2], Atoi(args[3]).value);
      } else {
        assert o.value.ledger == first;
      }
    }
  }

  /** Every transaction keeps the world state well formed. */
  lemma InvokePreservesWellFormed(fn: string, args: seq<string>, ledger: Ledger, env: Env)
    requires Lawful(env.codec) && WellFormed(ledger, env.codec)
    ensures WellFormed(Invoke(fn, args, ledger, env).ledger, env.codec)
  {
    var t := Invoke(fn, args, ledger, env);
    if t.ledger != ledger {
      var key := args[0];
      var r := if Route(fn) == Create then RequestOf(args)
               else CurrentRecord(ledger, env, key).(status := args[1]);
      assert t.ledger == ledger[key := env.codec.encode(r)];
      assert Canonical(env.codec, env.codec.encode(r));
    }
  }

  // ---------------------------------------------------------------------
  // Query by bank
  // ---------------------------------------------------------------------

  /** `key` holds the encoding of `r`, a request at `bank`. */
  ghost predicate HeldAt(ledger: Ledger, codec: Codec, bank: string, key: string, r: LoanRecord) {
    key in ledger && codec.decode(ledger[key]) == Some(r) && r.bankId == bank
  }

  /** The stored `value` decodes to a request at `bank`. */
  ghost predicate AtBank(codec: Codec, value: string, bank: string) {
    codec.decode(value).Some? && codec.decode(value).value.bankId == bank
  }

  /** Some hit carries `key`. */
  ghost predicate Listed(hits: seq<Hit>, key: string) {
    exists i :: 0 <= i < |hits| && hits[i].key == key
  }

  /**
   * The ledger evaluated the selector honestly: a cursor that does not fail,
   * over stored entries whose record is at `bank`, each key once, and every
   * such entry listed.
   */
  ghost predicate AnswersByBank(q: QueryOutcome, ledger: Ledger, codec: Codec, bank: string) {
    && q.Cursor? && !q.FailsBeforeEnd()
    && (forall i :: 0 <= i < |q.hits| ==>
          q.hits[i].key in ledger && q.hits[i].value == ledger[q.hits[i].key]
          && AtBank(codec, q.hits[i].value, bank))
    && (forall i, j :: 0 <= i < j < |q.hits| ==> q.hits[i].key != q.hits[j].key)
    && (forall k :: k in ledger && AtBank(codec, ledger[k], bank) ==> Listed(q.hits, k))
  }

  /** `reader` reads back every encoding, whatever follows it. */
  ghost predicate ReadsEncodings(reader: RecordReader, codec: Codec) {
    forall r, rest :: reader(codec.encode(r) + rest) == Some(Parsed(r, rest))
  }

  /**
   * Over a well-formed world state whose requests at `bank` sit under
   * JSON-safe keys, and an honest ledger, the query by bank answers an array
   * that reads back as exactly the stored requests at that bank, each key
   * once, in cursor order.
   */
  lemma QueryByBankFindsMatches(bank: string, more: seq<string>, ledger: Ledger, env: Env,
                                reader: RecordReader)
    requires Consumes(reader) && ReadsEncodings(reader, env.codec)
    requires WellFormed(ledger, env.codec)
    requires forall k :: k in ledger && AtBank(env.codec, ledger[k], bank) ==> JsonSafe(k)
    requires AnswersByBank(env.engine(Selector(bank)), ledger, env.codec, bank)
    ensures var t := Invoke("queryLoanByBank", [bank] + more, ledger, env);
      && t.ledger == ledger
      && t.result.Success?
      && ParseArray(reader, t.result.payload).Some?
      && var es := ParseArray(reader, t.result.payload).value;
      && (forall i :: 0 <= i < |es| ==> HeldAt(ledger, env.codec, bank, es[i].key, es[i].record))
      && (forall k, r :: HeldAt(ledger, env.codec, bank, k, r) ==> Entry(k, r) in es)
      && (forall i, j :: 0 <= i < j < |es| ==> es[i].key != es[j].key)
  {
    var codec := env.codec;
    var hits := env.engine(Selector(bank)).hits;
    var es := seq(|hits|, i requires 0 <= i < |hits| => Entry(hits[i].key, codec.decode(hits[i].value).value));
    forall i | 0 <= i < |es|
      ensures Reads(reader, hits[i].value, es[i].record)
    {
      assert Canonical(codec, ledger[hits[i].key]);
      assert hits[i].value == codec.encode(es[i].record);
    }
    ParseArrayRoundTrip(reader, hits, es);
    forall k, r | HeldAt(ledger, codec, bank, k, r)
      ensures Entry(k, r) in es
    {
      assert AtBank(codec, ledger[k], bank);
      assert Listed(hits, k);
      var i :| 0 <= i < |hits| && hits[i].key == k;
      assert es[i] == Entry(k, r);
    }
  }

  /** The JSON record reader reads back every JSON encoding. */
  lemma JsonReadsEncodings()
    ensures Consumes(ParseRecord) && ReadsEncodings(ParseRecord, Json)
  {
    ParseRecordConsumes();
    forall r, rest
      ensures ParseRecord(Json.encode(r) + rest) == Some(Parsed(r, rest))
    {
      ParseRecordRoundTrip(r, rest);
    }
  }

  /** The query by bank over JSON-encoded records, read back with the JSON record reader. */
  lemma JsonQueryByBankFindsMatches(bank: string, more: seq<string>, ledger: Ledger, env: Env)
    requires env.codec == Json
    requires WellFormed(ledger, Json)
    requires forall k :: k in ledger && AtBank(Json, ledger[k], bank) ==> JsonSafe(k)
    requires AnswersByBank(env.engine(Selector(bank)), ledger, Json, bank)
    ensures var t := Invoke("queryLoanByBank", [bank] + more, ledger, env);
      && t.ledger == ledger
      && t.result.Success?
      && ParseResultArray(t.result.payload).Some?
      && var es := ParseResultArray(t.result.payload).value;
      && (forall i :: 0 <= i < |es| ==> HeldAt(ledger, Json, bank, es[i].key, es[i].record))
      && (forall k, r :: HeldAt(ledger, Json, bank, k, r) ==> Entry(k, r) in es)
      && (forall i, j :: 0 <= i < j < |es| ==> es[i].key != es[j].key)
  {
    JsonReadsEncodings();
    QueryByBankFindsMatches(bank, more, ledger, env, ParseRecord);
  }
}
