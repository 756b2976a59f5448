/** The `loanApplication` record the chaincode stores under each key. */
module LoanRecords {
  import opened Outcomes

  /** The ten string fields, in declaration order. */
  datatype LoanRecord = LoanRecord(
    userId: string,
    name: string,
    ssn: string,
    loanAmount: string,
    education: string,
    age: string,
    tenure: string,
    address: string,
    bankId: string,
    status: string)

  /** The JSON key of each field (its struct tag), in declaration order. */
  const FieldNames: seq<string> :=
    ["UserId", "Name", "SSN", "LoanAmount", "Education", "Age", "Tenure", "Address", "BankId", "Status"]

  const FieldCount: nat := 10

  /** The status every new request starts in. */
  const InitialStatus: string := "Requested"

  /** Go's zero value `loanApplication{}`: every field the empty string. */
  const Empty: LoanRecord := LoanRecord("", "", "", "", "", "", "", "", "", "")

  /** The field values in declaration order, so that `Fields(r)[i]` is keyed by `FieldNames[i]`. */
  function Fields(r: LoanRecord): (fs: seq<string>)
    ensures |fs| == |FieldNames| == FieldCount
    ensures fs[0] == r.userId && fs[8] == r.bankId && fs[9] == r.status
  {
    [r.userId, r.name, r.ssn, r.loanAmount, r.education, r.age, r.tenure, r.address, r.bankId, r.status]
  }

  /** The record whose fields, in declaration order, are `fs`. */
  function FromFields(fs: seq<string>): (r: LoanRecord)
    requires |fs| == FieldCount
    ensures Fields(r) == fs
  {
    LoanRecord(fs[0], fs[1], fs[2], fs[3], fs[4], fs[5], fs[6], fs[7], fs[8], fs[9])
  }

  /** The two records agree on every field except, possibly, `status`. */
  predicate SameExceptStatus(a: LoanRecord, b: LoanRecord) {
    a.(status := "") == b.(status := "")
  }

  /**
   * How records are stored: `json.Marshal` and `json.Unmarshal` on a
   * `loanApplication`. The chaincode relies only on `Lawful`.
   */
  datatype Codec = Codec(encode: LoanRecord -> string, decode: string -> Option<LoanRecord>)

  /** Decoding an encoding gives the record back, empty fields included. */
  ghost predicate Lawful(c: Codec) {
    forall r :: c.decode(c.encode(r)) == Some(r)
  }
}
