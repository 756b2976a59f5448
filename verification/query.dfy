/**
 * The rich query by bank: the CouchDB selector the chaincode sends, and the
 * JSON array it assembles from the cursor the ledger hands back.
 */
module Query {
  import opened Outcomes
  import opened Shim
  import opened LoanRecords
  import opened JsonCodec

  // ---------------------------------------------------------------------
  // The selector
  // ---------------------------------------------------------------------

  const SelectorPrefix: string := "{\"selector\": {\"BankId\": {\"$eq\": \""
  const SelectorSuffix: string := "\" }}}"

  /** The query string for one bank, the bank inserted verbatim (no escaping). */
  function Selector(bank: string): (q: string)
    ensures |q| == |SelectorPrefix| + |bank| + |SelectorSuffix|
    ensures q[..|SelectorPrefix|] == SelectorPrefix
    ensures q[|SelectorPrefix|..|q| - |SelectorSuffix|] == bank
    ensures q[|q| - |SelectorSuffix|..] == SelectorSuffix
  {
    SelectorPrefix + bank + SelectorSuffix
  }

  /** Distinct banks give distinct query strings. */
  lemma SelectorInjective(a: string, b: string)
    requires Selector(a) == Selector(b)
    ensures a == b
  {
    var q := Selector(a);
    assert a == q[|SelectorPrefix|..|q| - |SelectorSuffix|];
  }

  // ---------------------------------------------------------------------
  // The result array
  // ---------------------------------------------------------------------

  /** `xs` separated by `sep`. */
  function Join(sep: string, xs: seq<string>): string
    decreases |xs|
  {
    if |xs| == 0 then ""
    else if |xs| == 1 then xs[0]
    else xs[0] + sep + Join(sep, xs[1..])
  }

  /** Appending one more item adds one separator and the item. */
  lemma {:induction false} JoinSnoc(sep: string, xs: seq<string>, x: string)
    requires |xs| > 0
    ensures Join(sep, xs + [x]) == Join(sep, xs) + sep + x
    decreases |xs|
  {
    if |xs| == 1 {
      assert (xs + [x])[1..] == [x];
    } else {
      assert (xs + [x])[1..] == xs[1..] + [x];
      JoinSnoc(sep, xs[1..], x);
    }
  }

  /** The seven writes of one member append exactly that member. */
  lemma WritesMakeElement(buffer: string, h: Hit)
    ensures buffer + "{\"Key\":" + "\"" + h.key + "\"" + ", \"Record\":" + h.value + "}"
         == buffer + Element(h)
  {
    var open := "{\"Key\":" + "\"";
    assert open == "{\"Key\":\"";
    assert buffer + "{\"Key\":" + "\"" == buffer + open;
    var mid := "\"" + ", \"Record\":";
    assert mid == "\", \"Record\":";
    assert buffer + open + h.key + "\"" + ", \"Record\":" == buffer + open + h.key + mid;
    assert buffer + open + h.key + mid + h.value + "}" == buffer + (open + h.key + mid + h.value + "}");
  }

  /** Writing the separator, if any, and member `i` extends the array text by one member. */
  lemma ArrayGrows(hits: seq<Hit>, i: nat)
    requires i < |hits|
    ensures "[" + Join(",", Elements(hits[..i])) + (if i > 0 then "," else "") + Element(hits[i])
         == "[" + Join(",", Elements(hits[..i + 1]))
  {
    assert Elements(hits[..i + 1]) == Elements(hits[..i]) + [Element(hits[i])];
    if i > 0 {
      JoinSnoc(",", Elements(hits[..i]), Element(hits[i]));
    }
  }

  /** One array member: `{"Key":"<key>", "Record":<value>}`, the value verbatim. */
  function Element(h: Hit): string {
    "{\"Key\":\"" + h.key + "\", \"Record\":" + h.value + "}"
  }

  function Elements(hits: seq<Hit>): (es: seq<string>)
    ensures |es| == |hits|
    ensures forall i :: 0 <= i < |hits| ==> es[i] == Element(hits[i])
  {
    seq(|hits|, i requires 0 <= i < |hits| => Element(hits[i]))
  }

  /** The array text for a cursor that does not fail: `[`, members joined by `,`, `]`. */
  function ArrayText(hits: seq<Hit>): string {
    "[" + Join(",", Elements(hits)) + "]"
  }

  /** What the query returns for the ledger's answer: the array or the first error. */
  function ResultArray(q: QueryOutcome): Result<string> {
    match q
    case QueryFailed(msg) => Err(msg)
    case Cursor(hits, failure) =>
      if q.FailsBeforeEnd() then Err(failure.value.message) else Ok(ArrayText(hits))
  }

  /**
   * `getQueryResultForQueryString` after the ledger answered with `q`: walk
   * the cursor, writing a comma before every member but the first, and give
   * up on the first failing `Next`, discarding what was written.
   */
  method GetQueryResultForQueryString(q: QueryOutcome) returns (r: Result<string>)
    ensures r == ResultArray(q)
  {
    if q.QueryFailed? {
      return Err(q.message);
    }
    var hits := q.hits;
    var buffer := "[";
    var memberWritten := false;
    var i := 0;
    while i < |hits|
      invariant 0 <= i <= |hits|
      invariant memberWritten <==> i > 0
      invariant buffer == "[" + Join(",", Elements(hits[..i]))
      invariant q.failure.Some? ==> q.failure.value.at >= i
    {
      if q.failure.Some? && q.failure.value.at == i {
        return Err(q.failure.value.message);
      }
      ghost var before := buffer;
      if memberWritten {
        buffer := buffer + ",";
      }
      buffer := buffer + "{\"Key\":";
      buffer := buffer + "\"";
      buffer := buffer + hits[i].key;
      buffer := buffer + "\"";
      buffer := buffer + ", \"Record\":";
      buffer := buffer + hits[i].value;
      buffer := buffer + "}";
      WritesMakeElement(before + (if i > 0 then "," else ""), hits[i]);
      ArrayGrows(hits, i);
      memberWritten := true;
      i := i + 1;
    }
    buffer := buffer + "]";
    assert hits[..i] == hits;
    return Ok(buffer);
  }

  // ---------------------------------------------------------------------
  // Reading the array back
  // ---------------------------------------------------------------------

  /** A hit's key and the record stored under it. */
  datatype Entry = Entry(key: string, record: LoanRecord)

  /** The hit a ledger holding `e.record` encoded under `e.key` returns. */
  function HitOf(e: Entry): Hit {
    Hit(e.key, Encode(e.record))
  }

  /** The hits a ledger holding `es` returns, in the same order. */
  function HitsOf(es: seq<Entry>): (hits: seq<Hit>)
    ensures |hits| == |es|
    ensures forall i :: 0 <= i < |es| ==> hits[i] == HitOf(es[i])
  {
    seq(|es|, i requires 0 <= i < |es| => HitOf(es[i]))
  }

  /** A reader of the record embedded in a member: the record and the input after it. */
  type RecordReader = string -> Option<Parsed<LoanRecord>>

  /** The reader consumes what it reads, so reading a whole array terminates. */
  ghost predicate Consumes(reader: RecordReader) {
    forall s :: reader(s).Some? ==> |reader(s).value.rest| < |s|
  }

  /** `reader` reads `text` as `rec`, whatever follows it. */
  ghost predicate Reads(reader: RecordReader, text: string, rec: LoanRecord) {
    forall rest :: reader(text + rest) == Some(Parsed(rec, rest))
  }

  /**
   * The opening of a member up to its record: the key, read as a JSON
   * string, and the input after `"Record":`.
   */
  function ParseKeyField(s: string): (r: Option<Parsed<string>>)
    ensures r.Some? ==> |r.value.rest| < |s|
  {
    match Expect("{\"Key\":\"", s)
    case None => None
    case Some(s1) =>
      match ParseStringBody(s1)
      case None => None
      case Some(Parsed(key, s2)) =>
        match Expect(", \"Record\":", s2)
        case None => None
        case Some(s3) => Some(Parsed(key, s3))
  }

  /** One array member, and the input after it. */
  function ParseElement(reader: RecordReader, s: string): (r: Option<Parsed<Entry>>)
    requires Consumes(reader)
    ensures r.Some? ==> |r.value.rest| < |s|
  {
    match ParseKeyField(s)
    case None => None
    case Some(Parsed(key, s1)) =>
      match reader(s1)
      case None => None
      case Some(Parsed(rec, s2)) =>
        match Expect("}", s2)
        case None => None
        case Some(s3) => Some(Parsed(Entry(key, rec), s3))
  }

  /** Members separated by commas up to the closing bracket, which must end the input. */
  function ParseElements(reader: RecordReader, s: string): Option<seq<Entry>>
    requires Consumes(reader)
    decreases |s|
  {
    match ParseElement(reader, s)
    case None => None
    case Some(Parsed(e, s1)) =>
      if s1 == "]" then Some([e])
      else
        match Expect(",", s1)
        case None => None
        case Some(s2) =>
          match ParseElements(reader, s2)
          case None => None
          case Some(es) => Some([e] + es)
  }

  /** The entries of a result array, each record read by `reader`. */
  function ParseArray(reader: RecordReader, s: string): Option<seq<Entry>>
    requires Consumes(reader)
  {
    if s == "[]" then Some([])
    else
      match Expect("[", s)
      case None => None
      case Some(s1) => ParseElements(reader, s1)
  }

  lemma ParseRecordConsumes()
    ensures Consumes(ParseRecord)
  {
  }

  /** The entries of a result array whose records are encoded loan records. */
  function ParseResultArray(s: string): Option<seq<Entry>> {
    ParseRecordConsumes();
    ParseArray(ParseRecord, s)
  }

  /**
   * A key the chaincode's verbatim write makes a valid JSON string: no quote,
   * no backslash and no control character.
   */
  predicate JsonSafe(key: string) {
    forall i :: 0 <= i < |key| ==> key[i] != '"' && key[i] != '\\' && key[i] >= ' '
  }

  /** A JSON-safe key written verbatim and closed by a quote reads back as itself. */
  lemma {:induction false} VerbatimKeyRoundTrip(key: string, rest: string)
    requires JsonSafe(key)
    ensures ParseStringBody(key + "\"" + rest) == Some(Parsed(key, rest))
    decreases |key|
  {
    if |key| == 0 {
      assert key + "\"" + rest == ['"'] + rest;
    } else {
      assert (key + "\"" + rest)[1..] == key[1..] + "\"" + rest;
      VerbatimKeyRoundTrip(key[1..], rest);
      assert [key[0]] + key[1..] == key;
    }
  }

  /** A member followed by `rest`, cut where `ParseElement` reads it. */
  lemma ElementSplit(h: Hit, rest: string)
    ensures Element(h) + rest
         == "{\"Key\":\"" + (h.key + ("\"" + (", \"Record\":" + (h.value + ("}" + rest)))))
  {
    var open, close := "{\"Key\":\"", "}";
    var quote, mid := "\"", ", \"Record\":";
    assert "\", \"Record\":" == quote + mid;
    calc {
      Element(h) + rest;
      open + h.key + (quote + mid) + h.value + close + rest;
      { Assoc(open, h.key, quote, mid, h.value, close, rest); }
      open + (h.key + (quote + (mid + (h.value + (close + rest)))));
    }
  }

  /** Regrouping a chain of seven concatenations. */
  lemma Assoc(a: string, b: string, c: string, d: string, e: string, f: string, g: string)
    ensures a + b + (c + d) + e + f + g == a + (b + (c + (d + (e + (f + g)))))
  {
  }

  lemma KeyFieldRoundTrip(key: string, rest: string)
    requires JsonSafe(key)
    ensures ParseKeyField("{\"Key\":\"" + (key + ("\"" + (", \"Record\":" + rest))))
         == Some(Parsed(key, rest))
  {
    var open, mid := "{\"Key\":\"", ", \"Record\":";
    var s2 := mid + rest;
    var s1 := key + ("\"" + s2);
    ExpectPrefix(open, s1);
    VerbatimKeyRoundTrip(key, s2);
    assert key + "\"" + s2 == s1;
    ExpectPrefix(mid, rest);
  }

  /** A member reads back whenever the reader reads its record text. */
  lemma ParseElementRoundTrip(reader: RecordReader, h: Hit, rec: LoanRecord, rest: string)
    requires Consumes(reader) && Reads(reader, h.value, rec)
    requires JsonSafe(h.key)
    ensures ParseElement(reader, Element(h) + rest) == Some(Parsed(Entry(h.key, rec), rest))
  {
    var s1 := h.value + ("}" + rest);
    ElementSplit(h, rest);
    KeyFieldRoundTrip(h.key, s1);
    assert reader(s1) == Some(Parsed(rec, "}" + rest));
    ExpectPrefix("}", rest);
  }

  /** `hits` carry the keys of `es` and texts `reader` reads as their records. */
  ghost predicate Carries(reader: RecordReader, hits: seq<Hit>, es: seq<Entry>) {
    && |hits| == |es|
    && (forall i :: 0 <= i < |es| ==> hits[i].key == es[i].key && JsonSafe(es[i].key))
    && (forall i :: 0 <= i < |es| ==> Reads(reader, hits[i].value, es[i].record))
  }

  /** A join of two or more members, followed by `rest`, split after the first member. */
  lemma JoinSplit(hits: seq<Hit>, rest: string)
    requires |hits| > 1
    ensures Join(",", Elements(hits)) + rest == Element(hits[0]) + ("," + (Join(",", Elements(hits[1..])) + rest))
  {
    var elems := Elements(hits);
    assert elems[1..] == Elements(hits[1..]);
    assert Join(",", elems) == elems[0] + "," + Join(",", Elements(hits[1..]));
  }

  lemma {:induction false} ParseElementsRoundTrip(reader: RecordReader, hits: seq<Hit>, es: seq<Entry>)
    requires Consumes(reader) && Carries(reader, hits, es) && |es| > 0
    ensures ParseElements(reader, Join(",", Elements(hits)) + "]") == Some(es)
    decreases |es|
  {
    if |es| == 1 {
      ParseElementRoundTrip(reader, hits[0], es[0].record, "]");
      assert Join(",", Elements(hits)) == Element(hits[0]);
      assert [es[0]] == es;
    } else {
      var tail := Join(",", Elements(hits[1..])) + "]";
      JoinSplit(hits, "]");
      ParseElementRoundTrip(reader, hits[0], es[0].record, "," + tail);
      ExpectPrefix(",", tail);
      assert "," + tail != "]";
      assert Carries(reader, hits[1..], es[1..]);
      ParseElementsRoundTrip(reader, hits[1..], es[1..]);
      assert [es[0]] + es[1..] == es;
    }
  }

  /** The array text reads back as the entries the hits carry, in cursor order. */
  lemma ParseArrayRoundTrip(reader: RecordReader, hits: seq<Hit>, es: seq<Entry>)
    requires Consumes(reader) && Carries(reader, hits, es)
    ensures ParseArray(reader, ArrayText(hits)) == Some(es)
  {
    var text := ArrayText(hits);
    if |es| == 0 {
      assert text == "[]";
    } else {
      var body := Join(",", Elements(hits)) + "]";
      assert text == "[" + body;
      ParseElementsRoundTrip(reader, hits, es);
      ExpectPrefix("[", body);
      assert text != "[]" by {
        assert |Element(hits[0])| > 1;
        JoinLength(Elements(hits));
      }
    }
  }

  /**
   * When every hit is an encoded record under a JSON-safe key, the array
   * reads back, keys as JSON strings, as exactly those entries, in cursor
   * order.
   */
  lemma ArrayTextRoundTrip(es: seq<Entry>)
    requires forall i :: 0 <= i < |es| ==> JsonSafe(es[i].key)
    ensures ParseResultArray(ArrayText(HitsOf(es))) == Some(es)
  {
    var hits := HitsOf(es);
    forall i | 0 <= i < |es|
      ensures Reads(ParseRecord, hits[i].value, es[i].record)
    {
      forall rest: string {
        ParseRecordRoundTrip(es[i].record, rest);
      }
    }
    ParseRecordConsumes();
    ParseArrayRoundTrip(ParseRecord, hits, es);
  }

  /** A non-empty join is at least as long as its first item. */
  lemma JoinLength(xs: seq<string>)
    requires |xs| > 0
    ensures |Join(",", xs)| >= |xs[0]|
  {
  }

  // ---------------------------------------------------------------------
  // The query operation
  // ---------------------------------------------------------------------

  /**
   * `queryLoanByBank`: the bank is the first argument (further ones are
   * ignored); `engine` stands for the ledger's rich-query evaluation.
   */
  function QueryLoanByBank(args: seq<string>, engine: string -> QueryOutcome): (resp: Response)
    ensures |args| == 0 ==> resp == Error("Incorrect number of arguments. Expecting 1")
    ensures |args| > 0 ==>
      match ResultArray(engine(Selector(args[0])))
      case Ok(text) => resp == Success(text)
      case Err(msg) => resp == Error(msg)
  {
    if |args| < 1 then Error("Incorrect number of arguments. Expecting 1")
    else
      match ResultArray(engine(Selector(args[0])))
      case Err(msg) => Error(msg)
      case Ok(text) => Success(text)
  }
}
