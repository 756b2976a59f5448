/**
 * The JSON form of a `LoanRecord` as Go's `json.Marshal` writes it: one
 * object, fields in declaration order keyed by their tags, no whitespace,
 * strings escaped the way `encoding/json` escapes them (HTML-safe). The
 * decoder accepts exactly that layout, with any standard JSON escape inside
 * the strings, and is proved to invert the encoder.
 */
module JsonCodec {
  import opened Outcomes
  import opened LoanRecords

  // ---------------------------------------------------------------------
  // Hexadecimal digits
  // ---------------------------------------------------------------------

  /** The lower-case hexadecimal digit for `d`, as `encoding/json` writes it. */
  function HexDigit(d: nat): (c: char)
    requires d < 16
    ensures IsHexDigit(c) && HexValue(c) == d
  {
    if d < 10 then ('0' as int + d) as char else ('a' as int + d - 10) as char
  }

  predicate IsHexDigit(c: char) {
    ('0' <= c <= '9') || ('a' <= c <= 'f') || ('A' <= c <= 'F')
  }

  function HexValue(c: char): (v: nat)
    requires IsHexDigit(c)
    ensures v < 16
  {
    if '0' <= c <= '9' then c as int - '0' as int
    else if 'a' <= c <= 'f' then c as int - 'a' as int + 10
    else c as int - 'A' as int + 10
  }

  // ---------------------------------------------------------------------
  // Strings
  // ---------------------------------------------------------------------

  /** Characters `encoding/json` writes as `\u00xx` with HTML escaping on. */
  predicate EscapedAsHexByte(c: char) {
    (c < ' ' && c != '\n' && c != '\r' && c != '\t') || c == '<' || c == '>' || c == '&'
  }

  /** How one character of a string value appears between the quotes. */
  function EscapeChar(c: char): string {
    if c == '"' then "\\\""
    else if c == '\\' then "\\\\"
    else if c == '\n' then "\\n"
    else if c == '\r' then "\\r"
    else if c == '\t' then "\\t"
    else if EscapedAsHexByte(c) then "\\u00" + [HexDigit(c as int / 16), HexDigit(c as int % 16)]
    else if c == '\U{2028}' || c == '\U{2029}' then "\\u202" + [HexDigit(c as int % 16)]
    else [c]
  }

  /** The text between the quotes of the JSON string for `s`. */
  function Escape(s: string): string {
    if |s| == 0 then "" else EscapeChar(s[0]) + Escape(s[1..])
  }

  /** `lit` starts `s`; the rest of `s` after it. */
  function Expect(lit: string, s: string): (r: Option<string>)
    ensures r.Some? ==> lit + r.value == s
  {
    if |lit| <= |s| && s[..|lit|] == lit then Some(s[|lit|..]) else None
  }

  lemma ExpectPrefix(lit: string, rest: string)
    ensures Expect(lit, lit + rest) == Some(rest)
  {
    assert (lit + rest)[..|lit|] == lit;
    assert (lit + rest)[|lit|..] == rest;
  }

  /** The four hex digits after `\u`, as one code unit. */
  function HexQuad(s: string): (r: Option<nat>)
    ensures r.Some? ==> r.value < 0x1_0000
  {
    if |s| >= 4 && IsHexDigit(s[0]) && IsHexDigit(s[1]) && IsHexDigit(s[2]) && IsHexDigit(s[3])
    then Some(HexValue(s[0]) * 0x1000 + HexValue(s[1]) * 0x100 + HexValue(s[2]) * 0x10 + HexValue(s[3]))
    else None
  }

  /**
   * The escape sequence at the start of `s` (just after a backslash): the
   * character it stands for and the input after it. A `\u` escape naming a
   * surrogate half is refused.
   */
  function ParseEscape(s: string): (r: Option<Parsed<char>>)
    ensures r.Some? ==> |r.value.rest| < |s|
  {
    if |s| == 0 then None
    else if s[0] == '"' || s[0] == '\\' || s[0] == '/' then Some(Parsed(s[0], s[1..]))
    else if s[0] == 'b' then Some(Parsed(8 as char, s[1..]))
    else if s[0] == 'f' then Some(Parsed(12 as char, s[1..]))
    else if s[0] == 'n' then Some(Parsed('\n', s[1..]))
    else if s[0] == 'r' then Some(Parsed('\r', s[1..]))
    else if s[0] == 't' then Some(Parsed('\t', s[1..]))
    else if s[0] == 'u' then
      match HexQuad(s[1..])
      case None => None
      case Some(v) =>
        if 0xD800 <= v < 0xE000 then None else Some(Parsed(v as char, s[5..]))
    else None
  }

  /** Put `c` in front of a parsed string. */
  function Prepend(c: char, p: Option<Parsed<string>>): Option<Parsed<string>> {
    match p
    case None => None
    case Some(Parsed(v, rest)) => Some(Parsed([c] + v, rest))
  }

  /**
   * A JSON string body at the start of `s` (just after the opening quote):
   * the decoded value and the input after the closing quote. Raw control
   * characters are refused, as JSON requires.
   */
  function ParseStringBody(s: string): (r: Option<Parsed<string>>)
    ensures r.Some? ==> |r.value.rest| < |s|
    decreases |s|
  {
    if |s| == 0 then None
    else if s[0] == '"' then Some(Parsed("", s[1..]))
    else if s[0] == '\\' then
      match ParseEscape(s[1..])
      case None => None
      case Some(Parsed(c, rest)) => Prepend(c, ParseStringBody(rest))
    else if s[0] < ' ' then None
    else Prepend(s[0], ParseStringBody(s[1..]))
  }

  /** Each character's escape reads back as that character. */
  lemma EscapeCharRoundTrip(c: char, rest: string)
    ensures ParseStringBody(EscapeChar(c) + rest) == Prepend(c, ParseStringBody(rest))
  {
    if EscapedAsHexByte(c) && c != '"' && c != '\\' {
      HexByteRoundTrip(c, rest);
    } else if c == '\U{2028}' || c == '\U{2029}' {
      SeparatorRoundTrip(c, rest);
    } else if c == '"' || c == '\\' || c == '\n' || c == '\r' || c == '\t' {
      assert (EscapeChar(c) + rest)[2..] == rest;
    } else {
      assert (EscapeChar(c) + rest)[1..] == rest;
    }
  }

  /** A `\u00xx` escape reads back as its character. */
  lemma HexByteRoundTrip(c: char, rest: string)
    requires EscapedAsHexByte(c) && c != '"' && c != '\\'
    ensures ParseStringBody(EscapeChar(c) + rest) == Prepend(c, ParseStringBody(rest))
  {
    var hi, lo := HexDigit(c as int / 16), HexDigit(c as int % 16);
    var s := ['\\', 'u', '0', '0', hi, lo] + rest;
    assert EscapeChar(c) + rest == s;
    assert HexQuad(s[2..]) == Some(c as int);
    assert ParseEscape(s[1..]) == Some(Parsed(c, rest));
  }

  /** The `\u2028` and `\u2029` escapes read back as their characters. */
  lemma SeparatorRoundTrip(c: char, rest: string)
    requires c == '\U{2028}' || c == '\U{2029}'
    ensures ParseStringBody(EscapeChar(c) + rest) == Prepend(c, ParseStringBody(rest))
  {
    var lo := HexDigit(c as int % 16);
    var s := ['\\', 'u', '2', '0', '2', lo] + rest;
    assert EscapeChar(c) + rest == s;
    assert HexQuad(s[2..]) == Some(c as int);
    assert ParseEscape(s[1..]) == Some(Parsed(c, rest));
  }

  /** The escaped text of `s`, closed by a quote, reads back as `s`. */
  lemma {:induction false} EscapeRoundTrip(s: string, rest: string)
    ensures ParseStringBody(Escape(s) + "\"" + rest) == Some(Parsed(s, rest))
    decreases |s|
  {
    if |s| == 0 {
      assert Escape(s) + "\"" + rest == ['"'] + rest;
    } else {
      var tail := Escape(s[1..]) + "\"" + rest;
      assert Escape(s) + "\"" + rest == EscapeChar(s[0]) + tail;
      EscapeCharRoundTrip(s[0], tail);
      EscapeRoundTrip(s[1..], rest);
      assert [s[0]] + s[1..] == s;
    }
  }

  // ---------------------------------------------------------------------
  // Records
  // ---------------------------------------------------------------------

  /** `"name":"value"` with the value escaped. */
  function Member(name: string, value: string): string {
    "\"" + name + "\":\"" + Escape(value) + "\""
  }

  /** The members for `names` and `values`, separated by commas. */
  function EncodeMembers(names: seq<string>, values: seq<string>): string
    requires |names| == |values| > 0
    decreases |names|
  {
    if |names| == 1 then Member(names[0], values[0])
    else Member(names[0], values[0]) + "," + EncodeMembers(names[1..], values[1..])
  }

  /** The object with members `names` and `values`, in that order. */
  function EncodeObject(names: seq<string>, values: seq<string>): string
    requires |names| == |values| > 0
  {
    "{" + EncodeMembers(names, values) + "}"
  }

  /** `json.Marshal` of a record: `json.Unmarshal` gives the record back. */
  function Encode(r: LoanRecord): (text: string)
    ensures Decode(text) == Some(r)
  {
    var text := EncodeObject(FieldNames, Fields(r));
    ObjectRoundTrip(FieldNames, Fields(r), "");
    assert text + "" == text;
    text
  }

  /** The member keyed by `name` at the start of `s`: its value and the input after it. */
  function ParseMember(name: string, s: string): (r: Option<Parsed<string>>)
    ensures r.Some? ==> |r.value.rest| < |s|
  {
    match Expect("\"" + name + "\":\"", s)
    case None => None
    case Some(s1) => ParseStringBody(s1)
  }

  /** The members keyed by `names`, in that order, at the start of `s`. */
  function ParseMembers(names: seq<string>, s: string): (r: Option<Parsed<seq<string>>>)
    requires |names| > 0
    ensures r.Some? ==> |r.value.value| == |names| && |r.value.rest| < |s|
    decreases |names|
  {
    match ParseMember(names[0], s)
    case None => None
    case Some(Parsed(v, s1)) =>
      if |names| == 1 then Some(Parsed([v], s1))
      else
        match Expect(",", s1)
        case None => None
        case Some(s2) =>
          match ParseMembers(names[1..], s2)
          case None => None
          case Some(Parsed(vs, s3)) => Some(Parsed([v] + vs, s3))
  }

  /** An object with members `names`, in that order, at the start of `s`: the values and the input after it. */
  function ParseObject(names: seq<string>, s: string): (r: Option<Parsed<seq<string>>>)
    requires |names| > 0
    ensures r.Some? ==> |r.value.value| == |names| && |r.value.rest| < |s|
    ensures r.Some? ==> |s| > 0 && s[0] == '{'
  {
    match Expect("{", s)
    case None => None
    case Some(s1) =>
      match ParseMembers(names, s1)
      case None => None
      case Some(Parsed(vs, s2)) =>
        match Expect("}", s2)
        case None => None
        case Some(s3) => Some(Parsed(vs, s3))
  }

  /** A record object at the start of `s`, and the input after it. */
  function ParseRecord(s: string): (r: Option<Parsed<LoanRecord>>)
    ensures r.Some? ==> |r.value.rest| < |s|
    ensures r.Some? ==> |s| > 0 && s[0] == '{'
  {
    match ParseObject(FieldNames, s)
    case None => None
    case Some(Parsed(vs, rest)) => Some(Parsed(FromFields(vs), rest))
  }

  /** `json.Unmarshal` into a record, when `s` is exactly one record object. */
  function Decode(s: string): (r: Option<LoanRecord>)
    ensures r.Some? ==> |s| > 0 && s[0] == '{'
  {
    match ParseRecord(s)
    case Some(Parsed(r, rest)) => if rest == "" then Some(r) else None
    case None => None
  }

  lemma MemberRoundTrip(name: string, value: string, rest: string)
    ensures ParseMember(name, Member(name, value) + rest) == Some(Parsed(value, rest))
  {
    var key := "\"" + name + "\":\"";
    assert Member(name, value) + rest == key + (Escape(value) + "\"" + rest);
    ExpectPrefix(key, Escape(value) + "\"" + rest);
    EscapeRoundTrip(value, rest);
  }

  lemma {:induction false} MembersRoundTrip(names: seq<string>, values: seq<string>, rest: string)
    requires |names| == |values| > 0
    ensures ParseMembers(names, EncodeMembers(names, values) + rest) == Some(Parsed(values, rest))
    decreases |names|
  {
    if |names| == 1 {
      MemberRoundTrip(names[0], values[0], rest);
      assert [values[0]] == values;
    } else {
      var tail := EncodeMembers(names[1..], values[1..]);
      assert EncodeMembers(names, values) + rest == Member(names[0], values[0]) + ("," + (tail + rest));
      MemberRoundTrip(names[0], values[0], "," + (tail + rest));
      ExpectPrefix(",", tail + rest);
      MembersRoundTrip(names[1..], values[1..], rest);
      assert [values[0]] + values[1..] == values;
    }
  }

  lemma ObjectRoundTrip(names: seq<string>, values: seq<string>, rest: string)
    requires |names| == |values| > 0
    ensures ParseObject(names, EncodeObject(names, values) + rest) == Some(Parsed(values, rest))
  {
    var members := EncodeMembers(names, values);
    assert EncodeObject(names, values) + rest == "{" + (members + ("}" + rest));
    ExpectPrefix("{", members + ("}" + rest));
    MembersRoundTrip(names, values, "}" + rest);
    ExpectPrefix("}", rest);
  }

  /** A record's encoding, followed by anything, reads back as that record. */
  lemma ParseRecordRoundTrip(r: LoanRecord, rest: string)
    ensures ParseRecord(Encode(r) + rest) == Some(Parsed(r, rest))
  {
    ObjectRoundTrip(FieldNames, Fields(r), rest);
  }

  /**
   * `json.Unmarshal` inverts `json.Marshal` on loan records, empty fields
   * included: a named corollary of `Encode`'s contract.
   */
  lemma DecodeEncode(r: LoanRecord)
    ensures Decode(Encode(r)) == Some(r)
  {
  }

  /** The JSON codec the chaincode stores records with. */
  const Json: Codec := Codec(Encode, Decode)

  lemma JsonLawful()
    ensures Lawful(Json)
  {
    forall r: LoanRecord
      ensures Json.decode(Json.encode(r)) == Some(r)
    {
      DecodeEncode(r);
    }
  }
}
