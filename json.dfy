/** A parsed JSON value and the rules by which Go's encoding/json stores one
    value into a struct field that starts out at its zero value. A number keeps
    its literal text, so that a fraction or an exponent stored into an integer
    field fails as it does in Go; that text is taken to be a valid JSON number
    (what a JSON parser hands over), and nothing here rejects one that is not,
    such as "+5", "1." or "-". Object keys are matched exactly. */
module Json {
  import opened Wrappers
  import opened GoLib

  datatype Json =
    | Null
    | Bool(b: bool)
    | Number(literal: string)
    | Str(s: string)
    | Array(elems: seq<Json>)
    | Object(fields: map<string, Json>)

  datatype DecodeError =
    | TypeMismatch(target: string)
    | InvalidStringTag(text: string)
    | UnexpectedListType

  /** The value of member `name` of an object; Null when it is absent or `j` is no object. */
  function Member(j: Json, name: string): (v: Json)
    ensures v != Null ==> j.Object? && name in j.fields && j.fields[name] == v
  {
    if j.Object? && name in j.fields then j.fields[name] else Null
  }

  /** A JSON value stored into a Go string field: null leaves "" in place. */
  function DecodeString(v: Json): (r: Result<string, DecodeError>)
    ensures r.Success? <==> v.Null? || v.Str?
    ensures v.Str? ==> r == Success(v.s)
    ensures v.Null? ==> r == Success("")
  {
    match v
    case Null => Success("")
    case Str(s) => Success(s)
    case _ => Failure(TypeMismatch("string"))
  }

  /** A JSON value stored into a Go int64 (or 64-bit int) field: null leaves 0;
      a number must be an integer literal in range. */
  function DecodeInt64(v: Json): (r: Result<int64, DecodeError>)
    ensures r.Success? <==> v.Null? || (v.Number? && ParseInt64(v.literal).Some?)
    ensures v.Number? && r.Success? ==> r.value == ParseDecimal(v.literal).value
    ensures v.Null? ==> r == Success(0)
  {
    match v
    case Null => Success(0)
    case Number(lit) =>
      (match ParseInt64(lit)
       case Some(n) => Success(n)
       case None => Failure(TypeMismatch("int64")))
    case _ => Failure(TypeMismatch("int64"))
  }

  /** A JSON value stored into an int field tagged `,string`: the number is
      written inside a JSON string. null, and the quoted word null, leave 0;
      the quoted text must start like a number and parse as one. */
  function DecodeQuotedInt64(v: Json): (r: Result<int64, DecodeError>)
    ensures v.Str? && v.s != "null" ==>
              (r.Success? <==> v.s != "" && v.s[0] != '+' && ParseInt64(v.s).Some?)
    ensures r.Success? && v.Str? && v.s != "null" ==> r.value == ParseDecimal(v.s).value
    ensures !v.Str? && !v.Null? ==> r.Failure?
    ensures v.Null? || v == Str("null") ==> r == Success(0)
  {
    match v
    case Null => Success(0)
    case Str(s) =>
      if s == "null" then Success(0)
      else if s == "" || (s[0] != '-' && !IsDigit(s[0])) then Failure(InvalidStringTag(s))
      else
        (match ParseInt64(s)
         case Some(n) => Success(n)
         case None => Failure(TypeMismatch("int")))
    case _ => Failure(InvalidStringTag(""))
  }

  /** What `%d` prints, quoted, decodes back into a `,string` int field. */
  lemma QuotedIntRoundTrip(x: int64)
    ensures DecodeQuotedInt64(Str(FormatInt(x))) == Success(x)
  {
    var s := FormatInt(x);
    FormatThenParseInt64(x);
    assert s != "null" by {
      if x < 0 {
        assert s[0] == '-';
      } else {
        assert IsDigit(s[0]);
      }
    }
  }
}
