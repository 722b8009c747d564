/**
 * Parsed expressions of the query parser: their two child-building
 * constructors, their serialisation to and from a field stream, the
 * validators the binder calls on them, and the default expression of a
 * SERIAL column.
 *
 * A parsed expression owns its children outright (a tree of unique
 * pointers, never shared), so it is a value here. The serializer and the
 * deserializer are stateful streams, so they are classes whose single field
 * is the stream written so far or still to be read. The stream is a sequence
 * of typed fields; the byte layout of a field is the serializer's business
 * and is not part of this model. What a subclass writes in
 * `serializeInternal` and reads back in its own `deserialize` is one payload
 * field.
 */
module ParsedExpressions {
  import opened Wrappers

  /** The expression kinds of the parser (a representative part of the enumeration). */
  datatype ExpressionType =
    | OR | XOR | AND | NOT
    | EQUALS | NOT_EQUALS | GREATER_THAN | GREATER_THAN_EQUALS | LESS_THAN | LESS_THAN_EQUALS
    | IS_NULL | IS_NOT_NULL
    | PROPERTY | LITERAL | STAR | VARIABLE | PATH | PATTERN | PARAMETER
    | FUNCTION | AGGREGATE_FUNCTION | SUBQUERY | CASE_ELSE | GRAPH | LAMBDA
    | INVALID

  /** The logical type ids a literal can carry (a representative part of the enumeration). */
  datatype LogicalType =
    | ANY | BOOL | INT64 | INT32 | DOUBLE | DATE | TIMESTAMP | INTERVAL | STRING | LIST | STRUCT

  /** A literal's value: a string, or a value of some other type whose content is not modelled. */
  datatype Value = StringValue(s: string) | OtherValue(dataType: LogicalType)

  /** Value::getDataType */
  function DataTypeOf(v: Value): LogicalType
  {
    match v
    case StringValue(_) => STRING
    case OtherValue(t) => t
  }

  /**
   * The state a subclass adds to the common fields. A plain ParsedExpression
   * has none; a function expression has its name and DISTINCT flag; a
   * literal its value; the case, parameter, property, subquery and variable
   * expressions have fields that are carried here as opaque strings.
   */
  datatype Payload =
    | NoPayload
    | FunctionPayload(functionName: string, isDistinct: bool)
    | LiteralPayload(value: Value)
    | OtherPayload(data: seq<string>)

  datatype ParsedExpression = ParsedExpression(
    exprType: ExpressionType,
    alias: string,
    rawName: string,
    children: seq<ParsedExpression>,
    payload: Payload)

  /** The one-child constructor: the child becomes the only child; the alias is empty. */
  function NewUnary(exprType: ExpressionType, child: ParsedExpression, rawName: string): (r: ParsedExpression)
    ensures r.children == [child]
    ensures r.exprType == exprType && r.rawName == rawName && r.alias == "" && r.payload == NoPayload
  {
    ParsedExpression(exprType, "", rawName, [child], NoPayload)
  }

  /** The two-child constructor: left, then right. */
  function NewBinary(exprType: ExpressionType, left: ParsedExpression, right: ParsedExpression,
                     rawName: string): (r: ParsedExpression)
    ensures r.children == [left, right] && r.children[0] == left && r.children[1] == right
    ensures r.exprType == exprType && r.rawName == rawName && r.alias == "" && r.payload == NoPayload
  {
    ParsedExpression(exprType, "", rawName, [left, right], NoPayload)
  }

  // ---------------------------------------------------------------------
  // The field stream and its specification
  // ---------------------------------------------------------------------

  datatype Field =
    | TypeField(exprType: ExpressionType)
    | StringField(s: string)
    | SizeField(size: nat)
    | PayloadField(payload: Payload)

  /** The seven expression types `deserialize` knows a subclass for. */
  predicate IsDeserialisableType(t: ExpressionType)
  {
    t in {CASE_ELSE, FUNCTION, LITERAL, PARAMETER, PROPERTY, SUBQUERY, VARIABLE}
  }

  /** The payload shape the subclass of an expression type writes and reads. */
  predicate PayloadFits(t: ExpressionType, p: Payload)
  {
    match t
    case FUNCTION => p.FunctionPayload?
    case LITERAL => p.LiteralPayload?
    case _ => IsDeserialisableType(t) && p.OtherPayload?
  }

  /** An expression every node of which `deserialize` can rebuild. */
  predicate Deserialisable(e: ParsedExpression)
  {
    && PayloadFits(e.exprType, e.payload)
    && forall i :: 0 <= i < |e.children| ==> Deserialisable(e.children[i])
  }

  /** serializeInternal: nothing for a plain expression, one field for a subclass. */
  function EncodePayload(p: Payload): seq<Field>
  {
    if p.NoPayload? then [] else [PayloadField(p)]
  }

  /** The common fields in their fixed order: type, alias, raw name, then the children vector's size. */
  function Header(e: ParsedExpression): seq<Field>
  {
    [TypeField(e.exprType), StringField(e.alias), StringField(e.rawName), SizeField(|e.children|)]
  }

  /** What `serialize` writes: the common fields, each child in order, then the subclass payload. */
  function Encode(e: ParsedExpression): seq<Field>
    decreases e
  {
    Header(e) + EncodeChildren(e.children) + EncodePayload(e.payload)
  }

  /** The elements of a vector of pointers, each serialised in order. */
  function EncodeChildren(cs: seq<ParsedExpression>): seq<Field>
    decreases cs
  {
    if cs == [] then [] else Encode(cs[0]) + EncodeChildren(cs[1..])
  }

  lemma {:induction false} EncodeChildrenAppend(cs: seq<ParsedExpression>, c: ParsedExpression)
    ensures EncodeChildren(cs + [c]) == EncodeChildren(cs) + Encode(c)
  {
    if cs == [] {
      assert cs + [c] == [c];
    } else {
      assert (cs + [c])[1..] == cs[1..] + [c];
      EncodeChildrenAppend(cs[1..], c);
    }
  }

  /** Why `deserialize` cannot produce an expression. */
  datatype DecodeError =
    | Unreachable(exprType: ExpressionType)   // KU_UNREACHABLE: a tag with no subclass
    | Malformed                               // a field of the wrong kind where one is expected
    | EndOfStream                             // the stream ends before the expression does

  datatype Decoded = Decoded(expr: ParsedExpression, rest: seq<Field>)
  datatype DecodedList = DecodedList(exprs: seq<ParsedExpression>, rest: seq<Field>)

  /**
   * What `deserialize` reads from the front of a stream: the four common
   * fields, the children, and then, dispatching on the type read, the
   * subclass payload. The rest of the stream is returned unread.
   */
  function DecodeExpr(fs: seq<Field>): (r: Result<Decoded, DecodeError>)
    decreases |fs|, 0
    ensures r.Ok? ==> |r.value.rest| < |fs|
    ensures r.Ok? ==> fs[0].TypeField? && r.value.expr.exprType == fs[0].exprType
    ensures r.Ok? ==> IsDeserialisableType(r.value.expr.exprType)
  {
    if |fs| < 4 then Err(EndOfStream)
    else if !(fs[0].TypeField? && fs[1].StringField? && fs[2].StringField? && fs[3].SizeField?) then
      Err(Malformed)
    else
      match DecodeChildren(fs[4..], fs[3].size, [])
      case Err(err) => Err(err)
      case Ok(DecodedList(children, rest)) =>
        var t := fs[0].exprType;
        if !IsDeserialisableType(t) then Err(Unreachable(t))
        else if |rest| == 0 then Err(EndOfStream)
        else if !(rest[0].PayloadField? && PayloadFits(t, rest[0].payload)) then Err(Malformed)
        else Ok(Decoded(ParsedExpression(t, fs[1].s, fs[2].s, children, rest[0].payload), rest[1..]))
  }

  /** `n` more expressions read after the ones already in `acc`. */
  function DecodeChildren(fs: seq<Field>, n: nat, acc: seq<ParsedExpression>): (r: Result<DecodedList, DecodeError>)
    decreases |fs|, 1, n
    ensures r.Ok? ==> |r.value.rest| <= |fs|
  {
    if n == 0 then Ok(DecodedList(acc, fs))
    else
      match DecodeExpr(fs)
      case Err(err) => Err(err)
      case Ok(Decoded(child, rest)) => DecodeChildren(rest, n - 1, acc + [child])
  }

  /**
   * The common fields round-trip, and with them the whole tree: decoding
   * what `serialize` wrote gives back the expression and leaves whatever
   * followed it unread.
   */
  lemma {:induction false} DecodeEncode(e: ParsedExpression, rest: seq<Field>)
    requires Deserialisable(e)
    ensures DecodeExpr(Encode(e) + rest) == Ok(Decoded(e, rest))
    decreases e, 1
  {
    var fs := Encode(e) + rest;
    var after := EncodePayload(e.payload) + rest;
    assert fs == Header(e) + (EncodeChildren(e.children) + after);
    assert fs[..4] == Header(e);
    assert fs[4..] == EncodeChildren(e.children) + after;
    DecodeEncodeChildren(e.children, after, []);
    assert [] + e.children == e.children;
    assert DecodeChildren(fs[4..], fs[3].size, []) == Ok(DecodedList(e.children, after));
    assert e.payload != NoPayload;
    assert after[0] == PayloadField(e.payload) && after[1..] == rest;
  }

  lemma {:induction false} DecodeEncodeChildren(cs: seq<ParsedExpression>, rest: seq<Field>,
                                                 acc: seq<ParsedExpression>)
    requires forall i :: 0 <= i < |cs| ==> Deserialisable(cs[i])
    ensures DecodeChildren(EncodeChildren(cs) + rest, |cs|, acc) == Ok(DecodedList(acc + cs, rest))
    decreases cs, 0
  {
    if cs == [] {
      assert EncodeChildren(cs) + rest == rest;
      assert acc + cs == acc;
    } else {
      var tail := EncodeChildren(cs[1..]) + rest;
      assert EncodeChildren(cs) + rest == Encode(cs[0]) + tail;
      DecodeEncode(cs[0], tail);
      DecodeEncodeChildren(cs[1..], rest, acc + [cs[0]]);
      assert acc + [cs[0]] + cs[1..] == acc + cs;
    }
  }

  /**
   * An expression whose type has no subclass in the dispatch (a plain
   * expression such as a comparison built by the two-child constructor)
   * does not deserialise: once its children are read, its tag is
   * unreachable.
   */
  lemma {:induction false} UnknownTagRejected(e: ParsedExpression, rest: seq<Field>)
    requires !IsDeserialisableType(e.exprType)
    requires forall i :: 0 <= i < |e.children| ==> Deserialisable(e.children[i])
    ensures DecodeExpr(Encode(e) + rest) == Err(Unreachable(e.exprType))
  {
    var fs := Encode(e) + rest;
    var after := EncodePayload(e.payload) + rest;
    assert fs == Header(e) + (EncodeChildren(e.children) + after);
    assert fs[..4] == Header(e);
    assert fs[4..] == EncodeChildren(e.children) + after;
    DecodeEncodeChildren(e.children, after, []);
    assert [] + e.children == e.children;
  }

  // ---------------------------------------------------------------------
  // The stateful serializer and deserializer
  // ---------------------------------------------------------------------

  class Serializer {
    /** Everything written so far. */
    var fields: seq<Field>

    constructor ()
      ensures fields == []
    {
      fields := [];
    }

    /** serialize: appends exactly the encoding of `e` to the stream. */
    method Serialize(e: ParsedExpression)
      modifies this
      decreases e
      ensures fields == old(fields) + Encode(e)
    {
      fields := fields + [TypeField(e.exprType)];
      fields := fields + [StringField(e.alias)];
      fields := fields + [StringField(e.rawName)];
      // serializeVectorOfPtrs: the size, then each element
      fields := fields + [SizeField(|e.children|)];
      var i := 0;
      while i < |e.children|
        invariant 0 <= i <= |e.children|
        invariant fields == old(fields) + Header(e) + EncodeChildren(e.children[..i])
      {
        Serialize(e.children[i]);
        EncodeChildrenAppend(e.children[..i], e.children[i]);
        assert e.children[..i + 1] == e.children[..i] + [e.children[i]];
        i := i + 1;
      }
      assert e.children[..i] == e.children;
      // serializeInternal
      fields := fields + EncodePayload(e.payload);
    }
  }

  class Deserializer {
    /** What is still to be read. */
    var remaining: seq<Field>

    constructor (fs: seq<Field>)
      ensures remaining == fs
    {
      remaining := fs;
    }

    /**
     * deserialize: reads the common fields and the children, dispatches on
     * the type to read the subclass payload, then puts the alias, raw name
     * and children it read onto the new expression. It reads exactly what
     * DecodeExpr consumes and fails exactly when DecodeExpr does.
     */
    method Deserialize() returns (r: Result<ParsedExpression, DecodeError>)
      modifies this
      decreases |remaining|
      ensures r.Ok? <==> DecodeExpr(old(remaining)).Ok?
      ensures r.Ok? ==> r.value == DecodeExpr(old(remaining)).value.expr
                        && remaining == DecodeExpr(old(remaining)).value.rest
      ensures r.Err? ==> r.error == DecodeExpr(old(remaining)).error
    {
      if |remaining| < 4 {
        return Err(EndOfStream);
      }
      var typeField, aliasField, rawNameField, sizeField := remaining[0], remaining[1], remaining[2], remaining[3];
      if !(typeField.TypeField? && aliasField.StringField? && rawNameField.StringField? && sizeField.SizeField?) {
        return Err(Malformed);
      }
      remaining := remaining[4..];
      // deserializeVectorOfPtrs
      var children: seq<ParsedExpression> := [];
      var i := 0;
      while i < sizeField.size
        invariant 0 <= i <= sizeField.size
        invariant |remaining| < |old(remaining)|
        invariant DecodeChildren(old(remaining)[4..], sizeField.size, [])
                  == DecodeChildren(remaining, sizeField.size - i, children)
        decreases sizeField.size - i
      {
        var child := Deserialize();
        if child.Err? {
          return Err(child.error);
        }
        children := children + [child.value];
        i := i + 1;
      }
      var t := typeField.exprType;
      if !IsDeserialisableType(t) {
        return Err(Unreachable(t));
      }
      if |remaining| == 0 {
        return Err(EndOfStream);
      }
      var payloadField := remaining[0];
      if !(payloadField.PayloadField? && PayloadFits(t, payloadField.payload)) {
        return Err(Malformed);
      }
      remaining := remaining[1..];
      var e := ParsedExpression(t, "", "", [], payloadField.payload);
      e := e.(alias := aliasField.s, rawName := rawNameField.s, children := children);
      r := Ok(e);
    }
  }

  /** Serialising a deserialisable expression and deserialising the stream gives it back and reads the whole stream. */
  method SerializeThenDeserialize(e: ParsedExpression) returns (r: Result<ParsedExpression, DecodeError>, unread: seq<Field>)
    requires Deserialisable(e)
    ensures r == Ok(e) && unread == []
  {
    var serializer := new Serializer();
    serializer.Serialize(e);
    var deserializer := new Deserializer(serializer.fields);
    DecodeEncode(e, []);
    assert serializer.fields == Encode(e) + [];
    r := deserializer.Deserialize();
    unread := deserializer.remaining;
  }

  // ---------------------------------------------------------------------
  // Validation and the SERIAL default
  // ---------------------------------------------------------------------

  /** The BinderException the validators raise, with the two types its message names. */
  datatype BinderException =
    | ExpressionTypeMismatch(actual: ExpressionType, expected: ExpressionType)
    | DataTypeMismatch(actualType: LogicalType, expectedType: LogicalType)

  /** validateExpressionType: passes iff the expression has the expected type. */
  function ValidateExpressionType(e: ParsedExpression, t: ExpressionType): (r: Outcome<BinderException>)
    ensures r.Pass? <==> e.exprType == t
    ensures r.Fail? ==> r.error == ExpressionTypeMismatch(e.exprType, t)
  {
    if e.exprType == t then Pass else Fail(ExpressionTypeMismatch(e.exprType, t))
  }

  /** A literal expression, which is what validateDataType and getStringLiteralValue may be given. */
  predicate IsLiteral(e: ParsedExpression)
  {
    e.exprType == LITERAL && e.payload.LiteralPayload?
  }

  /** validateDataType: on a literal, passes iff the literal's value has the expected type. */
  function ValidateDataType(e: ParsedExpression, t: LogicalType): (r: Outcome<BinderException>)
    requires IsLiteral(e)
    ensures r.Pass? <==> DataTypeOf(e.payload.value) == t
    ensures r.Fail? ==> r.error == DataTypeMismatch(DataTypeOf(e.payload.value), t)
  {
    var actual := DataTypeOf(e.payload.value);
    if actual == t then Pass else Fail(DataTypeMismatch(actual, t))
  }

  /** getStringLiteralValue: the string a string literal holds. */
  function GetStringLiteralValue(e: ParsedExpression): (s: string)
    requires IsLiteral(e) && e.payload.value.StringValue?
    ensures ValidateDataType(e, STRING).Pass?
    ensures e.payload.value == StringValue(s)
  {
    e.payload.value.s
  }

  /** NextValFunction::name */
  const NEXT_VAL_FUNCTION_NAME: string := "NEXTVAL"

  /** A literal expression holding a value, with no raw name. */
  function NewLiteral(v: Value): ParsedExpression
  {
    ParsedExpression(LITERAL, "", "", [], LiteralPayload(v))
  }

  /**
   * getSerialDefaultExpr: a call of the NEXTVAL function, not DISTINCT, whose
   * only argument is a string literal holding the sequence name.
   */
  function GetSerialDefaultExpr(sequenceName: string): (r: ParsedExpression)
    ensures r.exprType == FUNCTION
    ensures r.payload == FunctionPayload(NEXT_VAL_FUNCTION_NAME, false)
    ensures |r.children| == 1 && IsLiteral(r.children[0]) && r.children[0].payload.value.StringValue?
    ensures GetStringLiteralValue(r.children[0]) == sequenceName
    ensures Deserialisable(r)
  {
    var literalExpr := NewLiteral(StringValue(sequenceName));
    ParsedExpression(FUNCTION, "", "", [literalExpr], FunctionPayload(NEXT_VAL_FUNCTION_NAME, false))
  }

  /** The default expression of a SERIAL column survives serialisation, sequence name included. */
  lemma SerialDefaultRoundTrip(sequenceName: string, rest: seq<Field>)
    ensures DecodeExpr(Encode(GetSerialDefaultExpr(sequenceName)) + rest)
            == Ok(Decoded(GetSerialDefaultExpr(sequenceName), rest))
  {
    DecodeEncode(GetSerialDefaultExpr(sequenceName), rest);
  }
}
