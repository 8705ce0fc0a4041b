/** The content contracts of the matrix, by name. */
module Contracts {
  import opened Options
  import opened Bytes

  datatype Contract =
    | Bytes | Text | Json | Xml | Html | Csv | FixedWidth | Edifact | Regex | Schematron
    | Hl7v2 | Fhir | X12 | Avro | GraphqlSchema | Protobuf | Wsdl | OpenApi | AsyncApi | Sql

  const CONTRACTS: seq<Contract> := [
    Contract.Bytes, Contract.Text, Json, Xml, Html, Csv, FixedWidth, Edifact, Regex, Schematron,
    Hl7v2, Fhir, X12, Avro, GraphqlSchema, Protobuf, Wsdl, OpenApi, AsyncApi, Sql]

  function Word(c: Contract): (word: string)
    ensures word != []
  {
    match c
    case Bytes => "bytes"
    case Text => "text"
    case Json => "json"
    case Xml => "xml"
    case Html => "html"
    case Csv => "csv"
    case FixedWidth => "fixed-width"
    case Edifact => "edi-edifact"
    case Regex => "regex"
    case Schematron => "schematron"
    case Hl7v2 => "hl7-v2"
    case Fhir => "fhir"
    case X12 => "edi-x12"
    case Avro => "avro"
    case GraphqlSchema => "graphql-schema"
    case Protobuf => "protobuf"
    case Wsdl => "wsdl"
    case OpenApi => "openapi"
    case AsyncApi => "asyncapi"
    case Sql => "sql"
  }

  predicate Plain(s: string) {
    forall i :: 0 <= i < |s| ==> '!' <= s[i] <= '~'
  }

  lemma WordIsPlain(c: Contract)
    ensures Plain(Word(c))
  {
  }

  function Ascii(s: string): (bytes: seq<Byte>)
    requires Plain(s)
    ensures |bytes| == |s| && IsAscii(bytes) && Utf8(bytes) && SPACE !in bytes && NEWLINE !in bytes
  {
    var bytes: seq<Byte> := seq(|s|, i requires 0 <= i < |s| => s[i] as int);
    AsciiIsUtf8(bytes);
    bytes
  }

  function Name(c: Contract): (name: Bytes.Text)
    ensures SPACE !in name && NEWLINE !in name
  {
    WordIsPlain(c);
    Ascii(Word(c))
  }

  /** A word's length and first letter, as one number. */
  function Code(c: Contract): nat {
    match c
    case Bytes => 1378 case Text => 1140 case Json => 1130 case Xml => 888 case Html => 1128
    case Csv => 867 case FixedWidth => 2918 case Edifact => 2917 case Regex => 1394 case Schematron => 2675
    case Hl7v2 => 1640 case Fhir => 1126 case X12 => 1893 case Avro => 1121 case GraphqlSchema => 3687
    case Protobuf => 2160 case Wsdl => 1143 case OpenApi => 1903 case AsyncApi => 2145 case Sql => 883
  }

  lemma CodeIs(c: Contract)
    ensures Code(c) == 256 * |Word(c)| + Word(c)[0] as int
  {
  }

  lemma CodesDiffer(c: Contract, d: Contract)
    requires Code(c) == Code(d)
    ensures c == d
  {
  }

  /** No two contracts' names are alike: they differ in length or first letter. */
  lemma NamesDiffer(c: Contract, d: Contract)
    requires Name(c) == Name(d)
    ensures c == d
  {
    NameStarts(c);
    NameStarts(d);
    CodesDiffer(c, d);
  }

  lemma NameStarts(c: Contract)
    ensures |Name(c)| > 0 && Code(c) == 256 * |Name(c)| + Name(c)[0]
  {
    CodeIs(c);
    WordIsPlain(c);
  }

  /** The first of `list` called `name`. */
  function NamedIn(list: seq<Contract>, name: seq<Byte>): (c: Option<Contract>)
    ensures c.Some? ==> c.value in list && Name(c.value) == name
  {
    if list == [] then None
    else if Name(list[0]) == name then Some(list[0])
    else NamedIn(list[1..], name)
  }

  /** The contract called `name`, if one is. */
  function Named(name: seq<Byte>): (c: Option<Contract>)
    ensures c.Some? ==> Name(c.value) == name
  {
    NamedIn(CONTRACTS, name)
  }

  lemma {:induction false} FoundIn(list: seq<Contract>, c: Contract)
    requires c in list
    ensures NamedIn(list, Name(c)) == Some(c)
  {
    if Name(list[0]) == Name(c) {
      NamesDiffer(list[0], c);
    } else {
      FoundIn(list[1..], c);
    }
  }

  /** A contract's place in the matrix. */
  function Index(c: Contract): (at: nat)
    ensures at < |CONTRACTS| && CONTRACTS[at] == c
  {
    match c
    case Bytes => 0 case Text => 1 case Json => 2 case Xml => 3 case Html => 4
    case Csv => 5 case FixedWidth => 6 case Edifact => 7 case Regex => 8 case Schematron => 9
    case Hl7v2 => 10 case Fhir => 11 case X12 => 12 case Avro => 13 case GraphqlSchema => 14
    case Protobuf => 15 case Wsdl => 16 case OpenApi => 17 case AsyncApi => 18 case Sql => 19
  }

  lemma IndexIs(i: nat)
    requires i < |CONTRACTS|
    ensures Index(CONTRACTS[i]) == i
  {
    match i
    case 0 => case 1 => case 2 => case 3 => case 4 => case 5 => case 6 => case 7 => case 8 => case 9 =>
    case 10 => case 11 => case 12 => case 13 => case 14 => case 15 => case 16 => case 17 => case 18 => case _ =>
  }

  /** Every contract is found again by its name. */
  lemma NamedName(c: Contract)
    ensures Named(Name(c)) == Some(c)
  {
    assert CONTRACTS[Index(c)] in CONTRACTS;
    FoundIn(CONTRACTS, c);
  }

  /** A name is a contract's exactly when it is the one it is called by. */
  lemma NamedExactly(name: seq<Byte>, c: Contract)
    ensures Named(name) == Some(c) <==> name == Name(c)
  {
    NamedName(c);
  }
}
