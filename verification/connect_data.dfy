/**
 * The part of the Kafka Connect data API that the record binder reads:
 * schemas with named child fields, the values they describe, and sink records.
 */
module ConnectData {
  import opened Wrappers

  /** The type tags of a Kafka Connect schema. */
  datatype SchemaType =
    | INT8 | INT16 | INT32 | INT64 | FLOAT32 | FLOAT64 | BOOLEAN | STRING | BYTES
    | ARRAY | MAP | STRUCT
  {
    /** Every type except the three container types is primitive. */
    predicate IsPrimitive() {
      !(ARRAY? || MAP? || STRUCT?)
    }
  }

  /** A schema: its type tag and, for a struct, its fields in declaration order. */
  datatype Schema = Schema(kind: SchemaType, fields: seq<Field>)

  /** A named child of a struct schema. */
  datatype Field = Field(name: string, schema: Schema)

  const STRING_SCHEMA := Schema(STRING, [])
  const INT32_SCHEMA := Schema(INT32, [])
  const INT64_SCHEMA := Schema(INT64, [])

  /**
   * A runtime value. A struct maps field names to child values; a field
   * that was never set reads as Null.
   */
  datatype Value =
    | Null
    | Boolean(b: bool)
    | Integer(i: int)
    | Text(s: string)
    | Struct(values: map<string, Value>)
    | Other(tag: nat)
  {
    /** The child value stored under `name` in a struct. */
    function Get(name: string): Value
      requires Struct?
    {
      if name in values then values[name] else Null
    }
  }

  /**
   * A record delivered to the sink: its position in Kafka, and its key and
   * value together with the schemas that describe them.
   */
  datatype SinkRecord = SinkRecord(
    topic: string,
    kafkaPartition: int,
    kafkaOffset: int,
    keySchema: Schema,
    key: Value,
    valueSchema: Schema,
    value: Value)

  /** Position of the first field called `name`, or |fields| when there is none. */
  function FieldIndex(fields: seq<Field>, name: string): (i: nat)
    ensures i <= |fields|
    ensures i < |fields| ==> fields[i].name == name
    ensures forall j :: 0 <= j < i ==> fields[j].name != name
  {
    if fields == [] then 0
    else if fields[0].name == name then 0
    else 1 + FieldIndex(fields[1..], name)
  }

  /**
   * Looks a child field up by name. Only a struct schema has fields; asking
   * any other schema is an error in Kafka Connect, so it is excluded here.
   */
  function Lookup(s: Schema, name: string): (f: Option<Field>)
    requires s.kind == STRUCT
    ensures f.Some? <==> exists j :: 0 <= j < |s.fields| && s.fields[j].name == name
    ensures f.Some? ==> f.value.name == name && f.value in s.fields
  {
    var i := FieldIndex(s.fields, name);
    if i < |s.fields| then Some(s.fields[i]) else None
  }

  /** `s` is a struct schema with a field called `name`. */
  predicate HasField(s: Schema, name: string) {
    s.kind == STRUCT && Lookup(s, name).Some?
  }

  /** The field called `name` of a struct schema that has one. */
  function FieldOf(s: Schema, name: string): (f: Field)
    requires HasField(s, name)
    ensures f.name == name && f in s.fields
  {
    Lookup(s, name).value
  }

  /** Every name in `names` resolves to a field of `s`. */
  predicate AllResolve(s: Schema, names: seq<string>) {
    forall i :: 0 <= i < |names| ==> HasField(s, names[i])
  }
}
