/**
 * The record binder of the JDBC sink: for each sink record it decides whether
 * the record is a delete, which fields fill the statement's placeholders and
 * in which order, numbers the placeholders from 1, and queues the row.
 */
module PreparedStatementBinder {
  import opened Wrappers
  import opened ConnectData
  import opened JdbcStatement

  /** Where the key placeholders come from. */
  datatype PrimaryKeyMode = NONE | KAFKA | RECORD_KEY | RECORD_VALUE

  /** The statement shape used for a record that is not a delete. */
  datatype InsertMode = INSERT | UPSERT | UPDATE

  /** The two settings of the sink configuration that the binder reads. */
  datatype JdbcSinkConfig = JdbcSinkConfig(enumSets: seq<string>, deleteByField: bool)

  /** The configuration a generic dialect was built with. */
  datatype DialectConfig = SinkConfig(sink: JdbcSinkConfig) | OtherConfig

  /** Only a generic dialect exposes its configuration to the binder. */
  datatype DatabaseDialect = GenericDatabaseDialect(config: DialectConfig) | OtherDialect

  /** The key and value schemas of the topic the binder was built for. */
  datatype SchemaPair = SchemaPair(keySchema: Schema, valueSchema: Schema)

  /** The key and non-key column names, in placeholder order. */
  datatype FieldsMetadata = FieldsMetadata(keyFieldNames: seq<string>, nonKeyFieldNames: seq<string>)

  /** Primary-key mode NONE was configured together with a non-empty key field list. */
  datatype BindError = KeyFieldsInNoneMode

  /** The schema of an enum-set column: an array of strings. */
  const EnumSetSchema := Schema(ARRAY, [])

  /** The name of the value field that marks a record as deleted. */
  const DeletedFieldName := "deleted"

  /** The sink configuration the binder finds behind a dialect, if any. */
  function SinkConfigOf(dialect: DatabaseDialect): (config: Option<JdbcSinkConfig>)
    ensures config.Some? <==> dialect.GenericDatabaseDialect? && dialect.config.SinkConfig?
    ensures config.Some? ==> config.value == dialect.config.sink
  {
    match dialect
    case GenericDatabaseDialect(SinkConfig(sink)) => Some(sink)
    case _ => None
  }

  /** Delete-by-field is on only when a sink configuration is present and enables it. */
  predicate DeleteByField(config: Option<JdbcSinkConfig>) {
    config.Some? && config.value.deleteByField
  }

  /** The schema declares a BOOLEAN field called `deleted`. */
  predicate DeletedFlagDeclared(s: Schema) {
    HasField(s, DeletedFieldName) && FieldOf(s, DeletedFieldName).schema.kind == BOOLEAN
  }

  /**
   * What the delete decision needs to run without a Java exception: the value
   * is null or a struct, and with delete-by-field on, the value schema of a
   * struct value is a struct schema whose BOOLEAN `deleted` field, if
   * declared, holds a boolean.
   */
  predicate DeleteFlagReadable(r: SinkRecord, deleteByField: bool) {
    && (r.value.Null? || r.value.Struct?)
    && (r.value.Struct? && deleteByField ==>
          r.valueSchema.kind == STRUCT &&
          (DeletedFlagDeclared(r.valueSchema) ==> r.value.Get(DeletedFieldName).Boolean?))
  }

  /**
   * A tombstone is a delete; with delete-by-field on, so is a record whose
   * BOOLEAN `deleted` field is true.
   */
  function IsDelete(r: SinkRecord, deleteByField: bool): (d: bool)
    requires DeleteFlagReadable(r, deleteByField)
    ensures r.value.Null? ==> d
    ensures d && !r.value.Null? ==> deleteByField && DeletedFlagDeclared(r.valueSchema)
  {
    if r.value.Null? then true
    else if deleteByField && DeletedFlagDeclared(r.valueSchema) then r.value.Get(DeletedFieldName).b
    else false
  }

  /** Only the NONE mode refuses a key field list, and only a non-empty one. */
  predicate KeyFieldsAccepted(pkMode: PrimaryKeyMode, keyFieldNames: seq<string>) {
    !(pkMode == NONE && keyFieldNames != [])
  }

  /**
   * What binding the key fields needs to run without a Java assertion or
   * exception: three names in KAFKA mode; one name for a primitive record
   * key; otherwise every named field in the schema, and a struct to read it
   * from as soon as there is a name to read.
   */
  predicate KeyFieldsReadable(pkMode: PrimaryKeyMode, keyFieldNames: seq<string>, pair: SchemaPair, r: SinkRecord) {
    match pkMode
    case NONE => true
    case KAFKA => |keyFieldNames| == 3
    case RECORD_KEY =>
      if pair.keySchema.kind.IsPrimitive() then |keyFieldNames| == 1
      else (keyFieldNames != [] ==> r.key.Struct?) && AllResolve(pair.keySchema, keyFieldNames)
    case RECORD_VALUE => (keyFieldNames != [] ==> r.value.Struct?) && AllResolve(pair.valueSchema, keyFieldNames)
  }

  /**
   * One column per name, in list order: the named field's own schema and the
   * struct's child value for it (FieldColumnsAt).
   */
  function FieldColumns(s: Schema, v: Value, names: seq<string>): (cols: seq<Column>)
    requires (names != [] ==> v.Struct?) && AllResolve(s, names)
    ensures |cols| == |names|
  {
    if names == [] then []
    else
      var name := names[|names| - 1];
      FieldColumns(s, v, names[..|names| - 1]) + [Column(FieldOf(s, name).schema, v.Get(name))]
  }

  /** The i-th column is the i-th named field's schema and the struct's value for it. */
  lemma {:induction false} FieldColumnsAt(s: Schema, v: Value, names: seq<string>, i: nat)
    requires (names != [] ==> v.Struct?) && AllResolve(s, names) && i < |names|
    ensures FieldColumns(s, v, names)[i] == Column(FieldOf(s, names[i]).schema, v.Get(names[i]))
  {
    var prefix := names[..|names| - 1];
    if i < |prefix| {
      FieldColumnsAt(s, v, prefix, i);
    }
  }

  /** The columns bound for the key placeholders, by primary-key mode. */
  function KeyColumns(pkMode: PrimaryKeyMode, keyFieldNames: seq<string>, pair: SchemaPair, r: SinkRecord): (cols: seq<Column>)
    requires KeyFieldsReadable(pkMode, keyFieldNames, pair, r)
    ensures KeyFieldsAccepted(pkMode, keyFieldNames) ==> |cols| == |keyFieldNames|
  {
    match pkMode
    case NONE => []
    case KAFKA =>
      [Column(STRING_SCHEMA, Text(r.topic)),
       Column(INT32_SCHEMA, Integer(r.kafkaPartition)),
       Column(INT64_SCHEMA, Integer(r.kafkaOffset))]
    case RECORD_KEY =>
      if pair.keySchema.kind.IsPrimitive() then [Column(pair.keySchema, r.key)]
      else FieldColumns(pair.keySchema, r.key, keyFieldNames)
    case RECORD_VALUE => FieldColumns(pair.valueSchema, r.value, keyFieldNames)
  }

  /** Everything a record needs for its whole row to be read: the success path of bindRecord. */
  predicate RecordBindable(pkMode: PrimaryKeyMode, fields: FieldsMetadata, pair: SchemaPair, deleteByField: bool, r: SinkRecord) {
    && DeleteFlagReadable(r, deleteByField)
    && KeyFieldsReadable(pkMode, fields.keyFieldNames, pair, r)
    && (!IsDelete(r, deleteByField) ==> AllResolve(r.valueSchema, fields.nonKeyFieldNames))
  }

  /**
   * Everything bindRecord needs of a record to finish without a Java exception
   * or to fail only with the NONE-mode key check. The non-key fields are
   * looked up only when the binder gets that far: after an accepted key phase,
   * or first of all in UPDATE mode.
   */
  predicate BindRecordReadable(pkMode: PrimaryKeyMode, insertMode: InsertMode, fields: FieldsMetadata,
                               pair: SchemaPair, deleteByField: bool, r: SinkRecord) {
    && DeleteFlagReadable(r, deleteByField)
    && KeyFieldsReadable(pkMode, fields.keyFieldNames, pair, r)
    && (!IsDelete(r, deleteByField) && (KeyFieldsAccepted(pkMode, fields.keyFieldNames) || insertMode == UPDATE) ==>
          AllResolve(r.valueSchema, fields.nonKeyFieldNames))
  }

  /**
   * The columns of one row in placeholder order: key columns only for a
   * delete; keys then non-keys for INSERT and UPSERT; non-keys then keys for
   * UPDATE.
   */
  function RowColumns(pkMode: PrimaryKeyMode, insertMode: InsertMode, fields: FieldsMetadata, pair: SchemaPair, deleteByField: bool, r: SinkRecord): (cols: seq<Column>)
    requires RecordBindable(pkMode, fields, pair, deleteByField, r)
    ensures KeyFieldsAccepted(pkMode, fields.keyFieldNames) ==>
      |cols| == |fields.keyFieldNames| + (if IsDelete(r, deleteByField) then 0 else |fields.nonKeyFieldNames|)
  {
    var keys := KeyColumns(pkMode, fields.keyFieldNames, pair, r);
    if IsDelete(r, deleteByField) then keys
    else
      var nonKeys := FieldColumns(r.valueSchema, r.value, fields.nonKeyFieldNames);
      match insertMode
      case INSERT => keys + nonKeys
      case UPSERT => keys + nonKeys
      case UPDATE => nonKeys + keys
  }

  /**
   * Once the key phase is accepted, a record bindRecord can read is bindable
   * as a whole row, laid out as its delete decision and insert mode say.
   */
  lemma AcceptedRow(pkMode: PrimaryKeyMode, insertMode: InsertMode, fields: FieldsMetadata,
                    pair: SchemaPair, deleteByField: bool, r: SinkRecord)
    requires BindRecordReadable(pkMode, insertMode, fields, pair, deleteByField, r)
    requires KeyFieldsAccepted(pkMode, fields.keyFieldNames)
    ensures RecordBindable(pkMode, fields, pair, deleteByField, r)
    ensures IsDelete(r, deleteByField) ==>
      RowColumns(pkMode, insertMode, fields, pair, deleteByField, r) == KeyColumns(pkMode, fields.keyFieldNames, pair, r)
    ensures !IsDelete(r, deleteByField) && insertMode != UPDATE ==>
      RowColumns(pkMode, insertMode, fields, pair, deleteByField, r) ==
        KeyColumns(pkMode, fields.keyFieldNames, pair, r) + FieldColumns(r.valueSchema, r.value, fields.nonKeyFieldNames)
    ensures !IsDelete(r, deleteByField) && insertMode == UPDATE ==>
      RowColumns(pkMode, insertMode, fields, pair, deleteByField, r) ==
        FieldColumns(r.valueSchema, r.value, fields.nonKeyFieldNames) + KeyColumns(pkMode, fields.keyFieldNames, pair, r)
  {
  }

  /**
   * The bindings made for `cols` when the counter starts at `start`: the
   * i-th column goes to placeholder start + i (NumberedAt).
   */
  function Numbered(cols: seq<Column>, start: int): (bs: seq<Binding>)
    ensures |bs| == |cols|
  {
    if cols == [] then []
    else
      var last := cols[|cols| - 1];
      Numbered(cols[..|cols| - 1], start) + [Binding(start + |cols| - 1, last.schema, last.value)]
  }

  /** The i-th binding carries placeholder start + i and the i-th column. */
  lemma {:induction false} NumberedAt(cols: seq<Column>, start: int, i: nat)
    requires i < |cols|
    ensures Numbered(cols, start)[i] == Binding(start + i, cols[i].schema, cols[i].value)
  {
    var prefix := cols[..|cols| - 1];
    if i < |prefix| {
      NumberedAt(prefix, start, i);
    }
  }

  /** One more column adds one binding, numbered right after the others. */
  lemma NumberedStep(cols: seq<Column>, c: Column, start: int)
    ensures Numbered(cols + [c], start) == Numbered(cols, start) + [Binding(start + |cols|, c.schema, c.value)]
  {
  }

  /** Numbering one more column of a list extends the numbered prefix by one binding. */
  lemma NumberedPrefixStep(cols: seq<Column>, i: nat, start: int)
    requires i < |cols|
    ensures Numbered(cols[..i + 1], start) == Numbered(cols[..i], start) + [Binding(start + i, cols[i].schema, cols[i].value)]
  {
    assert cols[..i + 1] == cols[..i] + [cols[i]];
    NumberedStep(cols[..i], cols[i], start);
  }

  /** A single column is bound to placeholder `start`. */
  lemma NumberedOne(c: Column, start: int)
    ensures Numbered([c], start) == [Binding(start, c.schema, c.value)]
  {
  }

  /** Three columns are bound to `start`, `start` + 1 and `start` + 2, in order. */
  lemma NumberedThree(a: Column, b: Column, c: Column, start: int)
    ensures Numbered([a, b, c], start) ==
      [Binding(start, a.schema, a.value), Binding(start + 1, b.schema, b.value), Binding(start + 2, c.schema, c.value)]
  {
    NumberedOne(a, start);
    NumberedStep([a], b, start);
    assert [a] + [b] == [a, b];
    NumberedStep([a, b], c, start);
    assert [a, b] + [c] == [a, b, c];
  }

  /** Numbering a concatenation continues the count where the first part ends. */
  lemma {:induction false} NumberedAppend(a: seq<Column>, b: seq<Column>, start: int)
    ensures Numbered(a + b, start) == Numbered(a, start) + Numbered(b, start + |a|)
  {
    if b == [] {
      assert a + b == a;
    } else {
      var prefix := b[..|b| - 1];
      assert (a + b)[..|a + b| - 1] == a + prefix;
      NumberedAppend(a, prefix, start);
    }
  }

  /** Two phases numbered one after the other log the bindings of their concatenation. */
  lemma TwoPhaseLog(log0: seq<Binding>, log1: seq<Binding>, log2: seq<Binding>, first: seq<Column>, second: seq<Column>)
    requires log1 == log0 + Numbered(first, 1)
    requires log2 == log1 + Numbered(second, 1 + |first|)
    ensures log2 == log0 + Numbered(first + second, 1)
  {
    NumberedAppend(first, second, 1);
  }

  class Binder {
    const pkMode: PrimaryKeyMode
    const statement: Statement
    const schemaPair: SchemaPair
    const fieldsMetadata: FieldsMetadata
    const insertMode: InsertMode
    const enumSets: set<string>
    const config: Option<JdbcSinkConfig>

    /** The sink configuration is taken from a generic dialect built with one. */
    constructor (dialect: DatabaseDialect, statement: Statement, pkMode: PrimaryKeyMode,
                 schemaPair: SchemaPair, fieldsMetadata: FieldsMetadata, insertMode: InsertMode)
      ensures this.statement == statement && this.pkMode == pkMode && this.schemaPair == schemaPair
      ensures this.fieldsMetadata == fieldsMetadata && this.insertMode == insertMode
      ensures config == SinkConfigOf(dialect)
      ensures enumSets == if config.Some? then (set n | n in config.value.enumSets) else {}
    {
      this.pkMode := pkMode;
      this.statement := statement;
      this.schemaPair := schemaPair;
      this.fieldsMetadata := fieldsMetadata;
      this.insertMode := insertMode;
      if dialect.GenericDatabaseDialect? && dialect.config.SinkConfig? {
        config := Some(dialect.config.sink);
        enumSets := set n | n in dialect.config.sink.enumSets;
      } else {
        config := None;
        enumSets := {};
      }
    }

    /**
     * Binds one record and queues it as a row. On success the new bindings
     * are RowColumns numbered from 1, and the batch grows by the parameter
     * buffer. NONE mode with key fields fails when the key phase starts, so
     * in UPDATE mode the non-key bindings made before it stay, unqueued.
     */
    method BindRecord(r: SinkRecord) returns (res: Result<(), BindError>)
      requires BindRecordReadable(pkMode, insertMode, fieldsMetadata, schemaPair, DeleteByField(config), r)
      modifies statement
      ensures res.Success? <==> KeyFieldsAccepted(pkMode, fieldsMetadata.keyFieldNames)
      ensures res.Success? ==>
        && statement.log == old(statement.log) +
             Numbered(RowColumns(pkMode, insertMode, fieldsMetadata, schemaPair, DeleteByField(config), r), 1)
        && statement.batch == old(statement.batch) + [statement.Parameters()]
      ensures res.Failure? ==> statement.batch == old(statement.batch)
      ensures res.Failure? && (IsDelete(r, DeleteByField(config)) || insertMode != UPDATE) ==>
        statement.log == old(statement.log)
      ensures res.Failure? && !IsDelete(r, DeleteByField(config)) && insertMode == UPDATE ==>
        statement.log == old(statement.log) +
          Numbered(FieldColumns(r.valueSchema, r.value, fieldsMetadata.nonKeyFieldNames), 1)
    {
      var valueStruct := r.value;
      var isDelete := valueStruct.Null?;
      var index := 1;
      if !isDelete && config.Some? && config.value.deleteByField {
        var field := Lookup(r.valueSchema, DeletedFieldName);
        if field.Some? && field.value.schema.kind == BOOLEAN {
          isDelete := valueStruct.Get(DeletedFieldName).b;
        }
      }
      assert isDelete == IsDelete(r, DeleteByField(config));
      ghost var log0 := statement.log;
      ghost var keys := KeyColumns(pkMode, fieldsMetadata.keyFieldNames, schemaPair, r);
      if isDelete {
        var next := BindKeyFields(r, index);
        if next.Failure? {
          return Failure(next.error);
        }
        AcceptedRow(pkMode, insertMode, fieldsMetadata, schemaPair, DeleteByField(config), r);
      } else {
        match insertMode {
          case INSERT | UPSERT =>
            var next := BindKeyFields(r, index);
            if next.Failure? {
              return Failure(next.error);
            }
            ghost var nonKeys := FieldColumns(r.valueSchema, valueStruct, fieldsMetadata.nonKeyFieldNames);
            index := next.value;
            ghost var log1 := statement.log;
            index := BindNonKeyFields(r, valueStruct, index);
            TwoPhaseLog(log0, log1, statement.log, keys, nonKeys);
            AcceptedRow(pkMode, insertMode, fieldsMetadata, schemaPair, DeleteByField(config), r);
          case UPDATE =>
            ghost var nonKeys := FieldColumns(r.valueSchema, valueStruct, fieldsMetadata.nonKeyFieldNames);
            index := BindNonKeyFields(r, valueStruct, index);
            ghost var log1 := statement.log;
            var next := BindKeyFields(r, index);
            if next.Failure? {
              return Failure(next.error);
            }
            TwoPhaseLog(log0, log1, statement.log, nonKeys, keys);
            AcceptedRow(pkMode, insertMode, fieldsMetadata, schemaPair, DeleteByField(config), r);
        }
      }
      statement.AddBatch();
      return Success(());
    }

    /**
     * Binds the key placeholders from `index` on and returns the next free
     * index: `index` plus the number of key field names.
     */
    method BindKeyFields(r: SinkRecord, index: int) returns (res: Result<int, BindError>)
      requires KeyFieldsReadable(pkMode, fieldsMetadata.keyFieldNames, schemaPair, r)
      modifies statement
      ensures statement.batch == old(statement.batch)
      ensures res.Success? <==> KeyFieldsAccepted(pkMode, fieldsMetadata.keyFieldNames)
      ensures res.Success? ==>
        && res.value == index + |fieldsMetadata.keyFieldNames|
        && res.value == index + |KeyColumns(pkMode, fieldsMetadata.keyFieldNames, schemaPair, r)|
        && statement.log == old(statement.log) +
             Numbered(KeyColumns(pkMode, fieldsMetadata.keyFieldNames, schemaPair, r), index)
      ensures res.Failure? ==> statement.log == old(statement.log)
    {
      var next := index;
      match pkMode {
        case NONE =>
          if fieldsMetadata.keyFieldNames != [] {
            return Failure(KeyFieldsInNoneMode);
          }
        case KAFKA =>
          BindField(next, STRING_SCHEMA, Text(r.topic));
          next := next + 1;
          BindField(next, INT32_SCHEMA, Integer(r.kafkaPartition));
          next := next + 1;
          BindField(next, INT64_SCHEMA, Integer(r.kafkaOffset));
          next := next + 1;
          NumberedThree(Column(STRING_SCHEMA, Text(r.topic)), Column(INT32_SCHEMA, Integer(r.kafkaPartition)),
            Column(INT64_SCHEMA, Integer(r.kafkaOffset)), index);
        case RECORD_KEY =>
          if schemaPair.keySchema.kind.IsPrimitive() {
            BindField(next, schemaPair.keySchema, r.key);
            next := next + 1;
            NumberedOne(Column(schemaPair.keySchema, r.key), index);
          } else {
            next := BindStructFields(schemaPair.keySchema, r.key, fieldsMetadata.keyFieldNames, next);
          }
        case RECORD_VALUE =>
          next := BindStructFields(schemaPair.valueSchema, r.value, fieldsMetadata.keyFieldNames, next);
      }
      return Success(next);
    }

    /**
     * Binds one child of `struct` per name, in list order, from `index` on,
     * and returns the next free index; the loop of both struct-key modes.
     */
    method BindStructFields(s: Schema, struct: Value, names: seq<string>, index: int) returns (next: int)
      requires (names != [] ==> struct.Struct?) && AllResolve(s, names)
      modifies statement
      ensures statement.batch == old(statement.batch)
      ensures next == index + |names|
      ensures statement.log == old(statement.log) + Numbered(FieldColumns(s, struct, names), index)
    {
      ghost var cols := FieldColumns(s, struct, names);
      next := index;
      for i := 0 to |names|
        invariant statement.batch == old(statement.batch)
        invariant next == index + i
        invariant statement.log == old(statement.log) + Numbered(cols[..i], index)
      {
        var field := FieldOf(s, names[i]);
        BindField(next, field.schema, struct.Get(field.name));
        FieldColumnsAt(s, struct, names, i);
        NumberedPrefixStep(cols, i, index);
        next := next + 1;
      }
      assert cols[..|names|] == cols;
    }

    /**
     * Binds the non-key placeholders from `index` on, in name order, each
     * with the field's declared schema (the enum-set schema is chosen but not
     * used), and returns the next free index.
     */
    method BindNonKeyFields(r: SinkRecord, valueStruct: Value, index: int) returns (next: int)
      requires valueStruct.Struct? && AllResolve(r.valueSchema, fieldsMetadata.nonKeyFieldNames)
      modifies statement
      ensures statement.batch == old(statement.batch)
      ensures next == index + |fieldsMetadata.nonKeyFieldNames|
      ensures statement.log == old(statement.log) +
        Numbered(FieldColumns(r.valueSchema, valueStruct, fieldsMetadata.nonKeyFieldNames), index)
    {
      var names := fieldsMetadata.nonKeyFieldNames;
      ghost var cols := FieldColumns(r.valueSchema, valueStruct, names);
      next := index;
      for i := 0 to |names|
        invariant statement.batch == old(statement.batch)
        invariant next == index + i
        invariant statement.log == old(statement.log) + Numbered(cols[..i], index)
      {
        var field := FieldOf(r.valueSchema, names[i]);
        var schema := if names[i] in enumSets then EnumSetSchema else field.schema;
        BindField(next, field.schema, valueStruct.Get(field.name));
        FieldColumnsAt(r.valueSchema, valueStruct, names, i);
        NumberedPrefixStep(cols, i, index);
        next := next + 1;
      }
      assert cols[..|names|] == cols;
    }

    /** Hands one placeholder to the dialect, which sets it on the statement. */
    method BindField(index: int, schema: Schema, value: Value)
      modifies statement
      ensures statement.batch == old(statement.batch)
      ensures statement.log == old(statement.log) + [Binding(index, schema, value)]
    {
      statement.SetParameter(index, schema, value);
    }
  }
}
