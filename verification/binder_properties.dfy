/**
 * What the binder promises about the rows it produces: placeholder
 * numbering, placeholder layout per statement shape, where key values come
 * from, the delete decision, the parameter buffer a queued row holds, and
 * that binding depends on nothing but the record and the binder's settings.
 */
module BinderProperties {
  import opened Wrappers
  import opened ConnectData
  import opened JdbcStatement
  import opened PreparedStatementBinder

  /** The placeholder indices a sequence of bindings sets. */
  function Indices(bs: seq<Binding>): set<int> {
    set b | b in bs :: b.index
  }

  /**
   * Placeholders are numbered from `start` upwards: each binding's index is
   * above the ones before it, so no index is used twice, and together they
   * cover start .. start + |cols| - 1 with no gap.
   */
  lemma NumberingContiguous(cols: seq<Column>, start: int)
    ensures forall i, j :: 0 <= i < j < |cols| ==> Numbered(cols, start)[i].index < Numbered(cols, start)[j].index
    ensures forall k :: k in Indices(Numbered(cols, start)) <==> start <= k < start + |cols|
  {
    var bs := Numbered(cols, start);
    forall i | 0 <= i < |cols|
      ensures bs[i].index == start + i
    {
      NumberedAt(cols, start, i);
    }
    forall k | k in Indices(bs) || start <= k < start + |cols|
      ensures k in Indices(bs) <==> start <= k < start + |cols|
    {
      assert bs[k - start] in bs;
    }
  }

  /**
   * With no key field names, the struct-key and value-key modes read neither
   * key nor value: a tombstone or a null key is still bindable, and the key
   * phase binds nothing.
   */
  lemma EmptyKeyListReadsNothing(pkMode: PrimaryKeyMode, pair: SchemaPair, r: SinkRecord)
    requires pkMode == RECORD_VALUE || (pkMode == RECORD_KEY && !pair.keySchema.kind.IsPrimitive())
    ensures KeyFieldsReadable(pkMode, [], pair, r)
    ensures KeyColumns(pkMode, [], pair, r) == []
  {
  }

  /**
   * After the bindings of a row numbered from `start`, whatever was bound
   * before, placeholder start + i holds the row's i-th column.
   */
  lemma {:induction false} ParametersAfterRow(m: map<int, Column>, before: seq<Binding>, cols: seq<Column>, start: int, i: nat)
    requires i < |cols|
    ensures start + i in Assigned(m, before + Numbered(cols, start))
    ensures Assigned(m, before + Numbered(cols, start))[start + i] == cols[i]
  {
    var n := |cols|;
    var prefix := cols[..n - 1];
    NumberedStep(prefix, cols[n - 1], start);
    assert prefix + [cols[n - 1]] == cols;
    var bs := before + Numbered(cols, start);
    assert bs == (before + Numbered(prefix, start)) + [Binding(start + n - 1, cols[n - 1].schema, cols[n - 1].value)];
    assert bs[..|bs| - 1] == before + Numbered(prefix, start);
    if i < n - 1 {
      ParametersAfterRow(m, before, prefix, start, i);
    }
  }

  /**
   * A tombstone (a record with no value) is a delete, and a delete binds the
   * key columns only, whatever the insert mode.
   */
  lemma DeleteBindsKeysOnly(pkMode: PrimaryKeyMode, insertMode: InsertMode, fields: FieldsMetadata,
                            pair: SchemaPair, deleteByField: bool, r: SinkRecord)
    requires RecordBindable(pkMode, fields, pair, deleteByField, r)
    requires r.value.Null? || IsDelete(r, deleteByField)
    ensures IsDelete(r, deleteByField)
    ensures RowColumns(pkMode, insertMode, fields, pair, deleteByField, r) ==
      KeyColumns(pkMode, fields.keyFieldNames, pair, r)
  {
  }

  /**
   * INSERT and UPSERT rows of a record that is not a delete: the key columns
   * take placeholders 1 .. k, then non-key field j takes placeholder k + 1 + j
   * with its declared schema and the value struct's value for it.
   */
  lemma InsertRowLayout(pkMode: PrimaryKeyMode, insertMode: InsertMode, fields: FieldsMetadata,
                        pair: SchemaPair, deleteByField: bool, r: SinkRecord)
    requires RecordBindable(pkMode, fields, pair, deleteByField, r)
    requires KeyFieldsAccepted(pkMode, fields.keyFieldNames)
    requires !IsDelete(r, deleteByField) && insertMode != UPDATE
    ensures var row := Numbered(RowColumns(pkMode, insertMode, fields, pair, deleteByField, r), 1);
      var keys := KeyColumns(pkMode, fields.keyFieldNames, pair, r);
      var k := |fields.keyFieldNames|;
      && |row| == k + |fields.nonKeyFieldNames|
      && (forall i :: 0 <= i < k ==> row[i] == Binding(1 + i, keys[i].schema, keys[i].value))
      && (forall j :: 0 <= j < |fields.nonKeyFieldNames| ==>
            row[k + j] == Binding(k + 1 + j, FieldOf(r.valueSchema, fields.nonKeyFieldNames[j]).schema,
                                  r.value.Get(fields.nonKeyFieldNames[j])))
  {
    var cols := RowColumns(pkMode, insertMode, fields, pair, deleteByField, r);
    var keys := KeyColumns(pkMode, fields.keyFieldNames, pair, r);
    var nonKeys := FieldColumns(r.valueSchema, r.value, fields.nonKeyFieldNames);
    var k := |fields.keyFieldNames|;
    assert cols == keys + nonKeys;
    forall i | 0 <= i < k
      ensures Numbered(cols, 1)[i] == Binding(1 + i, keys[i].schema, keys[i].value)
    {
      NumberedAt(cols, 1, i);
    }
    forall j | 0 <= j < |fields.nonKeyFieldNames|
      ensures Numbered(cols, 1)[k + j] == Binding(k + 1 + j, FieldOf(r.valueSchema, fields.nonKeyFieldNames[j]).schema,
                                                  r.value.Get(fields.nonKeyFieldNames[j]))
    {
      NumberedAt(cols, 1, k + j);
      FieldColumnsAt(r.valueSchema, r.value, fields.nonKeyFieldNames, j);
    }
  }

  /**
   * UPDATE rows of a record that is not a delete: non-key field j takes
   * placeholder 1 + j, then the key columns take n + 1 .. n + k, numbered on
   * from where the non-key fields stopped.
   */
  lemma UpdateRowLayout(pkMode: PrimaryKeyMode, fields: FieldsMetadata,
                        pair: SchemaPair, deleteByField: bool, r: SinkRecord)
    requires RecordBindable(pkMode, fields, pair, deleteByField, r)
    requires KeyFieldsAccepted(pkMode, fields.keyFieldNames)
    requires !IsDelete(r, deleteByField)
    ensures var row := Numbered(RowColumns(pkMode, UPDATE, fields, pair, deleteByField, r), 1);
      var keys := KeyColumns(pkMode, fields.keyFieldNames, pair, r);
      var n := |fields.nonKeyFieldNames|;
      && |row| == n + |fields.keyFieldNames|
      && (forall j :: 0 <= j < n ==>
            row[j] == Binding(1 + j, FieldOf(r.valueSchema, fields.nonKeyFieldNames[j]).schema,
                              r.value.Get(fields.nonKeyFieldNames[j])))
      && (forall i :: 0 <= i < |fields.keyFieldNames| ==> row[n + i] == Binding(n + 1 + i, keys[i].schema, keys[i].value))
  {
    var cols := RowColumns(pkMode, UPDATE, fields, pair, deleteByField, r);
    var keys := KeyColumns(pkMode, fields.keyFieldNames, pair, r);
    var nonKeys := FieldColumns(r.valueSchema, r.value, fields.nonKeyFieldNames);
    var n := |fields.nonKeyFieldNames|;
    assert cols == nonKeys + keys;
    forall j | 0 <= j < n
      ensures Numbered(cols, 1)[j] == Binding(1 + j, FieldOf(r.valueSchema, fields.nonKeyFieldNames[j]).schema,
                                              r.value.Get(fields.nonKeyFieldNames[j]))
    {
      NumberedAt(cols, 1, j);
      FieldColumnsAt(r.valueSchema, r.value, fields.nonKeyFieldNames, j);
    }
    forall i | 0 <= i < |fields.keyFieldNames|
      ensures Numbered(cols, 1)[n + i] == Binding(n + 1 + i, keys[i].schema, keys[i].value)
    {
      NumberedAt(cols, 1, n + i);
    }
  }

  /**
   * KAFKA mode binds the topic as STRING, the partition as INT32 and the
   * offset as INT64, and nothing of the key or value: two records at the same
   * position get the same key columns.
   */
  lemma KafkaKeysComeFromPosition(keyFieldNames: seq<string>, pair: SchemaPair, r: SinkRecord, other: SinkRecord)
    requires |keyFieldNames| == 3
    requires other.topic == r.topic && other.kafkaPartition == r.kafkaPartition && other.kafkaOffset == r.kafkaOffset
    ensures KeyColumns(KAFKA, keyFieldNames, pair, r) ==
      [Column(STRING_SCHEMA, Text(r.topic)),
       Column(INT32_SCHEMA, Integer(r.kafkaPartition)),
       Column(INT64_SCHEMA, Integer(r.kafkaOffset))]
    ensures KeyColumns(KAFKA, keyFieldNames, pair, other) == KeyColumns(KAFKA, keyFieldNames, pair, r)
  {
  }

  /**
   * RECORD_KEY mode: a primitive key is bound whole with the key schema;
   * otherwise key column i is the struct key's child for the i-th key field
   * name, with that field's schema.
   */
  lemma RecordKeyColumns(keyFieldNames: seq<string>, pair: SchemaPair, r: SinkRecord)
    requires KeyFieldsReadable(RECORD_KEY, keyFieldNames, pair, r)
    ensures pair.keySchema.kind.IsPrimitive() ==>
      KeyColumns(RECORD_KEY, keyFieldNames, pair, r) == [Column(pair.keySchema, r.key)]
    ensures !pair.keySchema.kind.IsPrimitive() ==>
      forall i :: 0 <= i < |keyFieldNames| ==>
        KeyColumns(RECORD_KEY, keyFieldNames, pair, r)[i] ==
          Column(FieldOf(pair.keySchema, keyFieldNames[i]).schema, r.key.Get(keyFieldNames[i]))
  {
    if !pair.keySchema.kind.IsPrimitive() {
      forall i | 0 <= i < |keyFieldNames|
        ensures KeyColumns(RECORD_KEY, keyFieldNames, pair, r)[i] ==
          Column(FieldOf(pair.keySchema, keyFieldNames[i]).schema, r.key.Get(keyFieldNames[i]))
      {
        FieldColumnsAt(pair.keySchema, r.key, keyFieldNames, i);
      }
    }
  }

  /**
   * RECORD_VALUE mode: key column i is the value struct's child for the i-th
   * key field name, with that field's schema in the binder's value schema.
   */
  lemma RecordValueColumns(keyFieldNames: seq<string>, pair: SchemaPair, r: SinkRecord)
    requires KeyFieldsReadable(RECORD_VALUE, keyFieldNames, pair, r)
    ensures |KeyColumns(RECORD_VALUE, keyFieldNames, pair, r)| == |keyFieldNames|
    ensures forall i :: 0 <= i < |keyFieldNames| ==>
      KeyColumns(RECORD_VALUE, keyFieldNames, pair, r)[i] ==
        Column(FieldOf(pair.valueSchema, keyFieldNames[i]).schema, r.value.Get(keyFieldNames[i]))
  {
    forall i | 0 <= i < |keyFieldNames|
      ensures KeyColumns(RECORD_VALUE, keyFieldNames, pair, r)[i] ==
        Column(FieldOf(pair.valueSchema, keyFieldNames[i]).schema, r.value.Get(keyFieldNames[i]))
    {
      FieldColumnsAt(pair.valueSchema, r.value, keyFieldNames, i);
    }
  }

  /**
   * The delete decision for a record with a value: with delete-by-field on,
   * it is a delete exactly when the schema declares a BOOLEAN `deleted`
   * field and that field is true; with it off, never.
   */
  lemma DeleteByFieldDecides(r: SinkRecord, deleteByField: bool)
    requires DeleteFlagReadable(r, deleteByField) && r.value.Struct?
    ensures IsDelete(r, deleteByField) <==>
      deleteByField && DeletedFlagDeclared(r.valueSchema) && r.value.Get(DeletedFieldName) == Boolean(true)
    ensures !deleteByField ==> !IsDelete(r, deleteByField)
  {
  }

  /**
   * Two binders with the same settings and the same delete-by-field flag,
   * each on a statement of its own, bind a record to the same placeholders
   * and queue the same row, whatever enum-set names their configurations
   * list.
   */
  method BindersAgree(dialect1: DatabaseDialect, dialect2: DatabaseDialect, pkMode: PrimaryKeyMode,
                      pair: SchemaPair, fields: FieldsMetadata, insertMode: InsertMode, r: SinkRecord)
    returns (log1: seq<Binding>, log2: seq<Binding>, batch1: seq<map<int, Column>>, batch2: seq<map<int, Column>>)
    requires DeleteByField(SinkConfigOf(dialect1)) == DeleteByField(SinkConfigOf(dialect2))
    requires BindRecordReadable(pkMode, insertMode, fields, pair, DeleteByField(SinkConfigOf(dialect1)), r)
    ensures log1 == log2 && batch1 == batch2
    ensures KeyFieldsAccepted(pkMode, fields.keyFieldNames) ==>
      |batch1| == 1 && log1 == Numbered(RowColumns(pkMode, insertMode, fields, pair, DeleteByField(SinkConfigOf(dialect1)), r), 1)
    ensures !KeyFieldsAccepted(pkMode, fields.keyFieldNames) ==> batch1 == []
  {
    var s1 := new Statement();
    var b1 := new Binder(dialect1, s1, pkMode, pair, fields, insertMode);
    var s2 := new Statement();
    var b2 := new Binder(dialect2, s2, pkMode, pair, fields, insertMode);
    var res1 := b1.BindRecord(r);
    var res2 := b2.BindRecord(r);
    log1, log2, batch1, batch2 := s1.log, s2.log, s1.batch, s2.batch;
  }

  /** The key struct {id, region} and value struct {name, deleted} of the examples below. */
  const UserKeySchema := Schema(STRUCT, [Field("id", INT32_SCHEMA), Field("region", STRING_SCHEMA)])
  const UserValueSchema := Schema(STRUCT, [Field("name", STRING_SCHEMA), Field("deleted", Schema(BOOLEAN, []))])
  const UserRecord := SinkRecord("users", 0, 42,
    UserKeySchema, Struct(map["id" := Integer(7), "region" := Text("eu")]),
    UserValueSchema, Struct(map["name" := Text("ann"), "deleted" := Boolean(false)]))

  /** Every example field name resolves, to the field declared under it. */
  lemma UserFieldsResolve()
    ensures HasField(UserKeySchema, "id") && FieldOf(UserKeySchema, "id").schema == INT32_SCHEMA
    ensures HasField(UserKeySchema, "region") && FieldOf(UserKeySchema, "region").schema == STRING_SCHEMA
    ensures HasField(UserValueSchema, "name") && FieldOf(UserValueSchema, "name").schema == STRING_SCHEMA
    ensures HasField(UserValueSchema, "deleted") && FieldOf(UserValueSchema, "deleted").schema == Schema(BOOLEAN, [])
  {
    assert FieldIndex(UserKeySchema.fields, "id") == 0;
    assert UserKeySchema.fields[1..] == [Field("region", STRING_SCHEMA)];
    assert FieldIndex(UserKeySchema.fields, "region") == 1;
    assert FieldIndex(UserValueSchema.fields, "name") == 0;
    assert UserValueSchema.fields[1..] == [Field("deleted", Schema(BOOLEAN, []))];
    assert FieldIndex(UserValueSchema.fields, "deleted") == 1;
  }

  /** The key and non-key field lists of the upsert example. */
  const UserFields := FieldsMetadata(["id", "region"], ["name", "deleted"])

  /** The upsert example's record is bindable under RECORD_KEY and is not a delete. */
  lemma UserRecordBindable()
    ensures !IsDelete(UserRecord, true)
    ensures RecordBindable(RECORD_KEY, UserFields, SchemaPair(UserKeySchema, UserValueSchema), true, UserRecord)
  {
    UserFieldsResolve();
  }

  /** The columns the example's key and value structs give for its field lists. */
  lemma UserFieldColumns()
    ensures AllResolve(UserKeySchema, UserFields.keyFieldNames) && AllResolve(UserValueSchema, UserFields.nonKeyFieldNames)
    ensures FieldColumns(UserKeySchema, UserRecord.key, UserFields.keyFieldNames)
         == [Column(INT32_SCHEMA, Integer(7)), Column(STRING_SCHEMA, Text("eu"))]
    ensures FieldColumns(UserValueSchema, UserRecord.value, UserFields.nonKeyFieldNames)
         == [Column(STRING_SCHEMA, Text("ann")), Column(Schema(BOOLEAN, []), Boolean(false))]
  {
    UserFieldsResolve();
    assert FieldColumns(UserKeySchema, UserRecord.key, ["id"]) == [Column(INT32_SCHEMA, Integer(7))];
    assert FieldColumns(UserValueSchema, UserRecord.value, ["name"]) == [Column(STRING_SCHEMA, Text("ann"))];
  }

  /** The upsert example's row: key.id, key.region, value.name, value.deleted, numbered 1 to 4. */
  lemma UserUpsertRow()
    ensures RecordBindable(RECORD_KEY, UserFields, SchemaPair(UserKeySchema, UserValueSchema), true, UserRecord)
    ensures Numbered(RowColumns(RECORD_KEY, UPSERT, UserFields, SchemaPair(UserKeySchema, UserValueSchema), true, UserRecord), 1)
         == [Binding(1, INT32_SCHEMA, Integer(7)), Binding(2, STRING_SCHEMA, Text("eu")),
             Binding(3, STRING_SCHEMA, Text("ann")), Binding(4, Schema(BOOLEAN, []), Boolean(false))]
  {
    UserRecordBindable();
    UserFieldColumns();
    var keys := [Column(INT32_SCHEMA, Integer(7)), Column(STRING_SCHEMA, Text("eu"))];
    var nonKeys := [Column(STRING_SCHEMA, Text("ann")), Column(Schema(BOOLEAN, []), Boolean(false))];
    assert RowColumns(RECORD_KEY, UPSERT, UserFields, SchemaPair(UserKeySchema, UserValueSchema), true, UserRecord)
        == keys + nonKeys;
    NumberedAt(keys + nonKeys, 1, 0);
    NumberedAt(keys + nonKeys, 1, 1);
    NumberedAt(keys + nonKeys, 1, 2);
    NumberedAt(keys + nonKeys, 1, 3);
  }

  /**
   * A struct key {id, region}, UPSERT, non-key fields {name, deleted} and
   * deleted = false under delete-by-field: the placeholders are id, region,
   * name, deleted, taken from key.id, key.region, value.name, value.deleted.
   */
  method StructKeyUpsertExample() returns (res: Result<(), BindError>, log: seq<Binding>)
    ensures res.Success?
    ensures log == [Binding(1, INT32_SCHEMA, Integer(7)), Binding(2, STRING_SCHEMA, Text("eu")),
                    Binding(3, STRING_SCHEMA, Text("ann")), Binding(4, Schema(BOOLEAN, []), Boolean(false))]
  {
    UserUpsertRow();
    var statement := new Statement();
    var binder := new Binder(GenericDatabaseDialect(SinkConfig(JdbcSinkConfig([], true))), statement,
                             RECORD_KEY, SchemaPair(UserKeySchema, UserValueSchema), UserFields, UPSERT);
    res := binder.BindRecord(UserRecord);
    log := statement.log;
  }

  /**
   * NONE mode, INSERT, one non-key field `name`: only `name` is bound. The
   * same binder shape with a key field fails and queues nothing.
   */
  method NoKeyInsertExample() returns (log: seq<Binding>, refused: Result<(), BindError>, refusedBatch: seq<map<int, Column>>)
    ensures log == [Binding(1, STRING_SCHEMA, Text("ann"))]
    ensures refused == Failure(KeyFieldsInNoneMode)
    ensures refusedBatch == []
  {
    var pair := SchemaPair(STRING_SCHEMA, UserValueSchema);
    UserFieldsResolve();
    assert RecordBindable(NONE, FieldsMetadata([], ["name"]), pair, false, UserRecord);
    var statement := new Statement();
    var binder := new Binder(OtherDialect, statement, NONE, pair, FieldsMetadata([], ["name"]), INSERT);
    var ok := binder.BindRecord(UserRecord);
    log := statement.log;
    assert log == Numbered(RowColumns(NONE, INSERT, FieldsMetadata([], ["name"]), pair, false, UserRecord), 1);
    assert RowColumns(NONE, INSERT, FieldsMetadata([], ["name"]), pair, false, UserRecord)
        == [Column(STRING_SCHEMA, Text("ann"))];
    var other := new Statement();
    var misconfigured := new Binder(OtherDialect, other, NONE, pair, FieldsMetadata(["id"], ["name"]), INSERT);
    assert !KeyFieldsAccepted(NONE, ["id"]);
    refused := misconfigured.BindRecord(UserRecord);
    assert refused.error == KeyFieldsInNoneMode;
    refusedBatch := other.batch;
  }

  /**
   * NONE mode with a key field, INSERT, and a non-key name the value schema
   * lacks: the key check fails before any non-key field is looked up, so the
   * record is refused, nothing is bound and nothing is queued.
   */
  method KeyCheckBeforeLookupExample() returns (refused: Result<(), BindError>, log: seq<Binding>, batch: seq<map<int, Column>>)
    ensures refused == Failure(KeyFieldsInNoneMode)
    ensures log == [] && batch == []
  {
    var fields := FieldsMetadata(["id"], ["missing"]);
    var record := SinkRecord("t", 0, 0, STRING_SCHEMA, Null, Schema(STRUCT, []), Struct(map[]));
    assert !KeyFieldsAccepted(NONE, fields.keyFieldNames);
    var statement := new Statement();
    var binder := new Binder(OtherDialect, statement, NONE, SchemaPair(STRING_SCHEMA, Schema(STRUCT, [])), fields, INSERT);
    refused := binder.BindRecord(record);
    assert refused.error == KeyFieldsInNoneMode;
    log, batch := statement.log, statement.batch;
  }
}
