# PreparedStatementBinder of the Kafka Connect JDBC sink, in Dafny

The JDBC sink connector writes each Kafka sink record through a prepared
statement: an INSERT, an UPSERT, an UPDATE, or a DELETE by primary key. The
`PreparedStatementBinder` fills that statement's numbered placeholders for one
record and then queues the row with `addBatch`. This project models the
binder and proves what it promises:

- **Delete decision.** A record whose value is null (a tombstone) is a
  delete. With delete-by-field configured, a record whose value schema
  declares a BOOLEAN `deleted` field is a delete when that field is true.
- **Placeholder layout.** A delete binds the key columns only. INSERT and
  UPSERT bind the key columns and then the non-key columns. UPDATE binds the
  non-key columns and then the key columns.
- **Key columns.** They come from the primary-key mode:
  - KAFKA binds the topic (STRING), the partition (INT32) and the offset
    (INT64);
  - RECORD_KEY binds a primitive key whole, or each named child of a struct
    key;
  - RECORD_VALUE binds each named child of the value struct;
  - NONE binds nothing, and fails if key field names were configured.
- **Numbering.** Placeholders are numbered from 1 upwards with no gap and no
  reuse. Each phase returns its start index plus the number of columns it
  bound.
- **Queueing.** Every successful bind queues exactly one row, the statement's
  parameter buffer. A failed bind queues nothing.

Files:

- `wrappers.dfy`: `Option` and `Result`.
- `connect_data.dfy`: the Kafka Connect data the binder reads. This covers
  schema kinds, struct schemas and their field lookup (`Schema.field(name)`),
  values and struct access, and the sink record.
- `jdbc_statement.dfy`: the prepared statement as a class.
  - Its `log` records every parameter set, in order.
  - Its `batch` records every queued row.
  - The parameter buffer (index to schema and value, last write wins, kept
    after `addBatch` as JDBC does) is a function of the log.
- `binder.dfy`: the `Binder` class, with one method per Java method plus
  `BindStructFields`. That helper is the loop shared by the RECORD_KEY
  struct-key case and the RECORD_VALUE case. Each method is proved against
  specification functions: `IsDelete`,
  `KeyColumns`, `FieldColumns`, `RowColumns` and `Numbered`.
- `binder_properties.dfy`: lemmas about those functions, a two-binder client
  and two worked examples.

The binder computes an enum-set override schema for non-key fields listed in
the configuration's enum sets, and then binds with the field's own declared
schema. The model keeps this: the override is computed in
`BindNonKeyFields` and not used. As a result, no binding depends on the
enum-set list (`BindersAgree`).

## Model

| member | source | states |
|---|---|---|
| PreparedStatementBinder.Binder.constructor | src/main/java/io/confluent/connect/jdbc/sink/PreparedStatementBinder.java:48-75 | The configuration is the sink configuration of a generic dialect built with one, and absent otherwise. The enum-set names are copied from it, or are empty when it is absent. |
| PreparedStatementBinder.SinkConfigOf | src/main/java/io/confluent/connect/jdbc/sink/PreparedStatementBinder.java:62-74 | A configuration is found exactly when the dialect is a generic dialect whose configuration is a sink configuration, and it is that sink configuration. |
| PreparedStatementBinder.Binder.BindRecord | src/main/java/io/confluent/connect/jdbc/sink/PreparedStatementBinder.java:78-115 | It succeeds exactly when the key field list suits the primary-key mode. On success it appends the row's bindings, numbered from 1, and queues the parameter buffer once. On failure nothing is queued. A delete, or an INSERT or UPSERT, leaves the log untouched on failure. An UPDATE keeps the non-key bindings it made before the key phase failed. The precondition does not require non-key names to resolve on a path that fails at the key check before looking them up. |
| PreparedStatementBinder.Binder.BindKeyFields | src/main/java/io/confluent/connect/jdbc/sink/PreparedStatementBinder.java:117-158 | It fails exactly in NONE mode with a non-empty key list, and then binds nothing. Otherwise it appends the mode's key columns numbered from `index` and returns `index` plus the number of key field names. It never queues a row. |
| PreparedStatementBinder.Binder.BindStructFields | src/main/java/io/confluent/connect/jdbc/sink/PreparedStatementBinder.java:133-150 | It binds one child per name, in list order, each with its field's declared schema and the struct's value for it. It numbers them from `index` and returns `index + \|names\|`. |
| PreparedStatementBinder.Binder.BindNonKeyFields | src/main/java/io/confluent/connect/jdbc/sink/PreparedStatementBinder.java:160-176 | It binds each non-key field from `index` on, in name order, with the field's declared schema (even for enum-set names) and the value struct's value. It returns `index` plus the number of non-key names. |
| PreparedStatementBinder.Binder.BindField | src/main/java/io/confluent/connect/jdbc/sink/PreparedStatementBinder.java:178-180 | Exactly one binding is appended to the statement, with the given index, schema and value. Nothing is queued. |
| JdbcStatement.Statement.SetParameter | src/main/java/io/confluent/connect/jdbc/sink/PreparedStatementBinder.java:179 | The binding is logged. The parameter buffer takes the new schema and value at that index and keeps every other index. |
| JdbcStatement.Statement.AddBatch | src/main/java/io/confluent/connect/jdbc/sink/PreparedStatementBinder.java:114 | The batch grows by exactly the current parameter buffer. The log is unchanged. |
| JdbcStatement.AssignedKeys | src/main/java/io/confluent/connect/jdbc/sink/PreparedStatementBinder.java:178-180 | The indices present in the parameter buffer are exactly the indices ever bound. |
| ConnectData.FieldIndex | src/main/java/io/confluent/connect/jdbc/sink/PreparedStatementBinder.java:139 | It returns the position of the first field with that name, or the field count when no field has the name. |
| ConnectData.Lookup | src/main/java/io/confluent/connect/jdbc/sink/PreparedStatementBinder.java:90-91 | A struct schema yields a field exactly when one of its fields has the name. The field returned is one of the schema's fields and carries that name. |
| ConnectData.FieldOf | src/main/java/io/confluent/connect/jdbc/sink/PreparedStatementBinder.java:166 | A name that resolves yields a field of the schema with that name. |
| PreparedStatementBinder.IsDelete | src/main/java/io/confluent/connect/jdbc/sink/PreparedStatementBinder.java:79-94 | A record with a null value (a tombstone) is a delete. A record with a value is a delete only when delete-by-field is on and the value schema declares a BOOLEAN `deleted` field. BinderProperties.DeleteByFieldDecides states exactly when such a record is a delete. |
| PreparedStatementBinder.FieldColumns | src/main/java/io/confluent/connect/jdbc/sink/PreparedStatementBinder.java:138-141 | There is one column per name. |
| PreparedStatementBinder.FieldColumnsAt | src/main/java/io/confluent/connect/jdbc/sink/PreparedStatementBinder.java:139-140 | Column i is the declared schema of the field named names[i] and the struct's value for that name. |
| PreparedStatementBinder.KeyColumns | src/main/java/io/confluent/connect/jdbc/sink/PreparedStatementBinder.java:117-158 | When the key list suits the mode, there are exactly as many key columns as key field names. |
| PreparedStatementBinder.RowColumns | src/main/java/io/confluent/connect/jdbc/sink/PreparedStatementBinder.java:95-113 | A row has the key columns, plus the non-key columns unless the record is a delete. |
| PreparedStatementBinder.Numbered | src/main/java/io/confluent/connect/jdbc/sink/PreparedStatementBinder.java:127-129 | There is one binding per column. |
| PreparedStatementBinder.NumberedAt | src/main/java/io/confluent/connect/jdbc/sink/PreparedStatementBinder.java:127-129 | Binding i carries index start + i and column i's schema and value. |
| PreparedStatementBinder.NumberedAppend | src/main/java/io/confluent/connect/jdbc/sink/PreparedStatementBinder.java:98-108 | Numbering two phases one after the other, the second starting where the first stopped, equals numbering their concatenation from the first start. |
| PreparedStatementBinder.TwoPhaseLog | src/main/java/io/confluent/connect/jdbc/sink/PreparedStatementBinder.java:98-108 | Two phases whose bindings start at 1 and at 1 plus the first phase's count leave the log equal to the whole row numbered from 1. |
| PreparedStatementBinder.NumberedThree | src/main/java/io/confluent/connect/jdbc/sink/PreparedStatementBinder.java:125-131 | Three columns bound one after another take start, start + 1 and start + 2. |
| BinderProperties.NumberingContiguous | src/main/java/io/confluent/connect/jdbc/sink/PreparedStatementBinder.java:88-113 | Each binding's index is higher than every earlier one, so no index is reused. The indices bound are exactly start to start + \|cols\| - 1, so none is skipped. |
| BinderProperties.EmptyKeyListReadsNothing | src/main/java/io/confluent/connect/jdbc/sink/PreparedStatementBinder.java:133-152 | With no key field names, RECORD_VALUE and struct-key RECORD_KEY read neither key nor value. A tombstone or a null key is still bindable, and the key phase binds nothing. |
| BinderProperties.ParametersAfterRow | src/main/java/io/confluent/connect/jdbc/sink/PreparedStatementBinder.java:114 | After a row's bindings, whatever was bound before, placeholder start + i of the queued buffer holds the row's i-th column. |
| BinderProperties.DeleteBindsKeysOnly | src/main/java/io/confluent/connect/jdbc/sink/PreparedStatementBinder.java:95-96 | A record with a null value (a tombstone) is a delete. The row of a tombstone, or of any other delete, is its key columns only, whatever the insert mode. |
| BinderProperties.InsertRowLayout | src/main/java/io/confluent/connect/jdbc/sink/PreparedStatementBinder.java:99-103 | In INSERT and UPSERT, placeholders 1..k are the key columns, and placeholder k+1+j is non-key field j with its declared schema and value. |
| BinderProperties.UpdateRowLayout | src/main/java/io/confluent/connect/jdbc/sink/PreparedStatementBinder.java:105-108 | In UPDATE, placeholder 1+j is non-key field j, and placeholders n+1..n+k are the key columns. |
| BinderProperties.KafkaKeysComeFromPosition | src/main/java/io/confluent/connect/jdbc/sink/PreparedStatementBinder.java:125-131 | KAFKA key columns are the topic as STRING, the partition as INT32 and the offset as INT64. They depend on nothing else in the record. |
| BinderProperties.RecordKeyColumns | src/main/java/io/confluent/connect/jdbc/sink/PreparedStatementBinder.java:133-144 | A primitive key is one column with the key schema. Otherwise key column i is the struct key's child named keyFieldNames[i], with that field's schema. |
| BinderProperties.RecordValueColumns | src/main/java/io/confluent/connect/jdbc/sink/PreparedStatementBinder.java:146-152 | Key column i is the value struct's child named keyFieldNames[i], with its schema in the binder's value schema. |
| BinderProperties.DeleteByFieldDecides | src/main/java/io/confluent/connect/jdbc/sink/PreparedStatementBinder.java:89-94 | A record with a value is a delete exactly when delete-by-field is on, the schema declares a BOOLEAN `deleted` field and that field is true. With delete-by-field off it is never a delete. |
| BinderProperties.BindersAgree | src/main/java/io/confluent/connect/jdbc/sink/PreparedStatementBinder.java:62-75 | Two binders that differ only in their dialects, with the same delete-by-field setting, produce the same bindings and the same queued rows. When the key list suits the mode, exactly one row is queued. Otherwise none is. |
| BinderProperties.UserUpsertRow | src/main/java/io/confluent/connect/jdbc/sink/PreparedStatementBinder.java:98-103 | Worked example: with a struct key {id, region}, UPSERT and non-key fields {name, deleted} (false), placeholders 1 to 4 are key.id, key.region, value.name and value.deleted. |
| BinderProperties.StructKeyUpsertExample | src/main/java/io/confluent/connect/jdbc/sink/PreparedStatementBinder.java:98-103 | The same example driven through a binder: the bind succeeds and the statement's log is those four bindings. |
| BinderProperties.KeyCheckBeforeLookupExample | src/main/java/io/confluent/connect/jdbc/sink/PreparedStatementBinder.java:98-103 | NONE with a key field in INSERT mode, given a value schema that lacks a non-key name, fails at the key check. Nothing is bound and nothing is queued. |
| BinderProperties.NoKeyInsertExample | src/main/java/io/confluent/connect/jdbc/sink/PreparedStatementBinder.java:119-123 | NONE with no key fields binds only the non-key field. NONE with a key field fails and queues nothing. |

## Left out

- Value encoding by the dialect (`DatabaseDialect.bindField`) and the SQL
  types it chooses are not part of this model. A binding records the index,
  schema and value it was handed.
- `SQLException` from the driver is not modelled; every parameter set and
  `addBatch` succeeds.
- SQL text generation and statement execution belong to other classes.
- ConnectData.Value.Get: a struct child is read by field name. Kafka
  Connect's `Struct.get(Field)` reads the slot at `field.index()`, and that
  position comes from the schema the field was looked up in: the binder's
  key schema, the binder's value schema, or the record's value schema. The
  model therefore assumes each of those schemas lists its fields in the same
  positions as the struct's own schema. When the binder's schema pair orders
  its fields differently from the record, Java reads a different slot and
  the model does not capture that.
- Kafka Connect schemas are reduced to a kind and a list of named child
  fields. Optionality, defaults, names, versions and schema parameters are
  left out, including the enum-set schema's `isEnumSet` parameter and its
  element type. `Struct.get` does not check the value against the schema.
  Struct schemas are assumed to have distinct field names, as Kafka
  Connect's `SchemaBuilder` enforces. On a duplicate name, `FieldIndex` and
  `Lookup` take the first field.
- Schemaless records (null key or value schemas) are not modelled.
- Two members stand for Kafka Connect library calls and are not modelled
  further:
  - `ConnectData.SchemaType.IsPrimitive` stands for `Schema.Type.isPrimitive()`
    (line 134);
  - `ConnectData.Value.Get` stands for `Struct.get` and `Struct.getBoolean`
    (lines 92, 140, 149 and 173).
- BindRecord: the Java `NullPointerException`, `ClassCastException` and
  `DataException` paths are preconditions (`BindRecordReadable`), not error
  outcomes. `BindRecordReadable` excludes those paths, and also the Java
  `assert` conditions listed under BindKeyFields below. The exception paths
  it excludes are:
  - a value that is neither null nor a struct;
  - a key or value that must be read as a struct but is not one, which only
    happens when there is a field name to read;
  - a field name missing from the schema it is looked up in, counting a
    non-key name only when bindRecord reaches its lookup, that is after an
    accepted key phase or in UPDATE mode;
  - a `deleted` flag that is null.
- BindKeyFields: the Java `assert`s on the key list size (three for KAFKA,
  one for a primitive RECORD_KEY) are preconditions, so the model assumes
  they hold. Java runs with assertions disabled by default. There a KAFKA
  binder with a different number of key names still binds three
  placeholders, and a primitive key is still bound once. The model does not
  cover those configurations. The NONE mode check throws unconditionally in the source, and is
  modelled as the `KeyFieldsInNoneMode` failure.
- The default branches for an unknown primary-key mode or insert mode cannot
  be reached with closed enumerations, and are left out.
- BindRecord: placeholder indices are unbounded integers. Java `int`
  overflow would need more than 2^31 columns and is not modelled.
- JdbcStatement.Statement.AddBatch: a queued row is a snapshot of the
  parameter buffer as a value. Driver-side copying and aliasing are not
  modelled.
