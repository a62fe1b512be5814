/**
 * The prepared statement the binder fills, as far as the binder can observe
 * it: every parameter binding made through the dialect, in call order, and
 * the rows queued by addBatch. The parameter buffer, addressed by 1-based
 * index, is what those bindings have set.
 */
module JdbcStatement {
  import opened ConnectData

  /** The schema and value bound to one placeholder. */
  datatype Column = Column(schema: Schema, value: Value)

  /** One call of the dialect's bindField: placeholder index, schema, value. */
  datatype Binding = Binding(index: int, schema: Schema, value: Value)

  /**
   * The parameter buffer after the bindings `bs` are applied, in order, to
   * `m`: each binding sets its own index, and a later binding of the same
   * index replaces an earlier one.
   */
  function Assigned(m: map<int, Column>, bs: seq<Binding>): map<int, Column> {
    if bs == [] then m
    else
      var last := bs[|bs| - 1];
      Assigned(m, bs[..|bs| - 1])[last.index := Column(last.schema, last.value)]
  }

  /** The buffer holds a value for exactly the indices that were bound or set before. */
  lemma {:induction false} AssignedKeys(m: map<int, Column>, bs: seq<Binding>)
    ensures Assigned(m, bs).Keys == m.Keys + set b | b in bs :: b.index
  {
    if bs != [] {
      var prefix, last := bs[..|bs| - 1], bs[|bs| - 1];
      AssignedKeys(m, prefix);
      assert bs == prefix + [last];
      assert (set b | b in bs :: b.index) == (set b | b in prefix :: b.index) + {last.index};
    }
  }

  class Statement {
    /** Every binding made on this statement, in order. */
    var log: seq<Binding>
    /** The queued rows: a snapshot of the parameter buffer at each addBatch. */
    var batch: seq<map<int, Column>>

    constructor ()
      ensures log == [] && batch == []
    {
      log := [];
      batch := [];
    }

    /** The parameter buffer: what the bindings so far have set, by index. */
    function Parameters(): map<int, Column>
      reads this
    {
      Assigned(map[], log)
    }

    /** Sets placeholder `index`; the rows already queued are not touched. */
    method SetParameter(index: int, schema: Schema, value: Value)
      modifies this
      ensures log == old(log) + [Binding(index, schema, value)]
      ensures Parameters() == old(Parameters())[index := Column(schema, value)]
      ensures batch == old(batch)
    {
      assert (log + [Binding(index, schema, value)])[..|log|] == log;
      log := log + [Binding(index, schema, value)];
    }

    /** Queues the current parameters as one row; they stay set afterwards. */
    method AddBatch()
      modifies this
      ensures log == old(log)
      ensures batch == old(batch) + [Parameters()]
    {
      batch := batch + [Parameters()];
    }
  }
}
