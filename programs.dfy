/**
 * Programs and program tables of emulica's properties module.
 *
 * A Program is a time law (a number, or an expression string evaluated
 * each time the delay is needed) and a transform table of parameters. A
 * ProgramTable maps program names to Programs; its schema lists the
 * transform parameters every program of the table has, with their
 * display types.
 */
module Programs {
  import opened Errors
  import opened Properties

  /** A schema entry: a transform parameter and its display type. */
  type SchemaEntry = (string, DisplayType)

  /** Every schema entry has a default value (none is a nested table). */
  predicate SchemaHasDefaults(schema: seq<SchemaEntry>)
  {
    forall k :: 0 <= k < |schema| ==> DefaultValue(schema[k].1).Some?
  }

  /**
   * The transform a new program starts from: each schema parameter with
   * its type's default, a later entry of the same name winning.
   */
  function SchemaDefaults(schema: seq<SchemaEntry>): (d: map<string, Value>)
    requires SchemaHasDefaults(schema)
    ensures d.Keys == set k | 0 <= k < |schema| :: schema[k].0
  {
    if schema == [] then map[]
    else
      var last := schema[|schema| - 1];
      SchemaDefaults(schema[..|schema| - 1])[last.0 := DefaultValue(last.1).value]
  }

  /** A parameter's default is the one of the LAST schema entry naming it. */
  lemma {:induction false} SchemaDefaultsLastWins(schema: seq<SchemaEntry>, k: nat)
    requires SchemaHasDefaults(schema)
    requires k < |schema|
    requires forall j :: k < j < |schema| ==> schema[j].0 != schema[k].0
    ensures SchemaDefaults(schema)[schema[k].0] == DefaultValue(schema[k].1).value
  {
    if k < |schema| - 1 {
      SchemaDefaultsLastWins(schema[..|schema| - 1], k);
    }
  }

  /**
   * The loop of `add_program` over the schema: each parameter set to its
   * type's default, in schema order.
   */
  method Defaults(schema: seq<SchemaEntry>) returns (t: map<string, Value>)
    requires SchemaHasDefaults(schema)
    ensures t == SchemaDefaults(schema)
  {
    t := map[];
    var k := 0;
    while k < |schema|
      invariant 0 <= k <= |schema|
      invariant t == SchemaDefaults(schema[..k])
    {
      assert schema[..k + 1][..k] == schema[..k];
      t := t[schema[k].0 := DefaultValue(schema[k].1).value];
      k := k + 1;
    }
    assert schema[..k] == schema;
  }

  /**
   * The loop of `add_program` over the given transform: each given entry
   * overrides the default of the same name.
   */
  method Override(defaults: map<string, Value>, given: map<string, Value>) returns (t: map<string, Value>)
    ensures t == defaults + given
  {
    t := defaults;
    var rest := given.Keys;
    while rest != {}
      invariant rest <= given.Keys
      invariant t == defaults + map n | n in given && n !in rest :: given[n]
      decreases rest
    {
      var n :| n in rest;
      ghost var done := map n | n in given && n !in rest :: given[n];
      UpdateUnion(defaults, done, n, given[n]);
      t := t[n := given[n]];
      rest := rest - {n};
      assert (map n | n in given && n !in rest :: given[n]) == done[n := given[n]];
    }
    assert (map n | n in given && n !in rest :: given[n]) == given;
  }

  /** Updating a union updates its right operand, which wins. */
  lemma UpdateUnion<K, V>(a: map<K, V>, b: map<K, V>, k: K, v: V)
    ensures (a + b)[k := v] == a + b[k := v]
  {
    var l, r := (a + b)[k := v], a + b[k := v];
    assert l.Keys == r.Keys;
    forall j | j in l
      ensures l[j] == r[j]
    {
    }
  }

  class Program {
    var timeLaw: Value
    var transform: map<string, Value>
    var resources: seq<string>

    constructor (timeLaw: Value, resources: seq<string>)
      ensures this.timeLaw == timeLaw && this.resources == resources
      ensures transform == map[]
    {
      this.timeLaw := timeLaw;
      this.resources := resources;
      transform := map[];
    }

    /**
     * The program's delay (`time`): the time law, evaluated when it is an
     * expression string, unchanged otherwise.
     */
    function Time(eval: string -> Value): (r: Value)
      reads this
      ensures !timeLaw.VStr? ==> r == timeLaw
      ensures timeLaw.VStr? ==> r == eval(timeLaw.s)
    {
      EvalExpression(timeLaw, eval)
    }
  }

  class ProgramTable {
    var programs: map<string, Program>
    var schema: seq<SchemaEntry>

    constructor (schema: seq<SchemaEntry>)
      ensures this.schema == schema && programs == map[]
    {
      this.schema := schema;
      programs := map[];
    }

    /** Item access `table[name]`; KeyError when there is no such program. */
    function Lookup(name: string): (r: Result<Program>)
      reads this
      ensures r.Ok? <==> name in programs
      ensures r.Ok? ==> r.value == programs[name]
    {
      if name in programs then Ok(programs[name]) else Err(KeyError)
    }

    /** Item assignment `table[name] = prog`. */
    method SetItem(name: string, prog: Program)
      modifies this`programs
      ensures programs == old(programs)[name := prog]
    {
      programs := programs[name := prog];
    }

    /** Item deletion `del table[name]`; KeyError when it is absent. */
    method DelItem(name: string) returns (r: Result<Unit>)
      modifies this`programs
      ensures r == if name in old(programs) then Ok(Unit) else Err(KeyError)
      ensures programs == old(programs) - {name}
    {
      if name !in programs {
        return Err(KeyError);
      }
      programs := programs - {name};
      r := Ok(Unit);
    }

    /**
     * Add a program (`add_program`): a fresh Program with time law
     * `delay`, whose transform holds the schema defaults overridden by the
     * given transform entries (dict-like entries are copied).
     */
    method AddProgram(name: string, delay: Value, given: map<string, Value>, resources: seq<string>)
      returns (prog: Program)
      requires SchemaHasDefaults(schema)
      modifies this`programs
      ensures fresh(prog)
      ensures programs == old(programs)[name := prog]
      ensures prog.timeLaw == delay && prog.resources == resources
      ensures prog.transform == SchemaDefaults(schema) + given
    {
      prog := new Program(delay, resources);
      var defaults := Defaults(schema);
      prog.transform := Override(defaults, given);
      programs := programs[name := prog];
    }
  }
}
