/**
 * The command manager of the model editor: every edit of a property
 * registry, a program table, a program or a setup matrix is a command
 * that is done once when it is created, and can then be undone and redone.
 * The manager keeps the commands on an undo stack and a redo stack.
 *
 * Each command's three actions are specified by pure effect functions on
 * the state of the object it edits; the lemmas below say when undoing a
 * command gives back the state it was done from, and when it does not.
 */
module Commands {
  import opened Errors
  import opened Properties
  import opened Programs
  import opened SetupMatrices

  /** An (initial program, final program, delay) triple of a setup matrix. */
  datatype Setting = Setting(initial: string, final: string, time: Value)

  /** An edit, with what it needs to be undone and redone. */
  datatype Command =
    | ChangeProp(registry: Registry, name: string, oldValue: Value, value: Value)
    | ChangePropName(registry: Registry, oldName: string, newName: string)
    | DelProp(registry: Registry, name: string, oldValue: Value)
    | AddProp(registry: Registry, name: string, value: Value)
    | AddProg(table: ProgramTable, name: string, prog: Program)
    | DelProg(table: ProgramTable, name: string, prog: Program)
    | ChangeProgTime(prog: Program, time: Value, oldTime: Value)
    | ChangeProgName(table: ProgramTable, oldName: string, newName: string)
    | AddSetup(matrix: SetupMatrix, setting: Setting)
    | DelSetup(matrix: SetupMatrix, setting: Setting)
    | ChangeSetup(matrix: SetupMatrix, before: Setting, after: Setting)

  predicate OnRegistry(c: Command)
  {
    c.ChangeProp? || c.ChangePropName? || c.DelProp? || c.AddProp?
  }

  predicate OnTable(c: Command)
  {
    c.AddProg? || c.DelProg? || c.ChangeProgName?
  }

  predicate OnMatrix(c: Command)
  {
    c.AddSetup? || c.DelSetup? || c.ChangeSetup?
  }

  /** The object a command edits. */
  function Target(c: Command): set<object>
  {
    match c
    case ChangeProp(registry, _, _, _) => {registry}
    case ChangePropName(registry, _, _) => {registry}
    case DelProp(registry, _, _) => {registry}
    case AddProp(registry, _, _) => {registry}
    case AddProg(table, _, _) => {table}
    case DelProg(table, _, _) => {table}
    case ChangeProgTime(prog, _, _) => {prog}
    case ChangeProgName(table, _, _) => {table}
    case AddSetup(matrix, _) => {matrix}
    case DelSetup(matrix, _) => {matrix}
    case ChangeSetup(matrix, _, _) => {matrix}
  }

  /** The state an action leaves behind, and whether it raised. */
  datatype Outcome<T> = Outcome(after: T, status: Result<Unit>)

  /** `del d[k]`: a KeyError, changing nothing, when `k` is absent. */
  function Without<K, V>(m: map<K, V>, k: K): (r: Outcome<map<K, V>>)
    ensures r.status.Ok? <==> k in m
    ensures r.status.Err? ==> r.status.error == KeyError && r.after == m
    ensures r.status.Ok? ==> k !in r.after && forall j :: j in m && j != k ==> j in r.after && r.after[j] == m[j]
    ensures forall j :: j in r.after ==> j in m
  {
    if k in m then Outcome(m - {k}, Ok(Unit)) else Outcome(m, Err(KeyError))
  }

  /**
   * `value = registry[from]; del registry[from]; registry[to] = value`:
   * the entry moves to `to`, evaluated on the way when `from` is marked
   * for automatic evaluation; a KeyError, changing nothing, when `from`
   * is absent.
   */
  function Rename(values: map<string, Value>, autoEval: set<string>, eval: string -> Value,
                  from: string, to: string): (r: Outcome<map<string, Value>>)
    ensures r.status.Ok? <==> from in values
    ensures r.status.Err? ==> r.status.error == KeyError && r.after == values
    ensures r.status.Ok? ==> to in r.after
    ensures r.status.Ok? ==> r.after[to] == (if from in autoEval then EvalExpression(values[from], eval) else values[from])
    ensures r.status.Ok? && from != to ==> from !in r.after
    ensures forall k :: k != from && k != to ==> (k in r.after <==> k in values)
    ensures forall k :: k != from && k != to && k in values ==> r.after[k] == values[k]
  {
    if from !in values then Outcome(values, Err(KeyError))
    else
      var value := if from in autoEval then EvalExpression(values[from], eval) else values[from];
      Outcome((values - {from})[to := value], Ok(Unit))
  }

  /** The same move in a program table, which never evaluates. */
  function Move(programs: map<string, Program>, from: string, to: string): (r: Outcome<map<string, Program>>)
    ensures r.status.Ok? <==> from in programs
    ensures r.status.Err? ==> r.status.error == KeyError && r.after == programs
    ensures r.status.Ok? ==> to in r.after && r.after[to] == programs[from]
    ensures r.status.Ok? && from != to ==> from !in r.after
    ensures forall k :: k != from && k != to ==> (k in r.after <==> k in programs)
    ensures forall k :: k != from && k != to && k in programs ==> r.after[k] == programs[k]
  {
    if from !in programs then Outcome(programs, Err(KeyError))
    else Outcome((programs - {from})[to := programs[from]], Ok(Unit))
  }

  /**
   * Undoing (`undo`) or redoing (`redo`, which is also what creating the
   * command does) a registry command, on the registry's entries.
   */
  function RegistryEffect(c: Command, undo: bool, values: map<string, Value>, autoEval: set<string>,
                          eval: string -> Value): (r: Outcome<map<string, Value>>)
    requires OnRegistry(c)
    ensures r.status.Err? ==> r.status.error == KeyError && r.after == values
  {
    match c
    case ChangeProp(_, name, oldValue, value) =>
      Outcome(values[name := if undo then oldValue else value], Ok(Unit))
    case ChangePropName(_, oldName, newName) =>
      if undo then Rename(values, autoEval, eval, newName, oldName)
      else Rename(values, autoEval, eval, oldName, newName)
    case DelProp(_, name, oldValue) =>
      if undo then Outcome(values[name := oldValue], Ok(Unit)) else Without(values, name)
    case AddProp(_, name, value) =>
      if undo then Without(values, name) else Outcome(values[name := value], Ok(Unit))
  }

  /** Undoing or redoing a program-table command, on the table's programs. */
  function TableEffect(c: Command, undo: bool, programs: map<string, Program>): (r: Outcome<map<string, Program>>)
    requires OnTable(c)
    ensures r.status.Err? ==> r.status.error == KeyError && r.after == programs
  {
    match c
    case AddProg(_, name, prog) =>
      if undo then Without(programs, name) else Outcome(programs[name := prog], Ok(Unit))
    case DelProg(_, name, prog) =>
      if undo then Outcome(programs[name := prog], Ok(Unit)) else Without(programs, name)
    case ChangeProgName(_, oldName, newName) =>
      if undo then Move(programs, newName, oldName) else Move(programs, oldName, newName)
  }

  /** `remove(i, f)` on the nested map of a setup matrix. */
  ghost function RemoveEffect(m: map<string, Column>, i: string, f: string): Outcome<map<string, Column>>
  {
    if f in m && i in m[f] then Outcome(AfterRemove(m, i, f), Ok(Unit)) else Outcome(m, Err(KeyError))
  }

  /**
   * `modify(i, f, ni, nf, nt)` on the nested map: the re-keying, then the
   * new time written under the original key when it is truthy, which
   * raises (keeping the re-keying) when column `f` was dropped.
   */
  ghost function ModifyEffect(m: map<string, Column>, i: string, f: string, ni: string, nf: string, nt: Value)
    : Outcome<map<string, Column>>
  {
    if !(f in m && i in m[f]) then Outcome(m, Err(KeyError))
    else
      var k := AfterRekey(m, i, f, ni, nf);
      if !Truthy(nt) then Outcome(k, Ok(Unit))
      else if f in k then Outcome(k[f := k[f][i := nt]], Ok(Unit))
      else Outcome(k, Err(KeyError))
  }

  /** Undoing or redoing a setup command, on the matrix's nested map. */
  ghost function MatrixEffect(c: Command, undo: bool, m: map<string, Column>): Outcome<map<string, Column>>
    requires OnMatrix(c)
  {
    match c
    case AddSetup(_, s) =>
      if undo then RemoveEffect(m, s.initial, s.final) else Outcome(AfterAdd(m, s.initial, s.final, s.time), Ok(Unit))
    case DelSetup(_, s) =>
      if undo then Outcome(AfterAdd(m, s.initial, s.final, s.time), Ok(Unit)) else RemoveEffect(m, s.initial, s.final)
    case ChangeSetup(_, b, a) =>
      if undo then ModifyEffect(m, a.initial, a.final, b.initial, b.final, b.time)
      else ModifyEffect(m, b.initial, b.final, a.initial, a.final, a.time)
  }

  /**
   * What undoing or redoing `c` did to the object it edits, `r` being
   * what it raised: the effect function's new state and status, every
   * other field of the object unchanged.
   */
  twostate predicate Applied(c: Command, undo: bool, eval: string -> Value, new r: Result<Unit>)
    reads Target(c)
  {
    (OnRegistry(c) ==>
      var o := RegistryEffect(c, undo, old(c.registry.values), old(c.registry.autoEval), eval);
      c.registry.values == o.after && r == o.status &&
      c.registry.autoEval == old(c.registry.autoEval) && c.registry.displays == old(c.registry.displays) &&
      c.registry.orderedDisplay == old(c.registry.orderedDisplay)) &&
    (OnTable(c) ==>
      var o := TableEffect(c, undo, old(c.table.programs));
      c.table.programs == o.after && r == o.status && c.table.schema == old(c.table.schema)) &&
    (c.ChangeProgTime? ==>
      c.prog.timeLaw == (if undo then c.oldTime else c.time) && r == Ok(Unit) &&
      c.prog.transform == old(c.prog.transform) && c.prog.resources == old(c.prog.resources)) &&
    (OnMatrix(c) ==>
      var o := MatrixEffect(c, undo, old(c.matrix.destProg));
      c.matrix.destProg == o.after && r == o.status &&
      c.matrix.defaultTime == old(c.matrix.defaultTime) && c.matrix.destDefault == old(c.matrix.destDefault))
  }

  /** Undo or redo a registry command. */
  method ApplyToRegistry(c: Command, undo: bool, eval: string -> Value) returns (r: Result<Unit>)
    requires OnRegistry(c)
    modifies c.registry
    ensures var o := RegistryEffect(c, undo, old(c.registry.values), old(c.registry.autoEval), eval);
      c.registry.values == o.after && r == o.status
    ensures c.registry.autoEval == old(c.registry.autoEval) && c.registry.displays == old(c.registry.displays)
    ensures c.registry.orderedDisplay == old(c.registry.orderedDisplay)
  {
    var registry := c.registry;
    match c
    case ChangeProp(_, name, oldValue, value) =>
      registry.SetItem(name, if undo then oldValue else value);
      r := Ok(Unit);
    case ChangePropName(_, oldName, newName) =>
      var from, to := if undo then newName else oldName, if undo then oldName else newName;
      var value := registry.Lookup(from, eval);
      if value.Err? {
        return Err(KeyError);
      }
      var _ := registry.DelItem(from);
      registry.SetItem(to, value.value);
      r := Ok(Unit);
    case DelProp(_, name, oldValue) =>
      if undo {
        registry.SetItem(name, oldValue);
        r := Ok(Unit);
      } else {
        r := registry.DelItem(name);
      }
    case AddProp(_, name, value) =>
      if undo {
        r := registry.DelItem(name);
      } else {
        registry.SetItem(name, value);
        r := Ok(Unit);
      }
  }

  /** Undo or redo a program-table command. */
  method ApplyToTable(c: Command, undo: bool) returns (r: Result<Unit>)
    requires OnTable(c)
    modifies c.table`programs
    ensures var o := TableEffect(c, undo, old(c.table.programs));
      c.table.programs == o.after && r == o.status
  {
    var table := c.table;
    match c
    case AddProg(_, name, prog) =>
      if undo {
        r := table.DelItem(name);
      } else {
        table.SetItem(name, prog);
        r := Ok(Unit);
      }
    case DelProg(_, name, prog) =>
      if undo {
        table.SetItem(name, prog);
        r := Ok(Unit);
      } else {
        r := table.DelItem(name);
      }
    case ChangeProgName(_, oldName, newName) =>
      var from, to := if undo then newName else oldName, if undo then oldName else newName;
      var prog := table.Lookup(from);
      if prog.Err? {
        return Err(KeyError);
      }
      var _ := table.DelItem(from);
      table.SetItem(to, prog.value);
      r := Ok(Unit);
  }

  /** Undo or redo a setup command. */
  method ApplyToMatrix(c: Command, undo: bool) returns (r: Result<Unit>)
    requires OnMatrix(c)
    modifies c.matrix`destProg
    ensures var o := MatrixEffect(c, undo, old(c.matrix.destProg));
      c.matrix.destProg == o.after && r == o.status
  {
    var matrix := c.matrix;
    var (i, f) := if c.ChangeSetup? && undo then (c.after.initial, c.after.final)
                  else if c.ChangeSetup? then (c.before.initial, c.before.final)
                  else (c.setting.initial, c.setting.final);
    assert (i, f) in matrix.Pairs() <==> f in matrix.destProg && i in matrix.destProg[f];
    match c
    case AddSetup(_, s) =>
      if undo {
        r := matrix.Remove(s.initial, s.final);
      } else {
        matrix.Add(s.initial, s.final, s.time);
        r := Ok(Unit);
      }
    case DelSetup(_, s) =>
      if undo {
        matrix.Add(s.initial, s.final, s.time);
        r := Ok(Unit);
      } else {
        r := matrix.Remove(s.initial, s.final);
      }
    case ChangeSetup(_, b, a) =>
      if undo {
        r := matrix.Modify(a.initial, a.final, b.initial, b.final, b.time);
      } else {
        r := matrix.Modify(b.initial, b.final, a.initial, a.final, a.time);
      }
  }

  /** Undo (`undo`) or redo (`redo`) a command on the object it edits. */
  method Apply(c: Command, undo: bool, eval: string -> Value) returns (r: Result<Unit>)
    modifies Target(c)
    ensures Applied(c, undo, eval, r)
  {
    if OnRegistry(c) {
      r := ApplyToRegistry(c, undo, eval);
    } else if OnTable(c) {
      r := ApplyToTable(c, undo);
    } else if OnMatrix(c) {
      r := ApplyToMatrix(c, undo);
    } else {
      c.prog.timeLaw := if undo then c.oldTime else c.time;
      r := Ok(Unit);
    }
  }

  /** The undo and redo stacks (`CommandManager`). */
  class CommandManager {
    var undoStack: seq<Command>
    var redoStack: seq<Command>

    constructor ()
      ensures undoStack == [] && redoStack == []
    {
      undoStack := [];
      redoStack := [];
    }

    /** Whether there is a command to undo (`can_undo`). */
    predicate CanUndo()
      reads this
    {
      undoStack != []
    }

    /** Whether there is a command to redo (`can_redo`). */
    predicate CanRedo()
      reads this
    {
      redoStack != []
    }

    /** Record a command that has just been done (`add_cmd`): nothing is left to redo. */
    method AddCmd(c: Command)
      modifies this
      ensures undoStack == old(undoStack) + [c] && redoStack == []
    {
      undoStack := undoStack + [c];
      redoStack := [];
    }

    /**
     * Undo the last command (`undo`): an IndexError when there is none.
     * The command leaves the undo stack even when undoing it raises; it
     * reaches the redo stack only when it was undone.
     */
    method Undo(eval: string -> Value) returns (r: Result<Unit>)
      modifies this, if undoStack == [] then {} else Target(undoStack[|undoStack| - 1])
      ensures r == Err(IndexError) <==> !old(CanUndo())
      ensures !old(CanUndo()) ==> undoStack == old(undoStack) && redoStack == old(redoStack)
      ensures old(CanUndo()) ==> undoStack == old(undoStack)[..|old(undoStack)| - 1]
      ensures old(CanUndo()) ==> Applied(old(undoStack)[|old(undoStack)| - 1], true, eval, r)
      ensures old(CanUndo()) ==>
        redoStack == old(redoStack) + (if r.Ok? then [old(undoStack)[|old(undoStack)| - 1]] else [])
    {
      if undoStack == [] {
        return Err(IndexError);
      }
      var c := undoStack[|undoStack| - 1];
      undoStack := undoStack[..|undoStack| - 1];
      r := Apply(c, true, eval);
      if r.Ok? {
        redoStack := redoStack + [c];
      }
    }

    /**
     * Redo the last undone command (`redo`): an IndexError when there is
     * none; the command goes back on the undo stack when it was redone.
     */
    method Redo(eval: string -> Value) returns (r: Result<Unit>)
      modifies this, if redoStack == [] then {} else Target(redoStack[|redoStack| - 1])
      ensures r == Err(IndexError) <==> !old(CanRedo())
      ensures !old(CanRedo()) ==> undoStack == old(undoStack) && redoStack == old(redoStack)
      ensures old(CanRedo()) ==> redoStack == old(redoStack)[..|old(redoStack)| - 1]
      ensures old(CanRedo()) ==> Applied(old(redoStack)[|old(redoStack)| - 1], false, eval, r)
      ensures old(CanRedo()) ==>
        undoStack == old(undoStack) + (if r.Ok? then [old(redoStack)[|old(redoStack)| - 1]] else [])
    {
      if redoStack == [] {
        return Err(IndexError);
      }
      var c := redoStack[|redoStack| - 1];
      redoStack := redoStack[..|redoStack| - 1];
      r := Apply(c, false, eval);
      if r.Ok? {
        undoStack := undoStack + [c];
      }
    }

    /**
     * Do a new command and record it: creating a command performs its
     * redo action; a command whose creation raised is not recorded.
     */
    method Perform(c: Command, eval: string -> Value) returns (r: Result<Unit>)
      modifies this, Target(c)
      ensures Applied(c, false, eval, r)
      ensures r.Ok? ==> undoStack == old(undoStack) + [c] && redoStack == []
      ensures r.Err? ==> undoStack == old(undoStack) && redoStack == old(redoStack)
    {
      r := Apply(c, false, eval);
      if r.Ok? {
        AddCmd(c);
      }
    }

    /**
     * Set a property (`change_prop`), remembering its previous value, read
     * as `registry[name]` (so evaluated when the name is marked for
     * automatic evaluation), or None when there was none.
     */
    method ChangePropOp(registry: Registry, name: string, value: Value, eval: string -> Value) returns (c: Command)
      modifies this, registry
      ensures c == ChangeProp(registry, name,
        if name in old(registry.values) then old(registry.Lookup(name, eval)).value else VNone, value)
      ensures registry.values == old(registry.values)[name := value]
      ensures undoStack == old(undoStack) + [c] && redoStack == []
    {
      var oldValue := if name in registry.values then registry.Lookup(name, eval).value else VNone;
      c := ChangeProp(registry, name, oldValue, value);
      var _ := Perform(c, eval);
    }

    /** Rename a property (`change_prop_name`); a KeyError, recording nothing, when it is absent. */
    method ChangePropNameOp(registry: Registry, oldName: string, newName: string, eval: string -> Value)
      returns (r: Result<Unit>)
      modifies this, registry
      ensures Applied(ChangePropName(registry, oldName, newName), false, eval, r)
      ensures r.Ok? <==> oldName in old(registry.values)
      ensures r.Ok? ==> undoStack == old(undoStack) + [ChangePropName(registry, oldName, newName)] && redoStack == []
      ensures r.Err? ==> undoStack == old(undoStack) && redoStack == old(redoStack)
    {
      r := Perform(ChangePropName(registry, oldName, newName), eval);
    }

    /**
     * Delete a property (`del_prop`), remembering `registry[name]`; a
     * KeyError, changing and recording nothing, when it is absent.
     */
    method DelPropOp(registry: Registry, name: string, eval: string -> Value) returns (r: Result<Command>)
      modifies this, registry
      ensures r.Ok? <==> name in old(registry.values)
      ensures r.Err? ==> r.error == KeyError && unchanged(this, registry)
      ensures r.Ok? ==> r.value == DelProp(registry, name, old(registry.Lookup(name, eval)).value)
      ensures r.Ok? ==> registry.values == old(registry.values) - {name}
      ensures r.Ok? ==> undoStack == old(undoStack) + [r.value] && redoStack == []
    {
      var oldValue := registry.Lookup(name, eval);
      if oldValue.Err? {
        return Err(KeyError);
      }
      var c := DelProp(registry, name, oldValue.value);
      var _ := Perform(c, eval);
      r := Ok(c);
    }

    /** Add (or overwrite) a property (`add_prop`). */
    method AddPropOp(registry: Registry, name: string, value: Value, eval: string -> Value)
      modifies this, registry
      ensures registry.values == old(registry.values)[name := value]
      ensures undoStack == old(undoStack) + [AddProp(registry, name, value)] && redoStack == []
    {
      var _ := Perform(AddProp(registry, name, value), eval);
    }

    /**
     * Add a program (`add_prog`): a fresh program is put in the table and
     * remembered, so that redoing puts back that very program.
     */
    method AddProgOp(table: ProgramTable, name: string, delay: Value, given: map<string, Value>)
      returns (c: Command)
      requires SchemaHasDefaults(table.schema)
      modifies this, table`programs
      ensures c.AddProg? && c.table == table && c.name == name && fresh(c.prog)
      ensures c.prog.timeLaw == delay && c.prog.transform == SchemaDefaults(table.schema) + given
      ensures table.programs == old(table.programs)[name := c.prog]
      ensures undoStack == old(undoStack) + [c] && redoStack == []
    {
      var prog := table.AddProgram(name, delay, given, []);
      c := AddProg(table, name, prog);
      AddCmd(c);
    }

    /** Delete a program (`del_prog`), remembering it; a KeyError, recording nothing, when absent. */
    method DelProgOp(table: ProgramTable, name: string) returns (r: Result<Command>)
      modifies this, table
      ensures r.Ok? <==> name in old(table.programs)
      ensures r.Err? ==> r.error == KeyError && unchanged(this, table)
      ensures r.Ok? ==> r.value == DelProg(table, name, old(table.programs)[name])
      ensures r.Ok? ==> table.programs == old(table.programs) - {name}
      ensures r.Ok? ==> undoStack == old(undoStack) + [r.value] && redoStack == []
    {
      var prog := table.Lookup(name);
      if prog.Err? {
        return Err(KeyError);
      }
      var c := DelProg(table, name, prog.value);
      var _ := Perform(c, (s: string) => VNone);
      r := Ok(c);
    }

    /** Change the time law of a program (`change_prog_time`), remembering the previous one. */
    method ChangeProgTimeOp(prog: Program, time: Value) returns (c: Command)
      modifies this, prog`timeLaw
      ensures c == ChangeProgTime(prog, time, old(prog.timeLaw))
      ensures prog.timeLaw == time
      ensures undoStack == old(undoStack) + [c] && redoStack == []
    {
      c := ChangeProgTime(prog, time, prog.timeLaw);
      prog.timeLaw := time;
      AddCmd(c);
    }

    /** Rename a program (`change_prog_name`); a KeyError, recording nothing, when absent. */
    method ChangeProgNameOp(table: ProgramTable, oldName: string, newName: string) returns (r: Result<Unit>)
      modifies this, table
      ensures Applied(ChangeProgName(table, oldName, newName), false, (s: string) => VNone, r)
      ensures r.Ok? <==> oldName in old(table.programs)
      ensures r.Ok? ==> undoStack == old(undoStack) + [ChangeProgName(table, oldName, newName)] && redoStack == []
      ensures r.Err? ==> undoStack == old(undoStack) && redoStack == old(redoStack)
    {
      r := Perform(ChangeProgName(table, oldName, newName), (s: string) => VNone);
    }

    /** Store a setup delay (`add_setup`). */
    method AddSetupOp(matrix: SetupMatrix, initial: string, final: string, time: Value)
      modifies this, matrix
      ensures matrix.destProg == AfterAdd(old(matrix.destProg), initial, final, time)
      ensures matrix.Pairs() == old(matrix.Pairs())[(initial, final) := time]
      ensures undoStack == old(undoStack) + [AddSetup(matrix, Setting(initial, final, time))] && redoStack == []
    {
      FlattenAdd(matrix.destProg, initial, final, time);
      var _ := Perform(AddSetup(matrix, Setting(initial, final, time)), (s: string) => VNone);
    }

    /**
     * Remove a setup delay (`del_setup`), remembering `get(initial, final)`
     * (evaluated, and 0 from a program to itself); a KeyError, recording
     * nothing, when it is not stored.
     */
    method DelSetupOp(matrix: SetupMatrix, initial: string, final: string, eval: string -> Value)
      returns (r: Result<Unit>)
      modifies this, matrix
      ensures Applied(DelSetup(matrix, Setting(initial, final, old(matrix.Get(initial, final, eval)))), false, eval, r)
      ensures r.Ok? <==> (initial, final) in old(matrix.Pairs())
      ensures r.Ok? ==> undoStack == old(undoStack) + [DelSetup(matrix, Setting(initial, final, old(matrix.Get(initial, final, eval))))]
      ensures r.Ok? ==> redoStack == []
      ensures r.Err? ==> undoStack == old(undoStack) && redoStack == old(redoStack)
    {
      assert (initial, final) in matrix.Pairs() <==> final in matrix.destProg && initial in matrix.destProg[final];
      var time := matrix.Get(initial, final, eval);
      r := Perform(DelSetup(matrix, Setting(initial, final, time)), eval);
    }

    /**
     * Change a setup delay (`change_setup`): the previous setting is
     * (initial, final, get(initial, final)); the new one takes each given
     * value, and the previous one for each missing or falsy one ("" and
     * VNone stand for a value not given); the change is `modify` from the
     * previous key to the new setting.
     */
    method ChangeSetupOp(matrix: SetupMatrix, initial: string, final: string,
                         newInitial: string, newFinal: string, newTime: Value, eval: string -> Value)
      returns (r: Result<Unit>, c: Command)
      modifies this, matrix
      ensures c == ChangeSetup(matrix, Setting(initial, final, old(matrix.Get(initial, final, eval))),
        Setting(OrName(newInitial, initial), OrName(newFinal, final), Or(newTime, old(matrix.Get(initial, final, eval)))))
      ensures Applied(c, false, eval, r)
      ensures r.Ok? ==> undoStack == old(undoStack) + [c] && redoStack == []
      ensures r.Err? ==> undoStack == old(undoStack) && redoStack == old(redoStack)
    {
      var time := matrix.Get(initial, final, eval);
      c := ChangeSetup(matrix, Setting(initial, final, time),
                       Setting(OrName(newInitial, initial), OrName(newFinal, final), Or(newTime, time)));
      r := Perform(c, eval);
    }
  }

  /**
   * Adding a new property and undoing it gives back the registry; redoing
   * then gives back what adding produced.
   */
  lemma AddPropRoundTrip(reg: Registry, values: map<string, Value>, autoEval: set<string>,
                         eval: string -> Value, name: string, value: Value)
    requires name !in values
    ensures var c := AddProp(reg, name, value);
      var done := RegistryEffect(c, false, values, autoEval, eval);
      var undone := RegistryEffect(c, true, done.after, autoEval, eval);
      done.status.Ok? && undone == Outcome(values, Ok(Unit)) &&
      RegistryEffect(c, false, undone.after, autoEval, eval) == done
  {
    assert values[name := value] - {name} == values;
  }

  /**
   * Undoing the addition of a property that already existed deletes it:
   * its previous value is lost.
   */
  lemma AddPropOverExistingLoses(reg: Registry, values: map<string, Value>, autoEval: set<string>,
                                 eval: string -> Value, name: string, value: Value)
    requires name in values
    ensures var c := AddProp(reg, name, value);
      var undone := RegistryEffect(c, true, RegistryEffect(c, false, values, autoEval, eval).after, autoEval, eval);
      undone.status.Ok? && name !in undone.after
  {
  }

  /**
   * Deleting a property (remembering `registry[name]`) and undoing the
   * deletion gives back the registry when the property is not evaluated
   * automatically; redoing deletes it again.
   */
  lemma DelPropRoundTrip(reg: Registry, values: map<string, Value>, autoEval: set<string>,
                         eval: string -> Value, name: string)
    requires name in values && name !in autoEval
    ensures var c := DelProp(reg, name, values[name]);
      var done := RegistryEffect(c, false, values, autoEval, eval);
      var undone := RegistryEffect(c, true, done.after, autoEval, eval);
      done.status.Ok? && undone == Outcome(values, Ok(Unit)) &&
      RegistryEffect(c, false, undone.after, autoEval, eval) == done
  {
    assert (values - {name})[name := values[name]] == values;
  }

  /**
   * For a property evaluated automatically, the value remembered is the
   * evaluated one, so undoing a deletion puts back the value of the
   * expression instead of the expression.
   */
  lemma DelPropAutoEvalRestoresValue(reg: Registry, values: map<string, Value>, autoEval: set<string>,
                                     eval: string -> Value, name: string, e: string)
    requires name in values && name in autoEval && values[name] == VStr(e)
    ensures var c := DelProp(reg, name, EvalExpression(values[name], eval));
      var undone := RegistryEffect(c, true, RegistryEffect(c, false, values, autoEval, eval).after, autoEval, eval);
      undone.status.Ok? && undone.after == values[name := eval(e)]
  {
    assert (values - {name})[name := eval(e)] == values[name := eval(e)];
  }

  /**
   * Changing a property and undoing the change gives back the registry
   * when the property existed and is not evaluated automatically; when it
   * did not exist, undoing leaves it set to None rather than deleted.
   * Redoing always gives back the changed registry.
   */
  lemma ChangePropRoundTrip(reg: Registry, values: map<string, Value>, autoEval: set<string>,
                            eval: string -> Value, name: string, value: Value)
    ensures var oldValue := if name in values then
                              (if name in autoEval then EvalExpression(values[name], eval) else values[name])
                            else VNone;
      var c := ChangeProp(reg, name, oldValue, value);
      var done := RegistryEffect(c, false, values, autoEval, eval);
      var undone := RegistryEffect(c, true, done.after, autoEval, eval);
      done.status.Ok? && undone.status.Ok? &&
      (name in values && name !in autoEval ==> undone.after == values) &&
      (name !in values ==> undone.after == values[name := VNone] && undone.after != values) &&
      RegistryEffect(c, false, undone.after, autoEval, eval) == done
  {
    var oldValue := if name in values then
                      (if name in autoEval then EvalExpression(values[name], eval) else values[name])
                    else VNone;
    assert values[name := value][name := oldValue][name := value] == values[name := value];
    if name in values && name !in autoEval {
      assert values[name := value][name := values[name]] == values;
    }
    if name !in values {
      assert name in values[name := VNone];
    }
  }

  /**
   * Renaming a property to a fresh name and undoing the rename gives back
   * the registry, when neither name is evaluated automatically; redoing
   * gives back the renamed registry.
   */
  lemma ChangePropNameRoundTrip(reg: Registry, values: map<string, Value>, autoEval: set<string>,
                                eval: string -> Value, oldName: string, newName: string)
    requires oldName in values && newName !in values && oldName != newName
    requires oldName !in autoEval && newName !in autoEval
    ensures var c := ChangePropName(reg, oldName, newName);
      var done := RegistryEffect(c, false, values, autoEval, eval);
      var undone := RegistryEffect(c, true, done.after, autoEval, eval);
      done.status.Ok? && undone == Outcome(values, Ok(Unit)) &&
      RegistryEffect(c, false, undone.after, autoEval, eval) == done
  {
    var done := (values - {oldName})[newName := values[oldName]];
    assert (done - {newName})[oldName := values[oldName]] == values;
  }

  /**
   * Renaming a property onto an existing one overwrites it: after the
   * rename is undone, the overwritten property is gone.
   */
  lemma ChangePropNameOverwrites(reg: Registry, values: map<string, Value>, autoEval: set<string>,
                                 eval: string -> Value, oldName: string, newName: string)
    requires oldName in values && newName in values && oldName != newName
    ensures var c := ChangePropName(reg, oldName, newName);
      var undone := RegistryEffect(c, true, RegistryEffect(c, false, values, autoEval, eval).after, autoEval, eval);
      undone.status.Ok? && newName !in undone.after
  {
  }

  /**
   * Adding a program under a new name and undoing it gives back the
   * table; redoing puts back the same program object.
   */
  lemma AddProgRoundTrip(table: ProgramTable, programs: map<string, Program>, name: string, prog: Program)
    requires name !in programs
    ensures var c := AddProg(table, name, prog);
      var done := TableEffect(c, false, programs);
      var undone := TableEffect(c, true, done.after);
      done.status.Ok? && undone == Outcome(programs, Ok(Unit)) &&
      TableEffect(c, false, undone.after) == done && done.after[name] == prog
  {
    assert programs[name := prog] - {name} == programs;
  }

  /** Deleting a program and undoing the deletion gives back the table; redoing deletes it again. */
  lemma DelProgRoundTrip(table: ProgramTable, programs: map<string, Program>, name: string)
    requires name in programs
    ensures var c := DelProg(table, name, programs[name]);
      var done := TableEffect(c, false, programs);
      var undone := TableEffect(c, true, done.after);
      done.status.Ok? && undone == Outcome(programs, Ok(Unit)) &&
      TableEffect(c, false, undone.after) == done
  {
    assert (programs - {name})[name := programs[name]] == programs;
  }

  /** Renaming a program to a fresh name and undoing the rename gives back the table. */
  lemma ChangeProgNameRoundTrip(table: ProgramTable, programs: map<string, Program>, oldName: string, newName: string)
    requires oldName in programs && newName !in programs && oldName != newName
    ensures var c := ChangeProgName(table, oldName, newName);
      var done := TableEffect(c, false, programs);
      var undone := TableEffect(c, true, done.after);
      done.status.Ok? && undone == Outcome(programs, Ok(Unit)) &&
      TableEffect(c, false, undone.after) == done
  {
    var done := (programs - {oldName})[newName := programs[oldName]];
    assert (done - {newName})[oldName := programs[oldName]] == programs;
  }

  /**
   * Adding a setup delay to a final program with no column yet, then
   * undoing it, gives back the stored delays (an empty column stays).
   */
  lemma {:induction false} AddSetupRoundTrip(matrix: SetupMatrix, m: map<string, Column>, s: Setting)
    requires s.final !in m
    ensures var c := AddSetup(matrix, s);
      var done := MatrixEffect(c, false, m);
      var undone := MatrixEffect(c, true, done.after);
      undone.status.Ok? && Flatten(undone.after) == Flatten(m) &&
      Flatten(MatrixEffect(c, false, undone.after).after) == Flatten(done.after)
  {
    var a := AfterAdd(m, s.initial, s.final, s.time);
    assert a[s.final].Keys == {s.initial};
    FlattenAdd(m, s.initial, s.final, s.time);
    FlattenRemoveLast(a, s.initial, s.final);
    var u := AfterRemove(a, s.initial, s.final);
    FlattenAdd(u, s.initial, s.final, s.time);
    assert (s.initial, s.final) !in Flatten(m) by {
      assert (s.initial, s.final) !in PairKeys(m);
    }
    assert Flatten(m)[(s.initial, s.final) := s.time] - {(s.initial, s.final)} == Flatten(m);
  }

  /**
   * Undoing the addition of a setup delay to a column that holds another
   * one removes the whole column: every other delay to the same final
   * program is lost.
   */
  lemma {:induction false} AddSetupUndoDropsColumn(matrix: SetupMatrix, m: map<string, Column>, s: Setting, j: string)
    requires s.final in m && j in m[s.final] && j != s.initial
    ensures (j, s.final) in Flatten(m)
    ensures var c := AddSetup(matrix, s);
      var undone := MatrixEffect(c, true, MatrixEffect(c, false, m).after);
      undone.status.Ok? && (j, s.final) !in Flatten(undone.after)
  {
    assert (j, s.final) in PairKeys(m);
    var a := AfterAdd(m, s.initial, s.final, s.time);
    assert j in a[s.final] - {s.initial};
    assert AfterRemove(a, s.initial, s.final) == a - {s.final};
  }

  /**
   * Deleting the only delay of a column, between two different programs,
   * and undoing the deletion gives back the stored delays when the delay
   * is a value rather than an expression: the remembered delay is the
   * evaluated `get`.
   */
  lemma {:induction false} DelSetupRoundTrip(matrix: SetupMatrix, m: map<string, Column>, i: string, f: string,
                                             eval: string -> Value)
    requires f in m && m[f].Keys == {i} && i != f
    ensures var c := DelSetup(matrix, Setting(i, f, EvalExpression(m[f][i], eval)));
      var done := MatrixEffect(c, false, m);
      var undone := MatrixEffect(c, true, done.after);
      done.status.Ok? && undone.status.Ok? &&
      (!m[f][i].VStr? ==> Flatten(undone.after) == Flatten(m))
  {
    FlattenRemoveLast(m, i, f);
    var d := AfterRemove(m, i, f);
    FlattenAdd(d, i, f, EvalExpression(m[f][i], eval));
    assert (i, f) in PairKeys(m);
    if !m[f][i].VStr? {
      assert (Flatten(m) - {(i, f)})[(i, f) := m[f][i]] == Flatten(m);
    }
  }

  /**
   * Changing only the delay of a stored transition, to a truthy one, and
   * undoing the change gives back the stored delays when the previous
   * delay is a truthy value.
   */
  lemma {:induction false} ChangeSetupTimeRoundTrip(matrix: SetupMatrix, m: map<string, Column>, i: string, f: string,
                                                    t: Value)
    requires f in m && i in m[f] && Truthy(t) && Truthy(m[f][i])
    ensures var c := ChangeSetup(matrix, Setting(i, f, m[f][i]), Setting(i, f, t));
      var done := MatrixEffect(c, false, m);
      var undone := MatrixEffect(c, true, done.after);
      done.status.Ok? && undone.status.Ok? && Flatten(undone.after) == Flatten(m)
  {
    assert !Rekeys(i, f, i, f);
    var d := m[f := m[f][i := t]];
    assert d[f][i := m[f][i]] == m[f];
    assert d[f := d[f][i := m[f][i]]] == m;
  }

  /**
   * A change away from a falsy delay (0, say) cannot be undone: undoing
   * writes the previous delay only when it is truthy, so the new delay
   * stays.
   */
  lemma {:induction false} ChangeSetupFromFalsyStays(matrix: SetupMatrix, m: map<string, Column>, i: string, f: string,
                                                     t: Value)
    requires f in m && i in m[f] && Truthy(t) && !Truthy(m[f][i])
    ensures var c := ChangeSetup(matrix, Setting(i, f, m[f][i]), Setting(i, f, t));
      var done := MatrixEffect(c, false, m);
      var undone := MatrixEffect(c, true, done.after);
      undone == Outcome(done.after, Ok(Unit)) && done.after[f][i] == t && t != m[f][i]
  {
    assert !Rekeys(i, f, i, f);
  }

  /** Undoing and then redoing the last command gives back both stacks. */
  method UndoThenRedo(m: CommandManager, eval: string -> Value) returns (undone: Result<Unit>, redone: Result<Unit>)
    requires m.CanUndo()
    modifies m, Target(m.undoStack[|m.undoStack| - 1])
    ensures undone.Ok? && redone.Ok? ==> m.undoStack == old(m.undoStack) && m.redoStack == old(m.redoStack)
    ensures undone.Ok? ==> redone != Err(IndexError)
  {
    var c := m.undoStack[|m.undoStack| - 1];
    undone := m.Undo(eval);
    if undone.Ok? {
      assert m.redoStack[|m.redoStack| - 1] == c;
      redone := m.Redo(eval);
      assert old(m.undoStack) == old(m.undoStack)[..|old(m.undoStack)| - 1] + [c];
    } else {
      redone := Err(IndexError);
    }
  }

  /** Changing a program's time law and undoing the change restores the old time law. */
  method ChangeProgTimeThenUndo(m: CommandManager, prog: Program, time: Value) returns (undone: Result<Unit>)
    modifies m, prog
    ensures undone == Ok(Unit) && prog.timeLaw == old(prog.timeLaw)
    ensures m.undoStack == old(m.undoStack) && m.redoStack == [ChangeProgTime(prog, time, old(prog.timeLaw))]
  {
    var c := m.ChangeProgTimeOp(prog, time);
    undone := m.Undo((s: string) => VNone);
    assert m.undoStack == old(m.undoStack);
  }

  /**
   * Adding a program under a new name and undoing it leaves the table as
   * it was; redoing puts back the very program object that was created.
   */
  method AddProgThenUndoRedo(m: CommandManager, table: ProgramTable, name: string, delay: Value)
    returns (prog: Program, undone: Result<Unit>, redone: Result<Unit>)
    requires SchemaHasDefaults(table.schema) && name !in table.programs
    modifies m, table
    ensures undone == Ok(Unit) && redone == Ok(Unit)
    ensures fresh(prog) && prog.timeLaw == delay
    ensures table.programs == old(table.programs)[name := prog]
  {
    var c := m.AddProgOp(table, name, delay, map[]);
    prog := c.prog;
    AddProgRoundTrip(table, old(table.programs), name, prog);
    var eval := (s: string) => VNone;
    undone := m.Undo(eval);
    assert table.programs == old(table.programs);
    redone := m.Redo(eval);
  }
}
