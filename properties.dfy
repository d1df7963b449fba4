/**
 * Property values, display descriptors and the property Registry of
 * emulica's properties module.
 *
 * A Registry is a dictionary of named property values. Reading a property
 * through `Lookup` returns its raw value unless the name has been marked
 * for automatic evaluation; adding a property with a display also appends
 * its name to the ordered list used to present properties.
 *
 * Python's `eval` of expression strings is not modelled: it is the
 * uninterpreted parameter `eval` of every operation that may evaluate.
 */
module Properties {
  import opened Errors

  /** A property value: the Python values the kernel stores in a Registry. */
  datatype Value =
    | VNone
    | VBool(b: bool)
    | VNum(n: real)                   // Python int and float alike
    | VStr(s: string)                 // plain string or evaluable expression
    | VList(items: seq<Value>)
    | VDict(entries: map<string, Value>) // a dict-like change table
    | VModule(name: string)           // a reference to a module
    | VPosDict(byPosition: map<real, Value>) // a dict keyed by holder positions

  /** Python truthiness of a value. */
  predicate Truthy(v: Value)
  {
    match v
    case VNone => false
    case VBool(b) => b
    case VNum(n) => n != 0.0
    case VStr(s) => s != ""
    case VList(items) => items != []
    case VDict(entries) => entries != map[]
    case VModule(_) => true
    case VPosDict(byPosition) => byPosition != map[]
  }

  /** Python's `a or b`: the first operand when it is truthy, else the second. */
  function Or(a: Value, b: Value): (r: Value)
    ensures Truthy(a) ==> r == a
    ensures !Truthy(a) ==> r == b
  {
    if Truthy(a) then a else b
  }

  /**
   * Evaluate an expression: a string is handed to the evaluator, every
   * other value is returned as it is.
   */
  function EvalExpression(expr: Value, eval: string -> Value): (r: Value)
    ensures !expr.VStr? ==> r == expr
    ensures expr.VStr? ==> r == eval(expr.s)
  {
    match expr
    case VStr(s) => eval(s)
    case _ => expr
  }

  /** The kinds of display a property can have. */
  datatype DisplayType =
    | Reference | StringValue | BoolValue | IntValue | FloatValue
    | ReferenceList | ProgramTable | Setup | Evaluable | PhysicalPropertiesList

  /** The integer constant the source uses for each display type. */
  function Code(t: DisplayType): (c: int)
    ensures 1 <= c <= 10
  {
    match t
    case Reference => 1
    case StringValue => 2
    case BoolValue => 3
    case IntValue => 4
    case FloatValue => 5
    case ReferenceList => 6
    case ProgramTable => 7
    case Setup => 8
    case Evaluable => 9
    case PhysicalPropertiesList => 10
  }

  /** The display type a constant designates, if any. */
  function FromCode(c: int): (r: Option<DisplayType>)
    ensures r.Some? <==> 1 <= c <= 10
  {
    if c == 1 then Some(Reference)
    else if c == 2 then Some(StringValue)
    else if c == 3 then Some(BoolValue)
    else if c == 4 then Some(IntValue)
    else if c == 5 then Some(FloatValue)
    else if c == 6 then Some(ReferenceList)
    else if c == 7 then Some(ProgramTable)
    else if c == 8 then Some(Setup)
    else if c == 9 then Some(Evaluable)
    else if c == 10 then Some(PhysicalPropertiesList)
    else None
  }

  /** The constants identify the display types one to one. */
  lemma CodeRoundTrip(t: DisplayType, c: int)
    ensures FromCode(Code(t)) == Some(t)
    ensures FromCode(c).Some? ==> Code(FromCode(c).value) == c
  {
  }

  /**
   * The value a new property of display type `t` receives when none is
   * given. Program tables and setup matrices are objects, not values: they
   * have no default here.
   */
  function DefaultValue(t: DisplayType): (r: Option<Value>)
    ensures r.None? <==> t == ProgramTable || t == Setup
    ensures r.Some? ==> !Truthy(r.value)
    ensures t == PhysicalPropertiesList ==> r == Some(VDict(map[]))
  {
    match t
    case Reference => Some(VNone)
    case StringValue => Some(VStr(""))
    case BoolValue => Some(VBool(false))
    case IntValue => Some(VNum(0.0))
    case FloatValue => Some(VNum(0.0))
    case ReferenceList => Some(VList([]))
    case ProgramTable => None
    case Setup => None
    case Evaluable => Some(VStr(""))
    case PhysicalPropertiesList => Some(VDict(map[]))
  }

  /** Display information of a property. */
  datatype Display = Display(kind: DisplayType, name: string, lower: real, upper: real)

  /** A display built with the constructor's default bounds. */
  function NewDisplay(kind: DisplayType, name: string): (d: Display)
    ensures d.kind == kind && d.name == name
    ensures d.lower == 0.0 && d.upper == 2000000.0
  {
    Display(kind, name, 0.0, 2000000.0)
  }

  /** Whether the display is the integer one. */
  function IsInt(d: Display): (r: bool)
    ensures r <==> Code(d.kind) == 4
  {
    d.kind == IntValue
  }

  class Registry {
    var values: map<string, Value>
    var autoEval: set<string>
    var displays: map<string, Display>
    var orderedDisplay: seq<string>

    constructor ()
      ensures values == map[] && autoEval == {}
      ensures displays == map[] && orderedDisplay == []
    {
      values := map[];
      autoEval := {};
      displays := map[];
      orderedDisplay := [];
    }

    /** The raw value of a property (`get`); KeyError when it is absent. */
    function Get(name: string): (r: Result<Value>)
      reads this
      ensures r.Ok? <==> name in values
      ensures r.Ok? ==> r.value == values[name]
      ensures r.Err? ==> r.error == KeyError
    {
      if name in values then Ok(values[name]) else Err(KeyError)
    }

    /** The evaluated value of a property (`evaluate`). */
    function Evaluate(name: string, eval: string -> Value): (r: Result<Value>)
      reads this
      ensures r.Ok? <==> name in values
      ensures r.Ok? ==> r.value == EvalExpression(values[name], eval)
    {
      match Get(name)
      case Ok(v) => Ok(EvalExpression(v, eval))
      case Err(e) => Err(e)
    }

    /**
     * Item access `registry[name]`: the evaluated value when the name is
     * marked for automatic evaluation, the raw value otherwise.
     */
    function Lookup(name: string, eval: string -> Value): (r: Result<Value>)
      reads this
      ensures r.Ok? <==> name in values
      ensures name in values && name !in autoEval ==> r.value == values[name]
      ensures name in values && name in autoEval ==>
        r.value == EvalExpression(values[name], eval)
    {
      if name in autoEval then Evaluate(name, eval) else Get(name)
    }

    /** Item assignment `registry[name] = value`. */
    method SetItem(name: string, value: Value)
      modifies this
      ensures values == old(values)[name := value]
      ensures autoEval == old(autoEval) && displays == old(displays)
      ensures orderedDisplay == old(orderedDisplay)
    {
      values := values[name := value];
    }

    /** Item deletion `del registry[name]`: only the value goes. */
    method DelItem(name: string) returns (r: Result<Unit>)
      modifies this
      ensures r == if name in old(values) then Ok(Unit) else Err(KeyError)
      ensures values == old(values) - {name}
      ensures autoEval == old(autoEval) && displays == old(displays)
      ensures orderedDisplay == old(orderedDisplay)
    {
      if name !in values {
        return Err(KeyError);
      }
      values := values - {name};
      r := Ok(Unit);
    }

    /**
     * Mark (`on`) or unmark a property for automatic evaluation; unmarking
     * a name that is not marked is a KeyError.
     */
    method SetAutoEval(name: string, on: bool) returns (r: Result<Unit>)
      modifies this
      ensures r.Err? <==> !on && name !in old(autoEval)
      ensures r.Err? ==> r.error == KeyError
      ensures autoEval == if on then old(autoEval) + {name} else old(autoEval) - {name}
      ensures values == old(values) && displays == old(displays)
      ensures orderedDisplay == old(orderedDisplay)
    {
      if on {
        autoEval := autoEval + {name};
      } else if name in autoEval {
        autoEval := autoEval - {name};
      } else {
        return Err(KeyError);
      }
      r := Ok(Unit);
    }

    /**
     * Add a property with a display. A None value is replaced by the
     * display type's default, an empty display name by the property name;
     * the name is appended to the display order every time.
     */
    method AddWithDisplay(name: string, kind: DisplayType, value: Value, displayName: string)
      requires value.VNone? ==> DefaultValue(kind).Some?
      modifies this
      ensures values == old(values)[name := if value.VNone? then DefaultValue(kind).value else value]
      ensures displays == old(displays)[name := NewDisplay(kind, if displayName == "" then name else displayName)]
      ensures orderedDisplay == old(orderedDisplay) + [name]
      ensures autoEval == old(autoEval)
    {
      var v := if value.VNone? then DefaultValue(kind).value else value;
      var dn := if displayName == "" then name else displayName;
      SetItem(name, v);
      orderedDisplay := orderedDisplay + [name];
      displays := displays[name := NewDisplay(kind, dn)];
    }

    /**
     * Set the display of a property. The membership test of the source
     * compares the Display object with the list of names, so it never
     * holds and the name is appended every time.
     */
    method SetDisplay(name: string, display: Display)
      modifies this
      ensures displays == old(displays)[name := display]
      ensures orderedDisplay == old(orderedDisplay) + [name]
      ensures values == old(values) && autoEval == old(autoEval)
    {
      displays := displays[name := display];
      orderedDisplay := orderedDisplay + [name];
    }

    /** The display of a property; KeyError when it has none. */
    function GetDisplay(name: string): (r: Result<Display>)
      reads this
      ensures r.Ok? <==> name in displays
      ensures r.Ok? ==> r.value == displays[name]
    {
      if name in displays then Ok(displays[name]) else Err(KeyError)
    }

    /** Every displayed name still has a value and a display. */
    predicate DisplaysResolvable()
      reads this
    {
      forall i :: 0 <= i < |orderedDisplay| ==>
        orderedDisplay[i] in values && orderedDisplay[i] in displays
    }

    /**
     * The (name, value, display) triples of the displayed properties, in
     * display order, values read through item access. A name whose value
     * or display was deleted makes it fail with KeyError.
     */
    method Displayables(eval: string -> Value) returns (r: Result<seq<(string, Value, Display)>>)
      ensures r.Ok? <==> DisplaysResolvable()
      ensures r.Err? ==> r.error == KeyError
      ensures r.Ok? ==> |r.value| == |orderedDisplay|
      ensures r.Ok? ==> forall i :: 0 <= i < |orderedDisplay| ==>
        r.value[i] == (orderedDisplay[i], Lookup(orderedDisplay[i], eval).value, displays[orderedDisplay[i]])
    {
      var acc: seq<(string, Value, Display)> := [];
      var i := 0;
      while i < |orderedDisplay|
        invariant 0 <= i <= |orderedDisplay|
        invariant |acc| == i
        invariant forall j :: 0 <= j < i ==>
          orderedDisplay[j] in values && orderedDisplay[j] in displays &&
          acc[j] == (orderedDisplay[j], Lookup(orderedDisplay[j], eval).value, displays[orderedDisplay[j]])
      {
        var name := orderedDisplay[i];
        var v := Lookup(name, eval);
        if v.Err? || name !in displays {
          return Err(KeyError);
        }
        acc := acc + [(name, v.value, displays[name])];
        i := i + 1;
      }
      r := Ok(acc);
    }
  }
}
