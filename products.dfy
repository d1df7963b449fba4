/**
 * Products of the emulation kernel and the product registry of the root
 * model.
 *
 * A product is identified by a pid that is unique in its model, keeps
 * append-only histories of where it went, what was done to it and what
 * was assembled into it, and may hold component products under integer
 * keys. The root model hands out pids from a counter that starts at 1.
 */
module Products {
  import opened Errors
  import opened Namespace

  /** A move recorded in the space history: (date, place). */
  type SpaceRecord = (real, string)
  /** A transformation recorded in the shape history: (start, end, actuator, program). */
  type ShapeRecord = (real, real, string, string)
  /** An assembly recorded in the composition history: (date, actuator, component pid). */
  type CompositionRecord = (real, string, int)

  /** `n` copies of `e`. */
  function Repeat<T>(e: T, n: nat): (r: seq<T>)
    ensures |r| == n
    ensures forall k :: 0 <= k < n ==> r[k] == e
  {
    if n == 0 then [] else Repeat(e, n - 1) + [e]
  }

  /** Appending one more copy to a history that ends in n copies gives n + 1. */
  lemma AppendRepeat<T>(h: seq<T>, e: T, n: nat)
    ensures h + Repeat(e, n) + [e] == h + Repeat(e, n + 1)
  {
    assert Repeat(e, n + 1) == Repeat(e, n) + [e];
  }

  /** One copy in front of n copies is n + 1 copies. */
  lemma RepeatCons<T>(e: T, n: nat)
    ensures [e] + Repeat(e, n) == Repeat(e, n + 1)
  {
    assert ([e] + Repeat(e, n))[1..] == Repeat(e, n);
  }

  /**
   * The largest key, or -1 when every key is below -1 or there is none
   * (the search for the last component starts from -1).
   */
  ghost function MaxKey(keys: set<int>): (m: int)
    ensures m >= -1
    ensures m == -1 || m in keys
    ensures forall k :: k in keys ==> k <= m
  {
    if keys == {} then -1
    else
      NonEmpty(keys);
      var x :| x in keys;
      var rest := MaxKey(keys - {x});
      assert forall k :: k in keys ==> k == x || k in keys - {x};
      if x > rest then x else rest
  }

  /** The number of keys among `done` under which `m` holds `q`. */
  ghost function KeyCount<T>(m: map<int, T>, done: set<int>, q: T): nat
  {
    |set k | k in m && k in done && m[k] == q|
  }

  /** Counting one more key adds one exactly when it holds `q`. */
  lemma KeyCountStep<T>(m: map<int, T>, done: set<int>, k: int, q: T)
    requires k in m && k !in done
    ensures KeyCount(m, done + {k}, q) == KeyCount(m, done, q) + (if m[k] == q then 1 else 0)
  {
    var before := set j | j in m && j in done && m[j] == q;
    var after := set j | j in m && j in done + {k} && m[j] == q;
    if m[k] == q {
      assert after == before + {k};
    } else {
      assert after == before;
    }
  }

  /**
   * How many records a call on `p` (with components `comps`) has appended
   * to `q`'s history once the keys `done` are handled: one when `q` is
   * `p`, plus one per handled key under which `q` is a component. With
   * every key handled, this is what the whole call appends.
   */
  ghost function Records(p: Product, comps: map<int, Product>, done: set<int>, q: Product): nat
  {
    (if q == p then 1 else 0) + KeyCount(comps, done, q)
  }

  class Product {
    var pid: int
    var productType: string
    var createTime: real
    var disposeTime: real
    var active: bool
    var components: map<int, Product>
    var spaceHistory: seq<SpaceRecord>
    var shapeHistory: seq<ShapeRecord>
    var compositionHistory: seq<CompositionRecord>

    constructor (pid: int, productType: string, createTime: real)
      ensures this.pid == pid && this.productType == productType
      ensures this.createTime == createTime && disposeTime == 0.0
      ensures active && components == map[]
      ensures spaceHistory == [] && shapeHistory == [] && compositionHistory == []
    {
      this.pid := pid;
      this.productType := productType;
      this.createTime := createTime;
      disposeTime := 0.0;
      active := true;
      components := map[];
      spaceHistory := [];
      shapeHistory := [];
      compositionHistory := [];
    }

    /** The products whose histories a record on this product extends. */
    function Recipients(): set<Product>
      reads this
    {
      {this} + components.Values
    }

    /**
     * Record a move (`record_position`): (now, space) is appended to the
     * space history of this product and of each of its direct components,
     * and no other history changes.
     */
    method RecordPosition(now: real, space: string)
      modifies ({this} + components.Values)`spaceHistory
      ensures forall q :: q in old(Recipients()) ==>
        q.spaceHistory == old(q.spaceHistory) + Repeat((now, space), Records(this, old(components), old(components).Keys, q))
    {
      var e := (now, space);
      ghost var R := Recipients();
      spaceHistory := spaceHistory + [e];
      label Own:
      PositionToComponents(e);
      forall q | q in R
        ensures q.spaceHistory == old(q.spaceHistory) + Repeat(e, Records(this, old(components), old(components).Keys, q))
      {
        if q == this {
          RepeatCons(e, KeyCount(old(components), old(components).Keys, q));
          assert old@Own(q.spaceHistory) == old(q.spaceHistory) + [e];
        } else {
          assert old@Own(q.spaceHistory) == old(q.spaceHistory);
        }
      }
    }

    /**
     * The loop of `record_position`: `e` is appended to the space
     * history of each component, once per key it is stored under.
     */
    method PositionToComponents(e: SpaceRecord)
      modifies components.Values`spaceHistory
      ensures forall q :: q in old(Recipients()) ==>
        q.spaceHistory == old(q.spaceHistory) + Repeat(e, KeyCount(old(components), old(components).Keys, q))
    {
      ghost var R := Recipients();
      ghost var comps := components;
      var keys := components.Keys;
      while keys != {}
        invariant keys <= comps.Keys
        invariant components == comps
        invariant forall q :: q in R ==>
          q.spaceHistory == old(q.spaceHistory) + Repeat(e, KeyCount(comps, comps.Keys - keys, q))
        decreases keys
      {
        NonEmpty(keys);
        var k :| k in keys;
        var child := components[k];
        ghost var done := comps.Keys - keys;
        label Step:
        child.spaceHistory := child.spaceHistory + [e];
        keys := keys - {k};
        assert comps.Keys - keys == done + {k};
        forall q | q in R
          ensures q.spaceHistory == old(q.spaceHistory) + Repeat(e, KeyCount(comps, done + {k}, q))
        {
          KeyCountStep(comps, done, k, q);
          if q == child {
            AppendRepeat(old(q.spaceHistory), e, KeyCount(comps, done, q));
            assert q.spaceHistory == old@Step(q.spaceHistory) + [e];
          } else {
            assert q.spaceHistory == old@Step(q.spaceHistory);
          }
        }
      }
      assert comps.Keys - keys == comps.Keys;
    }

    /**
     * Record a transformation (`record_transformation`): the entry is
     * appended to the shape history of this product and of each direct
     * component, and no other history changes.
     */
    method RecordTransformation(start: real, end: real, actuator: string, program: string)
      modifies ({this} + components.Values)`shapeHistory
      ensures forall q :: q in old(Recipients()) ==>
        q.shapeHistory == old(q.shapeHistory) + Repeat((start, end, actuator, program), Records(this, old(components), old(components).Keys, q))
    {
      var e := (start, end, actuator, program);
      ghost var R := Recipients();
      shapeHistory := shapeHistory + [e];
      label Own:
      TransformationToComponents(e);
      forall q | q in R
        ensures q.shapeHistory == old(q.shapeHistory) + Repeat(e, Records(this, old(components), old(components).Keys, q))
      {
        if q == this {
          RepeatCons(e, KeyCount(old(components), old(components).Keys, q));
          assert old@Own(q.shapeHistory) == old(q.shapeHistory) + [e];
        } else {
          assert old@Own(q.shapeHistory) == old(q.shapeHistory);
        }
      }
    }

    /**
     * The loop of `record_transformation`: `e` is appended to the shape
     * history of each component, once per key it is stored under.
     */
    method TransformationToComponents(e: ShapeRecord)
      modifies components.Values`shapeHistory
      ensures forall q :: q in old(Recipients()) ==>
        q.shapeHistory == old(q.shapeHistory) + Repeat(e, KeyCount(old(components), old(components).Keys, q))
    {
      ghost var R := Recipients();
      ghost var comps := components;
      var keys := components.Keys;
      while keys != {}
        invariant keys <= comps.Keys
        invariant components == comps
        invariant forall q :: q in R ==>
          q.shapeHistory == old(q.shapeHistory) + Repeat(e, KeyCount(comps, comps.Keys - keys, q))
        decreases keys
      {
        NonEmpty(keys);
        var k :| k in keys;
        var child := components[k];
        ghost var done := comps.Keys - keys;
        label Step:
        child.shapeHistory := child.shapeHistory + [e];
        keys := keys - {k};
        assert comps.Keys - keys == done + {k};
        forall q | q in R
          ensures q.shapeHistory == old(q.shapeHistory) + Repeat(e, KeyCount(comps, done + {k}, q))
        {
          KeyCountStep(comps, done, k, q);
          if q == child {
            AppendRepeat(old(q.shapeHistory), e, KeyCount(comps, done, q));
            assert q.shapeHistory == old@Step(q.shapeHistory) + [e];
          } else {
            assert q.shapeHistory == old@Step(q.shapeHistory);
          }
        }
      }
      assert comps.Keys - keys == comps.Keys;
    }

    /** Dispose the product (`dispose`): only the first call takes effect. */
    method Dispose(now: real)
      modifies this`active, this`disposeTime
      ensures !active
      ensures disposeTime == if old(active) then now else old(disposeTime)
    {
      if active {
        disposeTime := now;
        active := false;
      }
    }

    /**
     * Assemble a component into this product (`assemble`): the assembly
     * is recorded, and the component is stored under `key`, by default
     * the number of components.
     */
    method Assemble(now: real, component: Product, actuator: string, key: Option<int>)
      modifies this`compositionHistory, this`components
      ensures compositionHistory == old(compositionHistory) + [(now, actuator, component.pid)]
      ensures components == old(components)[(if key.Some? then key.value else |old(components)|) := component]
    {
      compositionHistory := compositionHistory + [(now, actuator, component.pid)];
      var k := if key.Some? then key.value else |components|;
      components := components[k := component];
    }

    /**
     * Take a component out (`disassemble`): the one under `key`, by
     * default the one under the largest key; a product with no
     * component returns itself; a missing key is a KeyError.
     */
    method Disassemble(key: Option<int>) returns (r: Result<Product>)
      modifies this`components
      ensures old(components) == map[] ==> r == Ok(this) && components == old(components)
      ensures old(components) != map[] ==>
        var k := if key.Some? then key.value else MaxKey(old(components).Keys);
        if k in old(components) then r == Ok(old(components)[k]) && components == old(components) - {k}
        else r == Err(KeyError) && components == old(components)
    {
      if |components| == 0 {
        return Ok(this);
      }
      var k: int;
      if key.Some? {
        k := key.value;
      } else {
        k := -1;
        var rest := components.Keys;
        assert components.Keys - rest == {};
        while rest != {}
          invariant rest <= components.Keys
          invariant components == old(components)
          invariant k == MaxKey(components.Keys - rest)
          decreases rest
        {
          NonEmpty(rest);
          var j :| j in rest;
          MaxKeyAdd(components.Keys - rest, j);
          assert components.Keys - (rest - {j}) == (components.Keys - rest) + {j};
          if j > k {
            k := j;
          }
          rest := rest - {j};
        }
        assert components.Keys - rest == components.Keys;
      }
      if k !in components {
        return Err(KeyError);
      }
      r := Ok(components[k]);
      components := components - {k};
    }
  }

  /** A non-empty set of keys has an element. */
  lemma NonEmpty(s: set<int>)
    requires s != {}
    ensures exists x :: x in s
  {
    if forall x :: x !in s {
      assert false;
    }
  }

  /** MaxKey does not depend on the order in which the keys are scanned. */
  lemma MaxKeyAdd(keys: set<int>, j: int)
    ensures MaxKey(keys + {j}) == if j > MaxKey(keys) then j else MaxKey(keys)
  {
    var a, b := MaxKey(keys + {j}), MaxKey(keys);
    assert b == -1 || b in keys + {j};
    assert a == -1 || a in keys + {j};
  }

  /**
   * Components assembled under the default keys come out last in, first
   * out: after assembling into a product whose keys are 0..n-1, the
   * default disassembly key is n and removing it gives back the keys
   * 0..n-1.
   */
  lemma AssembleDisassembleLifo(m: map<int, Product>, c: Product)
    requires forall i :: i in m <==> 0 <= i < |m|
    ensures MaxKey(m[|m| := c].Keys) == |m|
    ensures m[|m| := c][|m|] == c
    ensures m[|m| := c] - {|m|} == m
  {
    assert |m| !in m;
    var keys := m[|m| := c].Keys;
    assert |m| in keys;
    var top := MaxKey(keys);
    assert top <= |m|;
  }

  /**
   * Why 'main' is reserved: in a root model named 'main', a module
   * registered under any other non-empty, dot-free name is found again
   * by `get_module`.
   */
  lemma RegisteredIsFound(modules: seq<Node>, m: Node)
    requires Find(modules, m.name).None? && m.name != "main"
    requires m.name != "" && DotFree(m.name)
    ensures GetModule(Node("main", true, modules + [m]), m.name) == Ok(Some(m))
  {
    assert IndexOfDot(m.name) == |m.name|;
    FindAppend(modules, m);
  }

  /** A name absent from a dictionary finds the entry appended under it. */
  lemma {:induction false} FindAppend(ms: seq<Node>, m: Node)
    requires Find(ms, m.name).None?
    ensures Find(ms + [m], m.name) == Some(m)
  {
    if ms != [] {
      assert (ms + [m])[1..] == ms[1..] + [m];
      FindAppend(ms[1..], m);
    }
  }

  /**
   * After a rename the module is found under its new name and no
   * longer under its old one; every other module keeps its entry.
   */
  lemma RenameMoves(ms: seq<Node>, oldName: string, newName: string)
    requires DistinctNames(ms)
    requires Find(ms, newName).None? && Find(ms, oldName).Some?
    ensures var m := Find(ms, oldName).value;
      var r := Without(ms, oldName) + [m.(name := newName)];
      DistinctNames(r) &&
      Find(r, newName) == Some(m.(name := newName)) &&
      Find(r, oldName).None? &&
      forall x :: x in ms && x.name != oldName ==> x in r
  {
    var m := Find(ms, oldName).value;
    var moved := m.(name := newName);
    var rest := Without(ms, oldName);
    assert forall x :: x in rest ==> x.name != newName;
    DistinctAppend(rest, moved);
    FindAppend(rest, moved);
    assert oldName != newName;
  }

  /** Appending a module under a name not yet used keeps the names distinct. */
  lemma DistinctAppend(ms: seq<Node>, m: Node)
    requires DistinctNames(ms)
    requires forall x :: x in ms ==> x.name != m.name
    ensures DistinctNames(ms + [m])
  {
    var r := ms + [m];
    forall j, k | 0 <= j < k < |r|
      ensures r[j].name != r[k].name
    {
      if k == |ms| {
        assert r[j] in ms;
      } else {
        assert r[j] == ms[j] && r[k] == ms[k];
      }
    }
  }

  /** Every pid from `lo` up to, not including, `hi` is taken. */
  predicate AllUsed(products: map<int, Product>, lo: int, hi: int)
  {
    forall q :: lo <= q < hi ==> q in products
  }

  /**
   * The product registry of the root model: the products by pid and the
   * next pid to hand out.
   */
  class Model {
    var name: string
    var modules: seq<Node>
    var nextPid: int
    var products: map<int, Product>
    var now: real
    var hasSim: bool

    /**
     * The pid counter never hands out 0 or a negative pid, and module
     * names are dictionary keys.
     */
    predicate Valid()
      reads this
    {
      nextPid >= 1 && DistinctNames(modules)
    }

    constructor (name: string)
      ensures Valid() && nextPid == 1 && products == map[]
      ensures this.name == name && modules == []
      ensures now == 0.0 && !hasSim
    {
      this.name := name;
      modules := [];
      nextPid := 1;
      products := map[];
      now := 0.0;
      hasSim := false;
    }

    /** This model as a node of the namespace tree. */
    function AsNode(): (n: Node)
      reads this
      ensures n.isModel && n.name == name && n.modules == modules
    {
      Node(name, true, modules)
    }

    /**
     * Register a module (`register_emulation_module`): a name already
     * registered, or the reserved name 'main', is an EmulicaError;
     * otherwise the module becomes the last entry of the dictionary.
     */
    method Register(m: Node) returns (r: Result<Unit>)
      requires Valid()
      modifies this`modules
      ensures Valid()
      ensures r.Err? <==> Find(old(modules), m.name).Some? || m.name == "main"
      ensures r.Err? ==> r.error.EmulicaError? && modules == old(modules)
      ensures r.Ok? ==> modules == old(modules) + [m]
    {
      if Find(modules, m.name).Some? {
        return Err(EmulicaError("there is already a module of this name"));
      }
      if m.name == "main" {
        return Err(EmulicaError("'main' is a reserved name"));
      }
      modules := modules + [m];
      r := Ok(Unit);
    }

    /**
     * Rename the module registered as `oldName` (`Module.rename`): a
     * new name already registered is an EmulicaError; otherwise the
     * entry leaves the dictionary and comes back, renamed, as its last
     * entry. A module that is not registered is a KeyError.
     */
    method Rename(oldName: string, newName: string) returns (r: Result<Unit>)
      requires Valid()
      modifies this`modules
      ensures Valid()
      ensures Find(old(modules), newName).Some? ==> r.Err? && r.error.EmulicaError? && modules == old(modules)
      ensures Find(old(modules), newName).None? && Find(old(modules), oldName).None? ==>
        r == Err(KeyError) && modules == old(modules)
      ensures Find(old(modules), newName).None? && Find(old(modules), oldName).Some? ==>
        r == Ok(Unit) &&
        modules == Without(old(modules), oldName) + [Find(old(modules), oldName).value.(name := newName)]
    {
      if Find(modules, newName).Some? {
        return Err(EmulicaError("there is already a module of this name"));
      }
      var found := Find(modules, oldName);
      if found.None? {
        return Err(KeyError);
      }
      var rest := Without(modules, oldName);
      assert forall x :: x in rest ==> x.name != newName;
      modules := rest + [found.value.(name := newName)];
      r := Ok(Unit);
    }

    /**
     * Remove a module by its dotted name
     * (`unregister_emulation_module`), from this model or a submodel.
     */
    method Unregister(s: string) returns (r: Result<Unit>)
      requires Valid()
      modifies this`modules
      ensures r.Ok? <==> Unregistered(old(AsNode()), s).Ok?
      ensures r.Ok? ==> modules == Unregistered(old(AsNode()), s).value.modules
      ensures r.Err? ==> r.error == Unregistered(old(AsNode()), s).error && modules == old(modules)
    {
      var u := Unregistered(AsNode(), s);
      if u.Err? {
        return Err(u.error);
      }
      modules := u.value.modules;
      r := Ok(Unit);
    }

    /** The current time, 0 when no simulation runs (`current_time`). */
    function CurrentTime(): (t: real)
      reads this
      ensures !hasSim ==> t == 0.0
    {
      if hasSim then now else 0.0
    }

    /** Hand out the next pid (`next_pid`): the counter, then incremented. */
    method NextPid() returns (pid: int)
      requires Valid()
      modifies this`nextPid
      ensures Valid()
      ensures pid == old(nextPid) && nextPid == old(nextPid) + 1
    {
      pid := nextPid;
      nextPid := nextPid + 1;
    }

    /**
     * Create a product (`Product.__init__`): a non-zero pid already in use
     * is an EmulicaError; otherwise pids are drawn from the counter until
     * one is free (0 meaning "any pid"), and the product is registered
     * under it, created now (0 without a simulation), active and empty.
     */
    method CreateProduct(pid: int, productType: string) returns (r: Result<Product>)
      requires Valid()
      modifies this`nextPid, this`products
      ensures Valid()
      ensures r.Err? <==> pid != 0 && pid in old(products)
      ensures r.Err? ==> r.error.EmulicaError? && products == old(products) && nextPid == old(nextPid)
      ensures r.Ok? ==> var p := r.value;
        fresh(p) && p.pid != 0 && p.pid !in old(products) &&
        products == old(products)[p.pid := p] &&
        p.productType == productType && p.createTime == CurrentTime() && p.disposeTime == 0.0 &&
        p.active && p.components == map[] &&
        p.spaceHistory == [] && p.shapeHistory == [] && p.compositionHistory == []
      ensures r.Ok? && pid != 0 ==> r.value.pid == pid && nextPid == old(nextPid)
      ensures r.Ok? && pid == 0 ==> old(nextPid) <= r.value.pid < nextPid
      ensures r.Ok? && pid == 0 ==> AllUsed(old(products), old(nextPid), r.value.pid)
    {
      if pid != 0 && pid in products {
        return Err(EmulicaError("product ID has already been used"));
      }
      var id := pid;
      while id == 0 || id in products
        invariant Valid() && products == old(products)
        invariant nextPid >= old(nextPid)
        invariant pid != 0 ==> id == pid && nextPid == old(nextPid)
        invariant pid == 0 ==> (id == 0 && nextPid == old(nextPid)) || (old(nextPid) <= id < nextPid && id == nextPid - 1)
        invariant pid == 0 ==> AllUsed(old(products), old(nextPid), nextPid - 1)
        invariant id == pid || id < nextPid
        decreases MaxKey(products.Keys) + 1 - id
      {
        id := NextPid();
      }
      var p := new Product(id, productType, CurrentTime());
      products := products[id := p];
      r := Ok(p);
    }
  }
}
