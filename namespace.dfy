/**
 * The namespace of an emulation model.
 *
 * A model keeps its modules in a dictionary keyed by module name, in
 * insertion order; a module that is itself a (sub)model has its own
 * dictionary. A module is addressed from the root by its dotted full
 * name, `submodel1.submodel2.module`. The tree is modelled on values:
 * a model's dictionary is the sequence of its modules, each keyed by
 * its own name.
 */
module Namespace {
  import opened Errors

  datatype Node = Node(name: string, isModel: bool, modules: seq<Node>)

  /** The module registered under `key`: the first one bearing that name. */
  function Find(ms: seq<Node>, key: string): (r: Option<Node>)
    ensures r.Some? ==> r.value in ms && r.value.name == key
    ensures r.None? <==> forall k :: 0 <= k < |ms| ==> ms[k].name != key
  {
    if ms == [] then None
    else if ms[0].name == key then Some(ms[0])
    else Find(ms[1..], key)
  }

  /** The names of a dictionary are its keys: no two modules share one. */
  predicate DistinctNames(ms: seq<Node>)
  {
    forall j, k :: 0 <= j < k < |ms| ==> ms[j].name != ms[k].name
  }

  /** With distinct names, each module is found under its own name. */
  lemma {:induction false} FindOwnName(ms: seq<Node>, k: nat)
    requires DistinctNames(ms)
    requires k < |ms|
    ensures Find(ms, ms[k].name) == Some(ms[k])
  {
    if k > 0 {
      assert ms[0].name != ms[k].name;
      assert ms[1..][k - 1] == ms[k];
      FindOwnName(ms[1..], k - 1);
    }
  }

  /** Every dictionary of the tree has distinct names. */
  predicate WellKeyed(n: Node)
  {
    DistinctNames(n.modules) && forall k :: 0 <= k < |n.modules| ==> WellKeyed(n.modules[k])
  }

  predicate DotFree(s: string)
  {
    forall k :: 0 <= k < |s| ==> s[k] != '.'
  }

  /** The index of the first '.', or |s| when there is none. */
  function IndexOfDot(s: string): (i: nat)
    ensures i <= |s|
    ensures forall k :: 0 <= k < i ==> s[k] != '.'
    ensures i < |s| ==> s[i] == '.'
  {
    if s == [] then 0
    else if s[0] == '.' then 0
    else 1 + IndexOfDot(s[1..])
  }

  /** `a` ends `s`. */
  predicate IsSuffix(a: string, s: string)
  {
    |a| <= |s| && s[|s| - |a|..] == a
  }

  /** The dotted name made of the path's components, front first. */
  function Join(path: seq<string>): string
    requires |path| >= 1
  {
    if |path| == 1 then path[0] else path[0] + "." + Join(path[1..])
  }

  /**
   * The full name of the module at `path` (`fullname`): a module of the
   * root model goes by its own name; any other by the full name of its
   * model, a dot, and its own name.
   */
  function Fullname(path: seq<string>): (r: string)
    requires |path| >= 1
    ensures IsSuffix(path[|path| - 1], r)
  {
    if |path| == 1 then path[0] else Fullname(path[..|path| - 1]) + "." + path[|path| - 1]
  }

  lemma {:induction false} JoinSnoc(path: seq<string>, last: string)
    requires |path| >= 1
    ensures Join(path + [last]) == Join(path) + "." + last
  {
    if |path| > 1 {
      assert (path + [last])[1..] == path[1..] + [last];
      JoinSnoc(path[1..], last);
    } else {
      assert (path + [last])[1..] == [last];
    }
  }

  /** The full name is the components joined with dots. */
  lemma {:induction false} FullnameIsJoin(path: seq<string>)
    requires |path| >= 1
    ensures Fullname(path) == Join(path)
  {
    if |path| > 1 {
      var init := path[..|path| - 1];
      FullnameIsJoin(init);
      JoinSnoc(init, path[|path| - 1]);
      assert init + [path[|path| - 1]] == path;
    }
  }

  /** The first dot of `a.b` is the one after `a` when `a` has none. */
  lemma IndexOfDotAfter(a: string, b: string)
    requires DotFree(a)
    ensures IndexOfDot(a + "." + b) == |a|
  {
    var s := a + "." + b;
    assert s[|a|] == '.';
    assert forall k :: 0 <= k < |a| ==> s[k] == a[k];
  }

  /** The module reached from `n` by following the names of `path`. */
  function At(n: Node, path: seq<string>): Option<Node>
    decreases |path|
  {
    if path == [] then Some(n)
    else if !n.isModel then None
    else
      match Find(n.modules, path[0])
      case None => None
      case Some(child) => At(child, path[1..])
  }

  /**
   * Look a module up by its dotted name (`get_module`): nothing for the
   * empty name; the model itself for its own name; else the module
   * under the first component, and the rest of the name looked up in
   * it. A missing key is a KeyError; a component naming a plain module
   * that is not last is an AttributeError (it has no `get_module`).
   */
  function GetModule(n: Node, s: string): (r: Result<Option<Node>>)
    requires n.isModel
    ensures s == "" ==> r == Ok(None)
    ensures r.Err? ==> r.error == KeyError || r.error == AttributeError
    ensures r.Ok? && r.value.Some? ==> r.value.value == n || IsSuffix(r.value.value.name, s)
    decreases |s|
  {
    if s == "" then Ok(None)
    else if s == n.name then Ok(Some(n))
    else
      var i := IndexOfDot(s);
      if i == |s| then
        match Find(n.modules, s)
        case None => Err(KeyError)
        case Some(m) => Ok(Some(m))
      else
        match Find(n.modules, s[..i])
        case None => Err(KeyError)
        case Some(sub) => if sub.isModel then GetModule(sub, s[i + 1..]) else Err(AttributeError)
  }

  /**
   * Whether a dotted name designates a module (`has_module`): false for
   * the empty name, true for the model's own name, otherwise whether the
   * last component is a key of the designated submodel. A missing
   * intermediate submodel is a KeyError, a plain module in its place an
   * AttributeError.
   */
  function HasModule(n: Node, s: string): (r: Result<bool>)
    requires n.isModel
    ensures r == Ok(true) ==> s != ""
    ensures r.Err? ==> r.error == KeyError || r.error == AttributeError
    decreases |s|
  {
    if s == "" then Ok(false)
    else if s == n.name then Ok(true)
    else
      var i := IndexOfDot(s);
      if i == |s| then Ok(Find(n.modules, s).Some?)
      else
        match Find(n.modules, s[..i])
        case None => Err(KeyError)
        case Some(sub) => if sub.isModel then HasModule(sub, s[i + 1..]) else Err(AttributeError)
  }

  /**
   * `has_module` agrees with `get_module`: it holds exactly when the
   * lookup finds a module, it is false exactly when the lookup gives
   * nothing or misses the last key, and both fail alike otherwise.
   */
  lemma {:induction false} HasModuleAgrees(n: Node, s: string)
    requires n.isModel
    ensures HasModule(n, s) == Ok(true) <==> GetModule(n, s).Ok? && GetModule(n, s).value.Some?
    ensures HasModule(n, s) == Ok(false) <==> GetModule(n, s) == Ok(None) || (GetModule(n, s) == Err(KeyError) && LastKeyMissing(n, s))
    ensures HasModule(n, s).Err? ==> GetModule(n, s) == Err(HasModule(n, s).error) && !LastKeyMissing(n, s)
    decreases |s|
  {
    if s != "" && s != n.name {
      var i := IndexOfDot(s);
      if i < |s| {
        match Find(n.modules, s[..i])
        case None =>
        case Some(sub) =>
          if sub.isModel {
            HasModuleAgrees(sub, s[i + 1..]);
          }
      }
    }
  }

  /**
   * The lookup fails on its last component: every submodel on the way
   * exists, and the last key does not.
   */
  predicate LastKeyMissing(n: Node, s: string)
    requires n.isModel
    decreases |s|
  {
    s != "" && s != n.name &&
    var i := IndexOfDot(s);
    if i == |s| then Find(n.modules, s).None?
    else
      match Find(n.modules, s[..i])
      case None => false
      case Some(sub) => sub.isModel && LastKeyMissing(sub, s[i + 1..])
  }

  /** No component of `path` repeats the name of the model that holds it. */
  predicate NoShadow(modelName: string, path: seq<string>)
    requires |path| >= 1
    decreases |path|
  {
    if |path| == 1 then path[0] != modelName else NoShadow(path[0], path[1..])
  }

  /**
   * Looking up a module's full name from the root finds that module,
   * provided names are non-empty and free of dots and no module is
   * named like the model holding it (the own-name check of the lookup
   * would fire first).
   */
  lemma {:induction false} GetModuleByFullname(n: Node, path: seq<string>)
    requires n.isModel && |path| >= 1
    requires At(n, path).Some?
    requires DotFree(n.name)
    requires forall k :: 0 <= k < |path| ==> path[k] != "" && DotFree(path[k])
    requires NoShadow(n.name, path)
    ensures GetModule(n, Fullname(path)) == Ok(At(n, path))
    decreases |path|
  {
    FullnameIsJoin(path);
    var s := Join(path);
    if |path| == 1 {
      assert IndexOfDot(s) == |s|;
    } else {
      var tail := Join(path[1..]);
      assert s == path[0] + "." + tail;
      IndexOfDotAfter(path[0], tail);
      var i := IndexOfDot(s);
      assert s[..i] == path[0];
      assert s[i + 1..] == tail;
      assert s != n.name by {
        assert s[|path[0]|] == '.';
      }
      var child := Find(n.modules, path[0]).value;
      assert child.isModel;
      forall k | 0 <= k < |path[1..]|
        ensures path[1..][k] != "" && DotFree(path[1..][k])
      {
        assert path[1..][k] == path[k + 1];
      }
      GetModuleByFullname(child, path[1..]);
      FullnameIsJoin(path[1..]);
    }
  }

  /**
   * The own-name shortcut shadows a module named like its submodel: in
   * a root holding submodel `s` that holds module `s`, the full name
   * `s.s` designates the submodel, not the module.
   */
  lemma ShadowedLookup()
    ensures var m := Node("s", false, []);
      var sub := Node("s", true, [m]);
      var root := Node("main", true, [sub]);
      At(root, ["s", "s"]) == Some(m) &&
      GetModule(root, Fullname(["s", "s"])) == Ok(Some(sub))
  {
    var m := Node("s", false, []);
    var sub := Node("s", true, [m]);
    var root := Node("main", true, [sub]);
    var path := ["s", "s"];
    assert path[..1] == ["s"];
    var full := Fullname(path);
    assert full == "s" + "." + "s";
    IndexOfDotAfter("s", "s");
    assert full[..1] == "s";
    assert full[2..] == "s";
    assert full != root.name by {
      assert |full| == 3;
    }
    assert Find(root.modules, "s") == Some(sub);
    assert GetModule(sub, "s") == Ok(Some(sub));
    assert Find(sub.modules, "s") == Some(m);
    assert ["s", "s"][1..] == ["s"];
    assert At(sub, ["s"]) == Some(m);
  }

  /**
   * Every module of a model and of its submodels, each followed by the
   * list of its own submodel, in dictionary order (`module_list`).
   */
  function ModuleList(n: Node): (r: seq<Node>)
    ensures |r| >= |n.modules|
    decreases n, 1
  {
    ModuleListFrom(n, 0)
  }

  function ModuleListFrom(n: Node, i: nat): (r: seq<Node>)
    requires i <= |n.modules|
    ensures |r| >= |n.modules| - i
    decreases n, 0, |n.modules| - i
  {
    if i == |n.modules| then []
    else
      var m := n.modules[i];
      [m] + (if m.isModel then ModuleList(m) else []) + ModuleListFrom(n, i + 1)
  }

  /**
   * Every listed module is reachable from the model through its
   * namespace: some path of names leads to it.
   */
  lemma {:induction false} ModuleListReachable(n: Node, x: Node)
    requires n.isModel && WellKeyed(n)
    requires x in ModuleList(n)
    ensures exists path :: |path| >= 1 && At(n, path) == Some(x)
    decreases n, 1
  {
    ModuleListFromReachable(n, 0, x);
  }

  lemma {:induction false} ModuleListFromReachable(n: Node, i: nat, x: Node)
    requires n.isModel && WellKeyed(n)
    requires i <= |n.modules|
    requires x in ModuleListFrom(n, i)
    ensures exists path :: |path| >= 1 && At(n, path) == Some(x)
    decreases n, 0, |n.modules| - i
  {
    var m := n.modules[i];
    FindOwnName(n.modules, i);
    if x == m {
      assert At(n, [m.name]) == Some(x);
    } else if m.isModel && x in ModuleList(m) {
      ModuleListReachable(m, x);
      var p :| |p| >= 1 && At(m, p) == Some(x);
      assert ([m.name] + p)[1..] == p;
      assert At(n, [m.name] + p) == Some(x);
    } else {
      ModuleListFromReachable(n, i + 1, x);
    }
  }

  /** Every direct module of a model is listed. */
  lemma ModuleListHasModules(n: Node, k: nat)
    requires k < |n.modules|
    ensures n.modules[k] in ModuleList(n)
  {
    ModuleListFromHas(n, 0, k);
  }

  lemma {:induction false} ModuleListFromHas(n: Node, i: nat, k: nat)
    requires i <= k < |n.modules|
    ensures n.modules[k] in ModuleListFrom(n, i)
    decreases |n.modules| - i
  {
    if i < k {
      ModuleListFromHas(n, i + 1, k);
    }
  }

  /** What a submodel lists is listed by the model that holds it. */
  lemma {:induction false} ModuleListFromHasNested(n: Node, i: nat, k: nat, y: Node)
    requires i <= k < |n.modules|
    requires n.modules[k].isModel && y in ModuleList(n.modules[k])
    ensures y in ModuleListFrom(n, i)
    decreases |n.modules| - i
  {
    if i < k {
      ModuleListFromHasNested(n, i + 1, k, y);
    }
  }

  /**
   * Every module reachable from the model by a path of names is listed:
   * the modules of the model and, recursively, of its submodels.
   */
  lemma {:induction false} ReachableIsListed(n: Node, path: seq<string>)
    requires |path| >= 1 && At(n, path).Some?
    ensures At(n, path).value in ModuleList(n)
    decreases |path|
  {
    var child := Find(n.modules, path[0]).value;
    var k :| 0 <= k < |n.modules| && n.modules[k] == child;
    if |path| == 1 {
      ModuleListHasModules(n, k);
    } else {
      ReachableIsListed(child, path[1..]);
      ModuleListFromHasNested(n, 0, k, At(n, path).value);
    }
  }

  /** The dictionary without the entry for `key`. */
  function Without(ms: seq<Node>, key: string): (r: seq<Node>)
    ensures forall x :: x in r ==> x in ms && x.name != key
    ensures forall x :: x in ms && x.name != key ==> x in r
    ensures DistinctNames(ms) ==> DistinctNames(r)
  {
    if ms == [] then []
    else if ms[0].name == key then Without(ms[1..], key)
    else
      var rest := Without(ms[1..], key);
      assert DistinctNames(ms) ==> forall x :: x in rest ==> x.name != ms[0].name;
      [ms[0]] + rest
  }

  /**
   * Remove a module by its dotted name (`unregister_emulation_module`):
   * the last component is deleted from the dictionary of the submodel
   * the others designate. A missing key is a KeyError, a plain module
   * in place of a submodel an AttributeError.
   */
  function Unregistered(n: Node, s: string): (r: Result<Node>)
    requires n.isModel
    ensures r.Ok? ==> r.value.name == n.name && r.value.isModel
    decreases |s|
  {
    var i := IndexOfDot(s);
    if i == |s| then
      if Find(n.modules, s).None? then Err(KeyError)
      else Ok(n.(modules := Without(n.modules, s)))
    else
      match Find(n.modules, s[..i])
      case None => Err(KeyError)
      case Some(sub) =>
        if !sub.isModel then Err(AttributeError)
        else
          match Unregistered(sub, s[i + 1..])
          case Err(e) => Err(e)
          case Ok(sub2) => Ok(n.(modules := Replace(n.modules, s[..i], sub2)))
  }

  /** The dictionary with the entry for `key` replaced, in place. */
  function Replace(ms: seq<Node>, key: string, x: Node): (r: seq<Node>)
    ensures |r| == |ms|
    ensures forall k :: 0 <= k < |ms| ==> r[k] == if ms[k].name == key then x else ms[k]
  {
    if ms == [] then []
    else [if ms[0].name == key then x else ms[0]] + Replace(ms[1..], key, x)
  }

  /**
   * After removing a module of this model, its name is no longer a key
   * of the model's dictionary, and every other module still is.
   */
  lemma UnregisterRemoves(n: Node, s: string)
    requires n.isModel && DotFree(s)
    ensures Unregistered(n, s).Ok? <==> Find(n.modules, s).Some?
    ensures Unregistered(n, s).Ok? ==> Find(Unregistered(n, s).value.modules, s).None?
    ensures Unregistered(n, s).Ok? ==>
      forall x :: x in n.modules && x.name != s ==> x in Unregistered(n, s).value.modules
  {
    assert IndexOfDot(s) == |s|;
  }
}
