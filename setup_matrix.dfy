/**
 * The setup matrix of emulica's properties module: the delay needed to
 * switch an actuator from an initial program to a final one.
 *
 * Delays are stored in a nested map, final program -> initial program ->
 * delay. A lookup for an (initial, final) transition uses, in this order,
 * the exact entry, the default for the final program, the global default;
 * a transition from a program to itself costs 0.
 */
module SetupMatrices {
  import opened Errors
  import opened Properties

  /** One column of the matrix: initial program -> delay. */
  type Column = map<string, Value>

  /** The (initial, final) pairs stored in a nested final -> initial map. */
  ghost function PairKeys(m: map<string, Column>): set<(string, string)>
  {
    set f, i | f in m && i in m[f] :: (i, f)
  }

  /** The nested map seen as a flat map from (initial, final) to delay. */
  ghost function Flatten(m: map<string, Column>): map<(string, string), Value>
  {
    map p | p in PairKeys(m) :: m[p.1][p.0]
  }

  /** The pairs of one column. */
  ghost function ColumnKeys(f: string, c: Column): set<(string, string)>
  {
    set i | i in c :: (i, f)
  }

  /** The entries of `m` whose key is in `keys`. */
  ghost function Restrict(m: map<string, Column>, keys: set<string>): map<string, Column>
  {
    map k | k in m && k in keys :: m[k]
  }

  /** The nested map after `add(i, f, t)`. */
  ghost function AfterAdd(m: map<string, Column>, i: string, f: string, t: Value): map<string, Column>
  {
    m[f := (if f in m then m[f] else map[])[i := t]]
  }

  /**
   * The nested map after `remove(i, f)`. The emptiness test of the source
   * is inverted: the column is dropped when entries remain in it, and
   * kept, empty, when the removed entry was its last one.
   */
  ghost function AfterRemove(m: map<string, Column>, i: string, f: string): map<string, Column>
    requires f in m && i in m[f]
  {
    if m[f] - {i} == map[] then m[f := map[]] else m - {f}
  }

  /** Whether `modify` re-keys the entry: a given new name that differs. */
  predicate Rekeys(i: string, f: string, ni: string, nf: string)
  {
    (ni != "" && ni != i) || (nf != "" && nf != f)
  }

  /** Python's `a or b` on program names, "" standing for None. */
  function OrName(a: string, b: string): (r: string)
    ensures a != "" ==> r == a
    ensures a == "" ==> r == b
  {
    if a != "" then a else b
  }

  /** The nested map after the re-keying step of `modify`. */
  ghost function AfterRekey(m: map<string, Column>, i: string, f: string, ni: string, nf: string): map<string, Column>
    requires f in m && i in m[f]
  {
    if Rekeys(i, f, ni, nf) then AfterAdd(AfterRemove(m, i, f), OrName(ni, i), OrName(nf, f), m[f][i])
    else m
  }

  lemma ColumnCard(f: string, c: Column)
    ensures |ColumnKeys(f, c)| == |c|
  {
    if c != map[] {
      var i :| i in c;
      var c' := c - {i};
      ColumnCard(f, c');
      assert ColumnKeys(f, c) == ColumnKeys(f, c') + {(i, f)};
      assert |c| == |c'| + 1 by {
        assert c.Keys == c'.Keys + {i};
      }
    }
  }

  lemma PairKeysSplit(m: map<string, Column>, f: string)
    requires f in m
    ensures PairKeys(m) == PairKeys(m - {f}) + ColumnKeys(f, m[f])
    ensures PairKeys(m - {f}) !! ColumnKeys(f, m[f])
  {
  }

  /** Adding an entry updates exactly that pair of the flat view. */
  lemma {:induction false} FlattenAdd(m: map<string, Column>, i: string, f: string, t: Value)
    ensures Flatten(AfterAdd(m, i, f, t)) == Flatten(m)[(i, f) := t]
  {
    var a := AfterAdd(m, i, f, t);
    assert PairKeys(a) == PairKeys(m) + {(i, f)};
    forall p | p in PairKeys(a)
      ensures Flatten(a)[p] == Flatten(m)[(i, f) := t][p]
    {
      if p != (i, f) {
        assert p in PairKeys(m);
      }
    }
  }

  /** Removing the last entry of a column removes just that pair. */
  lemma {:induction false} FlattenRemoveLast(m: map<string, Column>, i: string, f: string)
    requires f in m && i in m[f] && m[f].Keys == {i}
    ensures Flatten(AfterRemove(m, i, f)) == Flatten(m) - {(i, f)}
  {
    assert m[f] - {i} == map[];
    var a := AfterRemove(m, i, f);
    assert PairKeys(a) == PairKeys(m) - {(i, f)};
  }

  /**
   * Removing an entry from a column that holds others drops every pair
   * whose final program is `f`.
   */
  lemma {:induction false} FlattenRemoveShared(m: map<string, Column>, i: string, f: string, j: string)
    requires f in m && i in m[f] && j in m[f] && j != i
    ensures Flatten(AfterRemove(m, i, f)) == map p | p in Flatten(m) && p.1 != f :: Flatten(m)[p]
  {
    assert j in m[f] - {i};
    var a := AfterRemove(m, i, f);
    assert a == m - {f};
    assert PairKeys(a) == set p | p in PairKeys(m) && p.1 != f;
  }

  class SetupMatrix {
    var defaultTime: Value
    var destDefault: map<string, Value>
    var destProg: map<string, Column>

    constructor (defaultTime: Value)
      ensures this.defaultTime == defaultTime
      ensures destDefault == map[] && destProg == map[]
    {
      this.defaultTime := defaultTime;
      destDefault := map[];
      destProg := map[];
    }

    /** The stored transitions as a flat map (initial, final) -> delay. */
    ghost function Pairs(): map<(string, string), Value>
      reads this
    {
      Flatten(destProg)
    }

    /** The expression a lookup of (initial, final) selects. */
    function Delay(i: string, f: string): (r: Value)
      reads this
      ensures (i, f) in Pairs() ==> r == Pairs()[(i, f)]
      ensures (i, f) !in Pairs() && f in destDefault ==> r == destDefault[f]
      ensures (i, f) !in Pairs() && f !in destDefault ==> r == defaultTime
    {
      assert (i, f) in Pairs() <==> f in destProg && i in destProg[f];
      if f in destProg && i in destProg[f] then destProg[f][i]
      else if f in destDefault then destDefault[f]
      else defaultTime
    }

    /**
     * The setup delay from program `i` to program `f` (`get`): 0 when they
     * are equal, else the selected expression, evaluated.
     */
    function Get(i: string, f: string, eval: string -> Value): (r: Value)
      reads this
      ensures i == f ==> r == VNum(0.0)
      ensures i != f && (i, f) in Pairs() ==> r == EvalExpression(Pairs()[(i, f)], eval)
      ensures i != f && (i, f) !in Pairs() && f in destDefault ==> r == EvalExpression(destDefault[f], eval)
      ensures i != f && (i, f) !in Pairs() && f !in destDefault ==> r == EvalExpression(defaultTime, eval)
    {
      if i == f then VNum(0.0) else EvalExpression(Delay(i, f), eval)
    }

    /** Store the delay of the transition from `i` to `f` (`add`). */
    method Add(i: string, f: string, t: Value)
      modifies this`destProg
      ensures destProg == AfterAdd(old(destProg), i, f, t)
      ensures Pairs() == old(Pairs())[(i, f) := t]
    {
      FlattenAdd(destProg, i, f, t);
      var column := if f in destProg then destProg[f] else map[];
      destProg := destProg[f := column[i := t]];
    }

    /** Set the default delay of every transition to `f` (`add_final`). */
    method AddFinal(f: string, t: Value)
      modifies this`destDefault
      ensures destDefault == old(destDefault)[f := t]
    {
      destDefault := destDefault[f := t];
    }

    /**
     * Remove the transition from `i` to `f` (`remove`); KeyError when it
     * is not stored. The inverted emptiness test of the source is kept.
     */
    method Remove(i: string, f: string) returns (r: Result<Unit>)
      modifies this`destProg
      ensures r == if (i, f) in old(Pairs()) then Ok(Unit) else Err(KeyError)
      ensures r.Err? ==> destProg == old(destProg)
      ensures r.Ok? ==> f in old(destProg) && i in old(destProg)[f] &&
                        destProg == AfterRemove(old(destProg), i, f)
    {
      assert (i, f) in Pairs() <==> f in destProg && i in destProg[f];
      if f !in destProg || i !in destProg[f] {
        return Err(KeyError);
      }
      var column := destProg[f] - {i};
      destProg := destProg[f := column];
      if destProg[f] != map[] {
        destProg := destProg - {f};
      }
      r := Ok(Unit);
    }

    /**
     * Change a stored transition (`modify`): re-key it when a new initial
     * or final name is given and differs, then, when the new time is
     * truthy, write it under the ORIGINAL (i, f) key, which is a KeyError
     * when the re-keying dropped column `f`. "" stands for a name not given.
     */
    method Modify(i: string, f: string, ni: string, nf: string, nt: Value) returns (r: Result<Unit>)
      modifies this`destProg
      ensures (i, f) !in old(Pairs()) ==> r == Err(KeyError) && destProg == old(destProg)
      ensures (i, f) in old(Pairs()) ==>
        var m := AfterRekey(old(destProg), i, f, ni, nf);
        if !Truthy(nt) then r == Ok(Unit) && destProg == m
        else if f in m then r == Ok(Unit) && destProg == m[f := m[f][i := nt]]
        else r == Err(KeyError) && destProg == m
    {
      assert (i, f) in Pairs() <==> f in destProg && i in destProg[f];
      if f !in destProg || i !in destProg[f] {
        return Err(KeyError);
      }
      var time := destProg[f][i];
      if Rekeys(i, f, ni, nf) {
        var initial := OrName(ni, i);
        var final := OrName(nf, f);
        var _ := Remove(i, f);
        Add(initial, final, time);
      }
      if Truthy(nt) {
        if f !in destProg {
          return Err(KeyError);
        }
        destProg := destProg[f := destProg[f][i := nt]];
      }
      r := Ok(Unit);
    }

    /** The number of stored transitions (`__len__`). */
    method Len() returns (n: nat)
      ensures n == |Pairs()|
    {
      n := 0;
      var rest := destProg.Keys;
      assert Restrict(destProg, rest) == destProg;
      while rest != {}
        invariant rest <= destProg.Keys
        invariant n + |PairKeys(Restrict(destProg, rest))| == |PairKeys(destProg)|
        decreases rest
      {
        var f :| f in rest;
        var r := Restrict(destProg, rest);
        PairKeysSplit(r, f);
        ColumnCard(f, r[f]);
        assert r - {f} == Restrict(destProg, rest - {f});
        n := n + |destProg[f]|;
        rest := rest - {f};
      }
      assert Restrict(destProg, rest) == map[];
      assert PairKeys(map[]) == {};
      assert Pairs().Keys == PairKeys(destProg);
    }
  }

  /** After `add(i, f, t)` with i != f, a lookup of (i, f) yields t evaluated. */
  lemma AddThenGet(s: SetupMatrix, m: map<string, Column>, i: string, f: string, t: Value, eval: string -> Value)
    requires i != f
    requires s.destProg == AfterAdd(m, i, f, t)
    ensures s.Get(i, f, eval) == EvalExpression(t, eval)
  {
    FlattenAdd(m, i, f, t);
  }

  /**
   * Changing only the time of a stored transition (no re-keying, truthy
   * time) replaces that one delay of the flat view.
   */
  lemma {:induction false} ModifyTimeOnly(m: map<string, Column>, i: string, f: string, ni: string, nf: string, nt: Value)
    requires f in m && i in m[f]
    requires !Rekeys(i, f, ni, nf) && Truthy(nt)
    ensures Flatten(m[f := m[f][i := nt]]) == Flatten(m)[(i, f) := nt]
  {
    assert m[f := m[f][i := nt]] == AfterAdd(m, i, f, nt);
    FlattenAdd(m, i, f, nt);
  }

  /** A falsy new time and no re-keying leave the matrix as it was. */
  lemma ModifyNothing(m: map<string, Column>, i: string, f: string, ni: string, nf: string)
    requires f in m && i in m[f]
    requires !Rekeys(i, f, ni, nf)
    ensures AfterRekey(m, i, f, ni, nf) == m
  {
  }

  /**
   * Re-keying the only transition of a column moves its delay to the new
   * key; the emptied column stays behind, with no pair in it.
   */
  lemma {:induction false} ModifyRekeyMoves(m: map<string, Column>, i: string, f: string, ni: string, nf: string)
    requires f in m && m[f].Keys == {i}
    requires Rekeys(i, f, ni, nf)
    ensures Flatten(AfterRekey(m, i, f, ni, nf)) ==
      (Flatten(m) - {(i, f)})[(OrName(ni, i), OrName(nf, f)) := m[f][i]]
  {
    FlattenRemoveLast(m, i, f);
    FlattenAdd(AfterRemove(m, i, f), OrName(ni, i), OrName(nf, f), m[f][i]);
  }

  /**
   * Re-keying a transition whose column holds another one loses every
   * other transition to the same final program, and a truthy new time
   * then fails on the dropped column when the final program changed.
   */
  lemma {:induction false} ModifyRekeyDropsColumn(m: map<string, Column>, i: string, f: string, j: string, nf: string)
    requires f in m && i in m[f] && j in m[f] && j != i
    requires nf != "" && nf != f
    ensures (j, f) in Flatten(m)
    ensures (j, f) !in Flatten(AfterRekey(m, i, f, "", nf))
    ensures f !in AfterRekey(m, i, f, "", nf)
  {
    assert Rekeys(i, f, "", nf);
    assert (j, f) in PairKeys(m);
    FlattenRemoveShared(m, i, f, j);
    assert j in m[f] - {i};
    var r := AfterRemove(m, i, f);
    assert f !in r;
    FlattenAdd(r, i, nf, m[f][i]);
  }
}
