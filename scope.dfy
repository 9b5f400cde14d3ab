/**
 * The scope chain (struct/VariableTable.java). A table holds its own variables
 * and a link to its parent; here a table holds the whole chain it can see, its
 * own level first and the outermost ancestor last. A variable may be bound to
 * Java null, so a level maps names to `Option<Value>`.
 */
module Scope {
  import opened Wrappers
  import opened Values

  /** One table of the chain: its variables and its `immutable` flag. */
  datatype Level = Level(variables: map<string, Option<Value>>, immutable: bool)

  /** A chain of tables, innermost first; there is always the current one. */
  type Chain = c: seq<Level> | |c| > 0 witness [Level(map[], false)]

  /** A table without a parent, as the constructors build it: no variables, mutable. */
  function Empty(): (l: Level)
    ensures l.variables == map[] && !l.immutable
  {
    Level(map[], false)
  }

  /** `containsHere`: the current table's own variables. */
  predicate ChainContainsHere(c: Chain, name: string)
  {
    name in c[0].variables
  }

  /** `contains`: this table or one of its ancestors has the name. */
  predicate ChainContains(c: seq<Level>, name: string)
    decreases |c|
  {
    |c| > 0 && (name in c[0].variables || ChainContains(c[1..], name))
  }

  /** The value a level binds to a name; Java's `Map.get` gives null for an absent name as for a name bound to null. */
  function Lookup(l: Level, name: string): Option<Value>
  {
    if name in l.variables then l.variables[name] else None
  }

  /** `get`: the current table's value, unless that is null, in which case the parent is asked. */
  function ChainGet(c: seq<Level>, name: string): (r: Option<Value>)
    ensures |c| > 0 && Lookup(c[0], name).Some? ==> r == Lookup(c[0], name)
    ensures r.Some? ==> ChainContains(c, name)
    decreases |c|
  {
    if |c| == 0 then None
    else if Lookup(c[0], name).Some? then Lookup(c[0], name)
    else ChainGet(c[1..], name)
  }

  /** `findTable`: the nearest table that has the name itself. */
  function FindTable(c: seq<Level>, name: string): (r: Option<nat>)
    ensures r.Some? ==> r.value < |c| && name in c[r.value].variables
    ensures r.Some? ==> forall j | 0 <= j < r.value :: name !in c[j].variables
    ensures r.None? ==> forall j | 0 <= j < |c| :: name !in c[j].variables
    decreases |c|
  {
    if |c| == 0 then None
    else if name in c[0].variables then Some(0)
    else match FindTable(c[1..], name)
      case None => None
      case Some(k) => Some(k + 1)
  }

  /** The nearest level that binds the name to a value that is not null. */
  ghost predicate NearestValue(c: seq<Level>, name: string, k: nat)
  {
    k < |c| && Lookup(c[k], name).Some? && forall j | 0 <= j < k :: Lookup(c[j], name).None?
  }

  /** `put`: binds the name in the current table, replacing what it had there. */
  function ChainPut(c: Chain, name: string, value: Option<Value>): (d: Chain)
    ensures |d| == |c| && d[1..] == c[1..]
    ensures d[0].variables == c[0].variables[name := value] && d[0].immutable == c[0].immutable
  {
    [Level(c[0].variables[name := value], c[0].immutable)] + c[1..]
  }

  /** The chain with the name removed from level `k` only. */
  function RemoveAt(c: Chain, k: nat, name: string): (d: Chain)
    requires k < |c|
    ensures |d| == |c|
    ensures d[k].variables == c[k].variables - {name} && d[k].immutable == c[k].immutable
    ensures forall j | 0 <= j < |c| && j != k :: d[j] == c[j]
  {
    c[k := Level(c[k].variables - {name}, c[k].immutable)]
  }

  /**
   * `delete`: refused (false) when no table on the chain has the name or the
   * current table is immutable. Otherwise the nearest table that has the name
   * deletes it, which that table refuses in turn when it is immutable itself.
   */
  function ChainDelete(c: Chain, name: string): (r: (bool, Chain))
    ensures r.0 ==> ChainContains(c, name) && !c[0].immutable
    ensures !r.0 ==> r.1 == c
    ensures |r.1| == |c| && forall j | 0 <= j < |c| :: r.1[j].immutable == c[j].immutable
  {
    ContainsSomewhere(c, name);
    match FindTable(c, name)
    case None => (false, c)
    case Some(k) =>
      if c[0].immutable || c[k].immutable then (false, c)
      else (true, RemoveAt(c, k, name))
  }

  /** A table object: the chain it sees, with its own level first. */
  class VariableTable {
    var levels: Chain

    /** `new VariableTable()`: a table without a parent. */
    constructor ()
      ensures levels == [Empty()]
    {
      levels := [Empty()];
    }

    /** `new VariableTable(parent)`: an empty table whose parent is the given one. */
    constructor WithParent(parent: VariableTable)
      ensures levels == [Empty()] + parent.levels
    {
      levels := [Empty()] + parent.levels;
    }

    function State(): Chain
      reads this
    {
      levels
    }

    predicate ContainsHere(name: string)
      reads this
    {
      ChainContainsHere(levels, name)
    }

    predicate Contains(name: string)
      reads this
    {
      ChainContains(levels, name)
    }

    function Get(name: string): Option<Value>
      reads this
    {
      ChainGet(levels, name)
    }

    predicate IsImmutable()
      reads this
    {
      levels[0].immutable
    }

    /** `put`: returns what the current table had under the name (null if nothing). */
    method Put(name: string, value: Option<Value>) returns (previous: Option<Value>)
      modifies this
      ensures levels == ChainPut(old(levels), name, value)
      ensures previous == Lookup(old(levels)[0], name)
    {
      previous := Lookup(levels[0], name);
      levels := ChainPut(levels, name, value);
    }

    /** `delete`: whether the name was deleted. */
    method Delete(name: string) returns (deleted: bool)
      modifies this
      ensures (deleted, levels) == ChainDelete(old(levels), name)
    {
      var owner := FindTable(levels, name);
      if owner.None? || levels[0].immutable {
        return false;
      }
      var k := owner.value;
      if k == 0 {
        levels := RemoveAt(levels, 0, name);
        return true;
      }
      if levels[k].immutable {
        return false;
      }
      levels := RemoveAt(levels, k, name);
      return true;
    }
  }

  // Properties

  /** `contains` holds exactly when some table on the chain has the name. */
  lemma {:induction false} ContainsSomewhere(c: seq<Level>, name: string)
    ensures ChainContains(c, name) <==> exists k | 0 <= k < |c| :: name in c[k].variables
    ensures ChainContains(c, name) <==> FindTable(c, name).Some?
    decreases |c|
  {
    if |c| > 0 {
      ContainsSomewhere(c[1..], name);
      if name !in c[0].variables && ChainContains(c[1..], name) {
        var k :| 0 <= k < |c[1..]| && name in c[1..][k].variables;
        assert name in c[k + 1].variables;
      }
      if name !in c[0].variables && !ChainContains(c[1..], name) {
        forall k | 0 <= k < |c|
          ensures name !in c[k].variables
        {
          if k > 0 {
            assert c[k] == c[1..][k - 1];
          }
        }
      }
    }
  }

  /** `get` gives the value of the nearest level binding the name to a value that is not null, and null when there is none. */
  lemma {:induction false} GetIsNearestValue(c: seq<Level>, name: string)
    ensures ChainGet(c, name).Some? ==> exists k: nat :: NearestValue(c, name, k) && ChainGet(c, name) == Lookup(c[k], name)
    ensures ChainGet(c, name).None? ==> forall j | 0 <= j < |c| :: Lookup(c[j], name).None?
    decreases |c|
  {
    if |c| > 0 && Lookup(c[0], name).None? {
      GetIsNearestValue(c[1..], name);
      if ChainGet(c[1..], name).Some? {
        var k: nat :| NearestValue(c[1..], name, k) && ChainGet(c[1..], name) == Lookup(c[1..][k], name);
        forall j | 0 <= j < k + 1
          ensures Lookup(c[j], name).None?
        {
          if j > 0 {
            assert c[j] == c[1..][j - 1];
          }
        }
        assert NearestValue(c, name, k + 1);
      } else {
        forall j | 0 <= j < |c|
          ensures Lookup(c[j], name).None?
        {
          if j > 0 {
            assert c[j] == c[1..][j - 1];
          }
        }
      }
    } else if |c| > 0 {
      assert NearestValue(c, name, 0);
    }
  }

  /** After `put(n, v)` with a value that is not null, the current table has `n` and `get(n)` is `v`. */
  lemma PutThenGet(c: Chain, name: string, v: Value)
    ensures ChainContainsHere(ChainPut(c, name, Some(v)), name)
    ensures ChainGet(ChainPut(c, name, Some(v)), name) == Some(v)
  {
  }

  /** A name bound to null in the current table still falls through to the parents' value. */
  lemma PutNullFallsThrough(c: Chain, name: string)
    ensures ChainContainsHere(ChainPut(c, name, None), name)
    ensures ChainGet(ChainPut(c, name, None), name) == ChainGet(c[1..], name)
  {
  }

  /** `put` leaves every other name as it was, in every table. */
  lemma PutLeavesOthers(c: Chain, name: string, value: Option<Value>, other: string)
    requires other != name
    ensures ChainGet(ChainPut(c, name, value), other) == ChainGet(c, other)
    ensures ChainContains(ChainPut(c, name, value), other) == ChainContains(c, other)
    ensures ChainContainsHere(ChainPut(c, name, value), other) == ChainContainsHere(c, other)
  {
    var d := ChainPut(c, name, value);
    assert d[1..] == c[1..];
  }

  /** A deletion refused changes nothing; one made removes the name from the nearest table that has it, and from no other. */
  lemma DeleteRemovesNearest(c: Chain, name: string)
    ensures !ChainDelete(c, name).0 ==> ChainDelete(c, name).1 == c
    ensures ChainContains(c, name) <==> FindTable(c, name).Some?
    ensures ChainDelete(c, name).0 <==> FindTable(c, name).Some? && !c[0].immutable && !c[FindTable(c, name).value].immutable
    ensures ChainDelete(c, name).0 ==> ChainDelete(c, name).1 == RemoveAt(c, FindTable(c, name).value, name)
  {
    ContainsSomewhere(c, name);
  }

  /** After a deletion the name is visible only if a table farther out than the one it was deleted from also has it. */
  lemma {:induction false} DeleteUncovers(c: Chain, name: string)
    requires ChainDelete(c, name).0
    ensures var k := FindTable(c, name).value;
      ChainContains(ChainDelete(c, name).1, name) <==> exists j | k < j < |c| :: name in c[j].variables
  {
    var k := FindTable(c, name).value;
    var d := ChainDelete(c, name).1;
    ContainsSomewhere(d, name);
    if ChainContains(d, name) {
      var j :| 0 <= j < |d| && name in d[j].variables;
      assert j != k;
      assert name in c[j].variables;
    }
    if exists j | k < j < |c| :: name in c[j].variables {
      var j :| k < j < |c| && name in c[j].variables;
      assert name in d[j].variables;
    }
  }

  /** No operation sets a table immutable: `put` and `delete` keep every flag, so a chain built by the constructors stays mutable. */
  lemma ImmutableNeverSet(c: Chain, name: string, value: Option<Value>)
    requires forall j | 0 <= j < |c| :: !c[j].immutable
    ensures forall j | 0 <= j < |c| :: !ChainPut(c, name, value)[j].immutable
    ensures forall j | 0 <= j < |c| :: !ChainDelete(c, name).1[j].immutable
    ensures ChainDelete(c, name).0 <==> ChainContains(c, name)
  {
    DeleteRemovesNearest(c, name);
    var d := ChainPut(c, name, value);
    forall j | 0 <= j < |c|
      ensures !d[j].immutable
    {
      if j > 0 {
        assert d[j] == d[1..][j - 1] == c[1..][j - 1];
      }
    }
  }
}
