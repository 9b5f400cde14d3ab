/**
 * Objects with a mutable entry map (types/SkObject.java) and classes with a
 * mutable method table (types/SkClass.java). Entries and methods may be Java
 * null, so both maps hold `Option<Value>`.
 */
module Objects {
  import opened Wrappers
  import opened Values

  /**
   * `Map.computeIfAbsent(key, f)` where `f` gives `computed`: a key present
   * with a value that is not null keeps it; otherwise a computed value that
   * is not null is inserted and returned, and a null one leaves the map as it
   * was. Gives the value returned and the new map.
   */
  function ComputeIfAbsent(m: map<string, Option<Value>>, key: string, computed: Option<Value>): (r: (Option<Value>, map<string, Option<Value>>))
    ensures key in m && m[key].Some? ==> r == (m[key], m)
    ensures !(key in m && m[key].Some?) && computed.Some? ==> r == (computed, m[key := computed])
    ensures !(key in m && m[key].Some?) && computed.None? ==> r == (None, m)
  {
    if key in m && m[key].Some? then (m[key], m)
    else if computed.Some? then (computed, m[key := computed])
    else (None, m)
  }

  /** An SkClass: its method table, its parent class and its name. */
  class SkClass {
    var methods: map<string, Option<Value>>
    const parent: SkClass?
    const name: string

    /** `new SkClass()`: no parent, and the name "UnnamedClass". */
    constructor Unnamed()
      ensures parent == null && name == "UnnamedClass" && methods == map[]
    {
      parent := null;
      name := "UnnamedClass";
      methods := map[];
    }

    /** `new SkClass(parent, name)`. */
    constructor (parent: SkClass?, name: string)
      ensures this.parent == parent && this.name == name && methods == map[]
    {
      this.parent := parent;
      this.name := name;
      methods := map[];
    }

    /** `hasMethod`. */
    predicate HasMethod(n: string)
      reads this
    {
      n in methods
    }

    /** `getMethod`: null for a name the table does not have. */
    function GetMethod(n: string): (f: Option<Value>)
      reads this
      ensures !HasMethod(n) ==> f.None?
    {
      if n in methods then methods[n] else None
    }

    /** `addMethod`: binds the name, replacing any method it had; the other methods stay. */
    method AddMethod(n: string, f: Option<Value>)
      requires f.None? || f.value.Function?
      modifies this
      ensures methods == old(methods)[n := f]
      ensures HasMethod(n) && GetMethod(n) == f
      ensures forall m | m != n :: GetMethod(m) == old(GetMethod(m)) && (HasMethod(m) <==> old(HasMethod(m)))
    {
      methods := methods[n := f];
    }
  }

  /** An SkObject: its entry map and the class it is an instance of, if any. */
  class SkObject {
    var values: map<string, Option<Value>>
    const instanceOf: SkClass?

    /** `new SkObject(instanceOf, values)`; the other constructors pass null or an empty map. */
    constructor (instanceOf: SkClass?, values: map<string, Option<Value>>)
      ensures this.instanceOf == instanceOf && this.values == values
    {
      this.instanceOf := instanceOf;
      this.values := values;
    }

    /** The object as a value: its entries and its class's name. */
    function Snapshot(): (v: Value)
      reads this
      ensures v.Object? && v.entries == values
    {
      Object(values, if instanceOf == null then None else Some(instanceOf.name))
    }

    /** The type tag: "Object" without a class, otherwise the class's name. */
    function TypeName(): (r: string)
      reads this
      ensures r == Values.TypeName(Snapshot())
      ensures instanceOf == null ==> r == "Object"
      ensures instanceOf != null ==> r == instanceOf.name
    {
      if instanceOf == null then "Object" else instanceOf.name
    }

    /** `get`: the entry's value; an absent or null entry is set to a new SkNull, which is returned. */
    method Get(key: string) returns (v: Option<Value>)
      modifies this
      ensures (v, values) == ComputeIfAbsent(old(values), key, Some(Null))
    {
      var r := ComputeIfAbsent(values, key, Some(Null));
      v := r.0;
      values := r.1;
    }

    /** `put`: overwrites the entry and returns its previous value (null if it had none). */
    method Put(key: string, value: Option<Value>) returns (previous: Option<Value>)
      modifies this
      ensures values == old(values)[key := value]
      ensures previous == if key in old(values) then old(values)[key] else None
    {
      previous := if key in values then values[key] else None;
      values := values[key := value];
    }

    /**
     * `find`: the entry's value; an absent or null entry is filled with a new
     * SkNull when the object has no class, and otherwise with the class's
     * method, unless that is null, in which case nothing is inserted.
     */
    method Find(n: string) returns (v: Option<Value>)
      modifies this
      ensures (v, values) == ComputeIfAbsent(old(values), n, if instanceOf == null then Some(Null) else instanceOf.GetMethod(n))
    {
      var computed := if instanceOf == null then Some(Null) else instanceOf.GetMethod(n);
      var r := ComputeIfAbsent(values, n, computed);
      v := r.0;
      values := r.1;
    }
  }

  // Properties

  /** `get` of an absent key inserts SkNull: the key set grows by exactly that key, and `get` never returns null. */
  lemma GetInsertsNull(m: map<string, Option<Value>>, key: string)
    ensures ComputeIfAbsent(m, key, Some(Null)).0.Some?
    ensures key !in m ==> ComputeIfAbsent(m, key, Some(Null)).1.Keys == m.Keys + {key}
    ensures key in m ==> ComputeIfAbsent(m, key, Some(Null)).1.Keys == m.Keys
  {
  }

  /** A second `get` or `find` of the same key returns what the first returned and changes nothing, whenever the first returned a value. */
  lemma ComputeIfAbsentSettles(m: map<string, Option<Value>>, key: string, computed: Option<Value>, again: Option<Value>)
    requires ComputeIfAbsent(m, key, computed).0.Some?
    ensures var (v, m') := ComputeIfAbsent(m, key, computed); ComputeIfAbsent(m', key, again) == (v, m')
  {
  }

  /** `get` and `find` change no other entry. */
  lemma ComputeIfAbsentLeavesOthers(m: map<string, Option<Value>>, key: string, computed: Option<Value>, other: string)
    requires other != key
    ensures var m' := ComputeIfAbsent(m, key, computed).1;
      (other in m' <==> other in m) && (other in m ==> m'[other] == m[other])
  {
  }
}
