/** TypedDatabase: string-keyed tables, one per value type, kept in a sorted
    dictionary by type. A type is an opaque identifier here; the sorted
    dictionary's key order is the increasing order of identifiers, kept in
    `types`. */
module TypedStore {
  type TypeId = nat

  datatype SerializableObject<V> = SerializableObject(obj: V, serialize: bool)

  type Table<V> = map<string, SerializableObject<V>>

  predicate Increasing(s: seq<TypeId>)
  {
    forall i, j :: 0 <= i < j < |s| ==> s[i] < s[j]
  }

  /** The registered types after adding t, in order. */
  function InsertSorted(s: seq<TypeId>, t: TypeId): (r: seq<TypeId>)
    requires Increasing(s)
    ensures Increasing(r)
    ensures forall x :: x in r <==> x in s || x == t
    ensures |r| == if t in s then |s| else |s| + 1
    ensures t in s ==> r == s
  {
    if s == [] then [t]
    else if t < s[0] then [t] + s
    else if t == s[0] then s
    else
      var rest := InsertSorted(s[1..], t);
      assert forall x :: x in s <==> x == s[0] || x in s[1..];
      assert forall i :: 0 <= i < |rest| ==> s[0] < rest[i] by {
        forall i | 0 <= i < |rest| ensures s[0] < rest[i] {
          assert rest[i] in s[1..] || rest[i] == t;
        }
      }
      [s[0]] + rest
  }

  /** The number of entries of all the listed types. */
  function SizeSum<V>(db: map<TypeId, Table<V>>, types: seq<TypeId>): nat
    requires forall t :: t in types ==> t in db
  {
    if types == [] then 0 else |db[types[0]]| + SizeSum(db, types[1..])
  }

  /** Some listed type holds the key. */
  predicate Holds<V>(db: map<TypeId, Table<V>>, types: seq<TypeId>, key: string)
    requires forall t :: t in types ==> t in db
  {
    exists i :: 0 <= i < |types| && key in db[types[i]]
  }

  /** A key is held by the listed types and one more exactly when it is
      held by the listed types or by the last one. */
  lemma HoldsSnoc<V>(db: map<TypeId, Table<V>>, types: seq<TypeId>, t: TypeId, key: string)
    requires forall x :: x in types ==> x in db
    requires t in db
    ensures Holds(db, types + [t], key) <==> Holds(db, types, key) || key in db[t]
  {
    var longer := types + [t];
    if Holds(db, longer, key) && key !in db[t] {
      var j :| 0 <= j < |longer| && key in db[longer[j]];
      assert j < |types| && key in db[types[j]];
    }
    if key in db[t] {
      assert key in db[longer[|types|]];
    }
    if Holds(db, types, key) {
      var j :| 0 <= j < |types| && key in db[types[j]];
      assert key in db[longer[j]];
    }
  }

  /** The keys of a table appended to a list, each once, in some order. */
  method AppendKeys<V>(keys: seq<string>, table: Table<V>) returns (r: seq<string>)
    ensures |r| == |keys| + |table|
    ensures forall key :: key in r <==> key in keys || key in table
  {
    r := keys;
    var remaining := table.Keys;
    while remaining != {}
      invariant remaining <= table.Keys
      invariant |r| == |keys| + |table.Keys - remaining|
      invariant forall key :: key in r <==> key in keys || (key in table && key !in remaining)
      decreases |remaining|
    {
      var key :| key in remaining;
      assert table.Keys - (remaining - {key}) == (table.Keys - remaining) + {key};
      r := r + [key];
      remaining := remaining - {key};
    }
    assert table.Keys - remaining == table.Keys;
  }

  lemma {:induction false} SizeSumAppend<V>(db: map<TypeId, Table<V>>, a: seq<TypeId>, b: seq<TypeId>)
    requires forall t :: t in a + b ==> t in db
    ensures SizeSum(db, a + b) == SizeSum(db, a) + SizeSum(db, b)
  {
    if a == [] {
      assert a + b == b;
    } else {
      assert (a + b)[1..] == a[1..] + b;
      SizeSumAppend(db, a[1..], b);
    }
  }

  /** Changing the table of a type that is listed once changes the total by
      the difference of the table sizes; a type not listed does not count. */
  lemma {:induction false} SizeSumUpdate<V>(db: map<TypeId, Table<V>>, types: seq<TypeId>, t: TypeId, table: Table<V>)
    requires forall x :: x in types ==> x in db
    requires Increasing(types)
    ensures t in types ==> SizeSum(db[t := table], types) == SizeSum(db, types) - |db[t]| + |table|
    ensures t !in types ==> SizeSum(db[t := table], types) == SizeSum(db, types)
  {
    if types != [] {
      SizeSumUpdate(db, types[1..], t, table);
      if types[0] == t {
        assert t !in types[1..];
      }
    }
  }

  /** Listing one more type adds its table's size. */
  lemma {:induction false} SizeSumInsert<V>(db: map<TypeId, Table<V>>, types: seq<TypeId>, t: TypeId)
    requires forall x :: x in types ==> x in db
    requires t in db && t !in types && Increasing(types)
    ensures SizeSum(db, InsertSorted(types, t)) == SizeSum(db, types) + |db[t]|
  {
    if types != [] && t > types[0] {
      SizeSumInsert(db, types[1..], t);
      assert InsertSorted(types, t)[1..] == InsertSorted(types[1..], t);
    }
  }

  /** The total is zero exactly when no listed type holds any key. */
  lemma {:induction false} SizeSumZero<V>(db: map<TypeId, Table<V>>, types: seq<TypeId>)
    requires forall t :: t in types ==> t in db
    ensures SizeSum(db, types) == 0 <==> forall key :: !Holds(db, types, key)
  {
    if types != [] {
      SizeSumZero(db, types[1..]);
      var tail := types[1..];
      if |db[types[0]]| != 0 {
        var key :| key in db[types[0]];
        assert Holds(db, types, key);
      } else {
        forall key ensures Holds(db, types, key) <==> Holds(db, tail, key) {
          if Holds(db, types, key) {
            var i :| 0 <= i < |types| && key in db[types[i]];
            assert i > 0 && key in db[tail[i - 1]];
          }
          if Holds(db, tail, key) {
            var i :| 0 <= i < |tail| && key in db[tail[i]];
            assert key in db[types[i + 1]];
          }
        }
      }
    }
  }

  class TypedDatabase<V> {
    var database: map<TypeId, Table<V>>
    var types: seq<TypeId>

    ghost predicate Valid()
      reads this`database, this`types
    {
      Increasing(types) && forall t :: t in types <==> t in database
    }

    /** The number of entries of all types. */
    function Total(): (n: nat)
      reads this`database, this`types
      requires Valid()
    {
      SizeSum(database, types)
    }

    /** The database starts with no types. */
    constructor ()
      ensures Valid() && database == map[] && types == []
    {
      database := map[];
      types := [];
    }

    /** Add<T>: registers the type if needed and adds the entry; a key the
        type's table already holds throws and changes nothing. */
    method Add(t: TypeId, key: string, value: V, serialize: bool) returns (thrown: bool)
      requires Valid()
      modifies this`database, this`types
      ensures Valid()
      ensures thrown <==> t in old(database) && key in old(database)[t]
      ensures thrown ==> database == old(database) && types == old(types)
      ensures !thrown ==>
        database == old(database)[t := (if t in old(database) then old(database)[t] else map[])[key := SerializableObject(value, serialize)]]
        && types == InsertSorted(old(types), t)
        && Total() == old(Total()) + 1
    {
      var tval := SerializableObject(value, serialize);
      if t in database {
        if key in database[t] {
          return true;
        }
        SizeSumUpdate(database, types, t, database[t][key := tval]);
        database := database[t := database[t][key := tval]];
      } else {
        var typedb: Table<V> := map[key := tval];
        SizeSumUpdate(database, types, t, typedb);
        database := database[t := typedb];
        SizeSumInsert(database, types, t);
        types := InsertSorted(types, t);
      }
      thrown := false;
    }

    /** Add(Type, ...): the entry goes in first through the indexer, which
        throws for an unregistered type; for a registered type the second
        insert of the same key throws. It never returns normally. */
    method AddByType(t: TypeId, key: string, value: V, serialize: bool) returns (thrown: bool)
      requires Valid()
      modifies this`database
      ensures Valid() && thrown
      ensures database ==
        if t in old(database) && key !in old(database)[t]
        then old(database)[t := old(database)[t][key := SerializableObject(value, serialize)]]
        else old(database)
    {
      if t !in database {
        return true;
      }
      if key in database[t] {
        return true;
      }
      database := database[t := database[t][key := SerializableObject(value, serialize)]];
      return true;
    }

    /** Removes every type. */
    method Clear()
      requires Valid()
      modifies this`database, this`types
      ensures Valid() && database == map[] && types == []
      ensures Total() == 0
    {
      database := map[];
      types := [];
    }

    /** Empties one type's table but keeps the type registered. */
    method ClearType(t: TypeId)
      requires Valid()
      modifies this`database
      ensures Valid()
      ensures database == if t in old(database) then old(database)[t := map[]] else old(database)
      ensures t in old(database) ==> Total() == old(Total()) - |old(database)[t]|
    {
      if t in database {
        SizeSumUpdate(database, types, t, map[]);
        database := database[t := map[]];
      }
    }

    /** Count: the sizes of the tables, summed in type order. */
    method Count() returns (count: nat)
      requires Valid()
      ensures count == Total()
      ensures count == 0 <==> forall key :: !Holds(database, types, key)
    {
      count := 0;
      var i := 0;
      while i < |types|
        invariant 0 <= i <= |types|
        invariant count == SizeSum(database, types[..i])
      {
        SizeSumAppend(database, types[..i], [types[i]]);
        assert types[..i + 1] == types[..i] + [types[i]];
        count := count + |database[types[i]]|;
        i := i + 1;
      }
      assert types[..i] == types;
      SizeSumZero(database, types);
    }

    /** Keys: the keys of each table, one table after the other; a key held
        by two types appears twice. */
    method Keys() returns (keys: seq<string>)
      requires Valid()
      ensures |keys| == Total()
      ensures forall key :: key in keys <==> Holds(database, types, key)
    {
      keys := [];
      var i := 0;
      while i < |types|
        invariant 0 <= i <= |types|
        invariant |keys| == SizeSum(database, types[..i])
        invariant forall key :: key in keys <==> Holds(database, types[..i], key)
      {
        keys := AppendKeys(keys, database[types[i]]);
        SizeSumAppend(database, types[..i], [types[i]]);
        assert types[..i + 1] == types[..i] + [types[i]];
        forall key ensures key in keys <==> Holds(database, types[..i + 1], key) {
          HoldsSnoc(database, types[..i], types[i], key);
        }
        i := i + 1;
      }
      assert types[..i] == types;
    }

    /** ContainsKey(key) and ContainsKey(type, key): whether any type holds
        the key; the type argument is ignored. */
    method ContainsKey(key: string) returns (found: bool)
      requires Valid()
      ensures found <==> Holds(database, types, key)
      ensures found <==> exists t :: t in database && key in database[t]
    {
      var i := 0;
      while i < |types|
        invariant 0 <= i <= |types|
        invariant forall j :: 0 <= j < i ==> key !in database[types[j]]
      {
        if key in database[types[i]] {
          return true;
        }
        i := i + 1;
      }
      found := false;
      forall t | t in database ensures key !in database[t] {
        var j :| 0 <= j < |types| && types[j] == t;
      }
    }

    /** Remove(key) and Remove(type, key): the key leaves every type's
        table; the type argument is ignored. */
    method Remove(key: string)
      requires Valid()
      modifies this`database
      ensures Valid() && types == old(types)
      ensures database == map t | t in old(database) :: old(database)[t] - {key}
      ensures forall k :: !Holds(database, types, k) ==> !Holds(old(database), types, k) || k == key
      ensures !Holds(database, types, key)
    {
      ghost var start := database;
      var i := 0;
      while i < |types|
        invariant 0 <= i <= |types|
        invariant database.Keys == start.Keys
        invariant forall j :: 0 <= j < i ==> database[types[j]] == start[types[j]] - {key}
        invariant forall j :: i <= j < |types| ==> database[types[j]] == start[types[j]]
      {
        var t := types[i];
        if key in database[t] {
          database := database[t := database[t] - {key}];
        } else {
          assert database[t] - {key} == database[t];
        }
        i := i + 1;
      }
      forall t | t in database ensures database[t] == start[t] - {key} {
        var j :| 0 <= j < |types| && types[j] == t;
      }
    }

    /** TryGetValue: the stored value when the type and the key are present,
        otherwise false and the default value. */
    method TryGetValue(t: TypeId, key: string, defaultVal: V) returns (found: bool, value: V)
      ensures found <==> t in database && key in database[t]
      ensures found ==> value == database[t][key].obj
      ensures !found ==> value == defaultVal
    {
      if t in database {
        found := key in database[t];
        value := if found then database[t][key].obj else defaultVal;
      } else {
        value := defaultVal;
        found := false;
      }
    }
  }
}
