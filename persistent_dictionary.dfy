/** PersistentDictionary<T>: a string-keyed store whose entries may be
    marked to be saved, with a write counter used as the record count when
    the store is written out.

    The binary stream is a sequence of tokens: the Int32 header, then per
    record a string key and a value. A reader that runs out of tokens throws
    EndOfStreamException (EndOfStream); a token of the wrong kind stands for
    bytes read as something they were not (Corrupt). */
module Persistence {
  import opened Common

  datatype PersistentData<T> = PersistentData(value: T, saveToDisk: bool)

  /** The value types the store's writer and reader tables know, and the rest. */
  datatype ValueKind =
    | Bool | Byte | SByte | Char | Decimal | Double | Float | Int | UInt
    | Long | ULong | Short | UShort | String | OtherType

  predicate Supported(kind: ValueKind)
  {
    kind != OtherType
  }

  datatype Token<T> = CountToken(count: int) | KeyToken(key: string) | ValueToken(value: T)

  datatype Error = NotSupported | EndOfStream | Corrupt

  datatype Result<R> = Success(value: R) | Failure(error: Error)

  /** The records a reader got, and the error that stopped it, if any. */
  datatype Read<T> = Read(records: seq<(string, T)>, error: Option<Error>)

  /** A store read: the stored value, or the default when the key is absent. */
  function Get<T>(m: map<string, PersistentData<T>>, key: string, defaultVal: T): T
  {
    if key in m then m[key].value else defaultVal
  }

  /** Writing a key makes it present with the new value and leaves every other key as it was. */
  lemma GetAfterSet<T>(m: map<string, PersistentData<T>>, key: string, val: T, save: bool, other: string, defaultVal: T)
    ensures Get(m[key := PersistentData(val, save)], key, defaultVal) == val
    ensures key in m[key := PersistentData(val, save)]
    ensures other != key ==>
      Get(m[key := PersistentData(val, save)], other, defaultVal) == Get(m, other, defaultVal)
      && (other in m[key := PersistentData(val, save)] <==> other in m)
  {
  }

  /** The key and value tokens of the records, in order. */
  function Flatten<T>(records: seq<(string, T)>): (ts: seq<Token<T>>)
    ensures |ts| == 2 * |records|
  {
    if records == [] then []
    else [KeyToken(records[0].0), ValueToken(records[0].1)] + Flatten(records[1..])
  }

  /** The records of the keys in order whose entries are marked to be saved. */
  function Saved<T>(m: map<string, PersistentData<T>>, order: seq<string>): seq<(string, T)>
    requires forall k :: k in order ==> k in m
  {
    if order == [] then []
    else
      (if m[order[0]].saveToDisk then [(order[0], m[order[0]].value)] else [])
      + Saved(m, order[1..])
  }

  /** The reading loop: n records, each a key then a value. A non-positive
      count reads nothing. */
  function ReadRecords<T>(ts: seq<Token<T>>, n: int): (r: Read<T>)
    ensures |r.records| <= if n > 0 then n else 0
    decreases if n > 0 then n else 0
  {
    if n <= 0 then Read([], None)
    else if |ts| == 0 then Read([], Some(EndOfStream))
    else if !ts[0].KeyToken? then Read([], Some(Corrupt))
    else if |ts| == 1 then Read([], Some(EndOfStream))
    else if !ts[1].ValueToken? then Read([], Some(Corrupt))
    else
      var rest := ReadRecords(ts[2..], n - 1);
      Read([(ts[0].key, ts[1].value)] + rest.records, rest.error)
  }

  /** Stores each record in turn, saved, as SetEntry(key, value, true) does. */
  function Apply<T>(m: map<string, PersistentData<T>>, records: seq<(string, T)>): map<string, PersistentData<T>>
    decreases |records|
  {
    if records == [] then m
    else Apply(m[records[0].0 := PersistentData(records[0].1, true)], records[1..])
  }

  /** The entries the records leave, the last record of a key winning. */
  function MapOf<T>(records: seq<(string, T)>): map<string, PersistentData<T>>
  {
    if records == [] then map[]
    else map[records[0].0 := PersistentData(records[0].1, true)] + MapOf(records[1..])
  }

  /** The saved entries of a store, all marked to be saved. */
  function SavedEntries<T>(m: map<string, PersistentData<T>>): map<string, PersistentData<T>>
  {
    map k | k in m && m[k].saveToDisk :: PersistentData(m[k].value, true)
  }

  /** Reading exactly as many records as were written gives them back. */
  lemma {:induction false} ReadFlattened<T>(records: seq<(string, T)>, rest: seq<Token<T>>)
    ensures ReadRecords(Flatten(records) + rest, |records|) == Read(records, None)
  {
    if records != [] {
      var head: seq<Token<T>> := [KeyToken(records[0].0), ValueToken(records[0].1)];
      var tail := Flatten(records[1..]) + rest;
      var ts := Flatten(records) + rest;
      assert ts == head + tail;
      assert ts[0] == head[0] && ts[1] == head[1] && ts[2..] == tail;
      ReadFlattened(records[1..], rest);
      assert [(ts[0].key, ts[1].value)] + records[1..] == records;
    }
  }

  /** Reading one record more than were written runs off the end of the stream. */
  lemma {:induction false} ReadPastFlattened<T>(records: seq<(string, T)>)
    ensures ReadRecords(Flatten(records), |records| + 1) == Read(records, Some(EndOfStream))
  {
    if records != [] {
      var ts := Flatten(records);
      assert ts[2..] == Flatten(records[1..]);
      ReadPastFlattened(records[1..]);
      assert [(ts[0].key, ts[1].value)] + records[1..] == records;
    }
  }

  /** Storing records one by one is a map union, later records winning. */
  lemma {:induction false} ApplyIsUnion<T>(m: map<string, PersistentData<T>>, records: seq<(string, T)>)
    ensures Apply(m, records) == m + MapOf(records)
    decreases |records|
  {
    if records != [] {
      var r := records[0];
      ApplyIsUnion(m[r.0 := PersistentData(r.1, true)], records[1..]);
      assert m[r.0 := PersistentData(r.1, true)] + MapOf(records[1..])
          == m + (map[r.0 := PersistentData(r.1, true)] + MapOf(records[1..]));
    }
  }

  /** The records written for every key of a store describe exactly its saved entries. */
  lemma {:induction false} SavedCoversStore<T>(m: map<string, PersistentData<T>>, order: seq<string>)
    requires forall k :: k in order ==> k in m
    ensures forall x :: x in MapOf(Saved(m, order)) <==> x in order && m[x].saveToDisk
    ensures forall x :: x in MapOf(Saved(m, order)) ==> MapOf(Saved(m, order))[x] == PersistentData(m[x].value, true)
  {
    if order != [] {
      var k := order[0];
      var tail := Saved(m, order[1..]);
      SavedCoversStore(m, order[1..]);
      if m[k].saveToDisk {
        var head := (k, m[k].value);
        assert Saved(m, order) == [head] + tail;
        assert ([head] + tail)[1..] == tail;
        assert MapOf(Saved(m, order)) == map[k := PersistentData(m[k].value, true)] + MapOf(tail);
      } else {
        assert Saved(m, order) == tail;
      }
      forall x ensures x in order <==> x == k || x in order[1..] {
        assert order == [k] + order[1..];
      }
    }
  }

  /** Writing the saved records with their own number as the header and
      reading them into an empty store gives back the saved entries. */
  lemma CountedRoundTrip<T>(m: map<string, PersistentData<T>>, order: seq<string>)
    requires forall k :: k in order <==> k in m
    ensures var records := Saved(m, order);
      ReadRecords(Flatten(records), |records|) == Read(records, None)
      && Apply(map[], records) == SavedEntries(m)
  {
    var records := Saved(m, order);
    ReadFlattened(records, []);
    assert Flatten(records) + [] == Flatten(records);
    ApplyIsUnion(map[], records);
    SavedCoversStore(m, order);
    assert map[] + MapOf(records) == MapOf(records);
    assert MapOf(records).Keys == SavedEntries(m).Keys;
  }

  /** Overwriting a saved key counts two writes for one record: read back
      with that header, the store runs off the end of its stream. */
  lemma RewrittenKeyOverreads<T>(key: string, v1: T, v2: T)
    ensures var m := map[][key := PersistentData(v1, true)][key := PersistentData(v2, true)];
      Saved(m, [key]) == [(key, v2)]
      && ReadRecords(Flatten(Saved(m, [key])), 2) == Read([(key, v2)], Some(EndOfStream))
  {
    var m := map[][key := PersistentData(v1, true)][key := PersistentData(v2, true)];
    assert Saved(m, [key]) == [(key, v2)];
    ReadPastFlattened([(key, v2)]);
  }

  class PersistentDictionary<T> {
    var dictionary: map<string, PersistentData<T>>
    var writeCount: int
    const kind: ValueKind

    /** The initial capacity has no observable effect. */
    constructor (kind: ValueKind)
      ensures dictionary == map[] && writeCount == 0 && this.kind == kind
    {
      dictionary := map[];
      writeCount := 0;
      this.kind := kind;
    }

    /** Stores or replaces the entry; every saved write is counted, replacements included. */
    method SetEntry(key: string, val: T, saveToDisk: bool)
      modifies this`dictionary, this`writeCount
      ensures dictionary == old(dictionary)[key := PersistentData(val, saveToDisk)]
      ensures writeCount == old(writeCount) + (if saveToDisk then 1 else 0)
      ensures HasEntry(key) && GetEntry(key, val) == val
    {
      dictionary := dictionary[key := PersistentData(val, saveToDisk)];
      if saveToDisk {
        writeCount := writeCount + 1;
      }
    }

    function GetEntry(key: string, defaultVal: T): (r: T)
      reads this`dictionary
      ensures key !in dictionary ==> r == defaultVal
      ensures key in dictionary ==> r == dictionary[key].value
    {
      Get(dictionary, key, defaultVal)
    }

    /** Removes a present entry and uncounts a write, whether or not the
        entry was marked to be saved. */
    method RemoveEntry(key: string)
      modifies this`dictionary, this`writeCount
      ensures dictionary == old(dictionary) - {key}
      ensures writeCount == old(writeCount) - (if key in old(dictionary) then 1 else 0)
      ensures !HasEntry(key)
      ensures forall k :: k != key ==> HasEntry(k) == old(HasEntry(k))
    {
      if key in dictionary {
        dictionary := dictionary - {key};
        writeCount := writeCount - 1;
      }
    }

    predicate HasEntry(key: string)
      reads this`dictionary
    {
      key in dictionary
    }

    /** Empties the store; the write counter is kept. */
    method Clear()
      modifies this`dictionary
      ensures dictionary == map[]
    {
      dictionary := map[];
    }

    /** Writes the write counter as the header, then a record for each saved
        entry, in the dictionary's own (unspecified) order, given as `order`. */
    method Serialize() returns (result: Result<seq<Token<T>>>, ghost order: seq<string>)
      ensures !Supported(kind) <==> result == Failure(NotSupported)
      ensures Supported(kind) ==> forall k :: k in order <==> k in dictionary
      ensures Supported(kind) ==> result == Success([CountToken(writeCount)] + Flatten(Saved(dictionary, order)))
    {
      order := [];
      if !Supported(kind) {
        return Failure(NotSupported), order;
      }
      var out := [CountToken(writeCount)];
      var remaining := dictionary.Keys;
      while remaining != {}
        invariant remaining <= dictionary.Keys
        invariant forall k :: k in order <==> k in dictionary && k !in remaining
        invariant out == [CountToken(writeCount)] + Flatten(Saved(dictionary, order))
        decreases |remaining|
      {
        var key :| key in remaining;
        var entry := dictionary[key];
        ghost var extra := if entry.saveToDisk then [(key, entry.value)] else [];
        FlattenAppend(Saved(dictionary, order), extra);
        if entry.saveToDisk {
          out := out + [KeyToken(key), ValueToken(entry.value)];
        }
        SavedSnoc(dictionary, order, key);
        order := order + [key];
        remaining := remaining - {key};
      }
      result := Success(out);
    }

    /** Serialize with the number of records written as the header, so that
        a reader reads exactly the records there are. */
    method SerializeCounted() returns (result: Result<seq<Token<T>>>, ghost order: seq<string>)
      ensures !Supported(kind) <==> result == Failure(NotSupported)
      ensures Supported(kind) ==> forall k :: k in order <==> k in dictionary
      ensures Supported(kind) ==>
        var records := Saved(dictionary, order);
        result == Success([CountToken(|records|)] + Flatten(records))
    {
      result, order := Serialize();
      if result.Success? {
        var body := result.value[1..];
        assert body == Flatten(Saved(dictionary, order));
        result := Success([CountToken(|body| / 2)] + body);
      }
    }

    /** Reads the header, then that many records, storing each with
        SetEntry(key, value, true); records read before an error stay stored. */
    method Deserialize(ts: seq<Token<T>>) returns (error: Option<Error>)
      modifies this`dictionary, this`writeCount
      ensures !Supported(kind) ==> error == Some(NotSupported) && dictionary == old(dictionary) && writeCount == old(writeCount)
      ensures Supported(kind) && ts == [] ==> error == Some(EndOfStream) && dictionary == old(dictionary) && writeCount == old(writeCount)
      ensures Supported(kind) && ts != [] && !ts[0].CountToken? ==> error == Some(Corrupt) && dictionary == old(dictionary) && writeCount == old(writeCount)
      ensures Supported(kind) && ts != [] && ts[0].CountToken? ==>
        var r := ReadRecords(ts[1..], ts[0].count);
        error == r.error && dictionary == Apply(old(dictionary), r.records)
        && writeCount == old(writeCount) + |r.records|
    {
      if !Supported(kind) {
        return Some(NotSupported);
      }
      if ts == [] {
        return Some(EndOfStream);
      }
      if !ts[0].CountToken? {
        return Some(Corrupt);
      }
      var buffCount := ts[0].count;
      ghost var whole := ReadRecords(ts[1..], buffCount);
      ghost var done: seq<(string, T)> := [];
      var pos := 1;
      var i := 0;
      while i < buffCount
        invariant 0 <= i && 1 <= pos <= |ts|
        invariant whole == (var rest := ReadRecords(ts[pos..], buffCount - i); Read(done + rest.records, rest.error))
        invariant dictionary == Apply(old(dictionary), done) && writeCount == old(writeCount) + |done|
      {
        ReadRecordsStep(ts, pos, buffCount - i);
        var record := RecordAt(ts, pos);
        if record.Failure? {
          assert done + [] == done;
          return Some(record.error);
        }
        var tkey := record.value.0;
        var tval := record.value.1;
        ghost var rest := ReadRecords(ts[pos + 2..], buffCount - i - 1);
        assert done + ([(tkey, tval)] + rest.records) == (done + [(tkey, tval)]) + rest.records;
        ApplySnoc(old(dictionary), done, (tkey, tval));
        SetEntry(tkey, tval, true);
        done := done + [(tkey, tval)];
        pos := pos + 2;
        i := i + 1;
      }
      assert done + [] == done;
      return None;
    }
  }

  /** ReadString then the value reader, at token pos: the record, or the
      exception the first failing read throws. */
  function RecordAt<T>(ts: seq<Token<T>>, pos: int): Result<(string, T)>
    requires 0 <= pos <= |ts|
  {
    if pos == |ts| then Failure(EndOfStream)
    else if !ts[pos].KeyToken? then Failure(Corrupt)
    else if pos + 1 == |ts| then Failure(EndOfStream)
    else if !ts[pos + 1].ValueToken? then Failure(Corrupt)
    else Success((ts[pos].key, ts[pos + 1].value))
  }

  /** One round of the reading loop, from token pos with n records to go. */
  lemma ReadRecordsStep<T>(ts: seq<Token<T>>, pos: int, n: int)
    requires 0 <= pos <= |ts| && n > 0
    ensures RecordAt(ts, pos).Failure? ==> ReadRecords(ts[pos..], n) == Read([], Some(RecordAt(ts, pos).error))
    ensures RecordAt(ts, pos).Success? ==>
      pos + 2 <= |ts| &&
      var rest := ReadRecords(ts[pos + 2..], n - 1);
      ReadRecords(ts[pos..], n) == Read([RecordAt(ts, pos).value] + rest.records, rest.error)
  {
    if pos + 1 < |ts| {
      assert ts[pos..][2..] == ts[pos + 2..];
    }
  }

  lemma {:induction false} SavedSnoc<T>(m: map<string, PersistentData<T>>, order: seq<string>, key: string)
    requires forall k :: k in order ==> k in m
    requires key in m
    ensures Saved(m, order + [key])
         == Saved(m, order) + (if m[key].saveToDisk then [(key, m[key].value)] else [])
  {
    if order == [] {
      assert order + [key] == [key];
      assert Saved(m, [key]) == (if m[key].saveToDisk then [(key, m[key].value)] else []) + Saved(m, []);
    } else {
      var o := order + [key];
      assert o[0] == order[0] && o[1..] == order[1..] + [key];
      SavedSnoc(m, order[1..], key);
    }
  }

  lemma {:induction false} FlattenAppend<T>(a: seq<(string, T)>, b: seq<(string, T)>)
    ensures Flatten(a + b) == Flatten(a) + Flatten(b)
  {
    if a != [] {
      assert (a + b)[1..] == a[1..] + b;
      FlattenAppend(a[1..], b);
    } else {
      assert a + b == b;
    }
  }

  lemma {:induction false} ApplySnoc<T>(m: map<string, PersistentData<T>>, records: seq<(string, T)>, r: (string, T))
    ensures Apply(m, records + [r]) == Apply(m, records)[r.0 := PersistentData(r.1, true)]
    decreases |records|
  {
    if records == [] {
      assert records + [r] == [r];
    } else {
      assert (records + [r])[1..] == records[1..] + [r];
      ApplySnoc(m[records[0].0 := PersistentData(records[0].1, true)], records[1..], r);
    }
  }
}
