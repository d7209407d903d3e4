/** JSON trees and the get-or-create updates that `serde_json`'s `entry` gives. */
module Json {
  import opened Base

  datatype Json =
    | Null
    | Bool(truth: bool)
    | Number(number: real)
    | Text(text: string)
    | Array(items: seq<Json>)
    | Object(fields: map<string, Json>)

  type Path = seq<string>

  const EMPTY := Object(map[])

  /** The value at a path of keys. */
  function At(j: Json, path: Path): Option<Json> {
    if path == [] then Some(j)
    else if j.Object? && path[0] in j.fields then At(j.fields[path[0]], path[1..])
    else None
  }

  /** Insert a value under a key of the object at a path, creating missing objects on
      the way; `None` when something on the way is not an object. */
  function Put(j: Json, path: Path, key: string, value: Json): Option<Json>
    decreases |path|
  {
    if !j.Object? then None
    else if path == [] then Some(Object(j.fields[key := value]))
    else
      var child := if path[0] in j.fields then j.fields[path[0]] else EMPTY;
      match Put(child, path[1..], key, value)
      case None => None
      case Some(child') => Some(Object(j.fields[path[0] := child']))
  }

  /** An update fails exactly when something that exists on its way is not an object. */
  lemma {:induction false} PutSucceedsIff(j: Json, path: Path, key: string, value: Json)
    ensures Put(j, path, key, value).Some? <==>
      forall k :: 0 <= k <= |path| ==> At(j, path[..k]).Some? ==> At(j, path[..k]).value.Object?
    decreases |path|
  {
    assert path[..0] == [];
    if j.Object? && path != [] {
      var child := if path[0] in j.fields then j.fields[path[0]] else EMPTY;
      PutSucceedsIff(child, path[1..], key, value);
      forall k | 1 <= k <= |path|
        ensures At(j, path[..k]) == if path[0] in j.fields then At(child, path[1..][..k - 1]) else None
      {
        assert path[..k][1..] == path[1..][..k - 1];
      }
      if path[0] in j.fields {
        forall k | 0 <= k <= |path[1..]|
          ensures At(child, path[1..][..k]) == At(j, path[..k + 1])
        {
          assert path[..k + 1][1..] == path[1..][..k];
        }
      } else {
        NewObjectsAreObjects(path[1..]);
      }
    }
  }

  lemma NewObjectsAreObjects(path: Path)
    ensures forall k :: 0 <= k <= |path| ==> At(EMPTY, path[..k]).Some? ==> At(EMPTY, path[..k]).value.Object?
  {
  }

  /** What was put is what is found. */
  lemma {:induction false} PutThenAt(j: Json, path: Path, key: string, value: Json)
    requires Put(j, path, key, value).Some?
    ensures At(Put(j, path, key, value).value, path + [key]) == Some(value)
    decreases |path|
  {
    if path != [] {
      var child := if path[0] in j.fields then j.fields[path[0]] else EMPTY;
      PutThenAt(child, path[1..], key, value);
      assert (path + [key])[1..] == path[1..] + [key];
    } else {
      assert (path + [key])[1..] == [];
    }
  }

  /** A second update of the same place overwrites the first. */
  lemma {:induction false} PutThenPut(j: Json, path: Path, key: string, value: Json, value': Json)
    requires Put(j, path, key, value).Some?
    ensures Put(Put(j, path, key, value).value, path, key, value') == Put(j, path, key, value')
    decreases |path|
  {
    if path != [] {
      var child := if path[0] in j.fields then j.fields[path[0]] else EMPTY;
      PutThenPut(child, path[1..], key, value, value');
      PutSomeSame(child, path[1..], key, value, value');
      var child1 := Put(child, path[1..], key, value).value;
      var child2 := Put(child, path[1..], key, value').value;
      assert j.fields[path[0] := child1][path[0] := child2] == j.fields[path[0] := child2];
    } else {
      assert j.fields[key := value][key := value'] == j.fields[key := value'];
    }
  }

  lemma {:induction false} PutSomeSame(j: Json, path: Path, key: string, value: Json, value': Json)
    ensures Put(j, path, key, value).Some? <==> Put(j, path, key, value').Some?
    decreases |path|
  {
    if j.Object? && path != [] {
      PutSomeSame(if path[0] in j.fields then j.fields[path[0]] else EMPTY, path[1..], key, value, value');
    }
  }

  /** Putting back what is there changes nothing. */
  lemma {:induction false} PutWhatIsThere(j: Json, path: Path, key: string)
    requires At(j, path + [key]).Some?
    ensures Put(j, path, key, At(j, path + [key]).value) == Some(j)
    decreases |path|
  {
    if path != [] {
      assert (path + [key])[1..] == path[1..] + [key];
      PutWhatIsThere(j.fields[path[0]], path[1..], key);
      assert j.fields[path[0] := j.fields[path[0]]] == j.fields;
    } else {
      assert (path + [key])[1..] == [];
      assert j.fields[key := j.fields[key]] == j.fields;
    }
  }

  /** Places neither above nor below what was put are as they were. */
  lemma {:induction false} PutElsewhere(j: Json, path: Path, key: string, value: Json, q: Path)
    requires Put(j, path, key, value).Some?
    requires !(q <= path + [key]) && !(path + [key] <= q)
    ensures At(Put(j, path, key, value).value, q) == At(j, q)
    decreases |path|
  {
    if path == [] {
      assert q[0] == key ==> [key] <= q;
    } else if q[0] == path[0] {
      var child := if path[0] in j.fields then j.fields[path[0]] else EMPTY;
      assert path + [key] == [path[0]] + (path[1..] + [key]) && q == [q[0]] + q[1..];
      PutElsewhere(child, path[1..], key, value, q[1..]);
      assert q[1..] != [];
    }
  }

  /** The places above what was put are objects, made where they were missing. */
  lemma {:induction false} PutAbove(j: Json, path: Path, key: string, value: Json, k: nat)
    requires Put(j, path, key, value).Some? && k <= |path|
    ensures At(Put(j, path, key, value).value, path[..k]).Some?
    ensures At(Put(j, path, key, value).value, path[..k]).value.Object?
    decreases |path|
  {
    if k > 0 {
      assert path[..k][1..] == path[1..][..k - 1];
      PutAbove(if path[0] in j.fields then j.fields[path[0]] else EMPTY, path[1..], key, value, k - 1);
    }
  }
}
