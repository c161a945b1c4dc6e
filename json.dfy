/** The Python values the loader handles: what `json.load` returns, plus the floats that
    `float()` produces (both are `Number`). Lookups and iteration follow Python's rules:
    subscripting anything but a dict raises, iterating a dict yields its keys and
    iterating a string yields its characters. */
module Json {
  import opened Results

  /** A dict is the sequence of its entries in insertion order; its keys are distinct,
      as in any Python dict, so the first entry with a key is the only one. */
  datatype Value =
    | Null
    | Bool(b: bool)
    | Number(n: real)
    | Str(s: string)
    | Array(items: seq<Value>)
    | Object(fields: seq<Field>)

  datatype Field = Field(key: string, value: Value)

  /** The Python exception a step raises; the loader catches every kind alike. */
  datatype Error =
    | KeyError(key: string)
    | TypeError
    | ValueError
    | AttributeError
    | DatabaseError

  type Outcome<T> = Result<T, Error>

  /** The value stored under `key`, if any. */
  function Lookup(fields: seq<Field>, key: string): Option<Value> {
    if fields == [] then None
    else if fields[0].key == key then Some(fields[0].value)
    else Lookup(fields[1..], key)
  }

  /** A lookup finds nothing exactly when no entry has the key, and otherwise finds the
      value of an entry with that key. */
  lemma {:induction false} LookupSpec(fields: seq<Field>, key: string)
    ensures Lookup(fields, key).None? <==> forall i :: 0 <= i < |fields| ==> fields[i].key != key
    ensures Lookup(fields, key).Some? ==>
              exists i :: 0 <= i < |fields| && fields[i] == Field(key, Lookup(fields, key).value)
  {
    if fields != [] && fields[0].key != key {
      LookupSpec(fields[1..], key);
      assert forall i :: 0 < i < |fields| ==> fields[i] == fields[1..][i - 1];
      if Lookup(fields, key).Some? {
        var j :| 0 <= j < |fields[1..]| && fields[1..][j] == Field(key, Lookup(fields, key).value);
        assert fields[j + 1] == Field(key, Lookup(fields, key).value);
      }
    }
  }

  /** `v[key]`. */
  function Get(v: Value, key: string): Outcome<Value> {
    if !v.Object? then Err(TypeError)
    else
      match Lookup(v.fields, key)
      case Some(x) => Ok(x)
      case None => Err(KeyError(key))
  }

  /** Subscripting succeeds exactly on a dict holding the key and yields the value of its
      entry; a dict without the key raises KeyError and anything else TypeError. */
  lemma GetSpec(v: Value, key: string)
    ensures Get(v, key).Ok? <==> v.Object? && exists i :: 0 <= i < |v.fields| && v.fields[i].key == key
    ensures Get(v, key).Ok? ==> Field(key, Get(v, key).value) in v.fields
    ensures Get(v, key).Err? ==> Get(v, key).error == if v.Object? then KeyError(key) else TypeError
  {
    if v.Object? {
      LookupSpec(v.fields, key);
    }
  }

  /** `v[k0][k1]...`, one subscript per key. */
  function Path(v: Value, keys: seq<string>): (r: Outcome<Value>)
    ensures keys == [] ==> r == Ok(v)
    ensures |keys| == 1 ==> r == Get(v, keys[0])
    decreases |keys|
  {
    if keys == [] then Ok(v)
    else
      var child :- Get(v, keys[0]);
      Path(child, keys[1..])
  }

  /** The values at several paths of one object, in order: a tuple of subscripts. */
  function Paths(v: Value, paths: seq<seq<string>>): (r: Outcome<seq<Value>>)
    ensures r.Ok? <==> forall i :: 0 <= i < |paths| ==> Path(v, paths[i]).Ok?
    ensures r.Ok? ==> |r.value| == |paths|
                      && forall i :: 0 <= i < |paths| ==> Path(v, paths[i]) == Ok(r.value[i])
  {
    MapAll(paths, (p: seq<string>) => Path(v, p))
  }

  /** The elements a Python `for` loop over `v` visits. */
  function Iterate(v: Value): (r: Outcome<seq<Value>>)
    ensures r.Ok? <==> v.Array? || v.Object? || v.Str?
    ensures v.Array? ==> r == Ok(v.items)
    ensures v.Object? ==> r.Ok? && |r.value| == |v.fields|
                          && forall i :: 0 <= i < |v.fields| ==> r.value[i] == Str(v.fields[i].key)
    ensures v.Str? ==> r.Ok? && |r.value| == |v.s|
                       && forall i :: 0 <= i < |v.s| ==> r.value[i] == Str([v.s[i]])
  {
    match v
    case Array(items) => Ok(items)
    case Object(fields) => Ok(seq(|fields|, i requires 0 <= i < |fields| => Str(fields[i].key)))
    case Str(s) => Ok(seq(|s|, i requires 0 <= i < |s| => Str([s[i]])))
    case _ => Err(TypeError)
  }

  /** `v.items()`: only a dict has it. */
  function Items(v: Value): (r: Outcome<seq<Field>>)
    ensures r.Ok? <==> v.Object?
    ensures v.Object? ==> r == Ok(v.fields)
  {
    if v.Object? then Ok(v.fields) else Err(AttributeError)
  }
}
