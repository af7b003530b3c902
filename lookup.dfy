/**
 * The by-name lookups: a scan returning the first entry whose field equals the
 * name (getByName, getDataByKey), and the direct key access of the champion
 * and item documents (`$data[$name]`).
 */
module Lookup {
  import opened Base
  import opened OrderedMap
  import opened Json

  /** `isset($d[$key]) && $d[$key] === $name`. */
  predicate HasField(d: Value, key: string, name: string) {
    Field(d, key) == Some(Str(name))
  }

  /** The first entry whose field equals name, or NotFound. */
  function FirstWith(entries: seq<Value>, key: string, name: string): (r: Result<Value>)
    ensures r.Err? ==> r.error == NotFound(name)
  {
    if entries == [] then Err(NotFound(name))
    else if HasField(entries[0], key, name) then Ok(entries[0])
    else FirstWith(entries[1..], key, name)
  }

  /** The foreach with its early return. */
  method FindFirst(entries: seq<Value>, key: string, name: string) returns (r: Result<Value>)
    ensures r == FirstWith(entries, key, name)
  {
    var i := 0;
    while i < |entries|
      invariant 0 <= i <= |entries|
      invariant FirstWith(entries, key, name) == FirstWith(entries[i..], key, name)
    {
      assert entries[i..][0] == entries[i] && entries[i..][1..] == entries[i + 1..];
      if HasField(entries[i], key, name) {
        return Ok(entries[i]);
      }
      i := i + 1;
    }
    return Err(NotFound(name));
  }

  /** A found entry is the first that matches; NotFound exactly when none matches. */
  lemma {:induction false} FirstWithIsFirst(entries: seq<Value>, key: string, name: string)
    ensures FirstWith(entries, key, name).Ok? <==> exists i :: 0 <= i < |entries| && HasField(entries[i], key, name)
    ensures FirstWith(entries, key, name).Ok? ==>
      exists i :: 0 <= i < |entries| && entries[i] == FirstWith(entries, key, name).value
        && HasField(entries[i], key, name) && forall j :: 0 <= j < i ==> !HasField(entries[j], key, name)
    decreases |entries|
  {
    if entries != [] && !HasField(entries[0], key, name) {
      var rest := entries[1..];
      FirstWithIsFirst(rest, key, name);
      if exists i :: 0 <= i < |rest| && HasField(rest[i], key, name) {
        var i :| 0 <= i < |rest| && HasField(rest[i], key, name);
        assert entries[i + 1] == rest[i];
        var k :| 0 <= k < |rest| && rest[k] == FirstWith(rest, key, name).value
          && HasField(rest[k], key, name) && forall j :: 0 <= j < k ==> !HasField(rest[j], key, name);
        assert entries[k + 1] == rest[k];
        forall j | 0 <= j < k + 1 ensures !HasField(entries[j], key, name) {
          if j > 0 { assert entries[j] == rest[j - 1]; }
        }
      }
      if exists i :: 0 <= i < |entries| && HasField(entries[i], key, name) {
        var i :| 0 <= i < |entries| && HasField(entries[i], key, name);
        assert rest[i - 1] == entries[i];
      }
    }
  }

  /** A found entry is an array, so the declared `: array` return type holds. */
  lemma FirstWithIsArray(entries: seq<Value>, key: string, name: string)
    requires FirstWith(entries, key, name).Ok?
    ensures FirstWith(entries, key, name).value.Arr?
  {
    FirstWithIsFirst(entries, key, name);
  }

  /**
   * `isset($data[$name]) ? $data[$name] : throw` behind an `: array` return
   * type: a present non-null entry is returned if it is an array, and is a
   * TypeError otherwise.
   */
  function KeyedEntry(data: Option<Value>, name: string): (r: Result<Value>)
    ensures r.Ok? <==> data.Some? && Field(data.value, name).Some? && Field(data.value, name).value.Arr?
    ensures r.Ok? ==> r.value == Field(data.value, name).value
    ensures r.Err? ==> r.error == (if data.Some? && Field(data.value, name).Some? then TypeFailure else NotFound(name))
  {
    if data.None? then Err(NotFound(name))
    else
      match Field(data.value, name)
      case None => Err(NotFound(name))
      case Some(x) => if x.Arr? then Ok(x) else Err(TypeFailure)
  }

  /** `return $data['data'][$name];` behind an `: array` return type: anything but an array is a TypeError. */
  function DirectEntry(data: Option<Value>, name: string): (r: Result<Value>)
    ensures r.Ok? <==> data.Some? && Field(data.value, name).Some? && Field(data.value, name).value.Arr?
    ensures r.Ok? ==> r.value == Field(data.value, name).value
    ensures r.Err? ==> r.error == TypeFailure
  {
    if data.Some? && Field(data.value, name).Some? && Field(data.value, name).value.Arr? then Ok(Field(data.value, name).value)
    else Err(TypeFailure)
  }
}
