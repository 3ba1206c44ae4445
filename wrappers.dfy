/** Failure-carrying values shared by every module of the model. */
module Wrappers {

  /** A value that may be absent: JavaScript's `null` / `undefined`. */
  datatype Option<+T> = None | Some(value: T)

  /** The outcome of an operation that may throw: `Failure` carries the error message. */
  datatype Result<+T, +E> = Success(value: T) | Failure(error: E)

  /** Looks a key up in a map, giving `None` for a missing key. */
  function Lookup<K, V>(m: map<K, V>, k: K): (r: Option<V>)
    ensures r.Some? <==> k in m
    ensures r.Some? ==> r.value == m[k]
  {
    if k in m then Some(m[k]) else None
  }

  /** The present values of `s`, in order: the reference for "skip the nulls". */
  function Somes<T>(s: seq<Option<T>>): (r: seq<T>)
    ensures |r| <= |s|
  {
    if s == [] then []
    else (if s[0].Some? then [s[0].value] else []) + Somes(s[1..])
  }

  /** `x` is among the present values exactly when some slot holds it. */
  lemma {:induction false} SomesMembership<T>(s: seq<Option<T>>, x: T)
    ensures x in Somes(s) <==> exists i :: 0 <= i < |s| && s[i] == Some(x)
  {
    if s != [] {
      SomesMembership(s[1..], x);
      if x in Somes(s[1..]) {
        var i :| 0 <= i < |s[1..]| && s[1..][i] == Some(x);
        assert s[i + 1] == Some(x);
      }
      if exists i :: 0 <= i < |s| && s[i] == Some(x) {
        var i :| 0 <= i < |s| && s[i] == Some(x);
        if i > 0 { assert s[1..][i - 1] == Some(x); }
      }
    }
  }

  /** Skipping the nulls of `s + [o]` is skipping those of `s`, then handling `o`. */
  lemma {:induction false} SomesSnoc<T>(s: seq<Option<T>>, o: Option<T>)
    ensures Somes(s + [o]) == Somes(s) + (if o.Some? then [o.value] else [])
  {
    if s == [] {
      assert s + [o] == [o];
    } else {
      var head := if s[0].Some? then [s[0].value] else [];
      var tail := if o.Some? then [o.value] else [];
      assert (s + [o])[0] == s[0];
      assert (s + [o])[1..] == s[1..] + [o];
      SomesSnoc(s[1..], o);
      assert Somes(s + [o]) == head + (Somes(s[1..]) + tail);
      assert Somes(s) == head + Somes(s[1..]);
    }
  }
}
