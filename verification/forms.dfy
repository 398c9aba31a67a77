/** Submitted HTML form data as the web framework presents it: an ordered
    multi-map in which a key may repeat. `get` and `items()` both use the
    first value given for a key. */
module Forms {
  import opened Wrappers

  type Form = seq<(string, string)>

  /** Some field of `form` is named `key`. */
  predicate HasKey(form: Form, key: string) {
    exists i :: 0 <= i < |form| && form[i].0 == key
  }

  /** Field `i` is the first one named `key`. */
  predicate FirstAt(form: Form, key: string, i: int) {
    && 0 <= i < |form|
    && form[i].0 == key
    && forall j :: 0 <= j < i ==> form[j].0 != key
  }

  /** The first value given for `key`. */
  function Lookup(form: Form, key: string): (r: Option<string>)
    ensures r.Some? <==> HasKey(form, key)
    ensures r.Some? ==> exists i :: FirstAt(form, key, i) && form[i].1 == r.value
  {
    if |form| == 0 then None
    else if form[0].0 == key then
      assert FirstAt(form, key, 0);
      Some(form[0].1)
    else
      var r := Lookup(form[1..], key);
      assert HasKey(form[1..], key) <==> HasKey(form, key) by {
        if HasKey(form, key) {
          var i :| 0 <= i < |form| && form[i].0 == key;
          assert form[1..][i - 1].0 == key;
        }
      }
      if r.Some? then
        var i :| FirstAt(form[1..], key, i) && form[1..][i].1 == r.value;
        assert FirstAt(form, key, i + 1) by {
          forall j | 0 <= j < i + 1 ensures form[j].0 != key {
            if j > 0 { assert form[j] == form[1..][j - 1]; }
          }
        }
        r
      else r
  }

  /** `form.get(key, default)`: the first value given for `key`. */
  function Get(form: Form, key: string, default: string): (v: string)
    ensures HasKey(form, key) ==> exists i :: FirstAt(form, key, i) && form[i].1 == v
    ensures !HasKey(form, key) ==> v == default
  {
    Lookup(form, key).GetOr(default)
  }

  /** No key occurs twice. */
  predicate DistinctKeys(form: Form) {
    forall i, j :: 0 <= i < j < |form| ==> form[i].0 != form[j].0
  }

  /** `form` without any field named `key`. */
  function Without(form: Form, key: string): (r: Form)
    ensures |r| <= |form|
    ensures forall k :: Lookup(r, k) == if k == key then None else Lookup(form, k)
  {
    if |form| == 0 then []
    else if form[0].0 == key then Without(form[1..], key)
    else
      var rest := Without(form[1..], key);
      assert ([form[0]] + rest)[1..] == rest;
      [form[0]] + rest
  }

  /** `form.items()`: each key once, with its first value, in order of first
      appearance. */
  function Items(form: Form): (r: Form)
    ensures DistinctKeys(r)
    ensures forall k :: Lookup(r, k) == Lookup(form, k)
    decreases |form|
  {
    if |form| == 0 then []
    else
      var rest := Items(Without(form[1..], form[0].0));
      var r := [form[0]] + rest;
      assert r[1..] == rest;
      assert forall i :: 0 <= i < |rest| ==> rest[i].0 != form[0].0 by {
        assert Lookup(rest, form[0].0) == None;
      }
      assert forall i :: 1 <= i < |r| ==> r[i] == rest[i - 1];
      r
  }
}
