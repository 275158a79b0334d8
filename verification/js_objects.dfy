/**
 * JSON values and plain JavaScript objects, as a request body, a projected
 * parameter set or a database row holds them.
 *
 * An object is the list of its own properties in insertion order, which is the
 * order `Object.keys` reports for keys that do not look like array indices.
 */
module JsObjects {
  import opened Wrappers
  import opened JsStrings

  /** A JSON value. Numbers are integers here; objects and arrays are not looked into. */
  datatype Value = Str(s: JsString) | Num(n: int) | Bool(b: bool) | Null | Composite

  /** JavaScript truthiness: what `if (v)` and lodash `compact` test. */
  predicate Truthy(v: Value)
    ensures !Truthy(v) <==> v == Str([]) || v == Num(0) || v == Bool(false) || v == Null
  {
    match v
    case Str(s) => s != []
    case Num(n) => n != 0
    case Bool(b) => b
    case Null => false
    case Composite => true
  }

  datatype Field = Field(key: JsString, value: Value)

  type Object = seq<Field>

  predicate Distinct<T(==)>(s: seq<T>) {
    forall i, j :: 0 <= i < j < |s| ==> s[i] != s[j]
  }

  function Keys(o: Object): (r: seq<JsString>)
    ensures |r| == |o|
    ensures forall i :: 0 <= i < |o| ==> r[i] == o[i].key
  {
    if o == [] then [] else [o[0].key] + Keys(o[1..])
  }

  /** A JavaScript object never has the same own key twice. */
  predicate WellFormed(o: Object) {
    Distinct(Keys(o))
  }

  /** `o[k]`, with `None` for a key the object does not have. */
  function Lookup(o: Object, k: JsString): (r: Option<Value>)
    ensures r.Some? <==> k in Keys(o)
  {
    if o == [] then None
    else if o[0].key == k then Some(o[0].value)
    else Lookup(o[1..], k)
  }

  /** `o[k] = v`: the property gets the new value and every other one keeps its own. */
  function Assign(o: Object, k: JsString, v: Value): (r: Object)
    ensures Lookup(r, k) == Some(v)
    ensures forall k' :: k' != k ==> Lookup(r, k') == Lookup(o, k')
  {
    if o == [] then [Field(k, v)]
    else if o[0].key == k then [Field(k, v)] + o[1..]
    else [o[0]] + Assign(o[1..], k, v)
  }

  /** An existing property keeps its place; a new one goes last. */
  lemma {:induction false} AssignKeys(o: Object, k: JsString, v: Value)
    ensures Keys(Assign(o, k, v)) == if k in Keys(o) then Keys(o) else Keys(o) + [k]
  {
    if o != [] {
      var r := Assign(o, k, v);
      if o[0].key == k {
        assert r[1..] == o[1..];
        assert Keys(r) == [k] + Keys(o[1..]);
      } else {
        AssignKeys(o[1..], k, v);
        assert r[1..] == Assign(o[1..], k, v);
        assert Keys(r) == [o[0].key] + Keys(r[1..]);
        assert Keys(o) == [o[0].key] + Keys(o[1..]);
      }
    }
  }

  /** Assigning a property never gives an object a key twice. */
  lemma AssignWellFormed(o: Object, k: JsString, v: Value)
    requires WellFormed(o)
    ensures WellFormed(Assign(o, k, v))
  {
    AssignKeys(o, k, v);
    var ks := Keys(o);
    if k !in ks {
      var rs := ks + [k];
      forall i, j | 0 <= i < j < |rs| ensures rs[i] != rs[j] {
        if j == |ks| {
          assert rs[i] == ks[i];
        } else {
          assert rs[i] == ks[i] && rs[j] == ks[j];
        }
      }
    }
  }

  /** `a` is `b` with some elements deleted, the rest kept in their order. */
  predicate IsSubsequence<T(==)>(a: seq<T>, b: seq<T>) {
    if a == [] then true
    else if b == [] then false
    else if a[0] == b[0] then IsSubsequence(a[1..], b[1..])
    else IsSubsequence(a, b[1..])
  }

  lemma {:induction false} SubsequenceMembers<T>(a: seq<T>, b: seq<T>)
    requires IsSubsequence(a, b)
    ensures forall x :: x in a ==> x in b
  {
    if a != [] && b != [] {
      if a[0] == b[0] {
        SubsequenceMembers(a[1..], b[1..]);
        assert a == [a[0]] + a[1..] && b == [b[0]] + b[1..];
      } else {
        SubsequenceMembers(a, b[1..]);
      }
    }
  }

  /** `keys.filter(k => !known.includes(k))`. */
  function KeysOutside(keys: seq<JsString>, known: set<JsString>): (r: seq<JsString>)
    ensures forall k :: k in r <==> k in keys && k !in known
    ensures IsSubsequence(r, keys)
  {
    if keys == [] then []
    else if keys[0] in known then KeysOutside(keys[1..], known)
    else [keys[0]] + KeysOutside(keys[1..], known)
  }

  /**
   * Over distinct keys, the filter is the only order-preserving list that holds
   * exactly the keys outside `known`: every offending key, each once, in the
   * order the object lists them.
   */
  lemma {:induction false} KeysOutsideUnique(keys: seq<JsString>, known: set<JsString>, r: seq<JsString>)
    requires Distinct(keys)
    requires IsSubsequence(r, keys)
    requires forall k :: k in r <==> k in keys && k !in known
    ensures r == KeysOutside(keys, known)
  {
    if keys == [] {
      assert r == [];
    } else {
      var k, rest := keys[0], keys[1..];
      assert Distinct(rest) by {
        forall i, j | 0 <= i < j < |rest| ensures rest[i] != rest[j] {
          assert rest[i] == keys[i + 1] && rest[j] == keys[j + 1];
        }
      }
      assert k !in rest by {
        forall i | 0 <= i < |rest| ensures rest[i] != k {
          assert rest[i] == keys[i + 1];
        }
      }
      if k in known {
        assert k !in r;
        if r != [] {
          assert r[0] in r;
        }
        assert IsSubsequence(r, rest);
        KeysOutsideUnique(rest, known, r);
      } else {
        assert k in r;
        if r[0] != k {
          assert IsSubsequence(r, rest);
          SubsequenceMembers(r, rest);
          assert false;
        }
        var tail := r[1..];
        assert IsSubsequence(tail, rest);
        SubsequenceMembers(tail, rest);
        forall x ensures x in tail <==> x in rest && x !in known {
          if x in rest && x !in known {
            assert x in r && x != k;
            assert r == [k] + tail;
          }
        }
        KeysOutsideUnique(rest, known, tail);
      }
    }
  }
}
