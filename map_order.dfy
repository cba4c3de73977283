/**
 * The key order of a JavaScript `Map` with string keys. A `Map` iterates its
 * keys in insertion order: `set` on a new key appends it, `set` on an
 * existing key keeps its place, and `delete` removes it. The components keep
 * that order as a `seq` beside a Dafny `map` holding the values.
 */
module MapOrder {

  ghost predicate Distinct(s: seq<string>) {
    forall i, j :: 0 <= i < j < |s| ==> s[i] != s[j]
  }

  /** `m.set(u, v)`, on the key order. */
  function SetKey(keys: seq<string>, u: string): (r: seq<string>)
    ensures forall k :: k in r <==> k in keys || k == u
    ensures u in keys ==> r == keys
    ensures u !in keys ==> r == keys + [u]
  {
    if u in keys then keys else keys + [u]
  }

  /** `m.delete(u)`, on the key order. */
  function DeleteKey(keys: seq<string>, u: string): (r: seq<string>)
    ensures forall k :: k in r <==> k in keys && k != u
    ensures |r| <= |keys|
  {
    if keys == [] then []
    else if keys[0] == u then DeleteKey(keys[1..], u)
    else [keys[0]] + DeleteKey(keys[1..], u)
  }

  lemma SetKeyDistinct(keys: seq<string>, u: string)
    requires Distinct(keys)
    ensures Distinct(SetKey(keys, u))
  {
  }

  lemma {:induction false} DeleteKeyDistinct(keys: seq<string>, u: string)
    requires Distinct(keys)
    ensures Distinct(DeleteKey(keys, u))
  {
    if keys != [] {
      DeleteKeyDistinct(keys[1..], u);
      var r := DeleteKey(keys[1..], u);
      if keys[0] != u {
        assert keys[0] !in r;
        assert DeleteKey(keys, u) == [keys[0]] + r;
      }
    }
  }

  /** On distinct keys, deleting the key at index `i` cuts out exactly that entry and keeps the others in order. */
  lemma {:induction false} DeleteKeyAt(keys: seq<string>, u: string, i: nat)
    requires Distinct(keys) && i < |keys| && keys[i] == u
    ensures DeleteKey(keys, u) == keys[..i] + keys[i + 1..]
  {
    if i == 0 {
      assert u !in keys[1..];
      DeleteKeyAbsent(keys[1..], u);
    } else {
      DeleteKeyAt(keys[1..], u, i - 1);
      assert keys[..i] == [keys[0]] + keys[1..][..i - 1];
      assert keys[i + 1..] == keys[1..][i..];
    }
  }

  /** Deleting an absent key changes nothing. */
  lemma {:induction false} DeleteKeyAbsent(keys: seq<string>, u: string)
    requires u !in keys
    ensures DeleteKey(keys, u) == keys
  {
    if keys != [] {
      DeleteKeyAbsent(keys[1..], u);
    }
  }
}
