/** The array operations the components build new state from: JavaScript's
    `filter`, `some`/`find`/`includes`, `map` and the spread append `[...xs, x]`.
    Filters keep the order of what they keep, so each is defined by walking
    the list from the front. */
module Lists {

  /** No value occurs twice. */
  predicate NoDup<T(==)>(s: seq<T>) {
    forall i, j :: 0 <= i < j < |s| ==> s[i] != s[j]
  }

  /** No two elements share a key. */
  ghost predicate KeysUnique<T, K>(s: seq<T>, key: T -> K) {
    forall i, j :: 0 <= i < j < |s| ==> key(s[i]) != key(s[j])
  }

  /** `s.filter((_, i) => i !== index)`: every position except `index`; an
      index outside the list removes nothing. */
  function RemoveIndex<T>(s: seq<T>, index: int): (r: seq<T>)
    ensures 0 <= index < |s| ==> r == s[..index] + s[index + 1..]
    ensures !(0 <= index < |s|) ==> r == s
    decreases |s|
  {
    if s == [] then []
    else
      var rest := RemoveIndex(s[1..], index - 1);
      if index == 0 then rest
      else
        assert 0 < index < |s| ==> s[1..][..index - 1] == s[1..index];
        assert 0 < index < |s| ==> s[1..][index..] == s[index + 1..];
        [s[0]] + rest
  }

  /** `s.filter(y => y !== x)`: every occurrence of `x` removed. */
  function Without<T(==,!new)>(s: seq<T>, x: T): (r: seq<T>)
    ensures forall y :: y in r <==> y in s && y != x
    ensures |r| <= |s|
    ensures x !in s ==> r == s
  {
    if s == [] then []
    else (if s[0] == x then [] else [s[0]]) + Without(s[1..], x)
  }

  /** `s.includes(x) ? s.filter(y => y !== x) : [...s, x]`: the membership
      toggle shared by the id-list forms. */
  function Toggled<T(==,!new)>(s: seq<T>, x: T): (r: seq<T>)
    ensures x in r <==> x !in s
    ensures forall y :: y != x ==> (y in r <==> y in s)
  {
    if x in s then Without(s, x) else s + [x]
  }

  /** `s.some(y => key(y) === k)`. */
  function HasKey<T, K(==)>(s: seq<T>, key: T -> K, k: K): (r: bool)
    ensures r <==> exists i :: 0 <= i < |s| && key(s[i]) == k
  {
    if s == [] then false
    else key(s[0]) == k || HasKey(s[1..], key, k)
  }

  /** `s.filter(y => key(y) !== k)`. */
  function WithoutKey<T(==,!new), K(==)>(s: seq<T>, key: T -> K, k: K): (r: seq<T>)
    ensures forall y :: y in r <==> y in s && key(y) != k
    ensures |r| <= |s|
    ensures !HasKey(s, key, k) ==> r == s
  {
    if s == [] then []
    else (if key(s[0]) == k then [] else [s[0]]) + WithoutKey(s[1..], key, k)
  }

  /** `s.filter(y => !ks.includes(key(y)))`. */
  function WithoutKeysIn<T(==,!new), K(==)>(s: seq<T>, key: T -> K, ks: seq<K>): (r: seq<T>)
    ensures forall y :: y in r <==> y in s && key(y) !in ks
  {
    if s == [] then []
    else (if key(s[0]) in ks then [] else [s[0]]) + WithoutKeysIn(s[1..], key, ks)
  }

  /** `s.map(y => key(y) === k ? v : y)`. */
  function ReplaceKey<T, K(==)>(s: seq<T>, key: T -> K, k: K, v: T): (r: seq<T>)
    ensures |r| == |s|
    ensures forall i :: 0 <= i < |s| ==> r[i] == if key(s[i]) == k then v else s[i]
  {
    if s == [] then []
    else [if key(s[0]) == k then v else s[0]] + ReplaceKey(s[1..], key, k, v)
  }

  /** `s.map(key)`. */
  function Keys<T, K>(s: seq<T>, key: T -> K): (r: seq<K>)
    ensures |r| == |s|
    ensures forall i :: 0 <= i < |s| ==> r[i] == key(s[i])
  {
    if s == [] then [] else [key(s[0])] + Keys(s[1..], key)
  }

  /** Filtering distributes over concatenation: the kept elements stay in
      their original order. */
  lemma {:induction false} WithoutAppend<T(!new)>(a: seq<T>, b: seq<T>, x: T)
    ensures Without(a + b, x) == Without(a, x) + Without(b, x)
  {
    if a != [] {
      assert (a + b)[1..] == a[1..] + b;
      WithoutAppend(a[1..], b, x);
    } else {
      assert a + b == b;
    }
  }

  lemma {:induction false} WithoutKeyAppend<T(!new), K>(a: seq<T>, b: seq<T>, key: T -> K, k: K)
    ensures WithoutKey(a + b, key, k) == WithoutKey(a, key, k) + WithoutKey(b, key, k)
  {
    if a != [] {
      assert (a + b)[1..] == a[1..] + b;
      WithoutKeyAppend(a[1..], b, key, k);
    } else {
      assert a + b == b;
    }
  }

  /** Removing a value keeps a duplicate-free list duplicate-free. */
  lemma {:induction false} WithoutNoDup<T(!new)>(s: seq<T>, x: T)
    requires NoDup(s)
    ensures NoDup(Without(s, x))
  {
    if s != [] {
      assert NoDup(s[1..]) by {
        forall i, j | 0 <= i < j < |s[1..]| ensures s[1..][i] != s[1..][j] {
          assert s[1..][i] == s[i + 1] && s[1..][j] == s[j + 1];
        }
      }
      WithoutNoDup(s[1..], x);
      var rest := Without(s[1..], x);
      assert s[0] !in s[1..] by {
        forall i | 0 <= i < |s[1..]| ensures s[1..][i] != s[0] {
          assert s[1..][i] == s[i + 1];
        }
      }
      assert s[0] !in rest;
      if s[0] != x {
        forall i, j | 0 <= i < j < |[s[0]] + rest| ensures ([s[0]] + rest)[i] != ([s[0]] + rest)[j] {
          if i == 0 {
            assert ([s[0]] + rest)[j] == rest[j - 1];
            assert rest[j - 1] in rest;
          } else {
            assert ([s[0]] + rest)[i] == rest[i - 1];
            assert ([s[0]] + rest)[j] == rest[j - 1];
          }
        }
      } else {
        assert [] + rest == rest;
      }
    }
  }

  lemma KeysUniqueTail<T, K>(s: seq<T>, key: T -> K)
    requires s != [] && KeysUnique(s, key)
    ensures KeysUnique(s[1..], key)
    ensures forall y :: y in s[1..] ==> key(y) != key(s[0])
  {
    forall i, j | 0 <= i < j < |s[1..]| ensures key(s[1..][i]) != key(s[1..][j]) {
      assert s[1..][i] == s[i + 1] && s[1..][j] == s[j + 1];
    }
    forall y | y in s[1..] ensures key(y) != key(s[0]) {
      var i :| 0 <= i < |s[1..]| && s[1..][i] == y;
      assert s[1..][i] == s[i + 1];
    }
  }

  lemma KeysUniqueCons<T, K>(x: T, rest: seq<T>, key: T -> K)
    requires KeysUnique(rest, key)
    requires forall y :: y in rest ==> key(y) != key(x)
    ensures KeysUnique([x] + rest, key)
  {
    var r := [x] + rest;
    forall i, j | 0 <= i < j < |r| ensures key(r[i]) != key(r[j]) {
      assert r[j] == rest[j - 1];
      assert rest[j - 1] in rest;
      if i > 0 {
        assert r[i] == rest[i - 1];
      }
    }
  }

  /** Removing by key keeps keys unique. */
  lemma {:induction false} WithoutKeyKeysUnique<T(!new), K>(s: seq<T>, key: T -> K, k: K)
    requires KeysUnique(s, key)
    ensures KeysUnique(WithoutKey(s, key, k), key)
  {
    if s != [] {
      KeysUniqueTail(s, key);
      WithoutKeyKeysUnique(s[1..], key, k);
      var rest := WithoutKey(s[1..], key, k);
      if key(s[0]) != k {
        KeysUniqueCons(s[0], rest, key);
      } else {
        assert [] + rest == rest;
      }
    }
  }

  /** Toggling a value that was absent and toggling it again gives back the
      very same list. */
  lemma ToggledTwiceAbsent<T(!new)>(s: seq<T>, x: T)
    requires x !in s
    ensures Toggled(Toggled(s, x), x) == s
  {
    WithoutAppend(s, [x], x);
    assert Without([x], x) == [];
  }

  /** Toggling twice always gives back the same members. */
  lemma ToggledTwiceMembers<T(!new)>(s: seq<T>, x: T)
    ensures forall y :: y in Toggled(Toggled(s, x), x) <==> y in s
  {
  }

  /** When the value was present, toggling twice moves it to the end: the
      list comes back with the same members but not in the same order. */
  lemma ToggledTwicePresentReorders()
    ensures Toggled(Toggled(["a", "b"], "a"), "a") == ["b", "a"]
  {
    assert Without(["a", "b"], "a") == ["b"] by {
      assert ["a", "b"][1..] == ["b"];
      assert ["b"][1..] == [];
    }
  }

  /** A toggle keeps a duplicate-free list duplicate-free. */
  lemma ToggledNoDup<T(!new)>(s: seq<T>, x: T)
    requires NoDup(s)
    ensures NoDup(Toggled(s, x))
  {
    if x in s {
      WithoutNoDup(s, x);
    }
  }
}
