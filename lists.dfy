/**
 * The array operations the handlers perform on id lists: MongoDB's
 * `$addToSet` and `$pull` update operators, the order-keeping set
 * difference written with `Array.prototype.filter`, and the number of
 * distinct documents a `$in` query over an id list matches.
 */
module Lists {

  /** The elements of `s`, forgetting order and repetition. */
  function Elems<T>(s: seq<T>): set<T> {
    set x | x in s
  }

  /** No element occurs twice. */
  predicate Distinct<T(==,!new)>(s: seq<T>) {
    forall i, j :: 0 <= i < j < |s| ==> s[i] != s[j]
  }

  /**
   * `$addToSet`: `x` is appended at the end unless the array already holds
   * it; the existing entries keep their positions.
   */
  function AddToSet<T(==,!new)>(s: seq<T>, x: T): (r: seq<T>)
    ensures x in r
    ensures |s| <= |r| <= |s| + 1 && r[..|s|] == s
    ensures x in s ==> r == s
    ensures multiset(r) == if x in s then multiset(s) else multiset(s) + multiset{x}
  {
    if x in s then s else s + [x]
  }

  /**
   * `s.filter(y => ys.indexOf(y) === -1)`: the elements of `s` that do not
   * occur in `ys`, each as often as in `s` and in the order of `s`.
   */
  function Without<T(==,!new)>(s: seq<T>, ys: seq<T>): (r: seq<T>)
    ensures forall y :: y in r <==> y in s && y !in ys
    ensures |r| <= |s|
  {
    if s == [] then []
    else if s[0] in ys then Without(s[1..], ys)
    else [s[0]] + Without(s[1..], ys)
  }

  /** `$pull`: every occurrence of `x` is removed, everything else stays in order. */
  function Pull<T(==,!new)>(s: seq<T>, x: T): (r: seq<T>)
    ensures x !in r
    ensures forall y :: y != x ==> multiset(r)[y] == multiset(s)[y]
    ensures x !in s ==> r == s
  {
    WithoutDisjoint(s, [x]);
    WithoutMultiplicity(s, [x]);
    Without(s, [x])
  }

  /** An element the difference keeps occurs in it exactly as often as in the original list. */
  lemma {:induction false} WithoutMultiplicity<T(!new)>(s: seq<T>, ys: seq<T>)
    ensures forall y :: y !in ys ==> multiset(Without(s, ys))[y] == multiset(s)[y]
  {
    if s != [] {
      WithoutMultiplicity(s[1..], ys);
      assert s == [s[0]] + s[1..];
    }
  }

  /** The set difference keeps order: it distributes over concatenation. */
  lemma {:induction false} WithoutAppend<T(!new)>(a: seq<T>, b: seq<T>, ys: seq<T>)
    ensures Without(a + b, ys) == Without(a, ys) + Without(b, ys)
  {
    if a != [] {
      var ab := a + b;
      assert ab[0] == a[0] && ab[1..] == a[1..] + b;
      WithoutAppend(a[1..], b, ys);
      if a[0] in ys {
        assert Without(ab, ys) == Without(a[1..] + b, ys);
        assert Without(a, ys) == Without(a[1..], ys);
      } else {
        var x, y := Without(a[1..], ys), Without(b, ys);
        assert Without(ab, ys) == [a[0]] + (x + y);
        assert Without(a, ys) == [a[0]] + x;
        assert [a[0]] + (x + y) == ([a[0]] + x) + y;
      }
    } else {
      assert a + b == b;
    }
  }

  /** Removing elements that do not occur changes nothing. */
  lemma {:induction false} WithoutDisjoint<T(!new)>(s: seq<T>, ys: seq<T>)
    ensures (forall x :: x in s ==> x !in ys) ==> Without(s, ys) == s
  {
    if s != [] && forall x :: x in s ==> x !in ys {
      WithoutDisjoint(s[1..], ys);
      assert [s[0]] + s[1..] == s;
    }
  }

  /** `$pull` undoes `$addToSet`: pulling after adding is the same as pulling alone. */
  lemma PullAfterAddToSet<T(!new)>(s: seq<T>, x: T)
    ensures Pull(AddToSet(s, x), x) == Pull(s, x)
  {
    if x !in s {
      WithoutAppend(s, [x], [x]);
      assert Without([x], [x]) == [];
    }
  }

  /** After a `$pull`, `$addToSet` puts the element back exactly once, at the end. */
  lemma AddToSetAfterPull<T(!new)>(s: seq<T>, x: T)
    ensures AddToSet(Pull(s, x), x) == Pull(s, x) + [x]
    ensures multiset(AddToSet(Pull(s, x), x))[x] == 1
  {
  }

  /**
   * `countDocuments({_id: {$in: ids}})` over a collection whose ids are
   * `keys`: the number of distinct stored documents the list names.
   */
  function CountIn<T(!new)>(keys: set<T>, ids: seq<T>): (n: nat)
    ensures n <= |ids|
  {
    ElemsCard(ids);
    SubsetCard(keys * Elems(ids), Elems(ids));
    |keys * Elems(ids)|
  }

  /** A subset is no larger than its superset, and a proper subset is smaller. */
  lemma {:induction false} SubsetCard<T>(a: set<T>, b: set<T>)
    requires a <= b
    ensures |a| <= |b|
    ensures a < b ==> |a| < |b|
  {
    if a != {} {
      var x :| x in a;
      SubsetCard(a - {x}, b - {x});
    } else if b != {} {
      var y :| y in b;
      assert |b| == |b - {y}| + 1;
    }
  }

  /** A list has at most as many distinct elements as entries, and exactly as many when it repeats none. */
  lemma {:induction false} ElemsCard<T(!new)>(s: seq<T>)
    ensures |Elems(s)| <= |s|
    ensures |Elems(s)| == |s| <==> Distinct(s)
  {
    if s != [] {
      var t := s[1..];
      ElemsCard(t);
      assert Elems(s) == Elems(t) + {s[0]};
      if s[0] in t {
        assert Elems(s) == Elems(t);
        var k :| 0 <= k < |t| && t[k] == s[0];
        assert s[0] == s[k + 1];
      } else {
        assert |Elems(s)| == |Elems(t)| + 1;
        if Distinct(t) {
          forall i, j | 0 <= i < j < |s| ensures s[i] != s[j] {
            if i > 0 { assert s[i] == t[i - 1] && s[j] == t[j - 1]; }
            else { assert s[j] == t[j - 1]; }
          }
        }
        if Distinct(s) {
          forall i, j | 0 <= i < j < |t| ensures t[i] != t[j] {
            assert t[i] == s[i + 1] && t[j] == s[j + 1];
          }
        }
      }
    }
  }

  /**
   * The count equals the length of the list exactly when every id names a
   * stored document and no id is repeated.
   */
  lemma CountInExact<T(!new)>(keys: set<T>, ids: seq<T>)
    ensures CountIn(keys, ids) == |ids| <==> (forall x :: x in ids ==> x in keys) && Distinct(ids)
  {
    ElemsCard(ids);
    if forall x :: x in ids ==> x in keys {
      assert keys * Elems(ids) == Elems(ids);
    } else {
      var x :| x in ids && x !in keys;
      assert x in Elems(ids) && x !in keys * Elems(ids);
      SubsetCard(keys * Elems(ids), Elems(ids));
    }
  }
}
