/** Keyed sub-collections of a sharding rule configuration: ordered lists of
    records, each of which carries a string key (a logic table name or a
    binding group name). The list operations here are the ones the
    configuration subscriber performs on such a list: `removeIf` on a key,
    followed by `add` at the end. */
module Keyed {

  /** The entries of `s` whose key is `k`, in their original order. */
  function Select<T(!new)>(s: seq<T>, key: T -> string, k: string): (r: seq<T>)
    ensures |r| <= |s|
    ensures forall x :: x in r <==> x in s && key(x) == k
  {
    if s == [] then []
    else if key(s[0]) == k then [s[0]] + Select(s[1..], key, k)
    else Select(s[1..], key, k)
  }

  /** Some entry is keyed `k` exactly when `Select` finds one. */
  lemma SelectNonEmpty<T(!new)>(s: seq<T>, key: T -> string, k: string)
    ensures |Select(s, key, k)| > 0 <==> exists x :: x in s && key(x) == k
  {
    if exists x :: x in s && key(x) == k {
      var x :| x in s && key(x) == k;
      assert x in Select(s, key, k);
    }
  }

  /** No two entries of `s` share a key. */
  ghost predicate UniqueKeys<T(!new)>(s: seq<T>, key: T -> string)
  {
    forall k :: |Select(s, key, k)| <= 1
  }

  /** `a` is `b` with some entries left out: the entries of `a` occur in `b`
      in the same relative order. */
  ghost predicate Subsequence<T>(a: seq<T>, b: seq<T>)
    decreases |b|
  {
    if a == [] then true
    else if b == [] then false
    else if a[0] == b[0] then Subsequence(a[1..], b[1..])
    else Subsequence(a, b[1..])
  }

  lemma {:induction false} SubsequenceDropFirst<T>(a: seq<T>, b: seq<T>)
    requires a != [] && Subsequence(a, b)
    ensures Subsequence(a[1..], b)
    decreases |b|
  {
    if a[1..] != [] {
      if a[0] != b[0] {
        SubsequenceDropFirst(a, b[1..]);
      }
      SubsequenceDropFirst(a[1..], b[1..]);
    }
  }

  /** Leaving out one more entry at the front keeps a subsequence. */
  lemma SubsequenceSkip<T>(a: seq<T>, x: T, b: seq<T>)
    requires Subsequence(a, b)
    ensures Subsequence(a, [x] + b)
  {
    assert ([x] + b)[1..] == b;
    if a != [] && a[0] == x {
      SubsequenceDropFirst(a, b);
    }
  }

  /** `removeIf(each -> key(each).equals(k))`: every entry keyed `k` is dropped
      and the others keep their order. */
  function Without<T(!new)>(s: seq<T>, key: T -> string, k: string): (r: seq<T>)
    ensures forall x :: x in r <==> x in s && key(x) != k
    ensures |r| + |Select(s, key, k)| == |s|
    ensures Select(s, key, k) == [] ==> r == s
  {
    if s == [] then []
    else if key(s[0]) == k then Without(s[1..], key, k)
    else [s[0]] + Without(s[1..], key, k)
  }

  /** `removeIf` keeps the order of the entries it keeps. */
  lemma {:induction false} WithoutKeepsOrder<T(!new)>(s: seq<T>, key: T -> string, k: string)
    ensures Subsequence(Without(s, key, k), s)
  {
    if s != [] {
      var rest := Without(s[1..], key, k);
      WithoutKeepsOrder(s[1..], key, k);
      assert s == [s[0]] + s[1..];
      if key(s[0]) == k {
        SubsequenceSkip(rest, s[0], s[1..]);
      } else {
        assert ([s[0]] + rest)[1..] == rest;
      }
    }
  }

  lemma {:induction false} SelectAppend<T(!new)>(a: seq<T>, b: seq<T>, key: T -> string, k: string)
    ensures Select(a + b, key, k) == Select(a, key, k) + Select(b, key, k)
  {
    if a == [] {
      assert a + b == b;
    } else {
      assert (a + b)[1..] == a[1..] + b;
      SelectAppend(a[1..], b, key, k);
    }
  }

  /** Removing key `k` empties the entries keyed `k` and leaves every other
      key's entries exactly as they were. */
  lemma {:induction false} SelectWithout<T(!new)>(s: seq<T>, key: T -> string, k: string, k': string)
    ensures Select(Without(s, key, k), key, k') == if k == k' then [] else Select(s, key, k')
  {
    if s != [] {
      SelectWithout(s[1..], key, k, k');
      if key(s[0]) != k {
        assert ([s[0]] + Without(s[1..], key, k))[1..] == Without(s[1..], key, k);
      }
    }
  }

  /** `SelectWithout` for every key at once. */
  lemma SelectWithoutAll<T(!new)>(s: seq<T>, key: T -> string, k: string)
    ensures forall k' :: Select(Without(s, key, k), key, k') == if k == k' then [] else Select(s, key, k')
  {
    forall k' ensures Select(Without(s, key, k), key, k') == if k == k' then [] else Select(s, key, k') {
      SelectWithout(s, key, k, k');
    }
  }

  /** Removing the same key twice is removing it once. */
  lemma WithoutIdempotent<T(!new)>(s: seq<T>, key: T -> string, k: string)
    ensures Without(Without(s, key, k), key, k) == Without(s, key, k)
  {
    SelectWithout(s, key, k, k);
  }

  /** The selection laws of `Without(s, key, k) + [x]`, for every key. */
  lemma SelectReplace<T(!new)>(s: seq<T>, key: T -> string, k: string, x: T)
    ensures forall k' :: (Select(Without(s, key, k) + [x], key, k') ==
      (if k' == k then [] else Select(s, key, k')) + (if key(x) == k' then [x] else []))
  {
    forall k' ensures Select(Without(s, key, k) + [x], key, k') ==
      (if k' == k then [] else Select(s, key, k')) + (if key(x) == k' then [x] else [])
    {
      SelectAppend(Without(s, key, k), [x], key, k');
      SelectWithout(s, key, k, k');
    }
  }

  /** Remove every entry keyed `k`, then append `x`: what an "alter" does with
      the event's table name `k` and its payload `x`. When `x`'s own key is not
      `k`, the entries already keyed like `x` survive next to it. The payload
      ends up last. */
  function Replace<T(!new)>(s: seq<T>, key: T -> string, k: string, x: T): (r: seq<T>)
    ensures Select(r, key, k) == if key(x) == k then [x] else []
    ensures key(x) != k ==> Select(r, key, key(x)) == Select(s, key, key(x)) + [x]
    ensures forall k' :: k' != k && k' != key(x) ==> Select(r, key, k') == Select(s, key, k')
    ensures |r| == |s| - |Select(s, key, k)| + 1
    ensures |r| > 0 && r[|r| - 1] == x
  {
    SelectReplace(s, key, k, x);
    Without(s, key, k) + [x]
  }

  /** After a replace, the entries before the payload are the survivors of
      `s` in their old order. */
  lemma ReplaceKeepsOrder<T(!new)>(s: seq<T>, key: T -> string, k: string, x: T)
    ensures var r := Replace(s, key, k, x);
      |r| > 0 && Subsequence(r[..|r| - 1], s)
  {
    var w := Without(s, key, k);
    assert (w + [x])[..|w|] == w;
    WithoutKeepsOrder(s, key, k);
  }

  /** Upsert keyed by the payload's own key: what an "add" does. Afterwards the
      payload is the one entry with its key, and it is last. */
  function Upsert<T(!new)>(s: seq<T>, key: T -> string, x: T): (r: seq<T>)
    ensures Select(r, key, key(x)) == [x]
    ensures forall k :: k != key(x) ==> Select(r, key, k) == Select(s, key, k)
    ensures UniqueKeys(s, key) ==> UniqueKeys(r, key)
    ensures |r| == |s| - |Select(s, key, key(x))| + 1
    ensures |r| > 0 && r[|r| - 1] == x
  {
    SelectReplace(s, key, key(x), x);
    Without(s, key, key(x)) + [x]
  }

  /** After an upsert, the entries before the payload are the survivors of
      `s` in their old order. */
  lemma UpsertKeepsOrder<T(!new)>(s: seq<T>, key: T -> string, x: T)
    ensures var r := Upsert(s, key, x);
      |r| > 0 && Subsequence(r[..|r| - 1], s)
  {
    ReplaceKeepsOrder(s, key, key(x), x);
  }

  /** Upserting the same entry twice is upserting it once. */
  lemma UpsertIdempotent<T(!new)>(s: seq<T>, key: T -> string, x: T)
    ensures Upsert(Upsert(s, key, x), key, x) == Upsert(s, key, x)
  {
    var w := Without(s, key, key(x));
    SelectWithout(s, key, key(x), key(x));
    calc {
      Without(w + [x], key, key(x));
      { WithoutAppend(w, [x], key, key(x)); }
      Without(w, key, key(x)) + Without([x], key, key(x));
      w;
    }
  }

  lemma {:induction false} WithoutAppend<T(!new)>(a: seq<T>, b: seq<T>, key: T -> string, k: string)
    ensures Without(a + b, key, k) == Without(a, key, k) + Without(b, key, k)
  {
    if a == [] {
      assert a + b == b;
    } else {
      var ab := a + b;
      assert ab[0] == a[0] && ab[1..] == a[1..] + b;
      WithoutAppend(a[1..], b, key, k);
      if key(a[0]) == k {
        assert Without(ab, key, k) == Without(ab[1..], key, k);
      } else {
        assert Without(ab, key, k) == [a[0]] + Without(ab[1..], key, k);
      }
    }
  }

  /** Removing key `k` never leaves a duplicate behind. */
  lemma WithoutKeepsUnique<T(!new)>(s: seq<T>, key: T -> string, k: string)
    requires UniqueKeys(s, key)
    ensures UniqueKeys(Without(s, key, k), key)
  {
    forall k' ensures |Select(Without(s, key, k), key, k')| <= 1 {
      SelectWithout(s, key, k, k');
    }
  }

  /** A sequence of upserts, applied left to right. */
  function UpsertAll<T(!new)>(s: seq<T>, key: T -> string, xs: seq<T>): seq<T>
    decreases |xs|
  {
    if xs == [] then s else UpsertAll(Upsert(s, key, xs[0]), key, xs[1..])
  }

  /** Last write wins: after a sequence of upserts, a key that some payload
      carries holds exactly the last such payload, and a key that none carries
      keeps its original entries. */
  lemma {:induction false} UpsertAllLastWins<T(!new)>(s: seq<T>, key: T -> string, xs: seq<T>, k: string)
    ensures var hits := Select(xs, key, k);
      Select(UpsertAll(s, key, xs), key, k) == if hits == [] then Select(s, key, k) else [hits[|hits| - 1]]
    decreases |xs|
  {
    if xs != [] {
      var x, rest := xs[0], xs[1..];
      var s' := Upsert(s, key, x);
      assert UpsertAll(s, key, xs) == UpsertAll(s', key, rest);
      UpsertAllLastWins(s', key, rest, k);
      var hits, later := Select(xs, key, k), Select(rest, key, k);
      if key(x) == k {
        assert hits == [x] + later;
        if later == [] {
          assert Select(s', key, k) == [x];
        } else {
          assert hits[|hits| - 1] == later[|later| - 1];
        }
      } else {
        assert hits == later;
        assert Select(s', key, k) == Select(s, key, k);
      }
    }
  }
}
