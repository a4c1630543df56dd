/**
 * Sequence and map facts shared by the modules: splitting results into
 * successes and errors (every `for ... range` loop that appends to two slices),
 * mapping a sequence, and building an ID-keyed map in which the last item with a
 * given key wins (every loop `res[key(x)] = x`).
 */
module Seqs {
  import opened Wrappers

  /** The successes and the errors of `rs`, each kept in the order of `rs`. */
  function Split<A, B>(rs: seq<Result<A, B>>): (p: (seq<A>, seq<B>))
    ensures |p.0| + |p.1| == |rs|
  {
    if rs == [] then ([], [])
    else
      var init := Split(rs[..|rs| - 1]);
      assert rs == rs[..|rs| - 1] + [rs[|rs| - 1]];
      match rs[|rs| - 1]
      case Ok(a) => (init.0 + [a], init.1)
      case Err(b) => (init.0, init.1 + [b])
  }

  /** One more result goes to the end of its own part. */
  lemma SplitSnoc<A, B>(rs: seq<Result<A, B>>, x: Result<A, B>)
    ensures x.Ok? ==> Split(rs + [x]) == (Split(rs).0 + [x.value], Split(rs).1)
    ensures x.Err? ==> Split(rs + [x]) == (Split(rs).0, Split(rs).1 + [x.error])
  {
    assert (rs + [x])[..|rs|] == rs;
  }

  /** Every success of `rs` is in the first part, every error in the second, and nothing else is. */
  lemma {:induction false} SplitMembers<A, B>(rs: seq<Result<A, B>>)
    ensures forall a :: a in Split(rs).0 <==> Ok(a) in rs
    ensures forall b :: b in Split(rs).1 <==> Err(b) in rs
  {
    if rs != [] {
      var init := rs[..|rs| - 1];
      assert rs == init + [rs[|rs| - 1]];
      SplitMembers(init);
    }
  }

  lemma {:induction false} SplitConcat<A, B>(r: seq<Result<A, B>>, s: seq<Result<A, B>>)
    ensures Split(r + s).0 == Split(r).0 + Split(s).0
    ensures Split(r + s).1 == Split(r).1 + Split(s).1
  {
    if s != [] {
      var s' := s[..|s| - 1];
      assert (r + s)[..|r + s| - 1] == r + s';
      assert (r + s)[|r + s| - 1] == s[|s| - 1];
      SplitConcat(r, s');
    } else {
      assert r + s == r;
    }
  }

  /** Without errors the first part is every value, in order. */
  lemma {:induction false} SplitAllOk<A, B>(rs: seq<Result<A, B>>)
    requires forall i :: 0 <= i < |rs| ==> rs[i].Ok?
    ensures Split(rs).1 == []
    ensures |Split(rs).0| == |rs|
    ensures forall i :: 0 <= i < |rs| ==> Split(rs).0[i] == rs[i].value
  {
    if rs != [] {
      var init := rs[..|rs| - 1];
      assert rs == init + [rs[|rs| - 1]];
      SplitAllOk(init);
      SplitSnoc(init, rs[|rs| - 1]);
    }
  }

  /** The second part is empty exactly when every result is a success. */
  lemma {:induction false} SplitNoErrors<A, B>(rs: seq<Result<A, B>>)
    ensures Split(rs).1 == [] <==> forall i :: 0 <= i < |rs| ==> rs[i].Ok?
  {
    if rs != [] {
      var init, x := rs[..|rs| - 1], rs[|rs| - 1];
      assert rs == init + [x];
      assert forall i :: 0 <= i < |init| ==> init[i] == rs[i];
      SplitNoErrors(init);
      SplitSnoc(init, x);
    }
  }

  /** Each success occurs in the first part as often as it occurs in `rs`, and likewise each error in the second. */
  lemma {:induction false} SplitCounts<A, B>(rs: seq<Result<A, B>>)
    ensures forall a :: multiset(Split(rs).0)[a] == multiset(rs)[Ok(a)]
    ensures forall b :: multiset(Split(rs).1)[b] == multiset(rs)[Err(b)]
  {
    if rs != [] {
      var init, x := rs[..|rs| - 1], rs[|rs| - 1];
      assert rs == init + [x];
      SplitSnoc(init, x);
      SplitCounts(init);
      assert multiset(rs) == multiset(init) + multiset{x};
      var p, q := Split(init), Split(rs);
      if x.Ok? {
        assert multiset(q.0) == multiset(p.0) + multiset{x.value};
        assert multiset(q.1) == multiset(p.1);
      } else {
        assert multiset(q.0) == multiset(p.0);
        assert multiset(q.1) == multiset(p.1) + multiset{x.error};
      }
    }
  }

  /** Splitting a permutation of `r` gives permutations of the successes and of the errors of `r`. */
  lemma SplitPermutation<A, B>(r: seq<Result<A, B>>, s: seq<Result<A, B>>)
    requires multiset(r) == multiset(s)
    ensures multiset(Split(r).0) == multiset(Split(s).0)
    ensures multiset(Split(r).1) == multiset(Split(s).1)
  {
    SplitCounts(r);
    SplitCounts(s);
    var ok1, ok2 := multiset(Split(r).0), multiset(Split(s).0);
    var err1, err2 := multiset(Split(r).1), multiset(Split(s).1);
    MultisetExt(ok1, ok2);
    MultisetExt(err1, err2);
  }

  /** Multisets with the same count for every element are equal. */
  lemma MultisetExt<T>(m1: multiset<T>, m2: multiset<T>)
    requires forall x :: m1[x] == m2[x]
    ensures m1 == m2
  {
  }

  /** Removing the element at `j` removes one occurrence of it. */
  lemma RemoveAt<T>(s: seq<T>, j: nat)
    requires j < |s|
    ensures multiset(s) == multiset(s[..j] + s[j + 1..]) + multiset{s[j]}
  {
    assert s == s[..j] + [s[j]] + s[j + 1..];
  }

  lemma Cancel<T>(a: multiset<T>, b: multiset<T>, c: multiset<T>)
    requires a + c == b + c
    ensures a == b
  {
    assert a == (a + c) - c;
    assert b == (b + c) - c;
  }

  /** `f` applied to every element of `s`, in order. */
  function Map<T, U>(f: T --> U, s: seq<T>): (r: seq<U>)
    requires forall i :: 0 <= i < |s| ==> f.requires(s[i])
    ensures |r| == |s|
    ensures forall i :: 0 <= i < |s| ==> r[i] == f(s[i])
  {
    seq(|s|, i requires 0 <= i < |s| && f.requires(s[i]) => f(s[i]))
  }

  lemma MapConcat<T, U>(f: T --> U, r: seq<T>, s: seq<T>)
    requires forall x :: x in r + s ==> f.requires(x)
    ensures Map(f, r + s) == Map(f, r) + Map(f, s)
  {
  }

  /** Mapping a permutation of `r` gives a permutation of the image of `r`. */
  lemma {:induction false} MapPermutation<T, U>(f: T --> U, r: seq<T>, s: seq<T>)
    requires multiset(r) == multiset(s)
    requires forall x :: x in r ==> f.requires(x)
    ensures forall x :: x in s ==> f.requires(x)
    ensures multiset(Map(f, r)) == multiset(Map(f, s))
  {
    forall x | x in s
      ensures f.requires(x)
    {
      assert x in multiset(s);
    }
    if r == [] {
      assert |multiset(s)| == 0;
    } else {
      var x := r[|r| - 1];
      assert x in multiset(s);
      var j :| 0 <= j < |s| && s[j] == x;
      var r', s' := r[..|r| - 1], s[..j] + s[j + 1..];
      RemoveAt(r, |r| - 1);
      RemoveAt(s, j);
      assert r[..|r| - 1] + r[|r|..] == r';
      Cancel(multiset(r'), multiset(s'), multiset{x});
      MapPermutation(f, r', s');
      MapRemove(f, r, |r| - 1);
      MapRemove(f, s, j);
    }
  }

  lemma MapRemove<T, U>(f: T --> U, s: seq<T>, j: nat)
    requires j < |s|
    requires forall x :: x in s ==> f.requires(x)
    ensures multiset(Map(f, s)) == multiset(Map(f, s[..j] + s[j + 1..])) + multiset{f(s[j])}
  {
    var m := Map(f, s);
    assert m == m[..j] + [m[j]] + m[j + 1..];
    assert Map(f, s[..j] + s[j + 1..]) == m[..j] + m[j + 1..];
  }

  /**
   * The map a loop `for _, x := range s { res[key(x)] = val(x) }` builds: every
   * key of `s` is present, and a later item overwrites an earlier one.
   */
  function LastBy<T, K, V>(s: seq<T>, key: T -> K, val: T -> V): (m: map<K, V>)
    ensures m.Keys == set i | 0 <= i < |s| :: key(s[i])
  {
    if s == [] then map[]
    else
      var init := s[..|s| - 1];
      assert forall i :: 0 <= i < |init| ==> init[i] == s[i];
      LastBy(init, key, val)[key(s[|s| - 1]) := val(s[|s| - 1])]
  }

  /** One more item overwrites its key. */
  lemma LastBySnoc<T, K, V>(s: seq<T>, x: T, key: T -> K, val: T -> V)
    ensures LastBy(s + [x], key, val) == LastBy(s, key, val)[key(x) := val(x)]
  {
    assert (s + [x])[..|s|] == s;
  }

  /** `Map(f, s + [x])` is `Map(f, s)` followed by `f(x)`. */
  lemma MapSnoc<T, U>(f: T --> U, s: seq<T>, x: T)
    requires forall y :: y in s + [x] ==> f.requires(y)
    ensures Map(f, s + [x]) == Map(f, s) + [f(x)]
  {
    MapConcat(f, s, [x]);
  }

  /** The value stored under a key is that of the last item carrying the key. */
  lemma {:induction false} LastByValue<T, K, V>(s: seq<T>, key: T -> K, val: T -> V, i: nat)
    requires i < |s|
    requires forall j :: i < j < |s| ==> key(s[j]) != key(s[i])
    ensures key(s[i]) in LastBy(s, key, val)
    ensures LastBy(s, key, val)[key(s[i])] == val(s[i])
  {
    if i < |s| - 1 {
      var init := s[..|s| - 1];
      assert init[i] == s[i];
      LastByValue(init, key, val, i);
    }
  }

  /**
   * A walk over the key set `keys` in arbitrary order (Go's `range` over a
   * map): `visited` lists, each once, exactly the keys no longer `remaining`.
   */
  ghost predicate Traversal<K>(visited: seq<K>, remaining: set<K>, keys: set<K>)
  {
    && remaining <= keys
    && |visited| + |remaining| == |keys|
    && (forall i :: 0 <= i < |visited| ==> visited[i] in keys && visited[i] !in remaining)
    && (forall i, j :: 0 <= i < j < |visited| ==> visited[i] != visited[j])
    && (forall k :: k in keys && k !in remaining ==> k in visited)
  }

  lemma TraversalStart<K>(keys: set<K>)
    ensures Traversal([], keys, keys)
  {
  }

  /** Visiting one more remaining key keeps the walk a walk. */
  lemma TraversalStep<K>(visited: seq<K>, remaining: set<K>, keys: set<K>, k: K)
    requires Traversal(visited, remaining, keys)
    requires k in remaining
    ensures Traversal(visited + [k], remaining - {k}, keys)
  {
    var v := visited + [k];
    forall i | 0 <= i < |v|
      ensures v[i] in keys && v[i] !in remaining - {k}
    {
      if i < |visited| {
        assert v[i] == visited[i];
      }
    }
    forall k' | k' in keys && k' !in remaining - {k}
      ensures k' in v
    {
      if k' != k {
        assert k' in visited;
        var i :| 0 <= i < |visited| && visited[i] == k';
        assert v[i] == k';
      } else {
        assert v[|visited|] == k;
      }
    }
  }

  /** A finished walk lists every key exactly once. */
  lemma TraversalEnd<K>(visited: seq<K>, keys: set<K>)
    requires Traversal(visited, {}, keys)
    ensures |visited| == |keys|
    ensures forall i :: 0 <= i < |visited| ==> visited[i] in keys
    ensures forall i, j :: 0 <= i < j < |visited| ==> visited[i] != visited[j]
    ensures forall k :: k in keys <==> k in visited
  {
  }
}
