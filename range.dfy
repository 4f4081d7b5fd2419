/** An ascending range scan over the keys under one storage prefix, started
    after an exclusive bound and cut off after `limit` items: what
    `prefix(p).range(Some(Bound::exclusive(start)), None, Order::Ascending).take(limit)`
    yields, as a sequence of keys. Keys are ordered by a strict total order. */
module Range {
  import opened Results

  ghost predicate StrictTotalOrder<K(!new)>(lt: (K, K) -> bool) {
    && (forall a :: !lt(a, a))
    && (forall a, b, c :: lt(a, b) && lt(b, c) ==> lt(a, c))
    && (forall a, b :: a != b ==> lt(a, b) || lt(b, a))
  }

  /** k lies past the exclusive lower bound `start` (no bound: every key does). */
  predicate After<K>(lt: (K, K) -> bool, k: K, start: Option<K>) {
    start.None? || lt(start.value, k)
  }

  /** The least element of a non-empty set. */
  ghost function Least<K(!new)>(s: set<K>, lt: (K, K) -> bool): (m: K)
    requires s != {} && StrictTotalOrder(lt)
    ensures m in s
    ensures forall k :: k in s && k != m ==> lt(m, k)
    decreases s
  {
    var x :| x in s;
    var rest := s - {x};
    if rest == {} then
      assert forall k :: k in s ==> k in rest || k == x;
      x
    else
      var y := Least(rest, lt);
      assert x != y;
      if lt(x, y) then
        assert forall k :: k in s && k != x ==> k in rest;
        x
      else
        assert lt(y, x);
        assert forall k :: k in s && k != y ==> k in rest || k == x;
        y
  }

  /** m is the least key past `start`. */
  ghost predicate IsFirst<K(!new)>(keys: set<K>, start: Option<K>, lt: (K, K) -> bool, m: K) {
    && m in keys && After(lt, m, start)
    && forall k :: k in keys && After(lt, k, start) && k != m ==> lt(m, k)
  }

  /** When some key lies past `start`, a least one does. */
  lemma FirstExists<K(!new)>(keys: set<K>, start: Option<K>, lt: (K, K) -> bool, k: K)
    requires StrictTotalOrder(lt)
    requires k in keys && After(lt, k, start)
    ensures exists m :: IsFirst(keys, start, lt, m)
  {
    var later := set x | x in keys && After(lt, x, start);
    assert k in later;
    var m := Least(later, lt);
    assert IsFirst(keys, start, lt, m);
  }

  /** The first key past `start`, if there is one. */
  ghost function First<K(!new)>(keys: set<K>, start: Option<K>, lt: (K, K) -> bool): (m: Option<K>)
    requires StrictTotalOrder(lt)
    ensures m.None? <==> forall k :: k in keys ==> !After(lt, k, start)
    ensures m.Some? ==> m.value in keys && After(lt, m.value, start)
    ensures m.Some? ==> forall k :: k in keys && After(lt, k, start) && k != m.value ==> lt(m.value, k)
  {
    if exists k :: k in keys && After(lt, k, start) then
      var k :| k in keys && After(lt, k, start);
      FirstExists(keys, start, lt, k);
      var m :| IsFirst(keys, start, lt, m);
      Some(m)
    else
      None
  }

  /** The keys the scan yields, in order. */
  ghost function Page<K(!new)>(keys: set<K>, start: Option<K>, limit: nat, lt: (K, K) -> bool): (r: seq<K>)
    requires StrictTotalOrder(lt)
    decreases limit
  {
    if limit == 0 then []
    else
      match First(keys, start, lt)
      case None => []
      case Some(m) => [m] + Page(keys, Some(m), limit - 1, lt)
  }

  /** What a page is, stated without computing one: at most `limit` keys,
      all present and past `start`, strictly ascending, and nothing skipped —
      a key past `start` that is left out comes after a full page. */
  ghost predicate IsPage<K(!new)>(r: seq<K>, keys: set<K>, start: Option<K>, limit: nat, lt: (K, K) -> bool) {
    && |r| <= limit
    && (forall i :: 0 <= i < |r| ==> r[i] in keys && After(lt, r[i], start))
    && (forall i, j :: 0 <= i < j < |r| ==> lt(r[i], r[j]))
    && (forall k :: k in keys && After(lt, k, start) && k !in r ==>
          |r| == limit && (limit > 0 ==> lt(r[limit - 1], k)))
  }

  /** Putting the first key past start in front of a page that starts
      after it gives a page. */
  lemma ConsIsPage<K(!new)>(m: K, rest: seq<K>, keys: set<K>, start: Option<K>, limit: nat, lt: (K, K) -> bool)
    requires StrictTotalOrder(lt)
    requires limit > 0 && First(keys, start, lt) == Some(m)
    requires IsPage(rest, keys, Some(m), limit - 1, lt)
    ensures IsPage([m] + rest, keys, start, limit, lt)
  {
    var r := [m] + rest;
    forall i | 0 <= i < |r|
      ensures r[i] in keys && After(lt, r[i], start)
    {
      if i > 0 {
        assert r[i] == rest[i - 1];
      }
    }
    forall i, j | 0 <= i < j < |r|
      ensures lt(r[i], r[j])
    {
      assert r[j] == rest[j - 1];
      if i > 0 {
        assert r[i] == rest[i - 1];
      }
    }
    forall k | k in keys && After(lt, k, start) && k !in r
      ensures |r| == limit && (limit > 0 ==> lt(r[limit - 1], k))
    {
      assert k != m && k !in rest;
      if limit - 1 > 0 {
        assert r[limit - 1] == rest[limit - 2];
      }
    }
  }

  /** The scan yields a page in the sense of IsPage. */
  lemma {:induction false} PageIsPage<K(!new)>(keys: set<K>, start: Option<K>, limit: nat, lt: (K, K) -> bool)
    requires StrictTotalOrder(lt)
    ensures IsPage(Page(keys, start, limit, lt), keys, start, limit, lt)
    decreases limit
  {
    if limit > 0 {
      var first := First(keys, start, lt);
      if first.Some? {
        PageIsPage(keys, first, limit - 1, lt);
        ConsIsPage(first.value, Page(keys, first, limit - 1, lt), keys, start, limit, lt);
      }
    }
  }

  /** A non-empty page starts with the first key past start. */
  lemma PageHead<K(!new)>(r: seq<K>, keys: set<K>, start: Option<K>, limit: nat, lt: (K, K) -> bool)
    requires StrictTotalOrder(lt)
    requires IsPage(r, keys, start, limit, lt) && |r| > 0
    ensures First(keys, start, lt) == Some(r[0])
  {
    forall k | k in keys && After(lt, k, start) && k != r[0]
      ensures lt(r[0], k)
    {
      if k in r {
        var j :| 0 <= j < |r| && r[j] == k;
        assert j != 0;
      } else if limit > 1 {
        assert lt(r[0], r[limit - 1]);
      }
    }
  }

  /** An empty page of positive limit means no key lies past start. */
  lemma PageEmpty<K(!new)>(r: seq<K>, keys: set<K>, start: Option<K>, limit: nat, lt: (K, K) -> bool)
    requires StrictTotalOrder(lt)
    requires IsPage(r, keys, start, limit, lt) && |r| == 0 && limit > 0
    ensures First(keys, start, lt).None?
  {
  }

  /** What follows the head of a page is a page that starts after the head. */
  lemma PageTail<K(!new)>(r: seq<K>, keys: set<K>, start: Option<K>, limit: nat, lt: (K, K) -> bool)
    requires StrictTotalOrder(lt)
    requires IsPage(r, keys, start, limit, lt) && |r| > 0
    ensures IsPage(r[1..], keys, Some(r[0]), limit - 1, lt)
  {
    var m, rest := r[0], r[1..];
    forall i | 0 <= i < |rest|
      ensures rest[i] in keys && After(lt, rest[i], Some(m))
    {
      assert rest[i] == r[i + 1];
    }
    forall i, j | 0 <= i < j < |rest|
      ensures lt(rest[i], rest[j])
    {
      assert rest[i] == r[i + 1] && rest[j] == r[j + 1];
    }
    forall k | k in keys && After(lt, k, Some(m)) && k !in rest
      ensures |rest| == limit - 1 && (limit - 1 > 0 ==> lt(rest[limit - 2], k))
    {
      assert !lt(m, m);
      forall j | 1 <= j < |r|
        ensures r[j] != k
      {
        assert r[j] == rest[j - 1];
      }
      assert k !in r;
      assert After(lt, k, start) by {
        if start.Some? {
          assert lt(start.value, m);
        }
      }
      if limit - 1 > 0 {
        assert rest[limit - 2] == r[limit - 1];
      }
    }
  }

  /** IsPage pins the page down: any sequence that is a page is the scan's. */
  lemma {:induction false} PageUnique<K(!new)>(r: seq<K>, keys: set<K>, start: Option<K>, limit: nat, lt: (K, K) -> bool)
    requires StrictTotalOrder(lt)
    requires IsPage(r, keys, start, limit, lt)
    ensures r == Page(keys, start, limit, lt)
    decreases limit, 1
  {
    if limit == 0 {
      assert r == [];
    } else if |r| == 0 {
      PageEmpty(r, keys, start, limit, lt);
    } else {
      PageTail(r, keys, start, limit, lt);
      PageHead(r, keys, start, limit, lt);
      PageUniqueCons(r[0], r[1..], keys, start, limit, lt);
      assert r == [r[0]] + r[1..];
    }
  }

  /** The inductive step of PageUnique: the first key past start, followed
      by a page that starts after it, is the scan's page. */
  lemma {:induction false} PageUniqueCons<K(!new)>(m: K, rest: seq<K>, keys: set<K>, start: Option<K>, limit: nat,
                                                   lt: (K, K) -> bool)
    requires StrictTotalOrder(lt)
    requires limit > 0 && First(keys, start, lt) == Some(m)
    requires IsPage(rest, keys, Some(m), limit - 1, lt)
    ensures [m] + rest == Page(keys, start, limit, lt)
    decreases limit, 0
  {
    PageUnique(rest, keys, Some(m), limit - 1, lt);
  }

  /** Scanning one more key off the front: a non-empty page starts with the
      first key past start and continues from there. */
  lemma PageStep<K(!new)>(keys: set<K>, start: Option<K>, limit: nat, lt: (K, K) -> bool)
    requires StrictTotalOrder(lt)
    requires limit > 0
    ensures First(keys, start, lt).None? ==> Page(keys, start, limit, lt) == []
    ensures First(keys, start, lt).Some? ==>
      Page(keys, start, limit, lt) ==
        [First(keys, start, lt).value] + Page(keys, First(keys, start, lt), limit - 1, lt)
  {
  }

  /** The first key past start, found by one pass over the key set. */
  method FindFirst<K(==,!new)>(keys: set<K>, start: Option<K>, lt: (K, K) -> bool) returns (m: Option<K>)
    requires StrictTotalOrder(lt)
    ensures m == First(keys, start, lt)
  {
    var rest := keys;
    m := None;
    while rest != {}
      invariant rest <= keys
      invariant m.None? ==> forall k :: k in keys - rest ==> !After(lt, k, start)
      invariant m.Some? ==> m.value in keys - rest && After(lt, m.value, start)
      invariant m.Some? ==> forall k :: k in keys - rest && After(lt, k, start) && k != m.value ==> lt(m.value, k)
      decreases rest
    {
      var k :| k in rest;
      if After(lt, k, start) && (m.None? || lt(k, m.value)) {
        m := Some(k);
      }
      rest := rest - {k};
    }
  }

  /** The range iterator with `take(limit)`: repeatedly the first key past the
      last one returned, until the limit is reached or no key is left. */
  method Scan<K(==,!new)>(keys: set<K>, start: Option<K>, limit: nat, lt: (K, K) -> bool) returns (page: seq<K>)
    requires StrictTotalOrder(lt)
    ensures page == Page(keys, start, limit, lt)
  {
    page := [];
    var cursor := start;
    while |page| < limit
      invariant |page| <= limit
      invariant Page(keys, start, limit, lt) == page + Page(keys, cursor, limit - |page|, lt)
    {
      var next := FindFirst(keys, cursor, lt);
      ghost var left := limit - |page|;
      if next.None? {
        assert Page(keys, cursor, left, lt) == [] by {
          PageStep(keys, cursor, left, lt);
        }
        assert page == Page(keys, start, limit, lt);
        break;
      }
      ghost var rest := Page(keys, next, left - 1, lt);
      assert Page(keys, cursor, left, lt) == [next.value] + rest by {
        PageStep(keys, cursor, left, lt);
      }
      assert page + ([next.value] + rest) == (page + [next.value]) + rest;
      page := page + [next.value];
      assert limit - |page| == left - 1;
      cursor := next;
    }
  }
}
