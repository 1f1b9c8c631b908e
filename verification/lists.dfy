/** The list helpers of the library: the identity-unique append and insert,
    `insertBefore`, and `pfSortedList`, a list kept in strictly increasing key
    order with a binary search that finishes with a linear scan.

    Host lists are modelled as sequences and each mutating call returns the
    new sequence. Object identity (`is`) is equality of the modelled handles.
    The sorted list's key function and the host's `<` on keys are parameters
    `key` and `lt`; the default key function is `DefaultKey`. */
module Lists {
  import opened Optional

  // ---------------------------------------------------------------- sequences

  /** Host `list.insert(p, v)` for an index already in range. */
  function Inserted<T>(s: seq<T>, p: nat, v: T): (r: seq<T>)
    requires p <= |s|
    ensures |r| == |s| + 1 && r[p] == v
    ensures forall i :: 0 <= i < p ==> r[i] == s[i]
    ensures forall i :: p < i < |r| ==> r[i] == s[i - 1]
    ensures multiset(r) == multiset(s) + multiset{v}
  {
    assert s == s[..p] + s[p..];
    s[..p] + [v] + s[p..]
  }

  /** Host `list.pop(i)`: the element at `i` taken out. */
  function Removed<T>(s: seq<T>, i: nat): (r: seq<T>)
    requires i < |s|
    ensures |r| == |s| - 1
    ensures forall j :: 0 <= j < i ==> r[j] == s[j]
    ensures forall j :: i <= j < |r| ==> r[j] == s[j + 1]
    ensures multiset(r) + multiset{s[i]} == multiset(s)
  {
    assert s == s[..i] + [s[i]] + s[i + 1..];
    s[..i] + s[i + 1..]
  }

  /** Taking out what was just inserted gives the list back ... */
  lemma RemoveInserted<T>(s: seq<T>, p: nat, v: T)
    requires p <= |s|
    ensures Removed(Inserted(s, p, v), p) == s
  {
  }

  /** ... and putting back what was just taken out does too. */
  lemma InsertRemoved<T>(s: seq<T>, i: nat)
    requires i < |s|
    ensures Inserted(Removed(s, i), i, s[i]) == s
  {
  }

  /** Host `list.insert(idx, v)` reads a negative index from the end and
      clamps the result into `[0, n]`. */
  function InsertPosition(n: nat, idx: int): (p: nat)
    ensures p <= n
    ensures 0 <= idx <= n ==> p == idx
    ensures idx < 0 && 0 <= n + idx ==> p == n + idx
    ensures n + idx < 0 ==> p == 0
    ensures n < idx ==> p == n
  {
    if idx < 0 then (if idx + n < 0 then 0 else idx + n)
    else if idx > n then n
    else idx
  }

  /** The first position holding key `k` under `key`, or -1 when there is none. */
  function KeyIndex<T, K(==)>(s: seq<T>, key: T -> K, k: K): (r: int)
    ensures -1 <= r < |s|
    ensures r == -1 <==> forall i :: 0 <= i < |s| ==> key(s[i]) != k
    ensures 0 <= r ==> key(s[r]) == k && forall i :: 0 <= i < r ==> key(s[i]) != k
  {
    if |s| == 0 then -1
    else if key(s[0]) == k then 0
    else
      var r := KeyIndex(s[1..], key, k);
      assert forall i :: 0 < i < |s| ==> s[i] == s[1..][i - 1];
      if r == -1 then -1 else r + 1
  }

  /** `defaultGetKeyFunc`: an element is its own key. */
  function DefaultKey<T>(x: T): T {
    x
  }

  /** Under the default key, `KeyIndex` is the first position of the element. */
  lemma KeyIndexByDefault<T>(s: seq<T>, o: T)
    ensures KeyIndex(s, DefaultKey, o) == -1 <==> o !in s
    ensures o in s ==> s[KeyIndex(s, DefaultKey, o)] == o && o !in s[..KeyIndex(s, DefaultKey, o)]
  {
    var r := KeyIndex(s, DefaultKey, o);
    if o in s {
      var j :| 0 <= j < |s| && s[j] == o;
      assert DefaultKey(s[j]) == o;
      assert DefaultKey(s[r]) == o;
      forall i | 0 <= i < r
        ensures s[..r][i] != o
      {
        assert DefaultKey(s[i]) != o;
      }
    } else {
      forall i | 0 <= i < |s|
        ensures DefaultKey(s[i]) != o
      {
        assert s[i] in s;
      }
    }
  }

  /** No element occurs twice. */
  predicate Distinct<T(==)>(s: seq<T>) {
    forall i, j :: 0 <= i < j < |s| ==> s[i] != s[j]
  }

  // ---------------------------------------------------------------- unique lists

  /** `isUnique(lst, o)`: no element of the list is `o`. */
  function IsUnique<T(==)>(s: seq<T>, o: T): (r: bool)
    ensures r <==> o !in s
  {
    if |s| == 0 then true
    else if s[0] == o then false
    else
      assert s == [s[0]] + s[1..];
      IsUnique(s[1..], o)
  }

  /** `appendUnique(lst, o)`: appends `o` when it is not yet in the list;
      the flag says whether it did. */
  function AppendUnique<T(==)>(s: seq<T>, o: T): (r: (seq<T>, bool))
    ensures r.1 <==> o !in s
    ensures r.1 ==> r.0 == s + [o]
    ensures !r.1 ==> r.0 == s
  {
    if IsUnique(s, o) then (s + [o], true) else (s, false)
  }

  /** After `appendUnique` the element is present, so a second call changes nothing. */
  lemma AppendUniqueIdempotent<T>(s: seq<T>, o: T)
    ensures var t := AppendUnique(s, o).0;
            o in t && AppendUnique(t, o) == (t, false)
  {
    var t := AppendUnique(s, o).0;
    assert o in s ==> t == s;
    assert o !in s ==> t[|s|] == o;
  }

  /** `appendUnique` keeps a list free of repeats. */
  lemma AppendUniqueDistinct<T>(s: seq<T>, o: T)
    requires Distinct(s)
    ensures Distinct(AppendUnique(s, o).0)
  {
  }

  /** `insertUnique(lst, idx, o)`: inserts `o` at the host position for `idx`
      when it is not yet in the list; the flag says whether it did. */
  function InsertUnique<T(==)>(s: seq<T>, idx: int, o: T): (r: (seq<T>, bool))
    ensures r.1 <==> o !in s
    ensures r.1 ==> |r.0| == |s| + 1 && r.0[InsertPosition(|s|, idx)] == o
    ensures r.1 ==> Removed(r.0, InsertPosition(|s|, idx)) == s
    ensures !r.1 ==> r.0 == s
  {
    if IsUnique(s, o) then
      RemoveInserted(s, InsertPosition(|s|, idx), o);
      (Inserted(s, InsertPosition(|s|, idx), o), true)
    else (s, false)
  }

  /** `insertUnique` keeps a list free of repeats, and taking the new element
      out again gives the old list. */
  lemma InsertUniqueDistinct<T>(s: seq<T>, idx: int, o: T)
    requires Distinct(s)
    ensures Distinct(InsertUnique(s, idx, o).0)
    ensures o !in s ==> Removed(InsertUnique(s, idx, o).0, InsertPosition(|s|, idx)) == s
  {
    if o !in s {
      var p := InsertPosition(|s|, idx);
      var t := Inserted(s, p, o);
      forall i, j | 0 <= i < j < |t|
        ensures t[i] != t[j]
      {
        if i == p {
          assert t[j] == s[j - 1];
        } else if j == p {
          assert t[i] == s[i];
        } else {
          var si := if i < p then i else i - 1;
          var sj := if j < p then j else j - 1;
          assert t[i] == s[si] && t[j] == s[sj] && si < sj;
        }
      }
      RemoveInserted(s, p, o);
    }
  }

  /** `insertBefore(lst, tgt, o)`: `o` goes immediately before the first
      element that is `tgt`; when `tgt` is `None` or absent it is appended. */
  method InsertBefore<T(==)>(s: seq<T>, tgt: Option<T>, o: T) returns (t: seq<T>)
    ensures |t| == |s| + 1
    ensures multiset(t) == multiset(s) + multiset{o}
    ensures tgt.None? || tgt.value !in s ==> t == s + [o]
    ensures tgt.Some? && tgt.value in s ==>
              var p := KeyIndex(s, DefaultKey, tgt.value);
              && 0 <= p && t[p] == o && t[p + 1] == tgt.value
              && tgt.value !in t[..p]
              && Removed(t, p) == s
  {
    if tgt.Some? {
      for idx := 0 to |s|
        invariant forall i :: 0 <= i < idx ==> s[i] != tgt.value
      {
        if s[idx] == tgt.value {
          assert forall i :: 0 <= i < idx ==> DefaultKey(s[i]) != tgt.value;
          assert DefaultKey(s[idx]) == tgt.value;
          assert KeyIndex(s, DefaultKey, tgt.value) == idx;
          t := Inserted(s, idx, o);
          assert t[..idx] == s[..idx];
          RemoveInserted(s, idx, o);
          return;
        }
      }
    }
    t := s + [o];
    assert multiset(t) == multiset(s) + multiset{o};
  }

  // ---------------------------------------------------------------- sorted list

  /** The host `<` on keys is a strict total order. */
  ghost predicate StrictOrder<K(!new)>(lt: (K, K) -> bool) {
    && (forall a :: !lt(a, a))
    && (forall a, b, c :: lt(a, b) && lt(b, c) ==> lt(a, c))
    && (forall a, b :: a != b ==> lt(a, b) || lt(b, a))
  }

  /** The `pfSortedList` invariant: keys strictly increase along the list. */
  predicate Increasing<T, K>(s: seq<T>, key: T -> K, lt: (K, K) -> bool) {
    forall i, j :: 0 <= i < j < |s| ==> lt(key(s[i]), key(s[j]))
  }

  /** The number of leading elements whose keys are below `k`: in an increasing
      list, the place where an element with key `k` belongs. */
  function InsertionPoint<T, K>(s: seq<T>, key: T -> K, lt: (K, K) -> bool, k: K): (p: nat)
    ensures p <= |s|
    ensures forall i :: 0 <= i < p ==> lt(key(s[i]), k)
    ensures p < |s| ==> !lt(key(s[p]), k)
  {
    if |s| == 0 || !lt(key(s[0]), k) then 0
    else
      assert forall i :: 0 < i < |s| ==> s[i] == s[1..][i - 1];
      1 + InsertionPoint(s[1..], key, lt, k)
  }

  /** The insertion point is pinned down by the two facts its contract states. */
  lemma InsertionPointIs<T, K>(s: seq<T>, key: T -> K, lt: (K, K) -> bool, k: K, p: nat)
    requires p <= |s|
    requires forall i :: 0 <= i < p ==> lt(key(s[i]), k)
    requires p < |s| ==> !lt(key(s[p]), k)
    ensures InsertionPoint(s, key, lt, k) == p
  {
  }

  /** In an increasing list one position at most holds a given key. */
  lemma KeyIndexIs<T, K(!new)>(s: seq<T>, key: T -> K, lt: (K, K) -> bool, k: K, i: nat)
    requires StrictOrder(lt) && Increasing(s, key, lt)
    requires i < |s| && key(s[i]) == k
    ensures KeyIndex(s, key, k) == i
  {
  }

  /** A key below the key at `m` lies below every key up to `m` ... */
  lemma BelowUpTo<T, K(!new)>(s: seq<T>, key: T -> K, lt: (K, K) -> bool, k: K, m: nat)
    requires StrictOrder(lt) && Increasing(s, key, lt)
    requires m < |s| && lt(key(s[m]), k)
    ensures forall i :: 0 <= i <= m ==> lt(key(s[i]), k)
  {
    forall i | 0 <= i < m
      ensures lt(key(s[i]), k)
    {
      assert lt(key(s[i]), key(s[m]));
    }
  }

  /** ... and a key above the key at `m` lies above every key from `m` on. */
  lemma AboveFrom<T, K(!new)>(s: seq<T>, key: T -> K, lt: (K, K) -> bool, k: K, m: nat)
    requires StrictOrder(lt) && Increasing(s, key, lt)
    requires m < |s| && lt(k, key(s[m]))
    ensures forall i :: m <= i < |s| ==> lt(k, key(s[i]))
  {
    forall i | m < i < |s|
      ensures lt(k, key(s[i]))
    {
      assert lt(key(s[m]), key(s[i]));
    }
  }

  /** `getIndexByKey(k)`: halves the range `[minIdx, maxIdx]` while it holds five
      or more elements, then scans what is left; -1 when the key is absent. */
  method GetIndexByKey<T, K(==,!new)>(s: seq<T>, key: T -> K, lt: (K, K) -> bool, k: K) returns (r: int)
    requires StrictOrder(lt) && Increasing(s, key, lt)
    ensures -1 <= r < |s|
    ensures r == -1 <==> forall i :: 0 <= i < |s| ==> key(s[i]) != k
    ensures 0 <= r ==> key(s[r]) == k
    ensures r == KeyIndex(s, key, k)
  {
    var minIdx, maxIdx := 0, |s| - 1;
    while minIdx <= maxIdx
      invariant 0 <= minIdx <= maxIdx + 1 <= |s|
      invariant forall i :: 0 <= i < minIdx ==> key(s[i]) != k
      invariant forall i :: maxIdx < i < |s| ==> key(s[i]) != k
      decreases maxIdx - minIdx
    {
      var cnt := maxIdx - minIdx + 1;
      if cnt < 5 {
        for idx := 0 to cnt
          invariant forall i :: minIdx <= i < minIdx + idx ==> key(s[i]) != k
        {
          if key(s[minIdx + idx]) == k {
            KeyIndexIs(s, key, lt, k, minIdx + idx);
            return minIdx + idx;
          }
        }
        return -1;
      } else {
        var idx := (minIdx + maxIdx) / 2;
        var kIdx := key(s[idx]);
        if kIdx == k {
          KeyIndexIs(s, key, lt, k, idx);
          return idx;
        }
        if lt(kIdx, k) {
          BelowUpTo(s, key, lt, k, idx);
          minIdx := idx + 1;
        } else {
          forall i | idx <= i < |s|
            ensures key(s[i]) != k
          {
            if i > idx {
              assert lt(kIdx, key(s[i]));
            }
          }
          maxIdx := idx - 1;
        }
      }
    }
    return -1;
  }

  /** `getIndex(v)`: the position of the element with the key of `v`. */
  method GetIndex<T, K(==,!new)>(s: seq<T>, key: T -> K, lt: (K, K) -> bool, v: T) returns (r: int)
    requires StrictOrder(lt) && Increasing(s, key, lt)
    ensures r == -1 <==> forall i :: 0 <= i < |s| ==> key(s[i]) != key(v)
    ensures 0 <= r ==> r < |s| && key(s[r]) == key(v)
    ensures r == KeyIndex(s, key, key(v))
  {
    r := GetIndexByKey(s, key, lt, key(v));
  }

  /** `getValueByKey(k)`: the element with key `k`, or `None`. */
  method GetValueByKey<T, K(==,!new)>(s: seq<T>, key: T -> K, lt: (K, K) -> bool, k: K) returns (r: Option<T>)
    requires StrictOrder(lt) && Increasing(s, key, lt)
    ensures r.None? <==> forall i :: 0 <= i < |s| ==> key(s[i]) != k
    ensures r.Some? ==> r.value in s && key(r.value) == k
  {
    var idx := GetIndexByKey(s, key, lt, k);
    if idx >= 0 {
      r := Some(s[idx]);
    } else {
      r := None;
    }
  }

  /** An element whose key lies strictly between the keys before `p` and those
      from `p` on keeps the list increasing. */
  lemma InsertedIncreasing<T, K(!new)>(s: seq<T>, key: T -> K, lt: (K, K) -> bool, p: nat, v: T)
    requires StrictOrder(lt) && Increasing(s, key, lt) && p <= |s|
    requires forall i :: 0 <= i < p ==> lt(key(s[i]), key(v))
    requires forall i :: p <= i < |s| ==> lt(key(v), key(s[i]))
    ensures Increasing(Inserted(s, p, v), key, lt)
  {
    var t := Inserted(s, p, v);
    forall i, j | 0 <= i < j < |t|
      ensures lt(key(t[i]), key(t[j]))
    {
      if i == p {
        assert t[j] == s[j - 1];
      } else if j == p {
        assert t[i] == s[i];
      } else {
        var si := if i < p then i else i - 1;
        var sj := if j < p then j else j - 1;
        assert t[i] == s[si] && t[j] == s[sj] && si < sj;
      }
    }
  }

  /** Taking an element out keeps the list increasing. */
  lemma RemovedIncreasing<T, K>(s: seq<T>, key: T -> K, lt: (K, K) -> bool, i: nat)
    requires Increasing(s, key, lt) && i < |s|
    ensures Increasing(Removed(s, i), key, lt)
  {
    var t := Removed(s, i);
    forall a, b | 0 <= a < b < |t|
      ensures lt(key(t[a]), key(t[b]))
    {
      var sa := if a < i then a else a + 1;
      var sb := if b < i then b else b + 1;
      assert t[a] == s[sa] && t[b] == s[sb] && sa < sb;
    }
  }

  /** The list `addValue(v)` leaves behind: unchanged when the key of `v` is
      present, otherwise `v` at its insertion point. */
  function Added<T, K(==,!new)>(s: seq<T>, key: T -> K, lt: (K, K) -> bool, v: T): (t: seq<T>)
    requires StrictOrder(lt) && Increasing(s, key, lt)
    ensures Increasing(t, key, lt)
    ensures KeyIndex(s, key, key(v)) >= 0 ==> t == s
  {
    if KeyIndex(s, key, key(v)) >= 0 then s
    else
      var p := InsertionPoint(s, key, lt, key(v));
      forall i | p <= i < |s|
        ensures lt(key(v), key(s[i]))
      {
        assert key(s[p]) != key(v) && !lt(key(s[p]), key(v));
        AboveFrom(s, key, lt, key(v), p);
      }
      InsertedIncreasing(s, key, lt, p, v);
      Inserted(s, p, v)
  }

  /** The list `delValueByKey(k)` leaves behind: the element with key `k` taken
      out, or the list unchanged when there is none. */
  function Deleted<T, K(==,!new)>(s: seq<T>, key: T -> K, lt: (K, K) -> bool, k: K): (t: seq<T>)
    requires StrictOrder(lt) && Increasing(s, key, lt)
    ensures Increasing(t, key, lt)
    ensures forall i :: 0 <= i < |t| ==> key(t[i]) != k
    ensures multiset(t) <= multiset(s) && |s| - 1 <= |t| <= |s|
  {
    var i := KeyIndex(s, key, k);
    if i < 0 then s
    else
      RemovedIncreasing(s, key, lt, i);
      RemovedKeyGone(s, key, lt, i);
      var t := Removed(s, i);
      assert multiset(t) + multiset{s[i]} == multiset(s);
      assert multiset(t) <= multiset(s);
      t
  }

  /** In an increasing list the key of the element taken out occurs nowhere else. */
  lemma RemovedKeyGone<T, K(!new)>(s: seq<T>, key: T -> K, lt: (K, K) -> bool, i: nat)
    requires StrictOrder(lt) && Increasing(s, key, lt) && i < |s|
    ensures forall j :: 0 <= j < |s| - 1 ==> key(Removed(s, i)[j]) != key(s[i])
  {
    var t := Removed(s, i);
    forall j | 0 <= j < |t|
      ensures key(t[j]) != key(s[i])
    {
      if i <= j {
        assert lt(key(s[i]), key(s[j + 1]));
      } else {
        assert lt(key(s[j]), key(s[i]));
      }
    }
  }

  /** `addValue(v)`: `None` and the list unchanged when the key of `v` is already
      present; otherwise `v` inserted where the keys stay increasing, and the
      index it now sits at. The host's trailing `return -1` is unreachable: the
      halving steps never empty a range of five or more. */
  method AddValue<T, K(==,!new)>(s: seq<T>, key: T -> K, lt: (K, K) -> bool, v: T) returns (t: seq<T>, r: Option<int>)
    requires StrictOrder(lt) && Increasing(s, key, lt)
    ensures r.None? <==> exists i :: 0 <= i < |s| && key(s[i]) == key(v)
    ensures r.None? ==> t == s
    ensures r.Some? ==> 0 <= r.value < |t| && t[r.value] == v
                        && Removed(t, r.value) == s
                        && Increasing(t, key, lt)
    ensures t == Added(s, key, lt, v)
  {
    var vKey := key(v);
    t, r := s, None;
    var found := GetIndexByKey(s, key, lt, vKey);
    if found >= 0 {
      return;
    }
    var minIdx, maxIdx := 0, |s| - 1;
    if maxIdx < 0 {
      t, r := Finish(s, key, lt, v, 0);
      return;
    }
    while minIdx <= maxIdx
      invariant 0 <= minIdx <= maxIdx < |s|
      invariant forall i :: 0 <= i < minIdx ==> lt(key(s[i]), vKey)
      invariant forall i :: maxIdx < i < |s| ==> lt(vKey, key(s[i]))
      decreases maxIdx - minIdx
    {
      var cnt := maxIdx - minIdx + 1;
      if cnt < 5 {
        for idx := 0 to cnt
          invariant forall i :: 0 <= i < minIdx + idx ==> lt(key(s[i]), vKey)
        {
          if lt(vKey, key(s[minIdx + idx])) {
            AboveFrom(s, key, lt, vKey, minIdx + idx);
            t, r := Finish(s, key, lt, v, minIdx + idx);
            return;
          }
          assert key(s[minIdx + idx]) != vKey;
        }
        t, r := Finish(s, key, lt, v, minIdx + cnt);
        return;
      } else {
        var idx := (minIdx + maxIdx) / 2;
        var kIdx := key(s[idx]);
        if lt(kIdx, vKey) {
          BelowUpTo(s, key, lt, vKey, idx);
          minIdx := idx + 1;
        } else {
          assert kIdx != vKey;
          AboveFrom(s, key, lt, vKey, idx);
          maxIdx := idx - 1;
        }
      }
    }
    assert false;
  }

  /** The last step of `addValue`: `v` goes in at `p`, between the keys below
      and the keys above its own. */
  method Finish<T, K(==,!new)>(s: seq<T>, key: T -> K, lt: (K, K) -> bool, v: T, p: nat) returns (t: seq<T>, r: Option<int>)
    requires StrictOrder(lt) && Increasing(s, key, lt) && p <= |s|
    requires forall i :: 0 <= i < p ==> lt(key(s[i]), key(v))
    requires forall i :: p <= i < |s| ==> lt(key(v), key(s[i]))
    ensures r == Some(p as int) && t == Added(s, key, lt, v)
    ensures t[p] == v && Removed(t, p) == s && Increasing(t, key, lt)
  {
    forall i | 0 <= i < |s|
      ensures key(s[i]) != key(v)
    {
      if i < p {
        assert lt(key(s[i]), key(v));
      } else {
        assert lt(key(v), key(s[i]));
      }
    }
    InsertionPointIs(s, key, lt, key(v), p);
    InsertedIncreasing(s, key, lt, p, v);
    RemoveInserted(s, p, v);
    t, r := Inserted(s, p, v), Some(p);
  }

  /** `delValueByKey(k)`: the element with key `k` taken out and returned, or
      `None` and the list unchanged when there is none. */
  method DelValueByKey<T, K(==,!new)>(s: seq<T>, key: T -> K, lt: (K, K) -> bool, k: K) returns (t: seq<T>, r: Option<T>)
    requires StrictOrder(lt) && Increasing(s, key, lt)
    ensures r.None? <==> forall i :: 0 <= i < |s| ==> key(s[i]) != k
    ensures r.None? ==> t == s
    ensures r.Some? ==> key(r.value) == k && multiset(t) + multiset{r.value} == multiset(s)
    ensures r.Some? ==> 0 <= KeyIndex(s, key, k) && r.value == s[KeyIndex(s, key, k)]
    ensures t == Deleted(s, key, lt, k)
  {
    var idx := GetIndexByKey(s, key, lt, k);
    if idx >= 0 {
      t, r := Removed(s, idx), Some(s[idx]);
    } else {
      t, r := s, None;
    }
  }

  /** `delValue(v)`: deletion by the key of `v`. */
  method DelValue<T, K(==,!new)>(s: seq<T>, key: T -> K, lt: (K, K) -> bool, v: T) returns (t: seq<T>, r: Option<T>)
    requires StrictOrder(lt) && Increasing(s, key, lt)
    ensures r.None? <==> forall i :: 0 <= i < |s| ==> key(s[i]) != key(v)
    ensures r.None? ==> t == s
    ensures r.Some? ==> key(r.value) == key(v) && multiset(t) + multiset{r.value} == multiset(s)
    ensures r.Some? ==> 0 <= KeyIndex(s, key, key(v)) && r.value == s[KeyIndex(s, key, key(v))]
    ensures t == Deleted(s, key, lt, key(v))
  {
    t, r := DelValueByKey(s, key, lt, key(v));
  }

  /** Adding a value with a new key and deleting that key gives the list back ... */
  lemma DeleteAfterAdd<T, K(!new)>(s: seq<T>, key: T -> K, lt: (K, K) -> bool, v: T)
    requires StrictOrder(lt) && Increasing(s, key, lt)
    requires forall i :: 0 <= i < |s| ==> key(s[i]) != key(v)
    ensures Deleted(Added(s, key, lt, v), key, lt, key(v)) == s
  {
    var p := InsertionPoint(s, key, lt, key(v));
    var t := Added(s, key, lt, v);
    assert t == Inserted(s, p, v);
    KeyIndexIs(t, key, lt, key(v), p);
    RemoveInserted(s, p, v);
  }

  /** ... and deleting a present key and adding the deleted element back does too. */
  lemma AddAfterDelete<T, K(!new)>(s: seq<T>, key: T -> K, lt: (K, K) -> bool, k: K)
    requires StrictOrder(lt) && Increasing(s, key, lt)
    requires KeyIndex(s, key, k) >= 0
    ensures var x := s[KeyIndex(s, key, k)];
            Added(Deleted(s, key, lt, k), key, lt, x) == s
  {
    var i := KeyIndex(s, key, k);
    var x := s[i];
    var t := Removed(s, i);
    assert Deleted(s, key, lt, k) == t;
    RemovedIncreasing(s, key, lt, i);
    assert KeyIndex(t, key, k) == -1;
    forall j | 0 <= j < i
      ensures lt(key(t[j]), key(x))
    {
      assert lt(key(s[j]), key(s[i]));
    }
    if i < |t| {
      assert lt(key(s[i]), key(s[i + 1]));
    }
    InsertionPointIs(t, key, lt, k, i);
    InsertRemoved(s, i);
  }

  /** After `addValue(v)` the key of `v` is found, at the returned index. */
  lemma FindAfterAdd<T, K(!new)>(s: seq<T>, key: T -> K, lt: (K, K) -> bool, v: T)
    requires StrictOrder(lt) && Increasing(s, key, lt)
    requires forall i :: 0 <= i < |s| ==> key(s[i]) != key(v)
    ensures var t := Added(s, key, lt, v);
            KeyIndex(t, key, key(v)) == InsertionPoint(s, key, lt, key(v))
            && t[InsertionPoint(s, key, lt, key(v))] == v
  {
    var p := InsertionPoint(s, key, lt, key(v));
    KeyIndexIs(Added(s, key, lt, v), key, lt, key(v), p);
  }
}
