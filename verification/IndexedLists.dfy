/**
 The bounded list of recently processed rows: a list and a map kept equal, oldest entries evicted.
 */
module IndexedLists {
  import opened Seqs

  /** The list after a push: a key already listed changes nothing, not even its place. */
  function Pushed<K(==)>(list: seq<K>, key: K, maxSize: nat): (r: seq<K>)
    ensures |list| <= maxSize ==> |r| <= maxSize
    ensures forall k :: k in r ==> k == key || k in list
  {
    if key in list then list
    else if |list| + 1 <= maxSize then [key] + list
    else ([key] + list)[..maxSize]
  }

  function Keys<K(==)>(list: seq<K>): set<K> { set k | k in list }

  lemma EvictLast<K>(list: seq<K>)
    requires list != [] && Distinct(list)
    ensures Distinct(list[..|list| - 1])
    ensures Keys(list[..|list| - 1]) == Keys(list) - {list[|list| - 1]}
  {
  }

  lemma AddFront<K>(list: seq<K>, key: K)
    requires Distinct(list) && key !in list
    ensures Distinct([key] + list) && Keys([key] + list) == Keys(list) + {key}
  {
  }

  class IndexedList<K(==)> {
    var entryMap: map<K, K>
    var entryList: seq<K>
    const maxSize: nat

    ghost predicate Valid()
      reads this
    {
      && 1 <= maxSize && |entryList| <= maxSize
      && Distinct(entryList)
      && entryMap.Keys == Keys(entryList)
    }

    constructor (maxSize: int)
      ensures Valid() && entryList == []
      ensures this.maxSize == if maxSize <= 1 then 1 else maxSize
    {
      entryMap, entryList := map[], [];
      this.maxSize := if maxSize <= 1 then 1 else maxSize;
    }

    predicate Exists(key: K)
      requires Valid()
      reads this
      ensures Exists(key) <==> key in entryList
    {
      key in entryMap
    }

    method PushFront(key: K)
      requires Valid()
      modifies this`entryMap, this`entryList
      ensures Valid() && entryList == Pushed(old(entryList), key, maxSize) && Exists(key)
    {
      if Exists(key) {
        return;
      }
      AddFront(entryList, key);
      ghost var all := [key] + entryList;
      entryList := [key] + entryList;
      entryMap := entryMap[key := key];
      while |entryList| > maxSize
        invariant 1 <= |entryList| <= |all| && entryList == all[..|entryList|]
        invariant |entryList| >= maxSize || entryList == all
        invariant Distinct(entryList) && entryMap.Keys == Keys(entryList)
      {
        EvictLast(entryList);
        var e := entryList[|entryList| - 1];
        entryList := entryList[..|entryList| - 1];
        entryMap := entryMap - {e};
      }
      assert entryList[0] == key;
    }
  }

  // ---------------------------------------------------------------- which keys are held

  /** The list after a history of pushes, oldest first. */
  function Listed<K(==)>(pushes: seq<K>, maxSize: nat): seq<K>
  {
    if pushes == [] then [] else Pushed(Listed(pushes[..|pushes| - 1], maxSize), pushes[|pushes| - 1], maxSize)
  }

  /** The pushes of keys not listed at the time, newest first. */
  function Effective<K(==)>(pushes: seq<K>, maxSize: nat): seq<K>
  {
    if pushes == [] then [] else
      var before, key := pushes[..|pushes| - 1], pushes[|pushes| - 1];
      if key in Listed(before, maxSize) then Effective(before, maxSize) else [key] + Effective(before, maxSize)
  }

  function Newest<K>(keys: seq<K>, maxSize: nat): seq<K>
  {
    if |keys| <= maxSize then keys else keys[..maxSize]
  }

  /** After any history the list holds exactly the newest `maxSize` effective pushes, newest first. */
  lemma {:induction false} HoldsNewestEffective<K>(pushes: seq<K>, maxSize: nat)
    ensures Listed(pushes, maxSize) == Newest(Effective(pushes, maxSize), maxSize)
  {
    if pushes != [] {
      HoldsNewestEffective(pushes[..|pushes| - 1], maxSize);
    }
  }

  lemma {:induction false} ListedDistinct<K>(pushes: seq<K>, maxSize: nat)
    ensures Distinct(Listed(pushes, maxSize)) && |Listed(pushes, maxSize)| <= maxSize
  {
    if pushes != [] {
      ListedDistinct(pushes[..|pushes| - 1], maxSize);
    }
  }

  ghost predicate Reversed<K>(a: seq<K>, b: seq<K>)
  {
    |a| == |b| && forall i :: 0 <= i < |a| ==> a[i] == b[|b| - 1 - i]
  }

  lemma ReversedMore<K>(a: seq<K>, b: seq<K>, key: K)
    requires Reversed(a, b)
    ensures Reversed([key] + a, b + [key]) && forall k :: k in a ==> k in b
  {
  }

  /** Without repeats every push is effective, so the list is the last `maxSize` pushes. */
  lemma {:induction false} FreshPushesAllHeld<K>(pushes: seq<K>, maxSize: nat)
    requires Distinct(pushes)
    ensures Reversed(Effective(pushes, maxSize), pushes)
  {
    if pushes != [] {
      var before, key := pushes[..|pushes| - 1], pushes[|pushes| - 1];
      FreshPushesAllHeld(before, maxSize);
      HoldsNewestEffective(before, maxSize);
      ReversedMore(Effective(before, maxSize), before, key);
      assert pushes == before + [key];
      assert key !in before;
      hide Reversed, Listed, Distinct;
    }
  }

  function Without<K(==)>(keys: seq<K>, key: K): seq<K>
  {
    if keys == [] then [] else
      var before, last := Without(keys[..|keys| - 1], key), keys[|keys| - 1];
      if last == key then before else before + [last]
  }

  /** The keys pushed so far, by their last push, newest first. */
  function Recent<K(==)>(pushes: seq<K>): seq<K>
  {
    if pushes == [] then [] else
      var before, key := pushes[..|pushes| - 1], pushes[|pushes| - 1];
      [key] + Without(Recent(before), key)
  }

  lemma {:induction false} WithoutMembers<K>(keys: seq<K>, key: K)
    ensures forall k :: k in Without(keys, key) <==> k in keys && k != key
    ensures key !in keys ==> Without(keys, key) == keys
  {
    if keys != [] {
      var front := keys[..|keys| - 1];
      WithoutMembers(front, key);
      assert keys == front + [keys[|keys| - 1]];
    }
  }

  lemma {:induction false} WithoutAt<K>(keys: seq<K>, key: K, i: nat)
    requires Distinct(keys) && i < |keys| && keys[i] == key
    ensures Without(keys, key) == keys[..i] + keys[i + 1..]
  {
    var front := keys[..|keys| - 1];
    if i < |front| {
      WithoutAt(front, key, i);
      assert keys[..i] + keys[i + 1..] == (front[..i] + front[i + 1..]) + [keys[|keys| - 1]];
    } else {
      assert key !in front;
      WithoutMembers(front, key);
      assert keys[..i] + keys[i + 1..] == front;
    }
  }

  lemma {:induction false} WithoutDistinct<K>(keys: seq<K>, key: K)
    requires Distinct(keys)
    ensures Distinct(Without(keys, key))
  {
    WithoutMembers(keys, key);
    if key in keys {
      var i :| 0 <= i < |keys| && keys[i] == key;
      WithoutAt(keys, key, i);
    }
  }

  lemma {:induction false} RecentDistinct<K>(pushes: seq<K>)
    ensures Distinct(Recent(pushes))
  {
    if pushes != [] {
      var recent, key := Recent(pushes[..|pushes| - 1]), pushes[|pushes| - 1];
      RecentDistinct(pushes[..|pushes| - 1]);
      WithoutDistinct(recent, key);
      WithoutMembers(recent, key);
      AddFront(Without(recent, key), key);
    }
  }

  /** The list is the `maxSize` most recently pushed keys, in that order. */
  ghost predicate HoldsNewest<K>(pushes: seq<K>, maxSize: nat)
  {
    Listed(pushes, maxSize) == Newest(Recent(pushes), maxSize)
  }

  /** A push of a key that is not among the newest, or is the newest itself. */
  ghost predicate Harmless<K>(pushes: seq<K>, key: K, maxSize: nat)
  {
    key !in Newest(Recent(pushes), maxSize) || Recent(pushes)[0] == key
  }

  lemma MoveToFront<K>(recent: seq<K>, key: K, maxSize: nat)
    requires Distinct(recent) && maxSize >= 1
    requires key !in Newest(recent, maxSize)
    ensures Newest([key] + Without(recent, key), maxSize) == Newest([key] + Newest(recent, maxSize), maxSize)
  {
    WithoutMembers(recent, key);
    if key in recent {
      var i :| 0 <= i < |recent| && recent[i] == key;
      WithoutAt(recent, key, i);
      assert i >= maxSize by {
        assert forall j :: 0 <= j < |Newest(recent, maxSize)| ==> Newest(recent, maxSize)[j] == recent[j];
      }
    }
  }

  /** From a list that holds the newest keys, a push keeps it so if and only if it is harmless. */
  lemma PushKeepsNewest<K>(pushes: seq<K>, key: K, maxSize: nat)
    requires maxSize >= 1 && HoldsNewest(pushes, maxSize)
    ensures HoldsNewest(pushes + [key], maxSize) <==> Harmless(pushes, key, maxSize)
  {
    var recent := Recent(pushes);
    RecentDistinct(pushes);
    assert (pushes + [key])[..|pushes|] == pushes;
    assert Recent(pushes + [key]) == [key] + Without(recent, key);
    if key !in Newest(recent, maxSize) {
      MoveToFront(recent, key, maxSize);
      assert Listed(pushes + [key], maxSize) == Newest([key] + Newest(recent, maxSize), maxSize);
    } else if recent[0] == key {
      WithoutAt(recent, key, 0);
      assert Without(recent, key) == recent[1..];
      assert [key] + recent[1..] == recent;
    } else {
      assert Newest(Recent(pushes + [key]), maxSize)[0] == key;
      assert Listed(pushes + [key], maxSize)[0] == recent[0];
    }
  }

  /** After every push of the history the list holds the newest keys. */
  ghost predicate AlwaysNewest<K>(pushes: seq<K>, maxSize: nat)
  {
    HoldsNewest(pushes, maxSize) && (pushes != [] ==> AlwaysNewest(pushes[..|pushes| - 1], maxSize))
  }

  /** Every push of the history was harmless when it was made. */
  ghost predicate AllHarmless<K>(pushes: seq<K>, maxSize: nat)
  {
    pushes != [] ==>
      && AllHarmless(pushes[..|pushes| - 1], maxSize)
      && Harmless(pushes[..|pushes| - 1], pushes[|pushes| - 1], maxSize)
  }

  /** Over a whole history the list always holds the newest keys if and only if every push is harmless. */
  lemma {:induction false} NewestExactly<K>(pushes: seq<K>, maxSize: nat)
    requires maxSize >= 1
    ensures AlwaysNewest(pushes, maxSize) <==> AllHarmless(pushes, maxSize)
  {
    if pushes == [] {
      assert HoldsNewest(pushes, maxSize);
    } else {
      hide HoldsNewest, Harmless;
      var before, key := pushes[..|pushes| - 1], pushes[|pushes| - 1];
      NewestExactly(before, maxSize);
      assert pushes == before + [key];
      if HoldsNewest(before, maxSize) {
        PushKeepsNewest(before, key, maxSize);
      }
    }
  }

  /** A repeated push does not refresh its key: here the last push but one is of `a`, and `a` is gone. */
  lemma RepeatDoesNotRefresh<K>(a: K, b: K, c: K)
    requires a != b && b != c && a != c
    ensures Listed([a, b, a, c], 2) == [c, b]
  {
    assert [a, b, a, c][..3] == [a, b, a] && [a, b, a][..2] == [a, b] && [a, b][..1] == [a];
    assert Listed([a], 2) == [a];
    assert Listed([a, b], 2) == [b, a];
    assert Listed([a, b, a], 2) == [b, a];
  }
}
