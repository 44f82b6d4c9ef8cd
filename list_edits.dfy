/**
 * The list edits the document operations perform on the entity lists, and
 * the snapshot marks they open while doing so.  Each is stated generically
 * over the entity type `T` and its key function, as `UndoRecords` does.
 */
module ListEdits {
  import opened Wrappers
  import opened Data
  import opened UndoRecords

  /** No key occurs twice in `ids`. */
  predicate DistinctSeq<K(==)>(ids: seq<K>)
  {
    forall a, b :: 0 <= a < b < |ids| ==> ids[a] != ids[b]
  }

  // ---------------------------------------------------------------------
  // Find on edited lists

  lemma FindTail<K, T>(items: seq<T>, key: T -> K, k: K)
    requires items != []
    ensures Find(items, key, k) == if key(items[0]) == k then Some(items[0]) else Find(items[1..], key, k)
  {
  }

  /** Appending entities with other keys does not change what `k` finds. */
  lemma FindAppend<K, T>(a: seq<T>, b: seq<T>, key: T -> K, k: K)
    requires forall j :: 0 <= j < |b| ==> key(b[j]) != k
    ensures Find(a + b, key, k) == Find(a, key, k)
  {
    if a == [] {
      assert a + b == b;
    } else {
      assert (a + b)[1..] == a[1..] + b;
      FindTail(a + b, key, k);
      FindAppend(a[1..], b, key, k);
    }
  }

  /** Two lists with the same keys, equal wherever the key is `k`, find the same entity for `k`. */
  lemma FindSameWhereKey<K, T>(a: seq<T>, b: seq<T>, key: T -> K, k: K)
    requires |a| == |b| && forall j :: 0 <= j < |a| ==> key(a[j]) == key(b[j])
    requires forall j :: 0 <= j < |a| && key(a[j]) == k ==> a[j] == b[j]
    ensures Find(a, key, k) == Find(b, key, k)
  {
    if a != [] {
      FindTail(a, key, k);
      FindTail(b, key, k);
      FindSameWhereKey(a[1..], b[1..], key, k);
    }
  }

  // ---------------------------------------------------------------------
  // Removing the selected entities (`deleteSelected`)

  /** `items.filter(x => !ids.has(key(x)))`. */
  function Unselected<K(==), T>(items: seq<T>, key: T -> K, ids: seq<K>): (r: seq<T>)
    ensures |r| <= |items|
    ensures forall i :: 0 <= i < |r| ==> key(r[i]) !in ids
  {
    if items == [] then []
    else (if key(items[0]) in ids then [] else [items[0]]) + Unselected(items[1..], key, ids)
  }

  /** The kept entities are exactly the unselected ones. */
  lemma {:induction false} UnselectedMembers<K, T>(items: seq<T>, key: T -> K, ids: seq<K>, x: T)
    ensures x in Unselected(items, key, ids) <==> x in items && key(x) !in ids
  {
    if items != [] {
      UnselectedMembers(items[1..], key, ids, x);
      assert items == [items[0]] + items[1..];
    }
  }

  /** Filtering distributes over concatenation: the kept entities keep their order. */
  lemma {:induction false} UnselectedAppend<K, T>(a: seq<T>, b: seq<T>, key: T -> K, ids: seq<K>)
    ensures Unselected(a + b, key, ids) == Unselected(a, key, ids) + Unselected(b, key, ids)
  {
    if a != [] {
      assert (a + b)[1..] == a[1..] + b;
      UnselectedAppend(a[1..], b, key, ids);
    } else {
      assert a + b == b;
    }
  }

  /** After the filter a selected key finds nothing and any other key finds what it found. */
  lemma {:induction false} FindUnselected<K, T>(items: seq<T>, key: T -> K, ids: seq<K>, k: K)
    ensures Find(Unselected(items, key, ids), key, k) == if k in ids then None else Find(items, key, k)
  {
    if items != [] {
      var rest := Unselected(items[1..], key, ids);
      FindUnselected(items[1..], key, ids, k);
      FindTail(items, key, k);
      if key(items[0]) !in ids {
        assert ([items[0]] + rest)[1..] == rest;
        FindTail([items[0]] + rest, key, k);
      } else {
        assert Unselected(items, key, ids) == [] + rest == rest;
      }
    }
  }

  lemma {:induction false} UnselectedUnique<K, T>(items: seq<T>, key: T -> K, ids: seq<K>)
    requires UniqueKeys(items, key)
    ensures UniqueKeys(Unselected(items, key, ids), key)
  {
    if items != [] {
      var rest := Unselected(items[1..], key, ids);
      assert UniqueKeys(items[1..], key) by {
        forall a, b | 0 <= a < b < |items[1..]|
          ensures key(items[1..][a]) != key(items[1..][b])
        {
          assert items[1..][a] == items[a + 1] && items[1..][b] == items[b + 1];
        }
      }
      UnselectedUnique(items[1..], key, ids);
      if key(items[0]) !in ids {
        var r := [items[0]] + rest;
        forall b | 1 <= b < |r|
          ensures key(r[0]) != key(r[b])
        {
          UnselectedMembers(items[1..], key, ids, r[b]);
          var j :| 0 <= j < |items[1..]| && items[1..][j] == r[b];
          assert items[j + 1] == r[b];
        }
        forall a, b | 0 <= a < b < |r|
          ensures key(r[a]) != key(r[b])
        {
          if a > 0 {
            assert r[a] == rest[a - 1] && r[b] == rest[b - 1];
          }
        }
      }
    }
  }

  // ---------------------------------------------------------------------
  // Moving the selected entities (`moveSelected`)

  /** `getBulbById(k)` then an update of that object in place: only the first entity with key `k` changes. */
  function MoveFirst<K(==), T>(items: seq<T>, key: T -> K, k: K, move: T -> T): (r: seq<T>)
    ensures |r| == |items|
  {
    match FindIndex(items, key, k)
    case None => items
    case Some(j) => items[j := move(items[j])]
  }

  /** The update applied for each selected key in turn. */
  function MoveEach<K(==), T>(items: seq<T>, key: T -> K, ids: seq<K>, move: T -> T): (r: seq<T>)
    ensures |r| == |items|
  {
    if ids == [] then items
    else MoveFirst(MoveEach(items, key, ids[..|ids| - 1], move), key, ids[|ids| - 1], move)
  }

  /** Moving keeps every key where it was. */
  lemma {:induction false} MoveEachKeys<K, T(!new)>(items: seq<T>, key: T -> K, ids: seq<K>, move: T -> T)
    requires forall x :: key(move(x)) == key(x)
    ensures forall j :: 0 <= j < |items| ==> key(MoveEach(items, key, ids, move)[j]) == key(items[j])
  {
    if ids != [] {
      MoveEachKeys(items, key, ids[..|ids| - 1], move);
    }
  }

  /**
   * With unique keys and no repeated id, an entity is moved exactly once
   * when its key is selected and is left alone otherwise.
   */
  lemma {:induction false} MoveEachPointwise<K, T(!new)>(items: seq<T>, key: T -> K, ids: seq<K>, move: T -> T)
    requires forall x :: key(move(x)) == key(x)
    requires UniqueKeys(items, key) && DistinctSeq(ids)
    ensures forall j :: 0 <= j < |items| ==>
      MoveEach(items, key, ids, move)[j] == if key(items[j]) in ids then move(items[j]) else items[j]
  {
    if ids != [] {
      var init := ids[..|ids| - 1];
      var k := ids[|ids| - 1];
      var prev := MoveEach(items, key, init, move);
      assert DistinctSeq(init);
      MoveEachPointwise(items, key, init, move);
      MoveEachKeys(items, key, init, move);
      assert k !in init;
      forall j | 0 <= j < |items|
        ensures MoveEach(items, key, ids, move)[j] == if key(items[j]) in ids then move(items[j]) else items[j]
      {
        assert key(items[j]) in ids <==> key(items[j]) in init || key(items[j]) == k;
      }
    }
  }

  /** An unselected key finds the same entity after the move. */
  lemma {:induction false} FindMoveEach<K, T(!new)>(items: seq<T>, key: T -> K, ids: seq<K>, move: T -> T, k: K)
    requires forall x :: key(move(x)) == key(x)
    requires k !in ids
    ensures Find(MoveEach(items, key, ids, move), key, k) == Find(items, key, k)
  {
    if ids != [] {
      var init := ids[..|ids| - 1];
      var prev := MoveEach(items, key, init, move);
      FindMoveEach(items, key, init, move, k);
      FindSameWhereKey(prev, MoveEach(items, key, ids, move), key, k);
    }
  }

  lemma MoveEachUnique<K, T(!new)>(items: seq<T>, key: T -> K, ids: seq<K>, move: T -> T)
    requires forall x :: key(move(x)) == key(x)
    requires UniqueKeys(items, key)
    ensures UniqueKeys(MoveEach(items, key, ids, move), key)
  {
    MoveEachKeys(items, key, ids, move);
  }

  // ---------------------------------------------------------------------
  // Duplicating the selected entities (`duplicateSelected`)

  /** The growing list, the id counter and the new ids, in the order they were made. */
  datatype Duplication<T> = Duplication(items: seq<T>, next: int, newIds: seq<int>)

  /**
   * For each selected id in turn: the first entity with that id in the list
   * as it is by then (earlier copies included) is copied under the next id
   * and appended.
   */
  function DuplicateEach<T>(items: seq<T>, key: T -> int, ids: seq<int>, next: int, copy: (T, int) -> T): Duplication<T>
  {
    if ids == [] then Duplication(items, next, [])
    else
      var prev := DuplicateEach(items, key, ids[..|ids| - 1], next, copy);
      match Find(prev.items, key, ids[|ids| - 1])
      case None => prev
      case Some(original) =>
        Duplication(prev.items + [copy(original, prev.next)], prev.next + 1, prev.newIds + [prev.next])
  }

  /** One more selected id: the step a duplicating loop takes. */
  lemma DuplicateEachSnoc<T>(items: seq<T>, key: T -> int, ids: seq<int>, i: nat, next: int, copy: (T, int) -> T)
    requires i < |ids|
    ensures DuplicateEach(items, key, ids[..i + 1], next, copy) ==
      var prev := DuplicateEach(items, key, ids[..i], next, copy);
      match Find(prev.items, key, ids[i])
      case None => prev
      case Some(original) =>
        Duplication(prev.items + [copy(original, prev.next)], prev.next + 1, prev.newIds + [prev.next])
  {
    assert ids[..i + 1][..i] == ids[..i];
  }

  /**
   * The original entities stay in front; the copies follow, one per new id,
   * and the new ids are consecutive from the counter's old value.
   */
  lemma {:induction false} DuplicateEachShape<T(!new)>(items: seq<T>, key: T -> int, ids: seq<int>, next: int, copy: (T, int) -> T)
    requires forall x, n :: key(copy(x, n)) == n
    ensures var r := DuplicateEach(items, key, ids, next, copy);
      |r.items| == |items| + |r.newIds| && r.items[..|items|] == items
      && r.next == next + |r.newIds|
      && (forall j :: 0 <= j < |r.newIds| ==> r.newIds[j] == next + j)
      && (forall j :: 0 <= j < |r.newIds| ==> key(r.items[|items| + j]) == r.newIds[j])
  {
    if ids != [] {
      DuplicateEachShape(items, key, ids[..|ids| - 1], next, copy);
    }
  }

  /** Copies get fresh keys: when the counter exceeds every key, keys stay unique. */
  lemma DuplicateEachUnique<T(!new)>(items: seq<T>, key: T -> int, ids: seq<int>, next: int, copy: (T, int) -> T)
    requires forall x, n :: key(copy(x, n)) == n
    requires UniqueKeys(items, key) && forall j :: 0 <= j < |items| ==> key(items[j]) < next
    ensures UniqueKeys(DuplicateEach(items, key, ids, next, copy).items, key)
  {
    var r := DuplicateEach(items, key, ids, next, copy);
    DuplicateEachShape(items, key, ids, next, copy);
    forall a, b | 0 <= a < b < |r.items|
      ensures key(r.items[a]) != key(r.items[b])
    {
      if b < |items| {
        assert r.items[a] == items[a] && r.items[b] == items[b];
      } else if a < |items| {
        assert r.items[a] == items[a];
        assert key(r.items[b]) == r.newIds[b - |items|];
      } else {
        assert key(r.items[a]) == r.newIds[a - |items|];
        assert key(r.items[b]) == r.newIds[b - |items|];
      }
    }
  }

  /** A key that is not one of the new ids finds what it found before. */
  lemma FindDuplicateEach<T(!new)>(items: seq<T>, key: T -> int, ids: seq<int>, next: int, copy: (T, int) -> T, k: int)
    requires forall x, n :: key(copy(x, n)) == n
    requires k !in DuplicateEach(items, key, ids, next, copy).newIds
    ensures Find(DuplicateEach(items, key, ids, next, copy).items, key, k) == Find(items, key, k)
  {
    var r := DuplicateEach(items, key, ids, next, copy);
    DuplicateEachShape(items, key, ids, next, copy);
    var tail := r.items[|items|..];
    assert r.items == items + tail;
    forall j | 0 <= j < |tail|
      ensures key(tail[j]) != k
    {
      assert tail[j] == r.items[|items| + j];
      assert r.newIds[j] in r.newIds;
    }
    FindAppend(items, tail, key, k);
  }

  // ---------------------------------------------------------------------
  // The snapshot marks the operations open

  /** Every `before` snapshot was read from `items`. */
  ghost predicate Captured<K, T>(es: seq<Entry<K, T>>, items: seq<T>, key: T -> K)
  {
    forall i :: 0 <= i < |es| ==> es[i].snapshot.before == Find(items, key, es[i].key)
  }

  /** Every entry of `Put(es, k, s)` is an old entry or the new one. */
  lemma PutEntries<K, T>(es: seq<Entry<K, T>>, k: K, s: Snapshot<T>)
    requires DistinctKeys(es)
    ensures forall i :: 0 <= i < |Put(es, k, s)| ==> Put(es, k, s)[i] == Entry(k, s) || (i < |es| && Put(es, k, s)[i] == es[i])
    ensures forall k2 :: Has(Put(es, k, s), k2) <==> Has(es, k2) || k2 == k
  {
    forall k2
      ensures Has(Put(es, k, s), k2) <==> Has(es, k2) || k2 == k
    {
      if k2 != k {
        PutOther(es, k, s, k2);
      }
    }
  }

  lemma PutCaptured<K, T>(es: seq<Entry<K, T>>, items: seq<T>, key: T -> K, k: K, s: Snapshot<T>)
    requires DistinctKeys(es) && WellKeyed(es, key) && Captured(es, items, key)
    requires s.before == Find(items, key, k)
    requires s.after.Some? ==> key(s.after.value) == k
    ensures WellKeyed(Put(es, k, s), key) && Captured(Put(es, k, s), items, key)
  {
    PutEntries(es, k, s);
  }

  /** `mark*ForDelete` for each selected key: existing entities only, the current value replacing any earlier snapshot. */
  function MarkDeletes<K(==), T>(es: seq<Entry<K, T>>, items: seq<T>, key: T -> K, ids: seq<K>): (r: seq<Entry<K, T>>)
    requires DistinctKeys(es)
    ensures DistinctKeys(r)
  {
    if ids == [] then es
    else
      var prev := MarkDeletes(es, items, key, ids[..|ids| - 1]);
      var id := ids[|ids| - 1];
      match Find(items, key, id)
      case None => prev
      case Some(x) => Put(prev, id, Snapshot(Some(x), None))
  }

  lemma {:induction false} MarkDeletesSpec<K, T>(es: seq<Entry<K, T>>, items: seq<T>, key: T -> K, ids: seq<K>)
    requires DistinctKeys(es) && WellKeyed(es, key) && Captured(es, items, key)
    ensures WellKeyed(MarkDeletes(es, items, key, ids), key) && Captured(MarkDeletes(es, items, key, ids), items, key)
    ensures forall k :: Has(MarkDeletes(es, items, key, ids), k) <==> Has(es, k) || (k in ids && HasKey(items, key, k))
  {
    if ids != [] {
      var init := ids[..|ids| - 1];
      var id := ids[|ids| - 1];
      MarkDeletesSpec(es, items, key, init);
      var prev := MarkDeletes(es, items, key, init);
      assert forall k :: k in ids <==> k in init || k == id;
      match Find(items, key, id)
      case None =>
      case Some(x) =>
        PutCaptured(prev, items, key, id, Snapshot(Some(x), None));
        PutEntries(prev, id, Snapshot(Some(x), None));
    }
  }

  /** `mark*ForUndo` for each selected key: the first snapshot of a key is kept. */
  function MarkEach<K(==), T>(es: seq<Entry<K, T>>, items: seq<T>, key: T -> K, ids: seq<K>): (r: seq<Entry<K, T>>)
    requires DistinctKeys(es)
    ensures DistinctKeys(r)
  {
    if ids == [] then es
    else
      var prev := MarkEach(es, items, key, ids[..|ids| - 1]);
      MarkForUndo(prev, ids[|ids| - 1], Find(items, key, ids[|ids| - 1]))
  }

  /** Marking one more key marks it after the earlier ones. */
  lemma MarkEachSnoc<K, T>(es: seq<Entry<K, T>>, items: seq<T>, key: T -> K, ids: seq<K>, i: nat)
    requires DistinctKeys(es) && i < |ids|
    ensures MarkEach(es, items, key, ids[..i + 1])
         == MarkForUndo(MarkEach(es, items, key, ids[..i]), ids[i], Find(items, key, ids[i]))
  {
    assert ids[..i + 1][..i] == ids[..i];
  }

  lemma {:induction false} MarkEachSpec<K, T>(es: seq<Entry<K, T>>, items: seq<T>, key: T -> K, ids: seq<K>)
    requires DistinctKeys(es) && WellKeyed(es, key) && Captured(es, items, key)
    ensures WellKeyed(MarkEach(es, items, key, ids), key) && Captured(MarkEach(es, items, key, ids), items, key)
    ensures forall k :: Has(MarkEach(es, items, key, ids), k) <==> Has(es, k) || k in ids
  {
    if ids != [] {
      var init := ids[..|ids| - 1];
      var id := ids[|ids| - 1];
      MarkEachSpec(es, items, key, init);
      var prev := MarkEach(es, items, key, init);
      assert forall k :: k in ids <==> k in init || k == id;
      if !Has(prev, id) {
        PutCaptured(prev, items, key, id, Snapshot(Find(items, key, id), None));
        PutEntries(prev, id, Snapshot(Find(items, key, id), None));
      }
    }
  }

  /** `mark*ForCreate` for each new key: undo will remove the entity. */
  function MarkCreates<K(==), T>(es: seq<Entry<K, T>>, ids: seq<K>): (r: seq<Entry<K, T>>)
    requires DistinctKeys(es)
    ensures DistinctKeys(r)
  {
    if ids == [] then es
    else Put(MarkCreates(es, ids[..|ids| - 1]), ids[|ids| - 1], Snapshot(None, None))
  }

  /** One more created id: the step a marking loop takes. */
  lemma MarkCreatesSnoc<K, T>(es: seq<Entry<K, T>>, ids: seq<K>, id: K)
    requires DistinctKeys(es)
    ensures MarkCreates(es, ids + [id]) == Put(MarkCreates(es, ids), id, Snapshot(None, None))
  {
    assert (ids + [id])[..|ids|] == ids;
  }

  lemma {:induction false} MarkCreatesSpec<K, T>(es: seq<Entry<K, T>>, items: seq<T>, key: T -> K, ids: seq<K>)
    requires DistinctKeys(es) && WellKeyed(es, key) && Captured(es, items, key)
    requires forall j :: 0 <= j < |ids| ==> !HasKey(items, key, ids[j])
    ensures WellKeyed(MarkCreates(es, ids), key) && Captured(MarkCreates(es, ids), items, key)
    ensures forall k :: Has(MarkCreates(es, ids), k) <==> Has(es, k) || k in ids
  {
    if ids != [] {
      var init := ids[..|ids| - 1];
      var id := ids[|ids| - 1];
      MarkCreatesSpec(es, items, key, init);
      var prev := MarkCreates(es, init);
      assert forall k :: k in ids <==> k in init || k == id;
      PutCaptured(prev, items, key, id, Snapshot(None, None));
      PutEntries(prev, id, Snapshot(None, None));
    }
  }
}
