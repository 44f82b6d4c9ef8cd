/**
 * Undo records: before/after snapshots of the entities one transaction
 * touched, keyed by bulb id, score id or animation name.
 *
 * A JavaScript `Map` iterates in insertion order and `applyRecord` walks it
 * in that order, so a snapshot map is an association list (`seq<Entry>`)
 * with distinct keys; `Put` replaces an existing key in place and appends a
 * new one, as `Map.prototype.set` does.
 */
module UndoRecords {
  import opened Wrappers
  import opened Data

  datatype Snapshot<T> = Snapshot(before: Option<T>, after: Option<T>)
  datatype Entry<K, T> = Entry(key: K, snapshot: Snapshot<T>)

  datatype GrillHeights = GrillHeights(grillHeight: int, smallGrillHeight: int)

  datatype DmdArea = DmdArea(
    dmdDefaultLocationX: int,
    dmdDefaultLocationY: int,
    dmdCopyAreaX: int,
    dmdCopyAreaY: int,
    dmdCopyAreaWidth: int,
    dmdCopyAreaHeight: int)

  datatype UndoRecord = UndoRecord(
    description: string,
    bulbSnapshots: seq<Entry<int, Bulb>>,
    scoreSnapshots: seq<Entry<int, Score>>,
    animationSnapshots: seq<Entry<string, Animation>>,
    imagesBefore: Option<ImageCollection>,
    imagesAfter: Option<ImageCollection>,
    grillHeightsBefore: Option<GrillHeights>,
    grillHeightsAfter: Option<GrillHeights>,
    dmdAreaBefore: Option<DmdArea>,
    dmdAreaAfter: Option<DmdArea>)

  /** A new, empty record for a transaction (its timestamp is not modelled). */
  function CreateUndoRecord(description: string): (r: UndoRecord)
    ensures r.description == description
    ensures r.bulbSnapshots == [] && r.scoreSnapshots == [] && r.animationSnapshots == []
    ensures r.imagesBefore.None? && r.imagesAfter.None?
    ensures r.grillHeightsBefore.None? && r.grillHeightsAfter.None?
    ensures r.dmdAreaBefore.None? && r.dmdAreaAfter.None?
    ensures !HasChanges(r) && WellFormed(r)
  {
    UndoRecord(description, [], [], [], None, None, None, None, None, None)
  }

  /** What `endUndo` tests before keeping a record. */
  predicate HasChanges(r: UndoRecord)
  {
    |r.bulbSnapshots| > 0 || |r.scoreSnapshots| > 0 || |r.animationSnapshots| > 0
    || r.imagesBefore.Some? || r.grillHeightsBefore.Some? || r.dmdAreaBefore.Some?
  }

  // ---------------------------------------------------------------------
  // Deep copies.  Entities are values here, so a copy can share nothing with
  // its original; what remains to state is that it is field-for-field equal.

  function CloneColor(c: Color): (r: Color)
    ensures r == c
  {
    Color(c.r, c.g, c.b, c.a)
  }

  function CloneOptionalColor(c: Option<Color>): (r: Option<Color>)
    ensures r == c
  {
    match c
    case None => None
    case Some(v) => Some(CloneColor(v))
  }

  function CloneBulb(b: Bulb): (r: Bulb)
    ensures r == b
    ensures r.dodgeColor.Some? <==> b.dodgeColor.Some?
  {
    b.(lightColor := CloneColor(b.lightColor), dodgeColor := CloneOptionalColor(b.dodgeColor))
  }

  function CloneScore(s: Score): (r: Score)
    ensures r == s
    ensures (r.reelLitColor.Some? <==> s.reelLitColor.Some?) && (r.reelDarkColor.Some? <==> s.reelDarkColor.Some?)
  {
    s.(reelColor := CloneColor(s.reelColor),
       reelLitColor := CloneOptionalColor(s.reelLitColor),
       reelDarkColor := CloneOptionalColor(s.reelDarkColor))
  }

  function CloneStep(st: AnimationStep): (r: AnimationStep)
    ensures r == st
  {
    AnimationStep(st.step, st.on, st.off, st.waitLoopsAfterOn, st.waitLoopsAfterOff, st.pulseSwitch)
  }

  function CloneAnimation(a: Animation): (r: Animation)
    ensures r == a
    ensures |r.steps| == |a.steps| && forall i :: 0 <= i < |a.steps| ==> r.steps[i] == a.steps[i]
  {
    a.(steps := seq(|a.steps|, i requires 0 <= i < |a.steps| => CloneStep(a.steps[i])))
  }

  function CloneImages(images: ImageCollection): (r: ImageCollection)
    ensures r == images
    ensures |r.backgroundImages| == |images.backgroundImages|
    ensures |r.illuminatedImages| == |images.illuminatedImages|
    ensures |r.dmdImages| == |images.dmdImages|
    ensures r.thumbnailImage == images.thumbnailImage
  {
    var bg := images.backgroundImages;
    var lit := images.illuminatedImages;
    var dmd := images.dmdImages;
    ImageCollection(
      seq(|bg|, i requires 0 <= i < |bg| =>
        BackgroundImage(bg[i].fileName, bg[i].romId, bg[i].romIdType, bg[i].imageType, bg[i].imageData)),
      seq(|lit|, i requires 0 <= i < |lit| => NamedImage(lit[i].fileName, lit[i].imageData)),
      seq(|dmd|, i requires 0 <= i < |dmd| => NamedImage(dmd[i].fileName, dmd[i].imageData)),
      images.thumbnailImage)
  }

  // ---------------------------------------------------------------------
  // Snapshot maps

  function EntryKey<K, T>(e: Entry<K, T>): K
  {
    e.key
  }

  predicate DistinctKeys<K(==), T>(es: seq<Entry<K, T>>)
  {
    UniqueKeys(es, EntryKey)
  }

  /** Every snapshot of key `k` is an entity whose own key is `k`. */
  predicate WellKeyed<K(==), T>(es: seq<Entry<K, T>>, key: T -> K)
  {
    forall i :: 0 <= i < |es| ==>
      (es[i].snapshot.before.Some? ==> key(es[i].snapshot.before.value) == es[i].key)
      && (es[i].snapshot.after.Some? ==> key(es[i].snapshot.after.value) == es[i].key)
  }

  predicate WellFormed(r: UndoRecord)
  {
    DistinctKeys(r.bulbSnapshots) && WellKeyed(r.bulbSnapshots, BulbKey)
    && DistinctKeys(r.scoreSnapshots) && WellKeyed(r.scoreSnapshots, ScoreKey)
    && DistinctKeys(r.animationSnapshots) && WellKeyed(r.animationSnapshots, AnimationKey)
  }

  /** `map.has(k)`. */
  predicate Has<K(==), T>(es: seq<Entry<K, T>>, k: K)
  {
    HasKey(es, EntryKey, k)
  }

  /** `map.get(k)`. */
  function Lookup<K(==), T>(es: seq<Entry<K, T>>, k: K): Option<Snapshot<T>>
  {
    match Find(es, EntryKey, k)
    case None => None
    case Some(e) => Some(e.snapshot)
  }

  /** `map.set(k, s)`: an existing key keeps its position, a new key goes last. */
  function Put<K(==), T>(es: seq<Entry<K, T>>, k: K, s: Snapshot<T>): (r: seq<Entry<K, T>>)
    requires DistinctKeys(es)
    ensures DistinctKeys(r)
    ensures Has(es, k) ==> |r| == |es| && forall i :: 0 <= i < |es| ==> r[i].key == es[i].key
    ensures !Has(es, k) ==> r == es + [Entry(k, s)]
    ensures Lookup(r, k) == Some(s)
  {
    match FindIndex(es, EntryKey, k)
    case None =>
      var r := es + [Entry(k, s)];
      assert forall i :: 0 <= i < |es| ==> r[i] == es[i];
      FindUnique(r, EntryKey, |es|);
      r
    case Some(i) =>
      var r := es[i := Entry(k, s)];
      FindUnique(r, EntryKey, i);
      r
  }

  /** `map.set(k, s)` leaves every other key's snapshot alone. */
  lemma PutOther<K, T>(es: seq<Entry<K, T>>, k: K, s: Snapshot<T>, k2: K)
    requires DistinctKeys(es) && k2 != k
    ensures Lookup(Put(es, k, s), k2) == Lookup(es, k2)
  {
    match FindIndex(es, EntryKey, k)
    case None =>
      LookupAppend(es, Entry(k, s), k2);
    case Some(i) =>
      LookupReplace(es, i, Entry(k, s), k2);
  }

  lemma LookupAppend<K, T>(es: seq<Entry<K, T>>, e: Entry<K, T>, k: K)
    requires k != e.key
    ensures Lookup(es + [e], k) == Lookup(es, k)
  {
    var r := es + [e];
    assert forall i :: 0 <= i < |es| ==> r[i] == es[i];
    FindIndexAgrees(es, r, k);
  }

  lemma LookupReplace<K, T>(es: seq<Entry<K, T>>, i: nat, e: Entry<K, T>, k: K)
    requires i < |es| && es[i].key != k && e.key != k
    ensures Lookup(es[i := e], k) == Lookup(es, k)
  {
    var r := es[i := e];
    FindIndexAgrees(es, r, k);
  }

  /** Two lists whose keys differ only where neither equals `k` find `k` at the same place. */
  lemma FindIndexAgrees<K, T>(es: seq<Entry<K, T>>, r: seq<Entry<K, T>>, k: K)
    requires |es| <= |r|
    requires forall j :: 0 <= j < |es| && (es[j].key == k || r[j].key == k) ==> r[j] == es[j]
    requires forall j :: |es| <= j < |r| ==> r[j].key != k
    ensures Find(es, EntryKey, k) == Find(r, EntryKey, k)
  {
    if es != [] {
      FindIndexAgrees(es[1..], r[1..], k);
    } else {
      assert !HasKey(r, EntryKey, k);
    }
  }

  /** Opens a `before` snapshot for `k` unless one is already open: `mark*ForUndo`. */
  function MarkForUndo<K(==), T>(es: seq<Entry<K, T>>, k: K, current: Option<T>): (r: seq<Entry<K, T>>)
    requires DistinctKeys(es)
    ensures DistinctKeys(r)
  {
    if Has(es, k) then es else Put(es, k, Snapshot(current, None))
  }

  /** The first `before` snapshot of a key is kept; later marks change nothing. */
  lemma MarkForUndoKeepsFirst<K, T>(es: seq<Entry<K, T>>, k: K, current: Option<T>, k2: K)
    requires DistinctKeys(es)
    ensures Has(es, k) ==> MarkForUndo(es, k, current) == es
    ensures !Has(es, k) ==> Lookup(MarkForUndo(es, k, current), k) == Some(Snapshot(current, None))
    ensures k2 != k ==> Lookup(MarkForUndo(es, k, current), k2) == Lookup(es, k2)
  {
    if k2 != k && !Has(es, k) {
      PutOther(es, k, Snapshot(current, None), k2);
    }
  }

  // ---------------------------------------------------------------------
  // Applying snapshots to an entity list (`applyRecord`)

  function Target<T>(s: Snapshot<T>, isUndo: bool): Option<T>
  {
    if isUndo then s.before else s.after
  }

  /**
   * One step of `applyRecord`: a missing target removes the entity with that
   * key if there is one; a present target replaces it in place, or is
   * appended when no entity has that key.
   */
  function ApplyEntry<K(==), T>(items: seq<T>, key: T -> K, e: Entry<K, T>, isUndo: bool): (r: seq<T>)
  {
    var index := FindIndex(items, key, e.key);
    match Target(e.snapshot, isUndo)
    case None => if index.Some? then items[..index.value] + items[index.value + 1..] else items
    case Some(t) => if index.Some? then items[index.value := t] else items + [t]
  }

  /** `applyRecord` on one snapshot map: the entries applied in insertion order. */
  function ApplyEntries<K(==), T>(items: seq<T>, key: T -> K, es: seq<Entry<K, T>>, isUndo: bool): seq<T>
  {
    if es == [] then items
    else ApplyEntry(ApplyEntries(items, key, es[..|es| - 1], isUndo), key, es[|es| - 1], isUndo)
  }

  /** With unique keys, `Find` returns exactly the element that carries the key. */
  lemma FindMember<K, T>(items: seq<T>, key: T -> K, x: T)
    requires UniqueKeys(items, key) && x in items
    ensures Find(items, key, key(x)) == Some(x)
  {
    var i :| 0 <= i < |items| && items[i] == x;
    FindUnique(items, key, i);
  }

  lemma FindAbsent<K, T>(items: seq<T>, key: T -> K, k: K)
    requires forall x :: x in items ==> key(x) != k
    ensures Find(items, key, k) == None
  {
  }

  /**
   * The effect of one entry, key by key: its own key now finds the target,
   * every other key finds what it found before, and keys stay unique.
   */
  lemma ApplyEntryFind<K, T>(items: seq<T>, key: T -> K, e: Entry<K, T>, isUndo: bool, k: K)
    requires UniqueKeys(items, key)
    requires Target(e.snapshot, isUndo).Some? ==> key(Target(e.snapshot, isUndo).value) == e.key
    ensures UniqueKeys(ApplyEntry(items, key, e, isUndo), key)
    ensures Find(ApplyEntry(items, key, e, isUndo), key, k)
      == if k == e.key then Target(e.snapshot, isUndo) else Find(items, key, k)
  {
    var index := FindIndex(items, key, e.key);
    match Target(e.snapshot, isUndo)
    case None =>
      if index.Some? {
        RemoveAtFind(items, key, index.value, k);
      } else if k == e.key {
        FindAbsent(items, key, k);
      }
    case Some(t) =>
      if index.Some? {
        ReplaceAtFind(items, key, index.value, t, k);
      } else {
        AppendFind(items, key, t, k);
      }
  }

  /** Removing the element at `i` removes its key and keeps every other key's element. */
  lemma RemoveAtFind<K, T>(items: seq<T>, key: T -> K, i: nat, k: K)
    requires UniqueKeys(items, key) && i < |items|
    ensures UniqueKeys(items[..i] + items[i + 1..], key)
    ensures Find(items[..i] + items[i + 1..], key, k)
      == if k == key(items[i]) then None else Find(items, key, k)
  {
    var r := items[..i] + items[i + 1..];
    assert forall a :: 0 <= a < |r| ==> r[a] == (if a < i then items[a] else items[a + 1]);
    assert UniqueKeys(r, key) by {
      forall a, b | 0 <= a < b < |r|
        ensures key(r[a]) != key(r[b])
      {
        var a' := if a < i then a else a + 1;
        var b' := if b < i then b else b + 1;
        assert r[a] == items[a'] && r[b] == items[b'] && a' < b';
      }
    }
    if k == key(items[i]) {
      forall x | x in r
        ensures key(x) != k
      {
        var a :| 0 <= a < |r| && r[a] == x;
        var a' := if a < i then a else a + 1;
        assert x == items[a'] && a' != i;
      }
      FindAbsent(r, key, k);
    } else {
      var f := Find(items, key, k);
      if f.Some? {
        var j :| 0 <= j < |items| && items[j] == f.value;
        assert j != i;
        var j' := if j < i then j else j - 1;
        assert r[j'] == items[j];
        FindMember(r, key, items[j]);
      } else {
        forall x | x in r
          ensures key(x) != k
        {
          var a :| 0 <= a < |r| && r[a] == x;
          var a' := if a < i then a else a + 1;
          assert x == items[a'];
        }
        FindAbsent(r, key, k);
      }
    }
  }

  /** Replacing the element at `i` by one with the same key changes only that key's element. */
  lemma ReplaceAtFind<K, T>(items: seq<T>, key: T -> K, i: nat, t: T, k: K)
    requires UniqueKeys(items, key) && i < |items| && key(items[i]) == key(t)
    ensures UniqueKeys(items[i := t], key)
    ensures Find(items[i := t], key, k) == if k == key(t) then Some(t) else Find(items, key, k)
  {
    var r := items[i := t];
    assert UniqueKeys(r, key);
    if k == key(t) {
      FindUnique(r, key, i);
    } else {
      var f := Find(items, key, k);
      if f.Some? {
        var j :| 0 <= j < |items| && items[j] == f.value;
        assert j != i && r[j] == items[j];
        FindUnique(r, key, j);
      } else {
        forall x | x in r
          ensures key(x) != k
        {
          var a :| 0 <= a < |r| && r[a] == x;
          if a != i {
            assert x == items[a];
          }
        }
        FindAbsent(r, key, k);
      }
    }
  }

  /** Appending an element with a new key adds that key and keeps every other key's element. */
  lemma AppendFind<K, T>(items: seq<T>, key: T -> K, t: T, k: K)
    requires UniqueKeys(items, key) && !HasKey(items, key, key(t))
    ensures UniqueKeys(items + [t], key)
    ensures Find(items + [t], key, k) == if k == key(t) then Some(t) else Find(items, key, k)
  {
    var r := items + [t];
    assert forall a :: 0 <= a < |items| ==> r[a] == items[a];
    assert UniqueKeys(r, key);
    if k == key(t) {
      FindUnique(r, key, |items|);
    } else {
      var f := Find(items, key, k);
      if f.Some? {
        var j :| 0 <= j < |items| && items[j] == f.value;
        FindUnique(r, key, j);
      } else {
        forall x | x in r
          ensures key(x) != k
        {
          var a :| 0 <= a < |r| && r[a] == x;
          if a < |items| {
            assert x == items[a];
          }
        }
        FindAbsent(r, key, k);
      }
    }
  }

  /**
   * The effect of a whole snapshot map, key by key: a key of the map finds
   * its target (`before` on undo, `after` on redo), and every other key finds
   * what it found before.
   */
  lemma {:induction false} ApplyEntriesFind<K, T>(items: seq<T>, key: T -> K, es: seq<Entry<K, T>>, isUndo: bool, k: K)
    requires UniqueKeys(items, key)
    requires DistinctKeys(es) && WellKeyed(es, key)
    ensures UniqueKeys(ApplyEntries(items, key, es, isUndo), key)
    ensures Find(ApplyEntries(items, key, es, isUndo), key, k)
      == match Lookup(es, k) case Some(s) => Target(s, isUndo) case None => Find(items, key, k)
  {
    if es != [] {
      var init := es[..|es| - 1];
      var last := es[|es| - 1];
      assert es == init + [last];
      assert DistinctKeys(init) && WellKeyed(init, key);
      ApplyEntriesFind(items, key, init, isUndo, k);
      ApplyEntryFind(ApplyEntries(items, key, init, isUndo), key, last, isUndo, k);
      assert !Has(init, last.key);
      FindUnique(es, EntryKey, |es| - 1);
      if k != last.key {
        LookupAppend(init, last, k);
      }
    }
  }

  /**
   * Undo then redo: when every `after` snapshot is what the list held for
   * that key (what `finalizeSnapshots` takes), applying the record backwards
   * and then forwards finds every key where it was.
   */
  lemma UndoThenRedoRestores<K, T>(items: seq<T>, key: T -> K, es: seq<Entry<K, T>>, k: K)
    requires UniqueKeys(items, key)
    requires DistinctKeys(es) && WellKeyed(es, key)
    requires forall i :: 0 <= i < |es| ==> es[i].snapshot.after == Find(items, key, es[i].key)
    ensures Find(ApplyEntries(ApplyEntries(items, key, es, true), key, es, false), key, k) == Find(items, key, k)
  {
    var undone := ApplyEntries(items, key, es, true);
    ApplyEntriesFind(items, key, es, true, k);
    ApplyEntriesFind(undone, key, es, false, k);
    LookupAfter(es, k);
  }

  lemma LookupAfter<K, T>(es: seq<Entry<K, T>>, k: K)
    ensures Lookup(es, k).Some? ==> exists i :: 0 <= i < |es| && es[i].key == k && es[i].snapshot == Lookup(es, k).value
  {
    var f := FindIndex(es, EntryKey, k);
    if f.Some? {
      assert es[f.value].key == k;
    }
  }

  /**
   * Commit then undo: when every `before` snapshot is what the list held for
   * that key when the transaction began, and the transaction changed no
   * other key, undo finds every key where it was at the beginning.
   */
  lemma UndoRestoresBeginning<K, T>(start: seq<T>, now: seq<T>, key: T -> K, es: seq<Entry<K, T>>, k: K)
    requires UniqueKeys(now, key)
    requires DistinctKeys(es) && WellKeyed(es, key)
    requires forall i :: 0 <= i < |es| ==> es[i].snapshot.before == Find(start, key, es[i].key)
    requires !Has(es, k) ==> Find(now, key, k) == Find(start, key, k)
    ensures Find(ApplyEntries(now, key, es, true), key, k) == Find(start, key, k)
  {
    ApplyEntriesFind(now, key, es, true, k);
    LookupAfter(es, k);
    if Has(es, k) {
      var f := FindIndex(es, EntryKey, k);
      assert f.Some?;
    }
  }

  // ---------------------------------------------------------------------
  // Taking the `after` snapshots (`finalizeSnapshots`)

  /** Each entry keeps its key and `before`; its `after` is what `items` holds for the key now. */
  function Finalized<K(==), T>(es: seq<Entry<K, T>>, items: seq<T>, key: T -> K): (r: seq<Entry<K, T>>)
    ensures |r| == |es|
    ensures forall i :: 0 <= i < |es| ==> r[i].key == es[i].key && r[i].snapshot.before == es[i].snapshot.before
    ensures forall i :: 0 <= i < |es| ==> r[i].snapshot.after == Find(items, key, es[i].key)
  {
    seq(|es|, i requires 0 <= i < |es| =>
      Entry(es[i].key, Snapshot(es[i].snapshot.before, Find(items, key, es[i].key))))
  }

  lemma FinalizedWellFormed<K, T>(es: seq<Entry<K, T>>, items: seq<T>, key: T -> K)
    requires DistinctKeys(es) && WellKeyed(es, key)
    ensures DistinctKeys(Finalized(es, items, key)) && WellKeyed(Finalized(es, items, key), key)
  {
    var r := Finalized(es, items, key);
    forall i, j | 0 <= i < j < |r|
      ensures EntryKey(r[i]) != EntryKey(r[j])
    {
      assert EntryKey(r[i]) == EntryKey(es[i]) && EntryKey(r[j]) == EntryKey(es[j]);
    }
  }
}
