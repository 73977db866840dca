/** What each operation on documents does to the documents it names, and that it does nothing to any other. */
module TrashEffects {
  import opened Wrappers
  import opened Trash

  /** The documents a call names, or finds. */
  function Named(s: State, e: Event): set<Doc> {
    match e
    case PutAt(d, _) => {d}
    case PutAll(ids, _) => ids
    case LinkAll(ids, _) => ids
    case UnlinkFrom(d, _) => {d}
    case UnlinkAll(docs, _) => Elements(docs)
    case Detach(ids, _) => ids
    case Delete(ids) => ids
    case Restore(d) => {d}
    case Empty(None) => set d | d in s.placed && TRASH in s.placed[d]
    case Empty(Some(ids)) => ids
  }

  /** Whether the trash is known to hold a document: by the cache, or by a listing if nothing is cached. */
  predicate KnownTrashed(s: State, d: Doc) {
    if s.trashedIds.Some? then d in s.trashedIds.value else InTrash(s, d)
  }

  /** Places, records and cache are as they were but for some documents. */
  ghost predicate OnlyDocs(s: State, t: State, ids: set<Doc>) {
    && AgreeOutside(s.placed, t.placed, ids) && AgreeOutside(s.provenance, t.provenance, ids) && t.trees == s.trees
    && (s.trashedIds.Some? ==> t.trashedIds.Some?)
    && forall d :: d !in ids ==> (KnownTrashed(t, d) <==> KnownTrashed(s, d))
  }

  lemma OnlyDocsOfTwo(s: State, t: State, u: State, ids: set<Doc>)
    requires OnlyDocs(s, t, ids) && OnlyDocs(t, u, ids)
    ensures OnlyDocs(s, u, ids)
  {
  }

  lemma LinkingIsOfOne(s: State, d: Doc, targets: seq<Place>)
    ensures OnlyDocs(s, DbLinked(s, d, targets), {d})
  {
  }

  lemma UntrashingIsOfOne(s: State, d: Doc)
    ensures OnlyDocs(s, Untrashed(s, d), {d})
    ensures d in Untrashed(s, d).placed <==> d in s.placed
  {
  }

  lemma {:induction false} RelinkingIsOfOne(s: State, d: Doc, places: seq<Place>)
    ensures OnlyDocs(s, Relinked(s, d, places), {d}) && (d in s.placed ==> d in Relinked(s, d, places).placed)
    decreases |places|
  {
    if places != [] && places[0].tree in s.trees {
      var next := DbLinked(s, d, [places[0]]);
      LinkingIsOfOne(s, d, [places[0]]);
      RelinkingIsOfOne(next, d, places[1..]);
      OnlyDocsOfTwo(s, next, Relinked(next, d, places[1..]), {d});
    }
  }

  lemma RestoringIsOfOne(s: State, d: Doc)
    ensures OnlyDocs(s, Restored(s, d), {d}) && (d in Restored(s, d).placed <==> d in s.placed)
  {
    if d in s.placed {
      var t := Relinked(s, d, ProvenanceOf(s, d));
      RelinkingIsOfOne(s, d, ProvenanceOf(s, d));
      UntrashingIsOfOne(t, d);
      OnlyDocsOfTwo(s, t, Untrashed(t, d), {d});
    }
  }

  lemma PuttingIsOfOne(s: State, d: Doc, targets: seq<Place>)
    ensures OnlyDocs(s, Put(s, d, targets), {d}) && d in Put(s, d, targets).placed
  {
    var linked := DbLinked(s, d, targets);
    LinkingIsOfOne(s, d, targets);
    UntrashingIsOfOne(linked, d);
    OnlyDocsOfTwo(s, linked, Untrashed(linked, d), {d});
  }

  lemma UnlinkingIsOfOne(s: State, d: Doc, targets: seq<Place>)
    ensures OnlyDocs(s, Unlinked(s, d, targets), {d}) && (d in Unlinked(s, d, targets).placed <==> d in s.placed)
  {
    if d in s.placed {
      UnlinkPlaces(s, d, targets);
    }
  }

  lemma BulkUnlinkIsOfNamed(s: State, docs: set<Doc>, targets: seq<Place>)
    ensures OnlyDocs(s, UnlinkedTogether(s, docs, targets), docs)
    ensures UnlinkedTogether(s, docs, targets).placed.Keys == s.placed.Keys
  {
    assert Orphaned(s, docs, targets) <= docs;
  }

  /** A call leaves every document it does not name where it was, with its record, in or out of the trash. */
  lemma StepLeavesOthers(s: State, e: Event)
    ensures OnlyDocs(s, Step(s, e), Named(s, e))
  {
    match e
    case PutAt(d, targets) => PuttingIsOfOne(s, d, targets);
    case UnlinkFrom(d, targets) => UnlinkingIsOfOne(s, d, targets);
    case UnlinkAll(docs, targets) => BulkUnlinkIsOfNamed(s, Elements(docs), targets);
    case Restore(d) => RestoringIsOfOne(s, d);
    case _ =>
  }

  // ---- Who lives ----

  predicate Creates(e: Event, d: Doc) {
    (e.PutAt? && e.d == d) || (e.PutAll? && d in e.ids)
  }

  /** Only a delete that names a document, or an emptying that names it or finds it in the trash, ends it. */
  predicate Ends(s: State, e: Event, d: Doc) {
    match e
    case Delete(ids) => d in ids
    case Empty(None) => InTrash(s, d)
    case Empty(Some(ids)) => d in ids
    case _ => false
  }

  lemma StepLives(s: State, e: Event, d: Doc)
    ensures d in Step(s, e).placed <==> (d in s.placed || Creates(e, d)) && !Ends(s, e, d)
  {
    match e
    case PutAt(x, targets) => PuttingIsOfOne(s, x, targets);
    case UnlinkFrom(x, targets) => UnlinkingIsOfOne(s, x, targets);
    case UnlinkAll(docs, targets) => BulkUnlinkIsOfNamed(s, Elements(docs), targets);
    case Restore(x) => RestoringIsOfOne(s, x);
    case _ =>
  }

  function After(s: State, events: seq<Event>): State
    decreases |events|
  {
    if events == [] then s else After(Step(s, events[0]), events[1..])
  }

  predicate Spared(s: State, events: seq<Event>, d: Doc)
    decreases |events|
  {
    events == [] || (!Ends(s, events[0], d) && Spared(Step(s, events[0]), events[1..], d))
  }

  /** Over every run, respectful or not, a live document stays live exactly until a call that ends it, or is put again. */
  lemma {:induction false} LivesUntilEnded(s: State, events: seq<Event>, d: Doc)
    requires forall e :: e in events ==> !Creates(e, d)
    ensures d in After(s, events).placed <==> d in s.placed && Spared(s, events, d)
    decreases |events|
  {
    if events != [] {
      StepLives(s, events[0], d);
      if d in Step(s, events[0]).placed || Spared(s, events, d) {
        LivesUntilEnded(Step(s, events[0]), events[1..], d);
      } else {
        NeverAgain(Step(s, events[0]), events[1..], d);
      }
    }
  }

  lemma {:induction false} NeverAgain(s: State, events: seq<Event>, d: Doc)
    requires d !in s.placed && forall e :: e in events ==> !Creates(e, d)
    ensures d !in After(s, events).placed
    decreases |events|
  {
    if events != [] {
      StepLives(s, events[0], d);
      NeverAgain(Step(s, events[0]), events[1..], d);
    }
  }

  /** Once put, a document is live after whatever follows, until it is ended. */
  lemma PutLivesUntilEnded(s: State, d: Doc, targets: seq<Place>, events: seq<Event>)
    requires Spared(Put(s, d, targets), events, d)
    ensures d in After(s, [PutAt(d, targets)] + events).placed
  {
    assert ([PutAt(d, targets)] + events)[1..] == events;
    PuttingIsOfOne(s, d, targets);
    SparedLives(Put(s, d, targets), events, d);
  }

  lemma {:induction false} SparedLives(s: State, events: seq<Event>, d: Doc)
    requires d in s.placed && Spared(s, events, d)
    ensures d in After(s, events).placed
    decreases |events|
  {
    if events != [] {
      StepLives(s, events[0], d);
      SparedLives(Step(s, events[0]), events[1..], d);
    }
  }

  // ---- What becomes of the documents named ----

  /** A plain unlink takes exactly the places named, but no context root. */
  lemma DetachTakesPlaces(s: State, ids: set<Doc>, targets: seq<Place>, d: Doc, p: Place)
    requires d in ids && d in s.placed
    ensures var t := Step(s, Detach(ids, targets));
            && d in t.placed && (p in t.placed[d] <==> p in s.placed[d] && (p !in targets || IsRoot(p)))
            && t.provenance == s.provenance && t.trashedIds == s.trashedIds
  {
    RemovedHas(s.placed[d], targets);
  }

  /** A bulk link or put adds exactly the places named and the context root. */
  lemma BulkPutAddsPlaces(s: State, ids: set<Doc>, targets: seq<Place>, d: Doc, p: Place)
    requires d in ids
    ensures var t := Step(s, PutAll(ids, targets));
            && d in t.placed && (p in t.placed[d] <==> p in PlacesOf(s, d) || p == ROOT || p in targets)
            && t.provenance == s.provenance && t.trashedIds == s.trashedIds
    ensures d in s.placed ==> Step(s, LinkAll(ids, targets)).placed[d] == Step(s, PutAll(ids, targets)).placed[d]
    ensures d !in s.placed ==> d !in Step(s, LinkAll(ids, targets)).placed
  {
    AddedHas(PlacesOf(s, d), Ticked(targets));
  }

  predicate TreesUpTo(s: State, record: seq<Place>, i: nat)
    requires i < |record|
  {
    forall j :: 0 <= j <= i ==> record[j].tree in s.trees
  }

  /** The recorded places up to one are put back if the trees of all of them exist. */
  predicate PutBack(s: State, record: seq<Place>, p: Place) {
    exists i :: 0 <= i < |record| && TreesUpTo(s, record, i) && (record[i] == p || p == ROOT)
  }

  lemma TreesUpToNext(s: State, t: State, record: seq<Place>, i: nat)
    requires i + 1 < |record| && t.trees == s.trees && record[0].tree in s.trees
    ensures TreesUpTo(s, record, i + 1) <==> TreesUpTo(t, record[1..], i)
  {
    var rest := record[1..];
    assert forall j :: 0 <= j <= i ==> rest[j] == record[j + 1];
    if TreesUpTo(t, rest, i) {
      forall j | 0 <= j <= i + 1 ensures record[j].tree in s.trees {
        if j > 0 {
          assert rest[j - 1] == record[j];
        }
      }
    }
  }

  lemma PutBackNext(s: State, t: State, record: seq<Place>, p: Place)
    requires record != [] && t.trees == s.trees && record[0].tree in s.trees
    ensures PutBack(s, record, p) <==> record[0] == p || p == ROOT || PutBack(t, record[1..], p)
  {
    var rest := record[1..];
    if i :| 0 <= i < |record| && TreesUpTo(s, record, i) && (record[i] == p || p == ROOT) {
      if i > 0 {
        TreesUpToNext(s, t, record, i - 1);
        assert rest[i - 1] == record[i];
      }
    }
    if i :| 0 <= i < |rest| && TreesUpTo(t, rest, i) && (rest[i] == p || p == ROOT) {
      TreesUpToNext(s, t, record, i);
      assert record[i + 1] == rest[i];
    }
    assert TreesUpTo(s, record, 0);
  }

  lemma NothingPutBack(s: State, record: seq<Place>, p: Place)
    requires record == [] || record[0].tree !in s.trees
    ensures !PutBack(s, record, p)
  {
  }

  lemma {:induction false} RelinkAddsPlaces(s: State, d: Doc, record: seq<Place>, p: Place)
    requires d in s.placed
    ensures d in Relinked(s, d, record).placed
    ensures p in Relinked(s, d, record).placed[d] <==> p in s.placed[d] || PutBack(s, record, p)
    decreases |record|
  {
    if record != [] && record[0].tree in s.trees {
      var next := DbLinked(s, d, [record[0]]);
      AddedHas(s.placed[d], Ticked([record[0]]));
      RelinkAddsPlaces(next, d, record[1..], p);
      PutBackNext(s, next, record, p);
    } else {
      NothingPutBack(s, record, p);
    }
  }

  /** A restore puts back the recorded places up to the first whose tree is gone; only if none is gone does the trash let go. */
  lemma RestorePutsBackPlaces(s: State, d: Doc, p: Place)
    requires d in s.placed
    ensures var t, record := Restored(s, d), ProvenanceOf(s, d);
            var whole := record != [] && TreesExist(s, record);
            && d in t.placed
            && (p != TRASH || !whole ==> (p in t.placed[d] <==> p in s.placed[d] || PutBack(s, record, p)))
            && (!whole ==> t.provenance == s.provenance && t.trashedIds == s.trashedIds)
            && (whole && KnownTrashed(s, d) ==> TRASH !in t.placed[d] && d !in t.provenance && !KnownTrashed(t, d))
  {
    var record := ProvenanceOf(s, d);
    var t := Relinked(s, d, record);
    RelinkAddsPlaces(s, d, record, p);
    RelinkAddsPlaces(s, d, record, TRASH);
    RelinkKeepsRecords(s, d, record);
    RemovedHas(t.placed[d], [TRASH]);
  }

  lemma {:induction false} RelinkKeepsRecords(s: State, d: Doc, record: seq<Place>)
    ensures var t := Relinked(s, d, record); t.provenance == s.provenance && t.trashedIds == s.trashedIds && t.trees == s.trees
    decreases |record|
  {
    if record != [] && record[0].tree in s.trees {
      RelinkKeepsRecords(DbLinked(s, d, [record[0]]), d, record[1..]);
    }
  }
}
