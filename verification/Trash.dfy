/**
 Filing, deleting and restoring documents of one workspace (src/core/workspace/Workspace.js).  The
 document database is the list of places each live document is filed at.
 */
module Trash {
  import opened Wrappers

  type Doc = nat
  type TreeId = string

  datatype TreeType = Context | Directory

  /** A path of a tree: one place a document can be filed at. */
  datatype Place = Place(tree: TreeId, kind: TreeType, path: string)

  const TRASH := Place("directory", Directory, "/.trash")
  const ROOT := Place("context", Context, "/")

  /**
   `placed` has the live documents as its keys; `provenance` is what the internal store keeps under the
   trash keys; `trashedIds` is the lazily loaded cache.
   */
  datatype State = State(
    placed: map<Doc, seq<Place>>,
    provenance: map<Doc, seq<Place>>,
    trashedIds: Option<set<Doc>>,
    trees: set<TreeId>)

  /** The root of a context tree holds every document: being there means existing, not being filed. */
  predicate IsRoot(p: Place) { p.kind.Context? && p.path == "/" }

  predicate IsFiled(places: seq<Place>) {
    exists i :: 0 <= i < |places| && !IsRoot(places[i])
  }

  predicate IsReal(p: Place) { !IsRoot(p) && p != TRASH }

  predicate AtRealPlace(places: seq<Place>) {
    exists i :: 0 <= i < |places| && IsReal(places[i])
  }

  function Elements(docs: seq<Doc>): set<Doc> { set d | d in docs }

  function PlacesOf(s: State, d: Doc): seq<Place> {
    if d in s.placed then s.placed[d] else []
  }

  predicate InTrash(s: State, d: Doc) { TRASH in PlacesOf(s, d) }

  function TrashIds(s: State): set<Doc> {
    set d | d in s.placed && TRASH in s.placed[d]
  }

  // ---- The database ----

  function Added(places: seq<Place>, targets: seq<Place>): seq<Place>
    decreases |targets|
  {
    if targets == [] then places
    else Added(if targets[0] in places then places else places + [targets[0]], targets[1..])
  }

  /** Whatever a document is linked to, the context root is ticked too. */
  function Ticked(targets: seq<Place>): seq<Place> { [ROOT] + targets }

  /** An unlink never removes a context root. */
  function Removed(places: seq<Place>, targets: seq<Place>): seq<Place> {
    if places == [] then []
    else (if places[0] in targets && !IsRoot(places[0]) then [] else [places[0]]) + Removed(places[1..], targets)
  }

  function WithoutRoots(places: seq<Place>): seq<Place> {
    if places == [] then []
    else (if IsRoot(places[0]) then [] else [places[0]]) + WithoutRoots(places[1..])
  }

  lemma {:induction false} AddedHas(places: seq<Place>, targets: seq<Place>)
    ensures forall p :: p in Added(places, targets) <==> p in places || p in targets
    decreases |targets|
  {
    if targets != [] {
      AddedHas(if targets[0] in places then places else places + [targets[0]], targets[1..]);
    }
  }

  lemma {:induction false} RemovedHas(places: seq<Place>, targets: seq<Place>)
    ensures forall p :: p in Removed(places, targets) <==> p in places && (p !in targets || IsRoot(p))
  {
    if places != [] {
      RemovedHas(places[1..], targets);
    }
  }

  lemma {:induction false} WithoutRootsHas(places: seq<Place>)
    ensures forall p :: p in WithoutRoots(places) <==> p in places && !IsRoot(p)
  {
    if places != [] {
      WithoutRootsHas(places[1..]);
    }
  }

  function DbLinked(s: State, d: Doc, targets: seq<Place>): State {
    s.(placed := s.placed[d := Added(PlacesOf(s, d), Ticked(targets))])
  }

  function DbUnlinked(s: State, d: Doc, targets: seq<Place>): State {
    if d in s.placed then s.(placed := s.placed[d := Removed(s.placed[d], targets)]) else s
  }

  // ---- The operations ----

  function Loaded(s: State): State {
    if s.trashedIds.Some? then s else s.(trashedIds := Some(TrashIds(s)))
  }

  function Untrashed(s: State, d: Doc): State {
    var t := Loaded(s);
    if d !in t.trashedIds.value then t
    else DbUnlinked(t, d, [TRASH]).(provenance := t.provenance - {d}, trashedIds := Some(t.trashedIds.value - {d}))
  }

  /** Filing a document, new or not. */
  function Put(s: State, d: Doc, targets: seq<Place>): State {
    Untrashed(DbLinked(s, d, targets), d)
  }

  /** Files a document in the trash if the unlink that just happened took its last place. */
  function TrashedIfOrphaned(s: State, d: Doc, before: seq<Place>): State {
    if !IsFiled(before) || IsFiled(PlacesOf(s, d)) then s
    else
      DbLinked(s, d, [TRASH])
      .(provenance := s.provenance[d := WithoutRoots(before)],
        trashedIds := match s.trashedIds case Some(ids) => Some(ids + {d}) case None => None)
  }

  function Unlinked(s: State, d: Doc, targets: seq<Place>): State {
    TrashedIfOrphaned(DbUnlinked(s, d, targets), d, PlacesOf(s, d))
  }

  /** Many documents unlinked in one database call. */
  function Detached(s: State, docs: set<Doc>, targets: seq<Place>): State {
    s.(placed := map d | d in s.placed :: if d in docs then Removed(s.placed[d], targets) else s.placed[d])
  }

  function UnlinkedInTurn(s: State, docs: seq<Doc>, targets: seq<Place>): State {
    if docs == [] then s
    else Unlinked(UnlinkedInTurn(s, docs[..|docs| - 1], targets), docs[|docs| - 1], targets)
  }

  /** Links recorded places in order, stopping at the first whose tree is gone. */
  function Relinked(s: State, d: Doc, places: seq<Place>): State
    decreases |places|
  {
    if places == [] || places[0].tree !in s.trees then s
    else Relinked(DbLinked(s, d, [places[0]]), d, places[1..])
  }

  function ProvenanceOf(s: State, d: Doc): seq<Place> {
    if d in s.provenance then s.provenance[d] else []
  }

  predicate TreesExist(s: State, places: seq<Place>) {
    forall p :: p in places ==> p.tree in s.trees
  }

  predicate Restorable(s: State, d: Doc) {
    d in s.placed && ProvenanceOf(s, d) != [] && TreesExist(s, ProvenanceOf(s, d))
  }

  function Restored(s: State, d: Doc): State {
    if d !in s.placed then s
    else if Restorable(s, d) then Untrashed(Relinked(s, d, ProvenanceOf(s, d)), d)
    else Relinked(s, d, ProvenanceOf(s, d))
  }

  function RestoredInTurn(s: State, docs: seq<Doc>): State {
    if docs == [] then s
    else Restored(RestoredInTurn(s, docs[..|docs| - 1]), docs[|docs| - 1])
  }

  /** The ids that can be restored at their turn, and the others. */
  function RestoredIds(s: State, docs: seq<Doc>): seq<Doc> {
    if docs == [] then []
    else
      var rest, d := docs[..|docs| - 1], docs[|docs| - 1];
      RestoredIds(s, rest) + if Restorable(RestoredInTurn(s, rest), d) then [d] else []
  }

  function FailedIds(s: State, docs: seq<Doc>): seq<Doc> {
    if docs == [] then []
    else
      var rest, d := docs[..|docs| - 1], docs[|docs| - 1];
      FailedIds(s, rest) + if Restorable(RestoredInTurn(s, rest), d) then [] else [d]
  }

  /** Many documents filed in one database call, which knows nothing of the trash. */
  function FiledTogether(s: State, docs: set<Doc>, targets: seq<Place>): State {
    s.(placed := map d | d in s.placed.Keys + docs ::
                   if d in docs then Added(PlacesOf(s, d), Ticked(targets)) else s.placed[d])
  }

  /** A plain delete leaves the trash store and the cache as they are. */
  function Deleted(s: State, docs: set<Doc>): State { s.(placed := s.placed - docs) }

  /** Destroys documents: out of the database, the trash store and the cache. */
  function Destroyed(s: State, docs: set<Doc>): State {
    var gone := docs * s.placed.Keys;
    s.(placed := s.placed - gone,
       provenance := s.provenance - gone,
       trashedIds := match s.trashedIds case Some(ids) => Some(ids - gone) case None => None)
  }

  class Workspace {
    var placed: map<Doc, seq<Place>>
    var provenance: map<Doc, seq<Place>>
    var trashedIds: Option<set<Doc>>
    const trees: set<TreeId>

    ghost function View(): State
      reads this
    {
      State(placed, provenance, trashedIds, trees)
    }

    constructor (trees: set<TreeId>)
      ensures View() == State(map[], map[], None, trees)
    {
      this.trees := trees;
      placed, provenance, trashedIds := map[], map[], None;
    }

    method LoadTrashedIds() returns (ids: set<Doc>)
      modifies this`trashedIds
      ensures View() == Loaded(old(View())) && trashedIds == Some(ids)
    {
      if trashedIds.None? {
        trashedIds := Some(set d | d in placed && TRASH in placed[d]);
      }
      ids := trashedIds.value;
    }

    method UntrashOnLink(d: Doc) returns (untrashed: bool)
      modifies this
      ensures View() == Untrashed(old(View()), d)
    {
      var trashed := LoadTrashedIds();
      if d !in trashed {
        return false;
      }
      if d in placed {
        placed := placed[d := Removed(placed[d], [TRASH])];
      }
      provenance := provenance - {d};
      trashedIds := Some(trashed - {d});
      untrashed := true;
    }

    method Link(d: Doc, targets: seq<Place>)
      modifies this
      ensures View() == Put(old(View()), d, targets)
    {
      placed := placed[d := Added(if d in placed then placed[d] else [], Ticked(targets))];
      var _ := UntrashOnLink(d);
    }

    method TrashIfOrphaned(d: Doc, placementsBefore: seq<Place>) returns (trashed: bool)
      modifies this
      ensures View() == TrashedIfOrphaned(old(View()), d, placementsBefore)
    {
      if !IsFiled(placementsBefore) {
        return false;
      }
      var placements := if d in placed then placed[d] else [];
      if IsFiled(placements) {
        return false;
      }
      placed := placed[d := Added(placements, Ticked([TRASH]))];
      provenance := provenance[d := WithoutRoots(placementsBefore)];
      if trashedIds.Some? {
        trashedIds := Some(trashedIds.value + {d});
      }
      trashed := true;
    }

    method Unlink(d: Doc, targets: seq<Place>, trashIfOrphaned: bool)
      modifies this
      ensures View() == if trashIfOrphaned then Unlinked(old(View()), d, targets)
                        else DbUnlinked(old(View()), d, targets)
    {
      var placementsBefore := if d in placed then placed[d] else [];
      if d in placed {
        placed := placed[d := Removed(placed[d], targets)];
      }
      if trashIfOrphaned {
        var _ := TrashIfOrphaned(d, placementsBefore);
      }
    }

    method RestoreFromTrash(docs: seq<Doc>) returns (restored: seq<Doc>, failed: seq<Doc>)
      modifies this
      ensures View() == RestoredInTurn(old(View()), docs)
      ensures restored == RestoredIds(old(View()), docs) && failed == FailedIds(old(View()), docs)
      ensures multiset(restored) + multiset(failed) == multiset(docs)
    {
      restored, failed := [], [];
      ghost var s := View();
      for i := 0 to |docs|
        invariant View() == RestoredInTurn(s, docs[..i])
        invariant restored == RestoredIds(s, docs[..i]) && failed == FailedIds(s, docs[..i])
      {
        OneMoreRestored(s, docs, i);
        var ok := RestoreOne(docs[i]);
        if ok {
          restored := restored + [docs[i]];
        } else {
          failed := failed + [docs[i]];
        }
      }
      assert docs[..|docs|] == docs;
      IdsAreSplit(s, docs);
    }

    method RestoreOne(d: Doc) returns (ok: bool)
      modifies this
      ensures View() == Restored(old(View()), d)
      ensures ok == Restorable(old(View()), d)
    {
      if d !in placed {
        return false;
      }
      ghost var before := View();
      var places := if d in provenance then provenance[d] else [];
      var relinked := 0;
      while relinked < |places|
        invariant relinked <= |places| && View() == before.(placed := placed) && d in placed
        invariant Relinked(View(), d, places[relinked..]) == Relinked(before, d, places)
        invariant forall k :: 0 <= k < relinked ==> places[k].tree in trees
      {
        // Looking the tree up throws when it is gone, before any fallback by name is tried.
        if places[relinked].tree !in trees {
          return false;
        }
        placed := placed[d := Added(placed[d], Ticked([places[relinked]]))];
        relinked := relinked + 1;
      }
      if relinked == 0 {
        return false;
      }
      var _ := UntrashOnLink(d);
      ok := true;
    }

    /** Files documents, new or not. */
    method PutMany(docs: set<Doc>, targets: seq<Place>)
      modifies this`placed
      ensures View() == FiledTogether(old(View()), docs, targets)
    {
      placed := map d | d in placed.Keys + docs ::
                  if d in docs then Added(if d in placed then placed[d] else [], Ticked(targets)) else placed[d];
    }

    /** The same for documents there are; the database refuses the others one by one. */
    method LinkMany(docs: set<Doc>, targets: seq<Place>)
      modifies this`placed
      ensures View() == FiledTogether(old(View()), docs * old(placed).Keys, targets)
    {
      PutMany(docs * placed.Keys, targets);
    }

    method Delete(d: Doc) returns (deleted: bool)
      modifies this`placed
      ensures deleted == (d in old(placed)) && View() == Deleted(old(View()), {d})
      ensures placed.Keys == old(placed).Keys - {d} && AgreeOutside(old(placed), placed, {d})
    {
      deleted := d in placed;
      placed := placed - {d};
    }

    method DeleteMany(docs: set<Doc>) returns (deleted: set<Doc>)
      modifies this`placed
      ensures deleted == docs * old(placed).Keys && View() == Deleted(old(View()), docs)
      ensures placed.Keys == old(placed).Keys - docs && AgreeOutside(old(placed), placed, docs)
    {
      deleted := docs * placed.Keys;
      placed := placed - docs;
    }

    /** Destroys the given documents, or everything in the trash. */
    method EmptyTrash(docs: Option<set<Doc>>) returns (destroyed: set<Doc>)
      modifies this
      ensures destroyed == (match docs case Some(ids) => ids case None => TrashIds(old(View()))) * old(placed.Keys)
      ensures View() == Destroyed(old(View()), destroyed)
      ensures placed.Keys == old(placed).Keys - destroyed && AgreeOutside(old(placed), placed, destroyed)
      ensures provenance.Keys == old(provenance).Keys - destroyed && AgreeOutside(old(provenance), provenance, destroyed)
      ensures trashedIds.Some? <==> old(trashedIds).Some?
      ensures trashedIds.Some? ==> forall d :: d in trashedIds.value <==> d in old(trashedIds).value && d !in destroyed
    {
      var ids := match docs case Some(given) => given case None => set d | d in placed && TRASH in placed[d];
      destroyed := DeleteMany(ids);
      ghost var before, ids0 := provenance, trashedIds;
      var todo := destroyed;
      while todo != {}
        invariant todo <= destroyed && placed == old(placed) - ids
        invariant provenance == before - (destroyed - todo)
        invariant trashedIds.Some? == ids0.Some?
        invariant ids0.Some? ==> trashedIds.value == ids0.value - (destroyed - todo)
        decreases todo
      {
        var d :| d in todo;
        todo := todo - {d};
        provenance := provenance - {d};
        if trashedIds.Some? {
          trashedIds := Some(trashedIds.value - {d});
        }
      }
      assert destroyed - todo == destroyed && destroyed * old(placed).Keys == destroyed;
      assert old(placed) - ids == old(placed) - destroyed;
      assert trashedIds.Some? ==> trashedIds.value == ids0.value - destroyed;
    }

    method Snapshots(docs: seq<Doc>) returns (placements: map<Doc, seq<Place>>)
      ensures forall d :: d in docs ==> d in placements && placements[d] == PlacesOf(View(), d)
    {
      placements := map[];
      for i := 0 to |docs|
        invariant forall d :: d in docs[..i] ==> d in placements && placements[d] == PlacesOf(View(), d)
      {
        placements := placements[docs[i] := if docs[i] in placed then placed[docs[i]] else []];
      }
    }

    // The database's own bulk unlink.
    method DbUnlinkMany(docs: seq<Doc>, targets: seq<Place>)
      modifies this`placed
      ensures View() == Detached(old(View()), Elements(docs), targets)
    {
      placed := map d | d in placed :: if d in docs then Removed(placed[d], targets) else placed[d];
    }

    /** One database call for all documents, with the snapshots before it and the orphan tests after it. */
    method UnlinkMany(docs: seq<Doc>, targets: seq<Place>, trashIfOrphaned: bool)
      modifies this
      ensures View() == if trashIfOrphaned then UnlinkedTogether(old(View()), Elements(docs), targets)
                        else Detached(old(View()), Elements(docs), targets)
    {
      if !trashIfOrphaned {
        DbUnlinkMany(docs, targets);
        return;
      }
      ghost var s, all := View(), Elements(docs);
      var placementsBefore := Snapshots(docs);
      DbUnlinkMany(docs, targets);
      BulkOfNone(s, all, targets);
      assert Elements(docs[..0]) == {};
      for i := 0 to |docs|
        invariant View() == Bulk(s, all, Orphaned(s, Elements(docs[..i]), targets), targets)
      {
        var _ := TrashIfOrphaned(docs[i], placementsBefore[docs[i]]);
        OneMoreTrashed(s, all, Elements(docs[..i]), docs[i], targets);
        assert Elements(docs[..i + 1]) == Elements(docs[..i]) + {docs[i]};
      }
      assert docs[..|docs|] == docs;
    }
  }

  lemma OneMoreRestored(s: State, docs: seq<Doc>, i: nat)
    requires i < |docs|
    ensures var t := RestoredInTurn(s, docs[..i]);
            && RestoredInTurn(s, docs[..i + 1]) == Restored(t, docs[i])
            && RestoredIds(s, docs[..i + 1]) == RestoredIds(s, docs[..i]) + (if Restorable(t, docs[i]) then [docs[i]] else [])
            && FailedIds(s, docs[..i + 1]) == FailedIds(s, docs[..i]) + (if Restorable(t, docs[i]) then [] else [docs[i]])
  {
    assert docs[..i + 1][..i] == docs[..i];
  }

  lemma {:induction false} IdsAreSplit(s: State, docs: seq<Doc>)
    ensures multiset(RestoredIds(s, docs)) + multiset(FailedIds(s, docs)) == multiset(docs)
  {
    if docs != [] {
      var rest, d := docs[..|docs| - 1], docs[|docs| - 1];
      IdsAreSplit(s, rest);
      LastDoc(docs);
      OneMoreId(RestoredIds(s, rest), FailedIds(s, rest), rest, d);
    }
  }

  lemma LastDoc(docs: seq<Doc>)
    requires docs != []
    ensures docs == docs[..|docs| - 1] + [docs[|docs| - 1]]
  {
  }

  lemma OneMoreId(a: seq<Doc>, b: seq<Doc>, docs: seq<Doc>, d: Doc)
    requires multiset(a) + multiset(b) == multiset(docs)
    ensures multiset(a + [d]) + multiset(b) == multiset(docs + [d]) == multiset(a) + multiset(b + [d])
    ensures a + [] == a && b + [] == b
  {
  }

  // ---- Unlinking many documents ----

  predicate Orphans(places: seq<Place>, targets: seq<Place>) {
    IsFiled(places) && !IsFiled(Removed(places, targets))
  }

  function Orphaned(s: State, docs: set<Doc>, targets: seq<Place>): set<Doc> {
    set d | d in docs && d in s.placed && Orphans(s.placed[d], targets)
  }

  function Plus(ids: Option<set<Doc>>, more: set<Doc>): Option<set<Doc>> {
    match ids case Some(x) => Some(x + more) case None => None
  }

  /** All of `all` unlinked, and those of `orphans` filed in the trash. */
  function Bulk(s: State, all: set<Doc>, orphans: set<Doc>, targets: seq<Place>): State
    requires orphans <= s.placed.Keys
  {
    State(map d | d in s.placed ::
            if d in orphans then Added(Removed(s.placed[d], targets), Ticked([TRASH]))
            else if d in all then Removed(s.placed[d], targets)
            else s.placed[d],
          map d | d in s.provenance.Keys + orphans ::
            if d in orphans then WithoutRoots(s.placed[d]) else s.provenance[d],
          Plus(s.trashedIds, orphans),
          s.trees)
  }

  function UnlinkedTogether(s: State, docs: set<Doc>, targets: seq<Place>): State {
    Bulk(s, docs, Orphaned(s, docs, targets), targets)
  }

  lemma BulkOfNone(s: State, all: set<Doc>, targets: seq<Place>)
    ensures Orphaned(s, {}, targets) == {}
    ensures Bulk(s, all, {}, targets) == Detached(s, all, targets)
  {
    var b := Bulk(s, all, {}, targets);
    assert b.provenance == s.provenance;
    assert s.trashedIds.Some? ==> s.trashedIds.value + {} == s.trashedIds.value;
  }

  lemma OneMorePlaced(s: State, all: set<Doc>, orphans: set<Doc>, d: Doc, targets: seq<Place>)
    requires orphans <= s.placed.Keys && d in all && d in s.placed && d !in orphans
    ensures var p, q := Bulk(s, all, orphans, targets), Bulk(s, all, orphans + {d}, targets);
            p.placed[d := Added(p.placed[d], Ticked([TRASH]))] == q.placed
  {
  }

  lemma OneMoreRecord(s: State, all: set<Doc>, orphans: set<Doc>, d: Doc, targets: seq<Place>)
    requires orphans <= s.placed.Keys && d in s.placed
    ensures Bulk(s, all, orphans, targets).provenance[d := WithoutRoots(s.placed[d])]
         == Bulk(s, all, orphans + {d}, targets).provenance
  {
  }

  lemma OneMoreOrphan(s: State, all: set<Doc>, orphans: set<Doc>, d: Doc, targets: seq<Place>)
    requires orphans <= s.placed.Keys && d in all && d in s.placed && d !in orphans && Orphans(s.placed[d], targets)
    ensures TrashedIfOrphaned(Bulk(s, all, orphans, targets), d, s.placed[d]) == Bulk(s, all, orphans + {d}, targets)
  {
    OneMorePlaced(s, all, orphans, d, targets);
    OneMoreRecord(s, all, orphans, d, targets);
    assert s.trashedIds.Some? ==> s.trashedIds.value + orphans + {d} == s.trashedIds.value + (orphans + {d});
  }

  lemma OneMoreTrashed(s: State, all: set<Doc>, done: set<Doc>, d: Doc, targets: seq<Place>)
    requires done <= all && d in all
    ensures TrashedIfOrphaned(Bulk(s, all, Orphaned(s, done, targets), targets), d, PlacesOf(s, d))
         == Bulk(s, all, Orphaned(s, done + {d}, targets), targets)
  {
    var before, after := Orphaned(s, done, targets), Orphaned(s, done + {d}, targets);
    if d in s.placed && Orphans(s.placed[d], targets) {
      assert after == before + {d};
      if d in before {
        assert after == before;
        var places := Bulk(s, all, before, targets).placed[d];
        AddedHas(Removed(s.placed[d], targets), Ticked([TRASH]));
        assert TRASH in Ticked([TRASH]);
        assert TRASH in places && IsFiled(places);
      } else {
        OneMoreOrphan(s, all, before, d, targets);
      }
    } else {
      assert after == before;
    }
  }

  // ---- In bulk and in turn ----

  function KeptOne(p: Place, targets: seq<Place>): seq<Place> { if p in targets && !IsRoot(p) then [] else [p] }

  lemma RemovedFirst(p: Place, places: seq<Place>, targets: seq<Place>)
    ensures Removed([p] + places, targets) == KeptOne(p, targets) + Removed(places, targets)
  {
    assert ([p] + places)[1..] == places;
  }

  lemma {:induction false} RemovedLast(places: seq<Place>, p: Place, targets: seq<Place>)
    ensures Removed(places + [p], targets) == Removed(places, targets) + KeptOne(p, targets)
  {
    if places == [] {
      assert [] + [p] == [p] + [];
      RemovedFirst(p, [], targets);
    } else {
      var q, rest := places[0], places[1..];
      RemovedLast(rest, p, targets);
      RemovedFirst(q, rest, targets);
      RemovedFirst(q, rest + [p], targets);
      assert places == [q] + rest && places + [p] == [q] + (rest + [p]);
    }
  }

  lemma {:induction false} OnlyRootsRecord(places: seq<Place>)
    requires !IsFiled(places)
    ensures WithoutRoots(places + [TRASH]) == [TRASH]
  {
    if places == [] {
      assert [] + [TRASH] == [TRASH];
    } else {
      assert IsRoot(places[0]);
      assert (places + [TRASH])[1..] == places[1..] + [TRASH];
      forall i | 0 <= i < |places[1..]| ensures IsRoot(places[1..][i]) {
        assert places[i + 1] == places[1..][i];
      }
      OnlyRootsRecord(places[1..]);
    }
  }

  lemma {:induction false} RemovedAgain(places: seq<Place>, targets: seq<Place>)
    ensures Removed(Removed(places, targets), targets) == Removed(places, targets)
  {
    RemovedHas(places, targets);
    RemovedNothing(Removed(places, targets), targets);
  }

  lemma {:induction false} RemovedNothing(places: seq<Place>, targets: seq<Place>)
    requires forall p :: p in places ==> p !in targets || IsRoot(p)
    ensures Removed(places, targets) == places
  {
    if places != [] {
      RemovedNothing(places[1..], targets);
    }
  }

  /** Where an orphan ends: at context roots and in the trash. */
  function Orphanage(places: seq<Place>, targets: seq<Place>): seq<Place> {
    Added(Removed(places, targets), Ticked([TRASH]))
  }

  function Rooted(places: seq<Place>): seq<Place> { if ROOT in places then places else places + [ROOT] }

  lemma RootedIsUnfiled(places: seq<Place>)
    requires !IsFiled(places)
    ensures !IsFiled(Rooted(places)) && ROOT in Rooted(places) && TRASH !in Rooted(places)
  {
    var r := Rooted(places);
    forall i | 0 <= i < |r| ensures IsRoot(r[i]) {
      if i < |places| {
        assert r[i] == places[i];
      }
    }
  }

  lemma AddedToTrash(places: seq<Place>)
    requires !IsFiled(places)
    ensures Added(places, Ticked([TRASH])) == Rooted(places) + [TRASH]
  {
    RootedIsUnfiled(places);
    assert Ticked([TRASH])[0] == ROOT && Ticked([TRASH])[1..] == [TRASH];
    assert Added(Rooted(places), [TRASH]) == Added(Rooted(places) + [TRASH], []);
  }

  /** An unlink aimed at the trash takes an orphan out of it and files it there again, with only the trash on record. */
  lemma OrphanedAgain(places: seq<Place>, targets: seq<Place>)
    requires Orphans(places, targets)
    ensures var there := Orphanage(places, targets);
            && IsFiled(there)
            && (TRASH !in targets ==> Removed(there, targets) == there)
            && (TRASH in targets ==> Orphans(there, targets) && Orphanage(there, targets) == there && WithoutRoots(there) == [TRASH])
  {
    var left := Removed(places, targets);
    var roots := Rooted(left);
    AddedToTrash(left);
    RootedIsUnfiled(left);
    RemovedLast(roots, TRASH, targets);
    RemovedNothing(roots, targets);
    OnlyRootsRecord(roots);
    assert (roots + [TRASH])[|roots|] == TRASH;
    assert !IsRoot(TRASH);
    if TRASH in targets {
      assert roots + [] == roots;
      AddedToTrash(roots);
    }
  }

  /** The same, except that the documents of `twice` have only the trash on record. */
  function Rerecorded(s: State, twice: set<Doc>): State {
    s.(provenance := map d | d in s.provenance.Keys + twice :: if d in twice then [TRASH] else s.provenance[d])
  }

  lemma UnlinkedFirst(s: State, all: set<Doc>, orphans: set<Doc>, d: Doc, targets: seq<Place>)
    requires orphans <= s.placed.Keys && d in s.placed && d !in all && d !in orphans
    ensures DbUnlinked(Bulk(s, all, orphans, targets), d, targets) == Bulk(s, all + {d}, orphans, targets)
  {
    assert DbUnlinked(Bulk(s, all, orphans, targets), d, targets).placed == Bulk(s, all + {d}, orphans, targets).placed;
  }

  /** One more document, not seen before. */
  lemma OneMoreUnlinked(s: State, docs: set<Doc>, d: Doc, targets: seq<Place>)
    requires d !in docs
    ensures Unlinked(UnlinkedTogether(s, docs, targets), d, targets) == UnlinkedTogether(s, docs + {d}, targets)
  {
    var orphans := Orphaned(s, docs, targets);
    var p := Bulk(s, docs, orphans, targets);
    if d in s.placed {
      UnlinkedFirst(s, docs, orphans, d, targets);
      OneMoreTrashed(s, docs + {d}, docs, d, targets);
    } else {
      assert Orphaned(s, docs + {d}, targets) == orphans;
      assert p.placed == Bulk(s, docs + {d}, orphans, targets).placed;
    }
  }

  /** A document seen before that is no orphan, or of an unlink not aimed at the trash. */
  lemma UnlinkedAgain(s: State, docs: set<Doc>, d: Doc, targets: seq<Place>)
    requires d in docs && (d in Orphaned(s, docs, targets) ==> TRASH !in targets)
    ensures Unlinked(UnlinkedTogether(s, docs, targets), d, targets) == UnlinkedTogether(s, docs, targets)
  {
    var p := UnlinkedTogether(s, docs, targets);
    if d in s.placed {
      RemovedAgain(s.placed[d], targets);
      if Orphans(s.placed[d], targets) {
        OrphanedAgain(s.placed[d], targets);
      }
      assert Removed(p.placed[d], targets) == p.placed[d];
      assert DbUnlinked(p, d, targets).placed == p.placed;
    }
  }

  /** An orphan that lies in the trash alone, unlinked from there: only its record changes. */
  lemma UnlinkedInPlace(p: State, d: Doc, targets: seq<Place>)
    requires d in p.placed && d in p.provenance && (p.trashedIds.Some? ==> d in p.trashedIds.value)
    requires var there := p.placed[d];
             Orphans(there, targets) && Orphanage(there, targets) == there && WithoutRoots(there) == [TRASH]
    ensures Unlinked(p, d, targets) == Rerecorded(p, {d})
  {
    var there := p.placed[d];
    assert p.placed[d := Removed(there, targets)][d := there] == p.placed;
    assert p.provenance[d := [TRASH]] == Rerecorded(p, {d}).provenance;
    assert p.trashedIds.Some? ==> p.trashedIds.value + {d} == p.trashedIds.value;
  }

  // An unlink looks at no record, and writes at most its own document's.

  lemma TrashedIgnoresRecords(s: State, twice: set<Doc>, d: Doc, before: seq<Place>)
    requires d !in twice
    ensures TrashedIfOrphaned(Rerecorded(s, twice), d, before) == Rerecorded(TrashedIfOrphaned(s, d, before), twice)
  {
    assert TrashedIfOrphaned(Rerecorded(s, twice), d, before).provenance
        == Rerecorded(TrashedIfOrphaned(s, d, before), twice).provenance;
  }

  lemma UnlinkIgnoresRecords(s: State, twice: set<Doc>, d: Doc, targets: seq<Place>)
    requires d !in twice
    ensures Unlinked(Rerecorded(s, twice), d, targets) == Rerecorded(Unlinked(s, d, targets), twice)
  {
    assert DbUnlinked(Rerecorded(s, twice), d, targets) == Rerecorded(DbUnlinked(s, d, targets), twice);
    TrashedIgnoresRecords(DbUnlinked(s, d, targets), twice, d, PlacesOf(s, d));
  }

  lemma RerecordedInTwo(s: State, a: set<Doc>, b: set<Doc>)
    ensures Rerecorded(Rerecorded(s, a), b) == Rerecorded(s, a + b)
  {
    assert Rerecorded(Rerecorded(s, a), b).provenance == Rerecorded(s, a + b).provenance;
  }

  /** The orphans an unlink aimed at the trash unlinks more than once. */
  function Twice(s: State, docs: seq<Doc>, targets: seq<Place>): set<Doc> {
    set d | d in Orphaned(s, Elements(docs), targets) && TRASH in targets && multiset(docs)[d] >= 2
  }

  lemma OneMoreTwice(s: State, docs: seq<Doc>, d: Doc, targets: seq<Place>)
    ensures Elements(docs + [d]) == Elements(docs) + {d}
    ensures Twice(s, docs + [d], targets)
         == if d in Orphaned(s, Elements(docs), targets) && TRASH in targets then Twice(s, docs, targets) + {d}
            else Twice(s, docs, targets)
  {
    var more := docs + [d];
    assert multiset(more) == multiset(docs) + multiset{d};
    forall x | x in Elements(more) ensures x == d || x in Elements(docs) {
    }
    assert d in docs <==> multiset(docs)[d] >= 1;
  }

  lemma {:induction false} InTurn(s: State, docs: seq<Doc>, targets: seq<Place>)
    ensures UnlinkedInTurn(s, docs, targets)
         == Rerecorded(UnlinkedTogether(s, Elements(docs), targets), Twice(s, docs, targets))
  {
    if docs == [] {
      BulkOfNone(s, {}, targets);
      assert Elements(docs) == {};
      assert UnlinkedTogether(s, {}, targets).placed == s.placed;
      assert Rerecorded(s, {}).provenance == s.provenance;
    } else {
      var rest, d := docs[..|docs| - 1], docs[|docs| - 1];
      InTurn(s, rest, targets);
      assert docs == rest + [d];
      OneMoreTwice(s, rest, d, targets);
      if d in Orphaned(s, Elements(rest), targets) && TRASH in targets {
        OrphanOnceMore(s, rest, d, targets);
      } else {
        OthersOnceMore(s, rest, d, targets);
      }
    }
  }

  lemma OrphanOnceMore(s: State, docs: seq<Doc>, d: Doc, targets: seq<Place>)
    requires d in Orphaned(s, Elements(docs), targets) && TRASH in targets
    ensures Unlinked(Rerecorded(UnlinkedTogether(s, Elements(docs), targets), Twice(s, docs, targets)), d, targets)
         == Rerecorded(UnlinkedTogether(s, Elements(docs) + {d}, targets), Twice(s, docs, targets) + {d})
  {
    var all, twice := Elements(docs), Twice(s, docs, targets);
    var p := UnlinkedTogether(s, all, targets);
    assert all + {d} == all;
    OrphanedAgain(s.placed[d], targets);
    assert p.placed[d] == Orphanage(s.placed[d], targets);
    UnlinkedInPlace(Rerecorded(p, twice), d, targets);
    RerecordedInTwo(p, twice, {d});
  }

  lemma OthersOnceMore(s: State, docs: seq<Doc>, d: Doc, targets: seq<Place>)
    requires d in Orphaned(s, Elements(docs), targets) ==> TRASH !in targets
    ensures Unlinked(Rerecorded(UnlinkedTogether(s, Elements(docs), targets), Twice(s, docs, targets)), d, targets)
         == Rerecorded(UnlinkedTogether(s, Elements(docs) + {d}, targets), Twice(s, docs, targets))
  {
    var all := Elements(docs);
    UnlinkIgnoresRecords(UnlinkedTogether(s, all, targets), Twice(s, docs, targets), d, targets);
    if d in all {
      assert all + {d} == all;
      UnlinkedAgain(s, all, d, targets);
    } else {
      OneMoreUnlinked(s, all, d, targets);
    }
  }

  lemma RerecordingChangesNothing(p: State, twice: set<Doc>)
    requires twice <= p.provenance.Keys
    ensures Rerecorded(p, twice) == p <==> forall d :: d in twice ==> p.provenance[d] == [TRASH]
  {
    var r := Rerecorded(p, twice);
    if forall d :: d in twice ==> p.provenance[d] == [TRASH] {
      assert r.provenance == p.provenance;
    } else {
      var d :| d in twice && p.provenance[d] != [TRASH];
      assert r.provenance[d] == [TRASH];
    }
  }

  lemma RecordsOfTwice(s: State, docs: seq<Doc>, targets: seq<Place>)
    ensures var p, twice := UnlinkedTogether(s, Elements(docs), targets), Twice(s, docs, targets);
            twice <= p.provenance.Keys && forall d :: d in twice ==> p.provenance[d] == WithoutRoots(s.placed[d])
  {
  }

  /** The record of a document that is unlinked more than once survives doing that in turn. */
  predicate RecordSurvives(s: State, docs: seq<Doc>, targets: seq<Place>, d: Doc) {
    d in s.placed && multiset(docs)[d] >= 2 && Orphans(s.placed[d], targets) ==> WithoutRoots(s.placed[d]) == [TRASH]
  }

  lemma SurvivingTwice(s: State, docs: seq<Doc>, targets: seq<Place>)
    requires TRASH in targets
    ensures (forall d :: d in Twice(s, docs, targets) ==> WithoutRoots(s.placed[d]) == [TRASH])
            <==> forall d :: RecordSurvives(s, docs, targets, d)
  {
    var twice := Twice(s, docs, targets);
    forall d ensures RecordSurvives(s, docs, targets, d) <==> (d in twice ==> WithoutRoots(s.placed[d]) == [TRASH]) {
      assert multiset(docs)[d] >= 2 ==> d in docs;
    }
    if d :| d in twice && WithoutRoots(s.placed[d]) != [TRASH] {
      assert !RecordSurvives(s, docs, targets, d);
    }
  }

  /**
   The bulk unlink is the single unlink applied to each document in turn, repeated ids included, if and only if it
   is not aimed at the trash or every id repeated in it belongs to a document it does not orphan or that has no place
   but the trash: in turn, the second unlink leaves only the trash on an orphan's record.
   */
  lemma UnlinkManyIsUnlinkInTurn(s: State, docs: seq<Doc>, targets: seq<Place>)
    ensures UnlinkedTogether(s, Elements(docs), targets) == UnlinkedInTurn(s, docs, targets)
            <==> TRASH !in targets || forall d :: RecordSurvives(s, docs, targets, d)
  {
    InTurn(s, docs, targets);
    RecordsOfTwice(s, docs, targets);
    RerecordingChangesNothing(UnlinkedTogether(s, Elements(docs), targets), Twice(s, docs, targets));
    if TRASH in targets {
      SurvivingTwice(s, docs, targets);
    }
  }

  // ---- Nothing filed is ever lost ----

  /**
   A live document that was ever filed is at a real place or in the trash; one in the trash has a
   non-empty record of real places to go back to, and only those in the trash have a record.
   */
  predicate DocSafe(s: State, filed: set<Doc>, d: Doc)
    requires d in s.placed
  {
    var places := s.placed[d];
    && ROOT in places
    && (d in filed ==> AtRealPlace(places) || TRASH in places)
    && (AtRealPlace(places) ==> d in filed)
    && (TRASH in places <==> d in s.provenance)
    && (d in s.provenance ==>
          d in filed && s.provenance[d] != [] && forall k :: 0 <= k < |s.provenance[d]| ==> IsReal(s.provenance[d][k]))
  }

  /** Every live document is safe, nothing else has a record, and the cache is unloaded or is the trash. */
  predicate Safe(s: State, filed: set<Doc>) {
    && (forall d :: d in s.placed ==> DocSafe(s, filed, d))
    && s.provenance.Keys <= s.placed.Keys
    && filed <= s.placed.Keys
    && (s.trashedIds.Some? ==> s.trashedIds.value == TrashIds(s))
  }

  /** The live documents ever seen at a real place. */
  function NowFiled(filed: set<Doc>, s: State): set<Doc> {
    filed * s.placed.Keys + set d | d in s.placed && AtRealPlace(s.placed[d])
  }

  datatype Event =
    | PutAt(d: Doc, targets: seq<Place>)
    | PutAll(ids: set<Doc>, targets: seq<Place>)
    | LinkAll(ids: set<Doc>, targets: seq<Place>)
    | UnlinkFrom(d: Doc, targets: seq<Place>)
    | UnlinkAll(docs: seq<Doc>, targets: seq<Place>)
    | Detach(ids: set<Doc>, targets: seq<Place>)
    | Delete(ids: set<Doc>)
    | Restore(d: Doc)
    | Empty(chosen: Option<set<Doc>>)

  function Step(s: State, e: Event): State {
    match e
    case PutAt(d, targets) => Put(s, d, targets)
    case PutAll(ids, targets) => FiledTogether(s, ids, targets)
    case LinkAll(ids, targets) => FiledTogether(s, ids * s.placed.Keys, targets)
    case UnlinkFrom(d, targets) => Unlinked(s, d, targets)
    case UnlinkAll(docs, targets) => UnlinkedTogether(s, Elements(docs), targets)
    case Detach(ids, targets) => Detached(s, ids, targets)
    case Delete(ids) => Deleted(s, ids)
    case Restore(d) => Restored(s, d)
    case Empty(None) => Destroyed(s, TrashIds(s))
    case Empty(Some(docs)) => Destroyed(s, docs)
  }

  /**
   What an event must respect: a link of a trash document names a real place; nothing is aimed at the trash; a plain
   unlink orphans nothing; a plain delete is not of a trashed document.
   */
  predicate Respects(s: State, e: Event) {
    match e
    case PutAt(d, targets) =>
      if InTrash(s, d) then AtRealPlace(PlacesOf(s, d) + targets)
      else TRASH !in targets || s.trashedIds.None?
    case PutAll(ids, targets) => TRASH !in targets || forall d :: d in ids ==> InTrash(s, d)
    case LinkAll(ids, targets) => TRASH !in targets || forall d :: d in ids && d in s.placed ==> InTrash(s, d)
    case UnlinkFrom(d, targets) => TRASH !in targets || !InTrash(s, d)
    case UnlinkAll(docs, targets) => TRASH !in targets || forall i :: 0 <= i < |docs| ==> !InTrash(s, docs[i])
    case Detach(ids, targets) =>
      forall d :: d in ids && d in s.placed ==> !Orphans(s.placed[d], targets) && (TRASH !in targets || !InTrash(s, d))
    case Delete(ids) => forall d :: d in ids ==> !InTrash(s, d)
    case Restore(_) => true
    case Empty(_) => true
  }

  lemma RealIn(places: seq<Place>, p: Place)
    requires p in places && !IsRoot(p)
    ensures IsFiled(places) && (p != TRASH ==> AtRealPlace(places))
  {
  }

  lemma SameMembers(a: seq<Place>, b: seq<Place>)
    requires forall p :: p in a ==> p in b
    ensures IsFiled(a) ==> IsFiled(b)
    ensures AtRealPlace(a) ==> AtRealPlace(b)
  {
    if i :| 0 <= i < |a| && !IsRoot(a[i]) {
      RealIn(b, a[i]);
    }
    if i :| 0 <= i < |a| && IsReal(a[i]) {
      RealIn(b, a[i]);
    }
  }

  /** A change confined to one document: the others stay safe. */
  lemma OthersStaySafe(s: State, t: State, filed: set<Doc>, filed': set<Doc>, d: Doc)
    requires Safe(s, filed) && filed' <= t.placed.Keys && forall x :: x != d ==> (x in filed <==> x in filed')
    requires t.placed.Keys == s.placed.Keys + {d} && t.provenance.Keys <= s.provenance.Keys + {d}
    requires forall x :: x in s.placed && x != d ==>
               t.placed[x] == s.placed[x] && (x in s.provenance <==> x in t.provenance)
               && (x in s.provenance ==> t.provenance[x] == s.provenance[x])
    requires d in t.placed && DocSafe(t, filed', d)
    requires t.trashedIds.Some? ==> t.trashedIds.value == TrashIds(t)
    ensures Safe(t, filed')
  {
    forall x | x in t.placed ensures DocSafe(t, filed', x) {
      if x != d {
        assert DocSafe(s, filed, x);
      }
    }
  }

  /** Where `Put` leaves its document: everywhere it was or is put, out of the trash if the trash knew of it. */
  lemma PutPlaces(s: State, d: Doc, targets: seq<Place>)
    ensures var t := Put(s, d, targets);
            var known := if s.trashedIds.Some? then d in s.trashedIds.value else InTrash(s, d) || TRASH in targets;
            && t.placed.Keys == s.placed.Keys + {d}
            && (forall x :: x in s.placed && x != d ==> t.placed[x] == s.placed[x])
            && (forall p :: p in t.placed[d] <==>
                  (p in PlacesOf(s, d) || p == ROOT || p in targets) && (known ==> p != TRASH))
            && t.provenance == (if known then s.provenance - {d} else s.provenance)
            && t.trashedIds == Some((if s.trashedIds.Some? then s.trashedIds.value else TrashIds(s)) - {d})
  {
    AddedHas(PlacesOf(s, d), Ticked(targets));
    var linked := DbLinked(s, d, targets);
    RemovedHas(linked.placed[d], [TRASH]);
    assert TrashIds(linked) - {d} == TrashIds(s) - {d};
    var ids := Loaded(linked).trashedIds.value;
    assert d !in ids ==> ids - {d} == ids;
  }

  lemma PutMakesDocSafe(s: State, filed: set<Doc>, d: Doc, targets: seq<Place>)
    requires Safe(s, filed) && Respects(s, PutAt(d, targets))
    ensures var t := Put(s, d, targets); d in t.placed && TRASH !in t.placed[d] && DocSafe(t, NowFiled(filed, t), d)
  {
    var t := Put(s, d, targets);
    PutPlaces(s, d, targets);
    if d in s.placed {
      assert DocSafe(s, filed, d);
    }
    if InTrash(s, d) {
      var all := PlacesOf(s, d) + targets;
      var i :| 0 <= i < |all| && IsReal(all[i]);
      RealIn(t.placed[d], all[i]);
    } else if d in s.placed {
      SameMembers(s.placed[d], t.placed[d]);
    }
  }

  lemma PutKeepsSafe(s: State, filed: set<Doc>, d: Doc, targets: seq<Place>)
    requires Safe(s, filed) && Respects(s, PutAt(d, targets))
    ensures var t := Put(s, d, targets); Safe(t, NowFiled(filed, t))
  {
    var t := Put(s, d, targets);
    PutMakesDocSafe(s, filed, d, targets);
    PutPlaces(s, d, targets);
    assert TrashIds(t) == TrashIds(s) - {d};
    forall x | x in s.placed && x != d ensures x in filed <==> x in NowFiled(filed, t) {
      assert DocSafe(s, filed, x);
    }
    OthersStaySafe(s, t, filed, NowFiled(filed, t), d);
  }

  /** And exactly those links keep it: any other strands its document or files it in the trash unrecorded. */
  lemma OtherPutsLose(s: State, filed: set<Doc>, d: Doc, targets: seq<Place>)
    requires Safe(s, filed) && !Respects(s, PutAt(d, targets))
    ensures var t := Put(s, d, targets); !Safe(t, NowFiled(filed, t))
  {
    var t := Put(s, d, targets);
    PutPlaces(s, d, targets);
    if d in s.placed {
      assert DocSafe(s, filed, d);
    }
    if InTrash(s, d) {
      SameMembers(t.placed[d], PlacesOf(s, d) + targets + [ROOT]);
      assert !AtRealPlace(t.placed[d]);
      assert TRASH !in t.placed[d];
      assert !DocSafe(t, NowFiled(filed, t), d);
    } else {
      assert TRASH in t.placed[d] && d !in t.provenance;
      assert !DocSafe(t, NowFiled(filed, t), d);
    }
  }

  /** Where `Unlinked` leaves its document. */
  lemma UnlinkPlaces(s: State, d: Doc, targets: seq<Place>)
    requires d in s.placed
    ensures var t := Unlinked(s, d, targets);
            var orphaned := Orphans(s.placed[d], targets);
            && t.placed.Keys == s.placed.Keys
            && (forall x :: x in s.placed && x != d ==> t.placed[x] == s.placed[x])
            && (forall p :: p in t.placed[d] <==>
                  (p in s.placed[d] && (p !in targets || IsRoot(p))) || (orphaned && (p == ROOT || p == TRASH)))
            && t.provenance == (if orphaned then s.provenance[d := WithoutRoots(s.placed[d])] else s.provenance)
            && t.trashedIds == (if orphaned then Plus(s.trashedIds, {d}) else s.trashedIds)
  {
    RemovedHas(s.placed[d], targets);
    AddedHas(Removed(s.placed[d], targets), Ticked([TRASH]));
  }

  lemma OrphaningMakesDocSafe(s: State, filed: set<Doc>, d: Doc, targets: seq<Place>)
    requires Safe(s, filed) && Respects(s, UnlinkFrom(d, targets)) && d in s.placed && Orphans(s.placed[d], targets)
    ensures var t := Unlinked(s, d, targets); d in t.placed && TRASH in t.placed[d] && DocSafe(t, filed, d)
  {
    var t := Unlinked(s, d, targets);
    var places, left := s.placed[d], Removed(s.placed[d], targets);
    assert DocSafe(s, filed, d);
    UnlinkPlaces(s, d, targets);
    RemovedHas(places, targets);
    WithoutRootsHas(places);
    if TRASH in places {
      RealIn(left, TRASH);
    }
    var i :| 0 <= i < |places| && !IsRoot(places[i]);
    RealIn(places, places[i]);
    assert places[i] in WithoutRoots(places);
    SameMembers(t.placed[d], left + [ROOT, TRASH]);
  }

  lemma OrphaningKeepsSafe(s: State, filed: set<Doc>, d: Doc, targets: seq<Place>)
    requires Safe(s, filed) && Respects(s, UnlinkFrom(d, targets)) && d in s.placed && Orphans(s.placed[d], targets)
    ensures Safe(Unlinked(s, d, targets), filed)
  {
    var t := Unlinked(s, d, targets);
    OrphaningMakesDocSafe(s, filed, d, targets);
    UnlinkPlaces(s, d, targets);
    assert TrashIds(t) == TrashIds(s) + {d};
    OthersStaySafe(s, t, filed, filed, d);
  }

  lemma PartialUnlinkKeepsSafe(s: State, filed: set<Doc>, d: Doc, targets: seq<Place>)
    requires Safe(s, filed) && Respects(s, UnlinkFrom(d, targets)) && d in s.placed && !Orphans(s.placed[d], targets)
    ensures Safe(Unlinked(s, d, targets), filed)
  {
    var t := Unlinked(s, d, targets);
    var places, left := s.placed[d], Removed(s.placed[d], targets);
    assert DocSafe(s, filed, d);
    UnlinkPlaces(s, d, targets);
    RemovedHas(places, targets);
    SameMembers(t.placed[d], places);
    if IsFiled(left) {
      var i :| 0 <= i < |left| && !IsRoot(left[i]);
      RealIn(t.placed[d], left[i]);
    }
    assert TrashIds(t) == TrashIds(s);
    OthersStaySafe(s, t, filed, filed, d);
  }

  lemma UnlinkKeepsSafe(s: State, filed: set<Doc>, d: Doc, targets: seq<Place>)
    requires Safe(s, filed) && Respects(s, UnlinkFrom(d, targets))
    ensures var t := Unlinked(s, d, targets); Safe(t, filed) && NowFiled(filed, t) == filed
  {
    if d in s.placed {
      if Orphans(s.placed[d], targets) {
        OrphaningKeepsSafe(s, filed, d, targets);
      } else {
        PartialUnlinkKeepsSafe(s, filed, d, targets);
      }
    }
    NothingNew(Unlinked(s, d, targets), filed);
  }

  lemma NothingNew(s: State, filed: set<Doc>)
    requires Safe(s, filed)
    ensures NowFiled(filed, s) == filed
  {
    forall d | d in s.placed ensures AtRealPlace(s.placed[d]) ==> d in filed {
      assert DocSafe(s, filed, d);
    }
  }

  lemma OtherUnlinksLose(s: State, filed: set<Doc>, d: Doc, targets: seq<Place>)
    requires Safe(s, filed) && !Respects(s, UnlinkFrom(d, targets))
    ensures var t := Unlinked(s, d, targets); !Safe(t, NowFiled(filed, t))
  {
    var t := Unlinked(s, d, targets);
    UnlinkPlaces(s, d, targets);
    WithoutRootsHas(s.placed[d]);
    assert DocSafe(s, filed, d);
    RealIn(s.placed[d], TRASH);
    if Orphans(s.placed[d], targets) {
      assert TRASH in t.provenance[d];
      assert !DocSafe(t, NowFiled(filed, t), d);
    } else {
      assert d in t.provenance && TRASH !in t.placed[d];
      assert !DocSafe(t, NowFiled(filed, t), d);
    }
  }

  lemma {:induction false} UnlinkInTurnKeepsSafe(s: State, filed: set<Doc>, docs: seq<Doc>, targets: seq<Place>)
    requires Safe(s, filed) && TRASH !in targets
    ensures var t := UnlinkedInTurn(s, docs, targets); Safe(t, filed)
  {
    if docs != [] {
      var rest, d := docs[..|docs| - 1], docs[|docs| - 1];
      UnlinkInTurnKeepsSafe(s, filed, rest, targets);
      UnlinkKeepsSafe(UnlinkedInTurn(s, rest, targets), filed, d, targets);
    }
  }

  lemma RelinkKeepsSafe(s: State, filed: set<Doc>, d: Doc, p: Place)
    requires Safe(s, filed) && d in s.placed && d in filed && IsReal(p)
    ensures Safe(DbLinked(s, d, [p]), filed)
  {
    var t := DbLinked(s, d, [p]);
    assert DocSafe(s, filed, d);
    AddedHas(s.placed[d], Ticked([p]));
    RealIn(t.placed[d], p);
    assert TrashIds(t) == TrashIds(s);
    OthersStaySafe(s, t, filed, filed, d);
  }

  predicate AllReal(places: seq<Place>) {
    forall k :: 0 <= k < |places| ==> IsReal(places[k])
  }

  /** Putting back recorded places, all of them if their trees exist, keeps every document safe. */
  lemma {:induction false} RelinkedKeepsSafe(s: State, filed: set<Doc>, d: Doc, places: seq<Place>)
    requires Safe(s, filed) && d in s.placed && d in filed && AllReal(places)
    ensures var t := Relinked(s, d, places);
            && Safe(t, filed) && t.placed.Keys == s.placed.Keys && t.trees == s.trees && t.provenance == s.provenance
            && (forall p :: p in t.placed[d] ==> p in s.placed[d] || p == ROOT || p in places)
            && (forall p :: p in s.placed[d] ==> p in t.placed[d])
            && (TreesExist(s, places) ==> forall p :: p in places ==> p in t.placed[d])
            && (forall x :: x in s.placed && x != d ==> t.placed[x] == s.placed[x])
    decreases |places|
  {
    if places != [] && places[0].tree in s.trees {
      var next := DbLinked(s, d, [places[0]]);
      RelinkKeepsSafe(s, filed, d, places[0]);
      AddedHas(s.placed[d], Ticked([places[0]]));
      RelinkedKeepsSafe(next, filed, d, places[1..]);
    }
  }

  lemma UntrashPlaces(s: State, filed: set<Doc>, d: Doc)
    requires Safe(s, filed) && d in s.placed
    ensures var t := Untrashed(s, d);
            && t.placed.Keys == s.placed.Keys
            && (forall p :: p in t.placed[d] <==> p in s.placed[d] && p != TRASH)
            && (forall x :: x in s.placed && x != d ==> t.placed[x] == s.placed[x])
            && t.provenance == s.provenance - {d}
            && t.trashedIds == Some(TrashIds(s) - {d}) && t.trees == s.trees
  {
    assert DocSafe(s, filed, d);
    RemovedHas(s.placed[d], [TRASH]);
    assert d !in TrashIds(s) ==> TrashIds(s) - {d} == TrashIds(s);
    assert d !in s.provenance ==> s.provenance - {d} == s.provenance;
  }

  lemma UntrashKeepsSafe(s: State, filed: set<Doc>, d: Doc)
    requires Safe(s, filed) && d in s.placed && AtRealPlace(s.placed[d])
    ensures Safe(Untrashed(s, d), filed)
  {
    var t := Untrashed(s, d);
    UntrashPlaces(s, filed, d);
    assert DocSafe(s, filed, d);
    var i :| 0 <= i < |s.placed[d]| && IsReal(s.placed[d][i]);
    RealIn(t.placed[d], s.placed[d][i]);
    assert DocSafe(t, filed, d);
    assert TrashIds(t) == TrashIds(s) - {d};
    OthersStaySafe(s, t, filed, filed, d);
  }

  lemma RestoreKeepsSafe(s: State, filed: set<Doc>, d: Doc)
    requires Safe(s, filed)
    ensures Safe(Restored(s, d), filed)
  {
    if d in s.placed {
      assert DocSafe(s, filed, d);
      var places := ProvenanceOf(s, d);
      if places != [] {
        RelinkedKeepsSafe(s, filed, d, places);
        if Restorable(s, d) {
          var t := Relinked(s, d, places);
          assert places[0] in places;
          RealIn(t.placed[d], places[0]);
          UntrashKeepsSafe(t, filed, d);
        }
      }
    }
  }

  lemma EmptyingKeepsSafe(s: State, filed: set<Doc>, docs: set<Doc>)
    requires Safe(s, filed)
    ensures var t := Destroyed(s, docs); Safe(t, NowFiled(filed, t))
  {
    var t := Destroyed(s, docs);
    forall d | d in t.placed ensures DocSafe(t, NowFiled(filed, t), d) {
      assert DocSafe(s, filed, d);
    }
    assert TrashIds(t) == TrashIds(s) - docs;
    if s.trashedIds.Some? {
      assert TrashIds(s) <= s.placed.Keys;
    }
  }

  function WithoutTrash(targets: seq<Place>): seq<Place> {
    if targets == [] then [] else (if targets[0] == TRASH then [] else [targets[0]]) + WithoutTrash(targets[1..])
  }

  lemma {:induction false} WithoutTrashHas(targets: seq<Place>)
    ensures forall p :: p in WithoutTrash(targets) <==> p in targets && p != TRASH
  {
    if targets != [] {
      WithoutTrashHas(targets[1..]);
    }
  }

  /** Removing the trash from where a document is not there changes nothing. */
  lemma {:induction false} RemovedWithoutTrash(places: seq<Place>, targets: seq<Place>)
    requires TRASH !in places
    ensures Removed(places, targets) == Removed(places, WithoutTrash(targets))
  {
    WithoutTrashHas(targets);
    if places != [] {
      RemovedWithoutTrash(places[1..], targets);
    }
  }

  lemma TrashTargetsDoNotMatter(s: State, docs: seq<Doc>, targets: seq<Place>)
    requires forall i :: 0 <= i < |docs| ==> !InTrash(s, docs[i])
    ensures UnlinkedTogether(s, Elements(docs), targets) == UnlinkedTogether(s, Elements(docs), WithoutTrash(targets))
  {
    var all := Elements(docs);
    forall d | d in all && d in s.placed ensures Removed(s.placed[d], targets) == Removed(s.placed[d], WithoutTrash(targets)) {
      RemovedWithoutTrash(s.placed[d], targets);
    }
    assert Orphaned(s, all, targets) == Orphaned(s, all, WithoutTrash(targets));
    BulkDependsOnRemoved(s, all, Orphaned(s, all, targets), targets, WithoutTrash(targets));
  }

  lemma BulkDependsOnRemoved(s: State, all: set<Doc>, orphans: set<Doc>, targets: seq<Place>, others: seq<Place>)
    requires orphans <= s.placed.Keys && orphans <= all
    requires forall d :: d in all && d in s.placed ==> Removed(s.placed[d], targets) == Removed(s.placed[d], others)
    ensures Bulk(s, all, orphans, targets) == Bulk(s, all, orphans, others)
  {
    assert Bulk(s, all, orphans, targets).placed == Bulk(s, all, orphans, others).placed;
    assert Bulk(s, all, orphans, targets).provenance == Bulk(s, all, orphans, others).provenance;
  }

  lemma BulkUnlinkKeepsSafe(s: State, filed: set<Doc>, docs: seq<Doc>, targets: seq<Place>)
    requires Safe(s, filed) && Respects(s, UnlinkAll(docs, targets))
    ensures var t := UnlinkedTogether(s, Elements(docs), targets); Safe(t, filed)
  {
    var aimed := if TRASH in targets then WithoutTrash(targets) else targets;
    if TRASH in targets {
      TrashTargetsDoNotMatter(s, docs, targets);
      WithoutTrashHas(targets);
    }
    UnlinkManyIsUnlinkInTurn(s, docs, aimed);
    UnlinkInTurnKeepsSafe(s, filed, docs, aimed);
  }

  /** And every bulk unlink of a trashed document that is aimed at the trash breaks safety. */
  lemma OtherBulkUnlinksLose(s: State, filed: set<Doc>, docs: seq<Doc>, targets: seq<Place>)
    requires Safe(s, filed) && !Respects(s, UnlinkAll(docs, targets))
    ensures var t := UnlinkedTogether(s, Elements(docs), targets); !Safe(t, NowFiled(filed, t))
  {
    var t, all := UnlinkedTogether(s, Elements(docs), targets), Elements(docs);
    var i :| 0 <= i < |docs| && InTrash(s, docs[i]);
    var d := docs[i];
    assert DocSafe(s, filed, d);
    RealIn(s.placed[d], TRASH);
    RemovedHas(s.placed[d], targets);
    WithoutRootsHas(s.placed[d]);
    if Orphans(s.placed[d], targets) {
      assert d in Orphaned(s, all, targets) && t.provenance[d] == WithoutRoots(s.placed[d]);
      assert !DocSafe(t, NowFiled(filed, t), d);
    } else {
      assert d !in Orphaned(s, all, targets) && t.placed[d] == Removed(s.placed[d], targets);
      assert !DocSafe(t, NowFiled(filed, t), d);
    }
  }

  // ---- Operations that know nothing of the trash ----

  lemma FiledTogetherPlaces(s: State, docs: set<Doc>, targets: seq<Place>, d: Doc)
    requires d in docs
    ensures var t := FiledTogether(s, docs, targets);
            d in t.placed && forall p :: p in t.placed[d] <==> p in PlacesOf(s, d) || p == ROOT || p in targets
  {
    AddedHas(PlacesOf(s, d), Ticked(targets));
  }

  lemma FilingTogetherKeepsDocSafe(s: State, filed: set<Doc>, docs: set<Doc>, targets: seq<Place>, d: Doc)
    requires Safe(s, filed) && Respects(s, PutAll(docs, targets)) && (d in s.placed || d in docs)
    ensures var t := FiledTogether(s, docs, targets); d in t.placed && DocSafe(t, NowFiled(filed, t), d)
    ensures InTrash(FiledTogether(s, docs, targets), d) <==> InTrash(s, d)
  {
    var t := FiledTogether(s, docs, targets);
    if d in s.placed {
      assert DocSafe(s, filed, d);
    }
    if d in docs {
      FiledTogetherPlaces(s, docs, targets, d);
      SameMembers(PlacesOf(s, d), t.placed[d]);
    }
  }

  lemma FilingTogetherKeepsSafe(s: State, filed: set<Doc>, docs: set<Doc>, targets: seq<Place>)
    requires Safe(s, filed) && Respects(s, PutAll(docs, targets))
    ensures var t := FiledTogether(s, docs, targets); Safe(t, NowFiled(filed, t)) && TrashIds(t) == TrashIds(s)
  {
    var t := FiledTogether(s, docs, targets);
    forall d | d in t.placed ensures DocSafe(t, NowFiled(filed, t), d) && (InTrash(t, d) <==> InTrash(s, d)) {
      FilingTogetherKeepsDocSafe(s, filed, docs, targets, d);
    }
    assert forall d :: d in TrashIds(t) <==> d in TrashIds(s);
  }

  lemma OtherBulkPutsLose(s: State, filed: set<Doc>, docs: set<Doc>, targets: seq<Place>)
    requires Safe(s, filed) && !Respects(s, PutAll(docs, targets))
    ensures var t := FiledTogether(s, docs, targets); !Safe(t, NowFiled(filed, t))
  {
    var t := FiledTogether(s, docs, targets);
    var d :| d in docs && !InTrash(s, d);
    if d in s.placed {
      assert DocSafe(s, filed, d);
    }
    FiledTogetherPlaces(s, docs, targets, d);
    assert !DocSafe(t, NowFiled(filed, t), d);
  }

  lemma LinkingIsPuttingLive(s: State, docs: set<Doc>, targets: seq<Place>)
    ensures Respects(s, LinkAll(docs, targets)) <==> Respects(s, PutAll(docs * s.placed.Keys, targets))
  {
  }

  lemma LinkingTogetherKeepsSafe(s: State, filed: set<Doc>, docs: set<Doc>, targets: seq<Place>)
    requires Safe(s, filed) && Respects(s, LinkAll(docs, targets))
    ensures var t := Step(s, LinkAll(docs, targets)); Safe(t, NowFiled(filed, t)) && TrashIds(t) == TrashIds(s)
  {
    LinkingIsPuttingLive(s, docs, targets);
    FilingTogetherKeepsSafe(s, filed, docs * s.placed.Keys, targets);
  }

  lemma OtherBulkLinksLose(s: State, filed: set<Doc>, docs: set<Doc>, targets: seq<Place>)
    requires Safe(s, filed) && !Respects(s, LinkAll(docs, targets))
    ensures var t := Step(s, LinkAll(docs, targets)); !Safe(t, NowFiled(filed, t))
  {
    LinkingIsPuttingLive(s, docs, targets);
    OtherBulkPutsLose(s, filed, docs * s.placed.Keys, targets);
  }

  lemma DetachingKeepsDocSafe(s: State, filed: set<Doc>, docs: set<Doc>, targets: seq<Place>, d: Doc)
    requires Safe(s, filed) && Respects(s, Detach(docs, targets)) && d in s.placed
    ensures DocSafe(Detached(s, docs, targets), filed, d)
    ensures InTrash(Detached(s, docs, targets), d) <==> InTrash(s, d)
  {
    assert DocSafe(s, filed, d);
    if d in docs {
      var places, left := s.placed[d], Removed(s.placed[d], targets);
      RemovedHas(places, targets);
      SameMembers(left, places);
      if IsFiled(left) {
        var i :| 0 <= i < |left| && !IsRoot(left[i]);
        RealIn(left, left[i]);
      }
    }
  }

  lemma DetachingKeepsSafe(s: State, filed: set<Doc>, docs: set<Doc>, targets: seq<Place>)
    requires Safe(s, filed) && Respects(s, Detach(docs, targets))
    ensures Safe(Detached(s, docs, targets), filed)
  {
    var t := Detached(s, docs, targets);
    forall d | d in t.placed ensures DocSafe(t, filed, d) && (InTrash(t, d) <==> InTrash(s, d)) {
      DetachingKeepsDocSafe(s, filed, docs, targets, d);
    }
    assert forall d :: d in TrashIds(t) <==> d in TrashIds(s);
  }

  lemma DetachedDocIsUnsafe(s: State, filed: set<Doc>, docs: set<Doc>, targets: seq<Place>, d: Doc)
    requires Safe(s, filed) && d in docs && d in s.placed
    requires Orphans(s.placed[d], targets) || (TRASH in targets && InTrash(s, d))
    ensures var t := Detached(s, docs, targets); !DocSafe(t, NowFiled(filed, t), d)
  {
    assert DocSafe(s, filed, d);
    var places, left := s.placed[d], Removed(s.placed[d], targets);
    RemovedHas(places, targets);
    if TRASH in left {
      RealIn(left, TRASH);
    }
    if !InTrash(s, d) {
      var i :| 0 <= i < |places| && !IsRoot(places[i]);
      RealIn(places, places[i]);
    }
  }

  lemma OtherDetachesLose(s: State, filed: set<Doc>, docs: set<Doc>, targets: seq<Place>)
    requires Safe(s, filed) && !Respects(s, Detach(docs, targets))
    ensures var t := Detached(s, docs, targets); !Safe(t, NowFiled(filed, t))
  {
    var d :| d in docs && d in s.placed && (Orphans(s.placed[d], targets) || (TRASH in targets && InTrash(s, d)));
    DetachedDocIsUnsafe(s, filed, docs, targets, d);
  }

  lemma DeletingKeepsSafe(s: State, filed: set<Doc>, docs: set<Doc>)
    requires Safe(s, filed) && Respects(s, Delete(docs))
    ensures var t := Deleted(s, docs); Safe(t, NowFiled(filed, t))
  {
    var t := Deleted(s, docs);
    forall d | d in t.placed ensures DocSafe(t, NowFiled(filed, t), d) {
      assert DocSafe(s, filed, d);
    }
    forall d | d in s.provenance ensures d in t.placed {
      assert DocSafe(s, filed, d);
    }
    assert TrashIds(t) == TrashIds(s);
  }

  lemma OtherDeletesLose(s: State, filed: set<Doc>, docs: set<Doc>)
    requires Safe(s, filed) && !Respects(s, Delete(docs))
    ensures var t := Deleted(s, docs); !Safe(t, NowFiled(filed, t))
  {
    var d :| d in docs && InTrash(s, d);
    assert DocSafe(s, filed, d);
    assert d in s.provenance && d !in Deleted(s, docs).placed;
  }

  lemma StepKeepsSafe(s: State, filed: set<Doc>, e: Event)
    requires Safe(s, filed) && Respects(s, e)
    ensures var t := Step(s, e); Safe(t, NowFiled(filed, t))
  {
    match e
    case PutAt(d, targets) => PutKeepsSafe(s, filed, d, targets);
    case PutAll(ids, targets) => FilingTogetherKeepsSafe(s, filed, ids, targets);
    case LinkAll(ids, targets) => LinkingTogetherKeepsSafe(s, filed, ids, targets);
    case UnlinkFrom(d, targets) => UnlinkKeepsSafe(s, filed, d, targets);
    case UnlinkAll(docs, targets) =>
      BulkUnlinkKeepsSafe(s, filed, docs, targets);
      NothingNew(Step(s, e), filed);
    case Detach(ids, targets) =>
      DetachingKeepsSafe(s, filed, ids, targets);
      NothingNew(Step(s, e), filed);
    case Delete(ids) => DeletingKeepsSafe(s, filed, ids);
    case Restore(d) =>
      RestoreKeepsSafe(s, filed, d);
      NothingNew(Step(s, e), filed);
    case Empty(None) => EmptyingKeepsSafe(s, filed, TrashIds(s));
    case Empty(Some(docs)) => EmptyingKeepsSafe(s, filed, docs);
  }

  lemma OtherStepsLose(s: State, filed: set<Doc>, e: Event)
    requires Safe(s, filed) && !Respects(s, e)
    ensures var t := Step(s, e); !Safe(t, NowFiled(filed, t))
  {
    match e
    case PutAt(d, targets) => OtherPutsLose(s, filed, d, targets);
    case PutAll(ids, targets) => OtherBulkPutsLose(s, filed, ids, targets);
    case LinkAll(ids, targets) => OtherBulkLinksLose(s, filed, ids, targets);
    case UnlinkFrom(d, targets) => OtherUnlinksLose(s, filed, d, targets);
    case UnlinkAll(docs, targets) => OtherBulkUnlinksLose(s, filed, docs, targets);
    case Detach(ids, targets) => OtherDetachesLose(s, filed, ids, targets);
    case Delete(ids) => OtherDeletesLose(s, filed, ids);
  }

  /** The operations that keep every document safe are exactly those that respect the trash. */
  lemma SafeIfRespected(s: State, filed: set<Doc>, e: Event)
    requires Safe(s, filed)
    ensures var t := Step(s, e); Safe(t, NowFiled(filed, t)) <==> Respects(s, e)
  {
    if Respects(s, e) {
      StepKeepsSafe(s, filed, e);
    } else {
      OtherStepsLose(s, filed, e);
    }
  }

  ghost predicate Run(s: State, filed: set<Doc>, events: seq<Event>, s': State, filed': set<Doc>)
    decreases |events|
  {
    if events == [] then s' == s && filed' == filed
    else
      Respects(s, events[0]) &&
      var t := Step(s, events[0]); Run(t, NowFiled(filed, t), events[1..], s', filed')
  }

  lemma {:induction false} RunKeepsSafe(s: State, filed: set<Doc>, events: seq<Event>, s': State, filed': set<Doc>)
    requires Safe(s, filed) && Run(s, filed, events, s', filed')
    ensures Safe(s', filed')
    decreases |events|
  {
    if events != [] {
      StepKeepsSafe(s, filed, events[0]);
      var t := Step(s, events[0]);
      RunKeepsSafe(t, NowFiled(filed, t), events[1..], s', filed');
    }
  }

  function EmptyWorkspace(trees: set<TreeId>): State { State(map[], map[], None, trees) }

  lemma EmptyWorkspaceIsSafe(trees: set<TreeId>)
    ensures Safe(EmptyWorkspace(trees), {})
  {
  }

  /** Over every run from the empty workspace, each live document once filed is at a real place, or in the trash with a way back. */
  lemma NothingFiledIsLost(trees: set<TreeId>, events: seq<Event>, s: State, filed: set<Doc>)
    requires Run(EmptyWorkspace(trees), {}, events, s, filed)
    ensures Safe(s, filed)
    ensures forall d :: d in filed ==> d in s.placed && (AtRealPlace(s.placed[d]) || (InTrash(s, d) && ProvenanceOf(s, d) != []))
  {
    EmptyWorkspaceIsSafe(trees);
    RunKeepsSafe(EmptyWorkspace(trees), {}, events, s, filed);
    forall d | d in filed ensures AtRealPlace(s.placed[d]) || (InTrash(s, d) && ProvenanceOf(s, d) != []) {
      assert DocSafe(s, filed, d);
    }
  }

  // ---- The algebra of deleting, restoring and moving ----

  ghost predicate SamePlaces(a: seq<Place>, b: seq<Place>) {
    forall p :: p in a <==> p in b
  }

  /** A record whose trees exist is put back whole, and the document leaves the trash. */
  lemma RestorePutsBack(s: State, filed: set<Doc>, d: Doc)
    requires Safe(s, filed) && d in s.placed && Restorable(s, d)
    ensures var t := Restored(s, d);
            && t.placed.Keys == s.placed.Keys
            && (forall p :: p in t.placed[d] <==> p != TRASH && (p in s.placed[d] || p in s.provenance[d]))
            && t.provenance == s.provenance - {d}
  {
    assert DocSafe(s, filed, d);
    var places := s.provenance[d];
    RelinkedKeepsSafe(s, filed, d, places);
    UntrashPlaces(Relinked(s, d, places), filed, d);
  }

  /** A record with a tree gone is put back in part at most, and the document stays in the trash. */
  lemma FailedRestoreStays(s: State, filed: set<Doc>, d: Doc)
    requires Safe(s, filed) && d in s.placed && InTrash(s, d) && !Restorable(s, d)
    ensures var t := Restored(s, d); d in t.placed && InTrash(t, d) && t.provenance == s.provenance
  {
    assert DocSafe(s, filed, d);
    RelinkedKeepsSafe(s, filed, d, s.provenance[d]);
  }

  /** The trees a workspace has are looked at by restores only. */
  lemma TreesDoNotMatter(s: State, filed: set<Doc>, trees: set<TreeId>)
    requires Safe(s, filed)
    ensures Safe(s.(trees := trees), filed)
  {
    forall d | d in s.placed ensures DocSafe(s.(trees := trees), filed, d) {
      assert DocSafe(s, filed, d);
    }
  }

  /** The record an orphaning unlink leaves, and what is left of the places beside it. */
  lemma OrphanRecord(s: State, filed: set<Doc>, d: Doc, targets: seq<Place>)
    requires Safe(s, filed) && d in s.placed && TRASH !in targets && Orphans(s.placed[d], targets)
    ensures var u := Unlinked(s, d, targets);
            && d in u.placed && InTrash(u, d) && TRASH !in s.placed[d]
            && ProvenanceOf(u, d) == WithoutRoots(s.placed[d]) != []
            && (forall p :: p in u.placed[d] ==> p == TRASH || p in s.placed[d])
            && (forall p :: p in s.placed[d] <==> (p in u.placed[d] && IsRoot(p)) || p in WithoutRoots(s.placed[d]))
  {
    var places := s.placed[d];
    assert DocSafe(s, filed, d);
    UnlinkPlaces(s, d, targets);
    WithoutRootsHas(places);
    RemovedHas(places, targets);
    if TRASH in places {
      RealIn(Removed(places, targets), TRASH);
    }
    var i :| 0 <= i < |places| && !IsRoot(places[i]);
    assert places[i] in WithoutRoots(places);
  }

  /**
   Deleting a document's last places and restoring it gives back exactly the places it had if and only
   if the trees they were in still exist; otherwise it stays in the trash.
   */
  lemma RestoreUndoesDelete(s: State, filed: set<Doc>, d: Doc, targets: seq<Place>, trees: set<TreeId>)
    requires Safe(s, filed) && d in s.placed && TRASH !in targets && Orphans(s.placed[d], targets)
    ensures var deleted := Unlinked(s, d, targets).(trees := trees);
            var t := Restored(deleted, d);
            && ProvenanceOf(deleted, d) == WithoutRoots(s.placed[d])
            && (SamePlaces(PlacesOf(t, d), s.placed[d]) <==> TreesExist(deleted, WithoutRoots(s.placed[d])))
            && (SamePlaces(PlacesOf(t, d), s.placed[d]) ==> d !in t.provenance)
            && (!SamePlaces(PlacesOf(t, d), s.placed[d]) ==> InTrash(t, d) && t.provenance == deleted.provenance)
  {
    OrphaningKeepsSafe(s, filed, d, targets);
    TreesDoNotMatter(Unlinked(s, d, targets), filed, trees);
    OrphanRecord(s, filed, d, targets);
    var deleted := Unlinked(s, d, targets).(trees := trees);
    if Restorable(deleted, d) {
      RestorePutsBack(deleted, filed, d);
    } else {
      FailedRestoreStays(deleted, filed, d);
    }
  }

  /** Two states that differ at most in the order the places of one document are listed. */
  ghost predicate SameUpToOrder(a: State, b: State, d: Doc) {
    && a.placed.Keys == b.placed.Keys
    && (forall x :: x in a.placed && x != d ==> a.placed[x] == b.placed[x])
    && SamePlaces(PlacesOf(a, d), PlacesOf(b, d))
    && a.provenance == b.provenance && a.trashedIds == b.trashedIds
  }

  /** What filing a safe document at one real place comes to. */
  lemma PutOfSafe(s: State, filed: set<Doc>, d: Doc, to: Place)
    requires Safe(s, filed) && d in s.placed && IsReal(to)
    ensures var t := Put(s, d, [to]);
            && t.placed.Keys == s.placed.Keys
            && (forall x :: x in s.placed && x != d ==> t.placed[x] == s.placed[x])
            && (forall p :: p in t.placed[d] <==> p != TRASH && (p in s.placed[d] || p == to))
            && t.provenance == s.provenance - {d} && t.trashedIds == Some(TrashIds(s) - {d})
  {
    assert DocSafe(s, filed, d);
    PutPlaces(s, d, [to]);
    assert d !in s.provenance ==> s.provenance - {d} == s.provenance;
  }

  /** What unlinking one place of a document filed elsewhere too comes to. */
  lemma UnlinkOfFiled(s: State, d: Doc, from: Place, other: Place)
    requires d in s.placed && other in s.placed[d] && !IsRoot(other) && other != from
    ensures var t := Unlinked(s, d, [from]);
            && t == s.(placed := t.placed) && t.placed.Keys == s.placed.Keys
            && (forall x :: x in s.placed && x != d ==> t.placed[x] == s.placed[x])
            && (forall p :: p in t.placed[d] <==> p in s.placed[d] && (p != from || IsRoot(p)))
  {
    RemovedHas(s.placed[d], [from]);
    RealIn(Removed(s.placed[d], [from]), other);
  }

  /** What unlinking one place comes to, apart from the trash. */
  lemma UnlinkOfSafe(s: State, d: Doc, from: Place)
    requires d in s.placed && ROOT in s.placed[d] && from != TRASH
    ensures var t := Unlinked(s, d, [from]);
            && t.placed.Keys == s.placed.Keys
            && (forall x :: x in s.placed && x != d ==> t.placed[x] == s.placed[x])
            && (forall p :: p != TRASH ==> (p in t.placed[d] <==> p in s.placed[d] && (p != from || IsRoot(p))))
            && t.provenance - {d} == s.provenance - {d}
  {
    UnlinkPlaces(s, d, [from]);
    var t := Unlinked(s, d, [from]);
    assert t.provenance - {d} == s.provenance - {d};
  }

  lemma SameTrashElsewhere(s: State, t: State, d: Doc)
    requires t.placed.Keys == s.placed.Keys && forall x :: x in s.placed && x != d ==> t.placed[x] == s.placed[x]
    ensures TrashIds(t) - {d} == TrashIds(s) - {d}
  {
  }

  /** A move from `from` to `to` ends the same whichever half of it lands first. */
  lemma MoveHalvesCommute(s: State, filed: set<Doc>, d: Doc, from: Place, to: Place)
    requires Safe(s, filed) && d in s.placed && IsReal(to) && from != to && from != TRASH
    ensures SameUpToOrder(Unlinked(Put(s, d, [to]), d, [from]), Put(Unlinked(s, d, [from]), d, [to]), d)
    ensures !InTrash(Put(Unlinked(s, d, [from]), d, [to]), d)
  {
    PutOfSafe(s, filed, d, to);
    UnlinkOfFiled(Put(s, d, [to]), d, from, to);
    assert DocSafe(s, filed, d);
    UnlinkOfSafe(s, d, from);
    UnlinkKeepsSafe(s, filed, d, [from]);
    PutOfSafe(Unlinked(s, d, [from]), filed, d, to);
    SameTrashElsewhere(s, Unlinked(s, d, [from]), d);
  }
}
