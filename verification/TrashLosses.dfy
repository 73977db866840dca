/** Short runs from the empty workspace after which a call that does not respect the trash does its harm. */
module TrashLosses {
  import opened Wrappers
  import opened Trash

  // ---- A document filed, and deleted ----

  /** One document, at the context root and at home. */
  function AtHome(d: Doc, home: Place, trees: set<TreeId>): State {
    State(map[d := [ROOT, home]], map[], Some({}), trees)
  }

  /** The same document in the trash. */
  function InTheTrash(d: Doc, home: Place, trees: set<TreeId>): State {
    State(map[d := [ROOT, TRASH]], map[d := [home]], Some({d}), trees)
  }

  lemma AddedTwo(places: seq<Place>, p: Place, q: Place)
    ensures var more := if p in places then places else places + [p];
            Added(places, [p, q]) == if q in more then more else more + [q]
  {
    var more := if p in places then places else places + [p];
    assert [p, q][0] == p && [p, q][1..] == [q];
    assert Added(places, [p, q]) == Added(more, [q]);
    assert [q][0] == q && [q][1..] == [];
    assert Added(more, [q]) == Added(if q in more then more else more + [q], []);
  }

  /** Linking to one place, with the context root ticked. */
  lemma LinkedToOne(places: seq<Place>, p: Place)
    ensures var more := if ROOT in places then places else places + [ROOT];
            Added(places, Ticked([p])) == if p in more then more else more + [p]
  {
    assert Ticked([p]) == [ROOT, p];
    AddedTwo(places, ROOT, p);
  }

  lemma RemovedOfOne(p: Place, targets: seq<Place>)
    ensures Removed([p], targets) == KeptOne(p, targets) && WithoutRoots([p]) == if IsRoot(p) then [] else [p]
    ensures (IsFiled([p]) <==> !IsRoot(p)) && (AtRealPlace([p]) <==> IsReal(p))
  {
    assert [p][0] == p && [p][1..] == [];
  }

  lemma RemovedOfTwo(p: Place, targets: seq<Place>)
    ensures Removed([ROOT, p], targets) == [ROOT] + KeptOne(p, targets)
    ensures WithoutRoots([ROOT, p]) == if IsRoot(p) then [] else [p]
    ensures IsFiled([ROOT, p]) <==> !IsRoot(p)
    ensures AtRealPlace([ROOT, p]) <==> IsReal(p)
    ensures !IsFiled([ROOT]) && !AtRealPlace([ROOT])
  {
    RemovedOfOne(p, targets);
    RemovedOfOne(ROOT, targets);
    assert [ROOT, p][0] == ROOT && [ROOT, p][1] == p && [ROOT, p][1..] == [p];
    assert [ROOT] + [p] == [ROOT, p];
    RemovedFirst(ROOT, [p], targets);
  }

  lemma FiledAtHome(d: Doc, home: Place, trees: set<TreeId>)
    requires IsReal(home)
    ensures Put(EmptyWorkspace(trees), d, [home]) == AtHome(d, home, trees)
  {
    LinkedToOne([], home);
    assert [] + [ROOT] + [home] == [ROOT, home];
    var linked := DbLinked(EmptyWorkspace(trees), d, [home]);
    assert linked.placed == map[d := [ROOT, home]];
    assert TrashIds(linked) == {};
  }

  /** One document alone, orphaned. */
  lemma OrphanedAlone(d: Doc, places: seq<Place>, records: map<Doc, seq<Place>>, ids: set<Doc>, trees: set<TreeId>, targets: seq<Place>,
                      left: seq<Place>, there: seq<Place>)
    requires records.Keys <= {d} && ids <= {d}
    requires Removed(places, targets) == left && IsFiled(places) && !IsFiled(left) && Added(left, Ticked([TRASH])) == there
    ensures Unlinked(State(map[d := places], records, Some(ids), trees), d, targets)
         == State(map[d := there], map[d := WithoutRoots(places)], Some({d}), trees)
  {
    var s := State(map[d := places], records, Some(ids), trees);
    assert s.placed[d := left] == map[d := left] && map[d := left][d := there] == map[d := there];
    assert records[d := WithoutRoots(places)] == map[d := WithoutRoots(places)];
    assert ids + {d} == {d};
  }

  lemma DeletedFromHome(d: Doc, home: Place, trees: set<TreeId>)
    requires IsReal(home)
    ensures Orphans([ROOT, home], [home])
    ensures Unlinked(AtHome(d, home, trees), d, [home]) == InTheTrash(d, home, trees)
  {
    RemovedOfTwo(home, [home]);
    LinkedToOne([ROOT], TRASH);
    assert [ROOT] + [TRASH] == [ROOT, TRASH] && [ROOT] + [] == [ROOT];
    OrphanedAlone(d, [ROOT, home], map[], {}, trees, [home], [ROOT], [ROOT, TRASH]);
  }

  lemma FiledOnce(d: Doc, home: Place, trees: set<TreeId>)
    requires IsReal(home)
    ensures NowFiled({}, AtHome(d, home, trees)) == {d}
    ensures Run(EmptyWorkspace(trees), {}, [PutAt(d, [home])], AtHome(d, home, trees), {d})
  {
    FiledAtHome(d, home, trees);
    RemovedOfTwo(home, []);
    assert [PutAt(d, [home])][1..] == [];
  }

  lemma DeletedOnce(d: Doc, home: Place, trees: set<TreeId>)
    requires IsReal(home)
    ensures NowFiled({d}, InTheTrash(d, home, trees)) == {d}
    ensures Run(EmptyWorkspace(trees), {}, [PutAt(d, [home]), UnlinkFrom(d, [home])], InTheTrash(d, home, trees), {d})
  {
    FiledAtHome(d, home, trees);
    FiledOnce(d, home, trees);
    DeletedFromHome(d, home, trees);
    RemovedOfTwo(TRASH, []);
    var e, first, second := EmptyWorkspace(trees), PutAt(d, [home]), UnlinkFrom(d, [home]);
    assert [first, second][0] == first && [first, second][1..] == [second] && [second][1..] == [];
    assert TRASH !in [home];
    assert Run(AtHome(d, home, trees), {d}, [second], InTheTrash(d, home, trees), {d});
  }

  lemma RunsAreSafe(d: Doc, home: Place, trees: set<TreeId>)
    requires IsReal(home)
    ensures Safe(AtHome(d, home, trees), {d}) && Safe(InTheTrash(d, home, trees), {d})
  {
    FiledOnce(d, home, trees);
    DeletedOnce(d, home, trees);
    NothingFiledIsLost(trees, [PutAt(d, [home])], AtHome(d, home, trees), {d});
    NothingFiledIsLost(trees, [PutAt(d, [home]), UnlinkFrom(d, [home])], InTheTrash(d, home, trees), {d});
  }

  // ---- Links and unlinks that do not respect the trash ----

  predicate IsLost(s: State, d: Doc) {
    d in s.placed && !AtRealPlace(s.placed[d]) && !InTrash(s, d)
  }

  /** Filed, deleted, and put back at the context root alone: it is nowhere any more. */
  lemma PutBackAtTheRootIsLost(d: Doc, home: Place, trees: set<TreeId>)
    requires IsReal(home)
    ensures var s := InTheTrash(d, home, trees);
            var t := Step(s, PutAt(d, [ROOT]));
            Safe(s, {d}) && IsLost(t, d) && !Safe(t, NowFiled({d}, t))
  {
    var s := InTheTrash(d, home, trees);
    RunsAreSafe(d, home, trees);
    LinkedToOne([ROOT, TRASH], ROOT);
    RemovedOfTwo(TRASH, [TRASH]);
    assert DbLinked(s, d, [ROOT]).placed == s.placed;
    assert Step(s, PutAt(d, [ROOT])).placed[d] == [ROOT];
    assert PlacesOf(s, d) + [ROOT] == [ROOT, TRASH, ROOT];
    OtherPutsLose(s, {d}, d, [ROOT]);
  }

  /** Filed, and linked at the trash: it is listed there without a record to restore it by. */
  lemma LinkedAtTheTrashHasNoRecord(d: Doc, home: Place, trees: set<TreeId>)
    requires IsReal(home)
    ensures var s := AtHome(d, home, trees);
            var t := Step(s, PutAt(d, [TRASH]));
            Safe(s, {d}) && InTrash(t, d) && ProvenanceOf(t, d) == [] && !Safe(t, NowFiled({d}, t))
  {
    var s := AtHome(d, home, trees);
    RunsAreSafe(d, home, trees);
    PutPlaces(s, d, [TRASH]);
    OtherPutsLose(s, {d}, d, [TRASH]);
  }

  /** The same with only the trash on record. */
  function OnlyTrashRecorded(d: Doc, home: Place, trees: set<TreeId>): State {
    InTheTrash(d, home, trees).(provenance := map[d := [TRASH]])
  }

  lemma UnlinkedFromTheTrash(d: Doc, home: Place, trees: set<TreeId>)
    ensures Unlinked(InTheTrash(d, home, trees), d, [TRASH]) == OnlyTrashRecorded(d, home, trees)
  {
    RemovedOfTwo(TRASH, [TRASH]);
    LinkedToOne([ROOT], TRASH);
    assert [ROOT] + [TRASH] == [ROOT, TRASH] && [ROOT] + [] == [ROOT];
    OrphanedAlone(d, [ROOT, TRASH], map[d := [home]], {d}, trees, [TRASH], [ROOT], [ROOT, TRASH]);
  }

  lemma RestoredFromTrashRecord(d: Doc, home: Place, trees: set<TreeId>)
    requires TRASH.tree in trees
    ensures IsLost(Restored(OnlyTrashRecorded(d, home, trees), d), d)
  {
    var t := OnlyTrashRecorded(d, home, trees);
    LinkedToOne([ROOT, TRASH], TRASH);
    assert DbLinked(t, d, [TRASH]).placed == t.placed;
    assert [TRASH][0] == TRASH && [TRASH][1..] == [];
    assert Relinked(t, d, [TRASH]) == Relinked(t, d, []);
    RemovedOfTwo(TRASH, [TRASH]);
    assert Restored(t, d) == Untrashed(t, d);
    assert [ROOT] + [] == [ROOT];
  }

  /** Filed, deleted and unlinked from the trash: only the trash is on record, and a restore loses the document. */
  lemma UnlinkedFromTheTrashIsLost(d: Doc, home: Place, trees: set<TreeId>)
    requires IsReal(home) && TRASH.tree in trees
    ensures var s := InTheTrash(d, home, trees);
            var t := Step(s, UnlinkFrom(d, [TRASH]));
            && Safe(s, {d}) && !Safe(t, NowFiled({d}, t))
            && ProvenanceOf(t, d) == [TRASH] && IsLost(Restored(t, d), d)
  {
    RunsAreSafe(d, home, trees);
    UnlinkedFromTheTrash(d, home, trees);
    RestoredFromTrashRecord(d, home, trees);
    OtherUnlinksLose(InTheTrash(d, home, trees), {d}, d, [TRASH]);
  }

  lemma BulkOfOne(s: State, d: Doc, targets: seq<Place>)
    ensures UnlinkedTogether(s, Elements([d]), targets) == Unlinked(s, d, targets)
  {
    assert multiset([d])[d] == 1 && forall x :: x != d ==> multiset([d])[x] == 0;
    UnlinkManyIsUnlinkInTurn(s, [d], targets);
    assert [d][..0] == [];
    assert UnlinkedInTurn(s, [d], targets) == Unlinked(UnlinkedInTurn(s, [], targets), d, targets);
  }

  /** The bulk unlink does the same. */
  lemma UnlinkedInBulkIsLost(d: Doc, home: Place, trees: set<TreeId>)
    requires IsReal(home)
    ensures var s := InTheTrash(d, home, trees);
            var t := Step(s, UnlinkAll([d], [TRASH]));
            Safe(s, {d}) && !Safe(t, NowFiled({d}, t)) && t == Step(s, UnlinkFrom(d, [TRASH]))
  {
    var s := InTheTrash(d, home, trees);
    RunsAreSafe(d, home, trees);
    BulkOfOne(s, d, [TRASH]);
    OtherUnlinksLose(s, {d}, d, [TRASH]);
  }

  /** An id given twice to an unlink from home and the trash: in bulk home is on record, in turn the trash alone. */
  lemma RepeatedIdLosesRecord(d: Doc, home: Place, trees: set<TreeId>)
    requires IsReal(home)
    ensures var s, targets := AtHome(d, home, trees), [home, TRASH];
            UnlinkedTogether(s, Elements([d, d]), targets) != UnlinkedInTurn(s, [d, d], targets)
  {
    var s, targets := AtHome(d, home, trees), [home, TRASH];
    RemovedOfTwo(home, targets);
    assert Orphans(s.placed[d], targets) && WithoutRoots(s.placed[d]) == [home];
    assert multiset([d, d])[d] == 2;
    assert !RecordSurvives(s, [d, d], targets, d);
    UnlinkManyIsUnlinkInTurn(s, [d, d], targets);
  }

  /** A tree removed between delete and restore: the document stays in the trash. */
  lemma RestoreNeedsItsTree(d: Doc, home: Place, trees: set<TreeId>)
    requires IsReal(home)
    ensures var s := InTheTrash(d, home, trees).(trees := trees - {home.tree});
            Safe(s, {d}) && Restored(s, d) == s && InTrash(s, d) && !SamePlaces(PlacesOf(s, d), [ROOT, home])
  {
    var s := InTheTrash(d, home, trees).(trees := trees - {home.tree});
    RunsAreSafe(d, home, trees);
    TreesDoNotMatter(InTheTrash(d, home, trees), {d}, s.trees);
    assert home in ProvenanceOf(s, d) && home in [ROOT, home];
  }

  // ---- Operations that know nothing of the trash ----

  /** Filed and deleted once more, but put back by a bulk link. */
  function AtBoth(d: Doc, home: Place, trees: set<TreeId>): State {
    InTheTrash(d, home, trees).(placed := map[d := [ROOT, TRASH, home]])
  }

  lemma LinkedInBulk(d: Doc, home: Place, trees: set<TreeId>)
    requires IsReal(home)
    ensures Step(InTheTrash(d, home, trees), LinkAll({d}, [home])) == AtBoth(d, home, trees)
    ensures InTrash(AtBoth(d, home, trees), d) && AtRealPlace(AtBoth(d, home, trees).placed[d])
  {
    var s := InTheTrash(d, home, trees);
    LinkedToOne([ROOT, TRASH], home);
    assert [ROOT, TRASH] + [home] == [ROOT, TRASH, home];
    assert {d} * s.placed.Keys == {d};
    assert Step(s, LinkAll({d}, [home])).placed == map[d := [ROOT, TRASH, home]];
    assert [ROOT, TRASH, home][1] == TRASH && [ROOT, TRASH, home][2] == home;
  }

  /** A bulk link leaves a deleted document in the trash, and emptying the trash destroys it at home; a single link does not. */
  lemma LinkedInBulkIsDestroyed(d: Doc, home: Place, trees: set<TreeId>)
    requires IsReal(home)
    ensures var s := InTheTrash(d, home, trees);
            var t := Step(s, LinkAll({d}, [home]));
            && Respects(s, LinkAll({d}, [home])) && Safe(t, NowFiled({d}, t))
            && InTrash(t, d) && AtRealPlace(t.placed[d]) && d !in Step(t, Empty(None)).placed
    ensures !InTrash(Step(InTheTrash(d, home, trees), PutAt(d, [home])), d)
  {
    var s := InTheTrash(d, home, trees);
    RunsAreSafe(d, home, trees);
    LinkedInBulk(d, home, trees);
    LinkingTogetherKeepsSafe(s, {d}, {d}, [home]);
    PutPlaces(s, d, [home]);
  }

  /** A plain delete of a document in the trash leaves its record and the cache behind. */
  lemma DeletedInTrashLeavesRecord(d: Doc, home: Place, trees: set<TreeId>)
    requires IsReal(home)
    ensures var s := InTheTrash(d, home, trees);
            var t := Step(s, Delete({d}));
            Safe(s, {d}) && !Safe(t, NowFiled({d}, t)) && d !in t.placed && d in t.provenance && t.trashedIds == Some({d})
  {
    RunsAreSafe(d, home, trees);
    OtherDeletesLose(InTheTrash(d, home, trees), {d}, {d});
  }

  /** An unlink without the rule for orphans takes a document from home to nowhere. */
  lemma DetachedIsLost(d: Doc, home: Place, trees: set<TreeId>)
    requires IsReal(home)
    ensures var s := AtHome(d, home, trees);
            var t := Step(s, Detach({d}, [home]));
            Safe(s, {d}) && IsLost(t, d) && !Safe(t, NowFiled({d}, t))
  {
    var s := AtHome(d, home, trees);
    RunsAreSafe(d, home, trees);
    RemovedOfTwo(home, [home]);
    OtherDetachesLose(s, {d}, {d}, [home]);
  }
}
