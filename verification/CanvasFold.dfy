/**
 Reads on a canvas (src/core/workspace/Workspace.js): the query stored with every canvas a read ends on is folded
 into the read's own, and which documents the result lets through.
 */
module CanvasFold {
  import opened Wrappers
  import opened CanvasScope
  import Text

  /** Feature constraints as requests and canvases spell them; a plain list means any of it. */
  datatype Features =
    | NoFeatures
    | List(items: seq<string>)
    | Buckets(allOf: Option<seq<string>>, anyOf: Option<seq<string>>, noneOf: Option<seq<string>>)

  datatype Sort = Sort(field: string, order: string)

  datatype CanvasSpec = CanvasSpec(features: Features, filters: Option<seq<string>>, query: Option<string>, sort: Option<Sort>)

  datatype Spec = Spec(features: Features, filters: seq<string>, query: Option<string>, sortBy: string, order: string)

  // ---- Folding one canvas ----

  // JavaScript's `[...new Set(s)]`.
  function Distinct(s: seq<string>): seq<string> {
    if s == [] then []
    else
      var init, last := s[..|s| - 1], s[|s| - 1];
      if last in init then Distinct(init) else Distinct(init) + [last]
  }

  function Listed(bucket: Option<seq<string>>): seq<string> {
    match bucket case Some(items) => items case None => []
  }

  function BucketsOf(f: Features): Features {
    match f
    case NoFeatures => Buckets(None, None, None)
    case List(items) => Buckets(None, Some(items), None)
    case Buckets(_, _, _) => f
  }

  function MergedBucket(a: Option<seq<string>>, b: Option<seq<string>>): Option<seq<string>> {
    if Listed(a) == [] && Listed(b) == [] then None else Some(Distinct(Listed(a) + Listed(b)))
  }

  function ComposedFeatures(caller: Features, canvas: Features): Features {
    if canvas.NoFeatures? then caller
    else if caller.NoFeatures? then canvas
    else
      var a, b := BucketsOf(caller), BucketsOf(canvas);
      var merged := Buckets(MergedBucket(a.allOf, b.allOf), MergedBucket(a.anyOf, b.anyOf), MergedBucket(a.noneOf, b.noneOf));
      if merged == Buckets(None, None, None) then NoFeatures else merged
  }

  function ComposedFilters(caller: seq<string>, canvas: Option<seq<string>>): seq<string> {
    Distinct(caller + Listed(canvas))
  }

  function Words(query: Option<string>): string {
    match query case Some(q) => Text.Trim(q) case None => ""
  }

  function ComposedQuery(caller: Option<string>, canvas: Option<string>): Option<string> {
    var a, b := Words(caller), Words(canvas);
    if a != "" && b != "" && a != b then Some(b + " " + a)
    else if a != "" then Some(a)
    else if b != "" then Some(b)
    else None
  }

  // ---- Folding all canvases of a read ----

  function FoldedFeatures(start: Features, canvases: seq<CanvasSpec>): Features {
    if canvases == [] then start
    else ComposedFeatures(FoldedFeatures(start, canvases[..|canvases| - 1]), canvases[|canvases| - 1].features)
  }

  function FoldedFilters(start: seq<string>, canvases: seq<CanvasSpec>): seq<string> {
    if canvases == [] then start
    else ComposedFilters(FoldedFilters(start, canvases[..|canvases| - 1]), canvases[|canvases| - 1].filters)
  }

  function FoldedQuery(start: Option<string>, canvases: seq<CanvasSpec>): Option<string> {
    if canvases == [] then start
    else ComposedQuery(FoldedQuery(start, canvases[..|canvases| - 1]), canvases[|canvases| - 1].query)
  }

  function SavedSort(canvas: CanvasSpec, before: Option<Sort>): Option<Sort> {
    if canvas.sort.Some? && canvas.sort.value.field != "" then canvas.sort else before
  }

  /** The last canvas that has a saved sort decides it. */
  function FoldedSort(canvases: seq<CanvasSpec>): Option<Sort> {
    if canvases == [] then None
    else SavedSort(canvases[|canvases| - 1], FoldedSort(canvases[..|canvases| - 1]))
  }

  /** The canvases among the leaves of the paths of a read. */
  function CanvasesAt(paths: seq<string>, leafAt: string -> Option<CanvasSpec>): seq<CanvasSpec> {
    if paths == [] then []
    else
      var before := CanvasesAt(paths[..|paths| - 1], leafAt);
      match leafAt(paths[|paths| - 1])
      case Some(canvas) => before + [canvas]
      case None => before
  }

  /** A tree as reads see it: its kind, and the canvas a path ends on, if it does. */
  datatype Tree = Tree(isDirectory: bool, leafAt: string -> Option<CanvasSpec>)

  function IsCanvas(tree: Tree): string -> bool { (path: string) => tree.leafAt(path).Some? }

  /** The scope of a read: in a directory tree the canvases give way to their parent folders. */
  function ScopeOf(tree: Tree, paths: seq<string>, done: seq<string>): seq<string> {
    if tree.isDirectory then Rescoped(paths, done, IsCanvas(tree)) else paths
  }

  function OrText(a: string, b: string): string { if a != "" then a else b }

  /** The read with what the canvases made of it. */
  function Rewritten(spec: Spec, features: Features, filters: seq<string>, query: Option<string>, sort: Option<Sort>): Spec {
    var sorted := sort.Some? && spec.sortBy == "";
    Spec(features,
         filters,
         if query.Some? && query.value != "" then query else spec.query,
         if sorted then sort.value.field else spec.sortBy,
         if sorted then OrText(sort.value.order, OrText(spec.order, "asc")) else spec.order)
  }

  function Folded(spec: Spec, canvases: seq<CanvasSpec>): Spec {
    if canvases == [] then spec
    else
      Rewritten(spec, FoldedFeatures(spec.features, canvases), FoldedFilters(spec.filters, canvases),
                FoldedQuery(spec.query, canvases), FoldedSort(canvases))
  }

  ghost predicate FoldedTo(spec: Spec, canvases: seq<CanvasSpec>, features: Features, filters: seq<string>,
                           query: Option<string>, sort: Option<Sort>)
  {
    && features == FoldedFeatures(spec.features, canvases) && filters == FoldedFilters(spec.filters, canvases)
    && query == FoldedQuery(spec.query, canvases) && sort == FoldedSort(canvases)
  }

  lemma OneMorePath(paths: seq<string>, i: nat, tree: Tree)
    requires i < |paths|
    ensures var before, after, leaf := CanvasesAt(paths[..i], tree.leafAt), CanvasesAt(paths[..i + 1], tree.leafAt), tree.leafAt(paths[i]);
            after == if leaf.Some? then before + [leaf.value] else before
    ensures var before, after := ScopeOf(tree, paths, paths[..i]), ScopeOf(tree, paths, paths[..i + 1]);
            after == if tree.isDirectory && tree.leafAt(paths[i]).Some? then WithParent(before, paths[i]) else before
  {
    assert paths[..i + 1][..i] == paths[..i];
  }

  lemma OneMoreCanvas(spec: Spec, before: seq<CanvasSpec>, canvas: CanvasSpec, features: Features, filters: seq<string>,
                      query: Option<string>, sort: Option<Sort>)
    requires FoldedTo(spec, before, features, filters, query, sort)
    ensures FoldedTo(spec, before + [canvas], ComposedFeatures(features, canvas.features),
                     ComposedFilters(filters, canvas.filters), ComposedQuery(query, canvas.query), SavedSort(canvas, sort))
  {
    assert (before + [canvas])[..|before|] == before;
  }

  method ComposeCanvasForScope(spec: Spec, tree: Tree, paths: seq<string>) returns (out: Spec, scope: seq<string>)
    ensures out == Folded(spec, CanvasesAt(paths, tree.leafAt))
    ensures scope == ScopeOf(tree, paths, paths)
  {
    var features, filters, query := spec.features, spec.filters, spec.query;
    var sort: Option<Sort> := None;
    var touched := false;
    ghost var canvases: seq<CanvasSpec> := [];
    scope := paths;
    for i := 0 to |paths|
      invariant canvases == CanvasesAt(paths[..i], tree.leafAt) && (touched <==> canvases != [])
      invariant FoldedTo(spec, canvases, features, filters, query, sort)
      invariant scope == ScopeOf(tree, paths, paths[..i])
    {
      OneMorePath(paths, i, tree);
      var leaf := tree.leafAt(paths[i]);
      if leaf.None? {
        continue;
      }
      var canvas := leaf.value;
      OneMoreCanvas(spec, canvases, canvas, features, filters, query, sort);
      canvases := canvases + [canvas];
      features := ComposedFeatures(features, canvas.features);
      filters := ComposedFilters(filters, canvas.filters);
      query := ComposedQuery(query, canvas.query);
      sort := SavedSort(canvas, sort);
      if tree.isDirectory {
        scope := WithParent(scope, paths[i]);
      }
      touched := true;
    }
    assert paths[..|paths|] == paths;
    if !touched {
      NoCanvasNoMove(tree, paths);
      return spec, paths;
    }
    out := Rewritten(spec, features, filters, query, sort);
  }

  lemma {:induction false} NoCanvasNoMove(tree: Tree, paths: seq<string>)
    requires CanvasesAt(paths, tree.leafAt) == []
    ensures forall scope :: Rescoped(scope, paths, IsCanvas(tree)) == scope
  {
    if paths != [] {
      NoCanvasNoMove(tree, paths[..|paths| - 1]);
    }
  }

  /** A read may end on canvases of the context tree and of a directory tree; a preview leaves the stored queries out. */
  method ComposeCanvasQuerySpec(spec: Spec, applyStored: bool, context: Tree, contextPaths: seq<string>,
                                directory: Tree, directoryPaths: seq<string>)
    returns (out: Spec, contextScope: seq<string>, directoryScope: seq<string>)
    ensures out == if !applyStored then spec
                   else Folded(Folded(spec, CanvasesAt(contextPaths, context.leafAt)), CanvasesAt(directoryPaths, directory.leafAt))
    ensures contextScope == if applyStored then ScopeOf(context, contextPaths, contextPaths) else contextPaths
    ensures directoryScope == if applyStored then ScopeOf(directory, directoryPaths, directoryPaths) else directoryPaths
  {
    if !applyStored {
      return spec, contextPaths, directoryPaths;
    }
    out, contextScope := ComposeCanvasForScope(spec, context, contextPaths);
    out, directoryScope := ComposeCanvasForScope(out, directory, directoryPaths);
  }

  // ---- What constraints mean ----

  function Items(bucket: Option<seq<string>>): set<string> { set x | x in Listed(bucket) }

  function AllOf(f: Features): set<string> { Items(BucketsOf(f).allOf) }

  function AnyOf(f: Features): set<string> { Items(BucketsOf(f).anyOf) }

  function NoneOf(f: Features): set<string> { Items(BucketsOf(f).noneOf) }

  /** Whether a document with these features is let through. */
  predicate Admits(f: Features, features: set<string>) {
    Fits(AllOf(f), AnyOf(f), NoneOf(f), features)
  }

  predicate Fits(all: set<string>, any: set<string>, none: set<string>, features: set<string>) {
    all <= features && none !! features && (any == {} || any * features != {})
  }

  /** The same for a whole read; `met` are the filters the document meets. */
  predicate Selects(features: Features, filters: seq<string>, has: set<string>, met: set<string>) {
    Admits(features, has) && forall f :: f in filters ==> f in met
  }

  lemma {:induction false} DistinctSame(s: seq<string>)
    ensures forall x :: x in Distinct(s) <==> x in s
  {
    if s != [] {
      var init := s[..|s| - 1];
      DistinctSame(init);
      assert s == init + [s[|s| - 1]];
    }
  }

  lemma MergedItems(a: Option<seq<string>>, b: Option<seq<string>>)
    ensures Items(MergedBucket(a, b)) == Items(a) + Items(b)
  {
    DistinctSame(Listed(a) + Listed(b));
  }

  /** `allOf` and `noneOf` add up, and so does `anyOf`, which makes it weaker. */
  lemma ComposedMeans(a: Features, b: Features)
    ensures var c := ComposedFeatures(a, b);
            AllOf(c) == AllOf(a) + AllOf(b) && AnyOf(c) == AnyOf(a) + AnyOf(b) && NoneOf(c) == NoneOf(a) + NoneOf(b)
  {
    MergedItems(BucketsOf(a).allOf, BucketsOf(b).allOf);
    MergedItems(BucketsOf(a).anyOf, BucketsOf(b).anyOf);
    MergedItems(BucketsOf(a).noneOf, BucketsOf(b).noneOf);
  }

  // ---- All canvases of a read ----

  /** The constraints that come together: the read's own, and those of its canvases. */
  function Parts(start: Features, canvases: seq<CanvasSpec>): seq<Features> {
    if canvases == [] then [start] else Parts(start, canvases[..|canvases| - 1]) + [canvases[|canvases| - 1].features]
  }

  function AllOfAll(parts: seq<Features>): set<string> {
    if parts == [] then {} else AllOfAll(parts[..|parts| - 1]) + AllOf(parts[|parts| - 1])
  }

  function AnyOfAll(parts: seq<Features>): set<string> {
    if parts == [] then {} else AnyOfAll(parts[..|parts| - 1]) + AnyOf(parts[|parts| - 1])
  }

  function NoneOfAll(parts: seq<Features>): set<string> {
    if parts == [] then {} else NoneOfAll(parts[..|parts| - 1]) + NoneOf(parts[|parts| - 1])
  }

  lemma OneMorePart(parts: seq<Features>, f: Features)
    ensures AllOfAll(parts + [f]) == AllOfAll(parts) + AllOf(f)
    ensures AnyOfAll(parts + [f]) == AnyOfAll(parts) + AnyOf(f)
    ensures NoneOfAll(parts + [f]) == NoneOfAll(parts) + NoneOf(f)
  {
    assert (parts + [f])[..|parts|] == parts;
  }

  lemma {:induction false} FoldedUnites(start: Features, canvases: seq<CanvasSpec>)
    ensures var f, parts := FoldedFeatures(start, canvases), Parts(start, canvases);
            AllOf(f) == AllOfAll(parts) && AnyOf(f) == AnyOfAll(parts) && NoneOf(f) == NoneOfAll(parts)
  {
    if canvases == [] {
      OneMorePart([], start);
      assert [] + [start] == [start];
    } else {
      var init, last := canvases[..|canvases| - 1], canvases[|canvases| - 1];
      FoldedUnites(start, init);
      ComposedMeans(FoldedFeatures(start, init), last.features);
      OneMorePart(Parts(start, init), last.features);
    }
  }

  /** In general `allOf` and `noneOf` are intersected and the `anyOf` lists united. */
  lemma FoldedMeans(start: Features, canvases: seq<CanvasSpec>, has: set<string>)
    ensures var parts := Parts(start, canvases);
            Admits(FoldedFeatures(start, canvases), has) <==> Fits(AllOfAll(parts), AnyOfAll(parts), NoneOfAll(parts), has)
  {
    FoldedUnites(start, canvases);
  }

  lemma {:induction false} InAllOfAll(parts: seq<Features>, x: string)
    ensures x in AllOfAll(parts) <==> exists i :: 0 <= i < |parts| && x in AllOf(parts[i])
  {
    if parts != [] {
      var init := parts[..|parts| - 1];
      InAllOfAll(init, x);
      assert forall i :: 0 <= i < |init| ==> init[i] == parts[i];
    }
  }

  lemma {:induction false} InAnyOfAll(parts: seq<Features>, x: string)
    ensures x in AnyOfAll(parts) <==> exists i :: 0 <= i < |parts| && x in AnyOf(parts[i])
  {
    if parts != [] {
      var init := parts[..|parts| - 1];
      InAnyOfAll(init, x);
      assert forall i :: 0 <= i < |init| ==> init[i] == parts[i];
    }
  }

  lemma {:induction false} InNoneOfAll(parts: seq<Features>, x: string)
    ensures x in NoneOfAll(parts) <==> exists i :: 0 <= i < |parts| && x in NoneOf(parts[i])
  {
    if parts != [] {
      var init := parts[..|parts| - 1];
      InNoneOfAll(init, x);
      assert forall i :: 0 <= i < |init| ==> init[i] == parts[i];
    }
  }

  /** What the read and every canvas would let through. */
  predicate EachAdmits(parts: seq<Features>, has: set<string>) {
    forall i :: 0 <= i < |parts| ==> Admits(parts[i], has)
  }

  predicate Met(any: set<string>, has: set<string>) { any == {} || any * has != {} }

  predicate EachMet(parts: seq<Features>, has: set<string>) {
    forall i :: 0 <= i < |parts| ==> Met(AnyOf(parts[i]), has)
  }

  /** A document that has what is asked for, and nothing that is ruled out. */
  predicate Holds(parts: seq<Features>, has: set<string>) { AllOfAll(parts) <= has && NoneOfAll(parts) !! has }

  lemma EachAdmitsMeans(parts: seq<Features>, has: set<string>)
    ensures EachAdmits(parts, has) <==> Holds(parts, has) && EachMet(parts, has)
  {
    if EachAdmits(parts, has) {
      forall x | x in AllOfAll(parts) ensures x in has {
        InAllOfAll(parts, x);
        var i :| 0 <= i < |parts| && x in AllOf(parts[i]);
        assert Admits(parts[i], has);
      }
      forall x | x in NoneOfAll(parts) ensures x !in has {
        InNoneOfAll(parts, x);
        var i :| 0 <= i < |parts| && x in NoneOf(parts[i]);
        assert Admits(parts[i], has);
      }
      forall i | 0 <= i < |parts| ensures Met(AnyOf(parts[i]), has) {
        assert Admits(parts[i], has);
      }
    }
    if Holds(parts, has) && EachMet(parts, has) {
      forall i | 0 <= i < |parts| ensures Admits(parts[i], has) {
        PartHolds(parts, has, i);
        assert Met(AnyOf(parts[i]), has);
      }
    }
  }

  lemma PartHolds(parts: seq<Features>, has: set<string>, i: nat)
    requires i < |parts| && Holds(parts, has)
    ensures AllOf(parts[i]) <= has && NoneOf(parts[i]) !! has
  {
    forall x | x in AllOf(parts[i]) ensures x in has {
      InAllOfAll(parts, x);
    }
    forall x | x in NoneOf(parts[i]) ensures x !in has {
      InNoneOfAll(parts, x);
    }
  }

  predicate Alike(a: set<string>, b: set<string>, none: set<string>) {
    a == {} || b == {} || a - none == b - none
  }

  /** No `anyOf` list meets what is asked for anyway, and those there are agree on what is not ruled out. */
  predicate NoneMeets(parts: seq<Features>) {
    && (forall i :: 0 <= i < |parts| ==> AnyOf(parts[i]) * AllOfAll(parts) == {})
    && forall i, j :: 0 <= i < |parts| && 0 <= j < |parts| ==> Alike(AnyOf(parts[i]), AnyOf(parts[j]), NoneOfAll(parts))
  }

  /** `allOf` and `noneOf` clash, or every `anyOf` list meets the united `allOf`, or none does and they are alike. */
  predicate AllAnyOfsAgree(parts: seq<Features>) {
    !(AllOfAll(parts) !! NoneOfAll(parts)) || EachMet(parts, AllOfAll(parts)) || NoneMeets(parts)
  }

  lemma PartOfUnited(parts: seq<Features>, i: nat, has: set<string>)
    requires i < |parts|
    ensures AnyOf(parts[i]) <= AnyOfAll(parts) && AnyOf(parts[i]) * has <= AnyOfAll(parts) * has
  {
    forall x | x in AnyOf(parts[i]) ensures x in AnyOfAll(parts) {
      InAnyOfAll(parts, x);
    }
  }

  /** If the lists agree, a feature of one that a document has makes it meet every other. */
  lemma OneMeetsAll(parts: seq<Features>, has: set<string>, k: nat, x: string, i: nat)
    requires AllAnyOfsAgree(parts) && Holds(parts, has) && k < |parts| && i < |parts| && x in AnyOf(parts[k]) && x in has
    ensures Met(AnyOf(parts[i]), has)
  {
    assert AllOfAll(parts) !! NoneOfAll(parts);
    if EachMet(parts, AllOfAll(parts)) {
      assert Met(AnyOf(parts[i]), AllOfAll(parts));
      assert AnyOf(parts[i]) * AllOfAll(parts) <= AnyOf(parts[i]) * has;
    } else {
      assert Alike(AnyOf(parts[k]), AnyOf(parts[i]), NoneOfAll(parts));
      assert x in AnyOf(parts[k]) - NoneOfAll(parts);
      assert AnyOf(parts[i]) != {} ==> x in AnyOf(parts[i]) * has;
    }
  }

  lemma AgreeingMeetAll(parts: seq<Features>, has: set<string>)
    requires AllAnyOfsAgree(parts) && Holds(parts, has)
    ensures Met(AnyOfAll(parts), has) <==> EachMet(parts, has)
  {
    if x :| x in AnyOfAll(parts) && x in has {
      InAnyOfAll(parts, x);
      var k :| 0 <= k < |parts| && x in AnyOf(parts[k]);
      forall i | 0 <= i < |parts| ensures Met(AnyOf(parts[i]), has) {
        OneMeetsAll(parts, has, k, x, i);
      }
    } else if x :| x in AnyOfAll(parts) {
      InAnyOfAll(parts, x);
      var k :| 0 <= k < |parts| && x in AnyOf(parts[k]);
      PartOfUnited(parts, k, has);
      assert !Met(AnyOf(parts[k]), has);
    } else {
      forall i | 0 <= i < |parts| ensures AnyOf(parts[i]) == {} {
        PartOfUnited(parts, i, has);
      }
    }
  }

  lemma AgreeingIntersect(start: Features, canvases: seq<CanvasSpec>, has: set<string>)
    requires AllAnyOfsAgree(Parts(start, canvases))
    ensures Admits(FoldedFeatures(start, canvases), has) <==> EachAdmits(Parts(start, canvases), has)
  {
    FoldedMeans(start, canvases, has);
    EachAdmitsMeans(Parts(start, canvases), has);
    if Holds(Parts(start, canvases), has) {
      AgreeingMeetAll(Parts(start, canvases), has);
    }
  }

  /** A document that meets one list and not another is let through by the fold, and not by every part. */
  lemma ToldApart(start: Features, canvases: seq<CanvasSpec>, has: set<string>, i: nat, j: nat)
    requires var parts := Parts(start, canvases);
             && i < |parts| && j < |parts| && Holds(parts, has)
             && AnyOf(parts[i]) * has != {} && !Met(AnyOf(parts[j]), has)
    ensures Admits(FoldedFeatures(start, canvases), has) && !EachAdmits(Parts(start, canvases), has)
  {
    FoldedMeans(start, canvases, has);
    PartOfUnited(Parts(start, canvases), i, has);
    assert !Admits(Parts(start, canvases)[j], has);
  }

  lemma DifferOutside(start: Features, canvases: seq<CanvasSpec>, a: nat, b: nat, z: string)
    requires var parts := Parts(start, canvases);
             && a < |parts| && b < |parts| && AllOfAll(parts) !! NoneOfAll(parts)
             && z in AnyOf(parts[a]) && z !in NoneOfAll(parts) && z !in AnyOf(parts[b])
             && AnyOf(parts[b]) != {} && AnyOf(parts[b]) * AllOfAll(parts) == {}
    ensures exists has :: !(Admits(FoldedFeatures(start, canvases), has) <==> EachAdmits(Parts(start, canvases), has))
  {
    var parts := Parts(start, canvases);
    var has := AllOfAll(parts) + {z};
    assert z in AnyOf(parts[a]) * has;
    assert AnyOf(parts[b]) * has == AnyOf(parts[b]) * AllOfAll(parts);
    ToldApart(start, canvases, has, a, b);
  }

  /** Lists that do not agree: one meets what is asked for and one does not, or two differ on what is not ruled out. */
  lemma Disagreeing(parts: seq<Features>) returns (a: nat, b: nat)
    requires !AllAnyOfsAgree(parts)
    ensures a < |parts| && b < |parts| && AnyOf(parts[b]) != {} && AnyOf(parts[b]) * AllOfAll(parts) == {}
    ensures AnyOf(parts[a]) * AllOfAll(parts) != {}
            || (AnyOf(parts[a]) * AllOfAll(parts) == {} && !Alike(AnyOf(parts[a]), AnyOf(parts[b]), NoneOfAll(parts)))
  {
    b :| 0 <= b < |parts| && !Met(AnyOf(parts[b]), AllOfAll(parts));
    if i :| 0 <= i < |parts| && AnyOf(parts[i]) * AllOfAll(parts) != {} {
      a := i;
    } else {
      a, b :| 0 <= a < |parts| && 0 <= b < |parts| && !Alike(AnyOf(parts[a]), AnyOf(parts[b]), NoneOfAll(parts));
    }
  }

  lemma DisagreeingDiffer(start: Features, canvases: seq<CanvasSpec>)
    requires !AllAnyOfsAgree(Parts(start, canvases))
    ensures exists has :: !(Admits(FoldedFeatures(start, canvases), has) <==> EachAdmits(Parts(start, canvases), has))
  {
    var parts := Parts(start, canvases);
    var a, b := Disagreeing(parts);
    if AnyOf(parts[a]) * AllOfAll(parts) != {} {
      ToldApart(start, canvases, AllOfAll(parts), a, b);
    } else {
      var x, y := AnyOf(parts[a]) - NoneOfAll(parts), AnyOf(parts[b]) - NoneOfAll(parts);
      if z :| z in x && z !in y {
        DifferOutside(start, canvases, a, b, z);
      } else {
        var z :| z in y && z !in x;
        DifferOutside(start, canvases, b, a, z);
      }
    }
  }

  /** For any number of canvases the fold is the intersection for every document exactly if all `anyOf` lists agree. */
  lemma FeaturesIntersect(start: Features, canvases: seq<CanvasSpec>)
    ensures (forall has :: Admits(FoldedFeatures(start, canvases), has) <==> EachAdmits(Parts(start, canvases), has))
            <==> AllAnyOfsAgree(Parts(start, canvases))
  {
    if AllAnyOfsAgree(Parts(start, canvases)) {
      forall has ensures Admits(FoldedFeatures(start, canvases), has) <==> EachAdmits(Parts(start, canvases), has) {
        AgreeingIntersect(start, canvases, has);
      }
    } else {
      DisagreeingDiffer(start, canvases);
    }
  }

  /** One canvas. */
  lemma FoldedOne(a: Features, b: Features)
    ensures var canvases := [CanvasSpec(b, None, None, None)];
            FoldedFeatures(a, canvases) == ComposedFeatures(a, b) && Parts(a, canvases) == [a, b]
  {
    var canvas := CanvasSpec(b, None, None, None);
    assert [canvas][..0] == [];
    assert Parts(a, [canvas]) == Parts(a, []) + [b] && [a] + [b] == [a, b];
  }

  lemma BothAdmit(a: Features, b: Features, has: set<string>)
    ensures EachAdmits([a, b], has) <==> Admits(a, has) && Admits(b, has)
  {
    assert [a, b][0] == a && [a, b][1] == b;
  }

  /** So folding two constraints gives their intersection for every document exactly if their `anyOf` lists agree. */
  lemma PairIsIntersection(a: Features, b: Features)
    ensures (forall has :: Admits(ComposedFeatures(a, b), has) <==> Admits(a, has) && Admits(b, has)) <==> AllAnyOfsAgree([a, b])
  {
    FoldedOne(a, b);
    FeaturesIntersect(a, [CanvasSpec(b, None, None, None)]);
    forall has ensures EachAdmits([a, b], has) <==> Admits(a, has) && Admits(b, has) {
      BothAdmit(a, b, has);
    }
  }

  /** So a canvas can let a read have documents that its own constraint keeps out. */
  lemma CanvasCanWiden(a: string, b: string)
    requires a != b
    ensures Admits(ComposedFeatures(List([a]), List([b])), {b}) && !Admits(List([a]), {b})
  {
    ComposedMeans(List([a]), List([b]));
    assert Items(Some([a])) == {a} && Items(Some([b])) == {b};
    assert b in ({a} + {b}) * {b};
    assert {a} * {b} == {};
  }

  /** Of the read and its canvases at most one has an `anyOf` list. */
  predicate OneAnyOf(parts: seq<Features>) {
    forall i, j :: 0 <= i < j < |parts| ==> AnyOf(parts[i]) == {} || AnyOf(parts[j]) == {}
  }

  /** One list, or none, agrees with itself. */
  lemma OneAnyOfAgrees(parts: seq<Features>)
    requires OneAnyOf(parts)
    ensures AllAnyOfsAgree(parts)
  {
    if k :| 0 <= k < |parts| && !Met(AnyOf(parts[k]), AllOfAll(parts)) {
      assert forall i :: 0 <= i < |parts| && i != k ==> AnyOf(parts[i]) == {};
    }
  }

  /** So with at most one `anyOf` list a read admits exactly what it and every canvas would admit. */
  lemma OneAnyOfIntersects(start: Features, canvases: seq<CanvasSpec>, has: set<string>)
    requires OneAnyOf(Parts(start, canvases))
    ensures Admits(FoldedFeatures(start, canvases), has) <==> EachAdmits(Parts(start, canvases), has)
  {
    OneAnyOfAgrees(Parts(start, canvases));
    FeaturesIntersect(start, canvases);
  }

  lemma {:induction false} FiltersMean(start: seq<string>, canvases: seq<CanvasSpec>, met: set<string>)
    ensures (forall f :: f in FoldedFilters(start, canvases) ==> f in met)
            <==> (forall f :: f in start ==> f in met)
                 && forall i, f :: 0 <= i < |canvases| && f in Listed(canvases[i].filters) ==> f in met
  {
    if canvases != [] {
      var init, last := canvases[..|canvases| - 1], canvases[|canvases| - 1];
      FiltersMean(start, init, met);
      DistinctSame(FoldedFilters(start, init) + Listed(last.filters));
    }
  }

  // ---- Both scopes of a read ----

  /** One canvas more, after two lists of them. */
  lemma OneMoreOfTwo(a: seq<CanvasSpec>, rest: seq<CanvasSpec>, last: CanvasSpec)
    ensures a + (rest + [last]) == (a + rest) + [last]
  {
  }

  lemma LastCanvas(canvases: seq<CanvasSpec>)
    requires canvases != []
    ensures canvases == canvases[..|canvases| - 1] + [canvases[|canvases| - 1]]
  {
  }

  lemma FeaturesStep(start: Features, rest: seq<CanvasSpec>, last: CanvasSpec)
    ensures FoldedFeatures(start, rest + [last]) == ComposedFeatures(FoldedFeatures(start, rest), last.features)
  {
    assert (rest + [last])[..|rest|] == rest;
  }

  lemma FiltersStep(start: seq<string>, rest: seq<CanvasSpec>, last: CanvasSpec)
    ensures FoldedFilters(start, rest + [last]) == ComposedFilters(FoldedFilters(start, rest), last.filters)
  {
    assert (rest + [last])[..|rest|] == rest;
  }

  lemma QueryStep(start: Option<string>, rest: seq<CanvasSpec>, last: CanvasSpec)
    ensures FoldedQuery(start, rest + [last]) == ComposedQuery(FoldedQuery(start, rest), last.query)
  {
    assert (rest + [last])[..|rest|] == rest;
  }

  lemma {:induction false} FeaturesInTwo(start: Features, a: seq<CanvasSpec>, b: seq<CanvasSpec>)
    ensures FoldedFeatures(FoldedFeatures(start, a), b) == FoldedFeatures(start, a + b)
  {
    if b == [] {
      assert a + b == a;
    } else {
      var rest, last := b[..|b| - 1], b[|b| - 1];
      FeaturesInTwo(start, a, rest);
      LastCanvas(b);
      OneMoreOfTwo(a, rest, last);
      FeaturesStep(FoldedFeatures(start, a), rest, last);
      FeaturesStep(start, a + rest, last);
    }
  }

  lemma {:induction false} FiltersInTwo(start: seq<string>, a: seq<CanvasSpec>, b: seq<CanvasSpec>)
    ensures FoldedFilters(FoldedFilters(start, a), b) == FoldedFilters(start, a + b)
  {
    if b == [] {
      assert a + b == a;
    } else {
      var rest, last := b[..|b| - 1], b[|b| - 1];
      FiltersInTwo(start, a, rest);
      LastCanvas(b);
      OneMoreOfTwo(a, rest, last);
      FiltersStep(FoldedFilters(start, a), rest, last);
      FiltersStep(start, a + rest, last);
    }
  }

  lemma {:induction false} QueryInTwo(start: Option<string>, a: seq<CanvasSpec>, b: seq<CanvasSpec>)
    ensures FoldedQuery(FoldedQuery(start, a), b) == FoldedQuery(start, a + b)
  {
    if b == [] {
      assert a + b == a;
    } else {
      var rest, last := b[..|b| - 1], b[|b| - 1];
      QueryInTwo(start, a, rest);
      LastCanvas(b);
      OneMoreOfTwo(a, rest, last);
      QueryStep(FoldedQuery(start, a), rest, last);
      QueryStep(start, a + rest, last);
    }
  }

  /** Only the words of a query matter to what is folded into it. */
  lemma {:induction false} WordsDecide(p: Option<string>, q: Option<string>, canvases: seq<CanvasSpec>)
    requires Words(p) == Words(q) && canvases != []
    ensures FoldedQuery(p, canvases) == FoldedQuery(q, canvases)
  {
    if |canvases| > 1 {
      WordsDecide(p, q, canvases[..|canvases| - 1]);
    }
  }

  lemma ComposedQueryWords(caller: Option<string>, canvas: Option<string>)
    ensures var q := ComposedQuery(caller, canvas);
            q != Some("") && (q == None ==> Words(caller) == "") && (q.Some? ==> Words(q) != "")
  {
    var a, b := Words(caller), Words(canvas);
    if caller.Some? {
      Text.TrimFacts(caller.value);
    }
    if canvas.Some? {
      Text.TrimFacts(canvas.value);
    }
    Text.TrimFacts(a);
    Text.TrimFacts(b);
    Text.TrimFacts(b + " " + a);
  }

  lemma {:induction false} NoQueryNoWords(q: Option<string>, canvases: seq<CanvasSpec>)
    requires canvases != []
    ensures var f := FoldedQuery(q, canvases);
            f != Some("") && (f == None ==> Words(q) == "") && (f.Some? ==> Words(f) != "")
  {
    var init, last := canvases[..|canvases| - 1], canvases[|canvases| - 1];
    ComposedQueryWords(FoldedQuery(q, init), last.query);
    if init != [] {
      NoQueryNoWords(q, init);
    }
  }

  /** The query a fold leaves in the read. */
  function LeftQuery(query: Option<string>, canvases: seq<CanvasSpec>): Option<string> {
    var folded := FoldedQuery(query, canvases);
    if folded.Some? && folded.value != "" then folded else query
  }

  lemma QueriesInTwo(spec: Spec, a: seq<CanvasSpec>, b: seq<CanvasSpec>)
    ensures LeftQuery(LeftQuery(spec.query, a), b) == LeftQuery(spec.query, a + b)
  {
    QueryInTwo(spec.query, a, b);
    if a == [] {
      assert a + b == b;
    } else {
      NoQueryNoWords(spec.query, a);
      if b == [] {
        assert a + b == a;
      } else {
        NoQueryNoWords(FoldedQuery(spec.query, a), b);
        if FoldedQuery(spec.query, a) == None {
          WordsDecide(spec.query, None, b);
        }
      }
    }
  }

  lemma FoldedQueryLeft(spec: Spec, canvases: seq<CanvasSpec>)
    ensures Folded(spec, canvases).query == LeftQuery(spec.query, canvases)
    ensures Folded(spec, canvases).features == FoldedFeatures(spec.features, canvases)
    ensures Folded(spec, canvases).filters == FoldedFilters(spec.filters, canvases)
  {
  }

  /** Folding the context canvases and then the directory canvases selects and searches as folding them all. */
  lemma TwoScopesFold(spec: Spec, context: seq<CanvasSpec>, directory: seq<CanvasSpec>)
    ensures var both, all := Folded(Folded(spec, context), directory), Folded(spec, context + directory);
            both.features == all.features && both.filters == all.filters && both.query == all.query
  {
    FoldedQueryLeft(spec, context);
    FoldedQueryLeft(Folded(spec, context), directory);
    FoldedQueryLeft(spec, context + directory);
    FeaturesInTwo(spec.features, context, directory);
    FiltersInTwo(spec.filters, context, directory);
    QueriesInTwo(spec, context, directory);
  }

  lemma {:induction false} SortHasField(canvases: seq<CanvasSpec>)
    ensures FoldedSort(canvases).Some? ==> FoldedSort(canvases).value.field != ""
  {
    if canvases != [] {
      SortHasField(canvases[..|canvases| - 1]);
    }
  }

  /** The sort is not the last one saved: any saved sort of a context canvas wins over those of the directory canvases. */
  lemma ContextSortWins(spec: Spec, context: seq<CanvasSpec>, directory: seq<CanvasSpec>)
    ensures var both, one := Folded(Folded(spec, context), directory),
                             if FoldedSort(context).Some? then Folded(spec, context) else Folded(spec, directory);
            both.sortBy == one.sortBy && both.order == one.order
  {
    SortHasField(context);
    SortHasField(directory);
  }

  predicate FiltersMet(start: seq<string>, canvases: seq<CanvasSpec>, met: set<string>) {
    (forall f :: f in start ==> f in met)
    && forall i, f :: 0 <= i < |canvases| && f in Listed(canvases[i].filters) ==> f in met
  }

  /**
   A read selects, for every document, what it and every canvas it ends on in either tree would select, exactly if
   their `anyOf` lists agree.
   */
  lemma ReadIsIntersection(spec: Spec, context: seq<CanvasSpec>, directory: seq<CanvasSpec>)
    ensures var out, canvases := Folded(Folded(spec, context), directory), context + directory;
            (forall has, met :: Selects(out.features, out.filters, has, met)
                                <==> EachAdmits(Parts(spec.features, canvases), has) && FiltersMet(spec.filters, canvases, met))
            <==> AllAnyOfsAgree(Parts(spec.features, canvases))
  {
    var out, canvases := Folded(Folded(spec, context), directory), context + directory;
    TwoScopesFold(spec, context, directory);
    FoldedQueryLeft(spec, canvases);
    SelectsIntersection(spec.features, spec.filters, canvases);
  }

  lemma SelectsIntersection(start: Features, filters: seq<string>, canvases: seq<CanvasSpec>)
    ensures (forall has, met :: Selects(FoldedFeatures(start, canvases), FoldedFilters(filters, canvases), has, met)
                                <==> EachAdmits(Parts(start, canvases), has) && FiltersMet(filters, canvases, met))
            <==> AllAnyOfsAgree(Parts(start, canvases))
  {
    var folded, all := FoldedFeatures(start, canvases), FoldedFilters(filters, canvases);
    FeaturesIntersect(start, canvases);
    forall met ensures (forall f :: f in all ==> f in met) <==> FiltersMet(filters, canvases, met) {
      FiltersMean(filters, canvases, met);
    }
    if !AllAnyOfsAgree(Parts(start, canvases)) {
      var has :| !(Admits(folded, has) <==> EachAdmits(Parts(start, canvases), has));
      var met := set f | f in all;
      assert FiltersMet(filters, canvases, met);
      assert !(Selects(folded, all, has, met) <==> EachAdmits(Parts(start, canvases), has) && FiltersMet(filters, canvases, met));
    }
  }

  // ---- Folding a canvas again ----

  lemma {:induction false} PartAt(start: Features, canvases: seq<CanvasSpec>, i: nat)
    requires i < |canvases|
    ensures |Parts(start, canvases)| == |canvases| + 1 && Parts(start, canvases)[i + 1] == canvases[i].features
  {
    PartsLength(start, canvases[..|canvases| - 1]);
    if i < |canvases| - 1 {
      PartAt(start, canvases[..|canvases| - 1], i);
    }
  }

  lemma {:induction false} PartsLength(start: Features, canvases: seq<CanvasSpec>)
    ensures |Parts(start, canvases)| == |canvases| + 1
  {
    if canvases != [] {
      PartsLength(start, canvases[..|canvases| - 1]);
    }
  }

  lemma FoldedIncludes(start: Features, canvases: seq<CanvasSpec>, i: nat)
    requires i < |canvases|
    ensures var all, one := FoldedFeatures(start, canvases), canvases[i].features;
            AllOf(one) <= AllOf(all) && AnyOf(one) <= AnyOf(all) && NoneOf(one) <= NoneOf(all)
  {
    var parts, one := Parts(start, canvases), canvases[i].features;
    FoldedUnites(start, canvases);
    PartAt(start, canvases, i);
    forall x | x in AllOf(one) ensures x in AllOfAll(parts) {
      InAllOfAll(parts, x);
    }
    forall x | x in AnyOf(one) ensures x in AnyOfAll(parts) {
      InAnyOfAll(parts, x);
    }
    forall x | x in NoneOf(one) ensures x in NoneOfAll(parts) {
      InNoneOfAll(parts, x);
    }
  }

  lemma {:induction false} DistinctAbsorbs(s: seq<string>, t: seq<string>)
    requires forall x :: x in t ==> x in s
    ensures Distinct(s + t) == Distinct(s)
  {
    if t == [] {
      assert s + t == s;
    } else {
      var init, last := t[..|t| - 1], t[|t| - 1];
      assert (s + t)[..|s + t| - 1] == s + init;
      assert last in s + init;
      DistinctAbsorbs(s, init);
    }
  }

  lemma {:induction false} DistinctTwice(s: seq<string>)
    ensures Distinct(Distinct(s)) == Distinct(s)
  {
    if s != [] {
      var init, last := s[..|s| - 1], s[|s| - 1];
      DistinctTwice(init);
      DistinctSame(init);
      if last !in init {
        assert (Distinct(init) + [last])[..|Distinct(init)|] == Distinct(init);
      }
    }
  }

  /** A canvas whose features are in already changes nothing by being folded in again, and nor do its filters. */
  lemma FoldingAgainChangesNothing(start: Features, canvases: seq<CanvasSpec>, i: nat, has: set<string>, filters: seq<string>)
    requires i < |canvases|
    ensures Admits(ComposedFeatures(FoldedFeatures(start, canvases), canvases[i].features), has)
            <==> Admits(FoldedFeatures(start, canvases), has)
    ensures ComposedFilters(FoldedFilters(filters, canvases), canvases[i].filters) == FoldedFilters(filters, canvases)
  {
    var all, one := FoldedFeatures(start, canvases), canvases[i].features;
    FoldedIncludes(start, canvases, i);
    ComposedMeans(all, one);
    assert AllOf(all) + AllOf(one) == AllOf(all) && AnyOf(all) + AnyOf(one) == AnyOf(all);
    assert NoneOf(all) + NoneOf(one) == NoneOf(all);
    FoldedFiltersInclude(filters, canvases, i);
    DistinctAbsorbs(FoldedFilters(filters, canvases), Listed(canvases[i].filters));
    var init, last := canvases[..|canvases| - 1], canvases[|canvases| - 1];
    DistinctTwice(FoldedFilters(filters, init) + Listed(last.filters));
  }

  lemma {:induction false} FoldedFiltersInclude(filters: seq<string>, canvases: seq<CanvasSpec>, i: nat)
    requires i < |canvases|
    ensures forall f :: f in Listed(canvases[i].filters) ==> f in FoldedFilters(filters, canvases)
  {
    var init, last := canvases[..|canvases| - 1], canvases[|canvases| - 1];
    DistinctSame(FoldedFilters(filters, init) + Listed(last.filters));
    if i < |init| {
      FoldedFiltersInclude(filters, init, i);
    }
  }

  /** Its text query does, unless one of the two is blank or they are the same. */
  lemma QueryFoldedTwice(caller: Option<string>, canvas: Option<string>)
    ensures ComposedQuery(ComposedQuery(caller, canvas), canvas) == ComposedQuery(caller, canvas)
            <==> Words(caller) == "" || Words(canvas) == "" || Words(caller) == Words(canvas)
  {
    var a, b := Words(caller), Words(canvas);
    if caller.Some? {
      Text.TrimFacts(caller.value);
    }
    if canvas.Some? {
      Text.TrimFacts(canvas.value);
    }
    Text.TrimFacts(a);
    Text.TrimFacts(b);
    Text.TrimFacts(b + " " + a);
  }

  // ---- The rest of a read ----

  lemma {:induction false} CanvasesInTwo(a: seq<string>, b: seq<string>, leafAt: string -> Option<CanvasSpec>)
    ensures CanvasesAt(a + b, leafAt) == CanvasesAt(a, leafAt) + CanvasesAt(b, leafAt)
  {
    if b == [] {
      assert a + b == a;
    } else {
      CanvasesInTwo(a, b[..|b| - 1], leafAt);
      assert (a + b)[..|a + b| - 1] == a + b[..|b| - 1];
    }
  }

  /** The canvases of a read are those its paths end on, in the order of the paths. */
  lemma CanvasOfPath(before: seq<string>, path: string, after: seq<string>, leafAt: string -> Option<CanvasSpec>)
    ensures CanvasesAt(before + [path] + after, leafAt)
         == CanvasesAt(before, leafAt) + (if leafAt(path).Some? then [leafAt(path).value] else []) + CanvasesAt(after, leafAt)
  {
    CanvasesInTwo(before + [path], after, leafAt);
    CanvasesInTwo(before, [path], leafAt);
    assert [path][..0] == [];
  }

  /** One text query is trimmed; of two different ones the canvas's comes first. */
  lemma QueryComposes(caller: string, canvas: string)
    ensures Text.Trim(caller) == "" && Text.Trim(canvas) == "" ==> ComposedQuery(Some(caller), Some(canvas)) == None
    ensures Text.Trim(caller) != "" && Text.Trim(canvas) in ["", Text.Trim(caller)] ==>
              ComposedQuery(Some(caller), Some(canvas)) == Some(Text.Trim(caller))
    ensures Text.Trim(caller) == "" && Text.Trim(canvas) != "" ==> ComposedQuery(Some(caller), Some(canvas)) == Some(Text.Trim(canvas))
    ensures Text.Trim(caller) != "" && Text.Trim(canvas) !in ["", Text.Trim(caller)] ==>
              ComposedQuery(Some(caller), Some(canvas)) == Some(Text.Trim(canvas) + " " + Text.Trim(caller))
    ensures ComposedQuery(None, Some(canvas)) == ComposedQuery(Some(""), Some(canvas))
    ensures ComposedQuery(Some(caller), None) == ComposedQuery(Some(caller), Some(""))
  {
    Text.TrimFacts("");
  }

  /** The read's query after one canvas. */
  lemma OneCanvasQuery(spec: Spec, canvas: CanvasSpec)
    ensures var query := ComposedQuery(spec.query, canvas.query);
            Folded(spec, [canvas]).query == if query.Some? then query else spec.query
  {
    QueryStep(spec.query, [], canvas);
    assert [] + [canvas] == [canvas];
    ComposedQueryWords(spec.query, canvas.query);
  }

  predicate SavesSort(canvas: CanvasSpec) { canvas.sort.Some? && canvas.sort.value.field != "" }

  /** The last canvas with a saved sort decides it. */
  lemma {:induction false} LastSortDecides(canvases: seq<CanvasSpec>)
    ensures FoldedSort(canvases).None? <==> forall i :: 0 <= i < |canvases| ==> !SavesSort(canvases[i])
    ensures FoldedSort(canvases).Some? ==>
              exists i :: 0 <= i < |canvases| && SavesSort(canvases[i]) && FoldedSort(canvases) == canvases[i].sort
                          && forall j :: i < j < |canvases| ==> !SavesSort(canvases[j])
  {
    if canvases != [] {
      var n := |canvases| - 1;
      LastSortDecides(canvases[..n]);
      if SavesSort(canvases[n]) {
        assert FoldedSort(canvases) == canvases[n].sort;
      } else if FoldedSort(canvases).Some? {
        var i :| 0 <= i < n && SavesSort(canvases[..n][i]) && FoldedSort(canvases) == canvases[..n][i].sort
                 && forall j :: i < j < n ==> !SavesSort(canvases[..n][j]);
        forall j | i < j < |canvases| ensures !SavesSort(canvases[j]) {
          assert j < n ==> canvases[..n][j] == canvases[j];
        }
        assert canvases[..n][i] == canvases[i];
      }
    }
  }

  /** A read's own sort wins over any saved one; without either it stays; a saved one comes with its order, the read's, or ascending. */
  lemma SortOfRead(spec: Spec, canvases: seq<CanvasSpec>)
    ensures spec.sortBy != "" || FoldedSort(canvases).None? ==>
              Folded(spec, canvases).sortBy == spec.sortBy && Folded(spec, canvases).order == spec.order
    ensures spec.sortBy == "" && FoldedSort(canvases).Some? ==>
              var saved, out := FoldedSort(canvases).value, Folded(spec, canvases);
              && out.sortBy == saved.field
              && (saved.order != "" ==> out.order == saved.order)
              && (saved.order == "" && spec.order != "" ==> out.order == spec.order)
              && (saved.order == "" && spec.order == "" ==> out.order == "asc")
    ensures canvases == [] ==> Folded(spec, canvases) == spec
  {
  }
}
