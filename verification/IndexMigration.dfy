/**
 Migration 001 (scripts/migrate-001-per-user-indexes.js): the two global index files are split into one
 file per user.  Each file write and each rename is one step, and the process may stop between any two.
 */
module IndexMigration {
  import opened Wrappers
  import opened Json
  import opened Naming
  import Text

  type User = string
  type Id = string

  datatype Kind = Workspaces | Contexts

  /** The index file db/users/<user>/<kind>.json. */
  datatype File = File(user: User, kind: Kind)

  type Index = map<Id, Json>

  /** A legacy index: the entries of its object, in order. */
  type Store = seq<(string, Json)>

  datatype Disk = Disk(legacy: map<Kind, Store>, files: map<File, Index>, backups: map<string, Store>, marked: bool)

  datatype Action = Write(file: File, data: Index) | Rename(kind: Kind, suffix: string) | WriteMarker

  // ---- One entry ----

  function SplitKey(key: string): (r: Option<(User, Id)>)
    ensures r.Some? ==> r.value.0 != "" && r.value.1 != "" && '/' !in r.value.0 && key == r.value.0 + "/" + r.value.1
  {
    var slash := Text.IndexOf(key, '/');
    if slash == 0 || slash >= |key| - 1 then None
    else
      assert '/' !in key[..slash];
      Some((key[..slash], key[slash + 1..]))
  }

  lemma SplitKeyOfJoined(user: User, id: Id)
    requires user != "" && id != "" && '/' !in user
    ensures SplitKey(user + "/" + id) == Some((user, id))
  {
    var key := user + "/" + id;
    var slash := Text.IndexOf(key, '/');
    assert forall k :: 0 <= k < |user| ==> key[k] == user[k];
    assert key[|user|] == '/';
    assert slash == |user|;
    assert key[..slash] == user && key[slash + 1..] == id;
  }

  const DEFAULT_HOST := Str("canvas.local")

  function InferOrigin(entry: Fields, usersRoot: string): string {
    if Truthy(Get(entry, "host")) && Get(entry, "host") != Some(DEFAULT_HOST) then "remote"
    else
      match Get(entry, "rootPath")
      case Some(Str(path)) =>
        if path == "" then "local"
        else if usersRoot != "" && usersRoot + "/" <= path then "local"
        else "foreign-local"
      case _ => "local"
  }

  function MigratedEntry(entry: Fields, usersRoot: string): Json {
    var origin := InferOrigin(entry, usersRoot);
    var status := if Get(entry, "status") == Some(Str("active")) then map["status" := Str("inactive")] else map[];
    Obj(entry + status + map[
          "origin" := Str(origin),
          "importedFrom" := OrElse(Get(entry, "importedFrom"), Some(Null)).value,
          "lastScannedAt" := Null,
          "remote" := if origin == "remote" then Obj(map["endpoint" := Null, "authRef" := Null]) else Null])
  }

  /** The fields an array has when it is spread into an object: its items under their positions. */
  function ItemFields(items: seq<Json>): Fields {
    if items == [] then map[] else ItemFields(items[..|items| - 1])[Decimal(|items| - 1) := items[|items| - 1]]
  }

  /** Where an entry of a legacy store goes, if its key is well formed and its value an object or an array. */
  function Target(entry: (string, Json)): Option<(User, Id)> {
    if entry.1.Obj? || entry.1.Arr? then SplitKey(entry.0) else None
  }

  function Migrated(kind: Kind, value: Json, usersRoot: string): Json {
    if kind.Contexts? then value
    else
      match value
      case Obj(fields) => MigratedEntry(fields, usersRoot)
      case Arr(items) => MigratedEntry(ItemFields(items), usersRoot)
      case _ => value
  }

  // ---- What an entry is after it ----

  const SET_BY_MIGRATION := {"status", "origin", "importedFrom", "lastScannedAt", "remote"}

  /** The host is another server's. */
  predicate OnOtherHost(entry: Fields) {
    Truthy(Get(entry, "host")) && Get(entry, "host") != Some(Str("canvas.local"))
  }

  /** The root is a path outside the users' root. */
  predicate OutsideUsers(entry: Fields, usersRoot: string) {
    match Get(entry, "rootPath")
    case Some(Str(path)) => path != "" && !(usersRoot != "" && usersRoot + "/" <= path)
    case _ => false
  }

  /** The entry with every field of its own but five, which the migration sets. */
  ghost predicate IsMigrationOf(entry: Fields, after: Json, usersRoot: string) {
    && after.Obj? && AgreeOutside(entry, after.fields, SET_BY_MIGRATION)
    && (Get(after.fields, "status") == Some(Str("inactive"))
        <==> Get(entry, "status") == Some(Str("active")) || Get(entry, "status") == Some(Str("inactive")))
    && (Get(entry, "status") != Some(Str("active")) ==> Get(after.fields, "status") == Get(entry, "status"))
    && (Get(after.fields, "origin") == Some(Str("remote")) <==> OnOtherHost(entry))
    && (Get(after.fields, "origin") == Some(Str("foreign-local")) <==> !OnOtherHost(entry) && OutsideUsers(entry, usersRoot))
    && (Get(after.fields, "origin") == Some(Str("local")) <==> !OnOtherHost(entry) && !OutsideUsers(entry, usersRoot))
    && Get(after.fields, "importedFrom") == Some(if "importedFrom" in entry then entry["importedFrom"] else Null)
    && Get(after.fields, "lastScannedAt") == Some(Null)
    && Get(after.fields, "remote")
       == Some(if OnOtherHost(entry) then Obj(map["endpoint" := Null, "authRef" := Null]) else Null)
  }

  lemma MigratingKeepsFields(entry: Fields, usersRoot: string)
    ensures IsMigrationOf(entry, MigratedEntry(entry, usersRoot), usersRoot)
  {
    var after := MigratedEntry(entry, usersRoot).fields;
    forall k | k !in SET_BY_MIGRATION ensures (k in entry <==> k in after) && (k in entry && k in after ==> entry[k] == after[k]) {
    }
  }

  /** An array spread into an object has its items under their positions, and no more. */
  lemma {:induction false} ItemsAtPositions(items: seq<Json>)
    ensures forall i :: 0 <= i < |items| ==> Get(ItemFields(items), Decimal(i)) == Some(items[i])
    ensures forall k :: k in ItemFields(items) ==> exists i :: 0 <= i < |items| && k == Decimal(i)
  {
    if items != [] {
      var n := |items| - 1;
      ItemsAtPositions(items[..n]);
      forall i | 0 <= i < n ensures Decimal(i) != Decimal(n) {
        NumberOfDecimal(i);
        NumberOfDecimal(n);
      }
    }
  }

  /** The fields of a legacy value, an object or an array. */
  function OwnFields(value: Json): Fields {
    match value
    case Obj(fields) => fields
    case Arr(items) => ItemFields(items)
    case _ => map[]
  }

  /** What a legacy value lands as: a workspace entry migrated, a context as it was. */
  ghost predicate LandsAs(kind: Kind, value: Json, after: Json, usersRoot: string) {
    match kind
    case Workspaces => IsMigrationOf(OwnFields(value), after, usersRoot)
    case Contexts => after == value
  }

  lemma MigratedLandsAs(kind: Kind, value: Json, usersRoot: string)
    requires value.Obj? || value.Arr?
    ensures LandsAs(kind, value, Migrated(kind, value, usersRoot), usersRoot)
  {
    MigratingKeepsFields(OwnFields(value), usersRoot);
  }

  /** A key is taken apart exactly if it is a user and an id, not empty, with a slash between them. */
  lemma KeyNamesUserAndId(key: string)
    ensures SplitKey(key).Some? <==> exists user, id :: IsKeyOf(key, user, id)
    ensures forall user, id :: IsKeyOf(key, user, id) ==> SplitKey(key) == Some((user, id))
  {
    forall user, id | IsKeyOf(key, user, id) ensures SplitKey(key) == Some((user, id)) {
      SplitKeyOfJoined(user, id);
    }
    if SplitKey(key).Some? {
      assert IsKeyOf(key, SplitKey(key).value.0, SplitKey(key).value.1);
    }
  }

  predicate IsKeyOf(key: string, user: User, id: Id) {
    user != "" && id != "" && '/' !in user && key == user + "/" + id
  }

  // ---- What a run does ----

  /** The files to write, accumulated in memory, with the users in order of first appearance. */
  datatype Buckets = Buckets(order: seq<User>, data: map<File, Index>)

  const NO_BUCKETS := Buckets([], map[])

  function IndexOf(files: map<File, Index>, file: File): Index {
    if file in files then files[file] else map[]
  }

  function Collected(b: Buckets, kind: Kind, entry: (string, Json), usersRoot: string): Buckets {
    match Target(entry)
    case None => b
    case Some((user, id)) =>
      var file := File(user, kind);
      Buckets(if user in b.order then b.order else b.order + [user],
              b.data[file := IndexOf(b.data, file)[id := Migrated(kind, entry.1, usersRoot)]])
  }

  function CollectedAll(b: Buckets, kind: Kind, store: Store, usersRoot: string): Buckets {
    if store == [] then b
    else Collected(CollectedAll(b, kind, store[..|store| - 1], usersRoot), kind, store[|store| - 1], usersRoot)
  }

  function Entries(d: Disk, kind: Kind): Store {
    if kind in d.legacy then d.legacy[kind] else []
  }

  function BucketsOf(d: Disk, usersRoot: string): Buckets {
    CollectedAll(CollectedAll(NO_BUCKETS, Workspaces, Entries(d, Workspaces), usersRoot), Contexts, Entries(d, Contexts), usersRoot)
  }

  function FileWrite(b: Buckets, file: File): seq<Action> {
    if IndexOf(b.data, file) != map[] then [Write(file, IndexOf(b.data, file))] else []
  }

  function UserWrites(b: Buckets, user: User): seq<Action> {
    FileWrite(b, File(user, Workspaces)) + FileWrite(b, File(user, Contexts))
  }

  function Writes(b: Buckets, users: seq<User>): seq<Action> {
    if users == [] then [] else Writes(b, users[..|users| - 1]) + UserWrites(b, users[|users| - 1])
  }

  function Renaming(d: Disk, kind: Kind, suffix: string): seq<Action> {
    if kind in d.legacy then [Rename(kind, suffix)] else []
  }

  /** The steps of a run that starts on this disk. */
  function Plan(d: Disk, usersRoot: string, suffix: string): seq<Action> {
    if d.marked || d.legacy == map[] then []
    else
      var b := BucketsOf(d, usersRoot);
      Writes(b, b.order) + Retirement(d, suffix)
  }

  function Retirement(d: Disk, suffix: string): seq<Action> {
    Renaming(d, Workspaces, suffix) + Renaming(d, Contexts, suffix) + [WriteMarker]
  }

  function LegacyName(kind: Kind): string {
    match kind case Workspaces => "workspaces.json" case Contexts => "contexts.json"
  }

  /** A write merges into the file there is, whose entries win. */
  function Applied(d: Disk, a: Action): Disk {
    match a
    case Write(file, data) => d.(files := d.files[file := data + IndexOf(d.files, file)])
    case Rename(kind, suffix) =>
      d.(legacy := d.legacy - {kind}, backups := d.backups[LegacyName(kind) + suffix := Entries(d, kind)])
    case WriteMarker => d.(marked := true)
  }

  function AppliedAll(d: Disk, actions: seq<Action>): Disk {
    if actions == [] then d
    else Applied(AppliedAll(d, actions[..|actions| - 1]), actions[|actions| - 1])
  }

  function Completed(d: Disk, usersRoot: string, suffix: string): Disk {
    AppliedAll(d, Plan(d, usersRoot, suffix))
  }

  /** A run that stops after `steps` steps, or completes. */
  function Attempt(d: Disk, usersRoot: string, suffix: string, steps: nat): Disk {
    var plan := Plan(d, usersRoot, suffix);
    AppliedAll(d, if steps < |plan| then plan[..steps] else plan)
  }

  /** Runs of any dates, each stopped after some number of steps. */
  function Attempts(d: Disk, usersRoot: string, tries: seq<(string, nat)>): Disk
    decreases |tries|
  {
    if tries == [] then d
    else Attempts(Attempt(d, usersRoot, tries[0].0, tries[0].1), usersRoot, tries[1..])
  }

  class Database {
    var disk: Disk
    ghost var trace: seq<Action>  // every step taken, in order

    constructor (disk: Disk)
      ensures this.disk == disk && trace == []
    {
      this.disk := disk;
      trace := [];
    }

    method Perform(a: Action)
      modifies this
      ensures disk == Applied(old(disk), a) && trace == old(trace) + [a]
    {
      disk := Applied(disk, a);
      trace := trace + [a];
    }

    /** The run takes the steps of its plan one by one: stopped anywhere, it has taken a prefix of them. */
    method RunPerUserIndexMigration(usersRoot: string, suffix: string) returns (ran: bool)
      modifies this
      ensures trace == old(trace) + Plan(old(disk), usersRoot, suffix)
      ensures disk == Completed(old(disk), usersRoot, suffix)
      ensures ran == (Plan(old(disk), usersRoot, suffix) != [])
    {
      if disk.marked || disk.legacy == map[] {
        return false;
      }
      ghost var d, before := disk, trace;
      var perUser := Collect(NO_BUCKETS, Workspaces, Entries(disk, Workspaces), usersRoot);
      perUser := Collect(perUser, Contexts, Entries(disk, Contexts), usersRoot);
      WriteUserFiles(perUser);
      WritesTouchFilesOnly(d, perUser, perUser.order);
      Retire(suffix);
      PlanInTwo(d, before, usersRoot, suffix);
      ran := true;
    }

    method WriteUserFiles(perUser: Buckets)
      modifies this
      ensures trace == old(trace) + Writes(perUser, perUser.order)
      ensures disk == AppliedAll(old(disk), Writes(perUser, perUser.order))
    {
      ghost var d, before := disk, trace;
      NoWritesYet(d, before, perUser);
      for i := 0 to |perUser.order|
        invariant trace == before + Writes(perUser, perUser.order[..i])
        invariant disk == AppliedAll(d, Writes(perUser, perUser.order[..i]))
      {
        WriteUser(perUser, perUser.order[i]);
        OneMoreUser(d, before, perUser, perUser.order, i);
      }
      assert perUser.order[..|perUser.order|] == perUser.order;
    }

    method WriteUser(perUser: Buckets, user: User)
      modifies this
      ensures trace == old(trace) + UserWrites(perUser, user)
      ensures disk == AppliedAll(old(disk), UserWrites(perUser, user))
    {
      WriteFile(perUser, File(user, Workspaces));
      WriteFile(perUser, File(user, Contexts));
      AppliedInTwo(old(disk), FileWrite(perUser, File(user, Workspaces)), FileWrite(perUser, File(user, Contexts)));
    }

    method WriteFile(perUser: Buckets, file: File)
      modifies this
      ensures trace == old(trace) + FileWrite(perUser, file)
      ensures disk == AppliedAll(old(disk), FileWrite(perUser, file))
    {
      if IndexOf(perUser.data, file) != map[] {
        Perform(Write(file, IndexOf(perUser.data, file)));
        AppliedOne(old(disk), Write(file, IndexOf(perUser.data, file)));
      }
    }

    method RenameLegacy(kind: Kind, suffix: string)
      modifies this
      ensures trace == old(trace) + Renaming(old(disk), kind, suffix)
      ensures disk == AppliedAll(old(disk), Renaming(old(disk), kind, suffix))
    {
      if kind in disk.legacy {
        Perform(Rename(kind, suffix));
        AppliedOne(old(disk), Rename(kind, suffix));
      }
    }

    method Retire(suffix: string)
      modifies this
      ensures var retire := Retirement(old(disk), suffix);
              trace == old(trace) + retire && disk == AppliedAll(old(disk), retire)
    {
      ghost var d := disk;
      ghost var first, second := Renaming(d, Workspaces, suffix), Renaming(d, Contexts, suffix);
      RenameLegacy(Workspaces, suffix);
      RenamingOneKeepsOther(d, suffix);
      RenameLegacy(Contexts, suffix);
      AppliedInTwo(d, first, second);
      AppliedOne(disk, WriteMarker);
      Perform(WriteMarker);
      AppliedInTwo(d, first + second, [WriteMarker]);
      assert old(trace) + first + second + [WriteMarker] == old(trace) + (first + second + [WriteMarker]);
    }
  }

  lemma PlanInTwo(d: Disk, before: seq<Action>, usersRoot: string, suffix: string)
    requires !d.marked && d.legacy != map[]
    ensures var b := BucketsOf(d, usersRoot);
            var plan := Plan(d, usersRoot, suffix);
            && before + Writes(b, b.order) + Retirement(d, suffix) == before + plan && plan != []
            && AppliedAll(AppliedAll(d, Writes(b, b.order)), Retirement(d, suffix)) == AppliedAll(d, plan)
  {
    var b := BucketsOf(d, usersRoot);
    Joined(before, Writes(b, b.order), Retirement(d, suffix));
    AppliedInTwo(d, Writes(b, b.order), Retirement(d, suffix));
  }

  lemma NoWritesYet(d: Disk, before: seq<Action>, b: Buckets)
    ensures before + Writes(b, b.order[..0]) == before && AppliedAll(d, Writes(b, b.order[..0])) == d
  {
  }

  lemma Joined(a: seq<Action>, b: seq<Action>, c: seq<Action>)
    ensures (a + b) + c == a + (b + c)
  {
  }

  lemma OneMoreUser(d: Disk, before: seq<Action>, b: Buckets, users: seq<User>, i: nat)
    requires i < |users|
    ensures before + Writes(b, users[..i]) + UserWrites(b, users[i]) == before + Writes(b, users[..i + 1])
    ensures AppliedAll(AppliedAll(d, Writes(b, users[..i])), UserWrites(b, users[i])) == AppliedAll(d, Writes(b, users[..i + 1]))
  {
    var done, next := Writes(b, users[..i]), UserWrites(b, users[i]);
    assert Writes(b, users[..i + 1]) == done + next by {
      assert users[..i + 1][..i] == users[..i];
    }
    Joined(before, done, next);
    AppliedInTwo(d, done, next);
  }

  lemma RenamingOneKeepsOther(d: Disk, suffix: string)
    ensures var e := AppliedAll(d, Renaming(d, Workspaces, suffix));
            Renaming(e, Contexts, suffix) == Renaming(d, Contexts, suffix)
  {
    AppliedOne(d, Rename(Workspaces, suffix));
  }

  method Collect(before: Buckets, kind: Kind, store: Store, usersRoot: string) returns (perUser: Buckets)
    ensures perUser == CollectedAll(before, kind, store, usersRoot)
  {
    perUser := before;
    for i := 0 to |store|
      invariant perUser == CollectedAll(before, kind, store[..i], usersRoot)
    {
      assert store[..i + 1][..i] == store[..i];
      perUser := Collected(perUser, kind, store[i], usersRoot);
    }
    assert store[..|store|] == store;
  }

  // ---- Steps in sequence ----

  lemma {:induction false} AppliedInTwo(d: Disk, a: seq<Action>, b: seq<Action>)
    ensures AppliedAll(d, a + b) == AppliedAll(AppliedAll(d, a), b)
  {
    if b == [] {
      assert a + b == a;
    } else {
      assert (a + b)[..|a + b| - 1] == a + b[..|b| - 1];
      AppliedInTwo(d, a, b[..|b| - 1]);
    }
  }

  lemma AppliedOne(d: Disk, a: Action)
    ensures AppliedAll(d, [a]) == Applied(d, a)
  {
    assert [a][..0] == [];
  }

  lemma {:induction false} WritesTouchFilesOnly(d: Disk, b: Buckets, users: seq<User>)
    ensures var e := AppliedAll(d, Writes(b, users)); e == d.(files := e.files)
  {
    if users != [] {
      var rest, user := users[..|users| - 1], users[|users| - 1];
      WritesTouchFilesOnly(d, b, rest);
      var w, c := FileWrite(b, File(user, Workspaces)), FileWrite(b, File(user, Contexts));
      AppliedInTwo(d, Writes(b, rest), UserWrites(b, user));
      var m := AppliedAll(d, Writes(b, rest));
      AppliedInTwo(m, w, c);
      AppliedOne(m, Write(File(user, Workspaces), IndexOf(b.data, File(user, Workspaces))));
      AppliedOne(AppliedAll(m, w), Write(File(user, Contexts), IndexOf(b.data, File(user, Contexts))));
    }
  }

  // ---- Stopping anywhere and starting again ----

  /** What the complete run leaves in one file: its existing entries, and the legacy ones under other ids. */
  function Final(d: Disk, usersRoot: string, file: File): Index {
    if d.marked then IndexOf(d.files, file)
    else IndexOf(BucketsOf(d, usersRoot).data, file) + IndexOf(d.files, file)
  }

  ghost predicate AllFinal(d: Disk, now: Disk, usersRoot: string) {
    forall f :: IndexOf(now.files, f) == Final(d, usersRoot, f)
  }

  /**
   The disks a run started on `d` can leave however it is stopped and restarted: each user file as it was
   or final, and legacy files retired only once all are final.
   */
  ghost predicate Underway(d: Disk, now: Disk, usersRoot: string) {
    && (forall f :: IndexOf(now.files, f) == IndexOf(d.files, f) || IndexOf(now.files, f) == Final(d, usersRoot, f))
    && (d.marked ==> now.marked)
    && (forall k :: k in now.legacy ==> k in d.legacy && now.legacy[k] == d.legacy[k])
    && (now.legacy != d.legacy || now.marked ==> AllFinal(d, now, usersRoot))
  }

  lemma {:induction false} CollectedOrder(b: Buckets, kind: Kind, store: Store, usersRoot: string)
    requires forall f :: f in b.data ==> f.user in b.order
    ensures forall f :: f in CollectedAll(b, kind, store, usersRoot).data ==> f.user in CollectedAll(b, kind, store, usersRoot).order
  {
    if store != [] {
      CollectedOrder(b, kind, store[..|store| - 1], usersRoot);
    }
  }

  /** What is collected for one kind of file depends on the legacy file of that kind only. */
  lemma {:induction false} KindsApart(b: Buckets, c: Buckets, kind: Kind, store: Store, usersRoot: string, f: File)
    requires IndexOf(b.data, f) == IndexOf(c.data, f)
    ensures var b', c' := CollectedAll(b, kind, store, usersRoot), CollectedAll(c, kind, store, usersRoot);
            IndexOf(b'.data, f) == if f.kind == kind then IndexOf(c'.data, f) else IndexOf(b.data, f)
  {
    if store != [] {
      KindsApart(b, c, kind, store[..|store| - 1], usersRoot, f);
    }
  }

  lemma DataOf(d: Disk, usersRoot: string, f: File)
    ensures IndexOf(BucketsOf(d, usersRoot).data, f)
         == IndexOf(CollectedAll(NO_BUCKETS, f.kind, Entries(d, f.kind), usersRoot).data, f)
    ensures f in BucketsOf(d, usersRoot).data ==> f.user in BucketsOf(d, usersRoot).order
  {
    var b := CollectedAll(NO_BUCKETS, Workspaces, Entries(d, Workspaces), usersRoot);
    KindsApart(NO_BUCKETS, NO_BUCKETS, Workspaces, Entries(d, Workspaces), usersRoot, f);
    if f.kind.Contexts? {
      KindsApart(b, NO_BUCKETS, Contexts, Entries(d, Contexts), usersRoot, f);
    } else {
      KindsApart(b, b, Contexts, Entries(d, Contexts), usersRoot, f);
    }
    CollectedOrder(NO_BUCKETS, Workspaces, Entries(d, Workspaces), usersRoot);
    CollectedOrder(b, Contexts, Entries(d, Contexts), usersRoot);
  }

  /** Collecting again later finds, per file, what the first run found or nothing. */
  lemma CollectingAgain(d: Disk, now: Disk, usersRoot: string, f: File)
    requires forall k :: k in now.legacy ==> k in d.legacy && now.legacy[k] == d.legacy[k]
    ensures IndexOf(BucketsOf(now, usersRoot).data, f) == IndexOf(BucketsOf(d, usersRoot).data, f)
         || IndexOf(BucketsOf(now, usersRoot).data, f) == map[]
    ensures f.kind !in now.legacy ==> IndexOf(BucketsOf(now, usersRoot).data, f) == map[]
    ensures f.kind in now.legacy ==> IndexOf(BucketsOf(now, usersRoot).data, f) == IndexOf(BucketsOf(d, usersRoot).data, f)
  {
    DataOf(d, usersRoot, f);
    DataOf(now, usersRoot, f);
  }

  /** One write leaves a run under way, and its file final. */
  lemma WriteKeepsUnderway(d: Disk, now: Disk, usersRoot: string, f: File)
    requires !d.marked && Underway(d, now, usersRoot)
    ensures var next := Applied(now, Write(f, IndexOf(BucketsOf(d, usersRoot).data, f)));
            && Underway(d, next, usersRoot)
            && IndexOf(next.files, f) == Final(d, usersRoot, f)
            && (forall g :: g != f ==> IndexOf(next.files, g) == IndexOf(now.files, g))
  {
    var data := IndexOf(BucketsOf(d, usersRoot).data, f);
    var next := Applied(now, Write(f, data));
    assert data + (data + IndexOf(d.files, f)) == data + IndexOf(d.files, f);
    assert forall g :: g != f ==> IndexOf(next.files, g) == IndexOf(now.files, g);
  }

  lemma FileWriteKeepsUnderway(d: Disk, now: Disk, usersRoot: string, c: Buckets, f: File)
    requires !d.marked && Underway(d, now, usersRoot)
    requires IndexOf(c.data, f) == IndexOf(BucketsOf(d, usersRoot).data, f) || IndexOf(c.data, f) == map[]
    ensures var next := AppliedAll(now, FileWrite(c, f));
            && Underway(d, next, usersRoot)
            && (IndexOf(c.data, f) != map[] ==> IndexOf(next.files, f) == Final(d, usersRoot, f))
            && (forall g :: g != f ==> IndexOf(next.files, g) == IndexOf(now.files, g))
  {
    if IndexOf(c.data, f) != map[] {
      WriteKeepsUnderway(d, now, usersRoot, f);
      AppliedOne(now, Write(f, IndexOf(c.data, f)));
    }
  }

  lemma UserWritesKeepUnderway(d: Disk, now: Disk, usersRoot: string, c: Buckets, user: User, f: File)
    requires !d.marked && Underway(d, now, usersRoot)
    requires forall g :: IndexOf(c.data, g) == IndexOf(BucketsOf(d, usersRoot).data, g) || IndexOf(c.data, g) == map[]
    ensures var next := AppliedAll(now, UserWrites(c, user));
            && Underway(d, next, usersRoot)
            && (f.user == user && IndexOf(c.data, f) != map[] ==> IndexOf(next.files, f) == Final(d, usersRoot, f))
            && (f.user != user ==> IndexOf(next.files, f) == IndexOf(now.files, f))
  {
    var w, x := File(user, Workspaces), File(user, Contexts);
    match f.kind {
      case Workspaces => assert f.user == user ==> f == w;
      case Contexts => assert f.user == user ==> f == x;
    }
    FileWriteKeepsUnderway(d, now, usersRoot, c, w);
    FileWriteKeepsUnderway(d, AppliedAll(now, FileWrite(c, w)), usersRoot, c, x);
    AppliedInTwo(now, FileWrite(c, w), FileWrite(c, x));
  }

  /** After the writes of some users, their files are final. */
  lemma {:induction false} WritesReachFinal(d: Disk, now: Disk, usersRoot: string, c: Buckets, users: seq<User>, f: File)
    requires !d.marked && Underway(d, now, usersRoot)
    requires forall g :: IndexOf(c.data, g) == IndexOf(BucketsOf(d, usersRoot).data, g) || IndexOf(c.data, g) == map[]
    ensures var e := AppliedAll(now, Writes(c, users));
            Underway(d, e, usersRoot)
            && (f.user in users && IndexOf(c.data, f) != map[] ==> IndexOf(e.files, f) == Final(d, usersRoot, f))
  {
    if users != [] {
      var rest, user := users[..|users| - 1], users[|users| - 1];
      WritesReachFinal(d, now, usersRoot, c, rest, f);
      AppliedInTwo(now, Writes(c, rest), UserWrites(c, user));
      UserWritesKeepUnderway(d, AppliedAll(now, Writes(c, rest)), usersRoot, c, user, f);
    }
  }

  ghost predicate IsWriteOf(b: Buckets, a: Action) {
    a.Write? && a.data == IndexOf(b.data, a.file) && a.data != map[]
  }

  lemma {:induction false} PlannedWrites(b: Buckets, users: seq<User>)
    ensures forall a :: a in Writes(b, users) ==> IsWriteOf(b, a)
  {
    if users != [] {
      PlannedWrites(b, users[..|users| - 1]);
    }
  }

  lemma {:induction false} SomeWritesKeepUnderway(d: Disk, now: Disk, usersRoot: string, actions: seq<Action>)
    requires !d.marked && Underway(d, now, usersRoot)
    requires forall a :: a in actions ==> IsWriteOf(BucketsOf(d, usersRoot), a)
    ensures Underway(d, AppliedAll(now, actions), usersRoot)
  {
    if actions != [] {
      var a := actions[|actions| - 1];
      SomeWritesKeepUnderway(d, now, usersRoot, actions[..|actions| - 1]);
      assert IsWriteOf(BucketsOf(d, usersRoot), a);
      WriteKeepsUnderway(d, AppliedAll(now, actions[..|actions| - 1]), usersRoot, a.file);
    }
  }

  lemma RetiringKeepsUnderway(d: Disk, now: Disk, usersRoot: string, a: Action)
    requires Underway(d, now, usersRoot) && AllFinal(d, now, usersRoot) && !a.Write?
    ensures Underway(d, Applied(now, a), usersRoot) && AllFinal(d, Applied(now, a), usersRoot)
  {
    assert forall f :: IndexOf(Applied(now, a).files, f) == IndexOf(now.files, f);
  }

  lemma {:induction false} RetiringAllKeepsUnderway(d: Disk, now: Disk, usersRoot: string, actions: seq<Action>)
    requires Underway(d, now, usersRoot) && AllFinal(d, now, usersRoot) && forall a :: a in actions ==> !a.Write?
    ensures Underway(d, AppliedAll(now, actions), usersRoot) && AllFinal(d, AppliedAll(now, actions), usersRoot)
  {
    if actions != [] {
      RetiringAllKeepsUnderway(d, now, usersRoot, actions[..|actions| - 1]);
      assert !actions[|actions| - 1].Write?;
      RetiringKeepsUnderway(d, AppliedAll(now, actions[..|actions| - 1]), usersRoot, actions[|actions| - 1]);
    }
  }

  lemma CollectingAgainAnywhere(d: Disk, now: Disk, usersRoot: string)
    requires Underway(d, now, usersRoot)
    ensures forall g :: IndexOf(BucketsOf(now, usersRoot).data, g) == IndexOf(BucketsOf(d, usersRoot).data, g)
                     || IndexOf(BucketsOf(now, usersRoot).data, g) == map[]
  {
    forall g ensures IndexOf(BucketsOf(now, usersRoot).data, g) == IndexOf(BucketsOf(d, usersRoot).data, g)
                  || IndexOf(BucketsOf(now, usersRoot).data, g) == map[] {
      CollectingAgain(d, now, usersRoot, g);
    }
  }

  /** A file nothing is collected for any more was final already. */
  lemma UncollectedIsFinal(d: Disk, now: Disk, usersRoot: string, f: File)
    requires !d.marked && Underway(d, now, usersRoot) && IndexOf(BucketsOf(now, usersRoot).data, f) == map[]
    ensures IndexOf(now.files, f) == Final(d, usersRoot, f)
  {
    if IndexOf(BucketsOf(d, usersRoot).data, f) == map[] {
      assert Final(d, usersRoot, f) == IndexOf(d.files, f);
    } else {
      CollectingAgain(d, now, usersRoot, f);
      DataOf(d, usersRoot, f);
      assert now.legacy != d.legacy;
    }
  }

  /** All the writes of a run make a file final, from any disk under way. */
  lemma WritesMakeFinal(d: Disk, now: Disk, usersRoot: string, f: File)
    requires !d.marked && Underway(d, now, usersRoot)
    ensures var c := BucketsOf(now, usersRoot);
            var e := AppliedAll(now, Writes(c, c.order));
            Underway(d, e, usersRoot) && IndexOf(e.files, f) == Final(d, usersRoot, f)
  {
    var c := BucketsOf(now, usersRoot);
    CollectingAgainAnywhere(d, now, usersRoot);
    WritesReachFinal(d, now, usersRoot, c, c.order, f);
    if IndexOf(c.data, f) == map[] {
      UncollectedIsFinal(d, now, usersRoot, f);
      WritesLeaveAlone(now, c, c.order, f);
    } else {
      DataOf(now, usersRoot, f);
    }
  }

  lemma {:induction false} WritesLeaveAlone(now: Disk, c: Buckets, users: seq<User>, f: File)
    requires IndexOf(c.data, f) == map[]
    ensures IndexOf(AppliedAll(now, Writes(c, users)).files, f) == IndexOf(now.files, f)
  {
    if users != [] {
      var rest, user := users[..|users| - 1], users[|users| - 1];
      WritesLeaveAlone(now, c, rest, f);
      var m := AppliedAll(now, Writes(c, rest));
      var w, x := File(user, Workspaces), File(user, Contexts);
      AppliedInTwo(now, Writes(c, rest), UserWrites(c, user));
      AppliedInTwo(m, FileWrite(c, w), FileWrite(c, x));
      AppliedOne(m, Write(w, IndexOf(c.data, w)));
      AppliedOne(AppliedAll(m, FileWrite(c, w)), Write(x, IndexOf(c.data, x)));
    }
  }

  lemma AllWritesMakeFinal(d: Disk, now: Disk, usersRoot: string)
    requires Underway(d, now, usersRoot) && !now.marked
    ensures var c := BucketsOf(now, usersRoot);
            var e := AppliedAll(now, Writes(c, c.order));
            Underway(d, e, usersRoot) && AllFinal(d, e, usersRoot)
  {
    var c := BucketsOf(now, usersRoot);
    var e := AppliedAll(now, Writes(c, c.order));
    forall f ensures Underway(d, e, usersRoot) && IndexOf(e.files, f) == Final(d, usersRoot, f) {
      WritesMakeFinal(d, now, usersRoot, f);
    }
  }

  lemma RetirementWritesNothing(now: Disk, suffix: string)
    ensures forall a :: a in Retirement(now, suffix) ==> !a.Write?
  {
  }

  /** Stopped anywhere after the writes, the files are final. */
  lemma RetiringKeepsFinal(d: Disk, now: Disk, usersRoot: string, suffix: string, steps: nat)
    requires Underway(d, now, usersRoot) && !now.marked && steps <= |Retirement(now, suffix)|
    ensures var c := BucketsOf(now, usersRoot);
            var e := AppliedAll(now, Writes(c, c.order) + Retirement(now, suffix)[..steps]);
            Underway(d, e, usersRoot) && AllFinal(d, e, usersRoot)
  {
    var c := BucketsOf(now, usersRoot);
    var some := Retirement(now, suffix)[..steps];
    RetirementWritesNothing(now, suffix);
    assert forall a :: a in some ==> a in Retirement(now, suffix);
    AllWritesMakeFinal(d, now, usersRoot);
    AppliedInTwo(now, Writes(c, c.order), some);
    RetiringAllKeepsUnderway(d, AppliedAll(now, Writes(c, c.order)), usersRoot, some);
  }

  lemma PlanCut(now: Disk, usersRoot: string, suffix: string, steps: nat)
    requires !now.marked && now.legacy != map[] && steps <= |Plan(now, usersRoot, suffix)|
    ensures var c, retire := BucketsOf(now, usersRoot), Retirement(now, suffix);
            var writes := Writes(c, c.order);
            Plan(now, usersRoot, suffix)[..steps] == if steps <= |writes| then writes[..steps] else writes + retire[..steps - |writes|]
  {
  }

  /** A run to the end makes every file final. */
  lemma CompletedIsFinal(d: Disk, now: Disk, usersRoot: string, suffix: string)
    requires Underway(d, now, usersRoot)
    ensures Underway(d, Completed(now, usersRoot, suffix), usersRoot) && AllFinal(d, Completed(now, usersRoot, suffix), usersRoot)
  {
    if Plan(now, usersRoot, suffix) == [] {
      NothingLeftToDo(d, now, usersRoot, suffix);
    } else {
      var retire := Retirement(now, suffix);
      RetiringKeepsFinal(d, now, usersRoot, suffix, |retire|);
      assert retire[..|retire|] == retire;
    }
  }

  lemma StoppedKeepsUnderway(d: Disk, now: Disk, usersRoot: string, suffix: string, steps: nat)
    requires Underway(d, now, usersRoot) && steps < |Plan(now, usersRoot, suffix)|
    ensures Underway(d, AppliedAll(now, Plan(now, usersRoot, suffix)[..steps]), usersRoot)
  {
    var c := BucketsOf(now, usersRoot);
    var writes := Writes(c, c.order);
    PlanCut(now, usersRoot, suffix, steps);
    if steps <= |writes| {
      PlannedWritesOf(d, now, usersRoot);
      SomeWritesKeepUnderway(d, now, usersRoot, writes[..steps]);
    } else {
      RetiringKeepsFinal(d, now, usersRoot, suffix, steps - |writes|);
    }
  }

  /** A run stopped anywhere is still under way. */
  lemma AttemptKeepsUnderway(d: Disk, now: Disk, usersRoot: string, suffix: string, steps: nat)
    requires Underway(d, now, usersRoot)
    ensures Underway(d, Attempt(now, usersRoot, suffix, steps), usersRoot)
  {
    if steps < |Plan(now, usersRoot, suffix)| {
      StoppedKeepsUnderway(d, now, usersRoot, suffix, steps);
    } else {
      CompletedIsFinal(d, now, usersRoot, suffix);
    }
  }

  lemma PlannedWritesOf(d: Disk, now: Disk, usersRoot: string)
    requires Underway(d, now, usersRoot)
    ensures var c := BucketsOf(now, usersRoot); forall a :: a in Writes(c, c.order) ==> IsWriteOf(BucketsOf(d, usersRoot), a)
  {
    var c := BucketsOf(now, usersRoot);
    PlannedWrites(c, c.order);
    CollectingAgainAnywhere(d, now, usersRoot);
    forall a | a in Writes(c, c.order) ensures IsWriteOf(BucketsOf(d, usersRoot), a) {
      assert IsWriteOf(c, a);
    }
  }

  lemma NothingLeftToDo(d: Disk, now: Disk, usersRoot: string, suffix: string)
    requires Underway(d, now, usersRoot) && Plan(now, usersRoot, suffix) == []
    ensures AllFinal(d, now, usersRoot)
  {
    if !now.marked {
      forall f ensures IndexOf(now.files, f) == Final(d, usersRoot, f) {
        DataOf(now, usersRoot, f);
        UncollectedIsFinal(d, now, usersRoot, f);
      }
    }
  }

  lemma {:induction false} AttemptsKeepUnderway(d: Disk, now: Disk, usersRoot: string, tries: seq<(string, nat)>)
    requires Underway(d, now, usersRoot)
    ensures Underway(d, Attempts(now, usersRoot, tries), usersRoot)
    decreases |tries|
  {
    if tries != [] {
      AttemptKeepsUnderway(d, now, usersRoot, tries[0].0, tries[0].1);
      AttemptsKeepUnderway(d, Attempt(now, usersRoot, tries[0].0, tries[0].1), usersRoot, tries[1..]);
    }
  }

  /**
   However often the migration is stopped between two steps and started again, on whatever dates, the run
   that completes leaves the per-user files one uninterrupted run would have left.
   */
  lemma CrashesDoNotMatter(d: Disk, usersRoot: string, tries: seq<(string, nat)>, suffix: string, other: string, f: File)
    ensures IndexOf(Completed(Attempts(d, usersRoot, tries), usersRoot, suffix).files, f)
         == IndexOf(Completed(d, usersRoot, other).files, f) == Final(d, usersRoot, f)
  {
    AttemptsKeepUnderway(d, d, usersRoot, tries);
    CompletedIsFinal(d, Attempts(d, usersRoot, tries), usersRoot, suffix);
    CompletedIsFinal(d, d, usersRoot, other);
  }

  // ---- Where each entry ends ----

  /** The keys of an object are distinct. */
  predicate DistinctKeys(store: Store) {
    forall i, j :: 0 <= i < j < |store| ==> store[i].0 != store[j].0
  }

  /** One legacy entry's place: in the file of the user its key names, if its value is an object or an array. */
  predicate Lands(store: Store, kind: Kind, i: nat, f: File, id: Id) {
    && i < |store| && f.kind == kind && IsKeyOf(store[i].0, f.user, id) && (store[i].1.Obj? || store[i].1.Arr?)
  }

  lemma LandsAtTarget(store: Store, kind: Kind, i: nat, f: File, id: Id)
    ensures Lands(store, kind, i, f, id) <==> i < |store| && f.kind == kind && Target(store[i]) == Some((f.user, id))
  {
    if i < |store| {
      KeyNamesUserAndId(store[i].0);
      if Target(store[i]) == Some((f.user, id)) {
        assert IsKeyOf(store[i].0, f.user, id);
      }
    }
  }

  lemma LandsLastOrBefore(store: Store, kind: Kind, i: nat, f: File, id: Id)
    requires store != [] && DistinctKeys(store)
    ensures var rest, last := store[..|store| - 1], store[|store| - 1];
            var lastLands := f.kind == kind && Target(last) == Some((f.user, id));
            && (Lands(store, kind, i, f, id) <==> Lands(rest, kind, i, f, id) || (i == |rest| && lastLands))
            && (lastLands ==> !Lands(rest, kind, i, f, id))
  {
    var rest := store[..|store| - 1];
    LandsAtTarget(store, kind, i, f, id);
    LandsAtTarget(store, kind, |rest|, f, id);
    LandsAtTarget(rest, kind, i, f, id);
  }

  lemma {:induction false} CollectedExactly(kind: Kind, store: Store, usersRoot: string, f: File, id: Id)
    requires DistinctKeys(store)
    ensures var data := IndexOf(CollectedAll(NO_BUCKETS, kind, store, usersRoot).data, f);
            && (id in data <==> exists i: nat :: Lands(store, kind, i, f, id))
            && (forall i: nat :: Lands(store, kind, i, f, id) ==> id in data && data[id] == Migrated(kind, store[i].1, usersRoot))
  {
    if store != [] {
      var rest, last := store[..|store| - 1], store[|store| - 1];
      CollectedExactly(kind, rest, usersRoot, f, id);
      forall i: nat ensures Lands(store, kind, i, f, id)
                            <==> Lands(rest, kind, i, f, id) || (i == |rest| && Lands(store, kind, |rest|, f, id)) {
        LandsLastOrBefore(store, kind, i, f, id);
      }
      CollectedLast(kind, store, usersRoot, f, id);
    }
  }

  lemma CollectedLast(kind: Kind, store: Store, usersRoot: string, f: File, id: Id)
    requires store != []
    ensures var before := IndexOf(CollectedAll(NO_BUCKETS, kind, store[..|store| - 1], usersRoot).data, f);
            var after := IndexOf(CollectedAll(NO_BUCKETS, kind, store, usersRoot).data, f);
            if Lands(store, kind, |store| - 1, f, id) then id in after && after[id] == Migrated(kind, store[|store| - 1].1, usersRoot)
            else (id in after <==> id in before) && (id in before ==> after[id] == before[id])
  {
    LandsAtTarget(store, kind, |store| - 1, f, id);
  }

  /**
   Nothing is lost, invented or overwritten: a file's final entries are those it had, unchanged, and the
   legacy entries whose keys name its user, migrated, except where the file had that id already.  A key
   names one user only, so each legacy entry lands in exactly one file.
   */
  lemma EveryEntryLandsOnce(d: Disk, usersRoot: string, f: File, id: Id)
    requires !d.marked && DistinctKeys(Entries(d, f.kind))
    ensures var final := Final(d, usersRoot, f);
            var store := Entries(d, f.kind);
            && (id in IndexOf(d.files, f) ==> id in final && final[id] == IndexOf(d.files, f)[id])
            && (id in final <==> id in IndexOf(d.files, f) || exists i: nat :: Lands(store, f.kind, i, f, id))
            && (forall i: nat :: Lands(store, f.kind, i, f, id) && id !in IndexOf(d.files, f) ==>
                  LandsAs(f.kind, store[i].1, final[id], usersRoot))
            && (forall i: nat, g, id' :: Lands(store, f.kind, i, f, id) && Lands(store, f.kind, i, g, id') ==> f == g && id == id')
  {
    DataOf(d, usersRoot, f);
    var store := Entries(d, f.kind);
    CollectedExactly(f.kind, store, usersRoot, f, id);
    forall i: nat | Lands(store, f.kind, i, f, id) ensures LandsAs(f.kind, store[i].1, Migrated(f.kind, store[i].1, usersRoot), usersRoot) {
      MigratedLandsAs(f.kind, store[i].1, usersRoot);
    }
    forall i: nat, g, id' | Lands(store, f.kind, i, f, id) && Lands(store, f.kind, i, g, id') ensures f == g && id == id' {
      KeyNamesUserAndId(store[i].0);
    }
  }

  lemma RetiredHasNoLegacy(e: Disk, suffix: string)
    ensures var stopped := AppliedAll(e, Renaming(e, Workspaces, suffix) + Renaming(e, Contexts, suffix));
            stopped.legacy == map[] && stopped.marked == e.marked
  {
    var w, c := Renaming(e, Workspaces, suffix), Renaming(e, Contexts, suffix);
    AppliedInTwo(e, w, c);
    AppliedOne(e, Rename(Workspaces, suffix));
    AppliedOne(AppliedAll(e, w), Rename(Contexts, suffix));
    var stopped := AppliedAll(AppliedAll(e, w), c);
    forall k: Kind ensures k !in stopped.legacy {
      match k
      case Workspaces =>
      case Contexts =>
    }
    assert stopped.legacy == map[];
  }

  lemma PlanButMarker(d: Disk, usersRoot: string, suffix: string)
    requires !d.marked && d.legacy != map[]
    ensures var b, plan := BucketsOf(d, usersRoot), Plan(d, usersRoot, suffix);
            && plan != []
            && plan[..|plan| - 1] == Writes(b, b.order) + (Renaming(d, Workspaces, suffix) + Renaming(d, Contexts, suffix))
  {
  }

  /** The marker, though, can be missed: a run stopped just before writing it finds nothing to do next time. */
  lemma MarkerCanBeMissed(d: Disk, usersRoot: string, suffix: string, again: string)
    requires !d.marked && d.legacy != map[]
    ensures var stopped := Attempt(d, usersRoot, suffix, |Plan(d, usersRoot, suffix)| - 1);
            !stopped.marked && Plan(stopped, usersRoot, again) == []
  {
    var b := BucketsOf(d, usersRoot);
    PlanButMarker(d, usersRoot, suffix);
    AppliedInTwo(d, Writes(b, b.order), Renaming(d, Workspaces, suffix) + Renaming(d, Contexts, suffix));
    WritesTouchFilesOnly(d, b, b.order);
    RetiredHasNoLegacy(AppliedAll(d, Writes(b, b.order)), suffix);
  }

  lemma {:induction false} MarkedByMarker(d: Disk, actions: seq<Action>)
    ensures AppliedAll(d, actions).marked <==> d.marked || WriteMarker in actions
  {
    if actions != [] {
      var init, last := actions[..|actions| - 1], actions[|actions| - 1];
      MarkedByMarker(d, init);
      assert actions == init + [last];
    }
  }

  ghost predicate Retires(actions: seq<Action>, kind: Kind) {
    exists i :: 0 <= i < |actions| && actions[i].Rename? && actions[i].kind == kind
  }

  lemma {:induction false} UnretiredStays(d: Disk, actions: seq<Action>, kind: Kind)
    requires kind in d.legacy && !Retires(actions, kind)
    ensures kind in AppliedAll(d, actions).legacy
  {
    if actions != [] {
      var init, last := actions[..|actions| - 1], actions[|actions| - 1];
      assert forall i :: 0 <= i < |init| ==> init[i] == actions[i];
      UnretiredStays(d, init, kind);
    }
  }

  /** The legacy file that is renamed last. */
  function LastKind(d: Disk): Kind { if Contexts in d.legacy then Contexts else Workspaces }

  /** A run stopped before its last rename has neither written the marker nor retired that file. */
  lemma StoppedEarly(d: Disk, usersRoot: string, suffix: string, steps: nat)
    requires !d.marked && d.legacy != map[] && steps + 1 < |Plan(d, usersRoot, suffix)|
    ensures var some := Plan(d, usersRoot, suffix)[..steps]; WriteMarker !in some && !Retires(some, LastKind(d))
  {
    var b, plan := BucketsOf(d, usersRoot), Plan(d, usersRoot, suffix);
    var writes, w, c := Writes(b, b.order), Renaming(d, Workspaces, suffix), Renaming(d, Contexts, suffix);
    PlannedWrites(b, b.order);
    forall i | 0 <= i < steps ensures plan[i] != WriteMarker && !(plan[i].Rename? && plan[i].kind == LastKind(d)) {
      if i < |writes| {
        assert plan[i] in writes;
        assert IsWriteOf(b, plan[i]);
      } else {
        assert plan[i] == (w + c + [WriteMarker])[i - |writes|];
      }
    }
  }

  lemma SomeLegacy(d: Disk)
    requires d.legacy != map[]
    ensures LastKind(d) in d.legacy
  {
    var k :| k in d.legacy;
    match k
    case Workspaces =>
    case Contexts =>
  }

  /** A run that has something to do and is not stopped writes the marker. */
  lemma CompletedMarks(d: Disk, usersRoot: string, suffix: string)
    requires !d.marked && d.legacy != map[]
    ensures Completed(d, usersRoot, suffix).marked
  {
    var plan := Plan(d, usersRoot, suffix);
    PlanButMarker(d, usersRoot, suffix);
    assert plan[|plan| - 1] == WriteMarker;
    MarkedByMarker(d, plan);
  }

  /** A stop that a later run cannot make up for: all files are retired, and only the marker is missing. */
  predicate StopsBeforeMarker(d: Disk, usersRoot: string, suffix: string, steps: nat) {
    Plan(d, usersRoot, suffix) != [] && steps == |Plan(d, usersRoot, suffix)| - 1
  }

  /** Where a stopped run leaves the marker: written, still to be written, or missed for good. */
  lemma StoppedRun(d: Disk, usersRoot: string, suffix: string, steps: nat)
    requires !d.marked && d.legacy != map[]
    ensures var stopped := Attempt(d, usersRoot, suffix, steps);
            if StopsBeforeMarker(d, usersRoot, suffix, steps) then !stopped.marked && stopped.legacy == map[]
            else stopped.marked || stopped.legacy != map[]
  {
    var plan := Plan(d, usersRoot, suffix);
    PlanButMarker(d, usersRoot, suffix);
    if steps + 1 < |plan| {
      StoppedEarly(d, usersRoot, suffix, steps);
      SomeLegacy(d);
      UnretiredStays(d, plan[..steps], LastKind(d));
    } else if steps + 1 == |plan| {
      MarkerCanBeMissed(d, usersRoot, suffix, suffix);
    } else {
      CompletedMarks(d, usersRoot, suffix);
    }
  }

  /** One stop, and then a run to the end: the marker is missing exactly if the stop was right before writing it. */
  lemma MarkerIsMissedExactly(d: Disk, usersRoot: string, suffix: string, steps: nat, again: string)
    requires !d.marked && d.legacy != map[]
    ensures Completed(Attempt(d, usersRoot, suffix, steps), usersRoot, again).marked
            <==> steps != |Plan(d, usersRoot, suffix)| - 1
  {
    var stopped := Attempt(d, usersRoot, suffix, steps);
    PlanButMarker(d, usersRoot, suffix);
    StoppedRun(d, usersRoot, suffix, steps);
    if !stopped.marked && stopped.legacy != map[] {
      CompletedMarks(stopped, usersRoot, again);
    }
  }

  /** Some run of a series, the first that gets that far, stops right before writing the marker. */
  predicate MissesMarker(d: Disk, usersRoot: string, tries: seq<(string, nat)>)
    decreases |tries|
  {
    tries != []
    && (StopsBeforeMarker(d, usersRoot, tries[0].0, tries[0].1)
        || MissesMarker(Attempt(d, usersRoot, tries[0].0, tries[0].1), usersRoot, tries[1..]))
  }

  lemma {:induction false} NothingMoreToDo(d: Disk, usersRoot: string, tries: seq<(string, nat)>)
    requires d.marked || d.legacy == map[]
    ensures Attempts(d, usersRoot, tries) == d && !MissesMarker(d, usersRoot, tries)
    decreases |tries|
  {
    if tries != [] {
      NothingMoreToDo(d, usersRoot, tries[1..]);
    }
  }

  /**
   Over any series of stopped runs and a last one to its end: the marker says that the migration ran exactly if
   there was something to migrate and no run stopped right before writing it.
   */
  lemma {:induction false} MarkerIsWrittenUnlessMissed(d: Disk, usersRoot: string, tries: seq<(string, nat)>, again: string)
    ensures Completed(Attempts(d, usersRoot, tries), usersRoot, again).marked
            <==> d.marked || (d.legacy != map[] && !MissesMarker(d, usersRoot, tries))
    decreases |tries|
  {
    if d.marked || d.legacy == map[] {
      NothingMoreToDo(d, usersRoot, tries);
    } else if tries == [] {
      CompletedMarks(d, usersRoot, again);
    } else {
      StoppedRun(d, usersRoot, tries[0].0, tries[0].1);
      var stopped := Attempt(d, usersRoot, tries[0].0, tries[0].1);
      MarkerIsWrittenUnlessMissed(stopped, usersRoot, tries[1..], again);
      if stopped.marked {
        NothingMoreToDo(stopped, usersRoot, tries[1..]);
      }
    }
  }

  // ---- The legacy files ----

  /** A legacy index is where it was, or under a name of its own with a suffix at the end. */
  ghost predicate Kept(d: Disk, now: Disk, kind: Kind) {
    kind in d.legacy ==>
      (kind in now.legacy && now.legacy[kind] == d.legacy[kind])
      || (kind !in now.legacy && exists suffix :: InBackup(d, now, kind, suffix))
  }

  predicate InBackup(d: Disk, now: Disk, kind: Kind, suffix: string)
    requires kind in d.legacy
  {
    LegacyName(kind) + suffix in now.backups && now.backups[LegacyName(kind) + suffix] == d.legacy[kind]
  }

  /** A step that a run may take here: nothing is renamed that is not there. */
  predicate Possible(now: Disk, a: Action) { a.Rename? ==> a.kind in now.legacy }

  lemma NamesApart(a: string, b: string)
    ensures LegacyName(Workspaces) + a != LegacyName(Contexts) + b
  {
    assert (LegacyName(Workspaces) + a)[0] == 'w' && (LegacyName(Contexts) + b)[0] == 'c';
  }

  lemma StepKeepsLegacy(d: Disk, now: Disk, a: Action, kind: Kind)
    requires Kept(d, now, kind) && Possible(now, a)
    ensures Kept(d, Applied(now, a), kind)
  {
    var after := Applied(now, a);
    if kind in d.legacy && a.Rename? {
      if a.kind == kind {
        assert InBackup(d, after, kind, a.suffix);
      } else if kind !in now.legacy {
        var suffix :| InBackup(d, now, kind, suffix);
        NamesApart(suffix, a.suffix);
        NamesApart(a.suffix, suffix);
        assert InBackup(d, after, kind, suffix);
      }
    } else if kind in d.legacy && kind !in now.legacy {
      var suffix :| InBackup(d, now, kind, suffix);
      assert InBackup(d, after, kind, suffix);
    }
  }

  predicate AllPossible(now: Disk, actions: seq<Action>) {
    forall i :: 0 <= i < |actions| ==> Possible(AppliedAll(now, actions[..i]), actions[i])
  }

  lemma {:induction false} StepsKeepLegacy(d: Disk, now: Disk, actions: seq<Action>, kind: Kind)
    requires Kept(d, now, kind) && AllPossible(now, actions)
    ensures Kept(d, AppliedAll(now, actions), kind)
  {
    if actions != [] {
      var rest := actions[..|actions| - 1];
      forall i | 0 <= i < |rest| ensures Possible(AppliedAll(now, rest[..i]), rest[i]) {
        assert rest[..i] == actions[..i] && rest[i] == actions[i];
      }
      StepsKeepLegacy(d, now, rest, kind);
      StepKeepsLegacy(d, AppliedAll(now, rest), actions[|rest|], kind);
    }
  }

  /** Only legacy files there are get renamed, and none twice. */
  predicate RenamesOnce(now: Disk, actions: seq<Action>) {
    && (forall i :: 0 <= i < |actions| && actions[i].Rename? ==> actions[i].kind in now.legacy)
    && (forall i, j :: 0 <= i < j < |actions| && actions[i].Rename? && actions[j].Rename? ==> actions[i].kind != actions[j].kind)
  }

  lemma OncePossible(now: Disk, actions: seq<Action>)
    requires RenamesOnce(now, actions)
    ensures AllPossible(now, actions)
  {
    forall i | 0 <= i < |actions| ensures Possible(AppliedAll(now, actions[..i]), actions[i]) {
      if actions[i].Rename? {
        assert forall a :: a in actions[..i] && a.Rename? ==> a.kind != actions[i].kind;
        UnretiredStays(now, actions[..i], actions[i].kind);
      }
    }
  }

  lemma PlanRenamesOnce(now: Disk, usersRoot: string, suffix: string)
    ensures RenamesOnce(now, Plan(now, usersRoot, suffix))
  {
    if !now.marked && now.legacy != map[] {
      var b, retire := BucketsOf(now, usersRoot), Retirement(now, suffix);
      var writes, plan := Writes(b, b.order), Plan(now, usersRoot, suffix);
      PlannedWrites(b, b.order);
      assert forall a :: a in writes ==> a.Write?;
      assert forall i :: 0 <= i < |writes| ==> plan[i] == writes[i] && plan[i] in writes;
      assert forall i :: |writes| <= i < |plan| ==> plan[i] == retire[i - |writes|];
      RetirementRenamesOnce(now, suffix);
    }
  }

  lemma RetirementRenamesOnce(now: Disk, suffix: string)
    ensures RenamesOnce(now, Retirement(now, suffix))
  {
  }

  lemma AttemptKeepsLegacy(d: Disk, now: Disk, usersRoot: string, suffix: string, steps: nat, kind: Kind)
    requires Kept(d, now, kind)
    ensures Kept(d, Attempt(now, usersRoot, suffix, steps), kind)
  {
    var plan := Plan(now, usersRoot, suffix);
    var some := if steps < |plan| then plan[..steps] else plan;
    PlanRenamesOnce(now, usersRoot, suffix);
    OncePossible(now, some);
    StepsKeepLegacy(d, now, some, kind);
  }

  /** However often runs are stopped, the content of a legacy index is on disk, in its place or in its backup. */
  lemma {:induction false} LegacyIsKept(d: Disk, now: Disk, usersRoot: string, tries: seq<(string, nat)>, kind: Kind)
    requires Kept(d, now, kind)
    ensures Kept(d, Attempts(now, usersRoot, tries), kind)
    decreases |tries|
  {
    if tries != [] {
      AttemptKeepsLegacy(d, now, usersRoot, tries[0].0, tries[0].1, kind);
      LegacyIsKept(d, Attempt(now, usersRoot, tries[0].0, tries[0].1), usersRoot, tries[1..], kind);
    }
  }

  lemma RetiredByPlan(d: Disk, usersRoot: string, suffix: string)
    requires !d.marked && d.legacy != map[]
    ensures var plan := Plan(d, usersRoot, suffix); plan != [] && AppliedAll(d, plan[..|plan| - 1]).legacy == map[]
  {
    PlanButMarker(d, usersRoot, suffix);
    var b := BucketsOf(d, usersRoot);
    var writes, renames := Writes(b, b.order), Renaming(d, Workspaces, suffix) + Renaming(d, Contexts, suffix);
    AppliedInTwo(d, writes, renames);
    WritesTouchFilesOnly(d, b, b.order);
    RetiredHasNoLegacy(AppliedAll(d, writes), suffix);
  }

  lemma LastIsMarker(d: Disk, usersRoot: string, suffix: string)
    requires !d.marked && d.legacy != map[]
    ensures var plan := Plan(d, usersRoot, suffix); plan != [] && plan[|plan| - 1] == WriteMarker
  {
  }

  lemma MarkingKeepsLegacy(d: Disk, plan: seq<Action>)
    requires plan != [] && plan[|plan| - 1] == WriteMarker
    ensures AppliedAll(d, plan).legacy == AppliedAll(d, plan[..|plan| - 1]).legacy
  {
  }

  /** A run to its end retires every legacy index to its backup, and writes the marker if there was one. */
  lemma CompletedRetires(d: Disk, usersRoot: string, suffix: string, kind: Kind)
    requires !d.marked && kind in d.legacy
    ensures var t := Completed(d, usersRoot, suffix);
            t.marked && t.legacy == map[] && exists name :: InBackup(d, t, kind, name)
  {
    var plan := Plan(d, usersRoot, suffix);
    assert d.legacy != map[];
    CompletedMarks(d, usersRoot, suffix);
    RetiredByPlan(d, usersRoot, suffix);
    LastIsMarker(d, usersRoot, suffix);
    MarkingKeepsLegacy(d, plan);
    AttemptKeepsLegacy(d, d, usersRoot, suffix, |plan|, kind);
  }
}
