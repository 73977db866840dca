/**
 The workspace manager's registry (src/core/workspace/index.js): the per-user stores and the name, id and
 reference indexes kept beside them.  A key or reference is the user, host and name it is spelled from;
 the module References shows that spelling loses nothing.
 */
module WorkspaceRegistry {
  import opened Wrappers
  import opened Naming
  import Text

  type UserId = string
  type WorkspaceId = string
  type Host = string
  type Path = string

  const DEFAULT_HOST: Host := "canvas.local"

  /** `user@host:name`: a key of the name index, and a workspace reference. */
  datatype Key = Key(user: UserId, host: Host, name: string)

  datatype Origin = OnDisk | Remote

  /** Where a remote workspace lives: another server, and its id there. */
  datatype Link = Link(url: string, workspaceId: WorkspaceId)

  datatype Entry = Entry(
    id: WorkspaceId,
    name: string,
    host: Host,
    owner: UserId,
    reference: Option<Key>,
    rootPath: Option<Path>,
    origin: Origin,
    universe: bool,
    importedFrom: Option<UserId>,
    remote: Option<Link>)

  /** A user's entry for a workspace. */
  datatype Slot = Slot(user: UserId, id: WorkspaceId)

  datatype State = State(
    stores: map<Slot, Entry>,
    nameIndex: map<Key, WorkspaceId>,
    idIndex: map<WorkspaceId, UserId>,
    referenceIndex: map<Key, WorkspaceId>)

  datatype Error = Incomplete | NameTaken | DirectoryTaken | NameEmpty | NotFound | NoOwner | NotTransferable

  /** Where a workspace is to be created: a directory that may exist, hold a workspace already, or be wrapped by a home layout. */
  datatype Site = Site(dir: Path, present: bool, holdsWorkspace: bool, homeLayout: bool)

  predicate Refused(site: Site) { site.present && (site.holdsWorkspace || !site.homeLayout) }

  // ---- Names and keys ----

  predicate NameChar(c: char) {
    'a' <= c <= 'z' || '0' <= c <= '9' || c == '-' || c == '_'
  }

  function KeepNameChars(s: string): string {
    if s == "" then "" else (if NameChar(s[0]) then [s[0]] else []) + KeepNameChars(s[1..])
  }

  function Sanitized(name: string): string { KeepNameChars(Text.ToLower(name)) }

  lemma {:induction false} KeptChars(s: string)
    ensures forall c :: c in KeepNameChars(s) ==> NameChar(c)
  {
    if s != "" {
      KeptChars(s[1..]);
    }
  }

  /** A remote name `a@b` is filed under the name `a` on the host `b`. */
  function NameKey(user: UserId, name: string, host: Host): Key {
    var at := Text.LastIndexOf(name, '@');
    if at > 0 then Key(user, name[at + 1..], name[..at]) else Key(user, host, name)
  }

  lemma PlainNameKey(user: UserId, name: string, host: Host)
    requires '@' !in name
    ensures NameKey(user, name, host) == Key(user, host, name)
  {
    assert forall k :: 0 <= k < |name| ==> name[k] != '@';
  }

  lemma RemoteNameKey(user: UserId, name: string, host: Host, other: Host)
    requires name != "" && '@' !in host
    ensures NameKey(user, name + "@" + host, other) == Key(user, host, name)
  {
    var full := name + "@" + host;
    var at := Text.LastIndexOf(full, '@');
    assert full[|name|] == '@';
    assert forall k :: |name| < k < |full| ==> full[k] == host[k - |name| - 1];
    assert at == |name|;
    assert full[..at] == name && full[at + 1..] == host;
  }

  function KeyOf(e: Entry): Key { NameKey(e.owner, e.name, e.host) }

  // ---- The indexes ----

  function AddToIndexes(s: State, user: UserId, id: WorkspaceId, name: string, host: Host, reference: Option<Key>): State {
    s.(nameIndex := s.nameIndex[NameKey(user, name, host) := id],
       idIndex := s.idIndex[id := user],
       referenceIndex := match reference case Some(r) => s.referenceIndex[r := id] case None => s.referenceIndex)
  }

  function RemoveFromIndexes(s: State, e: Entry): State {
    s.(nameIndex := s.nameIndex - {KeyOf(e)},
       idIndex := s.idIndex - {e.id},
       referenceIndex := match e.reference case Some(r) => s.referenceIndex - {r} case None => s.referenceIndex)
  }

  /** Stores an entry and indexes it. */
  function Registered(s: State, e: Entry): State {
    AddToIndexes(s.(stores := s.stores[Slot(e.owner, e.id) := e]), e.owner, e.id, e.name, e.host, e.reference)
  }

  function Dropped(s: State, e: Entry): State {
    RemoveFromIndexes(s.(stores := s.stores - {Slot(e.owner, e.id)}), e)
  }

  /** The entry the id index leads to. */
  function Find(s: State, id: WorkspaceId): Option<Entry> {
    if id in s.idIndex && Slot(s.idIndex[id], id) in s.stores then Some(s.stores[Slot(s.idIndex[id], id)]) else None
  }

  /** The names a user has on a host, under other ids than `id`. */
  function TakenNames(s: State, user: UserId, host: Host, id: WorkspaceId): set<string> {
    set k | k in s.nameIndex && k.user == user && k.host == host && s.nameIndex[k] != id :: k.name
  }

  // ---- Registering a directory ----

  /** A workspace.json found on disk, and what the file system says. */
  datatype Found = Found(id: WorkspaceId, name: string, host: Host, owner: Option<UserId>, universe: bool, dir: Path, present: set<Path>)

  datatype Collision = Free | Same(e: Entry) | Stale(e: Entry) | Duplicate

  /** What the id of a found workspace collides with. */
  function CollisionOf(s: State, user: UserId, f: Found): Collision {
    match Find(s, f.id)
    case None => Free
    case Some(e) =>
      if s.idIndex[f.id] == user && e.rootPath == Some(f.dir) then Same(e)
      else if s.idIndex[f.id] == user && (e.rootPath.None? || e.rootPath.value !in f.present) then Stale(e)
      else Duplicate
  }

  /** The state and the id a found workspace is registered with; `newId` is a new uuid. */
  function Cleared(s: State, user: UserId, f: Found): State {
    match CollisionOf(s, user, f) case Stale(e) => RemoveFromIndexes(s, e) case _ => s
  }

  function IdFor(s: State, user: UserId, f: Found, newId: WorkspaceId): WorkspaceId {
    if CollisionOf(s, user, f).Duplicate? then newId else f.id
  }

  function BaseName(name: string): string {
    if Sanitized(name) == "" then "workspace" else Sanitized(name)
  }

  function FoundEntry(stores: map<Slot, Entry>, user: UserId, f: Found, id: WorkspaceId, name: string): Entry {
    var previous := if Slot(user, id) in stores then Some(stores[Slot(user, id)]) else None;
    var adopted := if f.owner != Some(user) && f.owner != Some("") then f.owner else None;
    Entry(id, name, f.host, user, Some(Key(user, f.host, name)), Some(f.dir), OnDisk, f.universe,
          if adopted.Some? then adopted else if previous.Some? then previous.value.importedFrom else None,
          if previous.Some? then previous.value.remote else None)
  }

  /** The state after registering, under the first name no other workspace of the user on that host has. */
  ghost predicate IndexedFromDisk(s: State, user: UserId, f: Found, newId: WorkspaceId, e: Entry, t: State) {
    var c := Cleared(s, user, f);
    var id := IdFor(s, user, f, newId);
    && IsFirstFree(BaseName(f.name), TakenNames(c, user, f.host, id), e.name)
    && e == FoundEntry(s.stores, user, f, id, e.name)
    && t == Registered(c, e)
  }

  // ---- Remote workspaces ----

  predicate IsRemoteTo(e: Entry, link: Link) {
    e.origin == Remote && e.remote == Some(link)
  }

  predicate LinkedIn(s: State, slot: Slot, user: UserId, link: Link) {
    slot in s.stores && slot.user == user && IsRemoteTo(s.stores[slot], link)
  }

  function RemoteEntry(user: UserId, host: Host, link: Link, id: WorkspaceId, base: string): Entry {
    Entry(id, base + "@" + host, host, user, None, None, Remote, false, None, Some(link))
  }

  /** Adding a remote workspace refreshes an entry linked to it, or registers a new one under a free name. */
  ghost predicate RemoteAdded(s: State, user: UserId, host: Host, link: Link, name: string, newId: WorkspaceId, e: Entry, t: State) {
    && t == Registered(s, e)
    && if exists slot :: LinkedIn(s, slot, user, link) then
         exists slot :: LinkedIn(s, slot, user, link) && e == s.stores[slot]
       else
         exists base :: IsFirstFree(BaseName(name), TakenRemoteNames(s, user, host), base)
                        && e == RemoteEntry(user, host, link, RemoteId(s, link, newId), base)
  }

  function RemoteId(s: State, link: Link, newId: WorkspaceId): WorkspaceId {
    if link.workspaceId in s.idIndex then newId else link.workspaceId
  }

  function TakenRemoteNames(s: State, user: UserId, host: Host): set<string> {
    set k | k in s.nameIndex && k.user == user && k.host == host :: k.name
  }

  // ---- Creating, transferring, removing ----

  function Created(s: State, user: UserId, name: string, host: Host, id: WorkspaceId, site: Site, universe: bool): Result<State, Error> {
    var slug := Sanitized(name);
    if name == "" || user == "" then Failure(Incomplete)
    else if Key(user, host, slug) in s.nameIndex then Failure(NameTaken)
    else if Refused(site) then Failure(DirectoryTaken)
    else if slug == "" then Failure(NameEmpty)
    else Success(Registered(s, Entry(id, slug, host, user, Some(Key(user, host, slug)), Some(site.dir), OnDisk, universe, None, None)))
  }

  function Transferred(s: State, id: WorkspaceId, newOwner: UserId): Result<State, Error> {
    match Find(s, id)
    case None => Failure(NotFound)
    case Some(e) =>
      if newOwner == "" then Failure(NoOwner)
      else if e.owner == newOwner then Success(s)
      else if e.universe || e.origin == Remote then Failure(NotTransferable)
      else if NameKey(newOwner, e.name, e.host) in s.nameIndex then Failure(NameTaken)
      else Success(Registered(Dropped(s, e), e.(owner := newOwner, reference := Some(Key(newOwner, e.host, e.name)))))
  }

  /** The key a user's own workspace is looked up by: `name`, or `name@host` for a remote one. */
  function OwnKey(user: UserId, name: string): Key {
    var k := NameKey(user, name, DEFAULT_HOST);
    Key(user, k.host, Sanitized(k.name))
  }

  /** The entry an identifier stands for: an id, or the name of one of the user's own workspaces. */
  function Resolved(s: State, identifier: string, user: UserId): Option<Entry> {
    if Find(s, identifier).Some? then Find(s, identifier)
    else if user != "" && OwnKey(user, identifier) in s.nameIndex then Find(s, s.nameIndex[OwnKey(user, identifier)])
    else None
  }

  /** Without a user the owner is not asked for. */
  function Removed(s: State, identifier: string, user: UserId): State {
    match Resolved(s, identifier, user)
    case Some(e) => if user == "" || e.owner == user then Dropped(s, e) else s
    case None => s
  }

  // What the calls promise of the tables themselves.

  /** One entry more, found by its id, its key and its reference; nothing else has changed. */
  ghost predicate OnlyAdded(s: State, t: State, e: Entry) {
    var slot := Slot(e.owner, e.id);
    && slot in t.stores && t.stores[slot] == e && AgreeOutside(s.stores, t.stores, {slot})
    && KeyOf(e) in t.nameIndex && t.nameIndex[KeyOf(e)] == e.id && AgreeOutside(s.nameIndex, t.nameIndex, {KeyOf(e)})
    && e.id in t.idIndex && t.idIndex[e.id] == e.owner && AgreeOutside(s.idIndex, t.idIndex, {e.id})
    && (e.reference.Some? ==> e.reference.value in t.referenceIndex && t.referenceIndex[e.reference.value] == e.id)
    && AgreeOutside(s.referenceIndex, t.referenceIndex, ReferencesOf(e))
  }

  function ReferencesOf(e: Entry): set<Key> { if e.reference.Some? then {e.reference.value} else {} }

  /** One entry less, with what led to it; nothing else has changed. */
  ghost predicate OnlyTaken(s: State, t: State, e: Entry) {
    var slot := Slot(e.owner, e.id);
    && slot !in t.stores && AgreeOutside(s.stores, t.stores, {slot})
    && KeyOf(e) !in t.nameIndex && AgreeOutside(s.nameIndex, t.nameIndex, {KeyOf(e)})
    && e.id !in t.idIndex && AgreeOutside(s.idIndex, t.idIndex, {e.id})
    && ReferencesOf(e) !! t.referenceIndex.Keys && AgreeOutside(s.referenceIndex, t.referenceIndex, ReferencesOf(e))
  }

  /** One entry under another owner, with what led to it; nothing else has changed. */
  ghost predicate OnlyMoved(s: State, t: State, was: Entry, e: Entry) {
    && Slot(was.owner, was.id) !in t.stores
    && Slot(e.owner, e.id) in t.stores && t.stores[Slot(e.owner, e.id)] == e
    && AgreeOutside(s.stores, t.stores, {Slot(was.owner, was.id), Slot(e.owner, e.id)})
    && KeyOf(was) !in t.nameIndex && KeyOf(e) in t.nameIndex && t.nameIndex[KeyOf(e)] == e.id
    && AgreeOutside(s.nameIndex, t.nameIndex, {KeyOf(was), KeyOf(e)})
    && e.id in t.idIndex && t.idIndex[e.id] == e.owner && AgreeOutside(s.idIndex, t.idIndex, {e.id})
    && (e.reference.Some? ==> e.reference.value in t.referenceIndex && t.referenceIndex[e.reference.value] == e.id)
    && AgreeOutside(s.referenceIndex, t.referenceIndex, ReferencesOf(was) + ReferencesOf(e))
  }

  class WorkspaceManager {
    var stores: map<Slot, Entry>
    var nameIndex: map<Key, WorkspaceId>
    var idIndex: map<WorkspaceId, UserId>
    var referenceIndex: map<Key, WorkspaceId>

    ghost function View(): State
      reads this
    {
      State(stores, nameIndex, idIndex, referenceIndex)
    }

    constructor ()
      ensures View() == State(map[], map[], map[], map[])
    {
      stores, nameIndex, idIndex, referenceIndex := map[], map[], map[], map[];
    }

    method Add(user: UserId, id: WorkspaceId, name: string, host: Host, reference: Option<Key>)
      modifies this
      ensures View() == AddToIndexes(old(View()), user, id, name, host, reference)
    {
      nameIndex := nameIndex[NameKey(user, name, host) := id];
      idIndex := idIndex[id := user];
      if reference.Some? {
        referenceIndex := referenceIndex[reference.value := id];
      }
    }

    method Forget(e: Entry)
      modifies this
      ensures View() == RemoveFromIndexes(old(View()), e)
    {
      nameIndex := nameIndex - {NameKey(e.owner, e.name, e.host)};
      idIndex := idIndex - {e.id};
      if e.reference.Some? {
        referenceIndex := referenceIndex - {e.reference.value};
      }
    }

    method CreateWorkspace(user: UserId, name: string, host: Host, id: WorkspaceId, site: Site, universe: bool) returns (r: Result<Entry, Error>)
      modifies this
      ensures match Created(old(View()), user, name, host, id, site, universe)
              case Success(t) => r.Success? && View() == t
              case Failure(error) => r == Failure(error) && View() == old(View())
      ensures r.Success? <==>
                && name != "" && user != "" && Sanitized(name) != "" && Key(user, host, Sanitized(name)) !in old(nameIndex)
                && !(site.present && (site.holdsWorkspace || !site.homeLayout))
      ensures r.Failure? ==> View() == old(View())
      ensures r.Success? ==>
                var e := r.value;
                && e.id == id && e.name == Sanitized(name) && e.host == host && e.owner == user && e.rootPath == Some(site.dir)
                && e.reference == Some(Key(user, host, e.name)) && e.origin == OnDisk && e.universe == universe
                && e.importedFrom.None? && e.remote.None? && OnlyAdded(old(View()), View(), e)
    {
      if name == "" || user == "" {
        return Failure(Incomplete);
      }
      var slug := Sanitized(name);
      if Key(user, host, slug) in nameIndex {
        return Failure(NameTaken);
      }
      if Refused(site) {
        return Failure(DirectoryTaken);
      }
      if slug == "" {
        return Failure(NameEmpty);
      }
      var e := Entry(id, slug, host, user, Some(Key(user, host, slug)), Some(site.dir), OnDisk, universe, None, None);
      stores := stores[Slot(user, id) := e];
      Add(user, id, slug, host, e.reference);
      r := Success(e);
    }

    method UnambiguousName(user: UserId, host: Host, base: string, id: WorkspaceId) returns (name: string)
      ensures IsFirstFree(base, TakenNames(View(), user, host, id), name)
    {
      ghost var taken := TakenNames(View(), user, host, id);
      name := base;
      var suffix := 1;
      while Key(user, host, name) in nameIndex && nameIndex[Key(user, host, name)] != id
        invariant 1 <= suffix && name == Candidate(base, suffix)
        invariant forall j :: 1 <= j < suffix ==> Candidate(base, j) in taken
        decreases |taken| + 1 - suffix
      {
        assert Key(user, host, name).name in taken;
        BlockedAtMost(base, taken, suffix + 1);
        suffix := suffix + 1;
        name := base + "-" + Decimal(suffix);
      }
    }

    method IndexWorkspaceFromDisk(user: UserId, f: Found, newId: WorkspaceId) returns (e: Entry)
      modifies this
      ensures IndexedFromDisk(old(View()), user, f, newId, e, View())
    {
      var id := ResolveCollision(user, f, newId);
      var name := UnambiguousName(user, f.host, BaseName(f.name), id);
      e := FoundEntry(stores, user, f, id, name);
      stores := stores[Slot(user, id) := e];
      Add(user, id, name, f.host, e.reference);
    }

    method ResolveCollision(user: UserId, f: Found, newId: WorkspaceId) returns (id: WorkspaceId)
      modifies this
      ensures View() == Cleared(old(View()), user, f) && id == IdFor(old(View()), user, f, newId)
    {
      id := f.id;
      if f.id in idIndex && Slot(idIndex[f.id], f.id) in stores {
        var existing := stores[Slot(idIndex[f.id], f.id)];
        var own := idIndex[f.id] == user;
        if own && existing.rootPath == Some(f.dir) {
          return;
        }
        if own && (existing.rootPath.None? || existing.rootPath.value !in f.present) {
          Forget(existing);
        } else {
          id := newId;
        }
      }
    }

    method RemoteName(user: UserId, host: Host, base: string) returns (name: string)
      requires base != "" && '@' !in host
      ensures IsFirstFree(base, TakenRemoteNames(View(), user, host), name)
    {
      ghost var taken := TakenRemoteNames(View(), user, host);
      name := base;
      var i := 2;
      RemoteNameKey(user, name, host, host);
      while NameKey(user, name + "@" + host, host) in nameIndex
        invariant 2 <= i && name == Candidate(base, i - 1) && name != ""
        invariant NameKey(user, name + "@" + host, host) == Key(user, host, name)
        invariant forall j :: 1 <= j < i - 1 ==> Candidate(base, j) in taken
        decreases |taken| + 2 - i
      {
        assert Key(user, host, name).name in taken;
        BlockedAtMost(base, taken, i);
        name := base + "-" + Decimal(i);
        RemoteNameKey(user, name, host, host);
        i := i + 1;
      }
    }

    method AddRemoteWorkspace(user: UserId, host: Host, link: Link, name: string, newId: WorkspaceId) returns (e: Entry)
      requires '@' !in host  // a URL's host name has none
      modifies this
      ensures RemoteAdded(old(View()), user, host, link, name, newId, e, View())
    {
      ghost var s := View();
      var existing: Option<Slot> := None;
      var todo := stores.Keys;
      while todo != {} && existing.None?
        invariant View() == s && todo <= stores.Keys
        invariant existing.Some? ==> LinkedIn(s, existing.value, user, link)
        invariant existing.None? ==> forall k :: LinkedIn(s, k, user, link) ==> k in todo
        decreases todo
      {
        var k :| k in todo;
        if k.user == user && IsRemoteTo(stores[k], link) {
          existing := Some(k);
        }
        todo := todo - {k};
      }
      if existing.Some? {
        e := stores[existing.value];
      } else {
        var base := RemoteName(user, host, BaseName(name));
        e := RemoteEntry(user, host, link, if link.workspaceId in idIndex then newId else link.workspaceId, base);
      }
      stores := stores[Slot(e.owner, e.id) := e];
      Add(e.owner, e.id, e.name, e.host, e.reference);
    }

    method TransferWorkspaceOwnership(id: WorkspaceId, newOwner: UserId) returns (r: Result<Entry, Error>)
      modifies this
      ensures match Transferred(old(View()), id, newOwner)
              case Success(t) => r.Success? && View() == t
              case Failure(error) => r == Failure(error) && View() == old(View())
      ensures r.Success? <==>
                var was := Find(old(View()), id);
                && was.Some? && newOwner != ""
                && (was.value.owner == newOwner
                    || (!was.value.universe && was.value.origin != Remote
                        && NameKey(newOwner, was.value.name, was.value.host) !in old(nameIndex)))
      ensures r.Failure? ==> View() == old(View())
      ensures r.Success? ==>
                var was := Find(old(View()), id).value;
                if was.owner == newOwner then r.value == was && View() == old(View())
                else
                  && r.value == was.(owner := newOwner, reference := Some(Key(newOwner, was.host, was.name)))
                  && OnlyMoved(old(View()), View(), was, r.value)
    {
      if id !in idIndex || Slot(idIndex[id], id) !in stores {
        return Failure(NotFound);
      }
      var e := stores[Slot(idIndex[id], id)];
      if newOwner == "" {
        return Failure(NoOwner);
      }
      if e.owner == newOwner {
        return Success(e);
      }
      if e.universe || e.origin == Remote {
        return Failure(NotTransferable);
      }
      if NameKey(newOwner, e.name, e.host) in nameIndex {
        return Failure(NameTaken);
      }
      var moved := e.(owner := newOwner, reference := Some(Key(newOwner, e.host, e.name)));
      stores := stores - {Slot(e.owner, e.id)};
      Forget(e);
      stores := stores[Slot(newOwner, e.id) := moved];
      Add(newOwner, e.id, e.name, e.host, moved.reference);
      r := Success(moved);
    }

    /** By id, or by the user's name for it; a workspace another user shares is never removed. */
    method ResolveWorkspace(identifier: string, user: UserId) returns (r: Option<Entry>)
      ensures r == Resolved(View(), identifier, user)
    {
      if identifier in idIndex && Slot(idIndex[identifier], identifier) in stores {
        return Some(stores[Slot(idIndex[identifier], identifier)]);
      }
      if user == "" || OwnKey(user, identifier) !in nameIndex {
        return None;
      }
      var id := nameIndex[OwnKey(user, identifier)];
      if id !in idIndex || Slot(idIndex[id], id) !in stores {
        return None;
      }
      r := Some(stores[Slot(idIndex[id], id)]);
    }

    method RemoveWorkspace(identifier: string, user: UserId) returns (removed: bool)
      modifies this
      ensures View() == Removed(old(View()), identifier, user)
      ensures removed <==> var r := Resolved(old(View()), identifier, user); r.Some? && (user == "" || r.value.owner == user)
      ensures if removed then OnlyTaken(old(View()), View(), Resolved(old(View()), identifier, user).value)
              else View() == old(View())
    {
      var r := ResolveWorkspace(identifier, user);
      if r.None? || (user != "" && r.value.owner != user) {
        return false;
      }
      var e := r.value;
      stores := stores - {Slot(e.owner, e.id)};
      Forget(e);
      removed := true;
    }

    /** Every index from scratch: the entries of the stores are added one by one, in some order. */
    method RebuildIndexes() returns (ghost order: seq<Slot>)
      modifies this
      ensures Enumerates(order, stores.Keys) && View() == Reindexed(old(View()), order)
    {
      ghost var s := View();
      nameIndex, idIndex, referenceIndex := map[], map[], map[];
      order := [];
      var todo := stores.Keys;
      while todo != {}
        invariant stores == s.stores && todo <= stores.Keys
        invariant Enumerates(order, stores.Keys - todo) && View() == Reindexed(s, order)
        decreases todo
      {
        var k :| k in todo;
        todo := todo - {k};
        ghost var before := order;
        order := before + [k];
        assert order[..|order| - 1] == before;
        var e := stores[k];
        if e.owner != "" && e.name != "" {
          Add(k.user, e.id, e.name, e.host, e.reference);
        }
      }
      assert stores.Keys - {} == stores.Keys;
    }
  }

  ghost predicate Enumerates(order: seq<Slot>, slots: set<Slot>) {
    forall x :: x in order <==> x in slots
  }

  function Reindexed(s: State, order: seq<Slot>): State {
    if order == [] then s.(nameIndex := map[], idIndex := map[], referenceIndex := map[])
    else
      var t, k := Reindexed(s, order[..|order| - 1]), order[|order| - 1];
      if k !in s.stores || s.stores[k].owner == "" || s.stores[k].name == "" then t
      else AddToIndexes(t, k.user, s.stores[k].id, s.stores[k].name, s.stores[k].host, s.stores[k].reference)
  }

  // ---- What every operation keeps ----

  /** An entry sits in its owner's store under its id, and its id, name and reference all lead to it. */
  predicate Sound(s: State, slot: Slot)
    requires slot in s.stores
  {
    var e := s.stores[slot];
    && e.id == slot.id && e.owner == slot.user && e.owner != "" && e.name != ""
    && e.id in s.idIndex && s.idIndex[e.id] == e.owner
    && KeyOf(e) in s.nameIndex && s.nameIndex[KeyOf(e)] == e.id
    && (e.origin.OnDisk? ==> '@' !in e.name && e.reference == Some(Key(e.owner, e.host, e.name)))
    && (e.origin.Remote? ==> e.reference.None?)
    && (e.reference.Some? ==> e.reference.value in s.referenceIndex && s.referenceIndex[e.reference.value] == e.id)
  }

  predicate Consistent(s: State) {
    forall x :: x in s.stores ==> Sound(s, x)
  }

  /** Hence no id has two owners, and no user has two workspaces of one name on one host. */
  lemma NoTwins(s: State, x: Slot, y: Slot)
    requires Consistent(s) && x in s.stores && y in s.stores
    ensures x.id == y.id ==> x == y
    ensures KeyOf(s.stores[x]) == KeyOf(s.stores[y]) ==> x == y
    ensures Find(s, x.id) == Some(s.stores[x])
  {
    assert Sound(s, x) && Sound(s, y);
  }

  predicate Leads(s: State, id: WorkspaceId) {
    id in s.idIndex && Slot(s.idIndex[id], id) in s.stores
  }

  function EntryOf(s: State, id: WorkspaceId): Entry
    requires Leads(s, id)
  {
    s.stores[Slot(s.idIndex[id], id)]
  }

  /** Nothing is indexed that no entry accounts for. */
  predicate ExactNames(s: State) {
    forall k :: k in s.nameIndex ==> Leads(s, s.nameIndex[k]) && KeyOf(EntryOf(s, s.nameIndex[k])) == k
  }

  predicate ExactIds(s: State) {
    forall i :: i in s.idIndex ==> Leads(s, i)
  }

  predicate ExactReferences(s: State) {
    forall r :: r in s.referenceIndex ==> Leads(s, s.referenceIndex[r]) && EntryOf(s, s.referenceIndex[r]).reference == Some(r)
  }

  predicate Exact(s: State) { ExactNames(s) && ExactIds(s) && ExactReferences(s) }

  predicate Among(s: State, id: WorkspaceId, slots: seq<Slot>) {
    id in s.idIndex && Slot(s.idIndex[id], id) in slots
  }

  /** The part of the indexes that leads to some of the entries. */
  function NamesAmong(s: State, slots: seq<Slot>): map<Key, WorkspaceId> {
    map k | k in s.nameIndex && Among(s, s.nameIndex[k], slots) :: s.nameIndex[k]
  }

  function IdsAmong(s: State, slots: seq<Slot>): map<WorkspaceId, UserId> {
    map i | i in s.idIndex && Among(s, i, slots) :: s.idIndex[i]
  }

  function ReferencesAmong(s: State, slots: seq<Slot>): map<Key, WorkspaceId> {
    map r | r in s.referenceIndex && Among(s, s.referenceIndex[r], slots) :: s.referenceIndex[r]
  }

  lemma OneMoreName(s: State, rest: seq<Slot>, k: Slot)
    requires ExactNames(s) && k in s.stores && Sound(s, k)
    ensures NamesAmong(s, rest + [k]) == NamesAmong(s, rest)[KeyOf(s.stores[k]) := k.id]
  {
    var key := KeyOf(s.stores[k]);
    forall x | x in s.nameIndex ensures Among(s, s.nameIndex[x], rest + [k]) <==> Among(s, s.nameIndex[x], rest) || x == key {
      if Among(s, s.nameIndex[x], [k]) {
        assert EntryOf(s, s.nameIndex[x]) == s.stores[k];
      }
    }
  }

  lemma OneMoreId(s: State, rest: seq<Slot>, k: Slot)
    requires k in s.stores && Sound(s, k)
    ensures IdsAmong(s, rest + [k]) == IdsAmong(s, rest)[k.id := k.user]
  {
  }

  lemma OneMoreReference(s: State, rest: seq<Slot>, k: Slot)
    requires ExactReferences(s) && k in s.stores && Sound(s, k)
    ensures ReferencesAmong(s, rest + [k]) == match s.stores[k].reference
                                              case Some(r) => ReferencesAmong(s, rest)[r := k.id]
                                              case None => ReferencesAmong(s, rest)
  {
    var reference := s.stores[k].reference;
    forall x | x in s.referenceIndex
      ensures Among(s, s.referenceIndex[x], rest + [k]) <==> Among(s, s.referenceIndex[x], rest) || reference == Some(x)
    {
      if Among(s, s.referenceIndex[x], [k]) {
        assert EntryOf(s, s.referenceIndex[x]) == s.stores[k];
      }
    }
  }

  /** What a rebuild has after some of the entries. */
  function PartOf(s: State, order: seq<Slot>): State {
    State(s.stores, NamesAmong(s, order), IdsAmong(s, order), ReferencesAmong(s, order))
  }

  lemma OneMoreIndexed(s: State, rest: seq<Slot>, k: Slot)
    requires Exact(s) && k in s.stores && Sound(s, k)
    ensures var e := s.stores[k];
            AddToIndexes(PartOf(s, rest), k.user, e.id, e.name, e.host, e.reference) == PartOf(s, rest + [k])
  {
    OneMoreName(s, rest, k);
    OneMoreId(s, rest, k);
    OneMoreReference(s, rest, k);
  }

  lemma OneMoreReindexed(s: State, rest: seq<Slot>, k: Slot)
    requires k in s.stores && Sound(s, k)
    ensures var e := s.stores[k];
            Reindexed(s, rest + [k]) == AddToIndexes(Reindexed(s, rest), k.user, e.id, e.name, e.host, e.reference)
  {
    assert (rest + [k])[..|rest|] == rest;
  }

  lemma {:induction false} ReindexedIsPart(s: State, order: seq<Slot>)
    requires Consistent(s) && Exact(s) && forall x :: x in order ==> x in s.stores
    ensures Reindexed(s, order) == PartOf(s, order)
  {
    if order != [] {
      var rest, k := order[..|order| - 1], order[|order| - 1];
      ReindexedIsPart(s, rest);
      assert Sound(s, k) && order == rest + [k];
      OneMoreReindexed(s, rest, k);
      OneMoreIndexed(s, rest, k);
    }
  }

  lemma AllAmong(s: State, order: seq<Slot>)
    requires Enumerates(order, s.stores.Keys)
    ensures ExactNames(s) ==> NamesAmong(s, order) == s.nameIndex
    ensures ExactIds(s) ==> IdsAmong(s, order) == s.idIndex
    ensures ExactReferences(s) ==> ReferencesAmong(s, order) == s.referenceIndex
  {
    assert forall i :: Leads(s, i) <==> Among(s, i, order);
  }

  /** Rebuilding an exact registry, in whatever order the entries come, gives the very indexes it has. */
  lemma RebuildChangesNothing(s: State, order: seq<Slot>)
    requires Consistent(s) && Exact(s) && Enumerates(order, s.stores.Keys)
    ensures Reindexed(s, order) == s
  {
    ReindexedIsPart(s, order);
    AllAmong(s, order);
  }

  /** An index entry that an entry of the stores accounts for. */
  predicate NameLeads(s: State, k: Key, id: WorkspaceId) { Leads(s, id) && KeyOf(EntryOf(s, id)) == k }

  predicate ReferenceLeads(s: State, r: Key, id: WorkspaceId) { Leads(s, id) && EntryOf(s, id).reference == Some(r) }

  lemma {:induction false} ReindexedNamesLead(s: State, order: seq<Slot>, k: Key)
    requires Consistent(s) && k in Reindexed(s, order).nameIndex
    ensures NameLeads(s, k, Reindexed(s, order).nameIndex[k])
  {
    if order != [] {
      var rest, x := order[..|order| - 1], order[|order| - 1];
      if k in Reindexed(s, rest).nameIndex {
        ReindexedNamesLead(s, rest, k);
      }
      assert x in s.stores ==> Sound(s, x);
    }
  }

  lemma {:induction false} ReindexedIdsLead(s: State, order: seq<Slot>, id: WorkspaceId)
    requires Consistent(s) && id in Reindexed(s, order).idIndex
    ensures Leads(s, id)
  {
    if order != [] {
      var rest, x := order[..|order| - 1], order[|order| - 1];
      if id in Reindexed(s, rest).idIndex {
        ReindexedIdsLead(s, rest, id);
      }
      assert x in s.stores ==> Sound(s, x);
    }
  }

  lemma {:induction false} ReindexedReferencesLead(s: State, order: seq<Slot>, r: Key)
    requires Consistent(s) && r in Reindexed(s, order).referenceIndex
    ensures ReferenceLeads(s, r, Reindexed(s, order).referenceIndex[r])
  {
    if order != [] {
      var rest, x := order[..|order| - 1], order[|order| - 1];
      if r in Reindexed(s, rest).referenceIndex {
        ReindexedReferencesLead(s, rest, r);
      }
      assert x in s.stores ==> Sound(s, x);
    }
  }

  /** A consistent registry is what a rebuild makes of its stores if and only if it is exact. */
  lemma ExactIsRebuilt(s: State, order: seq<Slot>)
    requires Consistent(s) && Enumerates(order, s.stores.Keys)
    ensures Reindexed(s, order) == s <==> Exact(s)
  {
    if Exact(s) {
      RebuildChangesNothing(s, order);
    }
    if Reindexed(s, order) == s {
      forall k | k in s.nameIndex ensures NameLeads(s, k, s.nameIndex[k]) {
        ReindexedNamesLead(s, order, k);
      }
      forall i | i in s.idIndex ensures Leads(s, i) {
        ReindexedIdsLead(s, order, i);
      }
      forall r | r in s.referenceIndex ensures ReferenceLeads(s, r, s.referenceIndex[r]) {
        ReindexedReferencesLead(s, order, r);
      }
    }
  }

  // ---- Registering and dropping one entry ----

  /** An entry fit to be registered in its owner's store. */
  predicate Presentable(e: Entry) {
    && e.owner != "" && e.name != ""
    && (e.origin.OnDisk? ==> '@' !in e.name && e.reference == Some(Key(e.owner, e.host, e.name)))
    && (e.origin.Remote? ==> e.reference.None?)
  }

  function SlotOf(e: Entry): Slot { Slot(e.owner, e.id) }

  /** Every other entry is sound, and has another id and another key. */
  predicate OthersApart(s: State, e: Entry) {
    forall x :: x in s.stores && x != SlotOf(e) ==> Sound(s, x) && x.id != e.id && KeyOf(s.stores[x]) != KeyOf(e)
  }

  /** An entry's reference, if it has one, is its key. */
  lemma ReferenceIsKey(e: Entry)
    requires Presentable(e)
    ensures e.reference.Some? ==> e.reference.value == KeyOf(e)
  {
    if e.origin.OnDisk? {
      PlainNameKey(e.owner, e.name, e.host);
    }
  }

  lemma SoundIsPresentable(s: State, x: Slot)
    requires x in s.stores && Sound(s, x)
    ensures Presentable(s.stores[x]) && SlotOf(s.stores[x]) == x
  {
  }

  lemma RegisteringKeepsConsistent(s: State, e: Entry)
    requires OthersApart(s, e) && Presentable(e)
    ensures Consistent(Registered(s, e))
  {
    var t := Registered(s, e);
    ReferenceIsKey(e);
    forall x | x in t.stores ensures Sound(t, x) {
      if x != SlotOf(e) {
        SoundIsPresentable(s, x);
        ReferenceIsKey(s.stores[x]);
      }
    }
  }

  lemma ForgettingKeepsOthers(s: State, e: Entry, x: Slot)
    requires Consistent(s) && SlotOf(e) in s.stores && s.stores[SlotOf(e)] == e && x in s.stores && x != SlotOf(e)
    ensures Sound(RemoveFromIndexes(s, e), x)
  {
    NoTwins(s, x, SlotOf(e));
    assert Sound(s, x) && Sound(s, SlotOf(e));
    SoundIsPresentable(s, x);
    SoundIsPresentable(s, SlotOf(e));
    ReferenceIsKey(e);
    ReferenceIsKey(s.stores[x]);
  }

  lemma DroppingKeepsConsistent(s: State, e: Entry)
    requires Consistent(s) && SlotOf(e) in s.stores && s.stores[SlotOf(e)] == e
    ensures Consistent(Dropped(s, e)) && e.id !in Dropped(s, e).idIndex
    ensures forall k :: k in Dropped(s, e).nameIndex <==> k in s.nameIndex && k != KeyOf(e)
  {
    var t := Dropped(s, e);
    forall x | x in t.stores ensures Sound(t, x) {
      ForgettingKeepsOthers(s, e, x);
      assert Sound(RemoveFromIndexes(s, e), x);
    }
  }

  /** An id that is not indexed, or leads nowhere, belongs to no entry: the scan a lookup falls back to finds nothing. */
  lemma UnindexedIsNew(s: State, id: WorkspaceId)
    requires Consistent(s) && !Leads(s, id)
    ensures forall x :: x in s.stores ==> x.id != id
  {
    forall x | x in s.stores ensures x.id != id {
      assert Sound(s, x);
    }
  }

  lemma NewEntryIsApart(s: State, e: Entry)
    requires Consistent(s) && !Leads(s, e.id) && KeyOf(e) !in s.nameIndex
    ensures OthersApart(s, e)
  {
    UnindexedIsNew(s, e.id);
    forall x | x in s.stores ensures Sound(s, x) && KeyOf(s.stores[x]) != KeyOf(e) {
      assert Sound(s, x);
    }
  }

  /** Nothing indexed for another id or key is disturbed by registering an entry, so exactness only needs its own. */
  predicate ExactApartFrom(s: State, e: Entry) {
    && (forall k :: k in s.nameIndex && k != KeyOf(e) ==>
          s.nameIndex[k] != e.id && Leads(s, s.nameIndex[k]) && KeyOf(EntryOf(s, s.nameIndex[k])) == k)
    && (forall i :: i in s.idIndex && i != e.id ==> Leads(s, i))
    && (forall r :: r in s.referenceIndex && e.reference != Some(r) ==>
          s.referenceIndex[r] != e.id && Leads(s, s.referenceIndex[r]) && EntryOf(s, s.referenceIndex[r]).reference == Some(r))
  }

  lemma RegisteringKeepsExactNames(s: State, e: Entry)
    requires ExactApartFrom(s, e)
    ensures ExactNames(Registered(s, e))
  {
  }

  lemma RegisteringKeepsExactReferences(s: State, e: Entry)
    requires ExactApartFrom(s, e)
    ensures ExactReferences(Registered(s, e))
  {
  }

  lemma RegisteringKeepsExact(s: State, e: Entry)
    requires ExactApartFrom(s, e)
    ensures Exact(Registered(s, e))
  {
    RegisteringKeepsExactNames(s, e);
    RegisteringKeepsExactReferences(s, e);
  }

  lemma NewEntryKeepsExact(s: State, e: Entry)
    requires Exact(s) && !Leads(s, e.id)
    ensures ExactApartFrom(s, e)
  {
  }

  lemma SameKeysKeepExact(s: State, e: Entry)
    requires Consistent(s) && Exact(s) && SlotOf(e) in s.stores
    requires KeyOf(s.stores[SlotOf(e)]) == KeyOf(e)
    requires s.stores[SlotOf(e)].reference.Some? ==> s.stores[SlotOf(e)].reference == e.reference
    ensures ExactApartFrom(s, e)
  {
    assert Sound(s, SlotOf(e));
  }

  /** With an entry's keys forgotten, what is left leads to others. */
  lemma ForgottenLeavesOthers(s: State, gone: Entry)
    requires Consistent(s) && Exact(s) && SlotOf(gone) in s.stores && s.stores[SlotOf(gone)] == gone
    ensures var t := RemoveFromIndexes(s, gone);
            && (forall k :: k in t.nameIndex ==> k in s.nameIndex && t.nameIndex[k] == s.nameIndex[k] != gone.id)
            && (forall r :: r in t.referenceIndex ==> r in s.referenceIndex && t.referenceIndex[r] == s.referenceIndex[r] != gone.id)
            && (forall i :: i in t.idIndex <==> i in s.idIndex && i != gone.id)
            && (forall i :: i in t.idIndex ==> t.idIndex[i] == s.idIndex[i])
  {
    assert Sound(s, SlotOf(gone));
    assert EntryOf(s, gone.id) == gone;
  }

  lemma OthersLeadAsBefore(s: State, t: State, gone: WorkspaceId)
    requires forall i :: i in t.idIndex <==> i in s.idIndex && i != gone
    requires forall i :: i in t.idIndex ==> t.idIndex[i] == s.idIndex[i]
    requires forall x :: x in s.stores && x.id != gone ==> x in t.stores && t.stores[x] == s.stores[x]
    ensures forall i :: i != gone && Leads(s, i) ==> Leads(t, i) && EntryOf(t, i) == EntryOf(s, i)
  {
  }

  lemma ForgettingKeepsExact(s: State, gone: Entry, e: Entry)
    requires Consistent(s) && Exact(s) && SlotOf(gone) in s.stores && s.stores[SlotOf(gone)] == gone && SlotOf(e) == SlotOf(gone)
    ensures ExactApartFrom(RemoveFromIndexes(s, gone), e)
  {
    ForgottenLeavesOthers(s, gone);
    var t := RemoveFromIndexes(s, gone);
    OthersLeadAsBefore(s, t, gone.id);
    ExactAfterForgetting(s, t, gone.id, e);
  }

  lemma ExactAfterForgetting(s: State, t: State, gone: WorkspaceId, e: Entry)
    requires Exact(s) && e.id == gone
    requires forall i :: i != gone && Leads(s, i) ==> Leads(t, i) && EntryOf(t, i) == EntryOf(s, i)
    requires forall k :: k in t.nameIndex ==> k in s.nameIndex && t.nameIndex[k] == s.nameIndex[k] != gone
    requires forall r :: r in t.referenceIndex ==> r in s.referenceIndex && t.referenceIndex[r] == s.referenceIndex[r] != gone
    requires forall i :: i in t.idIndex ==> i in s.idIndex && i != gone
    ensures ExactApartFrom(t, e) && Exact(t)
  {
  }

  lemma DroppingKeepsExact(s: State, e: Entry)
    requires Consistent(s) && Exact(s) && SlotOf(e) in s.stores && s.stores[SlotOf(e)] == e
    ensures Exact(Dropped(s, e))
  {
    ForgottenLeavesOthers(s, e);
    var t := Dropped(s, e);
    OthersLeadAsBefore(s, t, e.id);
    ExactAfterForgetting(s, t, e.id, e);
  }

  // ---- The operations ----

  lemma {:induction false} DecimalHasNoAt(n: nat)
    ensures '@' !in Decimal(n)
  {
    if n >= 10 {
      DecimalHasNoAt(n / 10);
    }
  }

  lemma {:induction false} FirstFreeNameIsPlain(name: string, taken: set<string>, free: string)
    requires IsFirstFree(BaseName(name), taken, free)
    ensures free != "" && '@' !in free && free !in taken
  {
    KeptChars(Text.ToLower(name));
    var i :| 1 <= i && free == Candidate(BaseName(name), i) && free !in taken;
    DecimalHasNoAt(i);
  }

  lemma CreatingKeepsInvariants(s: State, user: UserId, name: string, host: Host, id: WorkspaceId, site: Site, universe: bool)
    requires Consistent(s) && user != "" && id !in s.idIndex
    requires Created(s, user, name, host, id, site, universe).Success?
    ensures var t := Created(s, user, name, host, id, site, universe).value; Consistent(t) && (Exact(s) ==> Exact(t))
  {
    var slug := Sanitized(name);
    var e := Entry(id, slug, host, user, Some(Key(user, host, slug)), Some(site.dir), OnDisk, universe, None, None);
    KeptChars(Text.ToLower(name));
    PlainNameKey(user, slug, host);
    NewEntryIsApart(s, e);
    RegisteringKeepsConsistent(s, e);
    if Exact(s) {
      NewEntryKeepsExact(s, e);
      RegisteringKeepsExact(s, e);
    }
  }

  /** What an identifier stands for is a stored entry. */
  lemma ResolvedIsStored(s: State, identifier: string, user: UserId)
    requires Consistent(s) && Resolved(s, identifier, user).Some?
    ensures var e := Resolved(s, identifier, user).value; Slot(e.owner, e.id) in s.stores && s.stores[Slot(e.owner, e.id)] == e
  {
    var id := if Find(s, identifier).Some? then identifier else s.nameIndex[OwnKey(user, identifier)];
    assert Sound(s, Slot(s.idIndex[id], id));
  }

  lemma DroppingKeepsInvariants(s: State, e: Entry)
    requires Consistent(s) && Slot(e.owner, e.id) in s.stores && s.stores[Slot(e.owner, e.id)] == e
    ensures var t := Dropped(s, e); Consistent(t) && (Exact(s) ==> Exact(t))
  {
    assert Sound(s, Slot(e.owner, e.id));
    DroppingKeepsConsistent(s, e);
    if Exact(s) {
      DroppingKeepsExact(s, e);
    }
  }

  lemma RemovingKeepsInvariants(s: State, identifier: string, user: UserId)
    requires Consistent(s)
    ensures var t := Removed(s, identifier, user); Consistent(t) && (Exact(s) ==> Exact(t))
  {
    if Resolved(s, identifier, user).Some? {
      ResolvedIsStored(s, identifier, user);
      DroppingKeepsInvariants(s, Resolved(s, identifier, user).value);
    }
  }

  lemma TransferringKeepsInvariants(s: State, id: WorkspaceId, newOwner: UserId)
    requires Consistent(s) && Transferred(s, id, newOwner).Success?
    ensures var t := Transferred(s, id, newOwner).value; Consistent(t) && (Exact(s) ==> Exact(t))
  {
    var e := Find(s, id).value;
    if e.owner != newOwner {
      assert Sound(s, Slot(s.idIndex[id], id));
      var moved := e.(owner := newOwner, reference := Some(Key(newOwner, e.host, e.name)));
      var d := Dropped(s, e);
      DroppingKeepsConsistent(s, e);
      NewEntryIsApart(d, moved);
      RegisteringKeepsConsistent(d, moved);
      if Exact(s) {
        DroppingKeepsExact(s, e);
        NewEntryKeepsExact(d, moved);
        RegisteringKeepsExact(d, moved);
      }
    }
  }

  lemma TakenRemoteNamesHave(s: State, user: UserId, host: Host)
    ensures forall k :: k in s.nameIndex && k.user == user && k.host == host ==> k.name in TakenRemoteNames(s, user, host)
  {
  }

  lemma TakenNamesHave(s: State, user: UserId, host: Host, id: WorkspaceId)
    ensures forall k :: k in s.nameIndex && k.user == user && k.host == host && s.nameIndex[k] != id
                        ==> k.name in TakenNames(s, user, host, id)
  {
  }

  lemma AddingRemoteKeepsInvariants(s: State, user: UserId, host: Host, link: Link, name: string, newId: WorkspaceId, e: Entry, t: State)
    requires Consistent(s) && user != "" && '@' !in host && newId !in s.idIndex
    requires RemoteAdded(s, user, host, link, name, newId, e, t)
    ensures Consistent(t) && (Exact(s) ==> Exact(t))
  {
    if slot :| LinkedIn(s, slot, user, link) {
      var x :| LinkedIn(s, x, user, link) && e == s.stores[x];
      assert Sound(s, x);
      RefreshChangesNothing(s, x);
    } else {
      var base :| IsFirstFree(BaseName(name), TakenRemoteNames(s, user, host), base)
                  && e == RemoteEntry(user, host, link, RemoteId(s, link, newId), base);
      FirstFreeNameIsPlain(name, TakenRemoteNames(s, user, host), base);
      RemoteNameKey(user, base, host, host);
      TakenRemoteNamesHave(s, user, host);
      NewEntryIsApart(s, e);
      RegisteringKeepsConsistent(s, e);
      if Exact(s) {
        NewEntryKeepsExact(s, e);
        RegisteringKeepsExact(s, e);
      }
    }
  }

  /** A refresh of a registered entry leaves stores and indexes alone: no duplicate is stacked. */
  lemma RefreshChangesNothing(s: State, x: Slot)
    requires x in s.stores && Sound(s, x)
    ensures Registered(s, s.stores[x]) == s
  {
    var t := Registered(s, s.stores[x]);
    assert t.stores == s.stores && t.nameIndex == s.nameIndex && t.idIndex == s.idIndex;
    assert t.referenceIndex == s.referenceIndex;
  }

  /**
   A rescan of a registered directory whose host on disk is not the one it is registered under, or for whose
   name on disk the name it is registered under is not the first free one.
   */
  ghost predicate Renames(s: State, user: UserId, f: Found) {
    match CollisionOf(s, user, f)
    case Same(was) =>
      !(KeyOf(was).host == f.host && IsFirstFree(BaseName(f.name), TakenNames(s, user, f.host, f.id), KeyOf(was).name))
    case _ => false
  }

  lemma FoundIsApart(s: State, user: UserId, f: Found, newId: WorkspaceId, e: Entry, t: State)
    requires Consistent(s) && user != "" && newId !in s.idIndex && IndexedFromDisk(s, user, f, newId, e, t)
    ensures OthersApart(Cleared(s, user, f), e) && Presentable(e) && KeyOf(e) == Key(user, f.host, e.name)
  {
    var c, id := Cleared(s, user, f), IdFor(s, user, f, newId);
    FirstFreeNameIsPlain(f.name, TakenNames(c, user, f.host, id), e.name);
    PlainNameKey(user, e.name, f.host);
    forall x | x in c.stores && x != SlotOf(e) ensures Sound(c, x) && x.id != e.id && KeyOf(c.stores[x]) != KeyOf(e) {
      ClearedKeepsOthers(s, user, f, newId, x);
      TakenNamesHave(c, user, f.host, id);
    }
  }

  lemma ClearedKeepsOthers(s: State, user: UserId, f: Found, newId: WorkspaceId, x: Slot)
    requires Consistent(s) && newId !in s.idIndex && x in s.stores && x != Slot(user, IdFor(s, user, f, newId))
    ensures Sound(Cleared(s, user, f), x) && x.id != IdFor(s, user, f, newId)
  {
    assert Sound(s, x);
    match CollisionOf(s, user, f)
    case Stale(gone) =>
      assert Sound(s, Slot(user, f.id));
      ForgettingKeepsOthers(s, gone, x);
    case _ =>
  }

  lemma IndexingFromDiskKeepsConsistent(s: State, user: UserId, f: Found, newId: WorkspaceId, e: Entry, t: State)
    requires Consistent(s) && user != "" && newId !in s.idIndex && IndexedFromDisk(s, user, f, newId, e, t)
    ensures Consistent(t)
  {
    FoundIsApart(s, user, f, newId, e, t);
    RegisteringKeepsConsistent(Cleared(s, user, f), e);
  }

  lemma RescanExactUnlessRenamed(s: State, was: Entry, e: Entry)
    requires Consistent(s) && Exact(s) && SlotOf(e) == SlotOf(was) && SlotOf(was) in s.stores && s.stores[SlotOf(was)] == was
    requires OthersApart(s, e) && Presentable(e) && e.origin.OnDisk?
    ensures Exact(Registered(s, e)) <==> KeyOf(was) == KeyOf(e)
  {
    assert Sound(s, SlotOf(was));
    SoundIsPresentable(s, SlotOf(was));
    ReferenceIsKey(was);
    ReferenceIsKey(e);
    var t := Registered(s, e);
    if KeyOf(was) == KeyOf(e) {
      SameKeysKeepExact(s, e);
      RegisteringKeepsExact(s, e);
    } else {
      assert t.nameIndex[KeyOf(was)] == e.id && Leads(t, e.id) && EntryOf(t, e.id) == e;
    }
  }

  lemma ReplacingStaleKeepsExact(s: State, user: UserId, f: Found, e: Entry)
    requires Consistent(s) && Exact(s) && CollisionOf(s, user, f).Stale? && SlotOf(e) == Slot(user, f.id)
    ensures Exact(Registered(Cleared(s, user, f), e))
  {
    assert Sound(s, Slot(user, f.id));
    ForgettingKeepsExact(s, CollisionOf(s, user, f).e, e);
    RegisteringKeepsExact(Cleared(s, user, f), e);
  }

  lemma RegisteringNewKeepsExact(s: State, e: Entry)
    requires Exact(s) && !Leads(s, e.id)
    ensures Exact(Registered(s, e))
  {
    NewEntryKeepsExact(s, e);
    RegisteringKeepsExact(s, e);
  }

  /** Exactly a rename gives the entry another key. */
  lemma RenamedKey(s: State, user: UserId, f: Found, e: Entry)
    requires Consistent(s) && CollisionOf(s, user, f).Same? && KeyOf(e) == Key(user, f.host, e.name)
    requires IsFirstFree(BaseName(f.name), TakenNames(s, user, f.host, f.id), e.name)
    ensures Renames(s, user, f) <==> KeyOf(CollisionOf(s, user, f).e) != KeyOf(e)
  {
    var key := KeyOf(CollisionOf(s, user, f).e);
    assert Sound(s, Slot(user, f.id));
    if IsFirstFree(BaseName(f.name), TakenNames(s, user, f.host, f.id), key.name) {
      FirstFreeIsUnique(BaseName(f.name), TakenNames(s, user, f.host, f.id), key.name, e.name);
    }
  }

  lemma RescanOfSame(s: State, user: UserId, f: Found, e: Entry)
    requires Consistent(s) && Exact(s) && CollisionOf(s, user, f).Same? && SlotOf(e) == Slot(user, f.id)
    requires OthersApart(s, e) && Presentable(e) && e.origin.OnDisk? && KeyOf(e) == Key(user, f.host, e.name)
    requires IsFirstFree(BaseName(f.name), TakenNames(s, user, f.host, f.id), e.name)
    ensures Exact(Registered(s, e)) <==> !Renames(s, user, f)
  {
    assert Sound(s, Slot(user, f.id));
    RenamedKey(s, user, f, e);
    RescanExactUnlessRenamed(s, CollisionOf(s, user, f).e, e);
  }

  /** A registration from disk keeps the indexes exact if and only if it is not a rename of a registered directory. */
  lemma IndexingFromDiskKeepsExact(s: State, user: UserId, f: Found, newId: WorkspaceId, e: Entry, t: State)
    requires Consistent(s) && Exact(s) && user != "" && newId !in s.idIndex && IndexedFromDisk(s, user, f, newId, e, t)
    ensures Exact(t) <==> !Renames(s, user, f)
  {
    FoundIsApart(s, user, f, newId, e, t);
    match CollisionOf(s, user, f)
    case Same(_) => RescanOfSame(s, user, f, e);
    case Stale(_) => ReplacingStaleKeepsExact(s, user, f, e);
    case _ => RegisteringNewKeepsExact(s, e);
  }

  /** So a rebuild after it would give the very indexes there are if and only if it was no rename. */
  lemma IndexingFromDiskKeepsRebuilt(s: State, user: UserId, f: Found, newId: WorkspaceId, e: Entry, t: State, order: seq<Slot>)
    requires Consistent(s) && Exact(s) && user != "" && newId !in s.idIndex && IndexedFromDisk(s, user, f, newId, e, t)
    requires Enumerates(order, t.stores.Keys)
    ensures Reindexed(t, order) == t <==> !Renames(s, user, f)
  {
    IndexingFromDiskKeepsConsistent(s, user, f, newId, e, t);
    IndexingFromDiskKeepsExact(s, user, f, newId, e, t);
    ExactIsRebuilt(t, order);
  }

  // ---- The names that get registered ----

  predicate PlainName(s: string) {
    forall i :: 0 <= i < |s| ==> NameChar(s[i])
  }

  /** Every key and reference has a sanitized name, with a number at its end at most. */
  predicate PlainNames(s: State) {
    (forall k :: k in s.nameIndex ==> PlainName(k.name)) && (forall r :: r in s.referenceIndex ==> PlainName(r.name))
  }

  predicate PlainHosts(s: State) {
    (forall k :: k in s.nameIndex ==> '@' !in k.host) && (forall r :: r in s.referenceIndex ==> '@' !in r.host)
  }

  lemma {:induction false} DecimalIsPlain(n: nat)
    ensures PlainName(Decimal(n))
  {
    if n >= 10 {
      DecimalIsPlain(n / 10);
    }
  }

  lemma SanitizedIsPlain(name: string)
    ensures PlainName(Sanitized(name)) && PlainName(BaseName(name))
  {
    KeptChars(Text.ToLower(name));
  }

  lemma FirstFreeIsPlain(name: string, taken: set<string>, free: string)
    requires IsFirstFree(BaseName(name), taken, free)
    ensures PlainName(free)
  {
    SanitizedIsPlain(name);
    var i :| 1 <= i && free == Candidate(BaseName(name), i) && free !in taken;
    DecimalIsPlain(i);
  }

  lemma {:induction false} PlainIsKept(s: string)
    requires PlainName(s)
    ensures Sanitized(s) == s
  {
    if s != "" {
      PlainIsKept(s[1..]);
      assert Text.ToLower(s) == [s[0]] + Text.ToLower(s[1..]);
      assert Text.ToLower(s)[1..] == Text.ToLower(s[1..]);
    }
  }

  /** A directory whose name and host on disk are those it is registered under is not renamed. */
  lemma UnchangedNeverRenames(s: State, user: UserId, f: Found)
    requires Consistent(s) && PlainNames(s) && CollisionOf(s, user, f).Same?
    requires KeyOf(CollisionOf(s, user, f).e) == Key(user, f.host, f.name)
    ensures !Renames(s, user, f)
  {
    assert Sound(s, Slot(user, f.id));
    PlainIsKept(f.name);
    var taken := TakenNames(s, user, f.host, f.id);
    assert Candidate(BaseName(f.name), 1) == f.name && f.name !in taken;
  }

  /** An entry that carries a host in its name, or is on the default host. */
  predicate NamesItsHost(e: Entry) {
    Text.LastIndexOf(e.name, '@') > 0 || e.host == DEFAULT_HOST
  }

  predicate NameReaches(s: State, e: Entry) {
    e.name == e.id || (Find(s, e.name).None? && NamesItsHost(e))
  }

  lemma OwnKeyOfName(e: Entry)
    requires PlainName(KeyOf(e).name)
    ensures OwnKey(e.owner, e.name) == KeyOf(e) <==> NamesItsHost(e)
  {
    PlainIsKept(KeyOf(e).name);
  }

  /** The name is another workspace's id, or this one's. */
  lemma ResolvedAsId(s: State, x: Slot)
    requires Consistent(s) && x in s.stores && Find(s, s.stores[x].name).Some?
    ensures var e := s.stores[x]; Resolved(s, e.name, e.owner) == Some(e) <==> e.name == e.id
  {
    var e := s.stores[x];
    assert Sound(s, x) && Sound(s, Slot(s.idIndex[e.name], e.name));
  }

  lemma ResolvedByKey(s: State, x: Slot)
    requires Consistent(s) && x in s.stores && Find(s, s.stores[x].name).None?
    ensures var e := s.stores[x];
            && e.name != e.id
            && (OwnKey(e.owner, e.name) == KeyOf(e) ==> Resolved(s, e.name, e.owner) == Some(e))
            && (ExactNames(s) && Resolved(s, e.name, e.owner) == Some(e) ==> OwnKey(e.owner, e.name) == KeyOf(e))
  {
    assert Sound(s, x);
  }

  /**
   A user reaches a workspace by the name it is listed under if the name is its id, or no workspace has the name
   for an id and it is a remote one or on the default host; in an exact registry, only then.
   */
  lemma ResolvedByName(s: State, x: Slot)
    requires Consistent(s) && PlainNames(s) && x in s.stores
    ensures var e := s.stores[x];
            && (NameReaches(s, e) ==> Resolved(s, e.name, e.owner) == Some(e))
            && (Exact(s) && Resolved(s, e.name, e.owner) == Some(e) ==> NameReaches(s, e))
  {
    var e := s.stores[x];
    if Find(s, e.name).Some? {
      ResolvedAsId(s, x);
    } else {
      assert Sound(s, x);
      OwnKeyOfName(e);
      ResolvedByKey(s, x);
    }
  }

  /** The keys after a registration: those before it, and the entry's. */
  lemma RegisteredNames(c: State, e: Entry)
    requires PlainNames(c) && PlainName(KeyOf(e).name) && (e.reference.Some? ==> PlainName(e.reference.value.name))
    ensures PlainNames(Registered(c, e))
  {
  }

  lemma RegisteredHosts(c: State, e: Entry)
    requires PlainHosts(c) && '@' !in KeyOf(e).host && (e.reference.Some? ==> '@' !in e.reference.value.host)
    ensures PlainHosts(Registered(c, e))
  {
  }

  /** The host an event brings in, if any. */
  predicate HostPlain(ev: Event) {
    match ev
    case Create(_, _, host, _, _, _) => '@' !in host
    case IndexFromDisk(_, f, _) => '@' !in f.host
    case _ => true
  }

  lemma CreatingKeepsNames(s: State, user: UserId, name: string, host: Host, id: WorkspaceId, site: Site, universe: bool)
    requires PlainNames(s) && Created(s, user, name, host, id, site, universe).Success?
    ensures var t := Created(s, user, name, host, id, site, universe).value;
            PlainNames(t) && ('@' !in host && PlainHosts(s) ==> PlainHosts(t))
  {
    var slug := Sanitized(name);
    var e := Entry(id, slug, host, user, Some(Key(user, host, slug)), Some(site.dir), OnDisk, universe, None, None);
    SanitizedIsPlain(name);
    PlainNameKey(user, slug, host);
    RegisteredNames(s, e);
    if '@' !in host && PlainHosts(s) {
      RegisteredHosts(s, e);
    }
  }

  lemma ClearingKeepsNames(s: State, user: UserId, f: Found)
    requires PlainNames(s)
    ensures PlainNames(Cleared(s, user, f)) && (PlainHosts(s) ==> PlainHosts(Cleared(s, user, f)))
  {
  }

  lemma IndexingKeepsNames(s: State, user: UserId, f: Found, newId: WorkspaceId, e: Entry, t: State)
    requires Consistent(s) && PlainNames(s) && user != "" && newId !in s.idIndex && IndexedFromDisk(s, user, f, newId, e, t)
    ensures PlainNames(t) && ('@' !in f.host && PlainHosts(s) ==> PlainHosts(t))
  {
    var c := Cleared(s, user, f);
    FoundIsApart(s, user, f, newId, e, t);
    ReferenceIsKey(e);
    ClearingKeepsNames(s, user, f);
    FirstFreeIsPlain(f.name, TakenNames(c, user, f.host, IdFor(s, user, f, newId)), e.name);
    RegisteredNames(c, e);
    if '@' !in f.host && PlainHosts(s) {
      RegisteredHosts(c, e);
    }
  }

  lemma AddingRemoteKeepsNames(s: State, user: UserId, host: Host, link: Link, name: string, newId: WorkspaceId, e: Entry, t: State)
    requires Consistent(s) && PlainNames(s) && '@' !in host && RemoteAdded(s, user, host, link, name, newId, e, t)
    ensures PlainNames(t) && (PlainHosts(s) ==> PlainHosts(t))
  {
    if slot :| LinkedIn(s, slot, user, link) {
      var x :| LinkedIn(s, x, user, link) && e == s.stores[x];
      assert Sound(s, x);
      RefreshChangesNothing(s, x);
    } else {
      var base :| IsFirstFree(BaseName(name), TakenRemoteNames(s, user, host), base)
                  && e == RemoteEntry(user, host, link, RemoteId(s, link, newId), base);
      FirstFreeIsPlain(name, TakenRemoteNames(s, user, host), base);
      FirstFreeNameIsPlain(name, TakenRemoteNames(s, user, host), base);
      RemoteNameKey(user, base, host, host);
      RegisteredNames(s, e);
      if PlainHosts(s) {
        RegisteredHosts(s, e);
      }
    }
  }

  lemma DroppingKeepsNames(s: State, e: Entry)
    requires PlainNames(s)
    ensures PlainNames(Dropped(s, e)) && (PlainHosts(s) ==> PlainHosts(Dropped(s, e)))
  {
  }

  lemma TransferringKeepsNames(s: State, id: WorkspaceId, newOwner: UserId)
    requires Consistent(s) && PlainNames(s) && Transferred(s, id, newOwner).Success?
    ensures var t := Transferred(s, id, newOwner).value; PlainNames(t) && (PlainHosts(s) ==> PlainHosts(t))
  {
    var e := Find(s, id).value;
    if e.owner != newOwner {
      assert Sound(s, Slot(s.idIndex[id], id));
      var moved := e.(owner := newOwner, reference := Some(Key(newOwner, e.host, e.name)));
      PlainNameKey(e.owner, e.name, e.host);
      PlainNameKey(newOwner, e.name, e.host);
      DroppingKeepsNames(s, e);
      RegisteredNames(Dropped(s, e), moved);
      if PlainHosts(s) {
        RegisteredHosts(Dropped(s, e), moved);
      }
    }
  }

  lemma StepKeepsNames(s: State, ev: Event, e: Entry, t: State)
    requires Consistent(s) && PlainNames(s) && Step(s, ev, e, t)
    ensures PlainNames(t) && (HostPlain(ev) && PlainHosts(s) ==> PlainHosts(t))
  {
    match ev
    case Create(user, name, host, newId, site, universe) =>
      if Created(s, user, name, host, newId, site, universe).Success? {
        CreatingKeepsNames(s, user, name, host, newId, site, universe);
      }
    case IndexFromDisk(user, f, newId) => IndexingKeepsNames(s, user, f, newId, e, t);
    case AddRemote(user, host, link, name, newId) => AddingRemoteKeepsNames(s, user, host, link, name, newId, e, t);
    case Transfer(id, newOwner) =>
      if Transferred(s, id, newOwner).Success? {
        TransferringKeepsNames(s, id, newOwner);
      }
    case Remove(id, user) =>
      if Resolved(s, id, user).Some? {
        DroppingKeepsNames(s, Resolved(s, id, user).value);
      }
  }

  // ---- Every run ----

  datatype Event =
    | Create(user: UserId, name: string, host: Host, newId: WorkspaceId, site: Site, universe: bool)
    | IndexFromDisk(user: UserId, found: Found, newId: WorkspaceId)
    | AddRemote(user: UserId, host: Host, link: Link, name: string, newId: WorkspaceId)
    | Transfer(id: WorkspaceId, newOwner: UserId)
    | Remove(identifier: string, user: UserId)

  function OrUnchanged(s: State, r: Result<State, Error>): State {
    match r case Success(t) => t case Failure(_) => s
  }

  /** One operation, with a user and, where one is made up, an id no workspace has; failures change nothing. */
  ghost predicate Step(s: State, ev: Event, e: Entry, t: State) {
    match ev
    case Create(user, name, host, newId, site, universe) =>
      && newId !in s.idIndex
      && t == OrUnchanged(s, Created(s, user, name, host, newId, site, universe))
    case IndexFromDisk(user, f, newId) => user != "" && newId !in s.idIndex && IndexedFromDisk(s, user, f, newId, e, t)
    case AddRemote(user, host, link, name, newId) =>
      user != "" && newId !in s.idIndex && '@' !in host && RemoteAdded(s, user, host, link, name, newId, e, t)
    case Transfer(id, newOwner) => t == OrUnchanged(s, Transferred(s, id, newOwner))
    case Remove(id, user) => t == Removed(s, id, user)
  }

  lemma StepKeepsConsistent(s: State, ev: Event, e: Entry, t: State)
    requires Consistent(s) && Step(s, ev, e, t)
    ensures Consistent(t)
    ensures Exact(s) && !(ev.IndexFromDisk? && Renames(s, ev.user, ev.found)) ==> Exact(t)
  {
    match ev
    case Create(user, name, host, newId, site, universe) =>
      if Created(s, user, name, host, newId, site, universe).Success? {
        CreatingKeepsInvariants(s, user, name, host, newId, site, universe);
      }
    case IndexFromDisk(user, f, newId) =>
      IndexingFromDiskKeepsConsistent(s, user, f, newId, e, t);
      if Exact(s) {
        IndexingFromDiskKeepsExact(s, user, f, newId, e, t);
      }
    case AddRemote(user, host, link, name, newId) =>
      AddingRemoteKeepsInvariants(s, user, host, link, name, newId, e, t);
    case Transfer(id, newOwner) =>
      if Transferred(s, id, newOwner).Success? {
        TransferringKeepsInvariants(s, id, newOwner);
      }
    case Remove(id, user) => RemovingKeepsInvariants(s, id, user);
  }

  // ---- One entry for each remote workspace ----

  predicate SameLink(a: Entry, b: Entry) {
    a.origin.Remote? && b.origin.Remote? && a.remote.Some? && a.remote == b.remote
  }

  /** No user has two entries for one remote workspace. */
  predicate LinksApart(stores: map<Slot, Entry>) {
    forall x, y :: x in stores && y in stores && x.user == y.user && SameLink(stores[x], stores[y]) ==> x == y
  }

  predicate NoNewRemote(before: map<Slot, Entry>, after: map<Slot, Entry>) {
    forall x :: x in after && after[x].origin.Remote? ==> x in before && before[x] == after[x]
  }

  lemma TransferAddsNoRemote(s: State, id: WorkspaceId, newOwner: UserId)
    requires Transferred(s, id, newOwner).Success?
    ensures NoNewRemote(s.stores, Transferred(s, id, newOwner).value.stores)
  {
  }

  lemma IndexingAddsNoRemote(s: State, user: UserId, f: Found, newId: WorkspaceId, e: Entry, t: State)
    requires IndexedFromDisk(s, user, f, newId, e, t)
    ensures NoNewRemote(s.stores, t.stores)
  {
    assert Cleared(s, user, f).stores == s.stores;
  }

  lemma LocalStepAddsNoRemote(s: State, ev: Event, e: Entry, t: State)
    requires Step(s, ev, e, t) && !ev.AddRemote?
    ensures NoNewRemote(s.stores, t.stores)
  {
    match ev
    case Transfer(id, newOwner) =>
      if Transferred(s, id, newOwner).Success? {
        TransferAddsNoRemote(s, id, newOwner);
      }
    case IndexFromDisk(user, f, newId) => IndexingAddsNoRemote(s, user, f, newId, e, t);
    case _ =>
  }

  lemma AddingRemoteKeepsLinks(s: State, user: UserId, host: Host, link: Link, name: string, newId: WorkspaceId, e: Entry, t: State)
    requires Consistent(s) && LinksApart(s.stores) && RemoteAdded(s, user, host, link, name, newId, e, t)
    ensures LinksApart(t.stores)
  {
    if slot :| LinkedIn(s, slot, user, link) {
      var x :| LinkedIn(s, x, user, link) && e == s.stores[x];
      assert Sound(s, x);
      RefreshChangesNothing(s, x);
    } else {
      forall x | x in s.stores && x.user == user && s.stores[x].origin.Remote? ensures s.stores[x].remote != Some(link) {
        assert !LinkedIn(s, x, user, link);
      }
    }
  }

  /** A refresh instead of a duplicate: every operation keeps the entries of one user apart. */
  lemma StepKeepsLinks(s: State, ev: Event, e: Entry, t: State)
    requires Consistent(s) && LinksApart(s.stores) && Step(s, ev, e, t)
    ensures LinksApart(t.stores)
  {
    if ev.AddRemote? {
      AddingRemoteKeepsLinks(s, ev.user, ev.host, ev.link, ev.name, ev.newId, e, t);
    } else {
      LocalStepAddsNoRemote(s, ev, e, t);
    }
  }

  predicate IsFound(s: State, x: Slot)
    requires x in s.stores
  {
    var k := KeyOf(s.stores[x]);
    Find(s, x.id) == Some(s.stores[x]) && k in s.nameIndex && s.nameIndex[k] == x.id
  }

  /** A run as the states it goes through, with the event and the entry of each step. */
  ghost predicate Run(states: seq<State>, events: seq<Event>, entries: seq<Entry>) {
    |states| == |events| + 1 == |entries| + 1 && forall i :: 0 <= i < |events| ==> Step(states[i], events[i], entries[i], states[i + 1])
  }

  ghost predicate Steady(states: seq<State>, events: seq<Event>, entries: seq<Entry>)
    requires Run(states, events, entries)
  {
    forall i :: 0 <= i < |events| && events[i].IndexFromDisk? ==> !Renames(states[i], events[i].user, events[i].found)
  }

  /**
   Over every run from an empty registry ids stay unique, every entry is found by its id and its name, and no
   user has two workspaces of one name on one host or two entries for one remote workspace; and a rebuild would
   give the very indexes kept incrementally exactly if they are exact, as they are unless a rescan saw a rename.
   */
  lemma {:induction false} RegistryStaysConsistent(states: seq<State>, events: seq<Event>, entries: seq<Entry>, order: seq<Slot>)
    requires Run(states, events, entries) && states[0] == State(map[], map[], map[], map[])
    ensures var s := states[|events|];
            && (forall x, y :: x in s.stores && y in s.stores && (x.id == y.id || KeyOf(s.stores[x]) == KeyOf(s.stores[y])) ==> x == y)
            && (forall x :: x in s.stores ==> IsFound(s, x))
            && LinksApart(s.stores)
            && (Enumerates(order, s.stores.Keys) ==> (Reindexed(s, order) == s <==> Exact(s)))
            && (Steady(states, events, entries) && Enumerates(order, s.stores.Keys) ==> Reindexed(s, order) == s)
  {
    var s := states[|events|];
    RunKeepsConsistent(states, events, entries, |events|);
    forall x | x in s.stores ensures IsFound(s, x) {
      assert Sound(s, x);
    }
    forall x, y | x in s.stores && y in s.stores && (x.id == y.id || KeyOf(s.stores[x]) == KeyOf(s.stores[y])) ensures x == y {
      NoTwins(s, x, y);
    }
    if Enumerates(order, s.stores.Keys) {
      ExactIsRebuilt(s, order);
    }
  }

  lemma {:induction false} RunKeepsConsistent(states: seq<State>, events: seq<Event>, entries: seq<Entry>, n: nat)
    requires Run(states, events, entries) && states[0] == State(map[], map[], map[], map[]) && n <= |events|
    ensures Consistent(states[n]) && LinksApart(states[n].stores) && (Steady(states, events, entries) ==> Exact(states[n]))
  {
    if n > 0 {
      RunKeepsConsistent(states, events, entries, n - 1);
      StepKeepsConsistent(states[n - 1], events[n - 1], entries[n - 1], states[n]);
      StepKeepsLinks(states[n - 1], events[n - 1], entries[n - 1], states[n]);
    }
  }

  /** Over every run names stay plain, and hosts have no `@` if none is brought in with one. */
  lemma {:induction false} RunKeepsNames(states: seq<State>, events: seq<Event>, entries: seq<Entry>, n: nat)
    requires Run(states, events, entries) && states[0] == State(map[], map[], map[], map[]) && n <= |events|
    ensures PlainNames(states[n])
    ensures (forall i :: 0 <= i < |events| ==> HostPlain(events[i])) ==> PlainHosts(states[n])
  {
    if n > 0 {
      RunKeepsNames(states, events, entries, n - 1);
      RunKeepsConsistent(states, events, entries, n - 1);
      StepKeepsNames(states[n - 1], events[n - 1], entries[n - 1], states[n]);
    }
  }

  // ---- A directory renamed on disk ----

  const EMPTY := State(map[], map[], map[], map[])

  /** What the first registration of a directory leaves, and a second one under another name. */
  function RegisteredOnce(user: UserId, f: Found): State {
    Registered(EMPTY, FoundEntry(EMPTY.stores, user, f, f.id, f.name))
  }

  function RegisteredAgain(user: UserId, f: Found, name: string): State {
    var t := RegisteredOnce(user, f);
    Registered(t, FoundEntry(t.stores, user, f.(name := name), f.id, name))
  }

  lemma RegistersOnce(user: UserId, f: Found, newId: WorkspaceId)
    requires f.name != "" && PlainName(f.name)
    requires user != ""
    ensures Step(EMPTY, IndexFromDisk(user, f, newId), FoundEntry(EMPTY.stores, user, f, f.id, f.name), RegisteredOnce(user, f))
  {
    PlainIsKept(f.name);
    OnlyBaseName(EMPTY, user, f, f.name);
  }

  lemma RegistersAgain(user: UserId, f: Found, name: string, newId: WorkspaceId)
    requires user != "" && f.id != newId && f.name != "" && PlainName(f.name) && name != "" && PlainName(name)
    ensures var t, g := RegisteredOnce(user, f), f.(name := name);
            Step(t, IndexFromDisk(user, g, newId), FoundEntry(t.stores, user, g, f.id, name), RegisteredAgain(user, f, name))
  {
    var t, g := RegisteredOnce(user, f), f.(name := name);
    assert CollisionOf(t, user, g) == Same(FoundEntry(EMPTY.stores, user, f, f.id, f.name));
    PlainIsKept(name);
    OnlyBaseName(t, user, g, name);
  }

  /** The first name still leads to the entry, which has the second. */
  lemma FirstNameIsStale(user: UserId, f: Found, name: string)
    requires f.name != name && PlainName(f.name) && PlainName(name)
    ensures !Exact(RegisteredAgain(user, f, name))
  {
    var u := RegisteredAgain(user, f, name);
    PlainNameKey(user, f.name, f.host);
    PlainNameKey(user, name, f.host);
    var k := Key(user, f.host, f.name);
    assert k in u.nameIndex && u.nameIndex[k] == f.id && EntryOf(u, f.id).name == name;
    assert KeyOf(EntryOf(u, f.id)) != k;
  }

  lemma TwoSteps(t: State, u: State, a: Event, b: Event, d: Entry, e: Entry)
    requires Step(EMPTY, a, d, t) && Step(t, b, e, u)
    ensures Run([EMPTY, t, u], [a, b], [d, e]) && Consistent(u)
  {
    RunOfTwo(t, u, a, b, d, e);
    StepKeepsConsistent(EMPTY, a, d, t);
    StepKeepsConsistent(t, b, e, u);
  }

  lemma RunOfTwo(t: State, u: State, a: Event, b: Event, d: Entry, e: Entry)
    requires Step(EMPTY, a, d, t) && Step(t, b, e, u)
    ensures Run([EMPTY, t, u], [a, b], [d, e])
  {
    var states, events, entries := [EMPTY, t, u], [a, b], [d, e];
    assert states[0] == EMPTY && states[1] == t && states[2] == u;
    assert events[0] == a && events[1] == b && entries[0] == d && entries[1] == e;
  }

  lemma InexactIsNotRebuilt(s: State)
    requires Consistent(s) && !Exact(s)
    ensures forall order :: Enumerates(order, s.stores.Keys) ==> Reindexed(s, order) != s
  {
    forall order | Enumerates(order, s.stores.Keys) ensures Reindexed(s, order) != s {
      ExactIsRebuilt(s, order);
    }
  }

  /** A directory registered once, and again under another name: a rebuild would drop the first name. */
  lemma RenamedDirectoryIsStale(user: UserId, f: Found, name: string, newId: WorkspaceId) returns (states: seq<State>, events: seq<Event>, entries: seq<Entry>)
    requires user != "" && f.id != newId
    requires f.name != "" && name != "" && f.name != name && PlainName(f.name) && PlainName(name)
    ensures Run(states, events, entries) && |events| == 2 && states[0] == State(map[], map[], map[], map[])
    ensures events == [IndexFromDisk(user, f, newId), IndexFromDisk(user, f.(name := name), newId)]
    ensures forall order :: Enumerates(order, states[2].stores.Keys) ==> Reindexed(states[2], order) != states[2]
  {
    var t, u, g := RegisteredOnce(user, f), RegisteredAgain(user, f, name), f.(name := name);
    RegistersOnce(user, f, newId);
    RegistersAgain(user, f, name, newId);
    states, events := [EMPTY, t, u], [IndexFromDisk(user, f, newId), IndexFromDisk(user, g, newId)];
    var d, e := FoundEntry(EMPTY.stores, user, f, f.id, f.name), FoundEntry(t.stores, user, g, f.id, name);
    entries := [d, e];
    TwoSteps(t, u, events[0], events[1], d, e);
    FirstNameIsStale(user, f, name);
    InexactIsNotRebuilt(u);
  }

  /** With no other workspace registered the first name is free. */
  lemma OnlyBaseName(s: State, user: UserId, f: Found, name: string)
    requires name != "" && f.name == name && Sanitized(name) == name
    requires forall k :: k in s.nameIndex ==> s.nameIndex[k] == f.id
    ensures IsFirstFree(BaseName(f.name), TakenNames(s, user, f.host, f.id), name)
  {
    assert TakenNames(s, user, f.host, f.id) == {};
    assert Candidate(BaseName(f.name), 1) == name;
  }
}
