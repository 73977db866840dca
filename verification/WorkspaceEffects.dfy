/** What each registry operation does to the entries it names, and that it does nothing to any other. */
module WorkspaceEffects {
  import opened Wrappers
  import opened Naming
  import opened WorkspaceRegistry
  import Text

  // ---- Names ----

  lemma KeptFirst(c: char, s: string)
    ensures KeepNameChars([c] + s) == (if NameChar(c) then [c] else "") + KeepNameChars(s)
  {
    assert ([c] + s)[1..] == s;
  }

  lemma {:induction false} KeptInTwo(a: string, b: string)
    ensures KeepNameChars(a + b) == KeepNameChars(a) + KeepNameChars(b)
  {
    if a == "" {
      assert a + b == b;
    } else {
      KeptInTwo(a[1..], b);
      KeptFirst(a[0], a[1..] + b);
      KeptFirst(a[0], a[1..]);
      Text.FirstOfTwo(a, b);
      Text.InThree(if NameChar(a[0]) then [a[0]] else "", KeepNameChars(a[1..]), KeepNameChars(b));
    }
  }

  /** Sanitizing goes character by character: capitals become small, and what is no letter, digit, `-` or `_` goes. */
  lemma SanitizedByCharacter(a: string, c: char)
    ensures Sanitized("") == ""
    ensures 'A' <= c <= 'Z' ==> Sanitized(a + [c]) == Sanitized(a) + [(c as int - 'A' as int + 'a' as int) as char]
    ensures 'a' <= c <= 'z' || '0' <= c <= '9' || c == '-' || c == '_' ==> Sanitized(a + [c]) == Sanitized(a) + [c]
    ensures !('A' <= c <= 'Z' || 'a' <= c <= 'z' || '0' <= c <= '9' || c == '-' || c == '_') ==> Sanitized(a + [c]) == Sanitized(a)
  {
    Text.LowerInTwo(a, [c]);
    KeptInTwo(Text.ToLower(a), Text.ToLower([c]));
    assert [c][1..] == "" && Text.ToLower([c]) == [Text.Lower(c)];
    assert [Text.Lower(c)][1..] == "";
    assert Sanitized(a) + "" == Sanitized(a);
  }

  // ---- Registering ----

  lemma RegisteredAdds(s: State, e: Entry)
    ensures OnlyAdded(s, Registered(s, e), e)
  {
  }

  /** Whether an id on disk is in use by another directory that is still there, or by another user. */
  predicate HeldElsewhere(s: State, user: UserId, f: Found) {
    var was := Find(s, f.id);
    && was.Some?
    && (s.idIndex[f.id] != user
        || (was.value.rootPath != Some(f.dir) && was.value.rootPath.Some? && was.value.rootPath.value in f.present))
  }

  /** What a directory found is registered as, and which entry of the stores that is. */
  lemma FoundIsRegistered(s: State, user: UserId, f: Found, newId: WorkspaceId, e: Entry, t: State)
    requires Consistent(s) && user != "" && newId !in s.idIndex && IndexedFromDisk(s, user, f, newId, e, t)
    ensures e.id == if HeldElsewhere(s, user, f) then newId else f.id
    ensures e.owner == user && e.host == f.host && e.rootPath == Some(f.dir) && e.origin == OnDisk && e.universe == f.universe
    ensures e.reference == Some(Key(user, f.host, e.name))
    ensures Find(t, e.id) == Some(e) && AgreeOutside(s.stores, t.stores, {Slot(user, e.id)})
    ensures Key(user, f.host, e.name) in t.nameIndex && t.nameIndex[Key(user, f.host, e.name)] == e.id
    ensures if Slot(user, e.id) in s.stores then e.remote == s.stores[Slot(user, e.id)].remote else e.remote.None?
    ensures f.owner.Some? && f.owner.value != user && f.owner.value != "" ==> e.importedFrom == f.owner
    ensures !(f.owner.Some? && f.owner.value != user && f.owner.value != "") ==>
              e.importedFrom == if Slot(user, e.id) in s.stores then s.stores[Slot(user, e.id)].importedFrom else None
  {
    FoundIsApart(s, user, f, newId, e, t);
    RegisteredAdds(Cleared(s, user, f), e);
  }

  /** The name it gets: its own, sanitized, if no other workspace of the user on the host has that; else with the first free number. */
  lemma FoundIsNamed(s: State, user: UserId, f: Found, newId: WorkspaceId, e: Entry, t: State)
    requires Consistent(s) && user != "" && newId !in s.idIndex && IndexedFromDisk(s, user, f, newId, e, t)
    ensures var base := if Sanitized(f.name) == "" then "workspace" else Sanitized(f.name);
            exists i :: 1 <= i && e.name == Candidate(base, i)
                        && forall j :: 1 <= j < i ==> Taken(Cleared(s, user, f), Key(user, f.host, Candidate(base, j)), e.id)
    ensures !Taken(Cleared(s, user, f), Key(user, f.host, e.name), e.id)
  {
    var c, base := Cleared(s, user, f), BaseName(f.name);
    var taken := TakenNames(c, user, f.host, e.id);
    var i :| 1 <= i && e.name == Candidate(base, i) && e.name !in taken && forall j :: 1 <= j < i ==> Candidate(base, j) in taken;
    forall j | 1 <= j < i ensures Taken(c, Key(user, f.host, Candidate(base, j)), e.id) {
      assert Candidate(base, j) in taken;
    }
    TakenNamesHave(c, user, f.host, e.id);
  }

  predicate Taken(s: State, k: Key, id: WorkspaceId) { k in s.nameIndex && s.nameIndex[k] != id }

  /** A remote workspace: the entry the user had, or a new one of its own on the remote host. */
  lemma RemoteIsRegistered(s: State, user: UserId, host: Host, link: Link, name: string, newId: WorkspaceId, e: Entry, t: State)
    requires Consistent(s) && user != "" && newId !in s.idIndex && '@' !in host && RemoteAdded(s, user, host, link, name, newId, e, t)
    ensures e.owner == user && e.origin == Remote && e.remote == Some(link)
    ensures Find(t, e.id) == Some(e) && AgreeOutside(s.stores, t.stores, {Slot(user, e.id)})
    ensures if exists x :: x in s.stores && x.user == user && IsRemoteTo(s.stores[x], link) then t == s
            else
              && Slot(user, e.id) !in s.stores && e.host == host && e.rootPath.None? && e.importedFrom.None? && !e.universe
              && e.id == if link.workspaceId in s.idIndex then newId else link.workspaceId
  {
    RegisteredAdds(s, e);
    if slot :| LinkedIn(s, slot, user, link) {
      var x :| LinkedIn(s, x, user, link) && e == s.stores[x];
      assert Sound(s, x);
      RefreshChangesNothing(s, x);
    } else {
      assert forall x :: x in s.stores && x.user == user ==> !LinkedIn(s, x, user, link);
      assert !Leads(s, e.id);
      UnindexedIsNew(s, e.id);
    }
  }

  /** A new remote workspace is named by its sanitized name, with the first free number on that host, at that host. */
  lemma RemoteIsNamed(s: State, user: UserId, host: Host, link: Link, name: string, newId: WorkspaceId, e: Entry, t: State)
    requires RemoteAdded(s, user, host, link, name, newId, e, t)
    requires forall x :: x in s.stores && x.user == user ==> !IsRemoteTo(s.stores[x], link)
    ensures var base := if Sanitized(name) == "" then "workspace" else Sanitized(name);
            exists i :: 1 <= i && e.name == Candidate(base, i) + "@" + host && Key(user, host, Candidate(base, i)) !in s.nameIndex
                        && forall j :: 1 <= j < i ==> Key(user, host, Candidate(base, j)) in s.nameIndex
  {
    assert !exists slot :: LinkedIn(s, slot, user, link);
    var taken := TakenRemoteNames(s, user, host);
    var base :| IsFirstFree(BaseName(name), taken, base) && e == RemoteEntry(user, host, link, RemoteId(s, link, newId), base);
    var i :| 1 <= i && base == Candidate(BaseName(name), i) && base !in taken
             && forall j :: 1 <= j < i ==> Candidate(BaseName(name), j) in taken;
    TakenRemoteNamesHave(s, user, host);
    forall j | 1 <= j < i ensures Key(user, host, Candidate(BaseName(name), j)) in s.nameIndex {
      assert Candidate(BaseName(name), j) in taken;
    }
    assert Key(user, host, base) !in s.nameIndex;
  }

  // ---- Transferring and removing ----

  lemma MovingIsOfOne(s: State, was: Entry, e: Entry)
    requires e.id == was.id && e.owner != was.owner && KeyOf(e).user == e.owner && KeyOf(was).user == was.owner
    ensures OnlyMoved(s, Registered(Dropped(s, was), e), was, e)
  {
  }

  lemma KeyHasOwner(e: Entry)
    ensures KeyOf(e).user == e.owner
  {
  }

  lemma TransferMoves(s: State, id: WorkspaceId, newOwner: UserId)
    requires Consistent(s) && Transferred(s, id, newOwner).Success?
    ensures var was, t := Find(s, id), Transferred(s, id, newOwner).value;
            && was.Some? && was.value.id == id && newOwner != ""
            && if was.value.owner == newOwner then t == s
               else
                 var e := was.value.(owner := newOwner, reference := Some(Key(newOwner, was.value.host, was.value.name)));
                 Find(t, id) == Some(e) && OnlyMoved(s, t, was.value, e)
  {
    assert Sound(s, Slot(s.idIndex[id], id));
    var was := Find(s, id).value;
    if was.owner != newOwner {
      var e := was.(owner := newOwner, reference := Some(Key(newOwner, was.host, was.name)));
      KeyHasOwner(was);
      KeyHasOwner(e);
      MovingIsOfOne(s, was, e);
      assert Transferred(s, id, newOwner).value == Registered(Dropped(s, was), e);
    }
  }

  /** The workspace a removal takes, if any. */
  function TakenBy(s: State, identifier: string, user: UserId): Option<Entry> {
    match Resolved(s, identifier, user)
    case Some(e) => if user == "" || e.owner == user then Some(e) else None
    case None => None
  }

  lemma DroppingTakes(s: State, e: Entry)
    ensures OnlyTaken(s, Dropped(s, e), e) && Find(Dropped(s, e), e.id).None?
  {
  }

  lemma RemovalTakes(s: State, identifier: string, user: UserId)
    requires Consistent(s)
    ensures var e, t := TakenBy(s, identifier, user), Removed(s, identifier, user);
            if e.None? then t == s
            else
              && Slot(e.value.owner, e.value.id) in s.stores && s.stores[Slot(e.value.owner, e.value.id)] == e.value
              && OnlyTaken(s, t, e.value) && Find(t, e.value.id).None?
  {
    var e := TakenBy(s, identifier, user);
    if e.Some? {
      ResolvedIsStored(s, identifier, user);
      DroppingTakes(s, e.value);
    }
  }

  // ---- Every step, and every run ----

  /** The places in the stores an operation may touch. */
  function Touched(s: State, ev: Event, e: Entry): set<Slot> {
    match ev
    case Create(user, _, _, newId, _, _) => {Slot(user, newId)}
    case IndexFromDisk(user, _, _) => {Slot(user, e.id)}
    case AddRemote(user, _, _, _, _) => {Slot(user, e.id)}
    case Transfer(id, newOwner) => (set x | x in s.stores && x.id == id) + {Slot(newOwner, id)}
    case Remove(identifier, user) =>
      var gone := TakenBy(s, identifier, user);
      if gone.Some? then {Slot(gone.value.owner, gone.value.id)} else {}
  }

  lemma StepLeavesOthers(s: State, ev: Event, e: Entry, t: State)
    requires Consistent(s) && Step(s, ev, e, t)
    ensures AgreeOutside(s.stores, t.stores, Touched(s, ev, e))
  {
    match ev
    case Create(_, _, _, _, _, _) =>
    case IndexFromDisk(user, f, newId) => FoundIsRegistered(s, user, f, newId, e, t);
    case AddRemote(user, host, link, name, newId) => RemoteIsRegistered(s, user, host, link, name, newId, e, t);
    case Transfer(id, newOwner) =>
      if Transferred(s, id, newOwner).Success? {
        TransferMoves(s, id, newOwner);
        assert Find(s, id).value.owner != newOwner ==> Slot(Find(s, id).value.owner, id) in s.stores;
      }
    case Remove(identifier, user) => RemovalTakes(s, identifier, user);
  }

  predicate IsStored(s: State, id: WorkspaceId) {
    exists x :: x in s.stores && x.id == id
  }

  predicate Takes(s: State, ev: Event, id: WorkspaceId) {
    ev.Remove? && TakenBy(s, ev.identifier, ev.user).Some? && TakenBy(s, ev.identifier, ev.user).value.id == id
  }

  lemma OtherStaysStored(s: State, ev: Event, e: Entry, t: State, x: Slot)
    requires Consistent(s) && Step(s, ev, e, t) && x in s.stores && x !in Touched(s, ev, e)
    ensures IsStored(t, x.id)
  {
    StepLeavesOthers(s, ev, e, t);
    assert x in t.stores;
  }

  lemma TouchedStaysStored(s: State, ev: Event, e: Entry, t: State, x: Slot)
    requires Consistent(s) && Step(s, ev, e, t) && x in s.stores && x in Touched(s, ev, e) && !Takes(s, ev, x.id)
    ensures IsStored(t, x.id)
  {
    assert Sound(s, x);
    match ev
    case Create(_, _, _, _, _, _) =>
    case IndexFromDisk(user, f, newId) =>
      FoundIsRegistered(s, user, f, newId, e, t);
      assert x in t.stores;
    case AddRemote(user, host, link, name, newId) =>
      RemoteIsRegistered(s, user, host, link, name, newId, e, t);
      assert x in t.stores;
    case Transfer(id, newOwner) =>
      NoTwins(s, x, x);
      if Transferred(s, id, newOwner).Success? {
        TransferMoves(s, id, newOwner);
        assert Slot(newOwner, id) in t.stores || t == s;
      }
    case Remove(identifier, user) => RemovalTakes(s, identifier, user);
  }

  /** A workspace that is stored is stored after every operation but a removal that takes it, and not after that. */
  lemma StepKeepsStored(s: State, ev: Event, e: Entry, t: State, id: WorkspaceId)
    requires Consistent(s) && Step(s, ev, e, t) && IsStored(s, id)
    ensures IsStored(t, id) <==> !Takes(s, ev, id)
  {
    var x :| x in s.stores && x.id == id;
    if Takes(s, ev, id) {
      RemovalTakes(s, ev.identifier, ev.user);
      StepKeepsConsistent(s, ev, e, t);
      UnindexedIsNew(t, id);
    } else if x in Touched(s, ev, e) {
      TouchedStaysStored(s, ev, e, t, x);
    } else {
      OtherStaysStored(s, ev, e, t, x);
    }
  }

  /** So over every run a workspace once stored is stored until the removal that takes it. */
  lemma {:induction false} StoredUntilTaken(states: seq<State>, events: seq<Event>, entries: seq<Entry>, i: nat, n: nat, id: WorkspaceId)
    requires Run(states, events, entries) && states[0] == State(map[], map[], map[], map[]) && i <= n <= |events|
    requires IsStored(states[i], id)
    requires forall k :: i <= k < n ==> !Takes(states[k], events[k], id)
    ensures IsStored(states[n], id)
  {
    if i < n {
      StoredUntilTaken(states, events, entries, i, n - 1, id);
      RunKeepsConsistent(states, events, entries, n - 1);
      StepKeepsStored(states[n - 1], events[n - 1], entries[n - 1], states[n], id);
    }
  }
}
