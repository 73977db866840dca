/**
 The agents service's registry (src/core/agent/index.js): a store of agents by `owner/id`, and beside it the
 name, reference and token indexes, kept up to date by every operation and rebuilt from the store at start.
 */
module AgentRegistry {
  import opened Hyphens
  import opened Wrappers
  import Text
  import WorkspaceRegistry

  type UserId = string
  type AgentId = string
  type Host = string
  type StoreKey = string
  type TokenHash = string
  type Key = WorkspaceRegistry.Key

  const DEFAULT_HOST := WorkspaceRegistry.DEFAULT_HOST

  datatype Agent = Agent(id: AgentId, name: string, host: Host, owner: UserId, token: Option<TokenHash>)

  datatype State = State(
    store: map<StoreKey, Agent>,
    names: map<Key, AgentId>,
    references: map<Key, AgentId>,
    tokens: map<TokenHash, StoreKey>)

  const EMPTY := State(map[], map[], map[], map[])

  datatype Error = NameInvalid | ColorInvalid | ProviderInvalid | NameTaken | Unresolved | NotFound | Denied | NotBound

  // ---- Names ----

  function Slug(name: string): string {
    StripEnd(StripStart(Hyphenated(Text.ToLower(Text.Trim(name)))))
  }

  predicate ValidName(name: string) {
    3 <= |name| <= 39 && forall c :: c in name ==> SlugChar(c) || 'A' <= c <= 'Z' || c == '_' || c == '-'
  }

  lemma SlugIsSlug(name: string)
    ensures IsSlug(Slug(name))
  {
    HyphenatedIsSingle(Text.ToLower(Text.Trim(name)));
    StrippedIsSlug(Hyphenated(Text.ToLower(Text.Trim(name))));
  }

  /** The names the registry stores are the ones normalizing leaves alone. */
  lemma SlugLeaves(name: string)
    ensures Slug(name) == name <==> IsSlug(name)
  {
    SlugIsSlug(name);
    if IsSlug(name) {
      CleanLeaves(name);
    }
  }

  /** A name is normalized to its words, in small letters, with one hyphen between them. */
  lemma SlugIsWords(name: string)
    ensures Slug(name) == Text.Join(Words(Text.ToLower(Text.Trim(name))), '-')
  {
    CleanIsWords(Text.ToLower(Text.Trim(name)));
  }

  // ---- Keys ----

  function IndexKey(user: UserId, id: AgentId): StoreKey { user + "/" + id }

  /** A store key is taken apart only if it has exactly one slash. */
  function ParseIndexKey(key: StoreKey): Option<(UserId, AgentId)> {
    var parts := Text.Split(key, '/');
    if key != "" && |parts| == 2 then Some((parts[0], parts[1])) else None
  }

  lemma IndexKeyParses(user: UserId, id: AgentId)
    ensures ParseIndexKey(IndexKey(user, id)) == Some((user, id)) <==> '/' !in user && '/' !in id
  {
    var key := IndexKey(user, id);
    if '/' !in user {
      Text.IndexIs(key, '/', |user|);
      assert key[..|user|] == user && key[|user| + 1..] == id;
      OnePart(id);
    } else {
      OnePart(Text.Split(key, '/')[0]);
      SplitHasNoSeparator(key);
    }
  }

  lemma OnePart(s: string)
    ensures |Text.Split(s, '/')| == 1 <==> '/' !in s
    ensures '/' !in s ==> Text.Split(s, '/') == [s]
  {
    assert '/' in s <==> exists k :: 0 <= k < |s| && s[k] == '/';
  }

  lemma SplitHasNoSeparator(s: string)
    ensures '/' !in Text.Split(s, '/')[0]
  {
  }

  function KeyOf(a: Agent): Key { WorkspaceRegistry.Key(a.owner, a.host, a.name) }

  predicate HexOrHyphen(c: char) { 'a' <= c <= 'f' || '0' <= c <= '9' || c == '-' }

  predicate LetterOrDigit(c: char) { SlugChar(c) || 'A' <= c <= 'Z' }

  /** Identifiers taken for ids without a look at the indexes. */
  predicate LooksLikeId(identifier: string) {
    || (|identifier| == 36 && forall c :: c in identifier ==> HexOrHyphen(c))
    || (|identifier| == 12 && forall c :: c in identifier ==> LetterOrDigit(c))
  }

  // ---- What each operation does ----

  function Resolved(s: State, owner: UserId, identifier: string): Option<AgentId> {
    if identifier == "" then None
    else if LooksLikeId(identifier) then Some(identifier)
    else
      var key := WorkspaceRegistry.Key(owner, DEFAULT_HOST, Slug(identifier));
      if key in s.names then Some(s.names[key]) else None
  }

  /** The store key of an agent its owner asks for. */
  function Lookup(s: State, owner: UserId, identifier: string, requester: UserId): Result<StoreKey, Error> {
    match Resolved(s, owner, identifier)
    case None => Failure(Unresolved)
    case Some(id) =>
      if IndexKey(owner, id) !in s.store then Failure(NotFound)
      else if s.store[IndexKey(owner, id)].owner != requester then Failure(Denied)
      else Success(IndexKey(owner, id))
  }

  function Created(s: State, owner: UserId, name: string, host: Host, id: AgentId): Result<State, Error> {
    var slug := Slug(name);
    var key := WorkspaceRegistry.Key(owner, if host == "" then DEFAULT_HOST else host, slug);
    if name == "" || !ValidName(slug) then Failure(NameInvalid)
    else if key in s.references then Failure(NameTaken)
    else Success(s.(store := s.store[IndexKey(owner, id) := Agent(id, slug, key.host, owner, None)],
                    names := s.names[key := id],
                    references := s.references[key := id]))
  }

  predicate HexDigit(c: char) { '0' <= c <= '9' || 'a' <= c <= 'f' || 'A' <= c <= 'F' }

  /** `#` and three to six hexadecimal digits; without a color a random one is taken. */
  predicate ValidColor(color: string) {
    color == "" || (4 <= |color| <= 7 && color[0] == '#' && forall c :: c in color[1..] ==> HexDigit(c))
  }

  /** The whole of a creation: the color is looked at before the name is looked up, the provider after. */
  function CreatedAs(s: State, owner: UserId, name: string, host: Host, id: AgentId, color: string, providerWorks: bool): Result<State, Error> {
    if name == "" || !ValidName(Slug(name)) then Failure(NameInvalid)
    else if !ValidColor(color) then Failure(ColorInvalid)
    else
      match Created(s, owner, name, host, id)
      case Success(t) => if providerWorks then Success(t) else Failure(ProviderInvalid)
      case Failure(error) => Failure(error)
  }

  /** The name an update asks for, if it may have it. */
  function Renamed(s: State, at: StoreKey, name: string): Result<State, Error>
    requires at in s.store
  {
    var a, slug := s.store[at], Slug(name);
    var was, next := WorkspaceRegistry.Key(a.owner, a.host, Slug(a.name)), WorkspaceRegistry.Key(a.owner, a.host, slug);
    if !ValidName(slug) then Failure(NameInvalid)
    else if slug != Slug(a.name) && next in s.names && s.names[next] != a.id then Failure(NameTaken)
    else Success(s.(store := s.store[at := a.(name := slug)],
                    names := (s.names - {was})[next := a.id],
                    references := (s.references - {was})[next := a.id]))
  }

  /** An update, with a new name or of other fields alone, which no index has. */
  function Updated(s: State, at: StoreKey, name: Option<string>, providerWorks: bool): Result<State, Error>
    requires at in s.store
  {
    match if name.Some? then Renamed(s, at, name.value) else Success(s)
    case Success(t) => if providerWorks then Success(t) else Failure(ProviderInvalid)
    case Failure(error) => Failure(error)
  }

  function Deleted(s: State, at: StoreKey): State
    requires at in s.store
  {
    var a := s.store[at];
    var key := WorkspaceRegistry.Key(a.owner, a.host, Text.ToLower(a.name));
    State(s.store - {at}, s.names - {key}, s.references - {key},
          match a.token case Some(hash) => s.tokens - {hash} case None => s.tokens)
  }

  function Bound(s: State, at: StoreKey, token: Option<TokenHash>): State
    requires at in s.store
  {
    var a := s.store[at];
    var left := if a.token.Some? && a.token != token then s.tokens - {a.token.value} else s.tokens;
    s.(store := s.store[at := a.(token := token)],
       tokens := match token case Some(hash) => left[hash := at] case None => left)
  }

  // What the calls promise of the tables themselves.

  function HashesOf(token: Option<TokenHash>): set<TokenHash> { if token.Some? then {token.value} else {} }

  /** One agent more, found by name and reference; nothing else has changed. */
  ghost predicate OnlyAdded(s: State, t: State, at: StoreKey, a: Agent) {
    && at in t.store && t.store[at] == a && AgreeOutside(s.store, t.store, {at})
    && KeyOf(a) in t.names && t.names[KeyOf(a)] == a.id && AgreeOutside(s.names, t.names, {KeyOf(a)})
    && KeyOf(a) in t.references && t.references[KeyOf(a)] == a.id && AgreeOutside(s.references, t.references, {KeyOf(a)})
    && t.tokens == s.tokens
  }

  /** One agent under another name; nothing else has changed. */
  ghost predicate OnlyRenamed(s: State, t: State, at: StoreKey, was: Agent, a: Agent) {
    && at in t.store && t.store[at] == a && AgreeOutside(s.store, t.store, {at})
    && KeyOf(a) in t.names && t.names[KeyOf(a)] == a.id && (a.name != was.name ==> KeyOf(was) !in t.names)
    && AgreeOutside(s.names, t.names, {KeyOf(was), KeyOf(a)})
    && KeyOf(a) in t.references && t.references[KeyOf(a)] == a.id && (a.name != was.name ==> KeyOf(was) !in t.references)
    && AgreeOutside(s.references, t.references, {KeyOf(was), KeyOf(a)})
    && t.tokens == s.tokens
  }

  /** One agent less, with its name, reference and token; nothing else has changed. */
  ghost predicate OnlyTaken(s: State, t: State, at: StoreKey, a: Agent) {
    && at !in t.store && AgreeOutside(s.store, t.store, {at})
    && KeyOf(a) !in t.names && AgreeOutside(s.names, t.names, {KeyOf(a)})
    && KeyOf(a) !in t.references && AgreeOutside(s.references, t.references, {KeyOf(a)})
    && HashesOf(a.token) !! t.tokens.Keys && AgreeOutside(s.tokens, t.tokens, HashesOf(a.token))
  }

  /** One agent with another token, or none, which leads to it; the one it had leads nowhere; nothing else has changed. */
  ghost predicate OnlyBound(s: State, t: State, at: StoreKey, was: Agent, token: Option<TokenHash>) {
    && at in t.store && t.store[at] == was.(token := token) && AgreeOutside(s.store, t.store, {at})
    && t.names == s.names && t.references == s.references
    && (token.Some? ==> token.value in t.tokens && t.tokens[token.value] == at)
    && HashesOf(was.token) - HashesOf(token) !! t.tokens.Keys
    && AgreeOutside(s.tokens, t.tokens, HashesOf(was.token) + HashesOf(token))
  }

  class AgentService {
    var store: map<StoreKey, Agent>
    var names: map<Key, AgentId>
    var references: map<Key, AgentId>
    var tokens: map<TokenHash, StoreKey>

    ghost function View(): State
      reads this
    {
      State(store, names, references, tokens)
    }

    constructor ()
      ensures View() == EMPTY
    {
      store, names, references, tokens := map[], map[], map[], map[];
    }

    method Find(owner: UserId, identifier: string, requester: UserId) returns (r: Result<StoreKey, Error>)
      ensures r == Lookup(View(), owner, identifier, requester)
    {
      var id := identifier;
      if identifier == "" {
        return Failure(Unresolved);
      }
      if !LooksLikeId(identifier) {
        var key := WorkspaceRegistry.Key(owner, DEFAULT_HOST, Slug(identifier));
        if key !in names {
          return Failure(Unresolved);
        }
        id := names[key];
      }
      var at := IndexKey(owner, id);
      if at !in store {
        return Failure(NotFound);
      }
      if store[at].owner != requester {
        return Failure(Denied);
      }
      r := Success(at);
    }

    // An id the caller leaves out is a new uuid.
    method Create(owner: UserId, name: string, host: Host, id: AgentId, color: string, providerWorks: bool)
      returns (r: Result<Agent, Error>)
      modifies this
      ensures match CreatedAs(old(View()), owner, name, host, id, color, providerWorks)
              case Success(t) => r.Success? && View() == t
              case Failure(error) => r == Failure(error) && View() == old(View())
      ensures r.Success? <==>
                && name != "" && ValidName(Slug(name)) && ValidColor(color) && providerWorks
                && WorkspaceRegistry.Key(owner, if host == "" then DEFAULT_HOST else host, Slug(name)) !in old(references)
      ensures r.Failure? ==> View() == old(View())
      ensures r.Success? ==>
                && r.value == Agent(id, Slug(name), if host == "" then DEFAULT_HOST else host, owner, None)
                && OnlyAdded(old(View()), View(), IndexKey(owner, id), r.value)
    {
      if name == "" {
        return Failure(NameInvalid);
      }
      var slug := Slug(name);
      if !ValidName(slug) {
        return Failure(NameInvalid);
      }
      if !ValidColor(color) {
        return Failure(ColorInvalid);
      }
      var key := WorkspaceRegistry.Key(owner, if host == "" then DEFAULT_HOST else host, slug);
      if key in references {
        return Failure(NameTaken);
      }
      if !providerWorks {
        return Failure(ProviderInvalid);
      }
      var a := Agent(id, slug, key.host, owner, None);
      store := store[IndexKey(owner, id) := a];
      names := names[key := id];
      references := references[key := id];
      r := Success(a);
    }

    method Update(owner: UserId, identifier: string, requester: UserId, name: Option<string>, providerWorks: bool)
      returns (r: Result<(), Error>)
      modifies this
      ensures match Lookup(old(View()), owner, identifier, requester)
              case Failure(error) => r == Failure(error) && View() == old(View())
              case Success(at) =>
                (match Updated(old(View()), at, name, providerWorks)
                 case Success(t) => r.Success? && View() == t
                 case Failure(error) => r == Failure(error) && View() == old(View()))
      ensures r.Success? <==>
                var found := Lookup(old(View()), owner, identifier, requester);
                && found.Success? && providerWorks
                && (name.Some? ==>
                      var a, slug := old(View()).store[found.value], Slug(name.value);
                      var next := WorkspaceRegistry.Key(a.owner, a.host, slug);
                      ValidName(slug) && (slug == Slug(a.name) || next !in old(names) || old(names)[next] == a.id))
      ensures r.Failure? ==> View() == old(View())
      ensures r.Success? && name.None? ==> View() == old(View())
      ensures r.Success? && name.Some? ==>
                var at := Lookup(old(View()), owner, identifier, requester).value;
                var was := old(View()).store[at];
                && ValidName(Slug(name.value)) && providerWorks
                && (IsSlug(was.name) ==> OnlyRenamed(old(View()), View(), at, was, was.(name := Slug(name.value))))
    {
      var found := Find(owner, identifier, requester);
      if found.Failure? {
        return Failure(found.error);
      }
      var at := found.value;
      var a := store[at];
      ghost var s := View();
      var slug := a.name;
      if name.Some? {
        slug := Slug(name.value);
        if !ValidName(slug) {
          return Failure(NameInvalid);
        }
        var next := WorkspaceRegistry.Key(a.owner, a.host, slug);
        if slug != Slug(a.name) && next in names && names[next] != a.id {
          return Failure(NameTaken);
        }
      }
      if !providerWorks {
        return Failure(ProviderInvalid);
      }
      if name.Some? {
        var was, next := WorkspaceRegistry.Key(a.owner, a.host, Slug(a.name)), WorkspaceRegistry.Key(a.owner, a.host, slug);
        names := names - {was};
        references := references - {was};
        names := names[next := a.id];
        references := references[next := a.id];
        store := store[at := a.(name := slug)];
        if IsSlug(a.name) {
          RenamingMoves(s, at, name.value);
        }
      }
      r := Success(());
    }

    method Delete(owner: UserId, identifier: string, requester: UserId) returns (r: Result<(), Error>)
      modifies this
      ensures match Lookup(old(View()), owner, identifier, requester)
              case Failure(error) => r == Failure(error) && View() == old(View())
              case Success(at) => r.Success? && View() == Deleted(old(View()), at)
      ensures r.Success? ==>
                var at := Lookup(old(View()), owner, identifier, requester).value;
                var was := old(View()).store[at];
                IsSlug(was.name) ==> OnlyTaken(old(View()), View(), at, was)
    {
      var found := Find(owner, identifier, requester);
      if found.Failure? {
        return Failure(found.error);
      }
      var a := store[found.value];
      if IsSlug(a.name) {
        DeletingTakes(View(), found.value);
      }
      if a.token.Some? {
        tokens := tokens - {a.token.value};
      }
      store := store - {found.value};
      var key := WorkspaceRegistry.Key(a.owner, a.host, Text.ToLower(a.name));
      names := names - {key};
      references := references - {key};
      r := Success(());
    }

    method PersistAccess(at: StoreKey, token: Option<TokenHash>)
      requires at in store
      modifies this
      ensures View() == Bound(old(View()), at, token)
      ensures OnlyBound(old(View()), View(), at, old(store)[at], token)
    {
      var a := store[at];
      if a.token.Some? && a.token != token {
        tokens := tokens - {a.token.value};
      }
      if token.Some? {
        tokens := tokens[token.value := at];
      }
      store := store[at := a.(token := token)];
    }

    method SetAccess(owner: UserId, identifier: string, requester: UserId, hash: TokenHash) returns (r: Result<(), Error>)
      modifies this
      ensures match Lookup(old(View()), owner, identifier, requester)
              case Failure(error) => r == Failure(error) && View() == old(View())
              case Success(at) =>
                && r.Success? && View() == Bound(old(View()), at, Some(hash))
                && OnlyBound(old(View()), View(), at, old(View()).store[at], Some(hash))
    {
      var found := Find(owner, identifier, requester);
      if found.Failure? {
        return Failure(found.error);
      }
      PersistAccess(found.value, Some(hash));
      r := Success(());
    }

    method RotateToken(owner: UserId, identifier: string, requester: UserId, hash: TokenHash) returns (r: Result<(), Error>)
      modifies this
      ensures match Lookup(old(View()), owner, identifier, requester)
              case Failure(error) => r == Failure(error) && View() == old(View())
              case Success(at) =>
                if old(View()).store[at].token.None? then r == Failure(NotBound) && View() == old(View())
                else
                  && r.Success? && View() == Bound(old(View()), at, Some(hash))
                  && OnlyBound(old(View()), View(), at, old(View()).store[at], Some(hash))
    {
      var found := Find(owner, identifier, requester);
      if found.Failure? {
        return Failure(found.error);
      }
      if store[found.value].token.None? {
        return Failure(NotBound);
      }
      PersistAccess(found.value, Some(hash));
      r := Success(());
    }

    method RevokeAccess(owner: UserId, identifier: string, requester: UserId) returns (r: Result<bool, Error>)
      modifies this
      ensures match Lookup(old(View()), owner, identifier, requester)
              case Failure(error) => r == Failure(error) && View() == old(View())
              case Success(at) =>
                && r == Success(old(View()).store[at].token.Some?) && View() == Bound(old(View()), at, None)
                && OnlyBound(old(View()), View(), at, old(View()).store[at], None)
    {
      var found := Find(owner, identifier, requester);
      if found.Failure? {
        return Failure(found.error);
      }
      var a := store[found.value];
      if a.token.None? {
        assert store[found.value := a.(token := None)] == store;
        return Success(false);
      }
      tokens := tokens - {a.token.value};
      assert tokens - {a.token.value} == tokens;
      PersistAccess(found.value, None);
      r := Success(true);
    }

    /** Both rebuilds at start: the indexes are cleared and filled from the store, in some order. */
    method Rebuild() returns (ghost order: seq<StoreKey>)
      modifies this
      ensures Enumerates(order, store.Keys) && View() == Rebuilt(old(View()), order)
    {
      ghost var s := View();
      names, references, tokens := map[], map[], map[];
      order := [];
      var todo := store.Keys;
      while todo != {}
        invariant store == s.store && todo <= store.Keys
        invariant Enumerates(order, store.Keys - todo) && View() == Rebuilt(s, order)
        decreases todo
      {
        var at :| at in todo;
        todo := todo - {at};
        ghost var before := order;
        order := before + [at];
        assert order[..|order| - 1] == before;
        var a := store[at];
        var parsed := ParseIndexKey(at);
        var slug := Slug(a.name);
        if a.name != "" && parsed.Some? && slug != "" {
          var key := WorkspaceRegistry.Key(parsed.value.0, a.host, slug);
          names := names[key := parsed.value.1];
          references := references[key := parsed.value.1];
        }
        if a.token.Some? {
          tokens := tokens[a.token.value := at];
        }
      }
      assert store.Keys - {} == store.Keys;
    }
  }

  lemma DeletingTakes(s: State, at: StoreKey)
    requires at in s.store && IsSlug(s.store[at].name)
    ensures OnlyTaken(s, Deleted(s, at), at, s.store[at])
  {
    LowerLeaves(s.store[at].name);
  }

  lemma RenamingMoves(s: State, at: StoreKey, name: string)
    requires at in s.store && IsSlug(s.store[at].name) && Renamed(s, at, name).Success?
    ensures OnlyRenamed(s, Renamed(s, at, name).value, at, s.store[at], s.store[at].(name := Slug(name)))
  {
    SlugLeaves(s.store[at].name);
  }

  ghost predicate Enumerates(order: seq<StoreKey>, keys: set<StoreKey>) {
    forall x :: x in order <==> x in keys
  }

  /** What a rebuild adds to the indexes for one stored agent. */
  function Readded(t: State, at: StoreKey, a: Agent): State {
    var parsed, slug := ParseIndexKey(at), Slug(a.name);
    var u := if a.name != "" && parsed.Some? && slug != "" then
               var key := WorkspaceRegistry.Key(parsed.value.0, a.host, slug);
               t.(names := t.names[key := parsed.value.1], references := t.references[key := parsed.value.1])
             else t;
    match a.token case Some(hash) => u.(tokens := u.tokens[hash := at]) case None => u
  }

  function Rebuilt(s: State, order: seq<StoreKey>): State {
    if order == [] then s.(names := map[], references := map[], tokens := map[])
    else
      var t, at := Rebuilt(s, order[..|order| - 1]), order[|order| - 1];
      if at !in s.store then t else Readded(t, at, s.store[at])
  }

  // ---- Incremental indexes are rebuilt ones ----

  /** An agent sits under its own key, and its name and its token lead to it. */
  predicate Sound(s: State, at: StoreKey)
    requires at in s.store
  {
    var a := s.store[at];
    && at == IndexKey(a.owner, a.id) && '/' !in a.owner && '/' !in a.id
    && a.name != "" && IsSlug(a.name)
    && KeyOf(a) in s.names && s.names[KeyOf(a)] == a.id
    && (a.token.Some? ==> a.token.value in s.tokens && s.tokens[a.token.value] == at)
  }

  predicate Consistent(s: State) {
    forall at :: at in s.store ==> Sound(s, at)
  }

  predicate NameLeads(s: State, key: Key)
    requires key in s.names
  {
    var at := IndexKey(key.user, s.names[key]);
    at in s.store && KeyOf(s.store[at]) == key
  }

  predicate ExactNames(s: State) {
    s.references == s.names && forall k :: k in s.names ==> NameLeads(s, k)
  }

  predicate ExactTokens(s: State) {
    forall h :: h in s.tokens ==> s.tokens[h] in s.store && s.store[s.tokens[h]].token == Some(h)
  }

  predicate Exact(s: State) { Consistent(s) && ExactNames(s) && ExactTokens(s) }

  function NamesAmong(s: State, order: seq<StoreKey>): map<Key, AgentId> {
    map k | k in s.names && IndexKey(k.user, s.names[k]) in order :: s.names[k]
  }

  function TokensAmong(s: State, order: seq<StoreKey>): map<TokenHash, StoreKey> {
    map h | h in s.tokens && s.tokens[h] in order :: s.tokens[h]
  }

  lemma OneMoreName(s: State, rest: seq<StoreKey>, at: StoreKey)
    requires ExactNames(s) && at in s.store && Sound(s, at)
    ensures NamesAmong(s, rest + [at]) == NamesAmong(s, rest)[KeyOf(s.store[at]) := s.store[at].id]
  {
    forall k | k in s.names && IndexKey(k.user, s.names[k]) == at ensures k == KeyOf(s.store[at]) {
      assert NameLeads(s, k);
    }
  }

  lemma OneMoreToken(s: State, rest: seq<StoreKey>, at: StoreKey)
    requires ExactTokens(s) && at in s.store && Sound(s, at)
    ensures TokensAmong(s, rest + [at]) == match s.store[at].token
                                           case Some(hash) => TokensAmong(s, rest)[hash := at]
                                           case None => TokensAmong(s, rest)
  {
  }

  lemma ReaddedSound(s: State, t: State, at: StoreKey)
    requires at in s.store && Sound(s, at)
    ensures var a := s.store[at];
            Readded(t, at, a) == State(t.store, t.names[KeyOf(a) := a.id], t.references[KeyOf(a) := a.id],
                                       match a.token case Some(hash) => t.tokens[hash := at] case None => t.tokens)
  {
    IndexKeyParses(s.store[at].owner, s.store[at].id);
    SlugLeaves(s.store[at].name);
  }

  /** What a rebuild has after some of the agents. */
  function PartOf(s: State, order: seq<StoreKey>): State {
    State(s.store, NamesAmong(s, order), NamesAmong(s, order), TokensAmong(s, order))
  }

  lemma OneMoreReadded(s: State, rest: seq<StoreKey>, at: StoreKey)
    requires Exact(s) && at in s.store
    ensures Readded(PartOf(s, rest), at, s.store[at]) == PartOf(s, rest + [at])
  {
    assert Sound(s, at);
    ReaddedSound(s, PartOf(s, rest), at);
    OneMoreName(s, rest, at);
    OneMoreToken(s, rest, at);
  }

  lemma OneMoreRebuilt(s: State, rest: seq<StoreKey>, at: StoreKey)
    requires at in s.store
    ensures Rebuilt(s, rest + [at]) == Readded(Rebuilt(s, rest), at, s.store[at])
  {
    assert (rest + [at])[..|rest|] == rest;
  }

  lemma {:induction false} RebuiltIsPart(s: State, order: seq<StoreKey>)
    requires Exact(s) && forall x :: x in order ==> x in s.store
    ensures Rebuilt(s, order) == PartOf(s, order)
  {
    if order != [] {
      var rest, at := order[..|order| - 1], order[|order| - 1];
      RebuiltIsPart(s, rest);
      assert order == rest + [at];
      OneMoreRebuilt(s, rest, at);
      OneMoreReadded(s, rest, at);
    }
  }

  /** Rebuilding an exact registry, in whatever order the agents come, changes nothing. */
  lemma RebuildChangesNothing(s: State, order: seq<StoreKey>)
    requires Exact(s) && Enumerates(order, s.store.Keys)
    ensures Rebuilt(s, order) == s
  {
    RebuiltIsPart(s, order);
    assert forall k :: k in s.names ==> NameLeads(s, k);
    assert NamesAmong(s, order) == s.names;
    assert TokensAmong(s, order) == s.tokens;
  }

  /** No owner has two agents of one name on one host. */
  lemma NoTwins(s: State, x: StoreKey, y: StoreKey)
    requires Consistent(s) && x in s.store && y in s.store && KeyOf(s.store[x]) == KeyOf(s.store[y])
    ensures x == y
  {
    assert Sound(s, x) && Sound(s, y);
  }

  lemma IndexKeysDiffer(user: UserId, id: AgentId, user': UserId, id': AgentId)
    requires '/' !in user && '/' !in id && '/' !in user' && '/' !in id'
    ensures IndexKey(user, id) == IndexKey(user', id') ==> user == user' && id == id'
  {
    IndexKeyParses(user, id);
    IndexKeyParses(user', id');
  }

  // ---- Creating ----

  /** An id the owner does not use, that a store key can carry. */
  predicate Usable(s: State, owner: UserId, id: AgentId) {
    IndexKey(owner, id) !in s.store && '/' !in owner && '/' !in id
  }

  lemma CreatingKeepsConsistent(s: State, owner: UserId, name: string, host: Host, id: AgentId)
    requires Exact(s) && Created(s, owner, name, host, id).Success? && Usable(s, owner, id)
    ensures Consistent(Created(s, owner, name, host, id).value)
  {
    SlugIsSlug(name);
    var t := Created(s, owner, name, host, id).value;
    forall at | at in t.store ensures Sound(t, at) {
      if at in s.store {
        assert Sound(s, at);
      }
    }
  }

  /** An agent whose key is taken over by a new one leaves a name behind. */
  lemma ReusedIdLeavesName(s: State, owner: UserId, name: string, host: Host, id: AgentId)
    requires Exact(s) && Created(s, owner, name, host, id).Success?
    requires IndexKey(owner, id) in s.store && '/' !in owner && '/' !in id
    ensures !ExactNames(Created(s, owner, name, host, id).value)
  {
    var t, was := Created(s, owner, name, host, id).value, s.store[IndexKey(owner, id)];
    assert Sound(s, IndexKey(owner, id));
    IndexKeysDiffer(owner, id, was.owner, was.id);
    assert KeyOf(was) in t.names && t.names[KeyOf(was)] == id;
    assert !NameLeads(t, KeyOf(was));
  }

  lemma UsableKeepsExact(s: State, owner: UserId, name: string, host: Host, id: AgentId)
    requires Exact(s) && Created(s, owner, name, host, id).Success? && Usable(s, owner, id)
    ensures Exact(Created(s, owner, name, host, id).value)
  {
    var t := Created(s, owner, name, host, id).value;
    CreatingKeepsConsistent(s, owner, name, host, id);
    forall k | k in t.names ensures NameLeads(t, k) {
      if k in s.names {
        assert NameLeads(s, k);
      }
    }
  }

  /** Creating an agent keeps store and indexes exact if and only if its id is usable. */
  lemma CreatingKeepsExact(s: State, owner: UserId, name: string, host: Host, id: AgentId)
    requires Exact(s) && Created(s, owner, name, host, id).Success?
    ensures Exact(Created(s, owner, name, host, id).value) <==> Usable(s, owner, id)
  {
    if Usable(s, owner, id) {
      UsableKeepsExact(s, owner, name, host, id);
    } else if '/' in owner || '/' in id {
      assert !Sound(Created(s, owner, name, host, id).value, IndexKey(owner, id));
    } else {
      ReusedIdLeavesName(s, owner, name, host, id);
    }
  }

  // ---- What a rebuild makes of a created agent ----

  lemma ParsedHasNoSlash(key: StoreKey)
    requires ParseIndexKey(key).Some?
    ensures '/' !in ParseIndexKey(key).value.0 && '/' !in ParseIndexKey(key).value.1
    ensures key == IndexKey(ParseIndexKey(key).value.0, ParseIndexKey(key).value.1)
  {
    var i := Text.IndexOf(key, '/');
    SplitHasNoSeparator(key);
    OnePart(key[i + 1..]);
    assert Text.Split(key, '/')[1..] == Text.Split(key[i + 1..], '/');
    assert key == key[..i] + "/" + key[i + 1..];
  }

  /** A stored agent that a rebuild indexes under a key. */
  predicate Yields(s: State, at: StoreKey, k: Key, id: AgentId) {
    at in s.store && ParseIndexKey(at) == Some((k.user, id)) && s.store[at].host == k.host && Slug(s.store[at].name) == k.name
  }

  lemma {:induction false} RebuiltNamesAreYielded(s: State, order: seq<StoreKey>, k: Key)
    requires k in Rebuilt(s, order).names
    ensures exists at :: Yields(s, at, k, Rebuilt(s, order).names[k])
  {
    if order != [] {
      var rest, at := order[..|order| - 1], order[|order| - 1];
      if k in Rebuilt(s, rest).names && Rebuilt(s, rest).names[k] == Rebuilt(s, order).names[k] {
        RebuiltNamesAreYielded(s, rest, k);
      } else {
        assert Yields(s, at, k, Rebuilt(s, order).names[k]);
      }
    }
  }

  /** A name with a slash in its user or its id is one no rebuild gives. */
  lemma SlashedNameIsNotRebuilt(s: State, order: seq<StoreKey>, k: Key)
    requires k in s.names && ('/' in k.user || '/' in s.names[k])
    ensures Rebuilt(s, order) != s
  {
    if k in Rebuilt(s, order).names {
      RebuiltNamesAreYielded(s, order, k);
      var at :| Yields(s, at, k, Rebuilt(s, order).names[k]);
      ParsedHasNoSlash(at);
    }
  }

  lemma CreatedAgent(s: State, owner: UserId, name: string, host: Host, id: AgentId)
    requires Created(s, owner, name, host, id).Success?
    ensures var t, at := Created(s, owner, name, host, id).value, IndexKey(owner, id);
            && at in t.store && t.store[at].owner == owner && Slug(t.store[at].name) == t.store[at].name
            && KeyOf(t.store[at]) !in s.references
            && (forall x :: x in t.store && x != at ==> x in s.store && t.store[x] == s.store[x])
            && (forall k :: k in s.names ==> k in t.names)
  {
    SlugIsSlug(name);
    SlugLeaves(Slug(name));
  }

  /** The name an agent had whose key a new one took over is not rebuilt either. */
  lemma LeftNameIsNotRebuilt(s: State, owner: UserId, name: string, host: Host, id: AgentId, order: seq<StoreKey>)
    requires Exact(s) && Created(s, owner, name, host, id).Success?
    requires IndexKey(owner, id) in s.store && '/' !in owner && '/' !in id
    ensures var t := Created(s, owner, name, host, id).value; Rebuilt(t, order) != t
  {
    var t, k := Created(s, owner, name, host, id).value, KeyOf(s.store[IndexKey(owner, id)]);
    assert Sound(s, IndexKey(owner, id));
    IndexKeyParses(owner, id);
    CreatedAgent(s, owner, name, host, id);
    NotYielded(s, t, owner, id, k, order);
  }

  lemma NotYielded(s: State, t: State, owner: UserId, id: AgentId, k: Key, order: seq<StoreKey>)
    requires Consistent(s) && IndexKey(owner, id) in s.store && k == KeyOf(s.store[IndexKey(owner, id)]) && k in t.names
    requires IndexKey(owner, id) in t.store && ParseIndexKey(IndexKey(owner, id)) == Some((owner, id))
    requires var a := t.store[IndexKey(owner, id)]; a.owner == owner && Slug(a.name) == a.name && KeyOf(a) != k
    requires forall x :: x in t.store && x != IndexKey(owner, id) ==> x in s.store && t.store[x] == s.store[x]
    ensures Rebuilt(t, order) != t
  {
    if k in Rebuilt(t, order).names {
      RebuiltNamesAreYielded(t, order, k);
      var at :| Yields(t, at, k, Rebuilt(t, order).names[k]);
      YieldedByItself(s, t, owner, id, at, k);
    }
  }

  /** Only the agent a key is of yields it, and the new one is of another. */
  lemma YieldedByItself(s: State, t: State, owner: UserId, id: AgentId, at: StoreKey, k: Key)
    requires Consistent(s) && IndexKey(owner, id) in s.store && k == KeyOf(s.store[IndexKey(owner, id)])
    requires at in t.store && at != IndexKey(owner, id) ==> at in s.store && t.store[at] == s.store[at]
    requires at in t.store && ParseIndexKey(at).Some? && ParseIndexKey(at).value.0 == k.user
    requires t.store[at].host == k.host && Slug(t.store[at].name) == k.name
    ensures at == IndexKey(owner, id)
  {
    if at != IndexKey(owner, id) {
      var a := s.store[at];
      assert Sound(s, at);
      IndexKeyParses(a.owner, a.id);
      SlugLeaves(a.name);
      NoTwins(s, at, IndexKey(owner, id));
    }
  }

  /**
   After creating an agent the indexes are the ones a restart would rebuild if and only if the id it was given
   was not in use by the owner and has no slash; a generated id is of that kind.
   */
  lemma CreatingKeepsRebuilt(s: State, owner: UserId, name: string, host: Host, id: AgentId, order: seq<StoreKey>)
    requires Exact(s) && Created(s, owner, name, host, id).Success?
    requires Enumerates(order, Created(s, owner, name, host, id).value.store.Keys)
    ensures var t := Created(s, owner, name, host, id).value; Rebuilt(t, order) == t <==> Usable(s, owner, id)
  {
    var t := Created(s, owner, name, host, id).value;
    if Usable(s, owner, id) {
      CreatingKeepsExact(s, owner, name, host, id);
      RebuildChangesNothing(t, order);
    } else if '/' in owner || '/' in id {
      var k := WorkspaceRegistry.Key(owner, if host == "" then DEFAULT_HOST else host, Slug(name));
      SlashedNameIsNotRebuilt(t, order, k);
    } else {
      LeftNameIsNotRebuilt(s, owner, name, host, id, order);
    }
  }

  // ---- Renaming, deleting, binding ----

  /** A name that is free for an agent is led to by nothing, or by the agent itself. */
  lemma NextNameIsOwn(s: State, at: StoreKey, name: string)
    requires Exact(s) && at in s.store && Renamed(s, at, name).Success?
    ensures var next := WorkspaceRegistry.Key(s.store[at].owner, s.store[at].host, Slug(name));
            forall x :: x in s.store && KeyOf(s.store[x]) == next ==> x == at
  {
    var a := s.store[at];
    var next := WorkspaceRegistry.Key(a.owner, a.host, Slug(name));
    assert Sound(s, at);
    SlugLeaves(a.name);
    forall x | x in s.store && KeyOf(s.store[x]) == next ensures x == at {
      assert Sound(s, x);
      assert NameLeads(s, next);
    }
  }

  lemma RenamingKeepsConsistent(s: State, at: StoreKey, name: string)
    requires Exact(s) && at in s.store && Renamed(s, at, name).Success?
    ensures Consistent(Renamed(s, at, name).value)
  {
    var t := Renamed(s, at, name).value;
    NextNameIsOwn(s, at, name);
    SlugIsSlug(name);
    SlugLeaves(s.store[at].name);
    assert Sound(s, at);
    forall x | x in t.store ensures Sound(t, x) {
      assert Sound(s, x);
      if x != at && KeyOf(s.store[x]) == KeyOf(s.store[at]) {
        NoTwins(s, x, at);
      }
    }
  }

  lemma RenamingKeepsExact(s: State, at: StoreKey, name: string)
    requires Exact(s) && at in s.store && Renamed(s, at, name).Success?
    ensures Exact(Renamed(s, at, name).value)
  {
    var t := Renamed(s, at, name).value;
    RenamingKeepsConsistent(s, at, name);
    SlugLeaves(s.store[at].name);
    assert Sound(s, at);
    forall k | k in t.names ensures NameLeads(t, k) {
      if k in s.names {
        assert NameLeads(s, k);
      }
    }
  }

  lemma DeletingKeepsExact(s: State, at: StoreKey)
    requires Exact(s) && at in s.store
    ensures Exact(Deleted(s, at))
  {
    var t, a := Deleted(s, at), s.store[at];
    assert Sound(s, at);
    LowerLeaves(a.name);
    forall x | x in t.store ensures Sound(t, x) {
      assert Sound(s, x);
      if KeyOf(s.store[x]) == KeyOf(a) {
        NoTwins(s, x, at);
      }
    }
    forall k | k in t.names ensures NameLeads(t, k) {
      assert NameLeads(s, k);
    }
  }

  lemma BindingKeepsSound(s: State, at: StoreKey, token: Option<TokenHash>, x: StoreKey)
    requires Exact(s) && at in s.store && (token.Some? ==> token.value !in s.tokens)
    requires x in s.store
    ensures Sound(Bound(s, at, token), x)
  {
    assert Sound(s, x) && Sound(s, at);
  }

  lemma BindingKeepsTokens(s: State, at: StoreKey, token: Option<TokenHash>)
    requires Exact(s) && at in s.store && (token.Some? ==> token.value !in s.tokens)
    ensures ExactTokens(Bound(s, at, token))
  {
  }

  lemma BindingKeepsExact(s: State, at: StoreKey, token: Option<TokenHash>)
    requires Exact(s) && at in s.store && (token.Some? ==> token.value !in s.tokens)
    ensures Exact(Bound(s, at, token))
  {
    var t := Bound(s, at, token);
    forall x | x in t.store ensures Sound(t, x) {
      BindingKeepsSound(s, at, token, x);
    }
    forall k | k in t.names ensures NameLeads(t, k) {
      assert NameLeads(s, k);
    }
    BindingKeepsTokens(s, at, token);
  }

  // ---- Every run ----

  datatype Event =
    | Create(owner: UserId, name: string, host: Host, id: AgentId, color: string, providerWorks: bool)
    | Update(owner: UserId, identifier: string, requester: UserId, newName: Option<string>, providerWorks: bool)
    | Delete(owner: UserId, identifier: string, requester: UserId)
    | SetAccess(owner: UserId, identifier: string, requester: UserId, hash: TokenHash)
    | RotateToken(owner: UserId, identifier: string, requester: UserId, hash: TokenHash)
    | RevokeAccess(owner: UserId, identifier: string, requester: UserId)

  function OrUnchanged(s: State, r: Result<State, Error>): State {
    match r case Success(t) => t case Failure(_) => s
  }

  function Step(s: State, e: Event): State {
    if e.Create? then OrUnchanged(s, CreatedAs(s, e.owner, e.name, e.host, e.id, e.color, e.providerWorks))
    else
      match Lookup(s, e.owner, e.identifier, e.requester)
      case Failure(_) => s
      case Success(at) =>
        match e
        case Update(_, _, _, name, works) => OrUnchanged(s, Updated(s, at, name, works))
        case Delete(_, _, _) => Deleted(s, at)
        case SetAccess(_, _, _, hash) => Bound(s, at, Some(hash))
        case RotateToken(_, _, _, hash) => if s.store[at].token.None? then s else Bound(s, at, Some(hash))
        case RevokeAccess(_, _, _) => Bound(s, at, None)
        case _ => s
  }

  /** Ids are generated, or at least unused; tokens are newly minted. */
  predicate Admissible(s: State, e: Event) {
    match e
    case Create(owner, _, _, id, _, _) => Usable(s, owner, id)
    case SetAccess(_, _, _, hash) => hash !in s.tokens
    case RotateToken(_, _, _, hash) => hash !in s.tokens
    case _ => true
  }

  lemma StepKeepsExact(s: State, e: Event)
    requires Exact(s) && Admissible(s, e)
    ensures Exact(Step(s, e))
  {
    if e.Create? {
      if Created(s, e.owner, e.name, e.host, e.id).Success? {
        CreatingKeepsExact(s, e.owner, e.name, e.host, e.id);
      }
    } else if Lookup(s, e.owner, e.identifier, e.requester).Success? {
      var at := Lookup(s, e.owner, e.identifier, e.requester).value;
      match e
      case Update(_, _, _, name, _) =>
        if name.Some? && Renamed(s, at, name.value).Success? {
          RenamingKeepsExact(s, at, name.value);
        }
      case Delete(_, _, _) => DeletingKeepsExact(s, at);
      case SetAccess(_, _, _, hash) => BindingKeepsExact(s, at, Some(hash));
      case RotateToken(_, _, _, hash) => BindingKeepsExact(s, at, Some(hash));
      case RevokeAccess(_, _, _) => BindingKeepsExact(s, at, None);
      case _ =>
    }
  }

  ghost predicate Run(s: State, events: seq<Event>, t: State)
    decreases |events|
  {
    if events == [] then s == t else Admissible(s, events[0]) && Run(Step(s, events[0]), events[1..], t)
  }

  lemma {:induction false} RunKeepsExact(s: State, events: seq<Event>, t: State)
    requires Exact(s) && Run(s, events, t)
    ensures Exact(t)
    decreases |events|
  {
    if events != [] {
      StepKeepsExact(s, events[0]);
      RunKeepsExact(Step(s, events[0]), events[1..], t);
    }
  }

  /**
   After any run the indexes kept step by step are the ones a restart would rebuild, no owner has two agents of
   one name on one host, and a token leads to the one agent that holds it and to no other.
   */
  lemma IndexesStayRebuilt(events: seq<Event>, s: State, order: seq<StoreKey>)
    requires Run(EMPTY, events, s) && Enumerates(order, s.store.Keys)
    ensures Rebuilt(s, order) == s
    ensures forall x, y :: x in s.store && y in s.store && KeyOf(s.store[x]) == KeyOf(s.store[y]) ==> x == y
    ensures forall x, h :: x in s.store ==> (s.store[x].token == Some(h) <==> h in s.tokens && s.tokens[h] == x)
  {
    RunKeepsExact(EMPTY, events, s);
    RebuildChangesNothing(s, order);
    forall x, y | x in s.store && y in s.store && KeyOf(s.store[x]) == KeyOf(s.store[y]) ensures x == y {
      NoTwins(s, x, y);
    }
    assert forall x :: x in s.store ==> Sound(s, x);
  }

  // ---- Finding an agent by its name ----

  /** A name that looks like an id is taken for one, and any other is looked up on the default host only. */
  predicate FindableByName(a: Agent) {
    if LooksLikeId(a.name) then a.name == a.id else a.host == DEFAULT_HOST
  }

  lemma FoundByName(s: State, at: StoreKey)
    requires Exact(s) && at in s.store
    ensures var a := s.store[at]; Lookup(s, a.owner, a.name, a.owner) == Success(at) <==> FindableByName(a)
  {
    var a := s.store[at];
    assert Sound(s, at);
    SlugLeaves(a.name);
    var key := WorkspaceRegistry.Key(a.owner, DEFAULT_HOST, a.name);
    if LooksLikeId(a.name) {
      assert '/' !in a.name;
      IndexKeysDiffer(a.owner, a.id, a.owner, a.name);
    } else if key in s.names {
      assert NameLeads(s, key);
    }
  }

  lemma IdLikeNameHidesAgent(user: UserId, name: string, id: AgentId)
    requires IsSlug(name) && ValidName(name) && LooksLikeId(name) && id != name && '/' !in id && '/' !in user
    ensures var t := Created(EMPTY, user, name, "", id);
            t.Success? && Lookup(t.value, user, name, user) == Failure(NotFound)
  {
    SlugLeaves(name);
    assert '/' !in name;
    IndexKeysDiffer(user, id, user, name);
  }

  /** An owner cannot reach an agent by a name of exactly twelve letters and digits. */
  lemma TwelveLettersHideAgent(user: UserId, name: string, id: AgentId)
    requires |name| == 12 && (forall i :: 0 <= i < |name| ==> SlugChar(name[i]))
    requires id != name && '/' !in id && '/' !in user
    ensures var t := Created(EMPTY, user, name, "", id);
            t.Success? && Lookup(t.value, user, name, user) == Failure(NotFound)
  {
    assert IsSlug(name);
    IdLikeNameHidesAgent(user, name, id);
  }

  /** Nor by one of exactly 36 hexadecimal digits and hyphens. */
  lemma LongHexHidesAgent(user: UserId, name: string, id: AgentId)
    requires |name| == 36 && IsSlug(name) && (forall c :: c in name ==> 'a' <= c <= 'f' || '0' <= c <= '9' || c == '-')
    requires id != name && '/' !in id && '/' !in user
    ensures var t := Created(EMPTY, user, name, "", id);
            t.Success? && Lookup(t.value, user, name, user) == Failure(NotFound)
  {
    IdLikeNameHidesAgent(user, name, id);
  }

  /** Creating two agents under one id leaves the first one's name leading to the second, until a restart drops it. */
  lemma ReusedIdBreaksIndexes(user: UserId, first: string, second: string, id: AgentId, order: seq<StoreKey>)
    requires IsSlug(first) && IsSlug(second) && first != second && ValidName(first) && ValidName(second)
    requires '/' !in user && '/' !in id && Enumerates(order, {IndexKey(user, id)})
    ensures var s := Created(EMPTY, user, first, "", id);
            && s.Success? && Exact(s.value)
            && var t := Created(s.value, user, second, "", id);
            && t.Success? && !Exact(t.value) && Rebuilt(t.value, order) != t.value
  {
    SlugLeaves(first);
    SlugLeaves(second);
    CreatingKeepsExact(EMPTY, user, first, "", id);
    var s := Created(EMPTY, user, first, "", id).value;
    CreatingKeepsExact(s, user, second, "", id);
    LeftNameIsNotRebuilt(s, user, second, "", id, order);
  }

  /** An agent created under an id with a slash is found by its name until a restart, and not after it. */
  lemma SlashedIdIsForgotten(user: UserId, name: string, id: AgentId, order: seq<StoreKey>)
    requires IsSlug(name) && ValidName(name) && !LooksLikeId(name)
    requires '/' in id && Enumerates(order, {IndexKey(user, id)})
    ensures var t := Created(EMPTY, user, name, "", id);
            && t.Success? && Lookup(t.value, user, name, user) == Success(IndexKey(user, id))
            && Rebuilt(t.value, order) != t.value && Lookup(Rebuilt(t.value, order), user, name, user) == Failure(Unresolved)
  {
    SlugLeaves(name);
    var t, k := Created(EMPTY, user, name, "", id).value, WorkspaceRegistry.Key(user, DEFAULT_HOST, name);
    SlashedNameIsNotRebuilt(t, order, k);
    if k in Rebuilt(t, order).names {
      RebuiltNamesAreYielded(t, order, k);
      var at :| Yields(t, at, k, Rebuilt(t, order).names[k]);
      IndexKeyParses(user, id);
      ParsedHasNoSlash(at);
      SlashedKeyDoesNotParse(user, id);
    }
  }

  lemma OneSlash(a: string, b: string, user: UserId, id: AgentId)
    requires '/' !in a && '/' !in b && a + "/" + b == IndexKey(user, id)
    ensures a == user && b == id
  {
    var key := a + "/" + b;
    assert key[..|a|] == a && key[..|user|] == user && key[|a| + 1..] == b && key[|user| + 1..] == id;
    Text.IndexIs(key, '/', |a|);
    Text.LastIndexIs(key, '/', |a|);
    assert key[|user|] == '/';
  }

  lemma SlashedKeyDoesNotParse(user: UserId, id: AgentId)
    requires '/' in id
    ensures ParseIndexKey(IndexKey(user, id)) == None
  {
    var key := IndexKey(user, id);
    if ParseIndexKey(key).Some? {
      ParsedHasNoSlash(key);
      OneSlash(ParseIndexKey(key).value.0, ParseIndexKey(key).value.1, user, id);
    }
  }
}
