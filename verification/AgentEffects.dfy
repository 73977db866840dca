/** What each operation of the agents service does to the agent it names, and that it does nothing to any other. */
module AgentEffects {
  import opened Wrappers
  import opened Hyphens
  import opened AgentRegistry
  import WorkspaceRegistry

  lemma BindingBinds(s: State, at: StoreKey, token: Option<TokenHash>)
    requires at in s.store
    ensures OnlyBound(s, Bound(s, at, token), at, s.store[at], token)
  {
  }

  /** Without a token none leads to the agent. */
  lemma UnboundIsReachedByNone(s: State, at: StoreKey, h: TokenHash)
    requires Exact(s) && at in s.store && h in Bound(s, at, None).tokens
    ensures Bound(s, at, None).tokens[h] != at
  {
    assert Sound(s, at);
  }

  lemma CreatingAdds(s: State, owner: UserId, name: string, host: Host, id: AgentId)
    requires Created(s, owner, name, host, id).Success?
    ensures OnlyAdded(s, Created(s, owner, name, host, id).value, IndexKey(owner, id),
                      Agent(id, Slug(name), if host == "" then DEFAULT_HOST else host, owner, None))
  {
  }

  // ---- Looking an agent up ----

  /** An identifier that looks like an id finds the agent stored under the owner and that id, and no other does by id. */
  lemma FoundById(s: State, owner: UserId, id: AgentId, requester: UserId)
    requires LooksLikeId(id) && id != ""
    ensures var r := Lookup(s, owner, id, requester);
            && (r.Success? <==> IndexKey(owner, id) in s.store && s.store[IndexKey(owner, id)].owner == requester)
            && (r.Success? ==> r.value == IndexKey(owner, id))
  {
  }

  /** What a lookup finds belongs to the one who asks. */
  lemma FoundIsOwned(s: State, owner: UserId, identifier: string, requester: UserId)
    requires Lookup(s, owner, identifier, requester).Success?
    ensures var at := Lookup(s, owner, identifier, requester).value; at in s.store && s.store[at].owner == requester
  {
  }

  // ---- Every step, and every run ----

  /** The agent a call changes, if it changes one. */
  function Touched(s: State, e: Event): set<StoreKey> {
    if e.Create? then {IndexKey(e.owner, e.id)}
    else
      match Lookup(s, e.owner, e.identifier, e.requester)
      case Success(at) => {at}
      case Failure(_) => {}
  }

  lemma UpdatingIsOfOne(s: State, at: StoreKey, name: Option<string>, works: bool)
    requires at in s.store
    ensures AgreeOutside(s.store, OrUnchanged(s, Updated(s, at, name, works)).store, {at})
  {
  }

  lemma DeletingIsOfOne(s: State, at: StoreKey)
    requires at in s.store
    ensures AgreeOutside(s.store, Deleted(s, at).store, {at})
  {
  }

  /** A call leaves every other agent as it is. */
  lemma StepLeavesOthers(s: State, e: Event)
    ensures AgreeOutside(s.store, Step(s, e).store, Touched(s, e))
  {
    if !e.Create? && Lookup(s, e.owner, e.identifier, e.requester).Success? {
      var at := Lookup(s, e.owner, e.identifier, e.requester).value;
      match e
      case Update(_, _, _, name, works) => UpdatingIsOfOne(s, at, name, works);
      case Delete(_, _, _) => DeletingIsOfOne(s, at);
      case SetAccess(_, _, _, hash) => BindingBinds(s, at, Some(hash));
      case RotateToken(_, _, _, hash) => BindingBinds(s, at, Some(hash));
      case RevokeAccess(_, _, _) => BindingBinds(s, at, None);
      case _ =>
    }
  }

  /** Whether a call takes the agent away. */
  predicate Takes(s: State, e: Event, at: StoreKey) {
    e.Delete? && Lookup(s, e.owner, e.identifier, e.requester) == Success(at)
  }

  /** Whether it changes the access of the agent. */
  predicate ChangesAccess(s: State, e: Event, at: StoreKey) {
    (e.SetAccess? || e.RotateToken? || e.RevokeAccess?) && Lookup(s, e.owner, e.identifier, e.requester) == Success(at)
  }

  /** What an agent keeps but its name and its token. */
  predicate SameAgent(a: Agent, b: Agent) { b.id == a.id && b.owner == a.owner && b.host == a.host }

  lemma UpdatingKeepsAgent(s: State, at: StoreKey, name: Option<string>, works: bool)
    requires at in s.store
    ensures var t := OrUnchanged(s, Updated(s, at, name, works));
            at in t.store && SameAgent(s.store[at], t.store[at]) && t.store[at].token == s.store[at].token
  {
  }

  lemma BindingKeepsAgent(s: State, at: StoreKey, token: Option<TokenHash>)
    requires at in s.store
    ensures var t := Bound(s, at, token);
            at in t.store && SameAgent(s.store[at], t.store[at]) && t.store[at].name == s.store[at].name
  {
  }

  lemma TouchedKeepsAgent(s: State, e: Event, at: StoreKey)
    requires !e.Create? && at in s.store && Lookup(s, e.owner, e.identifier, e.requester) == Success(at)
    ensures at in Step(s, e).store <==> !e.Delete?
    ensures at in Step(s, e).store ==>
              var a, b := s.store[at], Step(s, e).store[at];
              SameAgent(a, b) && (!e.Update? ==> b.name == a.name) && (!ChangesAccess(s, e, at) ==> b.token == a.token)
  {
    match e
    case Update(_, _, _, name, works) => UpdatingKeepsAgent(s, at, name, works);
    case Delete(_, _, _) =>
    case SetAccess(_, _, _, hash) => BindingKeepsAgent(s, at, Some(hash));
    case RotateToken(_, _, _, hash) => BindingKeepsAgent(s, at, Some(hash));
    case RevokeAccess(_, _, _) => BindingKeepsAgent(s, at, None);
    case _ =>
  }

  /** An agent stays under its key, owner, id and host, until it is deleted; its name changes by an update alone. */
  lemma StepKeepsAgent(s: State, e: Event, at: StoreKey)
    requires Exact(s) && Admissible(s, e) && at in s.store
    ensures at in Step(s, e).store <==> !Takes(s, e, at)
    ensures at in Step(s, e).store ==>
              var a, b := s.store[at], Step(s, e).store[at];
              SameAgent(a, b) && (!e.Update? ==> b.name == a.name) && (!ChangesAccess(s, e, at) ==> b.token == a.token)
  {
    StepLeavesOthers(s, e);
    if !e.Create? && Lookup(s, e.owner, e.identifier, e.requester) == Success(at) {
      TouchedKeepsAgent(s, e, at);
    } else {
      assert at !in Touched(s, e);
    }
  }

  predicate Untaken(s: State, events: seq<Event>, at: StoreKey)
    decreases |events|
  {
    events == [] || (!Takes(s, events[0], at) && Untaken(Step(s, events[0]), events[1..], at))
  }

  predicate AccessUnchanged(s: State, events: seq<Event>, at: StoreKey)
    decreases |events|
  {
    events == [] || (!ChangesAccess(s, events[0], at) && AccessUnchanged(Step(s, events[0]), events[1..], at))
  }

  /** Over every run an agent is stored until a delete of it. */
  lemma {:induction false} StoredUntilTaken(s: State, events: seq<Event>, t: State, at: StoreKey)
    requires Exact(s) && Run(s, events, t) && at in s.store && Untaken(s, events, at)
    ensures at in t.store && t.store[at].id == s.store[at].id && t.store[at].owner == s.store[at].owner
    decreases |events|
  {
    if events != [] {
      StepKeepsExact(s, events[0]);
      StepKeepsAgent(s, events[0], at);
      StoredUntilTaken(Step(s, events[0]), events[1..], t, at);
    }
  }

  /** And a token leads to it until its access is changed or it is deleted. */
  lemma {:induction false} TokenLeadsUntilChanged(s: State, events: seq<Event>, t: State, at: StoreKey, h: TokenHash)
    requires Exact(s) && Run(s, events, t) && at in s.store && s.store[at].token == Some(h)
    requires Untaken(s, events, at) && AccessUnchanged(s, events, at)
    ensures h in t.tokens && t.tokens[h] == at && at in t.store && t.store[at].token == Some(h)
    decreases |events|
  {
    if events == [] {
      assert Sound(s, at);
    } else {
      StepKeepsExact(s, events[0]);
      StepKeepsAgent(s, events[0], at);
      TokenLeadsUntilChanged(Step(s, events[0]), events[1..], t, at, h);
    }
  }

  predicate Binds(s: State, e: Event, at: StoreKey, h: TokenHash) {
    && (e.SetAccess? || e.RotateToken?) && e.hash == h && Lookup(s, e.owner, e.identifier, e.requester) == Success(at)
    && (e.RotateToken? ==> s.store[at].token.Some?)
  }

  /**
   After an access is set or rotated, in any run, the new token leads to the agent until the next change of its access
   or its deletion; a former one leads nowhere.
   */
  lemma SetTokenLeads(before: seq<Event>, s: State, e: Event, events: seq<Event>, t: State, at: StoreKey, h: TokenHash)
    requires Run(EMPTY, before, s) && Admissible(s, e) && Binds(s, e, at, h) && Run(Step(s, e), events, t)
    requires Untaken(Step(s, e), events, at) && AccessUnchanged(Step(s, e), events, at)
    ensures h in t.tokens && t.tokens[h] == at && at in t.store && t.store[at].token == Some(h)
    ensures s.store[at].token.Some? ==> s.store[at].token.value !in Step(s, e).tokens
  {
    RunKeepsExact(EMPTY, before, s);
    assert Sound(s, at);
    BindingBinds(s, at, Some(h));
    StepKeepsExact(s, e);
    TokenLeadsUntilChanged(Step(s, e), events, t, at, h);
  }
}
