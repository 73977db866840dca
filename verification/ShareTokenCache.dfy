/**
 Workspace share tokens (src/core/workspace/index.js): a token is looked up in the access lists of all workspaces,
 and what it resolves to is remembered for ten seconds.
 */
module ShareTokenCache {
  import opened Wrappers

  type Hash = string
  type Time = int

  const TTL: Time := 10 * 1000

  datatype TokenData = TokenData(expiresAt: Option<Time>, permissions: Option<seq<string>>)

  /** A registered workspace with the tokens of its access list, none if it has no readable one. */
  datatype Entry = Entry(id: string, name: string, owner: string, tokens: map<Hash, TokenData>)

  datatype Binding = Binding(workspaceId: string, workspaceName: string, owner: string, permissions: seq<string>, tokenData: TokenData)

  datatype Cached = Cached(resolved: Binding, at: Time)

  predicate Expired(token: TokenData, now: Time) { token.expiresAt.Some? && token.expiresAt.value < now }

  function BindingOf(e: Entry, hash: Hash): Binding
    requires hash in e.tokens
  {
    var token := e.tokens[hash];
    Binding(e.id, e.name, e.owner, match token.permissions case Some(p) => p case None => ["read"], token)
  }

  /** The workspace that has the token first decides. */
  predicate FirstMatch(entries: seq<Entry>, hash: Hash, i: int) {
    0 <= i < |entries| && hash in entries[i].tokens && forall j :: 0 <= j < i ==> hash !in entries[j].tokens
  }

  /** What a token resolves to without a cache. */
  ghost predicate Resolves(entries: seq<Entry>, hash: Hash, now: Time, b: Binding) {
    exists i :: FirstMatch(entries, hash, i) && !Expired(entries[i].tokens[hash], now) && b == BindingOf(entries[i], hash)
  }

  function Scan(entries: seq<Entry>, hash: Hash, now: Time): Option<Binding> {
    if entries == [] then None
    else if hash !in entries[0].tokens then Scan(entries[1..], hash, now)
    else if Expired(entries[0].tokens[hash], now) then None
    else Some(BindingOf(entries[0], hash))
  }

  lemma {:induction false} ScanResolves(entries: seq<Entry>, hash: Hash, now: Time, b: Binding)
    ensures Scan(entries, hash, now) == Some(b) <==> Resolves(entries, hash, now, b)
  {
    if entries != [] {
      if hash in entries[0].tokens {
        assert forall i :: FirstMatch(entries, hash, i) <==> i == 0;
      } else {
        ScanResolves(entries[1..], hash, now, b);
        forall i | 0 <= i < |entries| - 1 ensures FirstMatch(entries[1..], hash, i) <==> FirstMatch(entries, hash, i + 1) {
          assert forall j :: 1 <= j <= i ==> entries[j] == entries[1..][j - 1];
        }
      }
    }
  }

  predicate Fresh(cache: map<Hash, Cached>, hash: Hash, now: Time) {
    hash in cache && now - cache[hash].at < TTL
  }

  /** What a lookup answers, and the cache after it. */
  function LookedUp(entries: seq<Entry>, cache: map<Hash, Cached>, hash: Hash, now: Time): (Option<Binding>, map<Hash, Cached>) {
    if Fresh(cache, hash, now) then
      (if Expired(cache[hash].resolved.tokenData, now) then None else Some(cache[hash].resolved), cache)
    else
      match Scan(entries, hash, now)
      case Some(b) => (Some(b), cache[hash := Cached(b, now)])
      case None => (None, cache)
  }

  class WorkspaceManager {
    const digest: string -> Hash
    var cache: map<Hash, Cached>

    constructor (digest: string -> Hash)
      ensures this.digest == digest && cache == map[]
    {
      this.digest, cache := digest, map[];
    }

    method ResolveWorkspaceShareToken(entries: seq<Entry>, token: string, now: Time) returns (r: Option<Binding>)
      modifies this
      ensures if token == "" then r == None && cache == old(cache)
              else (r, cache) == LookedUp(entries, old(cache), digest(token), now)
      ensures AgreeOutside(old(cache), cache, {digest(token)})
      ensures r.Some? ==> digest(token) in cache && cache[digest(token)].resolved == r.value
      ensures cache != old(cache) ==> r.Some? && cache[digest(token)].at == now
    {
      if token == "" {
        return None;
      }
      var hash := digest(token);
      if hash in cache && now - cache[hash].at < TTL {
        if Expired(cache[hash].resolved.tokenData, now) {
          return None;
        }
        return Some(cache[hash].resolved);
      }
      for i := 0 to |entries|
        invariant cache == old(cache) && Scan(entries, hash, now) == Scan(entries[i..], hash, now)
      {
        var e := entries[i];
        if hash in e.tokens {
          if Expired(e.tokens[hash], now) {
            return None;
          }
          var resolved := BindingOf(e, hash);
          cache := cache[hash := Cached(resolved, now)];
          return Some(resolved);
        }
      }
      r := None;
    }
  }

  // ---- How stale an answer can be ----

  /** Workspaces and their access lists change in any way whatever between lookups. */
  datatype Event = Change(at: Time, entries: seq<Entry>) | Lookup(at: Time, hash: Hash)

  datatype State = State(entries: seq<Entry>, cache: map<Hash, Cached>)

  function Step(s: State, e: Event): State {
    match e
    case Change(_, entries) => s.(entries := entries)
    case Lookup(at, hash) => s.(cache := LookedUp(s.entries, s.cache, hash, at).1)
  }

  function Answer(s: State, e: Event): Option<Binding>
    requires e.Lookup?
  {
    LookedUp(s.entries, s.cache, e.hash, e.at).0
  }

  /** The state before event `n`. */
  function StateAt(events: seq<Event>, n: nat): State
    requires n <= |events|
  {
    if n == 0 then State([], map[]) else Step(StateAt(events, n - 1), events[n - 1])
  }

  predicate Forward(events: seq<Event>) {
    forall i, j :: 0 <= i < j < |events| ==> events[i].at <= events[j].at
  }

  /** At event `m` the uncached lookup gave this. */
  ghost predicate Gave(events: seq<Event>, m: int, hash: Hash, at: Time, b: Binding) {
    0 <= m < |events| && events[m].at == at && Resolves(StateAt(events, m).entries, hash, at, b)
  }

  lemma {:induction false} CacheHasOrigin(events: seq<Event>, n: nat, hash: Hash)
    requires n <= |events| && hash in StateAt(events, n).cache
    ensures var c := StateAt(events, n).cache[hash]; exists m :: 0 <= m < n && Gave(events, m, hash, c.at, c.resolved)
  {
    if n > 0 {
      var s, e := StateAt(events, n - 1), events[n - 1];
      var c := StateAt(events, n).cache[hash];
      if hash in s.cache && s.cache[hash] == c {
        CacheHasOrigin(events, n - 1, hash);
      } else {
        ScanResolves(s.entries, hash, e.at, c.resolved);
        assert Gave(events, n - 1, hash, c.at, c.resolved);
      }
    }
  }

  /**
   Whatever a lookup answers, an uncached one would have answered at some moment less than ten seconds before,
   or would answer now; and the binding has not expired by itself.
   */
  lemma AnswersAreRecent(events: seq<Event>, n: nat, b: Binding)
    requires Forward(events) && n < |events| && events[n].Lookup? && Answer(StateAt(events, n), events[n]) == Some(b)
    ensures exists m :: 0 <= m <= n && events[n].at - 10000 < events[m].at <= events[n].at && Gave(events, m, events[n].hash, events[m].at, b)
    ensures b.tokenData.expiresAt.Some? ==> events[n].at <= b.tokenData.expiresAt.value
  {
    var s, hash, now := StateAt(events, n), events[n].hash, events[n].at;
    if Fresh(s.cache, hash, now) {
      CacheHasOrigin(events, n, hash);
      var m :| 0 <= m < n && Gave(events, m, hash, s.cache[hash].at, b);
      assert events[m].at <= now;
    } else {
      ScanResolves(s.entries, hash, now, b);
      assert Gave(events, n, hash, now, b);
    }
  }

  /** So a token that has resolved to nothing for ten seconds is refused: revoking takes effect in that time. */
  lemma RevokedWithinTTL(events: seq<Event>, n: nat)
    requires Forward(events) && n < |events| && events[n].Lookup?
    requires forall m, b :: 0 <= m <= n && events[n].at - 10000 < events[m].at ==> !Gave(events, m, events[n].hash, events[m].at, b)
    ensures Answer(StateAt(events, n), events[n]) == None
  {
    var answer := Answer(StateAt(events, n), events[n]);
    if answer.Some? {
      AnswersAreRecent(events, n, answer.value);
    }
  }

  /** Refusals are not remembered: only a remembered binding that has expired makes a lookup refuse a good token. */
  lemma RefusedOnlyIfExpired(events: seq<Event>, n: nat, b: Binding)
    requires n < |events| && events[n].Lookup? && Resolves(StateAt(events, n).entries, events[n].hash, events[n].at, b)
    ensures var s, hash, now := StateAt(events, n), events[n].hash, events[n].at;
            Answer(s, events[n]) == None <==> Fresh(s.cache, hash, now) && Expired(s.cache[hash].resolved.tokenData, now)
  {
    ScanResolves(StateAt(events, n).entries, events[n].hash, events[n].at, b);
  }

  /** A binding is that of a workspace: its id, name and owner, the data of the token, and what it permits, reading at least. */
  lemma ResolvedIsOfWorkspace(entries: seq<Entry>, hash: Hash, now: Time, b: Binding)
    requires Resolves(entries, hash, now, b)
    ensures exists i :: FirstMatch(entries, hash, i) && IsBinding(entries[i], hash, b)
  {
    var i :| FirstMatch(entries, hash, i) && b == BindingOf(entries[i], hash);
    assert IsBinding(entries[i], hash, b);
  }

  predicate IsBinding(e: Entry, hash: Hash, b: Binding) {
    && hash in e.tokens && b.tokenData == e.tokens[hash]
    && b.workspaceId == e.id && b.workspaceName == e.name && b.owner == e.owner
    && (b.tokenData.permissions.Some? ==> b.permissions == b.tokenData.permissions.value)
    && (b.tokenData.permissions.None? ==> b.permissions == ["read"])
  }

  lemma {:induction false} RememberedUntil(events: seq<Event>, n: nat, m: nat, b: Binding)
    requires Forward(events) && n < m <= |events| && events[n].Lookup? && !Fresh(StateAt(events, n).cache, events[n].hash, events[n].at)
    requires Resolves(StateAt(events, n).entries, events[n].hash, events[n].at, b)
    requires m == n + 1 || events[m - 1].at - events[n].at < TTL
    ensures events[n].hash in StateAt(events, m).cache && StateAt(events, m).cache[events[n].hash] == Cached(b, events[n].at)
  {
    var hash := events[n].hash;
    if m == n + 1 {
      ScanResolves(StateAt(events, n).entries, hash, events[n].at, b);
    } else {
      assert events[m - 2].at <= events[m - 1].at;
      RememberedUntil(events, n, m - 1, b);
    }
  }

  /** A binding once found is answered for ten seconds, whatever becomes of the access lists, until it expires by itself. */
  lemma AnswerIsRemembered(events: seq<Event>, n: nat, m: nat, b: Binding)
    requires Forward(events) && n < m < |events| && events[n].Lookup? && events[m].Lookup? && events[m].hash == events[n].hash
    requires !Fresh(StateAt(events, n).cache, events[n].hash, events[n].at)
    requires Resolves(StateAt(events, n).entries, events[n].hash, events[n].at, b) && events[m].at - events[n].at < 10000
    ensures Answer(StateAt(events, m), events[m]) == if Expired(b.tokenData, events[m].at) then None else Some(b)
  {
    assert events[m - 1].at <= events[m].at;
    RememberedUntil(events, n, m, b);
  }
}
