/**
 Workspace and agent references, `user@host:slug/path`: taking one apart and spelling one out
 (src/core/workspace/index.js, and the same code in src/core/agent/index.js), and the keys of the name index.
 */
module References {
  import opened Wrappers
  import opened WorkspaceRegistry
  import AgentRegistry
  import Hyphens
  import Text

  datatype Reference = Reference(user: string, host: string, slug: string, path: string)

  /** The untrimmed pieces of a reference: before the `@`, between it and the first colon, and after that. */
  datatype Pieces = Pieces(user: string, host: string, resource: string)

  function Cut(text: string): Option<Pieces> {
    var colon := Text.IndexOf(text, ':');
    if colon == |text| || colon == |text| - 1 then None
    else
      var userHost, resource := text[..colon], text[colon + 1..];
      var at := Text.LastIndexOf(userHost, '@');
      if at == -1 || at == 0 || at == |userHost| - 1 then None
      else Some(Pieces(userHost[..at], userHost[at + 1..], resource))
  }

  function Parse(text: string): Option<Reference> {
    match Cut(text)
    case None => None
    case Some(cut) =>
      var user, host := Text.Trim(cut.user), Text.Trim(cut.host);
      if user == "" || host == "" then None
      else Some(Reference(user, host, Text.Trim(FirstPart(cut.resource)), RestOfParts(cut.resource)))
  }

  function FirstPart(resource: string): string { Text.Split(resource, '/')[0] }

  function RestOfParts(resource: string): string {
    var parts := Text.Split(resource, '/');
    if |parts| > 1 then "/" + Text.Join(parts[1..], '/') else ""
  }

  function Construct(r: Reference): Option<string> {
    if r.user == "" || r.slug == "" then None else Some(Spelled(r))
  }

  function Spelled(r: Reference): string { r.user + "@" + r.host + ":" + r.slug + r.path }

  /** The components a reference can carry through its spelling: user ids may be e-mail addresses. */
  predicate WellFormed(r: Reference) {
    && r.user != "" && r.host != ""
    && Text.Tight(r.user) && Text.Tight(r.host) && Text.Tight(r.slug)
    && ':' !in r.user && ':' !in r.host && '@' !in r.host
    && '/' !in r.slug && (r.path != "" ==> r.path[0] == '/')
    && r.slug + r.path != ""
  }

  /** The pieces have no white space at their ends. */
  predicate WellSpaced(cut: Pieces) {
    Text.Tight(cut.user) && Text.Tight(cut.host) && Text.Tight(FirstPart(cut.resource))
  }

  // ---- Splitting ----

  /** The first part ends at the first separator; what follows it, joined again, is the rest of the text. */
  lemma ResourceParts(s: string)
    ensures '/' !in FirstPart(s) && s == FirstPart(s) + RestOfParts(s)
    ensures RestOfParts(s) != "" ==> RestOfParts(s)[0] == '/'
  {
    Text.JoinSplit(s, '/');
  }

  lemma PartsOf(slug: string, path: string)
    requires '/' !in slug && (path != "" ==> path[0] == '/')
    ensures FirstPart(slug + path) == slug && RestOfParts(slug + path) == path
  {
    var s := slug + path;
    ResourceParts(s);
    if path == "" {
      assert s == slug;
      assert forall k :: 0 <= k < |s| ==> s[k] in slug;
    } else {
      assert s[..|slug|] == slug;
      Text.IndexIs(s, '/', |slug|);
      assert s[|slug|..] == path;
    }
  }

  // ---- Both directions ----

  predicate IsCut(cut: Pieces) {
    && cut.user != "" && cut.host != "" && cut.resource != ""
    && ':' !in cut.user && ':' !in cut.host && '@' !in cut.host
  }

  function Whole(cut: Pieces): string { cut.user + "@" + cut.host + ":" + cut.resource }

  lemma CutWhole(cut: Pieces)
    requires IsCut(cut)
    ensures Cut(Whole(cut)) == Some(cut)
  {
    var text, left := Whole(cut), cut.user + "@" + cut.host;
    assert text[..|left|] == left && text[|left| + 1..] == cut.resource;
    Text.IndexIs(text, ':', |left|);
    assert left[..|cut.user|] == cut.user && left[|cut.user| + 1..] == cut.host;
    Text.LastIndexIs(left, '@', |cut.user|);
  }

  lemma WholeCut(text: string)
    requires Cut(text).Some?
    ensures IsCut(Cut(text).value) && Whole(Cut(text).value) == text
  {
    var colon := Text.IndexOf(text, ':');
    var left := text[..colon];
    var at := Text.LastIndexOf(left, '@');
    assert text == left + ":" + text[colon + 1..];
    assert left == left[..at] + "@" + left[at + 1..];
    assert ':' !in left;
  }

  lemma SpelledParses(r: Reference)
    requires WellFormed(r)
    ensures Parse(Spelled(r)) == Some(r)
  {
    var cut := Pieces(r.user, r.host, r.slug + r.path);
    CutWhole(cut);
    assert Whole(cut) == Spelled(r);
    Text.TrimFacts(r.user);
    Text.TrimFacts(r.host);
    Text.TrimFacts(r.slug);
    PartsOf(r.slug, r.path);
  }

  lemma TrimmedLacks(s: string, c: char)
    requires c !in s
    ensures c !in Text.Trim(s)
  {
    Text.TrimFacts(s);
  }

  /** Whatever parses, parses into components that survive their spelling, unless it has neither slug nor path. */
  lemma ParsedIsWellFormed(text: string)
    requires Parse(text).Some?
    ensures WellFormed(Parse(text).value) <==> Parse(text).value.slug + Parse(text).value.path != ""
  {
    var cut := Cut(text).value;
    WholeCut(text);
    ResourceParts(cut.resource);
    Text.TrimFacts(cut.user);
    Text.TrimFacts(cut.host);
    Text.TrimFacts(FirstPart(cut.resource));
    TrimmedLacks(cut.user, ':');
    TrimmedLacks(cut.host, ':');
    TrimmedLacks(cut.host, '@');
    TrimmedLacks(FirstPart(cut.resource), '/');
  }

  /** Spelling components and parsing the text gives them back exactly when they are well formed. */
  lemma ParseConstruct(r: Reference)
    requires Construct(r).Some?
    ensures Parse(Construct(r).value) == Some(r) <==> WellFormed(r)
  {
    if WellFormed(r) {
      SpelledParses(r);
    } else if Parse(Spelled(r)).Some? {
      ParsedIsWellFormed(Spelled(r));
    }
  }

  function Trimmed(cut: Pieces): Reference {
    Reference(Text.Trim(cut.user), Text.Trim(cut.host), Text.Trim(FirstPart(cut.resource)), RestOfParts(cut.resource))
  }

  lemma TrimShortens(s: string)
    ensures |Text.Trim(s)| <= |s|
    ensures |Text.Trim(s)| == |s| ==> Text.Trim(s) == s
    ensures Text.Tight(s) <==> Text.Trim(s) == s
  {
    Text.TrimFacts(s);
  }

  lemma SpelledLength(r: Reference)
    ensures |Spelled(r)| == |r.user| + |r.host| + |r.slug| + |r.path| + 2
  {
  }

  lemma TrimmingShortens(cut: Pieces)
    ensures Spelled(Trimmed(cut)) == Whole(cut) <==> WellSpaced(cut)
  {
    var slug, path := FirstPart(cut.resource), RestOfParts(cut.resource);
    var untrimmed := Reference(cut.user, cut.host, slug, path);
    ResourceParts(cut.resource);
    assert Spelled(untrimmed) == Whole(cut);
    TrimShortens(cut.user);
    TrimShortens(cut.host);
    TrimShortens(slug);
    SpelledLength(untrimmed);
    SpelledLength(Trimmed(cut));
    if Spelled(Trimmed(cut)) == Spelled(untrimmed) {
      assert |Text.Trim(cut.user)| == |cut.user| && |Text.Trim(cut.host)| == |cut.host| && |Text.Trim(slug)| == |slug|;
    }
  }

  /**
   Parsing a text and spelling its components gives the text back exactly when the pieces have no white space
   around them, and in any case a text that means the same.
   */
  lemma ConstructParse(text: string)
    requires Parse(text).Some? && Construct(Parse(text).value).Some?
    ensures var r := Parse(text).value;
            && (Construct(r) == Some(text) <==> WellSpaced(Cut(text).value))
            && Parse(Construct(r).value) == Some(r)
  {
    ParsedIsWellFormed(text);
    SpelledParses(Parse(text).value);
    WholeCut(text);
    assert Parse(text).value == Trimmed(Cut(text).value);
    TrimmingShortens(Cut(text).value);
  }

  // ---- Keys of the name index ----

  /** A key as the maps of the manager hold it. */
  function SpelledKey(k: Key): string { k.user + "@" + k.host + ":" + k.name }

  /** How references and keys read. */
  lemma Spelling(user: string, host: string, slug: string, path: string, name: string)
    requires user != "" && slug != ""
    ensures Construct(Reference(user, host, slug, path)) == Some(user + "@" + host + ":" + slug + path)
    ensures SpelledKey(Key(user, host, name)) == user + "@" + host + ":" + name
  {
  }

  /** Keys are told apart by their spelling, whatever the user id, when names have no colon and hosts no `@`. */
  lemma KeysSpelledApart(a: Key, b: Key)
    requires ':' !in a.name && ':' !in b.name && '@' !in a.host && '@' !in b.host
    ensures SpelledKey(a) == SpelledKey(b) <==> a == b
  {
    if SpelledKey(a) == SpelledKey(b) {
      KeyIsCut(a);
      KeyIsCut(b);
    }
  }

  lemma KeyIsCut(k: Key)
    requires ':' !in k.name && '@' !in k.host
    ensures var text := SpelledKey(k);
            var colon := Text.LastIndexOf(text, ':');
            && 0 <= colon && 0 <= Text.LastIndexOf(text[..colon], '@')
            && k == Key(text[..Text.LastIndexOf(text[..colon], '@')],
                        text[Text.LastIndexOf(text[..colon], '@') + 1..colon],
                        text[colon + 1..])
  {
    var text, colon := SpelledKey(k), |k.user| + 1 + |k.host|;
    assert text[colon + 1..] == k.name;
    Text.LastIndexIs(text, ':', colon);
    var left := text[..colon];
    assert left == k.user + "@" + k.host;
    assert left[|k.user| + 1..] == k.host;
    Text.LastIndexIs(left, '@', |k.user|);
  }

  /** Both indexes of a registry can be kept by spelled keys: no two keys in them are spelled alike. */
  ghost predicate SpelledApart(a: set<Key>) {
    forall x, y :: x in a && y in a && SpelledKey(x) == SpelledKey(y) ==> x == y
  }

  lemma PlainKeysSpelledApart(keys: set<Key>)
    requires forall k :: k in keys ==> ':' !in k.name && '@' !in k.host
    ensures SpelledApart(keys)
  {
    forall x, y | x in keys && y in keys && SpelledKey(x) == SpelledKey(y) ensures x == y {
      KeysSpelledApart(x, y);
    }
  }

  /** Over every run whose hosts have no `@` the workspace manager's keys and references are spelled apart. */
  lemma WorkspaceKeysSpelledApart(states: seq<State>, events: seq<Event>, entries: seq<Entry>, n: nat)
    requires Run(states, events, entries) && states[0] == State(map[], map[], map[], map[]) && n <= |events|
    requires forall i :: 0 <= i < |events| ==> HostPlain(events[i])
    ensures SpelledApart(states[n].nameIndex.Keys + states[n].referenceIndex.Keys)
  {
    RunKeepsNames(states, events, entries, n);
    var keys := states[n].nameIndex.Keys + states[n].referenceIndex.Keys;
    forall k | k in keys ensures ':' !in k.name {
      assert PlainName(k.name);
    }
    PlainKeysSpelledApart(keys);
  }

  predicate AgentHostsPlain(s: AgentRegistry.State) {
    forall at :: at in s.store ==> '@' !in s.store[at].host
  }

  lemma AgentStepKeepsHosts(s: AgentRegistry.State, e: AgentRegistry.Event)
    requires AgentHostsPlain(s) && (e.Create? ==> '@' !in e.host)
    ensures AgentHostsPlain(AgentRegistry.Step(s, e))
  {
  }

  lemma {:induction false} AgentRunKeepsHosts(s: AgentRegistry.State, events: seq<AgentRegistry.Event>, t: AgentRegistry.State)
    requires AgentHostsPlain(s) && AgentRegistry.Run(s, events, t)
    requires forall i :: 0 <= i < |events| && events[i].Create? ==> '@' !in events[i].host
    ensures AgentHostsPlain(t)
    decreases |events|
  {
    if events != [] {
      AgentStepKeepsHosts(s, events[0]);
      AgentRunKeepsHosts(AgentRegistry.Step(s, events[0]), events[1..], t);
    }
  }

  /** And so are those of the agents service. */
  lemma AgentKeysSpelledApart(events: seq<AgentRegistry.Event>, s: AgentRegistry.State)
    requires AgentRegistry.Run(AgentRegistry.EMPTY, events, s)
    requires forall i :: 0 <= i < |events| && events[i].Create? ==> '@' !in events[i].host
    ensures SpelledApart(s.names.Keys) && s.references == s.names
  {
    AgentRegistry.RunKeepsExact(AgentRegistry.EMPTY, events, s);
    AgentRunKeepsHosts(AgentRegistry.EMPTY, events, s);
    forall k | k in s.names ensures ':' !in k.name && '@' !in k.host {
      assert AgentRegistry.NameLeads(s, k);
      assert AgentRegistry.Sound(s, AgentRegistry.IndexKey(k.user, s.names[k]));
      SlugHasNoColon(k.name);
    }
    PlainKeysSpelledApart(s.names.Keys);
  }

  lemma SlugHasNoColon(name: string)
    requires Hyphens.IsSlug(name)
    ensures ':' !in name
  {
  }
}
