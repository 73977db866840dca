/**
 Names made of words and hyphens: the clean-up that agent names (src/core/agent/index.js) and generated user names
 (src/Server.js, src/transports/auth/imap-strategy.js, src/transports/auth/ldap-strategy.js) share.
 */
module Hyphens {
  import Text

  predicate SlugChar(c: char) { 'a' <= c <= 'z' || '0' <= c <= '9' }

  /** Each run of other characters becomes one hyphen. */
  function Hyphenated(s: string): string {
    if s == "" then ""
    else if SlugChar(s[0]) then [s[0]] + Hyphenated(s[1..])
    else
      var rest := Hyphenated(s[1..]);
      if rest != "" && rest[0] == '-' then rest else "-" + rest
  }

  function StripStart(s: string): string {
    if s != "" && s[0] == '-' then StripStart(s[1..]) else s
  }

  function StripEnd(s: string): string {
    if s != "" && s[|s| - 1] == '-' then StripEnd(s[..|s| - 1]) else s
  }

  predicate SlugChars(s: string) {
    forall i :: 0 <= i < |s| ==> SlugChar(s[i]) || s[i] == '-'
  }

  predicate SingleHyphens(s: string) {
    && SlugChars(s)
    && (forall i :: 0 <= i < |s| - 1 ==> s[i] != '-' || s[i + 1] != '-')
  }

  /** Words of lower-case letters and digits with single hyphens between them. */
  predicate IsSlug(s: string) {
    SingleHyphens(s) && (s != "" ==> s[0] != '-' && s[|s| - 1] != '-')
  }

  lemma {:induction false} HyphenatedIsSingle(s: string)
    ensures SingleHyphens(Hyphenated(s))
  {
    if s != "" {
      HyphenatedIsSingle(s[1..]);
      var rest := Hyphenated(s[1..]);
      assert forall i :: 0 < i < |[s[0]] + rest| ==> ([s[0]] + rest)[i] == rest[i - 1];
    }
  }

  lemma {:induction false} StripStartKeeps(s: string)
    requires SingleHyphens(s)
    ensures SingleHyphens(StripStart(s)) && (StripStart(s) != "" ==> StripStart(s)[0] != '-')
  {
    if s != "" && s[0] == '-' {
      StripStartKeeps(s[1..]);
    }
  }

  lemma {:induction false} StripEndKeeps(s: string)
    requires SingleHyphens(s) && (s != "" ==> s[0] != '-')
    ensures IsSlug(StripEnd(s))
  {
    if s != "" && s[|s| - 1] == '-' {
      StripEndKeeps(s[..|s| - 1]);
    }
  }

  lemma {:induction false} LowerLeaves(s: string)
    requires SlugChars(s)
    ensures Text.ToLower(s) == s
  {
    if s != "" {
      LowerLeaves(s[1..]);
    }
  }

  lemma {:induction false} HyphenatedLeaves(s: string)
    requires SingleHyphens(s)
    ensures Hyphenated(s) == s
  {
    if s != "" {
      HyphenatedLeaves(s[1..]);
    }
  }

  /** Both strips in one go, as on a name that is already collapsed. */
  lemma StrippedIsSlug(s: string)
    requires SingleHyphens(s)
    ensures IsSlug(StripEnd(StripStart(s)))
  {
    StripStartKeeps(s);
    StripEndKeeps(StripStart(s));
  }

  lemma SlugIsTight(s: string)
    requires IsSlug(s)
    ensures Text.Trim(s) == s
  {
    Text.TrimFacts(s);
  }

  /** None of the clean-ups has anything to do on a slug. */
  lemma CleanLeaves(s: string)
    requires IsSlug(s)
    ensures StripEnd(StripStart(Hyphenated(Text.ToLower(Text.Trim(s))))) == s
  {
    SlugIsTight(s);
    LowerLeaves(s);
    HyphenatedLeaves(s);
  }

  // ---- Words ----

  /** The longest runs of small letters and digits, in order. */
  function Words(s: string): (words: seq<string>)
    ensures s != "" && SlugChar(s[0]) ==> words != []
    ensures forall w :: w in words ==> w != "" && forall i :: 0 <= i < |w| ==> SlugChar(w[i])
  {
    if s == "" then []
    else if !SlugChar(s[0]) then Words(s[1..])
    else if |s| == 1 || !SlugChar(s[1]) then [[s[0]]] + Words(s[1..])
    else
      var words := Words(s[1..]);
      [[s[0]] + words[0]] + words[1..]
  }

  function Hyphen(needed: bool): string { if needed then "-" else "" }

  predicate Leads(s: string) { s != "" && !SlugChar(s[0]) }

  predicate Trails(s: string) { s != "" && !SlugChar(s[|s| - 1]) }

  function Spelled(s: string): string {
    if Words(s) == [] then Hyphen(s != "") else Hyphen(Leads(s)) + Text.Join(Words(s), '-') + Hyphen(Trails(s))
  }

  lemma InOrder(a: string, b: string, c: string, d: string)
    ensures a + (b + c + d) == a + b + c + d
  {
  }

  lemma LetterInFront(c: char, first: string, rest: seq<string>)
    ensures Text.Join([[c] + first] + rest, '-') == [c] + Text.Join([first] + rest, '-')
  {
    if rest == [] {
      assert [[c] + first] + rest == [[c] + first] && [first] + rest == [first];
    } else {
      Text.JoinFirst([c] + first, rest, '-');
      Text.JoinFirst(first, rest, '-');
      InOrder([c], first, ['-'], Text.Join(rest, '-'));
    }
  }

  /** A letter in front of a word. */
  lemma LetterBeforeWord(c: char, words: seq<string>)
    requires words != []
    ensures Text.Join([[c] + words[0]] + words[1..], '-') == [c] + Text.Join(words, '-')
  {
    LetterInFront(c, words[0], words[1..]);
    assert [words[0]] + words[1..] == words;
  }

  lemma JoinedEnds(words: seq<string>)
    requires words != [] && forall w :: w in words ==> w != "" && forall i :: 0 <= i < |w| ==> SlugChar(w[i])
    ensures var j := Text.Join(words, '-'); j != "" && SlugChar(j[0]) && SlugChar(j[|j| - 1])
  {
    assert words[0] in words;
    if |words| > 1 {
      forall w | w in words[1..] ensures w in words {
      }
      JoinedEnds(words[1..]);
    }
  }

  lemma SameTrail(s: string)
    requires |s| > 1
    ensures Trails(s) == Trails(s[1..])
  {
    assert s[1..][|s| - 2] == s[|s| - 1];
  }

  lemma {:induction false} HyphenatedIsSpelled(s: string)
    ensures Hyphenated(s) == Spelled(s)
  {
    if |s| > 1 {
      var c, r := s[0], s[1..];
      HyphenatedIsSpelled(r);
      SameTrail(s);
      assert r[0] == s[1];
      if Words(r) != [] {
        JoinedEnds(Words(r));
      }
      if SlugChar(c) {
        LetterBeforeSpelled(s);
      } else {
        GapBeforeSpelled(s);
      }
    } else if |s| == 1 {
      assert s[1..] == "" && Hyphenated("") == "" && Words("") == [];
    }
  }

  lemma {:induction false} NoWords(s: string)
    requires Words(s) == []
    ensures forall i :: 0 <= i < |s| ==> !SlugChar(s[i])
  {
    if s != "" {
      NoWords(s[1..]);
      assert forall i :: 0 < i < |s| ==> s[i] == s[1..][i - 1];
    }
  }

  lemma LetterBeforeSpelled(s: string)
    requires |s| > 1 && SlugChar(s[0]) && Trails(s) == Trails(s[1..])
    ensures [s[0]] + Spelled(s[1..]) == Spelled(s)
  {
    var c, r := s[0], s[1..];
    assert r[0] == s[1];
    if Words(r) == [] {
      NoWords(r);
      assert Words(s) == [[c]] && Text.Join([[c]], '-') == [c];
    } else if SlugChar(r[0]) {
      LetterBeforeWord(c, Words(r));
      InFront([c], "", Text.Join(Words(r), '-'), Hyphen(Trails(r)));
    } else {
      Text.JoinFirst([c], Words(r), '-');
      InFront([c], "-", Text.Join(Words(r), '-'), Hyphen(Trails(r)));
    }
  }

  lemma InFront(c: string, lead: string, j: string, trail: string)
    ensures c + (lead + j + trail) == "" + (c + lead + j) + trail
    ensures lead == "" ==> c + (lead + j + trail) == "" + (c + j) + trail
  {
  }

  lemma GapBefore(lead: bool, j: string, trail: string)
    requires j != "" && SlugChar(j[0])
    ensures var rest := Hyphen(lead) + j + trail;
            rest != "" && (if rest[0] == '-' then rest else "-" + rest) == "-" + j + trail
  {
    if !lead {
      assert Hyphen(lead) + j + trail == j + trail;
      assert "-" + (j + trail) == "-" + j + trail;
    }
  }

  lemma GapBeforeSpelled(s: string)
    requires |s| > 1 && !SlugChar(s[0]) && Trails(s) == Trails(s[1..])
    requires Words(s[1..]) != [] ==> var j := Text.Join(Words(s[1..]), '-'); j != "" && SlugChar(j[0])
    ensures var rest := Spelled(s[1..]); (if rest != "" && rest[0] == '-' then rest else "-" + rest) == Spelled(s)
  {
    var r := s[1..];
    assert Words(s) == Words(r);
    if Words(r) != [] {
      GapBefore(Leads(r), Text.Join(Words(r), '-'), Hyphen(Trails(r)));
    }
  }

  lemma StripLead(j: string, lead: bool, trail: string)
    requires j != "" && j[0] != '-'
    ensures StripStart(Hyphen(lead) + j + trail) == j + trail
  {
    var s := Hyphen(lead) + j + trail;
    if lead {
      assert s[1..] == j + trail;
    } else {
      assert s == j + trail;
    }
    assert (j + trail)[0] == j[0];
  }

  lemma StripTrail(j: string, trail: bool)
    requires j != "" && j[|j| - 1] != '-'
    ensures StripEnd(j + Hyphen(trail)) == j
  {
    if trail {
      assert (j + "-")[..|j|] == j;
    } else {
      assert j + "" == j;
    }
  }

  lemma StripHyphen(j: string, lead: bool, trail: bool)
    requires j != "" && SlugChar(j[0]) && SlugChar(j[|j| - 1])
    ensures StripEnd(StripStart(Hyphen(lead) + j + Hyphen(trail))) == j
  {
    StripLead(j, lead, Hyphen(trail));
    StripTrail(j, trail);
  }

  /** Cleaning a text leaves its words, in order, with one hyphen between them. */
  lemma CleanIsWords(s: string)
    ensures StripEnd(StripStart(Hyphenated(s))) == Text.Join(Words(s), '-')
  {
    HyphenatedIsSpelled(s);
    if Words(s) == [] {
      assert "-"[1..] == "";
    } else {
      JoinedEnds(Words(s));
      StripHyphen(Text.Join(Words(s), '-'), Leads(s), Trails(s));
    }
  }
}
