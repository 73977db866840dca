/** The string operations the modelled code leans on, with the facts its proofs need. */
module Text {

  // JavaScript's white space, restricted to one byte characters.
  predicate IsSpace(c: char) {
    c == ' ' || '\t' <= c <= '\r' || c == '\U{A0}'
  }

  function TrimStart(s: string): string {
    if s != "" && IsSpace(s[0]) then TrimStart(s[1..]) else s
  }

  function TrimEnd(s: string): string {
    if s != "" && IsSpace(s[|s| - 1]) then TrimEnd(s[..|s| - 1]) else s
  }

  function Trim(s: string): string { TrimEnd(TrimStart(s)) }

  /** The first position of a character, or the length if it does not occur. */
  function IndexOf(s: string, c: char): (i: nat)
    ensures i <= |s| && (i < |s| ==> s[i] == c)
    ensures forall k :: 0 <= k < i ==> s[k] != c
  {
    if s == "" || s[0] == c then 0 else 1 + IndexOf(s[1..], c)
  }

  /** The last position of a character, or -1. */
  function LastIndexOf(s: string, c: char): (i: int)
    ensures -1 <= i < |s| && (i >= 0 ==> s[i] == c)
    ensures forall k :: i < k < |s| ==> s[k] != c
  {
    if s == "" then -1
    else if s[|s| - 1] == c then |s| - 1
    else LastIndexOf(s[..|s| - 1], c)
  }

  function Lower(c: char): char {
    if 'A' <= c <= 'Z' then (c as int + 32) as char else c
  }

  function ToLower(s: string): string {
    if s == "" then "" else [Lower(s[0])] + ToLower(s[1..])
  }

  /** A text of two parts, by its first character. */
  lemma FirstOfTwo(a: string, b: string)
    requires a != ""
    ensures a + b == [a[0]] + (a[1..] + b) && a == [a[0]] + a[1..]
  {
  }

  lemma InThree(a: string, b: string, c: string)
    ensures a + (b + c) == a + b + c
  {
  }

  lemma LowerFirst(c: char, s: string)
    ensures ToLower([c] + s) == [Lower(c)] + ToLower(s)
  {
    assert ([c] + s)[1..] == s;
  }

  lemma {:induction false} LowerInTwo(a: string, b: string)
    ensures ToLower(a + b) == ToLower(a) + ToLower(b)
  {
    if a == "" {
      assert a + b == b;
    } else {
      LowerInTwo(a[1..], b);
      LowerFirst(a[0], a[1..] + b);
      LowerFirst(a[0], a[1..]);
      FirstOfTwo(a, b);
      InThree([Lower(a[0])], ToLower(a[1..]), ToLower(b));
    }
  }

  /** No white space at either end. */
  predicate Tight(s: string) {
    s != "" ==> !IsSpace(s[0]) && !IsSpace(s[|s| - 1])
  }

  lemma {:induction false} TrimStartFacts(s: string)
    ensures var t := TrimStart(s); |t| <= |s| && s[|s| - |t|..] == t && (t != "" ==> !IsSpace(t[0]))
    ensures s != "" && IsSpace(s[0]) ==> |TrimStart(s)| < |s|
  {
    if s != "" && IsSpace(s[0]) {
      TrimStartFacts(s[1..]);
    }
  }

  lemma {:induction false} TrimEndFacts(s: string)
    ensures var t := TrimEnd(s); |t| <= |s| && s[..|t|] == t && (t != "" ==> !IsSpace(t[|t| - 1]))
    ensures s != "" && IsSpace(s[|s| - 1]) ==> |TrimEnd(s)| < |s|
  {
    if s != "" && IsSpace(s[|s| - 1]) {
      TrimEndFacts(s[..|s| - 1]);
    }
  }

  /** Trimming leaves a tight part of the text, and only tight texts as they were. */
  lemma TrimFacts(s: string)
    ensures var t := Trim(s);
            && Tight(t) && |t| <= |s|
            && (|t| == |s| ==> t == s)
            && (Tight(s) <==> t == s)
            && forall k :: 0 <= k < |t| ==> t[k] in s
  {
    var u := TrimStart(s);
    TrimStartFacts(s);
    TrimEndFacts(u);
    var t := TrimEnd(u);
    assert forall k :: 0 <= k < |t| ==> t[k] == u[k] == s[|s| - |u| + k];
    if |t| == |s| {
      assert u == s;
    }
  }

  lemma IndexIs(s: string, c: char, i: nat)
    requires i < |s| && s[i] == c && c !in s[..i]
    ensures IndexOf(s, c) == i
  {
    assert forall k :: 0 <= k < i ==> s[k] in s[..i];
  }

  lemma LastIndexIs(s: string, c: char, i: nat)
    requires i < |s| && s[i] == c && c !in s[i + 1..]
    ensures LastIndexOf(s, c) == i
  {
    assert forall k :: i < k < |s| ==> s[k] == s[i + 1..][k - i - 1];
  }

  // JavaScript's `split` and `join` by a single character; a split never gives an empty array.
  function Split(s: string, c: char): (parts: seq<string>)
    ensures parts != []
    decreases |s|
  {
    var i := IndexOf(s, c);
    if i == |s| then [s] else [s[..i]] + Split(s[i + 1..], c)
  }

  function Join(parts: seq<string>, c: char): string {
    if parts == [] then ""
    else if |parts| == 1 then parts[0]
    else parts[0] + [c] + Join(parts[1..], c)
  }

  lemma SplitWhole(s: string, c: char)
    requires c !in s
    ensures Split(s, c) == [s]
  {
    assert forall k :: 0 <= k < |s| ==> s[k] in s;
  }

  /** One step of a split. */
  lemma SplitFirst(first: string, rest: string, c: char)
    requires c !in first
    ensures Split(first + [c] + rest, c) == [first] + Split(rest, c)
  {
    var s := first + [c] + rest;
    assert s[..|first|] == first && s[|first| + 1..] == rest;
    IndexIs(s, c, |first|);
  }

  lemma CutAt(s: string, i: nat)
    requires i < |s|
    ensures s == s[..i] + [s[i]] + s[i + 1..]
  {
  }

  lemma NotBefore(s: string, i: nat, c: char)
    requires i <= |s| && forall k :: 0 <= k < i ==> s[k] != c
    ensures c !in s[..i]
  {
  }

  lemma CutAtFirst(s: string, c: char)
    requires IndexOf(s, c) < |s|
    ensures var i := IndexOf(s, c); c !in s[..i] && s == s[..i] + [c] + s[i + 1..]
  {
    CutAt(s, IndexOf(s, c));
    NotBefore(s, IndexOf(s, c), c);
  }

  /** One step of a join. */
  lemma JoinFirst(first: string, rest: seq<string>, c: char)
    requires rest != []
    ensures Join([first] + rest, c) == first + [c] + Join(rest, c)
  {
    assert ([first] + rest)[1..] == rest;
  }

  lemma {:induction false} JoinSplit(s: string, c: char)
    ensures Join(Split(s, c), c) == s
    decreases |s|
  {
    var i := IndexOf(s, c);
    if i < |s| {
      CutAtFirst(s, c);
      JoinSplit(s[i + 1..], c);
      JoinFirst(s[..i], Split(s[i + 1..], c), c);
    }
  }

  function AllButLast(parts: seq<string>): seq<string>
    requires parts != []
  {
    parts[..|parts| - 1]
  }

  function Last(parts: seq<string>): string
    requires parts != []
  {
    parts[|parts| - 1]
  }

  lemma LastOfMore(first: string, rest: seq<string>)
    requires rest != []
    ensures AllButLast([first] + rest) == [first] + AllButLast(rest) && Last([first] + rest) == Last(rest)
  {
  }

  /** A text that grows is split as before, except that what is added may continue its last part. */
  lemma {:induction false} SplitConcat(a: string, b: string, c: char)
    ensures Split(a + b, c) == AllButLast(Split(a, c)) + Split(Last(Split(a, c)) + b, c)
    decreases |a|
  {
    var i := IndexOf(a, c);
    if i < |a| {
      CutAtFirst(a, c);
      SplitConcatStep(a[..i], a[i + 1..], b, c);
      SplitConcat(a[i + 1..], b, c);
      LastOfMore(a[..i], Split(a[i + 1..], c));
    }
  }

  lemma SplitConcatStep(first: string, rest: string, b: string, c: char)
    requires c !in first
    ensures Split(first + [c] + rest + b, c) == [first] + Split(rest + b, c)
  {
    SplitFirst(first, rest + b, c);
    assert first + [c] + rest + b == first + [c] + (rest + b);
  }

  predicate Blank(s: string) {
    forall k :: 0 <= k < |s| ==> IsSpace(s[k])
  }

  lemma BlankTrims(s: string)
    ensures Blank(s) <==> TrimStart(s) == ""
    ensures Blank(s) <==> TrimEnd(s) == ""
    ensures Blank(s) <==> Trim(s) == ""
  {
    BlankTrimStart(s);
    BlankTrimEnd(s);
    BlankTrimEnd(TrimStart(s));
    TrimStartFacts(s);
  }

  lemma {:induction false} BlankTrimStart(s: string)
    ensures Blank(s) <==> TrimStart(s) == ""
  {
    if s != "" && IsSpace(s[0]) {
      BlankTrimStart(s[1..]);
      assert forall k :: 0 < k < |s| ==> s[k] == s[1..][k - 1];
    }
  }

  lemma {:induction false} BlankTrimEnd(s: string)
    ensures Blank(s) <==> TrimEnd(s) == ""
  {
    if s != "" && IsSpace(s[|s| - 1]) {
      BlankTrimEnd(s[..|s| - 1]);
    }
  }

  lemma {:induction false} TrimStartCuts(s: string)
    ensures var t := TrimStart(s); |t| <= |s| && Blank(s[..|s| - |t|])
  {
    TrimStartFacts(s);
    if s != "" && IsSpace(s[0]) {
      TrimStartFacts(s[1..]);
      TrimStartCuts(s[1..]);
      var n := |s| - |TrimStart(s)|;
      forall k | 0 <= k < n ensures IsSpace(s[..n][k]) {
        if k > 0 {
          assert s[1..][..n - 1][k - 1] == s[..n][k];
        }
      }
    }
  }

  lemma {:induction false} TrimEndCuts(s: string)
    ensures var t := TrimEnd(s); |t| <= |s| && Blank(s[|t|..])
  {
    TrimEndFacts(s);
    if s != "" && IsSpace(s[|s| - 1]) {
      var init := s[..|s| - 1];
      TrimEndFacts(init);
      TrimEndCuts(init);
      var n := |TrimEnd(s)|;
      forall k | 0 <= k < |s| - n ensures IsSpace(s[n..][k]) {
        if k < |s| - n - 1 {
          assert init[n..][k] == s[n..][k];
        }
      }
    }
  }

  lemma CutFront(s: string, t: string)
    requires |t| <= |s| && s[|s| - |t|..] == t
    ensures s == s[..|s| - |t|] + t
  {
  }

  lemma CutEnd(s: string, t: string)
    requires |t| <= |s| && s[..|t|] == t
    ensures s == t + s[|t|..]
  {
  }

  /** What trimming takes away is white space in front and at the end, and nothing else. */
  lemma TrimCuts(s: string) returns (front: string, end: string)
    ensures s == front + Trim(s) + end && Blank(front) && Blank(end) && Tight(Trim(s))
  {
    var u := TrimStart(s);
    var t := TrimEnd(u);
    TrimFacts(s);
    TrimStartFacts(s);
    TrimEndFacts(u);
    TrimStartCuts(s);
    TrimEndCuts(u);
    CutFront(s, u);
    CutEnd(u, t);
    front, end := s[..|s| - |u|], u[|t|..];
    InThree(front, t, end);
  }
}
