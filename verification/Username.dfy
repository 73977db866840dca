/**
 User names made from e-mail addresses (src/transports/auth/imap-strategy.js, and the same code in
 src/transports/auth/ldap-strategy.js), and the rules for user names they have to meet (src/core/user/index.js).
 */
module Username {
  import opened Hyphens
  import opened Wrappers
  import Text

  const MIN_LENGTH := 3
  const MAX_LENGTH := 39

  const RESERVED := [
    "admin", "administrator", "root", "system", "support", "help", "api", "www", "mail", "ftp", "localhost", "test", "demo",
    "canvas", "universe", "workspace", "context", "user", "users"
  ]

  // ---- The rules ----

  datatype Rejection = Missing | Blank | BadCharacter | TooShort | TooLong | IsReserved

  predicate NameChar(c: char) { SlugChar(c) || c == '_' || c == '-' }

  /** The name a user gets, or why not. */
  function Validated(name: string, isAdmin: bool): Result<string, Rejection> {
    var username := Text.Trim(Text.ToLower(name));
    if name == "" then Failure(Missing)
    else if Text.Trim(name) == "" then Failure(Blank)
    else if exists i :: 0 <= i < |username| && !NameChar(username[i]) then Failure(BadCharacter)
    else if |username| < MIN_LENGTH then Failure(TooShort)
    else if |username| > MAX_LENGTH then Failure(TooLong)
    // `me` addresses the caller in the REST API.
    else if username in RESERVED + ["me"] && !(username == "admin" && isAdmin) then Failure(IsReserved)
    else Success(username)
  }

  /** A name is accepted, trimmed and in small letters, exactly if it is of the right length and characters and not reserved. */
  lemma AcceptedMeetsRules(name: string, isAdmin: bool)
    ensures var u := Text.Trim(Text.ToLower(name));
            && (Validated(name, isAdmin).Success? ==> Validated(name, isAdmin).value == u)
            && (Validated(name, isAdmin).Success?
                <==> name != "" && Text.Trim(name) != "" && 3 <= |u| <= 39
                     && (forall i :: 0 <= i < |u| ==> SlugChar(u[i]) || u[i] == '_' || u[i] == '-')
                     && u != "me" && (u !in RESERVED || (u == "admin" && isAdmin)))
  {
  }

  // ---- The generator ----

  predicate Kept(c: char) { SlugChar(c) || c == '.' || c == '_' || c == '-' }

  function KeptOnly(s: string): string {
    if s == "" then "" else (if Kept(s[0]) then [s[0]] else []) + KeptOnly(s[1..])
  }

  function Dashed(s: string): string {
    if s == "" then "" else [if s[0] == '.' || s[0] == '_' then '-' else s[0]] + Dashed(s[1..])
  }

  predicate HasDouble(s: string) { exists i :: 0 <= i < |s| - 1 && s[i] == '-' && s[i + 1] == '-' }

  /** Every `--` becomes `-`, from the left and once. */
  function Halved(s: string): string {
    if |s| < 2 then s
    else if s[0] == '-' && s[1] == '-' then "-" + Halved(s[2..])
    else [s[0]] + Halved(s[1..])
  }

  /** The local part of an address in lower case, with hyphens for dots and underscores and nothing else kept. */
  function LocalPart(email: string): string {
    Dashed(KeptOnly(Text.ToLower(email[..Text.IndexOf(email, '@')])))
  }

  /** The words of the local part with one hyphen between them. */
  function Base(email: string): string { StripEnd(StripStart(Hyphenated(LocalPart(email)))) }

  function Lengthened(name: string): string { if |name| < MIN_LENGTH then name + "123" else name }

  function Shortened(name: string): string { if |name| > MAX_LENGTH then StripEnd(name[..MAX_LENGTH]) else name }

  function Username(email: string): string {
    var name := Shortened(Lengthened(Base(email)));
    if name in RESERVED then name + "1" else name
  }

  method GenerateUsernameFromEmail(email: string) returns (username: string)
    ensures username == Username(email)
  {
    username := email[..Text.IndexOf(email, '@')];
    username := Text.ToLower(username);
    username := KeptOnly(username);
    username := Dashed(username);
    ghost var local := LocalPart(email);
    assert username == local;
    LocalPartChars(email);
    while HasDouble(username)
      invariant Hyphenated(username) == Hyphenated(local) && SlugChars(username)
      decreases |username|
    {
      HalvedCollapsesAlike(username);
      HalvedIsShorter(username);
      username := Halved(username);
    }
    HyphenatedLeaves(username);
    while username != "" && username[0] == '-'
      invariant StripStart(username) == StripStart(Hyphenated(local))
      decreases |username|
    {
      username := username[1..];
    }
    while username != "" && username[|username| - 1] == '-'
      invariant StripEnd(username) == StripEnd(StripStart(Hyphenated(local)))
      decreases |username|
    {
      username := username[..|username| - 1];
    }
    if |username| < MIN_LENGTH {
      username := username + "123";
    }
    if |username| > MAX_LENGTH {
      username := username[..MAX_LENGTH];
      username := StripEnd(username);
    }
    if username in RESERVED {
      username := username + "1";
    }
  }

  // ---- The loops ----

  lemma {:induction false} KeptOnlyChars(s: string)
    ensures forall i :: 0 <= i < |KeptOnly(s)| ==> Kept(KeptOnly(s)[i])
  {
    if s != "" {
      KeptOnlyChars(s[1..]);
    }
  }

  lemma {:induction false} DashedChars(s: string)
    requires forall i :: 0 <= i < |s| ==> Kept(s[i])
    ensures SlugChars(Dashed(s))
  {
    if s != "" {
      DashedChars(s[1..]);
    }
  }

  lemma LocalPartChars(email: string)
    ensures SlugChars(LocalPart(email))
  {
    KeptOnlyChars(Text.ToLower(email[..Text.IndexOf(email, '@')]));
    DashedChars(KeptOnly(Text.ToLower(email[..Text.IndexOf(email, '@')])));
  }

  /** Halving the hyphens does not change what the runs collapse to. */
  lemma {:induction false} HalvedCollapsesAlike(s: string)
    requires SlugChars(s)
    ensures Hyphenated(Halved(s)) == Hyphenated(s)
    ensures SlugChars(Halved(s))
  {
    if |s| >= 2 {
      if s[0] == '-' && s[1] == '-' {
        HalvedCollapsesAlike(s[2..]);
        assert ("-" + Halved(s[2..]))[1..] == Halved(s[2..]);
        assert s[1..][1..] == s[2..];
      } else {
        HalvedCollapsesAlike(s[1..]);
        assert ([s[0]] + Halved(s[1..]))[1..] == Halved(s[1..]);
      }
    }
  }

  lemma {:induction false} HalvedIsShorter(s: string)
    ensures |Halved(s)| <= |s| && (HasDouble(s) ==> |Halved(s)| < |s|)
  {
    if |s| >= 2 {
      if s[0] == '-' && s[1] == '-' {
        HalvedIsShorter(s[2..]);
      } else {
        HalvedIsShorter(s[1..]);
        if HasDouble(s) {
          var i :| 0 <= i < |s| - 1 && s[i] == '-' && s[i + 1] == '-';
          assert s[1..][i - 1] == '-' && s[1..][i] == '-';
        }
      }
    }
  }

  // ---- The result ----

  lemma BaseIsSlug(email: string)
    ensures IsSlug(Base(email))
  {
    HyphenatedIsSingle(LocalPart(email));
    StrippedIsSlug(Hyphenated(LocalPart(email)));
  }

  lemma LengthenedIsSlug(name: string)
    requires IsSlug(name)
    ensures IsSlug(Lengthened(name)) && |Lengthened(name)| >= MIN_LENGTH
  {
  }

  /** Cutting strips one hyphen at most, so what is left is never too short. */
  lemma ShortenedIsSlug(name: string)
    requires IsSlug(name)
    ensures IsSlug(Shortened(name)) && |Shortened(name)| <= MAX_LENGTH
    ensures |name| <= MAX_LENGTH ==> Shortened(name) == name
    ensures |name| > MAX_LENGTH ==> |Shortened(name)| >= MAX_LENGTH - 1
  {
    if |name| > MAX_LENGTH {
      var cut := name[..MAX_LENGTH];
      assert SingleHyphens(cut);
      StripEndKeeps(cut);
      if cut[|cut| - 1] == '-' {
        assert StripEnd(cut) == cut[..|cut| - 1];
      }
    }
  }

  lemma ReservedNames(name: string)
    ensures name in RESERVED ==> 3 <= |name| <= 13 && name[|name| - 1] != '1' && name[|name| - 1] != '3'
  {
  }

  lemma NumberedIsFree(name: string)
    requires name in RESERVED
    ensures name + "1" !in RESERVED && 4 <= |name + "1"| <= 14
  {
    ReservedNames(name);
    ReservedNames(name + "1");
  }

  lemma NumberedIsSlug(name: string)
    requires IsSlug(name) && name != ""
    ensures IsSlug(name + "1")
  {
  }

  /** Taking a reserved name out of the way leaves a slug of the right length that is none. */
  lemma NumberedIsAccepted(name: string)
    requires IsSlug(name) && MIN_LENGTH <= |name| <= MAX_LENGTH
    ensures var free := if name in RESERVED then name + "1" else name;
            IsSlug(free) && MIN_LENGTH <= |free| <= MAX_LENGTH && free !in RESERVED
  {
    if name in RESERVED {
      NumberedIsFree(name);
      NumberedIsSlug(name);
    }
  }

  /** A name that is generated meets the rules, for every address whatever, and is stored as it is. */
  lemma GeneratedIsValid(email: string, isAdmin: bool)
    ensures Validated(Username(email), isAdmin) == Success(Username(email))
    ensures IsSlug(Username(email))
  {
    BaseIsSlug(email);
    LengthenedIsSlug(Base(email));
    ShortenedIsSlug(Lengthened(Base(email)));
    NumberedIsAccepted(Shortened(Lengthened(Base(email))));
    SlugIsAccepted(Username(email), isAdmin);
  }

  lemma SlugIsAccepted(name: string, isAdmin: bool)
    requires IsSlug(name) && MIN_LENGTH <= |name| <= MAX_LENGTH && name !in RESERVED
    ensures Validated(name, isAdmin) == Success(name)
  {
    LowerLeaves(name);
    SlugIsTight(name);
  }

  // ---- What the name is made of ----

  lemma KeptFirst(c: char, s: string)
    ensures KeptOnly([c] + s) == (if Kept(c) then [c] else "") + KeptOnly(s)
  {
    assert ([c] + s)[1..] == s;
  }

  lemma {:induction false} KeptInTwo(a: string, b: string)
    ensures KeptOnly(a + b) == KeptOnly(a) + KeptOnly(b)
  {
    if a == "" {
      assert a + b == b;
    } else {
      KeptInTwo(a[1..], b);
      KeptFirst(a[0], a[1..] + b);
      KeptFirst(a[0], a[1..]);
      Text.FirstOfTwo(a, b);
      Text.InThree(if Kept(a[0]) then [a[0]] else "", KeptOnly(a[1..]), KeptOnly(b));
    }
  }

  lemma DashedFirst(c: char, s: string)
    ensures Dashed([c] + s) == [if c == '.' || c == '_' then '-' else c] + Dashed(s)
  {
    assert ([c] + s)[1..] == s;
  }

  lemma {:induction false} DashedInTwo(a: string, b: string)
    ensures Dashed(a + b) == Dashed(a) + Dashed(b)
  {
    if a == "" {
      assert a + b == b;
    } else {
      DashedInTwo(a[1..], b);
      DashedFirst(a[0], a[1..] + b);
      DashedFirst(a[0], a[1..]);
      Text.FirstOfTwo(a, b);
      Text.InThree([if a[0] == '.' || a[0] == '_' then '-' else a[0]], Dashed(a[1..]), Dashed(b));
    }
  }

  /** What one character of the local part becomes. */
  lemma OneCharacter(c: char)
    ensures 'A' <= c <= 'Z' ==> Dashed(KeptOnly(Text.ToLower([c]))) == [(c as int - 'A' as int + 'a' as int) as char]
    ensures SlugChar(c) ==> Dashed(KeptOnly(Text.ToLower([c]))) == [c]
    ensures c == '.' || c == '_' || c == '-' ==> Dashed(KeptOnly(Text.ToLower([c]))) == "-"
    ensures !('A' <= c <= 'Z' || SlugChar(c) || c == '.' || c == '_' || c == '-') ==> Dashed(KeptOnly(Text.ToLower([c]))) == ""
  {
    assert [c][1..] == "" && Text.ToLower([c]) == [Text.Lower(c)];
    var l := Text.Lower(c);
    assert [l][1..] == "" && KeptOnly([l]) == if Kept(l) then [l] else "";
    assert Dashed([l]) == [if l == '.' || l == '_' then '-' else l];
  }

  lemma BeforeSign(a: string, domain: string)
    requires '@' !in a
    ensures a[..Text.IndexOf(a, '@')] == a
    ensures (a + "@" + domain)[..Text.IndexOf(a + "@" + domain, '@')] == a
  {
    assert forall k :: 0 <= k < |a| ==> a[k] in a;
    var email := a + "@" + domain;
    assert email[|a|] == '@' && email[..|a|] == a;
    assert forall k :: 0 <= k < |a| ==> email[k] == a[k];
    var at := Text.IndexOf(email, '@');
    assert !(at < |a|) && !(|a| < at);
  }

  /** The local part of an address: all before its first `@`. */
  lemma LocalPartEndsAtSign(a: string, domain: string)
    requires '@' !in a
    ensures LocalPart(a) == Dashed(KeptOnly(Text.ToLower(a)))
    ensures LocalPart(a + "@" + domain) == LocalPart(a)
  {
    BeforeSign(a, domain);
  }

  /**
   Character by character, up to the first `@`: capitals become small, `.` and `_` and `-` become `-`, letters and
   digits stay, and anything else goes.
   */
  lemma LocalPartByCharacter(a: string, c: char)
    requires '@' !in a && c != '@'
    ensures LocalPart("") == ""
    ensures 'A' <= c <= 'Z' ==> LocalPart(a + [c]) == LocalPart(a) + [(c as int - 'A' as int + 'a' as int) as char]
    ensures SlugChar(c) ==> LocalPart(a + [c]) == LocalPart(a) + [c]
    ensures c == '.' || c == '_' || c == '-' ==> LocalPart(a + [c]) == LocalPart(a) + "-"
    ensures !('A' <= c <= 'Z' || SlugChar(c) || c == '.' || c == '_' || c == '-') ==> LocalPart(a + [c]) == LocalPart(a)
  {
    LocalPartEndsAtSign(a, "");
    LocalPartEndsAtSign(a + [c], "");
    Text.LowerInTwo(a, [c]);
    KeptInTwo(Text.ToLower(a), Text.ToLower([c]));
    DashedInTwo(KeptOnly(Text.ToLower(a)), KeptOnly(Text.ToLower([c])));
    OneCharacter(c);
    assert LocalPart(a) + "" == LocalPart(a);
  }

  lemma CutName(name: string)
    requires IsSlug(name) && |name| > 39
    ensures Shortened(name) == if name[38] == '-' then name[..38] else name[..39]
  {
    var cut := name[..39];
    if cut[38] == '-' {
      assert name[37] != '-';
      assert cut[..38] == name[..38] && name[..38][37] == name[37];
      assert StripEnd(cut) == StripEnd(name[..38]) == name[..38];
    }
  }

  lemma NameOf(base: string)
    requires IsSlug(base)
    ensures var name := Shortened(Lengthened(base));
            if |base| < 3 then name == base + "123" && name !in RESERVED
            else if |base| > 39 then name == (if base[38] == '-' then base[..38] else base[..39]) && name !in RESERVED
            else name == base
  {
    ReservedNames(base + "123");
    if |base| > 39 {
      CutName(base);
      ReservedNames(Shortened(base));
    }
  }

  /**
   The name is the words of the local part with hyphens between them; if they are too short with `123` at the end,
   if too long cut, without a hyphen at the end, and with a `1` at the end if it would be a reserved name.
   */
  lemma NameIsWords(email: string)
    ensures var words, name := Text.Join(Words(LocalPart(email)), '-'), Username(email);
            if |words| < 3 then name == words + "123"
            else if |words| > 39 then name == if words[38] == '-' then words[..38] else words[..39]
            else name == if words in RESERVED then words + "1" else words
  {
    CleanIsWords(LocalPart(email));
    BaseIsSlug(email);
    NameOf(Base(email));
  }
}
