/**
 Log lines in both directions (src/utils/log.js): the stream that cuts what is written into lines and emits an
 entry for each, and the reader that finds the last lines of the log file from its end.
 */
module LogStream {
  import opened Wrappers
  import opened Text

  // ---- Entries ----

  /** Each `\r\n` becomes `\n`. */
  function WithPlainBreaks(s: string): string {
    if |s| < 2 then s
    else if s[0] == '\r' && s[1] == '\n' then WithPlainBreaks(s[1..])
    else [s[0]] + WithPlainBreaks(s[1..])
  }

  /** The entry of a line, unless it is blank; `parse` reads a trimmed line as JSON or takes it as a message. */
  function Normalized<Entry>(line: string, parse: string -> Entry): Option<Entry> {
    var raw := Trim(WithPlainBreaks(line));
    if raw == "" then None else Some(parse(raw))
  }

  function Entries<Entry>(lines: seq<string>, parse: string -> Entry): seq<Entry> {
    if lines == [] then []
    else
      var rest := Entries(AllButLast(lines), parse);
      match Normalized(Last(lines), parse)
      case Some(entry) => rest + [entry]
      case None => rest
  }

  lemma {:induction false} PlainBreaksBlank(s: string)
    ensures Blank(WithPlainBreaks(s)) <==> Blank(s)
  {
    if |s| >= 2 {
      PlainBreaksBlank(s[1..]);
      assert forall k :: 0 < k < |s| ==> s[k] == s[1..][k - 1];
      if !(s[0] == '\r' && s[1] == '\n') {
        var t := WithPlainBreaks(s[1..]);
        assert forall k :: 0 <= k < |t| ==> t[k] == WithPlainBreaks(s)[k + 1];
      }
    }
  }

  /** A line has an entry unless it is blank. */
  lemma BlankHasNoEntry<Entry>(line: string, parse: string -> Entry)
    ensures Normalized(line, parse) == None <==> Trim(line) == ""
  {
    PlainBreaksBlank(line);
    BlankTrims(line);
    BlankTrims(WithPlainBreaks(line));
  }

  lemma {:induction false} EntriesConcat<Entry>(a: seq<string>, b: seq<string>, parse: string -> Entry)
    ensures Entries(a + b, parse) == Entries(a, parse) + Entries(b, parse)
  {
    if b == [] {
      assert a + b == a;
    } else {
      EntriesConcat(a, AllButLast(b), parse);
      assert AllButLast(a + b) == a + AllButLast(b);
    }
  }

  /** Two characters are a break exactly where one ends with `\r` and the next is `\n`. */
  predicate HasBreak(s: string) { exists i :: 0 <= i < |s| - 1 && s[i] == '\r' && s[i + 1] == '\n' }

  lemma {:induction false} NoBreakStays(s: string)
    requires !HasBreak(s)
    ensures WithPlainBreaks(s) == s
  {
    if |s| >= 2 {
      assert !(s[0] == '\r' && s[1] == '\n');
      forall i | 0 <= i < |s[1..]| - 1 ensures !(s[1..][i] == '\r' && s[1..][i + 1] == '\n') {
        assert s[i + 1] == s[1..][i] && s[i + 2] == s[1..][i + 1];
      }
      NoBreakStays(s[1..]);
    }
  }

  lemma PlainFirst(c: char, s: string)
    requires s != ""
    ensures WithPlainBreaks([c] + s) == (if c == '\r' && s[0] == '\n' then "" else [c]) + WithPlainBreaks(s)
  {
    assert ([c] + s)[1..] == s;
  }

  lemma BreakFirst(b: string)
    ensures WithPlainBreaks("\r\n" + b) == WithPlainBreaks("\n" + b) && WithPlainBreaks("\n" + b) == "\n" + WithPlainBreaks(b)
  {
    assert ("\n" + b)[1..] == b;
    assert "\r\n" + b == ['\r'] + ("\n" + b);
    PlainFirst('\r', "\n" + b);
  }

  lemma CharacterFirst(c: char, rest: string, b: string)
    ensures rest != "" ==> (rest + "\r\n" + b)[0] == rest[0]
    ensures rest == "" ==> (rest + "\r\n" + b)[0] == '\r'
    ensures [c] + rest + "\r\n" + b == [c] + (rest + "\r\n" + b)
  {
  }

  /** A character in front: it stays, or goes, whether a break follows later or not. */
  lemma BreakAfterFirst(c: char, rest: string, b: string)
    requires WithPlainBreaks(rest + "\r\n" + b) == WithPlainBreaks(rest) + WithPlainBreaks("\n" + b)
    ensures WithPlainBreaks([c] + rest + "\r\n" + b) == WithPlainBreaks([c] + rest) + WithPlainBreaks("\n" + b)
  {
    CharacterFirst(c, rest, b);
    PlainFirst(c, rest + "\r\n" + b);
    if rest == "" {
      assert WithPlainBreaks(rest) == "" && WithPlainBreaks([c] + rest) == [c];
    } else {
      PlainFirst(c, rest);
      InThree(if c == '\r' && rest[0] == '\n' then "" else [c], WithPlainBreaks(rest), WithPlainBreaks("\n" + b));
    }
  }

  /** Every `\r\n` becomes `\n`, wherever it stands. */
  lemma {:induction false} BreakBecomesPlain(a: string, b: string)
    ensures WithPlainBreaks(a + "\r\n" + b) == WithPlainBreaks(a) + WithPlainBreaks("\n" + b)
    ensures WithPlainBreaks("\n" + b) == "\n" + WithPlainBreaks(b)
  {
    BreakFirst(b);
    if a == "" {
      assert a + "\r\n" + b == "\r\n" + b && WithPlainBreaks(a) == "";
    } else {
      BreakBecomesPlain(a[1..], b);
      FirstOfTwo(a, "");
      BreakAfterFirst(a[0], a[1..], b);
    }
  }

  /** A line that is not blank has one entry: what is parsed from it, trimmed and with plain breaks. */
  lemma LineHasEntry<Entry>(line: string, parse: string -> Entry)
    ensures Entries([line], parse) == if Trim(line) == "" then [] else [parse(Trim(WithPlainBreaks(line)))]
  {
    BlankHasNoEntry(line, parse);
    assert AllButLast([line]) == [] && Last([line]) == line;
  }

  // ---- The broadcasting stream ----

  datatype Stream<Entry> = Stream(buffer: string, emitted: seq<Entry>)

  function Written<Entry>(s: Stream<Entry>, chunk: string, parse: string -> Entry): Stream<Entry> {
    var lines := Split(s.buffer + chunk, '\n');
    Stream(Last(lines), s.emitted + Entries(AllButLast(lines), parse))
  }

  function Ended<Entry>(s: Stream<Entry>, parse: string -> Entry): Stream<Entry> {
    match Normalized(s.buffer, parse)
    case Some(entry) => s.(emitted := s.emitted + [entry])
    case None => s
  }

  class BroadcastStream<Entry> {
    const parse: string -> Entry
    var buffer: string
    var emitted: seq<Entry>

    ghost function View(): Stream<Entry>
      reads this
    {
      Stream(buffer, emitted)
    }

    constructor (parse: string -> Entry)
      ensures this.parse == parse && View() == Stream("", [])
    {
      this.parse, buffer, emitted := parse, "", [];
    }

    method Write(chunk: string)
      modifies this
      ensures View() == Written(old(View()), chunk, parse)
    {
      buffer := buffer + chunk;
      var lines := Split(buffer, '\n');
      buffer := Last(lines);
      ghost var unfinished := buffer;
      lines := AllButLast(lines);
      for i := 0 to |lines|
        invariant View() == Stream(unfinished, old(emitted) + Entries(lines[..i], parse))
      {
        assert lines[..i + 1][..i] == lines[..i];
        var entry := Normalized(lines[i], parse);
        if entry.Some? {
          emitted := emitted + [entry.value];
        }
      }
      assert lines[..|lines|] == lines;
    }

    method Final()
      modifies this
      ensures View() == Ended(old(View()), parse)
    {
      BlankHasNoEntry(buffer, parse);
      if Trim(buffer) != "" {
        var entry := Normalized(buffer, parse);
        if entry.Some? {
          emitted := emitted + [entry.value];
        }
      }
    }
  }

  function Concat(chunks: seq<string>): string {
    if chunks == [] then "" else Concat(AllButLast(chunks)) + Last(chunks)
  }

  function WrittenAll<Entry>(chunks: seq<string>, parse: string -> Entry): Stream<Entry> {
    if chunks == [] then Stream("", []) else Written(WrittenAll(AllButLast(chunks), parse), Last(chunks), parse)
  }

  /** At any moment every finished line has been emitted, and the unfinished one is held back. */
  lemma {:induction false} WrittenSoFar<Entry>(chunks: seq<string>, parse: string -> Entry)
    ensures var lines := Split(Concat(chunks), '\n');
            WrittenAll(chunks, parse) == Stream(Last(lines), Entries(AllButLast(lines), parse))
  {
    if chunks != [] {
      var before, chunk := Concat(AllButLast(chunks)), Last(chunks);
      WrittenSoFar(AllButLast(chunks), parse);
      var earlier, later := Split(before, '\n'), Split(Last(Split(before, '\n')) + chunk, '\n');
      SplitConcat(before, chunk, '\n');
      assert AllButLast(AllButLast(earlier) + later) == AllButLast(earlier) + AllButLast(later);
      EntriesConcat(AllButLast(earlier), AllButLast(later), parse);
    }
  }

  /** However a text is cut into writes, what is emitted in the end is the entries of its lines. */
  lemma ChunkInvariance<Entry>(chunks: seq<string>, parse: string -> Entry)
    ensures Ended(WrittenAll(chunks, parse), parse).emitted == Entries(Split(Concat(chunks), '\n'), parse)
  {
    WrittenSoFar(chunks, parse);
  }

  // ---- Reading the log file from its end ----

  const FIRST_CHUNK := 64 * 1024
  const LARGEST_CHUNK := 512 * 1024

  /** The pieces between line breaks, a break being `\n` or `\r\n`. */
  function SplitLines(s: string): (lines: seq<string>)
    decreases |s|
  {
    var i := IndexOf(s, '\n');
    if i == |s| then [s]
    else [if i > 0 && s[i - 1] == '\r' then s[..i - 1] else s[..i]] + SplitLines(s[i + 1..])
  }

  /** Lines trimmed at the end, without the blank ones. */
  function Cleaned(lines: seq<string>): seq<string> {
    if lines == [] then []
    else
      var line := TrimEnd(lines[0]);
      (if line == "" then [] else [line]) + Cleaned(lines[1..])
  }

  function CleanLines(content: string): seq<string> { Cleaned(SplitLines(content)) }

  // JavaScript's `slice(-n)`.
  function LastOf(lines: seq<string>, n: nat): seq<string> {
    if n == 0 || n >= |lines| then lines else lines[|lines| - n..]
  }

  function Breaks(content: string): nat { |Split(content, '\n')| - 1 }

  function Min(a: nat, b: nat): nat { if a < b then a else b }

  /** Where reading backwards stops: at the start, or once what has been read has more than `n` line breaks. */
  function StopsAt(file: string, n: nat, position: nat, chunk: nat): (stop: nat)
    requires position <= |file| && chunk > 0
    ensures stop <= position
    ensures stop == 0 || Breaks(file[stop..]) > n
  {
    if position > 0 && Breaks(file[position..]) <= n
    then StopsAt(file, n, position - Min(chunk, position), Min(chunk * 2, LARGEST_CHUNK))
    else position
  }

  function TailLines(file: string, n: nat): seq<string> {
    LastOf(CleanLines(file[StopsAt(file, n, |file|, FIRST_CHUNK)..]), n)
  }

  lemma EmptyFileHasNoLines(file: string, n: nat)
    requires file == ""
    ensures TailLines(file, n) == []
  {
    assert SplitLines(file[0..]) == [""];
    assert [""][1..] == [];
  }

  lemma ReadPiece(file: string, position: nat, size: nat)
    requires position + size <= |file|
    ensures file[position..position + size] + file[position + size..] == file[position..]
  {
  }

  /** Reading backwards from here, in chunks of this size first, stops there. */
  ghost predicate WillStop(file: string, n: nat, position: nat, chunk: nat, stop: nat) {
    position <= |file| && chunk > 0 && StopsAt(file, n, position, chunk) == stop
  }

  /** One step of reading backwards: a piece more has been read, and reading stops where it would have. */
  lemma ReadsOn(file: string, n: nat, position: nat, chunk: nat, stop: nat, next: nat, larger: nat)
    requires 0 < position && WillStop(file, n, position, chunk, stop) && Breaks(file[position..]) <= n
    requires next == position - Min(chunk, position) && larger == Min(chunk * 2, LARGEST_CHUNK)
    ensures file[next..position] + file[position..] == file[next..]
    ensures WillStop(file, n, next, larger, stop)
  {
    ReadPiece(file, next, position - next);
  }

  lemma StopsAndCleans(file: string, n: nat, position: nat, chunk: nat, stop: nat)
    requires file != "" && WillStop(file, n, |file|, FIRST_CHUNK, stop) && WillStop(file, n, position, chunk, stop)
    requires position == 0 || Breaks(file[position..]) > n
    ensures TailLines(file, n) == LastOf(CleanLines(file[position..]), n)
  {
    StopsHere(file, n, position, chunk);
  }

  lemma StopsHere(file: string, n: nat, position: nat, chunk: nat)
    requires position <= |file| && chunk > 0 && (position == 0 || Breaks(file[position..]) > n)
    ensures StopsAt(file, n, position, chunk) == position
  {
  }

  method ReadTailLines(file: string, maxLines: nat) returns (lines: seq<string>)
    ensures lines == TailLines(file, maxLines)
  {
    if |file| == 0 {
      EmptyFileHasNoLines(file, maxLines);
      return [];
    }
    var position, chunk, content, breaks := |file|, FIRST_CHUNK, "", 0;
    ghost var stop := StopsAt(file, maxLines, |file|, FIRST_CHUNK);
    NothingRead(file);
    while position > 0 && breaks <= maxLines
      invariant 0 <= position && 0 < chunk && WillStop(file, maxLines, position, chunk, stop)
      invariant content == file[position..] && breaks == Breaks(content)
    {
      var next, larger := position - Min(chunk, position), Min(chunk * 2, LARGEST_CHUNK);
      ReadsOn(file, maxLines, position, chunk, stop, next, larger);
      content := file[next..position] + content;
      breaks := Breaks(content);
      position, chunk := next, larger;
    }
    StopsAndCleans(file, maxLines, position, chunk, stop);
    lines := LastOf(CleanLines(content), maxLines);
  }

  lemma NothingRead(file: string)
    ensures file[|file|..] == "" && Breaks("") == 0
  {
    SplitWhole("", '\n');
  }

  // ---- What the reader finds ----

  lemma {:induction false} CleanedConcat(a: seq<string>, b: seq<string>)
    ensures Cleaned(a + b) == Cleaned(a) + Cleaned(b)
  {
    if a == [] {
      assert a + b == b;
    } else {
      assert (a + b)[1..] == a[1..] + b;
      CleanedConcat(a[1..], b);
    }
  }

  /** A line without the `\r` of its break. */
  function WithoutReturn(line: string): string { if line != "" && line[|line| - 1] == '\r' then line[..|line| - 1] else line }

  lemma ReturnCut(s: string, i: nat)
    requires i < |s|
    ensures WithoutReturn(s[..i]) == if i > 0 && s[i - 1] == '\r' then s[..i - 1] else s[..i]
  {
    if i > 0 {
      assert s[..i][..i - 1] == s[..i - 1] && s[..i][i - 1] == s[i - 1];
    }
  }

  lemma LinesFirst(s: string)
    requires IndexOf(s, '\n') < |s|
    ensures var i := IndexOf(s, '\n'); SplitLines(s) == [WithoutReturn(s[..i])] + SplitLines(s[i + 1..])
  {
    ReturnCut(s, IndexOf(s, '\n'));
  }

  lemma ReturnIsCleaned(line: string, rest: seq<string>)
    ensures Cleaned([WithoutReturn(line)] + rest) == Cleaned([line] + rest)
  {
    assert ([line] + rest)[1..] == rest && ([WithoutReturn(line)] + rest)[1..] == rest;
  }

  lemma CleanedFirst(line: string, rest: seq<string>, other: seq<string>)
    requires Cleaned(rest) == Cleaned(other)
    ensures Cleaned([line] + rest) == Cleaned([line] + other)
  {
    assert ([line] + rest)[1..] == rest && ([line] + other)[1..] == other;
  }

  lemma {:induction false} CleanLinesAreSplit(s: string)
    ensures CleanLines(s) == Cleaned(Split(s, '\n'))
    decreases |s|
  {
    var i := IndexOf(s, '\n');
    if i < |s| {
      CleanLinesAreSplit(s[i + 1..]);
      LinesFirst(s);
      CutAtFirst(s, '\n');
      SplitFirst(s[..i], s[i + 1..], '\n');
      ReturnIsCleaned(s[..i], SplitLines(s[i + 1..]));
      CleanedFirst(s[..i], SplitLines(s[i + 1..]), Split(s[i + 1..], '\n'));
    }
  }

  lemma {:induction false} LastPartIsWhole(s: string, c: char)
    ensures c !in Last(Split(s, c))
    decreases |s|
  {
    var i := IndexOf(s, c);
    if i < |s| {
      LastPartIsWhole(s[i + 1..], c);
      CutAtFirst(s, c);
      SplitFirst(s[..i], s[i + 1..], c);
      LastOfMore(s[..i], Split(s[i + 1..], c));
    }
  }

  lemma SplitPrefixed(a: string, b: string, c: char)
    requires c !in a
    ensures Split(a + b, c) == [a + Split(b, c)[0]] + Split(b, c)[1..]
  {
    var i := IndexOf(b, c);
    if i < |b| {
      CutAtFirst(b, c);
      PrefixedFirst(a, b[..i], b[i + 1..], c);
    } else {
      assert forall k :: 0 <= k < |b| ==> b[k] != c;
      SplitWhole(b, c);
      SplitWhole(a + b, c);
    }
  }

  lemma PrefixedFirst(a: string, first: string, rest: string, c: char)
    requires c !in a && c !in first
    ensures var b := first + [c] + rest; Split(a + b, c) == [a + Split(b, c)[0]] + Split(b, c)[1..]
  {
    SplitFirst(first, rest, c);
    SplitFirst(a + first, rest, c);
    Regrouped(a, first, rest, c);
    FirstAndRest(first, Split(rest, c));
  }

  lemma Regrouped(a: string, first: string, rest: string, c: char)
    ensures a + (first + [c] + rest) == a + first + [c] + rest
  {
  }

  lemma FirstAndRest(first: string, rest: seq<string>)
    ensures ([first] + rest)[0] == first && ([first] + rest)[1..] == rest
  {
  }

  /** The pieces of a file read up to a position: before it, around it, and after the first break read. */
  function Before(file: string, p: nat): seq<string>
    requires p <= |file|
  {
    AllButLast(Split(file[..p], '\n'))
  }

  function Unread(file: string, p: nat): string
    requires p <= |file|
  {
    Last(Split(file[..p], '\n'))
  }

  function Partial(file: string, p: nat): string
    requires p <= |file|
  {
    Split(file[p..], '\n')[0]
  }

  function After(file: string, p: nat): seq<string>
    requires p <= |file|
  {
    Split(file[p..], '\n')[1..]
  }

  lemma SplitSeam(a: string, b: string, c: char)
    ensures Split(a + b, c) == AllButLast(Split(a, c)) + [Last(Split(a, c)) + Split(b, c)[0]] + Split(b, c)[1..]
  {
    var parts := Split(a, c);
    SplitConcat(a, b, c);
    LastPartIsWhole(a, c);
    Seamed(Split(a + b, c), AllButLast(parts), Last(parts), b, c);
  }

  lemma Seamed(whole: seq<string>, init: seq<string>, last: string, b: string, c: char)
    requires whole == init + Split(last + b, c) && c !in last
    ensures whole == init + [last + Split(b, c)[0]] + Split(b, c)[1..]
  {
    SplitPrefixed(last, b, c);
    AroundMiddle(init, last + Split(b, c)[0], Split(b, c)[1..]);
  }

  lemma AroundMiddle(init: seq<string>, middle: string, rest: seq<string>)
    ensures init + ([middle] + rest) == init + [middle] + rest
  {
  }

  lemma TwoParts(file: string, p: nat)
    requires p <= |file|
    ensures file[..p] + file[p..] == file
  {
  }

  lemma FilePieces(file: string, p: nat)
    requires p <= |file|
    ensures Split(file, '\n') == Before(file, p) + [Unread(file, p) + Partial(file, p)] + After(file, p)
  {
    TwoParts(file, p);
    SplitSeam(file[..p], file[p..], '\n');
  }

  lemma FileLines(file: string, p: nat)
    requires p <= |file|
    ensures CleanLines(file) == Cleaned(Before(file, p)) + Cleaned([Unread(file, p) + Partial(file, p)]) + Cleaned(After(file, p))
    ensures CleanLines(file[p..]) == Cleaned([Partial(file, p)]) + Cleaned(After(file, p))
  {
    FilePieces(file, p);
    CleanLinesAreSplit(file);
    CleanLinesAreSplit(file[p..]);
    CleanedConcat(Before(file, p) + [Unread(file, p) + Partial(file, p)], After(file, p));
    CleanedConcat(Before(file, p), [Unread(file, p) + Partial(file, p)]);
    assert Split(file[p..], '\n') == [Partial(file, p)] + After(file, p);
    CleanedConcat([Partial(file, p)], After(file, p));
  }

  lemma LastOfConcat(a: seq<string>, b: seq<string>, n: nat)
    requires n >= 1
    ensures LastOf(a + b, n) == if |b| >= n then LastOf(b, n) else LastOf(a, n - |b|) + b
  {
  }

  /** Cleaning one piece: it is dropped if blank, and what precedes its text stays. */
  lemma CleanedPiece(before: string, piece: string)
    ensures Cleaned([piece]) == if Blank(piece) then [] else [TrimEnd(piece)]
    ensures !Blank(piece) ==> Cleaned([before + piece]) == [before + TrimEnd(piece)]
    ensures !Blank(piece) ==> !Blank(before + piece)
  {
    BlankTrims(piece);
    BlankTrims(before + piece);
    assert [piece][1..] == [] && [before + piece][1..] == [];
    if !Blank(piece) {
      TrimEndPrefixed(before, piece);
      var k :| 0 <= k < |piece| && !IsSpace(piece[k]);
      assert (before + piece)[|before| + k] == piece[k];
    }
  }

  lemma {:induction false} TrimEndPrefixed(before: string, piece: string)
    requires !Blank(piece)
    ensures TrimEnd(before + piece) == before + TrimEnd(piece)
  {
    if IsSpace(piece[|piece| - 1]) {
      assert (before + piece)[..|before + piece| - 1] == before + piece[..|piece| - 1];
      TrimEndPrefixed(before, piece[..|piece| - 1]);
    }
  }

  /**
   The part read settles what the last lines are: it has enough of them after its first break, or there is nothing
   but blank lines before that, or it starts with a whole line that is the last one missing or the first there is.
   */
  predicate ReadsEnough(file: string, n: nat) {
    var p := StopsAt(file, n, |file|, FIRST_CHUNK);
    var read := |Cleaned(After(file, p))|;
    || read >= n
    || (Cleaned(Before(file, p)) == [] && Blank(Unread(file, p) + Partial(file, p)))
    || (Unread(file, p) == "" && !Blank(Partial(file, p)) && (read == n - 1 || Cleaned(Before(file, p)) == []))
  }

  lemma OneLineAgrees(before: seq<string>, unread: string, text: string, m: nat)
    requires m >= 1
    ensures LastOf([text], m) == LastOf(before + [unread + text], m) <==> unread == "" && (m == 1 || before == [])
  {
    var whole := LastOf(before + [unread + text], m);
    assert LastOf([text], m) == [text] && whole[|whole| - 1] == unread + text;
    assert |whole| == 1 <==> m == 1 || before == [];
    if unread == "" {
      assert unread + text == text;
    } else {
      assert |unread + text| > |text|;
    }
  }

  /** The same with the pieces named: whole lines before, the unread and the read part of one line, and the rest. */
  lemma LastLinesAgree(before: seq<string>, unread: string, partial: string, rest: seq<string>, n: nat)
    requires n > |rest|
    ensures LastOf(Cleaned([partial]) + rest, n) == LastOf(before + Cleaned([unread + partial]) + rest, n)
            <==> || (before == [] && Blank(unread + partial))
                 || (unread == "" && !Blank(partial) && (|rest| == n - 1 || before == []))
  {
    var m := n - |rest|;
    LastOfConcat(Cleaned([partial]), rest, n);
    LastOfConcat(before + Cleaned([unread + partial]), rest, n);
    CleanedPiece(unread, partial);
    var read, whole := LastOf(Cleaned([partial]), m), LastOf(before + Cleaned([unread + partial]), m);
    assert read + rest == whole + rest <==> read == whole by {
      SameStart(read, whole, rest);
    }
    if Blank(partial) {
      CleanedPiece("", unread + partial);
    } else {
      CleanedPiece("", partial);
      OneLineAgrees(before, unread, TrimEnd(partial), m);
    }
  }

  lemma SameStart(a: seq<string>, b: seq<string>, rest: seq<string>)
    ensures a + rest == b + rest <==> a == b
  {
    if a + rest == b + rest {
      assert |a| == |b|;
      assert a == (a + rest)[..|a|] && b == (b + rest)[..|b|];
    }
  }

  /** Reading backwards finds the last lines of the file exactly when what it reads settles them. */
  lemma TailIsLastLines(file: string, n: nat)
    requires n >= 1
    ensures TailLines(file, n) == LastOf(CleanLines(file), n) <==> ReadsEnough(file, n)
  {
    var p := StopsAt(file, n, |file|, FIRST_CHUNK);
    FileLines(file, p);
    var before, unread, partial := Cleaned(Before(file, p)), Unread(file, p), Partial(file, p);
    var rest := Cleaned(After(file, p));
    if |rest| >= n {
      LastOfConcat(Cleaned([partial]), rest, n);
      LastOfConcat(before + Cleaned([unread + partial]), rest, n);
    } else {
      LastLinesAgree(before, unread, partial, rest, n);
    }
  }

  // ---- Files without blank lines ----

  /** Every line that ends with a break has something on it. */
  predicate NoBlankLines(file: string) {
    forall i :: 0 <= i < |Split(file, '\n')| - 1 ==> !Blank(Split(file, '\n')[i])
  }

  lemma {:induction false} CleanedCount(lines: seq<string>)
    requires forall i :: 0 <= i < |lines| - 1 ==> !Blank(lines[i])
    ensures |Cleaned(lines)| >= |lines| - 1
  {
    if |lines| >= 2 {
      BlankTrims(lines[0]);
      CleanedCount(lines[1..]);
    }
  }

  /** Without blank lines the reader is right for every positive number of lines. */
  lemma TailOfFileWithoutBlankLines(file: string, n: nat)
    requires n >= 1 && NoBlankLines(file)
    ensures TailLines(file, n) == LastOf(CleanLines(file), n)
  {
    var p := StopsAt(file, n, |file|, FIRST_CHUNK);
    if p == 0 {
      assert file[0..] == file;
    } else {
      FilePieces(file, p);
      var after := After(file, p);
      assert forall i :: 0 <= i < |after| ==> after[i] == Split(file, '\n')[|Before(file, p)| + 1 + i];
      CleanedCount(after);
      TailIsLastLines(file, n);
    }
  }

  lemma {:induction false} NothingButBreaks(s: string)
    requires forall k :: 0 <= k < |s| ==> s[k] == '\n'
    ensures Breaks(s) == |s| && Cleaned(Split(s, '\n')) == []
  {
    if s != "" {
      NothingButBreaks(s[1..]);
    }
  }

  lemma StopsAfterOneChunk(file: string, n: nat, p: nat)
    requires p > 0 && |file| == p + FIRST_CHUNK && Breaks(file[p..]) > n
    ensures StopsAt(file, n, |file|, FIRST_CHUNK) == p
  {
    assert file[|file|..] == "";
    assert Breaks("") == 0;
    assert StopsAt(file, n, p, Min(FIRST_CHUNK * 2, LARGEST_CHUNK)) == p;
  }

  lemma StopsAmongBreaks(file: string, n: nat, p: nat)
    requires p > 0 && |file| == p + FIRST_CHUNK && n < FIRST_CHUNK
    requires forall k :: p <= k < |file| ==> file[k] == '\n'
    ensures TailLines(file, n) == []
  {
    var read := file[p..];
    NothingButBreaks(read);
    CleanLinesAreSplit(read);
    StopsAfterOneChunk(file, n, p);
  }

  lemma LineBeforeBreaks(line: string, blanks: string)
    requires !Blank(line) && '\n' !in line && forall k :: 0 <= k < |blanks| ==> blanks[k] == '\n'
    ensures CleanLines(line + blanks) == [TrimEnd(line)]
  {
    var pieces := Split(blanks, '\n');
    CleanLinesAreSplit(line + blanks);
    SplitPrefixed(line, blanks, '\n');
    NothingButBreaks(blanks);
    assert pieces[0] == "" && line + "" == line;
    CleanedConcat([""], pieces[1..]);
    assert pieces == [""] + pieces[1..];
    CleanedConcat([line], pieces[1..]);
    CleanedPiece("", line);
  }

  /** Enough blank lines at the end hide everything before them. */
  lemma BlankLinesHideTheRest(line: string, blanks: string, n: nat)
    requires !Blank(line) && '\n' !in line
    requires 1 <= n < FIRST_CHUNK <= |blanks| && forall k :: 0 <= k < |blanks| ==> blanks[k] == '\n'
    ensures TailLines(line + blanks, n) == [] && CleanLines(line + blanks) == [TrimEnd(line)]
  {
    StopsAmongBreaks(line + blanks, n, |line| + |blanks| - FIRST_CHUNK);
    LineBeforeBreaks(line, blanks);
  }
}
