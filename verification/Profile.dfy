/**
 The managed PATH block in a shell profile: src/adapters/system_install/path_registration.rs:157-200 and
 its removal in uninstall/path_registration.rs:143-163. A block is found by two marker lines; a line
 keeps its '\n', and its content is what is left without that and without one '\r' before it.
 */
module Profile {
  import opened Wrappers
  import Markup

  function BeginMarker(): string { "# >>> rpotato managed PATH >>>" }

  function EndMarker(): string { "# <<< rpotato managed PATH <<<" }

  // ---- Lines -----------------------------------------------------------------------------------

  /** The length of the first line, with its line feed. */
  function LineLength(text: string): (n: nat)
    ensures n <= |text| && (text != "" ==> n > 0)
    ensures n < |text| ==> text[n - 1] == '\n'
    ensures forall i | 0 <= i < n - 1 :: text[i] != '\n'
  {
    if text == "" then 0 else if text[0] == '\n' then 1 else 1 + LineLength(text[1..])
  }

  /** split_inclusive('\n') */
  function Lines(text: string): (lines: seq<string>)
    ensures forall l | l in lines :: l != ""
    decreases |text|
  {
    if text == "" then [] else [text[..LineLength(text)]] + Lines(text[LineLength(text)..])
  }

  function Concat(lines: seq<string>): string {
    if lines == [] then "" else lines[0] + Concat(lines[1..])
  }

  predicate Complete(text: string) {
    text == "" || text[|text| - 1] == '\n'
  }

  lemma {:induction false} LinesJoin(text: string)
    ensures Concat(Lines(text)) == text
    decreases |text|
  {
    if text != "" {
      LinesJoin(text[LineLength(text)..]);
    }
  }

  lemma {:induction false} ConcatOfConcat(a: seq<string>, b: seq<string>)
    ensures Concat(a + b) == Concat(a) + Concat(b)
  {
    if a == [] {
      assert a + b == b;
    } else {
      assert (a + b)[1..] == a[1..] + b;
      ConcatOfConcat(a[1..], b);
    }
  }

  lemma {:induction false} FirstLineStays(a: string, b: string)
    requires a != "" && (Complete(a) || LineLength(a) < |a|)
    ensures LineLength(a + b) == LineLength(a)
  {
    if a[0] != '\n' {
      assert (a + b)[1..] == a[1..] + b;
      assert a[1..] != "" by {
        assert |a| > 1;
      }
      FirstLineStays(a[1..], b);
    }
  }

  /** Behind a complete text the lines start anew. */
  lemma {:induction false} LinesOfConcat(a: string, b: string)
    requires Complete(a)
    ensures Lines(a + b) == Lines(a) + Lines(b)
    decreases |a|
  {
    hide Lines, LineLength;
    if a == "" {
      assert a + b == b;
      NoLines();
    } else {
      var n := LineLength(a);
      FirstLineStays(a, b);
      assert (a + b)[..n] == a[..n] && (a + b)[n..] == a[n..] + b;
      FirstLine(a);
      FirstLine(a + b);
      LinesOfConcat(a[n..], b);
      assert [a[..n]] + (Lines(a[n..]) + Lines(b)) == ([a[..n]] + Lines(a[n..])) + Lines(b);
    }
  }

  lemma NoLines()
    ensures Lines("") == []
  {}

  lemma FirstLine(text: string)
    requires text != ""
    ensures Lines(text) == [text[..LineLength(text)]] + Lines(text[LineLength(text)..])
  {}

  lemma {:induction false} OneLine(text: string)
    requires text != "" && '\n' !in text[..|text| - 1]
    ensures Lines(text) == [text]
  {
    WholeLength(text);
    assert text[..|text|] == text;
  }

  lemma {:induction false} WholeLength(text: string)
    requires text != "" && '\n' !in text[..|text| - 1]
    ensures LineLength(text) == |text|
  {
    if |text| > 1 {
      assert text[0] in text[..|text| - 1];
      assert text[1..][..|text| - 2] == text[..|text| - 1][1..];
      WholeLength(text[1..]);
    }
  }

  // ---- Markers --------------------------------------------------------------------------------------

  function Content(line: string): string {
    var bare := if line != "" && line[|line| - 1] == '\n' then line[..|line| - 1] else line;
    if bare != "" && bare[|bare| - 1] == '\r' then bare[..|bare| - 1] else bare
  }

  /** A line reads as a marker in four spellings: bare or ended by a line feed, each with or without a carriage return. */
  lemma ReadsAs(line: string, marker: string)
    requires marker != "" && marker[|marker| - 1] != '\n' && marker[|marker| - 1] != '\r'
    ensures Content(line) == marker <==>
            line == marker || line == marker + "\n" || line == marker + "\r\n" || line == marker + "\r"
  {
    var bare := if line != "" && line[|line| - 1] == '\n' then line[..|line| - 1] else line;
    assert line == if line == bare then bare else bare + "\n";
    var content := Content(line);
    assert bare == content || bare == content + "\r";
    assert marker + "\r\n" == (marker + "\r") + "\n";
    if line == marker + "\n" {
      assert bare == marker;
    } else if line == marker + "\r\n" {
      assert bare == marker + "\r" && bare[..|bare| - 1] == marker;
    } else if line == marker + "\r" {
      assert bare == line && bare[..|bare| - 1] == marker;
    }
  }

  function Count(lines: seq<string>, marker: string): nat {
    if lines == [] then 0 else (if Content(lines[0]) == marker then 1 else 0) + Count(lines[1..], marker)
  }

  /** The first marker line, or the number of lines. */
  function First(lines: seq<string>, marker: string): (i: nat)
    ensures i <= |lines|
    ensures i < |lines| <==> Count(lines, marker) > 0
    ensures i < |lines| ==> Content(lines[i]) == marker
  {
    if lines == [] || Content(lines[0]) == marker then 0 else 1 + First(lines[1..], marker)
  }

  lemma {:induction false} CountOfConcat(a: seq<string>, b: seq<string>, marker: string)
    ensures Count(a + b, marker) == Count(a, marker) + Count(b, marker)
    ensures Count(a, marker) == 0 ==> First(a + b, marker) == |a| + First(b, marker)
  {
    if a == [] {
      assert a + b == b;
    } else {
      assert (a + b)[1..] == a[1..] + b;
      CountOfConcat(a[1..], b, marker);
    }
  }

  lemma CountOfCons(line: string, rest: seq<string>, marker: string)
    ensures Count([line] + rest, marker) == (if Content(line) == marker then 1 else 0) + Count(rest, marker)
    ensures First([line] + rest, marker) == if Content(line) == marker then 0 else 1 + First(rest, marker)
  {
    assert ([line] + rest)[1..] == rest;
  }

  lemma NothingCounts(marker: string)
    ensures Count([], marker) == 0
  {}

  lemma PartsOfCons(first: string, rest: seq<string>, i: nat)
    requires i < |rest|
    ensures ([first] + rest)[..i + 1] == [first] + rest[..i] && ([first] + rest)[i + 2..] == rest[i + 1..]
  {}

  /** In front of the first marker there is none, and behind an only one there is none. */
  lemma {:induction false} AroundFirst(lines: seq<string>, marker: string)
    requires Count(lines, marker) > 0
    ensures Count(lines[..First(lines, marker)], marker) == 0
    ensures Count(lines[First(lines, marker) + 1..], marker) == Count(lines, marker) - 1
  {
    NothingCounts(marker);
    hide Content, Count, First;
    var first, rest := lines[0], lines[1..];
    assert lines == [first] + rest;
    CountOfCons(first, rest, marker);
    if Content(first) == marker {
      assert lines[..0] == [];
    } else {
      AroundFirst(rest, marker);
      var i := First(rest, marker);
      PartsOfCons(first, rest, i);
      CountOfCons(first, rest[..i], marker);
    }
  }

  // ---- The layout of a profile ---------------------------------------------------------------------------

  datatype Layout =
    | NoBlock
    | Block(before: string, after: string)           // everything outside the marker lines and what they enclose
    | Damaged

  /** Both markers once, in order, is a block; neither at all is none; anything else is damage. */
  function LayoutOf(lines: seq<string>): Layout {
    var i, j := First(lines, BeginMarker()), First(lines, EndMarker());
    if Count(lines, BeginMarker()) == 0 && Count(lines, EndMarker()) == 0 then NoBlock
    else if Count(lines, BeginMarker()) == 1 && Count(lines, EndMarker()) == 1 && i < j then
      Block(Concat(lines[..i]), Concat(lines[j + 1..]))
    else Damaged
  }

  /** Unbalanced, repeated or misordered markers. */
  predicate Misplaced(lines: seq<string>) {
    && (Count(lines, BeginMarker()) != 0 || Count(lines, EndMarker()) != 0)
    && (Count(lines, BeginMarker()) != 1 || Count(lines, EndMarker()) != 1
        || First(lines, EndMarker()) <= First(lines, BeginMarker()))
  }

  /** What separates an existing profile from a block appended to it. */
  function Separator(existing: string): string {
    if existing == "" then "" else if Complete(existing) then "\n" else "\n\n"
  }

  function Render(existing: string, block: string): Option<string> {
    match LayoutOf(Lines(existing))
    case NoBlock => Some(existing + Separator(existing) + block + "\n")
    case Block(before, after) => Some(before + block + "\n" + after)
    case Damaged => None
  }

  predicate IsBlank(text: string) {
    forall c | c in text :: Markup.IsWhitespace(c)
  }

  function Remove(existing: string): Option<string> {
    match LayoutOf(Lines(existing))
    case NoBlock => Some(existing)
    case Block(before, after) => Some(if IsBlank(before + after) then "" else before + after)
    case Damaged => None
  }

  // ---- A managed block ----------------------------------------------------------------------------------

  function ManagedBlock(command: string): string {
    BeginMarker() + "\n" + command + "\n" + EndMarker()
  }

  /** No line of the command reads as a marker. */
  predicate Harmless(command: string) {
    Count(Lines(command + "\n"), BeginMarker()) == 0 && Count(Lines(command + "\n"), EndMarker()) == 0
  }

  lemma MarkerLines()
    ensures Lines(BeginMarker() + "\n") == [BeginMarker() + "\n"] && Content(BeginMarker() + "\n") == BeginMarker()
    ensures Lines(EndMarker() + "\n") == [EndMarker() + "\n"] && Content(EndMarker() + "\n") == EndMarker()
    ensures BeginMarker() != EndMarker()
  {
    MarkerLine(BeginMarker());
    MarkerLine(EndMarker());
    assert BeginMarker()[2] != EndMarker()[2];
  }

  lemma MarkerLine(marker: string)
    requires marker != "" && marker[|marker| - 1] != '\r' && '\n' !in marker
    ensures Lines(marker + "\n") == [marker + "\n"] && Content(marker + "\n") == marker
  {
    hide Lines;
    assert (marker + "\n")[..|marker|] == marker;
    OneLine(marker + "\n");
  }

  /** A text around a managed block is read back as that block with that text around it. */
  lemma BlockFound(before: string, command: string, after: string)
    requires Complete(before) && Harmless(command)
    requires Count(Lines(before), BeginMarker()) == 0 && Count(Lines(before), EndMarker()) == 0
    requires Count(Lines(after), BeginMarker()) == 0 && Count(Lines(after), EndMarker()) == 0
    ensures LayoutOf(Lines(before + ManagedBlock(command) + "\n" + after)) == Block(before, after)
  {
    hide Lines, Content, Count, First, BeginMarker, EndMarker, ManagedBlock, LayoutOf, Complete;
    MarkerLines();
    SplitBlock(before, command, after);
    LayoutAround(Lines(before), BeginMarker() + "\n", Lines(command + "\n"), EndMarker() + "\n", Lines(after));
    LinesJoin(before);
    LinesJoin(after);
  }

  lemma LayoutAround(head: seq<string>, b: string, body: seq<string>, e: string, tail: seq<string>)
    requires Content(b) == BeginMarker() && Content(e) == EndMarker() && BeginMarker() != EndMarker()
    requires Count(head, BeginMarker()) == 0 && Count(head, EndMarker()) == 0
    requires Count(body, BeginMarker()) == 0 && Count(body, EndMarker()) == 0
    requires Count(tail, BeginMarker()) == 0 && Count(tail, EndMarker()) == 0
    ensures LayoutOf(head + ([b] + (body + ([e] + tail)))) == Block(Concat(head), Concat(tail))
  {
    hide Content, Count, First, BeginMarker, EndMarker, Concat;
    CountsAround(head, b, body, e, tail, BeginMarker(), EndMarker());
    PartsAround(head, b, body, e, tail);
  }

  lemma PartsAround(head: seq<string>, b: string, body: seq<string>, e: string, tail: seq<string>)
    ensures var lines := head + ([b] + (body + ([e] + tail)));
            |lines| == |head| + |body| + |tail| + 2 && lines[..|head|] == head && lines[|head| + |body| + 2..] == tail
  {}

  lemma SplitBlock(before: string, command: string, after: string)
    requires Complete(before)
    ensures Lines(before + ManagedBlock(command) + "\n" + after)
         == Lines(before) + ([BeginMarker() + "\n"] + (Lines(command + "\n") + ([EndMarker() + "\n"] + Lines(after))))
  {
    hide Lines, Content, BeginMarker, EndMarker;
    MarkerLines();
    var end := (EndMarker() + "\n") + after;
    LinesOfConcat(EndMarker() + "\n", after);
    var body := (command + "\n") + end;
    LinesOfConcat(command + "\n", end);
    var begin := (BeginMarker() + "\n") + body;
    LinesOfConcat(BeginMarker() + "\n", body);
    LinesOfConcat(before, begin);
    assert before + ManagedBlock(command) + "\n" + after == before + begin;
  }

  /** Between two lines that read m and n, in a list that has neither otherwise. */
  lemma CountsAround(head: seq<string>, b: string, body: seq<string>, e: string, tail: seq<string>, m: string, n: string)
    requires Content(b) == m && Content(e) == n && m != n
    requires Count(head, m) == 0 && Count(head, n) == 0
    requires Count(body, m) == 0 && Count(body, n) == 0
    requires Count(tail, m) == 0 && Count(tail, n) == 0
    ensures var lines := head + ([b] + (body + ([e] + tail)));
            && Count(lines, m) == 1 && First(lines, m) == |head|
            && Count(lines, n) == 1 && First(lines, n) == |head| + |body| + 1
  {
    hide Content;
    var end := [e] + tail;
    assert end[1..] == tail;
    CountOfConcat(body, end, m);
    CountOfConcat(body, end, n);
    var begin := [b] + (body + end);
    assert begin[1..] == body + end;
    CountOfConcat(head, begin, m);
    CountOfConcat(head, begin, n);
  }

  // ---- What rendering does to a profile ------------------------------------------------------------------

  lemma {:induction false} LinesOfFront(text: string, i: nat)
    requires i <= |Lines(text)|
    ensures Lines(Concat(Lines(text)[..i])) == Lines(text)[..i]
    ensures i < |Lines(text)| ==> Complete(Concat(Lines(text)[..i]))
    decreases |text|
  {
    if i > 0 {
      assert text != "";
      var line, rest := text[..LineLength(text)], text[LineLength(text)..];
      FrontOfLines(text, i);
      hide Lines, Concat;
      LinesOfFront(rest, i - 1);
      SingleLine(text);
      PrependLine(line, Lines(rest)[..i - 1]);
    }
  }

  lemma FrontOfLines(text: string, i: nat)
    requires text != "" && 0 < i <= |Lines(text)|
    ensures var line, rest := text[..LineLength(text)], text[LineLength(text)..];
            && |Lines(text)| == 1 + |Lines(rest)| && line != "" && |rest| < |text|
            && Lines(text)[..i] == [line] + Lines(rest)[..i - 1]
            && (rest != "" ==> Complete(line)) && (rest == "" ==> Lines(rest) == [])
  {}

  lemma PrependLine(line: string, lines: seq<string>)
    requires line != "" && Lines(line) == [line]
    requires Complete(line) || lines == []
    requires Lines(Concat(lines)) == lines
    ensures Lines(Concat([line] + lines)) == [line] + lines
    ensures Complete(line) && Complete(Concat(lines)) ==> Complete(Concat([line] + lines))
  {
    hide Lines;
    assert ([line] + lines)[1..] == lines;
    var back := Concat(lines);
    if lines == [] {
      assert line + back == line;
    } else {
      LinesOfConcat(line, back);
    }
  }

  lemma {:induction false} SingleLine(text: string)
    requires text != ""
    ensures Lines(text[..LineLength(text)]) == [text[..LineLength(text)]]
  {
    var n := LineLength(text);
    LengthOfLine(text);
    assert text[..n][..n] == text[..n];
  }

  lemma {:induction false} LengthOfLine(text: string)
    requires text != ""
    ensures LineLength(text[..LineLength(text)]) == LineLength(text)
  {
    if text[0] != '\n' && |text| > 1 {
      LengthOfLine(text[1..]);
      assert text[..LineLength(text)][1..] == text[1..][..LineLength(text[1..])];
    }
  }

  lemma {:induction false} LinesOfBack(text: string, i: nat)
    requires i <= |Lines(text)|
    ensures Lines(Concat(Lines(text)[i..])) == Lines(text)[i..]
    decreases |text|
  {
    if i == 0 {
      LinesJoin(text);
      assert Lines(text)[0..] == Lines(text);
    } else {
      LinesOfBack(text[LineLength(text)..], i - 1);
      assert Lines(text)[i..] == Lines(text[LineLength(text)..])[i - 1..];
    }
  }

  predicate Unmarked(text: string) {
    Count(Lines(text), BeginMarker()) == 0 && Count(Lines(text), EndMarker()) == 0
  }

  /** What surrounds a block is complete in front and free of markers on both sides. */
  lemma OutsideIsUnmarked(existing: string)
    requires LayoutOf(Lines(existing)).Block?
    ensures var outside := LayoutOf(Lines(existing));
            Complete(outside.before) && Unmarked(outside.before) && Unmarked(outside.after)
  {
    hide Lines, Content, Count, First, BeginMarker, EndMarker;
    var lines := Lines(existing);
    var i, j := First(lines, BeginMarker()), First(lines, EndMarker());
    LinesOfFront(existing, i);
    LinesOfBack(existing, j + 1);
    AroundFirst(lines, BeginMarker());
    AroundFirst(lines, EndMarker());
    PartsOfUnmarked(lines[..j], i, EndMarker());
    assert lines[..j][..i] == lines[..i];
    PartsOfUnmarked(lines[i + 1..], j - i, BeginMarker());
    assert lines[i + 1..][j - i..] == lines[j + 1..];
  }

  lemma PartsOfUnmarked(lines: seq<string>, k: nat, marker: string)
    requires k <= |lines| && Count(lines, marker) == 0
    ensures Count(lines[..k], marker) == 0 && Count(lines[k..], marker) == 0
  {
    assert lines == lines[..k] + lines[k..];
    CountOfConcat(lines[..k], lines[k..], marker);
  }

  /** An unmarked text with the separator behind it is complete and still unmarked. */
  lemma SeparatorIsHarmless(existing: string)
    requires Unmarked(existing)
    ensures Complete(existing + Separator(existing)) && Unmarked(existing + Separator(existing))
  {
    if existing == "" {
      assert existing + Separator(existing) == existing;
    } else if Complete(existing) {
      EmptyLine();
      LinesOfConcat(existing, "\n");
      CountOfConcat(Lines(existing), Lines("\n"), BeginMarker());
      CountOfConcat(Lines(existing), Lines("\n"), EndMarker());
    } else {
      EmptyLine();
      assert existing + "\n\n" == (existing + "\n") + "\n";
      LinesOfConcat(existing + "\n", "\n");
      CompletedIsUnmarked(existing, BeginMarker());
      CompletedIsUnmarked(existing, EndMarker());
      CountOfConcat(Lines(existing + "\n"), Lines("\n"), BeginMarker());
      CountOfConcat(Lines(existing + "\n"), Lines("\n"), EndMarker());
    }
  }

  lemma EmptyLine()
    ensures Lines("\n") == ["\n"] && Content("\n") == "" && Unmarked("\n")
  {
    OneLine("\n");
    assert "\n"[..0] == "";
    assert BeginMarker() != "" && EndMarker() != "";
  }

  lemma {:induction false} NoFeed(text: string)
    requires text != "" && !Complete(text) && LineLength(text) == |text|
    ensures '\n' !in text
  {
    if |text| > 1 {
      NoFeed(text[1..]);
      assert text == [text[0]] + text[1..];
    }
  }

  lemma SameContent(line: string)
    requires !Complete(line)
    ensures Content(line + "\n") == Content(line)
  {
    assert (line + "\n")[..|line|] == line;
  }

  lemma CompletedLine(text: string)
    requires !Complete(text) && LineLength(text) == |text|
    ensures Lines(text) == [text] && Lines(text + "\n") == [text + "\n"]
  {
    NoFeed(text);
    assert (text + "\n")[..|text|] == text;
    OneLine(text + "\n");
    assert text[..|text|] == text && text[|text|..] == "";
  }

  lemma CompletedLater(text: string)
    requires !Complete(text) && LineLength(text) < |text|
    ensures var line, rest := text[..LineLength(text)], text[LineLength(text)..];
            && |rest| < |text| && !Complete(rest)
            && Lines(text) == [line] + Lines(rest) && Lines(text + "\n") == [line] + Lines(rest + "\n")
  {
    var n := LineLength(text);
    FirstLineStays(text, "\n");
    assert (text + "\n")[..n] == text[..n] && (text + "\n")[n..] == text[n..] + "\n";
  }

  /** Ending the last line changes no line's content. */
  lemma {:induction false} CompletedIsUnmarked(text: string, marker: string)
    requires !Complete(text)
    ensures Count(Lines(text + "\n"), marker) == Count(Lines(text), marker)
    decreases |text|
  {
    if LineLength(text) == |text| {
      CompletedLine(text);
      SameContent(text);
      hide Lines, Content;
    } else {
      CompletedLater(text);
      hide Lines, Content, Count, LineLength, Complete;
      var line, rest := text[..LineLength(text)], text[LineLength(text)..];
      CompletedIsUnmarked(rest, marker);
      CountOfCons(line, Lines(rest), marker);
      CountOfCons(line, Lines(rest + "\n"), marker);
    }
  }

  lemma NothingAfter()
    ensures Unmarked("")
  {}

  /** A rendered profile has exactly one block, the given one, and its surroundings are kept. */
  lemma RenderedLayout(existing: string, command: string)
    requires Harmless(command)
    ensures var rendered := Render(existing, ManagedBlock(command));
            match LayoutOf(Lines(existing))
            case NoBlock => rendered.Some? && LayoutOf(Lines(rendered.value)) == Block(existing + Separator(existing), "")
            case Block(before, after) => rendered.Some? && LayoutOf(Lines(rendered.value)) == Block(before, after)
            case Damaged => rendered.None?
  {
    hide Lines;
    var layout := LayoutOf(Lines(existing));
    if layout.NoBlock? {
      SeparatorIsHarmless(existing);
      NothingAfter();
      BlockFound(existing + Separator(existing), command, "");
      var text := existing + Separator(existing) + ManagedBlock(command) + "\n";
      assert text + "" == text;
    } else if layout.Block? {
      OutsideIsUnmarked(existing);
      BlockFound(layout.before, command, layout.after);
    }
  }

  /**
   Rendering again, with the same command or another, is rendering that one alone: the operation is
   idempotent and the last command wins.
   */
  lemma LastBlockWins(existing: string, first: string, second: string)
    requires Harmless(first) && Harmless(second)
    requires Render(existing, ManagedBlock(first)).Some?
    ensures Render(Render(existing, ManagedBlock(first)).value, ManagedBlock(second)) == Render(existing, ManagedBlock(second))
  {
    hide Lines, Harmless, LayoutOf;
    RenderedLayout(existing, first);
    var once := Render(existing, ManagedBlock(first)).value;
    var layout := LayoutOf(Lines(existing));
    if layout.NoBlock? {
      var text := existing + Separator(existing) + ManagedBlock(second) + "\n";
      assert text + "" == text;
    }
  }

  /** What is appended to a profile without a block, character by character. */
  lemma AppendedSpelled(existing: string, command: string)
    requires LayoutOf(Lines(existing)).NoBlock?
    ensures Render(existing, ManagedBlock(command))
         == Some(existing
                 + (if existing == "" then "" else if existing[|existing| - 1] == '\n' then "\n" else "\n\n")
                 + ("# >>> rpotato managed PATH >>>" + "\n" + command + "\n" + "# <<< rpotato managed PATH <<<") + "\n")
  {
    hide Lines;
  }

  /**
   Removing what was rendered gives back the surroundings of an existing block, or the old profile with
   the separator behind it; a profile that is blank is emptied.
   */
  lemma RemoveUndoesRender(existing: string, command: string)
    requires Harmless(command)
    ensures var rendered := Render(existing, ManagedBlock(command));
            match LayoutOf(Lines(existing))
            case NoBlock => Remove(rendered.value)
                         == Some(if (forall c | c in existing :: Markup.IsWhitespace(c)) then "" else existing + Separator(existing))
            case Block(before, after) => Remove(rendered.value) == Remove(existing)
            case Damaged => rendered.None? && Remove(existing).None?
  {
    hide Lines, Harmless, LayoutOf;
    RenderedLayout(existing, command);
    var whole := existing + Separator(existing);
    assert whole + "" == whole;
    assert IsBlank(whole) <==> IsBlank(existing) by {
      assert forall c | c in existing :: c in whole;
      assert forall c | c in whole :: c in existing || c == '\n';
    }
  }

  // ---- The code ------------------------------------------------------------------------------------------

  function Ranges(lines: seq<string>, marker: string): seq<(nat, nat)> {
    if lines == [] then []
    else
      var last := |lines| - 1;
      Ranges(lines[..last], marker)
      + (if Content(lines[last]) == marker then [(|Concat(lines[..last])|, |Concat(lines)|)] else [])
  }

  lemma NoLineYet(lines: seq<string>, marker: string)
    ensures Ranges(lines[..0], marker) == [] && Concat(lines[..0]) == ""
  {}

  lemma OneMoreLine(lines: seq<string>, k: nat, marker: string)
    requires k < |lines|
    ensures |Concat(lines[..k + 1])| == |Concat(lines[..k])| + |lines[k]|
    ensures Ranges(lines[..k + 1], marker)
         == Ranges(lines[..k], marker)
            + (if Content(lines[k]) == marker then [(|Concat(lines[..k])|, |Concat(lines[..k + 1])|)] else [])
  {
    hide Content;
    var line := lines[k];
    assert lines[..k + 1] == lines[..k] + [line] && lines[..k + 1][..k] == lines[..k];
    ConcatOfConcat(lines[..k], [line]);
    assert Concat([line]) == line + Concat([]);
  }

  /** exact_line_ranges: where each marker line starts and where the next line starts. */
  method ExactLineRanges(text: string, marker: string) returns (ranges: seq<(nat, nat)>)
    ensures ranges == Ranges(Lines(text), marker)
  {
    hide Lines, Content, Ranges, Concat;
    var lines := Lines(text);
    var offset := 0;
    ranges := [];
    NoLineYet(lines, marker);
    for k := 0 to |lines|
      invariant ranges == Ranges(lines[..k], marker) && offset == |Concat(lines[..k])|
    {
      var line := lines[k];
      var start := offset;
      OneMoreLine(lines, k, marker);
      offset := offset + |line|;
      if Content(line) == marker {
        ranges := ranges + [(start, offset)];
      }
    }
    assert lines[..|lines|] == lines;
  }

  lemma {:induction false} RangesCount(lines: seq<string>, marker: string)
    ensures |Ranges(lines, marker)| == Count(lines, marker)
    ensures Count(lines, marker) == 1 ==>
              var i := First(lines, marker);
              Ranges(lines, marker)[0] == (|Concat(lines[..i])|, |Concat(lines[..i + 1])|)
  {
    hide Content;
    if lines != [] {
      var last := |lines| - 1;
      var front := lines[..last];
      RangesCount(front, marker);
      assert lines == front + [lines[last]];
      CountOfConcat(front, [lines[last]], marker);
      if Count(front, marker) > 0 {
        FirstInFront(front, [lines[last]], marker);
        var i := First(front, marker);
        assert lines[..i] == front[..i] && lines[..i + 1] == front[..i + 1];
      } else {
        assert lines[..last + 1] == lines;
      }
    }
  }

  lemma {:induction false} FirstInFront(a: seq<string>, b: seq<string>, marker: string)
    requires Count(a, marker) > 0
    ensures First(a + b, marker) == First(a, marker)
  {
    if Content(a[0]) != marker {
      assert (a + b)[1..] == a[1..] + b;
      FirstInFront(a[1..], b, marker);
    }
  }

  /** A text cut where its line number i starts. */
  lemma CutAtLine(text: string, i: nat)
    requires i <= |Lines(text)|
    ensures var at := |Concat(Lines(text)[..i])|;
            at <= |text| && text[..at] == Concat(Lines(text)[..i]) && text[at..] == Concat(Lines(text)[i..])
  {
    LinesJoin(text);
    assert Lines(text) == Lines(text)[..i] + Lines(text)[i..];
    ConcatOfConcat(Lines(text)[..i], Lines(text)[i..]);
  }

  lemma LaterStart(lines: seq<string>, i: nat, j: nat)
    requires i <= j <= |lines| && forall l | l in lines :: l != ""
    ensures |Concat(lines[..i])| < |Concat(lines[..j])| <==> i < j
  {
    if i < j {
      assert lines[..j] == lines[..i] + ([lines[i]] + lines[i + 1..j]);
      ConcatOfConcat(lines[..i], [lines[i]] + lines[i + 1..j]);
      assert lines[i] in lines;
      assert ([lines[i]] + lines[i + 1..j])[0] == lines[i];
    }
  }

  /** The offsets of a single begin and a single end decide the layout. */
  lemma OffsetsDecide(text: string)
    requires Count(Lines(text), BeginMarker()) == 1 && Count(Lines(text), EndMarker()) == 1
    ensures |Ranges(Lines(text), BeginMarker())| == 1 && |Ranges(Lines(text), EndMarker())| == 1
    ensures var (begin, _) := Ranges(Lines(text), BeginMarker())[0]; var (end, suffix) := Ranges(Lines(text), EndMarker())[0];
            && begin <= |text| && suffix <= |text|
            && LayoutOf(Lines(text)) == if begin < end then Block(text[..begin], text[suffix..]) else Damaged
  {
    hide Lines, Content, Ranges;
    var lines := Lines(text);
    var i, j := First(lines, BeginMarker()), First(lines, EndMarker());
    RangesCount(lines, BeginMarker());
    RangesCount(lines, EndMarker());
    CutAtLine(text, i);
    CutAtLine(text, j + 1);
    if i <= j {
      LaterStart(lines, i, j);
    } else {
      LaterStart(lines, j, i);
    }
  }

  method RenderManagedProfile(existing: string, block: string) returns (r: Option<string>)
    ensures r == Render(existing, block)
    ensures r.None? <==> Misplaced(Lines(existing))
  {
    hide Lines, Content, Ranges;
    var begins := ExactLineRanges(existing, BeginMarker());
    var ends := ExactLineRanges(existing, EndMarker());
    RangesCount(Lines(existing), BeginMarker());
    RangesCount(Lines(existing), EndMarker());
    if begins == [] && ends == [] {
      var rendered := existing;
      if rendered != "" {
        if rendered[|rendered| - 1] != '\n' {
          rendered := rendered + "\n";
        }
        rendered := rendered + "\n";
      }
      assert rendered == existing + Separator(existing);
      return Some(rendered + block + "\n");
    }
    if |begins| == 1 && |ends| == 1 {
      OffsetsDecide(existing);
      if begins[0].0 < ends[0].0 {
        return Some(existing[..begins[0].0] + block + "\n" + existing[ends[0].1..]);
      }
    }
    r := None;
  }

  /** render_profile_without_managed_block, over the same offsets. */
  method RemoveManagedBlock(existing: string) returns (r: Option<string>)
    ensures r == Remove(existing)
    ensures r.None? <==> Misplaced(Lines(existing))
  {
    hide Lines, Content, Ranges;
    var begins := ExactLineRanges(existing, BeginMarker());
    var ends := ExactLineRanges(existing, EndMarker());
    RangesCount(Lines(existing), BeginMarker());
    RangesCount(Lines(existing), EndMarker());
    if begins == [] && ends == [] {
      return Some(existing);
    }
    if |begins| == 1 && |ends| == 1 {
      OffsetsDecide(existing);
      if begins[0].0 < ends[0].0 {
        var rendered := existing[..begins[0].0] + existing[ends[0].1..];
        if IsBlank(rendered) {
          rendered := "";
        }
        return Some(rendered);
      }
    }
    r := None;
  }
}
