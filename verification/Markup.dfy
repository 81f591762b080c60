/**
 The markup scanner of src/adapters/web_search/page.rs:134-317. A document is a string; find,
 trim and split_whitespace are written out, with the Unicode White_Space set.
 */
module Markup {
  import opened Wrappers

  // ---- Strings -----------------------------------------------------------------------------

  predicate IsWhitespace(c: char) {
    || '\t' <= c <= '\r' || c == ' ' || c == '\U{0085}' || c == '\U{00A0}' || c == '\U{1680}'
    || '\U{2000}' <= c <= '\U{200A}' || c == '\U{2028}' || c == '\U{2029}' || c == '\U{202F}'
    || c == '\U{205F}' || c == '\U{3000}'
  }

  /** The position of the first occurrence. */
  function Find(s: string, pattern: string): (at: Option<nat>)
    ensures at.Some? ==> at.value + |pattern| <= |s|
  {
    if pattern <= s then Some(0)
    else if s == "" then None
    else
      match Find(s[1..], pattern)
      case Some(i) => Some(i + 1)
      case None => None
  }

  predicate Contains(s: string, pattern: string) {
    Find(s, pattern).Some?
  }

  function TrimStart(s: string): (t: string)
    ensures |t| <= |s|
  {
    if s != "" && IsWhitespace(s[0]) then TrimStart(s[1..]) else s
  }

  function TrimEnd(s: string): (t: string)
    ensures |t| <= |s|
  {
    if s != "" && IsWhitespace(s[|s| - 1]) then TrimEnd(s[..|s| - 1]) else s
  }

  function Trim(s: string): (t: string)
    ensures |t| <= |s|
  {
    TrimEnd(TrimStart(s))
  }

  function LowerChar(c: char): char {
    if 'A' <= c <= 'Z' then c - 'A' + 'a' else c
  }

  function Lower(s: string): (t: string)
    ensures |t| == |s|
  {
    seq(|s|, i requires 0 <= i < |s| => LowerChar(s[i]))
  }

  predicate SameName(a: string, b: string) {
    Lower(a) == Lower(b)
  }

  function WithoutQuotes(s: string): string {
    if s == "" then ""
    else (if s[0] == '\'' || s[0] == '"' then "" else [s[0]]) + WithoutQuotes(s[1..])
  }

  /** The length of the run of characters before the first white space. */
  function WordLength(s: string): (n: nat)
    ensures n <= |s|
    ensures s != "" && !IsWhitespace(s[0]) ==> n > 0
  {
    if s == "" || IsWhitespace(s[0]) then 0 else 1 + WordLength(s[1..])
  }

  /** split_whitespace().any(|part| part == word) */
  predicate HasWord(s: string, word: string)
    decreases |s|
  {
    var t := TrimStart(s);
    t != "" && (t[..WordLength(t)] == word
                || (WordLength(t) > 0 && HasWord(t[WordLength(t)..], word)))
  }

  // ---- Tags ----------------------------------------------------------------------------------

  datatype HtmlTag = HtmlTag(name: string, closing: bool, selfClosing: bool)

  function NameLength(s: string): (n: nat)
    ensures n <= |s|
  {
    if s == "" || IsWhitespace(s[0]) || s[0] == '/' then 0 else 1 + NameLength(s[1..])
  }

  function ParseTag(raw: string): (tag: Option<HtmlTag>)
    ensures tag.Some? ==> 0 < |tag.value.name| <= |raw|
  {
    var value := Trim(raw);
    if value == "" || value[0] == '!' || value[0] == '?' then None
    else
      var closing := value[0] == '/';
      var body := TrimStart(if closing then value[1..] else value);
      var name := body[..NameLength(body)];
      if name == "" then None
      else
        var shown := TrimEnd(body);
        Some(HtmlTag(name, closing, shown != "" && shown[|shown| - 1] == '/'))
  }

  predicate NamedOneOf(name: string, names: seq<string>) {
    exists candidate | candidate in names :: SameName(name, candidate)
  }

  predicate HasHiddenAttribute(raw: string) {
    var normalized := WithoutQuotes(Lower(raw));
    || HasWord(normalized, "hidden")
    || Contains(normalized, "aria-hidden=true")
    || Contains(normalized, "display:none") || Contains(normalized, "display: none")
    || Contains(normalized, "visibility:hidden") || Contains(normalized, "visibility: hidden")
  }

  predicate StartsHiddenScope(name: string, raw: string, primaryDepth: nat) {
    || NamedOneOf(name, ["script", "style", "noscript", "svg", "template", "canvas", "iframe", "nav", "aside",
                         "footer", "form", "button", "select"])
    || (primaryDepth == 0 && SameName(name, "header"))
    || HasHiddenAttribute(raw)
  }

  datatype Mode = Html | Feed

  predicate IsPrimaryTag(name: string, mode: Mode) {
    NamedOneOf(name, match mode case Html => ["main", "article"] case Feed => ["item", "entry"])
  }

  predicate IsStructuralTag(name: string) {
    NamedOneOf(name, ["br", "p", "div", "main", "article", "section", "header", "footer", "nav", "aside", "li", "tr",
                      "h1", "h2", "h3", "h4", "h5", "h6", "title", "description", "summary", "content", "item", "entry"])
  }

  // ---- The next construct of a document --------------------------------------------------------

  /**
   What stands at the front: the text before the next '<' and the construct that '<' opens. Plain
   has no '<' ahead, Unterminated has one whose construct never ends.
   */
  datatype Construct =
    | Plain
    | Unterminated(text: string)
    | Comment(text: string, end: nat)
    | Cdata(text: string, body: string, end: nat)
    | Tag(text: string, raw: string, end: nat)
  {
    predicate Complete() { Comment? || Cdata? || Tag? }
  }

  function Opened(text: string, tail: string): (c: Construct)
    requires "<" <= tail
    ensures !c.Plain? && c.text == text
    ensures c.Comment? ==> |text| + 7 <= c.end <= |text| + |tail|
    ensures c.Cdata? ==> |text| + |c.body| + 12 == c.end <= |text| + |tail|
    ensures c.Tag? ==> |text| + |c.raw| + 2 == c.end <= |text| + |tail|
  {
    if "<!--" <= tail then
      match Find(tail[4..], "-->")
      case None => Unterminated(text)
      case Some(e) => Comment(text, |text| + 4 + e + 3)
    else if "<![CDATA[" <= tail then
      match Find(tail[9..], "]]>")
      case None => Unterminated(text)
      case Some(e) => Cdata(text, tail[9..9 + e], |text| + 9 + e + 3)
    else
      match Find(tail, ">")
      case None => Unterminated(text)
      case Some(e) =>
        FoundThere(tail, ">");
        assert tail[0] == '<' && tail[e] == tail[e..][0] == '>';
        Tag(text, tail[1..e], |text| + e + 1)
  }

  function Next(rest: string): (c: Construct)
    ensures c.Unterminated? ==> |c.text| <= |rest|
    ensures c.Comment? ==> |c.text| + 7 <= c.end <= |rest|
    ensures c.Cdata? ==> |c.text| + |c.body| + 12 == c.end <= |rest|
    ensures c.Tag? ==> |c.text| + |c.raw| + 2 == c.end <= |rest|
  {
    match Find(rest, "<")
    case None => Plain
    case Some(start) =>
      FoundThere(rest, "<");
      Opened(rest[..start], rest[start..])
  }

  lemma {:induction false} FoundThere(s: string, pattern: string)
    requires Find(s, pattern).Some?
    ensures pattern <= s[Find(s, pattern).value..]
  {
    if !(pattern <= s) {
      FoundThere(s[1..], pattern);
    }
  }

  // ---- The scanner, as a recursion over constructs --------------------------------------------

  datatype MarkupText = MarkupText(title: string, primary: string, fallback: string) {
    function Size(): nat { |title| + |primary| + |fallback| }
  }

  datatype HiddenScope = HiddenScope(name: string, depth: nat)

  datatype Scanner = Scanner(
    inTitle: bool, inHead: bool, primaryDepth: nat, hidden: Option<HiddenScope>, collected: MarkupText)

  const START := Scanner(false, false, 0, None, MarkupText("", "", ""))

  function AppendMarkupText(value: string, inTitle: bool, inHead: bool, primaryDepth: nat, t: MarkupText): MarkupText {
    if inTitle then t.(title := t.title + value)
    else if inHead then t
    else if primaryDepth > 0 then t.(primary := t.primary + value)
    else t.(fallback := t.fallback + value)
  }

  function AppendLineBreak(primaryDepth: nat, t: MarkupText): MarkupText {
    if primaryDepth > 0 then t.(primary := t.primary + "\n") else t.(fallback := t.fallback + "\n")
  }

  /** Text seen by the scanner: it goes to the buffer of the moment, or nowhere inside a hidden scope. */
  function Emit(s: Scanner, value: string): Scanner {
    if s.hidden.Some? then s
    else s.(collected := AppendMarkupText(value, s.inTitle, s.inHead, s.primaryDepth, s.collected))
  }

  /** The depth of a hidden scope after a tag; 0 closes it. */
  function ScopeDepth(name: string, depth: nat, tag: HtmlTag): nat {
    if !SameName(name, tag.name) then depth
    else if tag.closing then (if depth > 0 then depth - 1 else 0)
    else if tag.selfClosing then depth
    else depth + 1
  }

  function OnVisibleTag(s: Scanner, tag: HtmlTag, mode: Mode): Scanner {
    var s1 := if !SameName(tag.name, "title") then s
              else if tag.closing then s.(inTitle := false)
              else s.(inTitle := true, collected := if s.collected.title == "" then s.collected
                                                    else s.collected.(title := s.collected.title + "\n"));
    var s2 := if mode == Html && SameName(tag.name, "head") then s1.(inHead := !tag.closing) else s1;
    var s3 := if !IsPrimaryTag(tag.name, mode) then s2
              else if tag.closing then s2.(primaryDepth := if s2.primaryDepth > 0 then s2.primaryDepth - 1 else 0)
              else if tag.selfClosing then s2
              else s2.(primaryDepth := s2.primaryDepth + 1);
    if IsStructuralTag(tag.name) then s3.(collected := AppendLineBreak(s3.primaryDepth, s3.collected)) else s3
  }

  function OnTag(s: Scanner, raw: string, mode: Mode): Scanner {
    match ParseTag(raw)
    case None => s
    case Some(tag) =>
      match s.hidden
      case Some(scope) =>
        var depth := ScopeDepth(scope.name, scope.depth, tag);
        s.(hidden := if SameName(scope.name, tag.name) && tag.closing && depth == 0 then None
                     else Some(HiddenScope(scope.name, depth)))
      case None =>
        if !tag.closing && StartsHiddenScope(tag.name, raw, s.primaryDepth) then
          s.(hidden := if tag.selfClosing then None else Some(HiddenScope(tag.name, 1)))
        else OnVisibleTag(s, tag, mode)
  }

  /** The text an embedded CDATA document contributes. */
  function Embedded(t: MarkupText): string {
    if Trim(t.primary) == "" then t.fallback else t.primary
  }

  function Weight(c: Construct): nat {
    if c.Cdata? then |c.body| + 1 else 0
  }

  /** The scanner after one complete construct. */
  function After(c: Construct, mode: Mode, s: Scanner): Scanner
    requires c.Complete()
    decreases Weight(c)
  {
    var s1 := Emit(s, c.text);
    match c
    case Comment(_, _) => s1
    case Cdata(_, body, _) => Emit(s1, Embedded(ScanFrom(body, Html, START)))
    case Tag(_, raw, _) => OnTag(s1, raw, mode)
  }

  /** What scanning a rest of the document adds up to; an unterminated construct ends it, text and all. */
  function ScanFrom(rest: string, mode: Mode, s: Scanner): MarkupText
    decreases |rest|
  {
    var c := Next(rest);
    match c
    case Plain => Emit(s, rest).collected
    case Unterminated(text) => Emit(Emit(s, text), rest).collected
    case _ => ScanFrom(rest[c.end..], mode, After(c, mode, s))
  }

  function Scan(document: string, mode: Mode): MarkupText {
    ScanFrom(document, mode, START)
  }

  method HandleVisibleTag(tag: HtmlTag, mode: Mode, title0: bool, head0: bool, depth0: nat, ghost hidden: Option<HiddenScope>, text0: MarkupText)
    returns (inTitle: bool, inHead: bool, primaryDepth: nat, collected: MarkupText)
    ensures Scanner(inTitle, inHead, primaryDepth, hidden, collected)
         == OnVisibleTag(Scanner(title0, head0, depth0, hidden, text0), tag, mode)
  {
    hide SameName, IsPrimaryTag, IsStructuralTag;
    inTitle, inHead, primaryDepth, collected := title0, head0, depth0, text0;
    if SameName(tag.name, "title") {
      if tag.closing {
        inTitle := false;
      } else {
        if collected.title != "" {
          collected := collected.(title := collected.title + "\n");
        }
        inTitle := true;
      }
    }
    if mode == Html && SameName(tag.name, "head") {
      inHead := !tag.closing;
    }
    if IsPrimaryTag(tag.name, mode) {
      if tag.closing {
        primaryDepth := if primaryDepth > 0 then primaryDepth - 1 else 0;
      } else if !tag.selfClosing {
        primaryDepth := primaryDepth + 1;
      }
    }
    if IsStructuralTag(tag.name) {
      collected := AppendLineBreak(primaryDepth, collected);
    }
  }

  method HandleTag(rawTag: string, mode: Mode, title0: bool, head0: bool, depth0: nat, hidden0: Option<HiddenScope>, text0: MarkupText)
    returns (inTitle: bool, inHead: bool, primaryDepth: nat, hidden: Option<HiddenScope>, collected: MarkupText)
    ensures Scanner(inTitle, inHead, primaryDepth, hidden, collected)
         == OnTag(Scanner(title0, head0, depth0, hidden0, text0), rawTag, mode)
  {
    hide ParseTag, SameName, StartsHiddenScope, OnVisibleTag;
    inTitle, inHead, primaryDepth, hidden, collected := title0, head0, depth0, hidden0, text0;
    var parsed := ParseTag(rawTag);
    if parsed.None? {
      return;
    }
    var tag := parsed.value;
    if hidden.Some? {
      var scope := hidden.value;
      if SameName(scope.name, tag.name) {
        if tag.closing {
          scope := scope.(depth := if scope.depth > 0 then scope.depth - 1 else 0);
          hidden := if scope.depth == 0 then None else Some(scope);
        } else if !tag.selfClosing {
          hidden := Some(scope.(depth := scope.depth + 1));
        }
      }
    } else if !tag.closing && StartsHiddenScope(tag.name, rawTag, primaryDepth) {
      if !tag.selfClosing {
        hidden := Some(HiddenScope(tag.name, 1));
      }
    } else {
      inTitle, inHead, primaryDepth, collected := HandleVisibleTag(tag, mode, inTitle, inHead, primaryDepth, hidden, collected);
    }
  }

  /** One unfolding of ScanFrom, construct by construct. */
  lemma OneConstruct(rest: string, mode: Mode, s: Scanner)
    ensures var c := Next(rest);
            && (c.Plain? ==> ScanFrom(rest, mode, s) == Emit(s, rest).collected)
            && (c.Unterminated? ==> ScanFrom(rest, mode, s) == Emit(Emit(s, c.text), rest).collected)
            && (c.Comment? ==> ScanFrom(rest, mode, s) == ScanFrom(rest[c.end..], mode, Emit(s, c.text)))
            && (c.Cdata? ==>
                  ScanFrom(rest, mode, s) == ScanFrom(rest[c.end..], mode, Emit(Emit(s, c.text), Embedded(Scan(c.body, Html)))))
            && (c.Tag? ==> ScanFrom(rest, mode, s) == ScanFrom(rest[c.end..], mode, OnTag(Emit(s, c.text), c.raw, mode)))
  {}

  lemma FirstOpening(rest: string)
    ensures Find(rest, "<").None? ==> Next(rest) == Plain
    ensures Find(rest, "<").Some? ==> var start := Find(rest, "<").value;
                                      "<" <= rest[start..] && Next(rest) == Opened(rest[..start], rest[start..])
  {
    if Find(rest, "<").Some? {
      FoundThere(rest, "<");
    }
  }

  method ScanEmbedded(body: string) returns (shown: string)
    ensures shown == Embedded(Scan(body, Html))
    decreases |body|, 1
  {
    var embedded := ScanMarkup(body, Html);
    shown := if Trim(embedded.primary) == "" then embedded.fallback else embedded.primary;
  }

  lemma EmitUnfolded(s: Scanner, value: string)
    ensures Emit(s, value) == if s.hidden.Some? then s
                              else s.(collected := AppendMarkupText(value, s.inTitle, s.inHead, s.primaryDepth, s.collected))
  {}

  lemma AtComment(rest: string, start: nat, mode: Mode, s: Scanner)
    requires Find(rest, "<") == Some(start) && "<!--" <= rest[start..]
    ensures var end := Find(rest[start..][4..], "-->");
            ScanFrom(rest, mode, s) == if end.None? then Emit(Emit(s, rest[..start]), rest).collected
                                       else ScanFrom(rest[start + 4 + end.value + 3..], mode, Emit(s, rest[..start]))
  {
    hide Find, Emit, ScanFrom, Next, After;
    FirstOpening(rest);
    OneConstruct(rest, mode, s);
  }

  lemma AtCdata(rest: string, start: nat, mode: Mode, s: Scanner)
    requires Find(rest, "<") == Some(start) && !("<!--" <= rest[start..]) && "<![CDATA[" <= rest[start..]
    ensures var end := Find(rest[start..][9..], "]]>");
            ScanFrom(rest, mode, s) == if end.None? then Emit(Emit(s, rest[..start]), rest).collected
                                       else ScanFrom(rest[start + 9 + end.value + 3..], mode,
                                                     Emit(Emit(s, rest[..start]), Embedded(Scan(rest[start..][9..9 + end.value], Html))))
  {
    hide Find, Emit, Embedded, Scan, ScanFrom, Next, After;
    FirstOpening(rest);
    OneConstruct(rest, mode, s);
  }

  lemma AtTag(rest: string, start: nat, mode: Mode, s: Scanner)
    requires Find(rest, "<") == Some(start) && !("<!--" <= rest[start..]) && !("<![CDATA[" <= rest[start..])
    ensures var end := Find(rest[start..], ">");
            && (end.Some? ==> end.value > 0)
            && ScanFrom(rest, mode, s) == if end.None? then Emit(Emit(s, rest[..start]), rest).collected
                                          else ScanFrom(rest[start + end.value + 1..], mode,
                                                        OnTag(Emit(s, rest[..start]), rest[start..][1..end.value], mode))
  {
    hide Find, Emit, OnTag, ScanFrom, Next, After;
    FirstOpening(rest);
    OneConstruct(rest, mode, s);
    if Find(rest[start..], ">").Some? {
      FoundThere(rest[start..], ">");
    }
  }

  lemma AtEnd(rest: string, mode: Mode, s: Scanner)
    requires Find(rest, "<").None?
    ensures ScanFrom(rest, mode, s) == Emit(s, rest).collected
  {}

  /** The loop of scan_markup; rest is the document from the cursor on. */
  method ScanMarkup(document: string, mode: Mode) returns (collected: MarkupText)
    ensures collected == Scan(document, mode)
    decreases |document|, 0
  {
    ghost var result := ScanFrom(document, mode, START);
    hide Find, OnTag, Embedded, AppendMarkupText, Emit, ScanFrom, Weight, Next, After, Opened;
    collected := MarkupText("", "", "");
    var rest := document;
    var inTitle, inHead := false, false;
    var primaryDepth: nat := 0;
    var hidden: Option<HiddenScope> := None;
    while true
      invariant |rest| <= |document|
      invariant ScanFrom(rest, mode, Scanner(inTitle, inHead, primaryDepth, hidden, collected)) == result
      decreases |rest|
    {
      ghost var s := Scanner(inTitle, inHead, primaryDepth, hidden, collected);
      var start := Find(rest, "<");
      if start.None? {
        AtEnd(rest, mode, s);
        break;
      }
      var text, tail := rest[..start.value], rest[start.value..];
      EmitUnfolded(s, text);
      if hidden.None? {
        collected := AppendMarkupText(text, inTitle, inHead, primaryDepth, collected);
      }
      assert Emit(s, text) == Scanner(inTitle, inHead, primaryDepth, hidden, collected);
      if "<!--" <= tail {
        AtComment(rest, start.value, mode, s);
        var end := Find(tail[4..], "-->");
        if end.None? {
          break;
        }
        rest := rest[start.value + 4 + end.value + 3..];
        continue;
      }
      if "<![CDATA[" <= tail {
        AtCdata(rest, start.value, mode, s);
        var end := Find(tail[9..], "]]>");
        if end.None? {
          break;
        }
        ghost var body := Embedded(Scan(tail[9..9 + end.value], Html));
        EmitUnfolded(Scanner(inTitle, inHead, primaryDepth, hidden, collected), body);
        if hidden.None? {
          var embedded := ScanEmbedded(tail[9..9 + end.value]);
          collected := AppendMarkupText(embedded, inTitle, inHead, primaryDepth, collected);
        }
        rest := rest[start.value + 9 + end.value + 3..];
        continue;
      }
      AtTag(rest, start.value, mode, s);
      var end := Find(tail, ">");
      if end.None? {
        break;
      }
      inTitle, inHead, primaryDepth, hidden, collected :=
        HandleTag(tail[1..end.value], mode, inTitle, inHead, primaryDepth, hidden, collected);
      rest := rest[start.value + end.value + 1..];
    }
    EmitUnfolded(Scanner(inTitle, inHead, primaryDepth, hidden, collected), rest);
    if hidden.None? {
      collected := AppendMarkupText(rest, inTitle, inHead, primaryDepth, collected);
    }
  }

  // ---- Constructs do not look ahead --------------------------------------------------------------

  /** A match found in a is the match found in a + b. */
  lemma {:induction false} FindStable(a: string, b: string, pattern: string)
    requires Find(a, pattern).Some?
    ensures Find(a + b, pattern) == Find(a, pattern)
  {
    if pattern <= a {
      assert pattern <= a + b;
    } else {
      PrefixOfLonger(a, b, pattern);
      FindStable(a[1..], b, pattern);
      assert (a + b)[1..] == a[1..] + b;
    }
  }

  lemma PrefixOfLonger(a: string, b: string, pattern: string)
    requires |pattern| <= |a|
    ensures pattern <= a + b <==> pattern <= a
  {
    assert (a + b)[..|pattern|] == a[..|pattern|];
  }

  /** Text without '<' only shifts what comes behind it. */
  lemma {:induction false} FindBehindText(text: string, b: string)
    requires '<' !in text
    ensures Find(text + b, "<") == (match Find(b, "<") case None => None case Some(i) => Some(|text| + i))
  {
    if text == "" {
      assert text + b == b;
    } else {
      assert (text + b)[0] == text[0] && (text + b)[1..] == text[1..] + b;
      FindBehindText(text[1..], b);
    }
  }

  lemma {:induction false} NoneWithout(text: string)
    ensures Find(text, "<").None? <==> '<' !in text
  {
    if text != "" && text[0] != '<' {
      assert text == [text[0]] + text[1..];
      NoneWithout(text[1..]);
    } else if text != "" {
      assert "<" <= text;
    }
  }

  /** A tail whose '>' was found cannot begin with a longer opening that has no '>' in it. */
  lemma OpeningIsLocal(tail: string, b: string, opening: string)
    requires Find(tail, ">").Some?
    requires '>' !in opening
    ensures opening <= tail + b <==> opening <= tail
  {
    FoundThere(tail, ">");
    var e := Find(tail, ">").value;
    assert tail[e] == tail[e..][0] == '>';
    if |opening| <= |tail| {
      PrefixOfLonger(tail, b, opening);
    } else {
      assert opening[e] in opening && opening[e] != (tail + b)[e];
    }
  }

  lemma SkipStable(tail: string, b: string, n: nat, pattern: string)
    requires n <= |tail| && Find(tail[n..], pattern).Some?
    ensures Find((tail + b)[n..], pattern) == Find(tail[n..], pattern)
    ensures (tail + b)[n..n + Find(tail[n..], pattern).value] == tail[n..n + Find(tail[n..], pattern).value]
  {
    hide Find;
    assert (tail + b)[n..] == tail[n..] + b;
    FindStable(tail[n..], b, pattern);
  }

  lemma OpenedStable(text: string, tail: string, b: string)
    requires "<" <= tail && Opened(text, tail).Complete()
    ensures "<" <= tail + b && Opened(text, tail + b) == Opened(text, tail)
  {
    hide Find;
    if "<!--" <= tail {
      SkipStable(tail, b, 4, "-->");
    } else if "<![CDATA[" <= tail {
      SkipStable(tail, b, 9, "]]>");
    } else {
      OpeningIsLocal(tail, b, "<!--");
      OpeningIsLocal(tail, b, "<![CDATA[");
      SkipStable(tail, b, 0, ">");
      assert tail[0..] == tail && (tail + b)[0..] == tail + b;
    }
  }

  /** A complete construct is the same construct whatever follows it. */
  lemma NextStable(a: string, b: string)
    requires Next(a).Complete()
    ensures Next(a + b) == Next(a)
    ensures (a + b)[Next(a).end..] == a[Next(a).end..] + b
  {
    hide Find, Opened;
    FirstOpening(a);
    FirstOpening(a + b);
    FindStable(a, b, "<");
    var start := Find(a, "<").value;
    assert (a + b)[start..] == a[start..] + b && (a + b)[..start] == a[..start];
    OpenedStable(a[..start], a[start..], b);
  }

  /** The construct behind some text is the construct without the text, moved. */
  function Behind(text: string, c: Construct): Construct {
    match c
    case Plain => Plain
    case Unterminated(t) => Unterminated(text + t)
    case Comment(t, end) => Comment(text + t, |text| + end)
    case Cdata(t, body, end) => Cdata(text + t, body, |text| + end)
    case Tag(t, raw, end) => Tag(text + t, raw, |text| + end)
  }

  lemma NextBehindText(text: string, b: string)
    requires '<' !in text
    ensures Next(text + b) == Behind(text, Next(b))
  {
    hide Find, Opened;
    FindBehindText(text, b);
    FirstOpening(b);
    FirstOpening(text + b);
    if Find(b, "<").Some? {
      var start := Find(b, "<").value;
      assert (text + b)[|text| + start..] == b[start..];
      assert (text + b)[..|text| + start] == text + b[..start];
      OpenedMoved(text, b[..start], b[start..]);
    }
  }

  lemma OpenedMoved(text: string, t: string, tail: string)
    requires "<" <= tail
    ensures Opened(text + t, tail) == Behind(text, Opened(t, tail))
  {}

  // ---- Length ----------------------------------------------------------------------------------------

  lemma EmitSize(s: Scanner, value: string)
    ensures Emit(s, value).collected.Size() <= s.collected.Size() + |value|
  {}

  lemma OnVisibleTagSize(s: Scanner, tag: HtmlTag, mode: Mode)
    ensures OnVisibleTag(s, tag, mode).collected.Size()
         <= s.collected.Size() + if SameName(tag.name, "title") then 2 else 1
  {
    hide SameName, IsStructuralTag, IsPrimaryTag;
  }

  lemma SameNameSameLength(a: string, b: string)
    requires SameName(a, b)
    ensures |a| == |b|
  {
    assert |Lower(a)| == |Lower(b)|;
  }

  /** A tag adds at most one line break to the text and, when it is a title, one to the titles. */
  lemma OnTagSize(s: Scanner, raw: string, mode: Mode)
    ensures OnTag(s, raw, mode).collected.Size() <= s.collected.Size() + |raw| + 1
  {
    hide ParseTag, SameName, StartsHiddenScope, OnVisibleTag, ScopeDepth;
    var parsed := ParseTag(raw);
    if parsed.Some? {
      var tag := parsed.value;
      OnVisibleTagSize(s, tag, mode);
      if SameName(tag.name, "title") {
        SameNameSameLength(tag.name, "title");
      }
    }
  }

  lemma EmbeddedSize(t: MarkupText)
    ensures |Embedded(t)| <= t.Size()
  {}

  /** The buffers never hold more than twice what was scanned. */
  lemma {:induction false} ScanSize(rest: string, mode: Mode, s: Scanner)
    ensures ScanFrom(rest, mode, s).Size() <= s.collected.Size() + 2 * |rest|
    decreases |rest|
  {
    hide Emit, OnTag, Embedded, Next, After, ScanFrom;
    OneConstruct(rest, mode, s);
    var c := Next(rest);
    if c.Plain? {
      EmitSize(s, rest);
    } else {
      EmitSize(s, c.text);
      var s1 := Emit(s, c.text);
      match c {
        case Unterminated(_) =>
          EmitSize(s1, rest);
        case Comment(_, end) =>
          ScanSize(rest[end..], mode, s1);
        case Cdata(_, body, end) =>
          ScanSize(body, Html, START);
          EmbeddedSize(Scan(body, Html));
          EmitSize(s1, Embedded(Scan(body, Html)));
          ScanSize(rest[end..], mode, Emit(s1, Embedded(Scan(body, Html))));
        case Tag(_, raw, end) =>
          OnTagSize(s1, raw, mode);
          ScanSize(rest[end..], mode, OnTag(s1, raw, mode));
      }
    }
  }

  lemma ScanIsBounded(document: string, mode: Mode)
    ensures Scan(document, mode).Size() <= 2 * |document|
  {
    ScanSize(document, mode, START);
  }

  // ---- Hidden scopes ----------------------------------------------------------------------------------

  /** The scanner after a front made of complete constructs, None when the front ends inside one. */
  function Advance(front: string, mode: Mode, s: Scanner): Option<Scanner>
    decreases |front|
  {
    if front == "" then Some(s)
    else
      var c := Next(front);
      if c.Complete() then Advance(front[c.end..], mode, After(c, mode, s)) else None
  }

  lemma {:induction false} ScanAfterFront(front: string, back: string, mode: Mode, s: Scanner)
    requires Advance(front, mode, s).Some?
    ensures ScanFrom(front + back, mode, s) == ScanFrom(back, mode, Advance(front, mode, s).value)
    decreases |front|
  {
    hide Next, After;
    if front == "" {
      assert front + back == back;
    } else {
      var c := Next(front);
      NextStable(front, back);
      ScanAfterFront(front[c.end..], back, mode, After(c, mode, s));
    }
  }

  /**
   The depth of a scope named name after a body scanned inside it; None when the body ends in the
   middle of a construct or closes the scope. Text at its end is fine.
   */
  function Within(body: string, name: string, depth: nat): Option<nat>
    decreases |body|
  {
    var c := Next(body);
    match c
    case Plain => Some(depth)
    case Unterminated(_) => None
    case Tag(_, raw, end) =>
      (match ParseTag(raw)
       case None => Within(body[end..], name, depth)
       case Some(tag) =>
         var deeper := ScopeDepth(name, depth, tag);
         if deeper == 0 then None else Within(body[end..], name, deeper))
    case _ => Within(body[c.end..], name, depth)
  }

  lemma HiddenText(text: string, back: string, mode: Mode, s: Scanner)
    requires s.hidden.Some?
    requires '<' !in text
    ensures ScanFrom(text + back, mode, s) == ScanFrom(back, mode, s)
  {
    hide Next;
    NextBehindText(text, back);
    var c := Next(back);
    if c.Complete() {
      assert (text + back)[|text| + c.end..] == back[c.end..];
    }
  }

  /** Scanning a body inside a scope leaves nothing behind but the depth. */
  lemma {:induction false} HiddenBody(body: string, back: string, mode: Mode, s: Scanner)
    requires s.hidden.Some? && s.hidden.value.depth > 0
    requires Within(body, s.hidden.value.name, s.hidden.value.depth).Some?
    ensures ScanFrom(body + back, mode, s)
         == ScanFrom(back, mode, s.(hidden := Some(s.hidden.value.(depth := Within(body, s.hidden.value.name, s.hidden.value.depth).value))))
    decreases |body|
  {
    hide Next, ParseTag, SameName;
    var name, depth := s.hidden.value.name, s.hidden.value.depth;
    var c := Next(body);
    if c.Plain? {
      FirstOpening(body);
      NoneWithout(body);
      HiddenText(body, back, mode, s);
    } else {
      NextStable(body, back);
      OneConstruct(body + back, mode, s);
      HiddenBody(body[c.end..], back, mode, After(c, mode, s));
    }
  }

  /**
   Two documents that differ only in the body of a hidden scope give the same title, primary and
   fallback text, whatever stands before and after.
   */
  lemma HiddenBodiesAreIrrelevant(front: string, one: string, other: string, back: string, mode: Mode)
    requires var s := Advance(front, mode, START);
             && s.Some? && s.value.hidden.Some? && s.value.hidden.value.depth > 0
             && var scope := s.value.hidden.value;
                && Within(one, scope.name, scope.depth).Some?
                && Within(one, scope.name, scope.depth) == Within(other, scope.name, scope.depth)
    ensures Scan(front + one + back, mode) == Scan(front + other + back, mode)
  {
    hide Next, Within, ScanFrom, Advance;
    var s := Advance(front, mode, START).value;
    assert front + one + back == front + (one + back) && front + other + back == front + (other + back);
    ScanAfterFront(front, one + back, mode, START);
    ScanAfterFront(front, other + back, mode, START);
    HiddenBody(one, back, mode, s);
    HiddenBody(other, back, mode, s);
  }

  // ---- Erasing a hidden scope ---------------------------------------------------------------------

  function Bracketed(raw: string): string { "<" + raw + ">" }

  /** "<raw>" is read as one tag. */
  predicate IsTagBody(raw: string) {
    Next(Bracketed(raw)) == Tag("", raw, |raw| + 2)
  }

  lemma EmitNothing(s: Scanner)
    ensures Emit(s, "") == s
  {}

  lemma EmitJoins(s: Scanner, one: string, other: string)
    ensures Emit(Emit(s, one), other) == Emit(s, one + other)
  {
    var t := s.collected;
    assert (t.title + one) + other == t.title + (one + other);
    assert (t.primary + one) + other == t.primary + (one + other);
    assert (t.fallback + one) + other == t.fallback + (one + other);
  }

  /** Text and a tag at the front of the rest. */
  lemma TextAndTag(text: string, raw: string, back: string, mode: Mode, s: Scanner)
    requires '<' !in text && IsTagBody(raw)
    ensures ScanFrom(text + (Bracketed(raw) + back), mode, s) == ScanFrom(back, mode, OnTag(Emit(s, text), raw, mode))
  {
    hide Next, OnTag, Emit, After, ScanFrom;
    NextStable(Bracketed(raw), back);
    NextBehindText(text, Bracketed(raw) + back);
    OneConstruct(text + (Bracketed(raw) + back), mode, s);
    assert text + "" == text;
    DropText(text, Bracketed(raw) + back, |raw| + 2);
  }

  lemma DropText(text: string, back: string, end: nat)
    requires end <= |back|
    ensures (text + back)[|text| + end..] == back[end..]
  {}

  /** Text joins a rest whose first construct ends. */
  lemma TextJoins(text: string, back: string, mode: Mode, s: Scanner)
    requires '<' !in text
    requires !Next(back).Unterminated?
    ensures ScanFrom(text + back, mode, s) == ScanFrom(back, mode, Emit(s, text))
  {
    hide Next, OnTag, Emit, After, ScanFrom, Embedded;
    NextBehindText(text, back);
    OneConstruct(text + back, mode, s);
    OneConstruct(back, mode, Emit(s, text));
    var c := Next(back);
    if c.Plain? {
      EmitJoins(s, text, back);
    } else {
      EmitJoins(s, text, c.text);
      DropText(text, back, c.end);
    }
  }

  /** The scope of the tag open, with the text before it. */
  function Scoped(text: string, open: string, body: string, close: string, back: string): string {
    text + (Bracketed(open) + (body + (Bracketed(close) + back)))
  }

  predicate IsScope(s: Scanner, open: string, body: string, close: string) {
    && IsTagBody(open) && IsTagBody(close)
    && ParseTag(open).Some? && ParseTag(close).Some?
    && var tag, end := ParseTag(open).value, ParseTag(close).value;
       && !tag.closing && !tag.selfClosing && StartsHiddenScope(tag.name, open, s.primaryDepth)
       && end.closing && SameName(tag.name, end.name)
       && Within(body, tag.name, 1) == Some(1)
  }

  lemma OpenAndClose(s: Scanner, open: string, close: string, mode: Mode)
    requires s.hidden.None?
    requires ParseTag(open).Some? && ParseTag(close).Some?
    requires var tag, end := ParseTag(open).value, ParseTag(close).value;
             && !tag.closing && !tag.selfClosing && StartsHiddenScope(tag.name, open, s.primaryDepth)
             && end.closing && SameName(tag.name, end.name)
    ensures OnTag(s, open, mode) == s.(hidden := Some(HiddenScope(ParseTag(open).value.name, 1)))
    ensures OnTag(OnTag(s, open, mode), close, mode) == s
  {
    hide ParseTag, StartsHiddenScope, SameName, OnVisibleTag;
  }

  /** Scanning a whole scope leaves only the text before it. */
  lemma ScanScope(text: string, open: string, body: string, close: string, back: string, mode: Mode, s: Scanner)
    requires s.hidden.None? && '<' !in text && IsScope(s, open, body, close)
    ensures ScanFrom(Scoped(text, open, body, close, back), mode, s) == ScanFrom(back, mode, Emit(s, text))
  {
    hide Next, OnTag, ScanFrom, ParseTag, StartsHiddenScope, SameName, Within;
    var s1 := Emit(s, text);
    OpenAndClose(s1, open, close, mode);
    var inside := OnTag(s1, open, mode);
    TextAndTag(text, open, body + (Bracketed(close) + back), mode, s);
    HiddenBody(body, Bracketed(close) + back, mode, inside);
    TextAndTag("", close, back, mode, inside);
    assert "" + (Bracketed(close) + back) == Bracketed(close) + back;
    EmitNothing(inside);
  }

  /** Behind an unterminated construct the text goes out twice, one run longer than without it. */
  lemma TextRepeats(text: string, back: string, mode: Mode, s: Scanner)
    requires '<' !in text
    requires Next(back).Unterminated?
    ensures ScanFrom(text + back, mode, s) == Emit(Emit(Emit(s, text), Next(back).text), text + back).collected
    ensures ScanFrom(back, mode, Emit(s, text)) == Emit(Emit(Emit(s, text), Next(back).text), back).collected
  {
    hide Next, Emit;
    NextBehindText(text, back);
    OneConstruct(text + back, mode, s);
    OneConstruct(back, mode, Emit(s, text));
    EmitJoins(s, text, Next(back).text);
  }

  predicate Shown(s: Scanner) {
    s.hidden.None? && (s.inTitle || !s.inHead)
  }

  lemma EmitShown(s: Scanner, value: string)
    ensures Shown(s) ==> Emit(s, value).collected.Size() == s.collected.Size() + |value|
    ensures !Shown(s) ==> Emit(s, value) == s
    ensures Shown(Emit(s, value)) == Shown(s)
  {}

  /**
   A document with a hidden scope reads like the document without it exactly when the text before
   the scope is empty or not shown, or the first construct behind the scope ends. In the remaining
   case the erased document repeats that text.
   */
  lemma ScopeErasedExactly(prefix: string, text: string, open: string, body: string, close: string, back: string, mode: Mode)
    requires Advance(prefix, mode, START).Some? && Advance(prefix, mode, START).value.hidden.None?
    requires '<' !in text && IsScope(Advance(prefix, mode, START).value, open, body, close)
    ensures Scan(prefix + Scoped(text, open, body, close, back), mode) == Scan(prefix + (text + back), mode)
       <==> (text == "" || !Next(back).Unterminated? || !Shown(Advance(prefix, mode, START).value))
  {
    hide Next, ScanFrom, Advance, IsScope, Scoped, Emit, Shown;
    var s := Advance(prefix, mode, START).value;
    ScanAfterFront(prefix, Scoped(text, open, body, close, back), mode, START);
    ScanAfterFront(prefix, text + back, mode, START);
    ScanScope(text, open, body, close, back, mode, s);
    if !Next(back).Unterminated? {
      TextJoins(text, back, mode, s);
    } else {
      TextRepeats(text, back, mode, s);
      var s2 := Emit(Emit(s, text), Next(back).text);
      EmitShown(s, text);
      EmitShown(Emit(s, text), Next(back).text);
      EmitShown(s2, back);
      EmitShown(s2, text + back);
      if text == "" {
        assert text + back == back;
      }
    }
  }
}
