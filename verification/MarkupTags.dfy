/**
 The markup scanner on documents, spelled out: what find, trim and split_whitespace deliver, which tags
 the tables of src/adapters/web_search/page.rs:269-367 mean, and which of the three texts receives what.
 */
module MarkupTags {
  import opened Wrappers
  import opened Markup

  // ---- Strings -------------------------------------------------------------------------------

  predicate OccursAt(s: string, pattern: string, i: nat) {
    i + |pattern| <= |s| && s[i..i + |pattern|] == pattern
  }

  lemma OccursLater(s: string, pattern: string, i: nat)
    requires s != "" && i > 0
    ensures OccursAt(s, pattern, i) <==> OccursAt(s[1..], pattern, i - 1)
  {
    if i + |pattern| <= |s| {
      assert s[1..][i - 1..i - 1 + |pattern|] == s[i..i + |pattern|];
    }
  }

  /** Find gives the first occurrence, and None when there is none. */
  lemma {:induction false} FindExactly(s: string, pattern: string)
    ensures Find(s, pattern).None? <==> forall i: nat :: !OccursAt(s, pattern, i)
    ensures Find(s, pattern).Some? ==> OccursAt(s, pattern, Find(s, pattern).value)
                                       && forall i: nat | i < Find(s, pattern).value :: !OccursAt(s, pattern, i)
  {
    hide OccursAt;
    FirstPlace(s, pattern);
    if !(pattern <= s) && s != "" {
      FindExactly(s[1..], pattern);
      forall i: nat | i > 0
        ensures OccursAt(s, pattern, i) <==> OccursAt(s[1..], pattern, i - 1)
      {
        OccursLater(s, pattern, i);
      }
      forall i: nat
        ensures OccursAt(s[1..], pattern, i) ==> OccursAt(s, pattern, i + 1)
      {
        OccursLater(s, pattern, i + 1);
      }
    }
  }

  lemma FirstPlace(s: string, pattern: string)
    ensures OccursAt(s, pattern, 0) <==> pattern <= s
    ensures s == "" && pattern != "" ==> forall i: nat :: !OccursAt(s, pattern, i)
  {}

  predicate Blank(s: string) {
    forall c | c in s :: IsWhitespace(c)
  }

  predicate Tight(s: string) {
    s == "" || (!IsWhitespace(s[0]) && !IsWhitespace(s[|s| - 1]))
  }

  /** Trimming takes the white space off both ends and nothing else. */
  lemma Trimmed(before: string, s: string, behind: string)
    requires Blank(before) && Blank(behind) && Tight(s)
    ensures Trim(before + s + behind) == s
  {
    hide IsWhitespace;
    if s == "" {
      assert before + s + behind == (before + behind) + "";
      StartTrimmed(before + behind, "");
    } else {
      assert before + s + behind == before + (s + behind);
      assert (s + behind)[0] == s[0];
      StartTrimmed(before, s + behind);
      EndTrimmed(s, behind);
    }
  }

  lemma {:induction false} StartTrimmed(before: string, s: string)
    requires Blank(before) && (s == "" || !IsWhitespace(s[0]))
    ensures TrimStart(before + s) == s
  {
    hide IsWhitespace;
    if before == "" {
      assert before + s == s;
    } else {
      assert (before + s)[1..] == before[1..] + s && before[0] in before;
      StartTrimmed(before[1..], s);
    }
  }

  lemma {:induction false} EndTrimmed(s: string, behind: string)
    requires Blank(behind) && (s == "" || !IsWhitespace(s[|s| - 1]))
    ensures TrimEnd(s + behind) == s
  {
    hide IsWhitespace;
    if behind == "" {
      assert s + behind == s;
    } else {
      var last := |behind| - 1;
      assert (s + behind)[..|s + behind| - 1] == s + behind[..last] && behind[last] in behind;
      EndTrimmed(s, behind[..last]);
    }
  }

  /** White space is the 25 characters with the Unicode property White_Space. */
  lemma WhitespaceListed(c: char)
    ensures IsWhitespace(c) <==> c in {
      '\U{0009}', '\U{000A}', '\U{000B}', '\U{000C}', '\U{000D}', '\U{0020}', '\U{0085}', '\U{00A0}', '\U{1680}',
      '\U{2000}', '\U{2001}', '\U{2002}', '\U{2003}', '\U{2004}', '\U{2005}', '\U{2006}', '\U{2007}', '\U{2008}',
      '\U{2009}', '\U{200A}', '\U{2028}', '\U{2029}', '\U{202F}', '\U{205F}', '\U{3000}'}
  {}

  /** The 26 capital letters of ASCII become the small ones 32 places on; everything else stays. */
  lemma LowerLetters(c: char)
    ensures LowerChar(c) as int == c as int + (if 65 <= c as int <= 90 then 32 else 0)
  {}

  lemma {:induction false} QuotesDropped(a: string, b: string)
    ensures WithoutQuotes(a + b) == WithoutQuotes(a) + WithoutQuotes(b)
  {
    if a == "" {
      assert a + b == b;
    } else {
      assert (a + b)[1..] == a[1..] + b;
      QuotesDropped(a[1..], b);
    }
  }

  /** Both kinds of quotes go, wherever they stand, and nothing else. */
  lemma OnlyQuotesDropped(before: string, c: char, behind: string)
    ensures WithoutQuotes(before + [c] + behind)
         == WithoutQuotes(before) + (if c == '\'' || c == '"' then "" else [c]) + WithoutQuotes(behind)
  {
    hide WithoutQuotes;
    QuotesDropped(before + [c], behind);
    QuotesDropped(before, [c]);
    QuoteDropped(c);
  }

  lemma QuoteDropped(c: char)
    ensures WithoutQuotes([c]) == if c == '\'' || c == '"' then "" else [c]
  {
    assert [c][1..] == "";
  }

  // ---- Words -------------------------------------------------------------------------------------

  predicate WordAt(s: string, word: string, i: nat) {
    && OccursAt(s, word, i)
    && (i == 0 || IsWhitespace(s[i - 1])) && (i + |word| == |s| || IsWhitespace(s[i + |word|]))
  }

  predicate IsWord(word: string) {
    word != "" && forall c | c in word :: !IsWhitespace(c)
  }

  lemma {:induction false} FirstWord(s: string)
    ensures forall j | 0 <= j < WordLength(s) :: !IsWhitespace(s[j])
    ensures WordLength(s) == |s| || IsWhitespace(s[WordLength(s)])
  {
    hide IsWhitespace;
    if s != "" && !IsWhitespace(s[0]) {
      FirstWord(s[1..]);
    }
  }

  /** Moving the front of the string away moves the words behind it. */
  lemma WordMoved(s: string, word: string, n: nat, i: nat)
    requires n <= i && n <= |s|
    requires i == n ==> n == 0 || IsWhitespace(s[n - 1])
    ensures WordAt(s, word, i) <==> WordAt(s[n..], word, i - n)
  {
    hide IsWhitespace;
    if i + |word| <= |s| {
      assert s[n..][i - n..i - n + |word|] == s[i..i + |word|];
    }
  }

  lemma HasWordBehindBlank(s: string, word: string)
    requires s != "" && IsWhitespace(s[0])
    ensures HasWord(s, word) <==> HasWord(s[1..], word)
  {}

  lemma HasWordInFront(s: string, word: string)
    requires s != "" && !IsWhitespace(s[0])
    ensures HasWord(s, word) <==> s[..WordLength(s)] == word || HasWord(s[WordLength(s)..], word)
  {}

  lemma {:induction false} WordIsFound(s: string, word: string, i: nat)
    requires IsWord(word) && WordAt(s, word, i)
    ensures HasWord(s, word)
    decreases |s|
  {
    hide IsWhitespace, HasWord;
    assert s[i] == s[i..i + |word|][0] == word[0] && word[0] in word;
    if IsWhitespace(s[0]) {
      HasWordBehindBlank(s, word);
      WordMoved(s, word, 1, i);
      WordIsFound(s[1..], word, i - 1);
    } else {
      HasWordInFront(s, word);
      FirstWord(s);
      var n := WordLength(s);
      if i == 0 {
        WholeWord(s, word);
      } else {
        WordMoved(s, word, n, i);
        WordIsFound(s[n..], word, i - n);
      }
    }
  }

  lemma WholeWord(s: string, word: string)
    requires IsWord(word) && WordAt(s, word, 0)
    ensures s[..WordLength(s)] == word
  {
    hide IsWhitespace;
    FirstWord(s);
    assert s[0..|word|] == s[..|word|];
    assert forall j | 0 <= j < |word| :: s[j] == word[j] && word[j] in word && !IsWhitespace(s[j]);
  }

  lemma {:induction false} FoundIsWord(s: string, word: string) returns (i: nat)
    requires HasWord(s, word) && IsWord(word)
    ensures WordAt(s, word, i)
    decreases |s|
  {
    hide IsWhitespace, HasWord, WordAt, IsWord;
    NothingToFind(s, word);
    if IsWhitespace(s[0]) {
      HasWordBehindBlank(s, word);
      i := FoundIsWord(s[1..], word);
      if i == 0 {
        WordMoved(s, word, 1, 1);
      } else {
        WordMoved(s, word, 1, i + 1);
      }
      i := i + 1;
    } else {
      HasWordInFront(s, word);
      FirstWord(s);
      var n := WordLength(s);
      if s[..n] == word {
        WordInFront(s, word);
        i := 0;
      } else {
        NothingToFind(s[n..], word);
        i := FoundIsWord(s[n..], word);
        StartsSolid(s[n..], word);
        WordMoved(s, word, n, i + n);
        i := i + n;
      }
    }
  }

  lemma WordInFront(s: string, word: string)
    requires s[..WordLength(s)] == word
    ensures WordAt(s, word, 0)
  {
    hide IsWhitespace;
    FirstWord(s);
    assert s[0..|word|] == s[..|word|];
  }

  lemma StartsSolid(s: string, word: string)
    requires IsWord(word)
    ensures WordAt(s, word, 0) ==> !IsWhitespace(s[0])
  {
    hide IsWhitespace;
    if WordAt(s, word, 0) {
      assert s[0] == s[0..|word|][0] && word[0] in word;
    }
  }

  lemma NothingToFind(s: string, word: string)
    requires HasWord(s, word)
    ensures s != ""
  {}

  /** A word is there exactly where it stands between white space or the ends. */
  lemma HasWordExactly(s: string, word: string)
    requires IsWord(word)
    ensures HasWord(s, word) <==> exists i: nat :: WordAt(s, word, i)
  {
    hide HasWord, WordAt, IsWord;
    if HasWord(s, word) {
      var i := FoundIsWord(s, word);
    }
    forall i: nat | WordAt(s, word, i)
      ensures HasWord(s, word)
    {
      WordIsFound(s, word, i);
    }
  }

  ghost predicate Occurs(s: string, pattern: string) {
    exists i: nat :: OccursAt(s, pattern, i)
  }

  lemma ContainsExactly(s: string, pattern: string)
    ensures Contains(s, pattern) <==> Occurs(s, pattern)
  {
    hide Find, OccursAt;
    FindExactly(s, pattern);
  }

  /** Which attributes hide an element, once the tag is in small letters and without quotes. */
  lemma HiddenAttributesExactly(raw: string)
    ensures var plain := WithoutQuotes(Lower(raw));
            HasHiddenAttribute(raw) <==>
            || (exists i: nat :: WordAt(plain, "hidden", i))
            || Occurs(plain, "aria-hidden=true")
            || Occurs(plain, "display:none") || Occurs(plain, "display: none")
            || Occurs(plain, "visibility:hidden") || Occurs(plain, "visibility: hidden")
  {
    hide HasWord, Contains, Lower, WithoutQuotes, Occurs, WordAt, IsWord;
    var plain := WithoutQuotes(Lower(raw));
    HiddenIsWord();
    HasWordExactly(plain, "hidden");
    ContainsExactly(plain, "aria-hidden=true");
    ContainsExactly(plain, "display:none");
    ContainsExactly(plain, "display: none");
    ContainsExactly(plain, "visibility:hidden");
    ContainsExactly(plain, "visibility: hidden");
  }

  lemma HiddenIsWord()
    ensures IsWord("hidden")
  {}

  // ---- Tags -------------------------------------------------------------------------------------------

  predicate Small(s: string) {
    forall c | c in s :: !('A' <= c <= 'Z')
  }

  lemma LowerOf(s: string)
    requires Small(s)
    ensures Lower(s) == s
  {
    forall i | 0 <= i < |s|
      ensures Lower(s)[i] == s[i]
    {
      assert s[i] in s;
    }
  }

  /** Against names in small letters, any spelling of one of them counts. */
  lemma NamedExactly(name: string, names: seq<string>)
    requires forall n | n in names :: Small(n)
    ensures NamedOneOf(name, names) <==> Lower(name) in names
  {
    hide Lower, Small;
    forall n | n in names
      ensures SameName(name, n) <==> Lower(name) == n
    {
      LowerOf(n);
    }
  }

  lemma CodeNamesAreSmall()
    ensures Small("script") && Small("style") && Small("noscript") && Small("svg") && Small("template")
    ensures Small("canvas") && Small("iframe")
  {}

  lemma FrameNamesAreSmall()
    ensures Small("nav") && Small("aside") && Small("footer") && Small("form")
    ensures Small("button") && Small("select") && Small("header")
  {}

  lemma HiddenNamesExactly(name: string, raw: string, primaryDepth: nat)
    ensures StartsHiddenScope(name, raw, primaryDepth) <==>
            || Lower(name) in ["script", "style", "noscript", "svg", "template", "canvas", "iframe", "nav", "aside",
                               "footer", "form", "button", "select"]
            || (primaryDepth == 0 && Lower(name) == "header")
            || HasHiddenAttribute(raw)
  {
    hide Lower, HasHiddenAttribute, NamedOneOf, Small;
    CodeNamesAreSmall();
    FrameNamesAreSmall();
    NamedExactly(name, ["script", "style", "noscript", "svg", "template", "canvas", "iframe", "nav", "aside",
                        "footer", "form", "button", "select"]);
    LowerOf("header");
  }

  lemma PrimaryNamesExactly(name: string)
    ensures IsPrimaryTag(name, Html) <==> Lower(name) in {"main", "article"}
    ensures IsPrimaryTag(name, Feed) <==> Lower(name) in {"item", "entry"}
  {
    hide Lower, NamedOneOf;
    NamedExactly(name, ["main", "article"]);
    NamedExactly(name, ["item", "entry"]);
  }

  lemma BlockNamesAreSmall()
    ensures Small("br") && Small("p") && Small("div") && Small("main") && Small("article") && Small("section")
    ensures Small("header") && Small("footer") && Small("nav") && Small("aside") && Small("li") && Small("tr")
  {}

  lemma TextNamesAreSmall()
    ensures Small("h1") && Small("h2") && Small("h3") && Small("h4") && Small("h5") && Small("h6") && Small("title")
    ensures Small("description") && Small("summary") && Small("content") && Small("item") && Small("entry")
  {}

  lemma StructuralNamesExactly(name: string)
    ensures IsStructuralTag(name) <==> Lower(name) in [
              "br", "p", "div", "main", "article", "section", "header", "footer", "nav", "aside", "li", "tr",
              "h1", "h2", "h3", "h4", "h5", "h6", "title", "description", "summary", "content", "item", "entry"]
  {
    hide Lower, NamedOneOf, Small;
    BlockNamesAreSmall();
    TextNamesAreSmall();
    NamedExactly(name, ["br", "p", "div", "main", "article", "section", "header", "footer", "nav", "aside", "li", "tr",
                        "h1", "h2", "h3", "h4", "h5", "h6", "title", "description", "summary", "content", "item", "entry"]);
  }

  /** A name as documents spell it: small letters and digits. */
  predicate PlainName(name: string) {
    name != "" && forall c | c in name :: 'a' <= c <= 'z' || '0' <= c <= '9'
  }

  lemma {:induction false} WholeName(name: string)
    requires forall c | c in name :: !IsWhitespace(c) && c != '/'
    ensures NameLength(name) == |name|
  {
    if name != "" {
      assert name[0] in name && forall c | c in name[1..] :: c in name;
      WholeName(name[1..]);
    }
  }

  lemma NoBlanks(name: string)
    requires PlainName(name)
    ensures Tight(name) && Tight("/" + name) && forall c | c in name :: !IsWhitespace(c) && c != '/' && c != '>' && c != '<'
  {
    assert name[0] in name && name[|name| - 1] in name;
  }

  /** "name" opens an element and "/name" closes it. */
  lemma PlainTag(name: string)
    requires PlainName(name)
    ensures ParseTag(name) == Some(HtmlTag(name, false, false))
    ensures ParseTag("/" + name) == Some(HtmlTag(name, true, false))
  {
    hide Trim, TrimStart, TrimEnd, NameLength, IsWhitespace, Tight, Blank;
    NoBlanks(name);
    Untrimmed(name);
    Untrimmed("/" + name);
    WholeName(name);
    FirstLetter(name);
  }

  lemma Untrimmed(s: string)
    requires Tight(s)
    ensures Trim(s) == s && TrimStart(s) == s && TrimEnd(s) == s
  {
    hide Trim, TrimStart, TrimEnd, IsWhitespace;
    assert "" + s == s && s + "" == s;
    Trimmed("", s, "");
    StartTrimmed("", s);
    EndTrimmed(s, "");
  }

  lemma FirstLetter(name: string)
    requires PlainName(name)
    ensures name[0] != '!' && name[0] != '?' && name[0] != '/' && name[|name| - 1] != '/'
    ensures ("/" + name)[1..] == name && name[..|name|] == name
  {
    assert name[0] in name && name[|name| - 1] in name;
  }

  /** A slash and nothing solid behind it. */
  predicate LastSlash(s: string, k: nat) {
    k < |s| && s[k] == '/' && Blank(s[k + 1..])
  }

  ghost predicate EndsWithSlash(s: string) {
    exists k: nat :: LastSlash(s, k)
  }

  lemma {:induction false} EndParts(s: string)
    ensures TrimEnd(s) <= s && Blank(s[|TrimEnd(s)|..])
    ensures TrimEnd(s) != "" ==> !IsWhitespace(TrimEnd(s)[|TrimEnd(s)| - 1])
  {
    hide IsWhitespace;
    if s != "" && IsWhitespace(s[|s| - 1]) {
      var front := s[..|s| - 1];
      EndParts(front);
      assert s[|TrimEnd(front)|..] == front[|TrimEnd(front)|..] + [s[|s| - 1]];
    }
  }

  lemma SlashAtEnd(s: string)
    ensures EndsWithSlash(s) <==> TrimEnd(s) != "" && TrimEnd(s)[|TrimEnd(s)| - 1] == '/'
  {
    EndParts(s);
    hide IsWhitespace, TrimEnd;
    var n := |TrimEnd(s)|;
    if n > 0 && TrimEnd(s)[n - 1] == '/' {
      assert LastSlash(s, n - 1);
    }
    forall k: nat | LastSlash(s, k)
      ensures n == k + 1
    {
      SlashIsSolid();
      assert forall j | k < j < |s| :: s[j] == s[k + 1..][j - k - 1] && s[j] in s[k + 1..];
      assert forall j | n <= j < |s| :: s[j] == s[n..][j - n] && s[j] in s[n..];
    }
  }

  lemma SlashIsSolid()
    ensures !IsWhitespace('/')
  {}

  lemma {:induction false} NameInFront(name: string, behind: string)
    requires forall c | c in name :: !IsWhitespace(c) && c != '/'
    requires behind == "" || IsWhitespace(behind[0]) || behind[0] == '/'
    ensures NameLength(name + behind) == |name|
  {
    hide IsWhitespace;
    if name == "" {
      assert name + behind == behind;
    } else {
      assert (name + behind)[1..] == name[1..] + behind && (name + behind)[0] == name[0] && name[0] in name;
      assert forall c | c in name[1..] :: c in name;
      NameInFront(name[1..], behind);
    }
  }

  /** A name with attributes behind it: the tag closes itself exactly when its last solid character is a slash. */
  lemma TagWithAttributes(name: string, attributes: string)
    requires PlainName(name)
    requires attributes == "" || IsWhitespace(attributes[0]) || attributes[0] == '/'
    ensures ParseTag(name + attributes) == Some(HtmlTag(name, false, EndsWithSlash(attributes)))
  {
    hide IsWhitespace, TrimEnd, TrimStart, NameLength, Blank;
    var raw := name + attributes;
    NoBlanks(name);
    FirstLetter(name);
    SolidStart(raw);
    EndBehindName(name, attributes);
    var value := TrimEnd(raw);
    SolidStart(value);
    EndOnce(raw);
    NameInFront(name, value[|name|..]);
    assert value == name + value[|name|..];
    SlashAtEnd(raw);
    SlashBehindName(name, attributes);
  }

  lemma SolidStart(s: string)
    ensures s == "" || !IsWhitespace(s[0]) ==> TrimStart(s) == s
  {}

  lemma EndOnce(s: string)
    ensures TrimEnd(TrimEnd(s)) == TrimEnd(s)
  {
    EndParts(s);
  }

  lemma {:induction false} EndBehindName(name: string, attributes: string)
    requires PlainName(name)
    ensures name <= TrimEnd(name + attributes) <= name + attributes
  {
    hide IsWhitespace;
    NoBlanks(name);
    if attributes == "" {
      assert name + attributes == name;
      Untrimmed(name);
    } else {
      var last := |attributes| - 1;
      assert (name + attributes)[..|name + attributes| - 1] == name + attributes[..last];
      EndBehindName(name, attributes[..last]);
    }
  }

  lemma SlashMoved(name: string, attributes: string, k: nat)
    ensures LastSlash(name + attributes, |name| + k) <==> LastSlash(attributes, k)
  {
    hide Blank;
    if k < |attributes| {
      assert (name + attributes)[|name| + k + 1..] == attributes[k + 1..];
    }
  }

  lemma NoSlashWithin(name: string, attributes: string, k: nat)
    requires forall c | c in name :: c != '/'
    ensures LastSlash(name + attributes, k) ==> k >= |name|
  {
    hide Blank;
    assert forall j | 0 <= j < |name| :: (name + attributes)[j] == name[j] && name[j] in name;
  }

  lemma SlashBehindName(name: string, attributes: string)
    requires forall c | c in name :: c != '/'
    ensures EndsWithSlash(name + attributes) <==> EndsWithSlash(attributes)
  {
    hide LastSlash;
    forall k: nat | LastSlash(attributes, k)
      ensures EndsWithSlash(name + attributes)
    {
      SlashMoved(name, attributes, k);
    }
    forall k: nat | LastSlash(name + attributes, k)
      ensures EndsWithSlash(attributes)
    {
      NoSlashWithin(name, attributes, k);
      SlashMoved(name, attributes, k - |name|);
    }
  }

  /** A tag that is no declaration is read as one tag, up to the first '>'. */
  lemma OneTag(raw: string)
    requires '>' !in raw && (raw == "" || raw[0] != '!')
    ensures IsTagBody(raw)
  {
    hide Find;
    var text := Bracketed(raw);
    FirstAt(text, "<", 0);
    FirstAt(text, ">", |raw| + 1);
    assert text[1] == if raw == "" then '>' else raw[0];
    assert text[1..|raw| + 1] == raw;
    assert text[0..] == text && text[..0] == "";
    FirstOpening(text);
  }

  lemma FirstAt(s: string, pattern: string, i: nat)
    requires |pattern| == 1 && i < |s| && s[i] == pattern[0] && pattern[0] !in s[..i]
    ensures Find(s, pattern) == Some(i)
  {
    FindExactly(s, pattern);
    assert OccursAt(s, pattern, i);
    forall j: nat | j < i
      ensures !OccursAt(s, pattern, j)
    {
      assert s[j] == s[..i][j] && s[j] in s[..i];
    }
  }

  /** A plain name has none of the attributes that hide, unless it is "hidden" itself. */
  lemma PlainNameIsSeen(name: string)
    requires PlainName(name) && name != "hidden"
    ensures !HasHiddenAttribute(name) && Lower(name) == name
  {
    LowerOf(name);
    NoQuotes(name);
    HiddenAttributesExactly(name);
    NotIn(name, "aria-hidden=true", '=');
    NotIn(name, "display:none", ':');
    NotIn(name, "display: none", ':');
    NotIn(name, "visibility:hidden", ':');
    NotIn(name, "visibility: hidden", ':');
    NoBlanks(name);
    hide HasHiddenAttribute, Occurs, Lower, WithoutQuotes, IsWhitespace, WordAt;
    forall i: nat
      ensures !WordAt(name, "hidden", i)
    {
      if WordAt(name, "hidden", i) {
        OnlyWord(name, "hidden", i);
      }
    }
  }

  lemma OccursWhole(s: string, pattern: string, i: nat, k: nat)
    requires OccursAt(s, pattern, i) && k < |pattern|
    ensures pattern[k] in s
  {
    assert s[i + k] == s[i..i + |pattern|][k];
  }

  lemma OnlyWord(s: string, word: string, i: nat)
    requires WordAt(s, word, i) && forall c | c in s :: !IsWhitespace(c)
    ensures s == word
  {
    hide IsWhitespace;
    assert s[0..|s|] == s;
    assert forall j | 0 <= j < |s| :: s[j] in s && !IsWhitespace(s[j]);
  }

  lemma NotIn(name: string, pattern: string, c: char)
    requires c in pattern && c !in name
    ensures !Occurs(name, pattern)
  {
    var k :| 0 <= k < |pattern| && pattern[k] == c;
    forall i: nat
      ensures !OccursAt(name, pattern, i)
    {
      if OccursAt(name, pattern, i) {
        OccursWhole(name, pattern, i, k);
      }
    }
  }

  lemma {:induction false} NoQuotes(s: string)
    requires '\'' !in s && '"' !in s
    ensures WithoutQuotes(s) == s
  {
    if s != "" {
      assert s == [s[0]] + s[1..] && s[0] in s && forall c | c in s[1..] :: c in s;
      NoQuotes(s[1..]);
    }
  }

  // ---- Documents -----------------------------------------------------------------------------------------

  /** "<raw>" with what follows. */
  function Tagged(raw: string, back: string): string {
    "<" + raw + ">" + back
  }

  lemma TagFirst(text: string, raw: string, back: string, mode: Mode, s: Scanner)
    requires '<' !in text && IsTagBody(raw)
    ensures ScanFrom(text + Tagged(raw, back), mode, s) == ScanFrom(back, mode, OnTag(Emit(s, text), raw, mode))
  {
    hide ScanFrom, OnTag, Emit, IsTagBody;
    assert Tagged(raw, back) == Bracketed(raw) + back;
    TextAndTag(text, raw, back, mode, s);
  }

  lemma TextLast(text: string, mode: Mode, s: Scanner)
    requires '<' !in text
    ensures ScanFrom(text, mode, s) == Emit(s, text).collected
  {
    hide Emit;
    NoneWithout(text);
    AtEnd(text, mode, s);
  }

  /** Text without any markup is fallback text, in either mode. */
  lemma TextOnly(text: string, mode: Mode)
    requires '<' !in text
    ensures Scan(text, mode) == MarkupText("", "", text)
  {
    hide ScanFrom;
    TextLast(text, mode, START);
    assert "" + text == text;
  }

  /** An element of that name with text before, inside and behind it. */
  function Element(before: string, name: string, inside: string, behind: string): string {
    before + Tagged(name, inside + Tagged("/" + name, behind))
  }

  lemma ScanElement(before: string, name: string, inside: string, behind: string, mode: Mode, s: Scanner)
    requires PlainName(name) && '<' !in before && '<' !in inside && '<' !in behind
    ensures ScanFrom(Element(before, name, inside, behind), mode, s)
         == Emit(OnTag(Emit(OnTag(Emit(s, before), name, mode), inside), "/" + name, mode), behind).collected
  {
    hide ScanFrom, OnTag, Emit, PlainName, Tagged, IsTagBody;
    BothTags(name);
    TagFirst(before, name, inside + Tagged("/" + name, behind), mode, s);
    var s1 := OnTag(Emit(s, before), name, mode);
    TagFirst(inside, "/" + name, behind, mode, s1);
    TextLast(behind, mode, OnTag(Emit(s1, inside), "/" + name, mode));
  }

  lemma BothTags(name: string)
    requires PlainName(name)
    ensures IsTagBody(name) && IsTagBody("/" + name)
  {
    hide IsTagBody;
    NoBlanks(name);
    FirstLetter(name);
    OneTag(name);
    OneTag("/" + name);
  }

  /** What the tables make of a plain name in front of any primary element. */
  lemma PlainTables(name: string)
    requires PlainName(name) && name != "hidden"
    ensures StartsHiddenScope(name, name, 0) <==>
              name in ["script", "style", "noscript", "svg", "template", "canvas", "iframe", "nav", "aside",
                       "footer", "form", "button", "select"] || name == "header"
    ensures IsPrimaryTag(name, Html) <==> name in {"main", "article"}
    ensures IsPrimaryTag(name, Feed) <==> name in {"item", "entry"}
    ensures IsStructuralTag(name) <==> name in [
              "br", "p", "div", "main", "article", "section", "header", "footer", "nav", "aside", "li", "tr",
              "h1", "h2", "h3", "h4", "h5", "h6", "title", "description", "summary", "content", "item", "entry"]
    ensures SameName(name, "title") <==> name == "title"
    ensures SameName(name, "head") <==> name == "head"
    ensures SameName(name, name)
  {
    hide StartsHiddenScope, IsPrimaryTag, IsStructuralTag, HasHiddenAttribute, Lower, PlainName;
    PlainNameIsSeen(name);
    HiddenNamesExactly(name, name, 0);
    PrimaryNamesExactly(name);
    StructuralNamesExactly(name);
    LowerOf("title");
    LowerOf("head");
  }

  /** The names of a group: hidden elements, primary elements of the mode, block elements that only break the line. */
  predicate Hides(name: string) {
    name in ["script", "style", "noscript", "svg", "template", "canvas", "iframe", "nav", "aside",
             "footer", "form", "button", "select"] || name == "header"
  }

  predicate IsPrimaryName(name: string, mode: Mode) {
    match mode
    case Html => name in {"main", "article"}
    case Feed => name in {"item", "entry"}
  }

  predicate Breaks(name: string) {
    name in ["br", "p", "div", "main", "article", "section", "header", "footer", "nav", "aside", "li", "tr",
             "h1", "h2", "h3", "h4", "h5", "h6", "title", "description", "summary", "content", "item", "entry"]
  }

  /** What an element adds where nothing is open: which text takes what stands before, inside and behind it. */
  function ElementText(before: string, name: string, inside: string, behind: string, mode: Mode): MarkupText {
    if Hides(name) then MarkupText("", "", before + behind)
    else if IsPrimaryName(name, mode) then MarkupText("", "\n" + inside, before + "\n" + behind)
    else if name == "title" then MarkupText(inside, "", before + "\n\n" + behind)
    else if name == "head" && mode == Html then MarkupText("", "", before + behind)
    else if Breaks(name) then MarkupText("", "", before + "\n" + inside + "\n" + behind)
    else MarkupText("", "", before + inside + behind)
  }

  /**
   A document of one element, for every name: a hidden element leaves nothing; a primary one makes its
   text primary; a title is the title; a head is dropped; a block element breaks the line on both
   sides; and any other leaves its text where it is.
   */
  lemma ElementScanned(before: string, name: string, inside: string, behind: string, mode: Mode)
    requires PlainName(name) && name != "hidden" && '<' !in before && '<' !in inside && '<' !in behind
    ensures Scan(Element(before, name, inside, behind), mode) == ElementText(before, name, inside, behind, mode)
  {
    hide ScanFrom, Emit, OnTag, PlainName, Element;
    ScanElement(before, name, inside, behind, mode, START);
    EmitFirst(before);
    if Hides(name) {
      HiddenElement(FallbackOnly(before), name, inside, mode);
      EmitFallback(before, behind);
    } else {
      VisibleElement(before, name, inside, behind, mode);
    }
  }

  function FallbackOnly(text: string): Scanner {
    Scanner(false, false, 0, None, MarkupText("", "", text))
  }

  lemma EmitFirst(text: string)
    ensures Emit(START, text) == FallbackOnly(text)
  {
    assert "" + text == text;
  }

  lemma EmitFallback(text: string, more: string)
    ensures Emit(FallbackOnly(text), more) == FallbackOnly(text + more)
  {}

  lemma HiddenElement(s: Scanner, name: string, inside: string, mode: Mode)
    requires PlainName(name) && name != "hidden" && Hides(name) && s.hidden.None? && s.primaryDepth == 0
    ensures OnTag(Emit(OnTag(s, name, mode), inside), "/" + name, mode) == s
  {
    hide ParseTag, PlainName, StartsHiddenScope, SameName, Hides, OnVisibleTag;
    PlainTables(name);
    PlainTag(name);
    TablesMean(name, mode);
  }

  /** A visible tag where nothing is open but perhaps one primary element, the title or the head. */
  lemma VisibleTag(s: Scanner, name: string, closing: bool, mode: Mode)
    requires PlainName(name) && name != "hidden" && !Hides(name) && s.hidden.None? && (closing || s.primaryDepth == 0)
    ensures OnTag(s, if closing then "/" + name else name, mode) == OnVisibleTag(s, HtmlTag(name, closing, false), mode)
  {
    hide ParseTag, PlainName, StartsHiddenScope, Hides, OnVisibleTag;
    PlainTag(name);
    TablesMean(name, mode);
  }

  lemma VisibleElement(before: string, name: string, inside: string, behind: string, mode: Mode)
    requires PlainName(name) && name != "hidden" && !Hides(name)
    ensures Emit(OnTag(Emit(OnTag(FallbackOnly(before), name, mode), inside), "/" + name, mode), behind).collected
         == ElementText(before, name, inside, behind, mode)
  {
    hide OnTag, PlainName, Hides, Breaks, IsPrimaryName, IsPrimaryTag, IsStructuralTag, SameName;
    PlainTables(name);
    TablesMean(name, mode);
    VisibleTag(FallbackOnly(before), name, false, mode);
    var s1 := Emit(OnTag(FallbackOnly(before), name, mode), inside);
    VisibleTag(s1, name, true, mode);
    assert (before + "\n") + "\n" == before + "\n\n" && "" + "\n" == "\n" && "" + inside == inside;
  }

  lemma TablesMean(name: string, mode: Mode)
    requires PlainName(name) && name != "hidden"
    ensures StartsHiddenScope(name, name, 0) <==> Hides(name)
    ensures IsPrimaryTag(name, mode) <==> IsPrimaryName(name, mode)
    ensures IsStructuralTag(name) <==> Breaks(name)
    ensures IsPrimaryName(name, mode) || name == "title" ==> Breaks(name)
    ensures name == "head" ==> !Breaks(name)
  {
    hide PlainName, StartsHiddenScope, IsPrimaryTag, IsStructuralTag;
    PlainTables(name);
  }

  lemma TrimmedAway(s: string)
    ensures Trim(s) == "" <==> Blank(s)
  {
    hide IsWhitespace;
    if Blank(s) {
      assert s == s + "" + "";
      Trimmed(s, "", "");
    } else {
      SomethingLeft(s);
    }
  }

  lemma {:induction false} SomethingLeft(s: string)
    requires !Blank(s)
    ensures Trim(s) != ""
  {
    hide IsWhitespace;
    if IsWhitespace(s[0]) {
      assert s == [s[0]] + s[1..];
      SomethingLeft(s[1..]);
    } else {
      EndParts(s);
      assert s[|TrimEnd(s)|..] == s || TrimEnd(s) != "";
    }
  }

  /** An embedded document is shown by its primary text, or by its fallback text when that is blank. */
  lemma EmbeddedExactly(t: MarkupText)
    ensures Embedded(t) == if Blank(t.primary) then t.fallback else t.primary
  {
    hide Trim, Blank;
    TrimmedAway(t.primary);
  }

  /** The first occurrence of the pattern behind the text is the one that follows it. */
  predicate Ends(text: string, pattern: string) {
    Find(text + pattern, pattern) == Some(|text|)
  }

  /** A comment, which ends at its first "-->", leaves nothing. */
  lemma CommentScanned(before: string, comment: string, behind: string, mode: Mode)
    requires '<' !in before && '<' !in behind && Ends(comment, "-->")
    ensures Scan(before + ("<!--" + comment + "-->" + behind), mode) == MarkupText("", "", before + behind)
  {
    hide ScanFrom, Emit, Find, Ends;
    var rest := before + ("<!--" + comment + "-->" + behind);
    OpensAt(before, "<!--" + comment + "-->" + behind);
    assert rest[|before|..][4..] == comment + "-->" + behind && "<!--" <= rest[|before|..];
    EndsAt(comment, "-->", behind);
    assert rest[|before| + 4 + |comment| + 3..] == behind && rest[..|before|] == before;
    AtComment(rest, |before|, mode, START);
    EmitFirst(before);
    TextLast(behind, mode, FallbackOnly(before));
    EmitFallback(before, behind);
  }

  /** A CDATA section, which ends at its first "]]>", is scanned as a document of its own, and shown where it stands. */
  lemma CdataScanned(before: string, body: string, behind: string, mode: Mode)
    requires '<' !in before && '<' !in behind && Ends(body, "]]>")
    ensures Scan(before + ("<![CDATA[" + body + "]]>" + behind), mode)
         == MarkupText("", "", before + Embedded(Scan(body, Html)) + behind)
  {
    hide ScanFrom, Emit, Find, Embedded, Scan, Ends;
    var rest := before + ("<![CDATA[" + body + "]]>" + behind);
    OpensAt(before, "<![CDATA[" + body + "]]>" + behind);
    assert rest[|before|..][9..] == body + "]]>" + behind && "<![CDATA[" <= rest[|before|..] && rest[|before| + 2] == '[';
    EndsAt(body, "]]>", behind);
    assert rest[|before| + 9 + |body| + 3..] == behind && rest[..|before|] == before;
    assert rest[|before|..][9..9 + |body|] == body;
    AtCdata(rest, |before|, mode, START);
    var shown := Embedded(Scan(body, Html));
    EmitFirst(before);
    EmitFallback(before, shown);
    TextLast(behind, mode, FallbackOnly(before + shown));
    EmitFallback(before + shown, behind);
    ScanIs(rest, mode);
  }

  lemma ScanIs(document: string, mode: Mode)
    ensures Scan(document, mode) == ScanFrom(document, mode, START)
  {
    hide ScanFrom;
  }

  lemma OpensAt(before: string, tail: string)
    requires '<' !in before && tail != "" && tail[0] == '<'
    ensures Find(before + tail, "<") == Some(|before|) && (before + tail)[|before|..] == tail
  {
    assert (before + tail)[..|before|] == before;
    FirstAt(before + tail, "<", |before|);
  }

  lemma EndsAt(text: string, pattern: string, behind: string)
    requires Ends(text, pattern)
    ensures Find(text + pattern + behind, pattern) == Some(|text|)
  {
    FindStable(text + pattern, behind, pattern);
  }
}
