/**
 * `syntaxHighlight` of components/CodeViewer.tsx: HTML escaping followed by
 * four global `replace` passes, in this order: string literals, `//`
 * comments, general keywords, MQL5 identifiers. Every pass scans the output
 * of the previous one, markup included; each is modelled as its own
 * left-to-right scanner with JavaScript's global-replace semantics.
 */
module SyntaxHighlight {
  import opened Wrappers
  import opened Strings
  import opened CodeFences

  // ---------------------------------------------------------------------------
  // Escaping: & first, then <, then >

  /** Every occurrence of the character `c` replaced by `rep`. */
  function ReplaceChar(s: string, c: char, rep: string): (r: string)
    ensures c !in rep ==> c !in r
    ensures forall x :: x in r ==> x in s || x in rep
  {
    if s == [] then [] else (if s[0] == c then rep else [s[0]]) + ReplaceChar(s[1..], c, rep)
  }

  /** The three escaping passes; no raw `<` or `>` survives them. */
  function Escape(code: string): (r: string)
    ensures '<' !in r && '>' !in r
  {
    ReplaceChar(ReplaceChar(ReplaceChar(code, '&', "&amp;"), '<', "&lt;"), '>', "&gt;")
  }

  /** The entity one character escapes to. */
  function EscapeChar(c: char): string
  {
    if c == '&' then "&amp;" else if c == '<' then "&lt;" else if c == '>' then "&gt;" else [c]
  }

  /** Reference: escape each character on its own. */
  function EscapeEach(s: string): string
  {
    if s == [] then [] else EscapeChar(s[0]) + EscapeEach(s[1..])
  }

  /** The inverse mapping: decode the three entities, keep everything else. */
  function Unescape(t: string): string
    decreases |t|
  {
    if t == [] then []
    else if StartsWith(t, "&amp;") then "&" + Unescape(t[5..])
    else if StartsWith(t, "&lt;") then "<" + Unescape(t[4..])
    else if StartsWith(t, "&gt;") then ">" + Unescape(t[4..])
    else [t[0]] + Unescape(t[1..])
  }

  predicate EntityAt(t: string, i: nat)
    requires i <= |t|
  {
    StartsWith(t[i..], "&amp;") || StartsWith(t[i..], "&lt;") || StartsWith(t[i..], "&gt;")
  }

  lemma {:induction false} ReplaceCharAbsent(s: string, c: char, rep: string)
    requires c !in s
    ensures ReplaceChar(s, c, rep) == s
    decreases |s|
  {
    if s != [] {
      ReplaceCharAbsent(s[1..], c, rep);
    }
  }

  lemma {:induction false} ReplaceCharAppend(a: string, b: string, c: char, rep: string)
    ensures ReplaceChar(a + b, c, rep) == ReplaceChar(a, c, rep) + ReplaceChar(b, c, rep)
    decreases |a|
  {
    if a == [] {
      assert a + b == b;
    } else {
      assert (a + b)[0] == a[0] && (a + b)[1..] == a[1..] + b;
      ReplaceCharAppend(a[1..], b, c, rep);
    }
  }

  /** A pass replaces the one character of a single-character text, or keeps it. */
  lemma ReplaceCharSingle(c: char, d: char, rep: string)
    ensures ReplaceChar([c], d, rep) == if c == d then rep else [c]
  {
    assert [c][1..] == [];
  }

  /** Each character escapes to its entity when the three passes run on it alone. */
  lemma EscapeSingle(c: char)
    ensures Escape([c]) == EscapeChar(c)
  {
    ReplaceCharSingle(c, '&', "&amp;");
    if c == '&' {
      ReplaceCharAbsent("&amp;", '<', "&lt;");
      ReplaceCharAbsent("&amp;", '>', "&gt;");
    } else {
      ReplaceCharSingle(c, '<', "&lt;");
      if c == '<' {
        ReplaceCharAbsent("&lt;", '>', "&gt;");
      } else {
        ReplaceCharSingle(c, '>', "&gt;");
      }
    }
  }

  /** Escaping distributes over concatenation. */
  lemma EscapeAppend(a: string, b: string)
    ensures Escape(a + b) == Escape(a) + Escape(b)
  {
    var a1, b1 := ReplaceChar(a, '&', "&amp;"), ReplaceChar(b, '&', "&amp;");
    ReplaceCharAppend(a, b, '&', "&amp;");
    var a2, b2 := ReplaceChar(a1, '<', "&lt;"), ReplaceChar(b1, '<', "&lt;");
    ReplaceCharAppend(a1, b1, '<', "&lt;");
    ReplaceCharAppend(a2, b2, '>', "&gt;");
  }

  /** The three passes replace `&` before introducing any new `&`, so they escape character by character. */
  lemma {:induction false} EscapeIsCharwise(s: string)
    ensures Escape(s) == EscapeEach(s)
    decreases |s|
  {
    if s != [] {
      assert s == [s[0]] + s[1..];
      EscapeAppend([s[0]], s[1..]);
      EscapeSingle(s[0]);
      EscapeIsCharwise(s[1..]);
    }
  }

  /** Escaping is reversible: decoding the entities gives the code back. */
  lemma {:induction false} UnescapeEscape(s: string)
    ensures Unescape(Escape(s)) == s
  {
    EscapeIsCharwise(s);
    UnescapeEscapeEach(s);
  }

  lemma UnescapeAmp(x: string)
    ensures Unescape("&amp;" + x) == "&" + Unescape(x)
  {
    var t := "&amp;" + x;
    assert t[..5] == "&amp;" && t[5..] == x;
  }

  lemma UnescapeLt(x: string)
    ensures Unescape("&lt;" + x) == "<" + Unescape(x)
  {
    var t := "&lt;" + x;
    assert t[..4] == "&lt;" && t[4..] == x;
    assert !StartsWith(t, "&amp;") by {
      assert t[1] == 'l';
    }
  }

  lemma UnescapeGt(x: string)
    ensures Unescape("&gt;" + x) == ">" + Unescape(x)
  {
    var t := "&gt;" + x;
    assert t[..4] == "&gt;" && t[4..] == x;
    assert !StartsWith(t, "&amp;") && !StartsWith(t, "&lt;") by {
      assert t[1] == 'g';
    }
  }

  lemma UnescapeOther(c: char, x: string)
    requires c != '&'
    ensures Unescape([c] + x) == [c] + Unescape(x)
  {
    var t := [c] + x;
    assert t[0] == c && t[1..] == x;
  }

  /** Decoding the entity of one character gives that character, then decodes the rest. */
  lemma UnescapeStep(c: char, x: string)
    ensures Unescape(EscapeChar(c) + x) == [c] + Unescape(x)
  {
    if c == '&' {
      UnescapeAmp(x);
    } else if c == '<' {
      UnescapeLt(x);
    } else if c == '>' {
      UnescapeGt(x);
    } else {
      UnescapeOther(c, x);
    }
  }

  lemma {:induction false} UnescapeEscapeEach(s: string)
    ensures Unescape(EscapeEach(s)) == s
    decreases |s|
  {
    if s != [] {
      UnescapeStep(s[0], EscapeEach(s[1..]));
      UnescapeEscapeEach(s[1..]);
      assert s == [s[0]] + s[1..];
    }
  }

  /** Every `&` of the escaped text begins one of the three entities. */
  lemma {:induction false} EscapedAmpersands(s: string)
    ensures forall i :: 0 <= i < |Escape(s)| && Escape(s)[i] == '&' ==> EntityAt(Escape(s), i)
  {
    EscapeIsCharwise(s);
    EscapeEachAmpersands(s);
  }

  lemma {:induction false} EscapeEachAmpersands(s: string)
    ensures forall i :: 0 <= i < |EscapeEach(s)| && EscapeEach(s)[i] == '&' ==> EntityAt(EscapeEach(s), i)
    decreases |s|
  {
    if s != [] {
      var e, x := EscapeChar(s[0]), EscapeEach(s[1..]);
      var t := e + x;
      EscapeEachAmpersands(s[1..]);
      forall i | 0 <= i < |t| && t[i] == '&'
        ensures EntityAt(t, i)
      {
        if i < |e| {
          assert e[i] == '&';
          assert i == 0 && t[0..][..|e|] == e;
        } else {
          assert t[i..] == x[i - |e|..];
          assert x[i - |e|] == '&';
        }
      }
    }
  }

  // ---------------------------------------------------------------------------
  // The markup the passes insert

  const Close: string := "</span>"
  const StringOpen: string := "<span class=\"text-green-400\">"
  const CommentOpen: string := "<span class=\"text-slate-500 italic\">"
  const KeywordOpen: string := "<span class=\"text-purple-400 font-bold\">"
  const MqlOpen: string := "<span class=\"text-blue-400\">"

  /** The replacement `open + "$1" + "</span>"`. */
  function Wrap(open: string, m: string): (r: string)
    ensures |r| == |open| + |m| + 7
  {
    open + m + Close
  }

  /** None of the inserted opening tags holds a line terminator. */
  lemma OpenTagsOnOneLine()
    ensures NoTerminator(StringOpen) && NoTerminator(CommentOpen)
    ensures NoTerminator(KeywordOpen) && NoTerminator(MqlOpen)
  {
    StringOpenOnOneLine(StringOpen);
    CommentOpenOnOneLine(CommentOpen);
    KeywordOpenOnOneLine(KeywordOpen);
    MqlOpenOnOneLine(MqlOpen);
  }

  lemma StringOpenOnOneLine(t: string)
    requires t == StringOpen
    ensures NoTerminator(t)
  {
  }

  lemma CommentOpenOnOneLine(t: string)
    requires t == CommentOpen
    ensures NoTerminator(t)
  {
  }

  lemma KeywordOpenOnOneLine(t: string)
    requires t == KeywordOpen
    ensures NoTerminator(t)
  {
  }

  lemma MqlOpenOnOneLine(t: string)
    requires t == MqlOpen
    ensures NoTerminator(t)
  {
  }

  /** A span adds no line terminator when its opening tag has none. */
  lemma WrapKeepsTerminators(open: string, m: string)
    ensures NoTerminator(open) ==> Terminators(Wrap(open, m)) == Terminators(m)
  {
    assert NoTerminator(Close);
    TerminatorsAppend(open + m, Close);
    TerminatorsAppend(open, m);
  }

  // ---------------------------------------------------------------------------
  // Pass 1: a double-quoted run with no quote inside is wrapped in a string span

  function Count(s: string, c: char): (n: nat)
    ensures n == 0 <==> c !in s
  {
    if s == [] then 0 else (if s[0] == c then 1 else 0) + Count(s[1..], c)
  }

  /** Index of the first `"` of `s`, or |s|. */
  function QuoteIndex(s: string): (k: nat)
    ensures k <= |s| && '"' !in s[..k]
    ensures k < |s| ==> s[k] == '"'
  {
    if s == [] then 0
    else if s[0] == '"' then 0
    else
      var k := 1 + QuoteIndex(s[1..]);
      assert s[..k] == [s[0]] + s[1..][..k - 1];
      k
  }

  /**
   * A match needs a `"` and a later `"`; `[^"]*` crosses line ends. Without a
   * closing quote the engine moves on one character.
   */
  function TagStrings(s: string): (r: string)
    ensures |r| == |s| + Count(s, '"') / 2 * (|StringOpen| + |Close|)
    decreases |s|
  {
    if s == [] then []
    else if s[0] == '"' && QuoteIndex(s[1..]) < |s| - 1 then
      var k := QuoteIndex(s[1..]) + 2;
      QuotedSpanCount(s, k);
      var n := Count(s[k..], '"');
      assert Count(s, '"') / 2 == n / 2 + 1;
      assert |StringOpen| + |Close| == 36;
      Wrap(StringOpen, s[..k]) + TagStrings(s[k..])
    else
      assert s[0] == '"' ==> s[1..][..|s| - 1] == s[1..];
      [s[0]] + TagStrings(s[1..])
  }

  /** A span from a quote to the next quote holds exactly two quotes. */
  lemma QuotedSpanCount(s: string, k: nat)
    requires 2 <= k <= |s| && s[0] == '"' && k == QuoteIndex(s[1..]) + 2
    ensures Count(s, '"') == 2 + Count(s[k..], '"')
  {
    var t, j := s[1..], k - 2;
    var u := t[j..];
    assert Count(t[..j], '"') == 0;
    SplitCount(t, j, '"');
    assert u[0] == '"' && u[1..] == s[k..];
  }

  lemma SplitCount(t: string, j: nat, c: char)
    requires j <= |t|
    ensures Count(t, c) == Count(t[..j], c) + Count(t[j..], c)
  {
    assert t == t[..j] + t[j..];
    CountAppend(t[..j], t[j..], c);
  }

  /** Pass 1 changes its input exactly when it holds two quotes. */
  lemma {:induction false} TagStringsChanges(t: string)
    ensures TagStrings(t) == t <==> Count(t, '"') < 2
    decreases |t|
  {
    assert |StringOpen| + |Close| == 36;
    if t != [] && Count(t, '"') < 2 && !(t[0] == '"' && QuoteIndex(t[1..]) < |t| - 1) {
      TagStringsChanges(t[1..]);
    }
  }

  // ---------------------------------------------------------------------------
  // Pass 2: "//" and the rest of its line are wrapped in a comment span

  /** Whether "//" occurs in `t`. */
  predicate HasSlashPair(t: string)
    decreases |t|
  {
    |t| >= 2 && (StartsWith(t, "//") || HasSlashPair(t[1..]))
  }

  /** `.` stops at a line terminator, so a comment span never swallows one: the lines stay as they were. */
  function TagComments(s: string): (r: string)
    ensures |r| >= |s|
    ensures Terminators(r) == Terminators(s)
    decreases |s|
  {
    if s == [] then []
    else if StartsWith(s, "//") then
      var k := LineEnd(s);
      assert s[..2][0] == '/' && s[..2][1] == '/';
      OpenTagsOnOneLine();
      WrapKeepsTerminators(CommentOpen, s[..k]);
      TerminatorsAppend(Wrap(CommentOpen, s[..k]), TagComments(s[k..]));
      TerminatorsDrop(s, k);
      Wrap(CommentOpen, s[..k]) + TagComments(s[k..])
    else
      TerminatorsCons(s[0], TagComments(s[1..]));
      TerminatorsCons(s[0], s[1..]);
      assert s == [s[0]] + s[1..];
      [s[0]] + TagComments(s[1..])
  }

  /** Pass 2 changes its input exactly when it holds "//". */
  lemma {:induction false} TagCommentsChanges(t: string)
    ensures !HasSlashPair(t) ==> TagComments(t) == t
    ensures HasSlashPair(t) ==> |TagComments(t)| > |t|
    decreases |t|
  {
    if t != [] {
      if StartsWith(t, "//") {
        assert t[..2][0] == '/' && t[..2][1] == '/';
        var k := LineEnd(t);
        TagCommentsChanges(t[k..]);
      } else {
        TagCommentsChanges(t[1..]);
      }
    }
  }

  // ---------------------------------------------------------------------------
  // Passes 3 and 4: a listed word between word boundaries is wrapped in a span

  /** The characters of `\w`, against which `\b` is decided. */
  predicate IsWordChar(c: char)
  {
    ('a' <= c <= 'z') || ('A' <= c <= 'Z') || ('0' <= c <= '9') || c == '_'
  }

  predicate IsWord(w: string)
  {
    |w| > 0 && forall i :: 0 <= i < |w| ==> IsWordChar(w[i])
  }

  predicate NonEmptyWords(words: seq<string>)
  {
    forall w :: w in words ==> |w| > 0
  }

  predicate ValidWords(words: seq<string>)
  {
    forall w :: w in words ==> IsWord(w)
  }

  const Keywords: seq<string> := [
    "void", "int", "double", "bool", "string", "class", "public", "private", "protected",
    "virtual", "override", "return", "if", "else", "for", "while", "do", "break", "continue",
    "switch", "case", "default", "struct", "enum", "input", "sinput"]

  const MqlKeywords: seq<string> := [
    "OnInit", "OnDeinit", "OnTick", "Print", "Alert", "OrderSend", "SymbolInfoDouble",
    "PositionSelect", "PositionGetDouble", "PositionGetInteger", "CTrade",
    "MqlTradeRequest", "MqlTradeResult"]

  /** `\b` between a character whose wordness is `prevWord` and the text `rest`. */
  predicate BoundaryAt(prevWord: bool, rest: string)
  {
    prevWord != (|rest| > 0 && IsWordChar(rest[0]))
  }

  /** The alternatives tried in order: the first `w` with `s` starting with `w` and `\b` after it. */
  function MatchAlternative(words: seq<string>, s: string): (r: Option<string>)
    requires NonEmptyWords(words)
    ensures r.Some? ==> r.value in words && StartsWith(s, r.value)
    ensures r.Some? ==> BoundaryAt(IsWordChar(r.value[|r.value| - 1]), s[|r.value|..])
    ensures r.None? ==> forall w :: w in words && StartsWith(s, w) ==> !BoundaryAt(IsWordChar(w[|w| - 1]), s[|w|..])
  {
    if words == [] then None
    else
      var w := words[0];
      if StartsWith(s, w) && BoundaryAt(IsWordChar(w[|w| - 1]), s[|w|..]) then Some(w)
      else MatchAlternative(words[1..], s)
  }

  /**
   * One keyword pass. `prevWord` is whether the character before `s` in the
   * scanned string is a word character (false at its start).
   */
  function TagWords(s: string, words: seq<string>, open: string, prevWord: bool): (r: string)
    requires ValidWords(words)
    ensures |r| >= |s|
    ensures NoTerminator(open) ==> Terminators(r) == Terminators(s)
    decreases |s|
  {
    if s == [] then []
    else
      var m := if BoundaryAt(prevWord, s) then MatchAlternative(words, s) else None;
      if m.Some? then
        var w := m.value;
        var rest := TagWords(s[|w|..], words, open, IsWordChar(w[|w| - 1]));
        assert IsWord(w) && s[..|w|] == w;
        WrapKeepsTerminators(open, w);
        TerminatorsAppend(Wrap(open, w), rest);
        TerminatorsDrop(s, |w|);
        Wrap(open, w) + rest
      else
        var rest := TagWords(s[1..], words, open, IsWordChar(s[0]));
        TerminatorsCons(s[0], rest);
        TerminatorsCons(s[0], s[1..]);
        assert s == [s[0]] + s[1..];
        [s[0]] + rest
  }

  /** The maximal run of word characters at the start of `s`. */
  function WordRun(s: string): (w: string)
    ensures |w| <= |s| && w == s[..|w|]
    ensures forall i :: 0 <= i < |w| ==> IsWordChar(w[i])
    ensures |w| < |s| ==> !IsWordChar(s[|w|])
  {
    if s == [] || !IsWordChar(s[0]) then []
    else
      var w := [s[0]] + WordRun(s[1..]);
      assert s[..|w|] == [s[0]] + s[1..][..|w| - 1];
      w
  }

  lemma PrefixChar(s: string, p: string, i: nat)
    requires StartsWith(s, p) && i < |p|
    ensures s[i] == p[i]
  {
    assert s[..|p|][i] == s[i];
  }

  /** A word that starts `s` and is followed by a boundary is exactly the word run of `s`. */
  lemma WordRunUnique(s: string, w: string)
    requires IsWord(w)
    ensures (StartsWith(s, w) && (|w| == |s| || !IsWordChar(s[|w|]))) <==> w == WordRun(s)
  {
    var r := WordRun(s);
    if StartsWith(s, w) && (|w| == |s| || !IsWordChar(s[|w|])) {
      if |w| < |r| {
        PrefixChar(s, r, |w|);
        assert false;
      }
      if |r| < |w| {
        PrefixChar(s, w, |r|);
        assert false;
      }
      assert s[..|w|] == s[..|r|];
    }
  }

  /** Keyword alternatives match whole words only, whatever their order in the list. */
  lemma {:induction false} MatchIsWholeWord(words: seq<string>, s: string)
    requires ValidWords(words)
    ensures MatchAlternative(words, s) == if WordRun(s) in words then Some(WordRun(s)) else None
  {
    if words != [] {
      var w := words[0];
      WordRunUnique(s, w);
      assert IsWordChar(w[|w| - 1]);
      if StartsWith(s, w) && |w| < |s| {
        assert s[|w|..][0] == s[|w|];
      }
      MatchIsWholeWord(words[1..], s);
      assert words == [w] + words[1..];
    }
  }

  /** No listed word stands as a whole word in `t` (preceded by a non-word character or, if `prevWord` is false, the start). */
  predicate NoWholeWord(t: string, words: seq<string>, prevWord: bool)
    decreases |t|
  {
    t == [] || ((prevWord || WordRun(t) !in words) && NoWholeWord(t[1..], words, IsWordChar(t[0])))
  }

  /** A keyword pass changes its input exactly when a listed word stands in it as a whole word. */
  lemma {:induction false} TagWordsChanges(t: string, words: seq<string>, open: string, pw: bool)
    requires ValidWords(words)
    ensures NoWholeWord(t, words, pw) ==> TagWords(t, words, open, pw) == t
    ensures !NoWholeWord(t, words, pw) ==> |TagWords(t, words, open, pw)| > |t|
    decreases |t|
  {
    if t != [] {
      MatchIsWholeWord(words, t);
      var m := if BoundaryAt(pw, t) then MatchAlternative(words, t) else None;
      assert m.Some? <==> !pw && WordRun(t) in words;
      if m.Some? {
        var w := m.value;
        TagWordsChanges(t[|w|..], words, open, IsWordChar(w[|w| - 1]));
      } else {
        TagWordsChanges(t[1..], words, open, IsWordChar(t[0]));
      }
    }
  }

  // ---------------------------------------------------------------------------
  // The whole highlighter

  /** A non-empty `\w` word other than the entity names "amp", "lt" and "gt". */
  predicate Listable(w: string)
  {
    IsWord(w) && w != "amp" && w != "lt" && w != "gt"
  }

  lemma KeywordsWords1()
    ensures Listable("void") && Listable("int") && Listable("double") && Listable("bool") && Listable("string")
  {
  }

  lemma KeywordsWords2()
    ensures Listable("class") && Listable("public") && Listable("private") && Listable("protected") && Listable("virtual")
  {
  }

  lemma KeywordsWords3()
    ensures Listable("override") && Listable("return") && Listable("if") && Listable("else") && Listable("for")
  {
  }

  lemma KeywordsWords4()
    ensures Listable("while") && Listable("do") && Listable("break") && Listable("continue") && Listable("switch")
  {
  }

  lemma KeywordsWords5()
    ensures Listable("case") && Listable("default") && Listable("struct") && Listable("enum") && Listable("input")
    ensures Listable("sinput")
  {
  }

  lemma MqlWords1()
    ensures Listable("OnInit") && Listable("OnDeinit") && Listable("OnTick") && Listable("Print") && Listable("Alert")
  {
  }

  lemma MqlWords2()
    ensures Listable("OrderSend") && Listable("SymbolInfoDouble") && Listable("PositionSelect")
    ensures Listable("PositionGetDouble")
  {
  }

  lemma MqlWords3()
    ensures Listable("PositionGetInteger") && Listable("CTrade") && Listable("MqlTradeRequest")
    ensures Listable("MqlTradeResult")
  {
  }

  /** Both lists hold only non-empty words of `\w` characters, and none is an entity name. */
  lemma KeywordsListable()
    ensures forall w :: w in Keywords ==> Listable(w)
  {
    KeywordsWords1();
    KeywordsWords2();
    KeywordsWords3();
    KeywordsWords4();
    KeywordsWords5();
  }

  lemma MqlKeywordsListable()
    ensures forall w :: w in MqlKeywords ==> Listable(w)
  {
    MqlWords1();
    MqlWords2();
    MqlWords3();
  }

  lemma KeywordListsValid()
    ensures ValidWords(Keywords) && ValidWords(MqlKeywords)
    ensures "amp" !in Keywords && "lt" !in Keywords && "gt" !in Keywords
    ensures "amp" !in MqlKeywords && "lt" !in MqlKeywords && "gt" !in MqlKeywords
  {
    KeywordsListable();
    MqlKeywordsListable();
  }


  /**
   * The highlighter: escaping, then the four passes in order. None of them
   * adds or drops a line break, so the markup shows the code's lines.
   */
  function Highlight(code: string): (r: string)
    ensures Terminators(r) == Terminators(code)
  {
    KeywordListsValid();
    OpenTagsOnOneLine();
    EscapeIsCharwise(code);
    EscapeKeepsTerminators(code);
    TagStringsKeepsTerminators(Escape(code));
    var strings := TagStrings(Escape(code));
    var comments := TagComments(strings);
    var keywords := TagWords(comments, Keywords, KeywordOpen, false);
    TagWords(keywords, MqlKeywords, MqlOpen, false)
  }

  /** Escaping keeps the line breaks. */
  lemma {:induction false} EscapeKeepsTerminators(s: string)
    ensures Terminators(EscapeEach(s)) == Terminators(s)
    decreases |s|
  {
    if s != [] {
      EscapeKeepsTerminators(s[1..]);
      TerminatorsAppend(EscapeChar(s[0]), EscapeEach(s[1..]));
      EscapeCharTerminators(s[0]);
      TerminatorsCons(s[0], s[1..]);
      assert s == [s[0]] + s[1..];
    }
  }

  /** An entity holds no line terminator; any other character escapes to itself. */
  lemma EscapeCharTerminators(c: char)
    ensures Terminators(EscapeChar(c)) == if IsLineTerminator(c) then [c] else []
  {
    TerminatorsCons(c, []);
    assert [c] + [] == [c];
    if c == '&' || c == '<' || c == '>' {
      assert NoTerminator(EscapeChar(c));
    }
  }

  /** A string span adds no line break, though its text may run over several lines. */
  lemma {:induction false} TagStringsKeepsTerminators(s: string)
    ensures Terminators(TagStrings(s)) == Terminators(s)
    decreases |s|
  {
    if s != [] {
      if s[0] == '"' && QuoteIndex(s[1..]) < |s| - 1 {
        var k := QuoteIndex(s[1..]) + 2;
        TagStringsKeepsTerminators(s[k..]);
        OpenTagsOnOneLine();
        WrapKeepsTerminators(StringOpen, s[..k]);
        TerminatorsAppend(Wrap(StringOpen, s[..k]), TagStrings(s[k..]));
        TerminatorsAppend(s[..k], s[k..]);
        assert s == s[..k] + s[k..];
      } else {
        TagStringsKeepsTerminators(s[1..]);
        TerminatorsCons(s[0], TagStrings(s[1..]));
        TerminatorsCons(s[0], s[1..]);
        assert s == [s[0]] + s[1..];
      }
    }
  }

  // ---------------------------------------------------------------------------
  // What escaping does to the patterns of the later passes

  lemma {:induction false} CountAppend(a: string, b: string, c: char)
    ensures Count(a + b, c) == Count(a, c) + Count(b, c)
    decreases |a|
  {
    if a == [] {
      assert a + b == b;
    } else {
      assert (a + b)[0] == a[0] && (a + b)[1..] == a[1..] + b;
      CountAppend(a[1..], b, c);
    }
  }

  /** Escaping neither adds nor removes a double quote. */
  lemma {:induction false} EscapeKeepsQuotes(s: string)
    ensures Count(EscapeEach(s), '"') == Count(s, '"')
    decreases |s|
  {
    if s != [] {
      CountAppend(EscapeChar(s[0]), EscapeEach(s[1..]), '"');
      EscapeKeepsQuotes(s[1..]);
    }
  }

  /** A text that does not start with '/' has a "//" exactly when its tail has one. */
  lemma SlashPairStep(t: string)
    requires t != [] && t[0] != '/'
    ensures HasSlashPair(t) <==> HasSlashPair(t[1..])
  {
    if |t| >= 2 {
      assert t[..2][0] == t[0];
    }
  }

  lemma {:induction false} SlashPairAfterNoSlash(p: string, x: string)
    requires '/' !in p
    ensures HasSlashPair(p + x) <==> HasSlashPair(x)
    decreases |p|
  {
    if p != [] {
      assert (p + x)[0] == p[0] && (p + x)[1..] == p[1..] + x;
      SlashPairStep(p + x);
      SlashPairAfterNoSlash(p[1..], x);
    } else {
      assert p + x == x;
    }
  }


  lemma EscapeEachFirst(s: string)
    requires s != []
    ensures EscapeEach(s) != [] && (EscapeEach(s)[0] == '/' <==> s[0] == '/')
    ensures IsWordChar(EscapeEach(s)[0]) <==> IsWordChar(s[0])
  {
    assert EscapeEach(s)[0] == EscapeChar(s[0])[0];
  }

  /** Escaping creates no "//" and destroys none. */
  lemma {:induction false} EscapeKeepsSlashPairs(s: string)
    ensures HasSlashPair(EscapeEach(s)) <==> HasSlashPair(s)
    decreases |s|
  {
    if s != [] {
      var c, r := s[0], s[1..];
      var x := EscapeEach(r);
      EscapeKeepsSlashPairs(r);
      if c == '&' || c == '<' || c == '>' {
        SlashPairAfterNoSlash(EscapeChar(c), x);
        assert !StartsWith(s, "//") by {
          assert |s| >= 2 ==> s[..2][0] == c;
        }
        assert |s| < 2 ==> r == [];
      } else {
        var t := [c] + x;
        assert EscapeEach(s) == t;
        assert t[1..] == x;
        if r != [] {
          EscapeEachFirst(r);
          assert StartsWith(t, "//") <==> c == '/' && x[0] == '/' by {
            assert |t| >= 2 ==> t[..2] == [c, x[0]];
          }
          assert StartsWith(s, "//") <==> c == '/' && r[0] == '/' by {
            assert s[..2] == [c, r[0]];
          }
        } else {
          assert x == [];
        }
      }
    }
  }

  lemma {:induction false} WordRunAfterWordChar(c: char, x: string)
    requires IsWordChar(c)
    ensures WordRun([c] + x) == [c] + WordRun(x)
  {
    assert ([c] + x)[1..] == x;
  }

  /** Escaping keeps the word run at every start: entities begin with the non-word `&`. */
  lemma {:induction false} EscapeKeepsWordRun(s: string)
    ensures WordRun(EscapeEach(s)) == WordRun(s)
    decreases |s|
  {
    if s != [] {
      EscapeEachFirst(s);
      if IsWordChar(s[0]) {
        assert EscapeEach(s) == [s[0]] + EscapeEach(s[1..]);
        WordRunAfterWordChar(s[0], EscapeEach(s[1..]));
        WordRunAfterWordChar(s[0], s[1..]);
        assert s == [s[0]] + s[1..];
        EscapeKeepsWordRun(s[1..]);
      }
    }
  }

  /** A word run never crosses a non-word character. */
  lemma {:induction false} WordRunBeforeNonWord(a: string, b: string)
    requires a != [] && !IsWordChar(a[|a| - 1])
    ensures WordRun(a + b) == WordRun(a)
    decreases |a|
  {
    var t := a + b;
    assert t[0] == a[0];
    if IsWordChar(a[0]) {
      assert |a| > 1;
      assert t[1..] == a[1..] + b;
      WordRunBeforeNonWord(a[1..], b);
    }
  }

  /** The whole-word condition splits after a non-word character. */
  lemma {:induction false} NoWholeWordSplit(a: string, b: string, words: seq<string>, pw: bool)
    requires ValidWords(words)
    requires a != [] && !IsWordChar(a[|a| - 1])
    ensures NoWholeWord(a + b, words, pw) <==> NoWholeWord(a, words, pw) && NoWholeWord(b, words, false)
    decreases |a|
  {
    var t := a + b;
    WordRunBeforeNonWord(a, b);
    assert t[0] == a[0] && t[1..] == a[1..] + b;
    if |a| == 1 {
      assert t[1..] == b;
      assert !IsWordChar(t[0]);
      assert a[1..] == [];
    } else {
      NoWholeWordSplit(a[1..], b, words, IsWordChar(a[0]));
    }
  }

  /** Word characters that continue a word hide any listed word in them. */
  lemma {:induction false} ContinuedWordNoWholeWord(w: string, x: string, words: seq<string>)
    requires forall i :: 0 <= i < |w| ==> IsWordChar(w[i])
    requires NoWholeWord(x, words, true)
    ensures NoWholeWord(w + x, words, true)
    decreases |w|
  {
    if w == [] {
      assert w + x == x;
    } else {
      ContinuedWordNoWholeWord(w[1..], x, words);
      assert (w + x)[0] == w[0] && (w + x)[1..] == w[1..] + x;
    }
  }

  /** An entity "&name;" holds no whole listed word when its name is not listed. */
  lemma EntityNoWholeWord(name: string, words: seq<string>, pw: bool)
    requires IsWord(name) && ValidWords(words) && name !in words
    ensures NoWholeWord("&" + name + ";", words, pw)
  {
    var t := name + ";";
    assert ("&" + name + ";")[0] == '&' && ("&" + name + ";")[1..] == t;
    assert [] !in words;
    WordRunUnique(t, name);
    assert t[..|name|] == name;
    assert NoWholeWord(";", words, true) by {
      assert ";"[1..] == [];
    }
    ContinuedWordNoWholeWord(name[1..], ";", words);
    assert t[0] == name[0] && t[1..] == name[1..] + ";";
  }

  lemma EntityHasNoWholeWord(e: string, words: seq<string>, pw: bool)
    requires ValidWords(words) && "amp" !in words && "lt" !in words && "gt" !in words
    requires e == "&amp;" || e == "&lt;" || e == "&gt;"
    ensures NoWholeWord(e, words, pw)
  {
    if e == "&amp;" {
      EntityNoWholeWord("amp", words, pw);
      assert e == "&" + "amp" + ";";
    } else if e == "&lt;" {
      EntityNoWholeWord("lt", words, pw);
      assert e == "&" + "lt" + ";";
    } else {
      EntityNoWholeWord("gt", words, pw);
      assert e == "&" + "gt" + ";";
    }
  }


  /** Escaping neither creates nor hides a whole-word occurrence of a listed word. */
  lemma {:induction false} EscapeKeepsWholeWords(s: string, words: seq<string>, pw: bool)
    requires ValidWords(words) && "amp" !in words && "lt" !in words && "gt" !in words
    ensures NoWholeWord(EscapeEach(s), words, pw) <==> NoWholeWord(s, words, pw)
    decreases |s|
  {
    if s != [] {
      var c, r := s[0], s[1..];
      var x := EscapeEach(r);
      assert WordRun(s) == [] <== !IsWordChar(c);
      if c == '&' || c == '<' || c == '>' {
        var e := EscapeChar(c);
        EntityHasNoWholeWord(e, words, pw);
        NoWholeWordSplit(e, x, words, pw);
        EscapeKeepsWholeWords(r, words, false);
      } else {
        var t := [c] + x;
        assert EscapeEach(s) == t && t[0] == c && t[1..] == x;
        if IsWordChar(c) {
          WordRunAfterWordChar(c, x);
          WordRunAfterWordChar(c, r);
          assert s == [c] + r;
          EscapeKeepsWordRun(r);
        }
        EscapeKeepsWholeWords(r, words, IsWordChar(c));
      }
    }
  }

  // ---------------------------------------------------------------------------
  // The highlighter as a whole

  /**
   * The markup equals the bare escaped text exactly when the code holds at
   * most one double quote, no "//", and no listed word standing as a whole word.
   */
  lemma HighlightIsEscapeExactly(s: string)
    ensures Highlight(s) == Escape(s) <==>
      Count(s, '"') < 2 && !HasSlashPair(s) &&
      NoWholeWord(s, Keywords, false) && NoWholeWord(s, MqlKeywords, false)
  {
    KeywordListsValid();
    var e := Escape(s);
    EscapeIsCharwise(s);
    var a := TagStrings(e);
    var b := TagComments(a);
    var c := TagWords(b, Keywords, KeywordOpen, false);
    var d := TagWords(c, MqlKeywords, MqlOpen, false);
    assert Highlight(s) == d;
    StringsPassGrows(e);
    TagCommentsChanges(a);
    TagWordsChanges(b, Keywords, KeywordOpen, false);
    TagWordsChanges(c, MqlKeywords, MqlOpen, false);
    GrowingChain(e, a, b, c, d);
    EscapeKeepsQuotes(s);
    EscapeKeepsSlashPairs(s);
    EscapeKeepsWholeWords(s, Keywords, false);
    EscapeKeepsWholeWords(s, MqlKeywords, false);
  }

  /** Pass 1 only inserts markup, so a change makes the text longer. */
  lemma StringsPassGrows(e: string)
    ensures |TagStrings(e)| >= |e|
    ensures TagStrings(e) != e ==> |TagStrings(e)| > |e|
    ensures TagStrings(e) == e <==> Count(e, '"') < 2
  {
    assert |StringOpen| + |Close| == 36;
    TagStringsChanges(e);
  }

  /** Passes that never shorten their input leave it as it was exactly when each of them does. */
  lemma GrowingChain(e: string, a: string, b: string, c: string, d: string)
    requires |e| <= |a| <= |b| <= |c| <= |d|
    requires a != e ==> |a| > |e|
    requires b != a ==> |b| > |a|
    requires c != b ==> |c| > |b|
    requires d != c ==> |d| > |c|
    ensures d == e <==> a == e && b == a && c == b && d == c
  {
  }


  lemma {:induction false} InsideWordNoWholeWord(t: string, words: seq<string>)
    requires forall i :: 0 <= i < |t| ==> IsWordChar(t[i])
    ensures NoWholeWord(t, words, true)
    decreases |t|
  {
    if t != [] {
      InsideWordNoWholeWord(t[1..], words);
    }
  }

  /**
   * Keyword passes match whole words only: a word that is not listed stays
   * untagged even when a listed word is a prefix of it.
   */
  lemma UnlistedWordUntagged(w: string)
    requires IsWord(w) && w !in Keywords && w !in MqlKeywords
    ensures Highlight(w) == w
  {
    assert EscapeEach(w) == w by {
      EscapeOfWord(w);
    }
    EscapeIsCharwise(w);
    assert '"' !in w && '/' !in w;
    assert !HasSlashPair(w) by {
      SlashPairAfterNoSlash(w, []);
      assert w + [] == w;
    }
    assert WordRun(w) == w by {
      WordRunUnique(w, w);
    }
    InsideWordNoWholeWord(w[1..], Keywords);
    InsideWordNoWholeWord(w[1..], MqlKeywords);
    HighlightIsEscapeExactly(w);
  }

  lemma {:induction false} EscapeOfWord(w: string)
    requires forall i :: 0 <= i < |w| ==> IsWordChar(w[i])
    ensures EscapeEach(w) == w
    decreases |w|
  {
    if w != [] {
      EscapeOfWord(w[1..]);
      assert w == [w[0]] + w[1..];
    }
  }

  /** "integer" begins with the keyword "int" but is not tagged. */
  lemma IntegerUntagged(w: string)
    requires w == "integer"
    ensures Highlight(w) == w
  {
    assert IsWord(w);
    assert w !in Keywords && w !in MqlKeywords;
    UnlistedWordUntagged(w);
  }

  /** "OnTickX" begins with the MQL5 name "OnTick" but is not tagged. */
  lemma OnTickXUntagged(w: string)
    requires w == "OnTickX"
    ensures Highlight(w) == w
  {
    assert IsWord(w);
    assert w !in Keywords && w !in MqlKeywords;
    UnlistedWordUntagged(w);
  }

  // ---------------------------------------------------------------------------
  // Later passes scan the markup of earlier ones

  /** A quoted run with no quote inside is wrapped whole by pass 1. */
  lemma QuotedRunTagged(m: string)
    requires '"' !in m
    ensures TagStrings("\"" + m + "\"") == Wrap(StringOpen, "\"" + m + "\"")
  {
    var s := "\"" + m + "\"";
    var t := s[1..];
    assert t == m + "\"" && t[|m|] == '"';
    var k := QuoteIndex(t);
    assert s[..k + 2] == s && s[k + 2..] == [];
  }

  /** Text with no listed whole word that ends in a non-word character passes a keyword pass unchanged. */
  lemma {:induction false} TagWordsPlain(a: string, b: string, words: seq<string>, open: string, pw: bool)
    requires ValidWords(words)
    requires a != [] && !IsWordChar(a[|a| - 1]) && NoWholeWord(a, words, pw)
    ensures TagWords(a + b, words, open, pw) == a + TagWords(b, words, open, false)
    decreases |a|
  {
    if |a| == 1 {
      TagWordsPlainLast(a, b, words, open, pw);
    } else {
      TagWordsPlainTail(a, words, pw);
      TagWordsPlain(a[1..], b, words, open, IsWordChar(a[0]));
      TagWordsPlainCons(a, b, words, open, pw);
    }
  }

  /** The rest of such text after its first character is such text again. */
  lemma TagWordsPlainTail(a: string, words: seq<string>, pw: bool)
    requires |a| > 1 && !IsWordChar(a[|a| - 1]) && NoWholeWord(a, words, pw)
    ensures a[1..] != [] && !IsWordChar(a[1..][|a[1..]| - 1]) && NoWholeWord(a[1..], words, IsWordChar(a[0]))
  {
  }

  /** A single non-word character is copied and leaves `\b` reset. */
  lemma TagWordsPlainLast(a: string, b: string, words: seq<string>, open: string, pw: bool)
    requires ValidWords(words)
    requires |a| == 1 && !IsWordChar(a[0]) && NoWholeWord(a, words, pw)
    ensures TagWords(a + b, words, open, pw) == a + TagWords(b, words, open, false)
  {
    TagWordsPlainStep(a, b, words, open, pw);
    assert a[1..] + b == b && a == [a[0]];
  }

  /** The induction step: the first character is copied, the rest by hypothesis. */
  lemma TagWordsPlainCons(a: string, b: string, words: seq<string>, open: string, pw: bool)
    requires ValidWords(words)
    requires |a| > 1 && !IsWordChar(a[|a| - 1]) && NoWholeWord(a, words, pw)
    requires TagWords(a[1..] + b, words, open, IsWordChar(a[0])) == a[1..] + TagWords(b, words, open, false)
    ensures TagWords(a + b, words, open, pw) == a + TagWords(b, words, open, false)
  {
    TagWordsPlainStep(a, b, words, open, pw);
    var x := TagWords(b, words, open, false);
    assert [a[0]] + (a[1..] + x) == a + x;
  }

  /** The first character of such text is copied, whichever way `\b` falls. */
  lemma TagWordsPlainStep(a: string, b: string, words: seq<string>, open: string, pw: bool)
    requires ValidWords(words)
    requires a != [] && !IsWordChar(a[|a| - 1]) && NoWholeWord(a, words, pw)
    ensures TagWords(a + b, words, open, pw) == [a[0]] + TagWords(a[1..] + b, words, open, IsWordChar(a[0]))
  {
    var t := a + b;
    assert t[0] == a[0] && t[1..] == a[1..] + b;
    assert !BoundaryAt(pw, t) || MatchAlternative(words, t) == None by {
      assert [] !in words;
      WordRunBeforeNonWord(a, b);
      MatchIsWholeWord(words, t);
    }
  }

  /** A listed word at a boundary, followed by a non-word character, is wrapped. */
  lemma TagWordToken(w: string, rest: string, words: seq<string>, open: string)
    requires ValidWords(words) && w in words
    requires rest != [] && !IsWordChar(rest[0])
    ensures TagWords(w + rest, words, open, false) == Wrap(open, w) + ([rest[0]] + TagWords(rest[1..], words, open, false))
  {
    var t := w + rest;
    assert IsWord(w) && t[0] == w[0] && t[|w|..] == rest;
    assert MatchAlternative(words, rest) == None by {
      assert [] !in words;
      MatchIsWholeWord(words, rest);
    }
    assert TagWords(rest, words, open, true) == [rest[0]] + TagWords(rest[1..], words, open, false);
    assert MatchAlternative(words, t) == Some(w) by {
      assert t[..|w|] == w;
      WordRunUnique(t, w);
      MatchIsWholeWord(words, t);
    }
  }

  /** A run of non-word characters before text with no listed whole word adds none. */
  lemma {:induction false} NoWholeWordAfterNonWords(p: string, x: string, words: seq<string>, pw: bool)
    requires ValidWords(words) && NoWholeWord(x, words, false)
    requires forall i :: 0 <= i < |p| ==> !IsWordChar(p[i])
    ensures NoWholeWord(p + x, words, pw)
    decreases |p|
  {
    if p == [] {
      assert p + x == x;
      assert pw ==> x == [] || NoWholeWord(x[1..], words, IsWordChar(x[0]));
    } else {
      var t := p + x;
      assert t[0] == p[0] && t[1..] == p[1..] + x;
      assert [] !in words;
      NoWholeWordAfterNonWords(p[1..], x, words, false);
    }
  }

  /** An unlisted word ended by a non-word character (or the end) adds no listed whole word. */
  lemma NoWholeWordAfterUnlisted(w: string, x: string, words: seq<string>, pw: bool)
    requires ValidWords(words) && IsWord(w) && w !in words
    requires (x == [] || !IsWordChar(x[0])) && NoWholeWord(x, words, true)
    ensures NoWholeWord(w + x, words, pw)
  {
    var t := w + x;
    assert t[..|w|] == w && t[1..] == w[1..] + x;
    WordRunUnique(t, w);
    ContinuedWordNoWholeWord(w[1..], x, words);
  }

  /** No capital letter: text an MQL5 name cannot stand in. */
  predicate NoCapitals(t: string)
  {
    forall i :: 0 <= i < |t| ==> !('A' <= t[i] <= 'Z')
  }

  /** Every MQL5 name starts with a capital letter. */
  predicate Capitalised(words: seq<string>)
  {
    forall w :: w in words ==> |w| > 0 && 'A' <= w[0] <= 'Z'
  }

  lemma MqlKeywordsCapitalised()
    ensures Capitalised(MqlKeywords)
  {
  }

  lemma {:induction false} NoCapitalsNoWholeWord(t: string, words: seq<string>, pw: bool)
    requires NoCapitals(t) && Capitalised(words)
    ensures NoWholeWord(t, words, pw)
    decreases |t|
  {
    if t != [] {
      var w := WordRun(t);
      NoCapitalsNoWholeWord(t[1..], words, IsWordChar(t[0]));
    }
  }

  /** Characters passes 1 and 2 and escaping leave alone when the text holds none of them. */
  predicate Inert(m: string)
  {
    '"' !in m && '/' !in m && '&' !in m && '<' !in m && '>' !in m
  }

  lemma StringOpenNoSlash(t: string)
    requires t == StringOpen
    ensures '/' !in t
  {
  }

  lemma CloseNoSlashPair(t: string)
    requires t == Close
    ensures !HasSlashPair(t)
  {
    var u := t[1..];
    assert t[0] == '<' && u == "/" + "span>" && u[1] == 's' && u[..2][1] == u[1];
    SlashPairAfterNoSlash("span>", []);
    assert "span>" + [] == "span>" && u[1..] == "span>";
    SlashPairStep(t);
  }

  /** Passes 1 and 2 wrap a quoted run of inert text in one string span and add nothing else. */
  lemma QuotedInertPasses(s: string, m: string)
    requires s == "\"" + m + "\"" && Inert(m)
    ensures TagComments(TagStrings(Escape(s))) == StringOpen + s + Close
  {
    assert '&' !in s && '<' !in s && '>' !in s;
    ReplaceCharAbsent(s, '&', "&amp;");
    ReplaceCharAbsent(s, '<', "&lt;");
    ReplaceCharAbsent(s, '>', "&gt;");
    QuotedRunTagged(m);
    StringOpenNoSlash(StringOpen);
    CloseNoSlashPair(Close);
    assert '/' !in StringOpen + s;
    SlashPairAfterNoSlash(StringOpen + s, Close);
    TagCommentsChanges(StringOpen + s + Close);
  }

  /**
   * A keyword pass over text made of untagged stretches and two listed words,
   * each ended by a non-word character, wraps exactly the two words.
   */
  lemma TagTwoWords(a: string, w1: string, e: char, b: string, w2: string, f: char, z: string,
                    words: seq<string>, open: string)
    requires ValidWords(words) && w1 in words && w2 in words
    requires a != [] && !IsWordChar(a[|a| - 1]) && NoWholeWord(a, words, false)
    requires b != [] && !IsWordChar(b[|b| - 1]) && NoWholeWord(b, words, false)
    requires !IsWordChar(e) && !IsWordChar(f) && NoWholeWord(z, words, false)
    ensures TagWords(a + (w1 + ([e] + (b + (w2 + ([f] + z))))), words, open, false) ==
      a + (Wrap(open, w1) + ([e] + (b + (Wrap(open, w2) + ([f] + z)))))
  {
    var r2 := [f] + z;
    var r1 := [e] + (b + (w2 + r2));
    TagWordsChanges(z, words, open, false);
    assert r2[0] == f && r2[1..] == z;
    TagWordToken(w2, r2, words, open);
    TagWordsPlain(b, w2 + r2, words, open, false);
    assert r1[0] == e && r1[1..] == b + (w2 + r2);
    TagWordToken(w1, r1, words, open);
    TagWordsPlain(a, w1 + r1, words, open, false);
  }

  /** Text without capital letters passes a pass over capitalised names unchanged. */
  lemma NoCapitalsUntouched(t: string, words: seq<string>, open: string)
    requires NoCapitals(t) && ValidWords(words) && Capitalised(words)
    ensures TagWords(t, words, open, false) == t
  {
    NoCapitalsNoWholeWord(t, words, false);
    TagWordsChanges(t, words, open, false);
  }

  /**
   * Keywords inside a string literal are tagged as well: the string span's own
   * markup holds the word "class", which pass 3 wraps like any other keyword.
   */
  lemma KeywordInsideString(s: string)
    requires s == "\"return\""
    ensures Highlight(s) == "<span " + (Wrap(KeywordOpen, "class") + ("=" + ("\"text-green-400\">\"" +
      (Wrap(KeywordOpen, "return") + ("\"" + Close)))))
  {
    KeywordListsValid();
    var y := "<span " + (Wrap(KeywordOpen, "class") + ("=" + ("\"text-green-400\">\"" +
      (Wrap(KeywordOpen, "return") + ("\"" + Close)))));
    assert TagComments(TagStrings(Escape(s))) == StringOpen + s + Close by {
      assert Inert("return") && s == "\"" + "return" + "\"";
      QuotedInertPasses(s, "return");
    }
    assert TagWords(StringOpen + s + Close, Keywords, KeywordOpen, false) == y by {
      UnlistedMarkupWords();
      KeywordsAtHand();
      KeywordPassOnString(s, Keywords);
    }
    assert TagWords(y, MqlKeywords, MqlOpen, false) == y by {
      MarkupHasNoCapitals(y, "<span ", "\"text-green-400\">\"");
      MqlKeywordsCapitalised();
      NoCapitalsUntouched(y, MqlKeywords, MqlOpen);
    }
  }

  /** Pass 3 on the string span around the quoted word: "class" and "return" are wrapped. */
  lemma KeywordPassOnString(s: string, words: seq<string>)
    requires s == "\"return\"" && ValidWords(words) && "class" in words && "return" in words
    requires "span" !in words && "text" !in words && "green" !in words && "400" !in words
    ensures TagWords(StringOpen + s + Close, words, KeywordOpen, false) ==
      "<span " + (Wrap(KeywordOpen, "class") + ("=" + ("\"text-green-400\">\"" +
      (Wrap(KeywordOpen, "return") + ("\"" + Close)))))
  {
    var a, b := "<span ", "\"text-green-400\">\"";
    assert StringOpen + s + Close == a + ("class" + ("=" + (b + ("return" + ("\"" + Close))))) by {
      StringSpanPieces(s, a, b);
    }
    assert NoWholeWord(a, words, false) && NoWholeWord(b, words, false) && NoWholeWord(Close, words, false) by {
      OpeningTagUnlisted(a, words);
      ClassValueUnlisted(b, words);
      CloseUnlisted(Close, words);
    }
    TagTwoWords(a, "class", '=', b, "return", '"', Close, words, KeywordOpen);
  }

  lemma KeywordsAtHand()
    ensures "class" in Keywords && "return" in Keywords
  {
  }

  /** The quoted word inside its string span, cut where pass 3 sees words. */
  lemma StringSpanPieces(s: string, a: string, b: string)
    requires s == "\"return\"" && a == "<span " && b == "\"text-green-400\">\""
    ensures StringOpen + s + Close == a + ("class" + ("=" + (b + ("return" + ("\"" + Close)))))
  {
    var b0 := "\"text-green-400\">";
    StringOpenPieces(StringOpen, a, b0);
    assert s == "\"" + ("return" + "\"") && b == b0 + "\"";
    Reassociate(a, "class", "=", b0, "\"", "return", "\"", Close);
  }

  lemma StringOpenPieces(t: string, a: string, b0: string)
    requires t == StringOpen && a == "<span " && b0 == "\"text-green-400\">"
    ensures t == a + ("class" + ("=" + b0))
  {
  }

  lemma Reassociate(a: string, c: string, e: string, b0: string, q: string, r: string, q2: string, z: string)
    ensures (a + (c + (e + b0))) + (q + (r + q2)) + z == a + (c + (e + ((b0 + q) + (r + (q2 + z)))))
  {
  }

  lemma OpeningTagUnlisted(a: string, words: seq<string>)
    requires a == "<span " && ValidWords(words) && "span" !in words
    ensures NoWholeWord(a, words, false)
  {
    NoWholeWordAfterNonWords(" ", [], words, true);
    assert " " + [] == " ";
    NoWholeWordAfterUnlisted("span", " ", words, false);
    NoWholeWordAfterNonWords("<", "span" + " ", words, false);
    assert a == "<" + ("span" + " ");
  }

  lemma CloseUnlisted(c: string, words: seq<string>)
    requires c == Close && ValidWords(words) && "span" !in words
    ensures NoWholeWord(c, words, false)
  {
    NoWholeWordAfterNonWords(">", [], words, true);
    assert ">" + [] == ">";
    NoWholeWordAfterUnlisted("span", ">", words, false);
    NoWholeWordAfterNonWords("</", "span" + ">", words, false);
    assert c == "</" + ("span" + ">");
  }

  lemma ClassValueUnlisted(b: string, words: seq<string>)
    requires b == "\"text-green-400\">\"" && ValidWords(words)
    requires "text" !in words && "green" !in words && "400" !in words
    ensures NoWholeWord(b, words, false)
  {
    var r1 := "-" + ("400" + "\">\"");
    ClassValueTail(words);
    var q2 := "green" + r1;
    NoWholeWordAfterUnlisted("green", r1, words, false);
    var q1 := "-" + q2;
    NoWholeWordAfterNonWords("-", q2, words, true);
    var q0 := "text" + q1;
    NoWholeWordAfterUnlisted("text", q1, words, false);
    NoWholeWordAfterNonWords("\"", q0, words, false);
    ClassValueSplit(b);
  }

  lemma ClassValueTail(words: seq<string>)
    requires ValidWords(words) && "400" !in words
    ensures NoWholeWord("-" + ("400" + "\">\""), words, true)
  {
    var r3 := "\">\"";
    NoWholeWordAfterNonWords(r3, [], words, true);
    assert r3 + [] == r3;
    var r2 := "400" + r3;
    NoWholeWordAfterUnlisted("400", r3, words, false);
    NoWholeWordAfterNonWords("-", r2, words, true);
  }

  lemma ClassValueSplit(b: string)
    requires b == "\"text-green-400\">\""
    ensures b == "\"" + ("text" + ("-" + ("green" + ("-" + ("400" + "\">\"")))))
  {
  }

  lemma UnlistedMarkupWords()
    ensures "span" !in Keywords && "text" !in Keywords && "green" !in Keywords && "400" !in Keywords
  {
    Unlisted("span");
    Unlisted("text");
    Unlisted("green");
    Unlisted("400");
  }

  lemma Unlisted(w: string)
    requires w == "span" || w == "text" || w == "green" || w == "400"
    ensures w !in Keywords
  {
  }

  lemma {:induction false} NoCapitalsAppend(x: string, y: string)
    ensures NoCapitals(x + y) <==> NoCapitals(x) && NoCapitals(y)
  {
    if NoCapitals(x) && NoCapitals(y) {
      forall i | 0 <= i < |x + y|
        ensures !('A' <= (x + y)[i] <= 'Z')
      {
        if i >= |x| {
          assert (x + y)[i] == y[i - |x|];
        }
      }
    }
    if NoCapitals(x + y) {
      forall i | 0 <= i < |x|
        ensures !('A' <= x[i] <= 'Z')
      {
        assert (x + y)[i] == x[i];
      }
      forall i | 0 <= i < |y|
        ensures !('A' <= y[i] <= 'Z')
      {
        assert (x + y)[|x| + i] == y[i];
      }
    }
  }

  lemma KeywordOpenNoCapitals(t: string)
    requires t == KeywordOpen
    ensures NoCapitals(t)
  {
  }

  /** The output of pass 3 on the string span holds no capital letter. */
  lemma MarkupHasNoCapitals(y: string, a: string, b: string)
    requires a == "<span " && b == "\"text-green-400\">\""
    requires y == a + (Wrap(KeywordOpen, "class") + ("=" + (b + (Wrap(KeywordOpen, "return") + ("\"" + Close)))))
    ensures NoCapitals(y)
  {
    KeywordOpenNoCapitals(KeywordOpen);
    assert NoCapitals(a) && NoCapitals(b) && NoCapitals(Close) && NoCapitals("=") && NoCapitals("\"");
    WrapNoCapitals(KeywordOpen, "class");
    WrapNoCapitals(KeywordOpen, "return");
    var t4 := Wrap(KeywordOpen, "return") + ("\"" + Close);
    NoCapitalsAppend("\"", Close);
    NoCapitalsAppend(Wrap(KeywordOpen, "return"), "\"" + Close);
    NoCapitalsAppend(b, t4);
    NoCapitalsAppend("=", b + t4);
    NoCapitalsAppend(Wrap(KeywordOpen, "class"), "=" + (b + t4));
    NoCapitalsAppend(a, Wrap(KeywordOpen, "class") + ("=" + (b + t4)));
  }

  lemma WrapNoCapitals(open: string, w: string)
    requires NoCapitals(open) && NoCapitals(w) && NoCapitals(Close)
    ensures NoCapitals(Wrap(open, w))
  {
    NoCapitalsAppend(open, w);
    NoCapitalsAppend(open + w, Close);
  }
}
