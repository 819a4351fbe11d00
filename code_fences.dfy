/**
 * The fence stripper of components/CodeViewer.tsx. A missing or empty reply
 * gives the empty text; any other reply goes through two global replacements
 * with the empty string: the first deletes "```mql5", else "```c", else "```"
 * wherever a line starts, the second deletes a "```" that fills a whole line.
 * Each regular expression is modelled as its own left-to-right scanner with
 * JavaScript's global-replace semantics: matches are leftmost and
 * non-overlapping, replaced text is never rescanned, and with the `m` flag
 * `^` holds at the start of the input and right after a line terminator OF
 * THE STRING BEING SCANNED, `$` at its end and right before a line terminator.
 */
module CodeFences {
  import opened Wrappers
  import opened Strings

  /** JavaScript's line terminators: LF, CR, LINE SEPARATOR, PARAGRAPH SEPARATOR. */
  predicate IsLineTerminator(c: char)
  {
    c == '\n' || c == '\r' || c == '\U{2028}' || c == '\U{2029}'
  }

  predicate NoTerminator(s: string)
  {
    forall i :: 0 <= i < |s| ==> !IsLineTerminator(s[i])
  }

  const Fence: string := "```"

  /**
   * Pass one: at a line start, delete "```mql5", else "```c", else "```". `atLineStart`
   * says whether `^` holds at the current position; after a match it does
   * not, since the last matched character is not a line terminator.
   */
  function StripOpeningFences(s: string, atLineStart: bool): (r: string)
    ensures |r| <= |s|
    decreases |s|
  {
    if s == [] then []
    else if atLineStart && StartsWith(s, "```mql5") then StripOpeningFences(s[7..], false)
    else if atLineStart && StartsWith(s, "```c") then StripOpeningFences(s[4..], false)
    else if atLineStart && StartsWith(s, Fence) then StripOpeningFences(s[3..], false)
    else [s[0]] + StripOpeningFences(s[1..], IsLineTerminator(s[0]))
  }

  /** Pass two: delete a "```" that fills its line; the end-of-line test only looks ahead, so the terminator stays. */
  function StripBareFences(s: string, atLineStart: bool): (r: string)
    ensures |r| <= |s|
    decreases |s|
  {
    if s == [] then []
    else if atLineStart && StartsWith(s, Fence) && (|s| == 3 || IsLineTerminator(s[3])) then
      StripBareFences(s[3..], false)
    else [s[0]] + StripBareFences(s[1..], IsLineTerminator(s[0]))
  }

  /** Both passes over a non-empty text: characters may go, but never a line terminator, so the lines stay. */
  function Clean(s: string): (r: string)
    ensures |r| <= |s|
    ensures Terminators(r) == Terminators(s)
  {
    var first := StripOpeningFences(s, true);
    OpeningKeepsTerminators(s, true);
    BareKeepsTerminators(first, true);
    StripBareFences(first, true)
  }

  /** `cleanCode`: null and "" are falsy and give ""; any other text goes through both passes. */
  function CleanCode(code: Option<string>): (r: string)
    ensures code.None? || code == Some("") ==> r == ""
    ensures code.Some? ==> r == Clean(code.value)
  {
    if code.None? || code.value == "" then "" else Clean(code.value)
  }

  // ---------------------------------------------------------------------------
  // A line-by-line reference definition

  /** What pass one does to one line: drop "```mql5", else "```c", else "```" at its start. */
  function OpeningFenceLine(l: string): (r: string)
    ensures !StartsWith(l, Fence) ==> r == l
    ensures StartsWith(l, Fence) ==> |r| <= |l| - 3 && r == l[|l| - |r|..]
  {
    if StartsWith(l, "```mql5") then l[7..]
    else if StartsWith(l, "```c") then l[4..]
    else if StartsWith(l, Fence) then l[3..]
    else l
  }

  /** What pass two does to one line: a line that is exactly "```" becomes empty. */
  function BareFenceLine(l: string): (r: string)
    ensures r == l || (l == Fence && r == "")
  {
    if l == Fence then "" else l
  }

  /** Both passes on one line; a line not starting with "```" is unchanged, any other loses a prefix. */
  function CleanLine(l: string): (r: string)
    ensures !StartsWith(l, Fence) ==> r == l
    ensures |r| <= |l| && r == l[|l| - |r|..]
  {
    BareFenceLine(OpeningFenceLine(l))
  }

  /** Index of the first line terminator of `s`, or |s| if there is none. */
  function LineEnd(s: string): (k: nat)
    ensures k <= |s| && NoTerminator(s[..k])
    ensures k < |s| ==> IsLineTerminator(s[k])
  {
    if s == [] then 0
    else if IsLineTerminator(s[0]) then 0
    else
      var k := 1 + LineEnd(s[1..]);
      assert s[..k] == [s[0]] + s[1..][..k - 1];
      k
  }

  /** Reference: split at every line terminator, clean each line, keep the terminators. */
  function CleanByLines(s: string): string
    decreases |s|
  {
    var k := LineEnd(s);
    if k == |s| then CleanLine(s)
    else CleanLine(s[..k]) + [s[k]] + CleanByLines(s[k + 1..])
  }

  // ---------------------------------------------------------------------------
  // The scanners agree with the reference

  lemma StartsWithAcrossTerminator(l: string, t: char, rest: string, p: string)
    requires NoTerminator(l) && IsLineTerminator(t) && NoTerminator(p)
    ensures StartsWith(l + [t] + rest, p) <==> StartsWith(l, p)
  {
    var s := l + [t] + rest;
    if |l| < |p| <= |s| {
      assert s[..|p|][|l|] == t;
      assert !IsLineTerminator(p[|l|]);
    }
    if |p| <= |l| {
      assert s[..|p|] == l[..|p|];
    }
  }

  lemma {:induction false} OpeningUnchangedMidLine(s: string)
    requires NoTerminator(s)
    ensures StripOpeningFences(s, false) == s
    decreases |s|
  {
    if s != [] {
      OpeningUnchangedMidLine(s[1..]);
    }
  }

  lemma {:induction false} BareUnchangedMidLine(s: string)
    requires NoTerminator(s)
    ensures StripBareFences(s, false) == s
    decreases |s|
  {
    if s != [] {
      BareUnchangedMidLine(s[1..]);
    }
  }

  /** Both tagged fences begin with the bare fence. */
  lemma TaggedFencesStartWithFence(s: string)
    ensures StartsWith(s, "```mql5") ==> StartsWith(s, Fence)
    ensures StartsWith(s, "```c") ==> StartsWith(s, Fence)
  {
    if StartsWith(s, "```mql5") {
      assert s[..3] == s[..7][..3];
    }
    if StartsWith(s, "```c") {
      assert s[..3] == s[..4][..3];
    }
  }

  /** Prepending one character on both sides of a split at `t`. */
  lemma ConsSplit(x: string, y: string, z: string, a: char, p: string, t: char, r: string)
    requires x == [a] + y && y == p + [t] + r && z == [a] + p
    ensures x == z + [t] + r
  {
  }

  /** Pass one keeps the first character when no fence starts at a line start there. */
  lemma OpeningKeepStep(s: string, b: bool)
    requires s != [] && !(b && StartsWith(s, Fence))
    ensures StripOpeningFences(s, b) == [s[0]] + StripOpeningFences(s[1..], IsLineTerminator(s[0]))
  {
    TaggedFencesStartWithFence(s);
  }

  /** The remainder of `l + [t] + rest` after its first character, for non-empty `l`. */
  lemma TailOfSplit(l: string, t: char, rest: string)
    requires l != []
    ensures (l + [t] + rest)[0] == l[0] && (l + [t] + rest)[1..] == l[1..] + [t] + rest
  {
  }

  /** The induction step of pass one when the first character is kept. */
  lemma OpeningSplitKeep(l: string, t: char, rest: string, b: bool)
    requires NoTerminator(l) && IsLineTerminator(t) && l != []
    requires !(b && StartsWith(l, Fence))
    requires StripOpeningFences(l[1..] + [t] + rest, IsLineTerminator(l[0]))
          == StripOpeningFences(l[1..], IsLineTerminator(l[0])) + [t] + StripOpeningFences(rest, true)
    ensures StripOpeningFences(l + [t] + rest, b)
         == StripOpeningFences(l, b) + [t] + StripOpeningFences(rest, true)
  {
    StartsWithAcrossTerminator(l, t, rest, Fence);
    TailOfSplit(l, t, rest);
    OpeningKeepStep(l + [t] + rest, b);
    OpeningKeepStep(l, b);
    var c := IsLineTerminator(l[0]);
    ConsSplit(StripOpeningFences(l + [t] + rest, b), StripOpeningFences(l[1..] + [t] + rest, c),
      StripOpeningFences(l, b), l[0], StripOpeningFences(l[1..], c), t, StripOpeningFences(rest, true));
  }

  /** How many characters pass one removes at a line start: "```mql5", else "```c", else "```", else none. */
  function OpeningMatch(s: string): (n: nat)
    ensures n <= |s|
    ensures n > 0 <==> StartsWith(s, Fence)
  {
    TaggedFencesStartWithFence(s);
    if StartsWith(s, "```mql5") then 7
    else if StartsWith(s, "```c") then 4
    else if StartsWith(s, Fence) then 3
    else 0
  }

  /** The fence matched at the start of a line does not depend on the lines after it. */
  lemma OpeningMatchAcrossTerminator(l: string, t: char, rest: string)
    requires NoTerminator(l) && IsLineTerminator(t)
    ensures OpeningMatch(l + [t] + rest) == OpeningMatch(l)
  {
    StartsWithAcrossTerminator(l, t, rest, "```mql5");
    StartsWithAcrossTerminator(l, t, rest, "```c");
    StartsWithAcrossTerminator(l, t, rest, Fence);
  }

  /** At a line start, pass one drops the matched fence and goes on mid-line. */
  lemma OpeningDropStep(s: string)
    requires OpeningMatch(s) > 0
    ensures StripOpeningFences(s, true) == StripOpeningFences(s[OpeningMatch(s)..], false)
  {
  }

  /** The induction step of pass one when a fence is dropped at a line start. */
  lemma OpeningSplitDrop(l: string, t: char, rest: string)
    requires NoTerminator(l) && IsLineTerminator(t) && OpeningMatch(l) > 0
    requires StripOpeningFences(l[OpeningMatch(l)..] + [t] + rest, false)
          == StripOpeningFences(l[OpeningMatch(l)..], false) + [t] + StripOpeningFences(rest, true)
    ensures StripOpeningFences(l + [t] + rest, true)
         == StripOpeningFences(l, true) + [t] + StripOpeningFences(rest, true)
  {
    OpeningDropAcrossTerminator(l, t, rest);
    OpeningDropStep(l);
  }

  /** A fence dropped at the start of the first line is the fence of that line alone. */
  lemma OpeningDropAcrossTerminator(l: string, t: char, rest: string)
    requires NoTerminator(l) && IsLineTerminator(t) && OpeningMatch(l) > 0
    ensures StripOpeningFences(l + [t] + rest, true) == StripOpeningFences(l[OpeningMatch(l)..] + [t] + rest, false)
  {
    var s, n := l + [t] + rest, OpeningMatch(l);
    assert s[n..] == l[n..] + [t] + rest;
    OpeningMatchAcrossTerminator(l, t, rest);
    OpeningDropStep(s);
  }

  /** Pass one never looks past a line terminator. */
  lemma {:induction false} OpeningSplitsAtTerminator(l: string, t: char, rest: string, b: bool)
    requires NoTerminator(l) && IsLineTerminator(t)
    ensures StripOpeningFences(l + [t] + rest, b)
         == StripOpeningFences(l, b) + [t] + StripOpeningFences(rest, true)
    decreases |l|
  {
    var s := l + [t] + rest;
    if l == [] {
      assert s == [t] + rest;
      assert s[1..] == rest;
    } else if b && OpeningMatch(l) > 0 {
      OpeningSplitsAtTerminator(l[OpeningMatch(l)..], t, rest, false);
      OpeningSplitDrop(l, t, rest);
    } else {
      OpeningSplitsAtTerminator(l[1..], t, rest, IsLineTerminator(l[0]));
      OpeningSplitKeep(l, t, rest, b);
    }
  }

  /** Pass two keeps the first character when no whole-line fence starts there. */
  lemma BareKeepStep(s: string, b: bool)
    requires s != [] && !(b && StartsWith(s, Fence) && (|s| == 3 || IsLineTerminator(s[3])))
    ensures StripBareFences(s, b) == [s[0]] + StripBareFences(s[1..], IsLineTerminator(s[0]))
  {
  }

  /** The induction step of pass two when the first character is kept. */
  lemma BareSplitKeep(l: string, t: char, rest: string, b: bool)
    requires NoTerminator(l) && IsLineTerminator(t) && l != []
    requires !(b && StartsWith(l, Fence) && |l| == 3)
    requires StripBareFences(l[1..] + [t] + rest, IsLineTerminator(l[0]))
          == StripBareFences(l[1..], IsLineTerminator(l[0])) + [t] + StripBareFences(rest, true)
    ensures StripBareFences(l + [t] + rest, b)
         == StripBareFences(l, b) + [t] + StripBareFences(rest, true)
  {
    var s := l + [t] + rest;
    StartsWithAcrossTerminator(l, t, rest, Fence);
    TailOfSplit(l, t, rest);
    assert !(b && StartsWith(s, Fence) && (|s| == 3 || IsLineTerminator(s[3])));
    BareKeepStep(s, b);
    BareKeepStep(l, b);
    var c := IsLineTerminator(l[0]);
    ConsSplit(StripBareFences(s, b), StripBareFences(l[1..] + [t] + rest, c),
      StripBareFences(l, b), l[0], StripBareFences(l[1..], c), t, StripBareFences(rest, true));
  }

  /** Pass two never looks past a line terminator either; `$` only peeks at it. */
  lemma {:induction false} BareSplitsAtTerminator(l: string, t: char, rest: string, b: bool)
    requires NoTerminator(l) && IsLineTerminator(t)
    ensures StripBareFences(l + [t] + rest, b)
         == StripBareFences(l, b) + [t] + StripBareFences(rest, true)
    decreases |l|
  {
    var s := l + [t] + rest;
    if l == [] {
      assert s == [t] + rest;
      assert s[1..] == rest;
    } else if b && StartsWith(l, Fence) && |l| == 3 {
      StartsWithAcrossTerminator(l, t, rest, Fence);
      assert s[3] == t;
      assert s[3..] == [t] + rest;
      assert l[3..] == [];
      BareSplitsAtTerminator(l[3..], t, rest, false);
    } else {
      BareSplitsAtTerminator(l[1..], t, rest, IsLineTerminator(l[0]));
      BareSplitKeep(l, t, rest, b);
    }
  }

  /** On a single line (no terminator), pass one is the line function. */
  lemma OpeningOneLine(l: string)
    requires NoTerminator(l)
    ensures StripOpeningFences(l, true) == OpeningFenceLine(l)
  {
    if StartsWith(l, "```mql5") {
      OpeningUnchangedMidLine(l[7..]);
    } else if StartsWith(l, "```c") {
      OpeningUnchangedMidLine(l[4..]);
    } else if StartsWith(l, Fence) {
      OpeningUnchangedMidLine(l[3..]);
    } else if l != [] {
      OpeningUnchangedMidLine(l[1..]);
    }
  }

  /** On a single line, pass two is the line function. */
  lemma BareOneLine(m: string)
    requires NoTerminator(m)
    ensures StripBareFences(m, true) == BareFenceLine(m)
  {
    if m == Fence {
      assert m[3..] == [];
    } else if m != [] {
      BareUnchangedMidLine(m[1..]);
    }
  }

  /** On a single line, both passes act as `CleanLine`. */
  lemma CleanOneLine(l: string)
    requires NoTerminator(l)
    ensures NoTerminator(OpeningFenceLine(l))
    ensures Clean(l) == CleanLine(l)
  {
    OpeningOneLine(l);
    var m := OpeningFenceLine(l);
    assert m == l[|l| - |m|..];
    BareOneLine(m);
  }

  /** Both passes together split at a line terminator: the line before it is cleaned on its own. */
  lemma CleanSplitsAtTerminator(l: string, t: char, rest: string)
    requires NoTerminator(l) && IsLineTerminator(t)
    ensures Clean(l + [t] + rest) == CleanLine(l) + [t] + Clean(rest)
  {
    CleanOneLine(l);
    OpeningOneLine(l);
    BareOneLine(OpeningFenceLine(l));
    OpeningSplitsAtTerminator(l, t, rest, true);
    BareSplitsAtTerminator(OpeningFenceLine(l), t, StripOpeningFences(rest, true), true);
  }

  /** The scanners clean each line independently: the reference definition is exact. */
  lemma {:induction false} CleanIsLineWise(s: string)
    ensures Clean(s) == CleanByLines(s)
    decreases |s|
  {
    var k := LineEnd(s);
    if k == |s| {
      assert s[..k] == s;
      CleanOneLine(s);
    } else {
      assert s == s[..k] + [s[k]] + s[k + 1..];
      CleanSplitsAtTerminator(s[..k], s[k], s[k + 1..]);
      CleanIsLineWise(s[k + 1..]);
    }
  }

  // ---------------------------------------------------------------------------
  // Consequences

  /** The line terminators of `s`, in order. */
  function Terminators(s: string): (r: string)
    ensures NoTerminator(s) ==> r == []
  {
    if s == [] then []
    else (if IsLineTerminator(s[0]) then [s[0]] else []) + Terminators(s[1..])
  }

  lemma {:induction false} TerminatorsAppend(a: string, b: string)
    ensures Terminators(a + b) == Terminators(a) + Terminators(b)
    decreases |a|
  {
    if a == [] {
      assert a + b == b;
    } else {
      assert (a + b)[0] == a[0] && (a + b)[1..] == a[1..] + b;
      TerminatorsAppend(a[1..], b);
      var h := if IsLineTerminator(a[0]) then [a[0]] else [];
      assert Terminators(a + b) == h + Terminators(a[1..] + b);
      assert Terminators(a) == h + Terminators(a[1..]);
    }
  }

  lemma TerminatorsCons(c: char, x: string)
    ensures Terminators([c] + x) == (if IsLineTerminator(c) then [c] else []) + Terminators(x)
  {
    assert ([c] + x)[0] == c && ([c] + x)[1..] == x;
  }

  /** Dropping a prefix that holds no line terminator keeps the terminators. */
  lemma TerminatorsDrop(s: string, n: nat)
    requires n <= |s| && NoTerminator(s[..n])
    ensures Terminators(s[n..]) == Terminators(s)
  {
    TerminatorsAppend(s[..n], s[n..]);
    assert s == s[..n] + s[n..];
  }

  /** Pass one deletes only fence characters, never a line terminator. */
  lemma {:induction false} OpeningKeepsTerminators(s: string, b: bool)
    ensures Terminators(StripOpeningFences(s, b)) == Terminators(s)
    decreases |s|
  {
    if s == [] {
    } else if b && StartsWith(s, "```mql5") {
      TerminatorsDrop(s, 7);
      OpeningKeepsTerminators(s[7..], false);
    } else if b && StartsWith(s, "```c") {
      TerminatorsDrop(s, 4);
      OpeningKeepsTerminators(s[4..], false);
    } else if b && StartsWith(s, Fence) {
      TerminatorsDrop(s, 3);
      OpeningKeepsTerminators(s[3..], false);
    } else {
      OpeningKeepsTerminators(s[1..], IsLineTerminator(s[0]));
      TerminatorsCons(s[0], StripOpeningFences(s[1..], IsLineTerminator(s[0])));
      TerminatorsCons(s[0], s[1..]);
      assert s == [s[0]] + s[1..];
    }
  }

  /** Pass two deletes only a bare fence, and the terminator after it stays. */
  lemma {:induction false} BareKeepsTerminators(s: string, b: bool)
    ensures Terminators(StripBareFences(s, b)) == Terminators(s)
    decreases |s|
  {
    if s == [] {
    } else if b && StartsWith(s, Fence) && (|s| == 3 || IsLineTerminator(s[3])) {
      TerminatorsDrop(s, 3);
      BareKeepsTerminators(s[3..], false);
    } else {
      BareKeepsTerminators(s[1..], IsLineTerminator(s[0]));
      TerminatorsCons(s[0], StripBareFences(s[1..], IsLineTerminator(s[0])));
      TerminatorsCons(s[0], s[1..]);
      assert s == [s[0]] + s[1..];
    }
  }

  /** Some line of `s` starts with "```": the text does, or the text after a line terminator does. */
  predicate FenceAtLineStart(s: string)
  {
    StartsWith(s, Fence) || exists i :: 0 <= i < |s| && IsLineTerminator(s[i]) && StartsWith(s[i + 1..], Fence)
  }

  /** Text in which no line starts with "```" is returned unchanged; a "```" elsewhere in a line stays. */
  lemma {:induction false} CleanWithoutFence(s: string)
    requires !FenceAtLineStart(s)
    ensures Clean(s) == s
    decreases |s|
  {
    var k := LineEnd(s);
    var l := s[..k];
    assert !StartsWith(l, Fence);
    if k == |s| {
      assert l == s;
      CleanOneLine(s);
    } else {
      var rest := s[k + 1..];
      assert !FenceAtLineStart(rest) by {
        assert !StartsWith(s[k + 1..], Fence);
        forall i | 0 <= i < |rest| && IsLineTerminator(rest[i])
          ensures !StartsWith(rest[i + 1..], Fence)
        {
          assert rest[i] == s[k + 1 + i] && rest[i + 1..] == s[k + 1 + i + 1..];
        }
      }
      assert s == l + [s[k]] + rest;
      CleanSplitsAtTerminator(l, s[k], rest);
      CleanWithoutFence(rest);
    }
  }

  // ---------------------------------------------------------------------------
  // The behaviour on concrete inputs, as written

  /**
   * A reply fenced as "```mql5", one code line, "```" keeps an empty first
   * and last line: only the fence characters go.
   */
  lemma FencedReply(body: string)
    requires NoTerminator(body) && !StartsWith(body, Fence)
    ensures CleanCode(Some("```mql5\n" + body + "\n```")) == "\n" + body + "\n"
  {
    TaggedFenceLineEmpty("```mql5");
    FenceLinesAround("```mql5", body);
    assert "```mql5\n" + body + "\n```" == "```mql5" + ['\n'] + (body + ['\n'] + Fence);
  }

  /** An opening line that cleans to nothing, one code line, and a closing fence line. */
  lemma FenceLinesAround(opening: string, body: string)
    requires NoTerminator(opening) && CleanLine(opening) == ""
    requires NoTerminator(body) && !StartsWith(body, Fence)
    ensures Clean(opening + ['\n'] + (body + ['\n'] + Fence)) == ['\n'] + body + ['\n']
  {
    ClosingFenceLine(body);
    CleanSplitsAtTerminator(opening, '\n', body + ['\n'] + Fence);
  }

  /** The tagged fence is a line by itself and cleans to nothing. */
  lemma TaggedFenceLineEmpty(l: string)
    requires l == "```mql5"
    ensures NoTerminator(l) && CleanLine(l) == ""
  {
    assert l[..7] == "```mql5";
  }

  /** A code line followed by a closing fence line keeps the code line and an empty last line. */
  lemma ClosingFenceLine(body: string)
    requires NoTerminator(body) && !StartsWith(body, Fence)
    ensures Clean(body + ['\n'] + Fence) == body + ['\n']
  {
    CleanSplitsAtTerminator(body, '\n', Fence);
    CleanOneLine(Fence);
    assert CleanLine(Fence) == "";
  }

  /** The reply of a typical request: "```mql5\nvoid OnTick(){}\n```" cleans to "\nvoid OnTick(){}\n". */
  lemma OnTickReply(body: string)
    requires body == "void OnTick(){}"
    ensures CleanCode(Some("```mql5\n" + body + "\n```")) == "\n" + body + "\n"
  {
    assert body[0] == 'v';
    FencedReply(body);
  }

  /** The match is anchored only at the line start, not the whole line: "```cpp" loses "```c". */
  lemma LanguageTagPrefixOnly(s: string)
    requires s == "```cpp"
    ensures Clean(s) == "pp"
  {
    assert NoTerminator(s);
    CleanOneLine(s);
    assert !StartsWith(s, "```mql5") by {
      assert s[3] == 'c';
    }
    assert s[..4] == "```c";
    assert OpeningFenceLine(s) == s[4..] == "pp";
  }

  /** Pass one removes the first "```" of "``````"; pass two removes the "```" that is left. */
  lemma DoubleFence(s: string)
    requires s == "``````"
    ensures Clean(s) == ""
  {
    assert NoTerminator(s);
    CleanOneLine(s);
    assert !StartsWith(s, "```mql5") && !StartsWith(s, "```c") by {
      assert s[3] == '`';
    }
    assert s[..3] == Fence;
    assert OpeningFenceLine(s) == s[3..] == Fence;
  }

  /** One "```" too many: pass one only removes the first fence, so "``````mql5" keeps "```mql5". */
  lemma DoubleFenceWithTag(s: string)
    requires s == "``````mql5"
    ensures Clean(s) == "```mql5"
  {
    assert NoTerminator(s);
    CleanOneLine(s);
    assert !StartsWith(s, "```mql5") && !StartsWith(s, "```c") by {
      assert s[3] == '`';
    }
    assert s[..3] == Fence;
    assert OpeningFenceLine(s) == s[3..] == "```mql5";
  }

  /** A tagged fence line is emptied by pass one. */
  lemma TaggedFenceLine(s: string)
    requires s == "```mql5"
    ensures Clean(s) == ""
  {
    TaggedFenceLineEmpty(s);
    CleanOneLine(s);
  }

  /** Cleaning is not idempotent. */
  lemma CleanNotIdempotent(s: string)
    requires s == "``````mql5"
    ensures Clean(Clean(s)) != Clean(s)
  {
    DoubleFenceWithTag(s);
    TaggedFenceLine(Clean(s));
  }
}
