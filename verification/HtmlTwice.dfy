/** Sanitising what was already sanitised (src/research_policy.rs). A first call that completes leaves nothing for
    the second to remove. One that stops at an unclosed tag leaves that tag in its output, squeezed to single
    spaces, where the second call stops again, unless the slice of its first bytes has come to cut a character.
    The two texts are compared for all inputs, and so are the panics. */
module HtmlTwice {
  import opened Collections
  import opened Outcomes
  import opened Text
  import opened WhiteSpace
  import opened HtmlText

  /** What the scan has put out, and still pushes again, when it stops at an unclosed tag; empty when it
      completes. */
  ghost function ShownBefore(source: string, cut: Cutter): string
    requires Cuts(cut)
    decreases |source|
  {
    var start := IndexOf(source, '<');
    if start == |source| then ""
    else match cut(source[start..])
      case None => source[..start]
      case Some(n) =>
        if Closes(source[start..][n..], cut) then "" else source[..start] + ShownBefore(source[start..][n..], cut)
  }

  /** The source from the tag on at which the scan stops; empty when it completes. */
  ghost function Stopped(source: string, cut: Cutter): string
    requires Cuts(cut)
    decreases |source|
  {
    var start := IndexOf(source, '<');
    if start == |source| then ""
    else match cut(source[start..])
      case None => source[start..]
      case Some(n) => Stopped(source[start..][n..], cut)
  }

  lemma Joined(a: string, b: string, c: string)
    ensures a + (b + c) == a + b + c
    ensures NonBlank(a + b) == "" <==> NonBlank(a) == "" && NonBlank(b) == ""
  {
    NonBlankOfConcat(a, b);
  }

  /** A scan that does not complete leaves text without an opener, then the unclosed tag and all after it. */
  lemma {:induction false} Unfinished(source: string, cut: Cutter) returns (before: string)
    requires Cuts(cut) && !Closes(source, cut)
    ensures var rest := Stopped(source, cut);
            && Scan(source, cut) == before + rest
            && '<' !in before && rest != "" && rest[0] == '<' && cut(rest) == None
    ensures NonBlank(before) == "" <==> NonBlank(ShownBefore(source, cut)) == ""
    decreases |source|
  {
    var start := IndexOf(source, '<');
    var text := source[..start];
    match cut(source[start..])
    case None =>
      before := text + text;
      assert source == text + source[start..];
      Joined(text, text, source[start..]);
    case Some(n) =>
      var later := source[start..][n..];
      ScanCut(source, cut, n);
      var tail := Unfinished(later, cut);
      before := text + tail;
      Joined(text, tail, Stopped(later, cut));
      Joined(text, ShownBefore(later, cut), Stopped(later, cut));
  }

  // ---- squeezing neither makes nor breaks a closer ----

  /** A pattern as the scanner uses them: lower case, no white space. */
  predicate Plain(pattern: string) {
    pattern != "" && forall k :: 0 <= k < |pattern| ==> !IsSpace(pattern[k]) && Lower(pattern[k]) == pattern[k]
  }

  lemma LowerSpace(c: char)
    ensures IsSpace(Lower(c)) <==> IsSpace(c)
  {
  }

  /** The text a pattern matched. */
  lemma Matched(s: string, i: nat, pattern: string) returns (p: string)
    requires Plain(pattern) && MatchesAt(s, i, pattern)
    ensures p != "" && NoSpace(p) && OccursAt(s, i, p)
    ensures forall t, j: nat :: OccursAt(t, j, p) ==> MatchesAt(t, j, pattern)
  {
    p := s[i..i + |pattern|];
    forall k | 0 <= k < |p| ensures !IsSpace(p[k]) && Lower(p[k]) == pattern[k] {
      assert Lower(s[i + k]) == pattern[k];
      LowerSpace(s[i + k]);
    }
    forall t, j: nat | OccursAt(t, j, p) ensures MatchesAt(t, j, pattern) {
      forall k | 0 <= k < |pattern| ensures Lower(t[j + k]) == pattern[k] {
        assert t[j + k] == p[k];
      }
    }
  }

  lemma MatchedBefore(r: string, i: nat, pattern: string) returns (j: nat)
    requires Plain(pattern) && MatchesAt(Squeeze(r, false), i, pattern)
    ensures MatchesAt(r, j, pattern)
  {
    var p := Matched(Squeeze(r, false), i, pattern);
    j := SqueezedWord(r, false, i, p);
  }

  lemma NothingNew(r: string, pattern: string)
    requires Plain(pattern) && FindFrom(r, 0, pattern) == None
    ensures FindFrom(Squeeze(r, false), 0, pattern) == None
  {
    var q := Squeeze(r, false);
    forall i: nat | i <= |q| ensures !MatchesAt(q, i, pattern) {
      if MatchesAt(q, i, pattern) {
        var j := MatchedBefore(r, i, pattern);
      }
    }
  }

  lemma {:induction false} WordStays(s: string, inWord: bool, p: string)
    requires NoSpace(p) && OccursAt(s, 0, p) && (p != "" || inWord)
    ensures OccursAt(Squeeze(s, inWord), 0, p)
  {
    if p != "" {
      var rest := p[1..];
      assert s[0 + 0] == p[0];
      forall k | 0 <= k < |rest| ensures s[1..][0 + k] == rest[k] {
        assert s[0 + (k + 1)] == p[k + 1];
      }
      WordStays(s[1..], true, rest);
      var t, u := Squeeze(s, inWord), Squeeze(s[1..], true);
      assert t == [s[0]] + u;
      forall k | 0 <= k < |p| ensures t[0 + k] == p[k] {
        if k > 0 {
          assert u[0 + (k - 1)] == rest[k - 1];
        }
      }
    }
  }

  lemma SameStart(r: string, pattern: string)
    requires Plain(pattern) && r != "" && !IsSpace(r[0])
    ensures MatchesAt(Squeeze(r, false), 0, pattern) <==> MatchesAt(r, 0, pattern)
  {
    var q := Squeeze(r, false);
    if MatchesAt(r, 0, pattern) {
      var p := Matched(r, 0, pattern);
      WordStays(r, false, p);
    }
    if MatchesAt(q, 0, pattern) {
      var p := Matched(q, 0, pattern);
      SqueezeKeepsStart(r, p);
    }
  }

  lemma PlainPatterns()
    ensures Plain(SCRIPT) && Plain(STYLE) && Plain(END_SCRIPT) && Plain(END_STYLE)
  {
  }

  /** A text squeezed keeps its opener, and a closer that it lacks stays missing. */
  lemma SameOpener(r: string)
    requires r != "" && !IsSpace(r[0])
    ensures MatchesAt(Squeeze(r, false), 0, SCRIPT) <==> MatchesAt(r, 0, SCRIPT)
    ensures MatchesAt(Squeeze(r, false), 0, STYLE) <==> MatchesAt(r, 0, STYLE)
  {
    PlainPatterns();
    SameStart(r, SCRIPT);
    SameStart(r, STYLE);
  }

  lemma StillMissing(r: string)
    ensures FindFrom(r, 0, END_SCRIPT) == None ==> FindFrom(Squeeze(r, false), 0, END_SCRIPT) == None
    ensures FindFrom(r, 0, END_STYLE) == None ==> FindFrom(Squeeze(r, false), 0, END_STYLE) == None
    ensures IndexOf(r, '>') == |r| ==> IndexOf(Squeeze(r, false), '>') == |Squeeze(r, false)|
  {
    var q := Squeeze(r, false);
    PlainPatterns();
    if FindFrom(r, 0, END_SCRIPT) == None { NothingNew(r, END_SCRIPT); }
    if FindFrom(r, 0, END_STYLE) == None { NothingNew(r, END_STYLE); }
    SqueezeKeepsNonBlank(r, false);
    NonBlankHas(r, '>');
    NonBlankHas(q, '>');
  }

  /** An unclosed tag stays unclosed. */
  lemma UnclosedStays(r: string)
    requires r != "" && r[0] == '<' && Removed(r) == None
    ensures Removed(Squeeze(r, false)) == None
  {
    SameOpener(r);
    StillMissing(r);
  }

  // ---- the second time ----

  lemma SanitizedIsSqueezed(input: string)
    ensures Sanitized(input) == Squeeze(Scan(input, Removed), false)
  {
    SqueezeJoinsWords(Scan(input, Removed));
  }

  lemma TwiceCompleted(input: string)
    requires Completes(input)
    ensures Sanitized(Sanitized(input)) == Sanitized(input)
  {
    var out := Sanitized(input);
    CleanWhenComplete(input);
    assert Scan(out, Removed) == out;
    SanitizedIsSqueezed(input);
    SanitizedIsSqueezed(out);
    SqueezeTwice(Scan(input, Removed));
  }

  /** The scan of text without an opener, then an unclosed tag, doubles the text. */
  lemma ScanDoubles(b: string, q: string, cut: Cutter)
    requires Cuts(cut) && '<' !in b && q != "" && q[0] == '<' && cut(q) == None
    ensures Scan(b + q, cut) == b + (b + q)
  {
    var all := b + q;
    assert all[|b|] == '<' && forall i :: 0 <= i < |b| ==> all[i] == b[i];
    assert IndexOf(all, '<') == |b|;
    assert all[|b|..] == q && all[..|b|] == b;
  }

  lemma SqueezedParts(before: string, rest: string) returns (b: string)
    requires '<' !in before && rest != "" && rest[0] == '<'
    ensures Squeeze(before + rest, false) == b + Squeeze(rest, false)
    ensures '<' !in b && NonBlank(b) == NonBlank(before) && SingleSpaced(b + Squeeze(rest, false))
  {
    b := SqueezeSplits(before, rest, false);
    NonBlankHas(b, '<');
    NonBlankHas(before, '<');
    SqueezeIsSingleSpaced(before + rest, false);
  }

  /** What a call returns when its scan does not complete: text without an opener, then the unclosed tag and all
      after it, squeezed. */
  lemma OutputParts(input: string, rest: string) returns (b: string)
    requires !Completes(input) && rest == Stopped(input, Removed)
    ensures Sanitized(input) == b + Squeeze(rest, false) && SingleSpaced(b + Squeeze(rest, false))
    ensures '<' !in b && (NonBlank(b) == "" <==> NonBlank(ShownBefore(input, Removed)) == "")
    ensures rest != "" && rest[0] == '<' && Removed(rest) == None
  {
    var before := Unfinished(input, Removed);
    SanitizedIsSqueezed(input);
    b := SqueezedParts(before, rest);
  }

  lemma StillTag(rest: string)
    requires rest != "" && rest[0] == '<'
    ensures Squeeze(rest, false) != "" && Squeeze(rest, false)[0] == '<'
  {
    assert !IsSpace('<');
  }

  lemma TwiceParts(b: string, rest: string)
    requires '<' !in b && rest != "" && rest[0] == '<' && Removed(rest) == None
    requires SingleSpaced(b + Squeeze(rest, false))
    ensures var out := b + Squeeze(rest, false); Sanitized(out) == out <==> NonBlank(b) == ""
  {
    var q := Squeeze(rest, false);
    UnclosedStays(rest);
    StillTag(rest);
    ScanDoubles(b, q, Removed);
    SanitizedIsSqueezed(b + q);
    Doubled(b, q);
  }

  lemma TwiceUnfinished(input: string)
    requires !Completes(input)
    ensures Sanitized(Sanitized(input)) == Sanitized(input) <==> NonBlank(ShownBefore(input, Removed)) == ""
  {
    var rest := Stopped(input, Removed);
    var b := OutputParts(input, rest);
    TwiceParts(b, rest);
  }

  lemma Doubled(b: string, q: string)
    requires SingleSpaced(b + q)
    ensures Squeeze(b + (b + q), false) == b + q <==> NonBlank(b) == ""
  {
    if b + q != "" {
      StartsWithWord(b + q);
    }
    assert b != "" ==> b[0] == (b + q)[0];
    if NonBlank(b) == "" {
      assert b == "" && b + (b + q) == b + q;
      SqueezeKeepsSingleSpaced(b + q);
    } else {
      SqueezeKeepsNonBlank(b + (b + q), false);
      NonBlankOfConcat(b, b + q);
      NonBlankOfConcat(b, q);
    }
  }

  /** On the text, sanitising again changes nothing exactly when the first scan completed, or showed only white
      space before the tag it stopped at. */
  lemma SanitizingTextTwice(input: string)
    ensures Sanitized(Sanitized(input)) == Sanitized(input)
            <==> Completes(input) || NonBlank(ShownBefore(input, Removed)) == ""
  {
    if Completes(input) {
      TwiceCompleted(input);
    } else {
      TwiceUnfinished(input);
    }
  }

  // ---- two calls, either of which may panic ----

  /** The outcome of a second call on what a first call returned. */
  ghost function Again(input: string): Option<string> {
    match Outcome(input)
    case None => None
    case Some(text) => Outcome(text)
  }

  lemma CleanNeverPanics(text: string)
    requires '<' !in text
    ensures AtEveryTag(text, Removed, Sliceable)
  {
  }

  /** A text that starts with a tag never closed, and shows nothing before it. */
  lemma UnclosedAlone(text: string)
    requires text != "" && text[0] == '<' && Removed(text) == None
    ensures Sanitized(text) == Squeeze(text, false)
    ensures AtEveryTag(text, Removed, Sliceable) <==> Sliceable(text)
  {
    assert IndexOf(text, '<') == 0 && text[0..] == text && text[..0] + text == text;
    SanitizedIsSqueezed(text);
  }

  lemma BlankStart(b: string, q: string)
    requires SingleSpaced(b + q) && NonBlank(b) == ""
    ensures b + q == q
  {
    if b != "" {
      StartsWithWord(b + q);
    }
  }

  lemma SlicedAlone(rest: string)
    requires rest != "" && rest[0] == '<' && Removed(rest) == None
    ensures AtEveryTag(Squeeze(rest, false), Removed, Sliceable) <==> Sliceable(Squeeze(rest, false))
  {
    UnclosedStays(rest);
    StillTag(rest);
    UnclosedAlone(Squeeze(rest, false));
  }

  /** With only white space shown before it, the tag at which the scan stops is all that a call returns. */
  lemma TagAlone(input: string)
    requires !Completes(input) && NonBlank(ShownBefore(input, Removed)) == ""
    ensures Sanitized(input) == Squeeze(Stopped(input, Removed), false)
    ensures AtEveryTag(Sanitized(input), Removed, Sliceable) <==> Sliceable(Squeeze(Stopped(input, Removed), false))
  {
    var rest := Stopped(input, Removed);
    var b := OutputParts(input, rest);
    BlankStart(b, Squeeze(rest, false));
    SlicedAlone(rest);
  }

  /** Two calls both return the same text exactly when the first does not panic and, unless its scan completed,
      it showed only white space before the tag it stopped at, and that tag can be sliced again once its white
      space is squeezed. */
  lemma SanitizingTwice(input: string)
    ensures Outcome(input).Some? && Again(input) == Outcome(input)
            <==> AtEveryTag(input, Removed, Sliceable)
                 && (Completes(input)
                     || (NonBlank(ShownBefore(input, Removed)) == ""
                         && Sliceable(Squeeze(Stopped(input, Removed), false))))
  {
    SanitizingTextTwice(input);
    if Completes(input) {
      CleanWhenComplete(input);
      CleanNeverPanics(Sanitized(input));
    } else if NonBlank(ShownBefore(input, Removed)) == "" {
      TagAlone(input);
    }
  }

  lemma {:induction false} SqueezeIsAscii(s: string, inWord: bool)
    requires IsAscii(s)
    ensures IsAscii(Squeeze(s, inWord))
  {
    if s != "" {
      SqueezeIsAscii(s[1..], !IsSpace(s[0]));
    }
  }

  lemma {:induction false} ScanIsAscii(source: string, cut: Cutter)
    requires Cuts(cut) && IsAscii(source)
    ensures IsAscii(Scan(source, cut))
    decreases |source|
  {
    var start := IndexOf(source, '<');
    if start < |source| && cut(source[start..]).Some? {
      ScanIsAscii(source[start..][cut(source[start..]).value..], cut);
    }
  }

  /** On ASCII text neither call panics. */
  lemma SanitizingAsciiTwice(input: string)
    requires IsAscii(input)
    ensures Outcome(input).Some? && Again(input).Some?
    ensures Again(input) == Outcome(input) <==> Completes(input) || NonBlank(ShownBefore(input, Removed)) == ""
  {
    ScanIsAscii(input, Removed);
    SanitizedIsSqueezed(input);
    SqueezeIsAscii(Scan(input, Removed), false);
    AsciiNeverPanics(input);
    AsciiNeverPanics(Sanitized(input));
    SanitizingTextTwice(input);
  }

  lemma NoOpener(text: string)
    requires |text| > 1 && text[0] == '<' && text[1] == 'a' && '>' !in text
    ensures Removed(text) == None && !MatchesAt(text, 0, SCRIPT)
  {
    assert Lower(text[0 + 1]) == 'a' && SCRIPT[1] == 's' && STYLE[1] == 's';
  }

  lemma GapIsOneSpace()
    ensures Squeeze("   é", true) == " é"
  {
    assert IsSpace(' ') && !IsSpace('é');
    assert Squeeze("é", false) == "é" by { assert "é"[1..] == ""; }
    assert Squeeze(" é", false) == "é" by { assert " é"[1..] == "é"; }
    assert Squeeze("  é", false) == "é" by { assert "  é"[1..] == " é"; }
    assert "   é"[1..] == "  é";
  }

  lemma FirstWord()
    ensures WordLength("<abcd   é") == 5
  {
    var input := "<abcd   é";
    assert !IsSpace('<') && !IsSpace('a') && !IsSpace('b') && !IsSpace('c') && !IsSpace('d') && IsSpace(' ');
    assert input[0] == '<' && input[1] == 'a' && input[2] == 'b' && input[3] == 'c' && input[4] == 'd';
    assert input[5] == ' ';
  }

  lemma GapIsSqueezed()
    ensures Squeeze("<abcd   é", false) == "<abcd é"
  {
    var input := "<abcd   é";
    FirstWord();
    assert !IsSpace('<');
    SqueezeWord(input, false);
    assert input[..5] == "<abcd" && input[5..] == "   é";
    GapIsOneSpace();
  }

  lemma GapSlices()
    ensures Sliceable("<abcd   é")
  {
    AfterAscii("<abcd   ", "é", 0);
    assert "<abcd   " + "é" == "<abcd   é";
    GapSlicesAtSeven();
  }

  lemma GapSlicesAtSeven()
    ensures IsCharBoundary("<abcd   é", 7)
  {
    AfterAscii("<abcd  ", " é", 0);
    assert "<abcd  " + " é" == "<abcd   é";
  }

  lemma NoGapCuts()
    ensures !Sliceable("<abcd é")
  {
    NoOpener("<abcd é");
    AfterAscii("<abcd ", "é", 1);
    assert "<abcd " + "é" == "<abcd é";
    assert Utf8Width('é') == 2;
    assert "é"[1..] == "";
  }

  /** A call can return a text on which the next one panics: white space put together moves a wide character to
      byte 7. */
  lemma SecondCallPanics()
    ensures Outcome("<abcd   é") == Some("<abcd é") && Outcome("<abcd é") == None
  {
    NoOpener("<abcd   é");
    NoOpener("<abcd é");
    UnclosedAlone("<abcd   é");
    UnclosedAlone("<abcd é");
    GapIsSqueezed();
    GapSlices();
    NoGapCuts();
  }

  lemma WordThenOpener(word: string)
    requires NoSpace(word)
    ensures Squeeze(word + (word + "<"), false) == word + (word + "<")
  {
    assert !IsSpace('<');
    SqueezeKeepsSingleSpaced(word + (word + "<"));
  }

  lemma OpenerStaysOpen()
    ensures Removed("<") == None
  {
  }

  /** A single word, then an opener and nothing else. */
  lemma Shows(word: string)
    requires IsAscii(word) && '<' !in word && NoSpace(word)
    ensures Outcome(word + "<") == Some(word + (word + "<"))
  {
    OpenerStaysOpen();
    AsciiNeverPanics(word + "<");
    ScanDoubles(word, "<", Removed);
    SanitizedIsSqueezed(word + "<");
    WordThenOpener(word);
  }

  /** What is shown before an unclosed tag is shown twice. */
  lemma ShownTwice()
    ensures Outcome("ab<") == Some("abab<")
  {
    assert NoSpace("ab");
    Shows("ab");
    assert "ab" + "<" == "ab<" && "ab" + ("ab" + "<") == "abab<";
  }
}
