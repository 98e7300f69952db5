/** The tag-stripping scanner of fetched pages (src/research_policy.rs). */
module HtmlText {
  import opened Collections
  import opened Outcomes
  import opened Text
  import opened WhiteSpace

  function Lower(c: char): char {
    if 'A' <= c <= 'Z' then ((c as int) + 32) as char else c
  }

  /** `pattern`, which is in lower case, is at `i` in either case. */
  predicate MatchesAt(s: string, i: nat, pattern: string) {
    i + |pattern| <= |s| && forall k :: 0 <= k < |pattern| ==> Lower(s[i + k]) == pattern[k]
  }

  /** `c` is `p`, or the capital letter of `p`. */
  predicate IsLetter(c: char, p: char) {
    c == p || ('a' <= p <= 'z' && c as int == p as int - 32)
  }

  /** `pattern` stands at `i`, in capitals, small letters or both. */
  predicate StandsAt(s: string, i: nat, pattern: string) {
    i + |pattern| <= |s| && forall k :: 0 <= k < |pattern| ==> IsLetter(s[i + k], pattern[k])
  }

  predicate NoCapitals(pattern: string) {
    forall k :: 0 <= k < |pattern| ==> !('A' <= pattern[k] <= 'Z')
  }

  /** The scanner's test, which lowers the text, says that the pattern stands there. */
  lemma MatchesExactly(s: string, i: nat, pattern: string)
    requires NoCapitals(pattern)
    ensures MatchesAt(s, i, pattern) <==> StandsAt(s, i, pattern)
  {
    if i + |pattern| <= |s| {
      forall k | 0 <= k < |pattern| ensures Lower(s[i + k]) == pattern[k] <==> IsLetter(s[i + k], pattern[k]) {
        LowerExactly(s[i + k], pattern[k]);
      }
    }
  }

  lemma LowerExactly(c: char, p: char)
    requires !('A' <= p <= 'Z')
    ensures Lower(c) == p <==> IsLetter(c, p)
  {
  }

  function FindFrom(s: string, i: nat, pattern: string): (place: Option<nat>)
    requires i <= |s|
    ensures match place
            case None => forall j :: i <= j <= |s| ==> !MatchesAt(s, j, pattern)
            case Some(k) => i <= k && MatchesAt(s, k, pattern) && forall j :: i <= j < k ==> !MatchesAt(s, j, pattern)
    decreases |s| - i
  {
    if MatchesAt(s, i, pattern) then Some(i)
    else if i == |s| then None
    else FindFrom(s, i + 1, pattern)
  }

  const SCRIPT := "<script>"
  const END_SCRIPT := "</script>"
  const STYLE := "<style>"
  const END_STYLE := "</style>"

  /** How much a tag at the start of `rest` removes; None when what would close it is missing. */
  function Removed(rest: string): (n: Option<nat>)
    ensures n.Some? ==> 0 < n.value <= |rest|
  {
    if MatchesAt(rest, 0, SCRIPT) then
      match FindFrom(rest, 0, END_SCRIPT) case None => None case Some(end) => Some(end + 9)
    else if MatchesAt(rest, 0, STYLE) then
      match FindFrom(rest, 0, END_STYLE) case None => None case Some(end) => Some(end + 8)
    else if IndexOf(rest, '>') == |rest| then None
    else Some(IndexOf(rest, '>') + 1)
  }

  /** A rule for how much the tag at the start of a text removes. */
  type Cutter = string -> Option<nat>

  ghost predicate Cuts(cut: Cutter) {
    forall rest :: cut(rest).Some? ==> 0 < cut(rest).value <= |rest|
  }

  /** What the loop and the push after it leave in the output. A scan that stops at an unclosed tag pushes the
      text before that tag twice: once in the loop, once with the rest of the source. */
  ghost function Scan(source: string, cut: Cutter): string
    requires Cuts(cut)
    decreases |source|
  {
    var start := IndexOf(source, '<');
    if start == |source| then source
    else match cut(source[start..])
      case None => source[..start] + source
      case Some(n) => source[..start] + Scan(source[start..][n..], cut)
  }

  /** Every tag reached is closed. */
  ghost predicate Closes(source: string, cut: Cutter)
    requires Cuts(cut)
    decreases |source|
  {
    var start := IndexOf(source, '<');
    start == |source| || match cut(source[start..])
      case None => false
      case Some(n) => Closes(source[start..][n..], cut)
  }

  ghost function Sanitized(input: string): string {
    Join(Words(Scan(input, Removed)))
  }

  ghost predicate Completes(input: string) {
    Closes(input, Removed)
  }

  /** The slices of the first 8 and, for what is no script, 7 bytes of a tag fall between characters. */
  predicate Sliceable(rest: string) {
    && (Utf8Length(rest) >= 8 ==> IsCharBoundary(rest, 8))
    && (!MatchesAt(rest, 0, SCRIPT) && Utf8Length(rest) >= 7 ==> IsCharBoundary(rest, 7))
  }

  /** `ok` holds at every tag the scan reaches. */
  ghost predicate AtEveryTag(source: string, cut: Cutter, ok: string -> bool)
    requires Cuts(cut)
    decreases |source|
  {
    var start := IndexOf(source, '<');
    start == |source| || (ok(source[start..]) && match cut(source[start..])
      case None => true
      case Some(n) => AtEveryTag(source[start..][n..], cut, ok))
  }

  lemma NextTag(source: string, cut: Cutter, ok: string -> bool)
    requires Cuts(cut)
    ensures var start := IndexOf(source, '<');
            AtEveryTag(source, cut, ok)
            <==> start == |source| || (ok(source[start..]) && (cut(source[start..]) == None
                   || AtEveryTag(source[start..][cut(source[start..]).value..], cut, ok)))
  {
  }

  lemma ScanCut(source: string, cut: Cutter, n: nat)
    requires Cuts(cut)
    requires var start := IndexOf(source, '<'); start < |source| && cut(source[start..]) == Some(n)
    ensures var start := IndexOf(source, '<'); var rest := source[start..][n..];
            && Scan(source, cut) == source[..start] + Scan(rest, cut)
            && Closes(source, cut) == Closes(rest, cut)
  {
  }

  lemma Regroup(output: string, a: string, b: string, total: string)
    requires output + (a + b) == total
    ensures output + a + b == total
  {
  }

  /** Where the loop stands: what is out, and what the rest will add. */
  ghost predicate Pending(total: string, output: string, adds: string) {
    output + adds == total
  }

  lemma Advances(total: string, output: string, source: string, cut: Cutter, n: nat)
    requires Cuts(cut) && Pending(total, output, Scan(source, cut))
    requires var start := IndexOf(source, '<'); start < |source| && cut(source[start..]) == Some(n)
    ensures var start := IndexOf(source, '<');
            Pending(total, output + source[..start], Scan(source[start..][n..], cut))
  {
    var start := IndexOf(source, '<');
    ScanCut(source, cut, n);
    Regroup(output, source[..start], Scan(source[start..][n..], cut), total);
  }

  lemma Stops(total: string, output: string, source: string, cut: Cutter)
    requires Cuts(cut) && Pending(total, output, Scan(source, cut))
    requires var start := IndexOf(source, '<'); start < |source| && cut(source[start..]) == None
    ensures Pending(total, output + source[..IndexOf(source, '<')], source)
  {
    var start := IndexOf(source, '<');
    Regroup(output, source[..start], source, total);
  }

  lemma StepsOn(total: string, output: string, source: string, cut: Cutter)
    requires Cuts(cut) && Pending(total, output, Scan(source, cut))
    ensures var start := IndexOf(source, '<');
            if start == |source| then Pending(total, output, source)
            else match cut(source[start..])
              case None => Pending(total, output + source[..start], source)
              case Some(n) => Pending(total, output + source[..start], Scan(source[start..][n..], cut))
  {
    var start := IndexOf(source, '<');
    if start < |source| {
      match cut(source[start..])
      case None => Stops(total, output, source, cut);
      case Some(n) => Advances(total, output, source, cut, n);
    }
  }

  /** What a call comes to: the sanitised text, or a panic. */
  ghost function Outcome(input: string): Option<string> {
    if AtEveryTag(input, Removed, Sliceable) then Some(Sanitized(input)) else None
  }

  /** `sanitize_html`; None is a panic. */
  method SanitizeHtml(input: string) returns (text: Option<string>)
    ensures text == Outcome(input)
  {
    var output, source := "", input;
    ghost var total := Scan(input, Removed);
    while true
      invariant Pending(total, output, Scan(source, Removed))
      invariant AtEveryTag(source, Removed, Sliceable) <==> AtEveryTag(input, Removed, Sliceable)
      decreases |source|
    {
      StepsOn(total, output, source, Removed);
      NextTag(source, Removed, Sliceable);
      var start := IndexOf(source, '<');
      if start == |source| {
        break;
      }
      var rest := source[start..];
      if !Sliceable(rest) {
        return None;
      }
      var removed := Removed(rest);
      output := output + source[..start];
      if removed == None {
        break;
      }
      source := rest[removed.value..];
    }
    output := output + source;
    text := Some(Join(Words(output)));
  }

  lemma {:induction false} AsciiBoundaries(s: string, n: nat)
    requires IsAscii(s)
    ensures n <= |s| ==> IsCharBoundary(s, n)
  {
    if s != "" {
      AsciiBoundaries(s[1..], if n > 0 then n - 1 else 0);
    }
  }

  lemma {:induction false} AsciiAtEveryTag(source: string, cut: Cutter)
    requires Cuts(cut) && IsAscii(source)
    ensures AtEveryTag(source, cut, Sliceable)
    decreases |source|
  {
    var start := IndexOf(source, '<');
    if start < |source| {
      var rest := source[start..];
      AsciiLength(rest);
      AsciiBoundaries(rest, 8);
      AsciiBoundaries(rest, 7);
      if cut(rest).Some? {
        AsciiAtEveryTag(rest[cut(rest).value..], cut);
      }
    }
  }

  /** ASCII text never makes the scanner panic. */
  lemma AsciiNeverPanics(input: string)
    requires IsAscii(input)
    ensures AtEveryTag(input, Removed, Sliceable)
  {
    AsciiAtEveryTag(input, Removed);
  }

  lemma {:induction false} AfterAscii(a: string, rest: string, n: nat)
    requires IsAscii(a)
    ensures Utf8Length(a + rest) == |a| + Utf8Length(rest)
    ensures IsCharBoundary(a + rest, |a| + n) <==> IsCharBoundary(rest, n)
  {
    if a == "" {
      assert a + rest == rest;
    } else {
      assert (a + rest)[1..] == a[1..] + rest;
      AfterAscii(a[1..], rest, n);
    }
  }

  /** A tag is sliced without a panic if and only if neither its eighth nor its seventh byte is inside a
      character: the lengths and the script tested before each slice take no such tag out. */
  lemma SliceableExactly(rest: string)
    ensures Sliceable(rest) <==> !Straddled(rest, 8) && !Straddled(rest, 7)
  {
    BoundaryExactly(rest, 8);
    BoundaryExactly(rest, 7);
    StraddledWithin(rest, 8);
    StraddledWithin(rest, 7);
    if MatchesAt(rest, 0, SCRIPT) {
      forall k | 0 <= k < 8 ensures rest[k] as int < 0x80 {
        assert Lower(rest[0 + k]) == SCRIPT[k];
      }
      var tag := rest[..8];
      assert rest == tag + rest[8..];
      AsciiLength(tag);
      AsciiBoundaries(tag, 7);
      AfterAscii(tag[..7], tag[7..] + rest[8..], 0);
      assert rest == tag[..7] + (tag[7..] + rest[8..]);
    }
  }

  /** A tag whose eighth byte is inside a character does. */
  lemma CutCharacterPanics(tag: string, c: char, rest: string)
    requires |tag| == 7 && tag[0] == '<' && IsAscii(tag) && Utf8Width(c) > 1
    ensures !AtEveryTag(tag + ([c] + rest), Removed, Sliceable)
  {
    var source := tag + ([c] + rest);
    assert ([c] + rest)[0] == c;
    AfterAscii(tag, [c] + rest, 1);
    assert IndexOf(source, '<') == 0 && source[0..] == source;
  }

  // ---- what a completed scan leaves ----

  lemma HasInConcat(a: string, b: string, c: char)
    ensures c in a + b <==> c in a || c in b
  {
  }

  lemma {:induction false} ScanHasTag(source: string, cut: Cutter)
    requires Cuts(cut)
    ensures '<' in Scan(source, cut) <==> !Closes(source, cut)
    decreases |source|
  {
    var start := IndexOf(source, '<');
    if start < |source| {
      assert '<' !in source[..start] && source[start] == '<';
      match cut(source[start..])
      case None =>
        HasInConcat(source[..start], source, '<');
      case Some(n) =>
        ScanCut(source, cut, n);
        ScanHasTag(source[start..][n..], cut);
        HasInConcat(source[..start], Scan(source[start..][n..], cut), '<');
    }
  }

  /** The output has no tag opener exactly when every tag reached was closed. */
  lemma CleanWhenComplete(input: string)
    ensures '<' !in Sanitized(input) <==> Completes(input)
  {
    var text := Scan(input, Removed);
    ScanHasTag(input, Removed);
    SqueezeJoinsWords(text);
    SqueezeKeepsNonBlank(text, false);
    NonBlankHas(text, '<');
    NonBlankHas(Sanitized(input), '<');
  }

  /** The output is words separated by single spaces, whatever the input. */
  lemma OutputIsSingleSpaced(input: string)
    ensures SingleSpaced(Sanitized(input))
  {
    SqueezeJoinsWords(Scan(input, Removed));
    SqueezeIsSingleSpaced(Scan(input, Removed), false);
  }

  predicate Subsequence(a: string, b: string) {
    a == "" || (b != "" && if a[0] == b[0] then Subsequence(a[1..], b[1..]) else Subsequence(a, b[1..]))
  }

  lemma {:induction false} SubsequenceTail(a: string, b: string)
    requires a != "" && Subsequence(a, b)
    ensures Subsequence(a[1..], b)
    decreases |b|
  {
    if a[0] == b[0] {
      if |a| > 1 {
        if a[1] == b[0] {
          SubsequenceTail(a[1..], b[1..]);
        }
      }
    } else {
      SubsequenceTail(a, b[1..]);
      if |a| > 1 && a[1] == b[0] {
        SubsequenceTail(a[1..], b[1..]);
      }
    }
  }

  lemma SubsequenceCons(c: char, a: string, b: string)
    requires Subsequence(a, b)
    ensures Subsequence(a, [c] + b)
  {
    assert ([c] + b)[1..] == b;
    if a != "" {
      SubsequenceTail(a, b);
    }
  }

  lemma {:induction false} SubsequenceAfter(x: string, a: string, b: string)
    requires Subsequence(a, b)
    ensures Subsequence(a, x + b)
  {
    if x == "" {
      assert x + b == b;
    } else {
      SubsequenceAfter(x[1..], a, b);
      SubsequenceCons(x[0], a, x[1..] + b);
      assert x + b == [x[0]] + (x[1..] + b);
    }
  }

  lemma {:induction false} SubsequenceBoth(x: string, a: string, b: string)
    requires Subsequence(a, b)
    ensures Subsequence(x + a, x + b)
  {
    if x == "" {
      assert x + a == a && x + b == b;
    } else {
      SubsequenceBoth(x[1..], a, b);
      assert (x + a)[1..] == x[1..] + a && (x + b)[1..] == x[1..] + b;
    }
  }

  lemma TakenPart(source: string, start: nat, n: nat, kept: string)
    requires start + n <= |source| && Subsequence(NonBlank(kept), NonBlank(source[start + n..]))
    ensures Subsequence(NonBlank(source[..start] + kept), NonBlank(source))
  {
    var text, tag, rest := source[..start], source[start..start + n], source[start + n..];
    assert source == text + (tag + rest);
    NonBlankOfConcat(text, tag + rest);
    NonBlankOfConcat(tag, rest);
    NonBlankOfConcat(text, kept);
    SubsequenceAfter(NonBlank(tag), NonBlank(kept), NonBlank(rest));
    SubsequenceBoth(NonBlank(text), NonBlank(kept), NonBlank(tag) + NonBlank(rest));
  }

  lemma AllTaken(source: string)
    ensures Subsequence(NonBlank(source), NonBlank(source))
  {
    SubsequenceBoth(NonBlank(source), "", "");
    assert NonBlank(source) + "" == NonBlank(source);
  }

  lemma {:induction false} ScanTakesFrom(source: string, cut: Cutter)
    requires Cuts(cut) && Closes(source, cut)
    ensures Subsequence(NonBlank(Scan(source, cut)), NonBlank(source))
    decreases |source|
  {
    var start := IndexOf(source, '<');
    if start == |source| {
      AllTaken(source);
    } else {
      var n := cut(source[start..]).value;
      var rest := source[start..][n..];
      ScanCut(source, cut, n);
      ScanTakesFrom(rest, cut);
      assert rest == source[start + n..];
      TakenPart(source, start, n, Scan(rest, cut));
    }
  }

  /** A completed scan invents nothing: the output's characters come from the input, in order. */
  lemma OutputComesFromInput(input: string)
    requires Completes(input)
    ensures Subsequence(NonBlank(Sanitized(input)), NonBlank(input))
  {
    ScanTakesFrom(input, Removed);
    SqueezeJoinsWords(Scan(input, Removed));
    SqueezeKeepsNonBlank(Scan(input, Removed), false);
  }
}
