/** What a page is made of: text, tags, and script or style blocks. On a page of such pieces the scanner of
    HtmlText (src/research_policy.rs) completes, keeps exactly the text and removes everything else; and every
    input on which it completes is such a page. */
module HtmlPieces {
  import opened Collections
  import opened Outcomes
  import opened HtmlText

  datatype Piece = Text(text: string) | Tag(body: string) | Block(opener: string, body: string, closer: string)

  function Render(p: Piece): string {
    match p
    case Text(text) => text
    case Tag(body) => "<" + body + ">"
    case Block(opener, body, closer) => opener + body + closer
  }

  /** `s` is `pattern`, in capitals, small letters or both. */
  predicate Is(s: string, pattern: string) {
    |s| == |pattern| && StandsAt(s, 0, pattern)
  }

  /** Text without an opener; a tag that is not a bare script or style opener; or a block from such an opener
      to the first matching closer. */
  ghost predicate WellFormed(p: Piece) {
    match p
    case Text(text) => '<' !in text
    case Tag(body) => '>' !in body && !Is(Render(p), "<script>") && !Is(Render(p), "<style>")
    case Block(opener, body, closer) =>
      || Closed(opener, body, closer, "<script>", "</script>")
      || Closed(opener, body, closer, "<style>", "</style>")
  }

  ghost predicate Closed(opener: string, body: string, closer: string, open: string, close: string) {
    Is(opener, open) && Is(closer, close) && FirstCloser(opener + body, closer, close)
  }

  ghost predicate FirstCloser(before: string, closer: string, pattern: string) {
    forall j :: 0 <= j < |before| ==> !StandsAt(before + closer, j, pattern)
  }

  ghost predicate AllWellFormed(pieces: seq<Piece>) {
    forall i :: 0 <= i < |pieces| ==> WellFormed(pieces[i])
  }

  function Page(pieces: seq<Piece>): string {
    if pieces == [] then "" else Render(pieces[0]) + Page(pieces[1..])
  }

  function TextOf(pieces: seq<Piece>): string {
    if pieces == [] then ""
    else (if pieces[0].Text? then pieces[0].text else "") + TextOf(pieces[1..])
  }

  /** The patterns of the scanner are in small letters. */
  predicate IsPattern(pattern: string) {
    pattern == SCRIPT || pattern == STYLE || pattern == END_SCRIPT || pattern == END_STYLE
  }

  lemma PatternMatches(s: string, i: nat, pattern: string)
    requires IsPattern(pattern)
    ensures MatchesAt(s, i, pattern) <==> StandsAt(s, i, pattern)
  {
    MatchesExactly(s, i, pattern);
  }

  // ---- from pieces to the scan ----

  lemma {:induction false} IndexAfter(a: string, b: string, c: char)
    requires c !in a
    ensures IndexOf(a + b, c) == |a| + IndexOf(b, c)
  {
    var k := |a| + IndexOf(b, c);
    assert forall i :: |a| <= i < k ==> (a + b)[i] == b[i - |a|];
    assert forall i :: 0 <= i < |a| ==> (a + b)[i] == a[i];
    assert k < |a + b| ==> (a + b)[k] == b[k - |a|];
  }

  lemma ClosedBy(source: string, cut: Cutter) returns (n: nat)
    requires Cuts(cut) && Closes(source, cut) && IndexOf(source, '<') < |source|
    ensures var rest := source[IndexOf(source, '<')..];
            cut(rest) == Some(n) && 0 < n <= |rest| && Closes(rest[n..], cut)
  {
    n := cut(source[IndexOf(source, '<')..]).value;
  }

  lemma SkipText(text: string, rest: string)
    requires '<' !in text
    ensures var all, k := text + rest, IndexOf(rest, '<');
            && IndexOf(all, '<') == |text| + k
            && all[|text| + k..] == rest[k..]
            && all[..|text| + k] == text + rest[..k]
  {
    IndexAfter(text, rest, '<');
  }

  lemma Assoc(a: string, b: string, c: string)
    ensures a + b + c == a + (b + c)
  {
  }

  lemma ScanSkipsTextOnly(text: string, rest: string, cut: Cutter)
    requires Cuts(cut) && '<' !in text && IndexOf(rest, '<') == |rest|
    ensures Closes(text + rest, cut) && Scan(text + rest, cut) == text + rest
  {
    SkipText(text, rest);
  }

  lemma ScanSkipsTextToTag(text: string, rest: string, cut: Cutter, n: nat)
    requires Cuts(cut) && '<' !in text
    requires var k := IndexOf(rest, '<');
             k < |rest| && cut(rest[k..]) == Some(n) && 0 < n <= |rest[k..]| && Closes(rest[k..][n..], cut)
    ensures Closes(text + rest, cut) && Scan(text + rest, cut) == text + Scan(rest, cut)
  {
    var k := IndexOf(rest, '<');
    SkipText(text, rest);
    ScanCut(rest, cut, n);
    ScanCut(text + rest, cut, n);
    Assoc(text, rest[..k], Scan(rest[k..][n..], cut));
  }

  lemma ScanSkipsText(text: string, rest: string, cut: Cutter)
    requires Cuts(cut) && '<' !in text && Closes(rest, cut)
    ensures Closes(text + rest, cut) && Scan(text + rest, cut) == text + Scan(rest, cut)
  {
    if IndexOf(rest, '<') < |rest| {
      var n := ClosedBy(rest, cut);
      ScanSkipsTextToTag(text, rest, cut, n);
    } else {
      ScanSkipsTextOnly(text, rest, cut);
    }
  }

  /** A removed stretch leaves no trace. */
  lemma ScanDropsTag(tag: string, rest: string, cut: Cutter)
    requires Cuts(cut) && tag != "" && tag[0] == '<' && cut(tag + rest) == Some(|tag|)
    ensures Closes(tag + rest, cut) == Closes(rest, cut) && Scan(tag + rest, cut) == Scan(rest, cut)
  {
    var all := tag + rest;
    assert IndexOf(all, '<') == 0;
    assert all[0..] == all && all[|tag|..] == rest;
    ScanCut(all, cut, |tag|);
    assert all[..0] + Scan(rest, cut) == Scan(rest, cut);
  }

  lemma MatchInPrefix(a: string, b: string, i: nat, pattern: string)
    requires i + |pattern| <= |a|
    ensures MatchesAt(a + b, i, pattern) <==> MatchesAt(a, i, pattern)
  {
  }

  lemma FoundAt(s: string, pattern: string, k: nat)
    requires k <= |s| && MatchesAt(s, k, pattern) && forall j :: 0 <= j < k ==> !MatchesAt(s, j, pattern)
    ensures FindFrom(s, 0, pattern) == Some(k)
  {
  }

  lemma StandsLast(before: string, closer: string, pattern: string)
    requires Is(closer, pattern)
    ensures StandsAt(before + closer, |before|, pattern)
  {
    forall k | 0 <= k < |pattern| ensures IsLetter((before + closer)[|before| + k], pattern[k]) {
      assert IsLetter(closer[0 + k], pattern[k]);
    }
  }

  lemma BlockIsRemoved(opener: string, body: string, closer: string, pattern: string, rest: string)
    requires IsPattern(pattern) && Is(closer, pattern) && FirstCloser(opener + body, closer, pattern)
    ensures FindFrom(opener + body + closer + rest, 0, pattern) == Some(|opener + body|)
  {
    var before := opener + body;
    var block := before + closer;
    forall j | 0 <= j < |before| ensures !MatchesAt(block + rest, j, pattern) {
      PatternMatches(block, j, pattern);
      MatchInPrefix(block, rest, j, pattern);
    }
    StandsLast(before, closer, pattern);
    PatternMatches(block, |before|, pattern);
    MatchInPrefix(block, rest, |before|, pattern);
    FoundAt(block + rest, pattern, |before|);
  }

  /** The one `>` of an opener is its last character. */
  lemma OpenerReachesCloser(before: string, rest: string, opener: string)
    requires '>' !in before && (opener == SCRIPT || opener == STYLE)
    requires MatchesAt(before + (">" + rest), 0, opener)
    ensures |before| == |opener| - 1
  {
    var all, last := before + (">" + rest), |opener| - 1;
    assert opener[last] == '>';
    assert Lower(all[0 + last]) == '>';
    forall j | 0 <= j < last ensures Lower(all[j]) != '>' {
      assert Lower(all[0 + j]) == opener[j];
    }
    assert all[|before|] == '>';
    assert forall j :: 0 <= j < |before| ==> all[j] == before[j];
  }

  /** A bare opener can only be seen at the start of a tag if the tag is that opener. */
  lemma OpenerIsWholeTag(body: string, rest: string, opener: string)
    requires '>' !in body && (opener == SCRIPT || opener == STYLE)
    ensures var tag := "<" + body + ">";
            && IndexOf(tag + rest, '>') + 1 == |tag|
            && (MatchesAt(tag + rest, 0, opener) ==> Is(tag, opener))
  {
    var before := "<" + body;
    var tag := before + ">";
    assert '>' !in before;
    IndexAfter(before, ">" + rest, '>');
    assert tag + rest == before + (">" + rest);
    if MatchesAt(tag + rest, 0, opener) {
      OpenerReachesCloser(before, rest, opener);
      MatchInPrefix(tag, rest, 0, opener);
      PatternMatches(tag, 0, opener);
    }
  }

  lemma RemovedPiece(p: Piece, rest: string)
    requires WellFormed(p) && !p.Text?
    ensures var tag := Render(p); tag != "" && tag[0] == '<' && Removed(tag + rest) == Some(|tag|)
  {
    match p
    case Tag(body) =>
      OpenerIsWholeTag(body, rest, SCRIPT);
      OpenerIsWholeTag(body, rest, STYLE);
    case Block(opener, body, closer) =>
      var pattern := if Is(opener, SCRIPT) then SCRIPT else STYLE;
      BlockOpens(opener, body + closer + rest, pattern);
      assert opener + body + closer + rest == opener + (body + closer + rest);
      if Is(opener, SCRIPT) {
        BlockIsRemoved(opener, body, closer, END_SCRIPT, rest);
      } else {
        BlockIsRemoved(opener, body, closer, END_STYLE, rest);
      }
  }

  lemma BlockOpens(opener: string, rest: string, pattern: string)
    requires Is(opener, pattern) && (pattern == SCRIPT || pattern == STYLE)
    ensures opener[0] == '<' && MatchesAt(opener + rest, 0, pattern)
    ensures pattern == STYLE ==> !MatchesAt(opener + rest, 0, SCRIPT)
  {
    PatternMatches(opener, 0, pattern);
    MatchInPrefix(opener, rest, 0, pattern);
    assert Lower(opener[0 + 0]) == pattern[0] && Lower(opener[0 + 2]) == pattern[2];
    assert SCRIPT[2] == 'c' && STYLE[2] == 't';
    assert (opener + rest)[0 + 2] == opener[2];
  }

  /** The scan of a page keeps exactly its text pieces, in order. */
  lemma {:induction false} ScanKeepsText(pieces: seq<Piece>)
    requires AllWellFormed(pieces)
    ensures Completes(Page(pieces)) && Scan(Page(pieces), Removed) == TextOf(pieces)
  {
    if pieces != [] {
      var p, rest := pieces[0], pieces[1..];
      ScanKeepsText(rest);
      if p.Text? {
        ScanSkipsText(p.text, Page(rest), Removed);
      } else {
        RemovedPiece(p, Page(rest));
        ScanDropsTag(Render(p), Page(rest), Removed);
        assert "" + TextOf(rest) == TextOf(rest);
      }
    }
  }

  // ---- from a completed scan to pieces ----

  /** A closer found after an opener starts after it. */
  lemma CloserAfterOpener(s: string, k: nat, opener: string, closer: string)
    requires (opener == SCRIPT && closer == END_SCRIPT) || (opener == STYLE && closer == END_STYLE)
    requires MatchesAt(s, 0, opener) && MatchesAt(s, k, closer)
    ensures k >= |opener|
  {
    assert closer[0] == '<' && closer[1] == '/';
    assert Lower(s[k + 0]) == closer[0] && Lower(s[k + 1]) == closer[1];
    assert Lower(s[0 + 1]) == opener[1] != '/';
    forall j | 1 <= j < |opener| ensures Lower(s[j]) != '<' {
      assert Lower(s[0 + j]) == opener[j];
    }
  }

  lemma Slice(s: string, i: nat, j: nat, pattern: string)
    requires IsPattern(pattern) && i + |pattern| == j <= |s| && MatchesAt(s, i, pattern)
    ensures Is(s[i..j], pattern)
  {
    PatternMatches(s, i, pattern);
    forall k | 0 <= k < |pattern| ensures IsLetter(s[i..j][0 + k], pattern[k]) {
      assert IsLetter(s[i + k], pattern[k]);
    }
  }

  lemma BlockOf(s: string, end: nat, opener: string, closer: string) returns (p: Piece)
    requires (opener == SCRIPT && closer == END_SCRIPT) || (opener == STYLE && closer == END_STYLE)
    requires MatchesAt(s, 0, opener) && FindFrom(s, 0, closer) == Some(end)
    ensures WellFormed(p) && !p.Text? && Render(p) == s[..end + |closer|]
  {
    CloserAfterOpener(s, end, opener, closer);
    var n, m := |opener|, end + |closer|;
    var before := s[..end];
    p := Block(s[..n], s[n..end], s[end..m]);
    assert s[..n] + s[n..end] == before && before + s[end..m] == s[..m];
    Slice(s, 0, n, opener);
    Slice(s, end, m, closer);
    ClosesFirst(s, end, closer);
  }

  lemma ClosesFirst(s: string, end: nat, closer: string)
    requires IsPattern(closer) && FindFrom(s, 0, closer) == Some(end)
    ensures FirstCloser(s[..end], s[end..end + |closer|], closer)
  {
    var m := end + |closer|;
    assert s[..end] + s[end..m] == s[..m];
    forall j | 0 <= j < end ensures !StandsAt(s[..m], j, closer) {
      NotStandingBefore(s, end, closer, j);
    }
  }

  lemma NotStandingBefore(s: string, end: nat, closer: string, j: nat)
    requires IsPattern(closer) && FindFrom(s, 0, closer) == Some(end) && j < end
    ensures !StandsAt(s[..end + |closer|], j, closer)
  {
    var m := end + |closer|;
    assert s == s[..m] + s[m..];
    MatchInPrefix(s[..m], s[m..], j, closer);
    PatternMatches(s[..m], j, closer);
  }

  lemma TagOf(s: string, n: nat) returns (p: Piece)
    requires s != "" && s[0] == '<' && Removed(s) == Some(n)
    ensures WellFormed(p) && !p.Text? && Render(p) == s[..n]
  {
    if MatchesAt(s, 0, SCRIPT) {
      p := BlockOf(s, n - 9, SCRIPT, END_SCRIPT);
    } else if MatchesAt(s, 0, STYLE) {
      p := BlockOf(s, n - 8, STYLE, END_STYLE);
    } else {
      p := Tag(s[1..n - 1]);
      assert s[..n] == "<" + s[1..n - 1] + ">";
      assert s == s[..n] + s[n..];
      PatternMatches(s[..n], 0, SCRIPT);
      PatternMatches(s[..n], 0, STYLE);
      if n >= 8 { MatchInPrefix(s[..n], s[n..], 0, SCRIPT); }
      if n >= 7 { MatchInPrefix(s[..n], s[n..], 0, STYLE); }
    }
  }

  /** Every input whose scan completes is such a page. */
  lemma {:induction false} CompletedIsPage(input: string) returns (pieces: seq<Piece>)
    requires Completes(input)
    ensures AllWellFormed(pieces) && Page(pieces) == input
    decreases |input|
  {
    var start := IndexOf(input, '<');
    var text, rest := input[..start], input[start..];
    if start == |input| {
      pieces := [Text(input)];
      assert Page(pieces[1..]) == "" && input + "" == input;
    } else {
      var n := ClosedBy(input, Removed);
      var tail := CompletedIsPage(rest[n..]);
      var tag := TagOf(rest, n);
      pieces := PageOfThree(input, start, n, tag, tail);
    }
  }

  lemma PageCons(p: Piece, tail: seq<Piece>)
    requires WellFormed(p) && AllWellFormed(tail)
    ensures AllWellFormed([p] + tail) && Page([p] + tail) == Render(p) + Page(tail)
  {
    assert ([p] + tail)[1..] == tail;
  }

  lemma Rejoin(s: string, start: nat, n: nat)
    requires start + n <= |s|
    ensures s[..start] + (s[start..][..n] + s[start..][n..]) == s
  {
    assert s[start..][..n] + s[start..][n..] == s[start..];
  }

  lemma PageOfThree(input: string, start: nat, n: nat, tag: Piece, tail: seq<Piece>) returns (pieces: seq<Piece>)
    requires start + n <= |input| && '<' !in input[..start] && WellFormed(tag) && AllWellFormed(tail)
    requires Render(tag) == input[start..][..n] && Page(tail) == input[start..][n..]
    ensures AllWellFormed(pieces) && Page(pieces) == input
  {
    PageCons(tag, tail);
    PageCons(Text(input[..start]), [tag] + tail);
    Rejoin(input, start, n);
    pieces := [Text(input[..start])] + ([tag] + tail);
  }

  /** A scan completes exactly on the pages made of well-formed pieces. */
  lemma CompletesOnPages(input: string)
    ensures Completes(input) <==> exists pieces :: AllWellFormed(pieces) && Page(pieces) == input
  {
    if Completes(input) {
      var pieces := CompletedIsPage(input);
    }
    forall pieces | AllWellFormed(pieces) && Page(pieces) == input ensures Completes(input) {
      ScanKeepsText(pieces);
    }
  }
}
