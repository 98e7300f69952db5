/** Capitals and small letters (src/research_policy.rs): the scanner and what it returns do not depend on the case of
    the markup, and keep the case of the text. Inputs that differ only in the case of ASCII letters are cut alike,
    byte by byte, whatever the tags are. */
module HtmlCase {
  import opened Collections
  import opened Outcomes
  import opened Text
  import opened WhiteSpace
  import opened HtmlText
  import opened HtmlTwice
  import opened HtmlPieces

  /** The same character, or the same ASCII letter in the other case. */
  predicate SameButCase(c: char, d: char) {
    || c == d
    || ('a' <= c <= 'z' && d as int == c as int - 32)
    || ('a' <= d <= 'z' && c as int == d as int - 32)
  }

  ghost predicate CaseOnly(a: string, b: string) {
    |a| == |b| && forall i :: 0 <= i < |a| ==> SameButCase(a[i], b[i])
  }

  lemma CaseOnlyParts(a: string, b: string, i: nat)
    requires CaseOnly(a, b) && i <= |a|
    ensures CaseOnly(a[..i], b[..i]) && CaseOnly(a[i..], b[i..])
  {
  }

  lemma CaseOnlyJoined(a: string, b: string, c: string, d: string)
    requires CaseOnly(a, b) && CaseOnly(c, d)
    ensures CaseOnly(a + c, b + d)
  {
  }

  // ---- what the scanner looks at ----

  lemma LetterByCase(c: char, d: char, p: char)
    requires SameButCase(c, d) && !('A' <= p <= 'Z')
    ensures IsLetter(c, p) <==> IsLetter(d, p)
  {
  }

  lemma StandsByCase(a: string, b: string, i: nat, pattern: string)
    requires CaseOnly(a, b) && NoCapitals(pattern)
    ensures StandsAt(a, i, pattern) <==> StandsAt(b, i, pattern)
  {
    if i + |pattern| <= |a| {
      forall k | 0 <= k < |pattern| ensures IsLetter(a[i + k], pattern[k]) <==> IsLetter(b[i + k], pattern[k]) {
        LetterByCase(a[i + k], b[i + k], pattern[k]);
      }
    }
  }

  lemma MatchesByCase(a: string, b: string, i: nat, pattern: string)
    requires CaseOnly(a, b) && IsPattern(pattern)
    ensures MatchesAt(a, i, pattern) <==> MatchesAt(b, i, pattern)
  {
    StandsByCase(a, b, i, pattern);
    PatternMatches(a, i, pattern);
    PatternMatches(b, i, pattern);
  }

  lemma FindByCase(a: string, b: string, pattern: string)
    requires CaseOnly(a, b) && IsPattern(pattern)
    ensures FindFrom(a, 0, pattern) == FindFrom(b, 0, pattern)
  {
    forall i: nat ensures MatchesAt(a, i, pattern) <==> MatchesAt(b, i, pattern) {
      MatchesByCase(a, b, i, pattern);
    }
  }

  lemma IndexByCase(a: string, b: string, c: char)
    requires CaseOnly(a, b) && (c == '<' || c == '>')
    ensures IndexOf(a, c) == IndexOf(b, c)
  {
    var i, j := IndexOf(a, c), IndexOf(b, c);
    assert i < |a| ==> SameButCase(a[i], b[i]);
    assert j < |b| ==> SameButCase(a[j], b[j]);
  }

  lemma RemovedByCase(a: string, b: string)
    requires CaseOnly(a, b)
    ensures Removed(a) == Removed(b)
  {
    MatchesByCase(a, b, 0, SCRIPT);
    MatchesByCase(a, b, 0, STYLE);
    FindByCase(a, b, END_SCRIPT);
    FindByCase(a, b, END_STYLE);
    IndexByCase(a, b, '>');
  }

  lemma WidthByCase(c: char, d: char)
    requires SameButCase(c, d)
    ensures Utf8Width(c) == Utf8Width(d) && (IsSpace(c) <==> IsSpace(d))
  {
  }

  lemma {:induction false} BytesByCase(a: string, b: string, n: nat)
    requires CaseOnly(a, b)
    ensures Utf8Length(a) == Utf8Length(b) && (IsCharBoundary(a, n) <==> IsCharBoundary(b, n))
  {
    if a != "" {
      WidthByCase(a[0], b[0]);
      CaseOnlyParts(a, b, 1);
      BytesByCase(a[1..], b[1..], if n >= Utf8Width(a[0]) then n - Utf8Width(a[0]) else 0);
    }
  }

  lemma SliceableByCase(a: string, b: string)
    requires CaseOnly(a, b)
    ensures Sliceable(a) <==> Sliceable(b)
  {
    BytesByCase(a, b, 8);
    BytesByCase(a, b, 7);
    MatchesByCase(a, b, 0, SCRIPT);
  }

  // ---- the scan ----

  /** Scanned alike: the same pieces are kept, in their own case. */
  ghost predicate ScannedAlike(a: string, b: string) {
    && CaseOnly(Scan(a, Removed), Scan(b, Removed))
    && (Completes(a) <==> Completes(b))
    && (AtEveryTag(a, Removed, Sliceable) <==> AtEveryTag(b, Removed, Sliceable))
  }

  lemma AlikeOneMore(a: string, b: string, n: nat)
    requires CaseOnly(a, b)
    requires var start := IndexOf(a, '<');
             && start < |a| && start == IndexOf(b, '<')
             && Removed(a[start..]) == Some(n) && Removed(b[start..]) == Some(n)
             && ScannedAlike(a[start..][n..], b[start..][n..]) && (Sliceable(a[start..]) <==> Sliceable(b[start..]))
    ensures ScannedAlike(a, b)
  {
    var start := IndexOf(a, '<');
    CaseOnlyParts(a, b, start);
    ScanCut(a, Removed, n);
    ScanCut(b, Removed, n);
    NextTag(a, Removed, Sliceable);
    NextTag(b, Removed, Sliceable);
    CaseOnlyJoined(a[..start], b[..start], Scan(a[start..][n..], Removed), Scan(b[start..][n..], Removed));
  }

  lemma AlikeAtLast(a: string, b: string)
    requires CaseOnly(a, b) && IndexOf(a, '<') == IndexOf(b, '<')
    requires var start := IndexOf(a, '<');
             start < |a| ==> Removed(a[start..]) == None && Removed(b[start..]) == None
                             && (Sliceable(a[start..]) <==> Sliceable(b[start..]))
    ensures ScannedAlike(a, b)
  {
    var start := IndexOf(a, '<');
    CaseOnlyParts(a, b, start);
    CaseOnlyJoined(a[..start], b[..start], a, b);
    NextTag(a, Removed, Sliceable);
    NextTag(b, Removed, Sliceable);
  }

  lemma {:induction false} ScansAlike(a: string, b: string)
    requires CaseOnly(a, b)
    ensures ScannedAlike(a, b)
    decreases |a|
  {
    var start := IndexOf(a, '<');
    IndexByCase(a, b, '<');
    CaseOnlyParts(a, b, start);
    RemovedByCase(a[start..], b[start..]);
    SliceableByCase(a[start..], b[start..]);
    if start < |a| && Removed(a[start..]).Some? {
      var n := Removed(a[start..]).value;
      CaseOnlyParts(a[start..], b[start..], n);
      ScansAlike(a[start..][n..], b[start..][n..]);
      AlikeOneMore(a, b, n);
    } else {
      AlikeAtLast(a, b);
    }
  }

  lemma {:induction false} SqueezedByCase(a: string, b: string, inWord: bool)
    requires CaseOnly(a, b)
    ensures CaseOnly(Squeeze(a, inWord), Squeeze(b, inWord))
  {
    if a != "" {
      WidthByCase(a[0], b[0]);
      CaseOnlyParts(a, b, 1);
      SqueezedByCase(a[1..], b[1..], !IsSpace(a[0]));
    }
  }

  /** Two inputs that differ only in the case of ASCII letters: a call panics on both or on neither, completes its scan
      on both or on neither, and returns texts that differ only in the case of the letters kept. */
  lemma CaseIsKept(a: string, b: string)
    requires CaseOnly(a, b)
    ensures Completes(a) <==> Completes(b)
    ensures match (Outcome(a), Outcome(b))
            case (Some(x), Some(y)) => CaseOnly(x, y)
            case (None, None) => true
            case _ => false
  {
    ScansAlike(a, b);
    SqueezedByCase(Scan(a, Removed), Scan(b, Removed), false);
    SanitizedIsSqueezed(a);
    SanitizedIsSqueezed(b);
  }

  // ---- the case of markup ----

  /** The same text, or the same markup but for its case. */
  ghost predicate SamePiece(p: Piece, q: Piece) {
    match (p, q)
    case (Text(a), Text(b)) => a == b
    case (Tag(a), Tag(b)) => CaseOnly(a, b)
    case (Block(a, b, c), Block(x, y, z)) => CaseOnly(a, x) && CaseOnly(b, y) && CaseOnly(c, z)
    case _ => false
  }

  ghost predicate SamePage(pieces: seq<Piece>, others: seq<Piece>) {
    |pieces| == |others| && forall i :: 0 <= i < |pieces| ==> SamePiece(pieces[i], others[i])
  }

  lemma IsByCase(a: string, b: string, pattern: string)
    requires CaseOnly(a, b) && IsPattern(pattern)
    ensures Is(a, pattern) <==> Is(b, pattern)
  {
    StandsByCase(a, b, 0, pattern);
  }

  lemma FirstCloserByCase(a: string, b: string, c: string, d: string, pattern: string)
    requires CaseOnly(a, b) && CaseOnly(c, d) && IsPattern(pattern)
    ensures FirstCloser(a, c, pattern) <==> FirstCloser(b, d, pattern)
  {
    CaseOnlyJoined(a, b, c, d);
    forall j | 0 <= j < |a| ensures StandsAt(a + c, j, pattern) <==> StandsAt(b + d, j, pattern) {
      StandsByCase(a + c, b + d, j, pattern);
    }
  }

  lemma TagByCase(a: string, b: string)
    requires CaseOnly(a, b) && WellFormed(Tag(a))
    ensures WellFormed(Tag(b))
  {
    CaseOnlyJoined("<", "<", a, b);
    CaseOnlyJoined("<" + a, "<" + b, ">", ">");
    IsByCase("<" + a + ">", "<" + b + ">", SCRIPT);
    IsByCase("<" + a + ">", "<" + b + ">", STYLE);
    assert forall i :: 0 <= i < |b| ==> SameButCase(a[i], b[i]);
  }

  lemma BlockByCase(a: string, b: string, c: string, x: string, y: string, z: string)
    requires CaseOnly(a, x) && CaseOnly(b, y) && CaseOnly(c, z) && WellFormed(Block(a, b, c))
    ensures WellFormed(Block(x, y, z))
  {
    CaseOnlyJoined(a, x, b, y);
    IsByCase(a, x, SCRIPT);
    IsByCase(a, x, STYLE);
    IsByCase(c, z, END_SCRIPT);
    IsByCase(c, z, END_STYLE);
    FirstCloserByCase(a + b, x + y, c, z, END_SCRIPT);
    FirstCloserByCase(a + b, x + y, c, z, END_STYLE);
  }

  lemma PieceByCase(p: Piece, q: Piece)
    requires SamePiece(p, q) && WellFormed(p)
    ensures WellFormed(q)
  {
    match p
    case Text(_) =>
    case Tag(a) => TagByCase(a, q.body);
    case Block(a, b, c) => BlockByCase(a, b, c, q.opener, q.body, q.closer);
  }

  lemma {:induction false} SameText(pieces: seq<Piece>, others: seq<Piece>)
    requires SamePage(pieces, others)
    ensures TextOf(pieces) == TextOf(others)
  {
    if pieces != [] {
      assert SamePiece(pieces[0], others[0]);
      SameText(pieces[1..], others[1..]);
    }
  }

  /** The case of markup does not matter: a page whose tags, scripts and styles are written in any case is scanned to
      the same text. */
  lemma MarkupCaseIsMoot(pieces: seq<Piece>, others: seq<Piece>)
    requires AllWellFormed(pieces) && SamePage(pieces, others)
    ensures AllWellFormed(others) && Completes(Page(others))
    ensures Scan(Page(others), Removed) == Scan(Page(pieces), Removed) == TextOf(pieces)
    ensures Sanitized(Page(others)) == Sanitized(Page(pieces))
  {
    forall i | 0 <= i < |others| ensures WellFormed(others[i]) {
      PieceByCase(pieces[i], others[i]);
    }
    ScanKeepsText(pieces);
    ScanKeepsText(others);
    SameText(pieces, others);
  }
}
