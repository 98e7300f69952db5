/** Text that comes out twice (src/research_policy.rs): exactly when, over all inputs. */
module HtmlShown {
  import opened Collections
  import opened Outcomes
  import opened WhiteSpace
  import opened HtmlText
  import opened HtmlTwice

  /** What the scan would leave if it put nothing out twice. */
  ghost function Once(source: string, cut: Cutter): string
    requires Cuts(cut)
    decreases |source|
  {
    var start := IndexOf(source, '<');
    if start == |source| then source
    else match cut(source[start..])
      case None => source
      case Some(n) => source[..start] + Once(source[start..][n..], cut)
  }

  /** The text right before the tag at which the scan stops, from the tag before it on; empty when the scan
      completes. */
  ghost function Last(source: string, cut: Cutter): string
    requires Cuts(cut)
    decreases |source|
  {
    var start := IndexOf(source, '<');
    if start == |source| then ""
    else match cut(source[start..])
      case None => source[..start]
      case Some(n) => Last(source[start..][n..], cut)
  }

  lemma OnceCut(source: string, cut: Cutter, n: nat)
    requires Cuts(cut)
    requires var start := IndexOf(source, '<'); start < |source| && cut(source[start..]) == Some(n)
    ensures var start := IndexOf(source, '<'); var rest := source[start..][n..];
            Once(source, cut) == source[..start] + Once(rest, cut) && Last(source, cut) == Last(rest, cut)
  {
  }

  /** Where the last text stands in what the scan leaves, and where it would stand alone. */
  ghost predicate Around(source: string, cut: Cutter, before: string, after: string)
    requires Cuts(cut)
  {
    var last := Last(source, cut);
    && Scan(source, cut) == before + (last + (last + after))
    && Once(source, cut) == before + (last + after)
  }

  lemma {:induction false} LastStandsTwice(source: string, cut: Cutter) returns (before: string, after: string)
    requires Cuts(cut)
    ensures Around(source, cut, before, after)
    decreases |source|
  {
    var start := IndexOf(source, '<');
    if start == |source| {
      before, after := "", source;
      assert "" + ("" + ("" + source)) == source;
    } else {
      match cut(source[start..])
      case None =>
        before, after := "", source[start..];
        assert source == source[..start] + source[start..];
        assert "" + (source[..start] + source) == source[..start] + source;
      case Some(n) =>
        var later := source[start..][n..];
        var head: string;
        head, after := LastStandsTwice(later, cut);
        before := source[..start] + head;
        ScanCut(source, cut, n);
        OnceCut(source, cut, n);
        Prepended(source[..start], head, Last(later, cut), after);
    }
  }

  lemma Prepended(text: string, head: string, last: string, after: string)
    ensures text + (head + (last + (last + after))) == text + head + (last + (last + after))
    ensures text + (head + (last + after)) == text + head + (last + after)
  {
  }

  lemma SanitizedKeepsNonBlank(input: string)
    ensures NonBlank(Sanitized(input)) == NonBlank(Scan(input, Removed))
  {
    SanitizedIsSqueezed(input);
    SqueezeKeepsNonBlank(Scan(input, Removed), false);
  }

  lemma NonBlankAround(before: string, last: string, after: string)
    ensures NonBlank(before + (last + (last + after)))
         == NonBlank(before) + (NonBlank(last) + (NonBlank(last) + NonBlank(after)))
    ensures NonBlank(before + (last + after)) == NonBlank(before) + (NonBlank(last) + NonBlank(after))
  {
    NonBlankOfConcat(before, last + (last + after));
    NonBlankOfConcat(last, last + after);
    NonBlankOfConcat(before, last + after);
    NonBlankOfConcat(last, after);
  }

  /** For every input: the output is what the scan leaves, with the text right before the tag at which it stops
      put out twice; so nothing is out twice exactly if that text is white space. */
  lemma ShownTwiceExactly(input: string) returns (before: string, after: string)
    ensures var last, out, once := NonBlank(Last(input, Removed)), NonBlank(Sanitized(input)),
                                   NonBlank(Once(input, Removed));
            && out == before + (last + (last + after)) && once == before + (last + after)
            && (out == once <==> last == "")
  {
    var head, tail := LastStandsTwice(input, Removed);
    NonBlankAround(head, Last(input, Removed), tail);
    SanitizedKeepsNonBlank(input);
    before, after := NonBlank(head), NonBlank(tail);
    Doubling(before, NonBlank(Last(input, Removed)), after);
  }

  lemma Doubling(before: string, last: string, after: string)
    ensures before + (last + (last + after)) == before + (last + after) <==> last == ""
  {
    if last == "" {
      assert last + (last + after) == last + after;
    } else {
      assert |before + (last + (last + after))| > |before + (last + after)|;
    }
  }

  lemma {:induction false} OnceTakesFrom(source: string, cut: Cutter)
    requires Cuts(cut)
    ensures Subsequence(NonBlank(Once(source, cut)), NonBlank(source))
    decreases |source|
  {
    var start := IndexOf(source, '<');
    if start == |source| || cut(source[start..]) == None {
      AllTaken(source);
    } else {
      var n := cut(source[start..]).value;
      var rest := source[start..][n..];
      OnceCut(source, cut, n);
      OnceTakesFrom(rest, cut);
      assert rest == source[start + n..];
      TakenPart(source, start, n, Once(rest, cut));
    }
  }

  /** Put out once, every text comes from its input, in order, whether the scan completes or not; and a completed
      scan is put out once. */
  lemma OnceComesFromInput(input: string)
    ensures Subsequence(NonBlank(Once(input, Removed)), NonBlank(input))
    ensures Completes(input) ==> Once(input, Removed) == Scan(input, Removed) && Last(input, Removed) == ""
  {
    OnceTakesFrom(input, Removed);
    if Completes(input) {
      CompletedIsOnce(input, Removed);
    }
  }

  lemma {:induction false} CompletedIsOnce(source: string, cut: Cutter)
    requires Cuts(cut) && Closes(source, cut)
    ensures Once(source, cut) == Scan(source, cut) && Last(source, cut) == ""
    decreases |source|
  {
    var start := IndexOf(source, '<');
    if start < |source| {
      var n := cut(source[start..]).value;
      ScanCut(source, cut, n);
      OnceCut(source, cut, n);
      CompletedIsOnce(source[start..][n..], cut);
    }
  }
}
