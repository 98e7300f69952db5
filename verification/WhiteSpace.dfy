/** `split_whitespace().collect().join(" ")` as the source writes it, and a one-pass form of it that squeezes
    every run of white space into one blank. The two agree on every text, so that the sanitizer of HtmlText can
    be reasoned about one character at a time. */
module WhiteSpace {
  import opened Text

  /** Length of the run of non-space characters at the start. */
  function WordLength(s: string): (k: nat)
    ensures k <= |s|
    ensures forall i :: 0 <= i < k ==> !IsSpace(s[i])
    ensures k < |s| ==> IsSpace(s[k])
  {
    if s == "" || IsSpace(s[0]) then 0 else 1 + WordLength(s[1..])
  }

  lemma {:induction false} TrimmedStart(s: string)
    ensures |TrimStart(s)| <= |s|
    ensures TrimStart(s) != "" ==> !IsSpace(TrimStart(s)[0])
  {
    if s != "" && IsSpace(s[0]) {
      TrimmedStart(s[1..]);
    }
  }

  function Words(s: string): seq<string>
    decreases |s|
  {
    TrimmedStart(s);
    var t := TrimStart(s);
    if t == "" then [] else [t[..WordLength(t)]] + Words(t[WordLength(t)..])
  }

  function Join(words: seq<string>): string {
    if words == [] then ""
    else if |words| == 1 then words[0]
    else words[0] + " " + Join(words[1..])
  }

  /** The same text in one pass; `inWord` is whether a word came just before. */
  function Squeeze(s: string, inWord: bool): string {
    if s == "" then ""
    else if !IsSpace(s[0]) then [s[0]] + Squeeze(s[1..], true)
    else
      var t := Squeeze(s[1..], false);
      if inWord && t != "" then " " + t else t
  }

  lemma {:induction false} SqueezeSkipsSpace(s: string)
    ensures Squeeze(s, false) == Squeeze(TrimStart(s), false)
  {
    if s != "" && IsSpace(s[0]) {
      SqueezeSkipsSpace(s[1..]);
    }
  }

  lemma {:induction false} SqueezeWord(s: string, inWord: bool)
    requires s != "" && !IsSpace(s[0])
    ensures Squeeze(s, inWord) == s[..WordLength(s)] + Squeeze(s[WordLength(s)..], true)
  {
    var rest := s[1..];
    var m := WordLength(rest);
    assert s[..m + 1] == [s[0]] + rest[..m] && s[m + 1..] == rest[m..];
    if m > 0 {
      SqueezeWord(rest, true);
      assert [s[0]] + (rest[..m] + Squeeze(rest[m..], true)) == [s[0]] + rest[..m] + Squeeze(rest[m..], true);
    } else {
      assert rest[m..] == rest;
    }
  }

  /** The one-pass form is the joined words. */
  lemma {:induction false} SqueezeJoinsWords(s: string)
    ensures Squeeze(s, false) == Join(Words(s))
    ensures Words(s) == [] <==> Squeeze(s, false) == ""
    decreases |s|
  {
    var t := TrimStart(s);
    TrimmedStart(s);
    SqueezeSkipsSpace(s);
    if t != "" {
      var k := WordLength(t);
      var rest := t[k..];
      SqueezeWord(t, false);
      SqueezeJoinsWords(rest);
      assert Words(s)[1..] == Words(rest);
      assert t[..k] + "" == t[..k];
      assert k < |t| ==> rest[0] == t[k];
      assert Squeeze(rest, true) == if Squeeze(rest, false) == "" then "" else " " + Squeeze(rest, false) by {
        SqueezeAfterWord(rest);
      }
      assert t[..k] + (" " + Squeeze(rest, false)) == t[..k] + " " + Squeeze(rest, false);
    }
  }

  lemma SqueezeAfterWord(s: string)
    requires s != "" ==> IsSpace(s[0])
    ensures Squeeze(s, true) == if Squeeze(s, false) == "" then "" else " " + Squeeze(s, false)
  {
  }

  // ---- what it keeps ----

  /** The characters that are not white space, in order. */
  function NonBlank(s: string): string {
    if s == "" then ""
    else if IsSpace(s[0]) then NonBlank(s[1..])
    else [s[0]] + NonBlank(s[1..])
  }

  lemma {:induction false} NonBlankOfConcat(a: string, b: string)
    ensures NonBlank(a + b) == NonBlank(a) + NonBlank(b)
  {
    if a == "" {
      assert a + b == b;
    } else {
      assert (a + b)[1..] == a[1..] + b;
      NonBlankOfConcat(a[1..], b);
    }
  }

  lemma {:induction false} NonBlankHas(s: string, c: char)
    requires !IsSpace(c)
    ensures c in NonBlank(s) <==> c in s
  {
    if s != "" {
      assert s == [s[0]] + s[1..];
      NonBlankHas(s[1..], c);
    }
  }

  lemma {:induction false} SqueezeKeepsNonBlank(s: string, inWord: bool)
    ensures NonBlank(Squeeze(s, inWord)) == NonBlank(s)
  {
    if s != "" {
      if IsSpace(s[0]) {
        SqueezeKeepsNonBlank(s[1..], false);
        assert (" " + Squeeze(s[1..], false))[1..] == Squeeze(s[1..], false);
      } else {
        SqueezeKeepsNonBlank(s[1..], true);
        assert ([s[0]] + Squeeze(s[1..], true))[1..] == Squeeze(s[1..], true);
      }
    }
  }

  /** Single spaces, and only between words. */
  ghost predicate SingleSpaced(s: string) {
    && (s != "" ==> !IsSpace(s[|s| - 1]))
    && (forall i :: 0 <= i < |s| && IsSpace(s[i]) ==> SingleSpaceAt(s, i))
  }

  ghost predicate SingleSpaceAt(s: string, i: nat)
    requires i < |s|
  {
    s[i] == ' ' && i > 0 && (i + 1 < |s| ==> !IsSpace(s[i + 1]))
  }

  lemma StartsWithWord(s: string)
    requires SingleSpaced(s) && s != ""
    ensures !IsSpace(s[0])
  {
    assert !SingleSpaceAt(s, 0);
  }

  lemma SingleSpacedCons(c: char, t: string)
    requires !IsSpace(c) && (SingleSpaced(t) || (t != "" && t[0] == ' ' && t[1..] != "" && SingleSpaced(t[1..])))
    ensures SingleSpaced([c] + t)
  {
    var s := [c] + t;
    forall i: nat | i < |s| && IsSpace(s[i]) ensures SingleSpaceAt(s, i) {
      if SingleSpaced(t) {
        assert SingleSpaceAt(t, i - 1);
      } else if i > 1 {
        assert t[1..][i - 2] == s[i];
        assert SingleSpaceAt(t[1..], i - 2);
      } else {
        assert s[2] == t[1..][0];
        StartsWithWord(t[1..]);
      }
    }
  }

  lemma {:induction false} SqueezeIsSingleSpaced(s: string, inWord: bool)
    ensures var t := Squeeze(s, inWord);
            SingleSpaced(t) || (inWord && t != "" && t[0] == ' ' && t[1..] != "" && SingleSpaced(t[1..]))
  {
    if s != "" {
      var t := Squeeze(s[1..], !IsSpace(s[0]));
      SqueezeIsSingleSpaced(s[1..], !IsSpace(s[0]));
      if IsSpace(s[0]) {
        assert (" " + t)[1..] == t;
      } else {
        SingleSpacedCons(s[0], t);
      }
    }
  }

  /** Text that is already single-spaced is left alone. */
  lemma {:induction false} SqueezeKeepsSingleSpaced(s: string)
    requires SingleSpaced(s)
    ensures Squeeze(s, false) == s
    ensures s != "" ==> Squeeze(s, true) == s
  {
    if s != "" {
      var rest := s[1..];
      StartsWithWord(s);
      if rest == "" {
        assert s == [s[0]];
      } else if IsSpace(rest[0]) {
        assert SingleSpaceAt(s, 1);
        TailIsSingleSpaced(s, 2);
        SqueezeKeepsSingleSpaced(s[2..]);
        assert rest == " " + s[2..] && rest[1..] == s[2..];
        assert s == [s[0]] + rest;
      } else {
        TailIsSingleSpaced(s, 1);
        SqueezeKeepsSingleSpaced(rest);
        assert s == [s[0]] + rest;
      }
    }
  }

  lemma TailIsSingleSpaced(s: string, n: nat)
    requires SingleSpaced(s) && n < |s| && !IsSpace(s[n])
    ensures SingleSpaced(s[n..])
  {
    var t := s[n..];
    forall i: nat | i < |t| && IsSpace(t[i]) ensures SingleSpaceAt(t, i) {
      assert SingleSpaceAt(s, n + i);
    }
  }

  /** Squeezing twice is squeezing once. */
  lemma SqueezeTwice(s: string)
    ensures Squeeze(Squeeze(s, false), false) == Squeeze(s, false)
  {
    SqueezeIsSingleSpaced(s, false);
    SqueezeKeepsSingleSpaced(Squeeze(s, false));
  }

  // ---- text before and after a fixed place ----

  /** One more character in front. */
  lemma SqueezeCons(c: char, s: string, inWord: bool)
    ensures var t := Squeeze(s, !IsSpace(c));
            Squeeze([c] + s, inWord) == if !IsSpace(c) then [c] + t else if inWord && t != "" then " " + t else t
  {
    assert ([c] + s)[1..] == s;
  }

  lemma NonBlankCons(c: char, s: string)
    ensures NonBlank([c] + s) == if IsSpace(c) then NonBlank(s) else [c] + NonBlank(s)
  {
    assert ([c] + s)[1..] == s;
  }

  lemma SqueezeFront(a: string, r: string, inWord: bool)
    requires a != ""
    ensures var c := a[0]; var t := Squeeze(a[1..] + r, !IsSpace(c));
            && Squeeze(a + r, inWord) == (if !IsSpace(c) then [c] + t else if inWord && t != "" then " " + t else t)
            && NonBlank(a) == (if IsSpace(c) then NonBlank(a[1..]) else [c] + NonBlank(a[1..]))
  {
    assert a + r == [a[0]] + (a[1..] + r);
    SqueezeCons(a[0], a[1..] + r, inWord);
  }

  /** What comes before a non-space character does not affect how the rest is squeezed. */
  lemma {:induction false} SqueezeSplits(a: string, r: string, inWord: bool) returns (b: string)
    requires r != "" && !IsSpace(r[0])
    ensures Squeeze(a + r, inWord) == b + Squeeze(r, false)
    ensures NonBlank(b) == NonBlank(a)
  {
    if a == "" {
      assert a + r == r;
      b := "";
      assert b + Squeeze(r, false) == Squeeze(r, false);
    } else {
      var c, rest := a[0], a[1..];
      var b' := SqueezeSplits(rest, r, !IsSpace(c));
      SqueezeFront(a, r, inWord);
      b := SplitFront(c, b', Squeeze(r, false), inWord);
    }
  }

  /** The front of the squeezed text, with one more character. */
  lemma SplitFront(c: char, rest: string, q: string, inWord: bool) returns (b: string)
    ensures var t := rest + q;
            b + q == if !IsSpace(c) then [c] + t else if inWord && t != "" then " " + t else t
    ensures NonBlank(b) == if IsSpace(c) then NonBlank(rest) else [c] + NonBlank(rest)
  {
    assert IsSpace(' ');
    if !IsSpace(c) {
      b := [c] + rest;
      NonBlankCons(c, rest);
      assert b + q == [c] + (rest + q);
    } else if inWord && rest + q != "" {
      b := " " + rest;
      NonBlankCons(' ', rest);
      assert b + q == " " + (rest + q);
    } else {
      b := rest;
    }
  }

  predicate OccursAt(s: string, i: nat, p: string) {
    i + |p| <= |s| && forall k :: 0 <= k < |p| ==> s[i + k] == p[k]
  }

  lemma OccursInTail(s: string, d: nat, i: nat, p: string)
    requires d <= |s|
    ensures OccursAt(s[d..], i, p) <==> OccursAt(s, d + i, p)
  {
  }

  predicate NoSpace(p: string) {
    forall k :: 0 <= k < |p| ==> !IsSpace(p[k])
  }

  /** A word that starts the squeezed text starts the text. */
  lemma {:induction false} SqueezeKeepsStart(s: string, p: string)
    requires NoSpace(p) && OccursAt(Squeeze(s, true), 0, p)
    ensures OccursAt(s, 0, p)
  {
    if p != "" {
      var t := Squeeze(s, true);
      assert t[0] == p[0] && !IsSpace(t[0]) && IsSpace(' ');
      assert !IsSpace(s[0]);
      var rest := p[1..];
      assert t[1..] == Squeeze(s[1..], true);
      forall k | 0 <= k < |rest| ensures t[1..][k] == rest[k] {
        assert t[0 + (k + 1)] == p[k + 1];
      }
      SqueezeKeepsStart(s[1..], rest);
      forall k | 0 <= k < |p| ensures s[0 + k] == p[k] {
        if k > 0 {
          assert s[1..][0 + (k - 1)] == rest[k - 1];
        }
      }
    }
  }

  /** Squeezing a character adds at most one: itself, or a space. */
  lemma SqueezeOne(s: string, inWord: bool)
    requires s != ""
    ensures var t, u := Squeeze(s, inWord), Squeeze(s[1..], !IsSpace(s[0]));
            t == u || (|t| == |u| + 1 && t[1..] == u && (!IsSpace(t[0]) ==> t == Squeeze(s, true)))
  {
    assert IsSpace(' ');
  }

  /** A word in the squeezed text is in the text. */
  lemma {:induction false} SqueezedWord(s: string, inWord: bool, i: nat, p: string) returns (j: nat)
    requires p != "" && NoSpace(p) && OccursAt(Squeeze(s, inWord), i, p)
    ensures OccursAt(s, j, p)
  {
    var t, u := Squeeze(s, inWord), Squeeze(s[1..], !IsSpace(s[0]));
    SqueezeOne(s, inWord);
    assert t[i + 0] == p[0] && !IsSpace(t[i]);
    if t == u {
      j := SqueezedWord(s[1..], !IsSpace(s[0]), i, p);
      OccursInTail(s, 1, j, p);
      j := j + 1;
    } else if i == 0 {
      SqueezeKeepsStart(s, p);
      j := 0;
    } else {
      OccursInTail(t, 1, i - 1, p);
      j := SqueezedWord(s[1..], !IsSpace(s[0]), i - 1, p);
      OccursInTail(s, 1, j, p);
      j := j + 1;
    }
  }
}
