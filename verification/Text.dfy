/** Files and sockets carry bytes. */
module Bytes {
  newtype byte = x: int | 0 <= x < 256

  const NEWLINE: byte := 10
}

/** String operations of the Rust standard library that the components share. A string is a sequence of
    characters; lengths in bytes are those of its UTF-8 encoding. */
module Text {
  import opened Outcomes

  predicate StartsWith(s: string, prefix: string) {
    |prefix| <= |s| && s[..|prefix|] == prefix
  }

  predicate EndsWith(s: string, suffix: string) {
    |suffix| <= |s| && s[|s| - |suffix|..] == suffix
  }

  function StripPrefix(s: string, prefix: string): Option<string> {
    if StartsWith(s, prefix) then Some(s[|prefix|..]) else None
  }

  predicate IsAsciiAlphanumeric(c: char) {
    'a' <= c <= 'z' || 'A' <= c <= 'Z' || '0' <= c <= '9'
  }

  /** The characters of a Box ID: `safe_unit_name` and `valid_box_id` agree on them. */
  predicate IsBoxIdText(s: string) {
    s != "" && |s| <= 48 && forall i :: 0 <= i < |s| ==> IsAsciiAlphanumeric(s[i]) || s[i] == '-' || s[i] == '_'
  }

  /** 1 to 48 ASCII letters, digits, hyphens and underscores, by their codes. */
  ghost predicate IdOk(id: string) {
    1 <= |id| <= 48 && forall c :: c in id ==> IdCode(c as int)
  }

  predicate IdCode(code: int) {
    48 <= code <= 57 || 65 <= code <= 90 || 97 <= code <= 122 || code == 45 || code == 95
  }

  lemma IdExactly(id: string)
    ensures IsBoxIdText(id) <==> IdOk(id)
  {
    assert forall i :: 0 <= i < |id| ==> id[i] in id;
  }

  /** The Unicode property White_Space, which `trim` and `split_whitespace` use. */
  predicate IsSpace(c: char) {
    var n := c as int;
    9 <= n <= 13 || n == 32 || n == 0x85 || n == 0xA0 || n == 0x1680 || 0x2000 <= n <= 0x200A
    || n == 0x2028 || n == 0x2029 || n == 0x202F || n == 0x205F || n == 0x3000
  }

  /** The 25 codes that have the property. */
  const SPACES: set<int> := {
    9, 10, 11, 12, 13, 32, 133, 160, 5760, 8192, 8193, 8194, 8195, 8196, 8197, 8198, 8199, 8200, 8201, 8202,
    8232, 8233, 8239, 8287, 12288
  }

  lemma SpacesExactly(c: char)
    ensures IsSpace(c) <==> c as int in SPACES
  {
  }

  function TrimStart(s: string): string {
    if s != "" && IsSpace(s[0]) then TrimStart(s[1..]) else s
  }

  function TrimEnd(s: string): string {
    if s != "" && IsSpace(s[|s| - 1]) then TrimEnd(s[..|s| - 1]) else s
  }

  function Trim(s: string): string {
    TrimEnd(TrimStart(s))
  }

  ghost predicate Blank(s: string) {
    forall c :: c in s ==> IsSpace(c)
  }

  lemma {:induction false} TrimStartBlank(s: string)
    ensures TrimStart(s) == "" <==> Blank(s)
  {
    if s != "" {
      TrimStartBlank(s[1..]);
      assert s == [s[0]] + s[1..];
      assert s[0] in s;
    }
  }

  lemma {:induction false} TrimEndBlank(s: string)
    ensures TrimEnd(s) == "" <==> Blank(s)
  {
    if s != "" {
      TrimEndBlank(s[..|s| - 1]);
      assert s == s[..|s| - 1] + [s[|s| - 1]];
      assert s[|s| - 1] in s;
    }
  }

  lemma {:induction false} TrimStartIsTail(s: string)
    ensures Blank(TrimStart(s)) <==> Blank(s)
  {
    if s != "" && IsSpace(s[0]) {
      TrimStartIsTail(s[1..]);
      assert s == [s[0]] + s[1..];
    }
  }

  lemma TrimBlank(s: string)
    ensures Trim(s) == "" <==> Blank(s)
  {
    TrimEndBlank(TrimStart(s));
    TrimStartIsTail(s);
  }

  /** Length of a character in UTF-8. */
  function Utf8Width(c: char): (n: nat)
    ensures 1 <= n <= 4
    ensures n == 1 <==> c as int < 0x80
  {
    var code := c as int;
    if code < 0x80 then 1 else if code < 0x800 then 2 else if code < 0x10000 then 3 else 4
  }

  function Pow2(n: nat): nat {
    if n == 0 then 1 else 2 * Pow2(n - 1)
  }

  /** Bits of a code that an encoding of `width` bytes carries (section 3 of RFC 3629): seven in the one byte
      of ASCII, else six in each byte after the first and `7 - width` in the first. */
  function CodeBits(width: nat): nat
    requires 1 <= width <= 4
  {
    if width == 1 then 7 else 6 * (width - 1) + (7 - width)
  }

  /** A character takes the fewest bytes whose bits hold its code. */
  lemma Utf8WidthExactly(c: char, width: nat)
    requires 1 <= width <= 4
    ensures Utf8Width(c) <= width <==> c as int < Pow2(CodeBits(width))
  {
    assert Pow2(7) == 128;
    assert Pow2(11) == 16 * Pow2(7);
    assert Pow2(16) == 32 * Pow2(11);
    assert Pow2(21) == 32 * Pow2(16);
  }

  /** Length in UTF-8, which is what `str::len` counts. */
  function Utf8Length(s: string): nat {
    if s == "" then 0 else Utf8Width(s[0]) + Utf8Length(s[1..])
  }

  predicate IsAscii(s: string) {
    forall i :: 0 <= i < |s| ==> s[i] as int < 0x80
  }

  /** Bytes are at least as many as characters, and as many exactly in ASCII text. */
  lemma {:induction false} AsciiLength(s: string)
    ensures Utf8Length(s) >= |s|
    ensures Utf8Length(s) == |s| <==> IsAscii(s)
  {
    if s != "" {
      AsciiLength(s[1..]);
      assert s == [s[0]] + s[1..];
    }
  }

  /** Byte `n` starts a character or ends the text; slicing a `str` anywhere else panics. */
  predicate IsCharBoundary(s: string, n: nat) {
    n == 0 || (s != "" && Utf8Width(s[0]) <= n && IsCharBoundary(s[1..], n - Utf8Width(s[0])))
  }

  /** Byte `n` is inside the character at `k`. */
  ghost predicate Inside(s: string, k: nat, n: nat)
    requires k < |s|
  {
    Utf8Length(s[..k]) < n < Utf8Length(s[..k + 1])
  }

  ghost predicate Straddled(s: string, n: nat) {
    exists k :: 0 <= k < |s| && Inside(s, k, n)
  }

  lemma PrefixLength(s: string, k: nat)
    requires 0 < k <= |s|
    ensures Utf8Length(s[..k]) == Utf8Width(s[0]) + Utf8Length(s[1..][..k - 1])
  {
    assert s[..k][1..] == s[1..][..k - 1];
  }

  lemma InsideNext(s: string, k: nat, n: nat)
    requires 0 < k < |s|
    ensures Inside(s, k, n) <==> Utf8Width(s[0]) <= n && Inside(s[1..], k - 1, n - Utf8Width(s[0]))
  {
    PrefixLength(s, k);
    PrefixLength(s, k + 1);
  }

  lemma StraddledWithin(s: string, n: nat)
    ensures Straddled(s, n) ==> n < Utf8Length(s)
  {
    if Straddled(s, n) {
      var k :| 0 <= k < |s| && Inside(s, k, n);
      PrefixShorter(s, k + 1);
    }
  }

  lemma {:induction false} PrefixShorter(s: string, k: nat)
    requires k <= |s|
    ensures Utf8Length(s[..k]) <= Utf8Length(s)
  {
    if k > 0 {
      PrefixLength(s, k);
      PrefixShorter(s[1..], k - 1);
    }
  }

  /** Within the text a byte is a boundary exactly if it is inside no character. */
  lemma {:induction false} BoundaryExactly(s: string, n: nat)
    ensures IsCharBoundary(s, n) <==> n <= Utf8Length(s) && !Straddled(s, n)
  {
    if s != "" {
      var width := Utf8Width(s[0]);
      assert s[..0] == "" && s[..1] == [s[0]] && s[..1][1..] == "";
      assert Inside(s, 0, n) <==> 0 < n < width;
      if n >= width {
        BoundaryExactly(s[1..], n - width);
        forall k | 0 < k < |s| ensures Inside(s, k, n) <==> Inside(s[1..], k - 1, n - width) {
          InsideNext(s, k, n);
        }
        if Straddled(s[1..], n - width) {
          var k :| 0 <= k < |s[1..]| && Inside(s[1..], k, n - width);
          assert Inside(s, k + 1, n);
        }
      } else {
        forall k | 0 < k < |s| ensures !Inside(s, k, n) {
          InsideNext(s, k, n);
        }
      }
    }
  }
}
