/** The host allowlist test (src/research_policy.rs) against domain labels, as in section 3.1 of RFC 1034. */
module Hosts {
  import opened Text
  import opened HtmlText
  import opened HtmlCase

  function TrimDots(host: string): string {
    if host != "" && host[|host| - 1] == '.' then TrimDots(host[..|host| - 1]) else host
  }

  function LowerAll(s: string): string {
    seq(|s|, i requires 0 <= i < |s| => Lower(s[i]))
  }

  /** One allowed domain against the normalised host. */
  predicate HostMatches(host: string, allowed: string) {
    host == allowed || EndsWith(host, "." + allowed)
  }

  predicate HostAllowed(host: string, allowedDomains: seq<string>) {
    exists i :: 0 <= i < |allowedDomains| && HostMatches(LowerAll(TrimDots(host)), allowedDomains[i])
  }

  /** A character in front starts a label or lengthens the first one. */
  function Prepended(c: char, labels: seq<string>): (longer: seq<string>)
    requires labels != []
    ensures longer != []
  {
    if c == '.' then [""] + labels else [[c] + labels[0]] + labels[1..]
  }

  /** The labels of a name: what its dots separate. */
  function Labels(name: string): (labels: seq<string>)
    ensures labels != []
  {
    if name == "" then [""]
    else Prepended(name[0], Labels(name[1..]))
  }

  function Dotted(labels: seq<string>): string
    requires labels != []
  {
    if |labels| == 1 then labels[0] else labels[0] + "." + Dotted(labels[1..])
  }

  predicate IsSuffix(a: seq<string>, b: seq<string>) {
    |a| <= |b| && b[|b| - |a|..] == a
  }

  /** The labels are the name cut at its dots. */
  lemma {:induction false} LabelsRoundTrip(name: string)
    ensures Dotted(Labels(name)) == name
    ensures forall i :: 0 <= i < |Labels(name)| ==> '.' !in Labels(name)[i]
  {
    if name != "" {
      var rest := Labels(name[1..]);
      LabelsRoundTrip(name[1..]);
      if name[0] == '.' {
        assert ([""] + rest)[1..] == rest;
        assert "" + "." + Dotted(rest) == name;
      } else {
        var labels := [[name[0]] + rest[0]] + rest[1..];
        assert labels[1..] == rest[1..];
        assert |rest| > 1 ==> [name[0]] + rest[0] + "." + Dotted(rest[1..]) == [name[0]] + Dotted(rest);
      }
    }
  }

  lemma PrependedJoin(c: char, a: seq<string>, b: seq<string>)
    requires a != []
    ensures Prepended(c, a + b) == Prepended(c, a) + b
  {
    assert (a + b)[1..] == a[1..] + b;
  }

  lemma {:induction false} LabelsOfJoin(prefix: string, name: string)
    ensures Labels(prefix + "." + name) == Labels(prefix) + Labels(name)
  {
    var all := prefix + "." + name;
    if prefix == "" {
      assert all[1..] == name && all[0] == '.';
    } else {
      LabelsOfJoin(prefix[1..], name);
      assert all[1..] == prefix[1..] + "." + name && all[0] == prefix[0];
      PrependedJoin(prefix[0], Labels(prefix[1..]), Labels(name));
      assert Labels(all) == Prepended(all[0], Labels(all[1..]));
    }
  }

  /** A suffix of the labels is the name itself, or what follows one of its dots. */
  lemma SuffixIsTail(all: seq<string>, labels: seq<string>)
    requires labels != [] && IsSuffix(labels, all)
    ensures Dotted(all) == Dotted(labels) || EndsWith(Dotted(all), "." + Dotted(labels))
  {
    var k := |all| - |labels|;
    if k == 0 {
      assert all[0..] == all;
    } else {
      DottedTail(all, k);
    }
  }

  lemma {:induction false} DottedTail(labels: seq<string>, k: nat)
    requires 0 < k < |labels|
    ensures EndsWith(Dotted(labels), "." + Dotted(labels[k..]))
  {
    var whole, tail := Dotted(labels), "." + Dotted(labels[k..]);
    if k == 1 {
      assert whole == labels[0] + tail;
    } else {
      DottedTail(labels[1..], k - 1);
      assert labels[1..][k - 1..] == labels[k..];
      var inner := Dotted(labels[1..]);
      assert whole == labels[0] + "." + inner;
      assert whole[|whole| - |tail|..] == inner[|inner| - |tail|..];
    }
  }

  /** The string test accepts exactly the names whose last labels are the allowed domain's labels. */
  lemma {:induction false} MatchIsLabelSuffix(host: string, allowed: string)
    ensures HostMatches(host, allowed) <==> IsSuffix(Labels(allowed), Labels(host))
  {
    LabelsRoundTrip(allowed);
    if host == allowed {
      assert Labels(host)[0..] == Labels(host);
    } else if EndsWith(host, "." + allowed) {
      var prefix := host[..|host| - |allowed| - 1];
      assert host == prefix + "." + allowed;
      LabelsOfJoin(prefix, allowed);
      assert Labels(host)[|Labels(prefix)|..] == Labels(allowed);
    }
    if IsSuffix(Labels(allowed), Labels(host)) {
      LabelsRoundTrip(host);
      SuffixIsTail(Labels(host), Labels(allowed));
    }
  }

  lemma {:induction false} DotsTrimmed(host: string)
    ensures TrimDots(host) <= host
    ensures forall i :: |TrimDots(host)| <= i < |host| ==> host[i] == '.'
    ensures TrimDots(host) != "" ==> TrimDots(host)[|TrimDots(host)| - 1] != '.'
  {
    if host != "" && host[|host| - 1] == '.' {
      DotsTrimmed(host[..|host| - 1]);
    }
  }

  /** `l` is `c`, with a capital ASCII letter made small. */
  predicate Lowered(c: char, l: char) {
    if 'A' <= c <= 'Z' then l as int == c as int + 32 else l == c
  }

  /** `name` is the host without its trailing dots, in small letters. */
  ghost predicate Normalised(host: string, name: string) {
    && |name| <= |host|
    && (forall i :: 0 <= i < |name| ==> Lowered(host[i], name[i]))
    && (forall i :: |name| <= i < |host| ==> host[i] == '.')
    && (name != "" ==> name[|name| - 1] != '.')
  }

  lemma LoweredExactly(c: char)
    ensures Lowered(c, Lower(c)) && !('A' <= Lower(c) <= 'Z') && (Lower(c) == '.' <==> c == '.')
  {
  }

  lemma NormalisedByCode(host: string)
    ensures Normalised(host, LowerAll(TrimDots(host)))
    ensures forall i :: 0 <= i < |LowerAll(TrimDots(host))| ==> !('A' <= LowerAll(TrimDots(host))[i] <= 'Z')
  {
    DotsTrimmed(host);
    var trimmed := TrimDots(host);
    forall i | 0 <= i < |trimmed|
      ensures Lowered(host[i], Lower(trimmed[i])) && !('A' <= Lower(trimmed[i]) <= 'Z')
              && (Lower(trimmed[i]) == '.' <==> trimmed[i] == '.')
    {
      LoweredExactly(trimmed[i]);
    }
  }

  /** A host has no other normal form. */
  lemma OneNormalForm(host: string, a: string, b: string)
    requires Normalised(host, a) && Normalised(host, b)
    ensures a == b
  {
  }

  /** A host is allowed exactly when the labels of some allowed domain end the labels of its normal form. */
  lemma AllowedByLabels(host: string, allowedDomains: seq<string>) returns (name: string)
    ensures Normalised(host, name)
    ensures HostAllowed(host, allowedDomains)
            <==> exists i :: 0 <= i < |allowedDomains| && IsSuffix(Labels(allowedDomains[i]), Labels(name))
  {
    NormalisedByCode(host);
    name := LowerAll(TrimDots(host));
    forall i | 0 <= i < |allowedDomains|
      ensures HostMatches(name, allowedDomains[i]) <==> IsSuffix(Labels(allowedDomains[i]), Labels(name))
    {
      MatchIsLabelSuffix(name, allowedDomains[i]);
    }
  }

  /** Hosts that differ only in the case of ASCII letters and in trailing dots have the same normal form. */
  ghost predicate SameHost(a: string, b: string) {
    exists name :: Normalised(a, name) && Normalised(b, name)
  }

  lemma SameHostIsAllowedAlike(a: string, b: string, allowedDomains: seq<string>)
    requires SameHost(a, b)
    ensures HostAllowed(a, allowedDomains) <==> HostAllowed(b, allowedDomains)
  {
    var name :| Normalised(a, name) && Normalised(b, name);
    var x := AllowedByLabels(a, allowedDomains);
    var y := AllowedByLabels(b, allowedDomains);
    OneNormalForm(a, name, x);
    OneNormalForm(b, name, y);
  }

  /** Neither the case of a host nor dots after it change whether it is allowed. */
  lemma CaseAndDotsAreMoot(host: string, other: string, dots: string, allowedDomains: seq<string>)
    requires CaseOnly(host, other) && forall i :: 0 <= i < |dots| ==> dots[i] == '.'
    ensures HostAllowed(other + dots, allowedDomains) <==> HostAllowed(host, allowedDomains)
  {
    NormalisedByCode(host);
    var name := LowerAll(TrimDots(host));
    NormalisedByCase(host, other, dots, name);
    SameHostIsAllowedAlike(host, other + dots, allowedDomains);
  }

  lemma NormalisedByCase(host: string, other: string, dots: string, name: string)
    requires CaseOnly(host, other) && forall i :: 0 <= i < |dots| ==> dots[i] == '.'
    requires Normalised(host, name) && forall i :: 0 <= i < |name| ==> !('A' <= name[i] <= 'Z')
    ensures Normalised(other + dots, name)
  {
    forall i | 0 <= i < |name| ensures Lowered((other + dots)[i], name[i]) {
      assert SameButCase(host[i], other[i]) && Lowered(host[i], name[i]);
    }
    forall i | |name| <= i < |other + dots| ensures (other + dots)[i] == '.' {
      assert i < |host| ==> SameButCase(host[i], other[i]);
    }
  }
}
