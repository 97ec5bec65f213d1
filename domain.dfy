/** Derivation of the zone's domain from the DNS name: the name is split on
    '.' as Go's strings.Split does, and the last two labels are joined back
    together. */
module Domain {

  /** Number of '.' characters in s. */
  function Dots(s: string): nat
  {
    if s == [] then 0 else (if s[0] == '.' then 1 else 0) + Dots(s[1..])
  }

  /** Dots add up over concatenation. */
  lemma {:induction false} DotsAppend(a: string, b: string)
    ensures Dots(a + b) == Dots(a) + Dots(b)
  {
    if a == [] {
      assert a + b == b;
    } else {
      assert (a + b)[1..] == a[1..] + b;
      DotsAppend(a[1..], b);
    }
  }

  /** A string without '.' has no dots to count. */
  lemma {:induction false} DotFree(s: string)
    requires '.' !in s
    ensures Dots(s) == 0
  {
    if s != [] {
      assert '.' !in s[1..];
      DotFree(s[1..]);
    }
  }

  /** Index of the last dot in s, or -1 when there is none. */
  function LastDot(s: string): (i: int)
    ensures -1 <= i < |s|
    ensures 0 <= i ==> s[i] == '.'
    ensures forall j :: i < j < |s| ==> s[j] != '.'
  {
    if s == [] then -1
    else if s[|s| - 1] == '.' then |s| - 1
    else LastDot(s[..|s| - 1])
  }

  /** strings.Split(s, "."): the labels of s, taken here from the last one
      backwards. */
  function Split(s: string): (parts: seq<string>)
    ensures |parts| >= 1
    decreases |s|
  {
    var i := LastDot(s);
    if i < 0 then [s] else Split(s[..i]) + [s[i + 1..]]
  }

  /** strings.Join(parts, "."). */
  function Join(parts: seq<string>): string
  {
    if |parts| == 0 then []
    else if |parts| == 1 then parts[0]
    else Join(parts[..|parts| - 1]) + "." + parts[|parts| - 1]
  }

  /** extractDomain: the last two labels of the name, or the name itself when
      it has a single label. */
  function ExtractDomain(dnsName: string): string
  {
    var parts := Split(dnsName);
    if |parts| >= 2 then Join(parts[|parts| - 2..]) else dnsName
  }

  /** s around its last dot. */
  lemma LastDotShape(s: string)
    requires 0 <= LastDot(s)
    ensures s == s[..LastDot(s)] + "." + s[LastDot(s) + 1..]
    ensures '.' !in s[LastDot(s) + 1..]
  {
    var i := LastDot(s);
    var t := s[i + 1..];
    assert s == s[..i] + "." + t;
    forall k | 0 <= k < |t|
      ensures t[k] != '.'
    {
      assert t[k] == s[i + 1 + k];
    }
  }

  /** Split takes off the label after the last dot. */
  lemma CutAtLastDot(s: string)
    requires 0 <= LastDot(s)
    ensures s == s[..LastDot(s)] + "." + s[LastDot(s) + 1..]
    ensures '.' !in s[LastDot(s) + 1..]
    ensures Split(s) == Split(s[..LastDot(s)]) + [s[LastDot(s) + 1..]]
  {
    LastDotShape(s);
  }

  /** The dots of a + "." + t, when t has none. */
  lemma DotsAround(a: string, t: string)
    requires '.' !in t
    ensures Dots(a + "." + t) == Dots(a) + 1
  {
    assert a + "." + t == a + ("." + t);
    DotsAppend(a, "." + t);
    assert ("." + t)[1..] == t;
    DotFree(t);
  }

  /** A name without dots is a single label. */
  lemma NoDot(s: string)
    requires '.' !in s
    ensures LastDot(s) < 0 && Dots(s) == 0 && Split(s) == [s]
  {
    DotFree(s);
  }

  /** The last dot of a + "." + t, when t has none, is the one between them. */
  lemma SplitAround(a: string, t: string)
    requires '.' !in t
    ensures LastDot(a + "." + t) == |a|
    ensures Split(a + "." + t) == Split(a) + [t]
  {
    var s := a + "." + t;
    assert s[|a|] == '.';
    assert forall j :: |a| < j < |s| ==> s[j] == t[j - |a| - 1];
    assert s[..|a|] == a && s[|a| + 1..] == t;
    CutAtLastDot(s);
  }

  /** Joining the labels gives back the name. */
  lemma {:induction false} JoinSplit(s: string)
    ensures Join(Split(s)) == s
    decreases |s|
  {
    var i := LastDot(s);
    if 0 <= i {
      CutAtLastDot(s);
      JoinSplit(s[..i]);
      var parts := Split(s);
      var init := Split(s[..i]);
      assert parts[..|parts| - 1] == init;
    }
  }

  /** No label contains a dot. */
  lemma {:induction false} LabelsHaveNoDot(s: string)
    ensures forall k :: 0 <= k < |Split(s)| ==> '.' !in Split(s)[k]
    decreases |s|
  {
    var i := LastDot(s);
    if 0 <= i {
      CutAtLastDot(s);
      LabelsHaveNoDot(s[..i]);
    } else {
      assert '.' !in s;
      NoDot(s);
    }
  }

  /** There is one more label than there are dots, so extractDomain takes
      its two-label branch exactly when the name holds a dot. */
  lemma {:induction false} SplitCount(s: string)
    ensures |Split(s)| == Dots(s) + 1
    decreases |s|
  {
    var i := LastDot(s);
    if 0 <= i {
      CutAtLastDot(s);
      SplitCount(s[..i]);
      DotsAround(s[..i], s[i + 1..]);
    } else {
      assert '.' !in s;
      NoDot(s);
    }
  }

  /** Two dot-free labels joined by a dot hold exactly one dot. */
  lemma OneDot(m: string, t: string)
    requires '.' !in m && '.' !in t
    ensures Dots(m + "." + t) == 1
  {
    DotsAround(m, t);
    DotFree(m);
  }

  /** A name without dots is its own domain. */
  lemma ExtractDomainOneLabel(s: string)
    requires '.' !in s
    ensures ExtractDomain(s) == s
  {
    NoDot(s);
  }

  /** A name of two labels is its own domain. */
  lemma ExtractDomainTwoLabels(a: string, t: string)
    requires '.' !in a && '.' !in t
    ensures ExtractDomain(a + "." + t) == a + "." + t
  {
    SplitAround(a, t);
    NoDot(a);
    var parts := Split(a + "." + t);
    assert parts == [a, t];
    assert parts[|parts| - 2..] == parts;
    assert [a, t][..1] == [a];
    assert Join([a, t]) == Join([a]) + "." + t;
  }

  /** A name of three or more labels loses all but its last two. */
  lemma ExtractDomainMoreLabels(p: string, m: string, t: string)
    requires '.' !in m && '.' !in t
    ensures ExtractDomain(p + "." + m + "." + t) == m + "." + t
  {
    SplitAround(p, m);
    SplitAround(p + "." + m, t);
    var parts := Split(p + "." + m + "." + t);
    assert parts == Split(p) + [m] + [t];
    assert parts[|parts| - 2..] == [m, t];
    assert [m, t][..1] == [m];
    assert Join([m, t]) == Join([m]) + "." + t;
  }

  /** The domain as a suffix of the name: the whole name when the name has at
      most one dot, and otherwise the part after the second-to-last dot,
      holding exactly one dot. */
  predicate IsLastTwoLabels(s: string, r: string)
  {
    |r| <= |s| && r == s[|s| - |r|..] &&
    (Dots(s) <= 1 ==> r == s) &&
    (Dots(s) >= 2 ==> Dots(r) == 1 && s[|s| - |r| - 1] == '.')
  }

  /** The three shapes of a name, against IsLastTwoLabels. */
  lemma DotlessDomain(s: string)
    requires '.' !in s
    ensures IsLastTwoLabels(s, ExtractDomain(s))
  {
    NoDot(s);
    ExtractDomainOneLabel(s);
    assert s[|s| - |s|..] == s;
  }

  lemma TwoLabelDomain(s: string, a: string, t: string)
    requires s == a + "." + t && '.' !in a && '.' !in t
    ensures IsLastTwoLabels(s, ExtractDomain(s))
  {
    ExtractDomainTwoLabels(a, t);
    OneDot(a, t);
    assert s[|s| - |s|..] == s;
  }

  lemma LongDomain(s: string, p: string, m: string, t: string)
    requires s == p + "." + m + "." + t && '.' !in m && '.' !in t
    ensures IsLastTwoLabels(s, ExtractDomain(s))
  {
    var r := m + "." + t;
    assert s == p + "." + r;
    ExtractDomainMoreLabels(p, m, t);
    DotsAround(p + "." + m, t);
    DotsAround(p, m);
    OneDot(m, t);
    assert s[|s| - |r|..] == r;
    assert s[|s| - |r| - 1] == '.';
  }

  /** extractDomain yields that suffix. */
  lemma ExtractDomainIsLastTwoLabels(s: string)
    ensures IsLastTwoLabels(s, ExtractDomain(s))
  {
    var i := LastDot(s);
    if i < 0 {
      assert '.' !in s;
      DotlessDomain(s);
    } else {
      LastDotShape(s);
      var a, t := s[..i], s[i + 1..];
      var j := LastDot(a);
      if j < 0 {
        assert '.' !in a;
        TwoLabelDomain(s, a, t);
      } else {
        LastDotShape(a);
        var p, m := a[..j], a[j + 1..];
        LongDomain(s, p, m, t);
      }
    }
  }

  /** Three example names. */
  lemma ExtractDomainExamples()
    ensures ExtractDomain("host.sub.example.com") == "example.com"
    ensures ExtractDomain("example.com") == "example.com"
    ensures ExtractDomain("localhost") == "localhost"
  {
    assert "host.sub.example.com" == "host.sub" + "." + "example" + "." + "com";
    ExtractDomainMoreLabels("host.sub", "example", "com");
    assert "example.com" == "example" + "." + "com";
    ExtractDomainTwoLabels("example", "com");
    ExtractDomainOneLabel("localhost");
  }
}
