/** String building as the source does it: `sep.join(...)`, `str.split`, `str(int)`. */
module Text {

  /** Total number of characters in a list of strings. */
  function SumLen(xs: seq<string>): (r: nat)
    ensures |xs| == 0 ==> r == 0
  {
    if |xs| == 0 then 0 else SumLen(xs[..|xs| - 1]) + |xs[|xs| - 1]|
  }

  /** Python's `sep.join(xs)`: the strings of `xs` with `sep` between neighbours. */
  function Join(sep: string, xs: seq<string>): (r: string)
    ensures |xs| >= 1 ==> |r| == SumLen(xs) + |sep| * (|xs| - 1)
    ensures |xs| == 0 ==> r == ""
  {
    if |xs| == 0 then ""
    else if |xs| == 1 then xs[0]
    else Join(sep, xs[..|xs| - 1]) + sep + xs[|xs| - 1]
  }

  /** Python's `s.split(c)` for a one-character separator: the maximal runs between separators,
      including empty ones; never an empty list. */
  function Split(s: string, c: char): (r: seq<string>)
    ensures |r| >= 1
  {
    if |s| == 0 then [""]
    else
      var p := Split(s[..|s| - 1], c);
      if s[|s| - 1] == c then p + [""]
      else p[..|p| - 1] + [p[|p| - 1] + [s[|s| - 1]]]
  }

  /** Appending a character other than the separator extends the last piece. */
  lemma SplitAppendChar(s: string, ch: char, c: char)
    requires ch != c
    ensures var p := Split(s, c);
            Split(s + [ch], c) == p[..|p| - 1] + [p[|p| - 1] + [ch]]
  {
    assert (s + [ch])[..|s + [ch]| - 1] == s;
  }

  /** Appending text free of the separator only extends the last piece. */
  lemma {:induction false} SplitAppendPlain(a: string, b: string, c: char)
    requires c !in b
    ensures var p := Split(a, c);
            Split(a + b, c) == p[..|p| - 1] + [p[|p| - 1] + b]
  {
    var p := Split(a, c);
    if |b| == 0 {
      assert a + b == a;
      assert p[|p| - 1] + b == p[|p| - 1];
      assert p[..|p| - 1] + [p[|p| - 1]] == p;
    } else {
      var b' := b[..|b| - 1];
      var ch := b[|b| - 1];
      assert ch != c by { assert ch == b[|b| - 1]; }
      SplitAppendPlain(a, b', c);
      assert a + b == (a + b') + [ch];
      SplitAppendChar(a + b', ch, c);
      var q := Split(a + b', c);
      assert q[..|q| - 1] == p[..|p| - 1];
      assert q[|q| - 1] + [ch] == p[|p| - 1] + b;
    }
  }

  /** Appending the separator starts a new, empty piece. */
  lemma SplitAppendSep(a: string, c: char)
    ensures Split(a + [c], c) == Split(a, c) + [""]
  {
    assert (a + [c])[..|a + [c]| - 1] == a;
  }

  lemma JoinSnoc(sep: string, xs: seq<string>)
    requires |xs| >= 2
    ensures Join(sep, xs) == (Join(sep, xs[..|xs| - 1]) + sep) + xs[|xs| - 1]
  {
  }

  /** The piece after a trailing separator is extended by the separator-free `last`. */
  lemma SplitAfterSep(j: string, init: seq<string>, last: string, c: char)
    requires c !in last
    requires Split(j + [c], c) == init + [""]
    ensures Split((j + [c]) + last, c) == init + [last]
  {
    var p := init + [""];
    SplitAppendPlain(j + [c], last, c);
    assert p[..|p| - 1] == init;
    assert p[|p| - 1] + last == last;
  }

  /** Splitting a joined list recovers it when no element contains the separator:
      the path of a batch URL determines the batch. */
  lemma {:induction false} SplitJoin(xs: seq<string>, c: char)
    requires |xs| >= 1
    requires forall i :: 0 <= i < |xs| ==> c !in xs[i]
    ensures Split(Join([c], xs), c) == xs
  {
    if |xs| == 1 {
      SplitAppendPlain("", xs[0], c);
      assert "" + xs[0] == xs[0];
    } else {
      var init := xs[..|xs| - 1];
      var last := xs[|xs| - 1];
      var j := Join([c], init);
      JoinSnoc([c], xs);
      SplitJoin(init, c);
      SplitAppendSep(j, c);
      SplitAfterSep(j, init, last, c);
      assert xs == init + [last];
    }
  }

  /** A joined string contains a character only if the separator or one of the parts does. */
  lemma {:induction false} JoinAvoids(sep: string, xs: seq<string>, c: char)
    requires c !in sep
    requires forall i :: 0 <= i < |xs| ==> c !in xs[i]
    ensures c !in Join(sep, xs)
  {
    if |xs| > 1 {
      JoinAvoids(sep, xs[..|xs| - 1], c);
    }
  }

  function Digit(d: nat): (ch: char)
    requires d < 10
    ensures '0' <= ch <= '9'
  {
    ('0' as int + d) as char
  }

  predicate IsDigits(s: string) {
    forall i :: 0 <= i < |s| ==> '0' <= s[i] <= '9'
  }

  /** Python's `str(n)` for a non-negative integer: its decimal digits, most significant first. */
  function NatToString(n: nat): (s: string)
    ensures |s| >= 1 && IsDigits(s)
  {
    if n < 10 then [Digit(n)] else NatToString(n / 10) + [Digit(n % 10)]
  }

  /** Python's `str(i)` for any integer. */
  function IntToString(i: int): string {
    if i < 0 then "-" + NatToString(-i) else NatToString(i)
  }

  /** Reading a string of decimal digits back as a number. */
  function ParseNat(s: string): (n: nat)
    requires IsDigits(s)
  {
    if |s| == 0 then 0
    else
      var init := s[..|s| - 1];
      assert forall i :: 0 <= i < |init| ==> init[i] == s[i];
      10 * ParseNat(init) + (s[|s| - 1] as int - '0' as int)
  }

  /** A count printed in a report line reads back as the same count. */
  lemma {:induction false} ParseNatToString(n: nat)
    ensures ParseNat(NatToString(n)) == n
  {
    var s := NatToString(n);
    if n >= 10 {
      ParseNatToString(n / 10);
      assert s[..|s| - 1] == NatToString(n / 10);
    }
  }
}
