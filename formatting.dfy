/**
 * The parts of Rust's `std::fmt` and `str` that the report panel relies on,
 * over `seq<char>`. Rust's formatter measures widths and precisions in chars
 * (`chars().count()`), so every length here is a count of chars, and each
 * box-drawing glyph is one char.
 */
module Formatting {

  /** `n` copies of `c`: `String::repeat` applied to a one-char string. */
  function Repeat(c: char, n: nat): (r: string)
    ensures |r| == n
    ensures forall i :: 0 <= i < n ==> r[i] == c
  {
    seq(n, _ => c)
  }

  /** The precision `{:.p}` on a string: at most its first `p` chars are kept. */
  function Truncate(s: string, p: nat): (r: string)
    ensures |r| == if |s| <= p then |s| else p
    ensures r == s[..|r|]
  {
    if |s| <= p then s else s[..p]
  }

  /** The number of fill chars a width `w` asks for around `len` chars. */
  function Padding(len: nat, w: nat): nat
  {
    if len < w then w - len else 0
  }

  /**
   * `{:<w}`: left-aligned, filled with spaces up to `w` chars. A longer
   * string is kept whole; the width never shortens it.
   */
  function PadEnd(s: string, w: nat): (r: string)
    ensures |r| == if |s| < w then w else |s|
  {
    s + Repeat(' ', Padding(|s|, w))
  }

  /** `PadEnd` keeps the string as its prefix and adds nothing but spaces. */
  lemma PadEndContent(s: string, w: nat)
    ensures var r := PadEnd(s, w);
            && r[..|s|] == s
            && (forall i :: |s| <= i < |r| ==> r[i] == ' ')
  {
    var r := PadEnd(s, w);
    forall i | |s| <= i < |r| ensures r[i] == ' ' {
      assert r[i] == Repeat(' ', Padding(|s|, w))[i - |s|];
    }
  }

  /**
   * `{:^w}`: centred, filled with spaces up to `w` chars. Rust gives the
   * left side `pad / 2` of the fill and the right side `(pad + 1) / 2`, so an
   * odd fill leaves the extra space on the right.
   */
  function Center(s: string, w: nat): (r: string)
    ensures |r| == if |s| < w then w else |s|
  {
    var pad := Padding(|s|, w);
    Repeat(' ', pad / 2) + s + Repeat(' ', (pad + 1) / 2)
  }

  /**
   * `Center` puts the string at offset `pad / 2`, spaces on both sides, and
   * the right side gets as many spaces as the left or one more.
   */
  lemma CenterContent(s: string, w: nat)
    ensures var r := Center(s, w);
            var left := Padding(|s|, w) / 2;
            && left + |s| <= |r|
            && r[left..left + |s|] == s
            && (forall i :: 0 <= i < left ==> r[i] == ' ')
            && (forall i :: left + |s| <= i < |r| ==> r[i] == ' ')
            && left <= |r| - left - |s| <= left + 1
  {
    var r := Center(s, w);
    var pad := Padding(|s|, w);
    var left := pad / 2;
    var lhs, rhs := Repeat(' ', left), Repeat(' ', (pad + 1) / 2);
    assert r == lhs + s + rhs;
    forall i | 0 <= i < left ensures r[i] == ' ' {
      assert r[i] == lhs[i];
    }
    forall i | left + |s| <= i < |r| ensures r[i] == ' ' {
      assert r[i] == rhs[i - left - |s|];
    }
    assert r[left..left + |s|] == s;
  }

  /** The number of chars in all the parts together. */
  function TotalLength(parts: seq<string>): nat
  {
    if |parts| == 0 then 0 else |parts[0]| + TotalLength(parts[1..])
  }

  /**
   * `[String]::join` with a one-char separator: `sep` between adjacent parts,
   * so the result has the parts' chars and one separator fewer than parts.
   */
  function Join(parts: seq<string>, sep: char): (r: string)
    ensures |parts| > 0 ==> |r| == TotalLength(parts) + |parts| - 1
  {
    if |parts| == 0 then ""
    else if |parts| == 1 then parts[0]
    else parts[0] + [sep] + Join(parts[1..], sep)
  }

  /** Joining parts free of `sep` puts exactly one `sep` between each two of them. */
  lemma {:induction false} JoinSeparators(parts: seq<string>, sep: char)
    requires |parts| > 0
    requires forall i :: 0 <= i < |parts| ==> sep !in parts[i]
    ensures multiset(Join(parts, sep))[sep] == |parts| - 1
  {
    if |parts| > 1 {
      JoinSeparators(parts[1..], sep);
      assert sep !in parts[0];
    }
  }

  /** `Join` of three parts, written out. */
  lemma JoinThree(a: string, b: string, c: string, sep: char)
    ensures Join([a, b, c], sep) == a + [sep] + b + [sep] + c
  {
    assert [a, b, c][1..] == [b, c];
    assert [b, c][1..] == [c];
    assert Join([b, c], sep) == b + [sep] + c;
    assert Join([a, b, c], sep) == a + [sep] + (b + [sep] + c);
  }

  /**
   * Cutting a string at every `sep` (Rust's `str::split` with a char
   * pattern); the inverse of `Join` on parts free of `sep`.
   */
  function Split(s: string, sep: char): (r: seq<string>)
    ensures |r| > 0
    ensures forall i :: 0 <= i < |r| ==> sep !in r[i]
    ensures |r| == multiset(s)[sep] + 1
  {
    if |s| == 0 then [""]
    else
      var rest := Split(s[1..], sep);
      assert s == [s[0]] + s[1..];
      if s[0] == sep then [""] + rest
      else [[s[0]] + rest[0]] + rest[1..]
  }

  lemma {:induction false} SplitFree(p: string, sep: char)
    requires sep !in p
    ensures Split(p, sep) == [p]
  {
    if |p| > 0 {
      SplitFree(p[1..], sep);
      assert [p[0]] + p[1..] == p;
    }
  }

  lemma {:induction false} SplitAfter(p: string, q: string, sep: char)
    requires sep !in p
    ensures Split(p + [sep] + q, sep) == [p] + Split(q, sep)
  {
    var s := p + [sep] + q;
    if |p| == 0 {
      assert s[1..] == q;
    } else {
      assert s[1..] == p[1..] + [sep] + q;
      SplitAfter(p[1..], q, sep);
      var rest := Split(s[1..], sep);
      assert s[0] == p[0] && s[0] != sep;
      assert rest[0] == p[1..] && rest[1..] == Split(q, sep);
      assert [p[0]] + p[1..] == p;
    }
  }

  /** Splitting a join gives back the parts, as long as no part holds `sep`. */
  lemma {:induction false} SplitJoin(parts: seq<string>, sep: char)
    requires |parts| > 0
    requires forall i :: 0 <= i < |parts| ==> sep !in parts[i]
    ensures Split(Join(parts, sep), sep) == parts
  {
    if |parts| == 1 {
      SplitFree(parts[0], sep);
    } else {
      var tail := Join(parts[1..], sep);
      SplitJoin(parts[1..], sep);
      assert sep !in parts[0];
      SplitAfter(parts[0], tail, sep);
      assert Join(parts, sep) == parts[0] + [sep] + tail;
      assert [parts[0]] + parts[1..] == parts;
    }
  }

  /** Joining one part more appends the separator and that part. */
  lemma {:induction false} JoinSnoc(parts: seq<string>, p: string, sep: char)
    requires |parts| > 0
    ensures Join(parts + [p], sep) == Join(parts, sep) + [sep] + p
  {
    if |parts| > 1 {
      assert (parts + [p])[1..] == parts[1..] + [p];
      JoinSnoc(parts[1..], p, sep);
    } else {
      assert (parts + [p])[1..] == [p];
    }
  }

  /** `Join` of all the parts, from that of all but the last. */
  lemma JoinLast(parts: seq<string>, sep: char)
    requires |parts| > 1
    ensures Join(parts, sep) == Join(parts[..|parts| - 1], sep) + [sep] + parts[|parts| - 1]
  {
    assert parts == parts[..|parts| - 1] + [parts[|parts| - 1]];
    JoinSnoc(parts[..|parts| - 1], parts[|parts| - 1], sep);
  }

  /** `Join` of the first `k + 1` parts, from that of the first `k`. */
  lemma JoinPrefix(parts: seq<string>, sep: char, k: nat)
    requires 0 < k < |parts|
    ensures Join(parts[..k + 1], sep) == Join(parts[..k], sep) + [sep] + parts[k]
  {
    assert parts[..k + 1] == parts[..k] + [parts[k]];
    JoinSnoc(parts[..k], parts[k], sep);
  }

  /** The sink `std::fmt::Formatter` writes into: a growing text buffer. */
  class Formatter {
    var buffer: string

    constructor ()
      ensures buffer == ""
    {
      buffer := "";
    }

    /** `write!` of an already formatted string: appends it and nothing else. */
    method WriteStr(s: string)
      modifies this
      ensures buffer == old(buffer) + s
    {
      buffer := buffer + s;
    }
  }
}
