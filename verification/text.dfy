/**
 * Strings as the resolver sees them: the Python string operations it relies
 * on, written out where their behaviour matters (slicing, `str(int)`,
 * `find`, `replace`, `split`), and passed in as opaque total functions
 * where it does not (special-character stripping, case mapping, `strip`,
 * script detection, the keyword cleaner).
 */
module Text {
  import opened Wrappers

  /**
   * The string routines whose internals are not modelled. Each is an
   * arbitrary total function; nothing is assumed about it.
   */
  datatype TextOps = TextOps(
    normalize: string -> string,      // StringUtils.handler_special_chars
    upper: string -> string,          // str.upper
    lower: string -> string,          // str.lower
    strip: string -> string,          // str.strip
    isChinese: string -> bool,        // StringUtils.is_chinese
    cleanFeature: string -> string,   // leading-marker regex and blacklist removal
    dropYearSuffix: string -> string  // removal of a trailing " (yyyy)"
  )

  /** Python truthiness of an optional string: present and non-empty. */
  predicate Present(s: Option<string>)
  {
    s.Some? && s.value != ""
  }

  /** Python's `s[0:4]`, which never fails on short strings. */
  function Prefix4(s: string): (r: string)
    ensures r <= s
    ensures |r| == if |s| < 4 then |s| else 4
  {
    if |s| < 4 then s else s[..4]
  }

  /** Digit character for 0..9. */
  function DigitChar(d: nat): (c: char)
    requires d < 10
    ensures '0' <= c <= '9'
  {
    "0123456789"[d]
  }

  /** Numeric value of a decimal digit character. */
  function DigitValue(c: char): nat
    requires '0' <= c <= '9'
  {
    (c as int - '0' as int) as nat
  }

  /** Python's `str(n)` for a non-negative integer. */
  function NatText(n: nat): (r: string)
    ensures |r| >= 1
    ensures forall i :: 0 <= i < |r| ==> '0' <= r[i] <= '9'
    decreases n
  {
    if n < 10 then [DigitChar(n)] else NatText(n / 10) + [DigitChar(n % 10)]
  }

  /** Reads a string of decimal digits back as a number. */
  function DecimalValue(s: string): nat
    requires forall i :: 0 <= i < |s| ==> '0' <= s[i] <= '9'
  {
    if s == [] then 0 else DecimalValue(s[..|s| - 1]) * 10 + DigitValue(s[|s| - 1])
  }

  /** Rendering a number in decimal and reading it back gives the number. */
  lemma {:induction false} NatTextRoundTrip(n: nat)
    ensures DecimalValue(NatText(n)) == n
    decreases n
  {
    var s := NatText(n);
    if n < 10 {
      assert s[..|s| - 1] == [];
    } else {
      NatTextRoundTrip(n / 10);
      assert s[..|s| - 1] == NatText(n / 10);
    }
  }

  /** Python's `str(n)` for any integer. */
  function IntText(n: int): (r: string)
    ensures |r| >= 1
    ensures n >= 0 ==> forall i :: 0 <= i < |r| ==> '0' <= r[i] <= '9'
    ensures n < 0 ==> r[0] == '-'
  {
    if n < 0 then "-" + NatText(-n) else NatText(n)
  }

  /** Different non-negative integers render differently. */
  lemma NatTextInjective(a: nat, b: nat)
    requires NatText(a) == NatText(b)
    ensures a == b
  {
    NatTextRoundTrip(a);
    NatTextRoundTrip(b);
  }

  /** Different integers render differently. */
  lemma IntTextInjective(a: int, b: int)
    ensures IntText(a) == IntText(b) ==> a == b
  {
    if IntText(a) == IntText(b) {
      if a >= 0 && b >= 0 {
        NatTextInjective(a, b);
      } else if a < 0 && b < 0 {
        NegTextTail(a);
        NegTextTail(b);
        NatTextInjective(-a, -b);
      }
    }
  }

  /** Behind the sign of a negative number's text is its magnitude's text. */
  lemma NegTextTail(a: int)
    requires a < 0
    ensures IntText(a)[1..] == NatText(-a)
  {
  }

  /** f-string rendering of an optional integer: `None` or its decimal text. */
  function OptIntText(n: Option<int>): (r: string)
    ensures n.Some? ==> r == IntText(n.value)
    ensures n.None? ==> r == "None"
  {
    match n
    case None => "None"
    case Some(v) => IntText(v)
  }

  /** The rendering of a missing or non-negative number has no minus sign. */
  lemma OptIntTextNoDash(n: Option<int>)
    requires n.Some? ==> n.value >= 0
    ensures '-' !in OptIntText(n)
  {
  }

  /** Different optional integers render differently: no number renders as `None`. */
  lemma OptIntTextInjective(a: Option<int>, b: Option<int>)
    requires OptIntText(a) == OptIntText(b)
    ensures a == b
  {
    if a.Some? && b.Some? {
      IntTextInjective(a.value, b.value);
    }
    NumberIsNotNone(a);
    NumberIsNotNone(b);
  }

  lemma NumberIsNotNone(n: Option<int>)
    ensures n.Some? ==> OptIntText(n)[0] != 'N'
  {
  }

  /** `p` occurs in `s` at position `i`. */
  predicate OccursAt(p: string, s: string, i: nat)
  {
    i + |p| <= |s| && s[i..i + |p|] == p
  }

  /** Python's `s.find(p) > -1`: `p` occurs somewhere in `s`. */
  function Contains(s: string, p: string): (r: bool)
    ensures r <==> exists i: nat :: OccursAt(p, s, i)
    decreases |s|
  {
    if p <= s then
      assert OccursAt(p, s, 0);
      true
    else if |s| == 0 then
      assert forall i: nat :: !OccursAt(p, s, i);
      false
    else
      var r := Contains(s[1..], p);
      assert forall i: nat :: OccursAt(p, s[1..], i) <==> OccursAt(p, s, i + 1) by {
        forall i: nat ensures OccursAt(p, s[1..], i) <==> OccursAt(p, s, i + 1) {
          if i + |p| <= |s[1..]| {
            assert s[1..][i..i + |p|] == s[i + 1..i + 1 + |p|];
          }
        }
      }
      assert !OccursAt(p, s, 0);
      assert r ==> exists i: nat :: OccursAt(p, s, i) by {
        if r {
          var i: nat :| OccursAt(p, s[1..], i);
          assert OccursAt(p, s, i + 1);
        }
      }
      assert (exists i: nat :: OccursAt(p, s, i)) ==> r by {
        if exists i: nat :: OccursAt(p, s, i) {
          var i: nat :| OccursAt(p, s, i);
          assert i != 0;
          assert OccursAt(p, s[1..], i - 1);
        }
      }
      r
  }

  /** Python's `s.replace(p, "")`: every non-overlapping occurrence of `p`, scanned left to right, removed. */
  function RemoveAll(s: string, p: string): (r: string)
    ensures |r| <= |s|
    ensures !Contains(s, p) ==> r == s
    decreases |s|
  {
    if p == [] then s
    else if p <= s then RemoveAll(s[|p|..], p)
    else if |s| == 0 then s
    else
      assert !Contains(s, p) ==> !Contains(s[1..], p) by {
        if Contains(s[1..], p) {
          var i: nat :| OccursAt(p, s[1..], i);
          assert s[1..][i..i + |p|] == s[i + 1..i + 1 + |p|];
          assert OccursAt(p, s, i + 1);
        }
      }
      [s[0]] + RemoveAll(s[1..], p)
  }

  /** Removing a leading copy of the pattern is part of removing every copy. */
  lemma RemoveAllLeading(p: string, s: string)
    requires p != []
    ensures RemoveAll(p + s, p) == RemoveAll(s, p)
  {
    assert p <= p + s;
    assert (p + s)[|p|..] == s;
  }

  /** Python's `s.split("/")[-1]`: the text after the last slash, or all of `s` if it has none. */
  function LastSegment(s: string): (r: string)
    ensures '/' !in r
    ensures |r| <= |s| && r == s[|s| - |r|..]
    ensures r == s || s[|s| - |r| - 1] == '/'
  {
    if s == [] then []
    else if s[|s| - 1] == '/' then []
    else
      var r := LastSegment(s[..|s| - 1]);
      assert s[..|s| - 1][|s| - 1 - |r|..] + [s[|s| - 1]] == s[|s| - 1 - |r|..];
      r + [s[|s| - 1]]
  }
}
