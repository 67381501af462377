/** String operations the client relies on, written as Python's str methods
    behave: find, replace (all occurrences), rjust, lstrip, join, split, and
    the decimal rendering of integers (str(int), "%0Nd"). */
module Text {

  /** `sub` occurs in `s` starting at index `i`. */
  predicate OccursAt(s: string, sub: string, i: nat)
  {
    i + |sub| <= |s| && s[i..i + |sub|] == sub
  }

  lemma OccursAtTail(s: string, sub: string, i: nat)
    requires |s| > 0
    ensures OccursAt(s[1..], sub, i) <==> OccursAt(s, sub, i + 1)
  {
  }

  /** str.find: the lowest index at which `sub` occurs in `s`, or -1. */
  function Find(s: string, sub: string): (r: int)
    ensures r == -1 || (0 <= r && OccursAt(s, sub, r))
    ensures r == -1 ==> forall i: nat :: !OccursAt(s, sub, i)
    ensures r >= 0 ==> forall i: nat :: i < r ==> !OccursAt(s, sub, i)
    decreases |s|
  {
    if |s| < |sub| then -1
    else if s[..|sub|] == sub then 0
    else
      var k := Find(s[1..], sub);
      assert !OccursAt(s, sub, 0);
      assert forall i: nat :: OccursAt(s[1..], sub, i) <==> OccursAt(s, sub, i + 1) by {
        forall i: nat ensures OccursAt(s[1..], sub, i) <==> OccursAt(s, sub, i + 1) {
          OccursAtTail(s, sub, i);
        }
      }
      assert forall i: nat :: 0 < i ==> OccursAt(s, sub, i) == OccursAt(s[1..], sub, i - 1);
      if k == -1 then -1 else k + 1
  }

  /** An occurrence at `k` is the first one when the pattern's first
      character does not appear before `k`. */
  lemma FindFirst(s: string, sub: string, k: nat)
    requires sub != [] && OccursAt(s, sub, k) && sub[0] !in s[..k]
    ensures Find(s, sub) == k
  {
  }

  /** str.replace(pat, rep): every non-overlapping occurrence of `pat`,
      scanning from the left, is replaced by `rep`. */
  function ReplaceAll(s: string, pat: string, rep: string): string
    requires pat != []
    decreases |s|
  {
    if |s| < |pat| then s
    else if s[..|pat|] == pat then rep + ReplaceAll(s[|pat|..], pat, rep)
    else [s[0]] + ReplaceAll(s[1..], pat, rep)
  }

  /** A text without the pattern is left as it is. */
  lemma {:induction false} ReplaceAllAbsent(s: string, pat: string, rep: string)
    requires pat != [] && Find(s, pat) == -1
    ensures ReplaceAll(s, pat, rep) == s
    decreases |s|
  {
    if |s| >= |pat| {
      assert !OccursAt(s, pat, 0);
      assert Find(s[1..], pat) == -1 by {
        forall i: nat ensures !OccursAt(s[1..], pat, i) {
          OccursAtTail(s, pat, i);
        }
      }
      ReplaceAllAbsent(s[1..], pat, rep);
    }
  }

  /** Replacing with two different texts of the same length gives two
      different results as soon as the pattern occurs at all. */
  lemma {:induction false} ReplaceAllDistinguishes(s: string, pat: string, r1: string, r2: string)
    requires pat != [] && |r1| == |r2| && r1 != r2
    requires Find(s, pat) != -1
    ensures ReplaceAll(s, pat, r1) != ReplaceAll(s, pat, r2)
    decreases |s|
  {
    if |s| < |pat| {
    } else if s[..|pat|] == pat {
      assert ReplaceAll(s, pat, r1)[..|r1|] == r1;
      assert ReplaceAll(s, pat, r2)[..|r2|] == r2;
    } else {
      ReplaceAllDistinguishes(s[1..], pat, r1, r2);
      var x, y := ReplaceAll(s[1..], pat, r1), ReplaceAll(s[1..], pat, r2);
      assert ([s[0]] + x)[1..] == x;
      assert ([s[0]] + y)[1..] == y;
    }
  }

  /** When the first occurrence of `pat` in `a + pat + b` is the one after
      `a`, replacing keeps `a`, rewrites that occurrence and carries on in `b`. */
  lemma {:induction false} ReplaceAllStep(a: string, pat: string, b: string, rep: string)
    requires pat != [] && Find(a + pat + b, pat) == |a|
    ensures ReplaceAll(a + pat + b, pat, rep) == a + rep + ReplaceAll(b, pat, rep)
    decreases |a|
  {
    if a == [] {
      ReplaceAllHead(pat, b, rep);
      assert a + pat + b == pat + b;
    } else {
      var s, t := a + pat + b, a[1..] + pat + b;
      assert ReplaceAll(s, pat, rep) == [a[0]] + ReplaceAll(t, pat, rep) by {
        assert s[0] == a[0] && s[1..] == t;
        ReplaceAllSkip(s, pat, rep);
      }
      assert Find(t, pat) == |a| - 1 by {
        assert s[1..] == t;
        FindTail(s, pat, |a| - 1);
      }
      ReplaceAllStep(a[1..], pat, b, rep);
      ConsAssoc(a, rep, ReplaceAll(b, pat, rep));
    }
  }

  lemma ConsAssoc(a: string, x: string, y: string)
    requires a != []
    ensures [a[0]] + (a[1..] + x + y) == a + x + y
  {
  }

  /** A text starting with the pattern has that occurrence replaced. */
  lemma ReplaceAllHead(pat: string, b: string, rep: string)
    requires pat != []
    ensures ReplaceAll(pat + b, pat, rep) == rep + ReplaceAll(b, pat, rep)
  {
    var s := pat + b;
    assert s[..|pat|] == pat && s[|pat|..] == b;
  }

  /** A text not starting with the pattern keeps its first character. */
  lemma ReplaceAllSkip(s: string, pat: string, rep: string)
    requires pat != [] && |s| > 0 && Find(s, pat) != 0
    ensures ReplaceAll(s, pat, rep) == [s[0]] + ReplaceAll(s[1..], pat, rep)
  {
  }

  /** When `s` has its first occurrence of `sub` past index 0, its tail has
      that occurrence one place earlier. */
  lemma FindTail(s: string, sub: string, k: nat)
    requires |s| > 0 && Find(s, sub) == k + 1
    ensures Find(s[1..], sub) == k
  {
  }

  /** When the only occurrence of `pat` in `stem + pat` is the final one,
      replacing rewrites exactly that suffix. */
  lemma ReplaceAllSuffix(stem: string, pat: string, rep: string)
    requires pat != [] && Find(stem + pat, pat) == |stem|
    ensures ReplaceAll(stem + pat, pat, rep) == stem + rep
  {
    assert stem + pat + "" == stem + pat;
    ReplaceAllStep(stem, pat, "", rep);
    assert stem + rep + "" == stem + rep;
  }

  // ---- decimal digits ----

  function Pow10(n: nat): nat
  {
    if n == 0 then 1 else 10 * Pow10(n - 1)
  }

  function DigitChar(d: nat): char
    requires d < 10
  {
    (48 + d) as char
  }

  predicate IsDigit(c: char)
  {
    '0' <= c <= '9'
  }

  function DigitValue(c: char): int
  {
    c as int - 48
  }

  /** The integer a string of decimal digits spells. */
  function DigitsValue(s: string): int
  {
    if s == [] then 0 else 10 * DigitsValue(s[..|s| - 1]) + DigitValue(s[|s| - 1])
  }

  /** "%0*d" % (width, n) for a number that fits the width: its decimal
      digits, zero padded on the left to exactly `width` characters. */
  function ZeroPad(n: nat, width: nat): (r: string)
    requires n < Pow10(width)
    ensures |r| == width
    ensures forall i :: 0 <= i < |r| ==> IsDigit(r[i])
  {
    if width == 0 then "" else ZeroPad(n / 10, width - 1) + [DigitChar(n % 10)]
  }

  lemma {:induction false} ZeroPadRoundTrip(n: nat, width: nat)
    requires n < Pow10(width)
    ensures DigitsValue(ZeroPad(n, width)) == n
  {
    if width > 0 {
      var r := ZeroPad(n, width);
      ZeroPadRoundTrip(n / 10, width - 1);
      assert r[..|r| - 1] == ZeroPad(n / 10, width - 1);
    }
  }

  /** str(n) for a natural number: decimal digits without leading zeros. */
  function NatToStr(n: nat): (r: string)
    ensures |r| >= 1
    ensures forall i :: 0 <= i < |r| ==> IsDigit(r[i])
  {
    if n < 10 then [DigitChar(n)] else NatToStr(n / 10) + [DigitChar(n % 10)]
  }

  /** str(q) for any Python int. */
  function IntToStr(q: int): (r: string)
    ensures |r| >= 1 && r[0] != ' '
    ensures r[0] == '-' <==> q < 0
  {
    if q < 0 then "-" + NatToStr(-q) else NatToStr(q)
  }

  /** int(s) on the strings str produces: an optional minus sign, then digits. */
  function ParseInt(s: string): int
  {
    if |s| > 0 && s[0] == '-' then -DigitsValue(s[1..]) else DigitsValue(s)
  }

  lemma {:induction false} NatToStrRoundTrip(n: nat)
    ensures DigitsValue(NatToStr(n)) == n
  {
    if n >= 10 {
      var r := NatToStr(n);
      NatToStrRoundTrip(n / 10);
      assert r[..|r| - 1] == NatToStr(n / 10);
    }
  }

  lemma {:induction false} IntToStrRoundTrip(q: int)
    ensures ParseInt(IntToStr(q)) == q
  {
    if q < 0 {
      NatToStrRoundTrip(-q);
      assert IntToStr(q)[1..] == NatToStr(-q);
    } else {
      NatToStrRoundTrip(q);
    }
  }

  // ---- padding ----

  function Spaces(n: nat): (r: string)
    ensures |r| == n && forall i :: 0 <= i < n ==> r[i] == ' '
  {
    seq(n, _ => ' ')
  }

  function Max(a: int, b: int): int
  {
    if a < b then b else a
  }

  /** str.rjust(w): `s` left-padded with spaces to at least `w` characters. */
  function RJust(s: string, w: nat): string
  {
    if w <= |s| then s else Spaces(w - |s|) + s
  }

  /** rjust keeps `s` as the tail and fills the rest with spaces. */
  lemma RJustShape(s: string, w: nat)
    ensures var r := RJust(s, w);
      && |r| == Max(w, |s|)
      && r[|r| - |s|..] == s
      && (forall i :: 0 <= i < |r| - |s| ==> r[i] == ' ')
  {
  }

  /** str.lstrip(" "): `s` without its leading spaces. */
  function LStripSpaces(s: string): string
  {
    if s != [] && s[0] == ' ' then LStripSpaces(s[1..]) else s
  }

  lemma {:induction false} LStripRJust(s: string, w: nat)
    requires s != [] && s[0] != ' '
    ensures LStripSpaces(RJust(s, w)) == s
    decreases w
  {
    if w > |s| {
      assert RJust(s, w)[1..] == RJust(s, w - 1);
      LStripRJust(s, w - 1);
    }
  }

  // ---- joining and splitting ----

  /** sep.join(parts). */
  function Join(sep: string, parts: seq<string>): string
  {
    if parts == [] then ""
    else if |parts| == 1 then parts[0]
    else parts[0] + sep + Join(sep, parts[1..])
  }

  /** "".join(parts). */
  function Concat(parts: seq<string>): string
  {
    if parts == [] then "" else Concat(parts[..|parts| - 1]) + parts[|parts| - 1]
  }

  /** str.split(sep) for a one-character separator. */
  function Split(s: string, sep: char): (r: seq<string>)
    ensures |r| >= 1
  {
    if s == [] then [""]
    else
      var rest := Split(s[1..], sep);
      if s[0] == sep then [""] + rest else [[s[0]] + rest[0]] + rest[1..]
  }

  lemma {:induction false} SplitNoSep(a: string, sep: char)
    requires sep !in a
    ensures Split(a, sep) == [a]
  {
    if a != [] {
      SplitNoSep(a[1..], sep);
      assert [a[0]] + a[1..] == a;
    }
  }

  lemma {:induction false} SplitAtFirstSep(a: string, sep: char, b: string)
    requires sep !in a
    ensures Split(a + [sep] + b, sep) == [a] + Split(b, sep)
  {
    if a == [] {
      assert a + [sep] + b == [sep] + b;
      assert ([sep] + b)[1..] == b;
    } else {
      assert (a + [sep] + b)[1..] == a[1..] + [sep] + b;
      SplitAtFirstSep(a[1..], sep, b);
      assert [a[0]] + a[1..] == a;
    }
  }

  /** Splitting a joined list on the separator gives the list back, provided
      no part contains the separator (Python turns "" into [""]). */
  lemma {:induction false} SplitJoin(parts: seq<string>, sep: char)
    requires forall i :: 0 <= i < |parts| ==> sep !in parts[i]
    ensures Split(Join([sep], parts), sep) == if parts == [] then [""] else parts
  {
    if |parts| == 1 {
      SplitNoSep(parts[0], sep);
    } else if |parts| > 1 {
      SplitJoin(parts[1..], sep);
      SplitAtFirstSep(parts[0], sep, Join([sep], parts[1..]));
      assert [parts[0]] + parts[1..] == parts;
    }
  }
}
