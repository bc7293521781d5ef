/** The Python string operations the storage controller relies on, on
    strings of code points: `str.split()` and `str.split(sep)`,
    `sep.join`, `in`, `str.lower` and `str.endswith`, the code-point order
    of `<` and `sorted`, `int()`, `str()` of an integer, `str.zfill` and
    `os.path.join` on POSIX paths. */
module Text {
  import opened Wrappers

  // ---------------------------------------------------------------------
  // Whitespace fields: `str.split()` with no argument

  /** The code points `str.isspace` accepts and `str.split()` splits on. */
  predicate IsSpace(c: char)
  {
    ('\U{9}' <= c <= '\U{d}') || ('\U{1c}' <= c <= '\U{20}') || c == '\U{85}' || c == '\U{a0}' ||
    c == '\U{1680}' || ('\U{2000}' <= c <= '\U{200a}') || c == '\U{2028}' || c == '\U{2029}' ||
    c == '\U{202f}' || c == '\U{205f}' || c == '\U{3000}'
  }

  /** Length of the run of non-space characters at the front of `s`. */
  function TokenLength(s: string): (n: nat)
    ensures n <= |s|
    ensures forall i :: 0 <= i < n ==> !IsSpace(s[i])
    ensures n == |s| || IsSpace(s[n])
  {
    if s == [] || IsSpace(s[0]) then 0 else 1 + TokenLength(s[1..])
  }

  /** `str.split()`: the maximal runs of non-space characters, in order. */
  function Fields(s: string): (r: seq<string>)
    ensures forall k :: 0 <= k < |r| ==> r[k] != [] && forall i :: 0 <= i < |r[k]| ==> !IsSpace(r[k][i])
    decreases |s|
  {
    if s == [] then []
    else if IsSpace(s[0]) then Fields(s[1..])
    else
      var n := TokenLength(s);
      [s[..n]] + Fields(s[n..])
  }

  /** A string made of no-space words separated by runs of spaces splits
      back into exactly those words. */
  lemma {:induction false} FieldsOfSpacedWords(w: string, gap: string, rest: string)
    requires w != [] && forall i :: 0 <= i < |w| ==> !IsSpace(w[i])
    requires gap != [] && forall i :: 0 <= i < |gap| ==> IsSpace(gap[i])
    ensures Fields(w + gap + rest) == [w] + Fields(rest)
  {
    var s := w + gap + rest;
    assert TokenLength(s) == |w| by {
      TokenOfWord(w, gap + rest);
      assert s == w + (gap + rest);
    }
    assert s[0] == w[0] && s[..|w|] == w && s[|w|..] == gap + rest;
    SpacesSkipped(gap, rest);
  }

  lemma {:induction false} TokenOfWord(w: string, t: string)
    requires forall i :: 0 <= i < |w| ==> !IsSpace(w[i])
    requires t != [] && IsSpace(t[0])
    ensures TokenLength(w + t) == |w|
  {
    if w != [] {
      assert (w + t)[1..] == w[1..] + t;
      TokenOfWord(w[1..], t);
    } else {
      assert w + t == t;
    }
  }

  lemma {:induction false} SpacesSkipped(gap: string, rest: string)
    requires forall i :: 0 <= i < |gap| ==> IsSpace(gap[i])
    ensures Fields(gap + rest) == Fields(rest)
  {
    if gap != [] {
      assert (gap + rest)[1..] == gap[1..] + rest;
      SpacesSkipped(gap[1..], rest);
    } else {
      assert gap + rest == rest;
    }
  }

  // ---------------------------------------------------------------------
  // Substring test, case and suffix

  /** `sub in s`: `sub` occurs in `s` at some offset. */
  predicate Contains(s: string, sub: string)
  {
    exists i :: 0 <= i <= |s| - |sub| && sub <= s[i..]
  }

  /** `str.lower` on the ASCII letters; every other code point is kept. */
  function Lower(s: string): (r: string)
    ensures |r| == |s|
    ensures forall i :: 0 <= i < |s| ==>
              r[i] == if 'A' <= s[i] <= 'Z' then (s[i] as int + 32) as char else s[i]
  {
    seq(|s|, i requires 0 <= i < |s| => if 'A' <= s[i] <= 'Z' then (s[i] as int + 32) as char else s[i])
  }

  /** `s.endswith(suffix)`. */
  predicate EndsWith(s: string, suffix: string)
  {
    |suffix| <= |s| && s[|s| - |suffix|..] == suffix
  }

  // ---------------------------------------------------------------------
  // Splitting on and joining with a separator

  /** Position of the first `c` in `s`. */
  function IndexOf(s: string, c: char): (i: nat)
    requires c in s
    ensures i < |s| && s[i] == c && c !in s[..i]
  {
    if s[0] == c then 0
    else
      assert c in s[1..] by {
        var k :| 0 <= k < |s| && s[k] == c;
        assert s[1..][k - 1] == c;
      }
      var j := IndexOf(s[1..], c);
      assert s[..j + 1] == [s[0]] + s[1..][..j];
      1 + j
  }

  /** The first occurrence is the only one with none before it. */
  lemma IndexOfIsFirst(s: string, c: char, i: nat)
    requires i < |s| && s[i] == c && c !in s[..i]
    ensures IndexOf(s, c) == i
  {
  }

  /** `s.split(sep)` for a one-character separator: the pieces between the
      separators, one more than there are separators, possibly empty. */
  function Split(s: string, sep: char): (r: seq<string>)
    ensures |r| >= 1
    ensures forall k :: 0 <= k < |r| ==> sep !in r[k]
    decreases |s|
  {
    if sep !in s then [s]
    else
      var i := IndexOf(s, sep);
      [s[..i]] + Split(s[i + 1..], sep)
  }

  /** `sep.join(pieces)`. */
  function Join(pieces: seq<string>, sep: char): string
  {
    if pieces == [] then []
    else if |pieces| == 1 then pieces[0]
    else pieces[0] + [sep] + Join(pieces[1..], sep)
  }

  /** Joining the pieces of a split gives back the string. */
  lemma {:induction false} JoinSplit(s: string, sep: char)
    ensures Join(Split(s, sep), sep) == s
    decreases |s|
  {
    if sep in s {
      var i := IndexOf(s, sep);
      JoinSplit(s[i + 1..], sep);
      assert s == s[..i] + [sep] + s[i + 1..];
    }
  }

  /** Splitting a string made of two parts around a separator splits each
      part. */
  lemma {:induction false} SplitAround(a: string, sep: char, b: string)
    ensures Split(a + [sep] + b, sep) == Split(a, sep) + Split(b, sep)
    decreases |a|
  {
    var s := a + [sep] + b;
    if sep in a {
      var i := IndexOf(a, sep);
      assert s[..i] == a[..i];
      IndexOfIsFirst(s, sep, i);
      assert s[i + 1..] == a[i + 1..] + [sep] + b;
      SplitAround(a[i + 1..], sep, b);
    } else {
      assert s[..|a|] == a && s[|a| + 1..] == b;
      IndexOfIsFirst(s, sep, |a|);
    }
  }

  /** Splitting pieces that hold no separator, joined with it, gives back
      the pieces. */
  lemma {:induction false} SplitJoin(pieces: seq<string>, sep: char)
    requires |pieces| >= 1 && forall k :: 0 <= k < |pieces| ==> sep !in pieces[k]
    ensures Split(Join(pieces, sep), sep) == pieces
  {
    if |pieces| > 1 {
      SplitJoin(pieces[1..], sep);
      SplitAround(pieces[0], sep, Join(pieces[1..], sep));
    }
  }

  // ---------------------------------------------------------------------
  // Code-point order: `<` on `str`

  /** `a < b` on Python strings: the first differing code point decides,
      and a proper prefix comes first. */
  predicate Less(a: string, b: string)
  {
    if a == [] then b != []
    else if b == [] then false
    else if a[0] != b[0] then a[0] < b[0]
    else Less(a[1..], b[1..])
  }

  /** A common prefix does not change the order. */
  lemma {:induction false} LessAfterCommonPrefix(p: string, a: string, b: string)
    ensures Less(p + a, p + b) <==> Less(a, b)
  {
    if p == [] {
      assert p + a == a && p + b == b;
    } else {
      assert (p + a)[1..] == p[1..] + a && (p + b)[1..] == p[1..] + b;
      LessAfterCommonPrefix(p[1..], a, b);
    }
  }

  lemma {:induction false} LessIrreflexive(a: string)
    ensures !Less(a, a)
  {
    if a != [] {
      LessIrreflexive(a[1..]);
    }
  }

  lemma {:induction false} LessTotal(a: string, b: string)
    ensures a == b || Less(a, b) || Less(b, a)
  {
    if a != [] && b != [] && a[0] == b[0] {
      LessTotal(a[1..], b[1..]);
      if a[1..] == b[1..] {
        assert a == [a[0]] + a[1..] && b == [b[0]] + b[1..];
      }
    }
  }

  lemma {:induction false} LessTransitive(a: string, b: string, c: string)
    requires Less(a, b) && Less(b, c)
    ensures Less(a, c)
  {
    if a != [] && a[0] == b[0] && b[0] == c[0] {
      LessTransitive(a[1..], b[1..], c[1..]);
    }
  }

  /** `sorted(names)[-1]`: the greatest name in code-point order. */
  function Greatest(names: seq<string>): (r: string)
    requires names != []
    ensures r in names
    ensures forall k :: 0 <= k < |names| ==> names[k] == r || Less(names[k], r)
  {
    if |names| == 1 then names[0]
    else
      var m := Greatest(names[1..]);
      assert forall k :: 1 <= k < |names| ==> names[k] == names[1..][k - 1];
      if Less(m, names[0]) then
        assert forall k :: 1 <= k < |names| ==> names[k] == names[0] || Less(names[k], names[0]) by {
          forall k | 1 <= k < |names| ensures names[k] == names[0] || Less(names[k], names[0]) {
            if names[k] != m {
              LessTransitive(names[k], m, names[0]);
            }
          }
        }
        names[0]
      else
        LessTotal(m, names[0]);
        m
  }

  /** The greatest name is unique: no other listed name is above it. */
  lemma GreatestIsMaximum(names: seq<string>, x: string)
    requires names != [] && x in names && forall k :: 0 <= k < |names| ==> names[k] == x || Less(names[k], x)
    ensures x == Greatest(names)
  {
    var g := Greatest(names);
    if x != g {
      LessTotal(x, g);
      if Less(x, g) {
        LessTransitive(x, g, x);
      } else {
        LessTransitive(g, x, g);
      }
      LessIrreflexive(x);
      LessIrreflexive(g);
    }
  }

  // ---------------------------------------------------------------------
  // Decimal numbers: `int()`, `str()` and `str.zfill`

  predicate IsDigit(c: char) { '0' <= c <= '9' }

  /** The value of a string of ASCII digits; the empty string reads 0. */
  function DigitsValue(s: string): (n: nat)
    requires forall i :: 0 <= i < |s| ==> IsDigit(s[i])
  {
    if s == [] then 0
    else
      assert IsDigit(s[|s| - 1]);
      10 * DigitsValue(s[..|s| - 1]) + (s[|s| - 1] as int - '0' as int)
  }

  /** `str(n)` for a natural number: its decimal digits, without leading
      zeros. */
  function DecimalString(n: nat): (s: string)
    ensures s != [] && forall i :: 0 <= i < |s| ==> IsDigit(s[i])
  {
    if n < 10 then [('0' as int + n) as char]
    else DecimalString(n / 10) + [('0' as int + n % 10) as char]
  }

  /** Reading the digits of `str(n)` gives back `n`. */
  lemma {:induction false} DecimalStringValue(n: nat)
    ensures DigitsValue(DecimalString(n)) == n
  {
    if n >= 10 {
      var s := DecimalString(n);
      assert s[..|s| - 1] == DecimalString(n / 10);
      DecimalStringValue(n / 10);
    }
  }

  /** Leading zeros do not change the value. */
  lemma {:induction false} LeadingZerosIgnored(z: string, s: string)
    requires forall i :: 0 <= i < |z| ==> z[i] == '0'
    requires forall i :: 0 <= i < |s| ==> IsDigit(s[i])
    ensures DigitsValue(z + s) == DigitsValue(s)
    decreases |s|
  {
    if s == [] {
      assert z + s == z;
      AllZerosValue(z);
    } else {
      assert (z + s)[..|z + s| - 1] == z + s[..|s| - 1];
      LeadingZerosIgnored(z, s[..|s| - 1]);
    }
  }

  lemma {:induction false} AllZerosValue(z: string)
    requires forall i :: 0 <= i < |z| ==> z[i] == '0'
    ensures DigitsValue(z) == 0
  {
    if z != [] {
      AllZerosValue(z[..|z| - 1]);
    }
  }

  /** `str(n)` for any integer: a minus sign before the digits of `|n|`. */
  function IntString(n: int): (s: string)
    ensures n >= 0 ==> s == DecimalString(n)
    ensures n < 0 ==> s == ['-'] + DecimalString(-n)
  {
    if n >= 0 then DecimalString(n) else ['-'] + DecimalString(-n)
  }

  function Zeros(n: nat): (z: string)
    ensures |z| == n && forall i :: 0 <= i < n ==> z[i] == '0'
  {
    seq(n, _ => '0')
  }

  /** `s.zfill(width)`: left-pad with zeros to `width`, after a leading sign. */
  function ZFill(s: string, width: nat): (r: string)
    ensures |r| == if |s| >= width then |s| else width
    ensures |s| >= width ==> r == s
    ensures |s| < width && s != [] && (s[0] == '+' || s[0] == '-') ==>
              r == [s[0]] + Zeros(width - |s|) + s[1..]
    ensures |s| < width && (s == [] || (s[0] != '+' && s[0] != '-')) ==> r == Zeros(width - |s|) + s
  {
    if |s| >= width then s
    else if s != [] && (s[0] == '+' || s[0] == '-') then [s[0]] + Zeros(width - |s|) + s[1..]
    else Zeros(width - |s|) + s
  }

  /** `s.strip()` with no argument: drop leading and trailing white space. */
  function Strip(s: string): (r: string)
    ensures |r| <= |s|
    ensures s != [] && !IsSpace(s[0]) && !IsSpace(s[|s| - 1]) ==> r == s
    decreases |s|
  {
    if s != [] && IsSpace(s[0]) then Strip(s[1..])
    else if s != [] && IsSpace(s[|s| - 1]) then Strip(s[..|s| - 1])
    else s
  }

  /** The digits of a well-formed numeral: ASCII digits, single underscores
      allowed between two digits. */
  predicate IsNumeral(s: string)
  {
    s != [] && IsDigit(s[0]) && IsDigit(s[|s| - 1]) &&
    (forall i :: 0 <= i < |s| ==> IsDigit(s[i]) || s[i] == '_') &&
    (forall i :: 0 <= i < |s| - 1 ==> !(s[i] == '_' && s[i + 1] == '_'))
  }

  function DropUnderscores(s: string): (r: string)
    requires forall i :: 0 <= i < |s| ==> IsDigit(s[i]) || s[i] == '_'
    ensures forall i :: 0 <= i < |r| ==> IsDigit(r[i])
    ensures (forall i :: 0 <= i < |s| ==> IsDigit(s[i])) ==> r == s
  {
    if s == [] then []
    else (if s[0] == '_' then [] else [s[0]]) + DropUnderscores(s[1..])
  }

  /** `int(s)` in base 10 on ASCII input: surrounding white space, an
      optional sign, then a numeral; anything else is a `ValueError`. */
  function ParseInt(s: string): (r: Option<int>)
    ensures (forall i :: 0 <= i < |s| ==> IsDigit(s[i])) && s != [] ==> r == Some(DigitsValue(s))
  {
    var t := Strip(s);
    var negative := t != [] && t[0] == '-';
    var body := if t != [] && (t[0] == '+' || t[0] == '-') then t[1..] else t;
    if !IsNumeral(body) then None
    else
      var v: int := DigitsValue(DropUnderscores(body));
      Some(if negative then -v else v)
  }

  /** `int(str(n).zfill(w))` gives back `n`. */
  lemma ParseZFilledDecimal(n: nat, width: nat)
    ensures ParseInt(ZFill(DecimalString(n), width)) == Some(n)
  {
    var d := DecimalString(n);
    var z := ZFill(d, width);
    DecimalStringValue(n);
    if |d| < width {
      LeadingZerosIgnored(Zeros(width - |d|), d);
    }
    assert forall i :: 0 <= i < |z| ==> IsDigit(z[i]);
  }

  // ---------------------------------------------------------------------
  // `os.path.join` on POSIX paths

  /** `os.path.join(a, b)`: an absolute `b` replaces `a`; otherwise a slash
      is inserted unless `a` is empty or already ends with one. */
  function PathJoin(a: string, b: string): (r: string)
    ensures b != [] && b[0] == '/' ==> r == b
    ensures (b == [] || b[0] != '/') ==> EndsWith(r, b) && a <= r
    ensures (b == [] || b[0] != '/') ==> r == a + (if a == [] || a[|a| - 1] == '/' then "" else "/") + b
  {
    if b != [] && b[0] == '/' then b
    else if a == [] || a[|a| - 1] == '/' then a + b
    else a + ['/'] + b
  }
}
