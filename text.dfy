/**
 * The JavaScript string operations the plugin relies on: `trim`, the `\s`
 * class, `toLowerCase`, `includes`, `startsWith`, `join`, `split` and the
 * `/\d+/` match fed to `parseInt`.  Strings are sequences of Unicode scalar
 * values.
 */
module Text {
  import opened Wrappers

  /** ECMAScript WhiteSpace and LineTerminator: what `trim` removes and `\s` matches. */
  predicate IsSpace(c: char)
  {
    c == ' ' || c == '\t' || c == '\n' || c == '\r' || c == '\U{B}' || c == '\U{C}' ||
    c == '\U{A0}' || c == '\U{1680}' || ('\U{2000}' <= c <= '\U{200A}') ||
    c == '\U{2028}' || c == '\U{2029}' || c == '\U{202F}' || c == '\U{205F}' ||
    c == '\U{3000}' || c == '\U{FEFF}'
  }

  predicate IsBlank(s: string)
  {
    forall i :: 0 <= i < |s| ==> IsSpace(s[i])
  }

  /** Length of the longest all-whitespace prefix (what `^\s*` matches). */
  function LeadingSpaces(s: string): (n: nat)
    ensures n <= |s|
    ensures forall i :: 0 <= i < n ==> IsSpace(s[i])
    ensures n < |s| ==> !IsSpace(s[n])
  {
    if s != [] && IsSpace(s[0]) then 1 + LeadingSpaces(s[1..]) else 0
  }

  function TrimStart(s: string): (r: string)
    ensures |r| <= |s| && r == s[|s| - |r|..]
    ensures forall i :: 0 <= i < |s| - |r| ==> IsSpace(s[i])
    ensures r != [] ==> !IsSpace(r[0])
  {
    s[LeadingSpaces(s)..]
  }

  function TrimEnd(s: string): (r: string)
    ensures |r| <= |s| && r == s[..|r|]
    ensures forall i :: |r| <= i < |s| ==> IsSpace(s[i])
    ensures r != [] ==> !IsSpace(r[|r| - 1])
  {
    if s != [] && IsSpace(s[|s| - 1]) then TrimEnd(s[..|s| - 1]) else s
  }

  /** `s.trim()`: `s` without its leading and trailing whitespace. */
  function Trim(s: string): (r: string)
    ensures LeadingSpaces(s) + |r| <= |s|
    ensures r == s[LeadingSpaces(s)..LeadingSpaces(s) + |r|]
    ensures forall i :: 0 <= i < LeadingSpaces(s) ==> IsSpace(s[i])
    ensures forall i :: LeadingSpaces(s) + |r| <= i < |s| ==> IsSpace(s[i])
    ensures r != [] ==> !IsSpace(r[0]) && !IsSpace(r[|r| - 1])
  {
    var t := TrimStart(s);
    var r := TrimEnd(t);
    assert r != [] ==> r[0] == t[0];
    r
  }

  /** `s.trim() === ""` exactly when `s` consists of whitespace only. */
  lemma TrimEmptyIffBlank(s: string)
    ensures Trim(s) == "" <==> IsBlank(s)
  {
    if Trim(s) != "" {
      assert !IsSpace(s[LeadingSpaces(s)]);
    }
  }

  lemma TrimIdempotent(s: string)
    ensures Trim(Trim(s)) == Trim(s)
  {
    var r := Trim(s);
    assert LeadingSpaces(r) == 0;
    assert TrimEnd(r) == r;
  }

  /** A whitespace prefix and suffix are exactly what trimming removes. */
  lemma TrimPadded(w1: string, body: string, w2: string)
    requires IsBlank(w1) && IsBlank(w2)
    requires body != [] ==> !IsSpace(body[0]) && !IsSpace(body[|body| - 1])
    ensures Trim(w1 + body + w2) == body
  {
    var s := w1 + body + w2;
    if body == [] {
      assert IsBlank(s) by {
        forall i | 0 <= i < |s| ensures IsSpace(s[i]) {
          if i < |w1| { assert s[i] == w1[i]; } else { assert s[i] == w2[i - |w1|]; }
        }
      }
      TrimEmptyIffBlank(s);
    } else {
      LeadingSpacesOfBlankPrefix(w1, body + w2);
      assert s == w1 + (body + w2);
      var t := TrimStart(s);
      assert t == body + w2;
      TrimEndOfBlankSuffix(body, w2);
    }
  }

  /** Trailing white space after a prefix that ends in a non-space is trimmed from the rest alone. */
  lemma {:induction false} TrimEndAfterUnpadded(p: string, t: string)
    requires p != [] && !IsSpace(p[|p| - 1])
    ensures TrimEnd(p + t) == p + TrimEnd(t)
  {
    var pt := p + t;
    if t == [] {
      assert pt == p;
    } else {
      assert pt[..|pt| - 1] == p + t[..|t| - 1];
      assert pt[|pt| - 1] == t[|t| - 1];
      TrimEndAfterUnpadded(p, t[..|t| - 1]);
    }
  }

  /** Trimming white space followed by a text that starts with a non-space trims only its end. */
  lemma TrimAfterBlank(w: string, t: string)
    requires IsBlank(w) && t != [] && !IsSpace(t[0])
    ensures Trim(w + t) == TrimEnd(t)
  {
    LeadingSpacesOfBlankPrefix(w, t);
    assert (w + t)[|w|..] == t;
    assert TrimStart(w + t) == t;
  }

  lemma {:induction false} LeadingSpacesOfBlankPrefix(w: string, t: string)
    requires IsBlank(w) && (t != [] ==> !IsSpace(t[0]))
    ensures LeadingSpaces(w + t) == |w|
  {
    if w != [] {
      assert (w + t)[1..] == w[1..] + t;
      LeadingSpacesOfBlankPrefix(w[1..], t);
    } else {
      assert w + t == t;
    }
  }

  lemma {:induction false} TrimEndOfBlankSuffix(t: string, w: string)
    requires IsBlank(w) && (t != [] ==> !IsSpace(t[|t| - 1]))
    ensures TrimEnd(t + w) == t
  {
    if w != [] {
      var tw := t + w;
      assert tw[..|tw| - 1] == t + w[..|w| - 1];
      TrimEndOfBlankSuffix(t, w[..|w| - 1]);
    } else {
      assert t + w == t;
    }
  }

  /**
   * `toLowerCase` restricted to what can change a match against a lower-case
   * ASCII keyword: ASCII capitals, and the Kelvin sign, which lowers to `k`.
   */
  function LowerChar(c: char): char
  {
    if 'A' <= c <= 'Z' then (c as int + 32) as char
    else if c == '\U{212A}' then 'k'
    else c
  }

  function ToLower(s: string): string
  {
    seq(|s|, i requires 0 <= i < |s| => LowerChar(s[i]))
  }

  predicate StartsWith(s: string, prefix: string)
  {
    |prefix| <= |s| && s[..|prefix|] == prefix
  }

  predicate EndsWith(s: string, suffix: string)
  {
    |suffix| <= |s| && s[|s| - |suffix|..] == suffix
  }

  /** `s.includes(sub)`, tried position by position. */
  predicate Contains(s: string, sub: string)
    decreases |s|
  {
    if |sub| > |s| then false else s[..|sub|] == sub || Contains(s[1..], sub)
  }

  predicate OccursAt(s: string, sub: string, i: int)
  {
    0 <= i && i + |sub| <= |s| && s[i..i + |sub|] == sub
  }

  /** The search agrees with the definition of a substring, in both directions. */
  lemma {:induction false} ContainsIff(s: string, sub: string)
    ensures Contains(s, sub) <==> exists i :: OccursAt(s, sub, i)
    decreases |s|
  {
    if |sub| <= |s| && s == [] {
      assert OccursAt(s, sub, 0);
    } else if |sub| <= |s| {
      ContainsIff(s[1..], sub);
      if Contains(s, sub) {
        if s[..|sub|] == sub {
          assert OccursAt(s, sub, 0);
        } else {
          var i :| OccursAt(s[1..], sub, i);
          SliceOfTail(s, i + 1, |sub|);
          assert OccursAt(s, sub, i + 1);
        }
      } else {
        forall i | 0 <= i
          ensures !OccursAt(s, sub, i)
        {
          if i == 0 {
          } else if i + |sub| <= |s| {
            SliceOfTail(s, i, |sub|);
            assert !OccursAt(s[1..], sub, i - 1);
          }
        }
      }
    }
  }

  lemma SliceOfTail(s: string, i: nat, n: nat)
    requires 1 <= i && i + n <= |s|
    ensures s[1..][i - 1..i - 1 + n] == s[i..i + n]
  {
    var u, v := s[1..][i - 1..i - 1 + n], s[i..i + n];
    assert |u| == |v|;
    assert forall k :: 0 <= k < n ==> u[k] == v[k];
  }

  /** Lowering works character by character, so it distributes over concatenation. */
  lemma ToLowerAppend(a: string, b: string)
    ensures ToLower(a + b) == ToLower(a) + ToLower(b)
  {
    var l, r := ToLower(a + b), ToLower(a) + ToLower(b);
    assert forall k :: 0 <= k < |l| ==> l[k] == r[k];
  }

  /** A text of lower-case ASCII letters is its own lowering. */
  lemma ToLowerOfLower(s: string)
    requires forall i :: 0 <= i < |s| ==> 'a' <= s[i] <= 'z'
    ensures ToLower(s) == s
  {
    var l := ToLower(s);
    assert forall k :: 0 <= k < |s| ==> l[k] == s[k];
  }

  /** A text contains every one of its infixes. */
  lemma ContainsInfix(p: string, sub: string, q: string)
    ensures Contains(p + sub + q, sub)
  {
    var s := p + sub + q;
    assert s[|p|..|p| + |sub|] == sub;
    assert OccursAt(s, sub, |p|);
    ContainsIff(s, sub);
  }

  /** The two texts are the same up to the case of ASCII letters. */
  predicate SameUpToAsciiCase(a: string, b: string)
  {
    |a| == |b| && forall i :: 0 <= i < |a| ==>
      a[i] == b[i] || ('A' <= a[i] <= 'Z' && b[i] as int == a[i] as int + 32)
        || ('A' <= b[i] <= 'Z' && a[i] as int == b[i] as int + 32)
  }

  /** Texts that differ only in the case of ASCII letters lower to the same text. */
  lemma ToLowerIgnoresAsciiCase(a: string, b: string)
    requires SameUpToAsciiCase(a, b)
    ensures ToLower(a) == ToLower(b)
  {
    var la, lb := ToLower(a), ToLower(b);
    forall k | 0 <= k < |a| ensures la[k] == lb[k] {
      assert la[k] == LowerChar(a[k]) && lb[k] == LowerChar(b[k]);
    }
  }

  /** `xs.join(sep)`. */
  function Join(xs: seq<string>, sep: string): string
  {
    if xs == [] then "" else if |xs| == 1 then xs[0] else xs[0] + sep + Join(xs[1..], sep)
  }

  /** `s.split(c)` for a one-character separator: never empty, `"".split(c) == [""]`. */
  function Split(s: string, c: char): (r: seq<string>)
    ensures |r| >= 1
  {
    if s == [] then [""]
    else
      var rest := Split(s[1..], c);
      if s[0] == c then [""] + rest else [[s[0]] + rest[0]] + rest[1..]
  }

  /** No piece of a split contains the separator. */
  lemma {:induction false} SplitPiecesFree(s: string, c: char)
    ensures forall i :: 0 <= i < |Split(s, c)| ==> c !in Split(s, c)[i]
  {
    if s != [] {
      SplitPiecesFree(s[1..], c);
      var rest := Split(s[1..], c);
      if s[0] != c {
        assert Split(s, c) == [[s[0]] + rest[0]] + rest[1..];
      }
    }
  }

  /** A split has one piece more than the text has separators. */
  lemma {:induction false} SplitCount(s: string, c: char)
    ensures |Split(s, c)| == multiset(s)[c] + 1
  {
    if s != [] {
      SplitCount(s[1..], c);
      assert s == [s[0]] + s[1..];
    }
  }

  /** Joining the pieces of a split puts the string back together. */
  lemma {:induction false} JoinSplit(s: string, c: char)
    ensures Join(Split(s, c), [c]) == s
  {
    if s != [] {
      var rest := Split(s[1..], c);
      JoinSplit(s[1..], c);
      if s[0] == c {
        assert Join(Split(s, c), [c]) == "" + [c] + Join(rest, [c]);
      } else {
        var r := Split(s, c);
        assert r[1..] == rest[1..];
        if |rest| == 1 {
          assert Join(r, [c]) == [s[0]] + rest[0];
        } else {
          assert Join(rest, [c]) == rest[0] + [c] + Join(rest[1..], [c]);
          assert Join(r, [c]) == [s[0]] + rest[0] + [c] + Join(rest[1..], [c]);
        }
        assert s == [s[0]] + s[1..];
      }
    }
  }

  lemma {:induction false} SplitNoSeparatorPrefix(x: string, t: string, c: char)
    requires c !in x
    ensures Split(x + t, c) == [x + Split(t, c)[0]] + Split(t, c)[1..]
  {
    if x == [] {
      var st := Split(t, c);
      assert x + t == t && x + st[0] == st[0];
      assert st == [st[0]] + st[1..];
    } else {
      var xt := x + t;
      assert xt[0] == x[0] && xt[1..] == x[1..] + t;
      assert x[0] != c;
      SplitNoSeparatorPrefix(x[1..], t, c);
      var st := Split(t, c);
      var r := Split(xt[1..], c);
      assert r == [x[1..] + st[0]] + st[1..];
      assert Split(xt, c) == [[x[0]] + r[0]] + r[1..];
      assert r[1..] == st[1..];
      assert [x[0]] + (x[1..] + st[0]) == x + st[0];
    }
  }

  /** Splitting a join gives the parts back, provided no part contains the separator. */
  lemma {:induction false} SplitJoin(xs: seq<string>, c: char)
    requires xs != []
    requires forall i :: 0 <= i < |xs| ==> c !in xs[i]
    ensures Split(Join(xs, [c]), c) == xs
  {
    if |xs| == 1 {
      SplitNoSeparatorPrefix(xs[0], "", c);
      assert xs[0] + "" == xs[0];
    } else {
      var t := Join(xs[1..], [c]);
      SplitJoin(xs[1..], c);
      assert xs[0] + [c] + t == xs[0] + ([c] + t);
      SplitNoSeparatorPrefix(xs[0], [c] + t, c);
      assert ([c] + t)[1..] == t;
      assert Split([c] + t, c) == [""] + xs[1..];
      assert xs[0] + "" == xs[0];
      assert xs == [xs[0]] + xs[1..];
    }
  }

  /** `s.split(c)[0]`: everything before the first `c`. */
  function FirstToken(s: string, c: char): string
  {
    Split(s, c)[0]
  }

  lemma {:induction false} FirstTokenSpec(s: string, c: char)
    ensures StartsWith(s, FirstToken(s, c)) && c !in FirstToken(s, c)
    ensures FirstToken(s, c) == s || s[|FirstToken(s, c)|] == c
  {
    if s != [] {
      FirstTokenSpec(s[1..], c);
      assert s == [s[0]] + s[1..];
    }
  }

  predicate IsDigit(c: char)
  {
    '0' <= c <= '9'
  }

  predicate AllDigits(s: string)
  {
    forall i :: 0 <= i < |s| ==> IsDigit(s[i])
  }

  /** Value of a string of decimal digits (what `parseInt` gives for a `\d+` match). */
  function DigitsValue(d: string): nat
    requires AllDigits(d)
  {
    if d == [] then 0 else 10 * DigitsValue(d[..|d| - 1]) + (d[|d| - 1] as int - '0' as int)
  }

  /** Canonical decimal rendering of `n` (no leading zeros). */
  function Decimal(n: nat): (d: string)
    ensures d != [] && AllDigits(d)
  {
    var digit := ('0' as int + n % 10) as char;
    if n < 10 then [digit] else Decimal(n / 10) + [digit]
  }

  lemma {:induction false} DigitsValueOfDecimal(n: nat)
    ensures DigitsValue(Decimal(n)) == n
  {
    if n >= 10 {
      DigitsValueOfDecimal(n / 10);
      var d := Decimal(n);
      assert d[..|d| - 1] == Decimal(n / 10);
    }
  }

  /** The longest prefix of `s` made of digits. */
  function LeadingDigits(s: string): (d: string)
    ensures StartsWith(s, d) && AllDigits(d)
    ensures |d| < |s| ==> !IsDigit(s[|d|])
  {
    if s != [] && IsDigit(s[0]) then [s[0]] + LeadingDigits(s[1..]) else ""
  }

  /** The first match of `/\d+/` in `s`, if any. */
  function FirstDigitRun(s: string): (r: Option<string>)
    ensures r.Some? ==> r.value != [] && AllDigits(r.value)
  {
    if s == [] then None
    else if IsDigit(s[0]) then Some(LeadingDigits(s))
    else FirstDigitRun(s[1..])
  }

  /** `/\d+/` fails exactly on strings without a digit. */
  lemma {:induction false} FirstDigitRunNone(s: string)
    ensures FirstDigitRun(s).None? <==> forall i :: 0 <= i < |s| ==> !IsDigit(s[i])
  {
    if s != [] {
      FirstDigitRunNone(s[1..]);
      assert forall i :: 1 <= i < |s| ==> s[i] == s[1..][i - 1];
    }
  }

  /** In `p + d + q` with no digit in `p`, the match is the digit run `d` when `q` does not continue it. */
  lemma {:induction false} FirstDigitRunAfter(p: string, d: string, q: string)
    requires forall i :: 0 <= i < |p| ==> !IsDigit(p[i])
    requires d != [] && AllDigits(d)
    requires q != [] ==> !IsDigit(q[0])
    ensures FirstDigitRun(p + d + q) == Some(d)
  {
    if p != [] {
      var s := p + d + q;
      assert s[0] == p[0] && s[1..] == p[1..] + d + q;
      FirstDigitRunAfter(p[1..], d, q);
    } else {
      assert p + d + q == d + q;
      LeadingDigitsOf(d, q);
    }
  }

  lemma {:induction false} LeadingDigitsOf(d: string, q: string)
    requires AllDigits(d)
    requires q != [] ==> !IsDigit(q[0])
    ensures LeadingDigits(d + q) == d
  {
    if d == [] {
      assert d + q == q;
    } else {
      var s := d + q;
      assert s[0] == d[0] && s[1..] == d[1..] + q;
      LeadingDigitsOf(d[1..], q);
      assert d == [d[0]] + d[1..];
    }
  }
}
