/**
 * The few Python `str` operations the core relies on, stated over `seq<char>`:
 * `isspace`, `strip`, `rstrip(c)`, `split(c)`, `split(c, 1)`, `replace`,
 * `startswith`, `str(int)` and an ASCII `lower`.
 */
module Text {
  import opened Wrappers

  /** Python's `str.isspace` on one character (the Unicode whitespace set). */
  predicate IsSpace(c: char) {
    || ('\U{9}' <= c <= '\U{D}')
    || ('\U{1C}' <= c <= '\U{20}')
    || c == '\U{85}' || c == '\U{A0}' || c == '\U{1680}'
    || ('\U{2000}' <= c <= '\U{200A}')
    || c == '\U{2028}' || c == '\U{2029}' || c == '\U{202F}'
    || c == '\U{205F}' || c == '\U{3000}'
  }

  /** `p` is a prefix of `s`: Python's `s.startswith(p)`. */
  predicate StartsWith(s: string, p: string) {
    |p| <= |s| && s[..|p|] == p
  }

  /** `s.lstrip()`: drops leading whitespace and nothing else. */
  function LStrip(s: string): (r: string)
    ensures |r| <= |s| && r == s[|s| - |r|..]
    ensures r == [] || !IsSpace(r[0])
  {
    if s != [] && IsSpace(s[0]) then LStrip(s[1..]) else s
  }

  /** `s.rstrip()`: drops trailing whitespace and nothing else. */
  function RStrip(s: string): (r: string)
    ensures |r| <= |s| && r == s[..|r|]
    ensures r == [] || !IsSpace(r[|r| - 1])
  {
    if s != [] && IsSpace(s[|s| - 1]) then RStrip(s[..|s| - 1]) else s
  }

  /** `s.strip()`. */
  function Strip(s: string): string {
    RStrip(LStrip(s))
  }

  /** A stripped string neither starts nor ends with whitespace. */
  lemma StripTrimmed(s: string)
    ensures Strip(s) == [] || (!IsSpace(Strip(s)[0]) && !IsSpace(Strip(s)[|Strip(s)| - 1]))
  {
    var l := LStrip(s);
    var r := RStrip(l);
    if r != [] {
      assert r[0] == l[0];
    }
  }

  lemma {:induction false} LStripSpaces(pre: string, t: string)
    requires forall i :: 0 <= i < |pre| ==> IsSpace(pre[i])
    ensures LStrip(pre + t) == LStrip(t)
    decreases |pre|
  {
    if pre != [] {
      var u := pre + t;
      assert u[0] == pre[0];
      assert LStrip(u) == LStrip(u[1..]);
      var rest := pre[1..];
      assert u[1..] == rest + t;
      assert forall i :: 0 <= i < |rest| ==> rest[i] == pre[i + 1];
      LStripSpaces(rest, t);
    } else {
      assert pre + t == t;
    }
  }

  lemma {:induction false} RStripSpaces(t: string, post: string)
    requires forall i :: 0 <= i < |post| ==> IsSpace(post[i])
    ensures RStrip(t + post) == RStrip(t)
    decreases |post|
  {
    if post != [] {
      var u := t + post;
      var rest := post[..|post| - 1];
      assert u[|u| - 1] == post[|post| - 1];
      assert RStrip(u) == RStrip(u[..|u| - 1]);
      assert u[..|u| - 1] == t + rest;
      assert forall i :: 0 <= i < |rest| ==> rest[i] == post[i];
      RStripSpaces(t, rest);
    } else {
      assert t + post == t;
    }
  }

  /** Whitespace around a word with no whitespace at its ends is what `strip` removes. */
  lemma StripPadded(pre: string, w: string, post: string)
    requires forall i :: 0 <= i < |pre| ==> IsSpace(pre[i])
    requires forall i :: 0 <= i < |post| ==> IsSpace(post[i])
    requires w != [] && !IsSpace(w[0]) && !IsSpace(w[|w| - 1])
    ensures Strip(pre + w + post) == w
  {
    assert pre + w + post == pre + (w + post);
    LStripSpaces(pre, w + post);
    assert LStrip(w + post) == w + post;
    RStripSpaces(w, post);
  }

  /** What `lstrip` drops is whitespace. */
  lemma {:induction false} LStripDropsSpaces(s: string)
    ensures forall i :: 0 <= i < |s| - |LStrip(s)| ==> IsSpace(s[i])
    decreases |s|
  {
    if s != [] && IsSpace(s[0]) {
      LStripDropsSpaces(s[1..]);
      forall i | 1 <= i < |s| - |LStrip(s)| ensures IsSpace(s[i]) {
        assert s[i] == s[1..][i - 1];
      }
    }
  }

  /** What `rstrip` drops is whitespace. */
  lemma {:induction false} RStripDropsSpaces(s: string)
    ensures forall i :: |RStrip(s)| <= i < |s| ==> IsSpace(s[i])
    decreases |s|
  {
    if s != [] && IsSpace(s[|s| - 1]) {
      RStripDropsSpaces(s[..|s| - 1]);
    }
  }

  /** Trailing whitespace makes no difference to `strip`. */
  lemma {:induction false} StripTrailingSpaces(t: string, post: string)
    requires forall i :: 0 <= i < |post| ==> IsSpace(post[i])
    ensures Strip(t + post) == Strip(t)
    decreases |t|
  {
    if t == [] {
      assert t + post == post;
      LStripDropsSpaces(post);
      assert LStrip(post) == [];
    } else if IsSpace(t[0]) {
      assert (t + post)[0] == t[0];
      assert (t + post)[1..] == t[1..] + post;
      StripTrailingSpaces(t[1..], post);
    } else {
      assert (t + post)[0] == t[0];
      RStripSpaces(t, post);
    }
  }

  /** `rstrip` keeps a prefix whose last character is not whitespace. */
  lemma RStripKeepsPrefix(s: string, p: string)
    requires p != [] && !IsSpace(p[|p| - 1])
    ensures StartsWith(RStrip(s), p) <==> StartsWith(s, p)
  {
    var r := RStrip(s);
    RStripDropsSpaces(s);
    if StartsWith(s, p) {
      assert !IsSpace(s[|p| - 1]);
      assert |r| >= |p|;
      assert r[..|p|] == s[..|p|];
    }
    if StartsWith(r, p) {
      assert s[..|p|] == r[..|p|];
    }
  }

  /** `s.rstrip(c)`: drops trailing copies of `c` and nothing else. */
  function RStripChar(s: string, c: char): (r: string)
    ensures |r| <= |s| && r == s[..|r|]
    ensures forall i :: |r| <= i < |s| ==> s[i] == c
    ensures r == [] || r[|r| - 1] != c
  {
    if s != [] && s[|s| - 1] == c then RStripChar(s[..|s| - 1], c) else s
  }

  /** Index of the first occurrence of `c` in `s`. */
  function IndexOf(s: string, c: char): (i: nat)
    requires c in s
    ensures i < |s| && s[i] == c && c !in s[..i]
  {
    if s[0] == c then 0 else 1 + IndexOf(s[1..], c)
  }

  /** Python's `s.split(c)`: the pieces between occurrences of `c`, at least one. */
  function Split(s: string, c: char): (parts: seq<string>)
    ensures |parts| >= 1
    ensures forall k :: 0 <= k < |parts| ==> c !in parts[k]
    decreases |s|
  {
    if c !in s then [s]
    else
      var i := IndexOf(s, c);
      [s[..i]] + Split(s[i + 1..], c)
  }

  /** Undoing a split: the pieces joined with `c` give back the string. */
  function Join(parts: seq<string>, c: char): string
    requires |parts| >= 1
  {
    if |parts| == 1 then parts[0] else parts[0] + [c] + Join(parts[1..], c)
  }

  lemma {:induction false} JoinSplit(s: string, c: char)
    ensures Join(Split(s, c), c) == s
    decreases |s|
  {
    if c in s {
      var i := IndexOf(s, c);
      var parts := Split(s, c);
      var rest := Split(s[i + 1..], c);
      assert parts == [s[..i]] + rest;
      assert parts[1..] == rest;
      JoinSplit(s[i + 1..], c);
      assert Join(parts, c) == s[..i] + [c] + Join(rest, c);
      assert s == s[..i] + [c] + s[i + 1..];
    }
  }

  /** Splitting a string whose first piece is `x` yields `x`, then the split of the rest. */
  lemma {:induction false} SplitCons(x: string, c: char, y: string)
    requires c !in x
    ensures Split(x + [c] + y, c) == [x] + Split(y, c)
  {
    var s := x + [c] + y;
    assert s[|x|] == c;
    assert s[..|x|] == x;
    assert s[..|x| + 1][|x|] == c;
    var i := IndexOf(s, c);
    assert i == |x|;
    assert s[..i] == x;
    assert s[i + 1..] == y;
  }

  /** Splitting a string whose first two pieces are `x` and `y`. */
  lemma SplitCons2(x: string, y: string, c: char, z: string)
    requires c !in x && c !in y
    ensures Split(x + [c] + y + [c] + z, c) == [x, y] + Split(z, c)
  {
    assert x + [c] + y + [c] + z == x + [c] + (y + [c] + z);
    SplitCons(x, c, y + [c] + z);
    SplitCons(y, c, z);
  }

  /** Python's `s.split(c, 1)` unpacked into two names: fails when `c` does not occur. */
  function SplitOnce(s: string, c: char): (r: Option<(string, string)>)
    ensures r.None? <==> c !in s
    ensures r.Some? ==> c !in r.value.0 && r.value.0 + [c] + r.value.1 == s
  {
    if c in s then
      var i := IndexOf(s, c);
      assert s == s[..i] + [c] + s[i + 1..];
      Some((s[..i], s[i + 1..]))
    else None
  }

  /** A string whose first `c` follows `x` splits once into `x` and the rest. */
  lemma SplitOnceAt(x: string, c: char, y: string)
    requires c !in x
    ensures SplitOnce(x + [c] + y, c) == Some((x, y))
  {
    var s := x + [c] + y;
    assert s[|x|] == c;
    assert s[..|x|] == x;
    assert s[..|x| + 1][|x|] == c;
    var i := IndexOf(s, c);
    assert i == |x|;
    assert s[..i] == x;
    assert s[i + 1..] == y;
  }

  /** `s` contains `p` at position `i`. */
  predicate OccursAt(s: string, p: string, i: nat) {
    i + |p| <= |s| && s[i..i + |p|] == p
  }

  /** Python's `s.replace(p, q)`: every non-overlapping occurrence of `p`, left to right. */
  function Replace(s: string, p: string, q: string): string
    requires p != []
    decreases |s|
  {
    if s == [] then []
    else if StartsWith(s, p) then q + Replace(s[|p|..], p, q)
    else [s[0]] + Replace(s[1..], p, q)
  }

  /** A string with no occurrence of `p` is left unchanged by `replace`. */
  lemma {:induction false} ReplaceAbsent(s: string, p: string, q: string)
    requires p != []
    requires forall i :: 0 <= i < |s| ==> !OccursAt(s, p, i)
    ensures Replace(s, p, q) == s
    decreases |s|
  {
    if s != [] {
      assert !OccursAt(s, p, 0);
      forall i | 0 <= i < |s[1..]| ensures !OccursAt(s[1..], p, i) {
        assert !OccursAt(s, p, i + 1);
        if i + |p| <= |s[1..]| {
          assert s[1..][i..i + |p|] == s[i + 1..i + 1 + |p|];
        }
      }
      ReplaceAbsent(s[1..], p, q);
    }
  }

  /** A prefix in which the pattern's first character never occurs is copied as it is. */
  lemma {:induction false} ReplaceSkip(a: string, b: string, p: string, q: string)
    requires p != [] && p[0] !in a
    ensures Replace(a + b, p, q) == a + Replace(b, p, q)
    decreases |a|
  {
    if a != [] {
      var s := a + b;
      assert s[0] == a[0] && !StartsWith(s, p);
      assert s[1..] == a[1..] + b;
      ReplaceSkip(a[1..], b, p, q);
      assert [a[0]] + a[1..] == a;
    } else {
      assert a + b == b;
    }
  }

  /** An occurrence at the start is replaced, and the scan goes on after it. */
  lemma ReplaceAt(p: string, b: string, q: string)
    requires p != []
    ensures Replace(p + b, p, q) == q + Replace(b, p, q)
  {
    var s := p + b;
    assert s[..|p|] == p && s[|p|..] == b;
  }

  /**
   * A piece that starts like the pattern without the string matching it there,
   * and has no other copy of the pattern's first character, is copied as it is.
   */
  lemma ReplaceMiss(x: string, b: string, p: string, q: string)
    requires p != [] && x != [] && p[0] !in x[1..] && !StartsWith(x + b, p)
    ensures Replace(x + b, p, q) == x + Replace(b, p, q)
  {
    var s := x + b;
    var rest := x[1..];
    assert s != [] && s[0] == x[0] && s[1..] == rest + b;
    ReplaceSkip(rest, b, p, q);
    var rb := Replace(b, p, q);
    assert Replace(s, p, q) == [x[0]] + (rest + rb);
    assert [x[0]] + (rest + rb) == ([x[0]] + rest) + rb;
    assert [x[0]] + rest == x;
  }

  /** A string that is exactly the pattern is replaced by exactly the replacement. */
  lemma ReplaceWhole(p: string, q: string)
    requires p != []
    ensures Replace(p, p, q) == q
  {
    assert p[|p|..] == [];
  }

  function Digit(d: nat): (c: char)
    requires d < 10
    ensures '0' <= c <= '9'
  {
    ['0', '1', '2', '3', '4', '5', '6', '7', '8', '9'][d]
  }

  /** `str(n)` for a natural number: decimal digits, no leading zero. */
  function NatToString(n: nat): (s: string)
    ensures |s| >= 1
    ensures forall k :: 0 <= k < |s| ==> '0' <= s[k] <= '9'
    ensures |s| > 1 ==> s[0] != '0'
    decreases n
  {
    if n < 10 then [Digit(n)] else NatToString(n / 10) + [Digit(n % 10)]
  }

  /** `str(i)` for an integer. */
  function IntToString(i: int): (s: string)
    ensures i < 0 <==> (s != [] && s[0] == '-')
  {
    if i < 0 then "-" + NatToString(-i) else NatToString(i)
  }

  /** Number of decimal digits of `n`. */
  function Digits(n: nat): (k: nat)
    ensures k >= 1
    decreases n
  {
    if n < 10 then 1 else 1 + Digits(n / 10)
  }

  lemma {:induction false} NatToStringLength(n: nat)
    ensures |NatToString(n)| == Digits(n)
    decreases n
  {
    if n >= 10 {
      NatToStringLength(n / 10);
    }
  }

  /** Every number from 100000 to 999999 is written with exactly six digits. */
  lemma SixDigits(n: nat)
    requires 100000 <= n <= 999999
    ensures |NatToString(n)| == 6
  {
    NatToStringLength(n);
    var n1 := n / 10;
    var n2 := n1 / 10;
    var n3 := n2 / 10;
    var n4 := n3 / 10;
    var n5 := n4 / 10;
    assert 1 <= n5 <= 9;
    assert Digits(n4) == 2;
    assert Digits(n3) == 3;
    assert Digits(n2) == 4;
    assert Digits(n1) == 5;
    assert Digits(n) == 6;
  }

  function AsciiLowerChar(c: char): char {
    if 'A' <= c <= 'Z' then (c as int + 32) as char else c
  }

  /** `s.lower()` on ASCII letters. */
  function AsciiLower(s: string): (r: string)
    ensures |r| == |s|
    ensures forall i :: 0 <= i < |s| ==> r[i] == AsciiLowerChar(s[i])
  {
    seq(|s|, i requires 0 <= i < |s| => AsciiLowerChar(s[i]))
  }
}
