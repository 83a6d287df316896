/**
 * The handful of PHP and WordPress string helpers the installer and the
 * catalog rely on, stated over `seq<char>`: substring search (`strpos`),
 * `str_replace`, `str_repeat`, `trim`, decimal formatting of integers,
 * and the path helpers `basename`, `dirname`, `trailingslashit` and
 * `untrailingslashit` (POSIX separator `/` only).
 */
module Strings {

  /** PHP `empty()` on a string: the empty string and `"0"`. */
  predicate PhpEmpty(s: string)
  {
    s == "" || s == "0"
  }

  // ---------------------------------------------------------------------
  // Substring search
  // ---------------------------------------------------------------------

  /** `sub` occurs in `s` starting at index `i`. */
  ghost predicate OccursAt(s: string, sub: string, i: int)
  {
    0 <= i && i + |sub| <= |s| && s[i..i + |sub|] == sub
  }

  /** PHP `strpos($s, $sub) !== false`. */
  function Contains(s: string, sub: string): bool
    decreases |s|
  {
    if |s| < |sub| then false
    else if s[..|sub|] == sub then true
    else Contains(s[1..], sub)
  }

  /** The scanning search finds `sub` exactly when `sub` occurs somewhere in `s`. */
  lemma {:induction false} ContainsIff(s: string, sub: string)
    ensures Contains(s, sub) <==> exists i :: OccursAt(s, sub, i)
    decreases |s|
  {
    if |s| < |sub| {
    } else if s[..|sub|] == sub {
      assert OccursAt(s, sub, 0);
    } else {
      ContainsIff(s[1..], sub);
      forall i | OccursAt(s, sub, i)
        ensures OccursAt(s[1..], sub, i - 1)
      {
        assert i != 0;
        assert s[1..][i - 1..i - 1 + |sub|] == s[i..i + |sub|];
      }
      forall i | OccursAt(s[1..], sub, i)
        ensures OccursAt(s, sub, i + 1)
      {
        assert s[1..][i..i + |sub|] == s[i + 1..i + 1 + |sub|];
      }
    }
  }

  // ---------------------------------------------------------------------
  // str_replace / str_repeat
  // ---------------------------------------------------------------------

  /** Concatenation is associative; stated once so that proofs need not rediscover it. */
  lemma Associative<T>(a: seq<T>, b: seq<T>, c: seq<T>)
    ensures (a + b) + c == a + (b + c)
  {
  }

  /** PHP `str_replace($from, $to, $s)` for one-character strings. */
  function ReplaceChar(s: string, from: char, to: char): (r: string)
    ensures |r| == |s|
    ensures forall i :: 0 <= i < |s| ==> r[i] == (if s[i] == from then to else s[i])
  {
    if s == [] then []
    else [if s[0] == from then to else s[0]] + ReplaceChar(s[1..], from, to)
  }

  /**
   * PHP `str_replace($needle, '', $s)`: removes every occurrence of `needle`,
   * scanning left to right without overlaps. An empty needle leaves `s` as it is.
   */
  function RemoveAll(s: string, needle: string): string
    decreases |s|
  {
    if needle == [] || |s| < |needle| then s
    else if s[..|needle|] == needle then RemoveAll(s[|needle|..], needle)
    else [s[0]] + RemoveAll(s[1..], needle)
  }

  /** Nothing is removed from a string in which the needle does not occur. */
  lemma {:induction false} RemoveAllAbsent(s: string, needle: string)
    requires !Contains(s, needle)
    ensures RemoveAll(s, needle) == s
    decreases |s|
  {
    if needle == [] || |s| < |needle| {
    } else {
      RemoveAllAbsent(s[1..], needle);
    }
  }

  /** A leading occurrence of the needle is removed and scanning resumes after it. */
  lemma RemoveAllPrefix(needle: string, rest: string)
    requires needle != []
    ensures RemoveAll(needle + rest, needle) == RemoveAll(rest, needle)
  {
    assert (needle + rest)[..|needle|] == needle;
    assert (needle + rest)[|needle|..] == rest;
  }

  /** PHP `str_repeat($s, $n)`. */
  function Repeat(s: string, n: nat): (r: string)
    ensures |r| == |s| * n
  {
    if n == 0 then [] else s + Repeat(s, n - 1)
  }

  // ---------------------------------------------------------------------
  // trim
  // ---------------------------------------------------------------------

  /** PHP `rtrim($s, $cs)`: drops the trailing characters that belong to `cs`. */
  function RTrim(s: string, cs: set<char>): (r: string)
    ensures |r| <= |s|
  {
    if s == [] || s[|s| - 1] !in cs then s
    else RTrim(s[..|s| - 1], cs)
  }

  /** `rtrim` keeps a prefix that does not end in `cs` and drops only characters of `cs`. */
  lemma {:induction false} RTrimShape(s: string, cs: set<char>)
    ensures var r := RTrim(s, cs);
      && r == s[..|r|]
      && (r == [] || r[|r| - 1] !in cs)
      && forall i :: |r| <= i < |s| ==> s[i] in cs
  {
    if s != [] && s[|s| - 1] in cs {
      RTrimShape(s[..|s| - 1], cs);
      var r := RTrim(s, cs);
      assert s[..|s| - 1][..|r|] == s[..|r|];
    }
  }

  /** PHP `ltrim($s, $cs)`: drops the leading characters that belong to `cs`. */
  function LTrim(s: string, cs: set<char>): (r: string)
    ensures |r| <= |s|
  {
    if s == [] || s[0] !in cs then s
    else LTrim(s[1..], cs)
  }

  /** `ltrim` keeps a suffix that does not start with `cs` and drops only characters of `cs`. */
  lemma {:induction false} LTrimShape(s: string, cs: set<char>)
    ensures var r := LTrim(s, cs);
      && r == s[|s| - |r|..]
      && (r == [] || r[0] !in cs)
      && forall i :: 0 <= i < |s| - |r| ==> s[i] in cs
  {
    if s != [] && s[0] in cs {
      LTrimShape(s[1..], cs);
      var r := LTrim(s, cs);
      assert s[1..][|s| - 1 - |r|..] == s[|s| - |r|..];
      forall i | 0 <= i < |s| - |r| ensures s[i] in cs {
        if i > 0 {
          assert s[i] == s[1..][i - 1];
        }
      }
    }
  }

  /** PHP `trim($s, $cs)`. */
  function Trim(s: string, cs: set<char>): string
  {
    RTrim(LTrim(s, cs), cs)
  }

  // ---------------------------------------------------------------------
  // Decimal formatting
  // ---------------------------------------------------------------------

  function DigitChar(d: nat): (c: char)
    requires d < 10
    ensures '0' <= c <= '9' && c as int - '0' as int == d
  {
    (48 + d) as char
  }

  /** The decimal representation PHP gives a non-negative integer. */
  function NatToString(n: nat): (r: string)
    ensures |r| >= 1
    ensures forall i :: 0 <= i < |r| ==> '0' <= r[i] <= '9'
    decreases n
  {
    if n < 10 then [DigitChar(n)] else NatToString(n / 10) + [DigitChar(n % 10)]
  }

  /** The value of a string of decimal digits. */
  function DigitsValue(s: string): nat
    requires forall i :: 0 <= i < |s| ==> '0' <= s[i] <= '9'
  {
    if s == [] then 0
    else DigitsValue(s[..|s| - 1]) * 10 + (s[|s| - 1] as int - '0' as int)
  }

  /** Reading back the digits of `NatToString(n)` gives `n`. */
  lemma {:induction false} NatToStringRoundTrip(n: nat)
    ensures DigitsValue(NatToString(n)) == n
    decreases n
  {
    var s := NatToString(n);
    if n < 10 {
      assert s[..|s| - 1] == [];
    } else {
      NatToStringRoundTrip(n / 10);
      assert s[..|s| - 1] == NatToString(n / 10);
    }
  }

  /** Distinct numbers print differently. */
  lemma NatToStringInjective(a: nat, b: nat)
    requires NatToString(a) == NatToString(b)
    ensures a == b
  {
    NatToStringRoundTrip(a);
    NatToStringRoundTrip(b);
  }

  /** The decimal representation PHP gives an integer (with a leading `-`). */
  function IntToString(i: int): (r: string)
    ensures |r| >= 1
    ensures (r[0] == '-') <==> i < 0
  {
    if i < 0 then "-" + NatToString(-i) else NatToString(i)
  }

  // ---------------------------------------------------------------------
  // Paths
  // ---------------------------------------------------------------------

  /** WordPress `untrailingslashit`: `rtrim($s, '/')`. */
  function Untrailing(s: string): (r: string)
    ensures |r| <= |s|
  {
    RTrim(s, {'/'})
  }

  /** `untrailingslashit` keeps a prefix that does not end in `/` and drops only separators. */
  lemma UntrailingShape(s: string)
    ensures var r := Untrailing(s);
      && r == s[..|r|]
      && (r == [] || r[|r| - 1] != '/')
      && forall i :: |r| <= i < |s| ==> s[i] == '/'
  {
    RTrimShape(s, {'/'});
  }

  /** WordPress `trailingslashit`: exactly one `/` at the end. */
  function TrailingSlashIt(s: string): (r: string)
    ensures |r| >= 1 && r[|r| - 1] == '/'
  {
    Untrailing(s) + "/"
  }

  /** The `/` that `trailingslashit` leaves is the only one at the end, after a prefix of the path. */
  lemma TrailingSlashItShape(s: string)
    ensures var r := TrailingSlashIt(s);
      && (|r| == 1 || r[|r| - 2] != '/')
      && |r| - 1 <= |s| && r[..|r| - 1] == s[..|r| - 1]
  {
    UntrailingShape(s);
    var u := Untrailing(s);
    assert TrailingSlashIt(s)[..|u|] == u;
  }

  /** A path that does not end in `/` just gains one. */
  lemma TrailingSlashOfClean(d: string)
    requires d == [] || d[|d| - 1] != '/'
    ensures TrailingSlashIt(d) == d + "/" && TrailingSlashIt(d)[..|d|] == d
  {
    assert Untrailing(d) == d;
    assert (d + "/")[..|d|] == d;
  }

  /** The characters after the last `/` of `t`. */
  function AfterLastSlash(t: string): (r: string)
    ensures '/' !in r && |r| <= |t|
  {
    if t == [] || t[|t| - 1] == '/' then []
    else AfterLastSlash(t[..|t| - 1]) + [t[|t| - 1]]
  }

  /** `t` without its last component: everything up to and including its last `/`. */
  function DropLastComponent(t: string): (r: string)
    ensures |r| <= |t|
  {
    if t == [] || t[|t| - 1] == '/' then t
    else DropLastComponent(t[..|t| - 1])
  }

  /** The directory part of a path is a prefix that ends in `/` (or is empty), and no `/` follows it. */
  lemma {:induction false} DropLastShape(t: string)
    ensures var r := DropLastComponent(t);
      && r == t[..|r|]
      && (r == [] || r[|r| - 1] == '/')
      && forall i :: |r| <= i < |t| ==> t[i] != '/'
  {
    if t != [] && t[|t| - 1] != '/' {
      DropLastShape(t[..|t| - 1]);
      var r := DropLastComponent(t);
      assert t[..|t| - 1][..|r|] == t[..|r|];
    }
  }

  /** A path is its directory part followed by its last component. */
  lemma {:induction false} SplitLastComponent(t: string)
    ensures DropLastComponent(t) + AfterLastSlash(t) == t
  {
    if t != [] && t[|t| - 1] != '/' {
      var init := t[..|t| - 1];
      SplitLastComponent(init);
      Associative(DropLastComponent(init), AfterLastSlash(init), [t[|t| - 1]]);
      assert init + [t[|t| - 1]] == t;
    }
  }

  /** What follows a separator (or the start of the string) and holds no `/` is the last component. */
  lemma {:induction false} AfterSeparator(q: string, c: string)
    requires q == [] || q[|q| - 1] == '/'
    requires '/' !in c
    ensures AfterLastSlash(q + c) == c
  {
    if c == [] {
      assert q + c == q;
    } else {
      var init := c[..|c| - 1];
      AfterSeparator(q, init);
      assert c == init + [c[|c| - 1]];
      assert q + c == (q + init) + [c[|c| - 1]];
      assert (q + c)[..|q + c| - 1] == q + init;
    }
  }

  /** PHP `basename($s)` with the separator `/`: the last component, trailing slashes ignored. */
  function Basename(s: string): (r: string)
    ensures '/' !in r
  {
    AfterLastSlash(Untrailing(s))
  }

  /** The basename of `q c` and of `q c/` is `c`, when `q` ends in a separator and `c` is a name without `/`. */
  lemma BasenameAfterSeparator(q: string, c: string)
    requires q == [] || q[|q| - 1] == '/'
    requires c != [] && '/' !in c
    ensures Basename(q + c) == c && Basename(q + c + "/") == c
  {
    var x := q + c;
    assert x[|x| - 1] == c[|c| - 1];
    assert Untrailing(x) == x;
    var y := x + "/";
    assert y[..|y| - 1] == x;
    assert Untrailing(y) == x;
    AfterSeparator(q, c);
  }

  /** PHP `dirname($s)` with the separator `/`. */
  function Dirname(s: string): string
  {
    if s == [] then []
    else
      var t := Untrailing(s);
      if t == [] then "/"
      else
        var h := DropLastComponent(t);
        if h == [] then "."
        else
          var r := Untrailing(h);
          if r == [] then "/" else r
  }

  /**
   * The parts `dirname` works with, for a path that has a `/` in it (trailing
   * slashes aside): `t` is the path without trailing slashes, `h` its
   * directory part up to the last separator, and `u` that part without its
   * trailing separators; `dirname` is `u`, or the root when `u` is empty.
   */
  lemma DirnameParts(s: string) returns (t: string, h: string, u: string)
    requires '/' in Untrailing(s)
    ensures t == Untrailing(s) && t == s[..|t|] && t != [] && t[|t| - 1] != '/'
    ensures h == DropLastComponent(t) && |h| < |t| && h == t[..|h|] && h + Basename(s) == t
    ensures |u| < |h| && u == h[..|u|] && (u == [] || u[|u| - 1] != '/')
    ensures forall i :: |u| <= i < |h| ==> h[i] == '/'
    ensures Dirname(s) == if u == [] then "/" else u
  {
    t := Untrailing(s);
    UntrailingShape(s);
    h := DropLastComponent(t);
    DropLastShape(t);
    SplitLastComponent(t);
    assert h != [] by {
      var i :| 0 <= i < |t| && t[i] == '/';
    }
    assert |h| < |t| by {
      assert t[|t| - 1] != '/';
    }
    u := Untrailing(h);
    UntrailingShape(h);
  }

  /**
   * When the path (trailing slashes aside) has a `/` in it, `dirname` is a
   * proper prefix of the path that names no component past the last separator,
   * and it ends in `/` only when it is the root.
   */
  lemma DirnameIsParent(s: string)
    requires '/' in Untrailing(s)
    ensures var d := Dirname(s);
      && |d| < |Untrailing(s)|
      && d == s[..|d|]
      && (d == "/" || d[|d| - 1] != '/')
  {
    var t, h, u := DirnameParts(s);
    PrefixRun(t, h, u);
    PrefixRun(s, t, u);
    if u == [] {
      assert h[0] == '/' && s[0] == t[0] && t[0] == h[0];
      assert |t| >= 2 by {
        assert t[0] == '/' && t[|t| - 1] != '/';
      }
      assert Dirname(s) == s[..1];
    }
  }

  /**
   * A path with a `/` in it (trailing slashes aside) is its `dirname` (read
   * as empty when it is the root), a non-empty run of separators, and its
   * `basename`.
   */
  lemma DirnameSeparator(s: string)
    requires '/' in Untrailing(s)
    ensures var t := Untrailing(s);
      var d := Dirname(s);
      var p := if d == "/" then [] else d;
      var b := Basename(s);
      && |p| < |t| - |b| && t[..|p|] == p && t[|t| - |b|..] == b
      && (forall i :: |p| <= i < |t| - |b| ==> t[i] == '/')
      && (d == "/" || (d != [] && d[|d| - 1] != '/'))
  {
    var t, h, u := DirnameParts(s);
    PrefixRun(t, h, u);
    var b := Basename(s);
    assert t[|t| - |b|..] == b by {
      assert (h + b)[|h|..] == b;
    }
  }

  /** A prefix `u` of a prefix `h` of `t`, followed in `h` only by separators, is followed by them in `t` too. */
  lemma PrefixRun(t: string, h: string, u: string)
    requires |h| <= |t| && h == t[..|h|]
    requires |u| <= |h| && u == h[..|u|]
    ensures t[..|u|] == u && forall i :: 0 <= i < |h| ==> t[i] == h[i]
  {
    assert t[..|u|] == t[..|h|][..|u|];
  }
}
