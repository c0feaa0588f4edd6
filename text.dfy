/**
 * The Python string and path operations the orchestration code relies on:
 * `str.rstrip('/')`, `str.split('/')[-1]`, `str.replace` of one character,
 * `str.lower` (ASCII), `posixpath.join`, `pathlib.PurePosixPath.name` and
 * `.parent`, `"".join` and `str(n)` for a natural number.
 */
module Text {

  predicate StartsWith(s: string, prefix: string)
  {
    |prefix| <= |s| && s[..|prefix|] == prefix
  }

  predicate EndsWith(s: string, suffix: string)
  {
    |suffix| <= |s| && s[|s| - |suffix|..] == suffix
  }

  /** `s.rstrip('/')`. */
  function RStripSlash(s: string): (r: string)
    ensures |r| <= |s| && r == s[..|r|]
    ensures r == [] || r[|r| - 1] != '/'
    ensures forall k | |r| <= k < |s| :: s[k] == '/'
    decreases |s|
  {
    if s == [] || s[|s| - 1] != '/' then s else RStripSlash(s[..|s| - 1])
  }

  /** Index of the last `c` in `s`, if any. */
  function LastIndexOf(s: string, c: char): (r: Option<nat>)
    ensures r.Some? ==> r.value < |s| && s[r.value] == c &&
                        forall k | r.value < k < |s| :: s[k] != c
    ensures r.None? ==> forall k | 0 <= k < |s| :: s[k] != c
    decreases |s|
  {
    if s == [] then None
    else if s[|s| - 1] == c then Some(|s| - 1)
    else LastIndexOf(s[..|s| - 1], c)
  }

  datatype Option<T> = None | Some(value: T)

  /** `s.split('/')[-1]`: what follows the last `/` (the whole of `s` if there is none). */
  function LastComponent(s: string): (r: string)
    ensures EndsWith(s, r)
    ensures '/' !in r
    ensures '/' in s ==> |r| < |s| && s[|s| - |r| - 1] == '/'
    ensures '/' !in s ==> r == s
  {
    match LastIndexOf(s, '/')
    case None => s
    case Some(k) => s[k + 1..]
  }

  /** `s.replace(a, b)` for single characters. */
  function ReplaceChar(s: string, a: char, b: char): (r: string)
    ensures |r| == |s|
  {
    if s == [] then [] else [if s[0] == a then b else s[0]] + ReplaceChar(s[1..], a, b)
  }

  /** Each character equal to `a` becomes `b`; the others are kept. */
  lemma {:induction false} ReplaceCharAt(s: string, a: char, b: char, k: nat)
    requires k < |s|
    ensures ReplaceChar(s, a, b)[k] == if s[k] == a then b else s[k]
    decreases |s|
  {
    if k > 0 {
      ReplaceCharAt(s[1..], a, b, k - 1);
    }
  }

  function LowerChar(c: char): char
  {
    if 'A' <= c <= 'Z' then (c as int + 32) as char else c
  }

  /** `s.lower()` on ASCII letters (other characters are kept). */
  function Lower(s: string): (r: string)
    ensures |r| == |s|
    ensures forall k | 0 <= k < |s| :: r[k] == LowerChar(s[k])
  {
    if s == [] then [] else [LowerChar(s[0])] + Lower(s[1..])
  }

  /** `posixpath.join(a, b)`: an absolute `b` replaces `a`; otherwise a `/` is added unless `a` is empty or already ends with one. */
  function PathJoin(a: string, b: string): string
  {
    if StartsWith(b, "/") then b
    else if a == [] || EndsWith(a, "/") then a + b
    else a + "/" + b
  }

  /** An absolute `b` wins; otherwise the result is `a`, a `/` and `b`. */
  lemma PathJoinShape(a: string, b: string)
    ensures var r := PathJoin(a, b);
            (StartsWith(b, "/") ==> r == b) &&
            (!StartsWith(b, "/") ==> EndsWith(r, b)) &&
            (!StartsWith(b, "/") && a != [] ==> StartsWith(r, a) && EndsWith(r[..|r| - |b|], "/"))
  {
    var r := PathJoin(a, b);
    if !StartsWith(b, "/") {
      if a == [] || EndsWith(a, "/") {
        AppendSplit(a, b);
      } else {
        AppendSplit(a + "/", b);
        AppendSplit(a, "/");
        assert r[..|r| - |b|] == a + "/";
        assert StartsWith(r, a) by { assert r[..|a|] == (a + "/")[..|a|]; }
      }
    }
  }

  /** `posixpath.join` of several parts, left to right. */
  function PathJoinAll(a: string, parts: seq<string>): string
    decreases |parts|
  {
    if parts == [] then a else PathJoinAll(PathJoin(a, parts[0]), parts[1..])
  }

  /**
   * `PurePosixPath(p).name`: the last component, ignoring empty and `.`
   * components (so a trailing `/` does not matter); `""` when none is left.
   */
  function PathName(p: string): (r: string)
    ensures '/' !in r
    decreases |p|
  {
    var last := LastComponent(p);
    if last != "" && last != "." then last
    else if '/' in p then
      assert |last| < |p|;
      PathName(p[..|p| - |last| - 1])
    else ""
  }

  /**
   * `PurePosixPath(p).parent` for an absolute path without trailing or
   * repeated slashes, as `Path.resolve` returns: everything before the
   * last `/`, or `/` for a top-level entry.
   */
  function Parent(p: string): string
  {
    match LastIndexOf(p, '/')
    case None => "."
    case Some(k) => if k == 0 then "/" else p[..k]
  }

  /**
   * Without a `/` the parent is `.`; otherwise the path is its parent, a
   * `/` and a last component without `/`.
   */
  lemma ParentShape(p: string)
    ensures '/' !in p ==> Parent(p) == "."
    ensures var r := Parent(p);
            r != "." && r != "/" ==> |r| < |p| && StartsWith(p, r + "/") && '/' !in p[|r| + 1..]
  {
  }

  /** `"".join(lines)`. */
  function Concat(lines: seq<string>): (r: string)
    ensures lines == [] ==> r == ""
  {
    if lines == [] then "" else lines[0] + Concat(lines[1..])
  }

  lemma {:induction false} ConcatAppend(lines: seq<string>, line: string)
    ensures Concat(lines + [line]) == Concat(lines) + line
    decreases |lines|
  {
    if lines != [] {
      ConcatAppend(lines[1..], line);
      assert (lines + [line])[1..] == lines[1..] + [line];
    }
  }

  function DigitChar(d: nat): char
    requires d < 10
  {
    "0123456789"[d]
  }

  /** `str(n)` for a natural number: its decimal digits. */
  function NatToString(n: nat): (r: string)
    ensures |r| >= 1
    ensures forall k | 0 <= k < |r| :: '0' <= r[k] <= '9'
    decreases n
  {
    if n < 10 then [DigitChar(n)] else NatToString(n / 10) + [DigitChar(n % 10)]
  }

  lemma DigitCharInjective(d: nat, e: nat)
    requires d < 10 && e < 10 && DigitChar(d) == DigitChar(e)
    ensures d == e
  {
  }

  /** Different numbers are written differently. */
  lemma {:induction false} NatToStringInjective(m: nat, n: nat)
    requires NatToString(m) == NatToString(n)
    ensures m == n
    decreases m + n
  {
    var s := NatToString(m);
    if m < 10 && n < 10 {
      DigitCharInjective(m, n);
    } else if m >= 10 && n >= 10 {
      var hm, hn := NatToString(m / 10), NatToString(n / 10);
      assert s == hm + [DigitChar(m % 10)] == hn + [DigitChar(n % 10)];
      assert hm == s[..|s| - 1] == hn;
      NatToStringInjective(m / 10, n / 10);
      DigitCharInjective(m % 10, n % 10);
    }
  }

  /** A concatenation starts with its first part, and what follows is the second. */
  lemma AppendSplit(x: string, y: string)
    ensures StartsWith(x + y, x) && (x + y)[|x|..] == y && EndsWith(x + y, y)
  {
    assert (x + y)[..|x|] == x;
  }

  /** `x + t == y + t` only when `x == y`. */
  lemma CancelSuffix(x: string, y: string, t: string)
    requires x + t == y + t
    ensures x == y
  {
    assert x == (x + t)[..|x|];
    assert y == (y + t)[..|y|];
  }

  /** `t + x == t + y` only when `x == y`. */
  lemma CancelPrefix(t: string, x: string, y: string)
    requires t + x == t + y
    ensures x == y
  {
    assert x == (t + x)[|t|..];
    assert y == (t + y)[|t|..];
  }
}
