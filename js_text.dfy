/**
 * The JavaScript string operations the application relies on, stated over
 * `seq<char>`: the whitespace class shared by `String.prototype.trim` and the
 * regular-expression class `\s`, `trim`, `startsWith`, `split` with a
 * one-character separator, `Array.prototype.join`, and `split(/\s+/)`.
 */
module JsText {

  /**
   * ECMAScript WhiteSpace and LineTerminator code points: the set removed by
   * `trim()` and matched by `\s`.
   */
  const WHITESPACE: set<char> := {
    '\t', '\n', '\U{000B}', '\U{000C}', '\r', ' ', '\U{00A0}', '\U{1680}',
    '\U{2000}', '\U{2001}', '\U{2002}', '\U{2003}', '\U{2004}', '\U{2005}',
    '\U{2006}', '\U{2007}', '\U{2008}', '\U{2009}', '\U{200A}',
    '\U{2028}', '\U{2029}', '\U{202F}', '\U{205F}', '\U{3000}', '\U{FEFF}'
  }

  predicate IsWhitespace(c: char) {
    c in WHITESPACE
  }

  /** Every character of `s` is whitespace (the empty string included). */
  predicate IsBlank(s: string) {
    forall i :: 0 <= i < |s| ==> IsWhitespace(s[i])
  }

  /** `s.startsWith(p)`. */
  predicate StartsWith(s: string, p: string): (b: bool)
    ensures b <==> |p| <= |s| && s == p + s[|p|..]
  {
    |p| <= |s| && s[..|p|] == p
  }

  /**
   * Drops the leading whitespace. The properties of the trimming functions
   * are stated as lemmas rather than postconditions, so that code which only
   * passes trimmed text around does not carry them.
   */
  function TrimStart(s: string): (r: string)
    ensures |r| <= |s|
    decreases |s|
  {
    if s != [] && IsWhitespace(s[0]) then TrimStart(s[1..]) else s
  }

  /** `TrimStart` keeps a suffix that is empty or starts with a non-whitespace character. */
  lemma {:induction false} TrimStartSuffix(s: string)
    ensures TrimStart(s) == s[|s| - |TrimStart(s)|..]
    ensures TrimStart(s) == [] || !IsWhitespace(TrimStart(s)[0])
    decreases |s|
  {
    if s != [] && IsWhitespace(s[0]) {
      TrimStartSuffix(s[1..]);
    }
  }

  /** Drops the trailing whitespace. */
  function TrimEnd(s: string): (r: string)
    ensures |r| <= |s|
    decreases |s|
  {
    if s != [] && IsWhitespace(s[|s| - 1]) then TrimEnd(s[..|s| - 1]) else s
  }

  /** `TrimEnd` keeps a prefix that is empty or ends with a non-whitespace character. */
  lemma {:induction false} TrimEndPrefix(s: string)
    ensures TrimEnd(s) == s[..|TrimEnd(s)|]
    ensures TrimEnd(s) == [] || !IsWhitespace(TrimEnd(s)[|TrimEnd(s)| - 1])
    decreases |s|
  {
    if s != [] && IsWhitespace(s[|s| - 1]) {
      TrimEndPrefix(s[..|s| - 1]);
    }
  }

  /** What `TrimStart` drops is whitespace. */
  lemma {:induction false} TrimStartDropsBlank(s: string)
    ensures IsBlank(s[..|s| - |TrimStart(s)|])
    decreases |s|
  {
    if s != [] && IsWhitespace(s[0]) {
      TrimStartDropsBlank(s[1..]);
      var k := |s| - |TrimStart(s)|;
      forall i | 0 <= i < k ensures IsWhitespace(s[i]) {
        if i > 0 {
          assert s[i] == s[1..][..k - 1][i - 1];
        }
      }
    }
  }

  /** What `TrimEnd` drops is whitespace. */
  lemma {:induction false} TrimEndDropsBlank(s: string)
    ensures IsBlank(s[|TrimEnd(s)|..])
    decreases |s|
  {
    if s != [] && IsWhitespace(s[|s| - 1]) {
      var p := s[..|s| - 1];
      TrimEndDropsBlank(p);
      var k := |TrimEnd(s)|;
      forall i | k <= i < |s| ensures IsWhitespace(s[i]) {
        if i < |s| - 1 {
          assert s[i] == p[k..][i - k];
        }
      }
    }
  }

  /** `s.trim()`. */
  function Trim(s: string): (r: string)
    ensures |r| <= |s|
  {
    TrimEnd(TrimStart(s))
  }

  /** Trimming yields the empty string exactly for blank input, and otherwise text with no whitespace at either end. */
  lemma {:induction false} TrimSpec(s: string)
    ensures |Trim(s)| <= |s|
    ensures Trim(s) == [] <==> IsBlank(s)
    ensures Trim(s) == [] || (!IsWhitespace(Trim(s)[0]) && !IsWhitespace(Trim(s)[|Trim(s)| - 1]))
  {
    TrimStartSuffix(s);
    TrimEndPrefix(TrimStart(s));
    var t := TrimStart(s);
    var r := TrimEnd(t);
    if r == [] {
      TrimStartDropsBlank(s);
      TrimEndDropsBlank(t);
      assert t[0..] == t;
      var k := |s| - |t|;
      assert s == s[..k] + t;
      BlankConcat(s[..k], t);
    } else {
      assert r[0] == t[0];
      assert s[|s| - |t|] == t[0] && !IsWhitespace(t[0]);
    }
  }

  lemma BlankConcat(a: string, b: string)
    requires IsBlank(a) && IsBlank(b)
    ensures IsBlank(a + b)
  {
    forall i | 0 <= i < |a + b| ensures IsWhitespace((a + b)[i]) {
      if i < |a| { assert (a + b)[i] == a[i]; } else { assert (a + b)[i] == b[i - |a|]; }
    }
  }

  /** Trimming removes exactly the blank padding around a string that has no padding of its own. */
  lemma {:induction false} TrimOfPadded(pre: string, mid: string, post: string)
    requires IsBlank(pre) && IsBlank(post)
    requires mid == [] || (!IsWhitespace(mid[0]) && !IsWhitespace(mid[|mid| - 1]))
    ensures Trim(pre + mid + post) == mid
  {
    var s := pre + mid + post;
    if mid == [] {
      assert s == pre + post;
      BlankConcat(pre, post);
      TrimSpec(s);
    } else {
      assert s == pre + (mid + post);
      TrimStartPadded(pre, mid + post);
      TrimEndPadded(mid, post);
    }
  }

  lemma {:induction false} TrimStartPadded(pre: string, rest: string)
    requires IsBlank(pre)
    requires rest != [] && !IsWhitespace(rest[0])
    ensures TrimStart(pre + rest) == rest
    decreases |pre|
  {
    if pre != [] {
      assert (pre + rest)[0] == pre[0];
      assert (pre + rest)[1..] == pre[1..] + rest;
      assert IsBlank(pre[1..]) by {
        forall i | 0 <= i < |pre| - 1 ensures IsWhitespace(pre[1..][i]) {
          assert pre[1..][i] == pre[i + 1];
        }
      }
      TrimStartPadded(pre[1..], rest);
    } else {
      assert pre + rest == rest;
    }
  }

  lemma {:induction false} TrimEndPadded(rest: string, post: string)
    requires IsBlank(post)
    requires rest != [] && !IsWhitespace(rest[|rest| - 1])
    ensures TrimEnd(rest + post) == rest
    decreases |post|
  {
    var s := rest + post;
    if post != [] {
      var p := post[..|post| - 1];
      assert s[|s| - 1] == post[|post| - 1];
      assert s[..|s| - 1] == rest + p;
      assert IsBlank(p) by {
        forall i | 0 <= i < |p| ensures IsWhitespace(p[i]) {
          assert p[i] == post[i];
        }
      }
      TrimEndPadded(rest, p);
    } else {
      assert s == rest;
    }
  }

  /** Trimming is idempotent. */
  lemma {:induction false} TrimIdempotent(s: string)
    ensures Trim(Trim(s)) == Trim(s)
  {
    var t := Trim(s);
    TrimSpec(s);
    assert [] + t + [] == t;
    TrimOfPadded([], t, []);
  }

  /** A whitespace character followed by a blank string is blank, and conversely. */
  lemma BlankCons(x: string)
    requires x != [] && IsWhitespace(x[0])
    ensures IsBlank(x) == IsBlank(x[1..])
  {
    if IsBlank(x[1..]) {
      forall i | 0 <= i < |x| ensures IsWhitespace(x[i]) {
        if i > 0 { assert x[i] == x[1..][i - 1]; }
      }
    }
  }

  /** How leading-whitespace removal distributes over a concatenation. */
  lemma {:induction false} TrimStartConcat(x: string, y: string)
    ensures TrimStart(x + y) == if IsBlank(x) then TrimStart(y) else TrimStart(x) + y
    decreases |x|
  {
    if x == [] {
      assert x + y == y;
    } else if IsWhitespace(x[0]) {
      assert (x + y)[0] == x[0];
      assert (x + y)[1..] == x[1..] + y;
      TrimStartConcat(x[1..], y);
      BlankCons(x);
    } else {
      assert (x + y)[0] == x[0];
      assert !IsBlank(x);
    }
  }

  /** `pieces.join(sep)`. */
  function Join(pieces: seq<string>, sep: string): (r: string)
    ensures |pieces| >= 1 ==> StartsWith(r, pieces[0])
    decreases |pieces|
  {
    if pieces == [] then ""
    else if |pieces| == 1 then pieces[0]
    else pieces[0] + sep + Join(pieces[1..], sep)
  }

  /**
   * `s.split(sep)` for a one-character separator: the maximal pieces of `s`
   * that do not contain `sep`, in order, including empty ones.
   */
  function Split(s: string, sep: char): (r: seq<string>)
    ensures |r| >= 1
    ensures forall k :: 0 <= k < |r| ==> sep !in r[k]
    ensures (|r| == 1) == (sep !in s)
    ensures |r[0]| <= |s| && r[0] == s[..|r[0]|]
    ensures |r| > 1 ==> |r[0]| < |s| && s[|r[0]|] == sep
    decreases |s|
  {
    if s == [] then [""]
    else if s[0] == sep then [""] + Split(s[1..], sep)
    else
      var rest := Split(s[1..], sep);
      assert s == [s[0]] + s[1..];
      [[s[0]] + rest[0]] + rest[1..]
  }

  /** Joining the pieces of a split with its separator restores the string. */
  lemma {:induction false} JoinSplit(s: string, sep: char)
    ensures Join(Split(s, sep), [sep]) == s
    decreases |s|
  {
    if s != [] {
      var rest := Split(s[1..], sep);
      JoinSplit(s[1..], sep);
      if s[0] == sep {
        assert Split(s, sep) == [""] + rest;
        JoinCons([""], rest, [sep]);
      } else {
        JoinExtendHead(s[0], rest, [sep]);
      }
      assert s == [s[0]] + s[1..];
    }
  }

  lemma JoinCons(head: seq<string>, rest: seq<string>, sep: string)
    requires |head| == 1 && |rest| >= 1
    ensures Join(head + rest, sep) == head[0] + sep + Join(rest, sep)
  {
    assert (head + rest)[1..] == rest;
  }

  lemma JoinExtendHead(c: char, rest: seq<string>, sep: string)
    requires |rest| >= 1
    ensures Join([[c] + rest[0]] + rest[1..], sep) == [c] + Join(rest, sep)
  {
    var pieces := [[c] + rest[0]] + rest[1..];
    if |rest| > 1 {
      assert pieces[1..] == rest[1..];
    }
  }

  /** The number of maximal whitespace runs in `s`. */
  function Runs(s: string): nat
    decreases |s|
  {
    if s == [] then 0
    else if IsWhitespace(s[0]) then 1 + Runs(TrimStart(s))
    else Runs(s[1..])
  }

  /**
   * `s.split(/\s+/)`: the pieces between maximal whitespace runs, in order,
   * including the empty piece before a leading run and after a trailing one.
   */
  function SplitWhitespace(s: string): (r: seq<string>)
    ensures |r| == Runs(s) + 1
    ensures forall k :: 0 <= k < |r| ==> forall i :: 0 <= i < |r[k]| ==> !IsWhitespace(r[k][i])
    decreases |s|
  {
    if s == [] then [""]
    else if IsWhitespace(s[0]) then [""] + SplitWhitespace(TrimStart(s))
    else
      var rest := SplitWhitespace(s[1..]);
      [[s[0]] + rest[0]] + rest[1..]
  }

  /** Prepending text never lowers the number of whitespace runs. */
  lemma {:induction false} RunsOfSuffix(x: string, y: string)
    ensures Runs(x + y) >= Runs(y)
    decreases |x|
  {
    if x == [] {
      assert x + y == y;
    } else if IsWhitespace(x[0]) {
      TrimStartConcat(x, y);
      if IsBlank(x) {
        if y != [] && IsWhitespace(y[0]) {
          assert TrimStart(y) == TrimStart(y);
        }
      } else {
        RunsOfSuffix(TrimStart(x), y);
      }
    } else {
      assert (x + y)[1..] == x[1..] + y;
      RunsOfSuffix(x[1..], y);
    }
  }
}
