/**
  * String helpers with JavaScript meaning: `String.prototype.split("\n")`,
  * `Array.prototype.join`, the decimal form of a non-negative Number and an
  * end-anchored suffix test (`/x$/`, which matches only at the very end).
  */
module Text {

  /** `s.split("\n")`: the pieces between line feeds, in order. */
  function Lines(s: string): (r: seq<string>)
    ensures |r| >= 1
    ensures forall i :: 0 <= i < |r| ==> '\n' !in r[i]
  {
    if s == [] then [""]
    else
      var rest := Lines(s[1..]);
      if s[0] == '\n' then [""] + rest
      else [[s[0]] + rest[0]] + rest[1..]
  }

  lemma {:induction false} LinesOfLine(s: string)
    requires '\n' !in s
    ensures Lines(s) == [s]
  {
    if s != [] {
      assert '\n' !in s[1..];
      LinesOfLine(s[1..]);
      assert [s[0]] + s[1..] == s;
    }
  }

  /** Splitting at a line feed splits the result list at the same place. */
  lemma {:induction false} LinesAppend(a: string, b: string)
    ensures Lines(a + "\n" + b) == Lines(a) + Lines(b)
  {
    if a == [] {
      assert a + "\n" + b == "\n" + b;
      assert ("\n" + b)[1..] == b;
    } else {
      var t := a + "\n" + b;
      assert t[0] == a[0];
      assert t[1..] == a[1..] + "\n" + b;
      LinesAppend(a[1..], b);
    }
  }

  /** Regrouping a concatenation, for proofs where the solver does not find it. */
  lemma ConcatAssoc<T>(a: seq<T>, b: seq<T>, c: seq<T>)
    ensures a + (b + c) == a + b + c
  {
  }

  /** `p` occurs in `s` starting at index `at`. */
  ghost predicate OccursAt<T>(s: seq<T>, at: nat, p: seq<T>)
  {
    at + |p| <= |s| && s[at..at + |p|] == p
  }

  /** An occurrence in the left operand of `+` is one in the whole. */
  lemma OccursInLeft<T>(a: seq<T>, b: seq<T>, at: nat, p: seq<T>)
    requires OccursAt(a, at, p)
    ensures OccursAt(a + b, at, p)
  {
    assert (a + b)[at..at + |p|] == a[at..at + |p|];
  }

  /** An occurrence in the right operand of `+` is one in the whole, shifted by the left operand. */
  lemma OccursInRight<T>(a: seq<T>, b: seq<T>, at: nat, p: seq<T>)
    requires OccursAt(b, at, p)
    ensures OccursAt(a + b, |a| + at, p)
  {
    assert (a + b)[|a| + at..|a| + at + |p|] == b[at..at + |p|];
  }

  /** Cutting `a + (b + c)` after `b`. */
  lemma CutAfter<T>(a: seq<T>, b: seq<T>, c: seq<T>)
    ensures (a + (b + c))[..|a| + |b|] == a + b
    ensures (a + (b + c))[|a| + |b|..] == c
  {
    ConcatAssoc(a, b, c);
  }

  /** Each operand of `+` occurs in the whole. */
  lemma OccursOperands<T>(a: seq<T>, b: seq<T>)
    ensures OccursAt(a + b, 0, a)
    ensures OccursAt(a + b, |a|, b)
  {
    assert (a + b)[..|a|] == a;
    assert (a + b)[|a|..] == b;
  }

  /** `parts.join(sep)`. */
  function Join(parts: seq<string>, sep: string): string
  {
    if |parts| == 0 then ""
    else if |parts| == 1 then parts[0]
    else parts[0] + sep + Join(parts[1..], sep)
  }

  /** Where the piece `parts[i]` starts inside `Join(parts, sep)`. */
  function Offset(parts: seq<string>, sep: string, i: nat): nat
    requires i <= |parts|
  {
    if i == 0 then 0 else Offset(parts, sep, i - 1) + |parts[i - 1]| + |sep|
  }

  lemma {:induction false} OffsetTail(parts: seq<string>, sep: string, i: nat)
    requires 0 < i <= |parts|
    ensures Offset(parts, sep, i) == |parts[0]| + |sep| + Offset(parts[1..], sep, i - 1)
  {
    if i > 1 {
      OffsetTail(parts, sep, i - 1);
    }
  }

  /** An occurrence in `tail` is one in `head + (sep + tail)`, shifted by the first two. */
  lemma OccursAfter(head: string, sep: string, tail: string, at: nat, p: string)
    requires OccursAt(tail, at, p)
    ensures OccursAt(head + (sep + tail), |head| + |sep| + at, p)
  {
    OccursInRight(sep, tail, at, p);
    OccursInRight(head, sep + tail, |sep| + at, p);
  }

  /**
    * The joined text holds every piece, in order, each at its offset, and a
    * separator right after every piece but the last.
    */
  lemma {:induction false} JoinAt(parts: seq<string>, sep: string, i: nat)
    requires i < |parts|
    ensures OccursAt(Join(parts, sep), Offset(parts, sep, i), parts[i])
    ensures i + 1 < |parts| ==> OccursAt(Join(parts, sep), Offset(parts, sep, i) + |parts[i]|, sep)
  {
    if |parts| == 1 {
      assert parts[0][0..|parts[0]|] == parts[0];
    } else {
      var tail := Join(parts[1..], sep);
      assert Join(parts, sep) == parts[0] + (sep + tail);
      if i == 0 {
        OccursOperands(parts[0], sep + tail);
        OccursOperands(sep, tail);
        OccursInLeft(sep, tail, 0, sep);
        OccursInRight(parts[0], sep + tail, 0, sep);
      } else {
        JoinAt(parts[1..], sep, i - 1);
        OffsetTail(parts, sep, i);
        var o := Offset(parts[1..], sep, i - 1);
        assert parts[1..][i - 1] == parts[i];
        OccursAfter(parts[0], sep, tail, o, parts[i]);
        if i + 1 < |parts| {
          OccursAfter(parts[0], sep, tail, o + |parts[i]|, sep);
        }
      }
    }
  }

  /** Splitting a join of single lines gives the lines back. */
  lemma {:induction false} LinesOfJoin(ls: seq<string>)
    requires |ls| > 0
    requires forall i :: 0 <= i < |ls| ==> '\n' !in ls[i]
    ensures Lines(Join(ls, "\n")) == ls
  {
    if |ls| == 1 {
      LinesOfLine(ls[0]);
    } else {
      LinesOfJoin(ls[1..]);
      LinesAppend(ls[0], Join(ls[1..], "\n"));
      LinesOfLine(ls[0]);
      assert [ls[0]] + ls[1..] == ls;
    }
  }

  /** A join whose first piece is a single line splits into that line and the rest. */
  lemma LinesOfJoinCons(first: string, rest: seq<string>)
    requires '\n' !in first
    requires |rest| > 0
    ensures Lines(Join([first] + rest, "\n")) == [first] + Lines(Join(rest, "\n"))
  {
    var ls := [first] + rest;
    assert ls[0] == first && ls[1..] == rest;
    LinesAppend(first, Join(rest, "\n"));
    LinesOfLine(first);
  }

  /** Splitting a join whose first piece is `mid` splits `mid` and keeps the other lines. */
  lemma LinesOfJoinFirst(mid: string, post: seq<string>)
    requires |post| > 0
    requires forall i :: 0 <= i < |post| ==> '\n' !in post[i]
    ensures Lines(Join([mid] + post, "\n")) == Lines(mid) + post
  {
    var ls := [mid] + post;
    assert ls[0] == mid && ls[1..] == post;
    assert Join(ls, "\n") == mid + "\n" + Join(post, "\n");
    LinesOfJoin(post);
    LinesAppend(mid, Join(post, "\n"));
  }

  /** `[x] + (s[1..] + t)` regrouped, for `x` the head of `s`. */
  lemma ConsRegroup<T>(s: seq<T>, t: seq<T>, u: seq<T>)
    requires |s| > 0
    ensures [s[0]] + (s[1..] + t + u) == s + t + u
  {
    ConcatAssoc([s[0]], s[1..] + t, u);
    ConcatAssoc([s[0]], s[1..], t);
    assert [s[0]] + s[1..] == s;
  }

  /** Splitting a join in which only `mid` may hold newlines splits `mid` and keeps the other lines. */
  lemma {:induction false} LinesOfJoinAround(pre: seq<string>, mid: string, post: seq<string>)
    requires |post| > 0
    requires forall i :: 0 <= i < |pre| ==> '\n' !in pre[i]
    requires forall i :: 0 <= i < |post| ==> '\n' !in post[i]
    ensures Lines(Join(pre + [mid] + post, "\n")) == pre + Lines(mid) + post
  {
    if |pre| == 0 {
      assert pre + [mid] + post == [mid] + post;
      assert pre + Lines(mid) + post == Lines(mid) + post;
      LinesOfJoinFirst(mid, post);
    } else {
      var rest := pre[1..] + [mid] + post;
      ConsRegroup(pre, [mid], post);
      LinesOfJoinAround(pre[1..], mid, post);
      LinesOfJoinCons(pre[0], rest);
      ConsRegroup(pre, Lines(mid), post);
    }
  }

  /** `/suffix$/.test(s)` for a literal suffix. */
  predicate EndsWith(s: string, suffix: string)
  {
    |suffix| <= |s| && s[|s| - |suffix|..] == suffix
  }

  lemma EndsWithAppend(s: string, suffix: string)
    ensures EndsWith(s + suffix, suffix)
  {
    assert (s + suffix)[|s|..] == suffix;
  }

  predicate IsDigit(c: char)
  {
    '0' <= c <= '9'
  }

  function DigitChar(d: nat): (c: char)
    requires d < 10
    ensures IsDigit(c)
  {
    ('0' as int + d) as char
  }

  /** `String(n)` for a non-negative integer Number: its decimal digits. */
  function Decimal(n: nat): (r: string)
    ensures |r| >= 1
    ensures forall i :: 0 <= i < |r| ==> IsDigit(r[i])
  {
    if n < 10 then [DigitChar(n)] else Decimal(n / 10) + [DigitChar(n % 10)]
  }

  /** Different numbers have different decimal forms. */
  lemma {:induction false} DecimalInjective(m: nat, n: nat)
    requires Decimal(m) == Decimal(n)
    ensures m == n
  {
    if m < 10 && n < 10 {
      assert Decimal(m)[0] == DigitChar(m);
    } else if m >= 10 && n >= 10 {
      var dm, dn := Decimal(m), Decimal(n);
      assert dm[|dm| - 1] == DigitChar(m % 10);
      assert dn[|dn| - 1] == DigitChar(n % 10);
      assert dm[..|dm| - 1] == Decimal(m / 10);
      assert dn[..|dn| - 1] == Decimal(n / 10);
      DecimalInjective(m / 10, n / 10);
    }
  }
}
