/** The pieces of Rust's `str` API that the codecs and the calibration routine rely on:
    `trim`, `split` on a character, `replace`, and `{}` formatting of an unsigned integer. */
module Strings {

  /** Rust's `char::is_whitespace`: the Unicode White_Space property. */
  predicate IsWhitespace(c: char)
  {
    || ('\U{9}' <= c <= '\U{D}')
    || c == ' '
    || c == '\U{85}'
    || c == '\U{A0}'
    || c == '\U{1680}'
    || ('\U{2000}' <= c <= '\U{200A}')
    || c == '\U{2028}'
    || c == '\U{2029}'
    || c == '\U{202F}'
    || c == '\U{205F}'
    || c == '\U{3000}'
  }

  /** `str::trim_start`. */
  function TrimStart(s: string): (r: string)
    ensures |r| <= |s| && r == s[|s| - |r|..]
    ensures forall i :: 0 <= i < |s| - |r| ==> IsWhitespace(s[i])
    ensures r == [] || !IsWhitespace(r[0])
  {
    if s != [] && IsWhitespace(s[0]) then TrimStart(s[1..]) else s
  }

  /** `str::trim_end`. */
  function TrimEnd(s: string): (r: string)
    ensures |r| <= |s| && r == s[..|r|]
    ensures forall i :: |r| <= i < |s| ==> IsWhitespace(s[i])
    ensures r == [] || !IsWhitespace(r[|r| - 1])
  {
    if s != [] && IsWhitespace(s[|s| - 1]) then TrimEnd(s[..|s| - 1]) else s
  }

  /** `str::trim`: the longest infix of `s` that neither starts nor ends with whitespace,
      everything around it being whitespace. */
  function Trim(s: string): (r: string)
    ensures |r| <= |s|
    ensures r == [] || (!IsWhitespace(r[0]) && !IsWhitespace(r[|r| - 1]))
    ensures Surrounded(s, |s| - |TrimStart(s)|, r)
  {
    TrimInside(s, TrimStart(s), TrimEnd(TrimStart(s)));
    TrimEnd(TrimStart(s))
  }

  /** `r` is the infix of `s` starting at `i`, and every character of `s` before or after
      it is whitespace. */
  predicate Surrounded(s: string, i: nat, r: string)
  {
    && i + |r| <= |s| && r == s[i..i + |r|]
    && (forall j :: 0 <= j < i ==> IsWhitespace(s[j]))
    && (forall j :: i + |r| <= j < |s| ==> IsWhitespace(s[j]))
  }

  /** Trimming the end of a text that does not start with whitespace leaves a text that
      neither starts nor ends with whitespace. */
  lemma {:induction false} TrimEndKeepsStart(t: string, r: string)
    requires t == [] || !IsWhitespace(t[0])
    requires r == TrimEnd(t)
    ensures r == [] || (!IsWhitespace(r[0]) && !IsWhitespace(r[|r| - 1]))
  {
    if r != [] {
      assert r[0] == t[0];
    }
  }

  /** What `Trim` keeps: with `t` the text after the leading whitespace, `r` is the infix of
      `s` starting where `t` starts, and only whitespace follows it. */
  lemma {:induction false} TrimInside(s: string, t: string, r: string)
    requires t == TrimStart(s) && r == TrimEnd(t)
    ensures r == [] || (!IsWhitespace(r[0]) && !IsWhitespace(r[|r| - 1]))
    ensures Surrounded(s, |s| - |t|, r)
  {
    TrimEndKeepsStart(t, r);
    PrefixOfSuffix(s, t, r);
  }

  /** A prefix `r` of a suffix `t` of `s`, followed in `t` by whitespace only, is the infix
      of `s` where `t` starts, followed in `s` by whitespace only. */
  lemma {:induction false} PrefixOfSuffix(s: string, t: string, r: string)
    requires |t| <= |s| && t == s[|s| - |t|..] && |r| <= |t| && r == t[..|r|]
    requires forall k :: |r| <= k < |t| ==> IsWhitespace(t[k])
    ensures r == s[|s| - |t|..|s| - |t| + |r|]
    ensures forall j :: |s| - |t| + |r| <= j < |s| ==> IsWhitespace(s[j])
  {
    var i := |s| - |t|;
    forall j | i + |r| <= j < |s| ensures IsWhitespace(s[j]) {
      assert s[j] == t[j - i];
    }
  }

  /** A string with no whitespace at either end is its own trim. */
  lemma TrimUnchanged(s: string)
    requires s == [] || (!IsWhitespace(s[0]) && !IsWhitespace(s[|s| - 1]))
    ensures Trim(s) == s
  {
  }

  /** `str::split(sep)`: the pieces between the occurrences of `sep`, in order;
      there is always at least one piece, and the empty string gives one empty piece. */
  function Split(s: string, sep: char): (r: seq<string>)
    ensures |r| >= 1
    ensures forall i :: 0 <= i < |r| ==> sep !in r[i]
    decreases |s|
  {
    if s == [] then [[]]
    else
      var rest := Split(s[1..], sep);
      if s[0] == sep then [[]] + rest else [[s[0]] + rest[0]] + rest[1..]
  }

  /** The pieces put back together with `sep` between consecutive pieces. */
  function Join(parts: seq<string>, sep: char): string
    decreases |parts|
  {
    if |parts| == 0 then []
    else if |parts| == 1 then parts[0]
    else parts[0] + [sep] + Join(parts[1..], sep)
  }

  /** Joining the pieces of a split gives back the string. */
  lemma {:induction false} JoinSplit(s: string, sep: char)
    ensures Join(Split(s, sep), sep) == s
    decreases |s|
  {
    if s != [] {
      var rest := Split(s[1..], sep);
      JoinSplit(s[1..], sep);
      if s[0] == sep {
        assert Split(s, sep) == [[]] + rest;
        assert Join([[]] + rest, sep) == [] + [sep] + Join(rest, sep);
      } else {
        var parts := [[s[0]] + rest[0]] + rest[1..];
        if |rest| == 1 {
          assert Join(parts, sep) == [s[0]] + rest[0];
        } else {
          assert Join(rest, sep) == rest[0] + [sep] + Join(rest[1..], sep);
          assert Join(parts, sep) == [s[0]] + rest[0] + [sep] + Join(rest[1..], sep);
        }
      }
    }
  }

  /** Splitting a join of separator-free pieces gives back the pieces. */
  lemma {:induction false} SplitJoin(parts: seq<string>, sep: char)
    requires |parts| >= 1
    requires forall i :: 0 <= i < |parts| ==> sep !in parts[i]
    ensures Split(Join(parts, sep), sep) == parts
    decreases |parts|, |parts[0]|
  {
    var p := parts[0];
    if |parts| == 1 {
      SplitNoSeparator(p, sep);
    } else if p == [] {
      var tail := Join(parts[1..], sep);
      assert Join(parts, sep) == [sep] + tail;
      assert ([sep] + tail)[1..] == tail;
      SplitJoin(parts[1..], sep);
    } else {
      var shorter := [p[1..]] + parts[1..];
      assert shorter[1..] == parts[1..];
      assert Join(parts, sep) == [p[0]] + Join(shorter, sep) by {
        assert Join(shorter, sep) == p[1..] + [sep] + Join(parts[1..], sep);
      }
      assert ([p[0]] + Join(shorter, sep))[1..] == Join(shorter, sep);
      SplitJoin(shorter, sep);
      assert [p[0]] + p[1..] == p;
      assert [[p[0]] + p[1..]] + parts[1..] == parts;
    }
  }

  /** A string without the separator splits into itself alone. */
  lemma {:induction false} SplitNoSeparator(s: string, sep: char)
    requires sep !in s
    ensures Split(s, sep) == [s]
    decreases |s|
  {
    if s != [] {
      SplitNoSeparator(s[1..], sep);
      assert [s[0]] + s[1..] == s;
    }
  }

  /** `str::replace(pat, rep)`: every occurrence of `pat`, scanning left to right
      without overlaps, replaced by `rep`. */
  function ReplaceAll(s: string, pat: string, rep: string): (r: string)
    requires pat != []
    ensures rep == pat ==> r == s
    ensures |s| < |pat| ==> r == s
    decreases |s|
  {
    if |s| < |pat| then s
    else if s[..|pat|] == pat then rep + ReplaceAll(s[|pat|..], pat, rep)
    else [s[0]] + ReplaceAll(s[1..], pat, rep)
  }

  /** `pat` occurs in `s` at position `i`. */
  predicate OccursAt(s: string, pat: string, i: nat)
  {
    i + |pat| <= |s| && s[i..i + |pat|] == pat
  }

  /** Where the pattern does not occur, replacing changes nothing. */
  lemma {:induction false} ReplaceAllAbsent(s: string, pat: string, rep: string)
    requires pat != []
    requires forall i: nat :: !OccursAt(s, pat, i)
    ensures ReplaceAll(s, pat, rep) == s
    decreases |s|
  {
    if |s| >= |pat| {
      assert !OccursAt(s, pat, 0);
      forall i: nat ensures !OccursAt(s[1..], pat, i) {
        assert !OccursAt(s, pat, i + 1);
        if i + |pat| <= |s[1..]| {
          assert s[1..][i..i + |pat|] == s[i + 1..i + 1 + |pat|];
        }
      }
      ReplaceAllAbsent(s[1..], pat, rep);
      assert [s[0]] + s[1..] == s;
    }
  }

  /** Shifting by `k` characters: an occurrence at `i + k` is an occurrence at `i` of the
      text without its first `k` characters. */
  lemma OccursShift(s: string, pat: string, k: nat, i: nat)
    requires k <= |s|
    ensures OccursAt(s, pat, i + k) <==> OccursAt(s[k..], pat, i)
  {
    if i + k + |pat| <= |s| {
      assert s[k..][i..i + |pat|] == s[i + k..i + k + |pat|];
    }
  }

  /** One step of the scan: an occurrence at the front is replaced, otherwise the first
      character is copied. */
  lemma ReplaceAllStep(s: string, pat: string, rep: string)
    requires pat != [] && |s| >= |pat|
    ensures OccursAt(s, pat, 0) ==> ReplaceAll(s, pat, rep) == rep + ReplaceAll(s[|pat|..], pat, rep)
    ensures !OccursAt(s, pat, 0) ==> ReplaceAll(s, pat, rep) == [s[0]] + ReplaceAll(s[1..], pat, rep)
  {
  }

  /** Dropping the first character of a prefix in which the pattern starts nowhere
      leaves a prefix in which it starts nowhere. */
  lemma PrefixFreeShift(a: string, pat: string, b: string)
    requires a != []
    requires forall i: nat :: i < |a| ==> !OccursAt(a + pat + b, pat, i)
    ensures forall i: nat :: i < |a| - 1 ==> !OccursAt(a[1..] + pat + b, pat, i)
  {
    var s := a + pat + b;
    assert s[1..] == a[1..] + pat + b;
    forall i: nat | i < |a| - 1 ensures !OccursAt(a[1..] + pat + b, pat, i) {
      OccursShift(s, pat, 1, i);
    }
  }

  /** When the pattern does not start anywhere in the prefix `a` of `a + pat + b`, the
      prefix is copied unchanged and the occurrence right after it is replaced. */
  lemma {:induction false} ReplaceAllAfterPrefix(a: string, pat: string, rep: string, b: string)
    requires pat != []
    requires forall i: nat :: i < |a| ==> !OccursAt(a + pat + b, pat, i)
    ensures ReplaceAll(a + pat + b, pat, rep) == a + rep + ReplaceAll(b, pat, rep)
    decreases |a|
  {
    var s := a + pat + b;
    if a == [] {
      assert s == pat + b && s[..|pat|] == pat && s[|pat|..] == b;
    } else {
      assert s[1..] == a[1..] + pat + b;
      ReplaceAllStep(s, pat, rep);
      PrefixFreeShift(a, pat, b);
      ReplaceAllAfterPrefix(a[1..], pat, rep, b);
      var tail := ReplaceAll(b, pat, rep);
      calc {
        ReplaceAll(s, pat, rep);
        [a[0]] + (a[1..] + rep + tail);
        { assert a[1..] + rep + tail == a[1..] + (rep + tail); }
        [a[0]] + (a[1..] + (rep + tail));
        { assert [a[0]] + a[1..] == a; }
        a + (rep + tail);
        a + rep + tail;
      }
    }
  }

  /** `rep` and `q` differ at a position both have: neither is a prefix of the other. */
  predicate Clashes(rep: string, q: string)
  {
    exists j :: 0 <= j < |rep| && j < |q| && rep[j] != q[j]
  }

  /** Text that starts with `rep` cannot start with a `q` that clashes with it. */
  lemma ClashBlocks(rep: string, x: string, q: string)
    requires Clashes(rep, q)
    ensures !OccursAt(rep + x, q, 0)
  {
    var j :| 0 <= j < |rep| && j < |q| && rep[j] != q[j];
    if |q| <= |rep + x| {
      assert (rep + x)[0..|q|][j] == rep[j];
    }
  }

  /** A non-empty `q` starts `[c] + x` exactly when `c` is its first character and the
      rest of `q` starts `x`. */
  lemma OccursAtCons(c: char, x: string, q: string)
    requires q != []
    ensures OccursAt([c] + x, q, 0) <==> c == q[0] && OccursAt(x, q[1..], 0)
  {
    if |q| <= |[c] + x| {
      assert ([c] + x)[0..|q|] == [c] + x[0..|q| - 1];
      assert q == [q[0]] + q[1..];
    }
  }

  /** When no tail of the pattern can begin `rep`, a replacement result that starts with
      the tail `pat[k..]` comes from a text that already started with it. */
  lemma {:induction false} ReplaceAllKeepsTail(t: string, pat: string, rep: string, k: nat)
    requires pat != [] && 1 <= k < |pat|
    requires forall m :: 1 <= m < |pat| ==> Clashes(rep, pat[m..])
    ensures OccursAt(ReplaceAll(t, pat, rep), pat[k..], 0) ==> OccursAt(t, pat[k..], 0)
    decreases |t|
  {
    if |t| >= |pat| {
      ReplaceAllStep(t, pat, rep);
      if OccursAt(t, pat, 0) {
        ClashBlocks(rep, ReplaceAll(t[|pat|..], pat, rep), pat[k..]);
      } else {
        OccursAtCons(t[0], ReplaceAll(t[1..], pat, rep), pat[k..]);
        OccursAtCons(t[0], t[1..], pat[k..]);
        assert [t[0]] + t[1..] == t;
        assert pat[k..][1..] == pat[k + 1..];
        if k + 1 < |pat| {
          ReplaceAllKeepsTail(t[1..], pat, rep, k + 1);
        }
      }
    }
  }

  /** `rep` followed by text without the pattern has no occurrence, when `rep` lacks the
      pattern's first character. */
  lemma NoneAfterReplacement(rep: string, rest: string, pat: string)
    requires pat != [] && pat[0] !in rep
    requires forall i: nat :: !OccursAt(rest, pat, i)
    ensures forall i: nat :: !OccursAt(rep + rest, pat, i)
  {
    var r := rep + rest;
    assert r[|rep|..] == rest;
    forall i: nat ensures !OccursAt(r, pat, i) {
      if i < |rep| {
        assert r[i] == rep[i];
      } else {
        OccursShift(r, pat, |rep|, i - |rep|);
      }
    }
  }

  /** A character followed by text without the pattern has at most the occurrence at 0. */
  lemma NoneAfterCopy(c: char, rest: string, pat: string)
    requires forall i: nat :: !OccursAt(rest, pat, i)
    requires !OccursAt([c] + rest, pat, 0)
    ensures forall i: nat :: !OccursAt([c] + rest, pat, i)
  {
    var r := [c] + rest;
    assert r[1..] == rest;
    forall i: nat | i >= 1 ensures !OccursAt(r, pat, i) {
      OccursShift(r, pat, 1, i - 1);
    }
  }

  /** When `rep` does not contain the pattern's first character and no tail of the
      pattern can begin `rep`, no occurrence of the pattern is left after replacing. */
  lemma {:induction false} ReplaceAllLeavesNone(s: string, pat: string, rep: string)
    requires pat != [] && pat[0] !in rep
    requires forall m :: 1 <= m < |pat| ==> Clashes(rep, pat[m..])
    ensures forall i: nat :: !OccursAt(ReplaceAll(s, pat, rep), pat, i)
    decreases |s|
  {
    if |s| >= |pat| {
      ReplaceAllStep(s, pat, rep);
      if OccursAt(s, pat, 0) {
        ReplaceAllLeavesNone(s[|pat|..], pat, rep);
        NoneAfterReplacement(rep, ReplaceAll(s[|pat|..], pat, rep), pat);
      } else {
        var rest := ReplaceAll(s[1..], pat, rep);
        ReplaceAllLeavesNone(s[1..], pat, rep);
        if |pat| > 1 {
          ReplaceAllKeepsTail(s[1..], pat, rep, 1);
        }
        OccursAtCons(s[0], rest, pat);
        OccursAtCons(s[0], s[1..], pat);
        assert [s[0]] + s[1..] == s;
        NoneAfterCopy(s[0], rest, pat);
      }
    }
  }

  /** A decimal digit. */
  predicate IsDigit(c: char) { '0' <= c <= '9' }

  /** `{}` formatting of an unsigned integer: its decimal digits, most significant first. */
  function Decimal(n: nat): (r: string)
    ensures |r| >= 1
    ensures forall i :: 0 <= i < |r| ==> IsDigit(r[i])
    ensures |r| > 1 ==> r[0] != '0'
    ensures DecimalValue(r) == n
  {
    var d := ['0' + (n % 10) as char];
    if n < 10 then d else Decimal(n / 10) + d
  }

  /** The number a string of decimal digits denotes. */
  function DecimalValue(s: string): nat
    requires forall i :: 0 <= i < |s| ==> IsDigit(s[i])
  {
    if s == [] then 0
    else
      assert IsDigit(s[|s| - 1]);
      10 * DecimalValue(s[..|s| - 1]) + (s[|s| - 1] as int - '0' as int)
  }

  /** A digit string whose first digit is not '0' denotes at least 1. */
  lemma {:induction false} DecimalPositive(s: string)
    requires |s| >= 1 && s[0] != '0'
    requires forall i :: 0 <= i < |s| ==> IsDigit(s[i])
    ensures DecimalValue(s) >= 1
    decreases |s|
  {
    if |s| > 1 {
      DecimalPositive(s[..|s| - 1]);
    } else {
      assert s[..0] == [];
    }
  }

  /** Decimal text without a leading zero is unique: it is the `{}` text of its value. */
  lemma {:induction false} DecimalCanonical(s: string)
    requires |s| >= 1 && (|s| > 1 ==> s[0] != '0')
    requires forall i :: 0 <= i < |s| ==> IsDigit(s[i])
    ensures Decimal(DecimalValue(s)) == s
    decreases |s|
  {
    var init := s[..|s| - 1];
    var d := s[|s| - 1] as int - '0' as int;
    assert DecimalValue(s) == 10 * DecimalValue(init) + d;
    if |s| == 1 {
      assert init == [];
      assert Decimal(d) == ['0' + (d % 10) as char];
    } else {
      DecimalCanonical(init);
      DecimalPositive(init);
      var n := DecimalValue(s);
      assert n / 10 == DecimalValue(init) && n % 10 == d;
      assert init + [s[|s| - 1]] == s;
    }
  }
}
