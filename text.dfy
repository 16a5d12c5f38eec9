/** Models of the JavaScript string and array built-ins the logger is written with:
    `String.prototype.slice`, `indexOf` / `replace` with a string pattern, `split` and
    `Array.prototype.join` with a one-character separator, and the decimal form of a number.
    A JavaScript string is modelled as a `seq<char>`. */
module Text {
  import opened Wrappers

  // ---------------------------------------------------------------------------
  // String.prototype.slice

  /** A relative index of `slice`, resolved against a string of length `len`:
      a negative index counts back from the end, and either kind is clamped to `[0, len]`. */
  function RelIndex(i: int, len: nat): (r: nat)
    ensures r <= len
    ensures i >= 0 ==> r == if i < len then i else len
    ensures i < 0 ==> r == if len + i < 0 then 0 else len + i
  {
    if i < 0 then (if len + i < 0 then 0 else len + i)
    else if i < len then i else len
  }

  /** `s.slice(start, end)`. */
  function Slice(s: string, start: int, end: int): (r: string)
    ensures |r| <= |s|
  {
    var from, to := RelIndex(start, |s|), RelIndex(end, |s|);
    if from < to then s[from..to] else ""
  }

  /** `s.slice(start)`: the end defaults to the length of the string. */
  function SliceFrom(s: string, start: int): (r: string)
    ensures |r| <= |s|
  {
    Slice(s, start, |s|)
  }

  /** `s.slice(0, n)` for `n >= 0` is the first `n` characters, or all of `s` when it is shorter. */
  lemma SlicePrefix(s: string, n: int)
    requires n >= 0
    ensures Slice(s, 0, n) == if n < |s| then s[..n] else s
  {
  }

  /** `s.slice(-k)` for `k >= 1` is the last `k` characters, or all of `s` when it is shorter.
      (`s.slice(-0)` is `s.slice(0)`, the whole string.) */
  lemma SliceLast(s: string, k: nat)
    requires k >= 1
    ensures SliceFrom(s, -(k as int)) == if k < |s| then s[|s| - k..] else s
  {
  }

  // ---------------------------------------------------------------------------
  // Occurrences, indexOf and replace with a string pattern

  /** `t` occurs in `s` starting at index `i`. */
  predicate OccursAt(s: string, t: string, i: int) {
    0 <= i && i + |t| <= |s| && s[i..i + |t|] == t
  }

  /** `t` occurs somewhere in `s`. */
  predicate Contains(s: string, t: string) {
    exists i :: 0 <= i <= |s| && OccursAt(s, t, i)
  }

  /** An occurrence moves right by `|a|` when `a` is put in front. */
  lemma OccursAfter(a: string, s: string, t: string, i: int)
    requires OccursAt(s, t, i)
    ensures OccursAt(a + s, t, |a| + i)
  {
    assert (a + s)[|a| + i..|a| + i + |t|] == s[i..i + |t|];
  }

  /** `t` occurs in `a + t + b` right after `a`. */
  lemma OccursBetween(a: string, t: string, b: string)
    ensures OccursAt(a + t + b, t, |a|)
  {
    assert (a + t + b)[|a|..|a| + |t|] == t;
  }

  /** Inside an occurrence of `t`, the characters of `s` are those of `t`. */
  lemma OccursAtChar(s: string, t: string, i: int, k: int)
    ensures OccursAt(s, t, i) && 0 <= k < |t| ==> s[i + k] == t[k]
  {
    if OccursAt(s, t, i) && 0 <= k < |t| {
      assert s[i..i + |t|][k] == s[i + k];
    }
  }

  /** The first index at or after `from` where `t` occurs in `s`
      (`s.indexOf(t, from)`, with `-1` written as `None`). */
  function IndexFrom(s: string, t: string, from: nat): (r: Option<nat>)
    ensures r.Some? ==> from <= r.value && OccursAt(s, t, r.value)
    ensures r.Some? ==> forall j :: from <= j < r.value ==> !OccursAt(s, t, j)
    ensures r.None? ==> forall j :: from <= j ==> !OccursAt(s, t, j)
    decreases |s| - from
  {
    if from + |t| > |s| then None
    else if s[from..from + |t|] == t then Some(from)
    else IndexFrom(s, t, from + 1)
  }

  /** `s.indexOf(t)`. */
  function IndexOf(s: string, t: string): (r: Option<nat>)
    ensures r.Some? ==> OccursAt(s, t, r.value) && forall j :: 0 <= j < r.value ==> !OccursAt(s, t, j)
    ensures r.None? ==> !Contains(s, t)
  {
    IndexFrom(s, t, 0)
  }

  /** `s.replace(t, rep)` with a string pattern: only the FIRST occurrence of `t` is
      replaced, and `s` is returned unchanged when `t` does not occur. (JavaScript would
      also expand `$` patterns inside `rep`; the logger only ever passes digits.) */
  function ReplaceFirst(s: string, t: string, rep: string): string {
    match IndexOf(s, t)
    case None => s
    case Some(i) => s[..i] + rep + s[i + |t|..]
  }

  /** `replace` splices `rep` in place of the first occurrence of `t`, and only there. */
  lemma ReplaceFirstSplices(s: string, t: string, rep: string, i: nat)
    requires OccursAt(s, t, i)
    requires forall j :: 0 <= j < i ==> !OccursAt(s, t, j)
    ensures ReplaceFirst(s, t, rep) == s[..i] + rep + s[i + |t|..]
  {
  }

  /** `replace` changes nothing when `t` does not occur. */
  lemma ReplaceFirstMissing(s: string, t: string, rep: string)
    requires !Contains(s, t)
    ensures ReplaceFirst(s, t, rep) == s
  {
  }

  /** When the first character of `t` does not appear in `a`, replacing `t` in `a + t + b`
      replaces exactly the copy that follows `a`. */
  lemma {:induction false} ReplaceFirstAfter(a: string, t: string, b: string, rep: string)
    requires |t| > 0 && t[0] !in a
    ensures ReplaceFirst(a + t + b, t, rep) == a + rep + b
  {
    var s := a + t + b;
    OccursBetween(a, t, b);
    forall j | 0 <= j < |a| ensures !OccursAt(s, t, j) {
      assert s[j] == a[j];
      OccursAtChar(s, t, j, 0);
    }
    assert s[..|a|] == a;
    assert s[|a| + |t|..] == b;
  }

  /** When the first character of `t` does not appear in `s`, replacing `t` changes nothing. */
  lemma {:induction false} ReplaceFirstAbsent(s: string, t: string, rep: string)
    requires |t| > 0 && t[0] !in s
    ensures ReplaceFirst(s, t, rep) == s
  {
    forall i | 0 <= i < |s| ensures !OccursAt(s, t, i) {
      OccursAtChar(s, t, i, 0);
    }
  }

  // ---------------------------------------------------------------------------
  // The decimal form of a number: String(n)

  predicate IsDigit(c: char) {
    '0' <= c <= '9'
  }

  predicate AllDigits(s: string) {
    forall i :: 0 <= i < |s| ==> IsDigit(s[i])
  }

  function DigitChar(d: nat): (c: char)
    requires d < 10
    ensures IsDigit(c)
  {
    (('0' as int) + d) as char
  }

  function DigitValue(c: char): (d: nat)
    requires IsDigit(c)
    ensures d < 10
  {
    (c as int) - ('0' as int)
  }

  /** A character that is not a digit does not occur in a string of digits. */
  lemma NotInDigits(s: string, ch: char)
    requires AllDigits(s) && !IsDigit(ch)
    ensures ch !in s
  {
  }

  /** `String(n)` for a non-negative integer `n`: its decimal digits, without leading zeros. */
  function NatToString(n: nat): (r: string)
    ensures |r| >= 1 && AllDigits(r)
    ensures (|r| == 1) == (n < 10)
    ensures n >= 10 ==> r[0] != '0'
  {
    if n < 10 then [DigitChar(n)] else NatToString(n / 10) + [DigitChar(n % 10)]
  }

  /** `String(i)` for any integer: a minus sign in front of the negative ones. */
  function IntToString(i: int): (r: string)
    ensures |r| >= 1
    ensures i >= 0 ==> AllDigits(r)
    ensures i < 0 ==> r[0] == '-' && AllDigits(r[1..])
  {
    if i < 0 then "-" + NatToString(-i) else NatToString(i)
  }

  /** The number a string of decimal digits denotes. */
  function ParseDigits(s: string): nat
    requires AllDigits(s)
  {
    if |s| == 0 then 0 else ParseDigits(s[..|s| - 1]) * 10 + DigitValue(s[|s| - 1])
  }

  /** Reading back the decimal form of `n` gives `n`. */
  lemma {:induction false} ParseNatToString(n: nat)
    ensures ParseDigits(NatToString(n)) == n
  {
    var r := NatToString(n);
    if n < 10 {
      assert r[..0] == [];
    } else {
      ParseNatToString(n / 10);
      assert r[..|r| - 1] == NatToString(n / 10);
    }
  }

  /** The last character of the decimal form of `n` is its units digit. */
  lemma LastDigit(n: nat)
    ensures NatToString(n)[|NatToString(n)| - 1] == DigitChar(n % 10)
  {
  }

  /** A leading zero does not change the number a string of digits denotes. */
  lemma {:induction false} ParseLeadingZero(s: string)
    requires AllDigits(s)
    ensures AllDigits("0" + s) && ParseDigits("0" + s) == ParseDigits(s)
    decreases |s|
  {
    if |s| > 0 {
      ParseLeadingZero(s[..|s| - 1]);
      assert ("0" + s)[..|s|] == "0" + s[..|s| - 1];
    }
  }

  /** A two-digit string denotes ten times its first digit plus its second. */
  lemma ParseTwo(s: string)
    requires |s| == 2 && AllDigits(s)
    ensures ParseDigits(s) == DigitValue(s[0]) * 10 + DigitValue(s[1])
  {
    assert s[..1][..0] == [];
    assert ParseDigits(s[..1]) == DigitValue(s[0]);
  }

  /** The decimal form of `n` has as many characters as `n` has digits. */
  lemma {:induction false} NatToStringWidth(n: nat)
    ensures n < 10 ==> |NatToString(n)| == 1
    ensures 10 <= n < 100 ==> |NatToString(n)| == 2
    ensures 100 <= n < 1000 ==> |NatToString(n)| == 3
    ensures 1000 <= n < 10000 ==> |NatToString(n)| == 4
  {
    if n >= 10 {
      NatToStringWidth(n / 10);
    }
  }

  // ---------------------------------------------------------------------------
  // String.prototype.split and Array.prototype.join with a one-character separator

  /** `s.split(d)` for a one-character separator `d`: the pieces between the separators,
      at least one piece (the empty string splits into `[""]`). */
  function Split(s: string, d: char): (r: seq<string>)
    ensures |r| >= 1
    ensures forall k :: 0 <= k < |r| ==> d !in r[k]
    decreases |s|
  {
    if |s| == 0 then [""]
    else
      var rest := Split(s[1..], d);
      if s[0] == d then [""] + rest else [[s[0]] + rest[0]] + rest[1..]
  }

  /** `parts.join(sep)`. */
  function Join(parts: seq<string>, sep: string): string
  {
    if |parts| == 0 then ""
    else if |parts| == 1 then parts[0]
    else parts[0] + sep + Join(parts[1..], sep)
  }

  /** Joining two non-empty lists puts one separator between their joins. */
  lemma {:induction false} JoinAppend(xs: seq<string>, ys: seq<string>, sep: string)
    requires |xs| >= 1 && |ys| >= 1
    ensures Join(xs + ys, sep) == Join(xs, sep) + sep + Join(ys, sep)
  {
    if |xs| == 1 {
      assert (xs + ys)[1..] == ys;
    } else {
      JoinAppend(xs[1..], ys, sep);
      assert (xs + ys)[1..] == xs[1..] + ys;
    }
  }

  /** Splitting and joining back with the same separator gives the original string. */
  lemma {:induction false} JoinSplit(s: string, d: char)
    ensures Join(Split(s, d), [d]) == s
    decreases |s|
  {
    if |s| > 0 {
      var rest := Split(s[1..], d);
      JoinSplit(s[1..], d);
      if s[0] == d {
        assert ([""] + rest)[1..] == rest;
      } else if |rest| == 1 {
        assert Join(rest, [d]) == rest[0];
      } else {
        var parts := [[s[0]] + rest[0]] + rest[1..];
        assert parts[1..] == rest[1..];
        assert s == [s[0]] + s[1..];
      }
    }
  }

  /** A string free of the separator splits into itself alone. */
  lemma {:induction false} SplitPlain(a: string, d: char)
    requires d !in a
    ensures Split(a, d) == [a]
    decreases |a|
  {
    if |a| > 0 {
      SplitPlain(a[1..], d);
      assert [a[0]] + a[1..] == a;
    }
  }

  /** A separator after a separator-free piece `a` ends that piece. */
  lemma {:induction false} SplitAfter(a: string, d: char, b: string)
    requires d !in a
    ensures Split(a + [d] + b, d) == [a] + Split(b, d)
    decreases |a|
  {
    var s := a + [d] + b;
    if |a| == 0 {
      assert s[1..] == b;
    } else {
      assert s[1..] == a[1..] + [d] + b;
      SplitAfter(a[1..], d, b);
      assert [a[0]] + a[1..] == a;
    }
  }

  /** Joining pieces free of the separator and splitting again gives the pieces back. */
  lemma {:induction false} SplitJoin(parts: seq<string>, d: char)
    requires |parts| >= 1
    requires forall k :: 0 <= k < |parts| ==> d !in parts[k]
    ensures Split(Join(parts, [d]), d) == parts
  {
    if |parts| == 1 {
      SplitPlain(parts[0], d);
    } else {
      SplitJoin(parts[1..], d);
      SplitAfter(parts[0], d, Join(parts[1..], [d]));
      assert [parts[0]] + parts[1..] == parts;
    }
  }

  /** Every piece of a join occurs in it. */
  lemma {:induction false} JoinContains(parts: seq<string>, sep: string, i: nat)
    requires i < |parts|
    ensures Contains(Join(parts, sep), parts[i])
  {
    if |parts| == 1 {
      assert OccursAt(parts[0], parts[0], 0);
    } else if i == 0 {
      OccursBetween([], parts[0], sep + Join(parts[1..], sep));
      assert [] + parts[0] + (sep + Join(parts[1..], sep)) == Join(parts, sep);
    } else {
      JoinContains(parts[1..], sep, i - 1);
      var k :| OccursAt(Join(parts[1..], sep), parts[i], k);
      OccursAfter(parts[0] + sep, Join(parts[1..], sep), parts[i], k);
    }
  }
}
