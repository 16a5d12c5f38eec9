/** The caller's location, read off one line of a V8 stack trace: the two regular
    expressions the logger tries in turn, and the shortening of the matched path to its last
    two segments. Both patterns carry the `i` flag, so `at` may be written in either case. */
module CallSite {
  import opened Wrappers
  import opened Text

  // ---------------------------------------------------------------------------
  // Character classes

  /** The `\s` class of JavaScript regular expressions: the ASCII whitespace, the no-break
      space, the Unicode space separators, the line and paragraph separators and the
      byte-order mark. */
  predicate IsSpace(ch: char) {
    ch == '\t' || ch == '\n' || ch == '\U{0B}' || ch == '\U{0C}' || ch == '\r' || ch == ' '
    || ch == '\U{A0}' || ch == '\U{1680}' || ('\U{2000}' <= ch <= '\U{200A}')
    || ch == '\U{2028}' || ch == '\U{2029}' || ch == '\U{202F}' || ch == '\U{205F}'
    || ch == '\U{3000}' || ch == '\U{FEFF}'
  }

  /** Every character of `line[lo..hi]` is in `\s`. */
  predicate SpacesIn(line: string, lo: int, hi: int) {
    0 <= lo <= hi <= |line| && forall i :: lo <= i < hi ==> IsSpace(line[i])
  }

  /** Every character of `line[lo..hi]` is in `\d`. */
  predicate DigitsIn(line: string, lo: int, hi: int) {
    0 <= lo <= hi <= |line| && forall i :: lo <= i < hi ==> IsDigit(line[i])
  }

  /** `at`, in either case, starts at `p`. */
  predicate AtWord(line: string, p: int) {
    0 <= p && p + 1 < |line|
    && (line[p] == 'a' || line[p] == 'A') && (line[p + 1] == 't' || line[p + 1] == 'T')
  }

  /** `at` followed by a `\s` character starts at `p`: where a match of either pattern can
      begin. */
  predicate AtSpaceAt(line: string, p: int) {
    AtWord(line, p) && p + 2 < |line| && IsSpace(line[p + 2])
  }

  // ---------------------------------------------------------------------------
  // The two patterns, as the matches they admit

  /** A match of `/at\s+(.*)\s+\((.*):(\d*):(\d*)\)/i` in `line`, by the positions where
      its parts begin: `at` at `p`, the first `\s+` up to `a`, group 1 up to `b`, the second
      `\s+` up to the `(` at `k`, group 2 up to the `:` at `c`, digits up to the `:` at `d`,
      digits up to the `)` at `f`. Group 2 is `line[k + 1..c]`. */
  predicate NamedMatch(line: string, p: int, a: int, b: int, k: int, c: int, d: int, f: int) {
    0 <= p && p + 2 < a <= b < k < c < d < f < |line|
    && AtWord(line, p) && SpacesIn(line, p + 2, a) && SpacesIn(line, b, k) && line[k] == '('
    && line[c] == ':' && DigitsIn(line, c + 1, d) && line[d] == ':' && DigitsIn(line, d + 1, f)
    && line[f] == ')'
  }

  /** A match of `/at\s+()(.*):(\d*):(\d*)/i` in `line`: `at` at `p`, `\s+` up to `a`, the
      empty group 1, group 2 up to the `:` at `c`, digits up to the `:` at `d`, digits up to
      `f`. Group 2 is `line[a..c]`. */
  predicate UnnamedMatch(line: string, p: int, a: int, c: int, d: int, f: int) {
    0 <= p && p + 2 < a <= c < d < f <= |line|
    && AtWord(line, p) && SpacesIn(line, p + 2, a)
    && line[c] == ':' && DigitsIn(line, c + 1, d) && line[d] == ':' && DigitsIn(line, d + 1, f)
  }

  ghost predicate HasNamed(line: string) {
    exists p, a, b, k, c, d, f :: NamedMatch(line, p, a, b, k, c, d, f)
  }

  ghost predicate HasUnnamed(line: string) {
    exists p, a, c, d, f :: UnnamedMatch(line, p, a, c, d, f)
  }

  /** The match `exec` reports has the leftmost start; the backtracking order of the greedy
      parts then puts the `(` as far right as any match has it, and after it the end of
      group 2 as far right as a match with that `(` has it. */
  ghost predicate NamedChosen(line: string, p: int, k: int, c: int) {
    forall p', a', b', k', c', d', f' :: NamedMatch(line, p', a', b', k', c', d', f') ==>
      p <= p' && k' <= k && (k' == k ==> c' <= c)
  }

  /** The match `exec` reports has the leftmost start, then the longest `\s+` run, then the
      longest group 2. */
  ghost predicate UnnamedChosen(line: string, p: int, a: int, c: int) {
    forall p', a', c', d', f' :: UnnamedMatch(line, p', a', c', d', f') ==>
      p <= p' && (p' == p ==> a' <= a) && (p' == p && a' == a ==> c' <= c)
  }

  /** `g` is group 2 of the match `exec` reports for the first pattern. */
  ghost predicate NamedResult(line: string, g: string) {
    exists p, a, b, k, c, d, f ::
      NamedMatch(line, p, a, b, k, c, d, f) && NamedChosen(line, p, k, c) && g == line[k + 1..c]
  }

  /** `g` is group 2 of the match `exec` reports for the second pattern. */
  ghost predicate UnnamedResult(line: string, g: string) {
    exists p, a, c, d, f ::
      UnnamedMatch(line, p, a, c, d, f) && UnnamedChosen(line, p, a, c) && g == line[a..c]
  }

  // ---------------------------------------------------------------------------
  // Searching the line

  /** The end of the run of digits that starts at `i`. */
  function DigitsEnd(line: string, i: nat): (r: nat)
    requires i <= |line|
    ensures i <= r <= |line| && DigitsIn(line, i, r)
    ensures r < |line| ==> !IsDigit(line[r])
    decreases |line| - i
  {
    if i < |line| && IsDigit(line[i]) then DigitsEnd(line, i + 1) else i
  }

  /** The end of the run of `\s` characters that starts at `i`. */
  function SpacesEnd(line: string, i: nat): (r: nat)
    requires i <= |line|
    ensures i <= r <= |line| && SpacesIn(line, i, r)
    ensures r < |line| ==> !IsSpace(line[r])
    decreases |line| - i
  {
    if i < |line| && IsSpace(line[i]) then SpacesEnd(line, i + 1) else i
  }

  /** A run of digits that stops at a non-digit ends there. */
  lemma DigitsEndAt(line: string, i: nat, j: nat)
    requires DigitsIn(line, i, j) && j < |line| && !IsDigit(line[j])
    ensures DigitsEnd(line, i) == j
  {
  }

  /** The tail `:\d*:\d*` (with `closed`, `:\d*:\d*\)`) starts at `c`. The digit runs are
      greedy, and neither `:` nor `)` is a digit, so each run must end where it stops. */
  predicate TailAt(line: string, c: nat, closed: bool) {
    c < |line| && line[c] == ':'
    && var d := DigitsEnd(line, c + 1);
    d < |line| && line[d] == ':'
    && (closed ==> var f := DigitsEnd(line, d + 1); f < |line| && line[f] == ')')
  }

  /** A `(` with a `\s` character before it is at `k`. */
  predicate ParenAt(line: string, k: int) {
    1 <= k < |line| && line[k] == '(' && IsSpace(line[k - 1])
  }

  /** The first place at or after `from` where `at` and a `\s` character begin. */
  function FirstAtSpace(line: string, from: nat): (r: Option<nat>)
    ensures r.Some? ==> from <= r.value && AtSpaceAt(line, r.value)
    ensures r.Some? ==> forall j :: from <= j < r.value ==> !AtSpaceAt(line, j)
    ensures r.None? ==> forall j :: from <= j ==> !AtSpaceAt(line, j)
    decreases |line| - from
  {
    if from + 2 >= |line| then None
    else if AtSpaceAt(line, from) then Some(from)
    else FirstAtSpace(line, from + 1)
  }

  /** The last place before `n` where a tail begins. */
  function LastTail(line: string, n: nat, closed: bool): (r: Option<nat>)
    ensures r.Some? ==> r.value < n && TailAt(line, r.value, closed)
    ensures r.Some? ==> forall c :: r.value < c < n ==> !TailAt(line, c, closed)
    ensures r.None? ==> forall c :: 0 <= c < n ==> !TailAt(line, c, closed)
  {
    if n == 0 then None
    else if TailAt(line, n - 1, closed) then Some(n - 1)
    else LastTail(line, n - 1, closed)
  }

  /** The last place before `n` where a `(` follows a `\s` character. */
  function LastParen(line: string, n: nat): (r: Option<nat>)
    ensures r.Some? ==> r.value < n && ParenAt(line, r.value)
    ensures r.Some? ==> forall k :: r.value < k < n ==> !ParenAt(line, k)
    ensures r.None? ==> forall k :: 0 <= k < n ==> !ParenAt(line, k)
  {
    if n == 0 then None
    else if ParenAt(line, n - 1) then Some(n - 1)
    else LastParen(line, n - 1)
  }

  // ---------------------------------------------------------------------------
  // What exec reports

  /** Every match of the first pattern starts no earlier than the first `at` with a space,
      ends its group 2 no later than the last closed tail, and has its `(` no later than the
      last `(` with a space before that tail. */
  lemma NamedBounded(line: string, p: int, a: int, b: int, k: int, c: int, d: int, f: int)
    requires NamedMatch(line, p, a, b, k, c, d, f)
    ensures FirstAtSpace(line, 0).Some? && FirstAtSpace(line, 0).value <= p
    ensures LastTail(line, |line|, true).Some? && c <= LastTail(line, |line|, true).value
    ensures LastParen(line, LastTail(line, |line|, true).value).Some?
    ensures k <= LastParen(line, LastTail(line, |line|, true).value).value
  {
    assert AtSpaceAt(line, p);
    DigitsEndAt(line, c + 1, d);
    DigitsEndAt(line, d + 1, f);
    assert TailAt(line, c, true);
    assert ParenAt(line, k);
  }

  /** The first pattern's group 2, as `exec` finds it: the text between the last `(` that
      follows a space and the last `:\d*:\d*)` tail, provided an `at` with a space comes at
      least two characters before that `(`. */
  function ExecNamed(line: string): (r: Option<string>)
    ensures r.None? <==> !HasNamed(line)
    ensures r.Some? ==> NamedResult(line, r.value)
  {
    match (FirstAtSpace(line, 0), LastTail(line, |line|, true))
    case (Some(p), Some(c)) =>
      (match LastParen(line, c)
       case Some(k) =>
         if p + 4 <= k then
           NamedFound(line, p, k, c);
           Some(line[k + 1..c])
         else
           NamedAbsent(line);
           None
       case None =>
         NamedAbsent(line);
         None)
    case _ =>
      NamedAbsent(line);
      None
  }

  /** The match `ExecNamed` reports exists and is the chosen one. */
  lemma NamedFound(line: string, p: nat, k: nat, c: nat)
    requires FirstAtSpace(line, 0) == Some(p) && LastTail(line, |line|, true) == Some(c)
    requires LastParen(line, c) == Some(k) && p + 4 <= k
    ensures NamedResult(line, line[k + 1..c])
  {
    var d := DigitsEnd(line, c + 1);
    var f := DigitsEnd(line, d + 1);
    assert NamedMatch(line, p, p + 3, k - 1, k, c, d, f);
    forall p', a', b', k', c', d', f' | NamedMatch(line, p', a', b', k', c', d', f')
      ensures p <= p' && k' <= k && (k' == k ==> c' <= c)
    {
      NamedBounded(line, p', a', b', k', c', d', f');
    }
  }

  /** When the search fails, no match of the first pattern exists. */
  lemma NamedAbsent(line: string)
    requires FirstAtSpace(line, 0).None? || LastTail(line, |line|, true).None?
      || LastParen(line, LastTail(line, |line|, true).value).None?
      || LastParen(line, LastTail(line, |line|, true).value).value < FirstAtSpace(line, 0).value + 4
    ensures !HasNamed(line)
  {
    if HasNamed(line) {
      var p, a, b, k, c, d, f :| NamedMatch(line, p, a, b, k, c, d, f);
      NamedBounded(line, p, a, b, k, c, d, f);
    }
  }

  /** Every match of the second pattern starts no earlier than the first `at` with a space,
      and ends its group 2 no later than the last open tail; one that starts there ends its
      `\s+` run no later than the run itself does. */
  lemma UnnamedBounded(line: string, p: int, a: int, c: int, d: int, f: int)
    requires UnnamedMatch(line, p, a, c, d, f)
    ensures FirstAtSpace(line, 0).Some? && FirstAtSpace(line, 0).value <= p
    ensures LastTail(line, |line|, false).Some? && c <= LastTail(line, |line|, false).value
    ensures a <= SpacesEnd(line, p + 2)
  {
    assert AtSpaceAt(line, p);
    DigitsEndAt(line, c + 1, d);
    assert TailAt(line, c, false);
  }

  /** The second pattern's group 2, as `exec` finds it: from the end of the `\s` run after
      the first `at` up to the last `:\d*:` tail, provided that tail comes after the run. */
  function ExecUnnamed(line: string): (r: Option<string>)
    ensures r.None? <==> !HasUnnamed(line)
    ensures r.Some? ==> UnnamedResult(line, r.value)
  {
    match (FirstAtSpace(line, 0), LastTail(line, |line|, false))
    case (Some(p), Some(c)) =>
      if p + 3 <= c then
        UnnamedFound(line, p, c);
        Some(line[SpacesEnd(line, p + 2)..c])
      else
        UnnamedAbsent(line);
        None
    case _ =>
      UnnamedAbsent(line);
      None
  }

  /** The match `ExecUnnamed` reports exists and is the chosen one. */
  lemma UnnamedFound(line: string, p: nat, c: nat)
    requires FirstAtSpace(line, 0) == Some(p) && LastTail(line, |line|, false) == Some(c)
    requires p + 3 <= c
    ensures SpacesEnd(line, p + 2) <= c
    ensures UnnamedResult(line, line[SpacesEnd(line, p + 2)..c])
  {
    var q := SpacesEnd(line, p + 2);
    var d := DigitsEnd(line, c + 1);
    assert UnnamedMatch(line, p, q, c, d, d + 1);
    forall p', a', c', d', f' | UnnamedMatch(line, p', a', c', d', f')
      ensures p <= p' && (p' == p ==> a' <= q) && (p' == p && a' == q ==> c' <= c)
    {
      UnnamedBounded(line, p', a', c', d', f');
    }
  }

  /** When the search fails, no match of the second pattern exists. */
  lemma UnnamedAbsent(line: string)
    requires FirstAtSpace(line, 0).None? || LastTail(line, |line|, false).None?
      || LastTail(line, |line|, false).value < FirstAtSpace(line, 0).value + 3
    ensures !HasUnnamed(line)
  {
    if HasUnnamed(line) {
      var p, a, c, d, f :| UnnamedMatch(line, p, a, c, d, f);
      UnnamedBounded(line, p, a, c, d, f);
    }
  }

  /** The choice `exec` makes is a single one: two chosen matches of the first pattern have
      the same group 2. */
  lemma NamedChoiceUnique(line: string, p: int, a: int, b: int, k: int, c: int, d: int, f: int,
                          p2: int, a2: int, b2: int, k2: int, c2: int, d2: int, f2: int)
    requires NamedMatch(line, p, a, b, k, c, d, f) && NamedChosen(line, p, k, c)
    requires NamedMatch(line, p2, a2, b2, k2, c2, d2, f2) && NamedChosen(line, p2, k2, c2)
    ensures p == p2 && line[k + 1..c] == line[k2 + 1..c2]
  {
    NamedChosenApplies(line, p, k, c, p2, a2, b2, k2, c2, d2, f2);
    NamedChosenApplies(line, p2, k2, c2, p, a, b, k, c, d, f);
  }

  /** What a chosen match of the first pattern says about one other match. */
  lemma NamedChosenApplies(line: string, p: int, k: int, c: int,
                           p': int, a': int, b': int, k': int, c': int, d': int, f': int)
    requires NamedChosen(line, p, k, c) && NamedMatch(line, p', a', b', k', c', d', f')
    ensures p <= p' && k' <= k && (k' == k ==> c' <= c)
  {
  }

  /** The choice `exec` makes is a single one: two chosen matches of the second pattern have
      the same group 2. */
  lemma UnnamedChoiceUnique(line: string, p: int, a: int, c: int, d: int, f: int,
                            p2: int, a2: int, c2: int, d2: int, f2: int)
    requires UnnamedMatch(line, p, a, c, d, f) && UnnamedChosen(line, p, a, c)
    requires UnnamedMatch(line, p2, a2, c2, d2, f2) && UnnamedChosen(line, p2, a2, c2)
    ensures p == p2 && line[a..c] == line[a2..c2]
  {
    UnnamedChosenApplies(line, p, a, c, p2, a2, c2, d2, f2);
    UnnamedChosenApplies(line, p2, a2, c2, p, a, c, d, f);
  }

  /** What a chosen match of the second pattern says about one other match. */
  lemma UnnamedChosenApplies(line: string, p: int, a: int, c: int,
                             p': int, a': int, c': int, d': int, f': int)
    requires UnnamedChosen(line, p, a, c) && UnnamedMatch(line, p', a', c', d', f')
    ensures p <= p' && (p' == p ==> a' <= a) && (p' == p && a' == a ==> c' <= c)
  {
  }

  /** `(stackReg.exec(line) || stackReg2.exec(line))[2]`: the first pattern's group 2 when it
      matches, else the second's; `None` when neither matches, where the source's property
      access throws. */
  function MatchedPath(line: string): (r: Option<string>)
    ensures r.None? <==> !HasNamed(line) && !HasUnnamed(line)
    ensures HasNamed(line) ==> r.Some? && NamedResult(line, r.value)
    ensures !HasNamed(line) && HasUnnamed(line) ==> r.Some? && UnnamedResult(line, r.value)
  {
    match ExecNamed(line)
    case Some(g) => Some(g)
    case None => ExecUnnamed(line)
  }

  // ---------------------------------------------------------------------------
  // Shortening the path

  /** The last `min(2, n)` of `n` segments. */
  function LastTwo(parts: seq<string>): (r: seq<string>)
    ensures |r| == if |parts| < 2 then |parts| else 2
    ensures r == parts[|parts| - |r|..]
  {
    if |parts| <= 2 then parts else parts[|parts| - 2..]
  }

  /** `pathSplit.slice(Math.max(-2, -pathSplit.length)).join('/')`: the path cut down to its
      last two `/`-separated segments. The result is a suffix of the path, and splitting it
      again gives exactly those segments. */
  function ShortPath(path: string): (r: string)
    ensures |r| <= |path| && r == path[|path| - |r|..]
    ensures Split(r, '/') == LastTwo(Split(path, '/'))
  {
    var parts := Split(path, '/');
    var n := |parts|;
    var from := RelIndex(if -2 > -n then -2 else -n, n);
    assert parts[from..] == LastTwo(parts);
    ShortPathSegments(parts[from..]);
    ShortPathSuffix(path, from);
    Join(parts[from..], "/")
  }

  /** Joining segments free of `/` and splitting again gives them back. */
  lemma ShortPathSegments(parts: seq<string>)
    requires |parts| >= 1 && forall i :: 0 <= i < |parts| ==> '/' !in parts[i]
    ensures Split(Join(parts, "/"), '/') == parts
  {
    assert "/" == ['/'];
    SplitJoin(parts, '/');
  }

  /** Joining the segments of a path from any of them on gives a suffix of the path. */
  lemma ShortPathSuffix(path: string, from: nat)
    requires from < |Split(path, '/')|
    ensures var r := Join(Split(path, '/')[from..], "/"); |r| <= |path| && r == path[|path| - |r|..]
  {
    var parts := Split(path, '/');
    var r := Join(parts[from..], "/");
    assert "/" == ['/'];
    JoinSplit(path, '/');
    if from > 0 {
      assert parts == parts[..from] + parts[from..];
      JoinAppend(parts[..from], parts[from..], "/");
      assert path == Join(parts[..from], "/") + "/" + r;
    } else {
      assert parts[from..] == parts;
    }
  }
}
