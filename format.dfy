/** The formatting engine behind one logging call: truncation, the choice of serialiser,
    error serialisation, the classification of each argument, the content line, and the
    date template. */
module Format {
  import opened Wrappers
  import opened Text
  import opened Values
  import opened Mode

  /** The truncation limit used when none is configured. */
  const DefaultMaxLength: int := 512

  // ---------------------------------------------------------------------------
  // Truncation

  /** `strSlice(str, length)`: a hard cut of `str` to its first `length` characters when it
      is longer, with no marker. A negative `length` is a `slice` end counted from the end. */
  function StrSlice(str: string, length: int): (r: string)
    ensures r <= str
    ensures |str| <= length ==> r == str
    ensures 0 <= length < |str| ==> r == str[..length]
    ensures length < 0 ==> r == str[..if |str| + length < 0 then 0 else |str| + length]
  {
    if |str| > length then Slice(str, 0, length) else str
  }

  /** `replaceBank(str)`: the whitespace squeezing is switched off, the string comes back as is. */
  function ReplaceBank(str: string): (r: string)
    ensures r == str
  {
    str
  }

  /** The limit a call truncates to: the configured `strMaxLen` when it is truthy
      (set and not 0), otherwise 512. */
  function Limit(strMaxLen: Option<int>): (r: int)
    ensures r != 0
    ensures strMaxLen.Some? && strMaxLen.value != 0 ==> r == strMaxLen.value
    ensures strMaxLen.None? || strMaxLen.value == 0 ==> r == DefaultMaxLength
  {
    if strMaxLen.Some? && strMaxLen.value != 0 then strMaxLen.value else DefaultMaxLength
  }

  // ---------------------------------------------------------------------------
  // Serialisation of structured values and errors

  /** `stringify(value)`: the compact cycle-safe serialiser in production or cluster mode,
      `util.inspect` otherwise. */
  function Stringify(e: Env, c: Collaborators, v: Value): (r: string)
    ensures IsPlain(e) ==> r == c.safeStringify(v)
    ensures !IsPlain(e) ==> r == c.inspect(v)
  {
    if IsK8Env(e) || IsProdEnv(e) then c.safeStringify(v) else c.inspect(v)
  }

  /** One `key: value` line of `errorStringify`: the `stack` value as its own text, every
      other value through `stringify`. `None` when the template literal throws. */
  function ErrorLine(e: Env, c: Collaborators, p: Property): Option<string> {
    if p.key == "stack" then
      match ToText(c, p.value)
      case Some(t) => Some(p.key + ": " + t)
      case None => None
    else Some(p.key + ": " + Stringify(e, c, p.value))
  }

  /** The lines of `errorStringify`, one per own property of the error, in property order. */
  function ErrorLines(e: Env, c: Collaborators, props: seq<Property>): (r: Option<seq<string>>)
    ensures r.Some? <==> forall i :: 0 <= i < |props| && props[i].key == "stack" ==> !props[i].value.Symbol?
    ensures r.Some? ==> |r.value| == |props|
    ensures r.Some? ==> forall i :: 0 <= i < |props| ==>
      && (props[i].key == "stack" ==> r.value[i] == "stack: " + ToText(c, props[i].value).value)
      && (props[i].key != "stack" ==> r.value[i] == props[i].key + ": " + Stringify(e, c, props[i].value))
  {
    var xs := seq(|props|, i requires 0 <= i < |props| => ErrorLine(e, c, props[i]));
    assert forall i :: 0 <= i < |props| ==> xs[i] == ErrorLine(e, c, props[i]);
    AllSome(xs)
  }

  /** `errorStringify(err)`: the lines joined by newlines, painted red outside plain mode. */
  function ErrorStringify(e: Env, c: Collaborators, props: seq<Property>): (r: Option<string>)
    ensures r.Some? <==> ErrorLines(e, c, props).Some?
    ensures r.Some? && IsPlain(e) ==> r.value == Join(ErrorLines(e, c, props).value, "\n")
    ensures r.Some? && !IsPlain(e) ==> r.value == c.paint(Red, Join(ErrorLines(e, c, props).value, "\n"))
  {
    match ErrorLines(e, c, props)
    case None => None
    case Some(lines) =>
      var res := Join(lines, "\n");
      Some(if IsPlain(e) then res else c.paint(Red, res))
  }

  /** In plain mode an error with a string `stack` property serialises to text that holds
      `stack: ` followed by that stack. */
  lemma ErrorShowsStack(e: Env, c: Collaborators, props: seq<Property>, i: nat)
    requires IsPlain(e)
    requires i < |props| && props[i].key == "stack" && props[i].value.Str?
    requires forall k :: 0 <= k < |props| && props[k].key == "stack" ==> !props[k].value.Symbol?
    ensures ErrorStringify(e, c, props).Some?
    ensures Contains(ErrorStringify(e, c, props).value, "stack: " + props[i].value.s)
  {
    var lines := ErrorLines(e, c, props).value;
    JoinContains(lines, "\n", i);
  }

  // ---------------------------------------------------------------------------
  // Classification of one argument (the callback of `args.map`)

  /** What the callback returns: a string, or the argument itself for primitives it leaves alone. */
  datatype Rendered = Shown(s: string) | AsIs(v: Value)

  /** The callback of `args.map`, first match wins: a string is truncated, `null` and
      `undefined` become their names, an error is serialised after a newline, a function
      becomes `function`, another object is serialised and truncated, and anything else is
      returned untouched. `None` when serialising an error throws. */
  function Render(e: Env, c: Collaborators, strMaxLen: Option<int>, v: Value): (r: Option<Rendered>)
    ensures r.None? <==> v.Error? && ErrorStringify(e, c, v.props).None?
    ensures v.Str? ==> r.Some? && r.value.Shown? && r.value.s <= v.s
    ensures v.Str? && |v.s| <= Limit(strMaxLen) ==> r == Some(Shown(v.s))
    ensures v.Str? && 0 <= Limit(strMaxLen) < |v.s| ==> |r.value.s| == Limit(strMaxLen)
    ensures v.Null? ==> r == Some(Shown("null"))
    ensures v.Undefined? ==> r == Some(Shown("undefined"))
    ensures v.Error? && r.Some? ==> r.value == Shown("\n" + ErrorStringify(e, c, v.props).value)
    ensures v.Function? ==> r == Some(Shown("function"))
    ensures v.Object? ==> r.Some? && r.value.Shown? && r.value.s <= Stringify(e, c, v)
    ensures v.Object? && |Stringify(e, c, v)| <= Limit(strMaxLen) ==> r == Some(Shown(Stringify(e, c, v)))
    ensures v.Object? && 0 <= Limit(strMaxLen) < |Stringify(e, c, v)| ==> |r.value.s| == Limit(strMaxLen)
    ensures v.Primitive? || v.Symbol? ==> r == Some(AsIs(v))
  {
    match v
    case Str(s) => Some(Shown(ReplaceBank(StrSlice(s, Limit(strMaxLen)))))
    case Null => Some(Shown("null"))
    case Undefined => Some(Shown("undefined"))
    case Error(props) =>
      (match ErrorStringify(e, c, props)
       case Some(t) => Some(Shown("\n" + t))
       case None => None)
    case Function => Some(Shown("function"))
    case Object(_) => Some(Shown(StrSlice(ReplaceBank(Stringify(e, c, v)), Limit(strMaxLen))))
    case _ => Some(AsIs(v))
  }

  /** The text `join` makes of one rendered argument; `None` when the conversion throws. */
  function RenderedText(c: Collaborators, r: Rendered): Option<string> {
    match r
    case Shown(s) => Some(s)
    case AsIs(v) => ToText(c, v)
  }

  /** The text one argument contributes to the content line. */
  function ArgText(e: Env, c: Collaborators, strMaxLen: Option<int>, v: Value): Option<string> {
    match Render(e, c, strMaxLen, v)
    case Some(r) => RenderedText(c, r)
    case None => None
  }

  /** The texts of all the arguments, in order, when each has one. */
  function ArgTexts(e: Env, c: Collaborators, strMaxLen: Option<int>, args: seq<Value>): (r: seq<string>)
    requires forall i :: 0 <= i < |args| ==> ArgText(e, c, strMaxLen, args[i]).Some?
    ensures |r| == |args| && forall i :: 0 <= i < |args| ==> r[i] == ArgText(e, c, strMaxLen, args[i]).value
  {
    seq(|args|, i requires 0 <= i < |args| => ArgText(e, c, strMaxLen, args[i]).value)
  }

  /** `args.map(...).join(' ')`: the texts of the arguments in order, separated by single
      spaces, or `None` when rendering or joining throws. */
  function Content(e: Env, c: Collaborators, strMaxLen: Option<int>, args: seq<Value>): (r: Option<string>)
    ensures r.Some? <==> forall i :: 0 <= i < |args| ==> ArgText(e, c, strMaxLen, args[i]).Some?
    ensures r.Some? ==> r.value == Join(ArgTexts(e, c, strMaxLen, args), " ")
    ensures r.Some? ==> forall i :: 0 <= i < |args| ==> Contains(r.value, ArgText(e, c, strMaxLen, args[i]).value)
  {
    var xs := seq(|args|, i requires 0 <= i < |args| => ArgText(e, c, strMaxLen, args[i]));
    assert forall i :: 0 <= i < |args| ==> xs[i] == ArgText(e, c, strMaxLen, args[i]);
    match AllSome(xs)
    case None => None
    case Some(ts) =>
      assert ts == ArgTexts(e, c, strMaxLen, args);
      assert forall i :: 0 <= i < |args| ==> Contains(Join(ts, " "), ts[i]) by {
        forall i | 0 <= i < |args| ensures Contains(Join(ts, " "), ts[i]) {
          JoinContains(ts, " ", i);
        }
      }
      Some(Join(ts, " "))
  }

  /** The content line of two non-empty runs of arguments is their content lines with one
      space between them; it fails exactly when one of them does. */
  lemma ContentAppend(e: Env, c: Collaborators, strMaxLen: Option<int>, xs: seq<Value>, ys: seq<Value>)
    requires |xs| >= 1 && |ys| >= 1
    ensures Content(e, c, strMaxLen, xs + ys).Some? <==>
      Content(e, c, strMaxLen, xs).Some? && Content(e, c, strMaxLen, ys).Some?
    ensures Content(e, c, strMaxLen, xs + ys).Some? ==>
      Content(e, c, strMaxLen, xs + ys).value ==
        Content(e, c, strMaxLen, xs).value + " " + Content(e, c, strMaxLen, ys).value
  {
    var zs := xs + ys;
    if Content(e, c, strMaxLen, zs).Some? {
      ArgTextsAppend(e, c, strMaxLen, xs, ys);
      JoinAppend(ArgTexts(e, c, strMaxLen, xs), ArgTexts(e, c, strMaxLen, ys), " ");
    } else {
      var k :| 0 <= k < |zs| && ArgText(e, c, strMaxLen, zs[k]).None?;
      if k < |xs| {
        assert zs[k] == xs[k];
      } else {
        assert zs[k] == ys[k - |xs|];
      }
    }
  }

  /** The texts of two runs of arguments placed one after the other. */
  lemma ArgTextsAppend(e: Env, c: Collaborators, strMaxLen: Option<int>, xs: seq<Value>, ys: seq<Value>)
    requires forall i :: 0 <= i < |xs + ys| ==> ArgText(e, c, strMaxLen, (xs + ys)[i]).Some?
    ensures forall i :: 0 <= i < |xs| ==> ArgText(e, c, strMaxLen, xs[i]).Some?
    ensures forall i :: 0 <= i < |ys| ==> ArgText(e, c, strMaxLen, ys[i]).Some?
    ensures ArgTexts(e, c, strMaxLen, xs + ys) == ArgTexts(e, c, strMaxLen, xs) + ArgTexts(e, c, strMaxLen, ys)
  {
    var zs := xs + ys;
    forall i | 0 <= i < |xs| ensures ArgText(e, c, strMaxLen, xs[i]).Some? {
      assert xs[i] == zs[i];
    }
    forall i | 0 <= i < |ys| ensures ArgText(e, c, strMaxLen, ys[i]).Some? {
      assert ys[i] == zs[|xs| + i];
    }
    var tz, tx, ty := ArgTexts(e, c, strMaxLen, zs), ArgTexts(e, c, strMaxLen, xs), ArgTexts(e, c, strMaxLen, ys);
    forall i | 0 <= i < |zs| ensures tz[i] == (tx + ty)[i] {
      if i < |xs| {
        assert zs[i] == xs[i];
      } else {
        assert zs[i] == ys[i - |xs|];
      }
    }
  }

  /** An argument fails the call exactly when it is a Symbol (`join` cannot convert it) or an
      error whose `stack` is one (the template literal cannot). */
  lemma ArgTextFails(e: Env, c: Collaborators, strMaxLen: Option<int>, v: Value)
    ensures ArgText(e, c, strMaxLen, v).None? <==>
      v.Symbol? || (v.Error? && exists k :: 0 <= k < |v.props| && v.props[k].key == "stack" && v.props[k].value.Symbol?)
  {
  }

  /** With one argument, the content line is that argument's text. */
  lemma ContentOfOne(e: Env, c: Collaborators, strMaxLen: Option<int>, v: Value)
    ensures Content(e, c, strMaxLen, [v]) == ArgText(e, c, strMaxLen, v)
  {
    var xs := seq(1, i requires 0 <= i < 1 => ArgText(e, c, strMaxLen, [v][i]));
    assert xs == [ArgText(e, c, strMaxLen, v)];
  }

  // ---------------------------------------------------------------------------
  // Dates

  /** The local-time fields of the current date, as the `Date` getters return them
      (`monthIndex` is `getMonth()`, counted from 0). */
  datatype DateFields = DateFields(
    year: nat, monthIndex: nat, day: nat, hours: nat, minutes: nat, seconds: nat, millis: nat)

  /** `('0' + v).slice(-width)`: the last `width` characters of the decimal form of `v`
      with one `0` in front, or all of it when that is shorter. */
  function Pad(v: nat, width: nat): (r: string)
    requires width >= 1
    ensures AllDigits(r)
    ensures |r| == if width <= |NatToString(v)| + 1 then width else |NatToString(v)| + 1
    ensures r == ("0" + NatToString(v))[|NatToString(v)| + 1 - |r|..]
  {
    var z := "0" + NatToString(v);
    SliceLast(z, width);
    SliceFrom(z, -(width as int))
  }

  /** `formatDate(formatStr)`: the FIRST occurrence of each token is replaced, in the order
      YYYY, YY, MM, DD, HH, mm, ss, SSS. */
  function FormatDate(template: string, d: DateFields): (r: string)
    ensures TokenFree(template) ==> r == template
    ensures Untokened(template) ==> r == template
  {
    FormatDateKeepsTokenFree(template, d);
    FormatDateKeepsPlainText(template, d);
    FormatDateSteps(template, d)
  }

  /** None of the eight tokens of `formatDate` occurs in `s`. */
  predicate TokenFree(s: string) {
    && !Contains(s, "YYYY") && !Contains(s, "YY") && !Contains(s, "MM") && !Contains(s, "DD")
    && !Contains(s, "HH") && !Contains(s, "mm") && !Contains(s, "ss") && !Contains(s, "SSS")
  }

  /** A template holding none of the tokens comes through the chain unchanged: each
      `replace` finds nothing. */
  lemma FormatDateKeepsTokenFree(template: string, d: DateFields)
    ensures TokenFree(template) ==> FormatDateSteps(template, d) == template
  {
    if TokenFree(template) {
      ReplaceFirstMissing(template, "YYYY", Pad(d.year, 4));
      ReplaceFirstMissing(template, "YY", Pad(d.year, 2));
      ReplaceFirstMissing(template, "MM", Pad(d.monthIndex + 1, 2));
      ReplaceFirstMissing(template, "DD", Pad(d.day, 2));
      ReplaceFirstMissing(template, "HH", Pad(d.hours, 2));
      ReplaceFirstMissing(template, "mm", Pad(d.minutes, 2));
      ReplaceFirstMissing(template, "ss", Pad(d.seconds, 2));
      ReplaceFirstMissing(template, "SSS", Pad(d.millis, 3));
    }
  }

  /** A template with no token characters comes through the chain unchanged. */
  lemma FormatDateKeepsPlainText(template: string, d: DateFields)
    ensures Untokened(template) ==> FormatDateSteps(template, d) == template
  {
    if Untokened(template) {
      ReplaceFirstAbsent(template, "YYYY", Pad(d.year, 4));
      ReplaceFirstAbsent(template, "YY", Pad(d.year, 2));
      ReplaceFirstAbsent(template, "MM", Pad(d.monthIndex + 1, 2));
      ReplaceFirstAbsent(template, "DD", Pad(d.day, 2));
      ReplaceFirstAbsent(template, "HH", Pad(d.hours, 2));
      ReplaceFirstAbsent(template, "mm", Pad(d.minutes, 2));
      ReplaceFirstAbsent(template, "ss", Pad(d.seconds, 2));
      ReplaceFirstAbsent(template, "SSS", Pad(d.millis, 3));
    }
  }

  /** The chain of `replace` calls of `formatDate`. */
  function FormatDateSteps(template: string, d: DateFields): string {
    var s1 := ReplaceFirst(template, "YYYY", Pad(d.year, 4));
    var s2 := ReplaceFirst(s1, "YY", Pad(d.year, 2));
    var s3 := ReplaceFirst(s2, "MM", Pad(d.monthIndex + 1, 2));
    var s4 := ReplaceFirst(s3, "DD", Pad(d.day, 2));
    var s5 := ReplaceFirst(s4, "HH", Pad(d.hours, 2));
    var s6 := ReplaceFirst(s5, "mm", Pad(d.minutes, 2));
    var s7 := ReplaceFirst(s6, "ss", Pad(d.seconds, 2));
    ReplaceFirst(s7, "SSS", Pad(d.millis, 3))
  }

  /** The template of cluster mode. */
  const ClusterTemplate: string := "YYYY-MM-DD HH:mm:ss.SSS"

  /** The template of interactive and production mode. */
  const CompactTemplate: string := "YYMMDD/HHmmss.SSS"

  /** The cluster-mode date layout `YYYY-MM-DD HH:mm:ss.SSS`, field by field. */
  function ClusterStamp(d: DateFields): string {
    Pad(d.year, 4) + "-" + Pad(d.monthIndex + 1, 2) + "-" + Pad(d.day, 2) + " "
    + Pad(d.hours, 2) + ":" + Pad(d.minutes, 2) + ":" + Pad(d.seconds, 2) + "." + Pad(d.millis, 3)
  }

  /** The date layout `YYMMDD/HHmmss.SSS` of the other modes, field by field. */
  function CompactStamp(d: DateFields): string {
    Pad(d.year, 2) + Pad(d.monthIndex + 1, 2) + Pad(d.day, 2) + "/"
    + Pad(d.hours, 2) + Pad(d.minutes, 2) + Pad(d.seconds, 2) + "." + Pad(d.millis, 3)
  }

  /** A two-wide field (month, day, hours, minutes, seconds, the short year) is always two
      digits wide and denotes the value modulo 100: values 0 to 99 come out unchanged. */
  lemma PadTwoDigits(v: nat)
    ensures |Pad(v, 2)| == 2
    ensures ParseDigits(Pad(v, 2)) == v % 100
  {
    var dec := NatToString(v);
    var r := Pad(v, 2);
    if v < 10 {
      assert r == "0" + dec;
      ParseTwo(r);
    } else {
      assert r == dec[|dec| - 2..];
      LastDigit(v / 10);
      assert dec == NatToString(v / 10) + [DigitChar(v % 10)];
      assert r[0] == DigitChar((v / 10) % 10);
      ParseTwo(r);
    }
  }

  /** The milliseconds field is three digits wide from 10 on, but only two below 10; it
      always denotes the milliseconds themselves. */
  lemma PadMillis(ms: nat)
    requires ms < 1000
    ensures |Pad(ms, 3)| == if ms < 10 then 2 else 3
    ensures ParseDigits(Pad(ms, 3)) == ms
  {
    var dec := NatToString(ms);
    NatToStringWidth(ms);
    ParseNatToString(ms);
    if ms < 100 {
      assert Pad(ms, 3) == "0" + dec;
      ParseLeadingZero(dec);
    } else {
      assert Pad(ms, 3) == dec;
    }
  }

  /** A four-digit year comes out as itself. */
  lemma PadYear(year: nat)
    requires 1000 <= year < 10000
    ensures Pad(year, 4) == NatToString(year)
    ensures ParseDigits(Pad(year, 4)) == year
  {
    NatToStringWidth(year);
    ParseNatToString(year);
    assert ("0" + NatToString(year))[1..] == NatToString(year);
  }

  /** No character of `s` starts a date token. */
  predicate Untokened(s: string) {
    'Y' !in s && 'M' !in s && 'D' !in s && 'H' !in s && 'm' !in s && 's' !in s && 'S' !in s
  }

  /** Appending a separator and a field of digits keeps a prefix untokened. */
  lemma UntokenedAppend(p: string, sep: string, x: string)
    requires Untokened(p) && Untokened(sep) && AllDigits(x)
    ensures Untokened(p + sep + x)
  {
    NotInDigits(x, 'Y'); NotInDigits(x, 'M'); NotInDigits(x, 'D'); NotInDigits(x, 'H');
    NotInDigits(x, 'm'); NotInDigits(x, 's'); NotInDigits(x, 'S');
  }

  /** Appending a field of digits keeps a prefix untokened. */
  lemma UntokenedExtend(p: string, x: string)
    requires Untokened(p) && AllDigits(x)
    ensures Untokened(p + x)
  {
    NotInDigits(x, 'Y'); NotInDigits(x, 'M'); NotInDigits(x, 'D'); NotInDigits(x, 'H');
    NotInDigits(x, 'm'); NotInDigits(x, 's'); NotInDigits(x, 'S');
  }

  /** One step of `formatDate`: after an untokened prefix `p`, the rest of the template is
      `sep + t + rest`, and the token `t` right after `sep` is the one replaced. */
  lemma TokenStep(p: string, lit: string, sep: string, t: string, rest: string, rep: string)
    requires lit == sep + t + rest
    requires Untokened(p) && Untokened(sep) && |t| > 0 && t[0] in "YMDHmsS"
    ensures ReplaceFirst(p + lit, t, rep) == p + sep + rep + rest
  {
    assert p + lit == (p + sep) + t + rest;
    ReplaceFirstAfter(p + sep, t, rest, rep);
  }

  /** The first step of `formatDate` when the template starts with the token. */
  lemma TokenFirst(lit: string, t: string, rest: string, rep: string)
    requires lit == t + rest && |t| > 0
    ensures ReplaceFirst(lit, t, rep) == rep + rest
  {
    assert lit == "" + t + rest;
    ReplaceFirstAfter("", t, rest, rep);
    assert "" + rep + rest == rep + rest;
  }

  /** A step of `formatDate` whose token follows the prefix `p` directly. */
  lemma TokenNext(p: string, lit: string, t: string, rest: string, rep: string)
    requires lit == t + rest
    requires Untokened(p) && |t| > 0 && t[0] in "YMDHmsS"
    ensures ReplaceFirst(p + lit, t, rep) == p + rep + rest
  {
    assert p + lit == p + t + rest;
    ReplaceFirstAfter(p, t, rest, rep);
  }

  /** A step of `formatDate` whose token no longer occurs changes nothing. */
  lemma TokenGone(p: string, lit: string, t: string, rep: string)
    requires Untokened(p) && |t| > 0 && t[0] in "YMDHmsS" && t[0] !in lit
    ensures ReplaceFirst(p + lit, t, rep) == p + lit
  {
    ReplaceFirstAbsent(p + lit, t, rep);
  }

  /** The cluster template splits at its first token, and the year token is not repeated. */
  lemma ClusterHead()
    ensures ClusterTemplate == "YYYY" + "-MM-DD HH:mm:ss.SSS"
    ensures 'Y' !in "-MM-DD HH:mm:ss.SSS"
  {
  }

  /** The pieces of the cluster template between its date tokens. */
  lemma ClusterDatePieces()
    ensures "-MM-DD HH:mm:ss.SSS" == "-" + "MM" + "-DD HH:mm:ss.SSS"
    ensures "-DD HH:mm:ss.SSS" == "-" + "DD" + " HH:mm:ss.SSS"
    ensures " HH:mm:ss.SSS" == " " + "HH" + ":mm:ss.SSS"
  {
  }

  /** The pieces of the cluster template between its time tokens. */
  lemma ClusterTimePieces()
    ensures ":mm:ss.SSS" == ":" + "mm" + ":ss.SSS"
    ensures ":ss.SSS" == ":" + "ss" + ".SSS"
    ensures ".SSS" == "." + "SSS" + ""
  {
  }

  /** The compact template splits at its first token. */
  lemma CompactHead()
    ensures CompactTemplate == "YY" + "MMDD/HHmmss.SSS"
    ensures 'Y' !in "MMDD/HHmmss.SSS"
  {
  }

  /** The four-letter year token does not occur in the compact template. */
  lemma CompactHasNoLongYear()
    ensures !Contains(CompactTemplate, "YYYY")
  {
    var t := CompactTemplate;
    CompactHead();
    forall i | 0 <= i <= |t| ensures !OccursAt(t, "YYYY", i) {
      OccursAtChar(t, "YYYY", i, 2);
      if 2 <= i + 2 < |t| {
        assert t[i + 2] == "MMDD/HHmmss.SSS"[i];
      }
    }
  }

  /** The pieces of the compact template between its date tokens. */
  lemma CompactDatePieces()
    ensures "MMDD/HHmmss.SSS" == "MM" + "DD/HHmmss.SSS"
    ensures "DD/HHmmss.SSS" == "DD" + "/HHmmss.SSS"
    ensures "/HHmmss.SSS" == "/" + "HH" + "mmss.SSS"
  {
  }

  /** The pieces of the compact template between its time tokens. */
  lemma CompactTimePieces()
    ensures "mmss.SSS" == "mm" + "ss.SSS"
    ensures "ss.SSS" == "ss" + ".SSS"
    ensures ".SSS" == "." + "SSS" + ""
  {
  }

  /** The cluster-mode timestamp: every token of `YYYY-MM-DD HH:mm:ss.SSS` is replaced by its
      field; the `YY` step finds nothing left to replace. */
  lemma {:induction false} FormatCluster(d: DateFields)
    ensures FormatDate(ClusterTemplate, d) == ClusterStamp(d)
  {
    var y4, y2 := Pad(d.year, 4), Pad(d.year, 2);
    var mo, dd, hh := Pad(d.monthIndex + 1, 2), Pad(d.day, 2), Pad(d.hours, 2);
    var mi, ss, ms := Pad(d.minutes, 2), Pad(d.seconds, 2), Pad(d.millis, 3);
    ClusterHead();
    ClusterDatePieces();
    ClusterTimePieces();
    TokenFirst(ClusterTemplate, "YYYY", "-MM-DD HH:mm:ss.SSS", y4);
    NotInDigits(y4, 'Y'); NotInDigits(y4, 'M'); NotInDigits(y4, 'D'); NotInDigits(y4, 'H');
    NotInDigits(y4, 'm'); NotInDigits(y4, 's'); NotInDigits(y4, 'S');
    TokenGone(y4, "-MM-DD HH:mm:ss.SSS", "YY", y2);
    TokenStep(y4, "-MM-DD HH:mm:ss.SSS", "-", "MM", "-DD HH:mm:ss.SSS", mo);
    var p := y4 + "-" + mo;
    UntokenedAppend(y4, "-", mo);
    TokenStep(p, "-DD HH:mm:ss.SSS", "-", "DD", " HH:mm:ss.SSS", dd);
    UntokenedAppend(p, "-", dd);
    p := p + "-" + dd;
    TokenStep(p, " HH:mm:ss.SSS", " ", "HH", ":mm:ss.SSS", hh);
    UntokenedAppend(p, " ", hh);
    p := p + " " + hh;
    TokenStep(p, ":mm:ss.SSS", ":", "mm", ":ss.SSS", mi);
    UntokenedAppend(p, ":", mi);
    p := p + ":" + mi;
    TokenStep(p, ":ss.SSS", ":", "ss", ".SSS", ss);
    UntokenedAppend(p, ":", ss);
    p := p + ":" + ss;
    TokenStep(p, ".SSS", ".", "SSS", "", ms);
    assert p + "." + ms + "" == p + "." + ms;
  }

  /** The interactive and production timestamp: `YYYY` does not occur in
      `YYMMDD/HHmmss.SSS`, so the year shows as its last two digits. */
  lemma {:induction false} FormatCompact(d: DateFields)
    ensures FormatDate(CompactTemplate, d) == CompactStamp(d)
  {
    var y4, y2 := Pad(d.year, 4), Pad(d.year, 2);
    var mo, dd, hh := Pad(d.monthIndex + 1, 2), Pad(d.day, 2), Pad(d.hours, 2);
    var mi, ss, ms := Pad(d.minutes, 2), Pad(d.seconds, 2), Pad(d.millis, 3);
    var t := CompactTemplate;
    CompactHead();
    CompactHasNoLongYear();
    CompactDatePieces();
    CompactTimePieces();
    ReplaceFirstMissing(t, "YYYY", y4);
    TokenFirst(t, "YY", "MMDD/HHmmss.SSS", y2);
    NotInDigits(y2, 'Y'); NotInDigits(y2, 'M'); NotInDigits(y2, 'D'); NotInDigits(y2, 'H');
    NotInDigits(y2, 'm'); NotInDigits(y2, 's'); NotInDigits(y2, 'S');
    TokenNext(y2, "MMDD/HHmmss.SSS", "MM", "DD/HHmmss.SSS", mo);
    UntokenedExtend(y2, mo);
    var p := y2 + mo;
    TokenNext(p, "DD/HHmmss.SSS", "DD", "/HHmmss.SSS", dd);
    UntokenedExtend(p, dd);
    p := p + dd;
    TokenStep(p, "/HHmmss.SSS", "/", "HH", "mmss.SSS", hh);
    UntokenedAppend(p, "/", hh);
    p := p + "/" + hh;
    TokenNext(p, "mmss.SSS", "mm", "ss.SSS", mi);
    UntokenedExtend(p, mi);
    p := p + mi;
    TokenNext(p, "ss.SSS", "ss", ".SSS", ss);
    UntokenedExtend(p, ss);
    p := p + ss;
    TokenStep(p, ".SSS", ".", "SSS", "", ms);
    assert p + "." + ms + "" == p + "." + ms;
  }
}
