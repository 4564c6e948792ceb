/** The O1 commands of the telnet server: `o1 config` reads five named
    numeric parameters from its argument text, `o1 bwconfig` selects one
    of four bandwidth presets. The argument is the command text up to its
    terminating NUL; `end` is its length. */
module TelnetO1 {
  import opened Common
  import Arithmetic

  // ---------------------------------------------------------------
  // Character classes of <ctype.h> in the C locale
  // ---------------------------------------------------------------

  /** isspace: blank, tab, newline, vertical tab, form feed, return. */
  predicate IsSpace(c: char)
  {
    c == ' ' || 9 <= c as int <= 13
  }

  predicate IsDigit(c: char)
  {
    48 <= c as int <= 57
  }

  predicate AllSpaces(s: string)
  {
    forall k :: 0 <= k < |s| ==> IsSpace(s[k])
  }

  predicate AllDigits(s: string)
  {
    forall k :: 0 <= k < |s| ==> IsDigit(s[k])
  }

  /** The first position at or after i that is not a space. */
  function SkipSpaces(s: string, i: nat): (j: nat)
    requires i <= |s|
    ensures i <= j <= |s|
    decreases |s| - i
  {
    if i < |s| && IsSpace(s[i]) then SkipSpaces(s, i + 1) else i
  }

  /** The first position at or after i that is not a digit. */
  function SkipDigits(s: string, i: nat): (j: nat)
    requires i <= |s|
    ensures i <= j <= |s|
    decreases |s| - i
  {
    if i < |s| && IsDigit(s[i]) then SkipDigits(s, i + 1) else i
  }

  /** A prefix before a text shifts where a skip in it ends. */
  lemma {:induction false} SkipSpacesShift(p: string, t: string, i: nat)
    requires i <= |t|
    ensures SkipSpaces(p + t, |p| + i) == |p| + SkipSpaces(t, i)
    decreases |t| - i
  {
    if i < |t| {
      assert (p + t)[|p| + i] == t[i];
      SkipSpacesShift(p, t, i + 1);
    }
  }

  lemma {:induction false} SkipDigitsShift(p: string, t: string, i: nat)
    requires i <= |t|
    ensures SkipDigits(p + t, |p| + i) == |p| + SkipDigits(t, i)
    decreases |t| - i
  {
    if i < |t| {
      assert (p + t)[|p| + i] == t[i];
      SkipDigitsShift(p, t, i + 1);
    }
  }

  /** Skipping from inside a run of spaces passes all of it. */
  lemma {:induction false} SkipSpacesRun(pre: string, t: string, i: nat)
    requires AllSpaces(pre) && i <= |pre|
    ensures SkipSpaces(pre + t, i) == |pre| + SkipSpaces(t, 0)
    decreases |pre| - i
  {
    if i < |pre| {
      assert (pre + t)[i] == pre[i];
      SkipSpacesRun(pre, t, i + 1);
    } else {
      SkipSpacesShift(pre, t, 0);
    }
  }

  /** Skipping from inside a run of digits stops at its end when a
    * non-digit follows. */
  lemma {:induction false} SkipDigitsRun(ds: string, t: string, i: nat)
    requires AllDigits(ds) && i <= |ds| && (t == [] || !IsDigit(t[0]))
    ensures SkipDigits(ds + t, i) == |ds|
    decreases |ds| - i
  {
    if i < |ds| {
      assert (ds + t)[i] == ds[i];
      SkipDigitsRun(ds, t, i + 1);
    } else if t != [] {
      assert (ds + t)[i] == t[0];
    }
  }


  // ---------------------------------------------------------------
  // Decimal numerals and sscanf("%ld")
  // ---------------------------------------------------------------

  const LongMax := 0x7FFF_FFFF_FFFF_FFFF
  const LongMin := -0x8000_0000_0000_0000

  /** strtol's clamping of an out-of-range numeral to LONG_MIN or
    * LONG_MAX. */
  function Saturate(x: int): (r: int)
    ensures LongMin <= r <= LongMax
    ensures LongMin <= x <= LongMax ==> r == x
  {
    if x > LongMax then LongMax else if x < LongMin then LongMin else x
  }

  function DigitValue(c: char): nat
  {
    if IsDigit(c) then (c as int) - ('0' as int) else 0
  }

  /** The value of the numeral s[d..e], most significant digit first. */
  function DigitsValue(s: string, d: nat, e: nat): nat
    requires d <= e <= |s|
    decreases e - d
  {
    if e == d then 0 else 10 * DigitsValue(s, d, e - 1) + DigitValue(s[e - 1])
  }

  /** A numeral's value does not depend on the text after it. */
  lemma {:induction false} DigitsValuePrefix(a: string, b: string, d: nat, e: nat)
    requires d <= e <= |a|
    ensures DigitsValue(a + b, d, e) == DigitsValue(a, d, e)
    decreases e - d
  {
    if e > d {
      assert (a + b)[e - 1] == a[e - 1];
      DigitsValuePrefix(a, b, d, e - 1);
    }
  }

  /** ... nor on the text before it. */
  lemma {:induction false} DigitsValueShift(p: string, t: string, d: nat, e: nat)
    requires d <= e <= |t|
    ensures DigitsValue(p + t, |p| + d, |p| + e) == DigitsValue(t, d, e)
    decreases e - d
  {
    if e > d {
      assert (p + t)[|p| + e - 1] == t[e - 1];
      DigitsValueShift(p, t, d, e - 1);
    }
  }

  function DigitChar(d: nat): (c: char)
    requires d < 10
    ensures IsDigit(c) && DigitValue(c) == d
  {
    (('0' as int) + d) as char
  }

  /** The shortest numeral of n, as printf("%ld") writes it. */
  function Decimal(n: nat): (s: string)
    ensures |s| >= 1
  {
    if n < 10 then [DigitChar(n)] else Decimal(n / 10) + [DigitChar(n % 10)]
  }

  /** A numeral is all digits and reads back as its value. */
  lemma {:induction false} DecimalValue(n: nat)
    ensures AllDigits(Decimal(n)) && DigitsValue(Decimal(n), 0, |Decimal(n)|) == n
  {
    if n >= 10 {
      var a := Decimal(n / 10);
      DecimalValue(n / 10);
      DigitsValuePrefix(a, [DigitChar(n % 10)], 0, |a|);
    }
  }

  function RenderLong(v: int): string
  {
    if v < 0 then "-" + Decimal(-v) else Decimal(v)
  }

  /** Length of an optional sign at position i. */
  function SignLength(s: string, i: nat): (n: nat)
    requires i < |s|
    ensures n <= 1 && i + n <= |s|
  {
    if s[i] == '-' || s[i] == '+' then 1 else 0
  }

  /** sscanf(s + i, "%ld"): an optional sign and at least one digit;
    * None when nothing converts. */
  function ScanLong(s: string, i: nat): (r: Option<int>)
    requires i < |s|
    ensures r.Some? ==> LongMin <= r.value <= LongMax
  {
    var d := i + SignLength(s, i);
    var e := SkipDigits(s, d);
    if e == d then None
    else
      var magnitude := DigitsValue(s, d, e);
      Some(Saturate(if s[i] == '-' then -(magnitude as int) else magnitude))
  }

  // ---------------------------------------------------------------
  // read_long
  // ---------------------------------------------------------------

  /** A value and the offset just past it. */
  datatype Parsed = Parsed(value: int, next: nat)

  /** The digit skip after sscanf: as written it starts at the sign, the
    * corrected reader skips the sign first. */
  datatype Reader = AsWritten | SignAware

  /** read_long(buf, end, id, &val): spaces, the id, spaces, a number;
    * None stands for the -1 return. */
  function ReadLong(reader: Reader, buf: string, id: string): (r: Option<Parsed>)
    ensures r.Some? ==> r.value.next <= |buf| && LongMin <= r.value.value <= LongMax
  {
    var c := SkipSpaces(buf, 0);
    if c + |id| >= |buf| then None
    else if buf[c..c + |id|] != id then None
    else
      var d := SkipSpaces(buf, c + |id|);
      if d >= |buf| then None
      else match ScanLong(buf, d)
        case None => None
        case Some(v) =>
          var from := if reader == AsWritten then d else d + SignLength(buf, d);
          Some(Parsed(v, SkipDigits(buf, from)))
  }

  function Spaces(n: nat): (s: string)
    ensures |s| == n && AllSpaces(s)
  {
    if n == 0 then [] else [' '] + Spaces(n - 1)
  }

  /** An id read_long can find: it neither starts with a space nor a
    * digit. */
  predicate GoodId(id: string)
  {
    |id| > 0 && !IsSpace(id[0]) && !IsDigit(id[0])
  }

  /** What may follow a number without extending it. */
  predicate Delimits(rest: string)
  {
    rest == [] || !IsDigit(rest[0])
  }

  /** A field (spaces, the id, spaces and the numeral of v) followed by
    * the text after it. */
  function FieldThen(before: nat, id: string, between: nat, v: int, rest: string): (s: string)
    ensures |s| == before + |id| + between + |RenderLong(v)| + |rest|
  {
    Spaces(before) + (id + (Spaces(between) + (RenderLong(v) + rest)))
  }

  /** The digits of n followed by a delimiter: where they end and what
    * they are worth. */
  lemma ScanDigits(n: nat, rest: string)
    requires Delimits(rest)
    ensures var s := Decimal(n) + rest;
      0 < |s| && IsDigit(s[0])
      && SkipDigits(s, 0) == |Decimal(n)|
      && DigitsValue(s, 0, |Decimal(n)|) == n
  {
    var ds := Decimal(n);
    DecimalValue(n);
    SkipDigitsRun(ds, rest, 0);
    assert (ds + rest)[0] == ds[0];
    DigitsValuePrefix(ds, rest, 0, |ds|);
  }

  lemma ScanNegative(n: nat, rest: string)
    requires 0 < n <= -LongMin && Delimits(rest)
    ensures var s := RenderLong(-(n as int)) + rest;
      0 < |s| && s[0] == '-' && SignLength(s, 0) == 1
      && ScanLong(s, 0) == Some(-(n as int))
      && SkipDigits(s, 1) == |RenderLong(-(n as int))|
  {
    var ds := Decimal(n);
    var t := ds + rest;
    assert RenderLong(-(n as int)) + rest == "-" + t;
    ScanDigits(n, rest);
    MinusThenDigits(t, |ds|, n);
  }

  /** A minus sign before k digits worth n. */
  lemma MinusThenDigits(t: string, k: nat, n: nat)
    requires 0 < k <= |t| && SkipDigits(t, 0) == k && DigitsValue(t, 0, k) == n && n <= -LongMin
    ensures var s := "-" + t;
      SignLength(s, 0) == 1 && ScanLong(s, 0) == Some(-(n as int)) && SkipDigits(s, 1) == 1 + k
  {
    var s := "-" + t;
    SkipDigitsShift("-", t, 0);
    DigitsValueShift("-", t, 0, k);
    assert SkipDigits(s, 1) == 1 + k;
    assert DigitsValue(s, 1, 1 + k) == n;
  }

  lemma ScanNonNegative(n: nat, rest: string)
    requires n <= LongMax && Delimits(rest)
    ensures var s := RenderLong(n) + rest;
      0 < |s| && IsDigit(s[0]) && SignLength(s, 0) == 0
      && ScanLong(s, 0) == Some(n)
      && SkipDigits(s, 0) == |RenderLong(n)|
  {
    ScanDigits(n, rest);
  }

  /** What read_long sees from position i of t: spaces up to d, then
    * sscanf's value v; the digit skip from after the sign ends at
    * signEnd, the one from d itself at rawEnd. */
  predicate NumberAt(t: string, i: nat, d: nat, v: int, signEnd: nat, rawEnd: nat)
    requires i <= |t|
  {
    SkipSpaces(t, i) == d && d < |t| && ScanLong(t, d) == Some(v)
    && SkipDigits(t, d + SignLength(t, d)) == signEnd && SkipDigits(t, d) == rawEnd
  }

  /** sscanf on a rendered numeral: its value, and where the digits end
    * counted from after the sign and from the sign itself. */
  lemma ScanRendered(v: int, rest: string)
    requires LongMin <= v <= LongMax && Delimits(rest)
    ensures var s := RenderLong(v) + rest;
      0 < |s| && !IsSpace(s[0])
      && NumberAt(s, 0, 0, v, |RenderLong(v)|, if v < 0 then 0 else |RenderLong(v)|)
  {
    if v < 0 {
      ScanNegative(-v, rest);
    } else {
      ScanNonNegative(v, rest);
    }
  }

  /** Everything read_long looks at from position i of t is the same
    * from position j == |p| + i of p + t. */
  lemma ShiftRead(p: string, t: string, i: nat, j: nat)
    requires i < |t| && j == |p| + i
    ensures SignLength(p + t, j) == SignLength(t, i)
    ensures ScanLong(p + t, j) == ScanLong(t, i)
    ensures SkipDigits(p + t, j) == |p| + SkipDigits(t, i)
    ensures SkipDigits(p + t, j + SignLength(t, i)) == |p| + SkipDigits(t, i + SignLength(t, i))
  {
    assert (p + t)[j] == t[i];
    var d := i + SignLength(t, i);
    SkipDigitsShift(p, t, i);
    SkipDigitsShift(p, t, d);
    DigitsValueShift(p, t, d, SkipDigits(t, d));
  }

  /** NumberAt under a prefix p: every position moves by |p|. */
  lemma NumberAtShift(p: string, t: string, i: nat, d: nat, v: int, signEnd: nat, rawEnd: nat,
                      i2: nat, d2: nat, signEnd2: nat, rawEnd2: nat)
    requires i <= |t| && NumberAt(t, i, d, v, signEnd, rawEnd)
    requires i2 == |p| + i && d2 == |p| + d && signEnd2 == |p| + signEnd && rawEnd2 == |p| + rawEnd
    ensures i2 <= |p + t| && NumberAt(p + t, i2, d2, v, signEnd2, rawEnd2)
  {
    SkipSpacesShift(p, t, i);
    ShiftRead(p, t, d, d2);
  }

  /** Spaces before a number are skipped. */
  lemma GapThenNumber(g: string, t: string, v: int, signEnd: nat, rawEnd: nat)
    requires AllSpaces(g) && 0 < |t| && NumberAt(t, 0, 0, v, signEnd, rawEnd)
    ensures NumberAt(g + t, 0, |g|, v, |g| + signEnd, |g| + rawEnd)
  {
    SkipSpacesRun(g, t, 0);
    ShiftRead(g, t, 0, |g|);
  }

  /** Leading spaces, the id, then a number d positions after it. */
  lemma IdThenNumber(pre: string, id: string, t: string, d: nat, v: int, signEnd: nat, rawEnd: nat)
    requires AllSpaces(pre) && GoodId(id) && NumberAt(t, 0, d, v, signEnd, rawEnd)
    ensures var buf := pre + (id + t);
      var c := |pre| + |id|;
      SkipSpaces(buf, 0) == |pre| && c < |buf| && buf[|pre|..c] == id
      && NumberAt(buf, c, c + d, v, c + signEnd, c + rawEnd)
  {
    var c := |pre| + |id|;
    IdAfterSpaces(pre, id, t);
    NumberAtShift(id, t, 0, d, v, signEnd, rawEnd, |id|, |id| + d, |id| + signEnd, |id| + rawEnd);
    NumberAtShift(pre, id + t, |id|, |id| + d, v, |id| + signEnd, |id| + rawEnd, c, c + d, c + signEnd, c + rawEnd);
  }

  /** The id sits right after the leading spaces. */
  lemma IdAfterSpaces(pre: string, id: string, t: string)
    requires AllSpaces(pre) && GoodId(id) && 0 < |t|
    ensures var buf := pre + (id + t);
      SkipSpaces(buf, 0) == |pre| && |pre| + |id| < |buf| && buf[|pre|..|pre| + |id|] == id
  {
    var t1 := id + t;
    assert t1[0] == id[0];
    assert SkipSpaces(t1, 0) == 0;
    SkipSpacesRun(pre, t1, 0);
    assert (pre + t1)[|pre|..|pre| + |id|] == id;
  }

  /** read_long once the id and the number have been located. */
  lemma ReadAt(reader: Reader, buf: string, id: string, c: nat, d: nat, v: int, signEnd: nat, rawEnd: nat)
    requires SkipSpaces(buf, 0) == c && c + |id| < |buf| && buf[c..c + |id|] == id
    requires NumberAt(buf, c + |id|, d, v, signEnd, rawEnd)
    ensures ReadLong(reader, buf, id) == Some(Parsed(v, if reader == AsWritten then rawEnd else signEnd))
  {
    var e := c + |id|;
    assert SkipSpaces(buf, e) == d;
    if reader == AsWritten {
      assert SkipDigits(buf, d) == rawEnd;
    } else {
      assert SkipDigits(buf, d + SignLength(buf, d)) == signEnd;
    }
  }

  /** read_long on leading spaces, the id and then a located number. */
  lemma ReadIdThenNumber(reader: Reader, buf: string, pre: string, id: string, t: string, d: nat, v: int,
                         signEnd: nat, rawEnd: nat, next: nat)
    requires buf == pre + (id + t)
    requires AllSpaces(pre) && GoodId(id) && NumberAt(t, 0, d, v, signEnd, rawEnd)
    requires next == |pre| + |id| + (if reader == AsWritten then rawEnd else signEnd)
    ensures ReadLong(reader, buf, id) == Some(Parsed(v, next))
  {
    var c := |pre| + |id|;
    IdThenNumber(pre, id, t, d, v, signEnd, rawEnd);
    ReadAt(reader, buf, id, |pre|, c + d, v, c + signEnd, c + rawEnd);
  }

  /** The number of a field, after the spaces that precede it. */
  lemma NumberAfterGap(between: nat, v: int, rest: string)
    requires LongMin <= v <= LongMax && Delimits(rest)
    ensures NumberAt(Spaces(between) + (RenderLong(v) + rest), 0, between, v,
                     between + |RenderLong(v)|, between + (if v < 0 then 0 else |RenderLong(v)|))
  {
    ScanRendered(v, rest);
    GapThenNumber(Spaces(between), RenderLong(v) + rest, v, |RenderLong(v)|, if v < 0 then 0 else |RenderLong(v)|);
  }

  /** read_long on leading spaces pre, the id, spaces and a numeral. */
  lemma ReadSpacedField(reader: Reader, buf: string, pre: string, id: string, between: nat, v: int, rest: string, next: int)
    requires buf == pre + (id + (Spaces(between) + (RenderLong(v) + rest)))
    requires AllSpaces(pre) && GoodId(id) && LongMin <= v <= LongMax && Delimits(rest)
    requires next == |pre| + |id| + between + (if reader == AsWritten && v < 0 then 0 else |RenderLong(v)|)
    ensures next >= 0 && ReadLong(reader, buf, id) == Some(Parsed(v, next))
  {
    var num := |RenderLong(v)|;
    var raw := if v < 0 then 0 else num;
    NumberAfterGap(between, v, rest);
    ReadIdThenNumber(reader, buf, pre, id, Spaces(between) + (RenderLong(v) + rest), between, v,
                     between + num, between + raw, next);
  }

  /** read_long returns a field's value; the corrected reader's offset
    * is just past the field, the as-written one stops at a minus sign. */
  lemma ReadFieldThen(reader: Reader, before: nat, id: string, between: nat, v: int, rest: string)
    requires GoodId(id) && LongMin <= v <= LongMax && Delimits(rest)
    ensures ReadLong(reader, FieldThen(before, id, between, v, rest), id)
         == Some(Parsed(v, before + |id| + between + (if reader == AsWritten && v < 0 then 0 else |RenderLong(v)|)))
  {
    ReadSpacedField(reader, FieldThen(before, id, between, v, rest), Spaces(before), id, between, v, rest,
                    before + |id| + between + (if reader == AsWritten && v < 0 then 0 else |RenderLong(v)|));
  }

  /** The text after a field's id and spaces (n is that position), or
    * after the whole field. */
  lemma FieldRest(before: nat, id: string, between: nat, v: int, rest: string, n: nat, after: string)
    requires (n == before + |id| + between && after == RenderLong(v) + rest)
          || (n == before + |id| + between + |RenderLong(v)| && after == rest)
    ensures var buf := FieldThen(before, id, between, v, rest);
      n <= |buf| && buf[n..] == after
  {
    var t3 := RenderLong(v) + rest;
    var t2 := Spaces(between) + t3;
    var t1 := id + t2;
    var buf := Spaces(before) + t1;
    var d := before + |id| + between;
    assert buf[d..] == t3;
    if n != d {
      assert t3[|RenderLong(v)|..] == rest;
      assert buf[n..] == t3[|RenderLong(v)|..];
    }
  }

  /** One read_long on a field: its value, the offset returned and the
    * text the next read starts from. */
  lemma ReadFieldNext(reader: Reader, before: nat, id: string, between: nat, v: int, rest: string,
                      buf: string, n: nat, after: string)
    requires GoodId(id) && LongMin <= v <= LongMax && Delimits(rest)
    requires buf == FieldThen(before, id, between, v, rest)
    requires n == before + |id| + between + (if reader == AsWritten && v < 0 then 0 else |RenderLong(v)|)
    requires after == if reader == AsWritten && v < 0 then RenderLong(v) + rest else rest
    ensures ReadLong(reader, buf, id) == Some(Parsed(v, n)) && n <= |buf| && buf[n..] == after
  {
    ReadFieldThen(reader, before, id, between, v, rest);
    FieldRest(before, id, between, v, rest, n, after);
  }

  // ---------------------------------------------------------------
  // set_config
  // ---------------------------------------------------------------

  /** Why a command prints FAILURE and returns 1. */
  datatype Reason = NeedParam | L1Running | CouldNotRead(id: string) | Unhandled(option: string)

  /** A command's result: done, failed with a reason, or an AssertFatal. */
  datatype Reply<+T> = Success(value: T) | Failure(reason: Reason) | Abort

  const SsbFrequency := "nrcelldu3gpp:ssbFrequency"
  const ArfcnDl := "nrcelldu3gpp:arfcnDL"
  const BwDl := "nrcelldu3gpp:bSChannelBwDL"
  const NumberOfRbs := "bwp3gpp:numberOfRBs"
  const StartRb := "bwp3gpp:startRB"

  const ConfigIds := [SsbFrequency, ArfcnDl, BwDl, NumberOfRbs, StartRb]

  /** Reads ids in order, each from the offset the previous read
    * returned; the first one missing is named in the failure. */
  function ReadAll(reader: Reader, text: string, ids: seq<string>): (r: Reply<seq<int>>)
    ensures r.Success? ==> |r.value| == |ids|
    ensures r.Failure? ==> r.reason.CouldNotRead? && r.reason.id in ids
    ensures !r.Abort?
    decreases |ids|
  {
    if ids == [] then Success([])
    else match ReadLong(reader, text, ids[0])
      case None => Failure(CouldNotRead(ids[0]))
      case Some(p) =>
        match ReadAll(reader, text[p.next..], ids[1..])
        case Success(vs) => Success([p.value] + vs)
        case Failure(why) => Failure(why)
        case Abort => Abort
  }

  /** The fields for ids[k], values[k] laid out one after another and
    * followed by rest. */
  function Fields(ids: seq<string>, values: seq<int>, pads: seq<(nat, nat)>, rest: string): string
    requires |values| == |ids| && |pads| == |ids|
    decreases |ids|
  {
    if ids == [] then rest
    else FieldThen(pads[0].0, ids[0], pads[0].1, values[0], Fields(ids[1..], values[1..], pads[1..], rest))
  }

  predicate GoodIds(ids: seq<string>)
  {
    forall k :: 0 <= k < |ids| ==> GoodId(ids[k])
  }

  predicate LongValues(values: seq<int>)
  {
    forall k :: 0 <= k < |values| ==> LongMin <= values[k] <= LongMax
  }

  lemma Tails(ids: seq<string>, values: seq<int>)
    requires 0 < |ids| && 0 < |values| && GoodIds(ids) && LongValues(values)
    ensures GoodIds(ids[1..]) && LongValues(values[1..]) && [values[0]] + values[1..] == values
  {
  }

  lemma FieldsDelimit(ids: seq<string>, values: seq<int>, pads: seq<(nat, nat)>, rest: string)
    requires |values| == |ids| && |pads| == |ids| && GoodIds(ids) && Delimits(rest)
    ensures Delimits(Fields(ids, values, pads, rest))
  {
    if ids != [] {
      var more := Fields(ids[1..], values[1..], pads[1..], rest);
      var s := FieldThen(pads[0].0, ids[0], pads[0].1, values[0], more);
      if pads[0].0 > 0 {
        assert s[0] == Spaces(pads[0].0)[0];
      } else {
        assert s[0] == ids[0][0];
      }
    }
  }

  /** The corrected reader recovers every value of rendered fields. */
  lemma {:induction false} ReadAllFields(ids: seq<string>, values: seq<int>, pads: seq<(nat, nat)>, rest: string)
    requires |values| == |ids| && |pads| == |ids| && GoodIds(ids) && LongValues(values) && Delimits(rest)
    ensures ReadAll(SignAware, Fields(ids, values, pads, rest), ids) == Success(values)
    decreases |ids|
  {
    if ids != [] {
      var buf := Fields(ids, values, pads, rest);
      var more := Fields(ids[1..], values[1..], pads[1..], rest);
      Tails(ids, values);
      FieldsDelimit(ids[1..], values[1..], pads[1..], rest);
      ReadFieldNext(SignAware, pads[0].0, ids[0], pads[0].1, values[0], more, buf, |buf| - |more|, more);
      ReadAllFields(ids[1..], values[1..], pads[1..], rest);
    }
  }

  /** After k rendered fields, a text in which ids[k] cannot be read
    * makes the whole read fail naming ids[k]. */
  lemma {:induction false} ReadAllStopsAtMissing(ids: seq<string>, values: seq<int>, pads: seq<(nat, nat)>, k: nat, rest: string)
    requires k < |ids| && |values| == k && |pads| == k
    requires GoodIds(ids[..k]) && LongValues(values) && Delimits(rest)
    requires ReadLong(SignAware, rest, ids[k]) == None
    ensures ReadAll(SignAware, Fields(ids[..k], values, pads, rest), ids) == Failure(CouldNotRead(ids[k]))
    decreases k
  {
    if k > 0 {
      var tail := ids[1..];
      var first := ids[..k];
      assert first[1..] == tail[..k - 1];
      assert first[0] == ids[0];
      assert tail[k - 1] == ids[k];
      var buf := Fields(first, values, pads, rest);
      var more := Fields(tail[..k - 1], values[1..], pads[1..], rest);
      assert GoodIds(tail[..k - 1]) && LongValues(values[1..]);
      FieldsDelimit(tail[..k - 1], values[1..], pads[1..], rest);
      ReadFieldNext(SignAware, pads[0].0, ids[0], pads[0].1, values[0], more, buf, |buf| - |more|, more);
      ReadAllStopsAtMissing(tail, values[1..], pads[1..], k - 1, rest);
    }
  }

  datatype Config = Config(ssbFrequency: int, arfcnDl: int, bwDl: int, numberOfRbs: int, startRb: int)

  function ConfigValues(c: Config): seq<int>
  {
    [c.ssbFrequency, c.arfcnDl, c.bwDl, c.numberOfRbs, c.startRb]
  }

  /** set_config: a missing argument and a running L1 fail before
    * anything is read; then the five parameters in fixed order. */
  function SetConfig(reader: Reader, running: bool, buf: Option<string>): (r: Reply<Config>)
    ensures buf.None? ==> r == Failure(NeedParam)
    ensures buf.Some? && running ==> r == Failure(L1Running)
    ensures r.Failure? && r.reason.CouldNotRead? ==> r.reason.id in ConfigIds
    ensures !r.Abort?
  {
    if buf.None? then Failure(NeedParam)
    else if running then Failure(L1Running)
    else match ReadAll(reader, buf.value, ConfigIds)
      case Success(v) => Success(Config(v[0], v[1], v[2], v[3], v[4]))
      case Failure(why) => Failure(why)
      case Abort => Abort
  }

  lemma ConfigIdsGood()
    ensures GoodIds(ConfigIds)
  {
    assert GoodId(SsbFrequency) && GoodId(ArfcnDl) && GoodId(BwDl) && GoodId(NumberOfRbs) && GoodId(StartRb);
  }

  /** A stopped modem given the five fields in order gets back exactly
    * their values. */
  lemma SetConfigReadsFields(c: Config, pads: seq<(nat, nat)>, rest: string)
    requires |pads| == 5 && Delimits(rest) && LongValues(ConfigValues(c))
    ensures SetConfig(SignAware, false, Some(Fields(ConfigIds, ConfigValues(c), pads, rest))) == Success(c)
  {
    ConfigIdsGood();
    ReadAllFields(ConfigIds, ConfigValues(c), pads, rest);
  }

  /** No id starting with a letter is found at a sign. */
  lemma NoIdAtSign(reader: Reader, t: string, id: string)
    requires |t| > 0 && t[0] == '-' && GoodId(id) && id[0] != '-'
    ensures ReadLong(reader, t, id) == None
  {
    assert SkipSpaces(t, 0) == 0;
    if |id| < |t| {
      assert t[0..|id|][0] != id[0];
    }
  }

  /** As written, a negative first value makes the read of the second
    * id fail, although its field is present. */
  lemma AsWrittenStopsAfterNegative(ids: seq<string>, values: seq<int>, pads: seq<(nat, nat)>, rest: string)
    requires 2 <= |ids| && |values| == |ids| && |pads| == |ids| && Delimits(rest)
    requires GoodIds(ids) && LongValues(values) && values[0] < 0 && ids[1][0] != '-'
    ensures ReadAll(AsWritten, Fields(ids, values, pads, rest), ids) == Failure(CouldNotRead(ids[1]))
  {
    var tail := ids[1..];
    Tails(ids, values);
    var buf := Fields(ids, values, pads, rest);
    var more := Fields(tail, values[1..], pads[1..], rest);
    FieldsDelimit(tail, values[1..], pads[1..], rest);
    var t := RenderLong(values[0]) + more;
    ReadFieldNext(AsWritten, pads[0].0, ids[0], pads[0].1, values[0], more, buf,
                  pads[0].0 + |ids[0]| + pads[0].1, t);
    assert t[0] == '-';
    NoIdAtSign(AsWritten, t, tail[0]);
  }

  /** As written, a negative SSB frequency makes set_config fail on the
    * downlink ARFCN that follows it, although it is present; the
    * corrected reader accepts the same text (SetConfigReadsFields). */
  lemma AsWrittenNegativeSsbFails(c: Config, pads: seq<(nat, nat)>, rest: string)
    requires |pads| == 5 && Delimits(rest) && c.ssbFrequency < 0 && LongValues(ConfigValues(c))
    ensures SetConfig(AsWritten, false, Some(Fields(ConfigIds, ConfigValues(c), pads, rest)))
         == Failure(CouldNotRead(ArfcnDl))
  {
    ConfigIdsGood();
    AsWrittenStopsAfterNegative(ConfigIds, ConfigValues(c), pads, rest);
  }

  // ---------------------------------------------------------------
  // set_bwconfig
  // ---------------------------------------------------------------

  /** The text before the first occurrence of c, or all of s. */
  function CutAt(s: string, c: char): (r: string)
    ensures c !in r && (r == s || (|r| < |s| && s[|r|] == c && s[..|r|] == r))
  {
    if s == [] then []
    else if s[0] == c then []
    else
      var r := [s[0]] + CutAt(s[1..], c);
      assert s == [s[0]] + s[1..];
      r
  }

  /** The option with the line ending removed: cut at the first newline,
    * then at the first carriage return. */
  function BwOption(buf: string): (r: string)
    ensures '\n' !in r && '\r' !in r
  {
    var s := CutAt(buf, '\n');
    var r := CutAt(s, '\r');
    assert forall k :: 0 <= k < |r| ==> r[k] == s[k];
    r
  }

  /** The serving-cell fields a preset sets: SSB and point A ARFCNs, the
    * carrier bandwidth in RBs (UL and DL), the initial BWP's
    * locationAndBandwidth (UL and DL) and three-quarter sampling. */
  datatype Preset = Preset(ssbArfcn: nat, pointA: nat, carrierRbs: nat, locationAndBandwidth: nat, threeQuarterFs: bool)

  function PresetFor(option: string): (r: Option<Preset>)
    ensures r.Some? <==> option in {"20", "40", "60", "100"}
  {
    if option == "40" then Some(Preset(641280, 640008, 106, 28875, true))
    else if option == "20" then Some(Preset(641280, 640596, 51, 13750, false))
    else if option == "100" then Some(Preset(646668, 643392, 273, 1099, false))
    else if option == "60" then Some(Preset(621984, 620040, 162, 31624, false))
    else None
  }

  /** set_bwconfig: a running L1 and a missing argument fail; an unknown
    * option fails naming it; a configured UL point A (FDD) aborts. */
  function SetBwconfig(running: bool, buf: Option<string>, ulPointAPresent: bool): (r: Reply<Preset>)
    ensures running ==> r == Failure(L1Running)
    ensures !running && buf.None? ==> r == Failure(NeedParam)
    ensures r.Success? <==> !running && buf.Some? && BwOption(buf.value) in {"20", "40", "60", "100"} && !ulPointAPresent
    ensures r.Success? ==> Some(r.value) == PresetFor(BwOption(buf.value))
    ensures r.Abort? <==> !running && buf.Some? && BwOption(buf.value) in {"20", "40", "60", "100"} && ulPointAPresent
  {
    if running then Failure(L1Running)
    else if buf.None? then Failure(NeedParam)
    else match PresetFor(BwOption(buf.value))
      case None => Failure(Unhandled(BwOption(buf.value)))
      case Some(p) => if ulPointAPresent then Abort else Success(p)
  }

  /** Resource indication value of a contiguous allocation of l RBs from
    * start in an n-RB part, TS 38.214 section 5.1.2.2.2. */
  function Riv(n: nat, l: nat, start: nat): nat
    requires 1 <= l && start + l <= n
  {
    if l - 1 <= n / 2 then n * (l - 1) + start else n * (n - l + 1) + (n - 1 - start)
  }

  /** The allocation a RIV stands for, as (length, start). */
  function RivDecode(n: nat, riv: nat): (nat, nat)
    requires n > 0
  {
    var q, s := riv / n, riv % n;
    if q + s < n then (q + 1, s) else (if n + 1 >= q then n + 1 - q else 0, if n - 1 >= s then n - 1 - s else 0)
  }

  /** Decoding a RIV gives back its allocation. */
  lemma RivRoundTrip(n: nat, l: nat, start: nat)
    requires 1 <= l && start + l <= n
    ensures RivDecode(n, Riv(n, l, start)) == (l, start)
  {
    if l - 1 <= n / 2 {
      RivDecodeShort(n, l - 1, start);
    } else {
      RivDecodeLong(n, n - l + 1, n - 1 - start);
    }
  }

  lemma RivDecodeShort(n: nat, q: nat, s: nat)
    requires s < n && q + s < n
    ensures RivDecode(n, n * q + s) == (q + 1, s)
  {
    Arithmetic.DivModUnique(n * q + s, n, q, s);
  }

  lemma RivDecodeLong(n: nat, q: nat, s: nat)
    requires s < n && q + s >= n && q <= n
    ensures RivDecode(n, n * q + s) == (n + 1 - q, n - 1 - s)
  {
    Arithmetic.DivModUnique(n * q + s, n, q, s);
  }

  /** Every preset's initial BWP spans the whole carrier from RB 0 of a
    * 275-RB grid (MAX_BWP_SIZE). */
  lemma PresetsSpanCarrier(option: string)
    requires PresetFor(option).Some?
    ensures var p := PresetFor(option).value;
      1 <= p.carrierRbs <= 275 && p.locationAndBandwidth == Riv(275, p.carrierRbs, 0)
  {
  }
}
