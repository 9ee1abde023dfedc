/** The write casts and read coercions of api/src/lib/appConfig.ts, and what a written value reads back as. */
module ConfigCasts {
  import opened Wrappers

  datatype ConfigType = BooleanType | IntegerType | StringType | TextType

  /** A value handed to `set`; numbers without their fraction digits beyond what truncation drops. */
  datatype Input = Null | Flag(b: bool) | Number(n: real) | Text(s: string)

  /** What the store or the defaults hold. */
  datatype Raw = RawText(s: string) | RawFlag(b: bool)

  datatype Output = NullValue | BoolValue(b: bool) | IntValue(n: int) | TextValue(s: string)

  predicate IsTimespan(key: string) {
    key == "default_workingplan_timespan" || key == "public_workingplan_html_timespan" || key == "public_workingplan_ics_timespan"
  }

  predicate IsSize(key: string) { key == "max_db_mem_size" || key == "max_upload_file_size" }

  const FALSE_TEXTS := {"0", "f", "F", "false", "FALSE", "off", "OFF"}
  const FALLBACK_DAYS := 120

  // ----- decimal text -----------------------------------------------------

  predicate IsDigit(c: char) { '0' <= c <= '9' }

  predicate AllDigits(s: string) { forall i :: 0 <= i < |s| ==> IsDigit(s[i]) }

  function DigitChar(d: nat): (c: char)
    requires d < 10
    ensures IsDigit(c) && DigitOf(c) == d
  {
    '0' + d as char
  }

  function NatText(n: nat): (s: string)
    ensures |s| > 0 && AllDigits(s)
  {
    if n < 10 then [DigitChar(n)] else NatText(n / 10) + [DigitChar(n % 10)]
  }

  /** `String(n)` of an integer. */
  function IntText(n: int): string { if n < 0 then "-" + NatText(-n) else NatText(n) }

  function DigitOf(c: char): nat
    requires IsDigit(c)
  {
    c as int - '0' as int
  }

  function DigitsValue(s: string): nat
    requires AllDigits(s)
  {
    if s == "" then 0 else 10 * DigitsValue(s[..|s| - 1]) + DigitOf(s[|s| - 1])
  }

  lemma {:induction false} NatTextReads(n: nat)
    ensures DigitsValue(NatText(n)) == n
  {
    if n < 10 {
      assert [DigitChar(n)][..0] == "";
    } else {
      var head := NatText(n / 10);
      assert (head + [DigitChar(n % 10)])[..|head|] == head;
      NatTextReads(n / 10);
    }
  }

  function LeadingDigits(s: string): (r: string)
    ensures AllDigits(r) && r <= s
    ensures |r| < |s| ==> !IsDigit(s[|r|])
  {
    if s == "" || !IsDigit(s[0]) then "" else [s[0]] + LeadingDigits(s[1..])
  }

  function TrailingDigits(s: string): (r: string)
    ensures AllDigits(r)
  {
    if s == "" || !IsDigit(s[|s| - 1]) then "" else TrailingDigits(s[..|s| - 1]) + [s[|s| - 1]]
  }

  /** The whitespace of `\\s` and `parseInt`. */
  predicate IsSpace(c: char) {
    || '\t' <= c <= '\r' || c == ' ' || c == '\U{a0}' || c == '\U{1680}' || '\U{2000}' <= c <= '\U{200a}'
    || c == '\U{2028}' || c == '\U{2029}' || c == '\U{202f}' || c == '\U{205f}' || c == '\U{3000}' || c == '\U{feff}'
  }

  function SkipSpaces(s: string): string {
    if s == "" || !IsSpace(s[0]) then s else SkipSpaces(s[1..])
  }

  /** A leading, optionally signed run of digits; 0 without one. */
  function TextToI(s: string): int { SignedValue(SkipSpaces(s)) }

  function SignedValue(t: string): int {
    var signed := t != "" && (t[0] == '-' || t[0] == '+');
    var digits := LeadingDigits(if signed then t[1..] else t);
    if digits == "" then 0 else if t[0] == '-' then -(DigitsValue(digits) as int) else DigitsValue(digits)
  }

  function Trunc(r: real): int { if r < 0.0 then -((-r).Floor) else r.Floor }

  /** `rubyToI`. */
  function ToI(v: Input): int {
    match v
    case Null => 0
    case Flag(_) => 0
    case Number(n) => Trunc(n)
    case Text(s) => TextToI(s)
  }

  // ----- casts ------------------------------------------------------------

  /** `castBoolean` of an input. */
  function CastBoolean(v: Input): Option<bool> {
    match v
    case Null => None
    case Flag(b) => Some(b)
    case Number(n) => Some(n != 0.0)
    case Text(s) => if s == "" then None else Some(s !in FALSE_TEXTS)
  }

  function RawInput(raw: Raw): Input {
    match raw case RawText(s) => Text(s) case RawFlag(b) => Flag(b)
  }

  function RawString(raw: Raw): string {
    match raw case RawText(s) => s case RawFlag(b) => if b then "true" else "false"
  }

  /** The digits right before a last character `c`. */
  function RunBefore(s: string, c: char): (r: string)
    ensures AllDigits(r)
  {
    if s != "" && s[|s| - 1] == c then TrailingDigits(s[..|s| - 1]) else ""
  }

  /** `parseTimespanDays`. */
  function TimespanDays(s: string): nat {
    var months, weeks, days, plain := RunBefore(s, 'm'), RunBefore(s, 'w'), RunBefore(s, 'd'), TrailingDigits(s);
    if months != "" then DigitsValue(months) * 30
    else if weeks != "" then DigitsValue(weeks) * 7
    else if days != "" then DigitsValue(days)
    else if plain != "" then DigitsValue(plain)
    else FALLBACK_DAYS
  }

  /** The first run of digits that is followed by the unit, in either case. */
  function BeforeUnit(s: string, lower: char, upper: char): (r: string)
    ensures AllDigits(r)
    decreases |s|
  {
    if s == "" then ""
    else if IsDigit(s[0]) then
      var run := LeadingDigits(s);
      if |run| < |s| && (s[|run|] == lower || s[|run|] == upper) then run else BeforeUnit(s[|run|..], lower, upper)
    else BeforeUnit(s[1..], lower, upper)
  }

  /** `parseMaxDbMemSize`. */
  function SizeValue(s: string): Output {
    var k, m, g := BeforeUnit(s, 'k', 'K'), BeforeUnit(s, 'm', 'M'), BeforeUnit(s, 'g', 'G');
    if k != "" then IntValue(DigitsValue(k) * 1024)
    else if m != "" then IntValue(DigitsValue(m) * 1024 * 1024)
    else if g != "" then IntValue(DigitsValue(g) * 1024 * 1024 * 1024)
    else TextValue(s)
  }

  /** `castForWrite`; a number written to a text key prints as an integer here. */
  function CastForWrite(t: ConfigType, v: Input): string {
    match t
    case BooleanType => (match CastBoolean(v) case None => "null" case Some(b) => if b then "true" else "false")
    case IntegerType => IntText(ToI(v))
    case _ => (match v case Null => "" case Flag(b) => RawString(RawFlag(b)) case Number(n) => IntText(Trunc(n)) case Text(s) => s)
  }

  function BoolOutput(b: Option<bool>): Output { if b.None? then NullValue else BoolValue(b.value) }

  /** `coerce`. */
  function Coerce(key: string, t: ConfigType, raw: Raw): Output {
    if t == BooleanType then BoolOutput(CastBoolean(RawInput(raw)))
    else if IsTimespan(key) then IntValue(TimespanDays(RawString(raw)))
    else if IsSize(key) then SizeValue(RawString(raw))
    else if t == IntegerType then IntValue(ToI(RawInput(raw)))
    else TextValue(RawString(raw))
  }

  /** What a written value reads back as. */
  function ReadBack(key: string, t: ConfigType, v: Input): Output {
    Coerce(key, t, RawText(CastForWrite(t, v)))
  }

  // ----- round trips ------------------------------------------------------

  lemma {:induction false} LeadingPrefix(digits: string, rest: string)
    requires AllDigits(digits) && (rest != "" ==> !IsDigit(rest[0]))
    ensures LeadingDigits(digits + rest) == digits
  {
    hide IsDigit;
    if digits == "" {
      assert digits + rest == rest;
    } else {
      assert (digits + rest)[0] == digits[0] && (digits + rest)[1..] == digits[1..] + rest;
      LeadingPrefix(digits[1..], rest);
    }
  }

  lemma {:induction false} TrailingSuffix(prefix: string, s: string)
    requires AllDigits(s) && (prefix != "" ==> !IsDigit(prefix[|prefix| - 1]))
    ensures TrailingDigits(prefix + s) == s
  {
    hide IsDigit;
    if s == "" {
      assert prefix + s == prefix;
    } else {
      var n := |s| - 1;
      assert (prefix + s)[|prefix| + n] == s[n] && (prefix + s)[..|prefix| + n] == prefix + s[..n];
      TrailingSuffix(prefix, s[..n]);
      assert s == s[..n] + [s[n]];
    }
  }

  lemma DigitIsNoMark(c: char)
    requires IsDigit(c)
    ensures !IsSpace(c) && c != '-' && c != '+' && c != 'm' && c != 'w' && c != 'd'
  {
  }

  lemma NothingSkipped(s: string)
    requires s != "" && !IsSpace(s[0])
    ensures SkipSpaces(s) == s
  {
  }

  lemma SignedDigits(digits: string, rest: string)
    requires digits != "" && AllDigits(digits) && (rest != "" ==> !IsDigit(rest[0]))
    ensures SignedValue(digits + rest) == DigitsValue(digits)
    ensures SignedValue("-" + (digits + rest)) == -(DigitsValue(digits) as int)
  {
    LeadingPrefix(digits, rest);
    DigitIsNoMark(digits[0]);
    assert (digits + rest)[0] == digits[0];
    assert ("-" + (digits + rest))[1..] == digits + rest;
    hide LeadingDigits; hide DigitsValue; hide IsDigit; hide AllDigits;
  }

  lemma PrintedNatReads(n: nat, rest: string)
    requires rest != "" ==> !IsDigit(rest[0])
    ensures TextToI(NatText(n) + rest) == n
    ensures TextToI("-" + (NatText(n) + rest)) == -(n as int)
  {
    var digits := NatText(n);
    NatTextReads(n);
    SignedDigits(digits, rest);
    DigitIsNoMark(digits[0]);
    assert (digits + rest)[0] == digits[0] && ("-" + (digits + rest))[0] == '-';
    NothingSkipped(digits + rest);
    NothingSkipped("-" + (digits + rest));
    hide NatText; hide IsDigit; hide IsSpace; hide DigitsValue; hide SkipSpaces; hide SignedValue; hide AllDigits;
  }

  /** A printed number followed by anything that is not a digit reads as that number. */
  lemma PrintedReads(n: int, rest: string)
    requires rest != "" ==> !IsDigit(rest[0])
    ensures TextToI(IntText(n) + rest) == n
  {
    hide NatText; hide IsDigit; hide TextToI;
    if n < 0 {
      PrintedNatReads(-n, rest);
      assert IntText(n) + rest == "-" + (NatText(-n) + rest);
    } else {
      PrintedNatReads(n, rest);
    }
  }

  lemma RunBeforeUnit(body: string, unit: char, c: char)
    ensures RunBefore(body + [unit], c) == if unit == c then TrailingDigits(body) else ""
  {
    assert (body + [unit])[..|body|] == body;
    hide TrailingDigits;
  }

  lemma RunBeforeNothing(body: string, c: char)
    requires body != "" && IsDigit(body[|body| - 1]) && !IsDigit(c)
    ensures RunBefore(body, c) == ""
  {
  }

  /** A text that ends in digits, with nothing after them or with a unit, as a number of days. */
  lemma DaysWithUnit(body: string)
    requires body != "" && IsDigit(body[|body| - 1]) && TrailingDigits(body) != ""
    ensures TimespanDays(body) == DigitsValue(TrailingDigits(body))
    ensures TimespanDays(body + "d") == DigitsValue(TrailingDigits(body))
    ensures TimespanDays(body + "w") == DigitsValue(TrailingDigits(body)) * 7
    ensures TimespanDays(body + "m") == DigitsValue(TrailingDigits(body)) * 30
  {
    RunBeforeNothing(body, 'm');
    RunBeforeNothing(body, 'w');
    RunBeforeNothing(body, 'd');
    RunBeforeUnit(body, 'm', 'm');
    RunBeforeUnit(body, 'w', 'm');
    RunBeforeUnit(body, 'w', 'w');
    RunBeforeUnit(body, 'd', 'm');
    RunBeforeUnit(body, 'd', 'w');
    RunBeforeUnit(body, 'd', 'd');
    hide RunBefore; hide TrailingDigits; hide DigitsValue; hide IsDigit; hide AllDigits;
  }

  /** A printed number with nothing after it, or with a unit, as a number of days. */
  lemma PrintedDays(n: int)
    ensures var abs := if n < 0 then -n else n; var s := IntText(n);
            && TimespanDays(s) == abs && TimespanDays(s + "d") == abs
            && TimespanDays(s + "w") == 7 * abs && TimespanDays(s + "m") == 30 * abs
  {
    var digits := NatText(if n < 0 then -n else n);
    var sign := if n < 0 then "-" else "";
    NatTextReads(if n < 0 then -n else n);
    TrailingSuffix(sign, digits);
    assert IntText(n) == sign + digits;
    hide NatText; hide TrailingDigits; hide DigitsValue; hide TimespanDays;
    DaysWithUnit(sign + digits);
  }

  lemma PlainDays(n: int)
    ensures TimespanDays(IntText(n)) == if n < 0 then -n else n
  {
    PrintedDays(n);
  }

  lemma PlainReads(n: int)
    ensures TextToI(IntText(n)) == n
  {
    PrintedReads(n, "");
    assert IntText(n) + "" == IntText(n);
    hide TextToI; hide IntText;
  }

  lemma IntegerCoerced(key: string, s: string)
    requires !IsSize(key)
    ensures Coerce(key, IntegerType, RawText(s)) == IntValue(if IsTimespan(key) then TimespanDays(s) else TextToI(s))
  {
    hide IsTimespan; hide IsSize; hide TimespanDays; hide TextToI;
  }

  /** An integer key reads back the integer that was written, except that a timespan key drops the sign. */
  lemma IntegerReadsBack(key: string, v: Input)
    requires !IsSize(key)
    ensures ReadBack(key, IntegerType, v) == IntValue(if IsTimespan(key) && ToI(v) < 0 then -ToI(v) else ToI(v))
  {
    PlainReads(ToI(v));
    PlainDays(ToI(v));
    IntegerCoerced(key, IntText(ToI(v)));
    hide IntText; hide TimespanDays; hide TextToI; hide IsTimespan; hide IsSize; hide Coerce; hide ToI;
  }

  /** Writing the integer n reads back n exactly when n is not negative or the key is not a timespan. */
  lemma IntegerRoundTripIff(key: string, n: int)
    requires !IsSize(key)
    ensures ReadBack(key, IntegerType, Number(n as real)) == IntValue(n) <==>
              n >= 0 || key !in ["default_workingplan_timespan", "public_workingplan_html_timespan", "public_workingplan_ics_timespan"]
  {
    assert Trunc(n as real) == n;
    IntegerReadsBack(key, Number(n as real));
  }

  /** A fraction is dropped towards zero; what is no number and no text counts as zero. */
  lemma FractionsAreDropped(key: string, n: real)
    requires !IsSize(key) && !IsTimespan(key)
    ensures var k := ReadBack(key, IntegerType, Number(n));
            k.IntValue? && if n < 0.0 then n <= k.n as real < n + 1.0 && k.n <= 0 else n - 1.0 < k.n as real <= n && k.n >= 0
    ensures ReadBack(key, IntegerType, Null) == IntValue(0) && forall b :: ReadBack(key, IntegerType, Flag(b)) == IntValue(0)
  {
    hide IsSize; hide IsTimespan; hide ReadBack;
    IntegerReadsBack(key, Number(n));
    IntegerReadsBack(key, Null);
    IntegerReadsBack(key, Flag(true));
    IntegerReadsBack(key, Flag(false));
  }

  /** A text key reads back what was written; nothing is the empty text, a flag its word, an integer its digits. */
  lemma TextReadsBack(key: string, t: ConfigType, v: Input)
    requires (t.StringType? || t.TextType?) && !IsSize(key) && !IsTimespan(key)
    ensures var out := ReadBack(key, t, v);
            && out.TextValue?
            && match v
               case Null => out.s == ""
               case Flag(b) => out.s == if b then "true" else "false"
               case Number(n) => TextToI(out.s) == ToI(v)
               case Text(s) => out.s == s
  {
    if v.Number? { PlainReads(ToI(v)); }
    hide IsSize; hide IsTimespan; hide TextToI; hide IntText;
  }

  lemma NoTrailing(s: string)
    requires NoDigits(s)
    ensures TrailingDigits(s) == ""
  {
  }

  /** A timespan without any digit counts as 120 days. */
  lemma NoDigitsFallBack(s: string)
    requires NoDigits(s)
    ensures TimespanDays(s) == 120
  {
    NoTrailing(s);
    if s != "" { NoTrailing(s[..|s| - 1]); }
    hide TrailingDigits; hide DigitsValue;
  }

  /** Minus five days written to a timespan key read back as five. */
  lemma SignIsLost()
    ensures ReadBack("public_workingplan_html_timespan", IntegerType, Number(-5.0)) == IntValue(5)
  {
    assert IsTimespan("public_workingplan_html_timespan") && !IsSize("public_workingplan_html_timespan") by { NotASize(); }
    assert ToI(Number(-5.0)) == -5;
    IntegerReadsBack("public_workingplan_html_timespan", Number(-5.0));
  }

  lemma NotASize()
    ensures !IsSize("public_workingplan_html_timespan")
  {
    assert "public_workingplan_html_timespan"[0] == 'p';
  }

  /** A boolean key reads back the truth of what was written: the flag itself, whether a number is not zero, whether a
      text is none of the words for false.  Null and the empty text, which cast to null, read back as true. */
  lemma BooleanReadsBack(key: string, v: Input)
    ensures BoolOutput(CastBoolean(v)) == NullValue <==> v == Null || v == Text("")
    ensures ReadBack(key, BooleanType, v) == BoolValue(match v
                                                       case Null => true
                                                       case Flag(b) => b
                                                       case Number(n) => n != 0.0
                                                       case Text(s) => s !in ["0", "f", "F", "false", "FALSE", "off", "OFF"])
  {
    assert "true" !in FALSE_TEXTS && "null" !in FALSE_TEXTS && "false" in FALSE_TEXTS;
  }

  /** Saving what was read changes nothing for integer keys: shorthands are read once and stay as days. */
  lemma SavingTheReadValueIsIdle(key: string, raw: Raw)
    requires !IsSize(key)
    ensures var read := Coerce(key, IntegerType, raw);
            read.IntValue? && ReadBack(key, IntegerType, Number(read.n as real)) == read
  {
    var read := Coerce(key, IntegerType, raw);
    assert Trunc(read.n as real) == read.n;
    IntegerReadsBack(key, Number(read.n as real));
  }

  /** The shorthands of a stored timespan. */
  lemma ShorthandDays(n: nat)
    ensures TimespanDays(NatText(n) + "m") == 30 * n && TimespanDays(NatText(n) + "w") == 7 * n
    ensures TimespanDays(NatText(n) + "d") == n
  {
    PrintedDays(n);
    hide TimespanDays; hide NatText;
  }

  /** Writing a shorthand to a timespan key keeps its number and loses its unit. */
  lemma ShorthandIsLostOnWrite(key: string, n: nat, unit: string)
    requires IsTimespan(key) && !IsSize(key) && (unit == "m" || unit == "w" || unit == "d")
    ensures ReadBack(key, IntegerType, Text(NatText(n) + unit)) == IntValue(n)
  {
    assert !IsDigit(unit[0]);
    assert IntText(n) == NatText(n);
    PrintedReads(n, unit);
    hide TextToI; hide NatText; hide IsTimespan; hide IsSize;
    IntegerReadsBack(key, Text(NatText(n) + unit));
  }

  /** No digit stands right before this unit. */
  predicate Unitless(s: string, lower: char, upper: char) {
    forall i :: 0 <= i < |s| - 1 && IsDigit(s[i]) ==> s[i + 1] != lower && s[i + 1] != upper
  }

  /** The search for a unit fails exactly if no digit stands right before it. */
  lemma {:induction false} NoUnitIff(s: string, lower: char, upper: char)
    requires !IsDigit(lower) && !IsDigit(upper)
    ensures BeforeUnit(s, lower, upper) == "" <==> Unitless(s, lower, upper)
    decreases |s|
  {
    if s != "" {
      if IsDigit(s[0]) {
        var run := LeadingDigits(s);
        forall i | 0 <= i < |run| ensures IsDigit(s[i]) { assert s[i] == run[i]; }
        if |run| < |s| && (s[|run|] == lower || s[|run|] == upper) {
          assert IsDigit(s[|run| - 1]) && |run| - 1 + 1 == |run|;
        } else {
          NoUnitIff(s[|run|..], lower, upper);
          UnitlessTail(s, |run|, lower, upper);
        }
      } else {
        NoUnitIff(s[1..], lower, upper);
        UnitlessTail(s, 1, lower, upper);
      }
    }
  }

  lemma UnitlessTail(s: string, k: nat, lower: char, upper: char)
    requires k <= |s| && forall i :: 0 <= i < k && i < |s| - 1 && IsDigit(s[i]) ==> s[i + 1] != lower && s[i + 1] != upper
    ensures Unitless(s, lower, upper) <==> Unitless(s[k..], lower, upper)
  {
    var t := s[k..];
    assert forall i :: k <= i < |s| ==> s[i] == t[i - k];
    if Unitless(s, lower, upper) {
      forall i | 0 <= i < |t| - 1 && IsDigit(t[i]) ensures t[i + 1] != lower && t[i + 1] != upper {
        assert s[k + i] == t[i] && s[k + i + 1] == t[i + 1];
      }
    }
  }

  predicate NoDigits(s: string) { forall i :: 0 <= i < |s| ==> !IsDigit(s[i]) }

  lemma {:induction false} DigitFreePrefix(pre: string, s: string, lower: char, upper: char)
    requires NoDigits(pre)
    ensures BeforeUnit(pre + s, lower, upper) == BeforeUnit(s, lower, upper)
  {
    if pre == "" {
      assert pre + s == s;
    } else {
      assert (pre + s)[0] == pre[0] && (pre + s)[1..] == pre[1..] + s;
      DigitFreePrefix(pre[1..], s, lower, upper);
    }
  }

  lemma UnitAfterDigits(digits: string, unit: char, rest: string, lower: char, upper: char)
    requires AllDigits(digits) && digits != "" && !IsDigit(unit) && NoDigits(rest)
    ensures BeforeUnit(digits + ([unit] + rest), lower, upper) == if unit == lower || unit == upper then digits else ""
  {
    var tail := [unit] + rest;
    var s := digits + tail;
    LeadingPrefix(digits, tail);
    assert s[0] == digits[0] && s[|digits|] == unit && s[|digits|..] == tail;
    DigitFreePrefix(tail, "", lower, upper);
    assert tail + "" == tail;
    hide LeadingDigits; hide AllDigits;
  }

  /** What a unit letter, of either case, stands for. */
  function UnitBytes(unit: char): nat {
    if unit == 'k' || unit == 'K' then 1024
    else if unit == 'm' || unit == 'M' then 1048576
    else if unit == 'g' || unit == 'G' then 1073741824 else 0
  }

  /** A number directly before a unit of either case reads as bytes, whatever digit-free text stands around the two. */
  lemma SizeReads(pre: string, n: nat, unit: char, rest: string)
    requires NoDigits(pre) && NoDigits(rest) && UnitBytes(unit) != 0
    ensures SizeValue(pre + (NatText(n) + ([unit] + rest))) == IntValue(n * UnitBytes(unit))
  {
    NatTextReads(n);
    var digits := NatText(n);
    assert !IsDigit(unit);
    hide BeforeUnit; hide NatText; hide DigitsValue; hide NoDigits; hide AllDigits; hide IsDigit;
    UnitFound(pre, digits, unit, rest, 'k', 'K');
    UnitFound(pre, digits, unit, rest, 'm', 'M');
    UnitFound(pre, digits, unit, rest, 'g', 'G');
  }

  lemma UnitFound(pre: string, digits: string, unit: char, rest: string, lower: char, upper: char)
    requires NoDigits(pre) && AllDigits(digits) && digits != "" && !IsDigit(unit) && NoDigits(rest)
    ensures BeforeUnit(pre + (digits + ([unit] + rest)), lower, upper) == if unit == lower || unit == upper then digits else ""
  {
    DigitFreePrefix(pre, digits + ([unit] + rest), lower, upper);
    UnitAfterDigits(digits, unit, rest, lower, upper);
    hide BeforeUnit; hide NoDigits; hide AllDigits; hide IsDigit;
  }

  /** The two size settings, of whatever type but boolean, are read as sizes, and no other setting is. */
  lemma SizeSettings(key: string, t: ConfigType, s: string)
    requires t != BooleanType && key !in ["default_workingplan_timespan", "public_workingplan_html_timespan", "public_workingplan_ics_timespan"]
    ensures Coerce(key, t, RawText(s)) == if key in ["max_db_mem_size", "max_upload_file_size"] then SizeValue(s)
                                          else if t == IntegerType then IntValue(TextToI(s)) else TextValue(s)
  {
    hide SizeValue; hide TextToI;
  }

  /** A value stays text exactly if no digit stands right before one of the units, as in a plain number. */
  lemma SizeStaysTextIff(s: string)
    ensures SizeValue(s) == TextValue(s) <==> Unitless(s, 'k', 'K') && Unitless(s, 'm', 'M') && Unitless(s, 'g', 'G')
  {
    NoUnitIff(s, 'k', 'K');
    NoUnitIff(s, 'm', 'M');
    NoUnitIff(s, 'g', 'G');
    hide BeforeUnit; hide Unitless; hide DigitsValue;
  }
}
