/** The hand-written scanner for kline messages.

    The `Read` functions say what a field scanner yields for a body, in terms of the first
    occurrence of `"key":` and of the literal that follows it; the methods are the scanners
    with their loops. Module KlineMessages prints compact messages and shows that scanning a
    printed message gives back what was printed. */
module KlineParser {
  import opened Wrappers

  datatype ParsedKline = ParsedKline(
    symbol: string,
    timestamp: int,
    open: real,
    high: real,
    low: real,
    close: real,
    volume: real,
    closed: bool)

  // ---------------------------------------------------------------- searching

  predicate OccursAt(text: string, pattern: string, at: nat) {
    at + |pattern| <= |text| && text[at..at + |pattern|] == pattern
  }

  /** `std::string_view::find`: the first occurrence at or after `from`. */
  function Find(text: string, pattern: string, from: nat): (r: Option<nat>)
    ensures r.Some? ==> from <= r.value && OccursAt(text, pattern, r.value)
    ensures r.Some? ==> forall j | from <= j < r.value :: !OccursAt(text, pattern, j)
    ensures r.None? ==> forall j | from <= j :: !OccursAt(text, pattern, j)
    decreases |text| - from
  {
    if from + |pattern| > |text| then None
    else if OccursAt(text, pattern, from) then Some(from)
    else Find(text, pattern, from + 1)
  }

  const KLINE_KEY: string := "\"k\":{"

  function KeyPattern(key: char): string {
    ['"', key, '"', ':']
  }

  /** What follows the first occurrence of `"key":`. */
  function ValueOf(body: string, key: char): (r: Option<string>)
  {
    match Find(body, KeyPattern(key), 0)
    case None => None
    case Some(at) => Some(body[at + 4..])
  }

  // ---------------------------------------------------------------- literals

  predicate IsDigit(c: char) {
    '0' <= c <= '9'
  }

  function DigitOf(c: char): nat
    requires IsDigit(c)
  {
    c as nat - '0' as nat
  }

  /** The length of the run of digits a text starts with. */
  function DigitRun(text: string): (n: nat)
    ensures n <= |text|
    ensures forall i | 0 <= i < n :: IsDigit(text[i])
    ensures n < |text| ==> !IsDigit(text[n])
  {
    if text == "" || !IsDigit(text[0]) then 0 else 1 + DigitRun(text[1..])
  }

  predicate AllDigits(text: string) {
    forall c | c in text :: IsDigit(c)
  }

  /** The number a string of decimal digits denotes. */
  function Magnitude(digits: string): nat
    requires AllDigits(digits)
  {
    if digits == "" then 0 else 10 * Magnitude(digits[..|digits| - 1]) + DigitOf(digits[|digits| - 1])
  }

  function Pow10(n: nat): (p: nat)
    ensures p >= 1
  {
    if n == 0 then 1 else 10 * Pow10(n - 1)
  }

  function SkipIf(text: string, c: char): string {
    if text != "" && text[0] == c then text[1..] else text
  }

  function Signed(text: string, magnitude: real): real {
    if text != "" && text[0] == '-' then -magnitude else magnitude
  }

  /** The digits after a decimal point, when there is one. */
  function FractionDigits(text: string): string {
    if text != "" && text[0] == '.' then text[1..][..DigitRun(text[1..])] else ""
  }

  /** The weight of the n-th digit after the point, as the scanner forms it. */
  function Scale(n: nat): real {
    if n == 0 then 1.0 else Scale(n - 1) * 0.1
  }

  /** The whole part plus each further digit at its weight. */
  function Accumulated(whole: string, fraction: string): real
    requires AllDigits(whole) && AllDigits(fraction)
    decreases |fraction|
  {
    if fraction == "" then Magnitude(whole) as real
    else
      var n := |fraction| - 1;
      Accumulated(whole, fraction[..n]) + DigitOf(fraction[n]) as real * Scale(n + 1)
  }

  /** The text between two quotes. */
  function StringLiteral(text: string): Option<string> {
    if text == "" || text[0] != '"' then None
    else match Find(text, "\"", 1)
         case None => None
         case Some(end) => Some(text[1..end])
  }

  /** [ "-" ] digits, with at least one digit. */
  function IntegerLiteral(text: string): Option<int> {
    var digits := SkipIf(text, '-');
    var run := digits[..DigitRun(digits)];
    if run == "" then None
    else Some(if digits == text then Magnitude(run) else 0 - Magnitude(run))
  }

  /** digits [ "." digits ], with at least one digit in all. */
  function UnsignedDecimal(text: string): Option<real> {
    var whole := text[..DigitRun(text)];
    var fraction := FractionDigits(text[|whole|..]);
    if whole + fraction == "" then None else Some(Accumulated(whole, fraction))
  }

  function DecimalLiteral(text: string): Option<real> {
    var literal := SkipIf(text, '"');
    match UnsignedDecimal(SkipIf(literal, '-'))
    case None => None
    case Some(magnitude) => Some(Signed(literal, magnitude))
  }

  function BoolLiteral(text: string): Option<bool> {
    if "true" <= text then Some(true) else if "false" <= text then Some(false) else None
  }

  function ReadString(body: string, key: char): Option<string> {
    match ValueOf(body, key)
    case None => None
    case Some(text) => StringLiteral(text)
  }

  function ReadInteger(body: string, key: char): Option<int> {
    match ValueOf(body, key)
    case None => None
    case Some(text) => IntegerLiteral(text)
  }

  function ReadDecimal(body: string, key: char): Option<real> {
    match ValueOf(body, key)
    case None => None
    case Some(text) => DecimalLiteral(text)
  }

  function ReadBool(body: string, key: char): Option<bool> {
    match ValueOf(body, key)
    case None => None
    case Some(text) => BoolLiteral(text)
  }

  /** Field after field is written into `out` until one is missing or malformed. */
  function Parsed(payload: string, out: ParsedKline): (bool, ParsedKline) {
    match Find(payload, KLINE_KEY, 0)
    case None => (false, out)
    case Some(kline) =>
      var body := payload[kline + 5..];
      var s := ReadString(body, 's');
      if s.None? then (false, out) else
      var out := out.(symbol := s.value);
      var t := ReadInteger(body, 't');
      if t.None? then (false, out) else
      var out := out.(timestamp := t.value);
      var o := ReadDecimal(body, 'o');
      if o.None? then (false, out) else
      var out := out.(open := o.value);
      var h := ReadDecimal(body, 'h');
      if h.None? then (false, out) else
      var out := out.(high := h.value);
      var l := ReadDecimal(body, 'l');
      if l.None? then (false, out) else
      var out := out.(low := l.value);
      var c := ReadDecimal(body, 'c');
      if c.None? then (false, out) else
      var out := out.(close := c.value);
      var v := ReadDecimal(body, 'v');
      if v.None? then (false, out) else
      var out := out.(volume := v.value);
      var x := ReadBool(body, 'x');
      if x.None? then (false, out) else (true, out.(closed := x.value))
  }

  // ---------------------------------------------------------------- the scanners

  lemma DigitRunIs(text: string, n: nat)
    requires n <= |text|
    requires forall i | 0 <= i < n :: IsDigit(text[i])
    requires n < |text| ==> !IsDigit(text[n])
    ensures DigitRun(text) == n
  {
    hide DigitRun, IsDigit;
    var m := DigitRun(text);
    assert m < |text| ==> !IsDigit(text[m]);
  }

  lemma MagnitudeSnoc(digits: string, c: char)
    requires AllDigits(digits) && IsDigit(c)
    ensures AllDigits(digits + [c])
    ensures Magnitude(digits + [c]) == 10 * Magnitude(digits) + DigitOf(c)
  {
    hide DigitOf;
    assert (digits + [c])[..|digits|] == digits;
  }

  lemma AccumulatedSnoc(whole: string, fraction: string, c: char)
    requires AllDigits(whole) && AllDigits(fraction) && IsDigit(c)
    ensures AllDigits(fraction + [c])
    ensures Accumulated(whole, fraction + [c]) == Accumulated(whole, fraction) + DigitOf(c) as real * Scale(|fraction| + 1)
  {
    hide DigitOf, Scale, Magnitude;
    assert (fraction + [c])[..|fraction|] == fraction;
  }

  lemma NoDigits(whole: string)
    requires AllDigits(whole)
    ensures AllDigits("") && Magnitude("") == 0 && Accumulated(whole, "") == Magnitude(whole) as real
  {
  }

  /** Digits of the body up to the first other character are a digit run. */
  lemma RunUpTo(body: string, start: nat, pos: nat)
    requires start <= pos <= |body| && AllDigits(body[start..pos]) && (pos < |body| ==> !IsDigit(body[pos]))
    ensures DigitRun(body[start..]) == pos - start
  {
    hide DigitRun, IsDigit;
    forall i | 0 <= i < pos - start ensures IsDigit(body[start..][i]) {
      assert body[start..pos][i] in body[start..pos];
    }
    DigitRunIs(body[start..], pos - start);
  }

  method StringField(body: string, key: char, previous: string) returns (ok: bool, value: string)
    ensures ok <==> ReadString(body, key).Some?
    ensures value == if ok then ReadString(body, key).value else previous
  {
    value := previous;
    var at := Find(body, KeyPattern(key), 0);
    if at.None? { return false, value; }
    var pos := at.value + 4;
    if pos >= |body| || body[pos] != '"' { return false, value; }
    pos := pos + 1;
    var end := Find(body, "\"", pos);
    ShiftFind(body, at.value + 4, 1);
    if end.None? { return false, value; }
    return true, body[pos..end.value];
  }

  lemma ShiftOccurs(text: string, pattern: string, base: nat, at: nat)
    requires base <= |text|
    ensures OccursAt(text[base..], pattern, at) == OccursAt(text, pattern, base + at)
  {
    if base + at + |pattern| <= |text| {
      assert text[base..][at..at + |pattern|] == text[base + at..base + at + |pattern|];
    }
  }

  /** Searching a suffix is searching the text from where the suffix starts. */
  lemma ShiftFind(text: string, base: nat, from: nat)
    requires base + from <= |text|
    ensures Find(text[base..], "\"", from) ==
            match Find(text, "\"", base + from)
            case None => None
            case Some(at) => Some(at - base)
    decreases |text| - base - from
  {
    if base + from + 1 <= |text| {
      ShiftOccurs(text, "\"", base, from);
      if !OccursAt(text, "\"", base + from) {
        ShiftFind(text, base, from + 1);
      }
    }
  }

  /** The accumulating loop shared by both number scanners. */
  method ScanDigits(body: string, start: nat) returns (pos: nat, value: nat)
    requires start <= |body|
    ensures start <= pos <= |body|
    ensures pos - start == DigitRun(body[start..])
    ensures AllDigits(body[start..pos]) && value == Magnitude(body[start..pos])
  {
    hide DigitRun, Magnitude, AllDigits;
    pos, value := start, 0;
    NoDigits("");
    assert body[start..start] == "";
    while pos < |body| && '0' <= body[pos] <= '9'
      invariant start <= pos <= |body|
      invariant AllDigits(body[start..pos]) && value == Magnitude(body[start..pos])
    {
      MagnitudeSnoc(body[start..pos], body[pos]);
      assert body[start..pos] + [body[pos]] == body[start..pos + 1];
      value := value * 10 + (body[pos] as nat - '0' as nat);
      pos := pos + 1;
    }
    RunUpTo(body, start, pos);
  }

  method IntegerField(body: string, key: char, previous: int) returns (ok: bool, value: int)
    ensures ok <==> ReadInteger(body, key).Some?
    ensures value == if ok then ReadInteger(body, key).value else previous
  {
    value := previous;
    var at := Find(body, KeyPattern(key), 0);
    if at.None? { return false, value; }
    var pos := at.value + 4;
    ghost var text := body[pos..];
    var negative := false;
    if pos < |body| && body[pos] == '-' { negative, pos := true, pos + 1; }
    assert body[pos..] == SkipIf(text, '-');
    var end, magnitude := ScanDigits(body, pos);
    assert body[pos..end] == body[pos..][..end - pos];
    if end == pos { return false, value; }
    value := magnitude;
    return true, if negative then -value else value;
  }

  /** The loop after the decimal point. */
  method ScanFraction(body: string, dot: nat, ghost whole: string, integral: real) returns (pos: nat, result: real)
    requires dot <= |body| && AllDigits(whole) && integral == Magnitude(whole) as real
    ensures dot <= pos <= |body| && pos - dot == DigitRun(body[dot..])
    ensures AllDigits(body[dot..pos]) && result == Accumulated(whole, body[dot..pos])
  {
    hide DigitRun, Magnitude, AllDigits, Accumulated, Scale;
    pos, result := dot, integral;
    var scale := 0.1;
    NoDigits(whole);
    assert body[dot..dot] == "";
    assert scale == Scale(1) by { NextScale(0); }
    while pos < |body| && '0' <= body[pos] <= '9'
      invariant dot <= pos <= |body|
      invariant AllDigits(body[dot..pos])
      invariant result == Accumulated(whole, body[dot..pos])
      invariant scale == Scale(pos - dot + 1)
    {
      AccumulatedSnoc(whole, body[dot..pos], body[pos]);
      NextScale(pos - dot + 1);
      assert body[dot..pos] + [body[pos]] == body[dot..pos + 1];
      result := result + (body[pos] as nat - '0' as nat) as real * scale;
      scale := scale * 0.1;
      pos := pos + 1;
    }
    RunUpTo(body, dot, pos);
  }

  lemma NextScale(n: nat)
    ensures Scale(n + 1) == Scale(n) * 0.1 && Scale(0) == 1.0
  {
  }

  method ScanDecimal(body: string, start: nat) returns (ok: bool, value: real)
    requires start <= |body|
    ensures ok <==> UnsignedDecimal(body[start..]).Some?
    ensures ok ==> value == UnsignedDecimal(body[start..]).value
  {
    hide UnsignedDecimal, DigitRun, Magnitude, Accumulated, FractionDigits;
    var pos, magnitude := ScanDigits(body, start);
    ok, value := pos > start, magnitude as real;
    if pos < |body| && body[pos] == '.' {
      var dot := pos + 1;
      ghost var whole := body[start..pos];
      pos, value := ScanFraction(body, dot, whole, value);
      WithFraction(body, start, dot, pos);
      ok := ok || pos > dot;
    } else {
      WholeNumber(body, start, pos);
    }
  }

  lemma CutAt(body: string, start: nat, pos: nat)
    requires start <= pos <= |body|
    ensures body[start..][..pos - start] == body[start..pos] && body[start..][pos - start..] == body[pos..]
  {
  }

  /** No point follows the digits. */
  lemma WholeNumber(body: string, start: nat, pos: nat)
    requires start <= pos <= |body| && pos - start == DigitRun(body[start..]) && AllDigits(body[start..pos])
    requires pos == |body| || body[pos] != '.'
    ensures UnsignedDecimal(body[start..]) == if pos == start then None else Some(Magnitude(body[start..pos]) as real)
  {
    hide DigitRun, Magnitude, AllDigits;
    CutAt(body, start, pos);
  }

  lemma UnsignedParts(text: string, whole: string, fraction: string)
    requires DigitRun(text) == |whole| <= |text| && text[..|whole|] == whole && FractionDigits(text[|whole|..]) == fraction
    requires AllDigits(whole) && AllDigits(fraction)
    ensures UnsignedDecimal(text) == if whole + fraction == "" then None else Some(Accumulated(whole, fraction))
  {
    hide DigitRun, Accumulated, AllDigits, FractionDigits;
  }

  lemma FractionAt(body: string, dot: nat, end: nat)
    requires 0 < dot <= end <= |body| && body[dot - 1] == '.' && end - dot == DigitRun(body[dot..])
    ensures FractionDigits(body[dot - 1..]) == body[dot..end]
  {
    hide DigitRun;
    CutAt(body, dot - 1, dot);
    CutAt(body, dot, end);
    assert body[dot - 1..][0] == '.';
  }

  /** A point and digits up to `end` follow. */
  lemma WithFraction(body: string, start: nat, dot: nat, end: nat)
    requires start < dot <= end <= |body| && body[dot - 1] == '.'
    requires dot - 1 - start == DigitRun(body[start..]) && AllDigits(body[start..dot - 1])
    requires end - dot == DigitRun(body[dot..]) && AllDigits(body[dot..end])
    ensures UnsignedDecimal(body[start..]) ==
            if dot - 1 == start && end == dot then None else Some(Accumulated(body[start..dot - 1], body[dot..end]))
  {
    hide DigitRun, Accumulated, AllDigits, FractionDigits, UnsignedDecimal;
    CutAt(body, start, dot - 1);
    FractionAt(body, dot, end);
    UnsignedParts(body[start..], body[start..dot - 1], body[dot..end]);
  }

  method DecimalField(body: string, key: char, previous: real) returns (ok: bool, value: real)
    ensures ok <==> ReadDecimal(body, key).Some?
    ensures value == if ok then ReadDecimal(body, key).value else previous
  {
    value := previous;
    var at := Find(body, KeyPattern(key), 0);
    if at.None? { return false, value; }
    var pos := at.value + 4;
    ghost var text := body[pos..];
    if pos < |body| && body[pos] == '"' { pos := pos + 1; }
    ghost var literal := SkipIf(text, '"');
    assert body[pos..] == literal;
    var negative := false;
    if pos < |body| && body[pos] == '-' { negative, pos := true, pos + 1; }
    assert body[pos..] == SkipIf(literal, '-');
    var magnitude: real;
    ok, magnitude := ScanDecimal(body, pos);
    if !ok { return false, value; }
    return true, if negative then -magnitude else magnitude;
  }

  method BoolField(body: string, key: char, previous: bool) returns (ok: bool, value: bool)
    ensures ok <==> ReadBool(body, key).Some?
    ensures value == if ok then ReadBool(body, key).value else previous
  {
    value := previous;
    var at := Find(body, KeyPattern(key), 0);
    if at.None? { return false, value; }
    var pos := at.value + 4;
    if Prefix(body, pos, 4) == "true" { return true, true; }
    if Prefix(body, pos, 5) == "false" { return true, false; }
    return false, value;
  }

  /** `substr(pos, count)`: at most `count` characters. */
  function Prefix(body: string, pos: nat, count: nat): (r: string)
    requires pos <= |body|
    ensures |r| <= count && r <= body[pos..] && (|r| < count ==> r == body[pos..])
  {
    if pos + count <= |body| then body[pos..pos + count] else body[pos..]
  }

  method Parse(payload: string, out: ParsedKline) returns (ok: bool, result: ParsedKline)
    ensures (ok, result) == Parsed(payload, out)
  {
    result := out;
    var kline := Find(payload, KLINE_KEY, 0);
    if kline.None? { return false, result; }
    var body := payload[kline.value + 5..];
    var symbol: string, timestamp: int, number: real, closed: bool;
    ok, symbol := StringField(body, 's', result.symbol);
    result := result.(symbol := symbol);
    if !ok { return; }
    ok, timestamp := IntegerField(body, 't', result.timestamp);
    result := result.(timestamp := timestamp);
    if !ok { return; }
    ok, number := DecimalField(body, 'o', result.open);
    result := result.(open := number);
    if !ok { return; }
    ok, number := DecimalField(body, 'h', result.high);
    result := result.(high := number);
    if !ok { return; }
    ok, number := DecimalField(body, 'l', result.low);
    result := result.(low := number);
    if !ok { return; }
    ok, number := DecimalField(body, 'c', result.close);
    result := result.(close := number);
    if !ok { return; }
    ok, number := DecimalField(body, 'v', result.volume);
    result := result.(volume := number);
    if !ok { return; }
    ok, closed := BoolField(body, 'x', result.closed);
    result := result.(closed := closed);
  }
}
