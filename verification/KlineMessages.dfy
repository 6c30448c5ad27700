/** Compact kline messages and the parser's round trip on them.

    A message is an envelope of outer members, the kline object under the key "k", and
    whatever follows it. Objects are written without white space (RFC 8259, section 4), their
    members in any order. */
module KlineMessages {
  import opened Wrappers
  import opened KlineParser

  /** A number literal without exponent. */
  datatype Decimal = Decimal(negative: bool, whole: string, fraction: string)

  /** Besides strings, numbers and flags a member can hold any text without quotes (null, numbers
      with exponents, lists of numbers) and any nested object or list. */
  datatype Value = Text(text: string) | Number(number: Decimal) | Flag(flag: bool) | Bare(bare: string) | Nested(nested: string)

  datatype Member = Member(key: string, value: Value)

  /** What stands before the kline object: complete members, and objects that are opened. */
  datatype Piece = Before(member: Member) | Opened(key: string)

  // ---------------------------------------------------------------- printing

  function PrintDecimal(d: Decimal): string {
    (if d.negative then "-" else "") + d.whole + (if d.fraction == "" then "" else "." + d.fraction)
  }

  function PrintValue(v: Value): string {
    match v
    case Text(text) => "\"" + text + "\""
    case Number(number) => PrintDecimal(number)
    case Flag(flag) => if flag then "true" else "false"
    case Bare(bare) => bare
    case Nested(nested) => nested
  }

  function PrintKeyed(key: string, rest: string): string {
    "\"" + key + "\":" + rest
  }

  /** The members from here on, the closing brace, and the rest of the message. */
  function PrintMembers(members: seq<Member>, suffix: string): string
    decreases |members|, 1
  {
    if members == [] then "}" + suffix
    else PrintKeyed(members[0].key, PrintValue(members[0].value) + AfterMember(members, suffix))
  }

  function AfterMember(members: seq<Member>, suffix: string): string
    requires members != []
    decreases |members|, 0
  {
    if |members| == 1 then "}" + suffix else "," + PrintMembers(members[1..], suffix)
  }

  function PrintEnvelope(pieces: seq<Piece>, kline: string): string {
    if pieces == [] then KLINE_KEY + kline
    else PrintPiece(pieces[0], PrintEnvelope(pieces[1..], kline))
  }

  function PrintPiece(p: Piece, rest: string): string {
    match p
    case Before(m) => PrintKeyed(m.key, PrintValue(m.value) + ("," + rest))
    case Opened(key) => PrintKeyed(key, "{" + rest)
  }

  function PrintMessage(pieces: seq<Piece>, members: seq<Member>, suffix: string): string {
    "{" + PrintEnvelope(pieces, PrintMembers(members, suffix))
  }

  // ---------------------------------------------------------------- well-formed messages

  predicate QuoteFree(text: string) {
    '"' !in text
  }

  predicate ValidDecimal(d: Decimal) {
    d.whole != "" && AllDigits(d.whole) && AllDigits(d.fraction)
  }

  predicate KeyAt(text: string, k: char, at: nat) {
    at + 4 <= |text| && text[at] == '"' && text[at + 1] == k && text[at + 2] == '"' && text[at + 3] == ':'
  }

  /** The keys of the members the scanner reads. */
  predicate Field(k: char) {
    k == 's' || k == 't' || k == 'o' || k == 'h' || k == 'l' || k == 'c' || k == 'v' || k == 'x'
  }

  /** All keys the scanner looks for. */
  predicate Scanned(k: char) {
    k == 'k' || Field(k)
  }

  ghost predicate Carries(text: string, pattern: string) {
    exists at: nat :: OccursAt(text, pattern, at)
  }

  predicate Closed(text: string) {
    text != "" && (text[|text| - 1] == '}' || text[|text| - 1] == ']')
  }

  predicate ValidMember(m: Member) {
    && QuoteFree(m.key)
    && match m.value
       case Text(text) => QuoteFree(text)
       case Number(number) => ValidDecimal(number)
       case Flag(_) => true
       case Bare(bare) => QuoteFree(bare)
       case Nested(nested) => Closed(nested)
  }

  predicate ValidPiece(p: Piece) {
    match p
    case Before(m) => ValidMember(m)
    case Opened(key) => QuoteFree(key)
  }

  predicate ValidPieces(pieces: seq<Piece>) {
    forall p | p in pieces :: ValidPiece(p)
  }

  /** The scanner takes this member, or one nested in it, for the member under the key k. */
  ghost predicate Hides(m: Member, k: char) {
    m.key == [k] || (m.value.Nested? && Carries(m.value.nested, KeyPattern(k)))
  }

  /** No member before the i-th one does. */
  ghost predicate Unhidden(members: seq<Member>, i: nat, k: char)
    requires i <= |members|
  {
    forall j | 0 <= j < i :: !Hides(members[j], k)
  }

  /** The scanner takes this piece, or an object nested in it, for the kline object. */
  ghost predicate HidesKline(p: Piece) {
    match p
    case Before(m) =>
      || (m.key == "k" && PrintValue(m.value) != "" && PrintValue(m.value)[0] == '{')
      || (m.value.Nested? && Carries(m.value.nested, KLINE_KEY))
    case Opened(key) => key == "k"
  }

  ghost predicate KlineUnhidden(pieces: seq<Piece>) {
    forall p | p in pieces :: !HidesKline(p)
  }

  /** Every member the scanner reads stands before whatever could be taken for it. */
  ghost predicate Readable(members: seq<Member>) {
    forall i, k | 0 <= i < |members| && Field(k) && members[i].key == [k] :: Unhidden(members, i, k)
  }

  /** The candle a message is about. */
  datatype Candle = Candle(
    symbol: string, timestamp: Decimal,
    open: Decimal, high: Decimal, low: Decimal, close: Decimal, volume: Decimal,
    closed: bool)

  /** Prices may be written as numbers or, as the exchange does, as numbers in quotes. */
  predicate HasDecimal(members: seq<Member>, key: char, d: Decimal) {
    ValidDecimal(d) && (Member([key], Number(d)) in members || Member([key], Text(PrintDecimal(d))) in members)
  }

  /** Integer literals short enough not to overflow the 64-bit accumulator. */
  const MAX_DIGITS: nat := 18
  const INT64_MAX: nat := 0x7FFF_FFFF_FFFF_FFFF

  predicate Describes(members: seq<Member>, c: Candle) {
    && Member("s", Text(c.symbol)) in members
    && Member("t", Number(c.timestamp)) in members
    && c.timestamp.fraction == "" && |c.timestamp.whole| <= MAX_DIGITS && ValidDecimal(c.timestamp)
    && HasDecimal(members, 'o', c.open)
    && HasDecimal(members, 'h', c.high)
    && HasDecimal(members, 'l', c.low)
    && HasDecimal(members, 'c', c.close)
    && HasDecimal(members, 'v', c.volume)
    && Member("x", Flag(c.closed)) in members
  }

  function IntegerValue(d: Decimal): int
    requires ValidDecimal(d)
  {
    if d.negative then 0 - Magnitude(d.whole) else Magnitude(d.whole)
  }

  /** The number a literal denotes: all its digits over a power of ten. */
  function RealValue(d: Decimal): real
    requires ValidDecimal(d)
  {
    var digits := Magnitude(d.whole + d.fraction) as real / Pow10(|d.fraction|) as real;
    if d.negative then -digits else digits
  }

  function Content(c: Candle): ParsedKline
    requires ValidDecimal(c.timestamp) && ValidDecimal(c.open) && ValidDecimal(c.high)
    requires ValidDecimal(c.low) && ValidDecimal(c.close) && ValidDecimal(c.volume)
  {
    ParsedKline(c.symbol, IntegerValue(c.timestamp), RealValue(c.open), RealValue(c.high), RealValue(c.low),
                RealValue(c.close), RealValue(c.volume), c.closed)
  }

  // ---------------------------------------------------------------- arithmetic of literals

  lemma {:induction false} ScaleIsInverse(n: nat)
    ensures Scale(n) * Pow10(n) as real == 1.0
  {
    if n > 0 {
      ScaleIsInverse(n - 1);
      calc {
        Scale(n) * Pow10(n) as real;
        (Scale(n - 1) * 0.1) * (10.0 * Pow10(n - 1) as real);
        Scale(n - 1) * Pow10(n - 1) as real;
      }
    }
  }

  /** The digit-by-digit sum is the fixed-point value of the literal. */
  lemma {:induction false} AccumulatedIsFixed(whole: string, fraction: string)
    requires AllDigits(whole) && AllDigits(fraction)
    ensures Accumulated(whole, fraction) * Pow10(|fraction|) as real == Magnitude(whole + fraction) as real
    decreases |fraction|
  {
    hide Accumulated, Magnitude, Pow10, Scale, DigitOf;
    if fraction == "" {
      assert whole + fraction == whole;
      NoFraction(whole);
    } else {
      var n := |fraction| - 1;
      var front, c := fraction[..n], fraction[n];
      assert fraction == front + [c] && whole + fraction == (whole + front) + [c];
      AccumulatedIsFixed(whole, front);
      ScaleIsInverse(n + 1);
      MagnitudeSnoc(whole + front, c);
      AccumulatedSnoc(whole, front, c);
      NextPower(n);
      NextDigit(Accumulated(whole, front), DigitOf(c) as real, Scale(n + 1), Pow10(n) as real, Magnitude(whole + front) as real,
                Accumulated(whole, fraction), Pow10(n + 1) as real, Magnitude(whole + fraction) as real);
    }
  }

  lemma NoFraction(whole: string)
    requires AllDigits(whole)
    ensures Accumulated(whole, "") == Magnitude(whole) as real && Pow10(0) == 1
  {
  }

  lemma NextPower(n: nat)
    ensures Pow10(n + 1) as real == 10.0 * Pow10(n) as real
  {
  }

  lemma NextDigit(a: real, d: real, s: real, p: real, m: real, sum: real, power: real, magnitude: real)
    requires a * p == m && s * power == 1.0
    requires sum == a + d * s && power == 10.0 * p && magnitude == 10.0 * m + d
    ensures sum * power == magnitude
  {
    assert (a + d * s) * (10.0 * p) == 10.0 * (a * p) + d * (s * (10.0 * p));
  }

  lemma AccumulatedIsRealValue(d: Decimal)
    requires ValidDecimal(d)
    ensures RealValue(d) == if d.negative then -Accumulated(d.whole, d.fraction) else Accumulated(d.whole, d.fraction)
  {
    AccumulatedIsFixed(d.whole, d.fraction);
    Quotient(Accumulated(d.whole, d.fraction), Pow10(|d.fraction|) as real, Magnitude(d.whole + d.fraction) as real);
  }

  lemma Quotient(x: real, p: real, m: real)
    requires p > 0.0 && x * p == m
    ensures m / p == x
  {
  }

  lemma {:induction false} MagnitudeBound(digits: string)
    requires AllDigits(digits)
    ensures Magnitude(digits) < Pow10(|digits|)
  {
    if digits != "" {
      var n := |digits| - 1;
      MagnitudeBound(digits[..n]);
      assert Pow10(|digits|) == 10 * Pow10(n) && DigitOf(digits[n]) <= 9;
    }
  }

  lemma {:induction false} Pow10Monotone(m: nat, n: nat)
    requires m <= n
    ensures Pow10(m) <= Pow10(n)
    decreases n
  {
    if m < n {
      Pow10Monotone(m, n - 1);
    }
  }

  /** With at most 18 digits the accumulator of `integer_field` stays inside 64 bits at every
      step: each prefix of the literal is in range, and so is its negation. */
  lemma NoOverflow(digits: string, k: nat)
    requires AllDigits(digits) && |digits| <= MAX_DIGITS && k <= |digits|
    ensures Magnitude(digits[..k]) <= INT64_MAX
  {
    MagnitudeBound(digits[..k]);
    Pow10Monotone(k, MAX_DIGITS);
    assert Pow10(18) == 100_000_000 * Pow10(10) && Pow10(10) == 100_000_000 * Pow10(2);
  }

  // ---------------------------------------------------------------- finding a key

  lemma PrintedDecimalIsBare(d: Decimal)
    requires ValidDecimal(d)
    ensures QuoteFree(PrintDecimal(d)) && PrintDecimal(d) != "" && PrintDecimal(d)[0] != '{'
  {
    forall c | c in PrintDecimal(d) ensures c != '"' && c != '{' {
      assert c == '-' || c == '.' || IsDigit(c);
    }
    assert PrintDecimal(d)[0] in PrintDecimal(d);
  }

  lemma OccursIsKeyAt(text: string, k: char, at: nat)
    ensures OccursAt(text, KeyPattern(k), at) <==> KeyAt(text, k, at)
  {
    if at + 4 <= |text| {
      var window := text[at..at + 4];
      assert window[0] == text[at] && window[1] == text[at + 1] && window[2] == text[at + 2] && window[3] == text[at + 3];
    }
  }

  /** In `"key":value rest` with a quote-free value, no `"K":` starts before the rest, unless
      the key is K and it starts at the first quote. */
  lemma NoKeyInBare(key: string, bare: string, rest: string, k: char, at: nat)
    requires QuoteFree(key) && QuoteFree(bare) && Scanned(k)
    requires at < |key| + 3 + |bare|
    requires at == 0 ==> key != [k]
    ensures !KeyAt(PrintKeyed(key, bare + rest), k, at)
  {
    var text := PrintKeyed(key, bare + rest);
    if at == 0 {
      assert |key| == 1 ==> text[1] == key[0];
      assert |key| >= 2 ==> text[2] == key[1];
    } else if at <= |key| {
      assert text[at] == key[at - 1];
    } else if at >= |key| + 3 {
      assert text[at] == bare[at - |key| - 3];
    }
  }

  /** The same for a value in quotes, provided that a separator follows it. */
  lemma NoKeyInQuoted(key: string, inner: string, rest: string, k: char, at: nat)
    requires QuoteFree(key) && QuoteFree(inner) && Scanned(k)
    requires rest != "" && (rest[0] == ',' || rest[0] == '}')
    requires at < |key| + 5 + |inner|
    requires at == 0 ==> key != [k]
    ensures !KeyAt(PrintKeyed(key, "\"" + inner + "\"" + rest), k, at)
  {
    var text := PrintKeyed(key, "\"" + inner + "\"" + rest);
    var open := |key| + 3;
    var close := open + 1 + |inner|;
    assert text[close] == '"' && text[close + 1] == rest[0];
    if at == 0 {
      assert |key| == 1 ==> text[1] == key[0];
      assert |key| >= 2 ==> text[2] == key[1];
    } else if at <= |key| {
      assert text[at] == key[at - 1];
    } else if at == open {
      assert |inner| >= 2 ==> text[open + 2] == inner[1];
    } else if open < at < close {
      assert text[at] == inner[at - open - 1];
    }
  }

  /** A pattern without closing brackets that starts inside a nested value ends inside it. */
  lemma WithinNested(before: string, nested: string, rest: string, pattern: string, at: nat)
    requires Closed(nested) && at < |nested| && '}' !in pattern && ']' !in pattern
    ensures OccursAt(before + (nested + rest), pattern, |before| + at) <==> OccursAt(nested, pattern, at)
  {
    var text, last := before + (nested + rest), |nested| - 1;
    var to := |before| + at + |pattern|;
    assert forall i | 0 <= i < |nested| :: text[|before| + i] == nested[i];
    forall i | 0 <= i < |pattern| ensures pattern[i] != '}' && pattern[i] != ']' { assert pattern[i] in pattern; }
    if at + |pattern| <= |nested| {
      assert text[|before| + at..to] == nested[at..at + |pattern|];
    } else if to <= |text| {
      assert text[|before| + at..to][last - at] == nested[last];
    }
  }

  lemma KeyWithinNested(key: string, nested: string, rest: string, k: char, at: nat)
    requires Closed(nested) && at < |nested| && Scanned(k)
    ensures KeyAt(PrintKeyed(key, nested + rest), k, |key| + 3 + at) <==> OccursAt(nested, KeyPattern(k), at)
  {
    var before := "\"" + key + "\":";
    assert PrintKeyed(key, nested + rest) == before + (nested + rest);
    OccursIsKeyAt(PrintKeyed(key, nested + rest), k, |key| + 3 + at);
    WithinNested(before, nested, rest, KeyPattern(k), at);
  }

  /** The same for a nested value that does not carry the key. */
  lemma NoKeyInNested(key: string, nested: string, rest: string, k: char, at: nat)
    requires QuoteFree(key) && Closed(nested) && !Carries(nested, KeyPattern(k)) && Scanned(k)
    requires at < |key| + 3 + |nested|
    requires at == 0 ==> key != [k]
    ensures !KeyAt(PrintKeyed(key, nested + rest), k, at)
  {
    var base := |key| + 3;
    if at < base {
      NoKeyInBare(key, "", nested + rest, k, at);
      assert "" + (nested + rest) == nested + rest;
    } else {
      KeyWithinNested(key, nested, rest, k, at - base);
    }
  }

  function Width(m: Member): nat {
    |m.key| + 3 + |PrintValue(m.value)|
  }

  lemma NoKeyInMember(m: Member, rest: string, k: char, at: nat)
    requires ValidMember(m) && Scanned(k)
    requires rest != "" && (rest[0] == ',' || rest[0] == '}')
    requires at <= Width(m)
    requires at == 0 ==> m.key != [k]
    requires m.value.Nested? ==> !Carries(m.value.nested, KeyPattern(k))
    ensures !KeyAt(PrintKeyed(m.key, PrintValue(m.value) + rest), k, at)
  {
    var text := PrintKeyed(m.key, PrintValue(m.value) + rest);
    assert text[Width(m)] == rest[0];
    if at < Width(m) {
      match m.value
      case Text(inner) => NoKeyInQuoted(m.key, inner, rest, k, at);
      case Number(number) =>
        PrintedDecimalIsBare(number);
        NoKeyInBare(m.key, PrintDecimal(number), rest, k, at);
      case Flag(flag) => NoKeyInBare(m.key, PrintValue(m.value), rest, k, at);
      case Bare(bare) => NoKeyInBare(m.key, bare, rest, k, at);
      case Nested(nested) => NoKeyInNested(m.key, nested, rest, k, at);
    }
  }

  // ---------------------------------------------------------------- looking a member up

  predicate ValidMembers(members: seq<Member>) {
    forall m | m in members :: ValidMember(m)
  }

  /** Where the i-th member starts. */
  function Offset(members: seq<Member>, i: nat): nat
    requires i <= |members|
  {
    if i == 0 then 0 else Width(members[0]) + 1 + Offset(members[1..], i - 1)
  }

  lemma ShiftKey(text: string, base: nat, k: char, at: nat)
    requires base <= |text|
    ensures KeyAt(text[base..], k, at) == KeyAt(text, k, base + at)
  {
  }

  lemma SliceOfSlice<T>(text: seq<T>, base: nat, k: nat)
    requires base + k <= |text|
    ensures text[base..][k..] == text[base + k..]
  {
  }

  /** A printed member is its width, then the rest. */
  lemma SkipKeyed(key: string, value: string, rest: string)
    ensures var text, width := PrintKeyed(key, value + rest), |key| + 3 + |value|;
            |text| == width + |rest| && text[width..] == rest
  {
    var text := PrintKeyed(key, value + rest);
    assert text == ("\"" + key + "\":" + value) + rest;
  }

  lemma DropMember(members: seq<Member>, suffix: string)
    requires |members| >= 2
    ensures var text := PrintMembers(members, suffix);
            Width(members[0]) + 1 <= |text|
            && text[Width(members[0]) + 1..] == PrintMembers(members[1..], suffix)
  {
    hide PrintKeyed, PrintValue;
    var rest := PrintMembers(members[1..], suffix);
    SkipKeyed(members[0].key, PrintValue(members[0].value), "," + rest);
    assert AfterMember(members, suffix) == "," + rest;
    assert PrintMembers(members, suffix) == PrintKeyed(members[0].key, PrintValue(members[0].value) + ("," + rest));
    SliceOfSlice(PrintMembers(members, suffix), Width(members[0]), 1);
    assert ("," + rest)[1..] == rest;
  }

  lemma NoKeyInFirst(members: seq<Member>, suffix: string, k: char, at: nat)
    requires members != [] && ValidMember(members[0]) && Scanned(k)
    requires at <= Width(members[0]) && !Hides(members[0], k)
    ensures !KeyAt(PrintMembers(members, suffix), k, at)
  {
    NoKeyInMember(members[0], AfterMember(members, suffix), k, at);
  }

  lemma {:induction false} NoKeyBefore(members: seq<Member>, suffix: string, i: nat, k: char, at: nat)
    requires ValidMembers(members) && Scanned(k) && i < |members| && Unhidden(members, i, k)
    requires at < Offset(members, i)
    ensures !KeyAt(PrintMembers(members, suffix), k, at)
    decreases |members|
  {
    hide KeyAt, PrintMembers, Width, Scanned, ValidMember, Hides;
    var base := Width(members[0]) + 1;
    if at < base {
      NoKeyInFirst(members, suffix, k, at);
    } else {
      DropMember(members, suffix);
      ShiftKey(PrintMembers(members, suffix), base, k, at - base);
      var rest := members[1..];
      assert forall m | m in rest :: m in members;
      assert forall j | 0 <= j < i - 1 :: rest[j] == members[j + 1];
      NoKeyBefore(rest, suffix, i - 1, k, at - base);
    }
  }

  lemma {:induction false} MemberStarts(members: seq<Member>, suffix: string, i: nat)
    requires i < |members|
    ensures Offset(members, i) <= |PrintMembers(members, suffix)|
    ensures PrintMembers(members, suffix)[Offset(members, i)..] == PrintMembers(members[i..], suffix)
  {
    hide PrintMembers, Width;
    if i > 0 {
      DropMember(members, suffix);
      MemberStarts(members[1..], suffix, i - 1);
      SliceOfSlice(members, 1, i - 1);
      SliceOfSlice(PrintMembers(members, suffix), Width(members[0]) + 1, Offset(members[1..], i - 1));
    } else {
      assert members[0..] == members;
    }
  }

  /** Of all places where a key stands, the look-up finds the one without an earlier one. */
  lemma FoundIsFirst(text: string, k: char, at: nat)
    requires KeyAt(text, k, at)
    ensures ValueOf(text, k) == Some(text[at + 4..]) <==> forall j: nat | j < at :: !KeyAt(text, k, j)
  {
    OccursIsKeyAt(text, k, at);
    forall j: nat ensures OccursAt(text, KeyPattern(k), j) <==> KeyAt(text, k, j) { OccursIsKeyAt(text, k, j); }
    var found := Find(text, KeyPattern(k), 0).value;
    assert |text[found + 4..]| == |text| - found - 4 && |text[at + 4..]| == |text| - at - 4;
  }

  /** Where a member that hides the key shows it. */
  lemma HidingKey(m: Member, rest: string, k: char) returns (at: nat)
    requires ValidMember(m) && Scanned(k) && Hides(m, k)
    ensures at < Width(m) && KeyAt(PrintKeyed(m.key, PrintValue(m.value) + rest), k, at)
  {
    if m.key == [k] {
      at := 0;
    } else {
      var p: nat :| OccursAt(m.value.nested, KeyPattern(k), p);
      KeyWithinNested(m.key, m.value.nested, rest, k, p);
      at := |m.key| + 3 + p;
    }
  }

  lemma {:induction false} OffsetsGrow(members: seq<Member>, j: nat, i: nat)
    requires j < i <= |members|
    ensures Offset(members, j) + Width(members[j]) < Offset(members, i)
  {
    hide Width;
    if j > 0 { OffsetsGrow(members[1..], j - 1, i - 1); }
  }

  lemma HidingKeyBefore(members: seq<Member>, suffix: string, j: nat, i: nat, k: char)
    requires ValidMembers(members) && Scanned(k) && j < i < |members| && Hides(members[j], k)
    ensures exists at: nat :: at < Offset(members, i) && KeyAt(PrintMembers(members, suffix), k, at)
  {
    hide Offset, Width, Hides, KeyAt, ValidMember;
    var at := HidingKey(members[j], AfterMember(members[j..], suffix), k);
    MemberStarts(members, suffix, j);
    ShiftKey(PrintMembers(members, suffix), Offset(members, j), k, at);
    OffsetsGrow(members, j, i);
  }

  /** Looking up a key yields its i-th member, the value and the separator after it, exactly
      when no earlier member has that key or holds a nested value that carries it. */
  lemma LookupExactly(members: seq<Member>, suffix: string, i: nat, k: char)
    requires ValidMembers(members) && Scanned(k) && i < |members| && members[i].key == [k]
    ensures ValueOf(PrintMembers(members, suffix), k) == Some(PrintValue(members[i].value) + AfterMember(members[i..], suffix))
            <==> Unhidden(members, i, k)
  {
    var text, at := PrintMembers(members, suffix), Offset(members, i);
    MemberStarts(members, suffix, i);
    StandsAt(text, k, at, PrintValue(members[i].value) + AfterMember(members[i..], suffix));
    FoundIsFirst(text, k, at);
    hide PrintMembers, Offset, KeyAt, Hides, ValidMembers, ValueOf;
    if Unhidden(members, i, k) {
      forall j: nat | j < at ensures !KeyAt(text, k, j) { NoKeyBefore(members, suffix, i, k, j); }
    } else {
      var j :| 0 <= j < i && Hides(members[j], k);
      HidingKeyBefore(members, suffix, j, i, k);
    }
  }

  lemma StandsAt(text: string, k: char, at: nat, value: string)
    requires at <= |text| && text[at..] == PrintKeyed([k], value)
    ensures KeyAt(text, k, at) && text[at + 4..] == value
  {
    ShiftKey(text, at, k, 0);
    SliceOfSlice(text, at, 4);
  }

  lemma ValueOfMember(members: seq<Member>, suffix: string, i: nat, k: char)
    requires ValidMembers(members) && Readable(members) && Field(k)
    requires i < |members| && members[i].key == [k]
    ensures ValueOf(PrintMembers(members, suffix), k) ==
            Some(PrintValue(members[i].value) + AfterMember(members[i..], suffix))
  {
    LookupExactly(members, suffix, i, k);
  }

  /** So a nested object with its own "s" in front of the symbol hides the symbol. */
  lemma NestedKeyWins(inner: string, rest: string)
    requires QuoteFree(inner)
    ensures ReadString("\"a\":{\"s\":\"" + inner + "\"" + rest, 's') == Some(inner)
  {
    var value := "\"" + inner + "\"" + rest;
    var text := "\"a\":{\"s\":\"" + inner + "\"" + rest;
    assert text == "\"a\":{" + PrintKeyed("s", value);
    assert text[5..] == PrintKeyed("s", value);
    forall j: nat | j < 5 ensures !KeyAt(text, 's', j) {
      assert text[1] == 'a' && text[2] == '"' && text[3] == ':' && text[4] == '{';
    }
    StandsAt(text, 's', 5, value);
    FoundIsFirst(text, 's', 5);
    ReadBackStringLiteral(inner, rest);
  }

  // ---------------------------------------------------------------- reading a value back

  lemma {:induction false} DigitRunOf(digits: string, rest: string)
    requires AllDigits(digits)
    requires rest == "" || !IsDigit(rest[0])
    ensures DigitRun(digits + rest) == |digits|
  {
    forall i | 0 <= i < |digits| ensures IsDigit((digits + rest)[i]) {
      assert digits[i] in digits;
    }
    DigitRunIs(digits + rest, |digits|);
  }

  lemma SplitText(front: string, back: string)
    ensures (front + back)[..|front|] == front && (front + back)[|front|..] == back
  {
  }

  lemma FractionOf(fraction: string, rest: string)
    requires AllDigits(fraction) && (rest == "" || (!IsDigit(rest[0]) && rest[0] != '.'))
    ensures FractionDigits((if fraction == "" then "" else "." + fraction) + rest) == fraction
  {
    hide DigitRun, AllDigits;
    if fraction != "" {
      DigitRunOf(fraction, rest);
      SplitText(fraction, rest);
      assert ("." + fraction + rest)[1..] == fraction + rest;
    }
  }

  lemma ReadBackUnsigned(d: Decimal, rest: string)
    requires ValidDecimal(d) && (rest == "" || (!IsDigit(rest[0]) && rest[0] != '.'))
    ensures UnsignedDecimal(Unsigned(d) + rest) == Some(Accumulated(d.whole, d.fraction))
  {
    hide DigitRun, Accumulated, FractionDigits, AllDigits;
    var tail := (if d.fraction == "" then "" else "." + d.fraction) + rest;
    assert Unsigned(d) + rest == d.whole + tail;
    DigitRunOf(d.whole, tail);
    SplitText(d.whole, tail);
    FractionOf(d.fraction, rest);
  }

  lemma ReadBackSign(negative: bool, unsigned: string, magnitude: real)
    requires unsigned != "" && IsDigit(unsigned[0]) && UnsignedDecimal(unsigned) == Some(magnitude)
    ensures var literal := (if negative then "-" else "") + unsigned;
            literal[0] != '"' && DecimalLiteral(literal) == Some(if negative then -magnitude else magnitude)
  {
    var literal := (if negative then "-" else "") + unsigned;
    assert SkipIf(literal, '-') == unsigned;
  }

  function Unsigned(d: Decimal): string {
    d.whole + (if d.fraction == "" then "" else "." + d.fraction)
  }

  lemma SignComesFirst(d: Decimal, rest: string)
    requires ValidDecimal(d)
    ensures PrintDecimal(d) + rest == (if d.negative then "-" else "") + (Unsigned(d) + rest)
    ensures IsDigit((Unsigned(d) + rest)[0])
  {
    assert d.whole[0] in d.whole && (Unsigned(d) + rest)[0] == d.whole[0];
  }

  lemma ReadBackSigned(d: Decimal, rest: string)
    requires ValidDecimal(d) && (rest == "" || (!IsDigit(rest[0]) && rest[0] != '.'))
    ensures (PrintDecimal(d) + rest)[0] != '"'
    ensures DecimalLiteral(PrintDecimal(d) + rest) == Some(RealValue(d))
  {
    var magnitude := Accumulated(d.whole, d.fraction);
    assert UnsignedDecimal(Unsigned(d) + rest) == Some(magnitude) by { ReadBackUnsigned(d, rest); }
    ReadBackSign(d.negative, Unsigned(d) + rest, magnitude);
    SignComesFirst(d, rest);
    assert RealValue(d) == (if d.negative then -magnitude else magnitude) by { AccumulatedIsRealValue(d); }
  }

  lemma QuoteIsSkipped(literal: string)
    requires literal != "" && literal[0] != '"'
    ensures DecimalLiteral("\"" + literal) == DecimalLiteral(literal)
  {
    assert ("\"" + literal)[1..] == literal;
  }

  lemma ReadBackDecimal(members: seq<Member>, suffix: string, k: char, d: Decimal)
    requires ValidMembers(members) && Readable(members) && Field(k) && HasDecimal(members, k, d)
    ensures ReadDecimal(PrintMembers(members, suffix), k) == Some(RealValue(d))
  {
    if Member([k], Number(d)) in members {
      var i :| 0 <= i < |members| && members[i] == Member([k], Number(d));
      ValueOfMember(members, suffix, i, k);
      ReadBackSigned(d, AfterMember(members[i..], suffix));
    } else {
      ReadBackQuoted(members, suffix, k, d);
    }
  }

  lemma ReadBackQuoted(members: seq<Member>, suffix: string, k: char, d: Decimal)
    requires ValidMembers(members) && Readable(members) && Field(k)
    requires ValidDecimal(d) && Member([k], Text(PrintDecimal(d))) in members
    ensures ReadDecimal(PrintMembers(members, suffix), k) == Some(RealValue(d))
  {
    hide ValueOf, DecimalLiteral, RealValue, PrintDecimal, PrintMembers, AfterMember, ValidMembers, Readable;
    var i :| 0 <= i < |members| && members[i] == Member([k], Text(PrintDecimal(d)));
    ValueOfMember(members, suffix, i, k);
    var literal, rest := PrintDecimal(d), AfterMember(members[i..], suffix);
    assert "\"" + literal + "\"" + rest == "\"" + (literal + ("\"" + rest));
    ReadBackSigned(d, "\"" + rest);
    QuoteIsSkipped(literal + ("\"" + rest));
  }

  lemma ReadBackIntegerLiteral(d: Decimal, rest: string)
    requires ValidDecimal(d) && d.fraction == "" && (rest == "" || !IsDigit(rest[0]))
    ensures IntegerLiteral(PrintDecimal(d) + rest) == Some(IntegerValue(d))
  {
    var unsigned := d.whole + rest;
    assert PrintDecimal(d) + rest == (if d.negative then "-" else "") + unsigned;
    assert d.whole[0] in d.whole;
    assert unsigned[0] == d.whole[0];
    assert SkipIf(PrintDecimal(d) + rest, '-') == unsigned;
    DigitRunOf(d.whole, rest);
    assert unsigned[..|d.whole|] == d.whole;
  }

  lemma ReadBackInteger(members: seq<Member>, suffix: string, k: char, d: Decimal)
    requires ValidMembers(members) && Readable(members) && Field(k)
    requires ValidDecimal(d) && d.fraction == "" && Member([k], Number(d)) in members
    ensures ReadInteger(PrintMembers(members, suffix), k) == Some(IntegerValue(d))
  {
    var i :| 0 <= i < |members| && members[i] == Member([k], Number(d));
    ValueOfMember(members, suffix, i, k);
    ReadBackIntegerLiteral(d, AfterMember(members[i..], suffix));
  }

  lemma ReadBackStringLiteral(inner: string, rest: string)
    requires QuoteFree(inner)
    ensures StringLiteral("\"" + inner + "\"" + rest) == Some(inner)
  {
    var text := "\"" + inner + "\"" + rest;
    assert text[|inner| + 1..|inner| + 2] == "\"";
    assert OccursAt(text, "\"", |inner| + 1);
    forall j | 1 <= j <= |inner| ensures !OccursAt(text, "\"", j) {
      assert text[j..j + 1][0] == text[j] == inner[j - 1];
    }
    assert text[1..|inner| + 1] == inner;
  }

  lemma ReadBackString(members: seq<Member>, suffix: string, k: char, inner: string)
    requires ValidMembers(members) && Readable(members) && Field(k)
    requires Member([k], Text(inner)) in members
    ensures ReadString(PrintMembers(members, suffix), k) == Some(inner)
  {
    var i :| 0 <= i < |members| && members[i] == Member([k], Text(inner));
    ValueOfMember(members, suffix, i, k);
    assert ValidMember(members[i]);
    ReadBackStringLiteral(inner, AfterMember(members[i..], suffix));
  }

  lemma ReadBackBool(members: seq<Member>, suffix: string, k: char, flag: bool)
    requires ValidMembers(members) && Readable(members) && Field(k)
    requires Member([k], Flag(flag)) in members
    ensures ReadBool(PrintMembers(members, suffix), k) == Some(flag)
  {
    var i :| 0 <= i < |members| && members[i] == Member([k], Flag(flag));
    ValueOfMember(members, suffix, i, k);
    var text := PrintValue(Flag(flag)) + AfterMember(members[i..], suffix);
    assert text[0] == if flag then 't' else 'f';
  }

  // ---------------------------------------------------------------- finding the kline object

  lemma KlineKeyStarts(text: string, at: nat)
    ensures OccursAt(text, KLINE_KEY, at) <==> KeyAt(text, 'k', at) && at + 5 <= |text| && text[at + 4] == '{'
  {
    if at + 5 <= |text| {
      var window := text[at..at + 5];
      assert window[0] == text[at] && window[1] == text[at + 1] && window[2] == text[at + 2]
             && window[3] == text[at + 3] && window[4] == text[at + 4];
    }
  }

  function PieceWidth(p: Piece): nat {
    match p
    case Before(m) => Width(m) + 1
    case Opened(key) => |key| + 4
  }

  function EnvelopeWidth(pieces: seq<Piece>): nat {
    if pieces == [] then 0 else PieceWidth(pieces[0]) + EnvelopeWidth(pieces[1..])
  }

  lemma SkipPiece(p: Piece, rest: string)
    ensures var text := PrintPiece(p, rest); |text| == PieceWidth(p) + |rest| && text[PieceWidth(p)..] == rest
  {
    hide PrintKeyed, PrintValue;
    match p
    case Before(m) =>
      SkipKeyed(m.key, PrintValue(m.value), "," + rest);
      SliceOfSlice(PrintPiece(p, rest), Width(m), 1);
    case Opened(key) =>
      SkipKeyed(key, "{", rest);
  }

  lemma NoKlineInPiece(p: Piece, rest: string, at: nat)
    requires ValidPiece(p) && !HidesKline(p) && at < PieceWidth(p)
    ensures !OccursAt(PrintPiece(p, rest), KLINE_KEY, at)
  {
    hide OccursAt, PrintDecimal;
    match p
    case Before(m) => NoKlineInMember(m, rest, at);
    case Opened(key) =>
      KlineKeyStarts(PrintKeyed(key, "{" + rest), at);
      NoKeyInBare(key, "{", rest, 'k', at);
  }

  lemma KlineWithinNested(key: string, nested: string, rest: string, at: nat)
    requires Closed(nested) && at < |nested|
    ensures OccursAt(PrintKeyed(key, nested + rest), KLINE_KEY, |key| + 3 + at) <==> OccursAt(nested, KLINE_KEY, at)
  {
    var before := "\"" + key + "\":";
    assert PrintKeyed(key, nested + rest) == before + (nested + rest);
    WithinNested(before, nested, rest, KLINE_KEY, at);
  }

  /** What the value under the key k starts with. */
  lemma KlineAtStart(key: string, value: string, rest: string)
    requires QuoteFree(key)
    ensures OccursAt(PrintKeyed(key, value + rest), KLINE_KEY, 0) <==> key == "k" && value + rest != "" && (value + rest)[0] == '{'
  {
    var text := PrintKeyed(key, value + rest);
    KlineKeyStarts(text, 0);
    if key == "k" {
      assert text[4..] == value + rest;
    } else {
      assert |key| == 1 ==> text[1] == key[0];
      assert |key| >= 2 ==> text[2] == key[1];
    }
  }

  lemma NoKlineInMember(m: Member, rest: string, at: nat)
    requires ValidMember(m) && !HidesKline(Before(m)) && at <= Width(m)
    ensures !OccursAt(PrintKeyed(m.key, PrintValue(m.value) + ("," + rest)), KLINE_KEY, at)
  {
    hide OccursAt, PrintDecimal;
    var text, base := PrintKeyed(m.key, PrintValue(m.value) + ("," + rest)), |m.key| + 3;
    if at == 0 {
      KlineAtStart(m.key, PrintValue(m.value), "," + rest);
    } else if !m.value.Nested? {
      KlineKeyStarts(text, at);
      NoKeyInMember(m, "," + rest, 'k', at);
    } else if at < base {
      KlineKeyStarts(text, at);
      NoKeyInBare(m.key, "", m.value.nested + ("," + rest), 'k', at);
      assert "" + (m.value.nested + ("," + rest)) == m.value.nested + ("," + rest);
    } else if at < Width(m) {
      KlineWithinNested(m.key, m.value.nested, "," + rest, at - base);
    } else {
      KlineKeyStarts(text, at);
      assert text[at] == ',';
    }
  }

  lemma {:induction false} NoKlineBefore(pieces: seq<Piece>, kline: string, at: nat)
    requires ValidPieces(pieces) && KlineUnhidden(pieces)
    requires at < EnvelopeWidth(pieces)
    ensures !OccursAt(PrintEnvelope(pieces, kline), KLINE_KEY, at)
  {
    hide PrintPiece, PieceWidth, OccursAt, ValidPiece, HidesKline;
    var text, base := PrintEnvelope(pieces, kline), PieceWidth(pieces[0]);
    var rest := PrintEnvelope(pieces[1..], kline);
    if at < base {
      NoKlineInPiece(pieces[0], rest, at);
    } else {
      SkipPiece(pieces[0], rest);
      NoKlineBefore(pieces[1..], kline, at - base);
      ShiftOccurs(text, KLINE_KEY, base, at - base);
    }
  }

  lemma {:induction false} KlineStarts(pieces: seq<Piece>, kline: string)
    ensures EnvelopeWidth(pieces) <= |PrintEnvelope(pieces, kline)|
    ensures PrintEnvelope(pieces, kline)[EnvelopeWidth(pieces)..] == KLINE_KEY + kline
  {
    hide PrintPiece, PieceWidth;
    if pieces != [] {
      KlineStarts(pieces[1..], kline);
      SkipPiece(pieces[0], PrintEnvelope(pieces[1..], kline));
      SliceOfSlice(PrintEnvelope(pieces, kline), PieceWidth(pieces[0]), EnvelopeWidth(pieces[1..]));
    }
  }

  lemma PrefixOfSuffix(text: string, pattern: string, at: nat, rest: string)
    requires at <= |text| && text[at..] == pattern + rest
    ensures OccursAt(text, pattern, at) && text[at + |pattern|..] == rest
  {
    assert text[at..at + |pattern|] == text[at..][..|pattern|] == pattern;
    assert text[at + |pattern|..] == text[at..][|pattern|..];
  }

  lemma FoundFirstAt(text: string, pattern: string, at: nat)
    requires OccursAt(text, pattern, at)
    requires forall j: nat | j < at :: !OccursAt(text, pattern, j)
    ensures Find(text, pattern, 0) == Some(at)
  {
  }

  /** Where a piece that hides the kline object shows it. */
  lemma HidingKline(p: Piece, rest: string) returns (at: nat)
    requires ValidPiece(p) && HidesKline(p)
    ensures at < PieceWidth(p) && OccursAt(PrintPiece(p, rest), KLINE_KEY, at)
  {
    hide OccursAt;
    match p
    case Opened(key) =>
      at := 0;
      KlineAtStart(key, "{", rest);
    case Before(m) =>
      if m.value.Nested? && Carries(m.value.nested, KLINE_KEY) {
        var q: nat :| OccursAt(m.value.nested, KLINE_KEY, q);
        OccursWithin(m.value.nested, KLINE_KEY, q);
        KlineWithinNested(m.key, m.value.nested, "," + rest, q);
        at := |m.key| + 3 + q;
      } else {
        at := 0;
        KlineAtStart(m.key, PrintValue(m.value), "," + rest);
      }
  }

  lemma OccursWithin(text: string, pattern: string, at: nat)
    requires OccursAt(text, pattern, at) && pattern != ""
    ensures at < |text|
  {
  }

  lemma {:induction false} HidingKlineBefore(pieces: seq<Piece>, kline: string) returns (at: nat)
    requires ValidPieces(pieces) && !KlineUnhidden(pieces)
    ensures at < EnvelopeWidth(pieces) && OccursAt(PrintEnvelope(pieces, kline), KLINE_KEY, at)
  {
    hide PrintPiece, PieceWidth, OccursAt, ValidPiece, HidesKline;
    var rest := PrintEnvelope(pieces[1..], kline);
    if HidesKline(pieces[0]) {
      at := HidingKline(pieces[0], rest);
    } else {
      at := HidingKlineBefore(pieces[1..], kline);
      SkipPiece(pieces[0], rest);
      ShiftOccurs(PrintEnvelope(pieces, kline), KLINE_KEY, PieceWidth(pieces[0]), at);
      at := at + PieceWidth(pieces[0]);
    }
  }

  lemma KlineStands(pieces: seq<Piece>, kline: string)
    ensures var text, at := "{" + PrintEnvelope(pieces, kline), 1 + EnvelopeWidth(pieces);
            OccursAt(text, KLINE_KEY, at) && at + 5 <= |text| && text[at + 5..] == kline
  {
    hide PrintEnvelope;
    var inner := PrintEnvelope(pieces, kline);
    var text, at := "{" + inner, 1 + EnvelopeWidth(pieces);
    KlineStarts(pieces, kline);
    assert text[1..] == inner && text[at..] == inner[at - 1..];
    PrefixOfSuffix(text, KLINE_KEY, at, kline);
  }

  lemma ShiftIntoEnvelope(inner: string, at: nat)
    ensures OccursAt("{" + inner, KLINE_KEY, 1 + at) == OccursAt(inner, KLINE_KEY, at)
  {
    assert ("{" + inner)[1..] == inner;
    ShiftOccurs("{" + inner, KLINE_KEY, 1, at);
  }

  /** The kline object stands behind its envelope, and is what the scanner finds exactly when
      nothing in the envelope can be taken for it. */
  lemma FindsKline(pieces: seq<Piece>, kline: string)
    requires ValidPieces(pieces)
    ensures var text := "{" + PrintEnvelope(pieces, kline);
            var at := 1 + EnvelopeWidth(pieces);
            && at + 5 <= |text| && text[at + 5..] == kline
            && (Find(text, KLINE_KEY, 0) == Some(at) <==> KlineUnhidden(pieces))
  {
    hide PrintEnvelope, EnvelopeWidth, OccursAt, ValidPieces, KlineUnhidden;
    var inner := PrintEnvelope(pieces, kline);
    var text, at := "{" + inner, 1 + EnvelopeWidth(pieces);
    KlineStands(pieces, kline);
    if KlineUnhidden(pieces) {
      forall j: nat | j < at ensures !OccursAt(text, KLINE_KEY, j) {
        if j == 0 {
          KlineKeyStarts(text, 0);
        } else {
          NoKlineBefore(pieces, kline, j - 1);
          ShiftIntoEnvelope(inner, j - 1);
        }
      }
      FoundFirstAt(text, KLINE_KEY, at);
    } else {
      var j := HidingKlineBefore(pieces, kline);
      ShiftIntoEnvelope(inner, j);
    }
  }

  lemma DecimalsAreValid(members: seq<Member>, c: Candle)
    requires Describes(members, c)
    ensures ValidDecimal(c.open) && ValidDecimal(c.high) && ValidDecimal(c.low) && ValidDecimal(c.close) && ValidDecimal(c.volume)
  {
  }

  /** Whatever the order of the members, what else the kline object or the envelope carries,
      and what follows: scanning a printed message yields exactly the candle it describes,
      provided that no earlier member or piece can be taken for one that is read. */
  lemma RoundTrip(pieces: seq<Piece>, members: seq<Member>, suffix: string, c: Candle, out: ParsedKline)
    requires ValidPieces(pieces) && KlineUnhidden(pieces)
    requires ValidMembers(members) && Readable(members) && Describes(members, c)
    ensures Parsed(PrintMessage(pieces, members, suffix), out) == (true, Content(c))
  {
    hide PrintMembers, PrintEnvelope, EnvelopeWidth, Find, Readable, IntegerValue, RealValue, HasDecimal,
         ReadString, ReadInteger, ReadDecimal, ReadBool;
    var body := PrintMembers(members, suffix);
    DecimalsAreValid(members, c);
    FindsKline(pieces, body);
    ReadBackString(members, suffix, 's', c.symbol);
    ReadBackInteger(members, suffix, 't', c.timestamp);
    ReadBackDecimal(members, suffix, 'o', c.open);
    ReadBackDecimal(members, suffix, 'h', c.high);
    ReadBackDecimal(members, suffix, 'l', c.low);
    ReadBackDecimal(members, suffix, 'c', c.close);
    ReadBackDecimal(members, suffix, 'v', c.volume);
    ReadBackBool(members, suffix, 'x', c.closed);
  }

  /** The plainest message about a candle: its fields, and nothing else. */
  function PlainMembers(c: Candle): seq<Member> {
    [Member("s", Text(c.symbol)), Member("t", Number(c.timestamp)), Member("o", Number(c.open)), Member("h", Number(c.high)),
     Member("l", Number(c.low)), Member("c", Number(c.close)), Member("v", Number(c.volume)), Member("x", Flag(c.closed))]
  }

  predicate ValidCandle(c: Candle) {
    && QuoteFree(c.symbol) && ValidDecimal(c.timestamp) && c.timestamp.fraction == "" && |c.timestamp.whole| <= MAX_DIGITS
    && ValidDecimal(c.open) && ValidDecimal(c.high) && ValidDecimal(c.low) && ValidDecimal(c.close) && ValidDecimal(c.volume)
  }

  lemma PlainIsValid(c: Candle)
    requires ValidCandle(c)
    ensures ValidMembers(PlainMembers(c))
  {
    hide QuoteFree, ValidDecimal;
    var members := PlainMembers(c);
    forall key: string | |key| == 1 && key[0] != '"' ensures QuoteFree(key) { OneLetter(key); }
    assert forall i | 0 <= i < 8 :: ValidMember(members[i]);
  }

  lemma OneLetter(key: string)
    requires |key| == 1 && key[0] != '"'
    ensures QuoteFree(key)
  {
  }

  lemma PlainIsReadable(c: Candle)
    ensures Readable(PlainMembers(c))
  {
    var members := PlainMembers(c);
    forall i, j | 0 <= i < j < 8 ensures members[i].key[0] != members[j].key[0] {
      assert members[i].key[0] == "stohlcvx"[i] && members[j].key[0] == "stohlcvx"[j];
    }
    assert forall i | 0 <= i < 8 :: !members[i].value.Nested?;
  }

  lemma NumberDescribes(members: seq<Member>, i: nat, key: char, d: Decimal)
    requires i < |members| && members[i] == Member([key], Number(d)) && ValidDecimal(d)
    ensures HasDecimal(members, key, d)
  {
  }

  lemma PlainDescribes(c: Candle)
    requires ValidCandle(c)
    ensures Describes(PlainMembers(c), c)
  {
    hide ValidDecimal, HasDecimal;
    var members := PlainMembers(c);
    assert members[0] in members && members[1] in members && members[7] in members;
    NumberDescribes(members, 2, 'o', c.open);
    NumberDescribes(members, 3, 'h', c.high);
    NumberDescribes(members, 4, 'l', c.low);
    NumberDescribes(members, 5, 'c', c.close);
    NumberDescribes(members, 6, 'v', c.volume);
  }

  /** Every candle has a message that parses back to it. */
  lemma PlainRoundTrip(c: Candle, suffix: string, out: ParsedKline)
    requires ValidCandle(c)
    ensures Parsed(PrintMessage([], PlainMembers(c), suffix), out) == (true, Content(c))
  {
    PlainIsValid(c);
    PlainIsReadable(c);
    PlainDescribes(c);
    RoundTrip([], PlainMembers(c), suffix, c, out);
    hide Parsed, PrintMessage, PlainMembers, Content;
  }
}
