// Hunk headers: fmt.Sscanf on the four patterns of parseHunkHeader, and the
// header line that unifiedDiff prints.
module HunkHeader {
  import opened Strings

  const MAX_INT := 0x7fff_ffff_ffff_ffff
  const MIN_INT := -0x8000_0000_0000_0000

  datatype Hunk = Hunk(oldStart: int, oldCount: int, newStart: int, newCount: int, lines: seq<Text>)

  // A Sscanf format: literal bytes, a space (matching one or more white-space
  // characters, or the end of the input), and %d.
  datatype Item = Lit(c: char) | Gap | Num

  datatype Scanned = Match(values: seq<int>) | Mismatch

  function Digits(s: Text): (d: Text)
    ensures d <= s && (forall i :: 0 <= i < |d| ==> IsDigit(d[i]))
    ensures |d| < |s| ==> !IsDigit(s[|d|])
  {
    if s == "" || !IsDigit(s[0]) then "" else [s[0]] + Digits(s[1..])
  }

  predicate IsSign(c: char) { c == '+' || c == '-' }

  function Scan(items: seq<Item>, s: Text): Scanned
    decreases |items|
  {
    if items == [] then Match([])
    else
      match items[0]
      case Lit(c) =>
        if s != "" && s[0] == c then Scan(items[1..], s[1..]) else Mismatch
      case Gap =>
        if s == "" || SpaceWidth(s) > 0 then Scan(items[1..], TrimLeft(s)) else Mismatch
      case Num =>
        var t := TrimLeft(s);
        var body := if t != "" && IsSign(t[0]) then t[1..] else t;
        var digits := Digits(body);
        if digits == "" then Mismatch
        else
          var magnitude: int := DigitsValue(digits);
          var value := if t[0] == '-' then -magnitude else magnitude;
          if MIN_INT <= value <= MAX_INT then
            (match Scan(items[1..], body[|digits|..])
             case Match(values) => Match([value] + values)
             case Mismatch => Mismatch)
          else Mismatch
  }

  // "@@ -%d,%d +%d,%d @@" and the shorter forms without one or both counts.
  function Pattern(oldCount: bool, newCount: bool): seq<Item> {
    [Lit('@'), Lit('@'), Gap, Lit('-'), Num]
    + (if oldCount then [Lit(','), Num] else [])
    + [Gap, Lit('+'), Num]
    + (if newCount then [Lit(','), Num] else [])
    + [Gap, Lit('@'), Lit('@')]
  }

  datatype ParsedHeader = Header(hunk: Hunk) | BadHeader

  function ParseHunkHeader(header: Text): ParsedHeader {
    match Scan(Pattern(true, true), header)
    case Match(v) =>
      if |v| == 4 then Header(Hunk(v[0], v[1], v[2], v[3], [])) else BadHeader
    case Mismatch =>
      match Scan(Pattern(false, false), header)
      case Match(v) =>
        if |v| == 2 then Header(Hunk(v[0], 1, v[1], 1, [])) else BadHeader
      case Mismatch =>
        match Scan(Pattern(true, false), header)
        case Match(v) =>
          if |v| == 3 then Header(Hunk(v[0], v[1], v[2], 1, [])) else BadHeader
        case Mismatch =>
          match Scan(Pattern(false, true), header)
          case Match(v) =>
            if |v| == 3 then Header(Hunk(v[0], 1, v[1], v[2], [])) else BadHeader
          case Mismatch => BadHeader
  }

  function NumCount(items: seq<Item>): nat {
    if items == [] then 0 else (if items[0].Num? then 1 else 0) + NumCount(items[1..])
  }

  // A match yields one value per %d, so the size tests above never fail.
  lemma {:induction false} ScanCount(items: seq<Item>, s: Text)
    ensures Scan(items, s).Match? ==> |Scan(items, s).values| == NumCount(items)
    decreases |items|
  {
    if items != [] && Scan(items, s).Match? {
      match items[0]
      case Lit(c) => ScanCount(items[1..], s[1..]);
      case Gap => ScanCount(items[1..], TrimLeft(s));
      case Num =>
        var t := TrimLeft(s);
        var body := if t != "" && IsSign(t[0]) then t[1..] else t;
        ScanCount(items[1..], body[|Digits(body)|..]);
    }
  }

  // ---- printing ----------------------------------------------------------------

  predicate Printable(h: Hunk) {
    && 0 <= h.oldStart <= MAX_INT && 0 <= h.oldCount <= MAX_INT
    && 0 <= h.newStart <= MAX_INT && 0 <= h.newCount <= MAX_INT
  }

  // No number of the header is negative.
  predicate Natural(h: Hunk) { h.oldStart >= 0 && h.oldCount >= 0 && h.newStart >= 0 && h.newCount >= 0 }

  function RenderHeader(h: Hunk): Text
    requires Natural(h)
  {
    "@@ -" + Decimal(h.oldStart) + "," + Decimal(h.oldCount)
    + " +" + Decimal(h.newStart) + "," + Decimal(h.newCount) + " @@"
  }

  lemma {:induction false} DigitsOfDecimal(d: Text, rest: Text)
    requires forall i :: 0 <= i < |d| ==> IsDigit(d[i])
    requires rest == "" || !IsDigit(rest[0])
    ensures Digits(d + rest) == d
  {
    if d == "" {
      assert d + rest == rest;
    } else {
      DigitsOfDecimal(d[1..], rest);
      assert (d + rest)[1..] == d[1..] + rest;
    }
  }

  // A scan that found `values` before going on as `r`.
  function After(values: seq<int>, r: Scanned): Scanned {
    match r
    case Match(more) => Match(values + more)
    case Mismatch => Mismatch
  }

  lemma ScanDigits(items: seq<Item>, s: Text, d: Text)
    requires s != "" && TrimLeft(s) == s && !IsSign(s[0]) && Digits(s) == d && d != ""
    ensures Scan([Num] + items, s) ==
      if DigitsValue(d) > MAX_INT then Mismatch else After([DigitsValue(d)], Scan(items, s[|d|..]))
  {
    hide Digits, DigitsValue, TrimLeft, IsDigit;
    assert ([Num] + items)[1..] == items;
  }

  lemma ScanNumber(items: seq<Item>, n: nat, rest: Text)
    requires rest == "" || !IsDigit(rest[0])
    ensures Scan([Num] + items, Decimal(n) + rest) == if n > MAX_INT then Mismatch else After([n], Scan(items, rest))
  {
    var d := Decimal(n);
    hide Scan, Decimal;
    DecimalValue(n);
    DigitsOfDecimal(d, rest);
    assert IsDigit(d[0]) && (d + rest)[0] == d[0];
    assert TrimLeft(d + rest) == d + rest;
    assert (d + rest)[|d|..] == rest;
    ScanDigits(items, d + rest, d);
  }

  lemma ScanLit(items: seq<Item>, c: char, rest: Text)
    ensures Scan([Lit(c)] + items, [c] + rest) == Scan(items, rest)
  {
    assert ([Lit(c)] + items)[1..] == items;
    assert ([c] + rest)[1..] == rest;
  }

  lemma ScanGap(items: seq<Item>, rest: Text)
    requires rest == "" || SpaceWidth(rest) == 0
    ensures Scan([Gap] + items, " " + rest) == Scan(items, rest)
  {
    assert ([Gap] + items)[1..] == items;
    var s := " " + rest;
    assert s[0] == ' ' && SpaceWidth(s) == 1 && s[1..] == rest;
    assert TrimLeft(s) == TrimLeft(rest) == rest;
  }

  // A range as a header shows it, with or without its count.
  function Range(sign: char, start: nat, count: nat, shown: bool, rest: Text): Text {
    " " + ([sign] + (Decimal(start) + (if shown then "," + (Decimal(count) + rest) else rest)))
  }

  function RangePattern(sign: char, counted: bool): seq<Item> {
    [Gap, Lit(sign), Num] + if counted then [Lit(','), Num] else []
  }

  // What follows a range: another one, or the end of the header.
  predicate Follows(items: seq<Item>, rest: Text) {
    items != [] && items[0] == Gap && rest != "" && rest[0] == ' '
  }

  // The pattern of a range fits its text when both have a count or both have
  // none and the numbers are 64-bit integers, and only then.
  lemma ScanRange(sign: char, counted: bool, shown: bool, items: seq<Item>, a: nat, b: nat, rest: Text)
    requires IsSign(sign) && Follows(items, rest)
    ensures Scan(RangePattern(sign, counted) + items, Range(sign, a, b, shown, rest)) ==
      if counted != shown || a > MAX_INT || (shown && b > MAX_INT) then Mismatch
      else After(if shown then [a, b] else [a], Scan(items, rest))
  {
    var items3 := if counted then [Lit(',')] + ([Num] + items) else items;
    var s3 := if shown then "," + (Decimal(b) + rest) else rest;
    assert RangePattern(sign, counted) + items == [Gap] + ([Lit(sign)] + ([Num] + items3));
    assert Range(sign, a, b, shown, rest) == " " + ([sign] + (Decimal(a) + s3));
    assert s3 != "" && !IsDigit(s3[0]);
    hide Scan, RangePattern, Range, Decimal;
    ScanStart(sign, items3, a, s3);
    AfterStart(counted, shown, items, b, rest);
    assert forall values: seq<int> :: [a] + ([b] + values) == [a, b] + values && [a] + ([] + values) == [a] + values;
  }

  lemma ScanStart(sign: char, items: seq<Item>, a: nat, rest: Text)
    requires IsSign(sign) && rest != "" && !IsDigit(rest[0])
    ensures Scan([Gap] + ([Lit(sign)] + ([Num] + items)), " " + ([sign] + (Decimal(a) + rest))) ==
      if a > MAX_INT then Mismatch else After([a], Scan(items, rest))
  {
    var text := Decimal(a) + rest;
    assert SpaceWidth([sign] + text) == 0;
    hide Scan, Decimal, SpaceWidth, IsDigit;
    ScanGap([Lit(sign)] + ([Num] + items), [sign] + text);
    ScanLit([Num] + items, sign, text);
    ScanNumber(items, a, rest);
  }

  // The rest of a range, after its start.
  lemma AfterStart(counted: bool, shown: bool, items: seq<Item>, b: nat, rest: Text)
    requires Follows(items, rest)
    ensures Scan(if counted then [Lit(',')] + ([Num] + items) else items,
                 if shown then "," + (Decimal(b) + rest) else rest) ==
      if counted != shown || (shown && b > MAX_INT) then Mismatch
      else After(if shown then [b] else [], Scan(items, rest))
  {
    var text := Decimal(b) + rest;
    hide Decimal;
    assert forall values: seq<int> :: [] + values == values;
    if counted && shown {
      ScanLit([Num] + items, ',', text);
      ScanNumber(items, b, rest);
    } else if counted {
      assert ([Lit(',')] + ([Num] + items))[0] == Lit(',');
    } else if shown {
      assert ("," + text)[0] == ',';
    }
  }

  const TAIL: seq<Item> := [Gap, Lit('@'), Lit('@')]

  lemma ScanTail(heading: Text)
    ensures Scan(TAIL, " @@" + heading) == Match([])
  {
    assert TAIL == [Gap] + ([Lit('@')] + ([Lit('@')] + []));
    assert " @@" + heading == " " + (['@'] + (['@'] + heading));
    ScanGap([Lit('@')] + ([Lit('@')] + []), ['@'] + (['@'] + heading));
    ScanLit([Lit('@')] + [], '@', ['@'] + heading);
    ScanLit([], '@', heading);
  }

  // How a header shows a hunk: each count may be left out, and a section
  // heading may follow.
  datatype Form = Form(oldCount: bool, newCount: bool, heading: Text)

  const FULL := Form(true, true, "")

  function Ranges(h: Hunk, form: Form): Text
    requires Natural(h)
  {
    Range('-', h.oldStart, h.oldCount, form.oldCount,
          Range('+', h.newStart, h.newCount, form.newCount, " @@" + form.heading))
  }

  function RangesPattern(oldCount: bool, newCount: bool): seq<Item> {
    RangePattern('-', oldCount) + (RangePattern('+', newCount) + TAIL)
  }

  // The numbers that a header shows.
  function Shown(h: Hunk, form: Form): seq<int> {
    (if form.oldCount then [h.oldStart, h.oldCount] else [h.oldStart])
    + if form.newCount then [h.newStart, h.newCount] else [h.newStart]
  }

  // All numbers that a header shows are 64-bit integers.
  predicate Fit(h: Hunk, form: Form) {
    && h.oldStart <= MAX_INT && (form.oldCount ==> h.oldCount <= MAX_INT)
    && h.newStart <= MAX_INT && (form.newCount ==> h.newCount <= MAX_INT)
  }

  lemma ScanRanges(h: Hunk, form: Form, oldCount: bool, newCount: bool)
    requires Natural(h)
    ensures Scan(RangesPattern(oldCount, newCount), Ranges(h, form)) ==
      if oldCount == form.oldCount && newCount == form.newCount && Fit(h, form) then Match(Shown(h, form)) else Mismatch
  {
    hide Range, Scan;
    var tail := " @@" + form.heading;
    ScanTail(form.heading);
    ScanRange('+', newCount, form.newCount, TAIL, h.newStart, h.newCount, tail);
    var rest := Range('+', h.newStart, h.newCount, form.newCount, tail);
    RangeStarts('+', h.newStart, h.newCount, form.newCount, tail);
    ScanRange('-', oldCount, form.oldCount, RangePattern('+', newCount) + TAIL, h.oldStart, h.oldCount, rest);
    assert forall values: seq<int> :: values + [] == values;
  }

  lemma RangeStarts(sign: char, start: nat, count: nat, shown: bool, rest: Text)
    ensures Range(sign, start, count, shown, rest) != "" && Range(sign, start, count, shown, rest)[0] == ' '
  {
  }

  function RenderHeaderAs(h: Hunk, form: Form): Text
    requires Natural(h)
  {
    "@@" + Ranges(h, form)
  }

  // The header that unifiedDiff prints has the full form.
  lemma RenderHeaderShape(h: Hunk)
    requires Natural(h)
    ensures RenderHeader(h) == RenderHeaderAs(h, FULL)
  {
    assert " @@" + "" == " @@";
  }

  lemma ScanHeader(h: Hunk, form: Form, oldCount: bool, newCount: bool)
    requires Natural(h)
    ensures Scan(Pattern(oldCount, newCount), RenderHeaderAs(h, form)) ==
      if oldCount == form.oldCount && newCount == form.newCount && Fit(h, form) then Match(Shown(h, form)) else Mismatch
  {
    var items, text := RangesPattern(oldCount, newCount), Ranges(h, form);
    assert RenderHeaderAs(h, form) == ['@'] + (['@'] + text);
    assert Pattern(oldCount, newCount) == [Lit('@')] + ([Lit('@')] + items);
    hide Scan, Pattern, RangesPattern, Ranges;
    ScanRanges(h, form, oldCount, newCount);
    ScanLit([Lit('@')] + items, '@', ['@'] + text);
    ScanLit(items, '@', text);
  }

  // The hunk that a header in this form stands for: 1 for each count left out.
  function Meant(h: Hunk, form: Form): Hunk {
    Hunk(h.oldStart, if form.oldCount then h.oldCount else 1, h.newStart, if form.newCount then h.newCount else 1, [])
  }

  // Reading back a header gives the numbers it shows, and 1 for each count left
  // out, exactly if all numbers it shows are 64-bit integers.
  lemma HeaderRoundTrip(h: Hunk, form: Form)
    requires Natural(h)
    ensures ParseHunkHeader(RenderHeaderAs(h, form)) == if Fit(h, form) then Header(Meant(h, form)) else BadHeader
    ensures Printable(h) ==> Fit(h, form)
  {
    hide Scan, Pattern, RenderHeaderAs;
    ScanHeader(h, form, true, true);
    ScanHeader(h, form, false, false);
    ScanHeader(h, form, true, false);
    ScanHeader(h, form, false, true);
  }
}
