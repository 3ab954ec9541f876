/** The items and fields of a pattern as they can be written, and what they are read as. */
module CronTexts {
  import opened Wrappers
  import opened Text
  import opened CronParser
  import opened CronParserLaws

  // ----- the grammar -----

  // A decimal number, with leading zeros and a plus sign if its writer wants.
  datatype Numeral = Numeral(plus: bool, digits: string)

  datatype Number = Num(numeral: Numeral) | Name(name: string)

  // A star or a question mark, with what may follow it after a hyphen; one number; or two.
  datatype Span = Star(mark: char, tail: Option<string>) | One(n: Number) | Between(low: Number, high: Number)

  datatype Written = Written(span: Span, step: Option<Numeral>)

  function NumeralText(n: Numeral): string {
    if n.plus then "+" + n.digits else n.digits
  }

  function NumberText(n: Number): string {
    match n
    case Num(numeral) => NumeralText(numeral)
    case Name(name) => name
  }

  function SpanText(span: Span): string {
    match span
    case Star(mark, None) => [mark]
    case Star(mark, Some(tail)) => [mark] + ['-'] + tail
    case One(n) => NumberText(n)
    case Between(low, high) => NumberText(low) + ['-'] + NumberText(high)
  }

  function WrittenText(w: Written): string {
    SpanText(w.span) + if w.step.Some? then "/" + NumeralText(w.step.value) else ""
  }

  predicate NumeralFits(n: Numeral) {
    n.digits != [] && AllDigits(n.digits) && DigitsValue(n.digits) <= MAX_INT
  }

  predicate NumberFits(n: Number, r: Bounds) {
    match n
    case Num(numeral) => NumeralFits(numeral)
    case Name(name) => ToLower(name) in r.names
  }

  predicate SpanFits(span: Span, r: Bounds) {
    match span
    case Star(mark, tail) => IsStar([mark]) && (tail.Some? ==> '/' !in tail.value)
    case One(n) => NumberFits(n, r)
    case Between(low, high) => NumberFits(low, r) && NumberFits(high, r)
  }

  predicate Fits(w: Written, r: Bounds) {
    SpanFits(w.span, r) && (w.step.Some? ==> NumeralFits(w.step.value))
  }

  function NumeralValue(n: Numeral): nat {
    if AllDigits(n.digits) then DigitsValue(n.digits) else 0
  }

  function NumberValue(n: Number, r: Bounds): nat {
    match n
    case Num(numeral) => NumeralValue(numeral)
    case Name(name) => if ToLower(name) in r.names then r.names[ToLower(name)] else 0
  }

  // "N" is N alone, "N/S" runs from N to the maximum, a star is the whole range.
  function Denotes(w: Written, r: Bounds): Item {
    var step := if w.step.Some? then NumeralValue(w.step.value) else 1;
    match w.span
    case Star(_, _) => Item(r.min, r.max, step, true)
    case One(n) => Item(NumberValue(n, r), if w.step.Some? then r.max else NumberValue(n, r), step, false)
    case Between(low, high) => Item(NumberValue(low, r), NumberValue(high, r), step, false)
  }

  // ----- written items read as what they denote -----

  // The rune is no separator of items, fields or parts of an item.
  predicate Solid(c: char) {
    IsDigit(c) || c == '+' || IsLetter(LowerRune(c))
  }

  predicate AllSolid(s: string) {
    s != [] && forall i :: 0 <= i < |s| ==> Solid(s[i])
  }

  lemma SolidHasNo(s: string, c: char)
    requires AllSolid(s) && c in {'-', '/', ',', '*', '?', '@', ' '}
    ensures c !in s && !IsStar(s)
  {
    assert Solid(s[0]);
  }

  lemma {:induction false} LowerRunes(s: string)
    ensures |ToLower(s)| == |s| && forall i :: 0 <= i < |s| ==> ToLower(s)[i] == LowerRune(s[i])
  {
    if s != [] {
      LowerRunes(s[1..]);
      assert forall i :: 0 < i < |s| ==> s[i] == s[1..][i - 1];
    }
  }

  lemma NumeralReads(n: Numeral)
    requires NumeralFits(n)
    ensures ReadInt(NumeralText(n)) == Ok(NumeralValue(n)) && AllSolid(NumeralText(n))
  {
    assert IsDigit(n.digits[0]);
    if n.plus { assert NumeralText(n)[1..] == n.digits; }
  }

  lemma NumberReads(n: Number, r: Bounds)
    requires PlainNames(r) && NumberFits(n, r)
    ensures ReadIntOrName(NumberText(n), r.names) == Ok(NumberValue(n, r)) && AllSolid(NumberText(n))
  {
    LowerRunes(NumberText(n));
    match n
    case Num(numeral) =>
      NumeralReads(numeral);
      var s := NumberText(n);
      assert IsDigit(numeral.digits[0]);
      assert ToLower(s)[0] == s[0] && !IsLetter(s[0]);
    case Name(name) =>
      assert forall i :: 0 <= i < |name| ==> IsLetter(ToLower(name)[i]);
  }

  // The part of the item before the slash, split at its hyphens.
  lemma SpanSplits(span: Span, r: Bounds)
    requires PlainNames(r) && SpanFits(span, r)
    ensures '/' !in SpanText(span)
    ensures var parts := SplitOn(SpanText(span), '-');
      match span
      case Star(mark, tail) => parts[0] == [mark] && (|parts| == 1 <==> tail.None?)
      case One(n) => parts == [NumberText(n)]
      case Between(low, high) => parts == [NumberText(low), NumberText(high)]
  {
    match span
    case Star(mark, None) =>
      SplitWhole([mark], '-');
    case Star(mark, Some(tail)) =>
      SplitJoin([mark], '-', tail);
    case One(n) =>
      NumberReads(n, r);
      SolidHasNo(NumberText(n), '-');
      SolidHasNo(NumberText(n), '/');
      SplitWhole(NumberText(n), '-');
    case Between(low, high) =>
      NumberReads(low, r);
      NumberReads(high, r);
      SolidHasNo(NumberText(low), '-');
      SolidHasNo(NumberText(low), '/');
      SolidHasNo(NumberText(high), '-');
      SolidHasNo(NumberText(high), '/');
      SplitJoin(NumberText(low), '-', NumberText(high));
      SplitWhole(NumberText(high), '-');
  }

  lemma WrittenSplits(w: Written, r: Bounds)
    requires PlainNames(r) && Fits(w, r)
    ensures SplitOn(WrittenText(w), '/') ==
            [SpanText(w.span)] + if w.step.Some? then [NumeralText(w.step.value)] else []
  {
    SpanSplits(w.span, r);
    if w.step.Some? {
      var s := NumeralText(w.step.value);
      NumeralReads(w.step.value);
      SolidHasNo(s, '/');
      SplitJoin(SpanText(w.span), '/', s);
      SplitWhole(s, '/');
      assert WrittenText(w) == SpanText(w.span) + ['/'] + s;
    } else {
      assert WrittenText(w) == SpanText(w.span);
      SplitWhole(SpanText(w.span), '/');
    }
  }

  // The ends of the item as they are read.
  lemma SpanReads(span: Span, r: Bounds)
    requires PlainNames(r) && SpanFits(span, r)
    ensures var parts := SplitOn(SpanText(span), '-');
      match span
      case Star(_, _) => IsStar(parts[0]) && ReadEnds(parts, r) == Ok((r.min, r.max))
      case One(n) =>
        |parts| == 1 && !IsStar(parts[0]) && ReadEnds(parts, r) == Ok((NumberValue(n, r), NumberValue(n, r)))
      case Between(low, high) =>
        |parts| == 2 && !IsStar(parts[0]) && ReadEnds(parts, r) == Ok((NumberValue(low, r), NumberValue(high, r)))
  {
    SpanSplits(span, r);
    match span
    case Star(_, _) =>
    case One(n) =>
      NumberReads(n, r);
      SolidHasNo(NumberText(n), '*');
    case Between(low, high) =>
      NumberReads(low, r);
      NumberReads(high, r);
      SolidHasNo(NumberText(low), '*');
  }

  // Reading the text of an item yields what the item denotes, if its range lies in the bounds and its step
  // is not 0, and otherwise the error of the first fault in this order.
  lemma WrittenReads(w: Written, r: Bounds)
    requires PlainNames(r) && Fits(w, r)
    ensures ReadItem(WrittenText(w), r) == CheckItem(Denotes(w, r), r)
    ensures var res := ReadItem(WrittenText(w), r); var i := Denotes(w, r);
      && (res.Ok? <==> r.min <= i.start <= i.end <= r.max && i.step > 0)
      && (res.Ok? ==> res.value == i)
      && (res == Err(BelowMinimum) <==> i.start < r.min)
      && (res == Err(AboveMaximum) <==> i.start >= r.min && i.end > r.max)
      && (res == Err(StartBeyondEnd) <==> r.min <= i.start && i.end <= r.max && i.start > i.end)
      && (res == Err(ZeroStep) <==> r.min <= i.start <= i.end <= r.max && i.step == 0)
  {
    WrittenSplits(w, r);
    SpanReads(w.span, r);
    if w.step.Some? { NumeralReads(w.step.value); }
  }

  // ----- every accepted item is written so -----

  lemma {:induction false} SplitHead(s: string, c: char)
    ensures var parts := SplitOn(s, c);
      && c !in parts[0] && parts[0] <= s
      && (|parts| == 1 ==> s == parts[0])
      && (|parts| > 1 ==> |s| > |parts[0]| && s[|parts[0]|] == c && SplitOn(s[|parts[0]| + 1..], c) == parts[1..])
  {
    if s != [] {
      SplitHead(s[1..], c);
      var parts, rest := SplitOn(s, c), SplitOn(s[1..], c);
      if s[0] == c {
        assert parts == [""] + rest;
        assert s[|parts[0]| + 1..] == s[1..];
      } else {
        assert parts[0] == [s[0]] + rest[0] && parts[1..] == rest[1..];
        assert s == [s[0]] + s[1..];
        if |parts| > 1 { assert s[|parts[0]| + 1..] == s[1..][|rest[0]| + 1..]; }
      }
    }
  }

  lemma SplitInTwo(s: string, c: char)
    requires |SplitOn(s, c)| == 2
    ensures var parts := SplitOn(s, c); s == parts[0] + [c] + parts[1] && c !in parts[0] && c !in parts[1]
  {
    SplitHead(s, c);
    var parts := SplitOn(s, c);
    var rest := s[|parts[0]| + 1..];
    SplitHead(rest, c);
    assert SplitOn(rest, c) == [parts[1]];
    assert s == parts[0] + [c] + rest;
  }

  lemma NumeralWritten(s: string) returns (n: Numeral)
    requires ReadInt(s).Ok? && (ReadInt(s).value > 0 || '-' !in s)
    ensures NumeralFits(n) && NumeralText(n) == s
  {
    if s[0] == '+' {
      n := Numeral(true, s[1..]);
      assert s == "+" + s[1..];
    } else {
      n := Numeral(false, s);
    }
  }

  lemma NumberWritten(s: string, r: Bounds) returns (n: Number)
    requires ReadIntOrName(s, r.names).Ok? && '-' !in s
    ensures NumberFits(n, r) && NumberText(n) == s
  {
    if ToLower(s) in r.names {
      n := Name(s);
    } else {
      var numeral := NumeralWritten(s);
      n := Num(numeral);
    }
  }

  lemma SpanWritten(s: string, r: Bounds) returns (span: Span)
    requires ReadEnds(SplitOn(s, '-'), r).Ok? && '/' !in s
    ensures SpanFits(span, r) && SpanText(span) == s
  {
    var parts := SplitOn(s, '-');
    SplitHead(s, '-');
    if IsStar(parts[0]) {
      if |parts| == 1 {
        span := Star(parts[0][0], None);
      } else {
        span := Star(parts[0][0], Some(s[2..]));
        assert s == parts[0] + ['-'] + s[2..];
      }
    } else if |parts| == 1 {
      var n := NumberWritten(s, r);
      span := One(n);
    } else {
      SplitInTwo(s, '-');
      var low := NumberWritten(parts[0], r);
      var high := NumberWritten(parts[1], r);
      span := Between(low, high);
    }
  }

  lemma ItemParts(expr: string, r: Bounds)
    requires ReadItem(expr, r).Ok?
    ensures var parts := SplitOn(expr, '/');
      && ReadEnds(SplitOn(parts[0], '-'), r).Ok? && |parts| <= 2
      && (|parts| == 2 ==> ReadInt(parts[1]).Ok? && ReadInt(parts[1]).value > 0)
  {
  }

  lemma ItemWritten(expr: string, r: Bounds) returns (w: Written)
    requires ReadItem(expr, r).Ok?
    ensures Fits(w, r) && WrittenText(w) == expr
  {
    var parts := SplitOn(expr, '/');
    ItemParts(expr, r);
    SplitHead(expr, '/');
    var span := SpanWritten(parts[0], r);
    if |parts| == 1 {
      w := Written(span, None);
    } else {
      SplitInTwo(expr, '/');
      var step := NumeralWritten(parts[1]);
      w := Written(span, Some(step));
      WithStep(expr, parts[0], parts[1]);
    }
  }

  lemma WithStep(expr: string, a: string, b: string)
    requires expr == a + ['/'] + b
    ensures expr == a + ("/" + b)
  {
  }

  // The accepted items are exactly the written ones whose range lies in the bounds.
  lemma AcceptedIsWritten(expr: string, r: Bounds)
    requires PlainNames(r)
    ensures ReadItem(expr, r).Ok? <==>
            exists w :: Fits(w, r) && WrittenText(w) == expr && CheckItem(Denotes(w, r), r).Ok?
  {
    if ReadItem(expr, r).Ok? {
      var w := ItemWritten(expr, r);
      WrittenReads(w, r);
    } else if w :| Fits(w, r) && WrittenText(w) == expr && CheckItem(Denotes(w, r), r).Ok? {
      WrittenReads(w, r);
    }
  }

  // ----- fields -----

  // What follows a star and a hyphen holds no separator of items or fields.
  predicate Tidy(w: Written) {
    w.span.Star? && w.span.tail.Some? ==> NoSpace(w.span.tail.value) && ',' !in w.span.tail.value
  }

  predicate FieldFits(ws: seq<Written>, r: Bounds) {
    ws != [] && forall w :: w in ws ==> Fits(w, r) && Tidy(w)
  }

  function FieldText(ws: seq<Written>): string {
    if ws == [] then ""
    else if |ws| == 1 then WrittenText(ws[0])
    else WrittenText(ws[0]) + [','] + FieldText(ws[1..])
  }

  function WrittenTexts(ws: seq<Written>): (texts: seq<string>)
    ensures |texts| == |ws|
    ensures forall i :: 0 <= i < |ws| ==> texts[i] == WrittenText(ws[i])
  {
    if ws == [] then [] else [WrittenText(ws[0])] + WrittenTexts(ws[1..])
  }

  // A text that begins like an item and holds no separator of fields.
  predicate Compact(s: string) {
    s != [] && NoSpace(s) && s[0] != '@'
  }

  lemma SolidIsCompact(s: string)
    requires AllSolid(s)
    ensures Compact(s) && ',' !in s
  {
    SolidHasNo(s, ',');
    SolidHasNo(s, '@');
  }

  lemma SpanIsCompact(span: Span, r: Bounds)
    requires PlainNames(r) && SpanFits(span, r) && Tidy(Written(span, None))
    ensures Compact(SpanText(span)) && ',' !in SpanText(span)
  {
    match span
    case Star(_, _) =>
    case One(n) =>
      NumberReads(n, r);
      SolidIsCompact(NumberText(n));
    case Between(low, high) =>
      NumberReads(low, r);
      NumberReads(high, r);
      SolidIsCompact(NumberText(low));
      SolidIsCompact(NumberText(high));
  }

  lemma WrittenIsCompact(w: Written, r: Bounds)
    requires PlainNames(r) && Fits(w, r) && Tidy(w)
    ensures Compact(WrittenText(w)) && ',' !in WrittenText(w)
  {
    SpanIsCompact(w.span, r);
    if w.step.Some? {
      NumeralReads(w.step.value);
      SolidIsCompact(NumeralText(w.step.value));
    }
  }

  lemma CompactJoin(a: string, c: char, b: string)
    requires Compact(a) && !IsSpace(c) && Compact(b)
    ensures Compact(a + [c] + b)
  {
  }

  lemma {:induction false} FieldTextIsCompact(ws: seq<Written>, r: Bounds)
    requires PlainNames(r) && FieldFits(ws, r)
    ensures Compact(FieldText(ws))
  {
    WrittenIsCompact(ws[0], r);
    if |ws| > 1 {
      FieldTextIsCompact(ws[1..], r);
      CompactJoin(WrittenText(ws[0]), ',', FieldText(ws[1..]));
    }
  }

  // The items of a written field are the items it was written from.
  lemma {:induction false} FieldTextItems(ws: seq<Written>, r: Bounds)
    requires PlainNames(r) && FieldFits(ws, r)
    ensures Words(FieldText(ws), IsComma) == WrittenTexts(ws)
  {
    var first, rest := WrittenText(ws[0]), ws[1..];
    WrittenIsCompact(ws[0], r);
    if rest == [] {
      WordsWhole(first, IsComma);
    } else {
      WordsCons(first, ',', FieldText(rest), IsComma);
      FieldTextItems(rest, r);
    }
  }

  predicate WrittenHas(w: Written, r: Bounds, k: nat) {
    Denotes(w, r).step > 0 && k in ItemBits(Denotes(w, r))
  }

  predicate Acceptable(ws: seq<Written>, r: Bounds) {
    forall w :: w in ws ==> CheckItem(Denotes(w, r), r).Ok?
  }

  predicate FieldHas(ws: seq<Written>, r: Bounds, k: nat) {
    exists w :: w in ws && WrittenHas(w, r, k)
  }

  // The values and the star bit of the items.
  function WrittenBits(ws: seq<Written>, r: Bounds): set<nat> {
    set k: nat | k < 64 && FieldHas(ws, r, k)
  }

  lemma WrittenItem(w: Written, r: Bounds, k: nat)
    requires PlainNames(r) && Fits(w, r)
    ensures ReadItem(WrittenText(w), r).Ok? <==> CheckItem(Denotes(w, r), r).Ok?
    ensures ReadItem(WrittenText(w), r).Ok? ==> (ItemHas(WrittenText(w), r, k) <==> WrittenHas(w, r, k))
  {
    WrittenReads(w, r);
  }

  predicate AllRead(texts: seq<string>, r: Bounds) {
    forall e :: e in texts ==> ReadItem(e, r).Ok?
  }

  ghost predicate SomeHas(texts: seq<string>, r: Bounds, k: nat) {
    exists e :: e in texts && ItemHas(e, r, k)
  }

  lemma AllItemsRead(ws: seq<Written>, texts: seq<string>, r: Bounds)
    requires PlainNames(r) && (forall w :: w in ws ==> Fits(w, r)) && texts == WrittenTexts(ws)
    ensures AllRead(texts, r) <==> Acceptable(ws, r)
  {
    forall i | 0 <= i < |ws|
      ensures ReadItem(texts[i], r).Ok? <==> CheckItem(Denotes(ws[i], r), r).Ok?
    {
      WrittenItem(ws[i], r, 0);
    }
    if AllRead(texts, r) {
      forall w | w in ws ensures CheckItem(Denotes(w, r), r).Ok? {
        var i :| 0 <= i < |ws| && ws[i] == w;
        assert texts[i] in texts;
      }
    }
    if Acceptable(ws, r) {
      forall e | e in texts ensures ReadItem(e, r).Ok? {
        var i :| 0 <= i < |texts| && texts[i] == e;
        assert ws[i] in ws;
      }
    }
  }

  lemma WrittenItems(ws: seq<Written>, texts: seq<string>, r: Bounds, k: nat)
    requires PlainNames(r) && (forall w :: w in ws ==> Fits(w, r)) && texts == WrittenTexts(ws)
    requires AllRead(texts, r)
    ensures SomeHas(texts, r, k) <==> FieldHas(ws, r, k)
  {
    if SomeHas(texts, r, k) {
      var e :| e in texts && ItemHas(e, r, k);
      var i :| 0 <= i < |texts| && texts[i] == e;
      WrittenItem(ws[i], r, k);
      assert ws[i] in ws && WrittenHas(ws[i], r, k);
    }
    if FieldHas(ws, r, k) {
      var w :| w in ws && WrittenHas(w, r, k);
      var i :| 0 <= i < |ws| && ws[i] == w;
      WrittenItem(w, r, k);
      assert texts[i] in texts && ItemHas(texts[i], r, k);
    }
  }

  lemma FieldOfItems(field: string, texts: seq<string>, r: Bounds, k: nat)
    requires PlainNames(r) && r.max < 63 && Words(field, IsComma) == texts
    ensures FieldBits(field, r).Ok? <==> AllRead(texts, r)
    ensures AllRead(texts, r) ==>
      (k in FieldBits(field, r).value <==> SomeHas(texts, r, k)) && (k in FieldBits(field, r).value ==> k < 64)
  {
    FieldMeaning(field, r, k);
  }

  // The field's comma items are those written; commas around and between them do not matter.
  predicate FieldWrites(field: string, ws: seq<Written>, r: Bounds) {
    (forall w :: w in ws ==> Fits(w, r)) && Words(field, IsComma) == WrittenTexts(ws)
  }

  lemma WrittenBit(field: string, ws: seq<Written>, r: Bounds, k: nat)
    requires PlainNames(r) && r.max < 63 && FieldWrites(field, ws, r)
    ensures FieldBits(field, r).Ok? <==> Acceptable(ws, r)
    ensures Acceptable(ws, r) ==> (k in FieldBits(field, r).value <==> k in WrittenBits(ws, r))
  {
    FieldOfItems(field, WrittenTexts(ws), r, k);
    AllItemsRead(ws, WrittenTexts(ws), r);
    if Acceptable(ws, r) { WrittenItems(ws, WrittenTexts(ws), r, k); }
  }

  // Such a field is accepted exactly when every item denotes a range inside the bounds, and its bits are
  // then those of the ranges.
  lemma FieldWritesRead(field: string, ws: seq<Written>, r: Bounds)
    requires PlainNames(r) && r.max < 63 && FieldWrites(field, ws, r)
    ensures FieldBits(field, r).Ok? <==> Acceptable(ws, r)
    ensures Acceptable(ws, r) ==> FieldBits(field, r) == Ok(WrittenBits(ws, r))
  {
    WrittenBit(field, ws, r, 0);
    if Acceptable(ws, r) {
      var bits := FieldBits(field, r).value;
      forall k: nat ensures k in bits <==> k in WrittenBits(ws, r) { WrittenBit(field, ws, r, k); }
      assert bits == WrittenBits(ws, r);
    }
  }

  lemma WrittenFieldReads(ws: seq<Written>, r: Bounds)
    requires PlainNames(r) && r.max < 63 && FieldFits(ws, r)
    ensures FieldBits(FieldText(ws), r).Ok? <==> Acceptable(ws, r)
    ensures Acceptable(ws, r) ==> FieldBits(FieldText(ws), r) == Ok(WrittenBits(ws, r))
  {
    FieldTextItems(ws, r);
    FieldWritesRead(FieldText(ws), ws, r);
  }

  lemma {:induction false} ItemsWritten(texts: seq<string>, r: Bounds) returns (ws: seq<Written>)
    requires AllRead(texts, r)
    ensures (forall w :: w in ws ==> Fits(w, r)) && WrittenTexts(ws) == texts
  {
    if texts == [] {
      ws := [];
    } else {
      var first := ItemWritten(texts[0], r);
      var rest := ItemsWritten(texts[1..], r);
      ws := [first] + rest;
      assert ws[1..] == rest && [texts[0]] + texts[1..] == texts;
    }
  }

  // Every accepted field is written so.
  lemma FieldWritten(field: string, r: Bounds) returns (ws: seq<Written>)
    requires PlainNames(r) && r.max < 63 && FieldBits(field, r).Ok?
    ensures FieldWrites(field, ws, r) && Acceptable(ws, r)
  {
    FieldOfItems(field, Words(field, IsComma), r, 0);
    ws := ItemsWritten(Words(field, IsComma), r);
    FieldWritesRead(field, ws, r);
  }
}
