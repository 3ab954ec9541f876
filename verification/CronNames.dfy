/** Names of months and weekdays, and the numbers that may stand for them. */
module CronNames {
  import opened Wrappers
  import opened Text
  import opened CronParser
  import opened CronParserLaws
  import opened CronTexts
  import opened CronPatterns

  const MONTH_NAMES := ["jan", "feb", "mar", "apr", "may", "jun", "jul", "aug", "sep", "oct", "nov", "dec"]
  const WEEKDAY_NAMES := ["sun", "mon", "tue", "wed", "thu", "fri", "sat"]

  // The same letters, each in lower or upper case.
  predicate Spells(s: string, name: string) {
    && |s| == |name|
    && forall i :: 0 <= i < |s| ==> IsLetter(name[i]) && (s[i] == name[i] || s[i] as int == name[i] as int - 32)
  }

  lemma SpelledIsLowered(s: string, name: string)
    requires Spells(s, name)
    ensures ToLower(s) == name
  {
    LowerRunes(s);
    forall i | 0 <= i < |s| ensures LowerRune(s[i]) == name[i] {
      if s[i] as int == name[i] as int - 32 { assert 'A' <= s[i] <= 'Z'; }
    }
  }

  // ----- each name is its number -----

  lemma MonthValue(k: nat)
    requires k < 12
    ensures MONTH_NAMES[k] in MONTHS.names && MONTHS.names[MONTH_NAMES[k]] == k + 1
  {
    if k == 0 { assert MONTH_NAMES[k] == "jan"; } else if k == 1 { assert MONTH_NAMES[k] == "feb"; }
    else if k == 2 { assert MONTH_NAMES[k] == "mar"; } else if k == 3 { assert MONTH_NAMES[k] == "apr"; }
    else if k == 4 { assert MONTH_NAMES[k] == "may"; } else if k == 5 { assert MONTH_NAMES[k] == "jun"; }
    else if k == 6 { assert MONTH_NAMES[k] == "jul"; } else if k == 7 { assert MONTH_NAMES[k] == "aug"; }
    else if k == 8 { assert MONTH_NAMES[k] == "sep"; } else if k == 9 { assert MONTH_NAMES[k] == "oct"; }
    else if k == 10 { assert MONTH_NAMES[k] == "nov"; } else { assert MONTH_NAMES[k] == "dec"; }
  }

  lemma WeekdayValue(k: nat)
    requires k < 7
    ensures WEEKDAY_NAMES[k] in DAYS_OF_WEEK.names && DAYS_OF_WEEK.names[WEEKDAY_NAMES[k]] == k
  {
    if k == 0 { assert WEEKDAY_NAMES[k] == "sun"; } else if k == 1 { assert WEEKDAY_NAMES[k] == "mon"; }
    else if k == 2 { assert WEEKDAY_NAMES[k] == "tue"; } else if k == 3 { assert WEEKDAY_NAMES[k] == "wed"; }
    else if k == 4 { assert WEEKDAY_NAMES[k] == "thu"; } else if k == 5 { assert WEEKDAY_NAMES[k] == "fri"; }
    else { assert WEEKDAY_NAMES[k] == "sat"; }
  }

  // ----- in a field and in a pattern -----

  lemma LettersAreSolid(s: string, name: string)
    requires Spells(s, name) && name != []
    ensures AllSolid(s)
  {
    SpelledIsLowered(s, name);
    LowerRunes(s);
  }

  // Texts that read as one number are one item.
  lemma SolidIsOneItem(s: string, r: Bounds)
    requires AllSolid(s)
    ensures Words(s, IsComma) == [s]
    ensures ReadItem(s, r) ==
            match ReadIntOrName(s, r.names) case Err(e) => Err(e) case Ok(n) => CheckItem(Item(n, n, 1, false), r)
  {
    SolidHasNo(s, ',');
    SolidHasNo(s, '/');
    SolidHasNo(s, '-');
    SplitWhole(s, '/');
    SplitWhole(s, '-');
    WordsWhole(s, IsComma);
  }

  lemma NumberField(s: string, n: nat, r: Bounds)
    requires AllSolid(s) && ReadIntOrName(s, r.names) == Ok(n) && r.min <= n <= r.max
    ensures FieldBits(s, r) == Ok({n})
  {
    SolidIsOneItem(s, r);
    OneNumber(n);
    OneItemBits(s, Item(n, n, 1, false), r);
  }

  lemma OneNumber(n: nat)
    ensures ItemBits(Item(n, n, 1, false)) == {n}
  {
    forall k: nat ensures k in ItemBits(Item(n, n, 1, false)) <==> k == n { assert (n - n) % 1 == 0; }
  }

  lemma OneItemBits(s: string, item: Item, r: Bounds)
    requires ReadItem(s, r) == Ok(item) && item.step > 0
    ensures ItemsBits([s], r) == Ok(ItemBits(item))
  {
    assert [s][..0] == [] && ItemsBits([s][..0], r) == Ok({});
    assert {} + ItemBits(item) == ItemBits(item);
  }

  predicate Digits(s: string) {
    s != [] && AllDigits(s) && DigitsValue(s) <= MAX_INT
  }

  lemma DigitsRead(s: string, r: Bounds)
    requires Digits(s) && PlainNames(r)
    ensures ReadIntOrName(s, r.names) == Ok(DigitsValue(s)) && AllSolid(s)
  {
    NumberReads(Num(Numeral(false, s)), r);
  }

  lemma NameField(s: string, name: string, n: nat, r: Bounds)
    requires Spells(s, name) && name != [] && name in r.names && r.names[name] == n && r.min <= n <= r.max
    ensures FieldBits(s, r) == Ok({n})
  {
    SpelledIsLowered(s, name);
    LettersAreSolid(s, name);
    NumberField(s, n, r);
  }

  lemma DigitsField(digits: string, r: Bounds)
    requires Digits(digits) && PlainNames(r) && r.min <= DigitsValue(digits) <= r.max
    ensures FieldBits(digits, r) == Ok({DigitsValue(digits)})
  {
    DigitsRead(digits, r);
    NumberField(digits, DigitsValue(digits), r);
  }

  lemma MonthNameField(s: string, k: nat)
    requires k < 12 && Spells(s, MONTH_NAMES[k])
    ensures FieldBits(s, MONTHS) == Ok({k + 1})
  {
    MonthValue(k);
    NameField(s, MONTH_NAMES[k], k + 1, MONTHS);
  }

  lemma MonthDigitsField(digits: string)
    requires Digits(digits) && 1 <= DigitsValue(digits) <= 12
    ensures FieldBits(digits, MONTHS) == Ok({DigitsValue(digits)})
  {
    MonthNamesArePlain();
    DigitsField(digits, MONTHS);
  }

  // A field that is a month's name, in any spelling, is the field that is its number, and holds just it.
  lemma MonthField(s: string, k: nat, digits: string)
    requires k < 12 && Spells(s, MONTH_NAMES[k]) && Digits(digits) && DigitsValue(digits) == k + 1
    ensures FieldBits(s, MONTHS) == FieldBits(digits, MONTHS) == Ok({k + 1})
  {
    MonthNameField(s, k);
    MonthDigitsField(digits);
  }

  lemma WeekdayNameField(s: string, k: nat)
    requires k < 7 && Spells(s, WEEKDAY_NAMES[k])
    ensures FieldBits(s, DAYS_OF_WEEK) == Ok({k})
  {
    WeekdayValue(k);
    NameField(s, WEEKDAY_NAMES[k], k, DAYS_OF_WEEK);
  }

  lemma WeekdayDigitsField(digits: string)
    requires Digits(digits) && DigitsValue(digits) <= 6
    ensures FieldBits(digits, DAYS_OF_WEEK) == Ok({DigitsValue(digits)})
  {
    WeekdayNamesArePlain();
    DigitsField(digits, DAYS_OF_WEEK);
  }

  // The same for a weekday.
  lemma WeekdayField(s: string, k: nat, digits: string)
    requires k < 7 && Spells(s, WEEKDAY_NAMES[k]) && Digits(digits) && DigitsValue(digits) == k
    ensures FieldBits(s, DAYS_OF_WEEK) == FieldBits(digits, DAYS_OF_WEEK) == Ok({k})
  {
    WeekdayNameField(s, k);
    WeekdayDigitsField(digits);
  }

  function Six(fields: seq<string>): seq<string> {
    if |fields| == 5 then ["0"] + fields else fields
  }

  lemma SameFieldsParse(a: seq<string>, b: seq<string>, durations: Durations)
    requires 5 <= |a| == |b| <= 6 && forall i :: 0 <= i < |a| ==> Compact(a[i]) && Compact(b[i])
    requires ReadFields(Six(a)) == ReadFields(Six(b))
    ensures Parse(Joined(a), durations) == Parse(Joined(b), durations)
  {
    JoinedParses(a, durations);
    JoinedParses(b, durations);
  }

  lemma SameSixRead(a: seq<string>, b: seq<string>)
    requires |a| == 6 && |b| == 6 && a[..4] == b[..4]
    requires FieldBits(a[4], MONTHS) == FieldBits(b[4], MONTHS)
    requires FieldBits(a[5], DAYS_OF_WEEK) == FieldBits(b[5], DAYS_OF_WEEK)
    ensures ReadFields(a) == ReadFields(b)
  {
    assert a[0] == a[..4][0] && a[1] == a[..4][1] && a[2] == a[..4][2] && a[3] == a[..4][3];
    assert b[0] == b[..4][0] && b[1] == b[..4][1] && b[2] == b[..4][2] && b[3] == b[..4][3];
  }

  lemma MonthTextIsCompact(s: string, k: nat, digits: string)
    requires k < 12 && Spells(s, MONTH_NAMES[k]) && Digits(digits)
    ensures Compact(s) && Compact(digits)
  {
    LettersAreSolid(s, MONTH_NAMES[k]);
    SolidIsCompact(s);
    SolidIsCompact(digits);
  }

  lemma WeekdayTextIsCompact(s: string, k: nat, digits: string)
    requires k < 7 && Spells(s, WEEKDAY_NAMES[k]) && Digits(digits)
    ensures Compact(s) && Compact(digits)
  {
    LettersAreSolid(s, WEEKDAY_NAMES[k]);
    SolidIsCompact(s);
    SolidIsCompact(digits);
  }

  lemma UpdatedParse(fields: seq<string>, i: nat, a: string, b: string, durations: Durations)
    requires 5 <= |fields| <= 6 && i < |fields| && Compact(a) && Compact(b)
    requires forall j :: 0 <= j < |fields| ==> Compact(fields[j])
    requires ReadFields(Six(fields[i := a])) == ReadFields(Six(fields[i := b]))
    ensures Parse(Joined(fields[i := a]), durations) == Parse(Joined(fields[i := b]), durations)
  {
    SameFieldsParse(fields[i := a], fields[i := b], durations);
  }

  lemma MonthRead(fields: seq<string>, a: string, b: string)
    requires 5 <= |fields| <= 6 && FieldBits(a, MONTHS) == FieldBits(b, MONTHS)
    ensures ReadFields(Six(fields[|fields| - 2 := a])) == ReadFields(Six(fields[|fields| - 2 := b]))
  {
    SameSixRead(Six(fields[|fields| - 2 := a]), Six(fields[|fields| - 2 := b]));
  }

  lemma WeekdayRead(fields: seq<string>, a: string, b: string)
    requires 5 <= |fields| <= 6 && FieldBits(a, DAYS_OF_WEEK) == FieldBits(b, DAYS_OF_WEEK)
    ensures ReadFields(Six(fields[|fields| - 1 := a])) == ReadFields(Six(fields[|fields| - 1 := b]))
  {
    SameSixRead(Six(fields[|fields| - 1 := a]), Six(fields[|fields| - 1 := b]));
  }

  // In a whole pattern of five or six fields the name of a month, in any spelling, may stand for its number.
  lemma MonthNameInPattern(fields: seq<string>, s: string, k: nat, digits: string, durations: Durations)
    requires 5 <= |fields| <= 6 && forall i :: 0 <= i < |fields| ==> Compact(fields[i])
    requires k < 12 && Spells(s, MONTH_NAMES[k]) && Digits(digits) && DigitsValue(digits) == k + 1
    ensures var m := |fields| - 2;
      Parse(Joined(fields[m := s]), durations) == Parse(Joined(fields[m := digits]), durations)
  {
    MonthField(s, k, digits);
    MonthRead(fields, s, digits);
    MonthTextIsCompact(s, k, digits);
    UpdatedParse(fields, |fields| - 2, s, digits, durations);
  }

  // And the name of a weekday for its number.
  lemma WeekdayNameInPattern(fields: seq<string>, s: string, k: nat, digits: string, durations: Durations)
    requires 5 <= |fields| <= 6 && forall i :: 0 <= i < |fields| ==> Compact(fields[i])
    requires k < 7 && Spells(s, WEEKDAY_NAMES[k]) && Digits(digits) && DigitsValue(digits) == k
    ensures var w := |fields| - 1;
      Parse(Joined(fields[w := s]), durations) == Parse(Joined(fields[w := digits]), durations)
  {
    WeekdayField(s, k, digits);
    WeekdayRead(fields, s, digits);
    WeekdayTextIsCompact(s, k, digits);
    UpdatedParse(fields, |fields| - 1, s, digits, durations);
  }

  // As the end of a range, too, a name denotes its number.
  lemma MonthDenotes(s: string, k: nat)
    requires k < 12 && Spells(s, MONTH_NAMES[k])
    ensures NumberFits(Name(s), MONTHS) && NumberValue(Name(s), MONTHS) == k + 1
  {
    SpelledIsLowered(s, MONTH_NAMES[k]);
    MonthValue(k);
  }

  lemma WeekdayDenotes(s: string, k: nat)
    requires k < 7 && Spells(s, WEEKDAY_NAMES[k])
    ensures NumberFits(Name(s), DAYS_OF_WEEK) && NumberValue(Name(s), DAYS_OF_WEEK) == k
  {
    SpelledIsLowered(s, WEEKDAY_NAMES[k]);
    WeekdayValue(k);
  }

  // ----- the limits of the fields -----

  lemma DigitsLimit(digits: string, r: Bounds)
    requires Digits(digits) && PlainNames(r)
    ensures FieldBits(digits, r).Ok? <==> r.min <= DigitsValue(digits) <= r.max
  {
    DigitsRead(digits, r);
    if r.min <= DigitsValue(digits) <= r.max {
      NumberField(digits, DigitsValue(digits), r);
    } else {
      SolidIsOneItem(digits, r);
      ItemsUnion([digits], r, 0);
      assert digits in [digits];
    }
  }

  // The numbers that each field accepts.
  lemma FieldLimits(digits: string)
    requires Digits(digits)
    ensures var n := DigitsValue(digits);
      && (FieldBits(digits, SECONDS).Ok? <==> n < 60) && (FieldBits(digits, MINUTES).Ok? <==> n < 60)
      && (FieldBits(digits, HOURS).Ok? <==> n < 24)
      && (FieldBits(digits, DAYS_OF_MONTH).Ok? <==> 1 <= n <= 31)
      && (FieldBits(digits, MONTHS).Ok? <==> 1 <= n <= 12) && (FieldBits(digits, DAYS_OF_WEEK).Ok? <==> n < 7)
  {
    FieldNamesArePlain();
    DigitsLimit(digits, SECONDS);
    DigitsLimit(digits, MINUTES);
    DigitsLimit(digits, HOURS);
    DigitsLimit(digits, DAYS_OF_MONTH);
    DigitsLimit(digits, MONTHS);
    DigitsLimit(digits, DAYS_OF_WEEK);
  }
}
