/** What an accepted cron pattern means, and that its two layouts mean the same thing. */
module CronParserLaws {
  import opened Wrappers
  import opened Text
  import opened Masks
  import opened CronSearch
  import opened CronParser

  predicate IsLetter(c: char) {
    'a' <= c <= 'z'
  }

  // Names are made of lower-case letters, as those of all six fields are.
  predicate PlainNames(r: Bounds) {
    forall name | name in r.names :: name != [] && forall i :: 0 <= i < |name| ==> IsLetter(name[i])
  }

  lemma MonthNamesArePlain()
    ensures PlainNames(MONTHS)
  {
    forall name | name in MONTHS.names
      ensures name != [] && forall i :: 0 <= i < |name| ==> IsLetter(name[i])
    {
      assert |name| == 3 && IsLetter(name[0]) && IsLetter(name[1]) && IsLetter(name[2]);
    }
  }

  lemma WeekdayNamesArePlain()
    ensures PlainNames(DAYS_OF_WEEK)
  {
    forall name | name in DAYS_OF_WEEK.names
      ensures name != [] && forall i :: 0 <= i < |name| ==> IsLetter(name[i])
    {
      assert |name| == 3 && IsLetter(name[0]) && IsLetter(name[1]) && IsLetter(name[2]);
    }
  }

  lemma FieldNamesArePlain()
    ensures PlainNames(SECONDS) && PlainNames(MINUTES) && PlainNames(HOURS)
    ensures PlainNames(DAYS_OF_MONTH) && PlainNames(MONTHS) && PlainNames(DAYS_OF_WEEK)
  {
    MonthNamesArePlain();
    WeekdayNamesArePlain();
  }

  // ----- numbers -----

  // Digits with or without a plus sign are their value up to 2^63-1; a minus sign is refused unless the value
  // is 0; and no other text is a number.
  lemma NumbersRead(s: string)
    ensures s != [] && AllDigits(s) ==>
      && ReadInt(s) == (if DigitsValue(s) <= MAX_INT then Ok(DigitsValue(s)) else Err(NotANumber))
      && ReadInt("+" + s) == ReadInt(s)
      && ReadInt("-" + s) == (if DigitsValue(s) == 0 then Ok(0)
                              else if DigitsValue(s) <= MAX_INT + 1 then Err(NegativeNumber) else Err(NotANumber))
    ensures s == [] || (!AllDigits(s) && !(|s| > 1 && (s[0] == '+' || s[0] == '-') && AllDigits(s[1..]))) ==>
      ReadInt(s) == Err(NotANumber)
  {
    assert ("+" + s)[1..] == s && ("-" + s)[1..] == s;
    if s != [] && AllDigits(s) { assert IsDigit(s[0]); }
  }

  // ----- the bits of an item and of a field -----

  predicate StartsStarred(expr: string) {
    expr != [] && (expr[0] == '*' || expr[0] == '?')
  }

  lemma FirstRuneOfSplit(s: string, c: char)
    requires s != [] && s[0] != c
    ensures SplitOn(s, c)[0] != [] && SplitOn(s, c)[0][0] == s[0]
  {
  }

  // A text that starts with neither a letter, a digit nor a sign is not a number or a name.
  lemma NotANumberOrName(s: string, r: Bounds)
    requires PlainNames(r) && s != [] && s[0] in {'*', '?', '@'}
    ensures ReadIntOrName(s, r.names) == Err(NotANumber)
  {
    assert ToLower(s)[0] == s[0];
    assert !IsDigit(s[0]);
  }

  lemma FirstPartOf(expr: string)
    requires expr != [] && expr[0] in {'*', '?', '@'}
    ensures var low := SplitOn(SplitOn(expr, '/')[0], '-')[0]; low != [] && low[0] == expr[0]
  {
    FirstRuneOfSplit(expr, '/');
    FirstRuneOfSplit(SplitOn(expr, '/')[0], '-');
  }

  // An accepted item has the star bit exactly when it starts with a star or a question mark.
  lemma StarMeaning(expr: string, r: Bounds)
    requires PlainNames(r) && ReadItem(expr, r).Ok?
    ensures ReadItem(expr, r).value.star <==> StartsStarred(expr)
  {
    ItemIsSound(expr, r);
    if StartsStarred(expr) {
      FirstPartOf(expr);
      var low := SplitOn(SplitOn(expr, '/')[0], '-')[0];
      if !IsStar(low) { NotANumberOrName(low, r); }
    }
  }

  // Bit k of an accepted item, for every k: the progression inside the bounds, and the star bit.
  lemma ItemMeaning(expr: string, r: Bounds, k: nat)
    requires PlainNames(r) && r.max < 63 && ReadItem(expr, r).Ok?
    ensures var item := ReadItem(expr, r).value;
      && r.min <= item.start <= item.end <= r.max && item.step > 0
      && item.start in ItemBits(item)
      && (k in ItemBits(item) <==>
          if k == STAR_BIT then StartsStarred(expr) else InProgression(k, item.start, item.end, item.step))
  {
    ItemIsSound(expr, r);
    StarMeaning(expr, r);
    var item := ReadItem(expr, r).value;
    assert (item.start - item.start) % item.step == 0;
  }

  // The item reads, and its bits contain k.
  ghost predicate ItemHas(expr: string, r: Bounds, k: nat) {
    exists item :: ReadItem(expr, r) == Ok(item) && item.step > 0 && k in ItemBits(item)
  }

  lemma LastItem(exprs: seq<string>, r: Bounds, k: nat)
    requires exprs != []
    ensures var n := |exprs| - 1;
      && (ItemsBits(exprs, r).Ok? <==> ItemsBits(exprs[..n], r).Ok? && ReadItem(exprs[n], r).Ok?)
      && (ItemsBits(exprs, r).Ok? ==>
          (k in ItemsBits(exprs, r).value <==> k in ItemsBits(exprs[..n], r).value || ItemHas(exprs[n], r, k)))
  {
    ItemIsSound(exprs[|exprs| - 1], r);
  }

  // A list of items is accepted exactly when each of its items is, and its bits are theirs.
  lemma {:induction false} ItemsUnion(exprs: seq<string>, r: Bounds, k: nat)
    ensures ItemsBits(exprs, r).Ok? <==> forall e :: e in exprs ==> ReadItem(e, r).Ok?
    ensures ItemsBits(exprs, r).Ok? ==> (k in ItemsBits(exprs, r).value <==> exists e :: e in exprs && ItemHas(e, r, k))
  {
    if exprs != [] {
      var n := |exprs| - 1;
      var rest, last := exprs[..n], exprs[n];
      LastItem(exprs, r, k);
      ItemsUnion(rest, r, k);
      assert exprs == rest + [last];
      assert forall e :: e in exprs <==> e in rest || e == last;
    }
  }

  lemma ItemHasMeaning(expr: string, r: Bounds, k: nat)
    requires PlainNames(r) && r.max < 63 && ReadItem(expr, r).Ok?
    ensures ItemHas(expr, r, k) ==> k == STAR_BIT || r.min <= k <= r.max
    ensures ItemHas(expr, r, STAR_BIT) <==> StartsStarred(expr)
    ensures ItemHas(expr, r, ReadItem(expr, r).value.start)
  {
    ItemMeaning(expr, r, k);
    ItemMeaning(expr, r, STAR_BIT);
  }

  // A field is accepted exactly when all of its comma items are. Bit k is then set exactly when
  // some item has it, a bit outside the bounds is the star bit of an item that starts with a star,
  // and only a field without any item is empty.
  lemma FieldMeaning(field: string, r: Bounds, k: nat)
    requires PlainNames(r) && r.max < 63
    ensures var items := Words(field, IsComma);
      && (FieldBits(field, r).Ok? <==> forall e :: e in items ==> ReadItem(e, r).Ok?)
      && (FieldBits(field, r).Ok? ==>
          var bits := FieldBits(field, r).value;
          && (k in bits <==> exists e :: e in items && ItemHas(e, r, k))
          && (k in bits ==> k == STAR_BIT || r.min <= k <= r.max)
          && (STAR_BIT in bits <==> exists e :: e in items && StartsStarred(e))
          && (bits == {} <==> items == []))
  {
    var items := Words(field, IsComma);
    ItemsUnion(items, r, k);
    if FieldBits(field, r).Ok? {
      ItemsUnion(items, r, STAR_BIT);
      forall e | e in items
        ensures ItemHas(e, r, k) ==> k == STAR_BIT || r.min <= k <= r.max
        ensures ItemHas(e, r, STAR_BIT) <==> StartsStarred(e)
      {
        ItemHasMeaning(e, r, k);
      }
      if items != [] {
        ItemHasMeaning(items[0], r, k);
        ItemsUnion(items, r, ReadItem(items[0], r).value.start);
      }
    }
  }

  lemma {:induction false} NoWords(s: string, sep: char -> bool)
    ensures Words(s, sep) == [] <==> forall i :: 0 <= i < |s| ==> sep(s[i])
    decreases |s|
  {
    if s != [] && sep(s[0]) {
      NoWords(s[1..], sep);
      assert forall i :: 0 < i < |s| ==> s[i] == s[1..][i - 1];
    }
  }

  // A field is accepted with no bit at all exactly when it is made of commas.
  lemma CommasMatchNothing(field: string, r: Bounds)
    requires PlainNames(r) && r.max < 63
    ensures FieldBits(field, r) == Ok({}) <==> forall i :: 0 <= i < |field| ==> field[i] == ','
  {
    FieldMeaning(field, r, 0);
    NoWords(field, IsComma);
  }

  lemma SplitsAtSlash(s: string, rest: string)
    requires '/' !in s && (rest == "" || rest[0] == '/')
    ensures SplitOn(s + rest, '/') == [s] + if rest == "" then [] else SplitOn(rest[1..], '/')
  {
    if rest == "" {
      assert s + rest == s;
      SplitWhole(s, '/');
    } else {
      assert s + rest == s + ['/'] + rest[1..];
      SplitJoin(s, '/', rest[1..]);
    }
  }

  // What stands between "*-" or "?-" and the end or the slash of an item is not read.
  lemma StarTailUnread(star: string, s: string, rest: string, r: Bounds)
    requires IsStar(star) && '/' !in s && (rest == "" || rest[0] == '/')
    ensures ReadItem(star + "-" + s + rest, r) == ReadItem(star + rest, r)
  {
    SplitsAtSlash(star + "-" + s, rest);
    SplitsAtSlash(star, rest);
    assert star + "-" + s == star + ['-'] + s;
    SplitJoin(star, '-', s);
    SplitWhole(star, '-');
  }

  // More than one hyphen after a number is refused, and so is more than one slash after a range that reads.
  lemma ExtraSignsRefused(a: string, b: string, rest: string, r: Bounds)
    requires '-' !in a && '/' !in a && '-' !in b && '/' !in b && '/' !in rest && !IsStar(a)
    ensures ReadIntOrName(a, r.names).Ok? ==> ReadItem(a + ['-'] + (b + ['-'] + rest), r) == Err(TooManyHyphens)
    ensures ReadIntOrName(a, r.names).Ok? ==> ReadItem(a + ['/'] + (b + ['/'] + rest), r) == Err(TooManySlashes)
  {
    SplitJoin(a, '-', b + ['-'] + rest);
    SplitJoin(b, '-', rest);
    SplitWhole(a + ['-'] + (b + ['-'] + rest), '/');
    SplitJoin(a, '/', b + ['/'] + rest);
    SplitJoin(b, '/', rest);
    SplitWhole(a, '-');
  }

  // ----- other layouts -----

  lemma DateExpands(fields: seq<string>)
    requires |fields| == 3
    ensures var p := NewParser({Dom, Month, Dow});
      Enabled(p.options, 6) == 3 && p.optionals == 0 && Expanded(fields, p.options) == ["0", "0", "0"] + fields
  {
    var o := NewParser({Dom, Month, Dow}).options;
    assert Enabled(o, 1) == 0 && Enabled(o, 2) == 0 && Enabled(o, 3) == 0;
    assert Enabled(o, 4) == 1 && Enabled(o, 5) == 2 && Enabled(o, 6) == 3;
  }

  // With an optional day of the week, two fields leave it a star.
  lemma ShortDateExpands(fields: seq<string>)
    requires |fields| == 2
    ensures var p := NewParser({Dom, Month, DowOptional});
      Enabled(p.options, 6) == 3 && p.optionals == 1 && Expanded(fields, p.options) == ["0", "0", "0"] + fields + ["*"]
  {
    var o := NewParser({Dom, Month, DowOptional}).options;
    assert Enabled(o, 1) == 0 && Enabled(o, 2) == 0 && Enabled(o, 3) == 0;
    assert Enabled(o, 4) == 1 && Enabled(o, 5) == 2 && Enabled(o, 6) == 3;
  }

  // The time alone is meant for every day.
  lemma TimeExpands(fields: seq<string>)
    requires |fields| == 3
    ensures var p := NewParser({Second, Minute, Hour});
      Enabled(p.options, 6) == 3 && p.optionals == 0 && Expanded(fields, p.options) == fields + ["*", "*", "*"]
  {
    var o := NewParser({Second, Minute, Hour}).options;
    assert Enabled(o, 1) == 1 && Enabled(o, 2) == 2 && Enabled(o, 3) == 3;
    assert Enabled(o, 4) == 3 && Enabled(o, 5) == 3 && Enabled(o, 6) == 3;
  }

  // ----- the two layouts -----

  lemma {:induction false} TrimLeftKeepsWords(s: string)
    ensures Words(TrimLeft(s), IsSpace) == Words(s, IsSpace)
  {
    if s != [] && IsSpace(s[0]) { TrimLeftKeepsWords(s[1..]); }
  }

  lemma {:induction false} TrailingSpace(s: string, c: char)
    requires IsSpace(c)
    ensures Words(s + [c], IsSpace) == Words(s, IsSpace)
    decreases |s|
  {
    if s == [] {
      assert s + [c] == [c];
      assert [c][1..] == [];
    } else if IsSpace(s[0]) {
      assert (s + [c])[1..] == s[1..] + [c];
      TrailingSpace(s[1..], c);
    } else {
      var n := RunLength(s, IsSpace);
      RunUnchanged(s, c);
      assert (s + [c])[..n] == s[..n] && (s + [c])[n..] == s[n..] + [c];
      TrailingSpace(s[n..], c);
    }
  }

  lemma {:induction false} RunUnchanged(s: string, c: char)
    requires IsSpace(c)
    ensures RunLength(s + [c], IsSpace) == RunLength(s, IsSpace)
  {
    if s != [] {
      assert (s + [c])[1..] == s[1..] + [c];
      RunUnchanged(s[1..], c);
    }
  }

  lemma {:induction false} TrimRightKeepsWords(s: string)
    ensures Words(TrimRight(s), IsSpace) == Words(s, IsSpace)
  {
    if s != [] && IsSpace(s[|s| - 1]) {
      var init := s[..|s| - 1];
      TrimRightKeepsWords(init);
      TrailingSpace(init, s[|s| - 1]);
      assert s == init + [s[|s| - 1]];
    }
  }

  lemma TrimKeepsWords(s: string)
    ensures Words(TrimSpace(s), IsSpace) == Words(s, IsSpace)
  {
    TrimLeftKeepsWords(s);
    TrimRightKeepsWords(TrimLeft(s));
  }

  lemma {:induction false} TrimRightKeepsFirst(s: string)
    requires s != [] && !IsSpace(s[0])
    ensures TrimRight(s) != [] && TrimRight(s)[0] == s[0]
  {
    if IsSpace(s[|s| - 1]) { TrimRightKeepsFirst(s[..|s| - 1]); }
  }

  predicate NoSpace(s: string) {
    forall i :: 0 <= i < |s| ==> !IsSpace(s[i])
  }

  // A descriptor is one word, or two when it is "@every <duration>".
  lemma DescriptorWords(text: string, durations: Durations)
    requires ParseDescriptor(text, durations).Ok?
    ensures |Words(text, IsSpace)| <= 2
  {
    if HasPrefix(text, "@every ") {
      var d := text[7..];
      assert text == "@every" + [' '] + d;
      WordsCons("@every", ' ', d, IsSpace);
      if d == [] {
        assert Words(d, IsSpace) == [];
      } else {
        assert NoSpace(d);
        WordsWhole(d, IsSpace);
      }
    } else {
      assert NoSpace(text) by { FixedDescriptorsHaveNoSpace(text, durations); }
      WordsWhole(text, IsSpace);
    }
  }

  lemma FixedDescriptorsHaveNoSpace(text: string, durations: Durations)
    requires ParseDescriptor(text, durations).Ok? && !HasPrefix(text, "@every ")
    ensures text != [] && NoSpace(text)
  {
  }

  lemma AtSignIsNoItem(field: string, r: Bounds)
    requires PlainNames(r) && field != [] && field[0] == '@'
    ensures FieldBits(field, r).Err?
  {
    var items := Words(field, IsComma);
    assert items[0][0] == '@';
    FirstPartOf(items[0]);
    NotANumberOrName(SplitOn(SplitOn(items[0], '/')[0], '-')[0], r);
    assert ReadItem(items[0], r).Err? && items[0] in items;
    ItemsUnion(items, r, 0);
  }

  lemma PrefixedWords(text: string)
    ensures Words("0 " + text, IsSpace) == ["0"] + Words(text, IsSpace)
    ensures !HasPrefix(TrimSpace("0 " + text), "@")
  {
    var s := "0 " + text;
    assert s == "0" + [' '] + text;
    WordsCons("0", ' ', text, IsSpace);
    assert s[0] == '0' && !IsSpace(s[0]);
    TrimRightKeepsFirst(s);
    assert TrimLeft(s) == s;
  }

  // Five fields are given the default second, six are taken as they are.
  lemma FiveFieldsExpand(fields: seq<string>)
    requires |fields| == 5
    ensures Enabled(STANDARD_PARSER.options, 6) == 5 && Expanded(fields, STANDARD_PARSER.options) == ["0"] + fields
  {
    var o := STANDARD_PARSER.options;
    assert Enabled(o, 1) == 0 && Enabled(o, 2) == 1 && Enabled(o, 3) == 2;
    assert Enabled(o, 4) == 3 && Enabled(o, 5) == 4 && Enabled(o, 6) == 5;
  }

  lemma SixFieldsExpand(fields: seq<string>)
    requires |fields| == 6
    ensures Enabled(SECONDS_PARSER.options, 6) == 6 && Expanded(fields, SECONDS_PARSER.options) == fields
  {
    var o := SECONDS_PARSER.options;
    assert Enabled(o, 1) == 1 && Enabled(o, 2) == 2 && Enabled(o, 3) == 3;
    assert Enabled(o, 4) == 4 && Enabled(o, 5) == 5 && Enabled(o, 6) == 6;
  }

  // A text of five fields that starts with "@" is no pattern, in either layout.
  lemma AtPatternRefused(text: string, durations: Durations)
    requires |Words(text, IsSpace)| == 5 && HasPrefix(TrimSpace(text), "@")
    ensures Parse(text, durations).Err?
    ensures FieldBits(Words(text, IsSpace)[0], MINUTES).Err?
  {
    var trimmed := TrimSpace(text);
    TrimKeepsWords(text);
    if Parse(text, durations).Ok? { DescriptorWords(trimmed, durations); }
    assert trimmed[0] == '@';
    assert Words(trimmed, IsSpace)[0][0] == '@';
    FieldNamesArePlain();
    AtSignIsNoItem(Words(text, IsSpace)[0], MINUTES);
  }

  lemma FiveFields(text: string, durations: Durations)
    requires |Words(text, IsSpace)| == 5 && !HasPrefix(TrimSpace(text), "@")
    ensures Parse(text, durations) == ReadFields(["0"] + Words(text, IsSpace))
  {
    if text[0] == '@' { TrimRightKeepsFirst(text); }
    FiveFieldsExpand(Words(text, IsSpace));
  }

  lemma PrefixedFields(text: string, durations: Durations)
    requires |Words(text, IsSpace)| == 5
    ensures Parse("0 " + text, durations) == ReadFields(["0"] + Words(text, IsSpace))
  {
    PrefixedWords(text);
    SixFieldsExpand(["0"] + Words(text, IsSpace));
  }

  // A five-field pattern and the same pattern with a leading "0" mean the same schedule, or are
  // both refused.
  lemma LayoutsAgree(text: string, durations: Durations)
    requires |Words(text, IsSpace)| == 5
    ensures Parse("0 " + text, durations) == Parse(text, durations)
         || (Parse("0 " + text, durations).Err? && Parse(text, durations).Err?)
  {
    PrefixedFields(text, durations);
    if HasPrefix(TrimSpace(text), "@") {
      AtPatternRefused(text, durations);
      RefusedMinute(["0"] + Words(text, IsSpace));
    } else {
      FiveFields(text, durations);
    }
  }

  lemma RefusedMinute(fields: seq<string>)
    requires |fields| == 6 && FieldBits(fields[1], MINUTES).Err?
    ensures ReadFields(fields).Err?
  {
  }
}
