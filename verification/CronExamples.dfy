/** Some pattern texts, and exactly when they fire. */
module CronExamples {
  import opened Wrappers
  import opened Text
  import opened Masks
  import opened Calendar
  import opened CronSearch
  import opened CronLaws
  import opened CronParser
  import opened CronTexts
  import opened CronPatterns

  // ----- single numbers, stars and steps -----

  function Plain(digits: string): Written {
    Written(One(Num(Numeral(false, digits))), None)
  }

  const STAR := Written(Star('*', None), None)

  lemma PlainField(digits: string, r: Bounds)
    requires NumeralFits(Numeral(false, digits)) && r.min <= DigitsValue(digits) <= r.max < 63
    ensures FieldFits([Plain(digits)], r) && Acceptable([Plain(digits)], r) && FieldText([Plain(digits)]) == digits
    ensures WrittenBits([Plain(digits)], r) == {DigitsValue(digits)}
  {
    var n := DigitsValue(digits);
    assert FieldText([Plain(digits)]) == digits + "" == digits;
    assert Acceptable([Plain(digits)], r);
    forall k: nat ensures k in WrittenBits([Plain(digits)], r) <==> k == n {
      assert FieldHas([Plain(digits)], r, k) <==> WrittenHas(Plain(digits), r, k);
      assert (n - n) % 1 == 0;
    }
  }

  lemma StarField(r: Bounds)
    requires r.min <= r.max < 63
    ensures FieldFits([STAR], r) && Acceptable([STAR], r) && FieldText([STAR]) == "*"
    ensures WrittenBits([STAR], r) == AllBits(r)
  {
    forall k: nat ensures k in WrittenBits([STAR], r) <==> k in AllBits(r) {
      assert FieldHas([STAR], r, k) <==> WrittenHas(STAR, r, k);
    }
  }

  lemma PlainText(digits: string)
    ensures FieldText([Plain(digits)]) == digits
  {
    assert digits + "" == digits;
  }

  lemma JoinedFive(a: string, b: string, c: string, d: string, e: string)
    ensures Joined([a, b, c, d, e]) == a + [' '] + (b + [' '] + (c + [' '] + (d + [' '] + e)))
  {
    assert [a, b, c, d, e][1..] == [b, c, d, e] && [b, c, d, e][1..] == [c, d, e];
    assert [c, d, e][1..] == [d, e] && [d, e][1..] == [e];
    assert Joined([d, e]) == d + [' '] + e;
    assert Joined([b, c, d, e]) == b + [' '] + Joined([c, d, e]);
  }

  lemma HitsOne(w: Written, r: Bounds, k: int)
    requires Denotes(w, r).step > 0
    ensures Hits([w], r, k) <==> (var i := Denotes(w, r); InProgression(k, i.start, i.end, i.step))
  {
    assert w in [w];
  }

  lemma PlainHits(digits: string, r: Bounds, k: int)
    requires AllDigits(digits)
    ensures Hits([Plain(digits)], r, k) <==> k == DigitsValue(digits)
  {
    HitsOne(Plain(digits), r, k);
    assert (k - k) % 1 == 0;
  }

  lemma StarHits(r: Bounds, k: int)
    requires r.min <= k <= r.max
    ensures Hits([STAR], r, k)
  {
    HitsOne(STAR, r, k);
  }

  lemma NotStarred(digits: string)
    ensures !Starred([Plain(digits)])
  {
  }

  // A time's own fields are hit by a star.
  lemma StarsHit(t: Time)
    ensures Hits([STAR], HOURS, t.hour) && Hits([STAR], DAYS_OF_MONTH, t.day) && Hits([STAR], MONTHS, t.month)
    ensures Hits([STAR], DAYS_OF_WEEK, Weekday(t)) && Hits([STAR], MINUTES, t.minute)
  {
    StarHits(HOURS, t.hour);
    StarHits(DAYS_OF_MONTH, t.day);
    StarHits(MONTHS, t.month);
    StarHits(DAYS_OF_WEEK, Weekday(t));
    StarHits(MINUTES, t.minute);
  }

  // The text is accepted, and its schedule matches the second t exactly when cond holds.
  predicate MatchesWhen(text: string, durations: Durations, t: Time, cond: bool) {
    var res := Parse(text, durations);
    res.Ok? && res.value.Cron? && (Matches(res.value.spec, t) <==> cond)
  }

  lemma PatternMatchesWhen(p: Pattern, text: string, durations: Durations, t: Time)
    requires PatternFits(p) && PatternAcceptable(p) && PatternText(p) == text
    ensures MatchesWhen(text, durations, t, FiresAt(p, t))
  {
    WrittenPatternReads(p, durations);
    ScheduleFires(p, t);
  }

  // ----- every five minutes, every five seconds -----

  const FIVES := Written(Star('*', None), Some(Numeral(false, "5")))

  lemma FivesField(r: Bounds, k: int)
    requires r.min == 0 <= k <= r.max < 63
    ensures FieldFits([FIVES], r) && Acceptable([FIVES], r) && FieldText([FIVES]) == "*/5"
    ensures Hits([FIVES], r, k) <==> k % 5 == 0
  {
    assert DigitsValue("5") == 5;
    HitsOne(FIVES, r, k);
  }

  lemma StarFields()
    ensures FieldFits([STAR], HOURS) && FieldFits([STAR], DAYS_OF_MONTH) && FieldFits([STAR], MONTHS)
    ensures FieldFits([STAR], DAYS_OF_WEEK) && FieldFits([STAR], MINUTES)
    ensures Acceptable([STAR], HOURS) && Acceptable([STAR], DAYS_OF_MONTH) && Acceptable([STAR], MONTHS)
    ensures Acceptable([STAR], DAYS_OF_WEEK) && Acceptable([STAR], MINUTES) && FieldText([STAR]) == "*"
  {
    StarField(HOURS);
    StarField(DAYS_OF_MONTH);
    StarField(MONTHS);
    StarField(DAYS_OF_WEEK);
    StarField(MINUTES);
  }

  function EveryFiveMinutes(): Pattern {
    Pattern(None, [FIVES], [STAR], [STAR], [STAR], [STAR])
  }

  function EveryFiveSeconds(): Pattern {
    Pattern(Some([FIVES]), [STAR], [STAR], [STAR], [STAR], [STAR])
  }

  lemma FiveMinutesText()
    ensures PatternText(EveryFiveMinutes()) == "*/5 * * * *"
  {
    FivesField(MINUTES, 0);
    StarFields();
    assert FiveTexts(EveryFiveMinutes()) == ["*/5", "*", "*", "*", "*"];
    assert [] + ["*/5", "*", "*", "*", "*"] == ["*/5", "*", "*", "*", "*"];
    JoinedFive("*/5", "*", "*", "*", "*");
  }

  lemma FiveMinutesFits()
    ensures PatternFits(EveryFiveMinutes()) && PatternAcceptable(EveryFiveMinutes())
  {
    assert DigitsValue("0") == 0;
    PlainField("0", SECONDS);
    FivesField(MINUTES, 0);
    StarFields();
  }

  // "*/5 * * * *" fires at the seconds 0 of the minutes that 5 divides.
  lemma EveryFiveMinutesFires(durations: Durations, t: Time)
    ensures MatchesWhen("*/5 * * * *", durations, t, t.minute % 5 == 0 && t.second == 0)
  {
    FiveMinutesText();
    FiveMinutesFits();
    PatternMatchesWhen(EveryFiveMinutes(), "*/5 * * * *", durations, t);
    FivesField(MINUTES, t.minute);
    PlainHits("0", SECONDS, t.second);
    assert DigitsValue("0") == 0;
    StarsHit(t);
  }

  lemma FiveSecondsText()
    ensures PatternText(EveryFiveSeconds()) == "*/5 * * * * *"
  {
    FivesField(SECONDS, 0);
    StarFields();
    assert FiveTexts(EveryFiveSeconds()) == ["*", "*", "*", "*", "*"];
    assert ["*/5"] + ["*", "*", "*", "*", "*"] == ["*/5", "*", "*", "*", "*", "*"];
    assert ["*/5", "*", "*", "*", "*", "*"][1..] == ["*", "*", "*", "*", "*"];
    JoinedFive("*", "*", "*", "*", "*");
  }

  lemma FiveSecondsFits()
    ensures PatternFits(EveryFiveSeconds()) && PatternAcceptable(EveryFiveSeconds())
  {
    FivesField(SECONDS, 0);
    StarFields();
  }

  // "*/5 * * * * *" fires at the seconds that 5 divides.
  lemma EveryFiveSecondsFires(durations: Durations, t: Time)
    ensures MatchesWhen("*/5 * * * * *", durations, t, t.second % 5 == 0)
  {
    FiveSecondsText();
    FiveSecondsFits();
    PatternMatchesWhen(EveryFiveSeconds(), "*/5 * * * * *", durations, t);
    FivesField(SECONDS, t.second);
    StarsHit(t);
  }

  // ----- two day fields without a star -----

  function FridaysToo(): Pattern {
    Pattern(None, [Plain("30")], [Plain("4")], [Plain("1"), Plain("15")], [STAR], [Plain("5")])
  }

  lemma FridayDigits()
    ensures DigitsValue("0") == 0 && DigitsValue("30") == 30 && DigitsValue("4") == 4 && DigitsValue("1") == 1
    ensures DigitsValue("15") == 15 && DigitsValue("5") == 5
  {
    assert DigitsValue("3") == 3 && "30"[..1] == "3" && "15"[..1] == "1";
  }

  lemma TwoDaysField()
    ensures var ws := [Plain("1"), Plain("15")];
      && FieldFits(ws, DAYS_OF_MONTH) && Acceptable(ws, DAYS_OF_MONTH) && FieldText(ws) == "1,15" && !Starred(ws)
  {
    FridayDigits();
    PlainText("1");
    PlainText("15");
    assert [Plain("1"), Plain("15")][1..] == [Plain("15")];
  }

  lemma TwoDaysHit(k: int)
    ensures Hits([Plain("1"), Plain("15")], DAYS_OF_MONTH, k) <==> k == 1 || k == 15
  {
    FridayDigits();
    var ws := [Plain("1"), Plain("15")];
    assert Plain("1") in ws && Plain("15") in ws;
    PlainHits("1", DAYS_OF_MONTH, k);
    PlainHits("15", DAYS_OF_MONTH, k);
    HitsOne(Plain("1"), DAYS_OF_MONTH, k);
    HitsOne(Plain("15"), DAYS_OF_MONTH, k);
  }

  lemma FridaysText()
    ensures PatternText(FridaysToo()) == "30 4 1,15 * 5"
  {
    PlainText("30");
    PlainText("4");
    PlainText("5");
    TwoDaysField();
    StarFields();
    assert FiveTexts(FridaysToo()) == ["30", "4", "1,15", "*", "5"];
    assert [] + ["30", "4", "1,15", "*", "5"] == ["30", "4", "1,15", "*", "5"];
    JoinedFive("30", "4", "1,15", "*", "5");
  }

  lemma FridaysFits()
    ensures PatternFits(FridaysToo()) && PatternAcceptable(FridaysToo())
  {
    FridayDigits();
    PlainField("0", SECONDS);
    PlainField("30", MINUTES);
    PlainField("4", HOURS);
    PlainField("5", DAYS_OF_WEEK);
    TwoDaysField();
    StarFields();
  }

  // "30 4 1,15 * 5" fires at half past four on the first and the fifteenth, and on every Friday.
  lemma FridaysTooFires(durations: Durations, t: Time)
    ensures MatchesWhen("30 4 1,15 * 5", durations, t,
      t.hour == 4 && t.minute == 30 && t.second == 0 && (t.day == 1 || t.day == 15 || Weekday(t) == 5))
  {
    FridaysText();
    FridaysFits();
    PatternMatchesWhen(FridaysToo(), "30 4 1,15 * 5", durations, t);
    FridayDigits();
    PlainHits("0", SECONDS, t.second);
    PlainHits("30", MINUTES, t.minute);
    PlainHits("4", HOURS, t.hour);
    PlainHits("5", DAYS_OF_WEEK, Weekday(t));
    TwoDaysHit(t.day);
    TwoDaysField();
    NotStarred("5");
    StarsHit(t);
  }

  // ----- a day of February -----

  // "0 0 D 2 *" is midnight on day D of February.
  function FebruarySchedule(day: nat): SpecSchedule {
    SpecSchedule({0}, {0}, {0}, {day}, {2}, AllBits(DAYS_OF_WEEK))
  }

  function February(day: string): Pattern {
    Pattern(None, [Plain("0")], [Plain("0")], [Plain(day)], [Plain("2")], [STAR])
  }

  lemma Digits()
    ensures DigitsValue("0") == 0 && DigitsValue("2") == 2 && DigitsValue("29") == 29 && DigitsValue("30") == 30
  {
    assert "2"[..0] == "" && "29"[..1] == "2" && DigitsValue("3") == 3 && "30"[..1] == "3";
  }

  lemma FebruaryTime(day: string)
    ensures var p := February(day);
      && FieldFits(SecondOf(p), SECONDS) && FieldFits(p.minute, MINUTES) && FieldFits(p.hour, HOURS)
      && Acceptable(SecondOf(p), SECONDS) && Acceptable(p.minute, MINUTES) && Acceptable(p.hour, HOURS)
      && WrittenBits(SecondOf(p), SECONDS) == {0} && WrittenBits(p.minute, MINUTES) == {0}
      && WrittenBits(p.hour, HOURS) == {0}
  {
    Digits();
    PlainField("0", SECONDS);
    PlainField("0", MINUTES);
    PlainField("0", HOURS);
  }

  lemma MonthTwo()
    ensures FieldFits([Plain("2")], MONTHS) && Acceptable([Plain("2")], MONTHS)
    ensures WrittenBits([Plain("2")], MONTHS) == {2}
  {
    Digits();
    PlainField("2", MONTHS);
  }

  lemma FebruaryFits(day: string)
    requires NumeralFits(Numeral(false, day)) && 1 <= DigitsValue(day) <= 31
    ensures var p := February(day);
      PatternFits(p) && PatternAcceptable(p) && PatternSchedule(p) == FebruarySchedule(DigitsValue(day))
  {
    FebruaryTime(day);
    PlainField(day, DAYS_OF_MONTH);
    MonthTwo();
    StarField(DAYS_OF_WEEK);
  }

  lemma Regrouped(day: string)
    ensures "0" + [' '] + ("0" + [' '] + (day + [' '] + ("2" + [' '] + "*"))) == "0 0 " + day + " 2 *"
  {
  }

  lemma FebruaryText(day: string)
    ensures PatternText(February(day)) == "0 0 " + day + " 2 *"
  {
    PlainText("0");
    PlainText(day);
    PlainText("2");
    assert FieldText([STAR]) == "*";
    assert FiveTexts(February(day)) == ["0", "0", day, "2", "*"];
    assert [] + ["0", "0", day, "2", "*"] == ["0", "0", day, "2", "*"];
    JoinedFive("0", "0", day, "2", "*");
    Regrouped(day);
  }

  lemma FebruaryReads(day: string, durations: Durations)
    requires NumeralFits(Numeral(false, day)) && 1 <= DigitsValue(day) <= 31
    ensures Parse("0 0 " + day + " 2 *", durations) == Ok(Cron(FebruarySchedule(DigitsValue(day))))
  {
    FebruaryFits(day);
    FebruaryText(day);
    WrittenPatternReads(February(day), durations);
  }

  lemma LeapDaySchedule()
    ensures FebruarySchedule(29) == LEAP_DAY
  {
    forall k: nat ensures k in AllBits(DAYS_OF_WEEK) <==> k in LEAP_DAY.dow {}
  }

  lemma FebruaryPattern(text: string, day: string, durations: Durations)
    requires NumeralFits(Numeral(false, day)) && 1 <= DigitsValue(day) <= 31 && text == "0 0 " + day + " 2 *"
    ensures Parse(text, durations) == Ok(Cron(FebruarySchedule(DigitsValue(day))))
  {
    FebruaryReads(day, durations);
  }

  lemma LeapDayReads(durations: Durations)
    ensures Parse("0 0 29 2 *", durations) == Ok(Cron(LEAP_DAY))
  {
    Digits();
    FebruaryPattern("0 0 29 2 *", "29", durations);
    LeapDaySchedule();
  }

  lemma NoFebruary30(t: Time)
    ensures !Matches(FebruarySchedule(30), t)
  {
  }

  // February has no 30th: the pattern is accepted and never fires.
  lemma NeverFires(durations: Durations)
    ensures Parse("0 0 30 2 *", durations) == Ok(Cron(FebruarySchedule(30)))
    ensures forall t: Time :: FirstFire(FebruarySchedule(30), t) == None
  {
    Digits();
    FebruaryPattern("0 0 30 2 *", "30", durations);
    forall t: Time ensures FirstFire(FebruarySchedule(30), t) == None {
      FirstFireMeaning(FebruarySchedule(30), t);
      forall x: Time ensures !Matches(FebruarySchedule(30), x) { NoFebruary30(x); }
    }
  }
}
