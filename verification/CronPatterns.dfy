/** Whole patterns: from the text to the schedule and the times at which it fires. */
module CronPatterns {
  import opened Wrappers
  import opened Text
  import opened Masks
  import opened Calendar
  import opened CronSearch
  import opened CronLaws
  import opened CronParser
  import opened CronParserLaws
  import opened CronTexts

  // ----- whole patterns -----

  // The fields of a pattern. One of five fields leaves out the seconds, which are then 0.
  datatype Pattern = Pattern(seconds: Option<seq<Written>>, minute: seq<Written>, hour: seq<Written>,
                             dom: seq<Written>, month: seq<Written>, dow: seq<Written>)

  const ZERO := Written(One(Num(Numeral(false, "0"))), None)

  function SecondOf(p: Pattern): seq<Written> {
    if p.seconds.Some? then p.seconds.value else [ZERO]
  }

  predicate PatternFits(p: Pattern) {
    && FieldFits(SecondOf(p), SECONDS) && FieldFits(p.minute, MINUTES) && FieldFits(p.hour, HOURS)
    && FieldFits(p.dom, DAYS_OF_MONTH) && FieldFits(p.month, MONTHS) && FieldFits(p.dow, DAYS_OF_WEEK)
  }

  predicate PatternAcceptable(p: Pattern) {
    && Acceptable(SecondOf(p), SECONDS) && Acceptable(p.minute, MINUTES) && Acceptable(p.hour, HOURS)
    && Acceptable(p.dom, DAYS_OF_MONTH) && Acceptable(p.month, MONTHS) && Acceptable(p.dow, DAYS_OF_WEEK)
  }

  function FiveTexts(p: Pattern): seq<string> {
    [FieldText(p.minute), FieldText(p.hour), FieldText(p.dom), FieldText(p.month), FieldText(p.dow)]
  }

  function Joined(texts: seq<string>): string {
    if texts == [] then ""
    else if |texts| == 1 then texts[0]
    else texts[0] + [' '] + Joined(texts[1..])
  }

  function PatternText(p: Pattern): string {
    Joined((if p.seconds.Some? then [FieldText(p.seconds.value)] else []) + FiveTexts(p))
  }

  function PatternSchedule(p: Pattern): SpecSchedule {
    SpecSchedule(WrittenBits(SecondOf(p), SECONDS), WrittenBits(p.minute, MINUTES), WrittenBits(p.hour, HOURS),
                 WrittenBits(p.dom, DAYS_OF_MONTH), WrittenBits(p.month, MONTHS), WrittenBits(p.dow, DAYS_OF_WEEK))
  }

  lemma {:induction false} JoinedWords(texts: seq<string>)
    requires texts != [] && forall i :: 0 <= i < |texts| ==> Compact(texts[i])
    ensures Words(Joined(texts), IsSpace) == texts
    ensures Joined(texts) != [] && texts[0] != [] && Joined(texts)[0] == texts[0][0]
  {
    if |texts| == 1 {
      WordsWhole(texts[0], IsSpace);
    } else {
      WordsCons(texts[0], ' ', Joined(texts[1..]), IsSpace);
      JoinedWords(texts[1..]);
    }
  }

  lemma JoinedParses(texts: seq<string>, durations: Durations)
    requires 5 <= |texts| <= 6 && forall i :: 0 <= i < |texts| ==> Compact(texts[i])
    ensures Parse(Joined(texts), durations) == ReadFields(if |texts| == 5 then ["0"] + texts else texts)
  {
    var s := Joined(texts);
    JoinedWords(texts);
    TrimRightKeepsFirst(s);
    assert TrimLeft(s) == s;
    if |texts| == 5 {
      FiveFields(s, durations);
    } else {
      SixFieldsExpand(texts);
    }
  }

  predicate ReadsAs(field: string, ws: seq<Written>, r: Bounds) {
    if Acceptable(ws, r) then FieldBits(field, r) == Ok(WrittenBits(ws, r)) else FieldBits(field, r).Err?
  }

  lemma NumericFieldReads(ws: seq<Written>, r: Bounds)
    requires r.names == map[] && r.max < 63 && FieldFits(ws, r)
    ensures ReadsAs(FieldText(ws), ws, r)
  {
    WrittenFieldReads(ws, r);
  }

  lemma MonthReads(ws: seq<Written>)
    requires FieldFits(ws, MONTHS)
    ensures ReadsAs(FieldText(ws), ws, MONTHS)
  {
    MonthNamesArePlain();
    WrittenFieldReads(ws, MONTHS);
  }

  lemma WeekdayReads(ws: seq<Written>)
    requires FieldFits(ws, DAYS_OF_WEEK)
    ensures ReadsAs(FieldText(ws), ws, DAYS_OF_WEEK)
  {
    WeekdayNamesArePlain();
    WrittenFieldReads(ws, DAYS_OF_WEEK);
  }

  lemma NumericIsCompact(ws: seq<Written>, r: Bounds)
    requires r.names == map[] && FieldFits(ws, r)
    ensures Compact(FieldText(ws))
  {
    FieldTextIsCompact(ws, r);
  }

  lemma MonthIsCompact(ws: seq<Written>)
    requires FieldFits(ws, MONTHS)
    ensures Compact(FieldText(ws))
  {
    MonthNamesArePlain();
    FieldTextIsCompact(ws, MONTHS);
  }

  lemma WeekdayIsCompact(ws: seq<Written>)
    requires FieldFits(ws, DAYS_OF_WEEK)
    ensures Compact(FieldText(ws))
  {
    WeekdayNamesArePlain();
    FieldTextIsCompact(ws, DAYS_OF_WEEK);
  }

  lemma FieldsAreCompact(p: Pattern)
    requires PatternFits(p)
    ensures Compact(FieldText(SecondOf(p))) && Compact(FieldText(p.minute)) && Compact(FieldText(p.hour))
    ensures Compact(FieldText(p.dom)) && Compact(FieldText(p.month)) && Compact(FieldText(p.dow))
  {
    NumericIsCompact(SecondOf(p), SECONDS);
    NumericIsCompact(p.minute, MINUTES);
    NumericIsCompact(p.hour, HOURS);
    NumericIsCompact(p.dom, DAYS_OF_MONTH);
    MonthIsCompact(p.month);
    WeekdayIsCompact(p.dow);
  }

  lemma FiveCompact(a: string, b: string, c: string, d: string, e: string)
    requires Compact(a) && Compact(b) && Compact(c) && Compact(d) && Compact(e)
    ensures forall i :: 0 <= i < 5 ==> Compact([a, b, c, d, e][i])
  {
  }

  lemma TextsAreCompact(p: Pattern)
    requires PatternFits(p)
    ensures Compact(FieldText(SecondOf(p))) && forall i :: 0 <= i < 5 ==> Compact(FiveTexts(p)[i])
  {
    FieldsAreCompact(p);
    FiveCompact(FieldText(p.minute), FieldText(p.hour), FieldText(p.dom), FieldText(p.month), FieldText(p.dow));
  }

  // What the six fields are read as.
  lemma FieldsRead(p: Pattern)
    requires PatternFits(p)
    ensures var res := ReadFields([FieldText(SecondOf(p))] + FiveTexts(p));
      if PatternAcceptable(p) then res == Ok(Cron(PatternSchedule(p))) else res.Err?
  {
    NumericFieldReads(SecondOf(p), SECONDS);
    NumericFieldReads(p.minute, MINUTES);
    NumericFieldReads(p.hour, HOURS);
    NumericFieldReads(p.dom, DAYS_OF_MONTH);
    MonthReads(p.month);
    WeekdayReads(p.dow);
  }

  lemma TextParses(p: Pattern, durations: Durations)
    requires PatternFits(p)
    ensures Parse(PatternText(p), durations) == ReadFields([FieldText(SecondOf(p))] + FiveTexts(p))
  {
    TextsAreCompact(p);
    if p.seconds.Some? {
      JoinedParses([FieldText(p.seconds.value)] + FiveTexts(p), durations);
    } else {
      assert [] + FiveTexts(p) == FiveTexts(p);
      JoinedParses(FiveTexts(p), durations);
      assert FieldText([ZERO]) == "0";
    }
  }

  // The text of five or six written fields is accepted exactly when every item denotes a range inside
  // the bounds of its field, and its schedule is then the one they denote.
  lemma WrittenPatternReads(p: Pattern, durations: Durations)
    requires PatternFits(p)
    ensures var res := Parse(PatternText(p), durations);
      if PatternAcceptable(p) then res == Ok(Cron(PatternSchedule(p))) else res.Err?
  {
    TextParses(p, durations);
    FieldsRead(p);
  }

  // ----- every accepted text is a written pattern -----

  // Each field of the text has the items of the pattern's field.
  predicate Writes(p: Pattern, fields: seq<string>) {
    && |fields| == (if p.seconds.Some? then 6 else 5)
    && var six := if p.seconds.Some? then fields else ["0"] + fields;
       && FieldWrites(six[0], SecondOf(p), SECONDS) && FieldWrites(six[1], p.minute, MINUTES)
       && FieldWrites(six[2], p.hour, HOURS) && FieldWrites(six[3], p.dom, DAYS_OF_MONTH)
       && FieldWrites(six[4], p.month, MONTHS) && FieldWrites(six[5], p.dow, DAYS_OF_WEEK)
  }

  predicate IsDescriptor(text: string) {
    HasPrefix(TrimSpace(text), "@")
  }

  lemma TextFields(text: string, durations: Durations)
    requires !IsDescriptor(text)
    ensures var fields := Words(text, IsSpace); var res := Parse(text, durations);
      if |fields| == 5 then res == ReadFields(["0"] + fields)
      else if |fields| == 6 then res == ReadFields(fields)
      else res.Err?
  {
    var fields := Words(text, IsSpace);
    if |fields| == 5 {
      FiveFields(text, durations);
    } else if |fields| == 6 {
      if text[0] == '@' { TrimRightKeepsFirst(text); }
      SixFieldsExpand(fields);
    }
  }

  lemma NumericFieldIs(field: string, ws: seq<Written>, r: Bounds)
    requires r.names == map[] && r.max < 63 && FieldWrites(field, ws, r)
    ensures ReadsAs(field, ws, r)
  {
    FieldWritesRead(field, ws, r);
  }

  lemma MonthIs(field: string, ws: seq<Written>)
    requires FieldWrites(field, ws, MONTHS)
    ensures ReadsAs(field, ws, MONTHS)
  {
    MonthNamesArePlain();
    FieldWritesRead(field, ws, MONTHS);
  }

  lemma WeekdayIs(field: string, ws: seq<Written>)
    requires FieldWrites(field, ws, DAYS_OF_WEEK)
    ensures ReadsAs(field, ws, DAYS_OF_WEEK)
  {
    WeekdayNamesArePlain();
    FieldWritesRead(field, ws, DAYS_OF_WEEK);
  }

  // A text whose fields have the pattern's items is read as the pattern.
  lemma WritesParses(p: Pattern, text: string, durations: Durations)
    requires !IsDescriptor(text) && Writes(p, Words(text, IsSpace))
    ensures var res := Parse(text, durations);
      if PatternAcceptable(p) then res == Ok(Cron(PatternSchedule(p))) else res.Err?
  {
    var fields := Words(text, IsSpace);
    TextFields(text, durations);
    var six := if p.seconds.Some? then fields else ["0"] + fields;
    NumericFieldIs(six[0], SecondOf(p), SECONDS);
    NumericFieldIs(six[1], p.minute, MINUTES);
    NumericFieldIs(six[2], p.hour, HOURS);
    NumericFieldIs(six[3], p.dom, DAYS_OF_MONTH);
    MonthIs(six[4], p.month);
    WeekdayIs(six[5], p.dow);
  }

  lemma NumericFieldWritten(field: string, r: Bounds) returns (ws: seq<Written>)
    requires r.names == map[] && r.max < 63 && FieldBits(field, r).Ok?
    ensures FieldWrites(field, ws, r) && Acceptable(ws, r)
  {
    ws := FieldWritten(field, r);
  }

  lemma MonthWritten(field: string) returns (ws: seq<Written>)
    requires FieldBits(field, MONTHS).Ok?
    ensures FieldWrites(field, ws, MONTHS) && Acceptable(ws, MONTHS)
  {
    MonthNamesArePlain();
    ws := FieldWritten(field, MONTHS);
  }

  lemma WeekdayWritten(field: string) returns (ws: seq<Written>)
    requires FieldBits(field, DAYS_OF_WEEK).Ok?
    ensures FieldWrites(field, ws, DAYS_OF_WEEK) && Acceptable(ws, DAYS_OF_WEEK)
  {
    WeekdayNamesArePlain();
    ws := FieldWritten(field, DAYS_OF_WEEK);
  }

  lemma AllFieldsRead(six: seq<string>)
    requires |six| == 6 && ReadFields(six).Ok?
    ensures FieldBits(six[0], SECONDS).Ok? && FieldBits(six[1], MINUTES).Ok? && FieldBits(six[2], HOURS).Ok?
    ensures FieldBits(six[3], DAYS_OF_MONTH).Ok? && FieldBits(six[4], MONTHS).Ok? && FieldBits(six[5], DAYS_OF_WEEK).Ok?
  {
  }

  lemma PatternWritten(fields: seq<string>) returns (p: Pattern)
    requires 5 <= |fields| <= 6 && ReadFields(if |fields| == 5 then ["0"] + fields else fields).Ok?
    ensures Writes(p, fields) && PatternAcceptable(p)
  {
    var six := if |fields| == 5 then ["0"] + fields else fields;
    AllFieldsRead(six);
    var minute := NumericFieldWritten(six[1], MINUTES);
    var hour := NumericFieldWritten(six[2], HOURS);
    var dom := NumericFieldWritten(six[3], DAYS_OF_MONTH);
    var month := MonthWritten(six[4]);
    var dow := WeekdayWritten(six[5]);
    if |fields| == 5 {
      PlainSecond();
      p := Pattern(None, minute, hour, dom, month, dow);
    } else {
      var second := NumericFieldWritten(six[0], SECONDS);
      p := Pattern(Some(second), minute, hour, dom, month, dow);
    }
  }

  lemma PlainSecond()
    ensures FieldWrites("0", [ZERO], SECONDS) && Acceptable([ZERO], SECONDS)
  {
    assert DigitsValue("0") == 0;
    FieldTextItems([ZERO], SECONDS);
    assert FieldText([ZERO]) == "0";
  }

  // The texts that are accepted, other than descriptors, are exactly those whose five or six fields have the
  // items of a written pattern inside the bounds, up to white space and empty items.
  lemma AcceptedTextIsWritten(text: string, durations: Durations)
    requires !IsDescriptor(text)
    ensures Parse(text, durations).Ok? <==> exists p :: Writes(p, Words(text, IsSpace)) && PatternAcceptable(p)
  {
    var fields := Words(text, IsSpace);
    TextFields(text, durations);
    if Parse(text, durations).Ok? {
      var p := PatternWritten(fields);
    } else if p :| Writes(p, fields) && PatternAcceptable(p) {
      WritesParses(p, text, durations);
    }
  }

  // ----- when a written pattern fires -----

  // Some item's range holds k.
  predicate Hits(ws: seq<Written>, r: Bounds, k: int) {
    exists w :: w in ws && var i := Denotes(w, r); i.step > 0 && InProgression(k, i.start, i.end, i.step)
  }

  predicate Starred(ws: seq<Written>) {
    exists w :: w in ws && w.span.Star?
  }

  lemma BitsHit(ws: seq<Written>, r: Bounds, k: nat)
    requires Acceptable(ws, r) && r.max < 63
    ensures k < 63 ==> (k in WrittenBits(ws, r) <==> Hits(ws, r, k))
    ensures STAR_BIT in WrittenBits(ws, r) <==> Starred(ws)
  {
    forall w | w in ws
      ensures k < 63 ==> (WrittenHas(w, r, k) <==>
        (var i := Denotes(w, r); i.step > 0 && InProgression(k, i.start, i.end, i.step)))
      ensures WrittenHas(w, r, STAR_BIT) <==> w.span.Star?
    {
      assert CheckItem(Denotes(w, r), r).Ok?;
    }
  }

  // The time lies in the ranges written, where both day fields must agree if one of them has a star, and
  // otherwise one of them suffices.
  predicate FiresAt(p: Pattern, t: Time) {
    var dayOfMonth, dayOfWeek := Hits(p.dom, DAYS_OF_MONTH, t.day), Hits(p.dow, DAYS_OF_WEEK, Weekday(t));
    && Hits(p.month, MONTHS, t.month)
    && (if Starred(p.dom) || Starred(p.dow) then dayOfMonth && dayOfWeek else dayOfMonth || dayOfWeek)
    && Hits(p.hour, HOURS, t.hour) && Hits(p.minute, MINUTES, t.minute) && Hits(SecondOf(p), SECONDS, t.second)
  }

  lemma DayFires(p: Pattern, t: Time)
    requires Acceptable(p.dom, DAYS_OF_MONTH) && Acceptable(p.dow, DAYS_OF_WEEK)
    ensures var dayOfMonth, dayOfWeek := Hits(p.dom, DAYS_OF_MONTH, t.day), Hits(p.dow, DAYS_OF_WEEK, Weekday(t));
      DayMatches(PatternSchedule(p), t) <==>
      if Starred(p.dom) || Starred(p.dow) then dayOfMonth && dayOfWeek else dayOfMonth || dayOfWeek
  {
    BitsHit(p.dom, DAYS_OF_MONTH, t.day);
    BitsHit(p.dow, DAYS_OF_WEEK, Weekday(t));
  }

  lemma ScheduleFires(p: Pattern, t: Time)
    requires PatternAcceptable(p)
    ensures Matches(PatternSchedule(p), t) <==> FiresAt(p, t)
  {
    BitsHit(SecondOf(p), SECONDS, t.second);
    BitsHit(p.minute, MINUTES, t.minute);
    BitsHit(p.hour, HOURS, t.hour);
    BitsHit(p.month, MONTHS, t.month);
    DayFires(p, t);
  }

  // The first second after t that lies in the ranges written, if the window holds one.
  ghost predicate FindsFirst(p: Pattern, s: SpecSchedule, t: Time) {
    match FirstFire(s, t)
    case Some(r) =>
      && FiresAt(p, r) && Whole(r) && Before(t, r)
      && forall x: Time :: Whole(x) && Before(t, x) && Before(x, r) ==> !FiresAt(p, x)
    case None => forall x: Time :: Whole(x) && Before(t, x) && x.year <= SearchLimit(t) ==> !FiresAt(p, x)
  }

  lemma SearchFindsFirst(p: Pattern, t: Time)
    requires PatternAcceptable(p)
    ensures FindsFirst(p, PatternSchedule(p), t)
  {
    FirstFireMeaning(PatternSchedule(p), t);
    forall x: Time ensures Matches(PatternSchedule(p), x) <==> FiresAt(p, x) { ScheduleFires(p, x); }
  }

  // From text to firings, for every text that is accepted: the search finds the first second after the
  // start that lies in the ranges written.
  lemma AcceptedTextFires(text: string, durations: Durations, t: Time)
    requires !IsDescriptor(text) && Parse(text, durations).Ok?
    ensures var res := Parse(text, durations);
      res.value.Cron? && exists p :: Writes(p, Words(text, IsSpace)) && FindsFirst(p, res.value.spec, t)
  {
    AcceptedTextIsWritten(text, durations);
    var p :| Writes(p, Words(text, IsSpace)) && PatternAcceptable(p);
    WritesParses(p, text, durations);
    SearchFindsFirst(p, t);
  }

  // The same for the text of a written pattern.
  lemma WrittenPatternFires(p: Pattern, durations: Durations, t: Time)
    requires PatternFits(p) && PatternAcceptable(p)
    ensures var res := Parse(PatternText(p), durations);
      res.Ok? && res.value.Cron? && FindsFirst(p, res.value.spec, t)
  {
    WrittenPatternReads(p, durations);
    SearchFindsFirst(p, t);
  }
}
