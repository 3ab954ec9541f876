/** delayquene/parser.go: cron patterns as text, read into schedules. */
module CronParser {
  import opened Wrappers
  import opened Text
  import opened Masks
  import opened CronSearch

  // ----- options and layouts -----

  datatype ParseOption = Second | Minute | Hour | Dom | Month | Dow | DowOptional | Descriptor

  const PLACES: seq<ParseOption> := [Second, Minute, Hour, Dom, Month, Dow]
  const DEFAULTS: seq<string> := ["0", "0", "0", "*", "*", "*"]

  datatype Parser = Parser(options: set<ParseOption>, optionals: nat)

  function NewParser(options: set<ParseOption>): Parser {
    if DowOptional in options then Parser(options + {Dow}, 1) else Parser(options, 0)
  }

  const STANDARD_PARSER := NewParser({Minute, Hour, Dom, Month, Dow, Descriptor})
  const SECONDS_PARSER := NewParser({Second, Minute, Hour, Dom, Month, Dow, Descriptor})

  // ----- fields -----

  datatype Bounds = Bounds(min: nat, max: nat, names: map<string, nat>)

  const SECONDS := Bounds(0, 59, map[])
  const MINUTES := Bounds(0, 59, map[])
  const HOURS := Bounds(0, 23, map[])
  const DAYS_OF_MONTH := Bounds(1, 31, map[])
  const MONTHS := Bounds(1, 12, map["jan" := 1, "feb" := 2, "mar" := 3, "apr" := 4, "may" := 5, "jun" := 6,
                                    "jul" := 7, "aug" := 8, "sep" := 9, "oct" := 10, "nov" := 11, "dec" := 12])
  const DAYS_OF_WEEK := Bounds(0, 6, map["sun" := 0, "mon" := 1, "tue" := 2, "wed" := 3, "thu" := 4,
                                         "fri" := 5, "sat" := 6])

  datatype ParseError =
    | EmptySpec | FieldCount | NotANumber | NegativeNumber | TooManyHyphens | TooManySlashes
    | BelowMinimum | AboveMaximum | StartBeyondEnd | ZeroStep | BadDescriptor | BadDuration

  // One comma item: every step-th value from start to end, and whether it was written with a star.
  datatype Item = Item(start: nat, end: nat, step: nat, star: bool)

  function ReadInt(expr: string): Result<nat, ParseError> {
    match Atoi(expr)
    case None => Err(NotANumber)
    case Some(n) => if n < 0 then Err(NegativeNumber) else Ok(n)
  }

  function ReadIntOrName(expr: string, names: map<string, nat>): Result<nat, ParseError> {
    if ToLower(expr) in names then Ok(names[ToLower(expr)]) else ReadInt(expr)
  }

  predicate IsStar(s: string) {
    s == "*" || s == "?"
  }

  // The ends of the item, before its step is known. Whatever follows "*-" is not looked at.
  function ReadEnds(lowAndHigh: seq<string>, r: Bounds): Result<(nat, nat), ParseError>
    requires |lowAndHigh| >= 1
  {
    if IsStar(lowAndHigh[0]) then Ok((r.min, r.max))
    else
      match ReadIntOrName(lowAndHigh[0], r.names)
      case Err(e) => Err(e)
      case Ok(start) =>
        if |lowAndHigh| == 1 then Ok((start, start))
        else if |lowAndHigh| > 2 then Err(TooManyHyphens)
        else
          match ReadIntOrName(lowAndHigh[1], r.names)
          case Err(e) => Err(e)
          case Ok(end) => Ok((start, end))
  }

  function ReadStep(rangeAndStep: seq<string>): Result<nat, ParseError>
    requires |rangeAndStep| >= 1
  {
    if |rangeAndStep| == 1 then Ok(1)
    else if |rangeAndStep| > 2 then Err(TooManySlashes)
    else ReadInt(rangeAndStep[1])
  }

  function CheckItem(item: Item, r: Bounds): Result<Item, ParseError> {
    if item.start < r.min then Err(BelowMinimum)
    else if item.end > r.max then Err(AboveMaximum)
    else if item.start > item.end then Err(StartBeyondEnd)
    else if item.step == 0 then Err(ZeroStep)
    else Ok(item)
  }

  // number | number "-" number [ "/" number ], with "N/step" meaning "N-max/step"
  function ReadItem(expr: string, r: Bounds): Result<Item, ParseError> {
    var rangeAndStep := SplitOn(expr, '/');
    var lowAndHigh := SplitOn(rangeAndStep[0], '-');
    match ReadEnds(lowAndHigh, r)
    case Err(e) => Err(e)
    case Ok(ends) =>
      match ReadStep(rangeAndStep)
      case Err(e) => Err(e)
      case Ok(step) =>
        var end := if |rangeAndStep| == 2 && |lowAndHigh| == 1 then r.max else ends.1;
        CheckItem(Item(ends.0, end, step, IsStar(lowAndHigh[0])), r)
  }

  function ItemBits(item: Item): set<nat>
    requires item.step > 0
  {
    Progression(item.start, item.end, item.step) + if item.star then {STAR_BIT} else {}
  }

  // The values of a list of comma items; the first item that does not read decides the error.
  function ItemsBits(exprs: seq<string>, r: Bounds): Result<set<nat>, ParseError> {
    if exprs == [] then Ok({})
    else
      match ItemsBits(exprs[..|exprs| - 1], r)
      case Err(e) => Err(e)
      case Ok(bits) =>
        match ReadItem(exprs[|exprs| - 1], r)
        case Err(e) => Err(e)
        case Ok(item) =>
          ItemIsSound(exprs[|exprs| - 1], r);
          Ok(bits + ItemBits(item))
  }

  function FieldBits(field: string, r: Bounds): Result<set<nat>, ParseError> {
    ItemsBits(Words(field, IsComma), r)
  }

  lemma ItemIsSound(expr: string, r: Bounds)
    ensures ReadItem(expr, r).Ok? ==>
      var item := ReadItem(expr, r).value;
      && r.min <= item.start <= item.end <= r.max && 0 < item.step <= MAX_INT
      && (item.star ==> expr != [] && (expr[0] == '*' || expr[0] == '?'))
  {
  }

  // ----- getRange and getField -----

  method GetRange(expr: string, r: Bounds) returns (res: Result<Mask, ParseError>)
    requires r.max < 63
    ensures match ReadItem(expr, r)
      case Err(e) => res == Err(e)
      case Ok(item) => item.step > 0 && res.Ok? && BitsOf(res.value) == ItemBits(item)
  {
    var start, end, step := 0, 0, 0;
    var rangeAndStep := SplitOn(expr, '/');
    var lowAndHigh := SplitOn(rangeAndStep[0], '-');
    var singleDigit := |lowAndHigh| == 1;
    var extra: Mask := 0;
    if lowAndHigh[0] == "*" || lowAndHigh[0] == "?" {
      start := r.min;
      end := r.max;
      extra := TOP_BIT;
    } else {
      var low := ReadIntOrName(lowAndHigh[0], r.names);
      if low.Err? { return Err(low.error); }
      start := low.value;
      if singleDigit {
        end := start;
      } else if |lowAndHigh| == 2 {
        var high := ReadIntOrName(lowAndHigh[1], r.names);
        if high.Err? { return Err(high.error); }
        end := high.value;
      } else {
        return Err(TooManyHyphens);
      }
    }
    if |rangeAndStep| == 1 {
      step := 1;
    } else if |rangeAndStep| == 2 {
      var st := ReadInt(rangeAndStep[1]);
      if st.Err? { return Err(st.error); }
      step := st.value;
      if singleDigit { end := r.max; }
    } else {
      return Err(TooManySlashes);
    }
    if start < r.min { return Err(BelowMinimum); }
    if end > r.max { return Err(AboveMaximum); }
    if start > end { return Err(StartBeyondEnd); }
    if step == 0 { return Err(ZeroStep); }
    var bits := GetBits(start, end, step);
    NoBits();
    TopBit();
    UnionBits(bits, extra);
    return Ok(bits | extra);
  }

  lemma OneMoreItem(exprs: seq<string>, i: nat, r: Bounds)
    requires i < |exprs|
    ensures ItemsBits(exprs[..i], r).Ok? ==>
      match ReadItem(exprs[i], r)
      case Err(e) => ItemsBits(exprs[..i + 1], r) == Err(e)
      case Ok(item) =>
        item.step > 0 && ItemsBits(exprs[..i + 1], r) == Ok(ItemsBits(exprs[..i], r).value + ItemBits(item))
  {
    var more := exprs[..i + 1];
    assert more[..i] == exprs[..i] && more[i] == exprs[i];
    ItemIsSound(exprs[i], r);
  }

  method GetField(field: string, r: Bounds) returns (res: Result<Mask, ParseError>)
    requires r.max < 63
    ensures match FieldBits(field, r)
      case Err(e) => res == Err(e)
      case Ok(bits) => res.Ok? && BitsOf(res.value) == bits
  {
    var bits: Mask := 0;
    NoBits();
    var ranges := Words(field, IsComma);
    var i := 0;
    while i < |ranges|
      invariant i <= |ranges|
      invariant ItemsBits(ranges[..i], r) == Ok(BitsOf(bits))
    {
      var bit := GetRange(ranges[i], r);
      OneMoreItem(ranges, i, r);
      if bit.Err? {
        StuckAtError(ranges, i + 1, r);
        return Err(bit.error);
      }
      UnionBits(bits, bit.value);
      bits := bits | bit.value;
      i := i + 1;
    }
    assert ranges[..i] == ranges;
    return Ok(bits);
  }

  lemma {:induction false} StuckAtError(exprs: seq<string>, n: nat, r: Bounds)
    requires n <= |exprs| && ItemsBits(exprs[..n], r).Err?
    ensures ItemsBits(exprs, r) == ItemsBits(exprs[..n], r)
  {
    if n < |exprs| {
      var rest := exprs[..|exprs| - 1];
      assert rest[..n] == exprs[..n];
      StuckAtError(rest, n, r);
    } else {
      assert exprs[..n] == exprs;
    }
  }

  // ----- expandFields and Parser.Parse -----

  // How many of the first i places the options enable.
  function Enabled(options: set<ParseOption>, i: nat): (n: nat)
    requires i <= |PLACES|
    ensures n <= i
  {
    if i == 0 then 0 else Enabled(options, i - 1) + if PLACES[i - 1] in options then 1 else 0
  }

  // The given fields in the enabled places, in order, and the default in every other place.
  function Expanded(fields: seq<string>, options: set<ParseOption>): seq<string> {
    seq(6, i requires 0 <= i < 6 =>
      var n := Enabled(options, i);
      if PLACES[i] in options && n < |fields| then fields[n] else DEFAULTS[i])
  }

  method ExpandFields(fields: seq<string>, options: set<ParseOption>) returns (expanded: seq<string>)
    requires |fields| <= Enabled(options, 6)
    requires fields != [] || Second !in options
    ensures expanded == Expanded(fields, options)
  {
    var n := 0;
    var count := |fields|;
    var expFields := new string[6](i requires 0 <= i < 6 => DEFAULTS[i]);
    var i := 0;
    while i < 6
      invariant 0 <= i <= 6 && n == Enabled(options, i) <= count
      invariant i > 0 ==> n < count
      invariant forall k :: 0 <= k < i ==> expFields[k] == Expanded(fields, options)[k]
      invariant forall k :: i <= k < 6 ==> expFields[k] == DEFAULTS[k]
    {
      if PLACES[i] in options {
        expFields[i] := fields[n];
        n := n + 1;
      }
      if n == count {
        forall k | i < k < 6 ensures Enabled(options, k) >= count { EnabledGrows(options, i + 1, k); }
        break;
      }
      i := i + 1;
    }
    return expFields[..];
  }

  lemma {:induction false} EnabledGrows(options: set<ParseOption>, i: nat, k: nat)
    requires i <= k <= 6
    ensures Enabled(options, i) <= Enabled(options, k)
    decreases k
  {
    if i < k { EnabledGrows(options, i, k - 1); }
  }

  // A cron schedule, or a constant delay in nanoseconds.
  datatype Schedule = Cron(spec: SpecSchedule) | ConstantDelay(delay: int)

  const SECOND_NANOS := 1_000_000_000

  function ReadFields(fields: seq<string>): Result<Schedule, ParseError>
    requires |fields| == 6
  {
    match FieldBits(fields[0], SECONDS) case Err(e) => Err(e) case Ok(second) =>
    match FieldBits(fields[1], MINUTES) case Err(e) => Err(e) case Ok(minute) =>
    match FieldBits(fields[2], HOURS) case Err(e) => Err(e) case Ok(hour) =>
    match FieldBits(fields[3], DAYS_OF_MONTH) case Err(e) => Err(e) case Ok(dom) =>
    match FieldBits(fields[4], MONTHS) case Err(e) => Err(e) case Ok(month) =>
    match FieldBits(fields[5], DAYS_OF_WEEK) case Err(e) => Err(e) case Ok(dow) =>
    Ok(Cron(SpecSchedule(second, minute, hour, dom, month, dow)))
  }

  // time.ParseDuration, whose values are a parameter; text with white space in it never reads.
  type Durations = string -> Option<int>

  function ReadDuration(text: string, durations: Durations): Option<int> {
    if exists i :: 0 <= i < |text| && IsSpace(text[i]) then None else durations(text)
  }

  // Delays of less than a second round up to one second; fractions of a second are dropped.
  function Every(duration: int): Schedule {
    var d := if duration < SECOND_NANOS then SECOND_NANOS else duration;
    ConstantDelay(d - d % SECOND_NANOS)
  }

  // all(r)
  function AllBits(r: Bounds): set<nat> {
    Progression(r.min, r.max, 1) + {STAR_BIT}
  }

  function ParseDescriptor(text: string, durations: Durations): Result<Schedule, ParseError> {
    var anyDay, anyMonth, anyWeekday := AllBits(DAYS_OF_MONTH), AllBits(MONTHS), AllBits(DAYS_OF_WEEK);
    if text == "@yearly" || text == "@annually" then Ok(Cron(SpecSchedule({0}, {0}, {0}, {1}, {1}, anyWeekday)))
    else if text == "@monthly" then Ok(Cron(SpecSchedule({0}, {0}, {0}, {1}, anyMonth, anyWeekday)))
    else if text == "@weekly" then Ok(Cron(SpecSchedule({0}, {0}, {0}, anyDay, anyMonth, {0})))
    else if text == "@daily" || text == "@midnight" then
      Ok(Cron(SpecSchedule({0}, {0}, {0}, anyDay, anyMonth, anyWeekday)))
    else if text == "@hourly" then Ok(Cron(SpecSchedule({0}, {0}, AllBits(HOURS), anyDay, anyMonth, anyWeekday)))
    else if HasPrefix(text, "@every ") then
      match ReadDuration(text[7..], durations)
      case None => Err(BadDuration)
      case Some(d) => Ok(Every(d))
    else Err(BadDescriptor)
  }

  // What Parser.Parse returns.
  function ParseWith(p: Parser, text: string, durations: Durations): Result<Schedule, ParseError> {
    if text == "" then Err(EmptySpec)
    else if text[0] == '@' && Descriptor in p.options then ParseDescriptor(text, durations)
    else
      var fields := Words(text, IsSpace);
      var max := Enabled(p.options, 6);
      if |fields| < max - p.optionals || |fields| > max then Err(FieldCount)
      else ReadFields(Expanded(fields, p.options))
  }

  // Parser.Parse. A parser is only ever built by NewParser.
  method ParserParse(p: Parser, text: string, durations: Durations) returns (res: Result<Schedule, ParseError>)
    requires exists options :: p == NewParser(options)
    ensures res == ParseWith(p, text, durations)
  {
    if |text| == 0 { return Err(EmptySpec); }
    if text[0] == '@' && Descriptor in p.options {
      return ParseDescriptor(text, durations);
    }
    var max := 0;
    var i := 0;
    while i < |PLACES|
      invariant i <= |PLACES| && max == Enabled(p.options, i)
    {
      if PLACES[i] in p.options { max := max + 1; }
      i := i + 1;
    }
    var min := max - p.optionals;
    var fields := Words(text, IsSpace);
    var count := |fields|;
    if count < min || count > max { return Err(FieldCount); }
    AcceptedCountsFit(p, count);
    fields := ExpandFields(fields, p.options);
    var second := GetField(fields[0], SECONDS);
    if second.Err? { return Err(second.error); }
    var minute := GetField(fields[1], MINUTES);
    if minute.Err? { return Err(minute.error); }
    var hour := GetField(fields[2], HOURS);
    if hour.Err? { return Err(hour.error); }
    var dom := GetField(fields[3], DAYS_OF_MONTH);
    if dom.Err? { return Err(dom.error); }
    var month := GetField(fields[4], MONTHS);
    if month.Err? { return Err(month.error); }
    var dow := GetField(fields[5], DAYS_OF_WEEK);
    if dow.Err? { return Err(dow.error); }
    return Ok(Cron(SpecSchedule(BitsOf(second.value), BitsOf(minute.value), BitsOf(hour.value),
                                BitsOf(dom.value), BitsOf(month.value), BitsOf(dow.value))));
  }

  // An accepted field count never sends expandFields past the end of the given fields.
  lemma AcceptedCountsFit(p: Parser, count: int)
    requires exists options :: p == NewParser(options)
    requires Enabled(p.options, 6) - p.optionals <= count <= Enabled(p.options, 6)
    ensures 0 <= count && (count > 0 || Second !in p.options)
  {
    EnabledGrows(p.options, 1, 5);
  }

  // Parse: five fields are minute to day of week, six fields start with the seconds.
  function Parse(text: string, durations: Durations): Result<Schedule, ParseError> {
    if HasPrefix(TrimSpace(text), "@") then ParseWith(SECONDS_PARSER, TrimSpace(text), durations)
    else
      var n := |Words(text, IsSpace)|;
      if n == 5 then ParseWith(STANDARD_PARSER, text, durations)
      else if n == 6 then ParseWith(SECONDS_PARSER, text, durations)
      else Err(FieldCount)
  }
}
