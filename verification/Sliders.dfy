/**
 The serial line protocol and the noise filter of internal/serial/protocol.go and
 internal/serial/noise.go, and the line that the Arduino sketch prints.

 Percentages are whole hundredths; raw readings are integers.
 */
module Sliders {
  import opened Prelude
  import opened Decimal
  import opened Positional
  import opened Text

  const MAX_READING := 1023
  const UNSET := -1023

  type Reading = n: int | 0 <= n <= 1023

  // ---------- noise ----------

  function Threshold(newValue: int, level: string): (t: int)
    ensures 1 <= t <= 20
  {
    var base := if level == "high" then 20 else if level == "low" then 5 else if level == "none" then 1 else 10;
    if (newValue < 10 || newValue > 1013) && base > 5 then 5 else base
  }

  function Distance(a: int, b: int): nat { if a < b then b - a else a - b }

  predicate SignificantlyDifferent(oldValue: int, newValue: int, level: string) {
    Distance(oldValue, newValue) >= Threshold(newValue, level)
  }

  /** Quieter levels let everything through that louder ones do; near the ends of the range every level is
      at least as fine as low. */
  lemma LevelsAreNested(oldValue: int, newValue: int)
    ensures SignificantlyDifferent(oldValue, newValue, "high") ==> SignificantlyDifferent(oldValue, newValue, "default")
    ensures SignificantlyDifferent(oldValue, newValue, "default") ==> SignificantlyDifferent(oldValue, newValue, "low")
    ensures SignificantlyDifferent(oldValue, newValue, "low") ==> SignificantlyDifferent(oldValue, newValue, "none")
    ensures SignificantlyDifferent(oldValue, newValue, "none") <==> oldValue != newValue
    ensures (newValue < 10 || newValue > 1013) ==>
              (SignificantlyDifferent(oldValue, newValue, "high") <==>
                  SignificantlyDifferent(oldValue, newValue, "low"))
  {
  }

  /** normalizeScalar of a reading: the nearest hundredth of the full range. */
  function Percent(raw: int): int { (200 * raw + 1023) / 2046 }

  /** What is reported for a reading, complemented when sliders are inverted. */
  function Reported(raw: int, invert: bool): int { if invert then 100 - Percent(raw) else Percent(raw) }

  /** Rounding never meets a tie, so there is one nearest hundredth, and it is Percent. */
  lemma PercentIsNearest(raw: int, k: int)
    ensures 200 * raw != 1023 * (2 * k + 1)
    ensures k == Percent(raw) <==> -1023 < 200 * raw - 2046 * k < 1023
  {
    var n := 200 * raw + 1023;
    var q := n / 2046;
    assert n == 2046 * q + n % 2046;
    OddIsNotEven(100 * raw, 1023 * k + 511);
    OddIsNotEven(100 * raw, 1023 * q - 512);
    assert n % 2046 != 0;
    if k < q {
      assert 2046 * (q - k) >= 2046;
    } else if k > q {
      assert 2046 * (k - q) >= 2046;
    }
  }

  lemma OddIsNotEven(a: int, b: int)
    ensures 2 * a != 2 * b + 1
  {
  }

  // ---------- lines ----------

  const LINE_END := "\r\n"

  /** One to four digits, separated by bars, ended by CR LF. */
  predicate Expected(line: string) {
    |line| >= 2 && line[|line| - 2..] == LINE_END
    && forall f <- Split(line[..|line| - 2], '|') :: 1 <= |f| <= 4 && AllDigits(f)
  }

  /** The readings of a line that handleLine accepts. */
  function Parse(line: string): Option<seq<Reading>> {
    if !Expected(line) then None
    else
      var fields := Split(line[..|line| - 2], '|');
      if forall f <- fields :: ValueOf(f) <= MAX_READING
      then Some(seq(|fields|, i requires 0 <= i < |fields| => Field(fields, i)))
      else None
  }

  function Field(fields: seq<string>, i: nat): Reading
    requires i < |fields| && AllDigits(fields[i]) && ValueOf(fields[i]) <= MAX_READING
  {
    ValueOf(fields[i])
  }

  // ---------- the state under stateLock ----------

  datatype Known = Known(count: nat, values: seq<int>)

  datatype Move = Move(slider: nat, percent: int)

  datatype Config = Config(invert: bool, noise: string)

  /** The stored values a line is compared with: reset when the number of sliders changed. */
  function Base(k: Known, n: nat): seq<int> {
    if n == k.count && n == |k.values| then k.values else seq(n, _ => UNSET)
  }

  function Filtered(base: seq<int>, readings: seq<Reading>, noise: string): seq<int>
    requires |base| == |readings|
  {
    seq(|base|, i requires 0 <= i < |base| =>
      if SignificantlyDifferent(base[i], readings[i], noise) then readings[i] else base[i])
  }

  /** The events of the first n sliders. */
  function Moves(base: seq<int>, readings: seq<Reading>, c: Config, n: nat): seq<Move>
    requires |base| == |readings| && n <= |base|
  {
    if n == 0 then []
    else
      Moves(base, readings, c, n - 1)
      + (if SignificantlyDifferent(base[n - 1], readings[n - 1], c.noise)
         then [Move(n - 1, Reported(readings[n - 1], c.invert))] else [])
  }

  /** What an accepted line does to the state, and the events it sends. */
  function After(k: Known, readings: seq<Reading>, c: Config): (Known, seq<Move>) {
    var base := Base(k, |readings|);
    (Known(|readings|, Filtered(base, readings, c.noise)), Moves(base, readings, c, |readings|))
  }

  /** handleLine: other lines change nothing and send nothing. */
  function Handle(k: Known, line: string, c: Config): (Known, seq<Move>) {
    match Parse(line)
    case None => (k, [])
    case Some(readings) => After(k, readings, c)
  }

  /** CurrentSliderPercentValues; a value not read yet shows as 0. */
  function PercentValues(k: Known, invert: bool): seq<int> {
    seq(|k.values|, i requires 0 <= i < |k.values| => if k.values[i] < 0 then 0 else Reported(k.values[i], invert))
  }

  class Client {
    var lastKnownNumSliders: nat
    var currentSliderValues: seq<int>

    ghost predicate Valid()
      reads this
    {
      lastKnownNumSliders == 0 || lastKnownNumSliders == |currentSliderValues|
    }

    function View(): Known
      reads this
    {
      Known(lastKnownNumSliders, currentSliderValues)
    }

    constructor ()
      ensures Valid() && View() == Known(0, [])
    {
      lastKnownNumSliders, currentSliderValues := 0, [];
    }

    /** The reload worker makes the next line report every slider. */
    method ResetCount()
      modifies this
      ensures Valid() && View() == Known(0, old(currentSliderValues))
    {
      lastKnownNumSliders := 0;
    }

    /** The validation loop of handleLine. */
    method ReadLine(line: string) returns (readings: Option<seq<Reading>>)
      ensures readings == Parse(line)
    {
      if !Expected(line) {
        return None;
      }
      var fields := Split(line[..|line| - 2], '|');
      var values: seq<Reading> := [];
      var i := 0;
      while i < |fields|
        invariant 0 <= i <= |fields| && |values| == i
        invariant forall j :: 0 <= j < i ==> ValueOf(fields[j]) <= MAX_READING && values[j] == ValueOf(fields[j])
      {
        assert fields[i] in fields;
        var number := ValueOf(fields[i]);
        if number > MAX_READING {
          return None;
        }
        values := values + [number];
        i := i + 1;
      }
      assert forall f <- fields :: ValueOf(f) <= MAX_READING;
      assert values == seq(|fields|, j requires 0 <= j < |fields| => Field(fields, j));
      readings := Some(values);
    }

    /** The locked section of handleLine. */
    method ApplyReadings(readings: seq<Reading>, c: Config) returns (moveEvents: seq<Move>)
      requires Valid() && readings != []
      modifies this
      ensures Valid() && (View(), moveEvents) == After(old(View()), readings, c)
    {
      hide SignificantlyDifferent, Reported;
      moveEvents := [];
      if |readings| != lastKnownNumSliders {
        lastKnownNumSliders := |readings|;
        currentSliderValues := seq(|readings|, _ => UNSET);
      }
      ghost var base := currentSliderValues;
      assert base == Base(old(View()), |readings|);
      var i := 0;
      while i < |readings|
        invariant 0 <= i <= |readings| == |currentSliderValues| == lastKnownNumSliders == |base|
        invariant moveEvents == Moves(base, readings, c, i)
        invariant forall j :: 0 <= j < |base| ==>
                    currentSliderValues[j] == if j < i then Filtered(base, readings, c.noise)[j] else base[j]
      {
        if SignificantlyDifferent(currentSliderValues[i], readings[i], c.noise) {
          currentSliderValues := currentSliderValues[i := readings[i]];
          moveEvents := moveEvents + [Move(i, Reported(readings[i], c.invert))];
        }
        i := i + 1;
      }
      assert currentSliderValues == Filtered(base, readings, c.noise);
    }

    method HandleLine(line: string, c: Config) returns (moveEvents: seq<Move>)
      requires Valid()
      modifies this
      ensures Valid() && (View(), moveEvents) == Handle(old(View()), line, c)
    {
      moveEvents := [];
      var readings := ReadLine(line);
      if readings.Some? {
        moveEvents := ApplyReadings(readings.value, c);
      }
    }

    method CurrentSliderPercentValues(invert: bool) returns (values: seq<int>)
      ensures values == PercentValues(View(), invert)
    {
      values := seq(|currentSliderValues|, _ => 0);
      var i := 0;
      while i < |currentSliderValues|
        invariant 0 <= i <= |currentSliderValues| == |values|
        invariant forall j :: 0 <= j < |values| ==> values[j] == if j < i then PercentValues(View(), invert)[j] else 0
      {
        if currentSliderValues[i] >= 0 {
          values := values[i := Reported(currentSliderValues[i], invert)];
        }
        i := i + 1;
      }
    }
  }

  // ---------- what an accepted line achieves ----------

  /** After an accepted line every stored value is within the threshold of its reading; the ends of the
      range are reported exactly. */
  lemma StoredValuesFollowReadings(k: Known, line: string, c: Config, i: nat)
    requires Parse(line).Some? && i < |Parse(line).value|
    ensures var (after, _) := Handle(k, line, c);
            var reading := Parse(line).value[i];
            && after.count == |Parse(line).value| == |after.values|
            && Distance(after.values[i], reading) < Threshold(reading, c.noise)
            && (reading == 0 ==> Percent(after.values[i]) == 0)
            && (reading == MAX_READING ==> Percent(after.values[i]) == 100)
  {
  }

  /** When the count was reset or the number of sliders changed, every slider is reported, in order. */
  lemma ResetReportsEverySlider(k: Known, line: string, c: Config)
    requires Parse(line).Some? && k.count != |Parse(line).value|
    ensures var readings := Parse(line).value;
            Handle(k, line, c).1 ==
              seq(|readings|, i requires 0 <= i < |readings| => Move(i, Reported(readings[i], c.invert)))
  {
    var readings := Parse(line).value;
    FreshMoves(readings, c, |readings|);
  }

  lemma {:induction false} FreshMoves(readings: seq<Reading>, c: Config, n: nat)
    requires n <= |readings|
    ensures Moves(seq(|readings|, _ => UNSET), readings, c, n) ==
              seq(n, i requires 0 <= i < n => Move(i, Reported(readings[i], c.invert)))
  {
    if n > 0 {
      FreshMoves(readings, c, n - 1);
    }
  }

  // ---------- over a whole session ----------

  /** A line read under some noise level, or a settings reload that resets the count. */
  datatype Input = Line(text: string, noise: string) | Reload

  function Session(inputs: seq<Input>, invert: bool): (Known, seq<Move>) {
    if inputs == [] then (Known(0, []), [])
    else
      var (k, moves) := Session(inputs[..|inputs| - 1], invert);
      match inputs[|inputs| - 1]
      case Reload => (Known(0, k.values), moves)
      case Line(text, noise) => var (after, more) := Handle(k, text, Config(invert, noise)); (after, moves + more)
  }

  /** What a consumer that keeps the last event of each slider knows. */
  function Followed(moves: seq<Move>): map<nat, int> {
    if moves == [] then map[]
    else Followed(moves[..|moves| - 1])[moves[|moves| - 1].slider := moves[|moves| - 1].percent]
  }

  lemma {:induction false} FollowedConcat(a: seq<Move>, b: seq<Move>)
    ensures Followed(a + b) == Followed(a) + Followed(b)
  {
    if b == [] {
      assert a + b == a;
    } else {
      assert (a + b)[..|a + b| - 1] == a + b[..|b| - 1];
      FollowedConcat(a, b[..|b| - 1]);
    }
  }

  lemma {:induction false} FollowedMoves(base: seq<int>, readings: seq<Reading>, c: Config, n: nat)
    requires |base| == |readings| && n <= |base|
    ensures var followed := Followed(Moves(base, readings, c, n));
            && (forall i: nat :: i in followed <==> i < n && SignificantlyDifferent(base[i], readings[i], c.noise))
            && (forall i: nat :: i in followed ==> followed[i] == Reported(readings[i], c.invert))
  {
    if n > 0 {
      hide SignificantlyDifferent, Reported;
      FollowedMoves(base, readings, c, n - 1);
      var before, all := Moves(base, readings, c, n - 1), Moves(base, readings, c, n);
      if all != before {
        assert all[..|all| - 1] == before;
      }
    }
  }

  /** The events so far tell the present percentage of every slider. */
  ghost predicate InStep(k: Known, followed: map<nat, int>, invert: bool) {
    forall i: nat :: i < |k.values| ==>
        k.values[i] >= 0 && i in followed && followed[i] == Reported(k.values[i], invert)
  }

  lemma AfterStaysInStep(k: Known, followed: map<nat, int>, readings: seq<Reading>, c: Config)
    requires InStep(k, followed, c.invert)
    ensures var (after, more) := After(k, readings, c); InStep(after, followed + Followed(more), c.invert)
  {
    var base := Base(k, |readings|);
    var more := Followed(Moves(base, readings, c, |readings|));
    var after := Filtered(base, readings, c.noise);
    FollowedMoves(base, readings, c, |readings|);
    forall i: nat | i < |after|
        ensures after[i] >= 0 && i in followed + more && (followed + more)[i] == Reported(after[i], c.invert) {
      assert base[i] < 0 ==> SignificantlyDifferent(base[i], readings[i], c.noise);
      hide Reported, SignificantlyDifferent, Moves, Followed;
    }
    hide Reported, SignificantlyDifferent, Moves, Followed;
  }

  lemma HandleStaysInStep(k: Known, followed: map<nat, int>, text: string, c: Config)
    requires InStep(k, followed, c.invert)
    ensures var (after, more) := Handle(k, text, c); InStep(after, followed + Followed(more), c.invert)
  {
    hide Parse, After, InStep;
    if Parse(text).Some? {
      AfterStaysInStep(k, followed, Parse(text).value, c);
    } else {
      assert followed + Followed([]) == followed;
    }
  }

  lemma {:induction false} SessionsStayInStep(inputs: seq<Input>, invert: bool)
    ensures var (k, moves) := Session(inputs, invert); InStep(k, Followed(moves), invert)
  {
    if inputs != [] {
      var before := inputs[..|inputs| - 1];
      var (k, moves) := Session(before, invert);
      SessionsStayInStep(before, invert);
      match inputs[|inputs| - 1] {
        case Reload =>
        case Line(text, noise) =>
          HandleStaysInStep(k, Followed(moves), text, Config(invert, noise));
          FollowedConcat(moves, Handle(k, text, Config(invert, noise)).1);
      }
    }
  }

  /** Whatever lines and reloads came, under one inversion setting, the last event of each slider is
      exactly what CurrentSliderPercentValues reports for it. */
  lemma {:induction false} EventsReproduceCurrentValues(inputs: seq<Input>, invert: bool, i: nat)
    requires i < |Session(inputs, invert).0.values|
    ensures var (k, moves) := Session(inputs, invert);
            i in Followed(moves) && Followed(moves)[i] == PercentValues(k, invert)[i]
  {
    SessionsStayInStep(inputs, invert);
  }

  // ---------- the sketch ----------

  function Joined(values: seq<Reading>): string
    requires values != []
  {
    if |values| == 1 then Itoa(values[0]) else Itoa(values[0]) + "|" + Joined(values[1..])
  }

  /** sendSliderValues: the readings in order, a bar after each but the last, then println's line end. */
  method SendSliderValues(analogSliderValues: seq<Reading>) returns (line: string)
    requires analogSliderValues != []
    ensures line == Joined(analogSliderValues) + LINE_END
  {
    var builtString := "";
    var i := 0;
    while i < |analogSliderValues|
      invariant 0 <= i <= |analogSliderValues|
      invariant if i == |analogSliderValues| then builtString == Joined(analogSliderValues)
                else builtString + Joined(analogSliderValues[i..]) == Joined(analogSliderValues)
    {
      ghost var left := analogSliderValues[i..];
      assert left[1..] == analogSliderValues[i + 1..];
      builtString := builtString + Itoa(analogSliderValues[i]);
      if i < |analogSliderValues| - 1 {
        builtString := builtString + "|";
      }
      i := i + 1;
    }
    line := builtString + LINE_END;
  }

  lemma ReadingText(n: Reading)
    ensures AllDigits(Itoa(n)) && 1 <= |Itoa(n)| <= 4 && ValueOf(Itoa(n)) == n && Without(Itoa(n), '|')
  {
    DigitsRoundTrip(n);
    assert n >= 10 ==> DigitsOf(n) == DigitsOf(n / 10) + [DigitChar(n % 10)];
    assert n >= 100 ==> DigitsOf(n / 10) == DigitsOf(n / 100) + [DigitChar(n / 10 % 10)];
    assert n >= 1000 ==> DigitsOf(n / 100) == DigitsOf(n / 1000) + [DigitChar(n / 100 % 10)];
    forall i | 0 <= i < |Itoa(n)| ensures Itoa(n)[i] != '|' {
      assert IsDigit(Itoa(n)[i]);
    }
  }

  lemma {:induction false} JoinedSplits(values: seq<Reading>)
    requires values != []
    ensures Split(Joined(values), '|') == seq(|values|, i requires 0 <= i < |values| => Itoa(values[i]))
  {
    hide Itoa;
    ReadingText(values[0]);
    if |values| == 1 {
      SplitOfPiece(Itoa(values[0]), '|');
    } else {
      SplitOfPieces(Itoa(values[0]), '|', Joined(values[1..]));
      JoinedSplits(values[1..]);
    }
  }

  lemma FieldsRead(values: seq<Reading>)
    ensures var fields := seq(|values|, i requires 0 <= i < |values| => Itoa(values[i]));
            && (forall f <- fields :: 1 <= |f| <= 4 && AllDigits(f) && ValueOf(f) <= MAX_READING)
            && (forall i :: 0 <= i < |values| ==> fields[i] in fields && Field(fields, i) == values[i])
  {
    hide Itoa, ValueOf;
    var fields := seq(|values|, i requires 0 <= i < |values| => Itoa(values[i]));
    forall i | 0 <= i < |values|
        ensures 1 <= |fields[i]| <= 4 && AllDigits(fields[i]) && ValueOf(fields[i]) == values[i] {
      ReadingText(values[i]);
    }
  }

  /** A line the sketch prints parses back to the values it was printed from. */
  lemma PrintedLinesParse(values: seq<Reading>)
    requires values != []
    ensures Parse(Joined(values) + LINE_END) == Some(values)
  {
    var line := Joined(values) + LINE_END;
    assert line[..|line| - 2] == Joined(values) && line[|line| - 2..] == LINE_END;
    JoinedSplits(values);
    FieldsRead(values);
    hide Itoa, Joined, Split, AllDigits, ValueOf, Field;
    assert Expected(line);
    assert Parse(line).Some? && Parse(line).value == values;
  }

  // ---------- lines and percentages, in plain terms ----------

  predicate IsField(f: string) { 1 <= |f| <= 4 && forall i :: 0 <= i < |f| ==> '0' <= f[i] <= '9' }

  /** The line is one to four digits, a bar, one to four digits, ..., a carriage return and a line feed. */
  ghost predicate LineOf(line: string, fields: seq<string>) {
    fields != [] && (forall f <- fields :: IsField(f)) && line == JoinWith(fields, '|') + "\r\n"
  }

  function FieldValue(f: string): nat
    requires IsField(f)
  {
    Weighted(seq(|f|, i requires 0 <= i < |f| => f[i] as int - '0' as int), 10)
  }

  lemma FieldsAreDigits(f: string)
    ensures IsField(f) <==> 1 <= |f| <= 4 && AllDigits(f)
    ensures IsField(f) ==> ValueOf(f) == FieldValue(f) && Without(f, '|')
  {
    assert IsField(f) <==> 1 <= |f| <= 4 && forall i :: 0 <= i < |f| ==> IsDigit(f[i]);
    assert (forall i :: 0 <= i < |f| ==> IsDigit(f[i])) <==> forall c <- f :: IsDigit(c);
    if IsField(f) {
      FieldIsPositional(f);
    }
    hide Weighted, ValueOf, FieldValue, IsDigit;
  }

  lemma FieldIsPositional(f: string)
    requires IsField(f) && forall c <- f :: IsDigit(c)
    ensures ValueOf(f) == FieldValue(f)
  {
    ValueIsPositional(f);
    hide Weighted, ValueOf;
    assert DigitValues(f) == seq(|f|, i requires 0 <= i < |f| => f[i] as int - '0' as int);
  }

  lemma ExpectedExactly(line: string)
    ensures Expected(line) ==> LineOf(line, Split(line[..|line| - 2], '|'))
    ensures forall fields :: LineOf(line, fields) ==> Expected(line) && Split(line[..|line| - 2], '|') == fields
  {
    hide AllDigits, IsField, FieldValue, JoinWith, Split, Without;
    forall f ensures IsField(f) <==> 1 <= |f| <= 4 && AllDigits(f) {
      FieldsAreDigits(f);
    }
    if Expected(line) {
      SplitExactly(line[..|line| - 2], '|', Split(line[..|line| - 2], '|'));
      assert line == line[..|line| - 2] + line[|line| - 2..];
    }
    forall fields | LineOf(line, fields) ensures Expected(line) && Split(line[..|line| - 2], '|') == fields {
      forall f <- fields ensures Without(f, '|') {
        FieldsAreDigits(f);
      }
      SplitExactly(JoinWith(fields, '|'), '|', fields);
      assert line[..|line| - 2] == JoinWith(fields, '|') && line[|line| - 2..] == "\r\n";
    }
  }

  /** A line is accepted exactly if it has that form with no value over 1023, and read as those values. */
  lemma ParseExactly(line: string, fields: seq<string>)
    requires LineOf(line, fields)
    ensures Parse(line).Some? <==> forall f <- fields :: FieldValue(f) <= 1023
    ensures Parse(line).Some? ==>
              && |Parse(line).value| == |fields|
              && forall i :: 0 <= i < |fields| ==> Parse(line).value[i] == FieldValue(fields[i])
  {
    ExpectedExactly(line);
    forall f <- fields ensures AllDigits(f) && ValueOf(f) == FieldValue(f) {
      FieldsAreDigits(f);
    }
    hide AllDigits, IsField, FieldValue, ValueOf, JoinWith, Split, Expected;
    if Parse(line).Some? {
      forall i | 0 <= i < |fields| ensures Parse(line).value[i] == FieldValue(fields[i]) {
        assert fields[i] in fields;
      }
    }
  }

  /** And every accepted line has it. */
  lemma AcceptedLinesHaveTheForm(line: string)
    requires Parse(line).Some?
    ensures exists fields :: LineOf(line, fields)
  {
    ExpectedExactly(line);
  }

  /** How far a reading must be from the stored value: 20 readings at level high, 5 at low, 1 at none and 10
      at any other level; within ten of either end never more than 5. */
  lemma SignificanceExactly(oldValue: int, newValue: int, level: string)
    ensures var far := if oldValue < newValue then newValue - oldValue else oldValue - newValue;
            var atEnd := newValue <= 9 || newValue >= 1014;
            SignificantlyDifferent(oldValue, newValue, level) <==>
              || (level == "none" && far >= 1)
              || (level == "low" && far >= 5)
              || (level == "high" && far >= if atEnd then 5 else 20)
              || (level !in ["none", "low", "high"] && far >= if atEnd then 5 else 10)
  {
  }

  /** A slider shows the nearest hundredth of its reading, or what is left to the full hundred when inverted;
      the two always add up. A slider that was not read shows 0 either way. */
  lemma ShownExactly(k: Known, i: nat, shown: int)
    requires i < |k.values|
    ensures k.values[i] >= 0 ==> PercentValues(k, true)[i] + PercentValues(k, false)[i] == 100
    ensures k.values[i] >= 0 ==>
              (shown == PercentValues(k, false)[i] <==> -1023 < 200 * k.values[i] - 2046 * shown < 1023)
    ensures k.values[i] < 0 ==> PercentValues(k, true)[i] == 0 && PercentValues(k, false)[i] == 0
  {
    PercentIsNearest(k.values[i], shown);
  }

  /** So do the events of a line: one for each slider whose reading is significantly different from the stored
      one, in order of the sliders, with the reading's percentage. */
  lemma {:induction false} EventsExactly(base: seq<int>, readings: seq<Reading>, c: Config, n: nat)
    requires |base| == |readings| && n <= |base|
    ensures var moves := Moves(base, readings, c, n);
            && (forall i: nat, shown ::
                  Move(i, shown) in moves <==>
                    && i < n && SignificantlyDifferent(base[i], readings[i], c.noise)
                    && shown == Reported(readings[i], c.invert))
            && (forall j, k :: 0 <= j < k < |moves| ==> moves[j].slider < moves[k].slider)
  {
    hide SignificantlyDifferent, Reported;
    if n > 0 {
      EventsExactly(base, readings, c, n - 1);
      var before := Moves(base, readings, c, n - 1);
      forall j | 0 <= j < |before| ensures before[j].slider < n - 1 {
        assert Move(before[j].slider, before[j].percent) in before;
      }
    }
  }
}
