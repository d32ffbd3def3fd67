/** The comparator of the benchmark rows, with JavaScript's arithmetic on infinities and NaN (results.ts:131-195). */
module RowOrder {
  import opened Json
  import opened BenchmarkRows

  datatype Num = NegInf | Fin(value: real) | PosInf | NaN

  /** What the comparator reads of a row. */
  datatype RowKey = RowKey(baseline: Option<real>, guided: Option<real>, time: Num)

  predicate IsTime(n: Num) {
    !n.PosInf?
  }

  /** `Date.parse`: the time that a date stands for, or none (NaN). */
  type DateParser = string -> Option<real>

  function Timestamp(parse: DateParser, date: Option<string>): Num {
    match date
    case None => NegInf
    case Some(text) => if parse(text).Some? then Fin(parse(text).value) else NaN
  }

  function KeyOf(parse: DateParser, row: Row): RowKey {
    RowKey(row.baselineSuccessRate, row.guidedSuccessRate, Timestamp(parse, row.latestMeasuredAt))
  }

  function KeysOf(parse: DateParser, rows: seq<Row>): seq<RowKey> {
    seq(|rows|, i requires 0 <= i < |rows| => KeyOf(parse, rows[i]))
  }

  function Minus(a: Num, b: Num): Num {
    match (a, b)
    case (NaN, _) => NaN
    case (_, NaN) => NaN
    case (Fin(x), Fin(y)) => Fin(x - y)
    case (NegInf, NegInf) => NaN
    case (PosInf, PosInf) => NaN
    case (NegInf, _) => NegInf
    case (PosInf, _) => PosInf
    case (_, NegInf) => PosInf
    case (_, PosInf) => NegInf
  }

  function OrElse(a: Num, b: Num): Num {
    if a.NaN? || a == Fin(0.0) then b else a
  }

  function Level(rate: Option<real>): Num {
    if rate.Some? then Fin(rate.value) else NegInf
  }

  function Descending(higher: Option<real>, lower: Option<real>): Num {
    Minus(Level(higher), Level(lower))
  }

  function Compare(left: RowKey, right: RowKey): Num {
    OrElse(
      Descending(right.baseline, left.baseline),
      OrElse(Descending(right.guided, left.guided), Minus(right.time, left.time)))
  }

  /** `sort` puts `left` before `right`: it reads NaN as zero. */
  predicate Before(left: RowKey, right: RowKey) {
    var c := Compare(left, right);
    c.NegInf? || (c.Fin? && c.value < 0.0)
  }

  /** A rate beats a smaller one, and any rate beats none. */
  predicate Beats(a: Option<real>, b: Option<real>) {
    a.Some? && (b.None? || a.value > b.value)
  }

  predicate Later(a: Num, b: Num) {
    a.Fin? && (b.NegInf? || (b.Fin? && a.value > b.value))
  }

  predicate SameRates(a: RowKey, b: RowKey) {
    a.baseline == b.baseline && a.guided == b.guided
  }

  /** Despite its infinities, the comparator is lexicographic: baseline, then guided, then recency; nulls last. */
  lemma BeforeIsLexicographic(a: RowKey, b: RowKey)
    requires IsTime(a.time) && IsTime(b.time)
    ensures Before(a, b) <==>
      || Beats(a.baseline, b.baseline)
      || (a.baseline == b.baseline && Beats(a.guided, b.guided))
      || (SameRates(a, b) && Later(a.time, b.time))
  {
    BeatsIsDescending(a.baseline, b.baseline);
    BeatsIsDescending(a.guided, b.guided);
  }

  lemma BeatsIsDescending(a: Option<real>, b: Option<real>)
    ensures var d := Descending(b, a);
      && (Beats(a, b) <==> d.NegInf? || (d.Fin? && d.value < 0.0))
      && (a == b <==> d.NaN? || d == Fin(0.0))
  {
  }

  predicate Incomparable(a: RowKey, b: RowKey) {
    !Before(a, b) && !Before(b, a)
  }

  predicate Irreflexive(rows: seq<RowKey>) {
    forall a :: a in rows ==> !Before(a, a)
  }

  predicate Chains(rows: seq<RowKey>) {
    forall a, b, c :: a in rows && b in rows && c in rows && Before(a, b) && Before(b, c) ==> Before(a, c)
  }

  predicate TiesChain(rows: seq<RowKey>) {
    forall a, b, c :: a in rows && b in rows && c in rows && Incomparable(a, b) && Incomparable(b, c) ==>
      Incomparable(a, c)
  }

  /** What sorting needs of the comparator on these rows. */
  predicate StrictWeakOrder(rows: seq<RowKey>) {
    Irreflexive(rows) && Chains(rows) && TiesChain(rows)
  }

  predicate NoneStraddles(rows: seq<RowKey>) {
    forall a, b, c :: a in rows && b in rows && c in rows ==> !Straddles(a, b, c)
  }

  /** An unparsable date ties with two different dates of rows with the same rates. */
  predicate Straddles(a: RowKey, b: RowKey, c: RowKey) {
    SameRates(a, b) && SameRates(b, c) && b.time.NaN? && !a.time.NaN? && !c.time.NaN? && a.time != c.time
  }

  lemma Transitive(a: RowKey, b: RowKey, c: RowKey)
    requires IsTime(a.time) && IsTime(b.time) && IsTime(c.time)
    requires Before(a, b) && Before(b, c)
    ensures Before(a, c)
  {
    BeforeIsLexicographic(a, b);
    BeforeIsLexicographic(b, c);
    BeforeIsLexicographic(a, c);
  }

  lemma IncomparableIs(a: RowKey, b: RowKey)
    requires IsTime(a.time) && IsTime(b.time)
    ensures Incomparable(a, b) <==> SameRates(a, b) && (a.time.NaN? || b.time.NaN? || a.time == b.time)
  {
    BeforeIsLexicographic(a, b);
    BeforeIsLexicographic(b, a);
  }

  lemma StraddlingBreaks(a: RowKey, b: RowKey, c: RowKey)
    requires IsTime(a.time) && IsTime(b.time) && IsTime(c.time)
    ensures Straddles(a, b, c) <==> Incomparable(a, b) && Incomparable(b, c) && !Incomparable(a, c)
  {
    IncomparableIs(a, b);
    IncomparableIs(b, c);
    IncomparableIs(a, c);
  }

  lemma TiesChainExactly(rows: seq<RowKey>)
    requires forall r :: r in rows ==> IsTime(r.time)
    ensures TiesChain(rows) <==> NoneStraddles(rows)
  {
    if NoneStraddles(rows) {
      forall a, b, c | a in rows && b in rows && c in rows && Incomparable(a, b) && Incomparable(b, c)
        ensures Incomparable(a, c)
      {
        StraddlingBreaks(a, b, c);
      }
    } else {
      var a, b, c :| a in rows && b in rows && c in rows && Straddles(a, b, c);
      StraddlingBreaks(a, b, c);
    }
  }

  /** The comparator is a strict weak order on a list of rows exactly when no unparsable date straddles two others. */
  lemma StrictWeakOrderExactly(rows: seq<RowKey>)
    requires forall r :: r in rows ==> IsTime(r.time)
    ensures StrictWeakOrder(rows) <==> NoneStraddles(rows)
  {
    forall a | a in rows
      ensures !Before(a, a)
    {
      BeforeIsLexicographic(a, a);
    }
    forall a, b, c | a in rows && b in rows && c in rows && Before(a, b) && Before(b, c)
      ensures Before(a, c)
    {
      Transitive(a, b, c);
    }
    TiesChainExactly(rows);
  }

  /** The row is dated, and its date does not parse. */
  predicate Undatable(parse: DateParser, row: Row) {
    row.latestMeasuredAt.Some? && parse(row.latestMeasuredAt.value).None?
  }

  /** Row `b` with its unparsable date ties with rows that show the same rates and stand for different times. */
  predicate Confuses(parse: DateParser, a: Row, b: Row, c: Row) {
    && a.baselineSuccessRate == b.baselineSuccessRate == c.baselineSuccessRate
    && a.guidedSuccessRate == b.guidedSuccessRate == c.guidedSuccessRate
    && Undatable(parse, b) && !Undatable(parse, a) && !Undatable(parse, c)
    && Timestamp(parse, a.latestMeasuredAt) != Timestamp(parse, c.latestMeasuredAt)
  }

  /** Row `a` is dated later: both dates parse and its time is greater, or `b` has none. */
  predicate MeasuredLater(parse: DateParser, a: Row, b: Row) {
    && a.latestMeasuredAt.Some? && parse(a.latestMeasuredAt.value).Some?
    && (b.latestMeasuredAt.None?
        || (parse(b.latestMeasuredAt.value).Some?
            && parse(a.latestMeasuredAt.value).value > parse(b.latestMeasuredAt.value).value))
  }

  /**
   * Which of two benchmark rows comes first: the one with the higher baseline rate, then the higher guided rate,
   * then the later date, a missing rate or date coming last.
   */
  lemma RowsSortLexicographically(parse: DateParser, a: Row, b: Row)
    ensures Before(KeyOf(parse, a), KeyOf(parse, b)) <==>
      || Beats(a.baselineSuccessRate, b.baselineSuccessRate)
      || (a.baselineSuccessRate == b.baselineSuccessRate && Beats(a.guidedSuccessRate, b.guidedSuccessRate))
      || (a.baselineSuccessRate == b.baselineSuccessRate && a.guidedSuccessRate == b.guidedSuccessRate
          && MeasuredLater(parse, a, b))
  {
    BeforeIsLexicographic(KeyOf(parse, a), KeyOf(parse, b));
  }

  predicate NoneConfuses(parse: DateParser, rows: seq<Row>) {
    forall a, b, c :: a in rows && b in rows && c in rows ==> !Confuses(parse, a, b, c)
  }

  lemma ConfusionIsStraddling(parse: DateParser, a: Row, b: Row, c: Row)
    ensures Confuses(parse, a, b, c) <==> Straddles(KeyOf(parse, a), KeyOf(parse, b), KeyOf(parse, c))
  {
  }

  lemma KeyOfRow(parse: DateParser, rows: seq<Row>, row: Row)
    requires row in rows
    ensures KeyOf(parse, row) in KeysOf(parse, rows)
  {
    var i :| 0 <= i < |rows| && rows[i] == row;
    assert KeysOf(parse, rows)[i] == KeyOf(parse, row);
  }

  lemma RowOfKey(parse: DateParser, rows: seq<Row>, key: RowKey) returns (row: Row)
    requires key in KeysOf(parse, rows)
    ensures row in rows && KeyOf(parse, row) == key
  {
    var i :| 0 <= i < |rows| && KeysOf(parse, rows)[i] == key;
    row := rows[i];
  }

  lemma KeysStraddle(parse: DateParser, rows: seq<Row>)
    ensures NoneStraddles(KeysOf(parse, rows)) <==> NoneConfuses(parse, rows)
  {
    var keys := KeysOf(parse, rows);
    if !NoneConfuses(parse, rows) {
      var a, b, c :| a in rows && b in rows && c in rows && Confuses(parse, a, b, c);
      KeyOfRow(parse, rows, a);
      KeyOfRow(parse, rows, b);
      KeyOfRow(parse, rows, c);
      ConfusionIsStraddling(parse, a, b, c);
    }
    if !NoneStraddles(keys) {
      var k, l, m :| k in keys && l in keys && m in keys && Straddles(k, l, m);
      var a := RowOfKey(parse, rows, k);
      var b := RowOfKey(parse, rows, l);
      var c := RowOfKey(parse, rows, m);
      ConfusionIsStraddling(parse, a, b, c);
    }
  }

  lemma KeysHaveTimes(parse: DateParser, rows: seq<Row>)
    ensures forall k :: k in KeysOf(parse, rows) ==> IsTime(k.time)
  {
  }

  /** The benchmark rows have an order to be sorted by exactly when no undatable row ties with two that differ. */
  lemma RowsOrderExactly(parse: DateParser, rows: seq<Row>)
    ensures StrictWeakOrder(KeysOf(parse, rows)) <==> NoneConfuses(parse, rows)
  {
    KeysHaveTimes(parse, rows);
    StrictWeakOrderExactly(KeysOf(parse, rows));
    KeysStraddle(parse, rows);
  }

  /** Two dates with an unparsable one between them: both tie with it, and not with each other. */
  lemma UnparsableDateBreaksOrder() returns (rows: seq<RowKey>)
    ensures |rows| == 3 && forall r :: r in rows ==> IsTime(r.time)
    ensures Incomparable(rows[0], rows[1]) && Incomparable(rows[1], rows[2]) && Before(rows[0], rows[2])
    ensures !StrictWeakOrder(rows)
  {
    rows := [
      RowKey(Some(100.0), None, Fin(2.0)), RowKey(Some(100.0), None, NaN), RowKey(Some(100.0), None, Fin(1.0))];
    assert Straddles(rows[0], rows[1], rows[2]);
    StrictWeakOrderExactly(rows);
    BeforeIsLexicographic(rows[0], rows[2]);
    StraddlingBreaks(rows[0], rows[1], rows[2]);
  }
}
