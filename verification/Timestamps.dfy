/** The time of an event, from the timestamp it carries.  Seconds with a fraction are exact
    rationals here; rounding of floating-point numbers is not modelled. */
module Timestamps {
  import opened Options
  import opened Times

  /** A JSON number decoded as an integer or a float, a string that reads as a number or as an
      RFC 3339 date (in nanoseconds), or something else. */
  datatype Timestamp =
    | Whole(n: int)
    | Fraction(x: real)
    | NumberText(y: real)
    | DateText(nanos: int)
    | OtherText
    | OtherType

  /** Conversion of a float to an integer drops the fraction. */
  function TowardsZero(x: real): int {
    if x < 0.0 then -((-x).Floor) else x.Floor
  }

  /** Seconds and the nanoseconds of the fraction, both towards zero. */
  function NanosOf(x: real): int {
    var seconds := TowardsZero(x);
    seconds * 1_000_000_000 + TowardsZero((x - seconds as real) * 1_000_000_000.0)
  }

  function FromSeconds(x: real): int {
    TruncateToMilli(NanosOf(x))
  }

  function ToTime(t: Timestamp): Option<int> {
    match t
    case Whole(n) => Some(TruncateToMilli(n * 1_000_000_000))
    case Fraction(x) => Some(FromSeconds(x))
    case NumberText(y) => Some(FromSeconds(y))
    case DateText(nanos) => Some(nanos)
    case OtherText => None
    case OtherType => None
  }

  /** ToFloat64Timestamp: seconds, cut to milliseconds for texts only. */
  function ToSeconds(t: Timestamp): Option<real> {
    match t
    case Whole(n) => Some(n as real)
    case Fraction(x) => Some(x)
    case NumberText(y) => Some(TowardsZero(y * 1000.0) as real / 1000.0)
    case DateText(nanos) => Some(Millis(nanos) as real / 1000.0)
    case OtherText => None
    case OtherType => None
  }

  /** The two conversions fail on the same timestamps. */
  lemma ConversionsFailTogether(t: Timestamp)
    ensures ToTime(t).None? <==> ToSeconds(t).None?
    ensures ToTime(t).None? <==> t.OtherText? || t.OtherType?
  {
  }

  /** Every timestamp but an RFC 3339 date gives a time on a millisecond boundary. */
  lemma NumbersAreAligned(t: Timestamp)
    requires ToTime(t).Some? && !t.DateText?
    ensures Aligned(ToTime(t).value)
  {
    match t
    case Whole(n) => TruncationAligns(n * 1_000_000_000);
    case Fraction(x) => TruncationAligns(NanosOf(x));
    case NumberText(y) => TruncationAligns(NanosOf(y));
  }

  lemma TruncationAligns(t: int)
    ensures Aligned(TruncateToMilli(t))
  {
  }

  lemma NanosOfIsWholeNanos(x: real)
    requires x >= 0.0
    ensures NanosOf(x) == (x * 1_000_000_000.0).Floor
    ensures Millis(NanosOf(x)) == (x * 1000.0).Floor
  {
    var s := x.Floor;
    var f := (x - s as real) * 1_000_000_000.0;
    assert x * 1_000_000_000.0 == (s * 1_000_000_000) as real + f;
    var k := (x * 1000.0).Floor;
    assert (k * 1_000_000) as real <= x * 1_000_000_000.0 < ((k + 1) * 1_000_000) as real;
  }

  lemma NanosOfNegative(x: real)
    requires x < 0.0
    ensures NanosOf(x) == -NanosOf(-x)
  {
    var s := (-x).Floor;
    assert (-x) - s as real >= 0.0;
    assert (x - (-s) as real) * 1_000_000_000.0 == -(((-x) - s as real) * 1_000_000_000.0);
  }

  /** The number of seconds and the time name the same millisecond. */
  predicate Agree(t: Timestamp)
    requires ToTime(t).Some? && ToSeconds(t).Some?
  {
    ToSeconds(t).value * 1000.0 == Millis(ToTime(t).value) as real
  }

  /** A text that is cut: before 1970 one conversion cuts towards zero and the other down. */
  lemma TextAgrees(y: real)
    ensures Agree(NumberText(y)) <==> y >= 0.0 || Aligned(NanosOf(y))
  {
    var n := NanosOf(y);
    TruncationAligns(n);
    assert Millis(TruncateToMilli(n)) == Millis(n);
    if y >= 0.0 {
      NanosOfIsWholeNanos(y);
    } else {
      NanosOfNegative(y);
      NanosOfIsWholeNanos(-y);
      var k := ((-y) * 1000.0).Floor;
      assert -(y * 1000.0) == (-y) * 1000.0;
      assert TowardsZero(y * 1000.0) == -k;
      assert Millis(-n) == k;
      NegatedMillis(-n);
    }
  }

  /** A JSON number is not cut to milliseconds by one conversion. */
  lemma FractionAgrees(x: real)
    ensures Agree(Fraction(x)) <==> x * 1000.0 == (x * 1000.0).Floor as real
  {
    var n := NanosOf(x);
    TruncationAligns(n);
    assert Millis(TruncateToMilli(n)) == Millis(n);
    if x >= 0.0 {
      NanosOfIsWholeNanos(x);
    } else {
      NanosOfNegative(x);
      NanosOfIsWholeNanos(-x);
      var k := ((-x) * 1000.0).Floor;
      assert -(x * 1000.0) == (-x) * 1000.0;
      if x * 1000.0 == (x * 1000.0).Floor as real {
        assert (-x) * 1000.0 == k as real;
        assert (-x) * 1_000_000_000.0 == (k * 1_000_000) as real;
        assert Millis(n) == -k;
      }
    }
  }

  /** An event's seconds and its time name the same millisecond exactly when the timestamp is a
      JSON number without a fraction of a millisecond, a numeric text that is not before 1970
      or has no such fraction, or a date. */
  lemma SecondsAndTimeAgreeExactlyWhen(t: Timestamp)
    requires ToTime(t).Some? && ToSeconds(t).Some?
    ensures Agree(t) <==>
      match t
      case Whole(_) => true
      case Fraction(x) => x * 1000.0 == (x * 1000.0).Floor as real
      case NumberText(y) => y >= 0.0 || Aligned(NanosOf(y))
      case DateText(_) => true
      case OtherText => false
      case OtherType => false
  {
    match t
    case Whole(n) => TruncationAligns(n * 1_000_000_000);
    case Fraction(x) => FractionAgrees(x);
    case NumberText(y) => TextAgrees(y);
    case DateText(_) =>
  }

  /** Half a millisecond before 1970, as a text: the seconds say 0, the time says the millisecond
      before.  As a JSON number the seconds keep the half. */
  lemma HalfMillisecondBefore1970()
    ensures !Agree(NumberText(-0.0005)) && !Agree(Fraction(0.0005))
    ensures ToSeconds(NumberText(-0.0005)) == Some(0.0) && ToTime(NumberText(-0.0005)) == Some(-1_000_000)
  {
    var y: real := -0.0005;
    NanosOfNegative(y);
    NanosOfIsWholeNanos(-y);
    assert (-y) * 1_000_000_000.0 == 500_000.0;
    assert NanosOf(y) == -500_000;
    TextAgrees(y);
    FractionAgrees(0.0005);
  }

  lemma NegatedMillis(n: int)
    ensures Millis(-n) == -Millis(n) <==> Aligned(-n)
  {
  }

  /** The time of each kind of timestamp: whole seconds and dates exactly, a number or numeric text
      from 1970 on at the start of its millisecond, one before 1970 at the start of the millisecond
      of the nanosecond next to it towards 1970. */
  lemma TimeOf(t: Timestamp)
    ensures match t
      case Whole(n) => ToTime(t) == Some(n * 1_000_000_000)
      case Fraction(x) => ToTime(t) == Some(TimeOfSeconds(x))
      case NumberText(y) => ToTime(t) == Some(TimeOfSeconds(y))
      case DateText(nanos) => ToTime(t) == Some(nanos)
      case OtherText => ToTime(t) == None
      case OtherType => ToTime(t) == None
  {
    match t
    case Whole(n) => WholeSecondsAligned(n);
    case Fraction(x) => SecondsToTick(x);
    case NumberText(y) => SecondsToTick(y);
    case DateText(_) =>
    case OtherText =>
    case OtherType =>
  }

  lemma WholeSecondsAligned(n: int)
    ensures TruncateToMilli(n * 1_000_000_000) == n * 1_000_000_000
  {
    assert n * 1_000_000_000 == (n * 1_000) * 1_000_000;
  }

  function TimeOfSeconds(x: real): int {
    if x >= 0.0 then
      (x * 1000.0).Floor * 1_000_000
    else
      var nanos := -((-x) * 1_000_000_000.0).Floor;
      nanos - nanos % 1_000_000
  }

  lemma SecondsToTick(x: real)
    ensures FromSeconds(x) == TimeOfSeconds(x)
  {
    if x >= 0.0 {
      NanosOfIsWholeNanos(x);
    } else {
      NanosOfNegative(x);
      NanosOfIsWholeNanos(-x);
    }
  }

  /** ms is the number of milliseconds in so many seconds. */
  predicate IsMillis(seconds: real, ms: int) {
    seconds * 1000.0 == ms as real
  }

  lemma OfMillis(ms: int)
    ensures IsMillis(ms as real / 1000.0, ms)
  {
  }

  lemma TowardsZeroCuts(x: real)
    ensures if x >= 0.0 then TowardsZero(x) as real <= x < TowardsZero(x) as real + 1.0 else TowardsZero(x) as real - 1.0 < x <= TowardsZero(x) as real
  {
  }

  /** The seconds of each kind: a number exactly, a numeric text cut to milliseconds towards 1970, a
      date at the start of its millisecond. */
  lemma SecondsOf(t: Timestamp)
    ensures match t
      case Whole(n) => ToSeconds(t) == Some(n as real)
      case Fraction(x) => ToSeconds(t) == Some(x)
      case NumberText(y) =>
        exists ms :: ToSeconds(t).Some? && IsMillis(ToSeconds(t).value, ms) &&
          if y >= 0.0 then ms as real <= y * 1000.0 < ms as real + 1.0 else ms as real - 1.0 < y * 1000.0 <= ms as real
      case DateText(nanos) =>
        exists ms :: ToSeconds(t).Some? && IsMillis(ToSeconds(t).value, ms) && ms * 1_000_000 <= nanos < (ms + 1) * 1_000_000
      case OtherText => ToSeconds(t) == None
      case OtherType => ToSeconds(t) == None
  {
    match t
    case Whole(_) =>
    case Fraction(_) =>
    case NumberText(y) =>
      var ms := TowardsZero(y * 1000.0);
      OfMillis(ms);
      TowardsZeroCuts(y * 1000.0);
      assert y >= 0.0 <==> y * 1000.0 >= 0.0;
      assert IsMillis(ToSeconds(t).value, ms);
    case DateText(nanos) =>
      OfMillis(Millis(nanos));
      TickOf(nanos);
      assert IsMillis(ToSeconds(t).value, Millis(nanos));
    case OtherText =>
    case OtherType =>
  }
}
