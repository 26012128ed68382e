/** Instants as integer nanoseconds since the Unix epoch, and the coarser clocks the
    processor compares them on.  Dafny's division by a positive constant rounds towards
    minus infinity, which is what time.UnixMilli and time.UnixMicro do. */
module Times {

  /** time.Time.UnixMicro */
  function Micros(t: int): (us: int) {
    t / 1_000
  }

  /** time.Time.UnixMilli */
  function Millis(t: int): (ms: int) {
    t / 1_000_000
  }

  /** Ticks are the whole milliseconds: the one an instant is in begins at or before it, and the
      next one after it. */
  lemma TickOf(t: int)
    ensures TruncateToMilli(t) == Millis(t) * 1_000_000 <= t < (Millis(t) + 1) * 1_000_000
    ensures Aligned(t) <==> t % 1_000_000 == 0
  {
  }

  /** What an instant becomes once it is written to the cache as JSON microseconds and
      read back.  The millisecond clock, on which cached and streamed rows are compared,
      cannot tell the two apart. */
  function ThroughJson(t: int): (t': int)
    ensures t' <= t < t' + 1_000
    ensures Millis(t') == Millis(t)
    ensures t % 1_000 == 0 ==> t' == t
  {
    NestedFloor(t);
    Micros(t) * 1_000
  }

  /** Flooring to microseconds first does not change the floor to milliseconds. */
  lemma NestedFloor(t: int)
    ensures Millis(Micros(t) * 1_000) == Millis(t)
  {
    var us, ms := t / 1_000, t / 1_000_000;
    assert ms * 1_000 <= us < (ms + 1) * 1_000;
  }

  /** The instant of millisecond tick ms. */
  function Tick(ms: int): int {
    ms * 1_000_000
  }

  /** time.Truncate(time.Millisecond), and SQL's date_trunc('millisecond', t). */
  function TruncateToMilli(t: int): int {
    Tick(Millis(t))
  }

  predicate Aligned(t: int) {
    TruncateToMilli(t) == t
  }

  /** The first tick strictly after t, and the first tick at or after t. */
  function NextTick(t: int): int {
    Tick(Millis(t) + 1)
  }

  function CeilTick(t: int): int {
    if Aligned(t) then t else NextTick(t)
  }

  /** The two comparisons the SQL query makes on a truncated column, restated on the raw
      column: the first shifts the bound up to the next tick, the second up to the tick at
      or after t. */
  lemma TruncatedComparisons(x: int, t: int)
    ensures TruncateToMilli(x) <= t <==> x < NextTick(t)
    ensures TruncateToMilli(x) >= t <==> x >= CeilTick(t)
    ensures t < NextTick(t) && t <= CeilTick(t)
    ensures Aligned(t) ==> NextTick(t) == t + 1_000_000 && CeilTick(t) == t
  {
  }
}
