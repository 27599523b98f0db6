/** Timespec arithmetic of DataStructures/time_funcs.c. */
module TimeFuncs {
  import opened Aodv

  const BILLION := 1_000_000_000
  const MILLION := 1_000_000

  /** The value of a `struct timespec`. */
  datatype Instant = Instant(sec: int, nsec: int) {
    predicate Normal() {
      0 <= nsec < BILLION
    }

    function Ns(): int {
      sec * BILLION + nsec
    }
  }

  /** What the functions below keep: the nanoseconds may reach a full second. */
  type Time = t: Instant | 0 <= t.nsec <= BILLION witness Instant(0, 0)

  /** A `struct timespec` passed by pointer. */
  class Timespec {
    var sec: int
    var nsec: int

    constructor (t: Instant)
      ensures Value() == t
    {
      sec, nsec := t.sec, t.nsec;
    }

    function Value(): Instant
      reads this
    {
      Instant(sec, nsec)
    }
  }

  // ---- Specification functions ----

  function Subtract(current: Time, end: Time): Time {
    var sec := end.sec - current.sec;
    var nsec := end.nsec - current.nsec;
    if sec < 0 then Instant(0, 0)
    else if nsec < 0 then Instant(sec - 1, nsec + BILLION)
    else Instant(sec, nsec)
  }

  function Carry(t: Instant): (r: Time)
    requires 0 <= t.nsec
    ensures r.Ns() == t.Ns()
    decreases t.nsec
  {
    if t.nsec > BILLION then Carry(Instant(t.sec + 1, t.nsec - BILLION)) else t
  }

  function AddMs(t: Time, ms: u32): (r: Time)
    ensures r.Ns() == t.Ns() + ms * MILLION
  {
    Carry(Instant(t.sec + ms / 1000, ms % 1000 * MILLION + t.nsec))
  }

  function FromMs(ms: u32): Time {
    Carry(Instant(ms / 1000, ms % 1000 * MILLION))
  }

  function ToMs(t: Time): u32 {
    Wrap(t.sec * 1000 + t.nsec / MILLION)
  }

  /** The first argument wins on its seconds alone. */
  function Max(a: Time, b: Time): Time {
    if a.sec >= b.sec then a else b
  }

  // ---- The functions of the file, in place ----

  predicate Holds(t: Timespec)
    reads t
  {
    0 <= t.nsec <= BILLION
  }

  method SubtractTime(current: Timespec, end: Timespec)
    requires Holds(current) && Holds(end)
    modifies current
    ensures current.Value() == Subtract(old(current.Value()), old(end.Value()))
  {
    current.sec := end.sec - current.sec;
    if current.sec < 0 {
      current.nsec := 0;
      current.sec := 0;
      return;
    }
    current.nsec := end.nsec - current.nsec;
    if current.nsec < 0 {
      current.nsec := current.nsec + BILLION;
      current.sec := current.sec - 1;
    }
  }

  method AddTimeMs(t: Timespec, ms: u32)
    requires Holds(t)
    modifies t
    ensures t.Value() == AddMs(old(t.Value()), ms)
  {
    t.sec := t.sec + ms / 1000;
    t.nsec := (ms - 1000 * (ms / 1000)) * MILLION + t.nsec;
    while t.nsec > BILLION
      invariant 0 <= t.nsec && Carry(t.Value()) == AddMs(old(t.Value()), ms)
      decreases t.nsec
    {
      t.nsec := t.nsec - BILLION;
      t.sec := t.sec + 1;
    }
  }

  method ConvertMsToTimespec(t: Timespec, ms: u32)
    modifies t
    ensures t.Value() == FromMs(ms)
  {
    t.sec := ms / 1000;
    t.nsec := (ms - t.sec * 1000) * MILLION;
    ghost var carries := 1;
    while t.nsec > BILLION
      invariant 0 <= t.nsec && Carry(t.Value()) == FromMs(ms)
      invariant t.nsec <= (carries + 1) * BILLION
      decreases carries
    {
      t.nsec := t.nsec - BILLION;
      t.sec := t.sec + 1;
      carries := carries - 1;
    }
  }

  method ConvertTimespecToMs(t: Timespec) returns (ms: u32)
    requires Holds(t)
    ensures ms == ToMs(t.Value())
  {
    WrapAdd(t.sec * 1000, t.nsec / MILLION);
    ms := Wrap(t.sec * 1000);
    ms := Wrap(ms + t.nsec / MILLION);
  }

  /** The nested division truncates toward zero and is 0 for every pair of valid values
      but one, where it is harmless. */
  method MaxTimespec(a: Timespec, b: Timespec) returns (r: Timespec)
    requires Holds(a) && Holds(b)
    ensures r == a || r == b
    ensures r.Value() == Max(a.Value(), b.Value())
  {
    if a.sec >= b.sec {
      if a.nsec >= b.nsec {
        return a;
      } else {
        var quotient := -((b.nsec - a.nsec) / BILLION);
        if a.sec - quotient >= b.sec {
          return a;
        } else {
          return b;
        }
      }
    }
    return b;
  }

  // ---- What the functions mean on nanoseconds ----

  /** Adding milliseconds is exact, but the carry stops one nanosecond late: a normal time
      stays normal exactly when the nanoseconds do not add up to one full second. */
  lemma AddMsIsExact(t: Time, ms: u32)
    ensures t.Normal() ==> (AddMs(t, ms).Normal() <==> ms % 1000 * MILLION + t.nsec != BILLION)
  {
    var raw := Instant(t.sec + ms / 1000, ms % 1000 * MILLION + t.nsec);
    assert raw.Ns() == t.Ns() + ms * MILLION;
    if t.Normal() && raw.nsec > BILLION {
      assert Carry(raw) == Instant(raw.sec + 1, raw.nsec - BILLION);
    }
  }

  lemma AddMsKeepsOrder(t: Time, ms: u32)
    ensures AddMs(t, ms).sec >= t.sec
  {
  }

  /** Subtraction clamps at zero only by whole seconds: it is the clamped difference except
      when the end lies earlier within the same second, and then the result is negative. */
  lemma SubtractClampsSeconds(current: Time, end: Time)
    requires current.Normal() && end.Normal()
    ensures Subtract(current, end).Normal()
    ensures var d := end.Ns() - current.Ns();
            Subtract(current, end).Ns() == (if d < 0 then 0 else d) <==>
            !(end.sec == current.sec && end.nsec < current.nsec)
    ensures end.sec == current.sec && end.nsec < current.nsec ==>
              Subtract(current, end).Ns() == end.Ns() - current.Ns() < 0
  {
  }

  /** A wake-up computed by subtraction never comes before the end it was computed from. */
  lemma SubtractNeverEarly(current: Time, end: Time)
    ensures current.Ns() + Subtract(current, end).Ns() >= end.Ns()
    ensures end.sec >= current.sec ==> current.Ns() + Subtract(current, end).Ns() == end.Ns()
  {
  }

  lemma MsRoundTrip(ms: u32)
    ensures FromMs(ms).Normal()
    ensures FromMs(ms).Ns() == ms * MILLION
    ensures ToMs(FromMs(ms)) == ms
  {
    assert ms % 1000 * MILLION / MILLION == ms % 1000;
  }

  /** Back to milliseconds rounds down, as long as 32 bits suffice. */
  lemma ToMsRoundsDown(t: Time)
    requires 0 <= t.Ns() < WORD * MILLION
    ensures ToMs(t) * MILLION <= t.Ns() < (ToMs(t) + 1) * MILLION
  {
    var ms := t.sec * 1000 + t.nsec / MILLION;
    assert ms * MILLION <= t.Ns() < (ms + 1) * MILLION;
    assert 0 <= ms < WORD;
  }

  /** `max_timespec` is a maximum except on equal seconds with the larger value second. */
  lemma MaxIsMaximum(a: Time, b: Time)
    requires a.Normal() && b.Normal()
    ensures (Max(a, b).Ns() >= a.Ns() && Max(a, b).Ns() >= b.Ns()) <==>
            !(a.sec == b.sec && a.nsec < b.nsec)
  {
  }
}
