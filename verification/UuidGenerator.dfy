/**
  Generating session ids: src/uuid/_uuid_time.c, src/uuid/_uuid_clock.c, _uuid_generate and
  uuid_generate.  The clock reading, the hardware address and the first clock sequence value
  are inputs; the clock may be read in any order, also backwards.
 */
module UuidGenerator {
  import opened UuidLayout

  // ---------- the timestamp ----------

  /** 100-nanosecond units from 15 October 1582 to 1 January 1970. */
  const TIME_OFFSET: int := 0x01b2_1dd2_1381_4000

  predicate IsLeap(year: nat) {
    year % 4 == 0 && (year % 100 != 0 || year % 400 == 0)
  }

  /** The days from 1 January of the year 1 to 1 January of `year`, in the Gregorian calendar. */
  function DaysBefore(year: nat): nat
    requires year > 0
  {
    if year == 1 then 0 else DaysBefore(year - 1) + if IsLeap(year - 1) then 366 else 365
  }

  lemma {:induction false} DaysAre(year: nat)
    requires year > 0
    ensures DaysBefore(year) == 365 * (year - 1) + (year - 1) / 4 - (year - 1) / 100 + (year - 1) / 400
  {
    if year > 1 {
      DaysAre(year - 1);
      LeapDay(year - 1);
    }
  }

  lemma LeapDay(y: nat)
    requires y > 0
    ensures y / 4 - y / 100 + y / 400 == (y - 1) / 4 - (y - 1) / 100 + (y - 1) / 400 + if IsLeap(y) then 1 else 0
  {
    QuotientStep(y, 4);
    QuotientStep(y, 100);
    QuotientStep(y, 400);
    Centuries(y);
  }

  lemma Centuries(y: nat)
    ensures y % 400 == 0 ==> y % 100 == 0
    ensures y % 100 == 0 ==> y % 4 == 0
  {
    if y % 400 == 0 {
      Multiple(y / 400 * 4, 100);
    }
    if y % 100 == 0 {
      Multiple(y / 100 * 25, 4);
    }
  }

  lemma Multiple(k: nat, m: nat)
    requires m == 100 || m == 4
    ensures k * m % m == 0
  {
  }

  lemma QuotientStep(y: nat, m: nat)
    requires y > 0 && (m == 4 || m == 100 || m == 400)
    ensures y / m == (y - 1) / m + if y % m == 0 then 1 else 0
  {
  }

  /** The offset: the 17 days that October 1582 still had, November, December, and the years up to 1970. */
  lemma OffsetIs(next: nat, epoch: nat)
    requires next == 1583 && epoch == 1970
    ensures TIME_OFFSET == (17 + 30 + 31 + DaysBefore(epoch) - DaysBefore(next)) * 24 * 3600 * 10000000
  {
    DaysIn(epoch, 1970, 719162);
    DaysIn(next, 1583, 577813);
  }

  lemma DaysIn(year: nat, value: nat, days: nat)
    requires year == value && value > 0
    requires days == 365 * (value - 1) + (value - 1) / 4 - (value - 1) / 100 + (value - 1) / 400
    ensures DaysBefore(year) == days
  {
    DaysAre(year);
  }

  const TWO60: int := 0x1000_0000_0000_0000
  const TWO64: int := 0x1_0000_0000_0000_0000

  datatype Time = Time(low: Word32, mid: Word16, hi: Word16)

  /** The number that the time fields stand for. */
  function Timestamp(t: Time): int {
    t.low + 0x1_0000_0000 * t.mid + 0x1_0000_0000_0000 * (t.hi % 0x1000)
  }

  /** The clock reading in 100-nanosecond units since 1582. */
  function Ticks(sec: int, usec: int): int {
    TIME_OFFSET + 10 * usec + 10000000 * sec
  }

  /** 60 bits, cut into 32, 16 and 12 bits. */
  function Split(u: int): Time
    requires 0 <= u < TWO60
  {
    Time(u % 0x1_0000_0000, u / 0x1_0000_0000 % 0x1_0000, u / 0x1_0000_0000_0000)
  }

  function TimeOf(sec: int, usec: int): Time {
    Split(Ticks(sec, usec) % TWO60)
  }

  /** _uuid_get_time for the reading `sec`, `usec` of gettimeofday, in 64-bit arithmetic. */
  method GetTime(sec: int, usec: int) returns (t: Time)
    ensures t == TimeOf(sec, usec)
  {
    var uutime := TIME_OFFSET;
    var ticks := (usec % TWO64 * 10 + sec % TWO64 * 10000000) % TWO64;
    uutime := (uutime + ticks) % TWO64;
    TicksWrap(sec, usec);
    t := CutTime(uutime);
    LowBits(Ticks(sec, usec));
  }

  /** The second half of _uuid_get_time: cutting the fields off, shifting the rest down. */
  method CutTime(time: int) returns (t: Time)
    requires 0 <= time < TWO64
    ensures t == Split(time % TWO60)
  {
    var uutime := time;
    var low := uutime % 0x1_0000_0000;
    uutime := uutime / 0x1_0000_0000;
    var mid := uutime % 0x1_0000;
    uutime := uutime / 0x1_0000;
    var hi := uutime % 0x1000;
    t := Time(low, mid, hi);
    CutIsSplit(time);
  }

  /** Reducing every term to 64 bits is the same as reducing the sum once. */
  lemma TicksWrap(sec: int, usec: int)
    ensures (TIME_OFFSET + (usec % TWO64 * 10 + sec % TWO64 * 10000000) % TWO64) % TWO64 == Ticks(sec, usec) % TWO64
  {
    var a, b := usec / TWO64, sec / TWO64;
    var x := usec % TWO64 * 10 + sec % TWO64 * 10000000;
    AddMultiple(TIME_OFFSET + x % TWO64, x / TWO64);
    AddMultiple(TIME_OFFSET + x, 10 * a + 10000000 * b);
    assert x == x % TWO64 + x / TWO64 * TWO64;
    assert usec == a * TWO64 + usec % TWO64 && sec == b * TWO64 + sec % TWO64;
  }

  lemma AddMultiple(x: int, k: int)
    ensures (x + k * TWO64) % TWO64 == x % TWO64
  {
  }

  lemma LowBits(x: int)
    ensures x % TWO64 % TWO60 == x % TWO60
  {
  }

  lemma CutIsSplit(u: int)
    requires 0 <= u < TWO64
    ensures u % 0x1_0000_0000 == u % TWO60 % 0x1_0000_0000
    ensures u / 0x1_0000_0000 % 0x1_0000 == u % TWO60 / 0x1_0000_0000 % 0x1_0000
    ensures u / 0x1_0000_0000 / 0x1_0000 % 0x1000 == u % TWO60 / 0x1_0000_0000_0000
  {
    var q, r := u / TWO60, u % TWO60;
    assert u == q * 0x1000_0000 * 0x1_0000_0000 + r;
    Shift32(q * 0x1000_0000, r);
    Shift16(q * 0x1000, r / 0x1_0000_0000);
    SplitRecombines(r);
    assert u / 0x1_0000_0000 / 0x1_0000 == q * 0x1000 + r / 0x1_0000_0000 / 0x1_0000;
  }

  lemma Shift32(k: int, r: int)
    ensures (k * 0x1_0000_0000 + r) / 0x1_0000_0000 == k + r / 0x1_0000_0000
    ensures (k * 0x1_0000_0000 + r) % 0x1_0000_0000 == r % 0x1_0000_0000
  {
  }

  lemma Shift16(k: int, r: int)
    ensures (k * 0x1_0000 + r) / 0x1_0000 == k + r / 0x1_0000
    ensures (k * 0x1_0000 + r) % 0x1_0000 == r % 0x1_0000
  {
  }

  lemma SplitRecombines(u: int)
    requires 0 <= u < TWO60
    ensures Timestamp(Split(u)) == u && Split(u).hi < 0x1000
    ensures u / 0x1_0000_0000 / 0x1_0000 == u / 0x1_0000_0000_0000
  {
    assert u / 0x1_0000_0000 / 0x1_0000 == u / 0x1_0000_0000_0000;
  }

  /** The fields recombine to the number of 100-nanosecond units since 1582, modulo 2^60. */
  lemma TimestampIs(sec: int, usec: int)
    ensures var t := TimeOf(sec, usec);
            && t.low + 0x1_0000_0000 * t.mid + 0x1_0000_0000_0000 * t.hi
               == (TIME_OFFSET + 10 * usec + 10000000 * sec) % 0x1000_0000_0000_0000
            && t.hi < 0x1000
    ensures Timestamp(TimeOf(sec, usec)) == Ticks(sec, usec) % TWO60
  {
    SplitRecombines(Ticks(sec, usec) % TWO60);
  }

  lemma TimestampInjective(s: Time, t: Time)
    requires s.hi < 0x1000 && t.hi < 0x1000 && Timestamp(s) == Timestamp(t)
    ensures s == t
  {
  }

  // ---------- one id ----------

  /** x | 0x1000 on 16 bits. */
  function SetVersion(x: Word16): Word16 {
    if x / 0x1000 % 2 == 1 then x else x + 0x1000
  }

  /** x | 0x80 on 8 bits. */
  function SetReserved(x: Octet): Octet {
    if x / 0x80 % 2 == 1 then x else x + 0x80
  }

  /** The low 8 and the next 6 bits of the clock sequence; / and % are those of two's complement. */
  function ClockLow(seq_: int): Octet {
    seq_ % 0x100
  }

  function ClockHi(seq_: int): Octet {
    seq_ / 0x100 % 0x40
  }

  /** The fields of an id that is generated with this clock sequence value. */
  function FieldsFor(node: NodeId, t: Time, seq_: int): Fields {
    Fields(t.low, t.mid, SetVersion(t.hi), SetReserved(ClockHi(seq_)), ClockLow(seq_), node)
  }

  /** What a call of uuid_generate meets: whether it gets the mutex, the address if any, clock and random source. */
  datatype Call = Call(locked: bool, hasNode: bool, node: NodeId, sec: int, usec: int, random: int)

  predicate Succeeds(call: Call) {
    call.locked && call.hasNode
  }

  /** The static variables of _uuid_get_clock. */
  datatype Clock = Clock(initialized: bool, value: int)

  function Tick(clock: Clock, random: int): Clock {
    if clock.initialized then clock.(value := clock.value + 1) else Clock(true, random)
  }

  function After(clock: Clock, call: Call): Clock {
    if Succeeds(call) then Tick(clock, call.random) else clock
  }

  function Output(clock: Clock, call: Call): Uuid {
    if Succeeds(call) then
      Pack(FieldsFor(call.node, TimeOf(call.sec, call.usec), Tick(clock, call.random).value))
    else NULL_UUID
  }

  /** The generator: the code with its two static variables. */
  class Generator {
    var isInitialized: bool
    var seq_: int

    constructor ()
      ensures State() == Clock(false, 0)
    {
      isInitialized, seq_ := false, 0;
    }

    ghost function State(): Clock
      reads this
    {
      Clock(isInitialized, seq_)
    }

    /** _uuid_get_clock */
    method GetClock(random: int) returns (low: Octet, hi: Octet)
      modifies this
      ensures State() == Tick(old(State()), random)
      ensures low == ClockLow(seq_) && hi == ClockHi(seq_)
    {
      if !isInitialized {
        isInitialized := true;
        seq_ := random;
      } else {
        seq_ := seq_ + 1;
      }
      low := seq_ % 0x100;
      hi := seq_ / 0x100 % 0x40;
    }

    /** uuid_generate: clears `out`, then fills it if nothing fails. */
    method Generate(out: array<Octet>, call: Call)
      requires out.Length == 16
      modifies this, out
      ensures out[..] == Output(old(State()), call)
      ensures State() == After(old(State()), call)
      ensures !call.locked || !call.hasNode ==> out[..] == NULL_UUID && seq_ == old(seq_)
      ensures call.locked && call.hasNode ==>
                && isInitialized && seq_ == (if old(isInitialized) then old(seq_) + 1 else call.random)
                && out[10..] == call.node
                && out[8] as int % 0x40 * 0x100 + out[9] as int == seq_ % 0x4000
    {
      forall k | 0 <= k < 16 {
        out[k] := 0;
      }
      assert out[..] == NULL_UUID;
      if !call.locked {
        return;
      }
      if !call.hasNode {
        return;
      }
      var t := GetTime(call.sec, call.usec);
      var hi := SetVersion(t.hi);
      var low, clockHi := GetClock(call.random);
      PackInto(out, Fields(t.low, t.mid, hi, SetReserved(clockHi), low, call.node));
      ClockBytes(call.node, t, seq_);
      assert out[10..] == out[..][10..];
    }
  }

  /** Version 1 and variant bits 10 (sections 4.1.1 and 4.1.3 of RFC 4122), and the time can be read off. */
  lemma VersionAndVariant(clock: Clock, call: Call)
    requires Succeeds(call)
    ensures var f := Unpack(Output(clock, call));
            && f.timeHiAndVersion / 0x1000 == 1
            && f.clockHiAndReserved / 0x40 == 2
            && f.timeLow + 0x1_0000_0000 * f.timeMid + 0x1_0000_0000_0000 * (f.timeHiAndVersion % 0x1000)
               == (TIME_OFFSET + 10 * call.usec + 10000000 * call.sec) % 0x1000_0000_0000_0000
  {
    var t, value := TimeOf(call.sec, call.usec), Tick(clock, call.random).value;
    UnpackPack(FieldsFor(call.node, t, value));
    TimestampIs(call.sec, call.usec);
    VersionBits(t);
    SequenceBits(value);
  }

  lemma VersionBits(t: Time)
    requires t.hi < 0x1000
    ensures SetVersion(t.hi) / 0x1000 == 1
    ensures Timestamp(t.(hi := SetVersion(t.hi))) == Timestamp(t)
  {
  }

  lemma ClockBytes(node: NodeId, t: Time, value: int)
    ensures var u := Pack(FieldsFor(node, t, value));
            u[10..] == node && u[8] as int % 0x40 * 0x100 + u[9] as int == value % 0x4000
  {
    SequenceBits(value);
    assert Pack(FieldsFor(node, t, value))[10..] == node;
  }

  /** The null id tells a failure: onConnect never stores a session under it. */
  lemma NullMeansFailure(clock: Clock, call: Call)
    ensures Output(clock, call) == NULL_UUID <==> !Succeeds(call)
  {
    if Succeeds(call) {
      VersionAndVariant(clock, call);
      BigEndian2(NULL_UUID[6..8]);
      assert Unpack(NULL_UUID).timeHiAndVersion == 0;
    }
  }

  /** Two ids are equal exactly if address, timestamp and the 14 bits of the clock sequence are. */
  lemma EqualIds(n1: NodeId, t1: Time, s1: int, n2: NodeId, t2: Time, s2: int)
    requires t1.hi < 0x1000 && t2.hi < 0x1000
    ensures Pack(FieldsFor(n1, t1, s1)) == Pack(FieldsFor(n2, t2, s2))
       <==> n1 == n2 && t1 == t2 && s1 % 0x4000 == s2 % 0x4000
  {
    UnpackPack(FieldsFor(n1, t1, s1));
    UnpackPack(FieldsFor(n2, t2, s2));
    SequenceBits(s1);
    SequenceBits(s2);
  }

  lemma SequenceBits(s: int)
    ensures s % 0x4000 == ClockHi(s) * 0x100 + ClockLow(s)
    ensures SetReserved(ClockHi(s)) == ClockHi(s) + 0x80 && SetReserved(ClockHi(s)) / 0x40 == 2
  {
    assert s == s / 0x100 * 0x100 + s % 0x100;
    assert s / 0x100 == s / 0x100 / 0x40 * 0x40 + s / 0x100 % 0x40;
  }

  // ---------- a history of calls ----------

  /** The clock after the first `n` calls of a process. */
  function ClockAfter(calls: seq<Call>, n: nat): Clock
    requires n <= |calls|
  {
    if n == 0 then Clock(false, 0) else After(ClockAfter(calls, n - 1), calls[n - 1])
  }

  function Id(calls: seq<Call>, n: nat): Uuid
    requires n < |calls|
  {
    Output(ClockAfter(calls, n), calls[n])
  }

  /** How many of the calls from the i-th up to the j-th succeed. */
  function Successes(calls: seq<Call>, i: nat, j: nat): nat
    requires i <= j <= |calls|
  {
    if i == j then 0 else Successes(calls, i, j - 1) + (if Succeeds(calls[j - 1]) then 1 else 0)
  }

  lemma {:induction false} ClockAdvances(calls: seq<Call>, i: nat, j: nat)
    requires i < j <= |calls| && Succeeds(calls[i])
    ensures ClockAfter(calls, j).initialized
    ensures ClockAfter(calls, j).value == ClockAfter(calls, i + 1).value + Successes(calls, i, j) - 1
  {
    if j == i + 1 {
      assert Successes(calls, i, i) == 0;
    } else {
      ClockAdvances(calls, i, j - 1);
    }
  }

  /**
    When two generated ids collide: same address, same 60-bit timestamp, and a multiple of 2^14
    successful calls apart.  The clock may have gone anywhere in between.
   */
  lemma Collision(calls: seq<Call>, i: nat, j: nat)
    requires i < j < |calls| && Succeeds(calls[i]) && Succeeds(calls[j])
    ensures Id(calls, i) == Id(calls, j) <==>
            && calls[i].node == calls[j].node
            && Ticks(calls[i].sec, calls[i].usec) % TWO60 == Ticks(calls[j].sec, calls[j].usec) % TWO60
            && Successes(calls, i, j) % 0x4000 == 0
  {
    ClockAdvances(calls, i, j);
    var s1 := ClockAfter(calls, i + 1).value;
    var s2 := Tick(ClockAfter(calls, j), calls[j].random).value;
    assert s2 == s1 + Successes(calls, i, j);
    var t1, t2 := TimeOf(calls[i].sec, calls[i].usec), TimeOf(calls[j].sec, calls[j].usec);
    TimestampIs(calls[i].sec, calls[i].usec);
    TimestampIs(calls[j].sec, calls[j].usec);
    EqualIds(calls[i].node, t1, s1, calls[j].node, t2, s2);
    if Timestamp(t1) == Timestamp(t2) {
      TimestampInjective(t1, t2);
    }
    SameResidue(s1, Successes(calls, i, j));
  }

  lemma SameResidue(s: int, n: nat)
    ensures s % 0x4000 == (s + n) % 0x4000 <==> n % 0x4000 == 0
  {
  }

  /** Any two of 2^14 consecutive successful results differ, whatever the clock did. */
  lemma UniqueInWindow(calls: seq<Call>, i: nat, j: nat)
    requires i < j < |calls| && Succeeds(calls[i]) && Succeeds(calls[j])
    requires Successes(calls, i, j) < 0x4000
    ensures Id(calls, i) != Id(calls, j)
  {
    Collision(calls, i, j);
    FirstCounts(calls, i, j);
  }

  lemma {:induction false} FirstCounts(calls: seq<Call>, i: nat, j: nat)
    requires i < j <= |calls| && Succeeds(calls[i])
    ensures Successes(calls, i, j) >= 1
  {
    if j > i + 1 {
      FirstCounts(calls, i, j - 1);
    }
  }

  /**
    The bytes of the n-th result: the address as it is, and the clock sequence, which starts
    with the random number of the first success `f` and counts the successes since.
   */
  lemma ClockSequenceIs(calls: seq<Call>, f: nat, n: nat)
    requires f <= n < |calls| && Succeeds(calls[f]) && Succeeds(calls[n])
    requires forall k :: 0 <= k < f ==> !Succeeds(calls[k])
    ensures Id(calls, n)[10..16] == calls[n].node
    ensures var u := Id(calls, n);
            u[8] as int % 0x40 * 0x100 + u[9] as int == (calls[f].random + Successes(calls, f, n)) % 0x4000
  {
    var clock, call := ClockAfter(calls, n), calls[n];
    ClockBytes(call.node, TimeOf(call.sec, call.usec), Tick(clock, call.random).value);
    NotStarted(calls, f);
    if n > f {
      ClockAdvances(calls, f, n);
    } else {
      assert Successes(calls, f, f) == 0;
    }
  }

  lemma {:induction false} NotStarted(calls: seq<Call>, f: nat)
    requires f <= |calls| && forall k :: 0 <= k < f ==> !Succeeds(calls[k])
    ensures ClockAfter(calls, f) == Clock(false, 0)
  {
    if f > 0 {
      NotStarted(calls, f - 1);
    }
  }
}
