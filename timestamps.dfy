/** Wall-clock instants at second resolution and the log file names built
    from them with `strftime("%Y-%m-%d_%H-%M-%S") + "_log.csv"`. */
module Timestamps {
  import opened LexOrder

  datatype DateTime = DateTime(year: int, month: int, day: int, hour: int, minute: int, second: int)

  /** What `datetime.now()` can return, with a four-digit year. */
  predicate Valid(t: DateTime) {
    1000 <= t.year <= 9999 && 1 <= t.month <= 12 && 1 <= t.day <= 31 &&
    0 <= t.hour <= 23 && 0 <= t.minute <= 59 && 0 <= t.second <= 59
  }

  /** Chronological order of instants. */
  predicate Earlier(a: DateTime, b: DateTime) {
    a.year < b.year || (a.year == b.year &&
    (a.month < b.month || (a.month == b.month &&
    (a.day < b.day || (a.day == b.day &&
    (a.hour < b.hour || (a.hour == b.hour &&
    (a.minute < b.minute || (a.minute == b.minute &&
    a.second < b.second)))))))))
  }

  function Digit(d: int): char
    requires 0 <= d <= 9
  {
    ('0' as int + d) as char
  }

  /** A two-digit zero-padded field such as `%m`. */
  function Pad2(n: int): (s: string)
    requires 0 <= n <= 99
    ensures |s| == 2
  {
    [Digit(n / 10), Digit(n % 10)]
  }

  /** `%Y` for a four-digit year. */
  function Year4(n: int): (s: string)
    requires 0 <= n <= 9999
    ensures |s| == 4
  {
    Pad2(n / 100) + Pad2(n % 100)
  }

  /** A separator followed by a two-digit field. */
  function Segment(sep: char, n: int): (s: string)
    requires 0 <= n <= 99
    ensures |s| == 3
  {
    [sep] + Pad2(n)
  }

  /** `strftime("%Y-%m-%d_%H-%M-%S")`. */
  function Stamp(t: DateTime): (s: string)
    requires Valid(t)
    ensures |s| == 19
  {
    Year4(t.year) + (Segment('-', t.month) + (Segment('-', t.day) + (Segment('_', t.hour) +
      (Segment('-', t.minute) + Segment('-', t.second)))))
  }

  const LogSuffix: string := "_log.csv"

  /** The name under which a session stopped at `t` is saved: the fixed-width
      19-character stamp, then `_log.csv`. */
  function LogFileName(t: DateTime): (name: string)
    requires Valid(t)
    ensures |name| == 27 && name[19..] == LogSuffix
    ensures name[..19] == Stamp(t)
  {
    Stamp(t) + LogSuffix
  }

  lemma Pad2Order(m: int, n: int)
    requires 0 <= m <= 99 && 0 <= n <= 99
    ensures Less(Pad2(m), Pad2(n)) <==> m < n
  {
    var p, q := Pad2(m), Pad2(n);
    assert p[1..] == [Digit(m % 10)] && q[1..] == [Digit(n % 10)];
    assert [Digit(m % 10)][1..] == [] && [Digit(n % 10)][1..] == [];
    assert Less(p[1..], q[1..]) <==> m % 10 < n % 10;
    assert Less(p, q) <==> m / 10 < n / 10 || (m / 10 == n / 10 && m % 10 < n % 10);
    assert m == 10 * (m / 10) + m % 10 && n == 10 * (n / 10) + n % 10;
  }

  lemma EqualOfConcat(p: string, s: string, q: string, t: string)
    requires |p| == |q|
    ensures p + s == q + t <==> p == q && s == t
  {
    if p + s == q + t {
      assert p == (p + s)[..|p|] && q == (q + t)[..|q|];
      assert s == (p + s)[|p|..] && t == (q + t)[|q|..];
    }
  }

  lemma Year4Order(m: int, n: int)
    requires 0 <= m <= 9999 && 0 <= n <= 9999
    ensures Less(Year4(m), Year4(n)) <==> m < n
    ensures Year4(m) == Year4(n) <==> m == n
  {
    LessOfConcat(Pad2(m / 100), Pad2(m % 100), Pad2(n / 100), Pad2(n % 100));
    EqualOfConcat(Pad2(m / 100), Pad2(m % 100), Pad2(n / 100), Pad2(n % 100));
    Pad2Order(m / 100, n / 100);
    Pad2Order(m % 100, n % 100);
  }

  /** One separator and field in front of equally long rests. */
  lemma SegmentOrder(sep: char, m: int, n: int, s: string, t: string)
    requires 0 <= m <= 99 && 0 <= n <= 99 && |s| == |t|
    ensures Less(Segment(sep, m) + s, Segment(sep, n) + t) <==> m < n || (m == n && Less(s, t))
    ensures Segment(sep, m) + s == Segment(sep, n) + t <==> m == n && s == t
  {
    LessOfConcat(Segment(sep, m), s, Segment(sep, n), t);
    EqualOfConcat(Segment(sep, m), s, Segment(sep, n), t);
    LessOfConcat([sep], Pad2(m), [sep], Pad2(n));
    EqualOfConcat([sep], Pad2(m), [sep], Pad2(n));
    Irreflexive([sep]);
    Pad2Order(m, n);
  }

  lemma StampOrder(a: DateTime, b: DateTime)
    requires Valid(a) && Valid(b)
    ensures Less(Stamp(a), Stamp(b)) <==> Earlier(a, b)
    ensures Stamp(a) == Stamp(b) <==> a == b
  {
    var s5, t5 := Segment('-', a.second), Segment('-', b.second);
    var s4, t4 := Segment('-', a.minute) + s5, Segment('-', b.minute) + t5;
    var s3, t3 := Segment('_', a.hour) + s4, Segment('_', b.hour) + t4;
    var s2, t2 := Segment('-', a.day) + s3, Segment('-', b.day) + t3;
    var s1, t1 := Segment('-', a.month) + s2, Segment('-', b.month) + t2;
    SegmentOrder('-', a.second, b.second, [], []);
    assert s5 + [] == s5 && t5 + [] == t5;
    Irreflexive([]);
    SegmentOrder('-', a.minute, b.minute, s5, t5);
    SegmentOrder('_', a.hour, b.hour, s4, t4);
    SegmentOrder('-', a.day, b.day, s3, t3);
    SegmentOrder('-', a.month, b.month, s2, t2);
    LessOfConcat(Year4(a.year), s1, Year4(b.year), t1);
    EqualOfConcat(Year4(a.year), s1, Year4(b.year), t1);
    Year4Order(a.year, b.year);
  }

  /** Sorting log names as strings sorts sessions by the time they stopped:
      the greatest name belongs to the most recent session. */
  lemma LogNamesSortChronologically(a: DateTime, b: DateTime)
    requires Valid(a) && Valid(b)
    ensures Less(LogFileName(a), LogFileName(b)) <==> Earlier(a, b)
  {
    StampOrder(a, b);
    LessOfConcat(Stamp(a), LogSuffix, Stamp(b), LogSuffix);
    Irreflexive(LogSuffix);
  }

  /** Names carry seconds only: two sessions stopped within the same second
      get the same name, and distinct seconds give distinct names. */
  lemma LogNamesCollideExactlyWithinOneSecond(a: DateTime, b: DateTime)
    requires Valid(a) && Valid(b)
    ensures LogFileName(a) == LogFileName(b) <==> a == b
  {
    StampOrder(a, b);
    EqualOfConcat(Stamp(a), LogSuffix, Stamp(b), LogSuffix);
  }

  /** `2024-03-05_14-07-09_log.csv`, as strftime writes it. */
  lemma LogFileNameExample()
    ensures LogFileName(DateTime(2024, 3, 5, 14, 7, 9)) == "2024-03-05_14-07-09_log.csv"
  {
  }
}
