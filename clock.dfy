/** The relative time labels ("5m ago", "3h ago", "2d ago") that the admin
    claim list and the search suggestions show. Both pages use the same
    rule; the current time is a parameter. */
module Clock {
  const MINUTE_MS := 60000
  const HOUR_MS := 60 * MINUTE_MS
  const DAY_MS := 24 * HOUR_MS

  /** The unit a label is written in and its count. */
  datatype Elapsed = Minutes(n: int) | Hours(n: int) | Days(n: int)

  /** `Math.floor(a / b)` for a positive divisor; Dafny's division agrees
      with the floor here, also for negative `a`. */
  lemma FloorBounds(a: int, b: int)
    requires b > 0
    ensures (a / b) * b <= a < (a / b + 1) * b
  {
  }

  /** Flooring twice is flooring once by the product. */
  lemma {:induction false} FloorTwice(a: int, b: int, c: int)
    requires b > 0 && c > 0
    ensures (a / b) / c == a / (b * c)
  {
    var q, m := a / b, (a / b) / c;
    FloorBounds(a, b);
    FloorBounds(q, c);
    assert m * c <= q < (m + 1) * c;
    assert m * c * b <= q * b by {
      MulMono(m * c, q, b);
    }
    assert (q + 1) * b <= (m + 1) * c * b by {
      MulMono(q + 1, (m + 1) * c, b);
    }
    assert m * (b * c) <= a < (m + 1) * (b * c);
    FloorUnique(a, b * c, m);
  }

  lemma MulMono(x: int, y: int, b: int)
    requires x <= y && b > 0
    ensures x * b <= y * b
  {
  }

  /** The floor is the only integer whose multiples bracket `a`. */
  lemma FloorUnique(a: int, d: int, m: int)
    requires d > 0 && m * d <= a < (m + 1) * d
    ensures a / d == m
  {
    FloorBounds(a, d);
    var q := a / d;
    if q < m {
      assert (q + 1) * d <= m * d by { MulMono(q + 1, m, d); }
    } else if q > m {
      assert (m + 1) * d <= q * d by { MulMono(m + 1, q, d); }
    }
  }

  /** timeAgo / formatTimeAgo: whole minutes under an hour, whole hours
      under a day, whole days beyond. A timestamp in the future gives a
      negative number of minutes. */
  function TimeAgo(now: int, ts: int): (e: Elapsed)
    ensures e.Minutes? <==> now - ts < HOUR_MS
    ensures e.Minutes? ==> e.n * MINUTE_MS <= now - ts < (e.n + 1) * MINUTE_MS
    ensures e.Hours? ==> 1 <= e.n < 24 && e.n * HOUR_MS <= now - ts < (e.n + 1) * HOUR_MS
    ensures e.Days? ==> 1 <= e.n && e.n * DAY_MS <= now - ts < (e.n + 1) * DAY_MS
  {
    var diff := now - ts;
    var mins := diff / MINUTE_MS;
    FloorBounds(diff, MINUTE_MS);
    if mins < 60 then
      Minutes(mins)
    else
      var hrs := mins / 60;
      FloorTwice(diff, MINUTE_MS, 60);
      FloorBounds(diff, HOUR_MS);
      if hrs < 24 then
        Hours(hrs)
      else
        FloorTwice(diff, HOUR_MS, 24);
        FloorBounds(diff, DAY_MS);
        Days(hrs / 24)
  }

  /** The decimal digits of a natural number. */
  function Digits(n: nat): (r: string)
    ensures |r| >= 1
    ensures forall i :: 0 <= i < |r| ==> '0' <= r[i] <= '9'
  {
    if n < 10 then [('0' as int + n) as char]
    else Digits(n / 10) + [('0' as int + n % 10) as char]
  }

  /** The value of a string of decimal digits. */
  function DigitsValue(s: string): int
    requires forall i :: 0 <= i < |s| ==> '0' <= s[i] <= '9'
  {
    if s == [] then 0 else 10 * DigitsValue(s[..|s| - 1]) + (s[|s| - 1] as int - '0' as int)
  }

  /** Digits writes the number it is given. */
  lemma {:induction false} DigitsRoundTrip(n: nat)
    ensures DigitsValue(Digits(n)) == n
  {
    if n >= 10 {
      DigitsRoundTrip(n / 10);
      var d := Digits(n / 10) + [('0' as int + n % 10) as char];
      assert d[..|d| - 1] == Digits(n / 10);
    }
  }

  /** Template-literal rendering of an integer. */
  function Decimal(n: int): string {
    if n < 0 then "-" + Digits(-n) else Digits(n)
  }

  /** The label text: the count, then "m ago", "h ago" or "d ago". */
  function Label(e: Elapsed): string {
    match e
    case Minutes(n) => Decimal(n) + "m ago"
    case Hours(n) => Decimal(n) + "h ago"
    case Days(n) => Decimal(n) + "d ago"
  }

  /** A label reads back: its last five characters name the unit and the
      digits before them give the count. */
  lemma LabelReadsBack(e: Elapsed)
    requires e.n >= 0
    ensures var r := Label(e);
            && |r| >= 6
            && r[|r| - 5..] == [if e.Minutes? then 'm' else if e.Hours? then 'h' else 'd'] + " ago"
            && (forall i :: 0 <= i < |r| - 5 ==> '0' <= r[i] <= '9')
            && DigitsValue(r[..|r| - 5]) == e.n
  {
    var r := Label(e);
    assert r[..|r| - 5] == Digits(e.n);
    DigitsRoundTrip(e.n);
  }
}
