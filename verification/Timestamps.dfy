/** Instants, and the RFC 3339 text a shard stores for them (layout
    `2006-01-02T15:04:05.999999999Z07:00`, section 5.6 of RFC 3339).
    An instant counts nanoseconds of local time from 0000-01-01 in one fixed zone. */
module Timestamps {
  import opened Text
  import opened Calendar

  const NS := 1_000_000_000
  const NS_PER_DAY := 86_400_000_000_000

  const END_OF_TIME := DAYS * NS_PER_DAY

  type Time = t: nat | t < END_OF_TIME

  function DayOf(t: Time): (d: Day)
    ensures d * NS_PER_DAY <= t < (d + 1) * NS_PER_DAY
  {
    t / NS_PER_DAY
  }

  function SecondOf(t: Time): (s: nat)
    ensures s < 86_400
  {
    t / NS % 86_400
  }

  function NanoOf(t: Time): (ns: nat)
    ensures ns < NS
  {
    t % NS
  }

  function Instant(day: nat, second: nat, ns: nat): nat { day * NS_PER_DAY + second * NS + ns }

  /** An instant is its day, its second of that day and its nanosecond. */
  lemma Fields(t: Time)
    ensures t == Instant(DayOf(t), SecondOf(t), NanoOf(t))
    ensures t / NS == DayOf(t) * 86_400 + SecondOf(t)
  {
    var u := t / NS;
    assert t == u * NS + NanoOf(t);
    assert u == u / 86_400 * 86_400 + u % 86_400;
    assert u / 86_400 == DayOf(t);
  }

  /** The zone suffix: `Z` for offset zero, `+hh:mm` or `-hh:mm` otherwise. */
  predicate NumericZone(zone: string) { |zone| == 6 && zone[0] in {'+', '-'} }

  predicate IsZone(zone: string) { zone == "Z" || NumericZone(zone) }

  function TrimZeros(s: string): (r: string)
    ensures |r| <= |s|
  {
    if s == [] || (forall i :: 0 <= i < |s| ==> s[i] == '0') then "" else [s[0]] + TrimZeros(s[1..])
  }

  /** `.999999999`: at most nine digits, without trailing zeros; nothing for a whole second. */
  function Fraction(ns: nat): string
    requires ns < NS
  {
    if ns == 0 then "" else "." + TrimZeros(Pad(ns, 9))
  }

  function HMS(h: nat, m: nat, s: nat): (r: string)
    ensures |r| == 8
  {
    Pad(h, 2) + ":" + Pad(m, 2) + ":" + Pad(s, 2)
  }

  function Clock(second: nat): (s: string)
    requires second < 86_400
    ensures |s| == 8
  {
    HMS(second / 3600, second / 60 % 60, second % 60)
  }

  function Stamp(zone: string, t: Time): string {
    Name(DayOf(t)) + ("T" + Clock(SecondOf(t)) + (Fraction(NanoOf(t)) + zone))
  }

  // ---- reading it back ----

  function ParseClock(s: string): Option<nat> {
    if |s| == 8 && AllDigits(s[..2]) && s[2] == ':' && AllDigits(s[3..5]) && s[5] == ':' && AllDigits(s[6..])
      && Number(s[..2]) < 24 && Number(s[3..5]) < 60 && Number(s[6..]) < 60
    then Some(3600 * Number(s[..2]) + 60 * Number(s[3..5]) + Number(s[6..]))
    else None
  }

  function Zeros(k: nat): (s: string)
    ensures |s| == k && AllDigits(s) && forall i :: 0 <= i < k ==> s[i] == '0'
  {
    if k == 0 then "" else "0" + Zeros(k - 1)
  }

  function ParseFraction(s: string): Option<nat> {
    if s == "" then Some(0)
    else if s[0] == '.' && 2 <= |s| <= 10 && AllDigits(s[1..]) then
      var digits := s[1..] + Zeros(10 - |s|);
      PadNumber(digits);
      Some(Number(digits))
    else None
  }

  function ParseDay(s: string): Option<nat> {
    match ParseDate(s)
    case Some(d) => if DayNumber(d) >= 0 then Some(DayNumber(d)) else None
    case None => None
  }

  function ParseStamp(zone: string, s: string): Option<nat> {
    if |s| < 19 + |zone| || s[10] != 'T' || s[|s| - |zone|..] != zone then None else
    match (ParseDay(s[..10]), ParseClock(s[11..19]), ParseFraction(s[19..|s| - |zone|]))
    case (Some(d), Some(second), Some(ns)) => Some(Instant(d, second, ns))
    case _ => None
  }

  lemma {:induction false} TrimZerosUndone(s: string)
    requires AllDigits(s)
    ensures AllDigits(TrimZeros(s)) && TrimZeros(s) + Zeros(|s| - |TrimZeros(s)|) == s
  {
    if s != [] && exists i :: 0 <= i < |s| && s[i] != '0' {
      TrimZerosUndone(s[1..]);
      assert s == [s[0]] + s[1..];
    }
  }

  lemma NonzeroDigits(ns: nat)
    requires 0 < ns < NS
    ensures Number(Pad(ns, 9)) == ns && TrimZeros(Pad(ns, 9)) != ""
  {
    Pow10Table();
    NumberPad(ns, 9);
    TrimZerosUndone(Pad(ns, 9));
    NumberZeros(9);
    assert "" + Zeros(9) == Zeros(9);
  }

  lemma FractionRoundTrip(ns: nat)
    requires ns < NS
    ensures ParseFraction(Fraction(ns)) == Some(ns)
  {
    if ns > 0 {
      NonzeroDigits(ns);
      TrimZerosUndone(Pad(ns, 9));
      assert Fraction(ns)[1..] == TrimZeros(Pad(ns, 9));
    }
  }

  lemma {:induction false} NumberZeros(k: nat)
    ensures Number(Zeros(k)) == 0
  {
    if k > 0 {
      NumberZeros(k - 1);
      assert Zeros(k)[..k - 1] == Zeros(k - 1);
    }
  }

  lemma HMSRoundTrip(h: nat, m: nat, s: nat)
    requires h < 24 && m < 60 && s < 60
    ensures ParseClock(HMS(h, m, s)) == Some(3600 * h + 60 * m + s)
  {
    Pow10Table();
    NumberPad(h, 2); NumberPad(m, 2); NumberPad(s, 2);
    var c := HMS(h, m, s);
    assert c[..2] == Pad(h, 2) && c[3..5] == Pad(m, 2) && c[6..] == Pad(s, 2);
  }

  lemma ClockFields(second: nat)
    ensures second == 3600 * (second / 3600) + 60 * (second / 60 % 60) + second % 60
  {
    var minute := second / 60;
    assert second == 60 * minute + second % 60;
    assert minute == 60 * (minute / 60) + minute % 60;
    assert minute / 60 == second / 3600;
  }

  lemma ClockRoundTrip(second: nat)
    requires second < 86_400
    ensures ParseClock(Clock(second)) == Some(second)
  {
    ClockFields(second);
    HMSRoundTrip(second / 3600, second / 60 % 60, second % 60);
  }

  lemma NameRoundTrip(d: Day)
    ensures ParseDay(Name(d)) == Some(d)
  {
    FourDigitYear(d);
    ParseFormat(Civil(d));
    DayNumberOfCivil(d);
  }

  lemma StampParts(day: string, clock: string, fraction: string, zone: string)
    requires |day| == 10 && |clock| == 8
    ensures var s := day + ("T" + clock + (fraction + zone));
            |s| == 19 + |fraction| + |zone| && s[..10] == day && s[10] == 'T' && s[11..19] == clock
            && s[19..|s| - |zone|] == fraction && s[|s| - |zone|..] == zone
  {
  }

  /** A stored timestamp reads back as the instant it was written for. */
  lemma StampRoundTrip(zone: string, t: Time)
    ensures ParseStamp(zone, Stamp(zone, t)) == Some(t)
  {
    var d, second, ns := DayOf(t), SecondOf(t), NanoOf(t);
    assert ParseDay(Name(d)) == Some(d) by { NameRoundTrip(d); }
    assert ParseClock(Clock(second)) == Some(second) by { ClockRoundTrip(second); }
    assert ParseFraction(Fraction(ns)) == Some(ns) by { FractionRoundTrip(ns); }
    ParseParts(Name(d), Clock(second), Fraction(ns), zone, d, second, ns);
    assert t == Instant(d, second, ns) by { Fields(t); }
  }

  lemma ParseParts(day: string, clock: string, fraction: string, zone: string, d: nat, second: nat, ns: nat)
    requires |day| == 10 && |clock| == 8
    requires ParseDay(day) == Some(d) && ParseClock(clock) == Some(second) && ParseFraction(fraction) == Some(ns)
    ensures ParseStamp(zone, day + ("T" + clock + (fraction + zone))) == Some(Instant(d, second, ns))
  {
    StampParts(day, clock, fraction, zone);
  }

  // ---- how the text orders ----

  lemma {:induction false} TrimZerosLess(a: string, b: string)
    requires |a| == |b| && AllDigits(a) && AllDigits(b) && Less(a, b)
    ensures Less(TrimZeros(a), TrimZeros(b))
  {
    if a[0] == b[0] {
      TrimZerosLess(a[1..], b[1..]);
    }
    assert exists i :: 0 <= i < |b| && b[i] != '0' by {
      if forall i :: 0 <= i < |b| ==> b[i] == '0' { NothingBelowZeros(a, b); }
    }
  }

  lemma {:induction false} NothingBelowZeros(a: string, b: string)
    requires |a| == |b| && AllDigits(a) && forall i :: 0 <= i < |b| ==> b[i] == '0'
    ensures !Less(a, b)
  {
    if a != [] { NothingBelowZeros(a[1..], b[1..]); }
  }

  lemma FractionLess(a: nat, b: nat)
    requires a < b < NS
    ensures Less(Fraction(a), Fraction(b))
  {
    if a > 0 {
      Pow10Table();
      PadLess(a, b, 9);
      TrimZerosLess(Pad(a, 9), Pad(b, 9));
      LessPrefix(".", TrimZeros(Pad(a, 9)), TrimZeros(Pad(b, 9)));
    }
  }

  lemma FractionChars(ns: nat, i: nat)
    requires ns < NS && i < |Fraction(ns)|
    ensures Fraction(ns)[i] == '.' || IsDigit(Fraction(ns)[i])
  {
    TrimZerosUndone(Pad(ns, 9));
  }

  lemma {:induction false} LessNotPrefix(p: string, q: string, s: string, t: string)
    requires Less(p, q) && !(p <= q)
    ensures Less(p + s, q + t)
  {
    if p[0] == q[0] {
      assert p == [p[0]] + p[1..] && q == [q[0]] + q[1..];
      assert !(p[1..] <= q[1..]);
      LessNotPrefix(p[1..], q[1..], s, t);
      assert (p + s)[1..] == p[1..] + s && (q + t)[1..] == q[1..] + t;
    }
  }

  lemma HMSLess(h: nat, m: nat, s: nat, h': nat, m': nat, s': nat)
    requires h < 100 && m < 100 && s < 100 && h' < 100 && m' < 100 && s' < 100
    requires h < h' || (h == h' && (m < m' || (m == m' && s < s')))
    ensures Less(HMS(h, m, s), HMS(h', m', s'))
  {
    Pow10Table();
    var H, M, S, H', M', S' := Pad(h, 2), Pad(m, 2), Pad(s, 2), Pad(h', 2), Pad(m', 2), Pad(s', 2);
    if h < h' {
      PadLess(h, h', 2);
      LessExtend(H, H', ":" + M + ":" + S, ":" + M' + ":" + S');
      assert HMS(h, m, s) == H + (":" + M + ":" + S) && HMS(h', m', s') == H' + (":" + M' + ":" + S');
    } else if m < m' {
      PadLess(m, m', 2);
      LessExtend(M, M', ":" + S, ":" + S');
      LessPrefix(H + ":", M + (":" + S), M' + (":" + S'));
      assert HMS(h, m, s) == H + ":" + (M + (":" + S)) && HMS(h, m', s') == H + ":" + (M' + (":" + S'));
    } else {
      PadLess(s, s', 2);
      LessPrefix(H + ":" + M + ":", S, S');
    }
  }

  lemma ClockLess(a: nat, b: nat)
    requires a < b < 86_400
    ensures Less(Clock(a), Clock(b))
  {
    var h, m, s, h', m', s' := a / 3600, a / 60 % 60, a % 60, b / 3600, b / 60 % 60, b % 60;
    ClockFields(a); ClockFields(b);
    HMSLess(h, m, s, h', m', s');
  }

  /** Within one day's shard, a later second is a greater text, whatever the zone. */
  lemma LaterSecondIsGreater(zone: string, a: Time, b: Time)
    requires DayOf(a) == DayOf(b) && a / NS < b / NS
    ensures Less(Stamp(zone, a), Stamp(zone, b))
  {
    Fields(a); Fields(b);
    ClockLess(SecondOf(a), SecondOf(b));
    StampLess(Name(DayOf(a)), Clock(SecondOf(a)), Clock(SecondOf(b)),
              Fraction(NanoOf(a)) + zone, Fraction(NanoOf(b)) + zone);
  }

  lemma StampLess(day: string, c: string, c': string, u: string, v: string)
    requires |c| == |c'|
    requires Less(c, c') || (c == c' && Less(u, v))
    ensures Less(day + ("T" + c + u), day + ("T" + c' + v))
  {
    if Less(c, c') { LessExtend(c, c', u, v); } else { LessPrefix(c, u, v); }
    LessPrefix(day + "T", c + u, c' + v);
    assert day + "T" + (c + u) == day + ("T" + c + u) && day + "T" + (c' + v) == day + ("T" + c' + v);
  }

  lemma ZoneVersusFraction(zone: string, rest: string)
    requires IsZone(zone) && rest != "" && (rest[0] == '.' || IsDigit(rest[0]))
    ensures Less(zone, rest) <==> NumericZone(zone)
  {
  }

  lemma SuffixAfterPrefix(f: string, rest: string, zone: string)
    requires IsZone(zone) && rest != "" && (rest[0] == '.' || IsDigit(rest[0]))
    ensures Less(f + zone, f + rest + zone) <==> NumericZone(zone)
  {
    LessPrefix(f, zone, rest + zone);
    ZoneVersusFraction(zone, rest + zone);
    assert f + (rest + zone) == f + rest + zone;
  }

  lemma FractionZoneOrder(zone: string, x: nat, y: nat)
    requires IsZone(zone) && x < y < NS
    ensures Less(Fraction(x) + zone, Fraction(y) + zone) <==> NumericZone(zone) || !(Fraction(x) <= Fraction(y))
  {
    var f, g := Fraction(x), Fraction(y);
    FractionLess(x, y);
    if f <= g {
      assert f != g by { LessTrichotomy(f, g); }
      FractionChars(y, |f|);
      SuffixAfterPrefix(f, g[|f|..], zone);
      assert g == f + g[|f|..];
    } else {
      LessNotPrefix(f, g, zone, zone);
    }
  }

  /** Within one second the text order is the time order, except that under `Z` a fraction
      that is a proper prefix of a later one compares greater: 'Z' is above every digit and
      above '.', while '+' and '-' are below them. */
  lemma SameSecondOrder(zone: string, a: Time, b: Time)
    requires IsZone(zone) && a < b && a / NS == b / NS
    ensures Less(Stamp(zone, a), Stamp(zone, b)) <==> NumericZone(zone) || !(Fraction(NanoOf(a)) <= Fraction(NanoOf(b)))
  {
    Fields(a); Fields(b);
    assert DayOf(a) == DayOf(b) && SecondOf(a) == SecondOf(b) && NanoOf(a) < NanoOf(b);
    var day, c, u, v := Name(DayOf(a)), Clock(SecondOf(a)), Fraction(NanoOf(a)) + zone, Fraction(NanoOf(b)) + zone;
    FractionZoneOrder(zone, NanoOf(a), NanoOf(b));
    LessTrichotomy(u, v);
    LessTrichotomy(Stamp(zone, a), Stamp(zone, b));
    if Less(u, v) { StampLess(day, c, c, u, v); } else if Less(v, u) { StampLess(day, c, c, v, u); }
  }
}
