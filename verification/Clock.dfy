// The two clock decoders of ren_chronology.py, `clock_us` and the one inside `reference_key`. One matches a pattern
// and pads the fraction with zeros, the other splits at separators and scales the fraction; they agree on every
// accepted text.
module Clock {
  import opened Basics

  /** The groups of the CLOCK pattern: hours, minutes, seconds and an optional fraction of one to six digits. */
  datatype Parts = Parts(hours: string, minute: string, second: string, fraction: Option<string>)

  predicate Digit(c: char) { '0' <= c <= '9' }

  predicate Digits(s: string) { forall i | 0 <= i < |s| :: Digit(s[i]) }

  /** Two digits, the first at most 5. */
  predicate Sixty(s: string) { |s| == 2 && '0' <= s[0] <= '5' && Digit(s[1]) }

  predicate ValidParts(p: Parts) {
    && p.hours != "" && Digits(p.hours) && Sixty(p.minute) && Sixty(p.second)
    && (p.fraction.Some? ==> 1 <= |p.fraction.value| <= 6 && Digits(p.fraction.value))
  }

  function Tail(p: Parts): string {
    p.second + if p.fraction.Some? then "." + p.fraction.value else ""
  }

  function Render(p: Parts): string {
    p.hours + ":" + p.minute + ":" + Tail(p)
  }

  /** Where `c` first occurs, or the length. */
  function IndexOf(s: string, c: char): (i: nat)
    ensures i <= |s| && (i < |s| ==> s[i] == c) && forall j | 0 <= j < i :: s[j] != c
  {
    if s == "" then 0 else if s[0] == c then 0 else 1 + IndexOf(s[1..], c)
  }

  /** `CLOCK.fullmatch`. */
  function Match(s: string): Option<Parts> {
    var i := IndexOf(s, ':');
    if i == 0 || |s| < i + 6 || s[i + 3] != ':' then None
    else
      var p := Parts(s[..i], s[i + 1..i + 3], s[i + 4..i + 6],
                     if |s| == i + 6 then None else Some(s[i + 7..]));
      if (|s| == i + 6 || s[i + 6] == '.') && ValidParts(p) then Some(p) else None
  }

  lemma FirstIndex(s: string, c: char, i: nat)
    requires i < |s| && s[i] == c && forall j | 0 <= j < i :: s[j] != c
    ensures IndexOf(s, c) == i
  {
    assert s[i] == c;
  }

  /** The pattern accepts exactly the strings of its form, and its groups are the only reading of one. */
  lemma MatchIsExact(s: string, p: Parts)
    ensures Match(s) == Some(p) <==> ValidParts(p) && s == Render(p)
  {
    if Match(s) == Some(p) {
      var i := IndexOf(s, ':');
      assert s == s[..i] + ":" + s[i + 1..i + 3] + ":" + s[i + 4..];
      assert s[i + 4..] == Tail(p);
    }
    if ValidParts(p) && s == Render(p) {
      var n := |p.hours|;
      RenderParts(p);
      FirstIndex(s, ':', n);
    }
  }

  lemma RenderParts(p: Parts)
    requires ValidParts(p)
    ensures var s, n := Render(p), |p.hours|;
            && |s| >= n + 6 && s[..n] == p.hours && s[n] == ':' && s[n + 1..n + 3] == p.minute && s[n + 3] == ':'
            && s[n + 4..n + 6] == p.second && s[n + 4..] == Tail(p)
            && (p.fraction.None? ==> |s| == n + 6)
            && (p.fraction.Some? ==> |s| > n + 6 && s[n + 6] == '.' && s[n + 7..] == p.fraction.value)
            && forall j | 0 <= j < n :: s[j] != ':'
  {
    var s, n := Render(p), |p.hours|;
    assert s[..n] == p.hours;
    assert forall j | 0 <= j < n :: s[j] == p.hours[j];
    assert s[n + 1..n + 3] == p.minute;
    assert s[n + 4..] == Tail(p);
    assert Tail(p)[..2] == p.second;
    assert s[n + 4..n + 6] == s[n + 4..][..2];
    if p.fraction.Some? {
      assert Tail(p)[3..] == p.fraction.value;
      assert s[n + 7..] == s[n + 4..][3..];
    }
  }

  // ----- Decoding -----

  /** `int` of a string of digits. */
  function Int(s: string): nat
    requires Digits(s)
  {
    if s == "" then 0 else 10 * Int(s[..|s| - 1]) + (s[|s| - 1] - '0') as nat
  }

  function Zeros(n: nat): (s: string)
    ensures |s| == n && Digits(s)
  {
    if n == 0 then "" else Zeros(n - 1) + "0"
  }

  function Power(n: nat): nat {
    if n == 0 then 1 else 10 * Power(n - 1)
  }

  /** `s.ljust(6, "0")`. */
  function Padded(s: string): string {
    if |s| >= 6 then s else s + Zeros(6 - |s|)
  }

  function Fraction(p: Parts): string {
    if p.fraction.Some? then p.fraction.value else ""
  }

  /** Hours, minutes and seconds in seconds, then microseconds, and the fraction padded to six digits. */
  function Micros(p: Parts): nat
    requires ValidParts(p)
  {
    (Int(p.hours) * 3600 + Int(p.minute) * 60 + Int(p.second)) * 1000000 + Int(Padded(Fraction(p)))
  }

  /** `clock_us`. */
  function ClockUs(s: string): Option<nat> {
    if Match(s).None? then None
    else
      MatchIsExact(s, Match(s).value);
      Some(Micros(Match(s).value))
  }

  /** `s.split(c)`. */
  function Split(s: string, c: char): (parts: seq<string>)
    ensures parts != []
    decreases |s|
  {
    var i := IndexOf(s, c);
    if i == |s| then [s] else [s[..i]] + Split(s[i + 1..], c)
  }

  /** `s.partition(c)`, as what comes before, whether `c` occurs, and what comes after. */
  function Partition(s: string, c: char): (string, bool, string) {
    var i := IndexOf(s, c);
    if i == |s| then (s, false, "") else (s[..i], true, s[i + 1..])
  }

  predicate Numeric(parts: seq<string>) {
    && |parts| == 3 && Digits(parts[0]) && Digits(parts[1])
    && Digits(Partition(parts[2], '.').0) && Digits(Partition(parts[2], '.').2) && |Partition(parts[2], '.').2| <= 6
  }

  lemma SplitOne(s: string, rest: string, c: char)
    requires forall j | 0 <= j < |s| :: s[j] != c
    ensures Split(s + [c] + rest, c) == [s] + Split(rest, c)
  {
    var whole := s + [c] + rest;
    assert forall j | 0 <= j < |s| :: whole[j] == s[j];
    FirstIndex(whole, c, |s|);
    assert whole[..|s|] == s && whole[|s| + 1..] == rest;
  }

  lemma NoSplit(s: string, c: char)
    requires forall j | 0 <= j < |s| :: s[j] != c
    ensures Split(s, c) == [s] && Partition(s, c) == (s, false, "")
  {
    assert IndexOf(s, c) == |s|;
  }

  lemma TailParts(p: Parts)
    requires ValidParts(p)
    ensures Split(Tail(p), ':') == [Tail(p)]
    ensures Partition(Tail(p), '.') == (p.second, p.fraction.Some?, if p.fraction.Some? then p.fraction.value else "")
  {
    NoSplit(Tail(p), ':');
    if p.fraction.Some? {
      FirstIndex(Tail(p), '.', 2);
      assert Tail(p)[..2] == p.second && Tail(p)[3..] == p.fraction.value;
    } else {
      assert Tail(p) == p.second;
      NoSplit(p.second, '.');
    }
  }

  lemma NoColons(p: Parts)
    requires ValidParts(p)
    ensures forall j | 0 <= j < |p.hours| :: p.hours[j] != ':'
    ensures forall j | 0 <= j < |p.minute| :: p.minute[j] != ':'
  {
  }

  lemma Regroup(h: string, m: string, t: string)
    ensures h + ":" + m + ":" + t == h + [':'] + (m + [':'] + t)
  {
  }

  /** Splitting an accepted string gives back its groups. */
  lemma SplitParts(p: Parts)
    requires ValidParts(p)
    ensures Split(Render(p), ':') == [p.hours, p.minute, Tail(p)]
  {
    TailParts(p);
    Regroup(p.hours, p.minute, Tail(p));
    NoColons(p);
    hide Split, Tail, Partition, ValidParts, Digits, Sixty;
    SplitOne(p.hours, p.minute + [':'] + Tail(p), ':');
    SplitOne(p.minute, Tail(p), ':');
    assert [p.hours] + ([p.minute] + [Tail(p)]) == [p.hours, p.minute, Tail(p)];
  }

  lemma PartsAreNumeric(p: Parts)
    requires ValidParts(p)
    ensures Numeric([p.hours, p.minute, Tail(p)])
  {
    TailParts(p);
    hide Partition, Split, Tail;
  }

  /** Hours, minutes, seconds and a fraction scaled by its length. */
  function Scaled(parts: seq<string>): nat
    requires Numeric(parts)
  {
    var (second, dot, fraction) := Partition(parts[2], '.');
    Int(parts[0]) * 3600000000 + Int(parts[1]) * 60000000 + Int(second) * 1000000
    + if dot then Int(fraction) * Power(6 - |fraction|) else 0
  }

  /** The decoder of `reference_key`: the same pattern as a guard, then splitting and scaling. */
  function ReferenceClock(s: string): Option<nat> {
    if Match(s).None? then None
    else
      AcceptedIsNumeric(s);
      Some(Scaled(Split(s, ':')))
  }

  lemma AcceptedIsNumeric(s: string)
    requires Match(s).Some?
    ensures Numeric(Split(s, ':'))
  {
    MatchIsExact(s, Match(s).value);
    SplitParts(Match(s).value);
    PartsAreNumeric(Match(s).value);
  }

  lemma Associates(a: int, b: int, c: int)
    ensures a * (b * c) == b * (a * c)
  {
  }

  lemma IntNext(s: string, c: char)
    requires Digits(s) && Digit(c)
    ensures Digits(s + [c]) && Int(s + [c]) == 10 * Int(s) + (c - '0') as nat
  {
    assert (s + [c])[..|s|] == s;
  }

  lemma {:induction false} PaddingScales(s: string, n: nat)
    requires Digits(s)
    ensures Digits(s + Zeros(n)) && Int(s + Zeros(n)) == Int(s) * Power(n)
  {
    if n == 0 {
      assert s + Zeros(0) == s;
    } else {
      PaddingScales(s, n - 1);
      assert s + Zeros(n) == (s + Zeros(n - 1)) + ['0'];
      IntNext(s + Zeros(n - 1), '0');
      Associates(10, Int(s), Power(n - 1));
      hide Int, Digits;
    }
  }

  lemma NoDigits()
    ensures Int("") == 0
  {
  }

  lemma SameFraction(p: Parts)
    requires ValidParts(p)
    ensures Int(Padded(Fraction(p))) ==
            if p.fraction.Some? then Int(p.fraction.value) * Power(6 - |p.fraction.value|) else 0
  {
    var f := Fraction(p);
    NoDigits();
    hide Int, Zeros, Power;
    assert |f| <= 6 && Digits(f);
    PaddingScales(f, 6 - |f|);
    assert Padded(f) == f + Zeros(6 - |f|);
    hide Digits, Padded, ValidParts;
  }

  lemma SameMicros(p: Parts)
    requires ValidParts(p)
    ensures Numeric([p.hours, p.minute, Tail(p)]) && Micros(p) == Scaled([p.hours, p.minute, Tail(p)])
  {
    PartsAreNumeric(p);
    TailParts(p);
    SameFraction(p);
    hide Int, Padded, Fraction, Power, Tail, Partition, Numeric, Split;
  }

  /** The two decoders agree on every string. */
  lemma ClocksAgree(s: string)
    ensures ClockUs(s) == ReferenceClock(s)
  {
    if Match(s).Some? {
      var p := Match(s).value;
      MatchIsExact(s, p);
      SplitParts(p);
      SameMicros(p);
      hide Match, Split, Tail, Render, Micros, Scaled, Numeric;
    }
  }

  // ----- Round trip -----

  /** A number below ten as a digit. */
  function DigitOf(n: nat): char
    requires n < 10
  {
    "0123456789"[n]
  }

  /** The last `places` decimal digits of a number. */
  function Decimal(n: nat, places: nat): (s: string)
    ensures |s| == places
  {
    if places == 0 then "" else Decimal(n / 10, places - 1) + [DigitOf(n % 10)]
  }

  lemma {:induction false} DecimalValue(n: nat, places: nat)
    requires n < Power(places)
    ensures Digits(Decimal(n, places)) && Int(Decimal(n, places)) == n
  {
    if places > 0 {
      DecimalValue(n / 10, places - 1);
      var init, c := Decimal(n / 10, places - 1), DigitOf(n % 10);
      assert c == '0' + (n % 10) as char;
      IntNext(init, c);
      assert init + [c] == Decimal(n, places);
    }
  }

  // A time of day, or of more hours than a day has, written with `places` digits for the hours and `fine` digits for
  // the fraction of a second.
  function Written(hours: nat, minute: nat, second: nat, fraction: nat, places: nat, fine: nat): string {
    Decimal(hours, places) + ":" + Decimal(minute, 2) + ":" + Decimal(second, 2)
    + if fine == 0 then "" else "." + Decimal(fraction, fine)
  }

  lemma SixtyOfDecimal(n: nat)
    requires n < 60
    ensures Sixty(Decimal(n, 2)) && Int(Decimal(n, 2)) == n
  {
    assert Power(2) == 100;
    DecimalValue(n, 2);
    assert Decimal(n, 2) == (Decimal(n / 10 / 10, 0) + [DigitOf(n / 10 % 10)]) + [DigitOf(n % 10)];
  }

  /** The groups of a written time. */
  function Groups(hours: nat, minute: nat, second: nat, fraction: nat, places: nat, fine: nat): Parts {
    Parts(Decimal(hours, places), Decimal(minute, 2), Decimal(second, 2),
          if fine == 0 then None else Some(Decimal(fraction, fine)))
  }

  lemma MicrosValue(p: Parts, h: nat, m: nat, s: nat, f: nat)
    requires ValidParts(p) && Int(p.hours) == h && Int(p.minute) == m && Int(p.second) == s
    requires Int(Padded(Fraction(p))) == f
    ensures Micros(p) == ((h * 60 + m) * 60 + s) * 1000000 + f
  {
    hide Int, Padded, Fraction, ValidParts;
  }

  lemma GroupsAreValid(hours: nat, minute: nat, second: nat, fraction: nat, places: nat, fine: nat)
    requires places >= 1 && hours < Power(places) && minute < 60 && second < 60
    requires fine <= 6 && fraction < Power(fine)
    ensures var p := Groups(hours, minute, second, fraction, places, fine);
            && ValidParts(p) && Render(p) == Written(hours, minute, second, fraction, places, fine)
            && Micros(p) == ((hours * 60 + minute) * 60 + second) * 1000000 + fraction * Power(6 - fine)
  {
    var p := Groups(hours, minute, second, fraction, places, fine);
    DecimalValue(hours, places);
    SixtyOfDecimal(minute);
    SixtyOfDecimal(second);
    DecimalValue(fraction, fine);
    assert fine == 0 ==> fraction == 0;
    hide Decimal, Int, Sixty, Padded, Power;
    assert ValidParts(p);
    SameFraction(p);
    RenderGroups(p);
    hide Digits, Fraction, Render, ValidParts, Micros;
    MicrosValue(p, hours, minute, second, fraction * Power(6 - fine));
  }

  lemma RenderGroups(p: Parts)
    ensures Render(p) == p.hours + ":" + p.minute + ":" + p.second
                         + if p.fraction.Some? then "." + p.fraction.value else ""
  {
  }

  lemma RenderedIsDecoded(p: Parts)
    requires ValidParts(p)
    ensures ClockUs(Render(p)) == Some(Micros(p))
  {
    MatchIsExact(Render(p), p);
    hide Match, Render, ValidParts, Micros;
  }

  // Every written time is decoded to its microseconds, whatever the number of digits of the hours and whether the
  // fraction has none or up to six digits.
  lemma ClockRoundTrip(hours: nat, minute: nat, second: nat, fraction: nat, places: nat, fine: nat)
    requires places >= 1 && hours < Power(places) && minute < 60 && second < 60
    requires fine <= 6 && fraction < Power(fine)
    ensures ClockUs(Written(hours, minute, second, fraction, places, fine)) ==
            Some(((hours * 60 + minute) * 60 + second) * 1000000 + fraction * Power(6 - fine))
  {
    var p := Groups(hours, minute, second, fraction, places, fine);
    hide *;
    GroupsAreValid(hours, minute, second, fraction, places, fine);
    RenderedIsDecoded(p);
  }
}
