/** The unlock countdown of the client (UnlockTime.tsx): whole seconds to
    "Unlocked" or "Unlocks in: " followed by at most two units of
    days, hours, minutes and seconds. */
module UnlockTime {
  import opened Arith

  // ---------------------------------------------------------------------
  // How a whole number is written (`d + " day, "` in the component)

  function DigitChar(d: nat): (c: char)
    requires d < 10
    ensures '0' <= c <= '9'
  {
    (48 + d) as char
  }

  function DigitValue(c: char): (d: nat)
    requires '0' <= c <= '9'
    ensures d < 10 && DigitChar(d) == c
  {
    c as int - 48
  }

  ghost predicate IsDigits(s: string) {
    forall i :: 0 <= i < |s| ==> '0' <= s[i] <= '9'
  }

  /** The decimal digits of `n`, most significant first, no leading zero. */
  function Decimal(n: nat): (s: string)
    ensures |s| >= 1 && IsDigits(s)
    ensures n >= 10 ==> s[0] != '0'
  {
    if n < 10 then [DigitChar(n)] else Decimal(n / 10) + [DigitChar(n % 10)]
  }

  /** Reading a string of digits back as a number. */
  function DecimalValue(s: string): nat
    requires IsDigits(s)
  {
    if s == [] then 0 else DecimalValue(s[..|s| - 1]) * 10 + DigitValue(s[|s| - 1])
  }

  /** Writing a number and reading it back gives the number. */
  lemma {:induction false} DecimalRoundTrip(n: nat)
    ensures DecimalValue(Decimal(n)) == n
  {
    var s := Decimal(n);
    if n >= 10 {
      DecimalRoundTrip(n / 10);
      assert s[..|s| - 1] == Decimal(n / 10);
    }
  }

  /** Different numbers are written differently. */
  lemma DecimalInjective(a: nat, b: nat)
    requires Decimal(a) == Decimal(b)
    ensures a == b
  {
    DecimalRoundTrip(a);
    DecimalRoundTrip(b);
  }

  // ---------------------------------------------------------------------
  // Splitting seconds into units (component lines 10-13)

  datatype Parts = Parts(days: nat, hours: nat, minutes: nat, seconds: nat)

  function Split(n: nat): (p: Parts)
    ensures p.days * 86400 + p.hours * 3600 + p.minutes * 60 + p.seconds == n
    ensures p.hours < 24 && p.minutes < 60 && p.seconds < 60
  {
    var p := Parts(n / (3600 * 24), n % (3600 * 24) / 3600, n % 3600 / 60, n % 60);
    SplitSums(n);
    p
  }

  lemma SplitSums(n: nat)
    ensures n / 86400 * 86400 + n % 86400 / 3600 * 3600 + n % 3600 / 60 * 60 + n % 60 == n
    ensures n % 86400 / 3600 < 24
  {
    var q := n / 86400;
    var r := n % 86400;
    assert n == q * 86400 + r;
    var h := r / 3600;
    var rh := r % 3600;
    assert r == h * 3600 + rh;
    assert n == (q * 24 + h) * 3600 + rh;
    assert n % 3600 == rh by {
      DivModOfMultiplePlus(q * 24 + h, 3600, rh);
    }
    assert rh == rh / 60 * 60 + rh % 60;
    assert n % 60 == rh % 60 by {
      assert n == ((q * 24 + h) * 60 + rh / 60) * 60 + rh % 60;
      DivModOfMultiplePlus((q * 24 + h) * 60 + rh / 60, 60, rh % 60);
    }
  }

  /** The split is the only one with hours, minutes and seconds in range. */
  lemma SplitUnique(n: nat, p: Parts)
    requires p.days * 86400 + p.hours * 3600 + p.minutes * 60 + p.seconds == n
    requires p.hours < 24 && p.minutes < 60 && p.seconds < 60
    ensures p == Split(n)
  {
    var rest := p.hours * 3600 + p.minutes * 60 + p.seconds;
    assert rest < 86400;
    DivModOfMultiplePlus(p.days, 86400, rest);
    var low := p.minutes * 60 + p.seconds;
    assert low < 3600;
    DivModOfMultiplePlus(p.hours, 3600, low);
    DivModOfMultiplePlus(p.minutes, 60, p.seconds);
    assert n % 3600 == low by {
      assert n == (p.days * 24 + p.hours) * 3600 + low;
      DivModOfMultiplePlus(p.days * 24 + p.hours, 3600, low);
    }
    assert n % 60 == p.seconds by {
      assert n == ((p.days * 24 + p.hours) * 60 + p.minutes) * 60 + p.seconds;
      DivModOfMultiplePlus((p.days * 24 + p.hours) * 60 + p.minutes, 60, p.seconds);
    }
  }

  // ---------------------------------------------------------------------
  // The text of one unit (component lines 15-18)

  /** `v` followed by the unit's word, or nothing at all when `v` is 0. */
  function UnitDisplay(v: nat, singular: string, plural: string): (t: string)
    ensures v == 0 <==> t == []
    ensures v == 1 ==> t == "1" + singular
    ensures v > 1 ==> t == Decimal(v) + plural
  {
    if v > 0 then Decimal(v) + (if v == 1 then singular else plural) else ""
  }

  /** JavaScript's `String.prototype.replace(',', '')`: the first comma goes. */
  function RemoveFirstComma(s: string): (r: string)
    ensures ',' !in s ==> r == s
    ensures |r| == if ',' in s then |s| - 1 else |s|
  {
    if s == [] then []
    else if s[0] == ',' then s[1..]
    else
      assert ',' in s <==> ',' in s[1..] by {
        if ',' in s {
          var j :| 0 <= j < |s| && s[j] == ',';
          assert s[1..][j - 1] == ',';
        }
      }
      [s[0]] + RemoveFirstComma(s[1..])
  }

  /** Text without a comma passes through untouched. */
  lemma {:induction false} RemoveFirstCommaSkips(a: string, b: string)
    requires ',' !in a
    ensures RemoveFirstComma(a + b) == a + RemoveFirstComma(b)
  {
    if a != [] {
      assert (a + b)[0] == a[0] && a[0] != ',';
      assert (a + b)[1..] == a[1..] + b;
      assert ',' !in a[1..];
      RemoveFirstCommaSkips(a[1..], b);
      assert RemoveFirstComma(a + b) == [a[0]] + RemoveFirstComma(a[1..] + b);
      assert [a[0]] + a[1..] == a;
    } else {
      assert a + b == b;
    }
  }

  /** A comma after the digits is the first one, so removing it keeps the
      digits and the word. */
  lemma RemoveCommaAfterDigits(digits: string, word: string, rest: string)
    requires IsDigits(digits) && ',' !in word
    ensures RemoveFirstComma(digits + word + "," + rest) == digits + word + rest
  {
    assert ',' !in digits + word;
    assert digits + word + "," + rest == (digits + word) + ("," + rest);
    RemoveFirstCommaSkips(digits + word, "," + rest);
  }

  // ---------------------------------------------------------------------
  // The countdown (component lines 9-29) and the label (line 33)

  function Countdown(n: nat): (text: string)
    ensures text == [] <==> n == 0
    ensures text != [] ==> '0' <= text[0] <= '9'
  {
    var p := Split(n);
    var dDisplay := UnitDisplay(p.days, " day, ", " days, ");
    var hDisplay := UnitDisplay(p.hours, " hour, ", " hours, ");
    var mDisplay := UnitDisplay(p.minutes, " minute, ", " minutes, ");
    var sDisplay := UnitDisplay(p.seconds, " second", " seconds");
    if p.days > 0 then dDisplay + RemoveFirstComma(hDisplay)
    else if p.hours > 0 then hDisplay + RemoveFirstComma(mDisplay)
    else if p.minutes > 0 then mDisplay + sDisplay
    else sDisplay
  }

  /** What the component shows for `secsToUnlock` whole seconds. */
  function UnlockLabel(secsToUnlock: int): (t: string)
    ensures secsToUnlock <= 0 ==> t == "Unlocked"
    ensures secsToUnlock > 0 ==> |t| > 12 && t[..12] == "Unlocks in: "
    ensures secsToUnlock > 0 ==> t[12..] == Countdown(secsToUnlock)
  {
    if secsToUnlock > 0 then "Unlocks in: " + Countdown(secsToUnlock) else "Unlocked"
  }

  // ---------------------------------------------------------------------
  // An independent account of what the countdown shows

  datatype Unit = Day | Hour | Minute | Second

  function Value(p: Parts, u: Unit): nat {
    match u
    case Day => p.days
    case Hour => p.hours
    case Minute => p.minutes
    case Second => p.seconds
  }

  /** The unit's word, singular for 1 and plural otherwise. */
  function Word(u: Unit, v: nat): string {
    match u
    case Day => if v == 1 then " day" else " days"
    case Hour => if v == 1 then " hour" else " hours"
    case Minute => if v == 1 then " minute" else " minutes"
    case Second => if v == 1 then " second" else " seconds"
  }

  /** The next smaller unit. */
  function Smaller(u: Unit): Unit
    requires u != Second
  {
    match u
    case Day => Hour
    case Hour => Minute
    case Minute => Second
  }

  /** The largest unit with a non-zero value (seconds when all are 0). */
  function Leading(p: Parts): Unit {
    if p.days > 0 then Day
    else if p.hours > 0 then Hour
    else if p.minutes > 0 then Minute
    else Second
  }

  /** The units shown: the leading one and, when non-zero, the next smaller. */
  function ShownUnits(n: nat): (us: seq<Unit>)
    ensures |us| <= 2
    ensures us == [] <==> n == 0
    ensures forall i :: 0 <= i < |us| ==> Value(Split(n), us[i]) > 0
    ensures |us| == 2 ==> us[0] != Second && us[1] == Smaller(us[0])
  {
    var p := Split(n);
    var lead := Leading(p);
    if Value(p, lead) == 0 then []
    else if lead != Second && Value(p, Smaller(lead)) > 0 then [lead, Smaller(lead)]
    else [lead]
  }

  /** One unit as written at `position` 0 or 1: a non-seconds unit ends in
      ", " when it comes first and in " " when it comes second. */
  function Piece(p: Parts, u: Unit, position: nat): string {
    Decimal(Value(p, u)) + Word(u, Value(p, u))
      + (if u == Second then "" else if position == 0 then ", " else " ")
  }

  function Render(p: Parts, us: seq<Unit>): string
    requires |us| <= 2
  {
    if us == [] then ""
    else if |us| == 1 then Piece(p, us[0], 0)
    else Piece(p, us[0], 0) + Piece(p, us[1], 1)
  }

  lemma UnitDisplayIsPiece(p: Parts, u: Unit, singular: string, plural: string)
    requires Value(p, u) > 0
    requires singular == Word(u, 1) + (if u == Second then "" else ", ")
    requires plural == Word(u, 2) + (if u == Second then "" else ", ")
    ensures UnitDisplay(Value(p, u), singular, plural) == Piece(p, u, 0)
  {
  }

  lemma RemovedCommaIsSecondPiece(p: Parts, u: Unit)
    requires u == Hour || u == Minute
    requires Value(p, u) > 0
    ensures RemoveFirstComma(Decimal(Value(p, u)) + Word(u, Value(p, u)) + ", ")
            == Piece(p, u, 1)
  {
    var v := Value(p, u);
    assert Decimal(v) + Word(u, v) + ", " == Decimal(v) + Word(u, v) + "," + " ";
    RemoveCommaAfterDigits(Decimal(v), Word(u, v), " ");
  }

  /** The countdown is exactly the leading unit and, when non-zero, the next
      smaller one; a zero unit adds no text, and the comma removal turns
      the second unit's ", " into " ". */
  lemma CountdownRendersShownUnits(n: nat)
    ensures Countdown(n) == Render(Split(n), ShownUnits(n))
  {
    var p := Split(n);
    if p.days > 0 {
      UnitDisplayIsPiece(p, Day, " day, ", " days, ");
      if p.hours > 0 {
        UnitDisplayIsPiece(p, Hour, " hour, ", " hours, ");
        RemovedCommaIsSecondPiece(p, Hour);
      }
    } else if p.hours > 0 {
      UnitDisplayIsPiece(p, Hour, " hour, ", " hours, ");
      if p.minutes > 0 {
        UnitDisplayIsPiece(p, Minute, " minute, ", " minutes, ");
        RemovedCommaIsSecondPiece(p, Minute);
      }
    } else if p.minutes > 0 {
      UnitDisplayIsPiece(p, Minute, " minute, ", " minutes, ");
      if p.seconds > 0 {
        UnitDisplayIsPiece(p, Second, " second", " seconds");
      }
    } else if p.seconds > 0 {
      UnitDisplayIsPiece(p, Second, " second", " seconds");
    }
  }

  /** Under a minute, the countdown is the seconds alone. */
  lemma UnderAMinuteShowsSeconds(n: nat)
    requires 0 < n < 60
    ensures Countdown(n) == Decimal(n) + (if n == 1 then " second" else " seconds")
  {
    assert Split(n) == Parts(0, 0, 0, n);
  }
}
