/**
 * The wake message shown after "I'm up" (`getWakeStats`, app.js:61-86 and
 * 135-147, and `pickWakeMessage`, app.js:149-192): a streak of logged
 * mornings, a consistency gate over the last wake times, a tier chosen from
 * both, and a message from the tier's pool rotated by the day key.
 */
module Wake {
  import opened Wrappers
  import opened Strings
  import opened Numbers
  import opened Calendar

  // ----- Streak -----

  const StreakCap := 14

  /**
   * The streak loop over the keys newest first: count days whose `imUp` is
   * set, stop at the first one that is not, and stop at 14.
   */
  function StreakOf(logged: seq<bool>): (n: nat)
    ensures n <= StreakCap && n <= |logged|
  {
    if logged == [] || !logged[0] then 0
    else var rest := StreakOf(logged[1..]); if rest + 1 >= StreakCap then StreakCap else rest + 1
  }

  /** The streak is the length of the leading run of logged days, capped at 14. */
  lemma {:induction false} StreakIsLeadingRun(logged: seq<bool>)
    ensures forall i :: 0 <= i < StreakOf(logged) ==> logged[i]
    ensures StreakOf(logged) < StreakCap ==> StreakOf(logged) == |logged| || !logged[StreakOf(logged)]
  {
    if logged != [] && logged[0] {
      StreakIsLeadingRun(logged[1..]);
    }
  }

  /** Conversely, a leading run of logged days that ends (or reaches 14) is the streak. */
  lemma StreakOfRun(logged: seq<bool>, n: nat)
    requires n <= |logged| && n <= StreakCap
    requires forall i :: 0 <= i < n ==> logged[i]
    requires n == StreakCap || n == |logged| || !logged[n]
    ensures StreakOf(logged) == n
  {
    StreakIsLeadingRun(logged);

  }

  // ----- Consistency -----

  /** `d.getHours() * 60 + d.getMinutes()` in a zone `offset` ms from UTC; `None` is NaN (an invalid date). */
  function WakeMinute(t: int, offset: int): (r: Option<int>)
    ensures r.Some? ==> 0 <= r.value < 1440
  {
    if ValidTime(t) then Some(((t + offset) / MsPerMinute) % 1440) else None
  }

  predicate AllNumbers(ws: seq<Option<int>>) {
    forall i :: 0 <= i < |ws| ==> ws[i].Some?
  }

  function Min(ws: seq<Option<int>>): (m: int)
    requires |ws| > 0 && AllNumbers(ws)
    ensures forall i :: 0 <= i < |ws| ==> m <= ws[i].value
    ensures exists i :: 0 <= i < |ws| && m == ws[i].value
  {
    if |ws| == 1 then ws[0].value
    else var m := Min(ws[1..]); if ws[0].value <= m then ws[0].value else m
  }

  function Max(ws: seq<Option<int>>): (m: int)
    requires |ws| > 0 && AllNumbers(ws)
    ensures forall i :: 0 <= i < |ws| ==> ws[i].value <= m
    ensures exists i :: 0 <= i < |ws| && m == ws[i].value
  {
    if |ws| == 1 then ws[0].value
    else var m := Max(ws[1..]); if ws[0].value >= m then ws[0].value else m
  }

  /**
   * `consistencyScore`: 0 with fewer than three wake times, otherwise
   * `max(0, min(1, 1 - range/90))`; `None` is NaN, which any NaN wake time
   * makes of `Math.min`/`Math.max`.
   */
  function ConsistencyScore(ws: seq<Option<int>>): (r: Option<real>)
    ensures r.Some? ==> 0.0 <= r.value <= 1.0
  {
    if |ws| < 3 then Some(0.0)
    else if !AllNumbers(ws) then None
    else
      var range := Max(ws) - Min(ws);
      var score := 1.0 - range as real / 90.0;
      Some(if score > 1.0 then 1.0 else if score < 0.0 then 0.0 else score)
  }

  /**
   * `consistencyScore >= 0.6`. Ranges are whole minutes, and for whole
   * numbers `1 - r/90 >= 0.6` has the same answer in binary64 as in exact
   * arithmetic: at r = 36 both sides are the double nearest 0.6.
   */
  predicate Consistent(ws: seq<Option<int>>) {
    var s := ConsistencyScore(ws);
    s.Some? && s.value >= 0.6
  }

  /** Consistent means: at least three wake times, all valid, spread over at most 36 minutes. */
  lemma ConsistentIffNarrow(ws: seq<Option<int>>)
    ensures Consistent(ws) <==> |ws| >= 3 && AllNumbers(ws) && Max(ws) - Min(ws) <= 36
  {
    if |ws| >= 3 && AllNumbers(ws) {
      var range := Max(ws) - Min(ws);
      assert range >= 0 by {
        var i :| 0 <= i < |ws| && Min(ws) == ws[i].value;
      }
      assert 1.0 - range as real / 90.0 >= 0.6 <==> range <= 36;
    }
  }

  // ----- Tier and pools -----

  datatype Tier = Hype | Mixed | Supportive

  /** `supportiveGate` and `mixedGate`. */
  function TierOf(streak: int, consistent: bool): Tier {
    if streak >= 7 || (streak >= 4 && consistent) then Supportive
    else if streak >= 3 then Mixed
    else Hype
  }

  function Rank(t: Tier): int {
    match t
    case Hype => 0
    case Mixed => 1
    case Supportive => 2
  }

  /** A longer streak, or a consistent one, never moves the message to a harsher tier. */
  lemma TierMonotone(s1: int, c1: bool, s2: int, c2: bool)
    requires s1 <= s2 && (c1 ==> c2)
    ensures Rank(TierOf(s1, c1)) <= Rank(TierOf(s2, c2))
  {
  }

  const HypePool: seq<string> := [
    "Feet on floor. Stand up now. No negotiations.",
    "Up. Water. Move. We\U{2019}re not thinking\U{2014}just executing.",
    "Get vertical. Your day starts when you move.",
    "Stand up. One small win in the next 10 minutes. Go."
  ]

  const MixedPool: seq<string> := [
    "Alright\U{2014}let\U{2019}s move. Small wins first, momentum second.",
    "Up we go. One 10-minute action to start the chain.",
    "Stand up, breathe, move. Then we decide the first win."
  ]

  const SupportivePool: seq<string> := [
    "Up we go\U{2014}quiet, steady, on purpose. One small win first.",
    "Good morning. Let\U{2019}s secure the day with three simple outcomes.",
    "We\U{2019}re building consistency. One step, then the next."
  ]

  function Pool(t: Tier): (p: seq<string>)
    ensures |p| == (if t == Hype then 4 else 3)
  {
    match t
    case Hype => HypePool
    case Mixed => MixedPool
    case Supportive => SupportivePool
  }

  /**
   * `pool[Number(key.split("-").join("")) % pool.length]`; `None` is the
   * `undefined` an index outside the pool yields.
   */
  function Message(key: string, t: Tier): (r: Option<string>)
    ensures r.Some? ==> r.value in Pool(t)
  {
    match SeedIndex(StringToNumber(Remove(key, '-')), |Pool(t)|)
    case Some(i) => Some(Pool(t)[i])
    case None => None
  }

  /** The date written as the number `YYYYMMDD`. */
  function DateNumber(d: Date): int {
    d.year * 10000 + d.month * 100 + d.day
  }

  /** For a four-digit-year key, the message is the pool entry at `YYYYMMDD` modulo the pool size. */
  lemma MessageOfDayKey(t: int, tier: Tier)
    requires FourDigitYear(t)
    ensures ValidTime(t - ResetMs)
    ensures Message(DayKey(t), tier) ==
      Some(Pool(tier)[DateNumber(DateOfDay(DayIndex(t))) % |Pool(tier)|])
  {
    DayKeyIsDate(t);
    FourDigitYearRange(t);
    var d := DateOfDay(DayIndex(t));
    var digits := DateDigits(d);
    DigitSeedIndex(digits, |Pool(tier)|);
  }

  /** Removing the dashes of a four-digit-year date leaves the digits of `YYYYMMDD`. */
  lemma DateDigits(d: Date) returns (digits: string)
    requires ValidDate(d) && 0 <= d.year <= 9999
    ensures Remove(DateString(d), '-') == digits
    ensures |digits| > 0 && AllDigits(digits) && DigitsValue(digits) == DateNumber(d)
  {
    var y, m, dd := ZeroPad(d.year, 4), ZeroPad(d.month, 2), ZeroPad(d.day, 2);
    assert DateString(d) == y + "-" + m + "-" + dd;
    RemoveDashes(y, m, dd);
    digits := y + m + dd;
    DateNumberDigits(d);
  }

  /** `YYYYMMDD` read as a decimal number is the date's number. */
  lemma DateNumberDigits(d: Date)
    requires ValidDate(d) && 0 <= d.year <= 9999
    ensures var digits := ZeroPad(d.year, 4) + ZeroPad(d.month, 2) + ZeroPad(d.day, 2);
      |digits| > 0 && AllDigits(digits) && DigitsValue(digits) == DateNumber(d)
  {
    var y, m, dd := ZeroPad(d.year, 4), ZeroPad(d.month, 2), ZeroPad(d.day, 2);
    var digits := y + m + dd;
    Pow10Small();
    ZeroPadValue(d.year, 4);
    ZeroPadValue(d.month, 2);
    ZeroPadValue(d.day, 2);
    assert |m| == 2 && |dd| == 2;
    DigitsValueAppend(y, m);
    assert DigitsValue(y + m) == d.year * 100 + d.month;
    DigitsValueAppend(y + m, dd);
    assert DigitsValue(digits) == (d.year * 100 + d.month) * 100 + d.day;
  }

  lemma RemoveDashes(a: string, b: string, c: string)
    requires AllDigits(a) && AllDigits(b) && AllDigits(c)
    ensures Remove(a + "-" + b + "-" + c, '-') == a + b + c
  {
    NoDash(a);
    NoDash(b);
    NoDash(c);
    RemoveAbsent(a, '-');
    DashJoin(a, b);
    DashJoin(a + "-" + b, c);
  }

  lemma NoDash(s: string)
    requires AllDigits(s)
    ensures '-' !in s
  {
    assert forall i :: 0 <= i < |s| ==> IsDigit(s[i]);
  }

  lemma DashJoin(x: string, y: string)
    requires '-' !in y
    ensures Remove(x + "-" + y, '-') == Remove(x, '-') + y
  {
    var xd := x + "-";
    assert Remove(xd, '-') == Remove(x, '-') by {
      RemoveAppend(x, "-", '-');
      assert Remove("-", '-') == "";
    }
    assert Remove(xd + y, '-') == Remove(xd, '-') + y by {
      RemoveAppend(xd, y, '-');
      RemoveAbsent(y, '-');
    }
  }

  /** The message is stable within a tracker day: two instants of the same window get the same one. */
  lemma MessageStableWithinDay(t1: int, t2: int, tier: Tier)
    requires FourDigitYear(t1) && FourDigitYear(t2) && DayIndex(t1) == DayIndex(t2)
    ensures ValidTime(t1 - ResetMs) && ValidTime(t2 - ResetMs)
    ensures Message(DayKey(t1), tier) == Message(DayKey(t2), tier)
  {
    DayKeySameWindow(t1, t2);
  }
}
