/**
 * The tracker's state engine (app.js): the store of day records, the push
 * switch, the requests sent to the push worker, and the handlers that change
 * them. The pure functions here say what each handler does to the store; the
 * `App` class carries the state and updates it in place.
 */
module Tracker {
  import opened Wrappers
  import opened Strings
  import opened Calendar
  import opened Numbers
  import opened KeyOrder
  import opened Days
  import opened Wake
  import Export

  // ----- Requests to the push worker (app.js:364-395) -----

  /** The body of a `/schedule` or `/cancelPrefix` call. */
  datatype Request =
    | Schedule(deviceId: string, tag: string, title: string, body: string, sendAt: int,
               kind: Option<string>, snooze: bool)
    | CancelPrefix(deviceId: string, prefix: string)

  /**
   * `isAfterCutoff(new Date(t))` in a zone `offset` ms from UTC: the local hour
   * is 17 or later. An invalid date's hour is NaN, which is not.
   */
  predicate IsAfterCutoff(t: int, offset: int) {
    ValidTime(t) && HourFromTime(t + offset) >= HardCutoffHour
  }

  /** What `schedulePush` sends: the request, or nothing when push is off or the time is after the cutoff. */
  function Gate(enabled: bool, offset: int, req: Request): (r: seq<Request>)
    requires req.Schedule?
  {
    if enabled && !IsAfterCutoff(req.sendAt, offset) then [req] else []
  }

  /** What `cancelScheduledByTagPrefix` sends. */
  function CancelGate(enabled: bool, deviceId: string, prefix: string): (r: seq<Request>) {
    if enabled then [CancelPrefix(deviceId, prefix)] else []
  }

  const CheckinBody := "How\U{2019}s it going? What\U{2019}s the next tiny move?"
  const Block3StartBody := "Quick check: what\U{2019}s the one 10-minute win?"

  function Celebrate(dev: string, k: string, at: int): Request {
    Schedule(dev, "celebrate-" + k, "90DWP", "Day secured. Nice work.", at, None, false)
  }

  function Block1Checkin(dev: string, k: string, at: int): Request {
    Schedule(dev, "b1-checkin-" + k, "Block 1 check-in", CheckinBody, at, Some("b1_checkin"), false)
  }

  function Block2Checkin(dev: string, k: string, at: int): Request {
    Schedule(dev, "b2-checkin-" + k, "Block 2 check-in", CheckinBody, at, Some("b2_checkin"), false)
  }

  function Block3Start(dev: string, k: string, at: int): Request {
    Schedule(dev, "b3-start-" + k, "Block 3 starting", Block3StartBody, at, Some("b3_start"), true)
  }

  function Block3Checkin(dev: string, k: string, at: int): Request {
    Schedule(dev, "b3-checkin-" + k, "Block 3 check-in", "How\U{2019}s it going? Keep it small.", at,
             Some("b3_checkin"), false)
  }

  // ----- The store -----

  /** `ensureDay(k)` on the store: insert a new record only when the key has none. */
  function EnsureDayIn(days: map<string, DayRecord>, k: string, now: int): (r: map<string, DayRecord>)
    ensures k in r
  {
    if k in days then days else days[k := NewDay(now)]
  }

  /** `ensureDay` is idempotent, keeps an existing record, and touches no other key. */
  lemma EnsureDayFrame(days: map<string, DayRecord>, k: string, now: int, later: int)
    ensures EnsureDayIn(EnsureDayIn(days, k, now), k, later) == EnsureDayIn(days, k, now)
    ensures k in days ==> EnsureDayIn(days, k, now) == days
    ensures k !in days ==> EnsureDayIn(days, k, now)[k] == NewDay(now)
    ensures EnsureDayIn(days, k, now).Keys == days.Keys + {k}
    ensures forall j :: j in days && j != k ==> EnsureDayIn(days, k, now)[j] == days[j]
  {
  }

  predicate AllWellFormed(days: map<string, DayRecord>) {
    forall k :: k in days ==> WellFormed(days[k])
  }

  // ----- Suggestions (app.js:655-667) -----

  /** The first proposal among `keys`, visited in order. */
  function SuggestFrom(keys: seq<string>, days: map<string, DayRecord>): string
    requires forall k :: k in keys ==> k in days
  {
    if keys == [] then ""
    else if Proposes(days[keys[0]]) then Proposal(days[keys[0]])
    else SuggestFrom(keys[1..], days)
  }

  /** `buildSuggestions().current`: the proposal of the newest day that has one, or "". */
  ghost function Suggestion(days: map<string, DayRecord>): string {
    SuggestFrom(Desc(days.Keys), days)
  }

  /** For each key in turn, whether its day has nothing to propose. */
  function Declines(keys: seq<string>, days: map<string, DayRecord>): (r: seq<bool>)
    requires forall k :: k in keys ==> k in days
    ensures |r| == |keys|
    ensures forall i :: 0 <= i < |keys| ==> r[i] == !Proposes(days[keys[i]])
  {
    if keys == [] then [] else [!Proposes(days[keys[0]])] + Declines(keys[1..], days)
  }

  /** The position of the first key in `keys` whose day proposes, or -1. */
  function FirstProposing(keys: seq<string>, days: map<string, DayRecord>): (i: int)
    requires forall k :: k in keys ==> k in days
    ensures -1 <= i < |keys|
    ensures i == -1 <==> forall j :: 0 <= j < |keys| ==> !Proposes(days[keys[j]])
    ensures i >= 0 ==> Proposes(days[keys[i]]) && forall j :: 0 <= j < i ==> !Proposes(days[keys[j]])
  {
    var flags := Declines(keys, days);
    var i := FirstFalse(flags);
    assert forall j :: 0 <= j < |keys| ==> flags[j] == !Proposes(days[keys[j]]);
    i
  }

  /** The scan returns the proposal at the first proposing position. */
  lemma {:induction false} SuggestFromFirst(keys: seq<string>, days: map<string, DayRecord>)
    requires forall k :: k in keys ==> k in days
    ensures var i := FirstProposing(keys, days);
      SuggestFrom(keys, days) == if i == -1 then "" else Proposal(days[keys[i]])
  {
    if keys != [] && !Proposes(days[keys[0]]) {
      SuggestFromFirst(keys[1..], days);
      var flags := Declines(keys, days);
      assert flags[1..] == Declines(keys[1..], days);
    }
  }

  /**
   * The suggestion is empty exactly when no day proposes; otherwise it is the
   * proposal of the newest proposing day.
   */
  lemma SuggestionIsNewest(days: map<string, DayRecord>)
    ensures Suggestion(days) == "" <==> forall k :: k in days ==> !Proposes(days[k])
    ensures Suggestion(days) != "" ==>
      exists k :: k in days && Proposes(days[k]) && Suggestion(days) == Proposal(days[k]) &&
        forall j :: j in days && Lt(k, j) ==> !Proposes(days[j])
  {
    var keys := Desc(days.Keys);
    SuggestFromFirst(keys, days);
    var i := FirstProposing(keys, days);
    if i == -1 {
      NoneProposes(keys, days);
    } else {
      DescSorted(days.Keys);
      NewestProposing(keys, days, i);
    }
  }

  lemma NoneProposes(keys: seq<string>, days: map<string, DayRecord>)
    requires forall k :: k in keys <==> k in days
    requires forall j :: 0 <= j < |keys| ==> !Proposes(days[keys[j]])
    ensures forall k :: k in days ==> !Proposes(days[k])
  {
    forall k | k in days
      ensures !Proposes(days[k])
    {
      var m :| 0 <= m < |keys| && keys[m] == k;
    }
  }

  lemma NewestProposing(keys: seq<string>, days: map<string, DayRecord>, i: int)
    requires forall k :: k in keys <==> k in days
    requires forall a, b :: 0 <= a < b < |keys| ==> Lt(keys[b], keys[a])
    requires 0 <= i < |keys| && forall j :: 0 <= j < i ==> !Proposes(days[keys[j]])
    ensures forall j :: j in days && Lt(keys[i], j) ==> !Proposes(days[j])
  {
    var k := keys[i];
    forall j | j in days && Lt(k, j)
      ensures !Proposes(days[j])
    {
      var m :| 0 <= m < |keys| && keys[m] == j;
      if m == i {
        LtIrreflexive(j);
      } else if i < m {
        LtAsymmetric(j, k);
      }
    }
  }

  // ----- Wake statistics (app.js:61-86, 135-147) -----

  /** Whether each key's day has `imUp` logged, in the order given. */
  function LoggedFlags(keys: seq<string>, days: map<string, DayRecord>): (r: seq<bool>)
    requires forall k :: k in keys ==> k in days
    ensures |r| == |keys|
    ensures forall i :: 0 <= i < |keys| ==> r[i] == IsSet(Field(days[keys[i]].events, "imUp"))
  {
    if keys == [] then [] else [IsSet(Field(days[keys[0]].events, "imUp"))] + LoggedFlags(keys[1..], days)
  }

  /** The streak over the keys newest first (`sort().reverse()`). */
  ghost function Streak(days: map<string, DayRecord>): nat {
    StreakOf(LoggedFlags(Desc(days.Keys), days))
  }

  /** `keys.slice(-7)`: the last seven keys, or all of them when there are fewer. */
  function LastSeven(keys: seq<string>): (r: seq<string>)
    ensures |r| <= 7 && (|keys| <= 7 ==> r == keys)
    ensures r == keys[|keys| - |r|..] && (|keys| > 7 ==> |r| == 7)
  {
    if |keys| <= 7 then keys else keys[|keys| - 7..]
  }

  /** The wake minutes of the logged days among `keys`, in the order of `keys`. */
  function WakeTimesOf(keys: seq<string>, days: map<string, DayRecord>, offset: int): (r: seq<Option<int>>)
    requires forall k :: k in keys ==> k in days
    ensures |r| <= |keys|
  {
    if keys == [] then []
    else
      var k := keys[|keys| - 1];
      var ts := Field(days[k].events, "imUp");
      WakeTimesOf(keys[..|keys| - 1], days, offset) + (if IsSet(ts) then [WakeMinute(ts.ms, offset)] else [])
  }

  /** Every wake time is the wake minute of one of the keys whose `imUp` is set. */
  lemma {:induction false} WakeTimesFromLogged(keys: seq<string>, days: map<string, DayRecord>, offset: int)
    requires forall k :: k in keys ==> k in days
    ensures forall w :: w in WakeTimesOf(keys, days, offset) ==>
      exists k :: k in keys && IsSet(Field(days[k].events, "imUp")) &&
        w == WakeMinute(Field(days[k].events, "imUp").ms, offset)
    ensures (forall k :: k in keys ==> IsSet(Field(days[k].events, "imUp"))) ==>
      |WakeTimesOf(keys, days, offset)| == |keys|
  {
    if keys != [] {
      var init := keys[..|keys| - 1];
      assert forall k :: k in init ==> k in keys;
      WakeTimesFromLogged(init, days, offset);
    }
  }

  /** `wakeTimes`: from the last seven keys in sorted order, that is the seven newest days, oldest first. */
  ghost function WakeTimes(days: map<string, DayRecord>, offset: int): seq<Option<int>> {
    WakeTimesOf(LastSeven(Asc(days.Keys)), days, offset)
  }

  ghost function WakeTier(days: map<string, DayRecord>, offset: int): Tier {
    TierOf(Streak(days), Consistent(WakeTimes(days, offset)))
  }

  // ----- Actions (app.js:622-852) -----

  /** The `data-action` strings the page produces, already split at the colon. */
  datatype Action =
    | SaveOutcomes
    | EditOutcome(slot: int, text: string)
    | ApplySuggestion
    | ToggleOutcome(slot: int)
    | Morning(item: string)
    | Event(name: string)
    | Unrecognised

  /** The outcome slot numbers the page renders are 0, 1 and 2. */
  predicate SlotInRange(act: Action) {
    match act
    case EditOutcome(i, _) => 0 <= i < 3
    case ToggleOutcome(i) => 0 <= i < 3
    case _ => true
  }

  /**
   * What the user sees afterwards: a toast, nothing, or the wake modal, which
   * shows `pickWakeMessage`'s line for day `key` from the pool of `tier`.
   */
  datatype Notice = Silent | Toast(text: string) | WakeModal(key: string, tier: Tier)

  /** The message line of the wake modal. */
  function ModalMessage(n: Notice): (r: Option<string>)
    requires n.WakeModal?
    ensures r.Some? ==> r.value in Pool(n.tier)
  {
    Message(n.key, n.tier)
  }

  const AlreadyUp := "Already logged I\U{2019}m up for today."
  const DaySecured := "Day secured \U{2705}\U{1F525}"

  /** What `promptBlock3Delay` resolves to: cancelled, or one of the three offered delays. */
  predicate PromptAnswer(delay: Option<int>) {
    delay == None || delay == Some(30) || delay == Some(40) || delay == Some(45)
  }

  /** Whatever is typed at the nap-end prompt, the delay is an answer the handler accepts. */
  lemma PromptAnswers(choice: Option<string>)
    ensures PromptAnswer(PromptDelay(choice))
    ensures PromptDelay(choice) == None <==> choice == None
  {
  }

  /** One action's effect on today's record, the requests it sends, and its notice. */
  datatype Effect = Effect(day: DayRecord, requests: seq<Request>, notice: Notice)

  /**
   * `handleAction(act)` (and the outcome text box's input handler) once
   * `ensureDay` has run: `k` is today's key, `now` the single clock reading.
   */
  ghost function Act(days: map<string, DayRecord>, k: string, act: Action, now: int, offset: int,
                     delay: Option<int>, push: bool, dev: string): Effect
    requires k in days && WellFormed(days[k]) && SlotInRange(act) && PromptAnswer(delay)
  {
    var d := days[k];
    match act
    case SaveOutcomes => Effect(d, [], Toast("Saved."))
    case EditOutcome(i, text) => Effect(WithOutcome(d, i, text), [], Silent)
    case ApplySuggestion => ApplyEffect(d, Suggestion(days))
    case ToggleOutcome(i) => ToggleEffect(d, k, i, now, offset, push, dev)
    case Morning(item) => Effect(MorningLogged(d, item, now), [], Toast("Logged."))
    case Event(ev) => EventEffect(days, k, ev, now, offset, delay, push, dev)
    case Unrecognised => Effect(d, [], Silent)
  }

  /**
   * "event:<ev>": a second "I'm up" in a day is refused; any other press
   * records the time and then does what the event calls for.
   */
  ghost function EventEffect(days: map<string, DayRecord>, k: string, ev: string, now: int, offset: int,
                             delay: Option<int>, push: bool, dev: string): Effect
    requires k in days && PromptAnswer(delay)
  {
    var d := days[k];
    if ev == "imUp" && IsSet(Field(d.events, "imUp")) then Effect(d, [], Toast(AlreadyUp))
    else StampedEffect(days[k := Stamped(d, ev, now)], k, ev, now, offset, delay, push, dev)
  }

  /** The rest of an event press once its time is recorded in `days[k]`. */
  ghost function StampedEffect(days: map<string, DayRecord>, k: string, ev: string, now: int, offset: int,
                               delay: Option<int>, push: bool, dev: string): Effect
    requires k in days && PromptAnswer(delay)
  {
    var s := days[k];
    if ev == "imUp" then Effect(s, [], WakeModal(k, WakeTier(days, offset)))
    else if ev == "babyUp" || ev == "napStart" then CheckinEffect(s, k, ev, now, offset, push, dev)
    else if ev == "napEnd" then NapEndEffect(s, k, now, offset, delay, push, dev)
    else Effect(s, [], Toast("Logged."))
  }

  /** "Apply suggestion" with the current suggestion `sug`. */
  function ApplyEffect(d: DayRecord, sug: string): Effect
    requires WellFormed(d)
  {
    if sug == "" then Effect(d, [], Toast("No suggestion found."))
    else Effect(WithOutcome(d, SuggestionSlot(d.outcomes), sug), [], Toast("Added suggestion."))
  }

  /** "toggleOutcome:i": flip the flag; when all three are set, celebrate. */
  function ToggleEffect(d: DayRecord, k: string, i: int, now: int, offset: int, push: bool, dev: string): Effect
    requires WellFormed(d) && 0 <= i < 3
  {
    var t := Toggled(d, i);
    if AllDone(t) then Effect(t, Gate(push, offset, Celebrate(dev, k, now + 1000)), Toast(DaySecured))
    else Effect(t, [], Silent)
  }

  /** "Baby up" and "Nap start" on the stamped record `s`: a check-in 45 minutes after `now`. */
  function CheckinEffect(s: DayRecord, k: string, ev: string, now: int, offset: int, push: bool, dev: string): Effect
    requires ev == "babyUp" || ev == "napStart"
  {
    var at := now + CheckinOffsetMin * MsPerMin;
    if ev == "babyUp" then
      Effect(WithBlock1(s, at), Gate(push, offset, Block1Checkin(dev, k, at)), Toast("Baby up logged."))
    else
      Effect(WithBlock2(s, at), Gate(push, offset, Block2Checkin(dev, k, at)), Toast("Nap start logged."))
  }

  /** "Nap end" on the stamped record `s`, given the prompt's delay (`None` when cancelled). */
  function NapEndEffect(s: DayRecord, k: string, now: int, offset: int, delay: Option<int>,
                        push: bool, dev: string): Effect
    requires delay.Some? ==> delay.value >= 0
  {
    match delay
    case None => Effect(s, [], Toast("Canceled."))
    case Some(minutes) =>
      var startAt := now + minutes * MsPerMin;
      var checkAt := startAt + Block3CheckinOffsetMin * MsPerMin;
      Effect(WithBlock3(s, startAt, checkAt),
             CancelGate(push, dev, "b3-") + Gate(push, offset, Block3Start(dev, k, startAt)) +
             Gate(push, offset, Block3Checkin(dev, k, checkAt)),
             Toast("Block 3 set for +" + Decimal(minutes) + "m"))
  }

  /** Replacing a record twice leaves the second replacement. */
  lemma UpdateTwice(m: map<string, DayRecord>, k: string, a: DayRecord, b: DayRecord)
    ensures m[k := a][k := b] == m[k := b]
  {
  }

  /** `handleSnoozeFromNotif(data)` once `ensureDay` has run. */
  function Snooze(d: DayRecord, k: string, kind: string, now: int, offset: int, push: bool, dev: string): Effect {
    if kind != "b3_start" then Effect(d, [], Silent)
    else if d.scheduled.block3SnoozesUsed >= MaxSnoozes then Effect(d, [], Toast("No snoozes left."))
    else
      var at := now + SnoozeMin * MsPerMin;
      Effect(SnoozeDay(d, now),
             CancelGate(push, dev, "b3-start-" + k) + Gate(push, offset, Block3Start(dev, k, at)),
             Toast("Snoozed 10m."))
  }

  // ----- What the actions promise -----

  /** Every action keeps the record well formed (three outcomes, three flags, at most two snoozes). */
  lemma ActWellFormed(days: map<string, DayRecord>, k: string, act: Action, now: int, offset: int,
                      delay: Option<int>, push: bool, dev: string)
    requires k in days && WellFormed(days[k]) && SlotInRange(act) && PromptAnswer(delay)
    ensures WellFormed(Act(days, k, act, now, offset, delay, push, dev).day)
  {
    var d := days[k];
    match act {
      case ApplySuggestion =>
        var sug := Suggestion(days);
        if sug != "" {
          assert 0 <= SuggestionSlot(d.outcomes) < 3;
        }
        assert WellFormed(ApplyEffect(d, sug).day);
      case Event(ev) =>
        EventWellFormed(days, k, ev, now, offset, delay, push, dev);
      case _ =>
    }
  }

  /** Event presses touch only events and scheduled times, and reset the snooze budget or keep it. */
  lemma EventWellFormed(days: map<string, DayRecord>, k: string, ev: string, now: int, offset: int,
                        delay: Option<int>, push: bool, dev: string)
    requires k in days && WellFormed(days[k]) && PromptAnswer(delay)
    ensures WellFormed(EventEffect(days, k, ev, now, offset, delay, push, dev).day)
  {
    var d := days[k];
    if !(ev == "imUp" && IsSet(Field(d.events, "imUp"))) {
      var s := Stamped(d, ev, now);
      assert WellFormed(s);
      if ev == "napEnd" {
        assert WellFormed(NapEndEffect(s, k, now, offset, delay, push, dev).day);
      } else if ev == "babyUp" || ev == "napStart" {
        assert WellFormed(CheckinEffect(s, k, ev, now, offset, push, dev).day);
      }
    }
  }

  /**
   * "morning:<item>" records the time of that item only: the outcomes, the
   * flags, the events and the scheduled times stay, nothing is sent, and the
   * toast says "Logged.".
   */
  lemma MorningStamped(days: map<string, DayRecord>, k: string, item: string, now: int, offset: int,
                       delay: Option<int>, push: bool, dev: string)
    requires k in days && WellFormed(days[k]) && PromptAnswer(delay)
    ensures var e := Act(days, k, Morning(item), now, offset, delay, push, dev);
      Field(e.day.morning, item) == At(now) &&
      (forall x :: x != item ==> Field(e.day.morning, x) == Field(days[k].morning, x)) &&
      e.day == days[k].(morning := e.day.morning) &&
      e.requests == [] && e.notice == Toast("Logged.")
  {
  }

  /** Every schedule request in `reqs` has a send time before 17:00 local time. */
  predicate BeforeCutoff(reqs: seq<Request>, offset: int) {
    forall i :: 0 <= i < |reqs| && reqs[i].Schedule? ==> !IsAfterCutoff(reqs[i].sendAt, offset)
  }

  lemma BeforeCutoffAppend(a: seq<Request>, b: seq<Request>, offset: int)
    requires BeforeCutoff(a, offset) && BeforeCutoff(b, offset)
    ensures BeforeCutoff(a + b, offset)
  {
    forall i | 0 <= i < |a + b| && (a + b)[i].Schedule?
      ensures !IsAfterCutoff((a + b)[i].sendAt, offset)
    {
      if i >= |a| {
        assert (a + b)[i] == b[i - |a|];
      }
    }
  }

  /** No action asks the push worker for a reminder at 17:00 local time or later. */
  lemma ActBeforeCutoff(days: map<string, DayRecord>, k: string, act: Action, now: int, offset: int,
                        delay: Option<int>, push: bool, dev: string)
    requires k in days && WellFormed(days[k]) && SlotInRange(act) && PromptAnswer(delay)
    ensures BeforeCutoff(Act(days, k, act, now, offset, delay, push, dev).requests, offset)
  {
    match act {
      case Event(ev) =>
        EventBeforeCutoff(days, k, ev, now, offset, delay, push, dev);
      case _ =>
    }
  }

  lemma EventBeforeCutoff(days: map<string, DayRecord>, k: string, ev: string, now: int, offset: int,
                          delay: Option<int>, push: bool, dev: string)
    requires k in days && PromptAnswer(delay)
    ensures BeforeCutoff(EventEffect(days, k, ev, now, offset, delay, push, dev).requests, offset)
  {
    var d := days[k];
    if !(ev == "imUp" && IsSet(Field(d.events, "imUp"))) && ev == "napEnd" && delay.Some? {
      var s := Stamped(d, ev, now);
      var startAt := now + delay.value * MsPerMin;
      var checkAt := startAt + Block3CheckinOffsetMin * MsPerMin;
      var c := CancelGate(push, dev, "b3-");
      var g1 := Gate(push, offset, Block3Start(dev, k, startAt));
      var g2 := Gate(push, offset, Block3Checkin(dev, k, checkAt));
      BeforeCutoffAppend(c, g1, offset);
      BeforeCutoffAppend(c + g1, g2, offset);
      assert NapEndEffect(s, k, now, offset, delay, push, dev).requests == c + g1 + g2;
    }
  }

  /** Nor does a snooze. */
  lemma SnoozeBeforeCutoff(d: DayRecord, k: string, kind: string, now: int, offset: int, push: bool, dev: string)
    ensures BeforeCutoff(Snooze(d, k, kind, now, offset, push, dev).requests, offset)
  {
    if kind == "b3_start" && d.scheduled.block3SnoozesUsed < MaxSnoozes {
      var at := now + SnoozeMin * MsPerMin;
      BeforeCutoffAppend(CancelGate(push, dev, "b3-start-" + k), Gate(push, offset, Block3Start(dev, k, at)), offset);
    }
  }

  /** With push switched off, no action sends anything. */
  lemma ActSilentWhenPushOff(days: map<string, DayRecord>, k: string, act: Action, now: int, offset: int,
                             delay: Option<int>, dev: string)
    requires k in days && WellFormed(days[k]) && SlotInRange(act) && PromptAnswer(delay)
    ensures Act(days, k, act, now, offset, delay, false, dev).requests == []
  {
  }

  /** Pressing "I'm up" a second time in a day changes nothing and sends nothing. */
  lemma ImUpLocked(days: map<string, DayRecord>, k: string, now: int, offset: int,
                   delay: Option<int>, push: bool, dev: string)
    requires k in days && WellFormed(days[k]) && IsSet(Field(days[k].events, "imUp")) && PromptAnswer(delay)
    ensures Act(days, k, Event("imUp"), now, offset, delay, push, dev) == Effect(days[k], [], Toast(AlreadyUp))
  {
  }

  /**
   * Any other event press records the time, overwriting an earlier one, and
   * leaves the other events as they were.
   */
  lemma EventStamped(days: map<string, DayRecord>, k: string, ev: string, now: int, offset: int,
                     delay: Option<int>, push: bool, dev: string)
    requires k in days && WellFormed(days[k]) && PromptAnswer(delay)
    requires ev != "imUp" || !IsSet(Field(days[k].events, "imUp"))
    ensures var e := Act(days, k, Event(ev), now, offset, delay, push, dev);
      Field(e.day.events, ev) == At(now) &&
      (forall x :: x != ev ==> Field(e.day.events, x) == Field(days[k].events, x)) &&
      e.day.outcomes == days[k].outcomes && e.day.outcomesDone == days[k].outcomesDone &&
      e.day.morning == days[k].morning
  {
    var d := days[k];
    var e := EventEffect(days, k, ev, now, offset, delay, push, dev);
    assert Act(days, k, Event(ev), now, offset, delay, push, dev) == e;
    var s := Stamped(d, ev, now);
    assert e.day == s.(scheduled := e.day.scheduled) by {
      if ev == "napEnd" {
        assert e == NapEndEffect(s, k, now, offset, delay, push, dev);
      } else if ev == "babyUp" || ev == "napStart" {
        assert e == CheckinEffect(s, k, ev, now, offset, push, dev);
      }
    }
  }

  /**
   * "Baby up" and "Nap start" record the check-in 45 minutes later whether
   * or not a request is sent; the request is the gated check-in reminder.
   */
  lemma CheckinDerived(s: DayRecord, k: string, ev: string, now: int, offset: int, push: bool, dev: string)
    requires ev == "babyUp" || ev == "napStart"
    ensures var e := CheckinEffect(s, k, ev, now, offset, push, dev);
      var at := now + 45 * 60000;
      e.day == s.(scheduled := e.day.scheduled) &&
      (ev == "babyUp" ==> e.day.scheduled == s.scheduled.(block1CheckinAt := At(at)) &&
                          e.requests == Gate(push, offset, Block1Checkin(dev, k, at))) &&
      (ev == "napStart" ==> e.day.scheduled == s.scheduled.(block2CheckinAt := At(at)) &&
                            e.requests == Gate(push, offset, Block2Checkin(dev, k, at))) &&
      (e.requests == [] <==> !push || IsAfterCutoff(at, offset))
  {
  }

  /**
   * Nap end with a delay: block 3 starts `delay` minutes later, its check-in
   * 30 minutes after that, the snooze budget is reset, and the cancel of all
   * `b3-` reminders goes out before both new `b3-` reminders, each sent
   * unless its local hour is past the cutoff.
   */
  lemma NapEndAccepted(s: DayRecord, k: string, now: int, offset: int, delay: nat, push: bool, dev: string)
    ensures var e := NapEndEffect(s, k, now, offset, Some(delay), push, dev);
      e.day.events == s.events &&
      e.day.scheduled.block3StartAt == At(now + delay * 60000) &&
      e.day.scheduled.block3CheckinAt == At(now + delay * 60000 + 30 * 60000) &&
      e.day.scheduled.block3SnoozesUsed == 0 &&
      e.day.scheduled.block1CheckinAt == s.scheduled.block1CheckinAt &&
      e.day.scheduled.block2CheckinAt == s.scheduled.block2CheckinAt &&
      |e.requests| <= 3 &&
      (push ==> e.requests[0] == CancelPrefix(dev, "b3-")) &&
      (!push ==> e.requests == []) &&
      (forall i :: 0 <= i < |e.requests| ==>
        (e.requests[i].Schedule? ==> i > 0 && StartsWith(e.requests[i].tag, "b3-"))) &&
      e.requests == CancelGate(push, dev, "b3-") +
                    Gate(push, offset, Block3Start(dev, k, now + delay * 60000)) +
                    Gate(push, offset, Block3Checkin(dev, k, now + delay * 60000 + 30 * 60000)) &&
      (push && !IsAfterCutoff(now + delay * 60000, offset) &&
       !IsAfterCutoff(now + delay * 60000 + 30 * 60000, offset) ==>
        e.requests == [CancelPrefix(dev, "b3-"), Block3Start(dev, k, now + delay * 60000),
                       Block3Checkin(dev, k, now + delay * 60000 + 30 * 60000)]) &&
      e.notice == Toast("Block 3 set for +" + Decimal(delay) + "m")
  {
    var startAt := now + delay * MsPerMin;
    var checkAt := startAt + Block3CheckinOffsetMin * MsPerMin;
    var a := Block3Start(dev, k, startAt);
    var b := Block3Checkin(dev, k, checkAt);
    assert StartsWith(a.tag, "b3-") by { assert a.tag[..3] == "b3-"; }
    assert StartsWith(b.tag, "b3-") by { assert b.tag[..3] == "b3-"; }
  }

  /** Cancelling the nap-end prompt still records the nap end, but schedules nothing. */
  lemma NapEndCancelled(s: DayRecord, k: string, now: int, offset: int, push: bool, dev: string)
    ensures NapEndEffect(s, k, now, offset, None, push, dev) == Effect(s, [], Toast("Canceled."))
  {
  }

  /**
   * Toggling flips only the chosen flag; the `celebrate-<key>` reminder one
   * second later is the only request, attempted exactly when all three flags
   * are then set.
   */
  lemma ToggleCelebrates(d: DayRecord, k: string, i: int, now: int, offset: int, push: bool, dev: string)
    requires WellFormed(d) && 0 <= i < 3
    ensures var e := ToggleEffect(d, k, i, now, offset, push, dev);
      var done := d.outcomesDone;
      e.day.outcomesDone[i] == !done[i] &&
      (forall j :: 0 <= j < 3 && j != i ==> e.day.outcomesDone[j] == done[j]) &&
      e.day == d.(outcomesDone := e.day.outcomesDone) &&
      (e.notice == Toast(DaySecured) <==> forall j :: 0 <= j < 3 ==> e.day.outcomesDone[j]) &&
      (e.requests != [] <==> (forall j :: 0 <= j < 3 ==> e.day.outcomesDone[j]) &&
                             push && !IsAfterCutoff(now + 1000, offset)) &&
      (e.requests != [] ==> e.requests == [Celebrate(dev, k, now + 1000)])
  {
    ToggleInvolution(d, i);
  }

  /** Slot `slot` of three is the first blank one, or the third when none of the first two is blank. */
  predicate TakesSuggestion(o: seq<string>, slot: int)
    requires |o| == 3
  {
    0 <= slot < 3 && (forall j :: 0 <= j < slot ==> Trim(o[j]) != "") && (slot < 2 ==> Trim(o[slot]) == "")
  }

  /**
   * A suggestion goes into the first blank slot, or the third when none is
   * blank, and no other slot changes; with no suggestion nothing changes.
   */
  lemma SuggestionPlaced(d: DayRecord, sug: string)
    requires WellFormed(d)
    ensures var e := ApplyEffect(d, sug);
      var o := d.outcomes;
      e.requests == [] &&
      (sug == "" ==> e.day == d) &&
      (sug != "" ==>
        exists slot :: TakesSuggestion(o, slot) && e.day == d.(outcomes := o[slot := sug]))
  {
    if sug != "" {
      var o := d.outcomes;
      var i := FirstBlank(o);
      var slot := if i == -1 then 2 else i;
      assert slot == SuggestionSlot(o);
      assert ApplyEffect(d, sug).day == d.(outcomes := o[slot := sug]);
      assert TakesSuggestion(o, slot);
    }
  }

  /**
   * Snoozing acts only on the block-3 start notification and at most twice;
   * it moves block 3's start to ten minutes from now, keeps its check-in, and
   * replaces the pending `b3-start-<key>` reminder by one at the new start.
   * A third snooze only says that none are left.
   */
  lemma SnoozeAllowance(d: DayRecord, k: string, kind: string, now: int, offset: int, push: bool, dev: string)
    requires WellFormed(d)
    ensures var e := Snooze(d, k, kind, now, offset, push, dev);
      WellFormed(e.day) &&
      (kind != "b3_start" ==> e == Effect(d, [], Silent)) &&
      (kind == "b3_start" && d.scheduled.block3SnoozesUsed == 2 ==>
        e == Effect(d, [], Toast("No snoozes left."))) &&
      (kind == "b3_start" && d.scheduled.block3SnoozesUsed < 2 ==>
        e.day.scheduled.block3SnoozesUsed == d.scheduled.block3SnoozesUsed + 1 &&
        e.day.scheduled.block3StartAt == At(now + 10 * 60000) &&
        e.day.scheduled.block3CheckinAt == d.scheduled.block3CheckinAt &&
        (push ==> e.requests[0] == CancelPrefix(dev, "b3-start-" + k)) &&
        e.requests == CancelGate(push, dev, "b3-start-" + k) +
                      Gate(push, offset, Block3Start(dev, k, now + 10 * 60000)) &&
        e.notice == Toast("Snoozed 10m."))
  {
    SnoozeBounded(d, now);
  }

  // ----- The application state -----

  class App {
    /** `state.days`. */
    var days: map<string, DayRecord>
    /** `state.settings.pushEnabled`. */
    var pushEnabled: bool
    /** `state.deviceId`. */
    var deviceId: string
    /** Every request sent to the push worker, oldest first. */
    var requests: seq<Request>

    ghost predicate Valid()
      reads this
    {
      AllWellFormed(days)
    }

    /** The state `loadState` builds when nothing is stored. */
    constructor (deviceId: string)
      ensures Valid()
      ensures days == map[] && !pushEnabled && this.deviceId == deviceId && requests == []
    {
      days := map[];
      pushEnabled := false;
      this.deviceId := deviceId;
      requests := [];
    }

    /** `ensureDay(k)`. */
    method EnsureDay(k: string, now: int)
      requires Valid()
      modifies this
      ensures Valid()
      ensures days == EnsureDayIn(old(days), k, now)
      ensures pushEnabled == old(pushEnabled) && deviceId == old(deviceId) && requests == old(requests)
    {
      if k !in days {
        days := days[k := NewDay(now)];
        NewDayIsBlank(now);
      }
    }

    /** `schedulePush(...)`: send the request unless push is off or it is after the cutoff. */
    method SchedulePush(req: Request, offset: int)
      requires req.Schedule?
      modifies this
      ensures requests == old(requests) + Gate(pushEnabled, offset, req)
      ensures days == old(days) && pushEnabled == old(pushEnabled) && deviceId == old(deviceId)
    {
      if !pushEnabled {
        return;
      }
      if IsAfterCutoff(req.sendAt, offset) {
        return;
      }
      requests := requests + [req];
    }

    /** `cancelScheduledByTagPrefix(prefix)`. */
    method CancelScheduledByTagPrefix(prefix: string)
      modifies this
      ensures requests == old(requests) + CancelGate(pushEnabled, deviceId, prefix)
      ensures days == old(days) && pushEnabled == old(pushEnabled) && deviceId == old(deviceId)
    {
      if !pushEnabled {
        return;
      }
      requests := requests + [CancelPrefix(deviceId, prefix)];
    }

    /** `enablePushFlow()`; `subscribed` says whether permission and subscription succeeded. */
    method EnablePush(subscribed: bool)
      modifies this
      ensures pushEnabled == (old(pushEnabled) || subscribed)
      ensures days == old(days) && deviceId == old(deviceId) && requests == old(requests)
    {
      if subscribed {
        pushEnabled := true;
      }
    }

    /** `disablePushFlow()`. */
    method DisablePush()
      modifies this
      ensures !pushEnabled
      ensures days == old(days) && deviceId == old(deviceId) && requests == old(requests)
    {
      pushEnabled := false;
    }

    /** `handleAction("push:enable")`: `ensureDay` runs first, then `enablePushFlow()`. */
    method HandleEnablePush(now: int, subscribed: bool)
      requires Valid() && ValidTime(now - ResetMs)
      modifies this
      ensures Valid()
      ensures days == EnsureDayIn(old(days), DayKey(now), now)
      ensures pushEnabled == (old(pushEnabled) || subscribed)
      ensures deviceId == old(deviceId) && requests == old(requests)
    {
      EnsureDay(DayKey(now), now);
      EnablePush(subscribed);
    }

    /** `handleAction("push:disable")`: `ensureDay` runs first, then `disablePushFlow()`. */
    method HandleDisablePush(now: int)
      requires Valid() && ValidTime(now - ResetMs)
      modifies this
      ensures Valid()
      ensures days == EnsureDayIn(old(days), DayKey(now), now) && !pushEnabled
      ensures deviceId == old(deviceId) && requests == old(requests)
    {
      EnsureDay(DayKey(now), now);
      DisablePush();
    }

    /**
     * `handleAction("export")`: `ensureDay` runs first, so the export holds a
     * row for today even when today's record did not exist yet.
     */
    method HandleExport(now: int) returns (csv: Option<string>)
      requires Valid() && ValidTime(now - ResetMs)
      modifies this
      ensures Valid()
      ensures days == EnsureDayIn(old(days), DayKey(now), now) && DayKey(now) in days
      ensures csv == Export.Csv(Asc(days.Keys), days)
      ensures pushEnabled == old(pushEnabled) && deviceId == old(deviceId) && requests == old(requests)
    {
      EnsureDay(DayKey(now), now);
      csv := ExportCsv();
    }

    /**
     * `Object.keys(state.days).sort()`: the keys in string order. The sort is
     * the engine's; here it repeatedly takes the greatest key left and puts it
     * in front.
     */
    method SortedKeys() returns (keys: seq<string>)
      ensures keys == Asc(days.Keys)
    {
      var rest := days.Keys;
      ghost var seen: seq<string> := [];
      keys := [];
      while rest != {}
        invariant Desc(days.Keys) == seen + Desc(rest)
        invariant keys == Reverse(seen)
        decreases |rest|
      {
        GreatestExists(rest);
        var k :| IsGreatest(k, rest);
        VisitNewest(days.Keys, seen, rest, k);
        ReverseSnoc(seen, k);
        keys := [k] + keys;
        seen := seen + [k];
        rest := rest - {k};
      }
      assert seen == Desc(days.Keys);
    }

    /** `buildSuggestions()`: scan the days newest first and stop at the first proposal. */
    method BuildSuggestions() returns (current: string)
      ensures current == Suggestion(days)
      ensures current == "" <==> forall k :: k in days ==> !Proposes(days[k])
    {
      SuggestionIsNewest(days);
      var keys := SortedKeys();
      keys := Reverse(keys);
      DescIsReversedAsc(days.Keys);
      current := SuggestLoop(keys);
    }

    /** The loop of `buildSuggestions` over `keys`: the first day with a proposal gives it. */
    method SuggestLoop(keys: seq<string>) returns (current: string)
      requires forall k :: k in keys ==> k in days
      ensures current == SuggestFrom(keys, days)
    {
      for i := 0 to |keys|
        invariant SuggestFrom(keys, days) == SuggestFrom(keys[i..], days)
      {
        var d := days[keys[i]];
        assert keys[i..][1..] == keys[i + 1..];
        if |d.outcomes| > 0 {
          var idx := FirstFalse(d.outcomesDone);
          if idx != -1 && idx < |d.outcomes| && Trim(d.outcomes[idx]) != "" {
            return "Finish: " + Trim(d.outcomes[idx]);
          }
        }
      }
      return "";
    }

    /** `getWakeStats()`: the streak, and the wake minutes of the last seven days in key order. */
    method WakeStats(offset: int) returns (streak: nat, wakeTimes: seq<Option<int>>)
      ensures streak == Streak(days) && streak <= 14
      ensures wakeTimes == WakeTimes(days, offset) && |wakeTimes| <= 7
    {
      wakeTimes := LastWakeTimes(offset);
      streak := WakeStreak();
    }

    /** The first part of `getWakeStats`: the wake minutes of the last seven keys in sorted order. */
    method LastWakeTimes(offset: int) returns (wakeTimes: seq<Option<int>>)
      ensures wakeTimes == WakeTimes(days, offset) && |wakeTimes| <= 7
    {
      var keys := SortedKeys();
      var last7 := LastSeven(keys);
      forall j | 0 <= j < |last7|
        ensures last7[j] in days
      {
        assert last7[j] == keys[|keys| - |last7| + j];
        assert keys[|keys| - |last7| + j] in keys;
      }
      wakeTimes := WakeTimesLoop(last7, offset);
    }

    /** The first loop of `getWakeStats`: push the wake minute of each key whose `imUp` is set. */
    method WakeTimesLoop(keys: seq<string>, offset: int) returns (wakeTimes: seq<Option<int>>)
      requires forall k :: k in keys ==> k in days
      ensures wakeTimes == WakeTimesOf(keys, days, offset)
    {
      wakeTimes := [];
      for i := 0 to |keys|
        invariant wakeTimes == WakeTimesOf(keys[..i], days, offset)
      {
        var ts := Field(days[keys[i]].events, "imUp");
        if IsSet(ts) {
          wakeTimes := wakeTimes + [WakeMinute(ts.ms, offset)];
        }
        assert keys[..i + 1][..i] == keys[..i];
      }
      assert keys[..|keys|] == keys;
    }

    /** The second part of `getWakeStats`: the keys newest first, then the streak loop. */
    method WakeStreak() returns (streak: nat)
      ensures streak == Streak(days) && streak <= 14
    {
      var keys := SortedKeys();
      var sorted := Reverse(keys);
      DescIsReversedAsc(days.Keys);
      streak := StreakLoop(sorted);
    }

    /** The second loop of `getWakeStats`: count the keys in order while `imUp` is set, and stop at 14. */
    method StreakLoop(sorted: seq<string>) returns (streak: nat)
      requires forall k :: k in sorted ==> k in days
      ensures streak == StreakOf(LoggedFlags(sorted, days))
    {
      ghost var logged := LoggedFlags(sorted, days);
      streak := 0;
      for i := 0 to |sorted|
        invariant streak == i < StreakCap
        invariant forall j :: 0 <= j < i ==> logged[j]
      {
        if !IsSet(Field(days[sorted[i]].events, "imUp")) {
          StreakOfRun(logged, streak);
          return;
        }
        streak := streak + 1;
        if streak >= 14 {
          StreakOfRun(logged, streak);
          return;
        }
      }
      StreakOfRun(logged, streak);
    }

    /** `pickWakeMessage()` for today's key `k`. */
    method PickWakeMessage(k: string, offset: int) returns (message: Option<string>)
      ensures message == Message(k, WakeTier(days, offset))
    {
      var tier := CurrentTier(offset);
      message := Message(k, tier);
    }

    /** The tier `pickWakeMessage` derives from `getWakeStats()`. */
    method CurrentTier(offset: int) returns (tier: Tier)
      ensures tier == WakeTier(days, offset)
    {
      var streak, wakeTimes := WakeStats(offset);
      var score := ConsistencyScore(wakeTimes);
      var consistent := score.Some? && score.value >= 0.6;
      tier := TierOf(streak, consistent);
    }

    /** `handleAction(act)` with one clock reading `now` and the prompt's answer `prompt`. */
    method HandleAction(act: Action, now: int, offset: int, delay: Option<int>) returns (notice: Notice)
      requires Valid() && ValidTime(now - ResetMs) && SlotInRange(act) && PromptAnswer(delay)
      modifies this
      ensures Valid()
      ensures var k := DayKey(now);
        var before := EnsureDayIn(old(days), k, now);
        var e := Act(before, k, act, now, offset, delay, old(pushEnabled), old(deviceId));
        days == before[k := e.day] && requests == old(requests) + e.requests && notice == e.notice
      ensures pushEnabled == old(pushEnabled) && deviceId == old(deviceId)
    {
      var k := DayKey(now);
      EnsureDay(k, now);
      notice := ActOnDay(k, act, now, offset, delay);
    }

    /** The body of `handleAction` once `ensureDay(k)` has run. */
    method ActOnDay(k: string, act: Action, now: int, offset: int, delay: Option<int>) returns (notice: Notice)
      requires Valid() && k in days && SlotInRange(act) && PromptAnswer(delay)
      modifies this
      ensures Valid()
      ensures var e := Act(old(days), k, act, now, offset, delay, old(pushEnabled), old(deviceId));
        days == old(days)[k := e.day] && requests == old(requests) + e.requests && notice == e.notice
      ensures pushEnabled == old(pushEnabled) && deviceId == old(deviceId)
    {
      var d := days[k];
      ActWellFormed(days, k, act, now, offset, delay, pushEnabled, deviceId);
      match act {
        case SaveOutcomes =>
          notice := Toast("Saved.");
        case EditOutcome(i, text) =>
          days := days[k := WithOutcome(d, i, text)];
          notice := Silent;
        case ApplySuggestion =>
          notice := OnApplySuggestion(k);
        case ToggleOutcome(i) =>
          notice := OnToggle(k, i, now, offset);
        case Morning(item) =>
          days := days[k := MorningLogged(d, item, now)];
          notice := Toast("Logged.");
        case Event(ev) =>
          notice := OnEvent(k, ev, now, offset, delay);
        case Unrecognised =>
          notice := Silent;
      }
    }

    /** The `applySuggestion` branch of `handleAction`. */
    method OnApplySuggestion(k: string) returns (notice: Notice)
      requires Valid() && k in days
      modifies this
      ensures Valid()
      ensures var e := ApplyEffect(old(days)[k], Suggestion(old(days)));
        days == old(days)[k := e.day] && requests == old(requests) && notice == e.notice
      ensures pushEnabled == old(pushEnabled) && deviceId == old(deviceId)
    {
      var sug := BuildSuggestions();
      notice := ApplyOnDay(k, sug);
    }

    /** Putting the suggestion `sug` into the day's first blank slot, or the third. */
    method ApplyOnDay(k: string, sug: string) returns (notice: Notice)
      requires Valid() && k in days
      modifies this
      ensures Valid()
      ensures var e := ApplyEffect(old(days)[k], sug);
        days == old(days)[k := e.day] && requests == old(requests) && notice == e.notice
      ensures pushEnabled == old(pushEnabled) && deviceId == old(deviceId)
    {
      var d := days[k];
      if sug == "" {
        notice := Toast("No suggestion found.");
        assert days == days[k := d];
      } else {
        var idx := SuggestionSlot(d.outcomes);
        days := days[k := WithOutcome(d, idx, sug)];
        notice := Toast("Added suggestion.");
      }
    }

    /** The `toggleOutcome:<i>` branch of `handleAction`. */
    method OnToggle(k: string, i: int, now: int, offset: int) returns (notice: Notice)
      requires Valid() && k in days && 0 <= i < 3
      modifies this
      ensures Valid()
      ensures var e := ToggleEffect(old(days)[k], k, i, now, offset, old(pushEnabled), old(deviceId));
        days == old(days)[k := e.day] && requests == old(requests) + e.requests && notice == e.notice
      ensures pushEnabled == old(pushEnabled) && deviceId == old(deviceId)
    {
      var d := Toggled(days[k], i);
      days := days[k := d];
      if AllDone(d) {
        notice := Toast(DaySecured);
        SchedulePush(Celebrate(deviceId, k, now + 1000), offset);
      } else {
        notice := Silent;
      }
    }

    /** The `event:<ev>` branch of `handleAction`. */
    method OnEvent(k: string, ev: string, now: int, offset: int, delay: Option<int>) returns (notice: Notice)
      requires Valid() && k in days && PromptAnswer(delay)
      modifies this
      ensures Valid()
      ensures var e := EventEffect(old(days), k, ev, now, offset, delay, old(pushEnabled), old(deviceId));
        days == old(days)[k := e.day] && requests == old(requests) + e.requests && notice == e.notice
      ensures pushEnabled == old(pushEnabled) && deviceId == old(deviceId)
    {
      var d := days[k];
      if ev == "imUp" && IsSet(Field(d.events, "imUp")) {
        notice := Toast(AlreadyUp);
        return;
      }
      d := Stamped(d, ev, now);
      days := days[k := d];
      notice := OnStamped(k, ev, now, offset, delay);
      UpdateTwice(old(days), k, d, days[k]);
    }

    /** The branches of `event:<ev>` after the time is recorded. */
    method OnStamped(k: string, ev: string, now: int, offset: int, delay: Option<int>) returns (notice: Notice)
      requires Valid() && k in days && PromptAnswer(delay)
      modifies this
      ensures Valid()
      ensures var e := StampedEffect(old(days), k, ev, now, offset, delay, old(pushEnabled), old(deviceId));
        days == old(days)[k := e.day] && requests == old(requests) + e.requests && notice == e.notice
      ensures pushEnabled == old(pushEnabled) && deviceId == old(deviceId)
    {
      if ev == "imUp" {
        var tier := CurrentTier(offset);
        notice := WakeModal(k, tier);
        assert days == days[k := days[k]];
      } else if ev == "babyUp" || ev == "napStart" {
        notice := OnCheckin(k, ev, now, offset);
      } else if ev == "napEnd" {
        notice := OnNapEnd(k, delay, now, offset);
      } else {
        notice := Toast("Logged.");
        assert days == days[k := days[k]];
      }
    }

    /** The "Baby up" and "Nap start" branches once the time is recorded. */
    method OnCheckin(k: string, ev: string, now: int, offset: int) returns (notice: Notice)
      requires Valid() && k in days && (ev == "babyUp" || ev == "napStart")
      modifies this
      ensures Valid()
      ensures var e := CheckinEffect(old(days)[k], k, ev, now, offset, old(pushEnabled), old(deviceId));
        days == old(days)[k := e.day] && requests == old(requests) + e.requests && notice == e.notice
      ensures pushEnabled == old(pushEnabled) && deviceId == old(deviceId)
    {
      var d := days[k];
      var sendAt := now + CheckinOffsetMin * MsPerMin;
      if ev == "babyUp" {
        days := days[k := WithBlock1(d, sendAt)];
        SchedulePush(Block1Checkin(deviceId, k, sendAt), offset);
        notice := Toast("Baby up logged.");
      } else {
        days := days[k := WithBlock2(d, sendAt)];
        SchedulePush(Block2Checkin(deviceId, k, sendAt), offset);
        notice := Toast("Nap start logged.");
      }
    }

    /** The nap-end branch once the time is recorded, given the prompt's delay. */
    method OnNapEnd(k: string, delay: Option<int>, now: int, offset: int) returns (notice: Notice)
      requires Valid() && k in days && (delay.Some? ==> delay.value >= 0)
      modifies this
      ensures Valid()
      ensures var e := NapEndEffect(old(days)[k], k, now, offset, delay, old(pushEnabled), old(deviceId));
        days == old(days)[k := e.day] && requests == old(requests) + e.requests && notice == e.notice
      ensures pushEnabled == old(pushEnabled) && deviceId == old(deviceId)
    {
      if delay.None? {
        notice := Toast("Canceled.");
        return;
      }
      var d := days[k];
      var startAt := now + delay.value * MsPerMin;
      var checkAt := startAt + Block3CheckinOffsetMin * MsPerMin;
      days := days[k := WithBlock3(d, startAt, checkAt)];
      CancelScheduledByTagPrefix("b3-");
      SchedulePush(Block3Start(deviceId, k, startAt), offset);
      SchedulePush(Block3Checkin(deviceId, k, checkAt), offset);
      notice := Toast("Block 3 set for +" + Decimal(delay.value) + "m");
    }

    /** `handleSnoozeFromNotif(data)` with `kind` = `data.kind`. */
    method HandleSnoozeFromNotif(kind: string, now: int, offset: int) returns (notice: Notice)
      requires Valid() && ValidTime(now - ResetMs)
      modifies this
      ensures Valid()
      ensures var k := DayKey(now);
        var before := EnsureDayIn(old(days), k, now);
        var e := Snooze(before[k], k, kind, now, offset, old(pushEnabled), old(deviceId));
        days == before[k := e.day] && requests == old(requests) + e.requests && notice == e.notice
      ensures pushEnabled == old(pushEnabled) && deviceId == old(deviceId)
    {
      var k := DayKey(now);
      EnsureDay(k, now);
      notice := SnoozeOnDay(k, kind, now, offset);
    }

    /** The body of `handleSnoozeFromNotif` once `ensureDay(k)` has run. */
    method SnoozeOnDay(k: string, kind: string, now: int, offset: int) returns (notice: Notice)
      requires Valid() && k in days
      modifies this
      ensures Valid()
      ensures var e := Snooze(old(days)[k], k, kind, now, offset, old(pushEnabled), old(deviceId));
        days == old(days)[k := e.day] && requests == old(requests) + e.requests && notice == e.notice
      ensures pushEnabled == old(pushEnabled) && deviceId == old(deviceId)
    {
      var d := days[k];
      SnoozeBounded(d, now);
      if kind != "b3_start" {
        return Silent;
      }
      if d.scheduled.block3SnoozesUsed >= MaxSnoozes {
        return Toast("No snoozes left.");
      }
      var newAt := now + SnoozeMin * MsPerMin;
      days := days[k := Snoozed(d, newAt)];
      CancelScheduledByTagPrefix("b3-start-" + k);
      SchedulePush(Block3Start(deviceId, k, newAt), offset);
      notice := Toast("Snoozed 10m.");
    }

    /** The CSV text of `exportData()`; `None` when `toISOString` throws on a logged time. */
    method ExportCsv() returns (csv: Option<string>)
      ensures csv == Export.Csv(Asc(days.Keys), days)
    {
      var keys := SortedKeys();
      var rows := RowsLoop(keys);
      if rows.None? {
        return None;
      }
      return Some(Join(Export.CsvLines([Export.Header] + rows.value), "\n"));
    }

    /** The `forEach` of `exportData`: one row per key, in order; `None` once `toISOString` throws. */
    method RowsLoop(keys: seq<string>) returns (rows: Option<seq<seq<string>>>)
      requires forall k :: k in keys ==> k in days
      ensures rows == Export.Rows(keys, days)
    {
      var acc: seq<seq<string>> := [];
      for i := 0 to |keys|
        invariant Export.Rows(keys[..i], days) == Some(acc)
      {
        var row := Export.Row(keys[i], days[keys[i]]);
        Export.RowsAppend(keys, days, i);
        if row.None? {
          Export.RowsFailAt(keys, days, i);
          return None;
        }
        acc := acc + [row.value];
      }
      assert keys[..|keys|] == keys;
      return Some(acc);
    }
  }
}
