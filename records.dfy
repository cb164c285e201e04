/**
 * One day of the tracker (the object `ensureDay` creates, app.js:233-261) and
 * the changes the action handler makes to it. Each change is a function from
 * the old record to the new one; the `App` class applies them in place.
 */
module Days {
  import opened Strings

  /** A timestamp field: `Null` is `null`, `At(ms)` an epoch-millisecond time. */
  datatype Stamp = Null | At(ms: int)

  /** JavaScript truthiness of a timestamp field: `null` and 0 are both false. */
  predicate IsSet(x: Stamp) {
    x.At? && x.ms != 0
  }

  /** `obj[k]` on a map of timestamps; a missing key reads as `undefined`, i.e. unset. */
  function Field(m: map<string, Stamp>, k: string): Stamp {
    if k in m then m[k] else Null
  }

  datatype Scheduled = Scheduled(
    block1CheckinAt: Stamp,
    block2CheckinAt: Stamp,
    block3StartAt: Stamp,
    block3CheckinAt: Stamp,
    block3SnoozesUsed: int)

  datatype DayRecord = DayRecord(
    createdAt: int,
    outcomes: seq<string>,
    outcomesDone: seq<bool>,
    events: map<string, Stamp>,
    morning: map<string, Stamp>,
    scheduled: Scheduled)

  // ----- Constants (app.js:8-11 and the literals of the handlers) -----

  const ResetHour := 4
  const HardCutoffHour := 17
  const CheckinOffsetMin := 45
  const Block3CheckinOffsetMin := 30
  const SnoozeMin := 10
  const MaxSnoozes := 2
  const MsPerMin := 60000

  const EventNames: seq<string> := ["imUp", "babyUp", "napStart", "napEnd"]
  const MorningItems: seq<string> := ["movement", "shower", "outcomesWritten", "meds"]

  /** A map holding exactly `names`, each `null`. */
  function AllNull(names: seq<string>): (m: map<string, Stamp>)
    ensures m.Keys == set n | n in names
    ensures forall n :: n in m ==> m[n] == Null
  {
    map n | n in names :: Null
  }

  /** The record `ensureDay` inserts for a key that has none. */
  function NewDay(createdAt: int): DayRecord {
    DayRecord(
      createdAt,
      ["", "", ""],
      [false, false, false],
      AllNull(EventNames),
      AllNull(MorningItems),
      Scheduled(Null, Null, Null, Null, 0))
  }

  /** What every record of the store satisfies between actions. */
  predicate WellFormed(d: DayRecord) {
    |d.outcomes| == 3 && |d.outcomesDone| == 3 &&
    0 <= d.scheduled.block3SnoozesUsed <= MaxSnoozes
  }

  /** A new day has blank outcomes, nothing done, nothing logged and nothing scheduled. */
  lemma NewDayIsBlank(t: int)
    ensures WellFormed(NewDay(t))
    ensures forall i :: 0 <= i < 3 ==> Trim(NewDay(t).outcomes[i]) == "" && !NewDay(t).outcomesDone[i]
    ensures forall e :: e in EventNames ==> e in NewDay(t).events && !IsSet(Field(NewDay(t).events, e))
    ensures forall e :: !IsSet(Field(NewDay(t).events, e))
    ensures forall m :: m in MorningItems ==> m in NewDay(t).morning && !IsSet(Field(NewDay(t).morning, m))
    ensures NewDay(t).scheduled == Scheduled(Null, Null, Null, Null, 0)
  {
    assert Trim("") == "";
    var o := NewDay(t).outcomes;
    assert o[0] == "" && o[1] == "" && o[2] == "";
  }

  // ----- Outcomes -----

  /** `arr.findIndex(x => !x)`: the first unfinished outcome, or -1. */
  function FirstFalse(done: seq<bool>): (i: int)
    ensures -1 <= i < |done|
    ensures i == -1 <==> forall j :: 0 <= j < |done| ==> done[j]
    ensures i >= 0 ==> !done[i] && forall j :: 0 <= j < i ==> done[j]
  {
    if done == [] then -1
    else if !done[0] then 0
    else var r := FirstFalse(done[1..]); if r == -1 then -1 else r + 1
  }

  /** `outcomes.findIndex(x => !x?.trim())`: the first blank slot, or -1. */
  function FirstBlank(outcomes: seq<string>): (i: int)
    ensures -1 <= i < |outcomes|
    ensures i == -1 <==> forall j :: 0 <= j < |outcomes| ==> Trim(outcomes[j]) != ""
    ensures i >= 0 ==> Trim(outcomes[i]) == "" && forall j :: 0 <= j < i ==> Trim(outcomes[j]) != ""
  {
    var filled := Filled(outcomes);
    assert forall j :: 0 <= j < |outcomes| ==> filled[j] == (Trim(outcomes[j]) != "");
    FirstFalse(filled)
  }

  /** For each slot, whether its text is not blank. */
  function Filled(outcomes: seq<string>): (r: seq<bool>)
    ensures |r| == |outcomes|
    ensures forall j :: 0 <= j < |outcomes| ==> r[j] == (Trim(outcomes[j]) != "")
  {
    seq(|outcomes|, j requires 0 <= j < |outcomes| => Trim(outcomes[j]) != "")
  }

  /** The slot a suggestion goes into: the first blank one, else the third. */
  function SuggestionSlot(outcomes: seq<string>): int {
    var i := FirstBlank(outcomes);
    if i == -1 then 2 else i
  }

  function WithOutcome(d: DayRecord, i: int, text: string): (r: DayRecord)
    requires 0 <= i < |d.outcomes|
  {
    d.(outcomes := d.outcomes[i := text])
  }

  function Toggled(d: DayRecord, i: int): (r: DayRecord)
    requires 0 <= i < |d.outcomesDone|
  {
    d.(outcomesDone := d.outcomesDone[i := !d.outcomesDone[i]])
  }

  /** `outcomesDone.every(Boolean)`. */
  predicate AllDone(d: DayRecord) {
    forall i :: 0 <= i < |d.outcomesDone| ==> d.outcomesDone[i]
  }

  /** Toggling twice restores the record, and touches no other flag. */
  lemma ToggleInvolution(d: DayRecord, i: int)
    requires 0 <= i < |d.outcomesDone|
    ensures Toggled(Toggled(d, i), i) == d
    ensures forall j :: 0 <= j < |d.outcomesDone| && j != i ==>
      Toggled(d, i).outcomesDone[j] == d.outcomesDone[j]
    ensures Toggled(d, i).outcomesDone[i] != d.outcomesDone[i]
  {
    assert Toggled(Toggled(d, i), i).outcomesDone == d.outcomesDone;
  }

  // ----- Suggestions -----

  /**
   * A record `buildSuggestions` proposes from: it has outcomes, and the
   * outcome at its first unfinished index is not blank.
   */
  predicate Proposes(d: DayRecord) {
    var i := FirstFalse(d.outcomesDone);
    |d.outcomes| > 0 && i != -1 && i < |d.outcomes| && Trim(d.outcomes[i]) != ""
  }

  /** `"Finish: " + text` for the first unfinished outcome. */
  function Proposal(d: DayRecord): (r: string)
    requires Proposes(d)
    ensures StartsWith(r, "Finish: ") && |r| > |"Finish: "|
  {
    var s := "Finish: " + Trim(d.outcomes[FirstFalse(d.outcomesDone)]);
    assert s[..|"Finish: "|] == "Finish: ";
    s
  }

  // ----- Events, morning items and scheduled times -----

  function Stamped(d: DayRecord, ev: string, ts: int): DayRecord {
    d.(events := d.events[ev := At(ts)])
  }

  function MorningLogged(d: DayRecord, item: string, ts: int): DayRecord {
    d.(morning := d.morning[item := At(ts)])
  }

  function WithBlock1(d: DayRecord, at: int): DayRecord {
    d.(scheduled := d.scheduled.(block1CheckinAt := At(at)))
  }

  function WithBlock2(d: DayRecord, at: int): DayRecord {
    d.(scheduled := d.scheduled.(block2CheckinAt := At(at)))
  }

  /** Block 3 set at nap end: start, check-in and a fresh snooze budget. */
  function WithBlock3(d: DayRecord, startAt: int, checkAt: int): DayRecord {
    d.(scheduled := d.scheduled.(block3StartAt := At(startAt), block3CheckinAt := At(checkAt),
                                 block3SnoozesUsed := 0))
  }

  /** One snooze: the count goes up and block 3 restarts at `at`. */
  function Snoozed(d: DayRecord, at: int): DayRecord {
    d.(scheduled := d.scheduled.(block3SnoozesUsed := d.scheduled.block3SnoozesUsed + 1,
                                 block3StartAt := At(at)))
  }

  /** `handleSnoozeFromNotif` on the day record: nothing when the budget is spent. */
  function SnoozeDay(d: DayRecord, now: int): (r: DayRecord)
  {
    if d.scheduled.block3SnoozesUsed >= MaxSnoozes then d
    else Snoozed(d, now + SnoozeMin * MsPerMin)
  }

  /** Snoozing keeps the budget within bounds and changes nothing but block 3's start. */
  lemma SnoozeBounded(d: DayRecord, now: int)
    requires WellFormed(d)
    ensures WellFormed(SnoozeDay(d, now))
    ensures var r := SnoozeDay(d, now);
      if d.scheduled.block3SnoozesUsed == MaxSnoozes then r == d
      else r.scheduled.block3SnoozesUsed == d.scheduled.block3SnoozesUsed + 1 &&
           r.scheduled.block3StartAt == At(now + 600000) &&
           r == d.(scheduled := r.scheduled) &&
           r.scheduled.(block3StartAt := d.scheduled.block3StartAt,
                        block3SnoozesUsed := d.scheduled.block3SnoozesUsed) == d.scheduled
  {
  }

  /** At most two snoozes are ever granted: three snoozes in a row change nothing the third time. */
  lemma {:induction false} SnoozesRunOut(d: DayRecord, t1: int, t2: int, t3: int)
    requires WellFormed(d)
    ensures SnoozeDay(SnoozeDay(SnoozeDay(d, t1), t2), t3) == SnoozeDay(SnoozeDay(d, t1), t2)
  {
    var d1 := SnoozeDay(d, t1);
    var d2 := SnoozeDay(d1, t2);
    assert d2.scheduled.block3SnoozesUsed == MaxSnoozes;
  }
}
