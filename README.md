# 90DWP day tracker — a Dafny model of its state engine

90DWP is a small progressive web app for a parent's working day. Each day,
keyed by a `YYYY-MM-DD` string that rolls over at 04:00, holds:

- three outcomes and their done flags;
- the times of four events ("I'm up", "Baby up", "Nap start", "Nap end");
- a morning checklist;
- the check-in and block-3 reminders derived from those events, with a
  count of block-3 snoozes.

Reminders are web-push notifications. The page asks a push worker to
schedule them, but only while push is switched on and only for send times
before 17:00 local time.

This project models the engine in `app.js` that keeps that state:

- **Day key.** `dayKey` is modelled as ECMA-262 date arithmetic: day
  numbers, the civil date of a day number, zero-padded `toISOString` text
  (`Calendar`).
- **Day store and handlers.** The store of day records and the handlers
  that change it in place live in the class `Tracker.App`:
  - `ensureDay`;
  - `handleAction` (saveOutcomes, the outcome text boxes, applySuggestion,
    toggleOutcome, `morning:<item>`, `event:<name>`, and `push:enable`,
    `push:disable` and `export`, each after the same `ensureDay`);
  - `handleSnoozeFromNotif`;
  - `schedulePush` and `cancelScheduledByTagPrefix`;
  - enabling and disabling push.

  The calls to the push worker are a log, `requests`. Each handler is proved
  against a pure function that says what it does to today's record, what it
  requests and what it shows. The properties the app promises are lemmas
  about those functions.
- **Suggestions and wake statistics.** The suggestion builder and the wake
  statistics loops (`getWakeStats` and `pickWakeMessage`) are methods over
  the store. They are proved against functions that scan the keys newest
  first (`Tracker`, `Wake`, `KeyOrder`).
- **Prompt answer.** The nap-end prompt's answer is read by `Number()`, the
  StringToNumber operation of section 7.1.4.1.1 of ECMA-262 (`Numbers`).
- **Escapers.** `csvEscape` follows the quoting rules of section 2 of
  RFC 4180, and `escapeHtml` is modelled with it (`Escape`). Each escaper is
  proved against its decoder.
- **CSV export.** The rows of the CSV export are in `Export`.
- **Push key.** The base64url step of `urlBase64ToUint8Array` undoes
  section 5 of RFC 4648 (`Base64Url`). Both round trips against the
  URL-safe encoding are proved.

Time is a parameter throughout: each action reads the clock once (`now`, in
epoch milliseconds), and the local zone is a fixed offset from UTC (`offset`).

Where the code and the comments around it disagree, the model follows the
code:

- **The day key is the UTC date of `now - 4 h`.** The header comment says
  the reset is at 4:00 local time, but `dayKey` formats the shifted instant
  with `toISOString`. `Calendar.DayKeySameWindow` states the window it really
  uses: 24 hours starting at 04:00 UTC.
- **`buildSuggestions` looks only at the first unfinished slot.** Its comment
  says it proposes the first unfinished outcome. The code takes the first
  `false` flag and proposes its text only when that text is not blank; a day
  whose first unfinished slot is blank is skipped, even if a later
  unfinished slot holds text. `Tracker.SuggestFromFirst` and
  `Tracker.SuggestionIsNewest` state this.
- **"Nap end" cancels every day's block-3 reminders.** The comment says it
  cancels today's, but the prefix sent is `b3-`, which matches the block-3
  reminders of every day (`Tracker.NapEndAccepted`).

## Model

| member | source | states |
|---|---|---|
| Calendar.DayIndex | app.js:203-207 | the day number of the key's window: `t` lies between 04:00 UTC of that day and 04:00 UTC of the next |
| Calendar.DayIndexOfHour | app.js:203-207 | before 04:00 UTC the key's day is the previous UTC day, from 04:00 on it is the same UTC day |
| Calendar.YearFromDay | app.js:206 | the year whose first day is at or before day `z` and whose successor's first day is after it (YearFromTime of ECMA-262, used by `toISOString`) |
| Calendar.YearFromDayUnique | app.js:206 | exactly one year contains each day |
| Calendar.DateOfDay | app.js:206 | a valid calendar date whose day number is `z` |
| Calendar.DateRoundTrip | app.js:206 | turning a valid date into its day number and back gives the same date |
| Calendar.DateOfDayOrder | app.js:206 | one day number is smaller than another exactly when its date comes first |
| Calendar.DayKeyIsDate | app.js:203-207 | for four-digit years `dayKey(t)` is the 10-character `YYYY-MM-DD` of the UTC date of `t - 4 h` |
| Calendar.DayKeySameWindow | app.js:203-207 | two instants get the same key exactly when they fall in the same 24 h window starting at 04:00 UTC |
| Calendar.DayKeyOrder | app.js:203-207 | for four-digit years the string order of keys is the chronological order of their windows |
| Calendar.DateStringOrder | app.js:63 | the formatted dates sort as strings exactly as the dates sort, and distinct dates format differently |
| Calendar.DayKeyBeforeReset | app.js:203-207 | 03:00 UTC on 10 January 2024 still belongs to the key `2024-01-09` |
| Strings.TrimStartSplits | app.js:695 | the start of `trim` drops exactly a leading run of ECMA-262 white space and stops at the first other character |
| Strings.TrimEndSplits | app.js:695 | the end of `trim` drops exactly a trailing run of ECMA-262 white space and stops at the last other character |
| Strings.TrimEmptyIffAllSpace | app.js:695 | an outcome is blank (trims to "") exactly when it is all white space |
| Strings.TrimHasNoOuterSpace | app.js:663 | the trimmed text neither starts nor ends with white space |
| Strings.LtTransitive | app.js:63 | the string order used for `sort` (code-point order, equal to JavaScript's UTF-16 code-unit order below U+E000, which covers every day key) is transitive |
| Strings.LtTotal | app.js:63 | any two distinct strings are ordered one way or the other |
| Strings.LtIrreflexive | app.js:63 | no string sorts before itself |
| Strings.ZeroPadValue | app.js:206 | the zero-padded field of `toISOString` spells its number and has the padded width |
| Strings.ZeroPadLt | app.js:206 | zero-padded fields of one width compare as strings as their numbers compare |
| Strings.DigitsLt | app.js:206 | digit strings of one length compare as strings as their values compare |
| Strings.DecimalValue | app.js:844 | the delay printed in the block-3 toast spells the delay |
| KeyOrder.Desc | app.js:657 | `Object.keys(days).sort().reverse()` holds every key exactly once |
| KeyOrder.DescStep | app.js:657 | the newest-first key list starts with the greatest key and continues with the rest |
| KeyOrder.DescSorted | app.js:657 | the newest-first key list is strictly decreasing in string order |
| KeyOrder.DescDistinct | app.js:657 | no key appears twice in the newest-first listing |
| KeyOrder.Asc | app.js:873 | `Object.keys(days).sort()` lists exactly the keys of the store, each once |
| KeyOrder.AscSorted | app.js:873 | the oldest-first listing is strictly increasing in string order |
| KeyOrder.VisitNewest | app.js:63 | taking the greatest unvisited key extends the visited prefix of the newest-first listing by that key |
| KeyOrder.ReverseIndex | app.js:78 | `reverse` puts position `i` at position `n - 1 - i` |
| KeyOrder.ReverseReverse | app.js:78 | reversing twice gives the list back |
| KeyOrder.ReverseSnoc | app.js:78 | the key appended last comes first after `reverse` |
| KeyOrder.DescIsReversedAsc | app.js:78 | `sort().reverse()` is the newest-first listing |
| Escape.CsvEscape | app.js:892-898 | a field without a comma, quote or line feed is returned unchanged, any other is wrapped in quotes |
| Escape.UndoubleDoubled | app.js:895 | collapsing `""` undoes doubling every quote |
| Escape.DoubledQuotesPaired | app.js:895 | after doubling, the quotes of a field come in adjacent pairs |
| Escape.CsvRoundTrip | app.js:892-898 | stripping the quotes and un-doubling restores the field |
| Escape.CsvQuotedWellFormed | app.js:892-898 | inside the added quotes every quote is doubled; an unquoted field holds no comma, quote or line feed |
| Escape.EntityEach | app.js:669-676 | escaping character by character leaves no `<`, `>`, `"` or `'` |
| Escape.EscapeHtmlEach | app.js:669-676 | the five chained `replaceAll` calls, `&` first, equal escaping each character once |
| Escape.EntityRoundTrip | app.js:669-676 | decoding the entities of the character-by-character escape gives the text back |
| Escape.EscapeHtmlAppend | app.js:669-676 | the chained replacements escape a concatenation piece by piece |
| Escape.EscapeHtmlSafe | app.js:669-676 | the escaped text holds no `<`, `>`, `"` or `'` |
| Escape.HtmlRoundTrip | app.js:669-676 | decoding the five entities gives the original text back |
| Numbers.DigitStringNumber | app.js:182 | `Number` of a non-empty digit string is the integer it spells |
| Numbers.SeedIndex | app.js:182-184 | the pool index `Number(seed) % pool.length` is inside the pool when it exists |
| Numbers.DigitSeedIndex | app.js:181-184 | for a digit seed the index is its value modulo the pool size |
| Numbers.TypedDelay | app.js:859-860 | a typed answer is taken only when it is 30, 40 or 45 |
| Numbers.OfferedDelay | app.js:860 | `[30,40,45].includes(v)` holds exactly when `v` rounds to one of the three, and yields that one |
| Numbers.RoundsToUnique | app.js:860 | an answer that rounds to 30, 40 or 45 is taken as that delay |
| Numbers.PromptDelay | app.js:855-863 | cancel gives null; otherwise the delay is 30, 40 or 45, and 40 for any answer not read as one of them |
| Numbers.PromptDelayOfDigits | app.js:855-863 | typing 30, 40 or 45 yields that delay |
| Numbers.BlankPromptIsDefault | app.js:859-861 | a blank answer (`Number` gives 0) yields the default 40 |
| Days.AllNull | app.js:239-249 | the new record's event and morning maps hold exactly the listed names, each null |
| Days.NewDayIsBlank | app.js:233-261 | a new record has blank outcomes, no flag set, all events and morning items null, nothing scheduled and no snoozes |
| Days.FirstFalse | app.js:661 | `findIndex(x=>!x)`: the first false flag, or -1 exactly when all are true |
| Days.FirstBlank | app.js:695 | `findIndex(x=>!x?.trim())`: the first blank outcome, or -1 exactly when none is blank |
| Days.Proposal | app.js:662-663 | the suggestion starts with `Finish: ` and has text after it |
| Days.ToggleInvolution | app.js:704 | toggling flips exactly one flag, and toggling twice restores the record |
| Days.SnoozeBounded | app.js:957-964 | a snooze keeps the count at most 2, changes nothing at 2, and otherwise adds one and moves only the block-3 start to now + 10 min |
| Days.SnoozesRunOut | app.js:957-961 | a third snooze changes nothing |
| Wake.StreakOf | app.js:78-84 | the streak is at most 14 and at most the number of days |
| Wake.StreakIsLeadingRun | app.js:78-84 | the streak counts the newest days with "I'm up" logged, stopping at the first without or at 14 |
| Wake.StreakOfRun | app.js:78-84 | conversely, a leading run of logged days that ends at an unlogged day, at the end of the list or at 14 is the streak |
| Wake.WakeMinute | app.js:69-71 | a wake time is a minute of the local day, 0 to 1439, or NaN for an invalid date |
| Wake.Min | app.js:139 | `Math.min` of the wake times is one of them and at most each |
| Wake.Max | app.js:140 | `Math.max` of the wake times is one of them and at least each |
| Wake.ConsistencyScore | app.js:135-144 | the consistency score lies in [0, 1] whenever it is a number |
| Wake.ConsistentIffNarrow | app.js:135-144 | `consistencyScore >= 0.6` exactly when there are at least three wake times, all valid, within 36 minutes of each other |
| Wake.TierMonotone | app.js:156-157 | a longer or more consistent streak never gives a harsher tier |
| Wake.Pool | app.js:159-178 | the hype pool has four messages, the other two three |
| Wake.Message | app.js:178-184 | the message, when there is one, comes from the tier's pool |
| Wake.MessageOfDayKey | app.js:181-184 | for a four-digit-year key the message is the pool entry at `YYYYMMDD` modulo the pool size |
| Wake.MessageStableWithinDay | app.js:181-184 | all instants of one day window get the same message |
| Export.DoneField | app.js:877-879 | a flag column is "1" exactly when the flag is set, otherwise "0" |
| Export.StampField | app.js:880-883 | an unset event gives "", a set one its ISO time, and an out-of-range time the RangeError |
| Export.EventCells | app.js:880-883 | the event columns, one per event name, fail exactly when some set event time is out of range |
| Export.Row | app.js:875-884 | a day's row has the eleven header columns and starts with its key |
| Export.RowDefined | app.js:880-883 | a row can be built exactly when every set event time is in range |
| Export.Rows | app.js:873-885 | one row per key when it succeeds |
| Export.RowsEach | app.js:873-885 | the rows succeed exactly when every day's row does, and then row `i` is the row of key `i` |
| Export.RowsAppend | app.js:873-885 | the rows of one more key extend the rows of the shorter prefix by that key's row, or fail with it |
| Export.RowsFailAt | app.js:880-883 | one day whose row fails makes the export fail |
| Export.EscapeAll | app.js:887 | every field passes through `csvEscape` |
| Export.CsvLines | app.js:887 | every row becomes one comma-joined line |
| Base64Url.Padding | app.js:318 | the padding is under four `=` and brings the length to a multiple of four |
| Base64Url.PaddingUnique | app.js:318 | it is the only such count |
| Base64Url.Normalised | app.js:318-319 | the string handed to `atob` holds no `_` |
| Base64Url.NormalisedForm | app.js:318-319 | the normalised key is the key in the standard alphabet plus its padding: a multiple of four long, with no `-` or `_` |
| Base64Url.UrlRoundTrip | app.js:317-319 | an unpadded URL-safe key is rebuilt exactly by encoding the normalised text back to URL-safe form |
| Base64Url.StdRoundTrip | app.js:317-319 | padded standard base64 text is what the normalisation rebuilds from its URL-safe form |
| Base64Url.StdOfUrl | app.js:318-319 | mapping standard characters to URL-safe ones and back is the identity |
| Base64Url.Bytes | app.js:321-322 | one byte per decoded character |
| Base64Url.BytesOfBinary | app.js:320-322 | on the binary string `atob` returns, the bytes are the character codes, and copying inverts building that string |
| Base64Url.CopyBytes | app.js:321-322 | the loop fills a fresh array with each character code modulo 256 |
| Base64Url.UrlBase64ToBytes | app.js:317-324 | the result fails exactly when `atob` of the normalised key fails; otherwise it is a fresh array of the decoded bytes |
| Tracker.EnsureDayIn | app.js:233-261 | after `ensureDay(k)` the store holds `k` |
| Tracker.EnsureDayFrame | app.js:233-261 | `ensureDay` is idempotent, keeps an existing record, inserts a new record for a missing key and touches no other key |
| Tracker.Declines | app.js:659-662 | for each key in scan order, whether its day has nothing to propose |
| Tracker.FirstProposing | app.js:657-664 | the first key in scan order whose day proposes, or -1 exactly when none does |
| Tracker.SuggestFromFirst | app.js:655-667 | the scan returns the proposal of the first proposing day, or "" when there is none |
| Tracker.SuggestionIsNewest | app.js:655-667 | the suggestion is "" exactly when no day proposes; otherwise it is the proposal of a proposing day with no newer proposing day |
| Tracker.LoggedFlags | app.js:80 | for each key, whether its "I'm up" time is set (truthy) |
| Tracker.LastSeven | app.js:64 | `slice(-7)`: the last seven keys, or all of them when there are at most seven |
| Tracker.WakeTimesOf | app.js:66-73 | at most one wake time per key |
| Tracker.WakeTimesFromLogged | app.js:66-73 | every wake time is the wake minute of a key whose "I'm up" is set, and when all are set there is one per key |
| Tracker.ModalMessage | app.js:758-768 | the wake modal shows a message from its tier's pool |
| Tracker.PromptAnswers | app.js:805-810 | the delay the prompt produces is null exactly on cancel, and is one the nap-end handler accepts |
| Tracker.ActWellFormed | app.js:680-852 | every action keeps today's record at three outcomes, three flags and at most two snoozes |
| Tracker.ActSilentWhenPushOff | app.js:680-852 | with push off no action sends a request |
| Tracker.ActBeforeCutoff | app.js:364-385 | no action's requests include a reminder whose local send hour is 17 or later |
| Tracker.EventBeforeCutoff | app.js:746-852 | no event press requests a reminder whose local send hour is 17 or later |
| Tracker.SnoozeBeforeCutoff | app.js:364-385 | nor do a snooze's requests |
| Tracker.BeforeCutoffAppend | app.js:364-385 | two request lists within the cutoff stay within it when sent one after the other |
| Tracker.ImUpLocked | app.js:749-753 | a second "I'm up" changes nothing, sends nothing and shows the lock toast |
| Tracker.EventWellFormed | app.js:746-852 | an event press keeps today's record well formed |
| Tracker.EventStamped | app.js:755-756 | any other event press sets that event to `now` and leaves the other events, the outcomes, the flags and the morning checklist alone |
| Tracker.MorningStamped | app.js:719-724 | `morning:<item>` sets that item to `now`, leaves the other items and the rest of the record alone, sends nothing and shows "Logged." |
| Tracker.CheckinDerived | app.js:773-803 | "Baby up" / "Nap start" set block 1 / block 2 check-in to now + 45 min whether or not a request goes out, change nothing else, and request that check-in exactly when push is on and the hour is before 17 |
| Tracker.NapEndAccepted | app.js:805-846 | an accepted delay sets block-3 start to now + delay, check-in to start + 30 min and snoozes to 0, keeps the events and block 1/2, requests the `b3-` cancel (push on) followed by the `b3-start-<key>` reminder at the start and the `b3-checkin-<key>` reminder 30 min later, each unless past the 17:00 cutoff, so with both before the cutoff exactly those three in that order; and shows "Block 3 set for +<delay>m" |
| Tracker.NapEndCancelled | app.js:807-810 | a cancelled prompt leaves the stamped record and sends nothing |
| Tracker.ToggleCelebrates | app.js:702-717 | toggling flips only flag `i`; the celebration toast shows exactly when all three are set, and the celebration is requested exactly when they are set, push is on and the send hour is before 17; the request is then exactly the `celebrate-<key>` reminder one second after now |
| Tracker.SuggestionPlaced | app.js:688-700 | no suggestion changes nothing; otherwise only the first blank slot, or slot 2 when none is blank, receives it |
| Tracker.SnoozeAllowance | app.js:951-983 | a snooze acts only for `b3_start`; once two are used it changes nothing, sends nothing and shows "No snoozes left."; otherwise it adds one, moves the start to now + 10 min, keeps the check-in, requests the `b3-start-<key>` cancel (push on) followed by a new `b3-start-<key>` reminder at now + 10 min unless past the cutoff, and shows "Snoozed 10m." |
| Tracker.App.constructor | app.js:220-226 | the fresh state: no days, push off, no requests |
| Tracker.App.EnsureDay | app.js:233-261 | the store becomes `ensureDay`'s store; nothing else changes |
| Tracker.App.SchedulePush | app.js:364-385 | the log grows by the request exactly when the gate lets it through |
| Tracker.App.CancelScheduledByTagPrefix | app.js:387-395 | the log grows by the cancel exactly when push is on |
| Tracker.App.EnablePush | app.js:326-345 | push is on after a successful subscription and unchanged otherwise |
| Tracker.App.DisablePush | app.js:347-356 | push is off |
| Tracker.App.HandleEnablePush | app.js:728-731 | `push:enable`: `ensureDay(dayKey())` (app.js:681) adds today's record when missing, then push is on when subscribing succeeded; nothing else changes |
| Tracker.App.HandleDisablePush | app.js:732-735 | `push:disable`: `ensureDay(dayKey())` (app.js:681) adds today's record when missing, then push is off; nothing else changes |
| Tracker.App.SortedKeys | app.js:63 | `Object.keys(days).sort()`: the keys in ascending string order |
| Tracker.App.BuildSuggestions | app.js:655-667 | the newest-first suggestion, and "" exactly when no day proposes |
| Tracker.App.SuggestLoop | app.js:658-665 | the loop returns the proposal of the first proposing key, or "" |
| Tracker.App.WakeStats | app.js:61-86 | the streak (at most 14) and the wake minutes of the last seven days |
| Tracker.App.LastWakeTimes | app.js:63-73 | the wake minutes of the seven newest days, oldest first, at most seven |
| Tracker.App.WakeTimesLoop | app.js:66-73 | the loop pushes the wake minute of each key whose "I'm up" is set, in key order |
| Tracker.App.WakeStreak | app.js:76-84 | the capped run of logged days, newest first, at most 14 |
| Tracker.App.StreakLoop | app.js:78-84 | the loop counts the leading logged keys and stops at the first unlogged one or at 14 |
| Tracker.App.CurrentTier | app.js:150-157 | the tier from the streak and the consistency gate |
| Tracker.App.PickWakeMessage | app.js:149-192 | the message of today's key in the current tier's pool |
| Tracker.App.HandleAction | app.js:680-852 | after `ensureDay(dayKey(now))` the action's effect replaces today's record, its requests are appended, and the store stays well formed |
| Tracker.App.ActOnDay | app.js:683-726 | the same, once today's record exists |
| Tracker.App.OnApplySuggestion | app.js:688-700 | the store, requests and toast of "apply suggestion" |
| Tracker.App.ApplyOnDay | app.js:690-699 | the store and toast of placing a given suggestion in today's record |
| Tracker.App.OnToggle | app.js:702-717 | the store, requests and toast of `toggleOutcome:i` |
| Tracker.App.OnEvent | app.js:746-852 | the store, requests and notice of `event:<name>` |
| Tracker.App.OnStamped | app.js:758-852 | the store, requests and notice of an event press once its time is recorded |
| Tracker.App.OnCheckin | app.js:773-803 | the store, requests and toast of "Baby up" and "Nap start" |
| Tracker.App.OnNapEnd | app.js:805-846 | the store, requests and toast of "Nap end" for the prompt's answer |
| Tracker.App.HandleSnoozeFromNotif | app.js:951-983 | after `ensureDay` the snooze's effect replaces today's record and its requests are appended |
| Tracker.App.SnoozeOnDay | app.js:954-982 | the same, once today's record exists |
| Tracker.App.ExportCsv | app.js:871-887 | the CSV text of the rows in ascending key order, or the error of a row that cannot be built |
| Tracker.App.HandleExport | app.js:737-740 | `export`: `ensureDay(dayKey())` (app.js:681) adds today's record when missing, so the CSV built from the store has a row for today |
| Tracker.App.RowsLoop | app.js:873-885 | the loop builds the rows of `keys` in order, and stops with the error at the first row that cannot be built |

## Left out

- The page: rendering, tabs, the ticker, toasts as DOM effects, and the wake modal's layout and dismiss handler. Notices are values the handlers return.
- The wake modal's subtext (streak and `(score*100)|0` percent). Only the message line is modelled.
- The network: the `fetch` calls to the push worker, the service worker, notification permission and the push subscription. Requests are recorded in a log; `EnablePush` takes the outcome of subscribing as a parameter.
- Tracker.App.SchedulePush, Tracker.App.CancelScheduledByTagPrefix, Tracker.App.HandleAction: the request log assumes every `fetch` to the push worker resolves. When one rejects, the source abandons the handler (the remaining requests are not sent), `wireActions` shows "Something went wrong." instead of the handler's toast, and `saveState()` is skipped; that failure path is not modelled.
- `url`, the fixed `title`, and the `actions` payload field. They are constants; `snooze` marks the one request that carries the snooze action.
- Storage: `loadState`, `saveState`, `importData` (the `import` action, which replaces the whole state from a file) and the JSON backup download.
- Tracker.App.EnablePush, Tracker.App.DisablePush: the toasts of the push flows ("Worker URL not set.", "Push permission not granted.", "Push enabled ✅", "Push disabled") are not returned.
- File downloads: the export builds the CSV text only.
- `crypto.randomUUID`: the device id is a constructor parameter.
- `window.prompt`: its answer is the parameter of `Numbers.PromptDelay`. The handlers take the resulting delay.
- `atob`: it is a function parameter of `Base64Url.UrlBase64ToBytes`.
- Time zones: local time is UTC plus a fixed offset, so daylight-saving changes are not modelled.
- The clock: each handler reads it once. In the source, `dayKey()` and `Date.now()` are read again for tags and stamps.
- Tracker.App.HandleAction: requires `now - 4 h` to be a valid date. `toISOString` would throw for an instant outside ±8.64e15 ms, which `Date.now()` never returns.
- Action-string parsing: actions arrive already split at the colon.
- Tracker.App.ActOnDay: requires outcome slots to be 0, 1 or 2, the only ones the page renders. A non-numeric slot would write a property named `NaN`.
- Strings.Lt: compares Unicode code points, while JavaScript's `sort` compares UTF-16 code units. The two orders differ only when a character at or above U+10000 (a surrogate pair) meets one in U+E000 to U+FFFF at the same position; every day key is ASCII.
- Object key order: `Object.keys` is not modelled, only the result of `sort()`. `Tracker.App.SortedKeys` builds it by repeatedly taking the greatest remaining key in code-point order; the engine's own sorting algorithm is not modelled. Keys of JavaScript array-index form (all digits) would come first in `Object.keys`, but `sort` makes that order irrelevant.
- Wake.ConsistencyScore: uses exact rationals, not binary64. Every use compares the score with 0.6, and for whole-minute ranges the two agree (see `Wake.Consistent`).
- Numbers.StringToNumber: yields exact rationals. Only the rounding that `includes` depends on is written out (`Numbers.RoundsTo`), and seeds beyond 2^53 are not rounded.
- The nested `pickWakeMessage` inside `getWakeStats` (app.js:87-133) is never called and is not modelled.
- `handleSnoozeFromNotif` has no caller in the source as read (not executed): sw.js:54 posts a `NOTIF_ACTION` message to the page, but app.js registers no `message` listener, and the handler, unlike the `wireActions` flows, never calls `saveState()`. The model covers the handler as written.
- sw.js is not part of this model: caching and notification handlers over browser APIs.
