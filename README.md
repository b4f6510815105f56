# Captain medication reminder bot, modelled in Dafny

This project models the core of `captain_chat_bot.py`. That file runs a chat bot that reminds a dog's
owners to give two medications, bravecto and heartgard. The model covers:

- the reminder record: per medication, an optional due date and a status `'pending'` or `'waiting'`,
  created lazily by `get_state`;
- the set of registered users;
- the two globals: the conversation `status` and `update_reminder_type`;
- the three event handlers: text messages, postback buttons and the daily sweep `check_reminder`.

Files:

- `calendar.dfy` (module `Calendar`): the proleptic Gregorian calendar of Python's `datetime.date`,
  and its day ordinal (`date.toordinal()`). Every date in the model is a day number.
  `OrdinalOrder` proves that comparing day numbers is comparing calendar dates.
- `date_text.dfy` (module `DateText`): `str.strip()` (Python's full `isspace` set), the
  `^\d{4}/\d{2}/\d{2}$` pattern, `strptime(..., "%Y/%m/%d")` with its `ValueError` on impossible
  dates, and the `YYYY/MM/DD` rendering, with round trips in both directions.
- `reminder.dfy` (module `Reminder`): the state machine as values. A `Session` holds the two
  schedules, the conversation status and the medication being edited. `OnText`, `OnPostback` and
  `OnSweep` each give the next session, the outbound messages and the exception that escapes, if any.
  The properties of the bot are lemmas about these functions.
- `bot.dfy` (module `CaptainBot`): class `ReminderBot`, whose fields are the record's columns, the
  two globals and the user table. Its methods update those fields in place the way the handlers do.
  Each method's `ensures` ties the new fields and its outputs to the matching function in `Reminder`.
  `CheckReminder` keeps the source's two nested loops: medications outside, users inside.

Environment as parameters:

- The current day, `datetime.now().date()`, is the parameter `today`.
- Outbound replies and pushes are returned as a sequence of `Outbound` values.
- Which pushes fail during the sweep is the parameter `unreachable`, a set of (medication, user) pairs, since each push has its own `try`. A failed push is logged as `FailedPush`.
- The Chinese reply texts are the constructors of `Message`. Each one carries the dates and the
  medication that its text shows.

The model follows the code where it behaves in ways a reader might not expect:

- Postpone guard. `delay_medicine` proceeds only when the reminder is NOT waiting
  (`captain_chat_bot.py:265`). `done_medicine` proceeds only when it IS waiting (line 240). So
  `PostponeRefusedAfterPrompt` proves that pressing "remind tomorrow" right after the sweep sent
  its prompt is refused. `Postpone` shows that it stays refused for as long as the reminder is
  waiting, and when it does act. A date set again through `update_reminder` makes the reminder
  pending, and the old prompt's button then works again (`PromptReopenedByEdit`).
- Sweep with no users. The sweep marks a reminder waiting inside the per-user loop. With no
  registered users, nothing flips (`SweepMarksDue`).
- Impossible dates. A pattern-matching but impossible date, such as `2025/02/30` or year `0000`,
  makes `strptime` raise. The model returns the fault `InvalidDate`, with no reply and no change.
- Stale confirmation. A confirmation moves the stored date by 90 or 30 days, not today's date. A dose
  confirmed long after its due date can therefore still be due in the past.

The class invariant `Valid()` holds `Reminder.Invariant`: the status is normal or check_reset_time,
an edit always knows its medication, and a waiting reminder always has a date. The lemmas prove
that every handler keeps it. So the "status error" branch (line 160) and the
`update_reminder_type is None` branch (lines 148-151) are modelled but never run.

## Model

| member | source | states |
|---|---|---|
| `Calendar.IsValid` | captain_chat_bot.py:144 | the dates `strptime` accepts; specified by `Calendar.OrdinalOrder` and `DateText.ParseEntryMeaning` |
| `Calendar.Ordinal` | captain_chat_bot.py:144-145 | `date.toordinal()`, used for the past-date comparison; specified by `Calendar.OrdinalOrder` and `Calendar.OrdinalInYear` |
| `Calendar.OrdinalOrder` | captain_chat_bot.py:144-145 | for valid dates, day numbers compare exactly as the calendar dates do, and are equal only for equal dates, so the past-date test on day numbers is `new_date.date() < today` |
| `Calendar.DaysBeforeYearStep` | captain_chat_bot.py:144 | the day count before year y+1 is the count before y plus 365 or 366 by the Gregorian leap rule |
| `Calendar.DaysBeforeYearGrows` | captain_chat_bot.py:145 | later years start after earlier years end |
| `Calendar.OrdinalInYear` | captain_chat_bot.py:144 | the day number of a valid date lies inside its year's range |
| `Calendar.OrdinalIncreasing` | captain_chat_bot.py:145 | a date earlier in the calendar has a smaller day number |
| `DateText.Strip` | captain_chat_bot.py:120 | `str.strip()`; specified by `DateText.StripShape` and `DateText.StripIdempotent` |
| `DateText.MatchesDatePattern` | captain_chat_bot.py:142 | the `^\d{4}/\d{2}/\d{2}$` match; specified by `DateText.FormatOfFields` and `DateText.FieldsOfFormat` |
| `DateText.TrimStartShape` | captain_chat_bot.py:120 | trimming the start drops exactly the leading white space: the result is a suffix, all dropped characters are white space, and it does not start with white space |
| `DateText.TrimEndShape` | captain_chat_bot.py:120 | trimming the end drops exactly the trailing white space in the same sense |
| `DateText.TrimmedPiece` | captain_chat_bot.py:120 | a suffix trimmed of leading white space and then a prefix of it trimmed of trailing white space together form one piece of the text with only white space around it |
| `DateText.StripShape` | captain_chat_bot.py:120 | `strip()` keeps one contiguous piece of the text, drops only white space around it, and the piece neither starts nor ends with white space |
| `DateText.StripIdempotent` | captain_chat_bot.py:120 | stripping twice is stripping once |
| `DateText.ParseEntryMeaning` | captain_chat_bot.py:142-144 | a text is a format error exactly when the pattern does not match; it reads as a date exactly when it is the `YYYY/MM/DD` text of some valid date, and then yields that date's day number |
| `DateText.FieldsOfFormat` | captain_chat_bot.py:155 | the `YYYY/MM/DD` text of any date with fields in range matches the pattern and reads back to the same fields |
| `DateText.FormatOfFields` | captain_chat_bot.py:142 | every text the pattern accepts is the rendering of its own fields |
| `DateText.YearSplit` | captain_chat_bot.py:155 | a year of at most four digits is the sum of its four rendered digits times their place values |
| `DateText.ParseEntryOfFormat` | captain_chat_bot.py:142-144 | the text of a valid date is accepted and yields that date's day number |
| `DateText.DigitChar` | captain_chat_bot.py:155 | renders a digit 0-9 as the ASCII digit of that value |
| `Reminder.MedOfKey` | captain_chat_bot.py:229 | a postback type names a medication exactly when it is `"bravecto"` or `"heartgard"`; any other type raises at the attribute lookup |
| `Reminder.Session.With` | captain_chat_bot.py:152-153 | setting one medication's columns changes that medication only, and leaves the conversation as it was |
| `Reminder.QueryReply` | captain_chat_bot.py:163-183 | `query_reminder_date`'s reply; specified by `Reminder.QueryReplyCases` |
| `Reminder.QueryReplyCases` | captain_chat_bot.py:163-183 | the query picks exactly one of the four replies by which dates are set (none, only heartgard, only bravecto, both), and the reply shows exactly the stored dates |
| `Reminder.OnText` | captain_chat_bot.py:117-160 | `handle_message` on the session; specified by `Reminder.DateCommit`, `Reminder.DateRejection`, `Reminder.NormalTextInert`, `Reminder.TextKeepsInvariant` and `Reminder.TextNeverFaultReply` |
| `Reminder.OnCommand` | captain_chat_bot.py:124-140 | the normal-status branch; specified by `Reminder.NormalTextInert` and `Reminder.CommandNeverFaultReply` |
| `Reminder.OnDateEntry` | captain_chat_bot.py:141-158 | the check_reset_time branch; specified by `Reminder.DateEntryCommit`, `Reminder.DateEntryUnchanged` and `Reminder.DateEntryKeepsInvariant` |
| `Reminder.DateEntryCommit` | captain_chat_bot.py:141-156 | a committing date entry stores the parsed date and pending for the medication being edited, returns to normal and replies with the saved date |
| `Reminder.DateEntryUnchanged` | captain_chat_bot.py:141-158 | any other date entry leaves the state as it was |
| `Reminder.DateCommit` | captain_chat_bot.py:141-156 | a text changes the state exactly when the status is check_reset_time, a medication is being edited, and the stripped text matches the pattern, is a valid date and is not before today; the commit sets that medication's date and status pending, returns to normal and leaves the other medication untouched |
| `Reminder.DateRejection` | captain_chat_bot.py:142-158 | in check_reset_time any other text changes nothing: a format mismatch replies format error, a past date replies past date, and only an impossible date raises |
| `Reminder.NormalTextInert` | captain_chat_bot.py:124-140 | text in the normal status never changes the state, raises nothing and sends one message |
| `Reminder.OnPostback` | captain_chat_bot.py:219-284 | `handle_postback` on the session; specified by `Reminder.UnknownMedicationFails`, `Reminder.UpdateStartsEdit`, `Reminder.Confirm`, `Reminder.Postpone`, `Reminder.OtherActionIgnored` and `Reminder.PostbackKeepsInvariant` |
| `Reminder.MalformedPayloadFails` | captain_chat_bot.py:225 | a postback whose data cannot be decoded raises before any change and sends nothing |
| `Reminder.UnknownMedicationFails` | captain_chat_bot.py:225-229 | a postback whose type is not a medication raises before any change and sends nothing |
| `Reminder.UpdateStartsEdit` | captain_chat_bot.py:231-236 | `update_reminder` records the medication, enters check_reset_time and asks for a date, changing nothing else |
| `Reminder.Confirm` | captain_chat_bot.py:238-262 | `done_medicine` commits exactly when the reminder is waiting and not dated after today; it moves the date by 90 days (bravecto) or 30 days (heartgard) from the stored date, makes it pending and returns to normal; otherwise it changes nothing and answers "already done" |
| `Reminder.ConfirmTwice` | captain_chat_bot.py:238-250 | pressing `done_medicine` twice on one day advances the date once |
| `Reminder.Postpone` | captain_chat_bot.py:264-284 | `delay_medicine` proceeds exactly when the reminder is not waiting and not dated after today; it dates it tomorrow and pending and keeps the conversation status; otherwise nothing changes, and a waiting reminder is answered "already handled" |
| `Reminder.PostponeTwice` | captain_chat_bot.py:271-281 | postponing twice on one day postpones once |
| `Reminder.OtherActionIgnored` | captain_chat_bot.py:231-264 | any other action on a known medication does nothing and sends nothing |
| `Reminder.Broadcast` | captain_chat_bot.py:208-212 | the inner loop over the users; specified by `Reminder.BroadcastReachesEveryone` |
| `Reminder.Notify` | captain_chat_bot.py:194-212 | what the sweep sends for one medication; specified by `Reminder.SweepNotifiesDue` |
| `Reminder.SweepSchedule` | captain_chat_bot.py:194-215 | what the sweep leaves of one schedule; specified by `Reminder.SweepMarksDue` |
| `Reminder.SweepMeds` | captain_chat_bot.py:190-215 | the outer loop over the medications; specified by `Reminder.SweepEffect` |
| `Reminder.OnSweep` | captain_chat_bot.py:186-216 | `check_reminder` on the session; specified by `Reminder.SweepEffect`, `Reminder.SweepMarksDue`, `Reminder.SweepNotifiesDue` and `Reminder.SecondSweepQuiet` |
| `Reminder.BroadcastReachesEveryone` | captain_chat_bot.py:208-212 | every registered user is sent the prompt, in order, whether or not the pushes before it failed |
| `Reminder.SweepEffect` | captain_chat_bot.py:186-216 | the sweep handles bravecto then heartgard, each independently of the other |
| `Reminder.SweepMarksDue` | captain_chat_bot.py:190-215 | a medication becomes waiting iff it was waiting or was due and a user exists; dates, the status and the medication being edited are untouched |
| `Reminder.SweepNotifiesDue` | captain_chat_bot.py:190-212 | a medication's prompt is pushed to every user iff it is dated exactly today and pending |
| `Reminder.SecondSweepQuiet` | captain_chat_bot.py:194-195 | a second sweep on the same day sends nothing and changes nothing |
| `Reminder.PostponeRefusedAfterPrompt` | captain_chat_bot.py:264-269 | on the state the sweep leaves after prompting for a medication, postponing it is refused with no change |
| `Reminder.PromptReopenedByEdit` | captain_chat_bot.py:231-281 | after a prompting sweep, `update_reminder` and a text naming today make the reminder pending with today's date, and the old prompt's "remind tomorrow" then dates it tomorrow: the refusal lasts only while the reminder is waiting |
| `Reminder.FirstOfJuneText` | captain_chat_bot.py:120-144 | the text "2025/06/01" is unchanged by `strip()` and reads as the day number of 2025-06-01 |
| `Reminder.InitialInvariant` | captain_chat_bot.py:59-73 | the start state keeps the conversation invariant |
| `Reminder.DateEntryKeepsInvariant` | captain_chat_bot.py:141-158 | under the invariant a date entry keeps it and never sends the status-error or missing-type reply |
| `Reminder.CommandNeverFaultReply` | captain_chat_bot.py:124-140 | a command in the normal status never sends the status-error or missing-type reply |
| `Reminder.TextKeepsInvariant` | captain_chat_bot.py:117-160 | text messages keep the invariant |
| `Reminder.TextNeverFaultReply` | captain_chat_bot.py:145-160 | under the invariant the "update_reminder_type is None" and "status error" branches are never taken |
| `Reminder.OnRestart` | captain_chat_bot.py:72-73 | a later process start resets the two globals while the record persists; specified by `Reminder.RestartKeepsSchedules` |
| `Reminder.RestartKeepsSchedules` | captain_chat_bot.py:72-73 | a restart keeps the invariant and both schedules, returns to normal with no medication being edited, and so abandons a date edit in progress |
| `Reminder.PostbackKeepsInvariant` | captain_chat_bot.py:219-284 | button presses keep the invariant |
| `Reminder.SweepKeepsInvariant` | captain_chat_bot.py:186-216 | the sweep keeps the invariant |
| `Reminder.TextStatusTransitions` | captain_chat_bot.py:141-160 | a text never enters check_reset_time, and changes the status only by committing a date, which returns to normal |
| `Reminder.PostbackStatusTransitions` | captain_chat_bot.py:231-262 | a button press changes the status only by `update_reminder` on a known medication, entering check_reset_time with that medication being edited, or by a committed `done_medicine`, returning to normal |
| `Reminder.BravectoScenario` | captain_chat_bot.py:253-256 | bravecto due 2025/06/01 is prompted by that day's sweep, and confirming moves it to 2025/08/30 and pending |
| `Reminder.HeartgardScenario` | captain_chat_bot.py:264-281 | pending heartgard due 2025/06/01 is postponed to 2025/06/02, but after that day's sweep the same press is refused |
| `CaptainBot.Registered` | captain_chat_bot.py:85-88 | the registered users after adding `u`: `u` is present and no other user is added or lost |
| `CaptainBot.RegisterIdempotent` | captain_chat_bot.py:86-87 | registering is idempotent and keeps user ids unique |
| `CaptainBot.ReminderBot.constructor` | captain_chat_bot.py:72-73 | the first start on an empty database: there is no record and no user, the status is normal and no medication is being edited |
| `CaptainBot.ReminderBot.Restart` | captain_chat_bot.py:72-73 | a later start: the globals become normal and None, the record and the users stay as stored, and the class invariant is kept |
| `CaptainBot.ReminderBot.GetState` | captain_chat_bot.py:77-83 | afterwards the record exists; if it was absent it has both dates unset and both statuses pending, so the schedules read the same |
| `CaptainBot.ReminderBot.RegisterUser` | captain_chat_bot.py:85-88 | the user table becomes `Registered(old users, u)`; nothing else changes |
| `CaptainBot.ReminderBot.SetSchedule` | captain_chat_bot.py:152-153 | the two `setattr` calls on one medication's columns; the new session is the old one with that schedule replaced, and the class invariant is kept |
| `CaptainBot.ReminderBot.HandleMessage` | captain_chat_bot.py:117-160 | registers the sender, ensures the record exists, and leaves exactly the state, replies and fault that `OnText` gives |
| `CaptainBot.ReminderBot.HandlePostback` | captain_chat_bot.py:219-284 | registers the sender, ensures the record exists, and leaves exactly the state, replies and fault that `OnPostback` gives |
| `CaptainBot.ReminderBot.SweepMedication` | captain_chat_bot.py:190-215 | one pass of the outer loop: pushes the prompt to each user in turn and marks the medication waiting inside the user loop |
| `CaptainBot.HeartgardPrompt` | captain_chat_bot.py:190-269 | on the class: heartgard due today is pushed to a registered user by the sweep, becomes waiting, and the "remind tomorrow" press is then refused with the date kept |
| `CaptainBot.ReminderBot.CheckReminder` | captain_chat_bot.py:186-216 | the new schedules and the pushes are exactly those of `OnSweep`; users and conversation are unchanged |

## Left out

- Flask routes, the `/callback` signature check and `InvalidSignatureError` (lines 91-109): HTTP transport.
- `handle_join` (lines 112-115): the join-event handler is not part of this model. Its
  `register_user` call is `RegisterUser`.
- LINE API calls and template construction: these are foreign library code. Replies and pushes are
  `Outbound` values, and the exact reply strings are `Message` constructors.
- A failing `reply_message`, or a failing `push_message` of the medication-choice buttons (line 138):
  these raise out of the handler. The model assumes they succeed. Only the sweep's pushes can fail,
  because only those are caught.
- SQLAlchemy sessions and commits, the MySQL configuration, `.env` loading and the start-up
  `ValueError` (lines 37-56): persistence and configuration.
- Wall-clock time: `datetime.now()` becomes the single day number `today`, and the time of day is
  dropped. Every comparison in the source uses `.date()`. Two `now()` reads in one handler that
  straddle midnight are not modelled.
- The insertion order of users: `LineUser.query.all()` is modelled as returning users in insertion
  order, although the query sets no ordering.
- `json.loads`: a postback arrives already decoded into its "action" and "type" strings. Undecodable
  or non-object data is the `MalformedPayload` fault.
- Unicode digits: `\d` is modelled as ASCII digits only. Python also matches other Unicode decimal
  digits.
- Dates past year 9999: `timedelta` arithmetic that overflows (`OverflowError`) is not modelled.
  Day numbers are unbounded integers.
- Concurrency between webhook workers, and logging.
