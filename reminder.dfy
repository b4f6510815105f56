/**
  The reminder state machine of the bot as values: the two medication
  schedules, the conversation status and the medication a date edit applies
  to, and one function per event (text message, postback button, daily
  sweep) that gives the next state and what the bot sends.
 */
module Reminder {
  import opened Wrappers
  import opened Calendar
  import opened DateText

  /** A chat platform user id. */
  type UserId = string

  /** The two keys of the `Medicine` table. */
  datatype Med = Bravecto | Heartgard

  /** The key as it appears in postback data and attribute names. */
  function Key(m: Med): string {
    match m
    case Bravecto => "bravecto"
    case Heartgard => "heartgard"
  }

  /**
    The medication whose `<key>_date` attribute exists on the reminder record;
    `None` stands for the `AttributeError` any other key (or a missing one) raises.
   */
  function MedOfKey(key: Option<string>): (r: Option<Med>)
    ensures r.Some? <==> key.Some? && (key.value == Key(Bravecto) || key.value == Key(Heartgard))
    ensures r.Some? ==> key == Some(Key(r.value))
  {
    if key == Some(Key(Bravecto)) then Some(Bravecto)
    else if key == Some(Key(Heartgard)) then Some(Heartgard)
    else None
  }

  /** Days a confirmed dose moves the due date: 90 for bravecto, otherwise 30. */
  function RedoseInterval(m: Med): int {
    if m == Bravecto then 90 else 30
  }

  /** The `<key>_status` column: `'pending'` or `'waiting'`. */
  datatype MedStatus = Pending | Waiting

  /** One medication's `<key>_date` (a day number, or unset) and `<key>_status`. */
  datatype Schedule = Schedule(date: Option<int>, status: MedStatus)

  /** The column defaults of a freshly created reminder record. */
  const Unset: Schedule := Schedule(None, Pending)

  /** The entries of the `Status` table, in its order (codes 0 to 4). */
  datatype Status = Normal | CheckResetTime | NoReminderTime | ResetTime | QueryReminder

  /**
    The state the handlers read and write: the reminder record's two schedules
    and the globals `status` and `update_reminder_type`.
   */
  datatype Session = Session(bravecto: Schedule, heartgard: Schedule, status: Status, editing: Option<Med>)
  {
    /** `getattr(state, f"{m}_date")` and `getattr(state, f"{m}_status")`. */
    function Get(m: Med): Schedule {
      if m == Bravecto then bravecto else heartgard
    }

    /** The two `setattr` calls on medication `m`. */
    function With(m: Med, s: Schedule): (r: Session)
      ensures r.Get(m) == s
      ensures forall n :: n != m ==> r.Get(n) == Get(n)
      ensures r.status == status && r.editing == editing
    {
      if m == Bravecto then this.(bravecto := s) else this.(heartgard := s)
    }
  }

  /** Reminder record with default columns, `status = normal`, `update_reminder_type = None`. */
  const Initial: Session := Session(Unset, Unset, Normal, None)

  /** The messages the bot sends, one constructor per reply text or template. */
  datatype Message =
    | NoReminderSet                              // no date set: asks the user to set one
    | OnlyHeartgardSet(heartgard: int)           // heartgard's date, and that bravecto is unset
    | OnlyBravectoSet(bravecto: int)             // bravecto's date, and that heartgard is unset
    | BothSet(bravecto: int, heartgard: int)     // both dates
    | ChooseMedication                           // buttons: which medication to change
    | ValidCommands                              // the list of valid commands
    | PastDate                                   // the entered date is in the past
    | BackendFault                               // update_reminder_type is None
    | DateSaved(med: Med, day: int)              // the entered date was stored
    | BadFormat                                  // the entered text is not YYYY/MM/DD
    | StatusFault(status: Status)                // the status is neither normal nor check_reset_time
    | AskForDate                                 // asks for a YYYY/MM/DD date
    | AlreadyGiven(med: Med)                     // the dose was already confirmed
    | NextReminder(med: Med, day: int)           // the confirmed dose's next due date
    | AlreadyHandled(med: Med)                   // the reminder was already handled
    | PostponedTo(med: Med, day: int)            // the reminder moved to the next day
    | DoseDuePrompt(med: Med)                    // buttons: confirm the dose, or remind tomorrow

  /** What the bot sends: a reply to the event, or a push to a user that arrives or fails. */
  datatype Outbound =
    | Reply(msg: Message)
    | Push(to: UserId, msg: Message)
    | FailedPush(to: UserId, msg: Message)

  /** The exceptions that escape a handler (the webhook then answers with an error). */
  datatype Fault =
    | InvalidDate        // strptime raises ValueError
    | MalformedPayload   // the postback data is not a JSON object
    | UnknownAttribute   // getattr raises AttributeError for the postback's type

  /** Postback data after `json.loads`: its "action" and "type" string values, or undecodable. */
  datatype PostbackData =
    | Undecodable
    | Decoded(action: Option<string>, kind: Option<string>)

  /** The state after an event, what was sent, and the exception that escaped, if any. */
  datatype Step = Step(session: Session, out: seq<Outbound>, fault: Option<Fault>)

  /** The two text commands of `UserInput`. */
  const ResetCommand: string := "修改提醒時間"
  const QueryCommand: string := "查詢提醒時間"

  const UpdateAction: string := "update_reminder"
  const DoneAction: string := "done_medicine"
  const DelayAction: string := "delay_medicine"

  // ---------------------------------------------------------------------------
  // query_reminder_date

  /** The reply of `query_reminder_date` for the two stored dates. */
  function QueryReply(bravecto: Option<int>, heartgard: Option<int>): Message {
    if bravecto.None? && heartgard.None? then NoReminderSet
    else if bravecto.None? then OnlyHeartgardSet(heartgard.value)
    else if heartgard.None? then OnlyBravectoSet(bravecto.value)
    else BothSet(bravecto.value, heartgard.value)
  }

  /** The dates a query reply shows, unset where it says a medication has none. */
  function DatesShown(m: Message): (Option<int>, Option<int>) {
    match m
    case OnlyHeartgardSet(h) => (None, Some(h))
    case OnlyBravectoSet(b) => (Some(b), None)
    case BothSet(b, h) => (Some(b), Some(h))
    case _ => (None, None)
  }

  predicate IsQueryReply(m: Message) {
    m.NoReminderSet? || m.OnlyHeartgardSet? || m.OnlyBravectoSet? || m.BothSet?
  }

  /**
    The query selects exactly one of the four replies, by which dates are set,
    and the reply shows exactly the stored dates.
   */
  lemma QueryReplyCases(b: Option<int>, h: Option<int>)
    ensures IsQueryReply(QueryReply(b, h))
    ensures QueryReply(b, h).NoReminderSet? <==> b.None? && h.None?
    ensures QueryReply(b, h).OnlyHeartgardSet? <==> b.None? && h.Some?
    ensures QueryReply(b, h).OnlyBravectoSet? <==> b.Some? && h.None?
    ensures QueryReply(b, h).BothSet? <==> b.Some? && h.Some?
    ensures DatesShown(QueryReply(b, h)) == (b, h)
  {
  }

  // ---------------------------------------------------------------------------
  // handle_message

  /** A text in the normal status: one of the two commands, or anything else. */
  function OnCommand(s: Session, user: UserId, input: string): Step {
    if input == QueryCommand then Step(s, [Reply(QueryReply(s.bravecto.date, s.heartgard.date))], None)
    else if input == ResetCommand then Step(s, [Push(user, ChooseMedication)], None)
    else Step(s, [Reply(ValidCommands)], None)
  }

  /** A stripped text in the check_reset_time status, read as a date. */
  function OnDateEntry(s: Session, input: string, today: int): Step {
    match ParseEntry(input)
    case Malformed => Step(s, [Reply(BadFormat)], None)
    case Impossible => Step(s, [], Some(InvalidDate))
    case Parsed(day) =>
      if day < today then Step(s, [Reply(PastDate)], None)
      else if s.editing.None? then Step(s, [Reply(BackendFault)], None)
      else
        var m := s.editing.value;
        Step(s.With(m, Schedule(Some(day), Pending)).(status := Normal), [Reply(DateSaved(m, day))], None)
  }

  /** The effect of a text message `text` from `user` on day `today`. */
  function OnText(s: Session, user: UserId, text: string, today: int): Step {
    var input := Strip(text);
    if s.status == Normal then OnCommand(s, user, input)
    else if s.status == CheckResetTime then OnDateEntry(s, input, today)
    else Step(s, [Reply(StatusFault(s.status))], None)
  }

  /** A text is handled on its stripped form, by the branch of the current status. */
  lemma TextDispatch(s: Session, user: UserId, text: string, today: int)
    ensures s.status == Normal ==> OnText(s, user, text, today) == OnCommand(s, user, Strip(text))
    ensures s.status == CheckResetTime ==> OnText(s, user, text, today) == OnDateEntry(s, Strip(text), today)
    ensures s.status != Normal && s.status != CheckResetTime ==>
      OnText(s, user, text, today) == Step(s, [Reply(StatusFault(s.status))], None)
  {
  }

  /** The conditions under which a stripped text commits a date for the medication being edited. */
  predicate CommitsDate(s: Session, input: string, today: int) {
    s.status == CheckResetTime && s.editing.Some? && MatchesDatePattern(input)
    && IsValid(Fields(input)) && Ordinal(Fields(input)) >= today
  }

  /** A committing date entry stores the date for the medication being edited and returns to normal. */
  lemma DateEntryCommit(s: Session, input: string, today: int)
    requires CommitsDate(s, input, today)
    ensures var r, m, day := OnDateEntry(s, input, today), s.editing.value, Ordinal(Fields(input));
      && r.session == s.With(m, Schedule(Some(day), Pending)).(status := Normal)
      && r.out == [Reply(DateSaved(m, day))] && r.fault.None?
  {
    assert ParseEntry(input) == Parsed(Ordinal(Fields(input)));
  }

  /** Any other date entry leaves the state as it was. */
  lemma DateEntryUnchanged(s: Session, input: string, today: int)
    requires s.status == CheckResetTime && !CommitsDate(s, input, today)
    ensures OnDateEntry(s, input, today).session == s
  {
    var e := ParseEntry(input);
    if e.Parsed? {
      assert IsValid(Fields(input)) && e.day == Ordinal(Fields(input));
    }
  }

  /**
    A text changes the state exactly when it commits a date: then the edited
    medication's date is the parsed date, its status pending, the conversation
    is back to normal and the other medication is untouched.
   */
  lemma DateCommit(s: Session, user: UserId, text: string, today: int)
    ensures OnText(s, user, text, today).session != s <==> CommitsDate(s, Strip(text), today)
    ensures CommitsDate(s, Strip(text), today) ==>
      var r := OnText(s, user, text, today);
      var m, day := s.editing.value, Ordinal(Fields(Strip(text)));
      && r.session.Get(m) == Schedule(Some(day), Pending)
      && r.session.status == Normal && r.session.editing == s.editing
      && (forall n :: n != m ==> r.session.Get(n) == s.Get(n))
      && r.out == [Reply(DateSaved(m, day))] && r.fault.None?
  {
    var input := Strip(text);
    TextDispatch(s, user, text, today);
    if CommitsDate(s, input, today) {
      DateEntryCommit(s, input, today);
    } else if s.status == CheckResetTime {
      DateEntryUnchanged(s, input, today);
    }
  }

  /**
    In check_reset_time, a text that is not YYYY/MM/DD, names an impossible
    date, names a past date, or comes while no medication is being edited,
    changes nothing; only the impossible date raises.
   */
  lemma DateRejection(s: Session, user: UserId, text: string, today: int)
    requires s.status == CheckResetTime
    requires !CommitsDate(s, Strip(text), today)
    ensures OnText(s, user, text, today).session == s
    ensures var input := Strip(text);
      OnText(s, user, text, today).fault.Some? <==> MatchesDatePattern(input) && !IsValid(Fields(input))
    ensures !MatchesDatePattern(Strip(text)) ==> OnText(s, user, text, today).out == [Reply(BadFormat)]
    ensures var input := Strip(text);
      MatchesDatePattern(input) && IsValid(Fields(input)) && Ordinal(Fields(input)) < today
      ==> OnText(s, user, text, today).out == [Reply(PastDate)]
  {
    TextDispatch(s, user, text, today);
    DateEntryUnchanged(s, Strip(text), today);
  }

  /** Text in the normal status never changes the state, whatever it says. */
  lemma NormalTextInert(s: Session, user: UserId, text: string, today: int)
    requires s.status == Normal
    ensures OnText(s, user, text, today).session == s
    ensures OnText(s, user, text, today).fault.None?
    ensures |OnText(s, user, text, today).out| == 1
  {
  }

  // ---------------------------------------------------------------------------
  // handle_postback

  /** The guard of `done_medicine`: the reminder is waiting and its date is not after today. */
  predicate ConfirmAllowed(sc: Schedule, today: int) {
    sc.status == Waiting && !(sc.date.Some? && sc.date.value > today)
  }

  /** The guard of `delay_medicine` as written: the reminder is NOT waiting and its date is not after today. */
  predicate PostponeAllowed(sc: Schedule, today: int) {
    sc.status != Waiting && !(sc.date.Some? && sc.date.value > today)
  }

  /** The date a confirmed dose moves to: the stored date (or today if unset) plus the interval. */
  function NextDose(sc: Schedule, m: Med, today: int): int {
    (if sc.date.Some? then sc.date.value else today) + RedoseInterval(m)
  }

  /** The effect of pressing a postback button on day `today`. */
  function OnPostback(s: Session, data: PostbackData, today: int): Step {
    match data
    case Undecodable => Step(s, [], Some(MalformedPayload))
    case Decoded(action, kind) =>
      var med := MedOfKey(kind);
      if med.None? then Step(s, [], Some(UnknownAttribute))
      else
        var m := med.value;
        var sc := s.Get(m);
        if action == Some(UpdateAction) then
          Step(s.(editing := Some(m), status := CheckResetTime), [Reply(AskForDate)], None)
        else if action == Some(DoneAction) then
          if sc.status != Waiting then Step(s, [Reply(AlreadyGiven(m))], None)
          else if sc.date.Some? && sc.date.value > today then Step(s, [Reply(AlreadyGiven(m))], None)
          else
            var next := NextDose(sc, m, today);
            Step(s.With(m, Schedule(Some(next), Pending)).(status := Normal), [Reply(NextReminder(m, next))], None)
        else if action == Some(DelayAction) then
          if sc.status == Waiting then Step(s, [Reply(AlreadyHandled(m))], None)
          else if sc.date.Some? && sc.date.value > today then Step(s, [Reply(AlreadyGiven(m))], None)
          else Step(s.With(m, Schedule(Some(today + 1), Pending)), [Reply(PostponedTo(m, today + 1))], None)
        else Step(s, [], None)
  }

  /** A postback whose data `json.loads` cannot decode raises before any change and sends nothing. */
  lemma MalformedPayloadFails(s: Session, today: int)
    ensures OnPostback(s, Undecodable, today) == Step(s, [], Some(MalformedPayload))
  {
  }

  /** A postback whose type is not one of the two medications raises before any change. */
  lemma UnknownMedicationFails(s: Session, action: Option<string>, kind: Option<string>, today: int)
    requires MedOfKey(kind).None?
    ensures OnPostback(s, Decoded(action, kind), today) == Step(s, [], Some(UnknownAttribute))
  {
  }

  /** `update_reminder` starts a date edit of the chosen medication and changes nothing else. */
  lemma UpdateStartsEdit(s: Session, m: Med, today: int)
    ensures OnPostback(s, Decoded(Some(UpdateAction), Some(Key(m))), today)
      == Step(s.(editing := Some(m), status := CheckResetTime), [Reply(AskForDate)], None)
  {
  }

  /**
    `done_medicine` commits exactly when the reminder is waiting and not dated
    after today; it then moves the date by the medication's interval, makes the
    reminder pending and the conversation normal. Otherwise nothing changes.
   */
  lemma Confirm(s: Session, m: Med, today: int)
    ensures var r := OnPostback(s, Decoded(Some(DoneAction), Some(Key(m))), today);
      && r.fault.None?
      && (ConfirmAllowed(s.Get(m), today) ==>
            var next := NextDose(s.Get(m), m, today);
            r.session == s.With(m, Schedule(Some(next), Pending)).(status := Normal)
            && r.out == [Reply(NextReminder(m, next))])
      && (!ConfirmAllowed(s.Get(m), today) ==> r.session == s && r.out == [Reply(AlreadyGiven(m))])
  {
  }

  /** Pressing `done_medicine` twice on one day moves the date once; the second press changes nothing. */
  lemma ConfirmTwice(s: Session, m: Med, today: int)
    ensures var press := Decoded(Some(DoneAction), Some(Key(m)));
      var once := OnPostback(s, press, today).session;
      OnPostback(once, press, today).session == once
  {
  }

  /**
    `delay_medicine` as written proceeds exactly when the reminder is not
    waiting and not dated after today; it then dates it tomorrow and makes it
    pending, leaving the conversation status as it was. Otherwise nothing changes.
   */
  lemma Postpone(s: Session, m: Med, today: int)
    ensures var r := OnPostback(s, Decoded(Some(DelayAction), Some(Key(m))), today);
      && r.fault.None?
      && (PostponeAllowed(s.Get(m), today) ==>
            r.session == s.With(m, Schedule(Some(today + 1), Pending))
            && r.out == [Reply(PostponedTo(m, today + 1))])
      && (!PostponeAllowed(s.Get(m), today) ==> r.session == s && |r.out| == 1)
      && (s.Get(m).status == Waiting ==> r.out == [Reply(AlreadyHandled(m))])
  {
  }

  /** Postponing twice on one day postpones once: the new date is after today. */
  lemma PostponeTwice(s: Session, m: Med, today: int)
    ensures var press := Decoded(Some(DelayAction), Some(Key(m)));
      var once := OnPostback(s, press, today).session;
      OnPostback(once, press, today).session == once
  {
  }

  /** Other actions on a known medication do nothing and send nothing. */
  lemma OtherActionIgnored(s: Session, action: Option<string>, m: Med, today: int)
    requires action != Some(UpdateAction) && action != Some(DoneAction) && action != Some(DelayAction)
    ensures OnPostback(s, Decoded(action, Some(Key(m))), today) == Step(s, [], None)
  {
  }

  // ---------------------------------------------------------------------------
  // check_reminder

  /** A medication is due on `today` when it is dated exactly today and pending. */
  predicate IsDue(sc: Schedule, today: int) {
    sc.date == Some(today) && sc.status == Pending
  }

  /** The push (or failed push) of medication `m`'s prompt to user `u`. */
  function PushPrompt(m: Med, u: UserId, unreachable: set<(Med, UserId)>): Outbound {
    if (m, u) in unreachable then FailedPush(u, DoseDuePrompt(m)) else Push(u, DoseDuePrompt(m))
  }

  /** The prompt of `m` sent to each of `users` in turn. */
  function Broadcast(m: Med, users: seq<UserId>, unreachable: set<(Med, UserId)>): seq<Outbound>
    decreases |users|
  {
    if users == [] then []
    else Broadcast(m, users[..|users| - 1], unreachable) + [PushPrompt(m, users[|users| - 1], unreachable)]
  }

  /** Every user is sent the prompt, in order, whether or not the pushes before failed. */
  lemma {:induction false} BroadcastReachesEveryone(m: Med, users: seq<UserId>, unreachable: set<(Med, UserId)>)
    ensures |Broadcast(m, users, unreachable)| == |users|
    ensures forall i :: 0 <= i < |users| ==> Broadcast(m, users, unreachable)[i] == PushPrompt(m, users[i], unreachable)
    decreases |users|
  {
    if users != [] {
      var init := users[..|users| - 1];
      BroadcastReachesEveryone(m, init, unreachable);
      forall i | 0 <= i < |init| ensures users[i] == init[i] { }
    }
  }

  /** What the sweep sends for one medication. */
  function Notify(m: Med, sc: Schedule, today: int, users: seq<UserId>, unreachable: set<(Med, UserId)>): seq<Outbound> {
    if IsDue(sc, today) then Broadcast(m, users, unreachable) else []
  }

  /** What the sweep leaves of one schedule: marked waiting inside the per-user loop, so only if a user exists. */
  function SweepSchedule(sc: Schedule, today: int, users: seq<UserId>): Schedule {
    if IsDue(sc, today) && |users| > 0 then sc.(status := Waiting) else sc
  }

  /** The medications in the order `check_reminder` visits them. */
  const Meds: seq<Med> := [Bravecto, Heartgard]

  /** The sweep over the medications `meds`, in order. */
  function SweepMeds(s: Session, meds: seq<Med>, users: seq<UserId>, unreachable: set<(Med, UserId)>, today: int): (Session, seq<Outbound>)
    decreases |meds|
  {
    if meds == [] then (s, [])
    else
      var (s1, out1) := SweepMeds(s, meds[..|meds| - 1], users, unreachable, today);
      var m := meds[|meds| - 1];
      (s1.With(m, SweepSchedule(s1.Get(m), today, users)), out1 + Notify(m, s1.Get(m), today, users, unreachable))
  }

  /** `check_reminder` on day `today` with the registered `users`. */
  function OnSweep(s: Session, users: seq<UserId>, unreachable: set<(Med, UserId)>, today: int): (Session, seq<Outbound>) {
    SweepMeds(s, Meds, users, unreachable, today)
  }

  /** The sweep, medication by medication. */
  lemma SweepEffect(s: Session, users: seq<UserId>, unreachable: set<(Med, UserId)>, today: int)
    ensures var (s', out) := OnSweep(s, users, unreachable, today);
      && s' == s.(bravecto := SweepSchedule(s.bravecto, today, users), heartgard := SweepSchedule(s.heartgard, today, users))
      && out == Notify(Bravecto, s.bravecto, today, users, unreachable) + Notify(Heartgard, s.heartgard, today, users, unreachable)
  {
    assert Meds[..1] == [Bravecto];
    assert [Bravecto][..0] == [];
  }

  /**
    A medication becomes waiting iff it was due and a user exists; the dates,
    the conversation status and the medication being edited never change.
   */
  lemma SweepMarksDue(s: Session, users: seq<UserId>, unreachable: set<(Med, UserId)>, today: int, m: Med)
    ensures var s' := OnSweep(s, users, unreachable, today).0;
      && s'.Get(m).date == s.Get(m).date
      && (s'.Get(m).status == Waiting <==> s.Get(m).status == Waiting || (IsDue(s.Get(m), today) && |users| > 0))
      && s'.status == s.status && s'.editing == s.editing
  {
    SweepEffect(s, users, unreachable, today);
  }

  /** Each medication's prompt is sent to every user iff it is due today. */
  lemma SweepNotifiesDue(s: Session, users: seq<UserId>, unreachable: set<(Med, UserId)>, today: int, m: Med)
    ensures var out := OnSweep(s, users, unreachable, today).1;
      forall i :: 0 <= i < |users| ==> (PushPrompt(m, users[i], unreachable) in out <==> IsDue(s.Get(m), today))
  {
    SweepEffect(s, users, unreachable, today);
    var out := OnSweep(s, users, unreachable, today).1;
    var b := Notify(Bravecto, s.bravecto, today, users, unreachable);
    var h := Notify(Heartgard, s.heartgard, today, users, unreachable);
    assert out == b + h;
    BroadcastReachesEveryone(Bravecto, users, unreachable);
    BroadcastReachesEveryone(Heartgard, users, unreachable);
    forall i | 0 <= i < |users| ensures PushPrompt(m, users[i], unreachable) in out <==> IsDue(s.Get(m), today) {
      if IsDue(s.Get(m), today) {
        if m == Bravecto {
          assert out[i] == b[i];
        } else {
          assert out[|b| + i] == h[i];
        }
      }
    }
  }

  /** A second sweep on the same day sends nothing and changes nothing. */
  lemma SecondSweepQuiet(s: Session, users: seq<UserId>, unreachable: set<(Med, UserId)>, today: int)
    ensures var once := OnSweep(s, users, unreachable, today).0;
      OnSweep(once, users, unreachable, today) == (once, [])
  {
    SweepEffect(s, users, unreachable, today);
    SweepEffect(OnSweep(s, users, unreachable, today).0, users, unreachable, today);
  }

  /** Right after a sweep has sent a prompt, postponing that medication is refused and changes nothing. */
  lemma PostponeRefusedAfterPrompt(s: Session, users: seq<UserId>, unreachable: set<(Med, UserId)>, today: int, m: Med)
    requires IsDue(s.Get(m), today) && |users| > 0
    ensures var once := OnSweep(s, users, unreachable, today).0;
      OnPostback(once, Decoded(Some(DelayAction), Some(Key(m))), today) == Step(once, [Reply(AlreadyHandled(m))], None)
  {
    SweepEffect(s, users, unreachable, today);
  }

  // ---------------------------------------------------------------------------
  // The conversation invariant

  /**
    The status is only ever normal or check_reset_time, a date edit always
    knows its medication, and a waiting reminder always has a date.
   */
  predicate Invariant(s: Session) {
    && (s.status == Normal || s.status == CheckResetTime)
    && (s.status == CheckResetTime ==> s.editing.Some?)
    && (s.bravecto.status == Waiting ==> s.bravecto.date.Some?)
    && (s.heartgard.status == Waiting ==> s.heartgard.date.Some?)
  }

  lemma InitialInvariant()
    ensures Invariant(Initial)
  {
  }

  /**
    A process start re-runs the module's global assignments while the database
    keeps the reminder record: the conversation goes back to normal with no
    medication being edited, and the schedules stay as stored.
   */
  function OnRestart(s: Session): Session {
    s.(status := Normal, editing := None)
  }

  /** A restart keeps the invariant and both schedules, and abandons any date edit in progress. */
  lemma RestartKeepsSchedules(s: Session)
    requires Invariant(s)
    ensures var r := OnRestart(s);
      && Invariant(r) && r.status == Normal && r.editing.None?
      && (forall m :: r.Get(m) == s.Get(m))
      && (s.status == CheckResetTime ==> r != s)
  {
  }

  /** No message is the "status error" or the missing edit type reply. */
  predicate NoErrorReply(out: seq<Outbound>) {
    forall o :: o in out ==> !o.msg.StatusFault? && o.msg != BackendFault
  }

  /** A date entry keeps the invariant and, with it, never sends the missing edit type reply. */
  lemma DateEntryKeepsInvariant(s: Session, input: string, today: int)
    requires Invariant(s) && s.status == CheckResetTime
    ensures Invariant(OnDateEntry(s, input, today).session)
    ensures NoErrorReply(OnDateEntry(s, input, today).out)
  {
    match ParseEntry(input)
    case Malformed =>
    case Impossible =>
    case Parsed(day) =>
      assert s.editing.Some?;
  }

  /** Texts keep the invariant. */
  lemma TextKeepsInvariant(s: Session, user: UserId, text: string, today: int)
    requires Invariant(s)
    ensures Invariant(OnText(s, user, text, today).session)
  {
    if s.status == CheckResetTime {
      DateEntryKeepsInvariant(s, Strip(text), today);
    }
  }

  /** A command never answers with an error reply. */
  lemma CommandNeverFaultReply(s: Session, user: UserId, input: string)
    ensures NoErrorReply(OnCommand(s, user, input).out)
  {
    QueryReplyCases(s.bravecto.date, s.heartgard.date);
  }

  /** Under the invariant the "status error" and the missing edit type replies are never sent. */
  lemma TextNeverFaultReply(s: Session, user: UserId, text: string, today: int)
    requires Invariant(s)
    ensures NoErrorReply(OnText(s, user, text, today).out)
  {
    TextDispatch(s, user, text, today);
    if s.status == CheckResetTime {
      DateEntryKeepsInvariant(s, Strip(text), today);
    } else if s.status == Normal {
      CommandNeverFaultReply(s, user, Strip(text));
    }
  }

  lemma PostbackKeepsInvariant(s: Session, data: PostbackData, today: int)
    requires Invariant(s)
    ensures Invariant(OnPostback(s, data, today).session)
  {
  }

  lemma SweepKeepsInvariant(s: Session, users: seq<UserId>, unreachable: set<(Med, UserId)>, today: int)
    requires Invariant(s)
    ensures Invariant(OnSweep(s, users, unreachable, today).0)
  {
    SweepEffect(s, users, unreachable, today);
  }

  /**
    A text never enters check_reset_time, and it leaves check_reset_time only
    by committing a date, which returns the conversation to normal.
   */
  lemma TextStatusTransitions(s: Session, user: UserId, text: string, today: int)
    ensures var r := OnText(s, user, text, today).session;
      && (r.status == CheckResetTime ==> s.status == CheckResetTime)
      && (r.status != s.status ==> CommitsDate(s, Strip(text), today) && r.status == Normal)
  {
    DateCommit(s, user, text, today);
  }

  /**
    A button press changes the conversation status only by `update_reminder`
    on a known medication, which enters check_reset_time and names that
    medication, or by a committed `done_medicine`, which returns to normal.
   */
  lemma PostbackStatusTransitions(s: Session, data: PostbackData, today: int)
    ensures var r := OnPostback(s, data, today).session;
      r.status != s.status ==>
        && data.Decoded? && MedOfKey(data.kind).Some?
        && ((data.action == Some(UpdateAction) && r.status == CheckResetTime && r.editing == MedOfKey(data.kind))
            || (data.action == Some(DoneAction) && r.status == Normal && ConfirmAllowed(s.Get(MedOfKey(data.kind).value), today)))
  {
    if data.Decoded? && MedOfKey(data.kind).Some? {
      var m := MedOfKey(data.kind).value;
      if data.action == Some(DoneAction) {
        Confirm(s, m, today);
      } else if data.action == Some(DelayAction) {
        Postpone(s, m, today);
      }
    }
  }

  /**
    The worked example: bravecto due 2025/06/01 is prompted by that day's
    sweep, and confirming it moves it to 2025/08/30 and makes it pending.
   */
  lemma BravectoScenario(s: Session, users: seq<UserId>, unreachable: set<(Med, UserId)>)
    requires s.bravecto == Schedule(Some(Ordinal(Ymd(2025, 6, 1))), Pending) && |users| > 0
    ensures var today := Ordinal(Ymd(2025, 6, 1));
      var (swept, out) := OnSweep(s, users, unreachable, today);
      var done := OnPostback(swept, Decoded(Some(DoneAction), Some(Key(Bravecto))), today).session;
      && swept.bravecto.status == Waiting
      && PushPrompt(Bravecto, users[0], unreachable) in out
      && done.bravecto == Schedule(Some(Ordinal(Ymd(2025, 8, 30))), Pending)
  {
    var today := Ordinal(Ymd(2025, 6, 1));
    SweepEffect(s, users, unreachable, today);
    BroadcastReachesEveryone(Bravecto, users, unreachable);
  }

  /**
    The postpone example as the code behaves: heartgard due 2025/06/01 and
    still pending is moved to 2025/06/02 by `delay_medicine` that day, but once
    the day's sweep has prompted a user the same button is refused.
   */
  lemma HeartgardScenario(s: Session, users: seq<UserId>, unreachable: set<(Med, UserId)>)
    requires s.heartgard == Schedule(Some(Ordinal(Ymd(2025, 6, 1))), Pending) && |users| > 0
    ensures var today := Ordinal(Ymd(2025, 6, 1));
      var press := Decoded(Some(DelayAction), Some(Key(Heartgard)));
      var swept := OnSweep(s, users, unreachable, today).0;
      && OnPostback(s, press, today).session.heartgard == Schedule(Some(Ordinal(Ymd(2025, 6, 2))), Pending)
      && OnPostback(swept, press, today).session == swept
  {
    var today := Ordinal(Ymd(2025, 6, 1));
    PostponeRefusedAfterPrompt(s, users, unreachable, today, Heartgard);
  }

  /** The text "2025/06/01" is already stripped and names that day, so it meets the text requirement below. */
  lemma FirstOfJuneText()
    ensures Strip("2025/06/01") == "2025/06/01"
    ensures ParseEntry("2025/06/01") == Parsed(Ordinal(Ymd(2025, 6, 1)))
  {
    var text := "2025/06/01";
    assert Format(Ymd(2025, 6, 1)) == text;
    ParseEntryOfFormat(Ymd(2025, 6, 1));
    assert TrimStart(text) == text;
    assert TrimEnd(text) == text;
  }

  /**
    The refusal lasts only while the reminder is waiting: after the sweep has
    prompted for a medication due today, `update_reminder` followed by a text
    naming today makes it pending again, and the old prompt's "remind
    tomorrow" button then moves it to tomorrow.
   */
  lemma PromptReopenedByEdit(s: Session, users: seq<UserId>, unreachable: set<(Med, UserId)>, user: UserId, text: string, today: int, m: Med)
    requires IsDue(s.Get(m), today) && |users| > 0
    requires ParseEntry(Strip(text)) == Parsed(today)
    ensures var swept := OnSweep(s, users, unreachable, today).0;
      var editing := OnPostback(swept, Decoded(Some(UpdateAction), Some(Key(m))), today).session;
      var entered := OnText(editing, user, text, today).session;
      && swept.Get(m).status == Waiting
      && entered.Get(m) == Schedule(Some(today), Pending)
      && OnPostback(entered, Decoded(Some(DelayAction), Some(Key(m))), today).session.Get(m) == Schedule(Some(today + 1), Pending)
  {
    SweepMarksDue(s, users, unreachable, today, m);
    var swept := OnSweep(s, users, unreachable, today).0;
    UpdateStartsEdit(swept, m, today);
    var editing := OnPostback(swept, Decoded(Some(UpdateAction), Some(Key(m))), today).session;
    assert editing == swept.(editing := Some(m), status := CheckResetTime);
    var input := Strip(text);
    TextDispatch(editing, user, text, today);
    assert CommitsDate(editing, input, today);
    DateEntryCommit(editing, input, today);
    var entered := OnText(editing, user, text, today).session;
    assert entered.Get(m) == Schedule(Some(today), Pending);
    Postpone(entered, m, today);
  }
}
