/**
  The bot's mutable state and its handlers: the reminder record's columns,
  the `status` and `update_reminder_type` globals and the `line_user` table,
  updated in place as `handle_message`, `handle_postback` and
  `check_reminder` do, each proved against its function in module Reminder.
 */
module CaptainBot {
  import opened Wrappers
  import opened DateText
  import opened Reminder

  /** The registered users with `u` added if it is not there yet. */
  function Registered(users: seq<UserId>, u: UserId): (r: seq<UserId>)
    ensures u in r && (forall v :: v in r <==> v in users || v == u)
  {
    if u in users then users else users + [u]
  }

  /** No user id occurs twice (the `unique=True` column). */
  predicate Distinct(users: seq<UserId>) {
    forall i, j :: 0 <= i < j < |users| ==> users[i] != users[j]
  }

  /** Registration is idempotent and keeps user ids unique. */
  lemma RegisterIdempotent(users: seq<UserId>, u: UserId)
    requires Distinct(users)
    ensures Registered(Registered(users, u), u) == Registered(users, u)
    ensures Distinct(Registered(users, u))
    ensures u in users ==> Registered(users, u) == users
    ensures u !in users ==> Registered(users, u) == users + [u]
  {
  }

  class ReminderBot {
    /** The columns of the reminder record (row id 1). */
    var bravectoDate: Option<int>
    var bravectoStatus: MedStatus
    var heartgardDate: Option<int>
    var heartgardStatus: MedStatus
    /** Whether the reminder record exists yet. */
    var stored: bool
    /** The globals of the module. */
    var status: Status
    var updateReminderType: Option<Med>
    /** The `user_id` column of the `line_user` table, in insertion order. */
    var users: seq<UserId>

    /** The schedules and the conversation, as the functions of module Reminder see them. */
    function Current(): Session
      reads this
    {
      Session(Schedule(bravectoDate, bravectoStatus), Schedule(heartgardDate, heartgardStatus), status, updateReminderType)
    }

    ghost predicate Valid()
      reads this
    {
      && Invariant(Current())
      && (!stored ==> Current().bravecto == Unset && Current().heartgard == Unset)
      && Distinct(users)
    }

    /** The first start of the program on an empty database: no record, no users, status normal and no edit type. */
    constructor ()
      ensures Valid() && !stored && users == [] && Current() == Initial
    {
      bravectoDate, bravectoStatus := None, Pending;
      heartgardDate, heartgardStatus := None, Pending;
      stored := false;
      status := Normal;
      updateReminderType := None;
      users := [];
    }

    /** `get_state`: creates the record with its column defaults if absent; the schedules read the same either way. */
    method GetState()
      requires Valid()
      modifies this
      ensures Valid() && stored
      ensures Current() == old(Current()) && users == old(users)
    {
      if !stored {
        bravectoDate, bravectoStatus := None, Pending;
        heartgardDate, heartgardStatus := None, Pending;
        stored := true;
      }
    }

    /** `register_user`: adds the user id unless it is already registered. */
    method RegisterUser(u: UserId)
      requires Valid()
      modifies this
      ensures Valid()
      ensures users == Registered(old(users), u)
      ensures Current() == old(Current()) && stored == old(stored)
    {
      if u !in users {
        RegisterIdempotent(users, u);
        users := users + [u];
      }
    }

    /** A later start of the program: the globals are reset, the record and the users persist. */
    method Restart()
      requires Valid()
      modifies this
      ensures Valid()
      ensures Current() == OnRestart(old(Current()))
      ensures users == old(users) && stored == old(stored)
    {
      status := Normal;
      updateReminderType := None;
    }

    /** The two `setattr` calls on medication `m`'s columns. */
    method SetSchedule(m: Med, sc: Schedule)
      requires Valid() && (stored || sc == Unset) && (sc.status == Waiting ==> sc.date.Some?)
      modifies this
      ensures Valid()
      ensures Current() == old(Current()).With(m, sc)
      ensures users == old(users) && stored == old(stored)
    {
      if m == Bravecto {
        bravectoDate, bravectoStatus := sc.date, sc.status;
      } else {
        heartgardDate, heartgardStatus := sc.date, sc.status;
      }
    }

    /** `handle_message`: a text message from `user`, received on day `today`. */
    method HandleMessage(user: UserId, text: string, today: int) returns (out: seq<Outbound>, fault: Option<Fault>)
      requires Valid()
      modifies this
      ensures Valid() && stored
      ensures users == Registered(old(users), user)
      ensures Step(Current(), out, fault) == OnText(old(Current()), user, text, today)
    {
      ghost var before := Current();
      var input := Strip(text);
      RegisterUser(user);
      GetState();
      out, fault := [], None;
      if status == Normal {
        if input == QueryCommand {
          out := [Reply(QueryReply(bravectoDate, heartgardDate))];
        } else if input == ResetCommand {
          out := [Push(user, ChooseMedication)];
        } else {
          out := [Reply(ValidCommands)];
        }
      } else if status == CheckResetTime {
        var entry := ParseEntry(input);
        if entry.Malformed? {
          out := [Reply(BadFormat)];
        } else if entry.Impossible? {
          fault := Some(InvalidDate);
        } else if entry.day < today {
          out := [Reply(PastDate)];
        } else if updateReminderType.None? {
          out := [Reply(BackendFault)];
        } else {
          var m := updateReminderType.value;
          SetSchedule(m, Schedule(Some(entry.day), Pending));
          out := [Reply(DateSaved(m, entry.day))];
          status := Normal;
        }
      } else {
        out := [Reply(StatusFault(status))];
      }
      assert Current() == OnText(before, user, text, today).session;
    }

    /** `handle_postback`: a button press from `user`, received on day `today`. */
    method HandlePostback(user: UserId, data: PostbackData, today: int) returns (out: seq<Outbound>, fault: Option<Fault>)
      requires Valid()
      modifies this
      ensures Valid() && stored
      ensures users == Registered(old(users), user)
      ensures Step(Current(), out, fault) == OnPostback(old(Current()), data, today)
    {
      ghost var before := Current();
      RegisterUser(user);
      GetState();
      out, fault := [], None;
      if data.Undecodable? {
        fault := Some(MalformedPayload);
        return;
      }
      var action := data.action;
      var med := MedOfKey(data.kind);
      if med.None? {
        fault := Some(UnknownAttribute);
        return;
      }
      var m := med.value;
      var sc := Current().Get(m);
      if action == Some(UpdateAction) {
        updateReminderType := Some(m);
        status := CheckResetTime;
        out := [Reply(AskForDate)];
      } else if action == Some(DoneAction) {
        if sc.status != Waiting {
          out := [Reply(AlreadyGiven(m))];
          return;
        }
        if sc.date.Some? && sc.date.value > today {
          out := [Reply(AlreadyGiven(m))];
          return;
        }
        var next := NextDose(sc, m, today);
        SetSchedule(m, Schedule(Some(next), Pending));
        out := [Reply(NextReminder(m, next))];
        status := Normal;
      } else if action == Some(DelayAction) {
        if sc.status == Waiting {
          out := [Reply(AlreadyHandled(m))];
          return;
        }
        if sc.date.Some? && sc.date.value > today {
          out := [Reply(AlreadyGiven(m))];
          return;
        }
        var tomorrow := today + 1;
        SetSchedule(m, Schedule(Some(tomorrow), Pending));
        out := [Reply(PostponedTo(m, tomorrow))];
      }
    }

    /** One pass of the outer loop of `check_reminder`: medication `m`, pushed to every user if due. */
    method SweepMedication(m: Med, today: int, unreachable: set<(Med, UserId)>) returns (pushes: seq<Outbound>)
      requires Valid()
      modifies this
      ensures Valid() && stored == old(stored) && users == old(users)
      ensures Current() == old(Current()).With(m, SweepSchedule(old(Current()).Get(m), today, users))
      ensures pushes == Notify(m, old(Current()).Get(m), today, users, unreachable)
    {
      var medDate := Current().Get(m).date;
      var medStatus := Current().Get(m).status;
      pushes := [];
      if medDate.None? || medDate.value != today || medStatus != Pending {
        return;
      }
      var i := 0;
      while i < |users|
        invariant 0 <= i <= |users|
        invariant Valid() && stored == old(stored) && users == old(users)
        invariant pushes == Broadcast(m, users[..i], unreachable)
        invariant Current() == if i == 0 then old(Current()) else old(Current()).With(m, Schedule(medDate, Waiting))
      {
        var usr := users[i];
        if (m, usr) in unreachable {
          pushes := pushes + [FailedPush(usr, DoseDuePrompt(m))];
        } else {
          pushes := pushes + [Push(usr, DoseDuePrompt(m))];
        }
        SetSchedule(m, Schedule(medDate, Waiting));
        assert users[..i + 1][..i] == users[..i];
        i := i + 1;
      }
      assert users[..i] == users;
    }

    /** `check_reminder` on day `today`; the pushes to the users in `unreachable` fail. */
    method CheckReminder(today: int, unreachable: set<(Med, UserId)>) returns (out: seq<Outbound>)
      requires Valid()
      modifies this
      ensures Valid() && stored && users == old(users)
      ensures (Current(), out) == OnSweep(old(Current()), users, unreachable, today)
    {
      GetState();
      ghost var start := Current();
      out := [];
      var meds := Meds;
      for k := 0 to |meds|
        invariant Valid() && stored && users == old(users)
        invariant (Current(), out) == SweepMeds(start, meds[..k], users, unreachable, today)
      {
        var pushes := SweepMedication(meds[k], today, unreachable);
        out := out + pushes;
        assert meds[..k + 1][..k] == meds[..k];
      }
      assert meds[..|meds|] == Meds;
    }
  }

  /** The worked example on the class: a sweep prompts heartgard due today, and postponing it is refused. */
  method HeartgardPrompt(bot: ReminderBot, today: int, u: UserId) returns (out: seq<Outbound>, replies: seq<Outbound>)
    requires bot.Valid() && bot.heartgardDate == Some(today) && bot.heartgardStatus == Pending
    modifies bot
    ensures bot.Valid()
    ensures Push(u, DoseDuePrompt(Heartgard)) in out
    ensures replies == [Reply(AlreadyHandled(Heartgard))]
    ensures bot.heartgardDate == Some(today) && bot.heartgardStatus == Waiting
  {
    bot.RegisterUser(u);
    ghost var before := bot.Current();
    out := bot.CheckReminder(today, {});
    SweepNotifiesDue(before, bot.users, {}, today, Heartgard);
    SweepMarksDue(before, bot.users, {}, today, Heartgard);
    ghost var i :| 0 <= i < |bot.users| && bot.users[i] == u;
    assert PushPrompt(Heartgard, bot.users[i], {}) in out;
    PostponeRefusedAfterPrompt(before, bot.users, {}, today, Heartgard);
    var fault;
    replies, fault := bot.HandlePostback(u, Decoded(Some(DelayAction), Some(Key(Heartgard))), today);
  }
}
