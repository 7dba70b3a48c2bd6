/**
 * The reminder scan of `verificar_recordatorios`: for every stored event,
 * the moment it is due, and what one pass over the stored events sends and
 * deletes. Time is the minute count of `DateTime`.
 */
module Reminders {
  import opened Options
  import opened PyText
  import opened DateTime
  import opened Records
  import opened Replies
  import opened Seqs

  /**
   * `moment - timedelta(days, hours)` as a minute; `None` when there is no
   * moment, or when the subtraction leaves the range of `datetime`
   * (`OverflowError`; a `timedelta` too large to build lands outside that
   * range as well).
   */
  function DueFrom(moment: Option<int>, days: int, hours: int): (r: Option<int>)
    ensures r.Some? <==> moment.Some? && 0 <= moment.value - 60 * (24 * days + hours) <= MaxMinute
    ensures r.Some? ==> r.value == moment.value - 60 * (24 * days + hours)
  {
    match moment
    case None => None
    case Some(m) =>
      var due := m - 60 * (24 * days + hours);
      if 0 <= due <= MaxMinute then Some(due) else None
  }

  /**
   * `strptime(date + " " + time) - timedelta(days, hours)`, as a minute;
   * `None` when `strptime` raises `ValueError` or the subtraction overflows.
   */
  function DueAt(e: Event): (r: Option<int>)
    ensures r.Some? ==> 0 <= r.value <= MaxMinute
    ensures r.Some? ==> ParseMoment(e.date, e.time).Some?
    ensures r.Some? ==> r.value == ParseMoment(e.date, e.time).value - 60 * (24 * e.remindDays + e.remindHours)
  {
    DueFrom(ParseMoment(e.date, e.time), e.remindDays, e.remindHours)
  }

  /** The reminder sent to the event's phone. */
  function Reminder(e: Event): (m: Message)
    ensures m.to == e.phone && m.body == ReminderText(e)
  {
    Message(e.phone, ReminderText(e))
  }

  // The pass is stated for any rule `due` giving an event's due moment; the
  // bot's rule is `DueAt`.

  /** `ahora >= recordatorio`; `now` is the current time truncated to the minute. */
  predicate IsDue(due: Event -> Option<int>, e: Event, now: int) {
    due(e).Some? && now >= due(e).value
  }

  /**
   * The result of a pass: the events left in the store, the reminders sent
   * in order, and whether the pass stopped on an event it could not work out.
   */
  datatype Outcome = Outcome(kept: seq<Event>, sent: seq<Message>, aborted: bool)

  /**
   * The pass after one more event: a due event is reminded and deleted; the
   * first event without a due moment raises, so it and all later events
   * stay untouched.
   */
  function Step(due: Event -> Option<int>, o: Outcome, e: Event, now: int): Outcome {
    if o.aborted then Outcome(o.kept + [e], o.sent, true)
    else if due(e).None? then Outcome(o.kept + [e], o.sent, true)
    else if IsDue(due, e, now) then Outcome(o.kept, o.sent + [Reminder(e)], false)
    else Outcome(o.kept + [e], o.sent, false)
  }

  /** One pass over the events in store order. */
  function Scan(due: Event -> Option<int>, evs: seq<Event>, now: int): Outcome
    decreases |evs|
  {
    if evs == [] then Outcome([], [], false)
    else Step(due, Scan(due, evs[..|evs| - 1], now), evs[|evs| - 1], now)
  }

  /** One more event read by a pass still running. */
  lemma ScanRunningStep(due: Event -> Option<int>, evs: seq<Event>, i: nat, now: int)
    requires i < |evs| && !Scan(due, evs[..i], now).aborted
    ensures var o := Scan(due, evs[..i], now);
      Scan(due, evs[..i + 1], now) == Outcome(
        if IsDue(due, evs[i], now) then o.kept else o.kept + [evs[i]],
        o.sent + (if IsDue(due, evs[i], now) then [Reminder(evs[i])] else []),
        due(evs[i]).None?)
  {
    assert evs[..i + 1][..i] == evs[..i];
  }

  /** A pass that has read `i` events, and has either stopped or read all, is done. */
  lemma ScanResumes(due: Event -> Option<int>, evs: seq<Event>, i: nat, now: int)
    requires i <= |evs| && (i == |evs| || Scan(due, evs[..i], now).aborted)
    ensures var o := Scan(due, evs[..i], now);
      Scan(due, evs, now) == Outcome(o.kept + evs[i..], o.sent, o.aborted)
  {
    if i == |evs| {
      assert evs[..i] == evs;
      assert evs[i..] == [];
    } else {
      ScanAfterAbort(due, evs[..i], evs[i..], now);
      assert evs[..i] + evs[i..] == evs;
    }
  }

  // ---------------------------------------------------------------------
  // Reference definitions: the events not yet due, the reminders of the due ones

  function NotDue(due: Event -> Option<int>, evs: seq<Event>, now: int): seq<Event> {
    if evs == [] then []
    else (if IsDue(due, evs[0], now) then [] else [evs[0]]) + NotDue(due, evs[1..], now)
  }

  function DueReminders(due: Event -> Option<int>, evs: seq<Event>, now: int): seq<Message> {
    if evs == [] then []
    else (if IsDue(due, evs[0], now) then [Reminder(evs[0])] else []) + DueReminders(due, evs[1..], now)
  }

  lemma {:induction false} NotDueSnoc(due: Event -> Option<int>, evs: seq<Event>, e: Event, now: int)
    ensures NotDue(due, evs + [e], now) == NotDue(due, evs, now) + (if IsDue(due, e, now) then [] else [e])
    decreases |evs|
  {
    if evs == [] {
      assert evs + [e] == [e];
    } else {
      assert (evs + [e])[1..] == evs[1..] + [e];
      NotDueSnoc(due, evs[1..], e, now);
    }
  }

  lemma {:induction false} DueRemindersSnoc(due: Event -> Option<int>, evs: seq<Event>, e: Event, now: int)
    ensures DueReminders(due, evs + [e], now) == DueReminders(due, evs, now) + (if IsDue(due, e, now) then [Reminder(e)] else [])
    decreases |evs|
  {
    if evs == [] {
      assert evs + [e] == [e];
    } else {
      var head := if IsDue(due, evs[0], now) then [Reminder(evs[0])] else [];
      var last := if IsDue(due, e, now) then [Reminder(e)] else [];
      assert (evs + [e])[1..] == evs[1..] + [e];
      assert DueReminders(due, evs + [e], now) == head + DueReminders(due, evs[1..] + [e], now);
      DueRemindersSnoc(due, evs[1..], e, now);
      assert head + (DueReminders(due, evs[1..], now) + last) == (head + DueReminders(due, evs[1..], now)) + last;
    }
  }

  /** Events whose due moment can be worked out. */
  predicate AllScheduled(due: Event -> Option<int>, evs: seq<Event>) {
    forall k :: 0 <= k < |evs| ==> due(evs[k]).Some?
  }

  // ---------------------------------------------------------------------
  // Properties of the pass

  /**
   * When every event has a due moment, the pass runs to the end: it keeps
   * exactly the events not yet due, in order, and reminds exactly the due
   * ones, in order.
   */
  lemma {:induction false} ScanPartitions(due: Event -> Option<int>, evs: seq<Event>, now: int)
    requires AllScheduled(due, evs)
    ensures Scan(due, evs, now) == Outcome(NotDue(due, evs, now), DueReminders(due, evs, now), false)
    decreases |evs|
  {
    if evs != [] {
      var init, e := evs[..|evs| - 1], evs[|evs| - 1];
      assert evs == init + [e];
      assert forall k :: 0 <= k < |init| ==> init[k] == evs[k];
      ScanPartitions(due, init, now);
      NotDueSnoc(due, init, e, now);
      DueRemindersSnoc(due, init, e, now);
    }
  }

  /** The pass stops exactly when some event has no due moment. */
  lemma {:induction false} ScanAbortsIff(due: Event -> Option<int>, evs: seq<Event>, now: int)
    ensures Scan(due, evs, now).aborted <==> !AllScheduled(due, evs)
    decreases |evs|
  {
    if evs != [] {
      var init, e := evs[..|evs| - 1], evs[|evs| - 1];
      assert forall k :: 0 <= k < |init| ==> init[k] == evs[k];
      ScanAbortsIff(due, init, now);
      if !AllScheduled(due, init) {
        var k :| 0 <= k < |init| && due(init[k]).None?;
        assert due(evs[k]).None?;
      }
    }
  }

  /** Once the pass has stopped, the events after the failing one are kept, unread. */
  lemma {:induction false} ScanAfterAbort(due: Event -> Option<int>, a: seq<Event>, b: seq<Event>, now: int)
    requires Scan(due, a, now).aborted
    ensures Scan(due, a + b, now) == Outcome(Scan(due, a, now).kept + b, Scan(due, a, now).sent, true)
    decreases |b|
  {
    if b == [] {
      assert a + b == a;
    } else {
      var init, e := b[..|b| - 1], b[|b| - 1];
      assert a + b == (a + init) + [e];
      assert (a + b)[..|a + b| - 1] == a + init;
      ScanAfterAbort(due, a, init, now);
      assert Scan(due, a, now).kept + init + [e] == Scan(due, a, now).kept + b;
    }
  }

  /**
   * At the first event without a due moment the pass has kept the not-due
   * events before it and reminded the due ones; that event and all after it
   * stay in the store.
   */
  lemma ScanStopsAtFirstFailure(due: Event -> Option<int>, evs: seq<Event>, k: nat, now: int)
    requires k < |evs| && due(evs[k]).None? && AllScheduled(due, evs[..k])
    ensures Scan(due, evs, now) == Outcome(NotDue(due, evs[..k], now) + evs[k..], DueReminders(due, evs[..k], now), true)
  {
    var kept, sent := NotDue(due, evs[..k], now), DueReminders(due, evs[..k], now);
    ScanPartitions(due, evs[..k], now);
    ScanRunningStep(due, evs, k, now);
    assert Scan(due, evs[..k + 1], now) == Outcome(kept + [evs[k]], sent, true);
    ScanResumes(due, evs, k + 1, now);
    SuffixCons(evs, k);
    AppendAssoc(kept, [evs[k]], evs[k + 1..]);
  }


  /** Every event is either kept or reminded: none is lost and none reminded twice. */
  lemma {:induction false} ScanAccountsForEvery(due: Event -> Option<int>, evs: seq<Event>, now: int)
    ensures |Scan(due, evs, now).kept| + |Scan(due, evs, now).sent| == |evs|
    ensures forall e :: e in Scan(due, evs, now).kept ==> e in evs
    decreases |evs|
  {
    if evs != [] {
      var init, e := evs[..|evs| - 1], evs[|evs| - 1];
      assert evs == init + [e];
      ScanAccountsForEvery(due, init, now);
    }
  }

  /** The kept events are not due yet: an immediate second pass at the same time sends nothing. */
  lemma ScanIsIdempotent(due: Event -> Option<int>, evs: seq<Event>, now: int)
    requires AllScheduled(due, evs)
    ensures AllScheduled(due, Scan(due, evs, now).kept)
    ensures Scan(due, Scan(due, evs, now).kept, now) == Outcome(Scan(due, evs, now).kept, [], false)
  {
    ScanPartitions(due, evs, now);
    NotDueKeepsScheduled(due, evs, now);
    ScanPartitions(due, NotDue(due, evs, now), now);
    NotDueOfNotDue(due, evs, now);
  }

  lemma {:induction false} NotDueKeepsScheduled(due: Event -> Option<int>, evs: seq<Event>, now: int)
    requires AllScheduled(due, evs)
    ensures AllScheduled(due, NotDue(due, evs, now))
    decreases |evs|
  {
    if evs != [] {
      assert forall k :: 0 <= k < |evs[1..]| ==> evs[1..][k] == evs[k + 1];
      NotDueKeepsScheduled(due, evs[1..], now);
      var rest := NotDue(due, evs[1..], now);
      if !IsDue(due, evs[0], now) {
        var n := [evs[0]] + rest;
        assert forall k :: 1 <= k < |n| ==> n[k] == rest[k - 1];
      }
    }
  }

  lemma {:induction false} NotDueOfNotDue(due: Event -> Option<int>, evs: seq<Event>, now: int)
    ensures NotDue(due, NotDue(due, evs, now), now) == NotDue(due, evs, now)
    ensures DueReminders(due, NotDue(due, evs, now), now) == []
    decreases |evs|
  {
    if evs != [] {
      NotDueOfNotDue(due, evs[1..], now);
      var rest := NotDue(due, evs[1..], now);
      if IsDue(due, evs[0], now) {
        assert NotDue(due, evs, now) == rest;
      } else {
        var n := [evs[0]] + rest;
        assert NotDue(due, evs, now) == n;
        assert n[0] == evs[0] && n[1..] == rest;
        assert NotDue(due, n, now) == [evs[0]] + NotDue(due, rest, now);
        assert DueReminders(due, n, now) == DueReminders(due, rest, now);
      }
    }
  }

  // ---------------------------------------------------------------------
  // Worked example

  /**
   * For a date and time written as the bot expects, the due moment is the
   * event's own minute less the reminder offset, when that stays within the
   * range of `datetime`.
   */
  lemma DueAtCanonical(e: Event, y: int, m: int, d: int, hh: int, mm: int)
    requires ValidDate(y, m, d) && 0 <= hh < 24 && 0 <= mm < 60
    requires e.date == DateText(y, m, d) && e.time == ClockText(hh, mm)
    ensures DueAt(e) == DueFrom(Some(MinuteOf(y, m, d, hh, mm)), e.remindDays, e.remindHours)
  {
    ParseMomentCanonical(y, m, d, hh, mm);
  }

  lemma ExampleTexts()
    ensures DateText(2025, 3, 1) == "2025-03-01" && ClockText(10, 0) == "10:00"
  {
  }

  /** A one-day offset makes an event due at the same clock time on the calendar day before. */
  lemma DueOneDayEarlier(y: int, m: int, d: int, hh: int, mm: int)
    requires ValidDate(y, m, d) && (y, m, d) != (9999, 12, 31) && 0 <= hh < 24 && 0 <= mm < 60
    ensures var (y', m', d') := NextDay(y, m, d);
      ValidDate(y', m', d') && DueFrom(Some(MinuteOf(y', m', d', hh, mm)), 1, 0) == Some(MinuteOf(y, m, d, hh, mm))
  {
    OrdinalNextDay(y, m, d);
    MinuteOfBounds(y, m, d, hh, mm);
  }

  /** A one-hour offset makes an event due an hour earlier on the same day. */
  lemma DueOneHourEarlier(y: int, m: int, d: int, hh: int, mm: int)
    requires ValidDate(y, m, d) && 1 <= hh < 24 && 0 <= mm < 60
    ensures DueFrom(Some(MinuteOf(y, m, d, hh, mm)), 0, 1) == Some(MinuteOf(y, m, d, hh - 1, mm))
  {
    MinuteOfBounds(y, m, d, hh - 1, mm);
  }

  /** The reminder goes to the event's phone and names its title, date and time. */
  lemma ReminderForEvent(e: Event)
    ensures Reminder(e).to == e.phone
    ensures Contains(Reminder(e).body, e.title) && Contains(Reminder(e).body, e.date) && Contains(Reminder(e).body, e.time)
  {
    ReminderEchoes(e);
  }

  /** An event on 2025-03-01 at 10:00 with a one-day reminder is due from 2025-02-28 10:00 on. */
  lemma ExampleDue(e: Event)
    requires e.date == "2025-03-01" && e.time == "10:00" && e.remindDays == 1 && e.remindHours == 0
    ensures DueAt(e) == Some(MinuteOf(2025, 2, 28, 10, 0))
  {
    ExampleTexts();
    DueAtCanonical(e, 2025, 3, 1, 10, 0);
    DueOneDayEarlier(2025, 2, 28, 10, 0);
    assert NextDay(2025, 2, 28) == (2025, 3, 1);
  }
}
