/**
 * The bot's state and handlers: the `eventos` and `enlaces` collections,
 * the calendar the alarms go to, the messages sent, the `/whatsapp`
 * handler and the periodic reminder pass.
 */
module WhatsappBot {
  import opened Options
  import opened PyText
  import opened Records
  import opened Replies
  import opened Commands
  import opened Reminders
  import opened Seqs

  /** BSON stores integers as signed 64-bit values; `insert_one` rejects any other. */
  predicate FitsInt64(n: int) {
    -0x8000_0000_0000_0000 <= n < 0x8000_0000_0000_0000
  }

  /**
   * The answer to a webhook call: a TwiML reply with the given text, or an
   * internal server error when the handler raised.
   */
  datatype Response = Reply(text: string) | ServerError

  class Bot {
    /** The `eventos` collection, in store order. */
    var events: seq<Event>
    /** The `enlaces` collection, in store order. */
    var links: seq<Link>
    /** The id the next inserted event receives. */
    var nextId: nat
    /** The entries inserted into the primary Google Calendar. */
    var calendar: seq<CalendarEntry>
    /** The WhatsApp messages sent, in order. */
    var outbox: seq<Message>

    /** Event ids are distinct and all below `nextId`. */
    ghost predicate Valid()
      reads this
    {
      && IdsDistinct(events)
      && forall k :: 0 <= k < |events| ==> events[k].id < nextId
    }

    constructor()
      ensures Valid()
      ensures events == [] && links == [] && calendar == [] && outbox == []
    {
      events := [];
      links := [];
      nextId := 0;
      calendar := [];
      outbox := [];
    }

    /** `guardar_evento`: the sender is stored as owner and as the phone to remind. */
    method SaveEvent(owner: string, date: string, time: string, title: string, days: int, hours: int)
      returns (r: Response)
      requires Valid()
      modifies this
      ensures Valid()
      ensures if FitsInt64(days) && FitsInt64(hours) then
          && r == Reply(EventSaved(title, date, time))
          && events == old(events) + [Event(old(nextId), owner, title, date, time, days, hours, owner)]
          && nextId == old(nextId) + 1
        else
          r == ServerError && events == old(events) && nextId == old(nextId)
      ensures links == old(links) && calendar == old(calendar) && outbox == old(outbox)
    {
      if !(FitsInt64(days) && FitsInt64(hours)) {
        return ServerError;
      }
      var e := Event(nextId, owner, title, date, time, days, hours, owner);
      events := events + [e];
      nextId := nextId + 1;
      r := Reply(EventSaved(title, date, time));
    }

    /** `guardar_enlace`; `savedAt` is the clock text of the moment of saving. */
    method SaveLink(owner: string, title: string, url: string, savedAt: string) returns (reply: string)
      modifies this
      ensures reply == LinkSaved
      ensures links == old(links) + [Link(owner, title, url, savedAt)]
      ensures events == old(events) && nextId == old(nextId) && calendar == old(calendar) && outbox == old(outbox)
    {
      links := links + [Link(owner, title, url, savedAt)];
      reply := LinkSaved;
    }

    /** `listar_eventos`: the header and one line per stored event, built line by line. */
    method ListEvents() returns (reply: string)
      ensures reply == EventsReply(events)
    {
      if |events| == 0 {
        return NoEvents;
      }
      reply := EventsHeader;
      var i := 0;
      while i < |events|
        invariant 0 <= i <= |events|
        invariant reply == EventsHeader + EventLines(events[..i])
      {
        assert events[..i + 1][..i] == events[..i];
        reply := reply + EventLine(events[i]);
        i := i + 1;
      }
      assert events[..i] == events;
    }

    /** `listar_enlaces`: the header and one line per stored link, built line by line. */
    method ListLinks() returns (reply: string)
      ensures reply == LinksReply(links)
    {
      if |links| == 0 {
        return NoLinks;
      }
      reply := LinksHeader;
      var i := 0;
      while i < |links|
        invariant 0 <= i <= |links|
        invariant reply == LinksHeader + LinkLines(links[..i])
      {
        assert links[..i + 1][..i] == links[..i];
        reply := reply + LinkLine(links[i]);
        i := i + 1;
      }
      assert links[..i] == links;
    }

    /**
     * `agregar_alarma`; `accepted` is whether the calendar service takes the
     * entry (it raises on a start it cannot read).
     */
    method AddAlarm(date: string, time: string, title: string, accepted: bool) returns (r: Response)
      modifies this
      ensures accepted ==> r == Reply(AlarmSet(title, date, time)) && calendar == old(calendar) + [AlarmBody(title, date, time)]
      ensures !accepted ==> r == ServerError && calendar == old(calendar)
      ensures events == old(events) && links == old(links) && nextId == old(nextId) && outbox == old(outbox)
    {
      if !accepted {
        return ServerError;
      }
      calendar := calendar + [AlarmBody(title, date, time)];
      r := Reply(AlarmSet(title, date, time));
    }

    /** `enviar_mensaje_whatsapp`. */
    method Send(to: string, body: string)
      modifies this
      ensures outbox == old(outbox) + [Message(to, body)]
      ensures events == old(events) && links == old(links) && nextId == old(nextId) && calendar == old(calendar)
    {
      outbox := outbox + [Message(to, body)];
    }

    /** `eventos.delete_one({"_id": id})`. */
    method DeleteEvent(id: nat)
      requires Valid()
      modifies this
      ensures Valid()
      ensures events == RemoveById(old(events), id)
      ensures links == old(links) && nextId == old(nextId) && calendar == old(calendar) && outbox == old(outbox)
    {
      RemoveByIdKeepsIds(events, id, nextId);
      events := RemoveById(events, id);
    }

    /**
     * The `/whatsapp` handler. `body` is the message text, `sender` the
     * `From` number, `clock` the current time as `guardar_enlace` writes it,
     * and `calendarAccepts` the calendar service's verdict on an alarm.
     */
    method HandleMessage(body: string, sender: string, clock: string, calendarAccepts: bool) returns (r: Response)
      requires Valid()
      modifies this
      ensures Valid()
      ensures match Decide(Lower(body))
        case SaveEvent(date, time, title, days, hours) =>
          && links == old(links) && calendar == old(calendar) && outbox == old(outbox)
          && if FitsInt64(days) && FitsInt64(hours) then
               && r == Reply(EventSaved(title, date, time))
               && events == old(events) + [Event(old(nextId), sender, title, date, time, days, hours, sender)]
               && nextId == old(nextId) + 1
             else
               r == ServerError && events == old(events) && nextId == old(nextId)
        case SaveLink(title, url) =>
          && r == Reply(LinkSaved)
          && links == old(links) + [Link(sender, title, url, clock)]
          && events == old(events) && nextId == old(nextId) && calendar == old(calendar) && outbox == old(outbox)
        case AddAlarm(date, time, title) =>
          && r == (if calendarAccepts then Reply(AlarmSet(title, date, time)) else ServerError)
          && calendar == old(calendar) + (if calendarAccepts then [AlarmBody(title, date, time)] else [])
          && events == old(events) && links == old(links) && nextId == old(nextId) && outbox == old(outbox)
        case ListEvents => r == Reply(EventsReply(events)) && unchanged(this)
        case ListLinks => r == Reply(LinksReply(links)) && unchanged(this)
        case ShowHelp => r == Reply(HelpText) && unchanged(this)
        case Unrecognized => r == Reply(Fallback) && unchanged(this)
        case IntError => r == ServerError && unchanged(this)
    {
      var msg := Lower(body);
      match Decide(msg)
      case SaveEvent(date, time, title, days, hours) =>
        r := SaveEvent(sender, date, time, title, days, hours);
      case SaveLink(title, url) =>
        var text := SaveLink(sender, title, url, clock);
        r := Reply(text);
      case AddAlarm(date, time, title) =>
        r := AddAlarm(date, time, title, calendarAccepts);
      case ListEvents =>
        var text := ListEvents();
        r := Reply(text);
      case ListLinks =>
        var text := ListLinks();
        r := Reply(text);
      case ShowHelp =>
        r := Reply(HelpText);
      case Unrecognized =>
        r := Reply(Fallback);
      case IntError =>
        r := ServerError;
    }

    /**
     * `verificar_recordatorios` at the minute `now`: one pass over the events
     * stored when it starts. It answers whether the pass stopped on an event
     * it could not work out.
     */
    method CheckReminders(now: int) returns (aborted: bool)
      requires Valid()
      modifies this
      ensures Valid()
      ensures events == Scan(DueAt, old(events), now).kept
      ensures outbox == old(outbox) + Scan(DueAt, old(events), now).sent
      ensures aborted == Scan(DueAt, old(events), now).aborted
      ensures links == old(links) && calendar == old(calendar) && nextId == old(nextId)
    {
      aborted := RemindPass(DueAt, now);
    }

    /** The loop of the reminder pass, for the rule `due` giving an event's due moment. */
    method RemindPass(due: Event -> Option<int>, now: int) returns (aborted: bool)
      requires Valid()
      modifies this
      ensures Valid()
      ensures events == Scan(due, old(events), now).kept
      ensures outbox == old(outbox) + Scan(due, old(events), now).sent
      ensures aborted == Scan(due, old(events), now).aborted
      ensures links == old(links) && calendar == old(calendar) && nextId == old(nextId)
    {
      var pending := events;
      var i := 0;
      aborted := false;
      while i < |pending| && !aborted
        invariant 0 <= i <= |pending|
        invariant Valid() && nextId == old(nextId)
        invariant links == old(links) && calendar == old(calendar)
        invariant aborted == Scan(due, pending[..i], now).aborted
        invariant events == Scan(due, pending[..i], now).kept + pending[i..]
        invariant outbox == old(outbox) + Scan(due, pending[..i], now).sent
      {
        aborted := RemindNext(due, pending, i, now, old(outbox));
        i := i + 1;
      }
      ScanResumes(due, pending, i, now);
    }

    /**
     * One turn of the pass, on the `i`-th of the events it started with:
     * remind and delete it when it is due, and report whether its due moment
     * could not be worked out. The store and the messages sent move from the
     * scan of the first `i` events to the scan of the first `i + 1`.
     */
    method RemindNext(due: Event -> Option<int>, pending: seq<Event>, i: nat, now: int, ghost sentBefore: seq<Message>)
      returns (failed: bool)
      requires Valid() && i < |pending| && !Scan(due, pending[..i], now).aborted
      requires events == Scan(due, pending[..i], now).kept + pending[i..]
      requires outbox == sentBefore + Scan(due, pending[..i], now).sent
      modifies this
      ensures Valid()
      ensures failed == Scan(due, pending[..i + 1], now).aborted
      ensures events == Scan(due, pending[..i + 1], now).kept + pending[i + 1..]
      ensures outbox == sentBefore + Scan(due, pending[..i + 1], now).sent
      ensures links == old(links) && calendar == old(calendar) && nextId == old(nextId)
    {
      var e := pending[i];
      ghost var o := Scan(due, pending[..i], now);
      ScanRunningStep(due, pending, i, now);
      SuffixCons(pending, i);
      AppendAssoc(o.kept, [e], pending[i + 1..]);
      var t := due(e);
      failed := t.None?;
      if t.Some? && now >= t.value {
        Send(e.phone, ReminderText(e));
        AppendAssoc(sentBefore, o.sent, [Reminder(e)]);
        RemoveKeepsIds(o.kept, e, pending[i + 1..], nextId);
        DeleteEvent(e.id);
      }
    }
  }
}
