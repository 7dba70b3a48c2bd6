/** The documents the bot stores and the messages it sends. */
module Records {
  /**
   * A document of the `eventos` collection; `id` stands for MongoDB's `_id`.
   * The bot writes the sender both as `owner` (`usuario`) and as `phone`
   * (`telefono`), the number the reminder goes to.
   */
  datatype Event = Event(
    id: nat,
    owner: string,
    title: string,
    date: string,
    time: string,
    remindDays: int,
    remindHours: int,
    phone: string)

  /** A document of the `enlaces` collection; `savedAt` is the clock text taken when it was saved. */
  datatype Link = Link(owner: string, title: string, url: string, savedAt: string)

  /** The body of a Google Calendar `events().insert` call. */
  datatype CalendarEntry = CalendarEntry(
    summary: string,
    start: string,
    end: string,
    timeZone: string,
    useDefaultReminders: bool)

  /** An outbound WhatsApp message. */
  datatype Message = Message(to: string, body: string)

  /** The store's `delete_one({"_id": id})`: the first document with that id goes. */
  function RemoveById(evs: seq<Event>, id: nat): (r: seq<Event>)
    ensures |r| <= |evs|
  {
    if evs == [] then []
    else if evs[0].id == id then evs[1..]
    else [evs[0]] + RemoveById(evs[1..], id)
  }

  predicate IdsDistinct(evs: seq<Event>) {
    forall i, j :: 0 <= i < j < |evs| ==> evs[i].id != evs[j].id
  }

  /** Deleting by any id keeps the ids distinct and below a bound they were below, and adds no event. */
  lemma {:induction false} RemoveByIdKeepsIds(evs: seq<Event>, id: nat, bound: nat)
    requires IdsDistinct(evs)
    requires forall k :: 0 <= k < |evs| ==> evs[k].id < bound
    ensures var r := RemoveById(evs, id);
      && IdsDistinct(r)
      && (forall k :: 0 <= k < |r| ==> r[k].id < bound)
      && (forall x :: x in r ==> x in evs)
    decreases |evs|
  {
    if evs != [] {
      var t := evs[1..];
      assert forall k :: 0 <= k < |t| ==> t[k] == evs[k + 1];
      if evs[0].id != id {
        RemoveByIdKeepsIds(t, id, bound);
        var r := RemoveById(t, id);
        var s := [evs[0]] + r;
        assert RemoveById(evs, id) == s;
        forall i, j | 0 <= i < j < |s| ensures s[i].id != s[j].id {
          if i == 0 {
            assert s[j] == r[j - 1] && s[j] in t;
            var n :| 0 <= n < |t| && t[n] == s[j];
            assert evs[n + 1] == s[j];
          } else {
            assert s[i] == r[i - 1] && s[j] == r[j - 1];
          }
        }
      }
    }
  }

  /** Deleting by the id of the document after `a` removes exactly that document. */
  lemma {:induction false} RemoveByIdAt(a: seq<Event>, e: Event, b: seq<Event>)
    requires forall k :: 0 <= k < |a| ==> a[k].id != e.id
    ensures RemoveById(a + [e] + b, e.id) == a + b
  {
    if a == [] {
      assert a + [e] + b == [e] + b;
    } else {
      assert (a + [e] + b)[1..] == a[1..] + [e] + b;
      RemoveByIdAt(a[1..], e, b);
      assert a + b == [a[0]] + (a[1..] + b);
    }
  }

  lemma DistinctAfterRemoval(a: seq<Event>, e: Event, b: seq<Event>)
    requires IdsDistinct(a + [e] + b)
    ensures IdsDistinct(a + b)
  {
    var s := a + [e] + b;
    forall i, j | 0 <= i < j < |a + b| ensures (a + b)[i].id != (a + b)[j].id {
      var i' := if i < |a| then i else i + 1;
      var j' := if j < |a| then j else j + 1;
      assert (a + b)[i] == s[i'] && (a + b)[j] == s[j'];
    }
  }

  /**
   * Deleting a document by its id, when ids are distinct and below `bound`,
   * leaves the others in order with the same two properties.
   */
  lemma RemoveKeepsIds(a: seq<Event>, e: Event, b: seq<Event>, bound: nat)
    requires IdsDistinct(a + [e] + b)
    requires forall k :: 0 <= k < |a + [e] + b| ==> (a + [e] + b)[k].id < bound
    ensures RemoveById(a + [e] + b, e.id) == a + b
    ensures IdsDistinct(a + b)
    ensures forall k :: 0 <= k < |a + b| ==> (a + b)[k].id < bound
  {
    var s := a + [e] + b;
    forall k | 0 <= k < |a|
      ensures a[k].id != e.id
    {
      assert s[k] == a[k] && s[|a|] == e;
    }
    RemoveByIdAt(a, e, b);
    DistinctAfterRemoval(a, e, b);
    forall k | 0 <= k < |a + b|
      ensures (a + b)[k].id < bound
    {
      var k' := if k < |a| then k else k + 1;
      assert (a + b)[k] == s[k'];
    }
  }
}

/** The reply texts of `bot.py`, the listings and the calendar body. */
module Replies {
  import opened PyText
  import opened Records

  /** The reply when no branch of the dispatcher produced one. */
  const Fallback: string := "❌ No entendí tu mensaje. Escribe 'comandos' para ver las opciones."

  /** The reply of `guardar_evento`. */
  function EventSaved(title: string, date: string, time: string): string {
    "✅ Evento '" + title + "' guardado para el " + date + " a las " + time + "."
  }

  /** The reply of `guardar_enlace`. */
  const LinkSaved: string := "✅ Enlace guardado correctamente."

  /** The reply of `agregar_alarma`. */
  function AlarmSet(title: string, date: string, time: string): string {
    "⏰ Alarma programada para '" + title + "' el " + date + " a las " + time + "."
  }

  /** The text of the reminder the scan sends for an event. */
  function ReminderText(e: Event): string {
    "📅 Recordatorio: " + e.title + " es el " + e.date + " a las " + e.time + " ⏰"
  }

  const NoEvents: string := "📅 No tienes eventos programados."
  const EventsHeader: string := "📅 Lista de eventos:\n"
  const NoLinks: string := "🔗 No tienes enlaces guardados."
  const LinksHeader: string := "🔗 Lista de enlaces guardados:\n"

  function EventLine(e: Event): string {
    "🔹 " + e.title + " - 📆 " + e.date + " ⏰ " + e.time + "\n"
  }

  function LinkLine(l: Link): string {
    "🔹 " + l.title + " - " + l.url + "\n"
  }

  /** One line per event, in store order. */
  function EventLines(evs: seq<Event>): string {
    if evs == [] then "" else EventLines(evs[..|evs| - 1]) + EventLine(evs[|evs| - 1])
  }

  /** One line per link, in store order. */
  function LinkLines(ls: seq<Link>): string {
    if ls == [] then "" else LinkLines(ls[..|ls| - 1]) + LinkLine(ls[|ls| - 1])
  }

  /** What `listar_eventos` answers for the given collection. */
  function EventsReply(evs: seq<Event>): string {
    if |evs| == 0 then NoEvents else EventsHeader + EventLines(evs)
  }

  /** What `listar_enlaces` answers for the given collection. */
  function LinksReply(ls: seq<Link>): string {
    if |ls| == 0 then NoLinks else LinksHeader + LinkLines(ls)
  }

  /** The reply of `mostrar_comandos`. */
  const HelpText: string :=
    "🤖 *Comandos de Boubert*\n\n"
    + "📅 *Eventos y Recordatorios:*\n"
    + "🔹 `Lista de eventos` → Muestra todos los eventos guardados.\n"
    + "🔹 `Evento [fecha] [hora] [descripción] [recordatorio días] [recordatorio horas]` → Guarda un evento.\n"
    + "🔹 `Eliminar evento [nombre]` → Elimina un evento específico.\n\n"
    + "📌 *Enlaces Guardados:*\n"
    + "🔹 `Guardar enlace [título] [URL]` → Guarda un enlace.\n"
    + "🔹 `Lista de enlaces` → Muestra los enlaces guardados.\n\n"
    + "⏰ *Alarmas:*\n"
    + "🔹 `Pon una alarma [fecha] [hora] [título]` → Configura una alarma.\n\n"
    + "ℹ️ *Información:* \n"
    + "🔹 `Ayuda` o `Comandos` → Muestra esta lista de comandos.\n"

  /** The calendar body `agregar_alarma` builds: a zero-length entry at `fecha`T`hora`:00 UTC. */
  function AlarmBody(title: string, date: string, time: string): (c: CalendarEntry)
    ensures c.summary == title && c.start == c.end && c.timeZone == "UTC" && c.useDefaultReminders
    ensures |c.start| == |date| + |time| + 4
    ensures c.start[..|date|] == date && c.start[|date|] == 'T' && c.start[|date| + 1..|date| + 1 + |time|] == time
    ensures c.start[|date| + 1 + |time|..] == ":00"
  {
    CalendarEntry(title, date + "T" + time + ":00", date + "T" + time + ":00", "UTC", true)
  }

  // ---------------------------------------------------------------------
  // What the replies echo

  lemma ContainsInLeft(a: string, b: string, x: string)
    requires Contains(a, x)
    ensures Contains(a + b, x)
  {
    var i :| 0 <= i <= |a| - |x| && OccursAt(a, x, i);
    assert (a + b)[i..i + |x|] == a[i..i + |x|];
    assert OccursAt(a + b, x, i);
  }

  lemma ContainsInRight(a: string, b: string, x: string)
    requires Contains(b, x)
    ensures Contains(a + b, x)
  {
    var i :| 0 <= i <= |b| - |x| && OccursAt(b, x, i);
    assert (a + b)[|a| + i..|a| + i + |x|] == b[i..i + |x|];
    assert OccursAt(a + b, x, |a| + i);
  }

  /** The confirmation of a saved event quotes its title, date and time. */
  lemma EventSavedEchoes(title: string, date: string, time: string)
    ensures var r := EventSaved(title, date, time);
      Contains(r, title) && Contains(r, date) && Contains(r, time)
  {
    var r := EventSaved(title, date, time);
    ContainsMiddle("✅ Evento '", title, "' guardado para el " + date + " a las " + time + ".");
    assert r == "✅ Evento '" + title + ("' guardado para el " + date + " a las " + time + ".");
    ContainsMiddle("✅ Evento '" + title + "' guardado para el ", date, " a las " + time + ".");
    assert r == "✅ Evento '" + title + "' guardado para el " + date + (" a las " + time + ".");
    ContainsMiddle("✅ Evento '" + title + "' guardado para el " + date + " a las ", time, ".");
  }

  /** The alarm confirmation quotes its title, date and time. */
  lemma AlarmSetEchoes(title: string, date: string, time: string)
    ensures var r := AlarmSet(title, date, time);
      Contains(r, title) && Contains(r, date) && Contains(r, time)
  {
    var r := AlarmSet(title, date, time);
    ContainsMiddle("⏰ Alarma programada para '", title, "' el " + date + " a las " + time + ".");
    assert r == "⏰ Alarma programada para '" + title + ("' el " + date + " a las " + time + ".");
    ContainsMiddle("⏰ Alarma programada para '" + title + "' el ", date, " a las " + time + ".");
    assert r == "⏰ Alarma programada para '" + title + "' el " + date + (" a las " + time + ".");
    ContainsMiddle("⏰ Alarma programada para '" + title + "' el " + date + " a las ", time, ".");
  }

  /** A reminder names the event's title, date and time. */
  lemma ReminderEchoes(e: Event)
    ensures var r := ReminderText(e);
      Contains(r, e.title) && Contains(r, e.date) && Contains(r, e.time)
  {
    var r := ReminderText(e);
    ContainsMiddle("📅 Recordatorio: ", e.title, " es el " + e.date + " a las " + e.time + " ⏰");
    assert r == "📅 Recordatorio: " + e.title + (" es el " + e.date + " a las " + e.time + " ⏰");
    ContainsMiddle("📅 Recordatorio: " + e.title + " es el ", e.date, " a las " + e.time + " ⏰");
    assert r == "📅 Recordatorio: " + e.title + " es el " + e.date + (" a las " + e.time + " ⏰");
    ContainsMiddle("📅 Recordatorio: " + e.title + " es el " + e.date + " a las ", e.time, " ⏰");
  }

  lemma EventLineEchoes(e: Event)
    ensures var r := EventLine(e);
      Contains(r, e.title) && Contains(r, e.date) && Contains(r, e.time)
  {
    var r := EventLine(e);
    ContainsMiddle("🔹 ", e.title, " - 📆 " + e.date + " ⏰ " + e.time + "\n");
    assert r == "🔹 " + e.title + (" - 📆 " + e.date + " ⏰ " + e.time + "\n");
    ContainsMiddle("🔹 " + e.title + " - 📆 ", e.date, " ⏰ " + e.time + "\n");
    assert r == "🔹 " + e.title + " - 📆 " + e.date + (" ⏰ " + e.time + "\n");
    ContainsMiddle("🔹 " + e.title + " - 📆 " + e.date + " ⏰ ", e.time, "\n");
  }

  // ---------------------------------------------------------------------
  // The listings

  lemma HeaderDiffers(header: string, rest: string, empty: string)
    requires |header| > 2 && |empty| > 2 && header[2] != empty[2]
    ensures header + rest != empty
  {
    assert (header + rest)[2] == header[2];
  }

  /** The event listing holds the line of every stored event. */
  lemma {:induction false} EventLinesHoldEvery(evs: seq<Event>, k: nat)
    requires k < |evs|
    ensures Contains(EventLines(evs), EventLine(evs[k]))
    decreases |evs|
  {
    var init := evs[..|evs| - 1];
    if k == |evs| - 1 {
      ContainsMiddle(EventLines(init), EventLine(evs[k]), "");
      assert EventLines(init) + EventLine(evs[k]) + "" == EventLines(evs);
    } else {
      EventLinesHoldEvery(init, k);
      assert init[k] == evs[k];
      ContainsInLeft(EventLines(init), EventLine(evs[|evs| - 1]), EventLine(evs[k]));
    }
  }

  /** The link listing holds the line of every stored link. */
  lemma {:induction false} LinkLinesHoldEvery(ls: seq<Link>, k: nat)
    requires k < |ls|
    ensures Contains(LinkLines(ls), LinkLine(ls[k]))
    decreases |ls|
  {
    var init := ls[..|ls| - 1];
    if k == |ls| - 1 {
      ContainsMiddle(LinkLines(init), LinkLine(ls[k]), "");
      assert LinkLines(init) + LinkLine(ls[k]) + "" == LinkLines(ls);
    } else {
      LinkLinesHoldEvery(init, k);
      assert init[k] == ls[k];
      ContainsInLeft(LinkLines(init), LinkLine(ls[|ls| - 1]), LinkLine(ls[k]));
    }
  }

  /** The lines come in store order: the listing of `a + b` is that of `a` followed by that of `b`. */
  lemma {:induction false} EventLinesAppend(a: seq<Event>, b: seq<Event>)
    ensures EventLines(a + b) == EventLines(a) + EventLines(b)
    decreases |b|
  {
    if b == [] {
      assert a + b == a;
    } else {
      var b', x := b[..|b| - 1], b[|b| - 1];
      assert a + b == (a + b') + [x];
      EventLinesAppend(a, b');
      EventLinesSnoc(a + b', x);
      EventLinesSnoc(b', x);
      assert EventLines(a) + EventLines(b') + EventLine(x) == EventLines(a) + (EventLines(b') + EventLine(x));
    }
  }

  lemma EventLinesSnoc(evs: seq<Event>, e: Event)
    ensures EventLines(evs + [e]) == EventLines(evs) + EventLine(e)
  {
    assert (evs + [e])[..|evs|] == evs;
  }

  /**
   * An empty collection gives exactly the fixed "no events" text; any other
   * gives the header followed by one line per event.
   */
  lemma EventsReplyShape(evs: seq<Event>)
    ensures (EventsReply(evs) == NoEvents) <==> evs == []
    ensures evs != [] ==> EventsReply(evs) == EventsHeader + EventLines(evs)
  {
    if evs != [] {
      HeaderDiffers(EventsHeader, EventLines(evs), NoEvents);
    }
  }

  /** The listing names every stored event. */
  lemma EventsReplyNamesEvery(evs: seq<Event>)
    ensures forall k :: 0 <= k < |evs| ==> Contains(EventsReply(evs), EventLine(evs[k]))
  {
    forall k | 0 <= k < |evs| ensures Contains(EventsReply(evs), EventLine(evs[k])) {
      EventLinesHoldEvery(evs, k);
      ContainsInRight(EventsHeader, EventLines(evs), EventLine(evs[k]));
    }
  }

  /**
   * An empty collection gives exactly the fixed "no links" text; any other
   * gives the header followed by one line per link.
   */
  lemma LinksReplyShape(ls: seq<Link>)
    ensures (LinksReply(ls) == NoLinks) <==> ls == []
    ensures ls != [] ==> LinksReply(ls) == LinksHeader + LinkLines(ls)
  {
    if ls != [] {
      HeaderDiffers(LinksHeader, LinkLines(ls), NoLinks);
    }
  }

  /** The listing names every stored link. */
  lemma LinksReplyNamesEvery(ls: seq<Link>)
    ensures forall k :: 0 <= k < |ls| ==> Contains(LinksReply(ls), LinkLine(ls[k]))
  {
    forall k | 0 <= k < |ls| ensures Contains(LinksReply(ls), LinkLine(ls[k])) {
      LinkLinesHoldEvery(ls, k);
      ContainsInRight(LinksHeader, LinkLines(ls), LinkLine(ls[k]));
    }
  }

  /** Listing right after an event is saved shows its title, date and time. */
  lemma ListingShowsSavedEvent(evs: seq<Event>, e: Event)
    ensures var r := EventsReply(evs + [e]);
      Contains(r, e.title) && Contains(r, e.date) && Contains(r, e.time)
  {
    var all := evs + [e];
    EventsReplyNamesEvery(all);
    assert all[|evs|] == e;
    EventLineEchoes(e);
    var line := EventLine(e);
    ContainsTransitive(EventsReply(all), line, e.title);
    ContainsTransitive(EventsReply(all), line, e.date);
    ContainsTransitive(EventsReply(all), line, e.time);
  }
}
