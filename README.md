# Boubert WhatsApp bot in Dafny

A model of `bot.py`, the Flask webhook behind the "Boubert" WhatsApp assistant. It covers the
two parts of the program that hold logic:

- **The `/whatsapp` dispatcher.** It lower-cases the message. It then picks a branch by substring
  containment, in a fixed order: `evento`, `lista de eventos`, `guardar enlace`, `lista de enlaces`,
  `pon una alarma`, and finally an exact `ayuda` / `comandos`. It cuts the message with
  `str.split(" ", n)`, checks the number of pieces, runs `int()` on the reminder fields, and calls
  the handler: `guardar_evento`, `listar_eventos`, `guardar_enlace`, `listar_enlaces`,
  `agregar_alarma` or `mostrar_comandos`.
- **The reminder pass `verificar_recordatorios`.** It walks the stored events. For each one it works
  out the moment `strptime(fecha + " " + hora) - timedelta(days, hours)`. Once `now` has reached that
  moment it sends a WhatsApp reminder and deletes the event.

Modules and their files:

| module | file | what it holds |
|---|---|---|
| `Options` | `pytext.dfy` | the `Option` datatype |
| `PyText` | `pytext.dfy` | the Python string operations the bot uses: `lower()`, `in`, `split(" ", n)` and `int()`; and the model's own helper definitions of joining with spaces, counting spaces and writing an integer in decimal, used to state properties of `split` and `int()` |
| `DateTime` | `datetime.dfy` | `datetime.strptime(s, "%Y-%m-%d %H:%M")`, `date.toordinal()`, the range of `datetime`; a moment is a minute count from 0001-01-01 00:00 |
| `Records`, `Replies` | `replies.dfy` | the stored documents, `delete_one` by id, every reply text, the listings, the calendar body |
| `Commands` | `commands.dfy` | the dispatcher as a pure function `Decide` of the lower-cased text, and what it does with each kind of message |
| `Seqs` | `seqs.dfy` | two sequence facts the proofs cite |
| `Reminders` | `reminders.dfy` | the due moment `DueAt` and the specification `Scan` of one pass |
| `WhatsappBot` | `bot.dfy` | class `Bot`: the `eventos` and `enlaces` collections, the calendar, the messages sent, and a method per handler |

State changes are modelled as methods of `Bot`:
- `insert_one` appends to a `seq`;
- `find({})` reads the collection in order;
- `delete_one({"_id": …})` removes the first document with that id.

`HandleMessage` is the webhook. Its contract says, for every kind of message, what the reply is and
what the new state is. `CheckReminders` is one pass. It runs the same loop as the source, and its
contract ties the new store and the messages sent to `Scan`. The lemmas about `Scan` then prove:
- the store keeps exactly the events not yet due, in order;
- one reminder goes out per due event, in order;
- and, when a date cannot be parsed, the pass stops there.

Behaviour of the code worth knowing:
- Only `evento` triggers the event branch; `event` alone gets the fallback.
- A non-numeric reminder field makes `int()` raise, so the request fails with a server error and the user gets no reply.
- The message is split after it is lower-cased, so every stored field is lower-case.
- The reminder goes to the `telefono` field, which `guardar_evento` fills with the sender.
- The reply and reminder texts are in Spanish.

## Model

| member | source | states |
|---|---|---|
| `PyText.LowerIsLowered` | bot.py:142 | `lower()` keeps the length and its result is already lower-case |
| `PyText.LowerKeepsSpaces` | bot.py:142 | lower-casing keeps every space where it was and creates none |
| `PyText.Split` | bot.py:148 | `split(" ", n)` gives between 1 and `n + 1` pieces |
| `PyText.SplitJoin` | bot.py:148 | joining the pieces of `split(" ", n)` with single spaces gives back the message |
| `PyText.SplitLength` | bot.py:148-149 | the number of pieces is `min(n, number of spaces) + 1`; this is what every arity check tests |
| `PyText.SplitPiecesHaveNoSpace` | bot.py:148 | every piece but the last is free of spaces; so is the last when fewer than `n` cuts were made |
| `PyText.SplitKeepsLowered` | bot.py:142-168 | the pieces of a lower-cased message are lower-cased |
| `PyText.SplitIntoWords` | bot.py:148-149 | a message with exactly `n - 1` spaces splits into `n` space-free words that join back to it |
| `PyText.SplitJoinWords` | bot.py:148 | splitting words joined by spaces gives those words back, when the cut limit is the number of spaces |
| `PyText.ParseIntToString` | bot.py:150 | `int(str(n)) == n` for every integer, negative ones included (no digit-count limit; see "## Left out") |
| `PyText.ParseIntRejectsWord` | bot.py:150 | `int()` raises on text with no whitespace at either end that starts with neither a digit nor a sign |
| `PyText.ParseIntKeepsSeparators` | bot.py:150 | `int()` raises on text that starts with one of the separators U+001C-U+001F, which it does not strip although `str.isspace()` accepts them |
| `DateTime.MatchStamp` | bot.py:55 | a text `strptime` accepts has fields in range: month 1-12, day 1-31, hour 0-23, minute 0-59 |
| `DateTime.ParseMoment` | bot.py:55 | a moment `strptime` returns lies between `datetime.min` and `datetime.max` |
| `DateTime.OrdinalBounds` | bot.py:55 | every valid date has an ordinal from 1 to that of 9999-12-31 |
| `DateTime.OrdinalNextDay` | bot.py:56 | the next calendar day has the next ordinal, across month and year ends and leap days |
| `DateTime.ParseMomentCanonical` | bot.py:55 | a date and time written as `YYYY-MM-DD` and `HH:MM` parse back to their own moment |
| `Records.RemoveByIdAt` | bot.py:60 | deleting by the id of an event, when no event before it has that id, removes just that event |
| `Records.RemoveByIdKeepsIds` | bot.py:60 | deleting by any id adds no event and keeps the ids distinct and below their bound |
| `Records.RemoveKeepsIds` | bot.py:60 | that deletion keeps the ids distinct and below the id bound |
| `Replies.AlarmBody` | bot.py:108-114 | the calendar entry has the title as summary, start equal to end, and start `fecha + "T" + hora + ":00"` in UTC |
| `Replies.EventSavedEchoes` | bot.py:45 | the confirmation of a saved event quotes its title, date and time |
| `Replies.AlarmSetEchoes` | bot.py:117 | the alarm confirmation quotes its title, date and time |
| `Replies.ReminderEchoes` | bot.py:59 | a reminder names the event's title, date and time |
| `Replies.EventLineEchoes` | bot.py:85 | a listing line names the event's title, date and time |
| `Replies.EventLinesAppend` | bot.py:84-85 | the lines of two runs of events are the lines of the first followed by those of the second |
| `Replies.EventsReplyShape` | bot.py:80-87 | the reply is the fixed "no events" text exactly when the collection is empty, and otherwise the header followed by the lines |
| `Replies.EventsReplyNamesEvery` | bot.py:83-85 | the event listing holds the line of every stored event |
| `Replies.LinksReplyShape` | bot.py:95-102 | the reply is the fixed "no links" text exactly when the collection is empty, and otherwise the header followed by the lines |
| `Replies.LinksReplyNamesEvery` | bot.py:98-100 | the link listing holds the line of every stored link |
| `Replies.ListingShowsSavedEvent` | bot.py:76-87 | listing right after an event is saved shows its title, date and time |
| `Commands.ListEventsUnreachable` | bot.py:147-154 | no message reaches the `lista de eventos` branch, since it contains `evento` |
| `Commands.FallbackExactly` | bot.py:145-172 | the reply is the fallback exactly when no trigger matches, or the branch taken finds the wrong number of spaces: not five for an event, fewer than two for a link, not three for an alarm |
| `Commands.EventBranchIff` | bot.py:147 | the event branch is taken exactly when the message contains `evento` |
| `Commands.EventArityFallsBack` | bot.py:147-149 | an `evento` message with other than five spaces gets the fallback |
| `Commands.EventBranchOutcome` | bot.py:147-151 | an `evento` message with five spaces is cut into six space-free words; parts 1 to 3 become date, time and title; `int()` runs on parts 4 and 5 |
| `Commands.SavedEventNeedsSixWords` | bot.py:147-151 | an event is saved, or `int()` is reached, only from a message with `evento` and exactly five spaces |
| `Commands.EventCommandSaves` | bot.py:147-151 | six space-free words around `evento`, the last two integers, save that event with those fields |
| `Commands.EventCommandBadNumber` | bot.py:150 | six such words whose fifth or sixth is not an integer make `int()` raise |
| `Commands.SavedFieldsAreLowered` | bot.py:142-168 | whatever a branch stores is lower-cased |
| `Commands.LinkTitleIsEnlace` | bot.py:156-160 | `guardar enlace <rest>` saves the title `enlace` and the URL `<rest>`, so the user's title is never the saved one |
| `Commands.AlarmNeedsThreeSpaces` | bot.py:165-169 | an alarm is set only from a message with `pon una alarma` and exactly three spaces |
| `Commands.AdvertisedAlarmNeverSet` | bot.py:165-169 | the syntax the help text advertises, `pon una alarma <fecha> <hora> <título>`, has at least five spaces and never sets an alarm |
| `Commands.AlarmWordsRead` | bot.py:166-168 | four space-free words in the alarm branch reach the calendar as date, time and title |
| `Commands.AlarmWordsAsWritten` | bot.py:165-169 | one message that does set an alarm is the phrase followed by one word, read with `una` as date and `alarma` as time; `AlarmNeedsThreeSpaces` is the full condition |
| `Commands.DeleteCommandFallsBack` | bot.py:147-149 | the advertised `eliminar evento <nombre>` falls into the event branch and gets the fallback |
| `Commands.HelpExactly` | bot.py:171-172 | the help text is the reply to exactly `ayuda` and `comandos` |
| `Commands.ExampleEvent` | bot.py:147-151 | `evento 2025-03-01 10:00 meeting 1 0` saves the meeting with a one-day reminder |
| `Commands.ExampleBadNumber` | bot.py:150 | `evento 2025-03-01 10:00 meeting uno 0` makes `int()` raise |
| `Commands.ExampleSeparatorNumber` | bot.py:150 | `evento a b c \x1c1 0` makes `int()` raise |
| `Commands.ExampleListEvents` | bot.py:147-149 | `lista de eventos` takes the event branch and gets the fallback |
| `Commands.ExampleUnknown` | bot.py:145 | a greeting gets the fallback |
| `Reminders.DueOneDayEarlier` | bot.py:56 | for every date but 9999-12-31, an event on the next day with a one-day offset is due at the same clock time on that date |
| `Reminders.DueOneHourEarlier` | bot.py:56 | for every time from 01:00 on, a one-hour offset makes an event due an hour earlier on the same day |
| `Reminders.DueAtCanonical` | bot.py:55-56 | for a date and time in the canonical layout, the due moment is the event's own minute less the offset |
| `Reminders.ExampleDue` | bot.py:55-58 | an event on 2025-03-01 at 10:00 with a one-day offset is due from 2025-02-28 10:00 |
| `Reminders.ReminderForEvent` | bot.py:59 | the reminder goes to the event's `telefono` and names its title, date and time |
| `Reminders.ScanRunningStep` | bot.py:54-60 | reading one more event: a due one is dropped and reminded, the first one without a moment stops the pass, any other is kept |
| `Reminders.ScanResumes` | bot.py:54-60 | once the pass has stopped or read every event, the rest of the store is kept unread |
| `Reminders.ScanPartitions` | bot.py:54-60 | when every event has a moment, the pass keeps exactly the not-yet-due events in order and reminds the due ones in order |
| `Reminders.ScanAbortsIff` | bot.py:55 | the pass stops early exactly when some event's moment cannot be worked out |
| `Reminders.ScanAfterAbort` | bot.py:54-55 | after the pass stops, the events after the failing one stay, untouched |
| `Reminders.ScanStopsAtFirstFailure` | bot.py:54-60 | the events before the first failing one are handled; that one and every later one stay |
| `Reminders.ScanAccountsForEvery` | bot.py:54-60 | the kept events and the reminders sent together number the events read, and every kept event was in the store |
| `Reminders.ScanIsIdempotent` | bot.py:49-60 | when every event has a due moment, the kept ones still have one, and a second pass at the same minute sends nothing and keeps them all |
| `Reminders.NotDueKeepsScheduled` | bot.py:58-60 | the kept events still all have a moment |
| `Reminders.NotDueOfNotDue` | bot.py:58-60 | no kept event is due at the same minute |
| `WhatsappBot.Bot.constructor` | bot.py:16-19 | the bot starts on a fresh, empty database, with an empty calendar and outbox |
| `WhatsappBot.Bot.SaveEvent` | bot.py:34-45 | appends exactly one event with `usuario == telefono ==` the sender and the other fields as given, and replies with the confirmation; offsets outside BSON's 64-bit range fail with nothing inserted |
| `WhatsappBot.Bot.SaveLink` | bot.py:64-72 | appends exactly one link with the sender, title, URL and clock text, and replies with the fixed confirmation |
| `WhatsappBot.Bot.ListEvents` | bot.py:76-87 | the loop builds the event listing of the current collection and changes nothing |
| `WhatsappBot.Bot.ListLinks` | bot.py:91-102 | the loop builds the link listing of the current collection and changes nothing |
| `WhatsappBot.Bot.AddAlarm` | bot.py:106-117 | when the calendar accepts, one entry is added and the confirmation returned; otherwise the request fails with nothing added |
| `WhatsappBot.Bot.Send` | bot.py:59 | one message is appended to the outbox |
| `WhatsappBot.Bot.DeleteEvent` | bot.py:60 | removes the first event with that id, keeping the ids distinct and below `nextId` |
| `WhatsappBot.Bot.HandleMessage` | bot.py:141-172 | for every kind of message, the reply and the new state; every branch but save-event, save-link and alarm leaves the state unchanged |
| `WhatsappBot.Bot.CheckReminders` | bot.py:49-60 | after one pass the store is what `Scan` keeps, the outbox has grown by what `Scan` sends, and the pass reports whether it stopped early |
| `WhatsappBot.Bot.RemindPass` | bot.py:52-60 | the loop over the events read at the start meets the scan of any due-moment rule |
| `WhatsappBot.Bot.RemindNext` | bot.py:54-60 | one turn of the loop sends and then deletes a due event, and moves the state from the scan of `i` events to the scan of `i + 1` |

## Left out

- Flask routing, reading the form fields and building the TwiML response (bot.py:140-143, 174-177), and starting the server. The text and sender are parameters of `HandleMessage`, and a raised exception is the `ServerError` response.
- A missing `From` field (`None` as the sender) and a missing `Body` field (read as the empty text). The sender is always a string here.
- The MongoDB connection and the unused `alarmas` collection (bot.py:15-19). `database/models.py` is not part of this model.
- Credential loading and the Google Calendar call itself (bot.py:22-30, 116). Whether the service accepts an entry is the parameter `calendarAccepts`.
- The background scheduler and any interleaving of a pass with webhook requests: this is concurrency. One pass is modelled.
- `datetime.now()`: the pass takes `now` as a minute count (truncating the seconds does not change any `>=` test against a minute-granular moment), and `guardar_enlace` takes the clock text as a parameter.
- `enviar_mensaje_whatsapp` is called at bot.py:59 but neither defined nor imported in bot.py. The model treats it as a send that always succeeds and appends to the outbox.
- The cursor of `find({})` in `verificar_recordatorios` is modelled as a snapshot of the store taken when the pass starts.
- `lower()` covers ASCII and Latin-1 capitals only; other Unicode case mappings are not modelled.
- `int()` and the `%Y`, `%m`, `%d`, `%H`, `%M` fields of `strptime` (its `\d` patterns) accept ASCII digits only; other Unicode decimal digits, which both accept, are not modelled.
- `PyText.ParseInt`, `PyText.ParseIntToString`: Python's limit on the number of digits `int()` and `str()` convert (`sys.int_max_str_digits`, 4300 by default) is not modelled. Past it `int()` raises where the model reads the number. For a reminder field the webhook's answer is a server error either way, since such a number does not fit BSON's 64-bit integers.
- `Reminders.DueAt`: a `timedelta` too large to build raises `OverflowError` before the subtraction. The model folds that case into "the result leaves the range of `datetime`", so both give no moment and stop the pass.
- `mostrar_comandos` (bot.py:121-136) returns a constant text, carried as `Replies.HelpText`; the lemmas about the dispatcher cite what it advertises.
