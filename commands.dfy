/**
 * The command dispatcher of the `/whatsapp` handler: which branch of its
 * `if`/`elif` chain a lower-cased message takes, and which arguments
 * `split(" ", n)` and `int()` extract there.
 */
module Commands {
  import opened Options
  import opened PyText

  /** The branches of the dispatcher, in the order they are tested. */
  datatype Branch =
    | EventBranch
    | ListEventsBranch
    | SaveLinkBranch
    | ListLinksBranch
    | AlarmBranch
    | HelpBranch
    | NoBranch

  /** The first branch whose trigger the message satisfies. */
  function Classify(msg: string): Branch {
    if Contains(msg, "evento") then EventBranch
    else if Contains(msg, "lista de eventos") then ListEventsBranch
    else if Contains(msg, "guardar enlace") then SaveLinkBranch
    else if Contains(msg, "lista de enlaces") then ListLinksBranch
    else if Contains(msg, "pon una alarma") then AlarmBranch
    else if msg == "ayuda" || msg == "comandos" then HelpBranch
    else NoBranch
  }

  /** The handler call a message leads to. */
  datatype Action =
    | SaveEvent(date: string, time: string, title: string, days: int, hours: int)
    | ListEvents
    | SaveLink(title: string, url: string)
    | ListLinks
    | AddAlarm(date: string, time: string, title: string)
    | ShowHelp
      /** No handler ran: the reply stays the fallback text. */
    | Unrecognized
      /** `int()` raised `ValueError` before any handler ran. */
    | IntError

  /** The event branch: `msg.split(" ", 6)` must give six parts; parts 4 and 5 go through `int()`. */
  function EventAction(msg: string): Action {
    var parts := Split(msg, 6);
    if |parts| != 6 then Unrecognized
    else (
      match (ParseInt(parts[4]), ParseInt(parts[5]))
      case (Some(days), Some(hours)) => SaveEvent(parts[1], parts[2], parts[3], days, hours)
      case _ => IntError)
  }

  /** The link branch: `msg.split(" ", 2)` must give three parts. */
  function LinkAction(msg: string): Action {
    var parts := Split(msg, 2);
    if |parts| == 3 then SaveLink(parts[1], parts[2]) else Unrecognized
  }

  /** The alarm branch: `msg.split(" ", 4)` must give four parts. */
  function AlarmAction(msg: string): Action {
    var parts := Split(msg, 4);
    if |parts| == 4 then AddAlarm(parts[1], parts[2], parts[3]) else Unrecognized
  }

  /** The dispatcher applied to the already lower-cased message. */
  function Decide(msg: string): Action {
    match Classify(msg)
    case EventBranch => EventAction(msg)
    case ListEventsBranch => ListEvents
    case SaveLinkBranch => LinkAction(msg)
    case ListLinksBranch => ListLinks
    case AlarmBranch => AlarmAction(msg)
    case HelpBranch => ShowHelp
    case NoBranch => Unrecognized
  }

  // ---------------------------------------------------------------------
  // The order of the branches

  lemma ListingPhraseHasEvento()
    ensures Contains("lista de eventos", "evento")
  {
    assert OccursAt("lista de eventos", "evento", 9);
  }

  /**
   * Every message that mentions "lista de eventos" also mentions "evento",
   * which is tested first: the event listing is never reached.
   */
  lemma ListEventsUnreachable(msg: string)
    ensures Classify(msg) != ListEventsBranch
    ensures Decide(msg) != ListEvents
  {
    if Contains(msg, "lista de eventos") {
      ListingPhraseHasEvento();
      ContainsTransitive(msg, "lista de eventos", "evento");
    }
  }

  /**
   * The message gets the fallback reply exactly when no branch applies, or
   * the branch it takes finds the wrong number of spaces: the event branch
   * needs five, the link branch at least two, the alarm branch exactly three.
   */
  lemma FallbackExactly(msg: string)
    ensures Decide(msg) == Unrecognized <==>
      match Classify(msg)
      case NoBranch => true
      case EventBranch => CountSpaces(msg) != 5
      case SaveLinkBranch => CountSpaces(msg) < 2
      case AlarmBranch => CountSpaces(msg) != 3
      case _ => false
  {
    SplitLength(msg, 6);
    SplitLength(msg, 2);
    SplitLength(msg, 4);
  }

  // ---------------------------------------------------------------------
  // The event branch

  /** With a number of spaces other than five the event branch leaves the fallback reply. */
  lemma EventArityFallsBack(msg: string)
    requires Contains(msg, "evento") && CountSpaces(msg) != 5
    ensures Decide(msg) == Unrecognized
  {
    assert Classify(msg) == EventBranch;
    SplitLength(msg, 6);
  }

  /**
   * What the event branch extracts: with exactly five spaces the six words
   * are keyword, date, time, title, days and hours; both numbers must read
   * as integers, or `int()` raises and nothing is saved.
   */
  lemma EventBranchOutcome(msg: string)
    requires Contains(msg, "evento") && CountSpaces(msg) == 5
    ensures var parts := Split(msg, 6);
      && |parts| == 6
      && Join(parts) == msg
      && (forall k :: 0 <= k < 6 ==> ' ' !in parts[k])
      && Decide(msg) == (
           match (ParseInt(parts[4]), ParseInt(parts[5]))
           case (Some(d), Some(h)) => SaveEvent(parts[1], parts[2], parts[3], d, h)
           case _ => IntError)
  {
    assert Classify(msg) == EventBranch;
    SplitIntoWords(msg, 6);
  }

  lemma EventBranchIff(msg: string)
    ensures Classify(msg) == EventBranch <==> Contains(msg, "evento")
  {
  }

  /** An event is saved, or `int()` is reached, only from a message with "evento" and exactly five spaces. */
  lemma SavedEventNeedsSixWords(msg: string)
    requires Decide(msg).SaveEvent? || Decide(msg).IntError?
    ensures Contains(msg, "evento") && CountSpaces(msg) == 5
  {
    assert Classify(msg) == EventBranch;
    EventBranchIff(msg);
    SplitLength(msg, 6);
  }

  /** Six space-free words around an "evento", the last two integers, save that event. */
  lemma EventCommandSaves(w0: string, date: string, time: string, title: string, x4: string, x5: string, d: int, h: int)
    requires ' ' !in w0 && ' ' !in date && ' ' !in time && ' ' !in title && ' ' !in x4 && ' ' !in x5
    requires Contains(Join([w0, date, time, title, x4, x5]), "evento")
    requires ParseInt(x4) == Some(d) && ParseInt(x5) == Some(h)
    ensures Decide(Join([w0, date, time, title, x4, x5])) == SaveEvent(date, time, title, d, h)
  {
    var msg := Join([w0, date, time, title, x4, x5]);
    SplitJoinWords([w0, date, time, title, x4, x5], 6);
    assert Classify(msg) == EventBranch;
  }

  /** An event command whose reminder fields are not both integers makes `int()` raise. */
  lemma EventCommandBadNumber(w0: string, date: string, time: string, title: string, x4: string, x5: string)
    requires ' ' !in w0 && ' ' !in date && ' ' !in time && ' ' !in title && ' ' !in x4 && ' ' !in x5
    requires Contains(Join([w0, date, time, title, x4, x5]), "evento")
    requires ParseInt(x4).None? || ParseInt(x5).None?
    ensures Decide(Join([w0, date, time, title, x4, x5])) == IntError
  {
    var msg := Join([w0, date, time, title, x4, x5]);
    SplitJoinWords([w0, date, time, title, x4, x5], 6);
    assert Classify(msg) == EventBranch;
  }

  /** Whatever a branch stores is lower-cased, being cut from the lower-cased message. */
  lemma SavedFieldsAreLowered(body: string)
    ensures match Decide(Lower(body))
      case SaveEvent(date, time, title, _, _) => IsLowered(date) && IsLowered(time) && IsLowered(title)
      case SaveLink(title, url) => IsLowered(title) && IsLowered(url)
      case AddAlarm(date, time, title) => IsLowered(date) && IsLowered(time) && IsLowered(title)
      case _ => true
  {
    var msg := Lower(body);
    LowerIsLowered(body);
    match Classify(msg)
    case EventBranch => SplitKeepsLowered(msg, 6);
    case SaveLinkBranch => SplitKeepsLowered(msg, 2);
    case AlarmBranch => SplitKeepsLowered(msg, 4);
    case _ =>
  }

  // ---------------------------------------------------------------------
  // The link and alarm branches as written

  lemma {:induction false} CountSpacesOfWords(a: string, b: string)
    ensures CountSpaces(a + " " + b) == CountSpaces(a) + 1 + CountSpaces(b)
  {
    CountSpacesAppend(a + " ", b);
    CountSpacesAppend(a, " ");
  }

  /** A three-word phrase has two spaces. */
  lemma PhraseSpaces(a: string, b: string, c: string)
    requires ' ' !in a && ' ' !in b && ' ' !in c
    ensures CountSpaces(a + " " + b + " " + c) == 2
  {
    assert a + " " + b + " " + c == a + " " + (b + " " + c);
    CountSpacesOfWords(a, b + " " + c);
    CountSpacesOfWords(b, c);
    NoSpaceCountsZero(a);
    NoSpaceCountsZero(b);
    NoSpaceCountsZero(c);
  }

  /**
   * `split(" ", 2)` cuts "guardar enlace <rest>" after "guardar" and after
   * "enlace": the saved title is always "enlace" and the URL is all the rest.
   */
  lemma LinkTitleIsEnlace(rest: string)
    requires !Contains("guardar enlace " + rest, "evento")
    ensures Decide("guardar enlace " + rest) == SaveLink("enlace", rest)
  {
    var msg := "guardar enlace " + rest;
    LinkCommandWords(rest);
    SplitJoinWords(["guardar", "enlace", rest], 2);
    assert OccursAt(msg, "guardar enlace", 0);
    ListEventsUnreachable(msg);
    assert Classify(msg) == SaveLinkBranch;
  }

  lemma LinkCommandWords(rest: string)
    ensures "guardar enlace " + rest == Join(["guardar", "enlace", rest])
  {
    JoinCons("enlace", [rest]);
    assert ["guardar"] + ["enlace", rest] == ["guardar", "enlace", rest];
    JoinCons("guardar", ["enlace", rest]);
    assert "guardar enlace " == "guardar" + " " + "enlace" + " ";
  }

  /** `split(" ", 4)` yields four pieces only for a message with exactly three spaces. */
  lemma AlarmNeedsThreeSpaces(msg: string)
    requires Decide(msg).AddAlarm?
    ensures Contains(msg, "pon una alarma") && CountSpaces(msg) == 3
  {
    assert Classify(msg) == AlarmBranch;
    SplitLength(msg, 4);
  }

  /**
   * The alarm syntax the help text advertises, "pon una alarma [fecha] [hora]
   * [título]", has at least five spaces, so it never sets an alarm.
   */
  lemma AdvertisedAlarmNeverSet(date: string, time: string, title: string)
    requires var msg := "pon una alarma " + date + " " + time + " " + title;
      !Contains(msg, "evento") && !Contains(msg, "guardar enlace") && !Contains(msg, "lista de enlaces")
    ensures Decide("pon una alarma " + date + " " + time + " " + title) == Unrecognized
  {
    var msg := "pon una alarma " + date + " " + time + " " + title;
    AdvertisedAlarmSpaces(date, time, title);
    assert OccursAt(msg, "pon una alarma", 0);
    ListEventsUnreachable(msg);
    assert Classify(msg) == AlarmBranch;
    SplitLength(msg, 4);
  }

  lemma AdvertisedAlarmSpaces(date: string, time: string, title: string)
    ensures CountSpaces("pon una alarma " + date + " " + time + " " + title) >= 5
  {
    var p := "pon una alarma ";
    CountSpacesAppend(p + date + " " + time + " ", title);
    CountSpacesAppend(p + date + " " + time, " ");
    CountSpacesAppend(p + date + " ", time);
    CountSpacesAppend(p + date, " ");
    CountSpacesAppend(p, date);
    AlarmPhraseSpaces();
  }

  lemma AlarmPhraseSpaces()
    ensures CountSpaces("pon una alarma ") == 3
  {
    AlarmPhraseText();
    WordsSpaceCount("pon", "una", "alarma");
  }

  lemma AlarmPhraseText()
    ensures "pon una alarma " == "pon" + " " + "una" + " " + "alarma" + " "
  {
  }

  /** Three words, each followed by a space, hold three spaces. */
  lemma WordsSpaceCount(a: string, b: string, c: string)
    requires ' ' !in a && ' ' !in b && ' ' !in c
    ensures CountSpaces(a + " " + b + " " + c + " ") == 3
  {
    PhraseSpaces(a, b, c);
    CountSpacesAppend(a + " " + b + " " + c, " ");
  }

  /** One message that does set an alarm: one word after the phrase, read with "una" as date and "alarma" as time. */
  lemma AlarmWordsAsWritten(word: string)
    requires ' ' !in word
    requires var msg := "pon una alarma " + word;
      !Contains(msg, "evento") && !Contains(msg, "guardar enlace") && !Contains(msg, "lista de enlaces")
    ensures Decide("pon una alarma " + word) == AddAlarm("una", "alarma", word)
  {
    var msg := "pon una alarma " + word;
    assert OccursAt(msg, "pon una alarma", 0);
    ListEventsUnreachable(msg);
    assert Classify(msg) == AlarmBranch;
    AlarmCommandWords(word);
    AlarmWordsRead("pon", "una", "alarma", word);
  }

  /** Four words reach the alarm call as date, time and title. */
  lemma AlarmWordsRead(w0: string, w1: string, w2: string, w3: string)
    requires ' ' !in w0 && ' ' !in w1 && ' ' !in w2 && ' ' !in w3
    requires Classify(Join([w0, w1, w2, w3])) == AlarmBranch
    ensures Decide(Join([w0, w1, w2, w3])) == AddAlarm(w1, w2, w3)
  {
    SplitJoinWords([w0, w1, w2, w3], 4);
  }

  lemma AlarmCommandWords(word: string)
    ensures "pon una alarma " + word == Join(["pon", "una", "alarma", word])
  {
    JoinCons("alarma", [word]);
    assert ["una"] + ["alarma", word] == ["una", "alarma", word];
    JoinCons("una", ["alarma", word]);
    assert ["pon"] + ["una", "alarma", word] == ["pon", "una", "alarma", word];
    JoinCons("pon", ["una", "alarma", word]);
    assert "pon una alarma " == "pon" + " " + "una" + " " + "alarma" + " ";
  }

  /**
   * "eliminar evento <nombre>", which the help text advertises, is caught
   * by the event branch and, having two spaces, gets the fallback reply.
   */
  lemma DeleteCommandFallsBack(name: string)
    requires ' ' !in name
    ensures Decide("eliminar evento " + name) == Unrecognized
  {
    var msg := "eliminar evento " + name;
    assert OccursAt(msg, "evento", 9);
    DeleteCommandSpaces(name);
    EventArityFallsBack(msg);
  }

  lemma DeleteCommandSpaces(name: string)
    requires ' ' !in name
    ensures CountSpaces("eliminar evento " + name) == 2
  {
    assert "eliminar evento " + name == "eliminar" + " " + "evento" + " " + name;
    PhraseSpaces("eliminar", "evento", name);
  }

  // ---------------------------------------------------------------------
  // Help

  lemma NoTriggerInHelpWords()
    ensures !Contains("ayuda", "evento") && !Contains("comandos", "evento")
    ensures !Contains("ayuda", "lista de eventos") && !Contains("comandos", "lista de eventos")
    ensures !Contains("ayuda", "guardar enlace") && !Contains("comandos", "guardar enlace")
    ensures !Contains("ayuda", "lista de enlaces") && !Contains("comandos", "lista de enlaces")
    ensures !Contains("ayuda", "pon una alarma") && !Contains("comandos", "pon una alarma")
  {
    forall i | 0 <= i <= 2
      ensures !OccursAt("comandos", "evento", i)
    {
      assert "comandos"[i] != 'e';
      assert "comandos"[i..i + 6][0] == "comandos"[i];
    }
  }

  /** The help text is the reply to exactly "ayuda" and "comandos" (after lower-casing). */
  lemma HelpExactly(msg: string)
    ensures Decide(msg) == ShowHelp <==> msg == "ayuda" || msg == "comandos"
  {
    NoTriggerInHelpWords();
  }

  // ---------------------------------------------------------------------
  // Worked examples

  /** "evento 2025-03-01 10:00 meeting 1 0" saves the meeting with a one-day reminder. */
  lemma ExampleEvent()
    ensures Decide(Join(["evento", "2025-03-01", "10:00", "meeting", "1", "0"]))
         == SaveEvent("2025-03-01", "10:00", "meeting", 1, 0)
  {
    var ws := ["evento", "2025-03-01", "10:00", "meeting", "1", "0"];
    JoinHasFirst(ws);
    ParseIntToString(1);
    ParseIntToString(0);
    assert IntToString(1) == "1" && IntToString(0) == "0";
    EventCommandSaves("evento", "2025-03-01", "10:00", "meeting", "1", "0", 1, 0);
  }

  /** "evento 2025-03-01 10:00 meeting uno 0": a non-numeric reminder field makes `int()` raise. */
  lemma ExampleBadNumber()
    ensures Decide(Join(["evento", "2025-03-01", "10:00", "meeting", "uno", "0"])) == IntError
  {
    var ws := ["evento", "2025-03-01", "10:00", "meeting", "uno", "0"];
    JoinHasFirst(ws);
    ParseIntRejectsWord("uno");
    EventCommandBadNumber("evento", "2025-03-01", "10:00", "meeting", "uno", "0");
  }

  /** A reminder field behind an information separator (U+001C) makes `int()` raise as well. */
  lemma ExampleSeparatorNumber()
    ensures Decide(Join(["evento", "a", "b", "c", "\U{1C}1", "0"])) == IntError
  {
    var ws := ["evento", "a", "b", "c", "\U{1C}1", "0"];
    JoinHasFirst(ws);
    ParseIntKeepsSeparators("\U{1C}1");
    EventCommandBadNumber("evento", "a", "b", "c", "\U{1C}1", "0");
  }

  /** "lista de eventos" takes the event branch and, with two spaces, gets the fallback. */
  lemma ExampleListEvents()
    ensures Decide("lista de eventos") == Unrecognized
  {
    ListingPhraseHasEvento();
    ListingPhraseSpaces();
    EventArityFallsBack("lista de eventos");
  }

  lemma ListingPhraseSpaces()
    ensures CountSpaces("lista de eventos") == 2
  {
    PhraseSpaces("lista", "de", "eventos");
    assert "lista" + " " + "de" + " " + "eventos" == "lista de eventos";
  }

  /** A greeting matches no command and gets the fallback reply. */
  lemma ExampleUnknown()
    ensures Decide("hola") == Unrecognized
  {
    ShorterNeverContains("hola", "evento");
    ShorterNeverContains("hola", "lista de eventos");
    ShorterNeverContains("hola", "guardar enlace");
    ShorterNeverContains("hola", "lista de enlaces");
    ShorterNeverContains("hola", "pon una alarma");
    assert Classify("hola") == NoBranch;
  }
}
