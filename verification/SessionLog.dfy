/** The session log: the line `log_session` writes for a finished session,
    the append-only log file it goes to, and what `view_log` shows of it.
    The log is plain text; nothing in the program reads it back, so
    `ParseEntry` below exists only to state that the line format loses
    nothing. */
module SessionLog {
  import opened Text

  /** The clock readings of a session, already formatted by chrono: the date
      of the start (`%Y-%m-%d`) and the start and end times (`%H:%M:%S`). */
  datatype Stamps = Stamps(date: string, started: string, ended: string)

  /** The shape of chrono's `%Y-%m-%d`: `YYYY-MM-DD`. */
  predicate IsDateText(s: string) {
    |s| == 10 && forall i :: 0 <= i < 10 ==> if i == 4 || i == 7 then s[i] == '-' else IsDigit(s[i])
  }

  /** The shape of chrono's `%H:%M:%S`: `HH:MM:SS`. */
  predicate IsTimeText(s: string) {
    |s| == 8 && forall i :: 0 <= i < 8 ==> if i == 2 || i == 5 then s[i] == ':' else IsDigit(s[i])
  }

  predicate IsChronoText(st: Stamps) {
    IsDateText(st.date) && IsTimeText(st.started) && IsTimeText(st.ended)
  }

  /** Text shaped like chrono's output contains none of the characters the
      log format gives a meaning to. */
  lemma ChronoTextIsPlain(st: Stamps, c: char)
    requires IsChronoText(st)
    requires !IsDigit(c) && c != '-' && c != ':'
    ensures c !in st.date && c !in st.started && c !in st.ended
  {
    assert forall i :: 0 <= i < |st.date| ==> st.date[i] != c;
    assert forall i :: 0 <= i < |st.started| ==> st.started[i] != c;
    assert forall i :: 0 <= i < |st.ended| ==> st.ended[i] != c;
  }

  /** One completed session as it is logged. `note` has been trimmed. */
  datatype Record = Record(
    date: string,
    sessionType: string,
    minutes: nat,
    started: string,
    ended: string,
    note: string)

  /** Fields separated by ` | `. */
  function Join(fields: seq<string>): string
    requires fields != []
  {
    if |fields| == 1 then fields[0] else fields[0] + " | " + Join(fields[1..])
  }

  /** The line `log_session` appends: pipe-delimited fields, with the
      `Note: ` field only when the note is non-empty. */
  function Entry(r: Record): (line: string)
    ensures line != [] && line[|line| - 1] == '\n'
  {
    if r.note == "" then
      Join([r.date, r.sessionType, Decimal(r.minutes) + " minutes",
            "Started: " + r.started, "Ended: " + r.ended]) + "\n"
    else
      Join([r.date, r.sessionType, Decimal(r.minutes) + " minutes",
            "Started: " + r.started, "Ended: " + r.ended, "Note: " + r.note]) + "\n"
  }

  lemma {:induction false} JoinSnoc(fields: seq<string>, last: string)
    requires fields != []
    ensures Join(fields + [last]) == Join(fields) + " | " + last
  {
    if |fields| == 1 {
      assert (fields + [last])[1..] == [last];
    } else {
      assert (fields + [last])[1..] == fields[1..] + [last];
      JoinSnoc(fields[1..], last);
    }
  }

  lemma {:induction false} JoinAvoids(fields: seq<string>, c: char)
    requires fields != [] && c != ' ' && c != '|'
    requires forall i :: 0 <= i < |fields| ==> c !in fields[i]
    ensures c !in Join(fields)
  {
    if |fields| > 1 {
      JoinAvoids(fields[1..], c);
    }
  }

  /** A line with a note is the line without one, its newline replaced by
      the note field and a newline. */
  lemma NoteSuffix(r: Record)
    requires r.note != ""
    ensures var plain := Entry(r.(note := ""));
      Entry(r) == plain[..|plain| - 1] + " | Note: " + r.note + "\n"
  {
    var fields := [r.date, r.sessionType, Decimal(r.minutes) + " minutes",
                   "Started: " + r.started, "Ended: " + r.ended];
    var plain := Entry(r.(note := ""));
    assert plain[..|plain| - 1] == Join(fields);
    JoinSnoc(fields, "Note: " + r.note);
    assert fields + ["Note: " + r.note] == [r.date, r.sessionType, Decimal(r.minutes) + " minutes",
            "Started: " + r.started, "Ended: " + r.ended, "Note: " + r.note];
  }

  /** Only the note may contain a `|`; the other text fields are free of it. */
  predicate NoBars(r: Record) {
    '|' !in r.date && '|' !in r.sessionType && '|' !in r.started && '|' !in r.ended
  }

  /** No text field contains a line break. */
  predicate NoNewlines(r: Record) {
    && '\n' !in r.date && '\n' !in r.sessionType && '\n' !in r.started && '\n' !in r.ended
    && '\n' !in r.note
  }

  /** The text before the first `|` of `s` and the text after it, provided
      that `|` stands between two spaces. */
  function NextField(s: string): Option<(string, string)> {
    var k := IndexOf(s, '|');
    if 1 <= k && k + 1 < |s| && s[k - 1] == ' ' && s[k + 1] == ' ' then
      Some((s[..k - 1], s[k + 2..]))
    else
      None
  }

  function StripPrefix(p: string, s: string): Option<string> {
    if |p| <= |s| && s[..|p|] == p then Some(s[|p|..]) else None
  }

  function StripSuffix(s: string, p: string): Option<string> {
    if |p| <= |s| && s[|s| - |p|..] == p then Some(s[..|s| - |p|]) else None
  }

  function ParseMinutes(f: string): Option<nat> {
    match StripSuffix(f, " minutes")
    case None => None
    case Some(d) => ParseDecimal(d)
  }

  /** Reads a log line back into the session it records. */
  function ParseEntry(line: string): Option<Record> {
    if line == [] || line[|line| - 1] != '\n' then None else ParseBody(line[..|line| - 1])
  }

  /** The fields of a line without its newline: date, session type and the
      duration, then the rest as `ParseTimes` reads it. */
  function ParseBody(body: string): Option<Record> {
    match NextField(body)
    case None => None
    case Some((date, r1)) =>
      match NextField(r1)
      case None => None
      case Some((kind, r2)) =>
        match NextField(r2)
        case None => None
        case Some((duration, r3)) =>
          match (ParseMinutes(duration), ParseTimes(r3))
          case (Some(m), Some((s, e, n))) => Some(Record(date, kind, m, s, e, n))
          case _ => None
  }

  /** `Started: S | Ended: E[ | Note: N]` as (S, E, N), N empty when absent. */
  function ParseTimes(r3: string): Option<(string, string, string)> {
    match NextField(r3)
    case None => None
    case Some((started, r4)) =>
      match (StripPrefix("Started: ", started), ParseEnd(r4))
      case (Some(s), Some((e, n))) => Some((s, e, n))
      case _ => None
  }

  /** `Ended: E[ | Note: N]` as (E, N), N empty when absent. */
  function ParseEnd(r4: string): Option<(string, string)> {
    match NextField(r4)
    case None =>
      (match StripPrefix("Ended: ", r4)
       case None => None
       case Some(e) => Some((e, "")))
    case Some((ended, rest)) =>
      match (StripPrefix("Ended: ", ended), StripPrefix("Note: ", rest))
      case (Some(e), Some(n)) => Some((e, n))
      case _ => None
  }

  lemma NextFieldOf(f: string, rest: string)
    requires '|' !in f
    ensures NextField(f + " | " + rest) == Some((f, rest))
  {
    var s := f + " | " + rest;
    var k := IndexOf(s, '|');
    assert s[|f| + 1] == '|';
    assert forall i :: 0 <= i < |f| ==> s[i] == f[i];
    assert k == |f| + 1;
    assert s[..k - 1] == f;
    assert s[k + 2..] == rest;
  }

  lemma NoNextField(s: string)
    requires '|' !in s
    ensures NextField(s) == None
  {
  }

  lemma MinutesRoundTrip(n: nat)
    ensures ParseMinutes(Decimal(n) + " minutes") == Some(n)
  {
    var f := Decimal(n) + " minutes";
    assert f[|f| - 8..] == " minutes";
    assert f[..|f| - 8] == Decimal(n);
    DecimalRoundTrip(n);
  }

  /** The fields of a line from `Ended: ` on. */
  function EndFields(ended: string, note: string): seq<string> {
    if note == "" then ["Ended: " + ended] else ["Ended: " + ended, "Note: " + note]
  }

  lemma StripPrefixOf(p: string, s: string)
    ensures StripPrefix(p, p + s) == Some(s)
  {
    assert (p + s)[..|p|] == p;
    assert (p + s)[|p|..] == s;
  }

  lemma ParseEndOf(ended: string, note: string)
    requires '|' !in ended
    ensures ParseEnd(Join(EndFields(ended, note))) == Some((ended, note))
  {
    StripPrefixOf("Ended: ", ended);
    if note == "" {
      NoNextField("Ended: " + ended);
    } else {
      NextFieldOf("Ended: " + ended, "Note: " + note);
      StripPrefixOf("Note: ", note);
    }
  }

  lemma ParseTimesOf(started: string, ended: string, note: string)
    requires '|' !in started && '|' !in ended
    ensures ParseTimes(Join(["Started: " + started] + EndFields(ended, note)))
              == Some((started, ended, note))
  {
    var fields := ["Started: " + started] + EndFields(ended, note);
    assert fields[1..] == EndFields(ended, note);
    NextFieldOf("Started: " + started, Join(EndFields(ended, note)));
    StripPrefixOf("Started: ", started);
    ParseEndOf(ended, note);
  }

  /** The line format is unambiguous: reading a logged line back gives the
      session it was written for, note included, whatever the note holds. */
  lemma EntryRoundTrip(r: Record)
    requires NoBars(r)
    ensures ParseEntry(Entry(r)) == Some(r)
  {
    var line := Entry(r);
    EntryJoinsFields(r);
    assert line[..|line| - 1] == Join(EntryFields(r));
    ParseBodyOf(r);
  }

  lemma ParseBodyOf(r: Record)
    requires NoBars(r)
    ensures ParseBody(Join(EntryFields(r))) == Some(r)
  {
    var f3 := ["Started: " + r.started] + EndFields(r.ended, r.note);
    var f2 := [Decimal(r.minutes) + " minutes"] + f3;
    var f1 := [r.sessionType] + f2;
    var f0 := [r.date] + f1;
    assert EntryFields(r) == f0;
    assert f0[1..] == f1 && f1[1..] == f2 && f2[1..] == f3;
    NextFieldOf(r.date, Join(f1));
    NextFieldOf(r.sessionType, Join(f2));
    assert '|' !in Decimal(r.minutes) + " minutes";
    NextFieldOf(Decimal(r.minutes) + " minutes", Join(f3));
    MinutesRoundTrip(r.minutes);
    ParseTimesOf(r.started, r.ended, r.note);
  }

  /** The fields of `Entry(r)`, without the newline. */
  function EntryFields(r: Record): seq<string> {
    [r.date, r.sessionType, Decimal(r.minutes) + " minutes", "Started: " + r.started]
      + EndFields(r.ended, r.note)
  }

  lemma EntryJoinsFields(r: Record)
    ensures Entry(r) == Join(EntryFields(r)) + "\n"
  {
    if r.note == "" {
      assert EntryFields(r) == [r.date, r.sessionType, Decimal(r.minutes) + " minutes",
        "Started: " + r.started, "Ended: " + r.ended];
    } else {
      assert EntryFields(r) == [r.date, r.sessionType, Decimal(r.minutes) + " minutes",
        "Started: " + r.started, "Ended: " + r.ended, "Note: " + r.note];
    }
  }

  /** A logged line is exactly one line: its only line break is the last
      character. */
  lemma EntryIsOneLine(r: Record)
    requires NoNewlines(r)
    ensures Count(Entry(r), '\n') == 1
    ensures Entry(r)[|Entry(r)| - 1] == '\n'
  {
    var line := Entry(r);
    var fields := EntryFields(r);
    EntryJoinsFields(r);
    assert '\n' !in Decimal(r.minutes);
    JoinAvoids(fields, '\n');
    CountAbsent(Join(fields), '\n');
    CountConcat(Join(fields), "\n", '\n');
    assert Count("\n", '\n') == Count("", '\n') + 1;
  }

  /** When no field but the note can contain an `N`, a line without a note
      has no `Note:` anywhere, and in a line with a note the first `N` opens
      the single ` | Note: ` field, which holds the note verbatim. */
  lemma NoteMarker(r: Record)
    requires 'N' !in r.date && 'N' !in r.sessionType && 'N' !in r.started && 'N' !in r.ended
    ensures r.note == "" ==> 'N' !in Entry(r)
    ensures r.note != "" ==>
      var k := |Entry(r.(note := ""))| - 1;
      && |Entry(r)| == k + |" | Note: "| + |r.note| + 1
      && Entry(r)[k..] == " | Note: " + r.note + "\n"
      && 'N' !in Entry(r)[..k + 3]
  {
    var plain := Entry(r.(note := ""));
    NoteFreePlain(r.(note := ""));
    if r.note == "" {
      assert r.(note := "") == r;
    } else {
      NoteSuffix(r);
      var k := |plain| - 1;
      assert Entry(r)[..k + 3] == plain[..k] + " | ";
      assert Entry(r)[k..] == " | Note: " + r.note + "\n";
    }
  }

  lemma NoteFreePlain(r: Record)
    requires r.note == ""
    requires 'N' !in r.date && 'N' !in r.sessionType && 'N' !in r.started && 'N' !in r.ended
    ensures 'N' !in Entry(r)
  {
    var fields := EntryFields(r);
    EntryJoinsFields(r);
    assert 'N' !in Decimal(r.minutes);
    JoinAvoids(fields, 'N');
  }

  const Placeholder: string := "No sessions logged yet.\n"

  /** What `view_log` prints below its banner for a log that is `present`
      (readable) and holds `text`. */
  function ViewText(present: bool, text: string): string {
    if present then
      if text == "" then Placeholder + "\n" else text + "\n"
    else
      Placeholder + "\n"
  }

  /** `pomodoro_log.txt`. `present` is whether reading it succeeds; a log
      that cannot be read is treated like a missing one, and holds no
      text. Sessions are only ever appended. */
  class LogFile {
    var present: bool
    var text: string

    ghost predicate Valid()
      reads this
    {
      !present ==> text == ""
    }

    /** No log file yet. */
    constructor ()
      ensures Valid() && !present && text == ""
    {
      present := false;
      text := "";
    }

    /** A log file left by an earlier run. */
    constructor Existing(contents: string)
      ensures Valid() && present && text == contents
    {
      present := true;
      text := contents;
    }

    /** Opening with `create(true).append(true)` and `write_all`: the file
      exists afterwards and `entry` follows what it held. */
    method Append(entry: string)
      requires Valid()
      modifies this
      ensures Valid() && present
      ensures text == old(text) + entry
    {
      present := true;
      text := text + entry;
    }

    /** `view_log`: what it prints below its banner. A missing or empty log
      shows the placeholder, any other log is shown verbatim; viewing
      changes nothing. */
    method View() returns (shown: string)
      requires Valid()
      ensures shown == (if text == "" then Placeholder + "\n" else text + "\n")
      ensures !present || text == "" ==> shown == Placeholder + "\n"
      ensures present && text != "" ==> shown == text + "\n"
      ensures shown == ViewText(present, text)
    {
      shown := ViewText(present, text);
    }
  }

  /** `log_session`: formats the session's line and appends it to the log. */
  method LogSession(log: LogFile, sessionType: string, duration: nat, stamps: Stamps, note: string)
    requires log.Valid()
    modifies log
    ensures log.Valid() && log.present
    ensures log.text == old(log.text)
              + Entry(Record(stamps.date, sessionType, duration, stamps.started, stamps.ended, note))
  {
    var entry := Entry(Record(stamps.date, sessionType, duration, stamps.started, stamps.ended, note));
    log.Append(entry);
  }
}
