/** The menu loop of `main` and the session routine `start_timer`. Terminal
    input is replaced by the lines the user types, one `Turn` per pass of the
    menu loop, and the clock readings of each session are passed in already
    formatted. */
module Pomodoro {
  import opened Text
  import opened Timer
  import opened SessionLog

  /** What one menu choice does. */
  datatype Action =
    | Start(minutes: nat, sessionType: string)
    | ViewLog
    | Exit
    | Invalid

  /** The four presets offered by the menu. */
  predicate IsPreset(minutes: nat, sessionType: string) {
    || (minutes == 25 && sessionType == "Work")
    || (minutes == 5 && sessionType == "Short Break")
    || (minutes == 15 && sessionType == "Long Break")
    || (minutes == 1 && sessionType == "Test")
  }

  /** `match choice.trim()`: the action a menu line selects. Only the four
      presets start a session, only "5" views the log, and a line that trims
      to none of "1" to "6" is rejected. */
  function Dispatch(line: string): (a: Action)
    ensures a.Start? ==> IsPreset(a.minutes, a.sessionType)
    ensures a.Start? <==> Trim(line) in {"1", "2", "3", "4"}
    ensures a == ViewLog <==> Trim(line) == "5"
    ensures a == Invalid <==> Trim(line) !in {"1", "2", "3", "4", "5", "6"}
  {
    var choice := Trim(line);
    if choice == "1" then Start(25, "Work")
    else if choice == "2" then Start(5, "Short Break")
    else if choice == "3" then Start(15, "Long Break")
    else if choice == "4" then Start(1, "Test")
    else if choice == "5" then ViewLog
    else if choice == "6" then Exit
    else Invalid
  }

  /** Each choice is recognised whatever whitespace surrounds it. */
  lemma DispatchTable(pre: string, post: string)
    requires AllWhitespace(pre) && AllWhitespace(post)
    ensures Dispatch(pre + "1" + post) == Start(25, "Work")
    ensures Dispatch(pre + "2" + post) == Start(5, "Short Break")
    ensures Dispatch(pre + "3" + post) == Start(15, "Long Break")
    ensures Dispatch(pre + "4" + post) == Start(1, "Test")
    ensures Dispatch(pre + "5" + post) == ViewLog
    ensures Dispatch(pre + "6" + post) == Exit
  {
    TrimPadded(pre, "1", post);
    TrimPadded(pre, "2", post);
    TrimPadded(pre, "3", post);
    TrimPadded(pre, "4", post);
    TrimPadded(pre, "5", post);
    TrimPadded(pre, "6", post);
  }

  /** `start_timer`: count the session down, then log it with the trimmed
      note. The sleep, the banners, the alert and the closing pause are not
      modelled. */
  method StartTimer(log: LogFile, minutes: nat, sessionType: string, stamps: Stamps, noteLine: string)
    returns (ticks: seq<Tick>)
    requires log.Valid()
    requires minutes * 60 <= U32_MAX
    modifies log
    ensures |ticks| == minutes * 60
    ensures forall i :: 0 <= i < |ticks| ==>
              ticks[i].secs < 60 && Seconds(ticks[i]) == minutes * 60 - i
    ensures log.Valid() && log.present
    ensures log.text == old(log.text)
              + Entry(Record(stamps.date, sessionType, minutes, stamps.started, stamps.ended, Trim(noteLine)))
  {
    ticks := Countdown(minutes);
    var note := Trim(noteLine);
    LogSession(log, sessionType, minutes, stamps, note);
  }

  /** The input of one pass of the menu loop: the menu line, and, used only
      when that line starts a session, the session's clock readings and the
      note line typed at its end. */
  datatype Turn = Turn(choice: string, stamps: Stamps, note: string)

  /** A pass of the menu loop once its lines have been read: the action
      chosen and the line it appends to the log, empty unless it ran a
      session. */
  datatype Pass = Pass(action: Action, entry: string)

  /** A pass whose entry is non-empty exactly when it runs a session. */
  predicate Recorded(p: Pass) {
    p.entry != "" <==> p.action.Start?
  }

  /** The pass a turn makes: a session logs its entry with the trimmed note. */
  function PassOf(t: Turn): (p: Pass)
    ensures Recorded(p)
  {
    var a := Dispatch(t.choice);
    if a.Start? then
      Pass(a, Entry(Record(t.stamps.date, a.sessionType, a.minutes, t.stamps.started, t.stamps.ended, Trim(t.note))))
    else
      Pass(a, "")
  }

  /** The passes of the lines `turns`. */
  function Passes(turns: seq<Turn>): (ps: seq<Pass>)
    ensures |ps| == |turns|
  {
    if turns == [] then [] else [PassOf(turns[0])] + Passes(turns[1..])
  }

  lemma {:induction false} PassesAt(turns: seq<Turn>, i: nat)
    requires i < |turns|
    ensures Passes(turns)[i] == PassOf(turns[i])
  {
    if i > 0 {
      PassesAt(turns[1..], i - 1);
    }
  }

  /** What the loop of `main` has produced so far: whether the log file
      exists, its text, and what each view of it has printed. */
  datatype Screen = Screen(present: bool, text: string, views: seq<string>)

  /** The effect of one pass that does not exit: a session appends its entry
      and creates the file, a view prints the log as it stands, an invalid
      choice changes nothing. */
  function Step(s: Screen, p: Pass): Screen {
    match p.action
    case Start(_, _) => Screen(true, s.text + p.entry, s.views)
    case ViewLog => Screen(s.present, s.text, s.views + [ViewText(s.present, s.text)])
    case _ => s
  }

  /** Where the loop ends: the screen, whether it left through the exit
      choice, and how many passes it made. */
  datatype Outcome = Outcome(screen: Screen, exited: bool, used: nat)

  /** The loop of `main` run from `s` over the passes `ps`, one after the
      other, until the exit choice or the end of the input. */
  function Run(s: Screen, ps: seq<Pass>): (o: Outcome)
    ensures o.used <= |ps|
    decreases |ps|
  {
    if ps == [] then Outcome(s, false, 0)
    else if ps[0].action == Exit then Outcome(s, true, 1)
    else
      var o := Run(Step(s, ps[0]), ps[1..]);
      o.(used := o.used + 1)
  }

  /** One pass of the loop of `main`: run the session or show the log the
      line chooses, reject the line, or report the exit choice. */
  method RunPass(log: LogFile, t: Turn, views: seq<string>) returns (exit: bool, views': seq<string>)
    requires log.Valid()
    modifies log
    ensures log.Valid()
    ensures exit <==> PassOf(t).action == Exit
    ensures !exit ==>
      Screen(log.present, log.text, views') == Step(Screen(old(log.present), old(log.text), views), PassOf(t))
    ensures exit ==> log.present == old(log.present) && log.text == old(log.text) && views' == views
  {
    var action := Dispatch(t.choice);
    exit, views' := false, views;
    match action
    case Start(minutes, sessionType) =>
      var _ := StartTimer(log, minutes, sessionType, t.stamps, t.note);
    case ViewLog =>
      var view := log.View();
      views' := views + [view];
    case Exit =>
      exit := true;
    case Invalid =>
  }

  /** The loop of `main`, fed the lines of `turns`: it ends as `Run` says of
      their passes. */
  method RunMenu(log: LogFile, turns: seq<Turn>) returns (exited: bool, used: nat, views: seq<string>)
    requires log.Valid()
    modifies log
    ensures log.Valid()
    ensures Outcome(Screen(log.present, log.text, views), exited, used)
      == Run(Screen(old(log.present), old(log.text), []), Passes(turns))
  {
    exited, used, views := false, 0, [];
    while used < |turns|
      invariant used <= |turns|
      invariant log.Valid()
      invariant Run(Screen(old(log.present), old(log.text), []), Passes(turns))
        == var o := Run(Screen(log.present, log.text, views), Passes(turns[used..])); o.(used := o.used + used)
    {
      assert turns[used..][1..] == turns[used + 1..];
      var exit;
      exit, views := RunPass(log, turns[used], views);
      used := used + 1;
      if exit {
        exited := true;
        return;
      }
    }
  }

  // ---------------------------------------------------------------------
  // The loop described pass by pass

  /** The text the passes `ps` append to the log, in order. */
  function Logged(ps: seq<Pass>): string {
    if ps == [] then "" else ps[0].entry + Logged(ps[1..])
  }

  /** The number of sessions the passes `ps` run. */
  function Sessions(ps: seq<Pass>): nat {
    if ps == [] then 0 else (if ps[0].action.Start? then 1 else 0) + Sessions(ps[1..])
  }

  /** What the views among `ps` print, in order, for a log that starts out
      `present` and holding `text`: each view shows the log as the passes
      before it left it. */
  function Views(present: bool, text: string, ps: seq<Pass>): seq<string>
    decreases |ps|
  {
    if ps == [] then []
    else
      var p := ps[0];
      (if p.action == ViewLog then [ViewText(present, text)] else [])
        + Views(present || p.action.Start?, text + p.entry, ps[1..])
  }

  // ---------------------------------------------------------------------
  // Properties of the loop

  lemma DispatchExit(line: string)
    ensures Dispatch(line) == Exit <==> Trim(line) == "6"
  {
  }

  /** The loop leaves through the exit choice exactly when some pass chooses
      it, and then at the first such pass; otherwise it makes every pass. */
  lemma {:induction false} ExitFirst(s: Screen, ps: seq<Pass>)
    decreases |ps|
    ensures var o := Run(s, ps);
      && (o.exited <==> exists i :: 0 <= i < |ps| && ps[i].action == Exit)
      && (o.exited ==> 1 <= o.used && ps[o.used - 1].action == Exit)
      && (!o.exited ==> o.used == |ps|)
      && (forall i :: 0 <= i < |ps| && ps[i].action == Exit ==> o.used <= i + 1)
  {
    if ps != [] && ps[0].action != Exit {
      var rest := ps[1..];
      ExitFirst(Step(s, ps[0]), rest);
      var o := Run(Step(s, ps[0]), rest);
      if o.exited {
        assert ps[o.used] == rest[o.used - 1];
      } else {
        forall i | 0 <= i < |ps| ensures ps[i].action != Exit {
          if i > 0 {
            assert ps[i] == rest[i - 1];
          }
        }
      }
      forall i | 0 <= i < |ps| && ps[i].action == Exit ensures o.used + 1 <= i + 1 {
        assert ps[i] == rest[i - 1];
      }
    }
  }

  /** The menu loop fed `turns` ends only on a line that trims to "6": it
      exits exactly when such a line comes, at the first one, having read no
      line after it; otherwise it reads every line. */
  lemma ExitOnlyOnSix(s: Screen, turns: seq<Turn>)
    ensures var o := Run(s, Passes(turns));
      && (o.exited <==> exists i :: 0 <= i < |turns| && Trim(turns[i].choice) == "6")
      && (o.exited ==> 1 <= o.used && Trim(turns[o.used - 1].choice) == "6")
      && (!o.exited ==> o.used == |turns|)
      && (forall i :: 0 <= i < |turns| && Trim(turns[i].choice) == "6" ==> o.used <= i + 1)
  {
    var ps := Passes(turns);
    forall i | 0 <= i < |turns|
      ensures ps[i].action == Exit <==> Trim(turns[i].choice) == "6"
    {
      PassesAt(turns, i);
      DispatchExit(turns[i].choice);
    }
    ExitFirst(s, ps);
  }

  /** An invalid choice changes nothing: the loop goes on as if the line had
      not been typed. */
  lemma InvalidIsInert(s: Screen, p: Pass, ps: seq<Pass>)
    requires p.action == Invalid
    ensures var o := Run(s, ps); Run(s, [p] + ps) == o.(used := o.used + 1)
  {
    assert ([p] + ps)[1..] == ps;
  }

  /** A line that trims to none of the six choices neither starts a session
      nor touches the log: the loop goes on as if it had not been typed. */
  lemma InvalidLineIsInert(s: Screen, t: Turn, turns: seq<Turn>)
    requires Trim(t.choice) !in {"1", "2", "3", "4", "5", "6"}
    ensures PassOf(t) == Pass(Invalid, "")
    ensures var o := Run(s, Passes(turns)); Run(s, Passes([t] + turns)) == o.(used := o.used + 1)
  {
    assert ([t] + turns)[1..] == turns;
    InvalidIsInert(s, PassOf(t), Passes(turns));
  }

  lemma ConsFacts(p: Pass, ps: seq<Pass>)
    ensures Logged([p] + ps) == p.entry + Logged(ps)
    ensures Sessions([p] + ps) == (if p.action.Start? then 1 else 0) + Sessions(ps)
  {
    assert ([p] + ps)[1..] == ps;
  }

  /** Each view shows the log with the entries of every session before it
      appended to the text it started with; the file counts as present once
      a session has run. */
  lemma {:induction false} ViewsSnoc(present: bool, text: string, ps: seq<Pass>, q: Pass)
    decreases |ps|
    ensures Views(present, text, ps + [q]) == Views(present, text, ps)
      + (if q.action == ViewLog then [ViewText(present || Sessions(ps) > 0, text + Logged(ps))] else [])
  {
    if ps == [] {
      assert [] + [q] == [q];
      assert [q][1..] == [];
      assert text + "" == text;
    } else {
      var p, rest := ps[0], ps[1..];
      var present', text' := present || p.action.Start?, text + p.entry;
      assert (ps + [q])[1..] == rest + [q];
      ViewsSnoc(present', text', rest, q);
      assert text + Logged(ps) == text' + Logged(rest);
      var head := if p.action == ViewLog then [ViewText(present, text)] else [];
      var last := if q.action == ViewLog then [ViewText(present' || Sessions(rest) > 0, text' + Logged(rest))] else [];
      assert head + (Views(present', text', rest) + last) == head + Views(present', text', rest) + last;
    }
  }

  /** A pass that does not exit, in the terms of `Views`. */
  lemma StepFacts(s: Screen, p: Pass)
    requires Recorded(p) && p.action != Exit
    ensures Step(s, p).text == s.text + p.entry
    ensures Step(s, p).present == (s.present || p.action.Start?)
    ensures Step(s, p).views == s.views + (if p.action == ViewLog then [ViewText(s.present, s.text)] else [])
  {
    if !p.action.Start? {
      assert s.text + p.entry == s.text;
    }
    if p.action != ViewLog {
      assert s.views + [] == s.views;
    }
  }

  /** What `RunMatchesPasses` states about the loop from `s` over `ps`. */
  predicate MatchesPasses(s: Screen, ps: seq<Pass>) {
    var o := Run(s, ps); var made := ps[..o.used];
    && o.screen.text == s.text + Logged(made)
    && o.screen.present == (s.present || Sessions(made) > 0)
    && o.screen.views == s.views + Views(s.present, s.text, made)
  }

  lemma MatchesPassesStep(s: Screen, p: Pass, rest: seq<Pass>)
    requires Recorded(p) && p.action != Exit
    requires MatchesPasses(Step(s, p), rest)
    ensures MatchesPasses(s, [p] + rest)
  {
    var ps := [p] + rest;
    var s' := Step(s, p);
    assert ps[1..] == rest;
    var k := Run(s', rest).used;
    assert Run(s, ps).used == k + 1;
    assert ps[..k + 1] == [p] + rest[..k];
    ConsFacts(p, rest[..k]);
    assert ([p] + rest[..k])[1..] == rest[..k];
    StepFacts(s, p);
    assert s.text + p.entry + Logged(rest[..k]) == s.text + (p.entry + Logged(rest[..k]));
    var head := if p.action == ViewLog then [ViewText(s.present, s.text)] else [];
    var later := Views(s'.present, s'.text, rest[..k]);
    assert s.views + head + later == s.views + (head + later);
  }

  /** The loop, pass by pass: the log gains the entries of the passes made,
      in order, and nothing else; the file exists once a session has run;
      and the views print what `Views` says. */
  lemma {:induction false} RunMatchesPasses(s: Screen, ps: seq<Pass>)
    requires forall i :: 0 <= i < |ps| ==> Recorded(ps[i])
    decreases |ps|
    ensures var o := Run(s, ps); var made := ps[..o.used];
      && o.screen.text == s.text + Logged(made)
      && o.screen.present == (s.present || Sessions(made) > 0)
      && o.screen.views == s.views + Views(s.present, s.text, made)
  {
    if ps == [] {
      assert ps[..0] == [];
    } else {
      var p := ps[0];
      assert Recorded(p);
      if p.action == Exit {
        assert ps[..1] == [p];
        assert [p][..0] == [];
        assert [p][1..] == [];
      } else {
        RunMatchesPasses(Step(s, p), ps[1..]);
        assert [p] + ps[1..] == ps;
        MatchesPassesStep(s, p, ps[1..]);
      }
    }
  }

  /** The passes of any lines are recorded. */
  lemma PassesRecorded(turns: seq<Turn>)
    ensures forall i :: 0 <= i < |turns| ==> Recorded(Passes(turns)[i])
  {
    forall i | 0 <= i < |turns| ensures Recorded(Passes(turns)[i]) {
      PassesAt(turns, i);
    }
  }

  /** The log gains text exactly when some session has run. */
  lemma {:induction false} LoggedEmpty(ps: seq<Pass>)
    requires forall i :: 0 <= i < |ps| ==> Recorded(ps[i])
    ensures Logged(ps) == "" <==> Sessions(ps) == 0
  {
    if ps != [] {
      assert Recorded(ps[0]);
      LoggedEmpty(ps[1..]);
    }
  }

  /** A view prints the whole log, new entries included, once a session has
      run; before any session it prints the file as it was, or the
      placeholder when it was missing or empty. */
  lemma ViewAfter(present: bool, text: string, before: seq<Pass>, p: Pass)
    requires forall i :: 0 <= i < |before| ==> Recorded(before[i])
    requires p.action == ViewLog
    ensures Views(present, text, before + [p]) == Views(present, text, before)
      + [if Sessions(before) > 0 then text + Logged(before) + "\n" else ViewText(present, text)]
  {
    ViewsSnoc(present, text, before, p);
    LoggedEmpty(before);
    if Sessions(before) == 0 {
      assert text + Logged(before) == text;
    }
  }

  /** A turn whose clock readings are in `chrono`'s formats and whose note is
      a line as `read_line` returns it. */
  predicate WellFormed(t: Turn) {
    IsChronoText(t.stamps) && IsLine(t.note)
  }

  /** The record a session turn logs. */
  function SessionRecord(t: Turn): Record
    requires Dispatch(t.choice).Start?
  {
    var a := Dispatch(t.choice);
    Record(t.stamps.date, a.sessionType, a.minutes, t.stamps.started, t.stamps.ended, Trim(t.note))
  }

  lemma PresetIsPlain(minutes: nat, sessionType: string)
    requires IsPreset(minutes, sessionType)
    ensures '|' !in sessionType && '\n' !in sessionType && 'N' !in sessionType
  {
  }

  /** The line a session writes reads back as that session: the preset, the
      clock readings and the trimmed note. */
  lemma SessionEntryReadsBack(t: Turn)
    requires WellFormed(t) && Dispatch(t.choice).Start?
    ensures PassOf(t).entry == Entry(SessionRecord(t))
    ensures ParseEntry(PassOf(t).entry) == Some(SessionRecord(t))
  {
    var r := SessionRecord(t);
    PresetIsPlain(r.minutes, r.sessionType);
    ChronoTextIsPlain(t.stamps, '|');
    EntryRoundTrip(r);
  }

  /** The line a session writes is exactly one line. */
  lemma SessionEntryIsOneLine(t: Turn)
    requires WellFormed(t) && Dispatch(t.choice).Start?
    ensures Count(PassOf(t).entry, '\n') == 1
  {
    var r := SessionRecord(t);
    PresetIsPlain(r.minutes, r.sessionType);
    ChronoTextIsPlain(t.stamps, '\n');
    TrimmedLineHasNoBreak(t.note);
    EntryIsOneLine(r);
  }

  /** The line a session writes has a note field exactly when the note typed
      was not blank. */
  lemma SessionEntryNote(t: Turn)
    requires WellFormed(t) && Dispatch(t.choice).Start?
    ensures 'N' !in PassOf(t).entry <==> AllWhitespace(t.note)
  {
    var r := SessionRecord(t);
    PresetIsPlain(r.minutes, r.sessionType);
    ChronoTextIsPlain(t.stamps, 'N');
    TrimEmpty(t.note);
    NoteMarker(r);
    if r.note != "" {
      var k := |Entry(r.(note := ""))| - 1;
      assert Entry(r)[k + 3] == 'N';
    }
  }

  /** Every session adds exactly one line to the log, and nothing else
      adds any. */
  lemma {:induction false} LoggedLines(ps: seq<Pass>)
    requires forall i :: 0 <= i < |ps| ==> Count(ps[i].entry, '\n') == (if ps[i].action.Start? then 1 else 0)
    ensures Count(Logged(ps), '\n') == Sessions(ps)
  {
    if ps != [] {
      var rest := ps[1..];
      assert forall i :: 0 <= i < |rest| ==> rest[i] == ps[i + 1];
      LoggedLines(rest);
      CountConcat(ps[0].entry, Logged(rest), '\n');
    }
  }

  /** After the loop over lines whose sessions are well formed, the log holds its old text
      followed by one line per session run. */
  lemma OneLinePerSession(s: Screen, turns: seq<Turn>)
    requires forall i :: 0 <= i < |turns| && Dispatch(turns[i].choice).Start? ==> WellFormed(turns[i])
    ensures var ps := Passes(turns); var o := Run(s, ps);
      Count(o.screen.text, '\n') == Count(s.text, '\n') + Sessions(ps[..o.used])
  {
    var ps := Passes(turns);
    var o := Run(s, ps);
    PassesRecorded(turns);
    RunMatchesPasses(s, ps);
    var made := ps[..o.used];
    forall i | 0 <= i < |made|
      ensures Count(made[i].entry, '\n') == (if made[i].action.Start? then 1 else 0)
    {
      PassesAt(turns, i);
      if made[i].action.Start? {
        SessionEntryIsOneLine(turns[i]);
      }
    }
    LoggedLines(made);
    CountConcat(s.text, Logged(made), '\n');
  }

  lemma PassesPair(t1: Turn, t2: Turn)
    ensures Passes([t1, t2]) == [PassOf(t1), PassOf(t2)]
  {
    assert [t1, t2][1..] == [t2];
    assert [t2][1..] == [];
  }

  lemma TestTurn(st: Stamps)
    ensures PassOf(Turn("4\n", st, "debug\n"))
      == Pass(Start(1, "Test"), Entry(Record(st.date, "Test", 1, st.started, st.ended, "debug")))
  {
    DispatchTable("", "\n");
    assert "" + "4" + "\n" == "4\n";
    TrimPadded("", "debug", "\n");
    assert "" + "debug" + "\n" == "debug\n";
  }

  lemma ViewTurn(later: Stamps)
    ensures PassOf(Turn("5\n", later, "")) == Pass(ViewLog, "")
  {
    DispatchTable("", "\n");
    assert "" + "5" + "\n" == "5\n";
  }

  lemma SessionThenView(e: string)
    requires e != ""
    ensures Run(Screen(false, "", []), [Pass(Start(1, "Test"), e), Pass(ViewLog, "")])
      == Outcome(Screen(true, e, [e + "\n"]), false, 2)
  {
    var p1, p2 := Pass(Start(1, "Test"), e), Pass(ViewLog, "");
    var s1 := Screen(true, e, []);
    assert "" + e == e;
    assert Step(Screen(false, "", []), p1) == s1;
    assert [p2][1..] == [];
    assert Run(s1, [p2]) == Outcome(Screen(true, e, [e + "\n"]), false, 1);
    assert [p1, p2][1..] == [p2];
  }

  lemma NoteDebug(r: Record)
    requires r.note == "debug"
    ensures var e := Entry(r); |e| >= 12 && e[|e| - 12..] == "Note: debug\n"
  {
    NoteSuffix(r);
    var plain := Entry(r.(note := ""));
    var e := Entry(r);
    assert e == plain[..|plain| - 1] + " | " + ("Note: debug\n");
  }

  /** A whole run: on a machine without a log file, choosing "4", typing the
      note "debug" at the end of the one-minute session, then choosing "5",
      logs one line that ends in `Note: debug` and prints that line back as
      the log. */
  lemma TestSessionThenView(st: Stamps, later: Stamps)
    ensures var e := Entry(Record(st.date, "Test", 1, st.started, st.ended, "debug"));
      && Run(Screen(false, "", []), Passes([Turn("4\n", st, "debug\n"), Turn("5\n", later, "")]))
         == Outcome(Screen(true, e, [e + "\n"]), false, 2)
      && |e| >= 12 && e[|e| - 12..] == "Note: debug\n"
  {
    var r := Record(st.date, "Test", 1, st.started, st.ended, "debug");
    PassesPair(Turn("4\n", st, "debug\n"), Turn("5\n", later, ""));
    TestTurn(st);
    ViewTurn(later);
    SessionThenView(Entry(r));
    NoteDebug(r);
  }
}
