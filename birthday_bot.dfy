/**
 * The birthday reminders of `examples/birthday_bot.py`: the sheet rows sorted by this year's
 * birthday, the wrap-around day-of-year distance `day_delta`, the filter-then-format pipeline of
 * `make_birthday_msg`, the three reminders sent by the cron entry points, and the `/days N`
 * command.
 *
 * The sheet and the calendar are not modelled: each row arrives with its birthday already moved
 * to the current year, as a day of the year plus the day, month and weekday abbreviation that
 * the messages print, and "today" is its day of the year.
 */
module BirthdayBot {
  import opened Wrappers
  import opened Strings
  import opened Sorting

  /** `timetuple().tm_yday`: 1 for January 1st, up to 366 for December 31st of a leap year. */
  type DayOfYear = d: int | 1 <= d <= 366 witness 1

  /** A birthday in the current year: what the messages print of it, and its place in the year. */
  datatype Date = Date(doy: DayOfYear, day: int, month: int, dow: string)

  /** A row of the sheet (`DOB`, `Who`, `Present`) with its `date` entry added. */
  datatype Entry = Entry(dob: string, who: string, present: string, date: Date)

  /** What a cron entry point does: send a message to the configured chats, or only print a line. */
  datatype Notice = Send(text: string) | Log(text: string)

  // ---------------------------------------------------------------- day_delta

  /**
   * `day_delta`: days from `d1` forward to `d2` in a 365-day year. It is congruent to the plain
   * difference modulo 365 and lies in `0..365`; it is zero for the same day, and also for
   * December 31st of a leap year looking at January 1st.
   */
  function DayDelta(d1: DayOfYear, d2: DayOfYear): (r: int)
    ensures 0 <= r <= 365
    ensures (r - (d2 - d1)) % 365 == 0
    ensures r == 0 <==> d1 == d2 || (d1 == 366 && d2 == 1)
  {
    var until := d2 - d1;
    if until < 0 then until + 365 else until
  }

  /** Looking at the same day gives zero. */
  lemma SameDayIsZero(d: DayOfYear)
    ensures DayDelta(d, d) == 0
  {
  }

  // ---------------------------------------------------------------- _load_birthdays

  /** The sort key of `_load_birthdays`: earlier in the year first. */
  predicate ByDate(x: Entry, y: Entry) {
    x.date.doy <= y.date.doy
  }

  lemma ByDateOrders()
    ensures TotalPreorder(ByDate)
  {
  }

  /**
   * `_load_birthdays` once every row carries its `date`: a stable sort by date. The loaded list
   * holds every row once and runs through the year in order.
   */
  function LoadBirthdays(rows: seq<Entry>): (r: seq<Entry>)
    ensures multiset(r) == multiset(rows)
    ensures InDateOrder(r)
  {
    ByDateOrders();
    Sort(rows, ByDate)
  }

  predicate InDateOrder(entries: seq<Entry>) {
    forall i, j :: 0 <= i < j < |entries| ==> entries[i].date.doy <= entries[j].date.doy
  }

  // ---------------------------------------------------------------- make_birthday_msg

  /** Both filters of `make_birthday_msg`: within `days` of today, then the optional extra filter. */
  predicate Passes(e: Entry, today: DayOfYear, days: int, extra: Option<Entry -> bool>) {
    DayDelta(today, e.date.doy) < days && (extra.None? || extra.value(e))
  }

  /** The entries that pass both filters, in their original order. */
  function Selected(entries: seq<Entry>, today: DayOfYear, days: int, extra: Option<Entry -> bool>): seq<Entry> {
    if entries == [] then []
    else
      var init, last := entries[..|entries| - 1], entries[|entries| - 1];
      Selected(init, today, days, extra) + (if Passes(last, today, days, extra) then [last] else [])
  }

  /**
   * The selection keeps exactly the entries that pass, each as often as it occurs
   * (`SelectedAppend` adds that they stay in order of occurrence).
   */
  lemma SelectedMeaning(entries: seq<Entry>, today: DayOfYear, days: int, extra: Option<Entry -> bool>)
    ensures var r := Selected(entries, today, days, extra);
            && multiset(r) <= multiset(entries)
            && (forall i :: 0 <= i < |r| ==> Passes(r[i], today, days, extra))
            && (forall i :: 0 <= i < |entries| && Passes(entries[i], today, days, extra) ==> entries[i] in r)
            && (forall e :: multiset(r)[e] == if Passes(e, today, days, extra) then multiset(entries)[e] else 0)
  {
    SelectedSub(entries, today, days, extra);
    SelectedPass(entries, today, days, extra);
    SelectedKeeps(entries, today, days, extra);
    SelectedCount(entries, today, days, extra);
  }

  lemma {:induction false} SelectedSub(entries: seq<Entry>, today: DayOfYear, days: int, extra: Option<Entry -> bool>)
    ensures multiset(Selected(entries, today, days, extra)) <= multiset(entries)
  {
    if entries != [] {
      var init, last := entries[..|entries| - 1], entries[|entries| - 1];
      SelectedSub(init, today, days, extra);
      assert entries == init + [last];
    }
  }

  lemma {:induction false} SelectedPass(entries: seq<Entry>, today: DayOfYear, days: int, extra: Option<Entry -> bool>)
    ensures var r := Selected(entries, today, days, extra);
            forall i :: 0 <= i < |r| ==> Passes(r[i], today, days, extra)
  {
    if entries != [] {
      var init, last := entries[..|entries| - 1], entries[|entries| - 1];
      SelectedPass(init, today, days, extra);
      var r0 := Selected(init, today, days, extra);
      var r := Selected(entries, today, days, extra);
      assert forall k :: 0 <= k < |Selected(init, today, days, extra)| ==> Passes(Selected(init, today, days, extra)[k], today, days, extra);
      assert r == r0 + (if Passes(last, today, days, extra) then [last] else []);
      forall i | 0 <= i < |r|
        ensures Passes(r[i], today, days, extra)
      {
        if i < |r0| {
          assert r[i] == r0[i];
          assert Passes(r0[i], today, days, extra);
        } else {
          assert Passes(last, today, days, extra);
          assert r[i] == last;
        }
      }
    }
  }

  lemma {:induction false} SelectedKeeps(entries: seq<Entry>, today: DayOfYear, days: int, extra: Option<Entry -> bool>)
    ensures var r := Selected(entries, today, days, extra);
            forall i :: 0 <= i < |entries| && Passes(entries[i], today, days, extra) ==> entries[i] in r
  {
    if entries != [] {
      var init := entries[..|entries| - 1];
      SelectedKeeps(init, today, days, extra);
      assert forall i :: 0 <= i < |init| ==> entries[i] == init[i];
    }
  }

  lemma {:induction false} SelectedCount(entries: seq<Entry>, today: DayOfYear, days: int, extra: Option<Entry -> bool>)
    ensures var r := Selected(entries, today, days, extra);
            forall e :: multiset(r)[e] == if Passes(e, today, days, extra) then multiset(entries)[e] else 0
  {
    if entries != [] {
      var init, last := entries[..|entries| - 1], entries[|entries| - 1];
      SelectedCount(init, today, days, extra);
      assert entries == init + [last];
    }
  }

  /**
   * Filtering a list made of two parts filters each part and keeps them in that order: together
   * with `Selected([e])` being `[e]` or `[]`, the kept entries keep their order of occurrence.
   */
  lemma {:induction false} SelectedAppend(a: seq<Entry>, b: seq<Entry>, today: DayOfYear, days: int, extra: Option<Entry -> bool>)
    ensures Selected(a + b, today, days, extra) == Selected(a, today, days, extra) + Selected(b, today, days, extra)
  {
    if b == [] {
      assert a + b == a;
    } else {
      var init, last := b[..|b| - 1], b[|b| - 1];
      SelectedAppend(a, init, today, days, extra);
      assert (a + b)[..|a + b| - 1] == a + init;
      assert (a + b)[|a + b| - 1] == last;
    }
  }

  /** Filtering the loaded list, which runs through the year in order, leaves it in that order. */
  lemma {:induction false} SelectedInDateOrder(entries: seq<Entry>, today: DayOfYear, days: int, extra: Option<Entry -> bool>)
    requires InDateOrder(entries)
    ensures InDateOrder(Selected(entries, today, days, extra))
  {
    if entries != [] {
      var init, last := entries[..|entries| - 1], entries[|entries| - 1];
      var r0 := Selected(init, today, days, extra);
      assert InDateOrder(init) by {
        assert forall i :: 0 <= i < |init| ==> init[i] == entries[i];
      }
      SelectedInDateOrder(init, today, days, extra);
      if Passes(last, today, days, extra) {
        SelectedSub(init, today, days, extra);
        forall x | x in r0
          ensures x.date.doy <= last.date.doy
        {
          assert x in multiset(init);
          BeforeLast(entries, x);
        }
        InDateOrderSnoc(r0, last);
      }
    }
  }

  lemma BeforeLast(entries: seq<Entry>, x: Entry)
    requires InDateOrder(entries) && |entries| >= 1 && x in entries[..|entries| - 1]
    ensures x.date.doy <= entries[|entries| - 1].date.doy
  {
    var k :| 0 <= k < |entries| - 1 && entries[..|entries| - 1][k] == x;
    assert entries[k] == x;
  }

  lemma InDateOrderSnoc(r0: seq<Entry>, last: Entry)
    requires InDateOrder(r0) && forall x :: x in r0 ==> x.date.doy <= last.date.doy
    ensures InDateOrder(r0 + [last])
  {
    var r := r0 + [last];
    forall i, j | 0 <= i < j < |r|
      ensures r[i].date.doy <= r[j].date.doy
    {
      assert r[i] == r0[i];
      if j < |r0| {
        assert r[j] == r0[j];
      }
    }
  }

  /** `norm_msg` */
  function NormLine(e: Entry): string {
    IntToString(e.date.day) + "." + IntToString(e.date.month) + " " + e.date.dow + " - " + e.who
  }

  /** `present_msg` */
  function PresentLine(e: Entry): string {
    NormLine(e) + ", " + e.present + " maybe?"
  }

  /** The line of one birthday: with the present idea exactly when the sheet has one. */
  function Line(e: Entry): string {
    if e.present == "" then NormLine(e) else PresentLine(e)
  }

  /** The lines of the given birthdays, in order. */
  function Lines(entries: seq<Entry>): (r: seq<string>)
    ensures |r| == |entries|
    ensures forall i :: 0 <= i < |entries| ==> r[i] == Line(entries[i])
  {
    seq(|entries|, i requires 0 <= i < |entries| => Line(entries[i]))
  }

  /** What `make_birthday_msg` returns for the loaded list. */
  function BirthdayMessage(entries: seq<Entry>, today: DayOfYear, days: int, extra: Option<Entry -> bool>): string {
    Join(Lines(Selected(entries, today, days, extra)), "\n")
  }

  /** `make_birthday_msg` on the loaded list: the loop appending one line per passing birthday. */
  method MakeBirthdayMsg(entries: seq<Entry>, today: DayOfYear, days: int, extra: Option<Entry -> bool>)
    returns (msg: string)
    ensures msg == BirthdayMessage(entries, today, days, extra)
  {
    var message: seq<string> := [];
    for j := 0 to |entries|
      invariant message == Lines(Selected(entries[..j], today, days, extra))
    {
      assert entries[..j + 1][..j] == entries[..j];
      LinesSnoc(Selected(entries[..j], today, days, extra), entries[j]);
      if Passes(entries[j], today, days, extra) {
        message := message + [Line(entries[j])];
      }
    }
    assert entries[..|entries|] == entries;
    msg := Join(message, "\n");
  }

  lemma LinesSnoc(s: seq<Entry>, e: Entry)
    ensures Lines(s + [e]) == Lines(s) + [Line(e)]
  {
    assert forall i :: 0 <= i < |s| ==> Lines(s + [e])[i] == Lines(s)[i];
  }

  /** Every line starts with the day, so none is empty. */
  lemma LineNonEmpty(e: Entry)
    ensures Line(e) != ""
  {
    IntToStringChars(e.date.day);
  }

  /** Joining lines none of which is empty gives "" exactly when there are none. */
  lemma {:induction false} JoinEmpty(parts: seq<string>, sep: string)
    requires forall i :: 0 <= i < |parts| ==> parts[i] != ""
    ensures Join(parts, sep) == "" <==> parts == []
  {
    if parts != [] {
      JoinNonEmpty(parts, sep);
    }
  }

  /** The message is empty exactly when no birthday passes the filters. */
  lemma EmptyIffNonePass(entries: seq<Entry>, today: DayOfYear, days: int, extra: Option<Entry -> bool>)
    ensures BirthdayMessage(entries, today, days, extra) == "" <==>
              forall i :: 0 <= i < |entries| ==> !Passes(entries[i], today, days, extra)
  {
    var sel := Selected(entries, today, days, extra);
    SelectedMeaning(entries, today, days, extra);
    forall i | 0 <= i < |sel|
      ensures Lines(sel)[i] != ""
    {
      LineNonEmpty(sel[i]);
    }
    JoinEmpty(Lines(sel), "\n");
    if sel != [] {
      assert sel[0] in multiset(entries);
    }
  }

  /** A line holds no line break when the fields it prints hold none. */
  lemma LineUnbroken(e: Entry)
    requires '\n' !in e.date.dow && '\n' !in e.who && '\n' !in e.present
    ensures '\n' !in Line(e)
  {
    IntToStringChars(e.date.day);
    IntToStringChars(e.date.month);
  }

  /**
   * When no name, weekday or present idea holds a line break, splitting a non-empty message on
   * line breaks gives back one line per passing birthday, in order.
   */
  lemma OneLinePerBirthday(entries: seq<Entry>, today: DayOfYear, days: int, extra: Option<Entry -> bool>)
    requires forall i :: 0 <= i < |entries| ==>
               '\n' !in entries[i].date.dow && '\n' !in entries[i].who && '\n' !in entries[i].present
    requires BirthdayMessage(entries, today, days, extra) != ""
    ensures Split(BirthdayMessage(entries, today, days, extra), '\n') == Lines(Selected(entries, today, days, extra))
    ensures var sel := Selected(entries, today, days, extra);
            forall i :: 0 <= i < |sel| ==>
              Split(BirthdayMessage(entries, today, days, extra), '\n')[i] ==
                if sel[i].present != "" then PresentLine(sel[i]) else NormLine(sel[i])
  {
    var sel := Selected(entries, today, days, extra);
    SelectedMeaning(entries, today, days, extra);
    forall i | 0 <= i < |sel|
      ensures '\n' !in Lines(sel)[i]
    {
      assert sel[i] in multiset(entries);
      LineUnbroken(sel[i]);
    }
    assert sel != [];
    JoinSplit(Lines(sel), '\n');
  }

  // ---------------------------------------------------------------- the cron entry points

  /** The extra filter of `presents`: only birthdays with a present idea. */
  predicate HasPresent(e: Entry) {
    e.present != ""
  }

  /** Send the message if it has any line, otherwise print the given line. */
  function Notify(msg: string, quiet: string): (r: Notice)
    ensures r.Send? <==> msg != ""
    ensures r.Send? ==> r.text == msg
  {
    if msg != "" then Send(msg) else Log(quiet)
  }

  /** `todays` as written: `make_birthday_msg(0)`. */
  function TodaysAsWritten(entries: seq<Entry>, today: DayOfYear): Notice {
    Notify(BirthdayMessage(entries, today, 0, None), "no birthdays today")
  }

  /** No distance is below zero, so `todays` as written never sends anything. */
  lemma TodaysNeverSends(entries: seq<Entry>, today: DayOfYear)
    ensures TodaysAsWritten(entries, today) == Log("no birthdays today")
  {
    EmptyIffNonePass(entries, today, 0, None);
  }

  /** `todays` as intended: the birthdays zero days away, `make_birthday_msg(1)`. */
  function Todays(entries: seq<Entry>, today: DayOfYear): Notice {
    Notify(BirthdayMessage(entries, today, 1, None), "no birthdays today")
  }

  /** The intended `todays` sends exactly when some birthday is zero days away. */
  lemma TodaysSendsForToday(entries: seq<Entry>, today: DayOfYear)
    ensures Todays(entries, today).Send? <==>
              exists i :: 0 <= i < |entries| && DayDelta(today, entries[i].date.doy) == 0
  {
    EmptyIffNonePass(entries, today, 1, None);
    if exists i :: 0 <= i < |entries| && DayDelta(today, entries[i].date.doy) == 0 {
      var i :| 0 <= i < |entries| && DayDelta(today, entries[i].date.doy) == 0;
      assert Passes(entries[i], today, 1, None);
    }
  }

  /** `birthdays(days)` */
  function Birthdays(entries: seq<Entry>, today: DayOfYear, days: int): Notice {
    Notify(BirthdayMessage(entries, today, days, None), "no birthdays in the next " + IntToString(days))
  }

  /** `presents(days)` */
  function Presents(entries: seq<Entry>, today: DayOfYear, days: int): Notice {
    Notify(BirthdayMessage(entries, today, days, Some(HasPresent)), "no birthdays in the next " + IntToString(days))
  }

  /** `birthdays(days)` sends a message exactly when some birthday is less than `days` days away. */
  lemma BirthdaysInWindow(entries: seq<Entry>, today: DayOfYear, days: int)
    ensures Birthdays(entries, today, days).Send? <==>
              exists i :: 0 <= i < |entries| && DayDelta(today, entries[i].date.doy) < days
    ensures Birthdays(entries, today, days).Log? ==>
              Birthdays(entries, today, days).text == "no birthdays in the next " + IntToString(days)
  {
    EmptyIffNonePass(entries, today, days, None);
    if exists i :: 0 <= i < |entries| && DayDelta(today, entries[i].date.doy) < days {
      var i :| 0 <= i < |entries| && DayDelta(today, entries[i].date.doy) < days;
      assert Passes(entries[i], today, days, None);
    }
  }

  /** `presents(days)` sends a message exactly when some birthday with a present idea is in the window. */
  lemma PresentsInWindow(entries: seq<Entry>, today: DayOfYear, days: int)
    ensures Presents(entries, today, days).Send? <==>
              exists i :: 0 <= i < |entries| && DayDelta(today, entries[i].date.doy) < days && entries[i].present != ""
    ensures Presents(entries, today, days).Log? ==>
              Presents(entries, today, days).text == "no birthdays in the next " + IntToString(days)
  {
    EmptyIffNonePass(entries, today, days, Some(HasPresent));
    if exists i :: 0 <= i < |entries| && DayDelta(today, entries[i].date.doy) < days && entries[i].present != "" {
      var i :| 0 <= i < |entries| && DayDelta(today, entries[i].date.doy) < days && entries[i].present != "";
      assert Passes(entries[i], today, days, Some(HasPresent));
    }
  }

  /** Every line `presents` sends names a present idea. */
  lemma PresentsUsePresentLines(entries: seq<Entry>, today: DayOfYear, days: int)
    ensures var sel := Selected(entries, today, days, Some(HasPresent));
            forall i :: 0 <= i < |sel| ==> sel[i].present != "" && Lines(sel)[i] == PresentLine(sel[i])
  {
    SelectedMeaning(entries, today, days, Some(HasPresent));
  }

  /** A widened window only adds birthdays: whatever `birthdays(d)` lists, `birthdays(d')` lists too. */
  lemma WiderWindow(entries: seq<Entry>, today: DayOfYear, days: int, days': int, e: Entry)
    requires days <= days'
    requires e in Selected(entries, today, days, None)
    ensures e in Selected(entries, today, days', None)
  {
    SelectedMeaning(entries, today, days, None);
    SelectedMeaning(entries, today, days', None);
    assert e in multiset(entries);
  }

  // ---------------------------------------------------------------- /days N

  const Unspecified := "please specify a number of days"

  /** The argument of `/days`: the text after the first space, stripped, if it is a number. */
  function DaysArgument(text: string): (r: Option<nat>)
    ensures r.Some? ==> ' ' in text
    ensures SplitFirst(text, ' ').Some? ==> (r.Some? <==> IsNumeric(Strip(SplitFirst(text, ' ').value.1)))
  {
    match SplitFirst(text, ' ')
    case None => None
    case Some((_, rest)) =>
      var arg := Strip(rest);
      if IsNumeric(arg) then Some(DigitsValue(arg)) else None
  }

  /** The replies of the `/days` command, in order. */
  function DaysReplies(text: string, entries: seq<Entry>, today: DayOfYear): (r: seq<string>)
    ensures DaysArgument(text).None? <==> r == [Unspecified]
    ensures 1 <= |r| <= 2
  {
    match DaysArgument(text)
    case None => [Unspecified]
    case Some(days) =>
      var msg := BirthdayMessage(entries, today, days, None);
      var none := "No birthdays in the next " + IntToString(days) + " days";
      var header := "Here is a list of birthdays in the next " + IntToString(days) + " days";
      assert none[0] != Unspecified[0] && header[0] != Unspecified[0];
      if msg == "" then [none] else [header, msg]
  }

  /** A command word and a written-out number: the reply is about that many days. */
  lemma DaysOfNumber(command: string, n: nat, entries: seq<Entry>, today: DayOfYear)
    requires ' ' !in command
    ensures DaysArgument(command + " " + NatToString(n)) == Some(n)
    ensures var msg := BirthdayMessage(entries, today, n, None);
            DaysReplies(command + " " + NatToString(n), entries, today) ==
              if msg == "" then ["No birthdays in the next " + NatToString(n) + " days"]
              else ["Here is a list of birthdays in the next " + NatToString(n) + " days", msg]
  {
    var digits := NatToString(n);
    SplitFirstAt(command, ' ', digits);
    assert command + " " + digits == command + [' '] + digits;
    StripUnpadded(digits);
    DigitsValueOfNat(n);
  }

  /** A command word followed by text that is not a number once stripped is refused. */
  lemma NonNumericRefused(command: string, t: string, entries: seq<Entry>, today: DayOfYear)
    requires ' ' !in command && !IsNumeric(Strip(t))
    ensures DaysArgument(command + " " + t).None?
    ensures DaysReplies(command + " " + t, entries, today) == [Unspecified]
  {
    SplitFirstAt(command, ' ', t);
    assert command + " " + t == command + [' '] + t;
  }

  /** A command with nothing after it, or no space at all, is refused. */
  lemma DaysWithoutArgument(command: string)
    requires ' ' !in command
    ensures DaysArgument(command).None?
    ensures DaysArgument(command + " ").None?
  {
    SplitFirstAt(command, ' ', "");
    assert command + " " == command + [' '] + "";
  }
}
