/**
 * The mood-colour diary of `examples/color_bot.py`: a message is either a why-note or a colour
 * name; a colour fills today's cell of the emotions sheet with an `"x"` on that colour's
 * background, a note goes to the same cell of the whys sheet, and the daily check asks for a
 * colour while today's cell is not filled in.
 *
 * The spreadsheet is a map from `(row, column)` cells to their values; the ISO week number and
 * the weekday of a date are inputs, as are the text form of today's date and the message of a
 * failed sheet write. The RGB triples of the colours are not modelled, only their names.
 */
module ColorBot {
  import opened Wrappers
  import opened Strings
  import Framework

  /** The keys of `colors`, in their dictionary order. */
  const Colors: seq<string> := ["red", "blue", "green", "orange", "purple", "black"]

  /** `date.weekday()`: Monday is 0, Sunday is 6. */
  type Weekday = d: int | 0 <= d <= 6

  /** What `week_and_day` reads of a date: its ISO week number and its weekday. */
  datatype Day = Day(isoWeek: int, weekday: Weekday)

  /** A cell of a worksheet, `(row, column)`. */
  type Cell = (int, int)

  /** `week_and_day`: the row is the ISO week, the column the weekday counted from 1. */
  function WeekAndDay(d: Day): (r: Cell)
    ensures r.0 == d.isoWeek
    ensures 1 <= r.1 <= 7
  {
    (d.isoWeek, d.weekday + 1)
  }

  /** Different weekdays of one week land in different cells of the same row. */
  lemma OneCellPerDay(a: Day, b: Day)
    requires a.isoWeek == b.isoWeek
    ensures WeekAndDay(a) == WeekAndDay(b) <==> a.weekday == b.weekday
  {
  }

  /** The three worksheets: cell values of the emotions sheet, its cell backgrounds (colour names), and the whys sheet. */
  datatype Sheets = Sheets(emotions: map<Cell, string>, backgrounds: map<Cell, string>, whys: map<Cell, string>)

  /** A cell's value: `None` for an empty cell. */
  function CellValue(sheet: map<Cell, string>, cell: Cell): Option<string> {
    if cell in sheet then Some(sheet[cell]) else None
  }

  // ---------------------------------------------------------------- make_update

  /** `text.lower().startswith("why")` */
  predicate IsWhy(text: string) {
    StartsWith(Lower(text), "why")
  }

  /** `text[4::]`: the note after "why" and one more character; empty for a shorter text. */
  function WhyNote(text: string): (r: string)
    ensures |text| >= 4 ==> text == text[..4] + r
    ensures |text| < 4 ==> r == ""
  {
    if |text| >= 4 then text[4..] else ""
  }

  /** `why_square`: the note goes into the date's cell of the whys sheet. */
  function WhySquare(s: Sheets, d: Day, note: string): (r: Sheets)
    ensures r.emotions == s.emotions && r.backgrounds == s.backgrounds
    ensures CellValue(r.whys, WeekAndDay(d)) == Some(note)
    ensures forall c :: c != WeekAndDay(d) ==> CellValue(r.whys, c) == CellValue(s.whys, c)
  {
    s.(whys := s.whys[WeekAndDay(d) := note])
  }

  /** The first write of `color_square`: `format` gives the date's cell of the emotions sheet the colour as background. */
  function FormatCell(s: Sheets, d: Day, color: string): (r: Sheets)
    ensures r.whys == s.whys && r.emotions == s.emotions
    ensures CellValue(r.backgrounds, WeekAndDay(d)) == Some(color)
    ensures forall c :: c != WeekAndDay(d) ==> CellValue(r.backgrounds, c) == CellValue(s.backgrounds, c)
  {
    s.(backgrounds := s.backgrounds[WeekAndDay(d) := color])
  }

  /** `color_square`: the date's cell of the emotions sheet gets the colour as background, then `"x"` as value. */
  function ColorSquare(s: Sheets, d: Day, color: string): (r: Sheets)
    ensures r.whys == s.whys
    ensures CellValue(r.emotions, WeekAndDay(d)) == Some("x")
    ensures CellValue(r.backgrounds, WeekAndDay(d)) == Some(color)
    ensures forall c :: c != WeekAndDay(d) ==>
              CellValue(r.emotions, c) == CellValue(s.emotions, c) && CellValue(r.backgrounds, c) == CellValue(s.backgrounds, c)
  {
    var f := FormatCell(s, d, color);
    f.(emotions := f.emotions[WeekAndDay(d) := "x"])
  }

  /**
   * A sheet write that raised: its error, and whether the `format` call of `color_square` had
   * already gone through (only the final `update` raised). A why-note has a single write.
   */
  datatype Fault = Fault(error: string, formatted: bool)

  /** The reply after the sheet writes: confirmation, or the error of the write that raised. */
  function WriteReply(today: string, what: string, failure: Option<Fault>): string {
    match failure
    case None => "Updated " + today + " with " + what
    case Some(f) => "failed: " + f.error
  }

  /** The sheets after `color_square` raised: the background is already set when only the final `update` failed. */
  function ColorSquareFailed(s: Sheets, d: Day, color: string, f: Fault): Sheets {
    if f.formatted then FormatCell(s, d, color) else s
  }

  /**
   * `make_update`: the sheets after the message and the replies, in order. `today` is the text of
   * `datetime.date.today()` and `failure` the sheet write that raised, if one did.
   */
  function MakeUpdate(s: Sheets, text: string, d: Day, today: string, failure: Option<Fault>): (r: (Sheets, seq<string>))
    ensures IsWhy(text) ==> |r.1| == 2 && r.1[0] == "You why: " + WhyNote(text)
    ensures !IsWhy(text) && Lower(text) !in Colors ==>
              r == (s, ["Invalid color " + Lower(text), "Possible colors are: " + Join(Colors, "\n")])
    ensures !IsWhy(text) && Lower(text) in Colors ==> |r.1| == 1
    ensures failure.Some? ==> r.0.emotions == s.emotions && r.0.whys == s.whys
    ensures failure.Some? && (IsWhy(text) || !failure.value.formatted) ==> r.0 == s
    ensures failure.Some? && failure.value.formatted && !IsWhy(text) && Lower(text) in Colors ==>
              CellValue(r.0.backgrounds, WeekAndDay(d)) == Some(Lower(text)) && r.0 == FormatCell(s, d, Lower(text))
    ensures failure.Some? && (IsWhy(text) || Lower(text) in Colors) ==> r.1[|r.1| - 1] == "failed: " + failure.value.error
    ensures r.0.emotions != s.emotions ==> !IsWhy(text) && Lower(text) in Colors && failure.None?
  {
    if IsWhy(text) then
      var note := WhyNote(text);
      (if failure.None? then WhySquare(s, d, note) else s, ["You why: " + note, WriteReply(today, note, failure)])
    else
      var color := Lower(text);
      if color !in Colors then
        (s, ["Invalid color " + color, "Possible colors are: " + Join(Colors, "\n")])
      else
        (if failure.None? then ColorSquare(s, d, color) else ColorSquareFailed(s, d, color, failure.value),
         [WriteReply(today, color, failure)])
  }

  /** A colour name, in any case, fills the day's cell, touches no other cell, and is confirmed. */
  lemma ColorFillsCell(s: Sheets, text: string, d: Day, today: string)
    requires !IsWhy(text) && Lower(text) in Colors
    ensures var (s', replies) := MakeUpdate(s, text, d, today, None);
            && CellValue(s'.emotions, WeekAndDay(d)) == Some("x")
            && CellValue(s'.backgrounds, WeekAndDay(d)) == Some(Lower(text))
            && s'.whys == s.whys
            && s' == ColorSquare(s, d, Lower(text))
            && (forall c :: c != WeekAndDay(d) ==>
                  CellValue(s'.emotions, c) == CellValue(s.emotions, c) && CellValue(s'.backgrounds, c) == CellValue(s.backgrounds, c))
            && replies == ["Updated " + today + " with " + Lower(text)]
  {
  }

  /** A why-note never touches the emotions sheet or its backgrounds; written without error, it records the note and confirms it. */
  lemma WhyLeavesColors(s: Sheets, text: string, d: Day, today: string, failure: Option<Fault>)
    requires IsWhy(text)
    ensures MakeUpdate(s, text, d, today, failure).0.emotions == s.emotions
    ensures MakeUpdate(s, text, d, today, failure).0.backgrounds == s.backgrounds
    ensures failure.None? ==> CellValue(MakeUpdate(s, text, d, today, failure).0.whys, WeekAndDay(d)) == Some(WhyNote(text))
    ensures failure.None? ==>
              MakeUpdate(s, text, d, today, failure) ==
              (WhySquare(s, d, WhyNote(text)), ["You why: " + WhyNote(text), "Updated " + today + " with " + WhyNote(text)])
  {
  }

  /** "why " followed by a note records exactly the note, whatever the case of "why". */
  lemma WhyPrefixDropped(prefix: string, note: string)
    requires |prefix| == 4 && Lower(prefix[..3]) == "why"
    ensures IsWhy(prefix + note)
    ensures WhyNote(prefix + note) == note
  {
    assert (prefix + note)[..4] == prefix;
    assert Lower(prefix + note)[..3] == Lower(prefix[..3]);
  }

  // ---------------------------------------------------------------- handle_update, yesterday

  /**
   * `handle_update` as written: `make_update` is called without `await`, so the coroutine never
   * runs; the message changes nothing and gets no reply.
   */
  function HandleUpdateAsWritten(s: Sheets, text: string, today: Day): (r: (Sheets, seq<string>))
    ensures Check(r.0, today) == Check(s, today) && r.1 == []
  {
    (s, [])
  }

  /** `/yesterday` as written: the same missing `await`, so the correction is never made. */
  function YesterdayAsWritten(s: Sheets, text: string, yesterday: Day): (r: (Sheets, seq<string>))
    ensures CellValue(r.0.emotions, WeekAndDay(yesterday)) == CellValue(s.emotions, WeekAndDay(yesterday)) && r.1 == []
  {
    (s, [])
  }

  /** `handle_update` as intended: `make_update` for today's cell, awaited; whatever changes the emotions sheet silences the check. */
  function HandleUpdate(s: Sheets, text: string, today: Day, todayText: string, failure: Option<Fault>): (r: (Sheets, seq<string>))
    ensures r.0.emotions != s.emotions ==> Check(r.0, today).None?
  {
    MakeUpdate(s, text, today, todayText, failure)
  }

  /** The argument of a command message: the text after the first space, stripped; empty when there is none. */
  function CommandArgument(text: string): (r: string)
    ensures ' ' !in text ==> r == ""
  {
    match SplitFirst(text, ' ')
    case None => ""
    case Some((_, rest)) => Strip(rest)
  }

  /**
   * `/yesterday` as intended: `make_update`, awaited, on the command's argument for yesterday's
   * cell; the confirmation still names today's date.
   */
  function Yesterday(s: Sheets, text: string, yesterday: Day, todayText: string, failure: Option<Fault>): (r: (Sheets, seq<string>))
    ensures ' ' !in text ==> r == (s, ["Invalid color ", "Possible colors are: " + Join(Colors, "\n")])
  {
    assert forall i :: 0 <= i < |Colors| ==> Colors[i] != [];
    assert ' ' !in text ==> "Invalid color " + Lower(CommandArgument(text)) == "Invalid color ";
    MakeUpdate(s, CommandArgument(text), yesterday, todayText, failure)
  }

  /**
   * `make_update` on a whole command message, command word included, as `/yesterday` calls it:
   * the text starts with '/', so it is never a colour and never a why-note.
   */
  lemma CommandTextIsNoColor(s: Sheets, text: string, d: Day, todayText: string, failure: Option<Fault>)
    requires text != [] && text[0] == '/'
    ensures MakeUpdate(s, text, d, todayText, failure)
            == (s, ["Invalid color " + Lower(text), "Possible colors are: " + Join(Colors, "\n")])
  {
    assert Lower(text)[0] == '/';
    assert !IsWhy(text);
    assert forall i :: 0 <= i < |Colors| ==> Colors[i][0] != '/';
  }

  /** A colour name starts and ends with a letter other than 'w': no whitespace at its ends, and no why-note. */
  lemma ColorUnpadded(name: string)
    requires Lower(name) in Colors
    ensures name != [] && !IsSpace(name[0]) && !IsSpace(name[|name| - 1])
    ensures !IsWhy(name)
  {
    var l := Lower(name);
    assert forall i :: 0 <= i < |Colors| ==>
      Colors[i] != [] && 'a' <= Colors[i][0] <= 'z' && Colors[i][0] != 'w' && 'a' <= Colors[i][|Colors[i]| - 1] <= 'z';
    assert l[0] == LowerChar(name[0]) && l[|l| - 1] == LowerChar(name[|name| - 1]);
  }

  /** A command word, a space and a colour name: the argument is the colour name, which is no why-note. */
  lemma ColorArgument(command: string, name: string)
    requires ' ' !in command && Lower(name) in Colors
    ensures CommandArgument(command + " " + name) == name
    ensures !IsWhy(name)
  {
    SplitFirstAt(command, ' ', name);
    assert command + " " + name == command + [' '] + name;
    ColorUnpadded(name);
    StripUnpadded(name);
  }

  /**
   * The intended `/yesterday <colour>` fills yesterday's cell with the colour, and its
   * confirmation names today's date.
   */
  lemma YesterdayNamesToday(s: Sheets, command: string, name: string, yesterday: Day, todayText: string)
    requires ' ' !in command && Lower(name) in Colors
    ensures var (s', replies) := Yesterday(s, command + " " + name, yesterday, todayText, None);
            && CellValue(s'.emotions, WeekAndDay(yesterday)) == Some("x")
            && CellValue(s'.backgrounds, WeekAndDay(yesterday)) == Some(Lower(name))
            && replies == ["Updated " + todayText + " with " + Lower(name)]
  {
    ColorArgument(command, name);
    assert Yesterday(s, command + " " + name, yesterday, todayText, None) == MakeUpdate(s, name, yesterday, todayText, None);
    ColorFillsCell(s, name, yesterday, todayText);
  }

  // ---------------------------------------------------------------- check

  const Question := "what color for today?"

  /** `check`: ask for today's colour, or stay quiet when today's cell already holds `"x"`. */
  function Check(s: Sheets, today: Day): (r: Option<string>)
    ensures r.None? <==> CellValue(s.emotions, WeekAndDay(today)) == Some("x")
    ensures r.Some? ==> r.value == Question
  {
    if CellValue(s.emotions, WeekAndDay(today)) != Some("x") then Some(Question) else None
  }

  /** Once a colour is sent for today (and the write succeeds), the check stays quiet. */
  lemma CheckQuietAfterColor(s: Sheets, text: string, today: Day, todayText: string)
    requires !IsWhy(text) && Lower(text) in Colors
    ensures Check(HandleUpdate(s, text, today, todayText, None).0, today).None?
  {
    ColorFillsCell(s, text, today, todayText);
  }

  /**
   * With `handle_update` as written, sending a colour leaves today's cell as it was, so a check
   * that asked before still asks.
   */
  lemma CheckStillAsksAsWritten(s: Sheets, text: string, today: Day)
    requires Check(s, today).Some?
    ensures Check(HandleUpdateAsWritten(s, text, today).0, today) == Some(Question)
    ensures HandleUpdateAsWritten(s, text, today).1 == []
  {
  }

  /** With `/yesterday` as written, a colour for yesterday leaves yesterday's cell empty and gets no reply. */
  lemma YesterdayLostAsWritten(s: Sheets, text: string, yesterday: Day)
    requires CellValue(s.emotions, WeekAndDay(yesterday)).None?
    ensures CellValue(YesterdayAsWritten(s, text, yesterday).0.emotions, WeekAndDay(yesterday)).None?
    ensures YesterdayAsWritten(s, text, yesterday).1 == []
  {
  }

  /** The check's question goes to every configured chat, each authorised, and the bot is then stopped. */
  lemma CheckReachesEveryChat(token: string, bindings: seq<Framework.Binding>, chatIds: seq<int>)
    requires |chatIds| >= 1
    ensures Framework.SingleSend(token, bindings, chatIds, Question, Some(chatIds)) ==
              (Framework.Opening(token, bindings) + Framework.Queued(chatIds, Question) + [Framework.Stop, Framework.Shutdown], Pass)
  {
    assert Framework.Destinations(Some(chatIds), chatIds) == chatIds;
    assert Framework.SendAll(chatIds, chatIds, Question).1.Pass?;
  }
}
