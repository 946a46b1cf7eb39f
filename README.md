# Telegram bot framework and example bots, in Dafny

This project models `tg_bot`, a small Python framework for Telegram bots, and the in-memory logic of four example bots built on it.

The framework (`tg_bot/bot.py`, with its earlier version `tg_bot.py`) does the following:
- reads a `key=value` config file;
- refuses to build a bot without a name, a config file, a `bot_token` or a `chat_ids` entry;
- turns `chat_ids` into the list of authorised chats;
- keeps one command registry shared by every bot class;
- lets an inbound text message through only from an authorised chat, when `only_authorized` is set;
- asserts that every outbound send goes to an authorised chat;
- runs one-shot sends as a fixed batch: re-build, initialize, start, send, stop, shutdown.

The example bots:
- the **food diary** stores `(time, food)` records per chat and per day. It also expands per-chat shortcuts, turns weekday names into "days ago", lists a day sorted by time, ranks the week's foods by count and finds the foods that are new this week;
- the **birthday reminder** computes a wrap-around day-of-year distance and builds the reminder text by a filter-then-format pipeline. It also answers `/days N`;
- the **measurement logger** holds a two-state conversation per chat: a number first, then the name to store it under. It keeps per-chat named time series and answers `/keys`, `/list` and `/graph`;
- the **colour diary** classifies a message as a why-note or one of six colour names, writes the matching sheet cell and decides the daily reminder.

Modules:
- `Wrappers`: `Option`, `Result` and `Outcome`;
- `Strings`: the Python `str` operations used, on ASCII;
- `Sorting`: a stable insertion sort standing in for `list.sort` and `sorted`;
- `ConfigFile`: config parsing and the required-key check, shared by both framework versions;
- `Framework`: `tg_bot/bot.py`;
- `LegacyFramework`: `tg_bot.py`;
- `FoodBot`, `BirthdayBot`, `MeasurementBot`, `ColorBot`: the example bots.

Outside inputs:
- The Telegram application is replaced by an append-only trace of the steps the framework asks of it.
- The config file is an input `Option<seq<string>>`; `None` means the file is missing.
- Spreadsheets are maps from cells to values.
- The clock and calendar arrive as inputs: day of year, weekday, ISO week, date and time texts, timestamps.
- `float(text)` arrives as an `Option<real>`.

Where a source function mutates a dictionary or list in place, the model is one of two things:
- a class method that reassigns a `map`/`seq` field and is proved equal to a specification function, or
- that function itself, when the state is passed in.

## Model

| member | source | states |
|---|---|---|
| ConfigFile.ParseLine | tg_bot/bot.py:59-61 | a line contributes a setting exactly when it contains '=' |
| ConfigFile.ParseLineOf | tg_bot/bot.py:60-61 | a line `k=v` sets the stripped `k` to the stripped `v`, whatever whitespace surrounds the line or the '=' |
| ConfigFile.ParseLineMeaning | tg_bot/bot.py:60-61 | every line is cut at its first '=': key is the stripped text before it, value the stripped text after it, even when the value holds more '=' |
| ConfigFile.Load | tg_bot/bot.py:57-61 | the loop over the file's lines leaves the config map that applying each line's setting in file order gives |
| ConfigFile.ApplyNext | tg_bot/bot.py:58-61 | one more line either leaves the map alone (no '=') or overwrites its key |
| ConfigFile.LastWriteWins | tg_bot/bot.py:61 | the last line setting a key decides its value |
| ConfigFile.ParsedKeys | tg_bot/bot.py:58-61 | a key is defined after loading exactly when some line sets it |
| ConfigFile.UnsetKeyKept | tg_bot/bot.py:61 | a key no line sets keeps the value it had |
| ConfigFile.FirstMissing | tg_bot/bot.py:31-33 | the required-key loop finds nothing missing exactly when all keys are present; otherwise it names the first missing key in list order |
| ConfigFile.LoadChecked | tg_bot/bot.py:24-33 | no name fails first; then a missing file; then `bot_token` is reported missing before `chat_ids`; success exactly when both keys are present |
| Framework.CommandRegistry.constructor | tg_bot/bot.py:16 | the class-level registry starts empty |
| Framework.CommandRegistry.Command | tg_bot/bot.py:18-22 | the decorator appends the function at the end of the shared registry and returns it unchanged |
| Framework.Bindings | tg_bot/bot.py:81-86 | `_bot_init` adds one command handler per registered command, in order, then the text handler |
| Framework.BindingsAfterRegister | tg_bot/bot.py:19-22 | registering a function adds exactly one more handler for its name; registering twice yields two |
| Framework.FirstNone | tg_bot/bot.py:35 | the first piece that fails to convert is found |
| Framework.ParseIds | tg_bot/bot.py:35 | the comprehension succeeds exactly when every piece converts; it then yields one id per piece, in order; otherwise it fails on the first bad piece |
| Framework.ParseIdsOf | tg_bot/bot.py:35 | pieces that each read as an id give exactly those ids |
| Framework.ChatIdsOf | tg_bot/bot.py:35 | `chat_ids` has one entry per comma-separated piece, at least one |
| Framework.IdTextRoundTrip | tg_bot/bot.py:35 | an id written in decimal contains no comma and reads back as itself |
| Framework.ChatIdsRoundTrip | tg_bot/bot.py:35 | any non-empty id list, written comma-separated, is read back exactly |
| Framework.Construct | tg_bot/bot.py:24-36 | the name check, the config, the key check in order, then the `chat_ids` conversion; a bad piece is a ValueError naming it; on success the fields hold the parsed config, the ids and the token |
| Framework.AuthorizedCheck | tg_bot/bot.py:121-124 | raises exactly when only authorised chats may talk and the chat is not listed; never when `only_authorized` is false |
| Framework.MsgHandle | tg_bot/bot.py:109-112 | a text message reaches `handle_update` exactly when the authorisation check passes, and unchanged |
| Framework.OpenBotPassesAll | tg_bot/bot.py:121-124 | with `only_authorized` false, every message reaches `handle_update` |
| Framework.Destinations | tg_bot/bot.py:132-133 | with no or an empty list given, the one destination is the first authorised chat; otherwise the given list, in order |
| Framework.RefusalFrom | tg_bot/bot.py:101-137 | finds the first destination the guard refuses |
| Framework.SendAll | tg_bot/bot.py:101-137 | the send loop completes exactly when every destination is authorised and then queues one job per destination, in order; otherwise it queues the jobs before the first refused chat and raises for that chat |
| Framework.SingleSendOrder | tg_bot/bot.py:127-150 | the batch opens with build, initialize, start; it ends with stop, shutdown exactly when every send was allowed, and neither runs after a refused send |
| Framework.SingleSend | tg_bot/bot.py:127-150 | a batch always opens with build, initialize and start, and succeeds exactly when every destination is an authorised chat |
| Framework.SingleSendGuarded | tg_bot/bot.py:101-139 | every job the batch queues goes to an authorised chat, with the message |
| Framework.SingleSendDefault | tg_bot/bot.py:127-150 | with no destinations given, the batch is build, initialize, start, one send to the first chat, stop, shutdown |
| Framework.SingleSendGiven | tg_bot/bot.py:127-150 | with an explicit list of authorised chats, the batch is the opening, one send per given id in order, then stop and shutdown |
| Framework.TelegramBot.constructor | tg_bot/bot.py:35-37 | the fields take the parsed settings and the application is built with the registered commands |
| Framework.TelegramBot.Create | tg_bot/bot.py:24-61 | the constructor succeeds or fails exactly as `Construct` says; it leaves those settings in the fields and one `_bot_init` in the trace |
| Framework.TelegramBot.BotInit | tg_bot/bot.py:64-86 | `_bot_init` builds an application with the token and the registered handlers, changing no setting |
| Framework.TelegramBot.SendMessage | tg_bot/bot.py:101-106 | a send is refused, with nothing queued, exactly when the chat is not authorised; otherwise one job is queued |
| Framework.TelegramBot.PostStartup | tg_bot/bot.py:97-99 | the start-up notice goes to the first authorised chat, and the guard never refuses it |
| Framework.TelegramBot.SendEach | tg_bot/bot.py:135-137 | the send loop leaves exactly the trace and outcome of `SendAll` |
| Framework.TelegramBot.SingleSendMsg | tg_bot/bot.py:127-150 | `single_send_msg` leaves exactly the trace and outcome of `SingleSend` |
| Framework.QueuedSnoc | tg_bot/bot.py:136-137 | one more destination adds one more job at the end |
| Framework.RefusedAt | tg_bot/bot.py:101-137 | the loop stops at the first refused destination, having queued those before it |
| LegacyFramework.LegacyChatIds | tg_bot.py:25 | `chat_ids` is the raw comma-split: at least one piece, none holding a comma, joined back giving the value |
| LegacyFramework.Construct | tg_bot.py:14-26 | the name check, the config and the keys in order; `chat_ids` kept as unstripped strings |
| LegacyFramework.Guard | tg_bot.py:73 | a send is refused exactly when the chat id string is not listed |
| LegacyFramework.MsgHandle | tg_bot.py:77-79 | every message reaches `handle_update`, as the later version does with `only_authorized` false |
| LegacyFramework.LegacyBot.constructor | tg_bot.py:25-27 | the fields take the settings and the application is built |
| LegacyFramework.LegacyBot.Create | tg_bot.py:14-45 | the constructor succeeds or fails exactly as `Construct` says and leaves those settings |
| LegacyFramework.LegacyBot.SendMessage | tg_bot.py:71-74 | a send is refused, with nothing queued, exactly when the guard refuses it |
| LegacyFramework.LegacyBot.PostStartup | tg_bot.py:67-69 | the start-up notice goes to the first listed chat |
| LegacyFramework.SpacedChatIds | tg_bot.py:25 | for `chat_ids = a, b` (a space after the comma), the earlier version refuses chat `b` while the later one authorises both |
| LegacyFramework.PairIds | tg_bot/bot.py:35 | two pieces that read as `a` and `b` convert to `[a, b]` |
| LegacyFramework.SpacedPiece | tg_bot/bot.py:35 | a space in front of a piece does not change its id |
| LegacyFramework.SpacedSplit | tg_bot.py:25 | a text with a space after its one comma splits into the part before and the spaced part after |
| FoodBot.SavedShortcuts | examples/food_bot.py:64-68 | saving stores the item under the lower-cased key and creates the chat's table if needed; every other chat and key is unchanged |
| FoodBot.ShortcutRoundTrip | examples/food_bot.py:64-75 | after saving, every spelling of the key that lower-cases the same way expands to the item |
| FoodBot.GetShortcut | examples/food_bot.py:72-75 | a key with a stored shortcut for its lower-cased form expands to it; a key with none (or a chat with no table) comes back unchanged |
| FoodBot.ShortcutOthersKept | examples/food_bot.py:64-75 | saving changes no other chat's expansion and no other key's |
| FoodBot.WithChat | examples/food_bot.py:82-91 | an unknown chat gets an empty diary; every known chat is unchanged |
| FoodBot.Put | examples/food_bot.py:88-96 | the record is appended at the end of that chat's day, creating missing levels; every other day and chat is unchanged |
| FoodBot.PutAppendOnly | examples/food_bot.py:93-96 | storing only appends: each stored list was a prefix of the new one, and only one list grows, by one |
| FoodBot.DayIndexFrom | examples/food_bot.py:138 | finds a day name's position in the weekday table |
| FoodBot.DayNumber | examples/food_bot.py:138-139 | a text is a day name exactly when it is in the table, and its number is its position there |
| FoodBot.DaysAgo | examples/food_bot.py:141 | the named weekday is 1 to 7 days back and falls on that weekday; it is 7 (never 0) when it is today's weekday |
| FoodBot.FromHumanDate | examples/food_bot.py:135-142 | the weekday branch applies exactly when the lower-cased text is a day name; the date 1 to 7 days back has that weekday |
| FoodBot.ByTimeOrders | examples/food_bot.py:217 | comparing time texts is a total preorder |
| FoodBot.OneLinePerRecord | examples/food_bot.py:218-219 | when no time or food holds a line break, the listing has one line per record |
| FoodBot.DayText | examples/food_bot.py:214-220 | the listing is empty exactly when the day has no records, and otherwise ends with a line break |
| FoodBot.GenerateDay | examples/food_bot.py:214-220 | the records come back as a permutation sorted by time, and the text is the listing of the sorted records |
| FoodBot.KeyIndex | examples/food_bot.py:231 | finds where a food sits in the counts, or that it is not there |
| FoodBot.BumpTallies | examples/food_bot.py:231-233 | counting one more food keeps the counts exact and each food listed once |
| FoodBot.TallyCounts | examples/food_bot.py:226-233 | the counting dictionary holds every eaten food once, with the number of times it was eaten |
| FoodBot.TallySnoc | examples/food_bot.py:230-233 | one more record is one more counting step |
| FoodBot.CountDay | examples/food_bot.py:229-233 | the inner loop over a day's records counts exactly that day's foods on top of the earlier ones |
| FoodBot.CountWeek | examples/food_bot.py:226-233 | the outer loop counts the foods of all the given dates |
| FoodBot.ByCountOrders | examples/food_bot.py:234 | comparing counts is a total preorder |
| FoodBot.SortedByCount | examples/food_bot.py:234 | sorting keeps every entry and orders counts non-increasingly |
| FoodBot.SliceEnd | examples/food_bot.py:235 | the slice `[0:top]` keeps `min(top, n)` entries for a non-negative `top` |
| FoodBot.PermutedTally | examples/food_bot.py:234 | reordering exact counts keeps them exact and keeps every food |
| FoodBot.PastPrefix | examples/food_bot.py:234-235 | an entry past the slice has a count no larger than the last one kept |
| FoodBot.SortedPrefix | examples/food_bot.py:234-235 | the kept entries are ordered, carry exact counts and outrank every food left out |
| FoodBot.TopItemsMeaning | examples/food_bot.py:223-235 | `top` pairs, or one per food eaten if there are fewer; no food twice; in non-increasing count order; each count the number of times that food was eaten on the dates; no food left out was eaten more often than the last one listed |
| FoodBot.Top | examples/food_bot.py:228-235 | the list has as many entries as the slice `[0:top]` keeps of one entry per distinct food, negative `top` counting from the end as in Python |
| FoodBot.NewFoods | examples/food_bot.py:249-258 | a food is new exactly when some recent date has it and no other date of that chat does |
| FoodBot.LoggedTodayIsNew | examples/food_bot.py:249-258 | a food never logged before and now logged on a recent date is new |
| FoodBot.LoggedEarlierIsNotNew | examples/food_bot.py:249-258 | a food logged on an older date is never new |
| FoodBot.Bot.constructor | examples/food_bot.py:62 | the loaded database and shortcuts, no conversation states |
| FoodBot.Bot.SaveShortcut | examples/food_bot.py:64-68 | the shortcut table becomes `SavedShortcuts`; nothing else changes |
| FoodBot.Bot.DbGet | examples/food_bot.py:82-86 | the chat's diary is created even when the day is then missing (KeyError) |
| FoodBot.Bot.DbPut | examples/food_bot.py:88-97 | the database becomes `Put` of the record and the chat's state is reset to 0 |
| FoodBot.Bot.LogDate | examples/food_bot.py:204-211 | the shortcut-expanded item is stored at that day and time, and the confirmation names both |
| FoodBot.Bot.PostDay | examples/food_bot.py:168-180 | unknown chat: "No data yet"; empty day: "You are nothing on" that day; otherwise the listing, with the stored day left sorted by time |
| FoodBot.Bot.TopItems | examples/food_bot.py:223-235 | an unknown chat raises; otherwise the counting loops give the top list `TopItemsMeaning` describes |
| BirthdayBot.DayDelta | examples/birthday_bot.py:48-61 | the distance lies in 0..365 and is congruent to the plain difference modulo 365; it is 0 exactly for the same day, or for the 366th day looking at January 1st |
| BirthdayBot.SameDayIsZero | examples/birthday_bot.py:57-61 | `day_delta(d, d) = 0` |
| BirthdayBot.ByDateOrders | examples/birthday_bot.py:89 | comparing dates is a total preorder |
| BirthdayBot.LoadBirthdays | examples/birthday_bot.py:80-90 | the loaded list is a permutation of the rows (every row, each as often as it occurs) and runs through the year in date order |
| BirthdayBot.SelectedMeaning | examples/birthday_bot.py:144-150 | the filters of `make_birthday_msg` keep each entry exactly as often as it occurs when it is inside the window and passes the extra filter, and not at all otherwise; every kept entry passes, every passing entry is kept |
| BirthdayBot.SelectedSub | examples/birthday_bot.py:147-150 | filtering only drops entries |
| BirthdayBot.SelectedPass | examples/birthday_bot.py:147-150 | every kept entry passes both filters |
| BirthdayBot.SelectedKeeps | examples/birthday_bot.py:147-150 | every entry that passes both filters is kept |
| BirthdayBot.SelectedAppend | examples/birthday_bot.py:147-150 | filtering a list made of two parts is filtering each part and concatenating the results, so kept entries stay in their order of occurrence |
| BirthdayBot.SelectedInDateOrder | examples/birthday_bot.py:147-150 | filtering the loaded, date-ordered list leaves the message lines in date order |
| BirthdayBot.Lines | examples/birthday_bot.py:153-167 | one line per birthday, in order, the i-th line being the line of the i-th birthday (present format exactly when it names a present) |
| BirthdayBot.MakeBirthdayMsg | examples/birthday_bot.py:144-169 | the loop's message is the passing birthdays' lines, in loaded order, newline-joined |
| BirthdayBot.LinesSnoc | examples/birthday_bot.py:167 | one more birthday appends one more line |
| BirthdayBot.LineNonEmpty | examples/birthday_bot.py:67-68 | every line starts with the day, so none is empty |
| BirthdayBot.JoinEmpty | examples/birthday_bot.py:169 | non-empty lines join to "" exactly when there are none |
| BirthdayBot.EmptyIffNonePass | examples/birthday_bot.py:144-169 | the message is "" exactly when no birthday passes the filters |
| BirthdayBot.LineUnbroken | examples/birthday_bot.py:162-165 | a line holds no line break when its fields hold none |
| BirthdayBot.OneLinePerBirthday | examples/birthday_bot.py:153-169 | splitting a non-empty message on line breaks gives back one line per passing birthday, in order; line i uses the present format exactly when birthday i has a present idea |
| BirthdayBot.Notify | examples/birthday_bot.py:173-176 | a message is sent exactly when it is non-empty |
| BirthdayBot.TodaysNeverSends | examples/birthday_bot.py:171-176 | `todays` as written always takes the "no birthdays today" branch |
| BirthdayBot.TodaysSendsForToday | examples/birthday_bot.py:171-176 | the corrected `todays` sends exactly when some birthday is zero days away by `day_delta`: today, or January 1st when today is the 366th day of a leap year |
| BirthdayBot.PresentsUsePresentLines | examples/birthday_bot.py:185-190 | every line `presents` sends names a present idea |
| BirthdayBot.WiderWindow | examples/birthday_bot.py:178-183 | whatever a window lists, a wider window lists too |
| BirthdayBot.BirthdaysInWindow | examples/birthday_bot.py:178-183 | `birthdays(days)` sends exactly when some birthday is less than `days` days away, and otherwise prints "no birthdays in the next <days>" |
| BirthdayBot.PresentsInWindow | examples/birthday_bot.py:185-190 | `presents(days)` sends exactly when some birthday less than `days` days away has a present idea, and otherwise prints "no birthdays in the next <days>" |
| BirthdayBot.DaysArgument | examples/birthday_bot.py:122-129 | an argument is found only after a space, and then exactly when the stripped text after the first space is a number |
| BirthdayBot.NonNumericRefused | examples/birthday_bot.py:122-136 | a command word followed by text that is not a number once stripped gets only "please specify a number of days" |
| BirthdayBot.DaysReplies | examples/birthday_bot.py:120-140 | a missing or non-numeric argument gets exactly the one reply "please specify a number of days"; otherwise one or two replies |
| BirthdayBot.DaysOfNumber | examples/birthday_bot.py:120-140 | `/days N` reads `N`, then replies "No birthdays in the next N days" alone for an empty message, else a header then the list |
| BirthdayBot.DaysWithoutArgument | examples/birthday_bot.py:122-132 | a bare command, or one followed only by a space, is refused |
| MeasurementBot.WithChat | examples/measurement_bot.py:94-103 | an unknown chat gets an empty table; every known chat is unchanged |
| MeasurementBot.AppendTo | examples/measurement_bot.py:105-110 | a new key gets `{"data": [], "type": "ts"}` and is added at the end of the key order; the point goes at the end of the key's data; other keys are unchanged; a proper dictionary stays proper |
| MeasurementBot.Put | examples/measurement_bot.py:100-110 | the point is appended to exactly that chat's key; every other series and chat is unchanged; a new key is listed last |
| MeasurementBot.Handle | examples/measurement_bot.py:171-195 | each step keeps the invariant: states are 0 or 1, and a chat in state 1 has a pending value and date |
| MeasurementBot.IdleChat | examples/measurement_bot.py:174-185 | a chat in state 0 (never seen, or back from storing a value): a number moves it to state 1 and becomes the pending value with its arrival time; other text gets "please enter a valid number." and changes nothing |
| MeasurementBot.KeyStoresPending | examples/measurement_bot.py:186-192 | in state 1 the pending point is stored under the lower-cased text, nothing else is stored, and the chat returns to state 0 |
| MeasurementBot.NumberThenKey | examples/measurement_bot.py:177-192 | a number and then a name store that number, stamped with its arrival time, under the name |
| MeasurementBot.SharedPendingValue | examples/measurement_bot.py:182-188 | the pending value is shared: after chat `b` sends a number, the name chat `a` sends stores `b`'s number |
| MeasurementBot.KeysListing | examples/measurement_bot.py:124-125 | `/keys` lists the chat's keys, one per line, in insertion order |
| MeasurementBot.KeysReply | examples/measurement_bot.py:117-125 | `/keys` always answers with text: "No data yet" for a chat never stored, and an empty text for a chat that has an entry but no keys yet |
| MeasurementBot.KeysAfterPut | examples/measurement_bot.py:105-124 | after a first store of a key, `/keys` lists it last; a repeated store leaves the listing alone |
| MeasurementBot.CommandKey | examples/measurement_bot.py:131-135 | a key argument exists exactly when the text has a space |
| MeasurementBot.Lookup | examples/measurement_bot.py:128-168 | no argument: "please specify a key"; otherwise the chat is created, and the reply is the key's data or "<key> not found in database"; `/graph` of a key whose series has no points sends nothing (the ValueError of `zip(*data)` is not caught) |
| MeasurementBot.GraphAfterPut | examples/measurement_bot.py:100-168 | a key `_db_put` has stored to holds a point, so `/graph` of it always answers with its series |
| MeasurementBot.PaddedKeyNeverLookedUp | examples/measurement_bot.py:132-189 | a stored key with a space at either end can never be looked up |
| MeasurementBot.LookupCreatesChat | examples/measurement_bot.py:94-125 | looking up in an unknown chat creates it, so `/keys` then answers with an empty list instead of "No data yet" |
| MeasurementBot.CommandKeyOf | examples/measurement_bot.py:132 | a command followed by a plain lower-case name looks up exactly that name |
| MeasurementBot.MeasureBot.constructor | examples/measurement_bot.py:78-87 | the loaded database, no states, nothing pending |
| MeasurementBot.MeasureBot.DbGet | examples/measurement_bot.py:94-98 | the chat's table is created even when the key is then missing (KeyError) |
| MeasurementBot.MeasureBot.DbPut | examples/measurement_bot.py:100-111 | the database becomes `Put` of the point and the chat's state is reset to 0 |
| MeasurementBot.MeasureBot.HandleUpdate | examples/measurement_bot.py:171-195 | the step leaves exactly the state and reply of `Handle` |
| MeasurementBot.MeasureBot.LookupCommand | examples/measurement_bot.py:128-168 | `/list` and `/graph` leave exactly the database and reply (or absence of one) of `Lookup` |
| ColorBot.WeekAndDay | examples/color_bot.py:44 | the row is the ISO week, the column the weekday plus one, always 1..7 |
| ColorBot.OneCellPerDay | examples/color_bot.py:44 | two days of one week share a cell exactly when they are the same weekday |
| ColorBot.WhyNote | examples/color_bot.py:77 | the note is the text after its first four characters |
| ColorBot.WhySquare | examples/color_bot.py:103-106 | the note is written to the day's cell of the whys sheet and nothing else changes |
| ColorBot.FormatCell | examples/color_bot.py:116-122 | the `format` call sets only the day's background, leaving values and the whys sheet alone |
| ColorBot.ColorSquare | examples/color_bot.py:109-123 | the day's cell gets the colour as background (`format`) and then "x" as value (`update`); nothing else changes |
| ColorBot.MakeUpdate | examples/color_bot.py:75-96 | a why-note gets two replies; an invalid colour gets exactly "Invalid color ..." and the colour list, with no update; a valid colour gets one reply; a write that raises reports "failed: ..." and never changes the emotions values or the whys sheet, and only a raise after `format` leaves the new background (exactly `format`'s sheets); only a valid colour written without error changes the emotions sheet |
| ColorBot.ColorFillsCell | examples/color_bot.py:84-123 | a colour name in any case, written without error, gives exactly `color_square`'s sheets: the day's cell holds "x" on that colour, every other cell and background and the whys sheet are unchanged; the one reply is "Updated <today> with <colour>" |
| ColorBot.WhyLeavesColors | examples/color_bot.py:76-81 | a why-note never touches the emotions sheet or its backgrounds; written without error, it records the note in the whys sheet and the replies are "You why: <note>" then "Updated <today> with <note>" |
| ColorBot.WhyPrefixDropped | examples/color_bot.py:76-77 | "why" in any case and one more character are dropped, and exactly the note is kept |
| ColorBot.CheckStillAsksAsWritten | examples/color_bot.py:98-154 | as written, a message changes nothing and gets no reply, so a check that asked still asks |
| ColorBot.YesterdayLostAsWritten | examples/color_bot.py:125-129 | as written, `/yesterday` leaves yesterday's cell empty and replies nothing |
| ColorBot.YesterdayNamesToday | examples/color_bot.py:125-129 | the intended `/yesterday <colour>` fills yesterday's cell with that colour, and its confirmation names today's date |
| ColorBot.CommandTextIsNoColor | examples/color_bot.py:84-90 | a whole command message, as `/yesterday` passes it, starts with '/' and so is always answered "Invalid color ..." with no update |
| ColorBot.HandleUpdateAsWritten | examples/color_bot.py:98-100 | as written, a message gets no reply and leaves the daily check's answer as it was |
| ColorBot.HandleUpdate | examples/color_bot.py:98-100 | the intended `handle_update`: any change it makes to the emotions sheet fills today's cell, so the check stays quiet |
| ColorBot.YesterdayAsWritten | examples/color_bot.py:125-129 | as written, `/yesterday` gets no reply and leaves yesterday's cell as it was |
| ColorBot.CommandArgument | examples/color_bot.py:125-129 | a command with no space has an empty argument |
| ColorBot.Yesterday | examples/color_bot.py:125-129 | the intended `/yesterday` with no argument changes nothing and answers exactly "Invalid color " and "Possible colors are: " with the colour list |
| ColorBot.Check | examples/color_bot.py:145-156 | the bot asks "what color for today?" exactly when today's cell is not "x" |
| ColorBot.CheckQuietAfterColor | examples/color_bot.py:98-154 | once today's colour is written, the check stays quiet |
| ColorBot.CheckReachesEveryChat | examples/color_bot.py:154 | the question goes to every configured chat, each authorised, and the batch closes |
| Strings.Strip | tg_bot/bot.py:35 | `strip` leaves no whitespace at either end and never lengthens |
| Strings.StripUnpadded | tg_bot/bot.py:35 | a text without whitespace at its ends is its own `strip` |
| Strings.LowerIdempotent | examples/food_bot.py:67 | lower-casing an already lower-cased key changes nothing, so a stored shortcut key is found again under its own spelling |
| Strings.SplitFirst | tg_bot/bot.py:60 | `split(c, 1)` yields two parts exactly when `c` occurs; the first part holds no `c` |
| Strings.SplitFirstAt | tg_bot/bot.py:60 | `split(c, 1)` cuts at the first `c` |
| Strings.Split | tg_bot.py:25 | `split(c)` yields at least one piece, none holding `c` |
| Strings.SplitJoin | tg_bot.py:25 | joining the pieces of a split gives the text back |
| Strings.JoinSplit | examples/measurement_bot.py:124 | joining pieces without the separator and splitting again gives the pieces back |
| Strings.NatToString | examples/birthday_bot.py:137 | `str(n)` of a natural number is all digits |
| Strings.IntRoundTrip | tg_bot/bot.py:35 | `int(str(n)) == n` |
| Sorting.Sort | examples/food_bot.py:217 | the result is a permutation of the input, sorted whenever the key order is a total preorder |

## Left out

- Telegram transport is not modelled. This covers `Application`, handler registration, `run_polling`, `post_init`, the job queue and `create_task`, `typing`, `reply_text` and `reply_photo`: all of them are asynchronous I/O against a library not part of this model. Sends are recorded as trace steps and replies returned as values.
- The `command` decorator's `args=` keyword used by `examples/color_bot.py:125` is not modelled: it does not match the decorator's one-argument signature (`tg_bot/bot.py:19`), so that class does not load as written.
- Google Sheets (`gspread`) is not modelled: it is a foreign service. Sheet rows and cell values are inputs, and a failed sheet write arrives as an optional `Fault`: its error, and whether the background format had already been applied.
- The calendar library is not modelled: `datetime`, `strftime`, `strptime`, `isocalendar`, `timetuple`. Day of year, weekday, ISO week, date and time texts, and timestamps are inputs.
- FoodBot.FromHumanDate: the `strptime` branch for `YYYY-mm-dd` text is not modelled (returns `None`); only the weekday branch is.
- BirthdayBot.LoadBirthdays: parsing `DOB` and moving it to the current year is not modelled. This includes the ValueError for February 29th in a non-leap year; the rows arrive with their date already computed.
- Floats are not modelled. `float(text)` in the measurement logger is an input `Option<real>`. The reply texts that print floats and dates are kept as structured values. The colours' RGB triples are left out; only their names are kept.
- Plotting is not modelled: `plot_measurements`, matplotlib and the temporary PNG file. `/graph` returns the series it would plot; the photo upload is not modelled.
- Persistence is not modelled: JSON load and save of databases and shortcuts, and the config file's path. The database is an in-memory map, and the config file's lines are an input. The "Failed to add to database" reply for a failing save is therefore not modelled.
- Several commands and formatters are not modelled, because they only parse command text and format output of operations that are modelled:
  - food bot: `/shortcut`, `/log`, `/day`, `/yesterday` and `/stats`, plus the text formatting of `generate_top_list`;
  - birthday bot: `/all` and `/help`;
  - colour bot: `/help`.
- `print` and `logger` output is not modelled, except the line `todays`, `birthdays` and `presents` print when there is nothing to send (`Notice.Log`).
- Framework.TelegramBot.Create: the list `self.commands = []` that `__init__` sets after `_bot_init` (`tg_bot/bot.py:39`) is not modelled; nothing in the core reads it.
- ColorBot.MakeUpdate: a write that raises is an input (`Fault`); which write raises, and whether `format` had gone through, is chosen by the caller, not derived from the sheet service.
- BirthdayBot.Selected, BirthdayBot.BirthdayMessage, BirthdayBot.TodaysAsWritten, BirthdayBot.Todays, BirthdayBot.Birthdays, BirthdayBot.Presents: these compute only; what they promise is stated by the lemmas about them (`SelectedMeaning`, `SelectedAppend`, `EmptyIffNonePass`, `OneLinePerBirthday`, `TodaysNeverSends`, `TodaysSendsForToday`, `BirthdaysInWindow`, `PresentsInWindow`).
- The `run()`/`argparse` entry points and `examples/echo_bot.py` are not modelled.
- Strings.Lower, Strings.IsSpace, Strings.IsNumeric: only ASCII is modelled. Python's `lower`, `isspace` and `isnumeric` also act on other Unicode characters. `int()` also accepts `_` between digits and non-ASCII digits; `ParseInt` rejects both.
- Sorting.Sort: `list.sort` sorts in place. The model sorts a value and stores the result back where the source mutates, as in `FoodBot.Bot.PostDay` and `BirthdayBot.LoadBirthdays`. Sort stability is not stated as a contract.
- FoodBot.NewFoods: takes the chat's diary, so the KeyError of `generate_new_food` for an unknown chat is left to the caller. The result is a set, because the source joins a set whose order Python does not fix.
- FoodBot.Top: the dates of the last seven days are an input, not computed from the clock.
- BirthdayBot.Passes: the optional extra filter is any function of an entry; only `presents`' filter is named.
- The three cron entry points' sends go through `single_send_msg`. Their effect is modelled as the message to send (`Notice.Send`), not as the full batch trace.

## Findings

| source | as written | input that shows it | evidently intended | confidence | as-written member | corrected member |
|---|---|---|---|---|---|---|
| examples/birthday_bot.py:171-176 | `todays` calls `make_birthday_msg(0)`, whose filter keeps `day_delta < 0`; `day_delta` is never negative | any birthday list with a birthday today | list the birthdays zero days away by `day_delta`, i.e. `make_birthday_msg(1)`: today's, or January 1st's on the 366th day of a leap year | not executed | BirthdayBot.TodaysNeverSends | BirthdayBot.TodaysSendsForToday |
| examples/color_bot.py:98-100 | `handle_update` calls the coroutine `make_update` without `await`, so it never runs | the message "red" when today's cell is empty: no reply, no cell written, and the check still asks | await `make_update`, writing the cell and replying | not executed | ColorBot.CheckStillAsksAsWritten | ColorBot.CheckQuietAfterColor |
| examples/color_bot.py:125-129 | `/yesterday` calls `make_update` without `await` | `/yesterday red` with yesterday's cell empty: the cell stays empty and nothing is replied | await `make_update` for yesterday's cell | not executed | ColorBot.YesterdayLostAsWritten | ColorBot.YesterdayNamesToday |
| examples/color_bot.py:128-129 | `/yesterday` hands `make_update` the whole message text, command word included | `/yesterday red`: the text `/yesterday red` is neither a why-note nor a colour, so even awaited the reply is "Invalid color /yesterday red" | pass the argument after the command word (the decorator's `<NEW MSG>` hint) | not executed | ColorBot.CommandTextIsNoColor | ColorBot.YesterdayNamesToday |
