/**
 * The food diary of `examples/food_bot.py`: a per-chat, per-day store of `(time, food)` records,
 * per-chat shortcuts with case-insensitive keys, weekday names turned into "days ago", the day
 * listing sorted by time, the weekly top foods and the foods new this week.
 *
 * Chats are keyed by `str(chat_id)`, days by their `YYYY-mm-dd` text and times by their `HH:MM`
 * text; the calendar itself is not modelled, so "today's weekday" and the list of recent dates
 * are inputs.
 */
module FoodBot {
  import opened Wrappers
  import opened Strings
  import opened Sorting

  /** One logged item: the `HH:MM` time and the food. */
  datatype Record = Record(time: string, food: string)

  /** One chat's diary: day text to the records of that day, in logging order. */
  type Days = map<string, seq<Record>>

  /** The whole database: `str(chat_id)` to that chat's diary. */
  type Db = map<string, Days>

  /** `str(chat_id)` to that chat's shortcuts, keyed by lower-cased key. */
  type Shortcuts = map<string, map<string, string>>

  // ---------------------------------------------------------------- shortcuts

  /**
   * `_get_shortcut`: the stored item for the lower-cased key, or the key itself; an expansion
   * only ever comes from the chat's own table.
   */
  function GetShortcut(shortcuts: Shortcuts, chat: string, key: string): (r: string)
    ensures r == key || (chat in shortcuts && r in shortcuts[chat].Values)
    ensures chat in shortcuts && Lower(key) in shortcuts[chat] ==> r == shortcuts[chat][Lower(key)]
    ensures !(chat in shortcuts && Lower(key) in shortcuts[chat]) ==> r == key
  {
    if chat !in shortcuts then key
    else if Lower(key) in shortcuts[chat] then shortcuts[chat][Lower(key)]
    else key
  }

  /** The shortcut table after `_save_shortcut(chat, key, item)`. */
  function SavedShortcuts(shortcuts: Shortcuts, chat: string, key: string, item: string): (r: Shortcuts)
    ensures chat in r && Lower(key) in r[chat] && r[chat][Lower(key)] == item
    ensures forall c :: c in r <==> c in shortcuts || c == chat
    ensures forall c :: c in shortcuts && c != chat ==> r[c] == shortcuts[c]
    ensures forall k :: k in r[chat] <==> k == Lower(key) || (chat in shortcuts && k in shortcuts[chat])
    ensures chat in shortcuts ==> forall k :: k in shortcuts[chat] && k != Lower(key) ==> r[chat][k] == shortcuts[chat][k]
  {
    var inner := if chat in shortcuts then shortcuts[chat] else map[];
    shortcuts[chat := inner[Lower(key) := item]]
  }

  /** After saving, every spelling of the key that lower-cases the same way expands to the item. */
  lemma ShortcutRoundTrip(shortcuts: Shortcuts, chat: string, key: string, item: string, key': string)
    requires Lower(key') == Lower(key)
    ensures GetShortcut(SavedShortcuts(shortcuts, chat, key, item), chat, key') == item
  {
  }

  /** Saving a shortcut changes no other chat's expansion and no other key's. */
  lemma ShortcutOthersKept(shortcuts: Shortcuts, chat: string, key: string, item: string, chat': string, key': string)
    requires chat' != chat || Lower(key') != Lower(key)
    ensures GetShortcut(SavedShortcuts(shortcuts, chat, key, item), chat', key') == GetShortcut(shortcuts, chat', key')
  {
  }

  // ---------------------------------------------------------------- the database

  /** The records at `db[chat][day]`, or none when either level is missing. */
  function Records(db: Db, chat: string, day: string): seq<Record> {
    if chat in db && day in db[chat] then db[chat][day] else []
  }

  /** The first step of `_db_get` and `_db_put`: an empty diary for a chat seen for the first time. */
  function WithChat(db: Db, chat: string): (r: Db)
    ensures forall c :: c in r <==> c in db || c == chat
    ensures forall c :: c in db ==> r[c] == db[c]
    ensures chat !in db ==> r[chat] == map[]
  {
    if chat in db then db else db[chat := map[]]
  }

  /** The database after `_db_put(chat, day, record)`. */
  function Put(db: Db, chat: string, day: string, rec: Record): (r: Db)
    ensures forall c :: c in r <==> c in db || c == chat
    ensures forall c :: c in db && c != chat ==> r[c] == db[c]
    ensures forall d :: d in r[chat] <==> d == day || (chat in db && d in db[chat])
    ensures forall c, d :: Records(r, c, d) == if c == chat && d == day then Records(db, c, d) + [rec] else Records(db, c, d)
  {
    var withChat := WithChat(db, chat);
    var withDay := if day in withChat[chat] then withChat else withChat[chat := withChat[chat][day := []]];
    withDay[chat := withDay[chat][day := withDay[chat][day] + [rec]]]
  }

  /** Putting records only ever appends: what was stored before is a prefix of what is stored after. */
  lemma PutAppendOnly(db: Db, chat: string, day: string, rec: Record, c: string, d: string)
    ensures Records(db, c, d) <= Records(Put(db, chat, day, rec), c, d)
    ensures |Records(Put(db, chat, day, rec), c, d)| == |Records(db, c, d)| + (if c == chat && d == day then 1 else 0)
  {
    var after := Put(db, chat, day, rec);
    assert Records(after, c, d) == if c == chat && d == day then Records(db, c, d) + [rec] else Records(db, c, d);
  }

  // ---------------------------------------------------------------- weekday names

  /** The `day_num` table of `_from_humandate`, Monday first. */
  const DayNames: seq<string> := ["monday", "tuesday", "wednesday", "thursday", "friday", "saturday", "sunday"]

  /** Where `name` first appears in `DayNames` from position `i` on. */
  function DayIndexFrom(name: string, i: nat): (r: Option<nat>)
    requires i <= |DayNames|
    ensures r.Some? ==> i <= r.value < |DayNames| && DayNames[r.value] == name
    ensures r.None? ==> forall j :: i <= j < |DayNames| ==> DayNames[j] != name
    decreases |DayNames| - i
  {
    if i == |DayNames| then None
    else if DayNames[i] == name then Some(i)
    else DayIndexFrom(name, i + 1)
  }

  /** `day_num[text]`: the weekday number of a lower-case day name. */
  function DayNumber(name: string): (r: Option<nat>)
    ensures r.None? <==> name !in DayNames
    ensures r.Some? ==> r.value < 7 && DayNames[r.value] == name
  {
    DayIndexFrom(name, 0)
  }

  /** `(today_weekday - d) % 7 or 7`, with Python's non-negative `%`. */
  function DaysAgo(todayWeekday: nat, d: nat): (r: nat)
    requires todayWeekday < 7 && d < 7
    ensures 1 <= r <= 7
    ensures (todayWeekday - r) % 7 == d
    ensures r == 7 <==> todayWeekday == d
  {
    var m := (todayWeekday - d) % 7;
    if m == 0 then 7 else m
  }

  /**
   * The weekday branch of `_from_humandate`: how many days before today the named weekday last
   * fell. `None` stands for the date-parsing branch, which is not modelled.
   */
  function FromHumanDate(text: string, todayWeekday: nat): (r: Option<nat>)
    requires todayWeekday < 7
    ensures r.Some? <==> Lower(text) in DayNames
    ensures r.Some? ==> 1 <= r.value <= 7 && DayNames[(todayWeekday - r.value) % 7] == Lower(text)
  {
    match DayNumber(Lower(text))
    case None => None
    case Some(d) => Some(DaysAgo(todayWeekday, d))
  }

  // ---------------------------------------------------------------- one day's listing

  /** The sort key of `generate_day`: records ordered by their time text. */
  predicate ByTime(x: Record, y: Record) {
    StrLe(x.time, y.time)
  }

  lemma ByTimeOrders()
    ensures TotalPreorder(ByTime)
  {
    forall a: Record, b: Record
      ensures ByTime(a, b) || ByTime(b, a)
    {
      StrLeTotal(a.time, b.time);
    }
    forall a: Record, b: Record, c: Record | ByTime(a, b) && ByTime(b, c)
      ensures ByTime(a, c)
    {
      StrLeTrans(a.time, b.time, c.time);
    }
  }

  /** One line of the listing. */
  function Line(r: Record): string {
    "`" + r.time + "`: *" + r.food + "*\n"
  }

  /** The listing: one line per record, in the given order; empty only for no records, and ending in a line break otherwise. */
  function DayText(rs: seq<Record>): (r: string)
    ensures r == "" <==> rs == []
    ensures rs != [] ==> r[|r| - 1] == '\n'
  {
    if rs == [] then "" else DayText(rs[..|rs| - 1]) + Line(rs[|rs| - 1])
  }

  /** When no time or food holds a line break, the listing has exactly one line per record. */
  lemma {:induction false} OneLinePerRecord(rs: seq<Record>)
    requires forall i :: 0 <= i < |rs| ==> '\n' !in rs[i].time && '\n' !in rs[i].food
    ensures Count(DayText(rs), '\n') == |rs|
  {
    if rs != [] {
      var init, r := rs[..|rs| - 1], rs[|rs| - 1];
      OneLinePerRecord(init);
      var head := "`" + r.time + "`: *" + r.food + "*";
      assert '\n' !in head;
      CountAbsent(head, '\n');
      assert Line(r) == head + "\n";
      CountAppend(head, "\n", '\n');
      CountAppend(DayText(init), Line(r), '\n');
    }
  }

  /** `generate_day`: the day's records sorted by time, and the listing of the sorted records. */
  method GenerateDay(day: seq<Record>) returns (sorted: seq<Record>, text: string)
    ensures sorted == Sort(day, ByTime)
    ensures multiset(sorted) == multiset(day) && Sorted(sorted, ByTime)
    ensures text == DayText(sorted)
  {
    ByTimeOrders();
    sorted := Sort(day, ByTime);
    text := "";
    for i := 0 to |sorted|
      invariant text == DayText(sorted[..i])
    {
      assert sorted[..i + 1][..i] == sorted[..i];
      text := text + Line(sorted[i]);
    }
    assert sorted[..|sorted|] == sorted;
  }

  // ---------------------------------------------------------------- the week's top foods

  /** The food of each record, in order. */
  function FoodsOf(records: seq<Record>): (r: seq<string>)
    ensures |r| == |records| && forall i :: 0 <= i < |r| ==> r[i] == records[i].food
  {
    seq(|records|, i requires 0 <= i < |records| => records[i].food)
  }

  /** The records of one day, `db.get(d, [])`. */
  function DayRecords(days: Days, d: string): seq<Record> {
    if d in days then days[d] else []
  }

  /** The foods of the given dates, date by date. */
  function WeekFoods(days: Days, dates: seq<string>): seq<string> {
    if dates == [] then []
    else WeekFoods(days, dates[..|dates| - 1]) + FoodsOf(DayRecords(days, dates[|dates| - 1]))
  }

  /** Where `f` sits among the counted foods from position `i` on. */
  function KeyIndex(counts: seq<(string, nat)>, f: string, i: nat): (r: Option<nat>)
    requires i <= |counts|
    ensures r.Some? ==> i <= r.value < |counts| && counts[r.value].0 == f
    ensures r.None? ==> forall j :: i <= j < |counts| ==> counts[j].0 != f
    decreases |counts| - i
  {
    if i == |counts| then None
    else if counts[i].0 == f then Some(i)
    else KeyIndex(counts, f, i + 1)
  }

  /** The foods of a tally, in order. */
  function Keys(counts: seq<(string, nat)>): (r: seq<string>)
    ensures |r| == |counts| && forall i :: 0 <= i < |counts| ==> r[i] == counts[i].0
  {
    seq(|counts|, i requires 0 <= i < |counts| => counts[i].0)
  }

  /** One step of the counting loop: add the food with count 0 if it is new, then add one. */
  function Bump(counts: seq<(string, nat)>, f: string): seq<(string, nat)> {
    match KeyIndex(counts, f, 0)
    case Some(j) => counts[j := (f, counts[j].1 + 1)]
    case None => counts + [(f, 1)]
  }

  /** `food_count_week` after counting `foods`: each food once, in order of first appearance. */
  function Tally(foods: seq<string>): seq<(string, nat)> {
    if foods == [] then [] else Bump(Tally(foods[..|foods| - 1]), foods[|foods| - 1])
  }

  /** `t` counts `foods`: every food once, with the number of times it occurs. */
  ghost predicate Tallies(t: seq<(string, nat)>, foods: seq<string>) {
    && (forall i, j :: 0 <= i < j < |t| ==> t[i].0 != t[j].0)
    && (forall i :: 0 <= i < |t| ==> t[i].1 == multiset(foods)[t[i].0] > 0)
    && (forall g :: g in foods ==> g in Keys(t))
  }

  /** Counting one more food keeps the tally exact. */
  lemma BumpTallies(t: seq<(string, nat)>, foods: seq<string>, f: string)
    requires Tallies(t, foods)
    ensures Tallies(Bump(t, f), foods + [f])
  {
    assert multiset(foods + [f]) == multiset(foods) + multiset{f};
    match KeyIndex(t, f, 0)
    case Some(j) =>
      var t' := t[j := (f, t[j].1 + 1)];
      assert Bump(t, f) == t';
      assert Keys(t') == Keys(t);
    case None =>
      var t' := t + [(f, 1)];
      assert Bump(t, f) == t';
      assert Keys(t') == Keys(t) + [f];
      assert f !in foods;
  }

  /** The tally is exact. */
  lemma {:induction false} TallyCounts(foods: seq<string>)
    ensures Tallies(Tally(foods), foods)
  {
    if foods != [] {
      var init, f := foods[..|foods| - 1], foods[|foods| - 1];
      TallyCounts(init);
      BumpTallies(Tally(init), init, f);
      assert init + [f] == foods;
    }
  }

  lemma TallySnoc(foods: seq<string>, f: string)
    ensures Tally(foods + [f]) == Bump(Tally(foods), f)
  {
    assert (foods + [f])[..|foods|] == foods;
  }

  /** The inner counting loop of `_top_items`: count the food of each record of one day. */
  method CountDay(counts: seq<(string, nat)>, ghost before: seq<string>, records: seq<Record>)
    returns (counted: seq<(string, nat)>)
    requires counts == Tally(before)
    ensures counted == Tally(before + FoodsOf(records))
  {
    counted := counts;
    assert before + FoodsOf(records[..0]) == before;
    for j := 0 to |records|
      invariant counted == Tally(before + FoodsOf(records[..j]))
    {
      ghost var eaten := before + FoodsOf(records[..j]);
      assert before + FoodsOf(records[..j + 1]) == eaten + [records[j].food] by {
        assert FoodsOf(records[..j + 1]) == FoodsOf(records[..j]) + [records[j].food];
      }
      TallySnoc(eaten, records[j].food);
      counted := Bump(counted, records[j].food);
    }
    assert records[..|records|] == records;
  }

  /** The outer counting loop of `_top_items`: `food_count_week` over the given dates. */
  method CountWeek(days: Days, dates: seq<string>) returns (counts: seq<(string, nat)>)
    ensures counts == Tally(WeekFoods(days, dates))
  {
    counts := [];
    for i := 0 to |dates|
      invariant counts == Tally(WeekFoods(days, dates[..i]))
    {
      var records := if dates[i] in days then days[dates[i]] else [];
      counts := CountDay(counts, WeekFoods(days, dates[..i]), records);
      assert dates[..i + 1][..i] == dates[..i];
    }
    assert dates[..|dates|] == dates;
  }

  /** `sorted(..., key=lambda item: -1*item[1])`: larger counts first. */
  predicate ByCount(x: (string, nat), y: (string, nat)) {
    x.1 >= y.1
  }

  lemma ByCountOrders()
    ensures TotalPreorder(ByCount)
  {
  }

  /** Sorting by count leaves each entry with a count no smaller than every later one. */
  lemma SortedByCount(t: seq<(string, nat)>)
    ensures var s := Sort(t, ByCount);
            && multiset(s) == multiset(t)
            && forall i, j :: 0 <= i < j < |s| ==> s[i].1 >= s[j].1
  {
    ByCountOrders();
    var s := Sort(t, ByCount);
    assert Sorted(s, ByCount);
  }

  /** Where Python's slice `[0:stop]` ends on a list of length `n`. */
  function SliceEnd(n: nat, stop: int): (r: nat)
    ensures r <= n
    ensures stop >= 0 ==> r == if stop < n then stop else n
  {
    if stop >= 0 then (if stop < n then stop else n)
    else if n + stop > 0 then n + stop else 0
  }

  /**
   * `_top_items` on one chat's diary: as many entries as the slice `[0:top]` keeps of one entry
   * per distinct food.
   */
  function Top(days: Days, dates: seq<string>, top: int): (r: seq<(string, nat)>)
    ensures |r| == SliceEnd(|Tally(WeekFoods(days, dates))|, top)
  {
    var t := Tally(WeekFoods(days, dates));
    var sorted := Sort(t, ByCount);
    assert |sorted| == |multiset(sorted)| == |t|;
    sorted[..SliceEnd(|sorted|, top)]
  }

  /** Reordering a list of pairs with distinct first components keeps them distinct. */
  lemma PermutedDistinct(t: seq<(string, nat)>, s: seq<(string, nat)>, foods: seq<string>)
    requires Tallies(t, foods) && multiset(s) == multiset(t)
    ensures forall i, j :: 0 <= i < j < |s| ==> s[i].0 != s[j].0
  {
    PermutedTally(t, s, foods);
    forall i, j | 0 <= i < j < |s|
      ensures s[i].0 != s[j].0
    {
      if s[i].0 == s[j].0 {
        assert s[i] == s[j];
        TwiceCounted(s, i, j);
        DistinctOnce(t, s[i]);
        assert false;
      }
    }
  }

  /** An element at two positions is counted at least twice. */
  lemma TwiceCounted<T>(s: seq<T>, i: nat, j: nat)
    requires i < j < |s| && s[i] == s[j]
    ensures multiset(s)[s[i]] >= 2
  {
    assert s == s[..j] + s[j..];
    assert s[..j][i] == s[i] && s[j..][0] == s[j];
    assert s[j..] == [s[j]] + s[j + 1..];
  }

  /** In a list whose first components are distinct, every pair occurs at most once. */
  lemma {:induction false} DistinctOnce(t: seq<(string, nat)>, x: (string, nat))
    requires forall i, j :: 0 <= i < j < |t| ==> t[i].0 != t[j].0
    ensures multiset(t)[x] <= 1
  {
    if t != [] {
      var init, last := t[..|t| - 1], t[|t| - 1];
      assert t == init + [last];
      DistinctOnce(init, x);
      if x == last {
        assert x !in init by {
          forall k | 0 <= k < |init|
            ensures init[k] != x
          {
            assert init[k] == t[k];
          }
        }
      }
    }
  }

  /** Reordering an exact tally keeps every entry's count exact and every food present. */
  lemma PermutedTally(t: seq<(string, nat)>, s: seq<(string, nat)>, foods: seq<string>)
    requires Tallies(t, foods) && multiset(s) == multiset(t)
    ensures forall i :: 0 <= i < |s| ==> s[i].1 == multiset(foods)[s[i].0] > 0
    ensures forall f :: f in foods ==> f in Keys(s)
  {
    forall i | 0 <= i < |s|
      ensures s[i].1 == multiset(foods)[s[i].0] > 0
    {
      assert s[i] in multiset(t);
      var k :| 0 <= k < |t| && t[k] == s[i];
    }
    forall f | f in foods
      ensures f in Keys(s)
    {
      var k :| 0 <= k < |t| && Keys(t)[k] == f;
      assert t[k] in multiset(s);
      var m :| 0 <= m < |s| && s[m] == t[k];
      assert Keys(s)[m] == f;
    }
  }

  /** In a list sorted by count, an entry past the first `n` has a count no larger than entry `n - 1`. */
  lemma PastPrefix(s: seq<(string, nat)>, n: nat, f: string)
    requires (forall i, j :: 0 <= i < j < |s| ==> s[i].1 >= s[j].1) && 0 < n <= |s|
    requires f in Keys(s) && f !in Keys(s[..n])
    ensures exists m :: n <= m < |s| && s[m].0 == f && s[m].1 <= s[n - 1].1
  {
    var m :| 0 <= m < |s| && Keys(s)[m] == f;
    assert forall i :: 0 <= i < n ==> Keys(s[..n])[i] == Keys(s)[i];
    assert m >= n;
    assert s[n - 1].1 >= s[m].1;
  }

  /**
   * The first `n` entries of an exact tally sorted by count are in non-increasing count order,
   * carry exact counts, and outrank every food they leave out.
   */
  lemma SortedPrefix(s: seq<(string, nat)>, foods: seq<string>, n: nat, r: seq<(string, nat)>)
    requires (forall i, j :: 0 <= i < j < |s| ==> s[i].1 >= s[j].1) && n <= |s| && r == s[..n]
    requires forall i :: 0 <= i < |s| ==> s[i].1 == multiset(foods)[s[i].0] > 0
    requires forall f :: f in foods ==> f in Keys(s)
    ensures forall i, j :: 0 <= i < j < |r| ==> r[i].1 >= r[j].1
    ensures forall i :: 0 <= i < |r| ==> r[i].1 == multiset(foods)[r[i].0] > 0
    ensures forall f :: f in foods && f !in Keys(r) && r != [] ==> multiset(foods)[f] <= r[|r| - 1].1
  {
    forall f | f in foods && f !in Keys(r) && r != []
      ensures multiset(foods)[f] <= r[|r| - 1].1
    {
      PastPrefix(s, n, f);
    }
  }

  /**
   * The top list has `top` entries, or one per food if fewer foods were eaten, no food twice,
   * in non-increasing count order, each with the number
   * of times its food was eaten on the given dates; a food left out was eaten no more often than
   * the last one listed.
   */
  lemma TopItemsMeaning(days: Days, dates: seq<string>, top: int)
    ensures var r := Top(days, dates, top);
            var foods := WeekFoods(days, dates);
            && (top >= 0 ==> |r| == if top < |Tally(foods)| then top else |Tally(foods)|)
            && (forall i, j :: 0 <= i < j < |r| ==> r[i].0 != r[j].0)
            && (forall i, j :: 0 <= i < j < |r| ==> r[i].1 >= r[j].1)
            && (forall i :: 0 <= i < |r| ==> r[i].1 == multiset(foods)[r[i].0] > 0)
            && (forall f :: f in foods && f !in Keys(r) && r != [] ==> multiset(foods)[f] <= r[|r| - 1].1)
  {
    TopRanked(days, dates, top);
    TopDistinct(days, dates, top);
  }

  lemma TopRanked(days: Days, dates: seq<string>, top: int)
    ensures var r := Top(days, dates, top);
            var foods := WeekFoods(days, dates);
            && (forall i, j :: 0 <= i < j < |r| ==> r[i].1 >= r[j].1)
            && (forall i :: 0 <= i < |r| ==> r[i].1 == multiset(foods)[r[i].0] > 0)
            && (forall f :: f in foods && f !in Keys(r) && r != [] ==> multiset(foods)[f] <= r[|r| - 1].1)
  {
    var foods := WeekFoods(days, dates);
    var t := Tally(foods);
    TallyCounts(foods);
    var sorted := Sort(t, ByCount);
    SortedByCount(t);
    PermutedTally(t, sorted, foods);
    var n := SliceEnd(|sorted|, top);
    var r := Top(days, dates, top);
    assert r == sorted[..n];
    SortedPrefix(sorted, foods, n, r);
  }

  lemma TopDistinct(days: Days, dates: seq<string>, top: int)
    ensures var r := Top(days, dates, top);
            forall i, j :: 0 <= i < j < |r| ==> r[i].0 != r[j].0
  {
    var foods := WeekFoods(days, dates);
    var t := Tally(foods);
    TallyCounts(foods);
    var sorted := Sort(t, ByCount);
    PermutedDistinct(t, sorted, foods);
    var r := Top(days, dates, top);
    assert r == sorted[..|r|];
    assert forall i :: 0 <= i < |r| ==> r[i] == sorted[i];
  }

  // ---------------------------------------------------------------- new foods

  /** The set of foods logged on day `d`. */
  function FoodsOn(days: Days, d: string): set<string> {
    if d in days then set r | r in days[d] :: r.food else {}
  }

  /** `generate_new_food` on one chat's diary: foods of the recent dates that no other date has, as a set. */
  function NewFoods(days: Days, recent: seq<string>): (r: set<string>)
    ensures forall f :: f in r <==>
              (exists d :: d in days && d in recent && f in FoodsOn(days, d))
              && (forall d :: d in days && d !in recent ==> f !in FoodsOn(days, d))
  {
    (set d, f | d in days && d in recent && f in FoodsOn(days, d) :: f)
      - (set d, f | d in days && d !in recent && f in FoodsOn(days, d) :: f)
  }

  /** Logging a food never logged before on one of the recent dates makes it new. */
  lemma LoggedTodayIsNew(db: Db, chat: string, day: string, rec: Record, recent: seq<string>)
    requires day in recent
    requires chat in db ==> forall d :: d in db[chat] ==> rec.food !in FoodsOn(db[chat], d)
    ensures rec.food in NewFoods(Put(db, chat, day, rec)[chat], recent)
  {
    var days := Put(db, chat, day, rec)[chat];
    assert Records(Put(db, chat, day, rec), chat, day) == Records(db, chat, day) + [rec];
    assert rec in days[day];
    assert rec.food in FoodsOn(days, day);
    forall d | d in days && d !in recent
      ensures rec.food !in FoodsOn(days, d)
    {
      assert d != day;
      assert Records(Put(db, chat, day, rec), chat, d) == Records(db, chat, d);
    }
  }

  /** Logging a food on a date outside the recent ones means it is not new. */
  lemma LoggedEarlierIsNotNew(db: Db, chat: string, day: string, rec: Record, recent: seq<string>)
    requires day !in recent
    ensures rec.food !in NewFoods(Put(db, chat, day, rec)[chat], recent)
  {
    var days := Put(db, chat, day, rec)[chat];
    assert Records(Put(db, chat, day, rec), chat, day) == Records(db, chat, day) + [rec];
    assert rec in days[day];
    assert rec.food in FoodsOn(days, day);
  }

  // ---------------------------------------------------------------- the bot

  /** A food bot's in-memory state once its database and shortcut files are loaded. */
  class Bot {
    var db: Db
    var shortcuts: Shortcuts
    var states: map<string, int>

    constructor (db: Db, shortcuts: Shortcuts)
      ensures this.db == db && this.shortcuts == shortcuts && states == map[]
    {
      this.db := db;
      this.shortcuts := shortcuts;
      states := map[];
    }

    /** `_save_shortcut`: store the item under the lower-cased key, creating the chat's table if needed. */
    method SaveShortcut(chat: string, key: string, item: string)
      modifies this
      ensures shortcuts == SavedShortcuts(old(shortcuts), chat, key, item)
      ensures db == old(db) && states == old(states)
    {
      if chat !in shortcuts {
        shortcuts := shortcuts[chat := map[]];
      }
      var k := Lower(key);
      shortcuts := shortcuts[chat := shortcuts[chat][k := item]];
    }

    /** `_db_get`: the chat's diary is created even when the day then turns out to be missing (KeyError). */
    method DbGet(chat: string, day: string) returns (r: Option<seq<Record>>)
      modifies this
      ensures db == WithChat(old(db), chat)
      ensures r.Some? <==> day in db[chat]
      ensures r.Some? ==> r.value == db[chat][day]
      ensures shortcuts == old(shortcuts) && states == old(states)
    {
      if chat !in db {
        db := db[chat := map[]];
      }
      if day in db[chat] {
        r := Some(db[chat][day]);
      } else {
        r := None;
      }
    }

    /** `_db_put`: append the record to the chat's day, creating missing levels, and reset the chat's state. */
    method DbPut(chat: string, day: string, rec: Record)
      modifies this
      ensures db == Put(old(db), chat, day, rec)
      ensures states == old(states)[chat := 0]
      ensures shortcuts == old(shortcuts)
    {
      if chat !in db {
        db := db[chat := map[]];
      }
      if day !in db[chat] {
        db := db[chat := db[chat][day := []]];
      }
      db := db[chat := db[chat][day := db[chat][day] + [rec]]];
      states := states[chat := 0];
    }

    /** `log_date` (what `handle_update` does with a plain message): expand a shortcut, store it, confirm. */
    method LogDate(chat: string, item: string, day: string, time: string) returns (reply: string)
      modifies this
      ensures var food := GetShortcut(old(shortcuts), chat, item);
              && db == Put(old(db), chat, day, Record(time, food))
              && reply == day + ": *" + food + "* at `" + time + "`"
      ensures states == old(states)[chat := 0] && shortcuts == old(shortcuts)
    {
      var food := GetShortcut(shortcuts, chat, item);
      DbPut(chat, day, Record(time, food));
      reply := day + ": *" + food + "* at `" + time + "`";
    }

    /** `post_day`: the reply for one day; a listed day is left sorted by time in the database. */
    method PostDay(chat: string, day: string) returns (reply: string)
      modifies this
      ensures chat !in old(db) ==> reply == "No data yet" && db == old(db)
      ensures chat in old(db) && Records(old(db), chat, day) == [] ==>
                reply == "You are nothing on " + day && db == old(db)
      ensures Records(old(db), chat, day) != [] ==>
                var sorted := Sort(Records(old(db), chat, day), ByTime);
                && db == old(db)[chat := old(db)[chat][day := sorted]]
                && reply == DayText(sorted)
      ensures shortcuts == old(shortcuts) && states == old(states)
    {
      if chat !in db {
        return "No data yet";
      }
      var keys := if day in db[chat] then db[chat][day] else [];
      if keys == [] {
        return "You are nothing on " + day;
      }
      var sorted, text := GenerateDay(keys);
      db := db[chat := db[chat][day := sorted]];
      reply := text;
    }

    /** `_top_items`: the counting loop over the given dates, then the sort and the slice; `None` is the KeyError of an unknown chat. */
    method TopItems(chat: string, dates: seq<string>, top: int) returns (r: Option<seq<(string, nat)>>)
      ensures r.None? <==> chat !in db
      ensures r.Some? ==> r.value == Top(db[chat], dates, top)
    {
      if chat !in db {
        return None;
      }
      var counts := CountWeek(db[chat], dates);
      var sorted := Sort(counts, ByCount);
      r := Some(sorted[..SliceEnd(|sorted|, top)]);
    }
  }
}
