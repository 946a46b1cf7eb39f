/**
 * The measurement logger of `examples/measurement_bot.py`: per chat, named time series of
 * `(timestamp, value)` points; a two-state conversation (send a number, then the name to store
 * it under); and the `/keys`, `/list` and `/graph` replies.
 *
 * `float(text)` and the clock are inputs (an `Option<real>` and a timestamp), the numbers stay
 * opaque `real`s, and the replies that print floats or dates are kept as structured values
 * rather than text.
 */
module MeasurementBot {
  import opened Wrappers
  import opened Strings

  /** One measurement: `(date.timestamp(), value)`. */
  type Point = (real, real)

  /** `{"data": [...], "type": "ts"}` */
  datatype Series = Series(data: seq<Point>, kind: string)

  /** One chat's dictionary of series: its keys in insertion order, and the series under each. */
  datatype Table = Table(keys: seq<string>, series: map<string, Series>)

  /** The database: `str(chat_id)` to that chat's table. */
  type Db = map<string, Table>

  /** A dictionary's keys are distinct and are exactly the keys it maps. */
  ghost predicate TableOk(t: Table) {
    && (forall i, j :: 0 <= i < j < |t.keys| ==> t.keys[i] != t.keys[j])
    && (forall k :: k in t.series <==> k in t.keys)
  }

  /** The points stored for `chat` under `key`; none when either is missing. */
  function DataOf(db: Db, chat: string, key: string): seq<Point> {
    if chat in db && key in db[chat].series then db[chat].series[key].data else []
  }

  /** The keys of `chat`, in insertion order; none for an unknown chat. */
  function KeysOf(db: Db, chat: string): seq<string> {
    if chat in db then db[chat].keys else []
  }

  // ---------------------------------------------------------------- _db_get, _db_put

  /** What `_db_get` leaves behind: the chat's table, created empty if it was missing. */
  function WithChat(db: Db, chat: string): (r: Db)
    ensures chat in r && r.Keys == db.Keys + {chat}
    ensures forall c :: c in db ==> r[c] == db[c]
    ensures chat !in db ==> r[chat] == Table([], map[])
  {
    if chat in db then db else db[chat := Table([], map[])]
  }

  /** The inner part of `_db_put`: append the point to the series under `key`, creating it as `{"data": [], "type": "ts"}` if needed. */
  function AppendTo(t: Table, key: string, p: Point): (r: Table)
    ensures forall k :: k in r.series <==> k in t.series || k == key
    ensures r.keys == t.keys + (if key in t.series then [] else [key])
    ensures r.series[key].data == (if key in t.series then t.series[key].data else []) + [p]
    ensures r.series[key].kind == if key in t.series then t.series[key].kind else "ts"
    ensures forall k :: k in t.series && k != key ==> r.series[k] == t.series[k]
    ensures TableOk(t) ==> TableOk(r)
  {
    var t' := if key in t.series then t else Table(t.keys + [key], t.series[key := Series([], "ts")]);
    Table(t'.keys, t'.series[key := Series(t'.series[key].data + [p], t'.series[key].kind)])
  }

  /** `_db_put`: append the point to the chat's series under `key`, creating the chat and the series if needed. */
  function Put(db: Db, chat: string, key: string, p: Point): (r: Db)
    ensures chat in r && r.Keys == db.Keys + {chat}
    ensures forall c :: c in db && c != chat ==> r[c] == db[c]
    ensures forall c, k :: DataOf(r, c, k) == if c == chat && k == key then DataOf(db, c, k) + [p] else DataOf(db, c, k)
    ensures KeysOf(r, chat) == KeysOf(db, chat) + (if chat in db && key in db[chat].series then [] else [key])
    ensures key in r[chat].series
    ensures r[chat].series[key].kind == if chat in db && key in db[chat].series then db[chat].series[key].kind else "ts"
    ensures (chat in db ==> TableOk(db[chat])) ==> TableOk(r[chat])
  {
    var withChat := WithChat(db, chat);
    withChat[chat := AppendTo(withChat[chat], key, p)]
  }

  // ---------------------------------------------------------------- handle_update

  /** The replies of the measurement logger. Those that print a float or a date keep the values instead of the text. */
  datatype Reply =
    | AskKey(value: real)                          // "*{value}*, what should this be stored under?"
    | InvalidNumber                                // "please enter a valid number."
    | Added(key: string, date: real, value: real)  // "Added: {key}: {date}, {value}"
    | Text(text: string)                           // a plain text reply
    | Listing(points: seq<Point>)                  // "\n".join(f"{date}: {value}")
    | Plot(points: seq<Point>)                     // the photo of the plotted series

  /** Everything `handle_update` reads and writes. */
  datatype State = State(db: Db, states: map<string, int>, lastValue: Option<real>, lastDate: Option<real>)

  /** `self.states.get(chat_id, 0)` */
  function StateOf(states: map<string, int>, chat: string): int {
    if chat in states then states[chat] else 0
  }

  /**
   * What always holds between updates: every table is a proper dictionary, states are 0 or 1,
   * and a chat in state 1 means a number is pending (both `last_value` and `last_date` are set).
   */
  ghost predicate WellFormed(s: State) {
    && (forall c :: c in s.db ==> TableOk(s.db[c]))
    && (forall c :: c in s.states ==> s.states[c] == 0 || s.states[c] == 1)
    && (forall c :: c in s.states && s.states[c] == 1 ==> s.lastValue.Some? && s.lastDate.Some?)
  }

  /** `handle_update`: the new state and the reply, if any. */
  function Handle(s: State, chat: string, text: string, number: Option<real>, now: real): (r: (State, Option<Reply>))
    requires WellFormed(s)
    ensures WellFormed(r.0)
  {
    var state := StateOf(s.states, chat);
    if state == 0 then
      match number
      case Some(v) => (s.(states := s.states[chat := 1], lastValue := Some(v), lastDate := Some(now)), Some(AskKey(v)))
      case None => (s, Some(InvalidNumber))
    else if state == 1 then
      var key := Lower(text);
      var date, value := s.lastDate.value, s.lastValue.value;
      (s.(db := Put(s.db, chat, key, (date, value)), states := s.states[chat := 0]), Some(Added(key, date, value)))
    else
      (s, None)
  }

  /**
   * An idle chat (state 0, which includes a chat never seen and one that has just stored a value):
   * a number is accepted and held with its arrival time, anything else asks again.
   */
  lemma IdleChat(s: State, chat: string, text: string, number: Option<real>, now: real)
    requires WellFormed(s) && StateOf(s.states, chat) == 0
    ensures var (s', reply) := Handle(s, chat, text, number, now);
            && s'.db == s.db
            && (number.Some? ==> && StateOf(s'.states, chat) == 1 && s'.lastValue == number && s'.lastDate == Some(now)
                                 && reply == Some(AskKey(number.value)))
            && (number.None? ==> s' == s && reply == Some(InvalidNumber))
  {
  }

  /** In state 1 the pending value is stored under the lower-cased text and the chat goes back to state 0. */
  lemma KeyStoresPending(s: State, chat: string, text: string, number: Option<real>, now: real)
    requires WellFormed(s) && StateOf(s.states, chat) == 1
    ensures var (s', reply) := Handle(s, chat, text, number, now);
            && DataOf(s'.db, chat, Lower(text)) == DataOf(s.db, chat, Lower(text)) + [(s.lastDate.value, s.lastValue.value)]
            && (forall c, k :: c != chat || k != Lower(text) ==> DataOf(s'.db, c, k) == DataOf(s.db, c, k))
            && StateOf(s'.states, chat) == 0
            && reply == Some(Added(Lower(text), s.lastDate.value, s.lastValue.value))
  {
  }

  /** A number followed by a name stores that number, stamped with the time it arrived, under the name. */
  lemma NumberThenKey(s: State, chat: string, digits: string, v: real, t0: real, name: string, t1: real)
    requires WellFormed(s) && StateOf(s.states, chat) == 0
    ensures var s1 := Handle(s, chat, digits, Some(v), t0).0;
            var s2 := Handle(s1, chat, name, None, t1).0;
            && DataOf(s2.db, chat, Lower(name)) == DataOf(s.db, chat, Lower(name)) + [(t0, v)]
            && StateOf(s2.states, chat) == 0
  {
    var s1 := Handle(s, chat, digits, Some(v), t0).0;
    KeyStoresPending(s1, chat, name, None, t1);
  }

  /**
   * The pending number is shared by all chats: when chat `b` sends a number after chat `a` did,
   * the name `a` then sends stores `b`'s number in `a`'s series.
   */
  lemma SharedPendingValue(s: State, a: string, b: string, va: real, ta: real, vb: real, tb: real, name: string, t: real)
    requires WellFormed(s) && a != b && StateOf(s.states, a) == 0 && StateOf(s.states, b) == 0
    ensures var s1 := Handle(s, a, "", Some(va), ta).0;
            var s2 := Handle(s1, b, "", Some(vb), tb).0;
            var s3 := Handle(s2, a, name, None, t).0;
            DataOf(s3.db, a, Lower(name)) == DataOf(s.db, a, Lower(name)) + [(tb, vb)]
  {
    var s1 := Handle(s, a, "", Some(va), ta).0;
    var s2 := Handle(s1, b, "", Some(vb), tb).0;
    assert StateOf(s2.states, a) == 1;
    KeyStoresPending(s2, a, name, None, t);
  }

  // ---------------------------------------------------------------- /keys, /list, /graph

  /** `/keys`: "No data yet" for an unknown chat, otherwise the chat's keys, one per line, in insertion order. */
  function KeysReply(db: Db, chat: string): (r: Reply)
    ensures r.Text?
    ensures chat !in db ==> r.text == "No data yet"
    ensures chat in db && db[chat].keys == [] ==> r.text == ""
  {
    if chat !in db then Text("No data yet") else Text(Join(db[chat].keys, "\n"))
  }

  /** When no key holds a line break, the `/keys` text splits back into the keys, in insertion order. */
  lemma KeysListing(db: Db, chat: string)
    requires chat in db && db[chat].keys != []
    requires forall i :: 0 <= i < |db[chat].keys| ==> '\n' !in db[chat].keys[i]
    ensures Split(KeysReply(db, chat).text, '\n') == db[chat].keys
  {
    JoinSplit(db[chat].keys, '\n');
  }

  /** After a first store of `key`, `/keys` lists it last; a repeated store leaves the listing alone. */
  lemma KeysAfterPut(db: Db, chat: string, key: string, p: Point)
    ensures KeysReply(Put(db, chat, key, p), chat) ==
              Text(Join(KeysOf(db, chat) + (if chat in db && key in db[chat].series then [] else [key]), "\n"))
  {
  }

  /** The key argument of `/list` and `/graph`: the text after the first space, stripped and lower-cased. */
  function CommandKey(text: string): (r: Option<string>)
    ensures r.None? <==> ' ' !in text
  {
    match SplitFirst(text, ' ')
    case None => None
    case Some((_, rest)) => Some(Lower(Strip(rest)))
  }

  /**
   * `/list` (`graph` false) or `/graph` (`graph` true): the database after `_db_get`, and the
   * reply, if any. `/graph` of a series with no points sends nothing: `zip(*data)` unpacks to
   * nothing and raises a ValueError that the handler's `except KeyError` does not catch.
   */
  function Lookup(db: Db, chat: string, text: string, graph: bool): (r: (Db, Option<Reply>))
    ensures CommandKey(text).None? ==> r == (db, Some(Text("please specify a key")))
    ensures CommandKey(text).Some? ==>
              var key := CommandKey(text).value;
              && r.0 == WithChat(db, chat)
              && (r.1.None? <==> graph && key in r.0[chat].series && DataOf(db, chat, key) == [])
              && (r.1.Some? && key in r.0[chat].series ==>
                    r.1.value == (if graph then Plot(DataOf(db, chat, key)) else Listing(DataOf(db, chat, key))))
              && (key !in r.0[chat].series ==> r.1 == Some(Text(key + " not found in database")))
  {
    match CommandKey(text)
    case None => (db, Some(Text("please specify a key")))
    case Some(key) =>
      var db' := WithChat(db, chat);
      if key in db'[chat].series then
        var data := db'[chat].series[key].data;
        (db', if !graph then Some(Listing(data)) else if data == [] then None else Some(Plot(data)))
      else
        (db', Some(Text(key + " not found in database")))
  }

  /** A key with a space at either end can be stored, but no `/list` or `/graph` ever looks it up. */
  lemma PaddedKeyNeverLookedUp(key: string, text: string)
    requires key != [] && (IsSpace(key[0]) || IsSpace(key[|key| - 1]))
    ensures CommandKey(text) != Some(key)
  {
    if SplitFirst(text, ' ').Some? {
      var rest := SplitFirst(text, ' ').value.1;
      var k := Strip(rest);
      assert k == [] || (!IsSpace(Lower(k)[0]) && !IsSpace(Lower(k)[|k| - 1]));
    }
  }

  /** Looking up a key in an unknown chat creates the chat: `/keys` then lists nothing instead of "No data yet". */
  lemma LookupCreatesChat(db: Db, chat: string, text: string, graph: bool)
    requires chat !in db && CommandKey(text).Some?
    ensures KeysReply(db, chat) == Text("No data yet")
    ensures KeysReply(Lookup(db, chat, text, graph).0, chat) == Text("")
  {
  }

  /**
   * A series `_db_put` has stored to holds a point, so `/graph` of its key, written plainly
   * after the command word, always answers.
   */
  lemma GraphAfterPut(db: Db, chat: string, command: string, key: string, p: Point)
    requires ' ' !in command
    requires Lower(key) == key && (key == [] || (!IsSpace(key[0]) && !IsSpace(key[|key| - 1])))
    ensures Lookup(Put(db, chat, key, p), chat, command + " " + key, true).1 == Some(Plot(DataOf(Put(db, chat, key, p), chat, key)))
  {
    CommandKeyOf(command, key);
  }

  /** A command word followed by a plain lower-case name looks up exactly that name. */
  lemma CommandKeyOf(command: string, name: string)
    requires ' ' !in command
    requires Lower(name) == name && (name == [] || (!IsSpace(name[0]) && !IsSpace(name[|name| - 1])))
    ensures CommandKey(command + " " + name) == Some(name)
  {
    SplitFirstAt(command, ' ', name);
    assert command + " " + name == command + [' '] + name;
    StripUnpadded(name);
  }

  // ---------------------------------------------------------------- the bot

  /** A measurement bot's in-memory state once its database file is loaded. */
  class MeasureBot {
    var db: Db
    var states: map<string, int>
    var lastValue: Option<real>
    var lastDate: Option<real>

    function Snapshot(): State
      reads this
    {
      State(db, states, lastValue, lastDate)
    }

    ghost predicate Valid()
      reads this
    {
      WellFormed(Snapshot())
    }

    /** The database as loaded from the file (or empty), no conversation under way, no number pending. */
    constructor (db: Db)
      requires forall c :: c in db ==> TableOk(db[c])
      ensures Snapshot() == State(db, map[], None, None) && Valid()
    {
      this.db := db;
      states := map[];
      lastValue := None;
      lastDate := None;
    }

    /** `_db_get`: the chat's table is created even when the key then turns out to be missing (KeyError). */
    method DbGet(chat: string, key: string) returns (r: Option<Series>)
      modifies this
      ensures db == WithChat(old(db), chat)
      ensures r.Some? <==> key in db[chat].series
      ensures r.Some? ==> r.value == db[chat].series[key]
      ensures states == old(states) && lastValue == old(lastValue) && lastDate == old(lastDate)
    {
      if chat !in db {
        db := db[chat := Table([], map[])];
      }
      if key in db[chat].series {
        r := Some(db[chat].series[key]);
      } else {
        r := None;
      }
    }

    /** `_db_put`: append the point, creating the chat and the series if needed, and reset the chat's state. */
    method DbPut(chat: string, key: string, p: Point)
      modifies this
      ensures db == Put(old(db), chat, key, p)
      ensures states == old(states)[chat := 0]
      ensures lastValue == old(lastValue) && lastDate == old(lastDate)
    {
      if chat !in db {
        db := db[chat := Table([], map[])];
      }
      var t := db[chat];
      ghost var before := t;
      if key !in t.series {
        t := Table(t.keys + [key], t.series[key := Series([], "ts")]);
      }
      var s := t.series[key];
      t := Table(t.keys, t.series[key := Series(s.data + [p], s.kind)]);
      assert t == AppendTo(before, key, p);
      db := db[chat := t];
      states := states[chat := 0];
    }

    /** `handle_update`: one step of the conversation. */
    method HandleUpdate(chat: string, text: string, number: Option<real>, now: real) returns (reply: Option<Reply>)
      requires Valid()
      modifies this
      ensures (Snapshot(), reply) == Handle(old(Snapshot()), chat, text, number, now)
      ensures Valid()
    {
      var state := if chat in states then states[chat] else 0;
      if state == 0 {
        match number
        case Some(v) =>
          reply := Some(AskKey(v));
          states := states[chat := 1];
          lastValue := Some(v);
          lastDate := Some(now);
        case None =>
          reply := Some(InvalidNumber);
      } else if state == 1 {
        var value, date := lastValue.value, lastDate.value;
        var key := Lower(text);
        DbPut(chat, key, (date, value));
        reply := Some(Added(key, date, value));
      } else {
        reply := None;
      }
    }

    /** `/list` and `/graph` */
    method LookupCommand(chat: string, text: string, graph: bool) returns (reply: Option<Reply>)
      modifies this
      ensures (db, reply) == Lookup(old(db), chat, text, graph)
      ensures states == old(states) && lastValue == old(lastValue) && lastDate == old(lastDate)
    {
      match CommandKey(text)
      case None =>
        reply := Some(Text("please specify a key"));
      case Some(key) =>
        var found := DbGet(chat, key);
        match found
        case Some(series) =>
          reply := if !graph then Some(Listing(series.data)) else if series.data == [] then None else Some(Plot(series.data));
        case None =>
          reply := Some(Text(key + " not found in database"));
    }
  }
}
