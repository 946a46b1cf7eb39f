/**
 * The `key=value` configuration file read by `load_config` (identical in both versions of the
 * framework) and the required-key check that the constructors run after it.
 * The file's existence and its lines are inputs: `None` stands for a missing file.
 */
module ConfigFile {
  import opened Wrappers
  import opened Strings

  type Config = map<string, string>

  /** Why construction stopped before a bot could be built. */
  datatype LoadError =
    | NoName              // the bot class defines no `name` (NotImplementedError)
    | ConfigNotFound      // FileNotFoundError
    | MissingKey(key: string)

  /** The keys a config must define, in the order the constructor checks them. */
  const RequiredKeys: seq<string> := [BotToken, ChatIds]

  const BotToken: string := "bot_token"
  const ChatIds: string := "chat_ids"

  /**
   * What one line of the file sets: the stripped text before its first '=' and the stripped text
   * after it. A line without '=' sets nothing.
   */
  function ParseLine(line: string): (r: Option<(string, string)>)
    ensures r.None? <==> '=' !in line
  {
    match SplitFirst(Strip(line), '=')
    case None =>
      assert '=' !in line by { StripKeepsMark(line, '='); }
      None
    case Some((k, v)) =>
      assert '=' in line by { StripKeepsMark(line, '='); }
      Some((Strip(k), Strip(v)))
  }

  /**
   * A line `k + "=" + v` whose first '=' is the one shown sets the stripped `k` to the
   * stripped `v`, whatever whitespace surrounds the line or the '='.
   */
  lemma ParseLineOf(k: string, v: string)
    requires '=' !in k
    ensures ParseLine(k + ['='] + v) == Some((Strip(k), Strip(v)))
  {
    StripAroundMark(k, '=', v);
    assert '=' !in TrimLeft(k) by {
      assert forall j :: 0 <= j < |TrimLeft(k)| ==> TrimLeft(k)[j] == k[SkipSpaces(k, 0) + j];
    }
    SplitFirstAt(TrimLeft(k), '=', TrimRight(v));
    StripTrimLeft(k);
    StripTrimRight(v);
  }

  /** Every line holding '=' is read that way, cut at its first '='. */
  lemma ParseLineMeaning(line: string, k: string, v: string)
    requires SplitFirst(line, '=') == Some((k, v))
    ensures ParseLine(line) == Some((Strip(k), Strip(v)))
  {
    ParseLineOf(k, v);
  }

  /** What each line of the file sets, in file order. */
  type Entry = Option<(string, string)>

  function Entries(lines: seq<string>): (r: seq<Entry>)
    ensures |r| == |lines| && forall i :: 0 <= i < |lines| ==> r[i] == ParseLine(lines[i])
  {
    seq(|lines|, i requires 0 <= i < |lines| => ParseLine(lines[i]))
  }

  /** Starting from `init`, apply each entry in turn; a later entry overwrites an earlier one. */
  function Apply(init: Config, entries: seq<Entry>): Config {
    if entries == [] then init
    else
      var before := Apply(init, entries[..|entries| - 1]);
      match entries[|entries| - 1]
      case None => before
      case Some((k, v)) => before[k := v]
  }

  /** The map `load_config` leaves behind when it starts from `init`. */
  function Parse(init: Config, lines: seq<string>): Config {
    Apply(init, Entries(lines))
  }

  /** The `for line in file` loop of `load_config`, updating the config map line by line. */
  method Load(init: Config, lines: seq<string>) returns (config: Config)
    ensures config == Parse(init, lines)
  {
    ghost var entries := Entries(lines);
    config := init;
    for i := 0 to |lines|
      invariant config == Apply(init, entries[..i])
    {
      ApplyNext(init, entries, i);
      match ParseLine(lines[i])
      case None =>
      case Some((key, value)) =>
        config := config[key := value];
    }
    assert entries[..|lines|] == entries;
  }

  lemma ApplyNext(init: Config, entries: seq<Entry>, i: nat)
    requires i < |entries|
    ensures Apply(init, entries[..i + 1]) ==
            match entries[i]
            case None => Apply(init, entries[..i])
            case Some((k, v)) => Apply(init, entries[..i])[k := v]
  {
    assert entries[..i + 1][..i] == entries[..i];
  }

  /** `entry` sets `key`. */
  predicate Sets(entry: Entry, key: string) {
    entry.Some? && entry.value.0 == key
  }

  /** The last line that sets a key decides its value. */
  lemma {:induction false} LastWriteWins(init: Config, entries: seq<Entry>, i: nat, key: string, value: string)
    requires i < |entries| && entries[i] == Some((key, value))
    requires forall j :: i < j < |entries| ==> !Sets(entries[j], key)
    ensures key in Apply(init, entries) && Apply(init, entries)[key] == value
  {
    if i < |entries| - 1 {
      var prefix := entries[..|entries| - 1];
      assert forall j :: i < j < |prefix| ==> prefix[j] == entries[j];
      LastWriteWins(init, prefix, i, key, value);
    }
  }

  /** A key is defined exactly when `init` had it or some line sets it. */
  lemma {:induction false} ParsedKeys(init: Config, entries: seq<Entry>, key: string)
    ensures key in Apply(init, entries) <==> key in init || exists j :: 0 <= j < |entries| && Sets(entries[j], key)
  {
    if entries != [] {
      var n := |entries| - 1;
      var prefix := entries[..n];
      ParsedKeys(init, prefix, key);
      if key in Apply(init, entries) && key !in init && !Sets(entries[n], key) {
        var j :| 0 <= j < |prefix| && Sets(prefix[j], key);
        assert entries[j] == prefix[j];
      }
      if exists j :: 0 <= j < |entries| && Sets(entries[j], key) {
        var j :| 0 <= j < |entries| && Sets(entries[j], key);
        if j < n {
          assert prefix[j] == entries[j];
        }
      }
    }
  }

  /** A key no line sets keeps the value `init` gave it. */
  lemma {:induction false} UnsetKeyKept(init: Config, entries: seq<Entry>, key: string)
    requires key in init
    requires forall j :: 0 <= j < |entries| ==> !Sets(entries[j], key)
    ensures key in Apply(init, entries) && Apply(init, entries)[key] == init[key]
  {
    if entries != [] {
      var prefix := entries[..|entries| - 1];
      assert forall j :: 0 <= j < |prefix| ==> prefix[j] == entries[j];
      UnsetKeyKept(init, prefix, key);
    }
  }

  /** The first key of `keys` the config lacks, as the constructor's `for x in [...]` loop finds it. */
  function FirstMissing(keys: seq<string>, config: Config): (r: Option<string>)
    ensures r.None? <==> forall k :: k in keys ==> k in config
    ensures r.Some? ==> exists i :: 0 <= i < |keys| && keys[i] == r.value && r.value !in config
                                   && forall j :: 0 <= j < i ==> keys[j] in config
  {
    if keys == [] then None
    else if keys[0] !in config then Some(keys[0])
    else
      var r := FirstMissing(keys[1..], config);
      assert forall k :: k in keys ==> k == keys[0] || k in keys[1..];
      if r.Some? then
        var i :| 0 <= i < |keys[1..]| && keys[1..][i] == r.value && r.value !in config
                 && forall j :: 0 <= j < i ==> keys[1..][j] in config;
        assert keys[i + 1] == r.value;
        r
      else r
  }

  /**
   * The start of both constructors: the name check, reading the file, then the required keys,
   * `bot_token` before `chat_ids`.
   */
  function LoadChecked(name: Option<string>, file: Option<seq<string>>): (r: Result<Config, LoadError>)
    ensures name.None? ==> r == Failure(NoName)
    ensures name.Some? && file.None? ==> r == Failure(ConfigNotFound)
    ensures r.Success? ==> file.Some? && r.value == Parse(map[], file.value)
    ensures r.Success? <==> (name.Some? && file.Some?
                             && BotToken in Parse(map[], file.value) && ChatIds in Parse(map[], file.value))
    ensures r == Failure(MissingKey(ChatIds)) <==>
              name.Some? && file.Some? && BotToken in Parse(map[], file.value) && ChatIds !in Parse(map[], file.value)
    ensures r == Failure(MissingKey(BotToken)) <==>
              name.Some? && file.Some? && BotToken !in Parse(map[], file.value)
  {
    if name.None? then Failure(NoName)
    else if file.None? then Failure(ConfigNotFound)
    else
      var config := Parse(map[], file.value);
      match FirstMissing(RequiredKeys, config)
      case Some(key) => Failure(MissingKey(key))
      case None => Success(config)
  }
}
