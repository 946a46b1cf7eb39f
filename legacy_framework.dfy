/**
 * The earlier framework of `tg_bot.py`: the same config file and required keys, but `chat_ids`
 * kept as the raw comma-split strings, a membership guard on sends over those strings, and no
 * authorisation of inbound messages.
 */
module LegacyFramework {
  import opened Wrappers
  import opened Strings
  import opened ConfigFile
  import Framework

  /** Why the earlier framework raised. */
  datatype LegacyError =
    | Setup(cause: LoadError)               // NotImplementedError, FileNotFoundError, "Missing ... from config"
    | UnauthorisedDestination(chat: string) // AssertionError "unauthorised chat id"

  /** What the earlier framework asks of the Telegram application: build it (with the text handler only), or send. */
  datatype Step = Build(token: string) | Queue(chat: string, text: string)

  /** `self.config["chat_ids"].split(",")`: the pieces as written, neither stripped nor converted. */
  function LegacyChatIds(value: string): (r: seq<string>)
    ensures |r| >= 1
    ensures forall i :: 0 <= i < |r| ==> ',' !in r[i]
    ensures Join(r, ",") == value
  {
    SplitJoin(value, ',');
    Split(value, ',')
  }

  /** What a successful constructor leaves in the fields. */
  datatype Settings = Settings(config: Config, chatIds: seq<string>, botToken: string)

  /** The constructor up to `_bot_init`: the name check, the config file, then the required keys in order. */
  function Construct(name: Option<string>, file: Option<seq<string>>): (r: Result<Settings, LegacyError>)
    ensures name.None? ==> r == Failure(Setup(NoName))
    ensures r.Success? <==> LoadChecked(name, file).Success?
    ensures LoadChecked(name, file).Failure? ==> r == Failure(Setup(LoadChecked(name, file).error))
    ensures r.Success? ==>
              var config := Parse(map[], file.value);
              && r.value.config == config && r.value.botToken == config[BotToken]
              && |r.value.chatIds| >= 1 && Join(r.value.chatIds, ",") == config[ChatIds]
  {
    match LoadChecked(name, file)
    case Failure(e) => Failure(Setup(e))
    case Success(config) => Success(Settings(config, LegacyChatIds(config[ChatIds]), config[BotToken]))
  }

  /** The assertion in `send_message`: only a chat id string listed in `chat_ids` may be sent to. */
  function Guard(chatIds: seq<string>, chat: string): (r: Outcome<LegacyError>)
    ensures r.Pass? <==> chat in chatIds
    ensures r.Fail? ==> r.error == UnauthorisedDestination(chat)
  {
    if chat in chatIds then Pass else Fail(UnauthorisedDestination(chat))
  }

  /** `_msghandle`: every text message goes straight to `handle_update`. */
  function MsgHandle(u: Framework.Update): (r: Framework.Update)
    ensures forall chatIds: seq<int> :: Framework.MsgHandle(false, chatIds, u) == Success(r)
  {
    u
  }

  /** A bot object of `tg_bot.py`, from the end of its constructor on. */
  class LegacyBot {
    const name: string
    var config: Config
    var chatIds: seq<string>
    var botToken: string
    var app: seq<Step>

    /** `chat_ids` came from a split, so it always has a first entry for `post_startup`. */
    predicate Valid()
      reads this
    {
      |chatIds| >= 1
    }

    constructor (name: string, s: Settings)
      requires |s.chatIds| >= 1
      ensures this.name == name && config == s.config && chatIds == s.chatIds && botToken == s.botToken
      ensures app == [Build(s.botToken)]
      ensures Valid()
    {
      this.name := name;
      config := s.config;
      chatIds := s.chatIds;
      botToken := s.botToken;
      app := [Build(s.botToken)];
    }

    /** `TelegramBot.__init__` of `tg_bot.py`: the name check, `load_config`, the required keys, the split, `_bot_init`. */
    static method Create(name: Option<string>, file: Option<seq<string>>) returns (r: Result<LegacyBot, LegacyError>)
      ensures r.Success? <==> Construct(name, file).Success?
      ensures r.Failure? ==> r.error == Construct(name, file).error
      ensures r.Success? ==>
                var bot := r.value;
                && fresh(bot) && bot.Valid() && bot.name == name.value
                && Settings(bot.config, bot.chatIds, bot.botToken) == Construct(name, file).value
                && bot.app == [Build(bot.botToken)]
    {
      if name.None? {
        return Failure(Setup(NoName));
      }
      if file.None? {
        return Failure(Setup(ConfigNotFound));
      }
      var config := Load(map[], file.value);
      match FirstMissing(RequiredKeys, config)
      case Some(key) =>
        return Failure(Setup(MissingKey(key)));
      case None =>
        var bot := new LegacyBot(name.value, Settings(config, LegacyChatIds(config[ChatIds]), config[BotToken]));
        return Success(bot);
    }

    /** `send_message`: refuse a chat id string not in `chat_ids`, otherwise create the send task. */
    method SendMessage(chat: string, text: string) returns (o: Outcome<LegacyError>)
      modifies this
      ensures o == Guard(chatIds, chat)
      ensures o.Pass? ==> app == old(app) + [Queue(chat, text)]
      ensures o.Fail? ==> app == old(app)
      ensures config == old(config) && chatIds == old(chatIds) && botToken == old(botToken)
    {
      o := Guard(chatIds, chat);
      if o.Pass? {
        app := app + [Queue(chat, text)];
      }
    }

    /** `post_startup`: announce the bot to the first listed chat; the guard always lets it through. */
    method PostStartup()
      requires Valid()
      modifies this
      ensures config == old(config) && chatIds == old(chatIds) && botToken == old(botToken)
      ensures app == old(app) + [Queue(old(chatIds[0]), name + " is starting up")]
    {
      var o := SendMessage(chatIds[0], name + " is starting up");
    }
  }

  /**
   * The two framework versions disagree on a `chat_ids` value written with a space after the
   * comma, such as `"1, 2"`: the earlier one keeps the piece `" 2"` and so refuses the chat id
   * `"2"`, the later one strips and converts and so authorises both chats.
   */
  lemma SpacedChatIds(ta: string, tb: string, a: int, b: int)
    requires ',' !in ta && ',' !in tb && a != b
    requires Framework.ChatId(ta) == Some(a) && Framework.ChatId(tb) == Some(b)
    requires tb != [] && !IsSpace(tb[0])
    ensures LegacyChatIds(ta + ", " + tb) == [ta, " " + tb]
    ensures Guard(LegacyChatIds(ta + ", " + tb), tb).Fail?
    ensures Framework.ChatIdsOf(ta + ", " + tb) == Success([a, b])
  {
    SpacedSplit(ta, tb);
    assert ta != tb;
    assert |" " + tb| != |tb|;
    SpacedPiece(tb);
    PairIds([ta, " " + tb], a, b);
  }

  /** Two pieces that read as `a` and `b` convert to `[a, b]`. */
  lemma PairIds(pieces: seq<string>, a: int, b: int)
    requires |pieces| == 2
    requires Framework.ChatId(pieces[0]) == Some(a) && Framework.ChatId(pieces[1]) == Some(b)
    ensures Framework.ParseIds(pieces) == Success([a, b])
  {
    var ids := [a, b];
    assert forall i :: 0 <= i < 2 ==> Framework.ChatId(pieces[i]) == Some(ids[i]) by {
      assert ids[0] == a && ids[1] == b;
    }
    Framework.ParseIdsOf(pieces, ids);
  }

  /** A space in front of a piece does not change the id it reads as. */
  lemma SpacedPiece(t: string)
    ensures Framework.ChatId(" " + t) == Framework.ChatId(t)
  {
    StripSpacePrefix([' '], t);
    assert [' '] + t == " " + t;
  }

  /** Text with a space after its one comma splits into the part before and the spaced part after. */
  lemma SpacedSplit(ta: string, tb: string)
    requires ',' !in ta && ',' !in tb
    ensures Split(ta + ", " + tb, ',') == [ta, " " + tb]
  {
    var parts := [ta, " " + tb];
    assert ',' !in " " + tb;
    assert Join(parts[1..], ",") == " " + tb;
    assert Join(parts, ",") == ta + ", " + tb;
    JoinSplit(parts, ',');
  }
}
