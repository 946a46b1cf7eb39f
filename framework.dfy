/**
 * The bot framework of `tg_bot/bot.py`: construction from the config file, the class-wide
 * command registry, the authorisation check on inbound text, the membership guard on outbound
 * sends and the one-shot `single_send_msg` batch.
 *
 * The Telegram `Application` is not modelled; what the framework asks of it is recorded as an
 * append-only trace of `Step`s on the bot (build, initialize, start, a queued send, stop,
 * shutdown).
 */
module Framework {
  import opened Wrappers
  import opened Strings
  import opened ConfigFile

  /** Why a framework operation raised. */
  datatype BotError =
    | Setup(cause: LoadError)               // NotImplementedError, FileNotFoundError, "Missing ... from config"
    | InvalidChatId(piece: string)          // ValueError from `int()` on a `chat_ids` piece
    | Unauthorised(chat: int)               // PermissionError from `_authorized_check`
    | UnauthorisedDestination(chat: int)    // AssertionError "unauthorised chat id" from `_send_message`

  /** A command function, known to the framework by its `__name__`. */
  datatype Handler = Handler(name: string)

  /** The class-level `command_registry` list; one object shared by every bot class. */
  class CommandRegistry {
    var commands: seq<Handler>

    constructor ()
      ensures commands == []
    {
      commands := [];
    }

    /** The `@TelegramBot.command` decorator: record `f` at the end and hand it back unchanged. */
    method Command(f: Handler) returns (g: Handler)
      modifies this
      ensures g == f
      ensures commands == old(commands) + [f]
    {
      commands := commands + [f];
      g := f;
    }
  }

  /** A handler added to the application: a command by name, or the catch-all for plain text. */
  datatype Binding = OnCommand(command: string) | OnText

  /** The handlers `_bot_init` adds: one per registered command, in order, then the text handler. */
  function Bindings(commands: seq<Handler>): (r: seq<Binding>)
    ensures |r| == |commands| + 1 && r[|commands|] == OnText
    ensures forall i :: 0 <= i < |commands| ==> r[i] == OnCommand(commands[i].name)
  {
    if commands == [] then [OnText]
    else [OnCommand(commands[0].name)] + Bindings(commands[1..])
  }

  /** Registering `f` adds exactly one command binding for its name, before the text handler. */
  lemma {:induction false} BindingsAfterRegister(commands: seq<Handler>, f: Handler)
    ensures Bindings(commands + [f]) == Bindings(commands)[..|commands|] + [OnCommand(f.name), OnText]
    ensures multiset(Bindings(commands + [f]))[OnCommand(f.name)]
            == multiset(Bindings(commands))[OnCommand(f.name)] + 1
  {
    var b, b' := Bindings(commands), Bindings(commands + [f]);
    assert b' == b[..|commands|] + [OnCommand(f.name), OnText];
    assert b == b[..|commands|] + [OnText];
  }

  /** What a chat-id piece of the config becomes: `int(piece.strip())`, `None` for ValueError. */
  function ChatId(piece: string): Option<int> {
    ParseInt(Strip(piece))
  }

  /** The index of the first `None` from `i` on, `|xs|` when there is none. */
  function FirstNone<T>(xs: seq<Option<T>>, i: nat): (k: nat)
    requires i <= |xs|
    ensures i <= k <= |xs|
    ensures forall j :: i <= j < k ==> xs[j].Some?
    ensures k < |xs| ==> xs[k].None?
    decreases |xs| - i
  {
    if i == |xs| || xs[i].None? then i else FirstNone(xs, i + 1)
  }

  /** Each piece converted on its own. */
  function PieceIds(pieces: seq<string>): (r: seq<Option<int>>)
    ensures |r| == |pieces| && forall i :: 0 <= i < |pieces| ==> r[i] == ChatId(pieces[i])
  {
    seq(|pieces|, i requires 0 <= i < |pieces| => ChatId(pieces[i]))
  }

  /** The list comprehension over the pieces: every piece converted, or the first piece that is not a number. */
  function ParseIds(pieces: seq<string>): (r: Result<seq<int>, string>)
    ensures r.Success? <==> forall i :: 0 <= i < |pieces| ==> ChatId(pieces[i]).Some?
    ensures r.Success? ==> |r.value| == |pieces|
                           && forall i :: 0 <= i < |pieces| ==> ChatId(pieces[i]) == Some(r.value[i])
    ensures r.Failure? ==> var k := FirstNone(PieceIds(pieces), 0);
                           && k < |pieces| && r.error == pieces[k] && ChatId(pieces[k]).None?
                           && forall j :: 0 <= j < k ==> ChatId(pieces[j]).Some?
  {
    var ids := PieceIds(pieces);
    var k := FirstNone(ids, 0);
    if k < |pieces| then Failure(pieces[k])
    else Success(seq(|pieces|, i requires 0 <= i < |pieces| => ids[i].value))
  }

  /** Pieces that each read as the matching id convert to exactly those ids. */
  lemma ParseIdsOf(pieces: seq<string>, ids: seq<int>)
    requires |pieces| == |ids| && forall i :: 0 <= i < |ids| ==> ChatId(pieces[i]) == Some(ids[i])
    ensures ParseIds(pieces) == Success(ids)
  {
    var r := ParseIds(pieces);
    assert r.Success?;
    assert r.value == ids;
  }

  /** `self.chat_ids`: the comma-separated pieces of the `chat_ids` value as integers, in order. */
  function ChatIdsOf(value: string): (r: Result<seq<int>, string>)
    ensures r.Success? ==> |r.value| == |Split(value, ',')| >= 1
  {
    ParseIds(Split(value, ','))
  }

  /** One id written out has no comma and reads back as itself. */
  lemma IdTextRoundTrip(id: int)
    ensures ',' !in IntToString(id) && ChatId(IntToString(id)) == Some(id)
  {
    IntToStringChars(id);
    StripUnpadded(IntToString(id));
    IntRoundTrip(id);
  }

  /** Writing a non-empty id list out comma-separated and reading it back gives the list. */
  lemma ChatIdsRoundTrip(ids: seq<int>)
    requires |ids| >= 1
    ensures ChatIdsOf(Join(IdTexts(ids), ",")) == Success(ids)
  {
    var texts := IdTexts(ids);
    forall i | 0 <= i < |texts|
      ensures ',' !in texts[i] && ChatId(texts[i]) == Some(ids[i])
    {
      IdTextRoundTrip(ids[i]);
    }
    JoinSplit(texts, ',');
    ParseIdsOf(texts, ids);
  }

  function IdTexts(ids: seq<int>): (r: seq<string>)
    ensures |r| == |ids| && forall i :: 0 <= i < |ids| ==> r[i] == IntToString(ids[i])
  {
    seq(|ids|, i requires 0 <= i < |ids| => IntToString(ids[i]))
  }

  /** What a successful constructor leaves in the fields. */
  datatype Settings = Settings(config: Config, chatIds: seq<int>, botToken: string)

  /**
   * The constructor up to `_bot_init`: the name check, the config file, the required keys in
   * order, then the `chat_ids` conversion.
   */
  function Construct(name: Option<string>, file: Option<seq<string>>): (r: Result<Settings, BotError>)
    ensures name.None? ==> r == Failure(Setup(NoName))
    ensures LoadChecked(name, file).Failure? ==> r == Failure(Setup(LoadChecked(name, file).error))
    ensures LoadChecked(name, file).Success? ==>
              var config := Parse(map[], file.value);
              var ids := ChatIdsOf(config[ChatIds]);
              && (r.Success? <==> ids.Success?)
              && (r.Failure? ==> r.error == InvalidChatId(ids.error))
              && (r.Success? ==> && r.value.config == config && r.value.chatIds == ids.value
                                 && |r.value.chatIds| >= 1 && r.value.botToken == config[BotToken])
  {
    match LoadChecked(name, file)
    case Failure(e) => Failure(Setup(e))
    case Success(config) =>
      match ChatIdsOf(config[ChatIds])
      case Failure(piece) => Failure(InvalidChatId(piece))
      case Success(ids) => Success(Settings(config, ids, config[BotToken]))
  }

  /** `_authorized_check`: raises exactly when only authorised chats may talk and this one is not listed. */
  function AuthorizedCheck(onlyAuthorized: bool, chatIds: seq<int>, chat: int): (r: Outcome<BotError>)
    ensures r.Fail? <==> onlyAuthorized && chat !in chatIds
    ensures r.Fail? ==> r.error == Unauthorised(chat)
  {
    if onlyAuthorized && chat !in chatIds then Fail(Unauthorised(chat)) else Pass
  }

  /** An inbound text message: the chat it came from and its text. */
  datatype Update = Update(chat: int, text: string)

  /** `_msghandle`: the check runs first; `Success(u)` means `handle_update(u)` is called. */
  function MsgHandle(onlyAuthorized: bool, chatIds: seq<int>, u: Update): (r: Result<Update, BotError>)
    ensures r.Success? <==> AuthorizedCheck(onlyAuthorized, chatIds, u.chat).Pass?
    ensures r.Success? ==> r.value == u
    ensures r.Failure? ==> r.error == Unauthorised(u.chat)
  {
    match AuthorizedCheck(onlyAuthorized, chatIds, u.chat)
    case Fail(e) => Failure(e)
    case Pass => Success(u)
  }

  /** A bot that lets everyone talk passes every message on. */
  lemma OpenBotPassesAll(chatIds: seq<int>, u: Update)
    ensures MsgHandle(false, chatIds, u) == Success(u)
  {
  }

  /** What the framework has asked of the Telegram application, in order. */
  datatype Step =
    | Build(token: string, bindings: seq<Binding>)   // `_bot_init`
    | Initialize
    | Start
    | Queue(chat: int, text: string)                 // a `job_queue.run_once` send job
    | Stop
    | Shutdown

  /** `single_send_msg`'s destinations: the first authorised chat unless a non-empty list is given. */
  function Destinations(given: Option<seq<int>>, chatIds: seq<int>): (r: seq<int>)
    requires |chatIds| >= 1
    ensures given.None? || given.value == [] ==> r == [chatIds[0]]
    ensures given.Some? && given.value != [] ==> r == given.value
  {
    if given.None? || given.value == [] then [chatIds[0]] else given.value
  }

  /** The index of the first destination from `i` on that is not an authorised chat, `|dests|` when there is none. */
  function RefusalFrom(chatIds: seq<int>, dests: seq<int>, i: nat): (k: nat)
    requires i <= |dests|
    ensures i <= k <= |dests|
    ensures forall j :: i <= j < k ==> dests[j] in chatIds
    ensures k < |dests| ==> dests[k] !in chatIds
    decreases |dests| - i
  {
    if i == |dests| || dests[i] !in chatIds then i else RefusalFrom(chatIds, dests, i + 1)
  }

  /** `dests[k]` is the first destination not in `chatIds`. */
  predicate FirstRefused(chatIds: seq<int>, dests: seq<int>, k: nat) {
    k < |dests| && dests[k] !in chatIds && forall j :: 0 <= j < k ==> dests[j] in chatIds
  }

  /** The send loop: one queued job per destination until the guard refuses one. */
  function SendAll(chatIds: seq<int>, dests: seq<int>, text: string): (r: (seq<Step>, Outcome<BotError>))
    ensures r.1.Pass? <==> forall i :: 0 <= i < |dests| ==> dests[i] in chatIds
    ensures r.1.Pass? ==> r.0 == Queued(dests, text)
    ensures r.1.Fail? ==> var k := RefusalFrom(chatIds, dests, 0);
                          && FirstRefused(chatIds, dests, k)
                          && r.1.error == UnauthorisedDestination(dests[k])
                          && r.0 == Queued(dests[..k], text)
  {
    var k := RefusalFrom(chatIds, dests, 0);
    if k < |dests| then (Queued(dests[..k], text), Fail(UnauthorisedDestination(dests[k])))
    else
      assert dests[..k] == dests;
      (Queued(dests, text), Pass)
  }

  /** One send job per destination, in order. */
  function Queued(dests: seq<int>, text: string): (r: seq<Step>)
    ensures |r| == |dests| && forall i :: 0 <= i < |dests| ==> r[i] == Queue(dests[i], text)
  {
    seq(|dests|, i requires 0 <= i < |dests| => Queue(dests[i], text))
  }

  /** The lifecycle steps `_single_do` runs before its action. */
  function Opening(token: string, bindings: seq<Binding>): seq<Step> {
    [Build(token, bindings), Initialize, Start]
  }

  /**
   * `single_send_msg` run through `_single_do`: re-build, initialize, start, the sends, then
   * stop and shutdown; a refused send raises out of the action, so neither stop nor shutdown runs.
   */
  function SingleSend(token: string, bindings: seq<Binding>, chatIds: seq<int>, text: string,
                      given: Option<seq<int>>): (r: (seq<Step>, Outcome<BotError>))
    requires |chatIds| >= 1
    ensures |r.0| >= 3 && r.0[..3] == Opening(token, bindings)
    ensures r.1.Pass? <==> forall d :: d in Destinations(given, chatIds) ==> d in chatIds
  {
    var (sent, o) := SendAll(chatIds, Destinations(given, chatIds), text);
    (Opening(token, bindings) + sent + (if o.Pass? then [Stop, Shutdown] else []), o)
  }

  /** The batch opens with build, initialize, start; it closes with stop, shutdown exactly when every send was allowed. */
  lemma SingleSendOrder(token: string, bindings: seq<Binding>, chatIds: seq<int>, text: string, given: Option<seq<int>>)
    requires |chatIds| >= 1
    ensures var (trace, o) := SingleSend(token, bindings, chatIds, text, given);
            && |trace| >= 3 && trace[..3] == [Build(token, bindings), Initialize, Start]
            && (o.Pass? <==> forall d :: d in Destinations(given, chatIds) ==> d in chatIds)
            && (o.Pass? ==> trace[|trace| - 2..] == [Stop, Shutdown])
            && (o.Fail? ==> Stop !in trace && Shutdown !in trace)
  {
    var dests := Destinations(given, chatIds);
    var (sent, o) := SendAll(chatIds, dests, text);
    var trace := SingleSend(token, bindings, chatIds, text, given).0;
    assert trace == Opening(token, bindings) + sent + (if o.Pass? then [Stop, Shutdown] else []);
    if o.Fail? {
      assert forall i :: 0 <= i < |trace| ==> trace[i] != Stop && trace[i] != Shutdown by {
        forall i | 0 <= i < |trace|
          ensures trace[i] != Stop && trace[i] != Shutdown
        {
          if i >= 3 {
            assert trace[i] == sent[i - 3];
          }
        }
      }
    }
  }

  /**
   * An explicit, non-empty list of authorised chats: the whole batch is the opening, one send
   * per given id in the given order, then stop and shutdown.
   */
  lemma SingleSendGiven(token: string, bindings: seq<Binding>, chatIds: seq<int>, text: string, dests: seq<int>)
    requires |chatIds| >= 1 && dests != [] && forall d :: d in dests ==> d in chatIds
    ensures SingleSend(token, bindings, chatIds, text, Some(dests)) ==
              (Opening(token, bindings) + Queued(dests, text) + [Stop, Shutdown], Pass)
  {
    assert Destinations(Some(dests), chatIds) == dests;
  }

  /** Every job the batch queues goes to an authorised chat with the message. */
  lemma SingleSendGuarded(token: string, bindings: seq<Binding>, chatIds: seq<int>, text: string, given: Option<seq<int>>)
    requires |chatIds| >= 1
    ensures var trace := SingleSend(token, bindings, chatIds, text, given).0;
            forall i :: 0 <= i < |trace| && trace[i].Queue? ==> trace[i].chat in chatIds && trace[i].text == text
  {
    var dests := Destinations(given, chatIds);
    var (sent, o) := SendAll(chatIds, dests, text);
    var trace := SingleSend(token, bindings, chatIds, text, given).0;
    var allowed := RefusalFrom(chatIds, dests, 0);
    assert |sent| == allowed && forall j :: 0 <= j < allowed ==> sent[j] == Queue(dests[j], text) && dests[j] in chatIds;
    forall i | 0 <= i < |trace| && trace[i].Queue?
      ensures trace[i].chat in chatIds && trace[i].text == text
    {
      assert 3 <= i < 3 + |sent|;
      assert trace[i] == sent[i - 3];
    }
  }

  /** With no destinations given, the message goes to exactly the first authorised chat and the batch completes. */
  lemma SingleSendDefault(token: string, bindings: seq<Binding>, chatIds: seq<int>, text: string, given: Option<seq<int>>)
    requires |chatIds| >= 1
    requires given.None? || given.value == []
    ensures SingleSend(token, bindings, chatIds, text, given)
            == ([Build(token, bindings), Initialize, Start, Queue(chatIds[0], text), Stop, Shutdown], Pass)
  {
    var c := chatIds[0];
    assert Destinations(given, chatIds) == [c];
    assert RefusalFrom(chatIds, [c], 0) == 1;
    assert Queued([c], text) == [Queue(c, text)];
    var sa := SendAll(chatIds, [c], text);
    assert sa.1 == Pass && sa.0 == [Queue(c, text)];
    assert Opening(token, bindings) + sa.0 + [Stop, Shutdown]
           == [Build(token, bindings), Initialize, Start, Queue(c, text), Stop, Shutdown];
  }

  /** A bot object of `tg_bot/bot.py`, from the end of its constructor on. */
  class TelegramBot {
    const name: string
    const onlyAuthorized: bool
    const registry: CommandRegistry
    var config: Config
    var chatIds: seq<int>
    var botToken: string
    var app: seq<Step>

    /** `chat_ids` came from a split, so it always has a first entry for `post_startup` and the default send. */
    predicate Valid()
      reads this
    {
      |chatIds| >= 1
    }

    constructor (name: string, onlyAuthorized: bool, registry: CommandRegistry, s: Settings)
      requires |s.chatIds| >= 1
      ensures this.name == name && this.onlyAuthorized == onlyAuthorized && this.registry == registry
      ensures config == s.config && chatIds == s.chatIds && botToken == s.botToken
      ensures app == [Build(s.botToken, Bindings(registry.commands))]
      ensures Valid()
    {
      this.name := name;
      this.onlyAuthorized := onlyAuthorized;
      this.registry := registry;
      config := s.config;
      chatIds := s.chatIds;
      botToken := s.botToken;
      app := [Build(s.botToken, Bindings(registry.commands))];
    }

    /**
     * `TelegramBot.__init__`: the name check, `load_config`'s loop over the file, the required
     * keys, the `chat_ids` conversion, then `_bot_init`.
     */
    static method Create(name: Option<string>, onlyAuthorized: bool, registry: CommandRegistry,
                         file: Option<seq<string>>) returns (r: Result<TelegramBot, BotError>)
      ensures r.Success? <==> Construct(name, file).Success?
      ensures r.Failure? ==> r.error == Construct(name, file).error
      ensures r.Success? ==>
                var bot := r.value;
                && fresh(bot) && bot.Valid() && bot.name == name.value && bot.registry == registry
                && bot.onlyAuthorized == onlyAuthorized
                && Settings(bot.config, bot.chatIds, bot.botToken) == Construct(name, file).value
                && bot.app == [Build(bot.botToken, Bindings(registry.commands))]
    {
      if name.None? {
        return Failure(Setup(NoName));
      }
      if file.None? {
        return Failure(Setup(ConfigNotFound));
      }
      var config := Load(map[], file.value);
      match FirstMissing(RequiredKeys, config)
      case Some(key) =>
        return Failure(Setup(MissingKey(key)));
      case None =>
        match ChatIdsOf(config[ChatIds])
        case Failure(piece) =>
          return Failure(InvalidChatId(piece));
        case Success(ids) =>
          var bot := new TelegramBot(name.value, onlyAuthorized, registry, Settings(config, ids, config[BotToken]));
          return Success(bot);
    }

    /** `_bot_init`: a fresh application holding the token, the registered commands and the text handler. */
    method BotInit()
      modifies this
      ensures app == old(app) + [Build(botToken, Bindings(registry.commands))]
      ensures config == old(config) && chatIds == old(chatIds) && botToken == old(botToken)
    {
      app := app + [Build(botToken, Bindings(registry.commands))];
    }

    /** `_send_message`: refuse a chat not in `chat_ids`, otherwise queue the send job. */
    method SendMessage(chat: int, text: string) returns (o: Outcome<BotError>)
      modifies this
      ensures o.Pass? <==> chat in chatIds
      ensures o.Fail? ==> o.error == UnauthorisedDestination(chat) && app == old(app)
      ensures o.Pass? ==> app == old(app) + [Queue(chat, text)]
      ensures config == old(config) && chatIds == old(chatIds) && botToken == old(botToken)
    {
      if chat !in chatIds {
        return Fail(UnauthorisedDestination(chat));
      }
      app := app + [Queue(chat, text)];
      return Pass;
    }

    /** `post_startup`: announce the bot to the first authorised chat; the guard always lets it through. */
    method PostStartup()
      requires Valid()
      modifies this
      ensures config == old(config) && chatIds == old(chatIds) && botToken == old(botToken)
      ensures app == old(app) + [Queue(old(chatIds[0]), name + " is starting up")]
    {
      var o := SendMessage(chatIds[0], name + " is starting up");
    }

    /** The action of `single_send_msg`: `_send_message` to each destination in turn. */
    method SendEach(dests: seq<int>, text: string) returns (o: Outcome<BotError>)
      modifies this
      ensures config == old(config) && chatIds == old(chatIds) && botToken == old(botToken)
      ensures app == old(app) + SendAll(chatIds, dests, text).0 && o == SendAll(chatIds, dests, text).1
    {
      ghost var began := app;
      var i := 0;
      while i < |dests|
        invariant 0 <= i <= |dests|
        invariant forall j :: 0 <= j < i ==> dests[j] in chatIds
        invariant app == began + Queued(dests[..i], text)
        invariant config == old(config) && chatIds == old(chatIds) && botToken == old(botToken)
      {
        o := SendMessage(dests[i], text);
        if o.Fail? {
          RefusedAt(chatIds, dests, text, i);
          return;
        }
        QueuedSnoc(dests[..i], dests[i], text);
        assert dests[..i + 1] == dests[..i] + [dests[i]];
        i := i + 1;
      }
      assert dests[..i] == dests;
      o := Pass;
    }

    /** `single_send_msg` through `_single_do`, proved to leave exactly the trace `SingleSend` describes. */
    method SingleSendMsg(text: string, given: Option<seq<int>>) returns (o: Outcome<BotError>)
      requires Valid()
      modifies this
      ensures config == old(config) && chatIds == old(chatIds) && botToken == old(botToken)
      ensures var spec := SingleSend(old(botToken), Bindings(registry.commands), old(chatIds), text, given);
              app == old(app) + spec.0 && o == spec.1
    {
      var dests := Destinations(given, chatIds);
      ghost var start := app;
      ghost var opening := Opening(botToken, Bindings(registry.commands));
      BotInit();
      app := app + [Initialize];
      app := app + [Start];
      assert app == start + opening;
      o := SendEach(dests, text);
      ghost var sent := SendAll(chatIds, dests, text).0;
      assert app == start + opening + sent;
      if o.Pass? {
        app := app + [Stop];
        app := app + [Shutdown];
        assert app == start + (opening + sent + [Stop, Shutdown]);
      } else {
        assert app == start + (opening + sent + []);
      }
    }
  }

  lemma {:induction false} QueuedSnoc(dests: seq<int>, d: int, text: string)
    ensures Queued(dests + [d], text) == Queued(dests, text) + [Queue(d, text)]
  {
    var a, b := Queued(dests + [d], text), Queued(dests, text) + [Queue(d, text)];
    assert forall i :: 0 <= i < |a| ==> a[i] == b[i];
  }

  /** When `dests[k]` is the first refused destination, the send loop stops there with the sends before it. */
  lemma RefusedAt(chatIds: seq<int>, dests: seq<int>, text: string, k: nat)
    requires FirstRefused(chatIds, dests, k)
    ensures SendAll(chatIds, dests, text) == (Queued(dests[..k], text), Fail(UnauthorisedDestination(dests[k])))
  {
    var k' := RefusalFrom(chatIds, dests, 0);
    assert k' <= k;
    assert k' == k;
  }
}
