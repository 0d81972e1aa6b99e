/** Every gateway handler that moves a user's stored state. */
module Router {
  import opened StateManager
  import opened Words
  import opened Answers
  import Shiritori

  datatype Message = Text(text: string) | Voice

  datatype Button = SystemPromptButton | LangLevelButton | TranscriptButton | ClearContextButton

  /** How everything outside the store turns out while one message is handled. */
  datatype World = World(
    allowed: bool,             // the rate limiter lets it through
    sent: bool,                // Telegram accepts what is sent before the store is updated
    replied: bool,             // and what is sent after
    served: bool,              // the services do what they are asked
    taskFound: bool,           // a task exists at the user's position
    task: (string, string),    // its theme and its answer
    dictionary: Dictionary,    // the words as they are now
    recognized: string,        // the text heard in a voice message
    generated: string,         // the text the AI writes
    expired: bool)             // the hash times out while it does

  datatype Config = Config(adminUuid: int, getLimit: nat)

  /** The text of a message; a voice message has none. */
  function TextOf(msg: Message): string {
    if msg.Text? then msg.text else ""
  }

  /* ---- the state after a message, as a table ---- */

  function Scored(ses: TaskSession, add: int): TaskSession {
    ses.(counter := ses.counter + add)
  }

  /** Right or wrong, one point. */
  function Mark(text: string, answer: string): int {
    if text == answer then 1 else -1
  }

  /** The generated text becomes the payload of whatever hash is left; the rest of the record was read before. */
  function Chatted(ctx: UserContext, w: World): UserContext {
    if !w.sent || !w.served then ctx
    else (if w.expired then FRESH else ctx).(payload := ChatData(AsChat(ctx.payload).(lastMessage := w.generated)))
  }

  /** The speech-and-speech mode listens and then always speaks. */
  function SpokenTo(ctx: UserContext, msg: Message, w: World): UserContext {
    if !w.sent then ctx
    else if msg.Voice? then
      if !w.served then ctx else if w.recognized == "/stop" then FRESH else Chatted(ctx, w)
    else
      var listened := if msg.text == "/stop" then FRESH else ctx;
      if w.replied then Chatted(listened, w) else listened
  }

  predicate Saves(outcome: Shiritori.Outcome) {
    outcome.Accepted? || outcome.NotFound? || outcome.NoReply?
  }

  /** A game is saved only by turns that count. */
  function Settled(ctx: UserContext, game: Shiritori.Game, outcome: Shiritori.Outcome): UserContext {
    if game.Idle? then FRESH
    else if Saves(outcome) then UserContext(InShiritori, GameData(game.session))
    else ctx
  }

  function GameTurn(ctx: UserContext, getLimit: nat, msg: Message, w: World): UserContext {
    if !w.served && Lower(TextOf(msg)) != "/stop" then ctx
    else
      var (game, outcome) := Shiritori.Turn(w.dictionary, getLimit, AsGame(ctx.payload), TextOf(msg));
      Settled(ctx, game, outcome)
  }

  function UserTurn(ctx: UserContext, getLimit: nat, msg: Message, w: World): UserContext {
    var stopped := TextOf(msg) == "/stop";
    match ctx.state
    case TaskLearning =>
      var ses := AsTask(ctx.payload);
      if ctx.payload.Empty? then ctx
      else UserContext(NoState, TaskData(Scored(ses, 2 * Mark(TextOf(msg), ses.answer))))
    case InShiritori => GameTurn(ctx, getLimit, msg, w)
    case TTT => if stopped then FRESH else Chatted(ctx, w)
    case TTS => if stopped then FRESH else Chatted(ctx, w)
    case STT => if w.sent && stopped then FRESH else ctx
    case STTandTTS => SpokenTo(ctx, msg, w)
    case SetSysPrompt => if w.served && w.sent then FRESH else ctx
    case SetLangLevel => if w.served && w.sent then FRESH else ctx
    case AiSetting =>
      (match TextOf(msg)
       case "Use TTS" => ctx.(state := TTS)
       case "Use STT" => ctx.(state := STT)
       case "Use STT And TTS" => ctx.(state := STTandTTS)
       case "Use TTT" => ctx.(state := TTT)
       case _ => ctx)
    case _ => FRESH
  }

  predicate AdminState(s: UserState) {
    s.TaskAdding? || s.TaskDeleting? || s.WordAdding? || s.WordDeleting?
  }

  function DefaultTurn(ctx: UserContext, cfg: Config, uuid: int, msg: Message, w: World): UserContext {
    if uuid != cfg.adminUuid || ctx.state.AdminNotCommand? then UserTurn(ctx, cfg.getLimit, msg, w)
    else
      match TextOf(msg)
      case "Help" => ctx
      case "tasks_add" => UserContext(TaskAdding, Empty)
      case "task_del" => UserContext(TaskDeleting, Empty)
      case "words_add" => UserContext(WordAdding, Empty)
      case "word_del" => FRESH
      case _ =>
        if !AdminState(ctx.state) then UserTurn(ctx, cfg.getLimit, msg, w)
        else if w.served then FRESH
        else ctx
  }

  function TextTurn(ctx: UserContext, cfg: Config, uuid: int, text: string, w: World): UserContext {
    if !w.allowed then ctx
    else
      match text
      case "/start" => ctx
      case "Profile" => ctx
      case "Learning" =>
        if w.served && w.taskFound
        then UserContext(TaskLearning, TaskData(TaskSession(w.task.0, AsTask(ctx.payload).counter, w.task.1)))
        else ctx
      case "Shiritori" => UserContext(InShiritori, Empty)
      case "Chatting" => if w.sent then ctx.(state := AiSetting) else ctx
      case _ => DefaultTurn(ctx, cfg, uuid, Text(text), w)
  }

  /** Inline buttons set a state and keep the payload. */
  function ButtonTurn(ctx: UserContext, button: Button, w: World): UserContext {
    match button
    case SystemPromptButton => if w.sent then ctx.(state := SetSysPrompt) else ctx
    case LangLevelButton => if w.sent then ctx.(state := SetLangLevel) else ctx
    case _ => ctx
  }

  /* ---- the handlers with branches of their own ---- */

  /** Only this user's context changed, and it became ctx. */
  ghost predicate Became(was: Hashes, now: Hashes, uuid: int, ctx: UserContext) {
    ContextOf(now, uuid) == ctx && forall v | v != uuid :: ContextOf(now, v) == ContextOf(was, v)
  }

  /** What goes to Kafka for the statistics. */
  datatype Published = Nothing | Answered(theme: string, counter: int)

  function PublishedBy(ctx: UserContext, text: string): Published {
    if !ctx.state.TaskLearning? || ctx.payload.Empty? then Nothing
    else
      var ses := AsTask(ctx.payload);
      Answered(ses.theme, ses.counter + Mark(text, ses.answer))
  }

  class Server {
    const sm: Manager
    const cfg: Config

    constructor (sm: Manager, cfg: Config)
      ensures this.sm == sm && this.cfg == cfg
    {
      this.sm, this.cfg := sm, cfg;
    }

    method HandleText(uuid: int, text: string, w: World)
      modifies sm
      ensures Became(old(sm.hashes), sm.hashes, uuid, TextTurn(ContextOf(old(sm.hashes), uuid), cfg, uuid, text, w))
    {
      if !w.allowed {
        return;
      }
      if text == "/start" || text == "Profile" {
      } else if text == "Learning" {
        if w.served && w.taskFound {
          UpdateUserTaskCtx(uuid, TaskLearning, w.task.0, w.task.1, 0);
        }
      } else if text == "Shiritori" {
        sm.SetUserCtx(uuid, InShiritori, Empty);
      } else if text == "Chatting" {
        if w.sent {
          sm.UpdUserStateCtx(uuid, AiSetting);
        }
      } else {
        HandleDefaultState(uuid, Text(text), w);
      }
    }

    method HandleDefaultState(uuid: int, msg: Message, w: World)
      modifies sm
      ensures Became(old(sm.hashes), sm.hashes, uuid, DefaultTurn(ContextOf(old(sm.hashes), uuid), cfg, uuid, msg, w))
    {
      var ctx := sm.GetUserCtx(uuid);
      if uuid == cfg.adminUuid && ctx.state != AdminNotCommand {
        var handled := HandleAdmin(uuid, msg, w);
        if handled {
          return;
        }
      }
      var published := HandleState(uuid, msg, w);
    }

    /** "word_del" sets its state without reporting itself handled. */
    method HandleAdmin(uuid: int, msg: Message, w: World) returns (handled: bool)
      requires uuid == cfg.adminUuid && !ContextOf(sm.hashes, uuid).state.AdminNotCommand?
      modifies sm
      ensures var ctx := ContextOf(old(sm.hashes), uuid);
              if TextOf(msg) == "word_del" then
                !handled && Became(old(sm.hashes), sm.hashes, uuid, UserContext(WordDeleting, Empty))
              else if handled then
                Became(old(sm.hashes), sm.hashes, uuid, DefaultTurn(ctx, cfg, uuid, msg, w))
              else
                sm.hashes == old(sm.hashes) && !AdminState(ctx.state)
                && TextOf(msg) !in {"Help", "tasks_add", "task_del", "words_add"}
    {
      handled := false;
      var setToNone := false;
      var text := TextOf(msg);
      if text == "Help" {
        handled := true;
      } else if text == "tasks_add" {
        handled := true;
        sm.SetUserCtx(uuid, TaskAdding, Empty);
      } else if text == "task_del" {
        handled := true;
        sm.SetUserCtx(uuid, TaskDeleting, Empty);
      } else if text == "words_add" {
        handled := true;
        sm.SetUserCtx(uuid, WordAdding, Empty);
      } else if text == "word_del" {
        sm.SetUserCtx(uuid, WordDeleting, Empty);
      } else {
        var ctx := sm.GetUserCtx(uuid);
        if AdminState(ctx.state) {
          handled := true;
          if !w.served {
            return;
          }
          setToNone := true;
        }
      }
      if setToNone {
        sm.SetUserCtx(uuid, NoState, Empty);
      }
    }

    /** The score of the stored session goes on; theme and answer are replaced. */
    method UpdateUserTaskCtx(uuid: int, state: UserState, theme: string, answer: string, add: int)
      modifies sm
      ensures var was := AsTask(ContextOf(old(sm.hashes), uuid).payload);
              sm.hashes == old(sm.hashes)[
                uuid := UserContext(state, TaskData(TaskSession(theme, was.counter + add, answer)))]
    {
      var ctx := sm.GetUserCtx(uuid);
      var ses := TaskSession("", 0, "");
      if ctx.payload != Empty {
        ses := AsTask(ctx.payload);
      }
      sm.SetUserCtx(uuid, state, TaskData(TaskSession(theme, ses.counter + add, answer)));
    }

    /** The score is updated before and after it is published. */
    method AnswerTask(uuid: int, ses: TaskSession, text: string) returns (published: Published)
      requires AsTask(ContextOf(sm.hashes, uuid).payload) == ses
      modifies sm
      ensures published == Answered(ses.theme, ses.counter + if text == ses.answer then 1 else -1)
      ensures AsTask(ContextOf(sm.hashes, uuid).payload)
              == ses.(counter := if text == ses.answer then ses.counter + 2 else ses.counter - 2)
      ensures Became(old(sm.hashes), sm.hashes, uuid,
                     UserContext(NoState, TaskData(Scored(ses, 2 * Mark(text, ses.answer)))))
    {
      var correct := VerifyAnswer(text, ses.answer);
      var add := if correct then 1 else -1;
      UpdateUserTaskCtx(uuid, TaskLearning, ses.theme, ses.answer, add);
      published := Answered(ses.theme, ses.counter + add);
      UpdateUserTaskCtx(uuid, NoState, ses.theme, ses.answer, add);
    }

    /** The turn itself works on a view of the hash; only a turn that counts or ends the game is written back. */
    method PlayShiritori(uuid: int, payload: Payload, msg: Message, w: World)
      requires ContextOf(sm.hashes, uuid) == UserContext(InShiritori, payload)
      modifies sm
      ensures Became(old(sm.hashes), sm.hashes, uuid,
                     GameTurn(UserContext(InShiritori, payload), cfg.getLimit, msg, w))
    {
      if !w.served && Lower(TextOf(msg)) != "/stop" {
        return;
      }
      var view := new Shiritori.Store();
      view.SetUserCtx(Shiritori.Playing(AsGame(payload)));
      var outcome := Shiritori.HandleShiritori(view, w.dictionary, cfg.getLimit, TextOf(msg), []);
      WriteBack(uuid, view.game, outcome);
    }

    method WriteBack(uuid: int, game: Shiritori.Game, outcome: Shiritori.Outcome)
      modifies sm
      ensures Became(old(sm.hashes), sm.hashes, uuid, Settled(ContextOf(old(sm.hashes), uuid), game, outcome))
    {
      if game.Idle? {
        sm.SetUserCtx(uuid, NoState, Empty);
      } else if Saves(outcome) {
        sm.SetUserCtx(uuid, InShiritori, GameData(game.session));
      }
    }

    method HandleState(uuid: int, msg: Message, w: World) returns (published: Published)
      modifies sm
      ensures var ctx := ContextOf(old(sm.hashes), uuid);
              && Became(old(sm.hashes), sm.hashes, uuid, UserTurn(ctx, cfg.getLimit, msg, w))
              && published == PublishedBy(ctx, TextOf(msg))
    {
      published := Nothing;
      var ctx := sm.GetUserCtx(uuid);
      var text := TextOf(msg);
      var setToNone := false;
      match ctx.state {
        case TaskLearning =>
          if ctx.payload == Empty {
            return;
          }
          published := AnswerTask(uuid, AsTask(ctx.payload), text);
          return;
        case InShiritori =>
          PlayShiritori(uuid, ctx.payload, msg, w);
        case TTT =>
          if text == "/stop" {
            sm.SetUserCtx(uuid, NoState, Empty);
            return;
          }
          var sysPrompt := GenerateText(uuid, w);
        case TTS =>
          HandleTTS(uuid, text, w);
        case STT =>
          if !w.sent {
            return;
          }
          var ok := HandleVoice(uuid, msg, w);
        case STTandTTS =>
          if !w.sent {
            return;
          }
          var ok := HandleVoice(uuid, msg, w);
          if !ok {
            return;
          }
          HandleTTS(uuid, if msg.Voice? then w.recognized else "", w);
        case SetSysPrompt =>
          if !w.served || !w.sent {
            return;
          }
          setToNone := true;
        case SetLangLevel =>
          if !w.served || !w.sent {
            return;
          }
          setToNone := true;
        case AiSetting =>
          var newState := NoState;
          if text == "Use TTS" {
            newState := TTS;
          } else if text == "Use STT" {
            newState := STT;
          } else if text == "Use STT And TTS" {
            newState := STTandTTS;
          } else if text == "Use TTT" {
            newState := TTT;
          } else {
            return;
          }
          sm.UpdUserStateCtx(uuid, newState);
        case _ =>
          setToNone := true;
      }
      if setToNone {
        sm.SetUserCtx(uuid, NoState, Empty);
      }
    }

    /** The record is read before the text is generated and written after; the AI gets the prompt it holds. */
    method GenerateText(uuid: int, w: World) returns (sysPrompt: string)
      modifies sm
      ensures w.sent ==> sysPrompt == AsChat(ContextOf(old(sm.hashes), uuid).payload).systemPrompt
      ensures Became(old(sm.hashes), sm.hashes, uuid, Chatted(ContextOf(old(sm.hashes), uuid), w))
    {
      sysPrompt := "";
      if !w.sent {
        return;
      }
      var ctx := sm.GetUserCtx(uuid);
      var ses := AsChat(ctx.payload);
      sysPrompt := ses.systemPrompt;
      if !w.served {
        return;
      }
      if w.expired {
        sm.Expire(uuid);
      }
      sm.UpdateUserDataCtx(uuid, ChatData(ses.(lastMessage := w.generated)));
    }

    method HandleTTS(uuid: int, text: string, w: World)
      modifies sm
      ensures Became(old(sm.hashes), sm.hashes, uuid,
                     if text == "/stop" then FRESH else Chatted(ContextOf(old(sm.hashes), uuid), w))
    {
      if text == "/stop" {
        sm.SetUserCtx(uuid, NoState, Empty);
        return;
      }
      var sysPrompt := GenerateText(uuid, w);
    }

    /** Listening leaves the store alone, except for "/stop". */
    method HandleVoice(uuid: int, msg: Message, w: World) returns (ok: bool)
      modifies sm
      ensures ok == if msg.Voice? then w.served else w.replied
      ensures Became(old(sm.hashes), sm.hashes, uuid,
                     if TextOf(msg) == "/stop" then FRESH else ContextOf(old(sm.hashes), uuid))
    {
      if msg.Text? {
        if msg.text == "/stop" {
          sm.SetUserCtx(uuid, NoState, Empty);
        }
        return w.replied;
      }
      return w.served;
    }
  }
}
