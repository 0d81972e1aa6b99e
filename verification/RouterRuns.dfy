/** What a user's stored state can be, over every run of messages, buttons and expiries of all users. */
module RouterRuns {
  import opened StateManager
  import opened Words
  import opened Router
  import Shiritori
  import Games = ShiritoriGame

  datatype Event =
    | GetsText(uuid: int, text: string, w: World)
    | GetsVoice(uuid: int, w: World)
    | Presses(uuid: int, button: Button, w: World)
    | Expires(uuid: int)

  function NextContext(ctx: UserContext, cfg: Config, e: Event): UserContext {
    match e
    case GetsText(uuid, text, w) => TextTurn(ctx, cfg, uuid, text, w)
    case GetsVoice(uuid, w) => DefaultTurn(ctx, cfg, uuid, Voice, w)
    case Presses(_, button, w) => ButtonTurn(ctx, button, w)
    case Expires(_) => FRESH
  }

  /** Each event changes its user's context by the table and nobody else's. */
  ghost predicate IsRun(cfg: Config, run: seq<Hashes>, events: seq<Event>) {
    && |run| == |events| + 1 && run[0] == map[]
    && forall i | 0 <= i < |events| ::
         var e := events[i];
         Became(run[i], run[i + 1], e.uuid, NextContext(ContextOf(run[i], e.uuid), cfg, e))
  }

  lemma StepOf(cfg: Config, run: seq<Hashes>, events: seq<Event>, i: nat, uuid: int)
    requires IsRun(cfg, run, events) && i < |events|
    ensures ContextOf(run[i + 1], uuid)
            == if events[i].uuid == uuid then NextContext(ContextOf(run[i], uuid), cfg, events[i])
               else ContextOf(run[i], uuid)
  {
    var e := events[i];
    assert Became(run[i], run[i + 1], e.uuid, NextContext(ContextOf(run[i], e.uuid), cfg, e));
  }

  /* ---- payload and state ---- */

  /** Payload and state fit, admin states belong to the admin, three states never rest in the store,
      no stored record holds a system prompt, and no stored score is odd. */
  ghost predicate Fits(ctx: UserContext, admin: bool) {
    && (ctx.state.InShiritori? ==> ctx.payload.Empty? || ctx.payload.GameData?)
    && (ctx.state.TaskLearning? ==> ctx.payload.TaskData?)
    && (AdminState(ctx.state) ==> admin)
    && !ctx.state.AdminNotCommand? && !ctx.state.TranscriptVoice? && !ctx.state.WordDeleting?
    && AsChat(ctx.payload).systemPrompt == ""
    && AsTask(ctx.payload).counter % 2 == 0
  }

  lemma GameTurnKeepsFit(ctx: UserContext, admin: bool, getLimit: nat, msg: Message, w: World)
    requires Fits(ctx, admin) && ctx.state.InShiritori?
    ensures Fits(GameTurn(ctx, getLimit, msg, w), admin)
  {
  }

  lemma UserTurnKeepsFit(ctx: UserContext, admin: bool, getLimit: nat, msg: Message, w: World)
    requires Fits(ctx, admin)
    ensures Fits(UserTurn(ctx, getLimit, msg, w), admin)
  {
    if ctx.state.InShiritori? {
      GameTurnKeepsFit(ctx, admin, getLimit, msg, w);
    }
  }

  lemma TurnKeepsFit(ctx: UserContext, cfg: Config, uuid: int, msg: Message, w: World)
    requires Fits(ctx, uuid == cfg.adminUuid)
    ensures Fits(DefaultTurn(ctx, cfg, uuid, msg, w), uuid == cfg.adminUuid)
  {
    UserTurnKeepsFit(ctx, uuid == cfg.adminUuid, cfg.getLimit, msg, w);
  }

  lemma EventKeepsFit(ctx: UserContext, cfg: Config, e: Event)
    requires Fits(ctx, e.uuid == cfg.adminUuid)
    ensures Fits(NextContext(ctx, cfg, e), e.uuid == cfg.adminUuid)
  {
    match e {
      case GetsText(uuid, text, w) => TurnKeepsFit(ctx, cfg, uuid, Text(text), w);
      case GetsVoice(uuid, w) => TurnKeepsFit(ctx, cfg, uuid, Voice, w);
      case _ =>
    }
  }

  /** Over every run, every user's payload fits the state it is stored with. */
  lemma {:induction false} PayloadFitsState(cfg: Config, run: seq<Hashes>, events: seq<Event>, i: nat, uuid: int)
    requires IsRun(cfg, run, events) && i < |run|
    ensures Fits(ContextOf(run[i], uuid), uuid == cfg.adminUuid)
  {
    if i > 0 {
      PayloadFitsState(cfg, run, events, i - 1, uuid);
      StepOf(cfg, run, events, i - 1, uuid);
      if events[i - 1].uuid == uuid {
        EventKeepsFit(ContextOf(run[i - 1], uuid), cfg, events[i - 1]);
      }
    }
  }

  /** The prompt handed to the AI is the empty one in every run, whatever prompt the user has set. */
  lemma PromptNeverSent(cfg: Config, run: seq<Hashes>, events: seq<Event>, i: nat, uuid: int)
    requires IsRun(cfg, run, events) && i < |run|
    ensures AsChat(ContextOf(run[i], uuid).payload).systemPrompt == ""
  {
    PayloadFitsState(cfg, run, events, i, uuid);
  }

  /** An answer always finds its task, moves the stored score up or down by two and publishes the odd number between. */
  lemma AnswersCountTwice(cfg: Config, run: seq<Hashes>, events: seq<Event>, i: nat, uuid: int, msg: Message, w: World)
    requires IsRun(cfg, run, events) && i < |run| && ContextOf(run[i], uuid).state.TaskLearning?
    ensures var ctx := ContextOf(run[i], uuid);
            var ses := AsTask(ctx.payload);
            var right := TextOf(msg) == ses.answer;
            && UserTurn(ctx, cfg.getLimit, msg, w)
               == UserContext(NoState, TaskData(ses.(counter := if right then ses.counter + 2 else ses.counter - 2)))
            && PublishedBy(ctx, TextOf(msg))
               == Answered(ses.theme, if right then ses.counter + 1 else ses.counter - 1)
            && (ses.counter + 1) % 2 == 1
  {
    PayloadFitsState(cfg, run, events, i, uuid);
  }

  /** Right after "word_del" the admin has no state, so the word sent next is never taken as one to delete. */
  lemma WordDeletionForgotten(cfg: Config, run: seq<Hashes>, events: seq<Event>, i: nat, w: World)
    requires IsRun(cfg, run, events) && i < |events|
    requires events[i] == GetsText(cfg.adminUuid, "word_del", w) && w.allowed
    ensures ContextOf(run[i + 1], cfg.adminUuid) == FRESH
  {
    PayloadFitsState(cfg, run, events, i, cfg.adminUuid);
    StepOf(cfg, run, events, i, cfg.adminUuid);
  }

  /* ---- what commands lead to ---- */

  /** The texts that mean the same in every state; the admin has some more. */
  predicate IsCommand(cfg: Config, uuid: int, text: string) {
    || text in {"/start", "Profile", "Learning", "Shiritori", "Chatting"}
    || (uuid == cfg.adminUuid && text in {"Help", "tasks_add", "task_del", "words_add", "word_del"})
  }

  /** Nothing happens to the user in the steps from i up to j. */
  predicate Quiet(events: seq<Event>, i: nat, j: nat, uuid: int) {
    forall k | i <= k < j && k < |events| :: events[k].uuid != uuid
  }

  lemma {:induction false} QuietKeeps(cfg: Config, run: seq<Hashes>, events: seq<Event>, i: nat, j: nat, uuid: int)
    requires IsRun(cfg, run, events) && i <= j < |run| && Quiet(events, i, j, uuid)
    ensures ContextOf(run[j], uuid) == ContextOf(run[i], uuid)
  {
    if i < j {
      QuietKeeps(cfg, run, events, i, j - 1, uuid);
      StepOf(cfg, run, events, j - 1, uuid);
    }
  }

  /** The score a payload holds: without a task record there is none yet. */
  function Score(p: Payload): int {
    match p
    case TaskData(task) => task.counter
    case _ => 0
  }

  /** What a command leaves, whatever the state before it. */
  lemma CommandLeads(cfg: Config, run: seq<Hashes>, events: seq<Event>, i: nat, uuid: int, text: string, w: World)
    requires IsRun(cfg, run, events) && i < |events| && events[i] == GetsText(uuid, text, w) && w.allowed
    ensures var was, now := ContextOf(run[i], uuid), ContextOf(run[i + 1], uuid);
            && (text in {"/start", "Profile"} ==> now == was)
            && (text == "Shiritori" ==> now == UserContext(InShiritori, Empty))
            && (text == "Chatting" ==>
                  now.payload == was.payload && now.state == if w.sent then AiSetting else was.state)
            && (text == "Learning" && w.served && w.taskFound ==>
                  && now.state == TaskLearning
                  && now.payload == TaskData(TaskSession(w.task.0, Score(was.payload), w.task.1)))
            && (text == "Learning" && !(w.served && w.taskFound) ==> now == was)
            && (uuid == cfg.adminUuid ==>
                  && (text == "Help" ==> now == was)
                  && (text == "tasks_add" ==> now == UserContext(TaskAdding, Empty))
                  && (text == "task_del" ==> now == UserContext(TaskDeleting, Empty))
                  && (text == "words_add" ==> now == UserContext(WordAdding, Empty))
                  && (text == "word_del" ==> now == UserContext(NoState, Empty)))
  {
    PayloadFitsState(cfg, run, events, i, uuid);
    StepOf(cfg, run, events, i, uuid);
  }

  lemma PlainTextTurn(cfg: Config, run: seq<Hashes>, events: seq<Event>, i: nat, uuid: int, text: string, w: World)
    requires IsRun(cfg, run, events) && i < |events| && events[i] == GetsText(uuid, text, w) && w.allowed
    requires !IsCommand(cfg, uuid, text) && !AdminState(ContextOf(run[i], uuid).state)
    ensures ContextOf(run[i + 1], uuid) == UserTurn(ContextOf(run[i], uuid), cfg.getLimit, Text(text), w)
  {
    StepOf(cfg, run, events, i, uuid);
  }

  /** A task given at step i and answered at step j is marked by that task's own answer, under its own theme. */
  lemma TaskIsMarked(cfg: Config, run: seq<Hashes>, events: seq<Event>, i: nat, j: nat, uuid: int,
                     w: World, text: string, w': World)
    requires IsRun(cfg, run, events) && i < j < |events| && Quiet(events, i + 1, j, uuid)
    requires events[i] == GetsText(uuid, "Learning", w) && w.allowed && w.served && w.taskFound
    requires events[j] == GetsText(uuid, text, w') && w'.allowed && !IsCommand(cfg, uuid, text)
    ensures var (theme, answer) := w.task;
            var c := Score(ContextOf(run[i], uuid).payload);
            && PublishedBy(ContextOf(run[j], uuid), text) == Answered(theme, if text == answer then c + 1 else c - 1)
            && ContextOf(run[j + 1], uuid)
               == UserContext(NoState, TaskData(TaskSession(theme, if text == answer then c + 2 else c - 2, answer)))
  {
    CommandLeads(cfg, run, events, i, uuid, "Learning", w);
    QuietKeeps(cfg, run, events, i + 1, j, uuid);
    PlainTextTurn(cfg, run, events, j, uuid, text, w');
  }

  /** After "Chatting" the next text chooses the mode it names, or nothing. */
  lemma ModeIsChosen(cfg: Config, run: seq<Hashes>, events: seq<Event>, i: nat, j: nat, uuid: int,
                     w: World, text: string, w': World)
    requires IsRun(cfg, run, events) && i < j < |events| && Quiet(events, i + 1, j, uuid)
    requires events[i] == GetsText(uuid, "Chatting", w) && w.allowed && w.sent
    requires events[j] == GetsText(uuid, text, w') && w'.allowed && !IsCommand(cfg, uuid, text)
    ensures ContextOf(run[j + 1], uuid).payload == ContextOf(run[i], uuid).payload
    ensures ContextOf(run[j + 1], uuid).state
            == if text == "Use TTS" then TTS
               else if text == "Use STT" then STT
               else if text == "Use STT And TTS" then STTandTTS
               else if text == "Use TTT" then TTT
               else AiSetting
  {
    CommandLeads(cfg, run, events, i, uuid, "Chatting", w);
    QuietKeeps(cfg, run, events, i + 1, j, uuid);
    PlainTextTurn(cfg, run, events, j, uuid, text, w');
  }

  /** Two of the inline buttons set a state once their question is sent; nothing else changes. */
  lemma ButtonLeads(cfg: Config, run: seq<Hashes>, events: seq<Event>, i: nat, uuid: int, button: Button, w: World)
    requires IsRun(cfg, run, events) && i < |events| && events[i] == Presses(uuid, button, w)
    ensures var was, now := ContextOf(run[i], uuid), ContextOf(run[i + 1], uuid);
            && now.payload == was.payload
            && now.state == if w.sent && button == SystemPromptButton then SetSysPrompt
                            else if w.sent && button == LangLevelButton then SetLangLevel
                            else was.state
  {
    StepOf(cfg, run, events, i, uuid);
  }

  /** After a settings button the next text is the setting: the context is cleared once it is stored and confirmed. */
  lemma SettingIsTaken(cfg: Config, run: seq<Hashes>, events: seq<Event>, i: nat, j: nat, uuid: int,
                       button: Button, w: World, text: string, w': World)
    requires IsRun(cfg, run, events) && i < j < |events| && Quiet(events, i + 1, j, uuid)
    requires events[i] == Presses(uuid, button, w) && w.sent && button in {SystemPromptButton, LangLevelButton}
    requires events[j] == GetsText(uuid, text, w') && w'.allowed && !IsCommand(cfg, uuid, text)
    ensures ContextOf(run[j], uuid)
            == UserContext(if button == SystemPromptButton then SetSysPrompt else SetLangLevel,
                           ContextOf(run[i], uuid).payload)
    ensures ContextOf(run[j + 1], uuid)
            == if w'.served && w'.sent then UserContext(NoState, Empty) else ContextOf(run[j], uuid)
  {
    StepOf(cfg, run, events, i, uuid);
    QuietKeeps(cfg, run, events, i + 1, j, uuid);
    PlainTextTurn(cfg, run, events, j, uuid, text, w');
  }

  /** The admin's next text is the data of the command: done, or still waiting when the service refuses it. */
  lemma AdminDataIsTaken(cfg: Config, run: seq<Hashes>, events: seq<Event>, i: nat, text: string, w: World)
    requires IsRun(cfg, run, events) && i < |events| && events[i] == GetsText(cfg.adminUuid, text, w) && w.allowed
    requires !IsCommand(cfg, cfg.adminUuid, text)
    requires ContextOf(run[i], cfg.adminUuid).state in {TaskAdding, TaskDeleting, WordAdding}
    ensures ContextOf(run[i + 1], cfg.adminUuid)
            == if w.served then UserContext(NoState, Empty) else ContextOf(run[i], cfg.adminUuid)
  {
    StepOf(cfg, run, events, i, cfg.adminUuid);
  }

  /** In the text and speech modes anything but "/stop" is answered, and the mode goes on unless the hash expires. */
  lemma ModeGoesOn(cfg: Config, run: seq<Hashes>, events: seq<Event>, i: nat, uuid: int, text: string, w: World)
    requires IsRun(cfg, run, events) && i < |events| && events[i] == GetsText(uuid, text, w) && w.allowed
    requires !IsCommand(cfg, uuid, text) && text != "/stop"
    requires ContextOf(run[i], uuid).state in {TTT, TTS, STT, STTandTTS}
    ensures var was, now := ContextOf(run[i], uuid), ContextOf(run[i + 1], uuid);
            if was.state != STT && w.sent && w.served && (was.state == STTandTTS ==> w.replied) then
              && now.state == (if w.expired then NoState else was.state)
              && now.payload == ChatData(ChattingSession("", w.generated))
            else now == was
  {
    PayloadFitsState(cfg, run, events, i, uuid);
    PlainTextTurn(cfg, run, events, i, uuid, text, w);
  }

  /** A voice message: heard in the two listening modes, and answered in the second. */
  lemma VoiceIsHeard(cfg: Config, run: seq<Hashes>, events: seq<Event>, i: nat, uuid: int, w: World)
    requires IsRun(cfg, run, events) && i < |events| && events[i] == GetsVoice(uuid, w)
    requires ContextOf(run[i], uuid).state in {STT, STTandTTS}
    ensures var was, now := ContextOf(run[i], uuid), ContextOf(run[i + 1], uuid);
            if was.state == STT || !w.sent || !w.served then now == was
            else if w.recognized == "/stop" then now == UserContext(NoState, Empty)
            else
              && now.state == (if w.expired then NoState else STTandTTS)
              && now.payload == ChatData(ChattingSession("", w.generated))
  {
    PayloadFitsState(cfg, run, events, i, uuid);
    StepOf(cfg, run, events, i, uuid);
  }

  /* ---- stopping ---- */

  /** The modes in which a user is told to leave by "/stop". */
  predicate Mode(s: UserState) {
    s.TTT? || s.TTS? || s.STT? || s.STTandTTS? || s.InShiritori?
  }

  /** What it takes: the speech modes first send a status message, and the last one goes on to generate an answer. */
  predicate CanStop(s: UserState, w: World) {
    && (s.STT? || s.STTandTTS? ==> w.sent)
    && (s.STTandTTS? ==> !w.replied || !w.served)
  }

  lemma LowerStop()
    ensures Lower("/stop") == "/stop"
  {
  }

  /** "/stop" clears the context exactly then. */
  lemma StopExactly(ctx: UserContext, getLimit: nat, w: World)
    requires Mode(ctx.state)
    ensures UserTurn(ctx, getLimit, Text("/stop"), w) == FRESH <==> CanStop(ctx.state, w)
  {
    LowerStop();
  }

  /** Over every run, what "/stop" leaves behind: nothing, the mode itself, or an answer generated after stopping. */
  lemma StopLeaves(cfg: Config, run: seq<Hashes>, events: seq<Event>, i: nat, uuid: int, w: World)
    requires IsRun(cfg, run, events) && i < |events| && events[i] == GetsText(uuid, "/stop", w) && w.allowed
    requires Mode(ContextOf(run[i], uuid).state)
    ensures ContextOf(run[i + 1], uuid)
            == if CanStop(ContextOf(run[i], uuid).state, w) then FRESH
               else if !w.sent then ContextOf(run[i], uuid)
               else UserContext(NoState, ChatData(ChattingSession("", w.generated)))
  {
    LowerStop();
    StepOf(cfg, run, events, i, uuid);
  }

  /* ---- the game inside the store ---- */

  /** The game a context stands for. */
  function GameOf(ctx: UserContext): Shiritori.Game {
    if ctx.state.InShiritori? then Shiritori.Playing(AsGame(ctx.payload)) else Shiritori.Idle
  }

  /** The message reaches the rules of the game, and the dictionary answers unless the game is stopped. */
  predicate Plays(cfg: Config, e: Event) {
    match e
    case GetsText(uuid, text, w) =>
      && w.allowed && !IsCommand(cfg, uuid, text)
      && (w.served || Lower(text) == "/stop")
    case GetsVoice(_, w) => w.served
    case _ => false
  }

  function Said(e: Event): Games.Event
    requires e.GetsText? || e.GetsVoice?
  {
    Games.Say(e.w.dictionary, if e.GetsText? then e.text else "")
  }

  /** What an event is to the game. */
  function Moves(ctx: UserContext, cfg: Config, e: Event): seq<Games.Event> {
    if e.GetsText? && e.text == "Shiritori" && e.w.allowed then [Games.Start]
    else if !ctx.state.InShiritori? then []
    else if Plays(cfg, e) then [Said(e)]
    else if NextContext(ctx, cfg, e).state.InShiritori? then []
    else [Games.Expire]
  }

  lemma SettledGame(ctx: UserContext, d: Dictionary, getLimit: nat, text: string)
    requires ctx.state.InShiritori?
    ensures var (game, outcome) := Shiritori.Turn(d, getLimit, AsGame(ctx.payload), text);
            GameOf(Settled(ctx, game, outcome)) == game
  {
  }

  lemma HeardGame(r: Games.Run, text: string, res: TargetRes)
    requires r.game.Playing? && (res.found ==> |res.data| > 0)
    ensures Games.Heard(r, text, res).game == Shiritori.Judge(r.game.session, text, res).0
  {
  }

  lemma PlayedTurn(ctx: UserContext, cfg: Config, e: Event, r: Games.Run)
    requires ctx.state.InShiritori? && Plays(cfg, e) && r.game == GameOf(ctx)
    ensures Games.Step(cfg.getLimit, r, Said(e)).game == GameOf(NextContext(ctx, cfg, e))
  {
    var d, text := e.w.dictionary, if e.GetsText? then e.text else "";
    HeardGame(r, text, Shiritori.Answer(d, cfg.getLimit, r.game.session, text));
    SettledGame(ctx, d, cfg.getLimit, text);
    assert NextContext(ctx, cfg, e) == GameTurn(ctx, cfg.getLimit, if e.GetsText? then Text(e.text) else Voice, e.w);
  }

  lemma OtherTurn(ctx: UserContext, cfg: Config, e: Event)
    requires !(ctx.state.InShiritori? && Plays(cfg, e)) && !(e.GetsText? && e.text == "Shiritori" && e.w.allowed)
    ensures var ctx' := NextContext(ctx, cfg, e);
            ctx'.state.InShiritori? ==> ctx.state.InShiritori? && ctx' == ctx
  {
  }

  /** One event of the router is at most one event of the game. */
  lemma EventRefines(ctx: UserContext, cfg: Config, e: Event, played: seq<Games.Event>)
    requires Games.After(cfg.getLimit, played).game == GameOf(ctx)
    ensures Games.After(cfg.getLimit, played + Moves(ctx, cfg, e)).game == GameOf(NextContext(ctx, cfg, e))
  {
    var moves := Moves(ctx, cfg, e);
    if moves == [] {
      assert played + moves == played;
      OtherTurn(ctx, cfg, e);
    } else {
      assert (played + moves)[..|played|] == played;
      if ctx.state.InShiritori? && Plays(cfg, e) {
        PlayedTurn(ctx, cfg, e, Games.After(cfg.getLimit, played));
      }
    }
  }

  /** A user's moves in the first i steps. */
  function GameOfRun(cfg: Config, run: seq<Hashes>, events: seq<Event>, i: nat, uuid: int): seq<Games.Event>
    requires i <= |events| < |run|
  {
    if i == 0 then []
    else
      GameOfRun(cfg, run, events, i - 1, uuid)
      + if events[i - 1].uuid == uuid then Moves(ContextOf(run[i - 1], uuid), cfg, events[i - 1]) else []
  }

  /** Whatever else a user does, the stored game is a run of the game alone, so all its theorems hold here. */
  lemma {:induction false} GameRefines(cfg: Config, run: seq<Hashes>, events: seq<Event>, i: nat, uuid: int)
    requires IsRun(cfg, run, events) && i < |run|
    ensures Games.After(cfg.getLimit, GameOfRun(cfg, run, events, i, uuid)).game == GameOf(ContextOf(run[i], uuid))
  {
    if i > 0 {
      var j := i - 1;
      GameRefines(cfg, run, events, j, uuid);
      StepOf(cfg, run, events, j, uuid);
      var played := GameOfRun(cfg, run, events, j, uuid);
      if events[j].uuid == uuid {
        EventRefines(ContextOf(run[j], uuid), cfg, events[j], played);
      } else {
        assert played + [] == played;
      }
    }
  }

  /** For one: in every run of the router neither unsigned difference printed at /stop can wrap. */
  lemma StoredScore(cfg: Config, run: seq<Hashes>, events: seq<Event>, i: nat, uuid: int)
    requires IsRun(cfg, run, events) && i < |run| && ContextOf(run[i], uuid).state.InShiritori?
    ensures var s := AsGame(ContextOf(run[i], uuid).payload);
            && s.allWords == s.userWords + s.userCorrectWords && s.userCorrectWords <= s.userWords
            && s.userCorrectWords <= |s.usedWords| <= 2 * s.userCorrectWords
  {
    GameRefines(cfg, run, events, i, uuid);
    Games.ScoreConservation(cfg.getLimit, GameOfRun(cfg, run, events, i, uuid));
  }

  predicate OneDictionary(events: seq<Event>, d: Dictionary) {
    && UniqueTexts(d)
    && forall i | 0 <= i < |events| && (events[i].GetsText? || events[i].GetsVoice?) ::
         events[i].w.dictionary == d
  }

  lemma {:induction false} PlayedOver(cfg: Config, run: seq<Hashes>, events: seq<Event>, i: nat, uuid: int,
                                      d: Dictionary)
    requires i <= |events| < |run| && OneDictionary(events, d)
    ensures Games.Over(GameOfRun(cfg, run, events, i, uuid), d)
  {
    if i > 0 {
      PlayedOver(cfg, run, events, i - 1, uuid, d);
    }
  }

  /** For another: over one dictionary no stored game holds a round more than the dictionary has rows. */
  lemma StoredRoundsBounded(cfg: Config, run: seq<Hashes>, events: seq<Event>, i: nat, uuid: int, d: Dictionary)
    requires IsRun(cfg, run, events) && i < |run| && OneDictionary(events, d)
    requires ContextOf(run[i], uuid).state.InShiritori?
    ensures AsGame(ContextOf(run[i], uuid).payload).userCorrectWords <= |d|
  {
    var played := GameOfRun(cfg, run, events, i, uuid);
    GameRefines(cfg, run, events, i, uuid);
    PlayedOver(cfg, run, events, i, uuid, d);
    Games.ScoreConservation(cfg.getLimit, played);
    Games.RoundsBounded(cfg.getLimit, played, d);
  }
}
