/** The stored state of every user: one expiring hash each, with a state and an untyped payload. */
module StateManager {
  import Shiritori

  datatype UserState =
    | NoState
    | TaskAdding
    | TaskDeleting
    | WordAdding
    | WordDeleting
    | TaskLearning
    | AdminNotCommand
    | InShiritori
    | SetSysPrompt
    | SetLangLevel
    | TTS
    | STT
    | TTT
    | STTandTTS
    | TranscriptVoice
    | AiSetting

  datatype TaskSession = TaskSession(theme: string, counter: int, answer: string)

  datatype ChattingSession = ChattingSession(systemPrompt: string, lastMessage: string)

  /** The stored text: nothing, or the JSON of one of three records; nothing in the store says of which. */
  datatype Payload =
    | Empty
    | TaskData(task: TaskSession)
    | GameData(game: Shiritori.Session)
    | ChatData(chat: ChattingSession)

  /** Decoding. The records share no field name, so decoding one as another gives the zero value. */
  function AsTask(p: Payload): TaskSession {
    if p.TaskData? then p.task else TaskSession("", 0, "")
  }

  function AsGame(p: Payload): Shiritori.Session {
    if p.GameData? then p.game else Shiritori.NEW_SESSION
  }

  function AsChat(p: Payload): ChattingSession {
    if p.ChatData? then p.chat else ChattingSession("", "")
  }

  datatype UserContext = UserContext(state: UserState, payload: Payload)

  const FRESH := UserContext(NoState, Empty)

  type Hashes = map<int, UserContext>

  /** A missing hash reads as no state and no payload. */
  function ContextOf(hashes: Hashes, uuid: int): UserContext {
    if uuid in hashes then hashes[uuid] else FRESH
  }

  class Manager {
    var hashes: Hashes

    constructor ()
      ensures hashes == map[]
    {
      hashes := map[];
    }

    method GetUserCtx(uuid: int) returns (ctx: UserContext)
      ensures ctx == ContextOf(hashes, uuid)
    {
      if uuid !in hashes {
        return FRESH;
      }
      return hashes[uuid];
    }

    method SetUserCtx(uuid: int, state: UserState, payload: Payload)
      modifies this
      ensures hashes == old(hashes)[uuid := UserContext(state, payload)]
    {
      hashes := hashes[uuid := UserContext(state, payload)];
    }

    /** Changes the state and keeps the payload; creates the hash when there is none. */
    method UpdUserStateCtx(uuid: int, state: UserState)
      modifies this
      ensures hashes == old(hashes)[uuid := ContextOf(old(hashes), uuid).(state := state)]
    {
      if uuid in hashes {
        hashes := hashes[uuid := UserContext(state, hashes[uuid].payload)];
      } else {
        hashes := hashes[uuid := UserContext(state, Empty)];
      }
    }

    /** Changes the payload and keeps the state; a hash created here has state 0. */
    method UpdateUserDataCtx(uuid: int, payload: Payload)
      modifies this
      ensures hashes == old(hashes)[uuid := ContextOf(old(hashes), uuid).(payload := payload)]
    {
      if uuid in hashes {
        hashes := hashes[uuid := UserContext(hashes[uuid].state, payload)];
      } else {
        hashes := hashes[uuid := UserContext(NoState, payload)];
      }
    }

    method Expire(uuid: int)
      modifies this
      ensures hashes == old(hashes) - {uuid}
    {
      hashes := hashes - {uuid};
    }
  }
}
