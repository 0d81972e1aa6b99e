/** One shiritori turn: the stored session, the rules, and the gateway handler that ties them to the dictionary. */
module Shiritori {
  import opened Words

  /** The session as it is stored between messages. */
  datatype Session = Session(
    usedWords: set<string>,
    lastLetter: string,
    letterOffsets: map<string, int>,
    allWords: nat,
    userWords: nat,
    userCorrectWords: nat)

  const NEW_SESSION := Session({}, "", map[], 0, 0, 0)

  /** What the user's stored hash says about the game. */
  datatype Game = Idle | Playing(session: Session)

  /** The figures printed at /stop; in Go the two differences are unsigned. */
  datatype Stats = Stats(total: int, botWords: int, attempts: int, correct: int, mistakes: int)

  datatype Outcome =
    | Stopped(stats: Stats)
    | InvalidWord
    | NotFound
    | NoReply
    | UnusableReply(word: Word)
    | NotMatch
    | Repeat
    | Accepted(bot: Word)

  class Store {
    var game: Game

    constructor ()
      ensures game == Idle
    {
      game := Idle;
    }

    method SetUserCtx(g: Game)
      modifies this
      ensures game == g
    {
      game := g;
    }
  }

  /** The working copy a handler decodes from the store and mutates; it only counts once it is saved again. */
  class ShiritoriSession {
    var usedWords: set<string>
    var lastLetter: string
    var letterOffsets: map<string, int>
    var allWords: nat
    var userWords: nat
    var userCorrectWords: nat

    constructor Decode(s: Session)
      ensures Value() == s
    {
      usedWords, lastLetter, letterOffsets := s.usedWords, s.lastLetter, s.letterOffsets;
      allWords, userWords, userCorrectWords := s.allWords, s.userWords, s.userCorrectWords;
    }

    function Value(): Session
      reads this
    {
      Session(usedWords, lastLetter, letterOffsets, allWords, userWords, userCorrectWords)
    }
  }

  /* ---- the rules as functions of the stored session ---- */

  function Cursor(s: Session, letter: string): int {
    if letter in s.letterOffsets then s.letterOffsets[letter] else 0
  }

  predicate Mismatch(s: Session, userWord: string)
    requires userWord != ""
  {
    s.lastLetter != "" && s.lastLetter != Lower(userWord[..1])
  }

  /** The session after an attempt that is kept although it was not accepted. */
  function Attempted(s: Session): Session {
    s.(allWords := s.allWords + 1, userWords := s.userWords + 1)
  }

  /** The session after an accepted round. */
  function Recorded(s: Session, userWord: string, bot: Word): Session {
    s.(usedWords := s.usedWords + {userWord, bot.text},
       lastLetter := LastLetter(bot.text),
       letterOffsets := s.letterOffsets[LastLetter(userWord) := bot.serial],
       allWords := s.allWords + 2,
       userWords := s.userWords + 1,
       userCorrectWords := s.userCorrectWords + 1)
  }

  function StatsOf(s: Session): Stats {
    Stats(s.allWords, s.allWords - s.userWords, s.userWords, s.userCorrectWords, s.userWords - s.userCorrectWords)
  }

  function Answer(d: Dictionary, getLimit: nat, s: Session, text: string): (res: TargetRes)
    ensures res.found ==> |res.data| > 0
  {
    RpcGetWordsWithTarget(d, text, LastLetter(text), Cursor(s, LastLetter(text)), getLimit)
  }

  /** What the rules make of a message, given what the dictionary answered. */
  function Judge(s: Session, text: string, res: TargetRes): (Game, Outcome)
    requires res.found ==> |res.data| > 0
  {
    if Lower(text) == "/stop" then (Idle, Stopped(StatsOf(s)))
    else if LastLetter(text) == "" then (Playing(s), InvalidWord)
    else if !res.found then (Playing(Attempted(s)), NotFound)
    else if |res.data| == 1 then (Playing(Attempted(s)), NoReply)
    else
      var bot := res.data[1];
      if LastLetter(bot.text) == "" then (Playing(s), UnusableReply(bot))
      else if Mismatch(s, text) then (Playing(s), NotMatch)
      else if text in s.usedWords then (Playing(s), Repeat)
      else (Playing(Recorded(s, text, bot)), Accepted(bot))
  }

  function Turn(d: Dictionary, getLimit: nat, s: Session, text: string): (Game, Outcome) {
    Judge(s, text, Answer(d, getLimit, s, text))
  }

  /* ---- the handlers ---- */

  /** Checks the two rules; only a word that passes both changes the session, which is then saved. */
  method UpdateUserShiritoriCtx(
    ses: ShiritoriSession, store: Store,
    userWord: string, userLastLetter: string, botWord: string, botLastLetter: string, offsetID: int)
    returns (isRepeat: bool, notMatch: bool)
    requires userWord != ""
    modifies ses, store
    ensures notMatch == Mismatch(old(ses.Value()), userWord)
    ensures isRepeat == (!notMatch && userWord in old(ses.usedWords))
    ensures notMatch || isRepeat ==> ses.Value() == old(ses.Value()) && store.game == old(store.game)
    ensures !notMatch && !isRepeat ==>
              && store.game == Playing(ses.Value())
              && var was := old(ses.Value());
                 ses.Value() == was.(usedWords := was.usedWords + {userWord, botWord},
                                     lastLetter := botLastLetter,
                                     letterOffsets := was.letterOffsets[userLastLetter := offsetID],
                                     userCorrectWords := was.userCorrectWords + 1)
  {
    isRepeat, notMatch := false, false;
    var userFirstLetter := Lower(userWord[0..1]);
    if ses.lastLetter != "" && ses.lastLetter != userFirstLetter {
      notMatch := true;
      return;
    }
    isRepeat := userWord in ses.usedWords;
    if isRepeat {
      return;
    }
    ses.lastLetter := botLastLetter;
    ses.usedWords := ses.usedWords + {userWord};
    ses.usedWords := ses.usedWords + {botWord};
    ses.letterOffsets := ses.letterOffsets[userLastLetter := offsetID];
    ses.userCorrectWords := ses.userCorrectWords + 1;
    assert ses.usedWords == old(ses.usedWords) + {userWord, botWord};
    store.SetUserCtx(Playing(ses.Value()));
  }

  /** The shiritori branch of the message handler; `pooled` is whatever an earlier request left in the word buffer. */
  method HandleShiritori(store: Store, d: Dictionary, getLimit: nat, text: string, pooled: seq<Word>)
    returns (outcome: Outcome)
    requires store.game.Playing?
    modifies store
    ensures (store.game, outcome) == Turn(d, getLimit, old(store.game).session, text)
  {
    var ses := new ShiritoriSession.Decode(store.game.session);
    if Lower(text) == "/stop" {
      store.SetUserCtx(Idle);
      var botWords := ses.allWords - ses.userWords;
      var incorrectWords := ses.userWords - ses.userCorrectWords;
      return Stopped(Stats(ses.allWords, botWords, ses.userWords, ses.userCorrectWords, incorrectWords));
    }
    ses.allWords := ses.allWords + 1;
    ses.userWords := ses.userWords + 1;

    var lastLetter := GetLastLetter(text);
    if lastLetter == "" {
      return InvalidWord;
    }
    var offsetID := if lastLetter in ses.letterOffsets then ses.letterOffsets[lastLetter] else 0;

    ghost var res := Answer(d, getLimit, old(store.game).session, text);
    var found, words := GetWordsWithTarget(d, getLimit, text, lastLetter, offsetID, pooled);
    outcome := Continue(ses, store, text, lastLetter, found, words, old(store.game).session, res);
  }

  /** The rest of the turn, once the dictionary has answered. */
  method Continue(ses: ShiritoriSession, store: Store, text: string, lastLetter: string, found: bool, words: seq<Word>,
                  ghost was: Session, ghost res: TargetRes)
    returns (outcome: Outcome)
    requires store.game == Playing(was) && ses.Value() == Attempted(was)
    requires Lower(text) != "/stop" && lastLetter == LastLetter(text) != ""
    requires (res.found ==> |res.data| > 0) && found == res.found && (found ==> words == res.data[1..])
    modifies ses, store
    ensures (store.game, outcome) == Judge(was, text, res)
  {
    if !found {
      store.SetUserCtx(Playing(ses.Value()));
      return NotFound;
    }
    if |words| == 0 {
      store.SetUserCtx(Playing(ses.Value()));
      return NoReply;
    } else {
      ses.allWords := ses.allWords + 1;
    }
    var bot := words[0];
    var botLastLetter := GetLastLetter(bot.text);
    if botLastLetter == "" {
      return UnusableReply(bot);
    }
    var repeat, notMatch := UpdateUserShiritoriCtx(ses, store, text, lastLetter, bot.text, botLastLetter, bot.serial);
    if repeat {
      return Repeat;
    }
    if notMatch {
      return NotMatch;
    }
    return Accepted(bot);
  }
}
