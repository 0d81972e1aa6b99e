/** Whole games: what holds of every word said, over every run of messages, restarts and expiries. */
module ShiritoriGame {
  import opened Words
  import opened Shiritori
  import opened Sets

  datatype Event =
    | Start                                 // the Shiritori button
    | Say(d: Dictionary, text: string)      // a message, and the dictionary as it is then
    | Expire                                // the stored hash times out

  datatype Round = Round(user: string, bot: Word)

  /** The stored game with the history of its accepted rounds and the number of kept, unaccepted attempts. */
  datatype Run = Run(game: Game, rounds: seq<Round>, misses: nat)

  const IDLE := Run(Idle, [], 0)
  const STARTED := Run(Playing(NEW_SESSION), [], 0)

  function Noted(r: Run, text: string, game: Game, outcome: Outcome): Run {
    match outcome
    case Stopped(_) => IDLE
    case Accepted(bot) => Run(game, r.rounds + [Round(text, bot)], r.misses)
    case NotFound => Run(game, r.rounds, r.misses + 1)
    case NoReply => Run(game, r.rounds, r.misses + 1)
    case _ => Run(game, r.rounds, r.misses)
  }

  /** A message, given the dictionary's answer. */
  function Heard(r: Run, text: string, res: TargetRes): Run
    requires res.found ==> |res.data| > 0
    requires r.game.Playing?
  {
    var (game, outcome) := Judge(r.game.session, text, res);
    Noted(r, text, game, outcome)
  }

  function Step(getLimit: nat, r: Run, e: Event): Run {
    match e
    case Start => STARTED
    case Expire => IDLE
    case Say(d, text) => if r.game.Idle? then r else Heard(r, text, Answer(d, getLimit, r.game.session, text))
  }

  function After(getLimit: nat, events: seq<Event>): Run {
    if events == [] then IDLE
    else Step(getLimit, After(getLimit, events[..|events| - 1]), events[|events| - 1])
  }

  function SessionOf(r: Run): Session {
    if r.game.Playing? then r.game.session else NEW_SESSION
  }

  /** The run after an accepted round. */
  function Extended(r: Run, text: string, bot: Word): Run
    requires r.game.Playing?
  {
    Run(Playing(Recorded(r.game.session, text, bot)), r.rounds + [Round(text, bot)], r.misses)
  }

  /** What a message can do: end the game, add a round, be counted as a miss, or leave no trace at all. */
  ghost predicate Becomes(r: Run, text: string, outcome: Outcome, r': Run) {
    r.game.Playing? &&
    var s := r.game.session;
    match outcome
    case Stopped(_) => r' == IDLE
    case Accepted(bot) =>
      && r' == Extended(r, text, bot)
      && text != "" && LastLetter(bot.text) != "" && !Mismatch(s, text) && text !in s.usedWords
    case NotFound => r' == Run(Playing(Attempted(s)), r.rounds, r.misses + 1)
    case NoReply => r' == Run(Playing(Attempted(s)), r.rounds, r.misses + 1)
    case _ => r' == r
  }

  lemma HeardBecomes(r: Run, text: string, res: TargetRes)
    requires r.game.Playing? && (res.found ==> |res.data| > 0)
    ensures Becomes(r, text, Judge(r.game.session, text, res).1, Heard(r, text, res))
  {
  }

  /* ---- score ---- */

  ghost predicate ScoreKept(r: Run) {
    var s := SessionOf(r);
    && s.userCorrectWords == |r.rounds|
    && s.userWords == |r.rounds| + r.misses
    && s.allWords == s.userWords + s.userCorrectWords
    && |r.rounds| <= |s.usedWords| <= 2 * |r.rounds|
    && (r.game.Idle? ==> r == IDLE)
  }

  lemma UsedGrowth(used: set<string>, user: string, bot: string)
    requires user !in used
    ensures |used| + 1 <= |used + {user, bot}| <= |used| + 2
  {
    var more := used + {user};
    assert used + {user, bot} == more + {bot};
    assert bot in more ==> more + {bot} == more;
  }

  lemma ScoreNext(r: Run, text: string, outcome: Outcome, r': Run)
    requires ScoreKept(r) && Becomes(r, text, outcome, r')
    ensures ScoreKept(r')
  {
    if outcome.Accepted? {
      UsedGrowth(r.game.session.usedWords, text, outcome.bot.text);
    }
  }

  lemma ScoreStep(getLimit: nat, r: Run, e: Event)
    requires ScoreKept(r)
    ensures ScoreKept(Step(getLimit, r, e))
  {
    match e {
      case Start =>
      case Expire =>
      case Say(d, text) =>
        if r.game.Playing? {
          var res := Answer(d, getLimit, r.game.session, text);
          var r' := Heard(r, text, res);
          assert Step(getLimit, r, e) == r';
          assert ScoreKept(r') by {
            HeardBecomes(r, text, res);
            ScoreNext(r, text, Judge(r.game.session, text, res).1, r');
          }
        }
    }
  }

  /** In every stored session the counters add up to the rounds and misses of the game. */
  lemma {:induction false} ScoreConservation(getLimit: nat, events: seq<Event>)
    ensures ScoreKept(After(getLimit, events))
  {
    if events != [] {
      ScoreConservation(getLimit, events[..|events| - 1]);
      ScoreStep(getLimit, After(getLimit, events[..|events| - 1]), events[|events| - 1]);
    }
  }

  /** At /stop neither unsigned difference wraps and the printed figures are the true ones, for any dictionary. */
  lemma StopReport(getLimit: nat, events: seq<Event>, text: string, res: TargetRes)
    requires After(getLimit, events).game.Playing? && Lower(text) == "/stop" && (res.found ==> |res.data| > 0)
    ensures var r := After(getLimit, events);
            Judge(r.game.session, text, res)
            == (Idle, Stopped(Stats(2 * |r.rounds| + r.misses, |r.rounds|, |r.rounds| + r.misses,
                                    |r.rounds|, r.misses)))
  {
    ScoreConservation(getLimit, events);
  }

  /* ---- the words said ---- */

  predicate Said(w: string, rounds: seq<Round>) {
    exists i | 0 <= i < |rounds| :: w == rounds[i].user || w == rounds[i].bot.text
  }

  ghost predicate UsedMatches(used: set<string>, h: seq<Round>) {
    forall w :: w in used <==> Said(w, h)
  }

  /** No user word was said before it, by either side. */
  ghost predicate UserWordsFresh(h: seq<Round>) {
    forall i, j | 0 <= i < j < |h| :: h[j].user != h[i].user && h[j].user != h[i].bot.text
  }

  ghost predicate Linked(h: seq<Round>) {
    && (forall i | 0 <= i < |h| :: h[i].user != "" && LastLetter(h[i].bot.text) != "")
    && (forall i | 0 < i < |h| :: Lower(h[i].user[..1]) == LastLetter(h[i - 1].bot.text))
  }

  ghost predicate HistoryKept(r: Run) {
    var s, h := SessionOf(r), r.rounds;
    && UsedMatches(s.usedWords, h)
    && UserWordsFresh(h)
    && Linked(h)
    && s.lastLetter == if h == [] then "" else LastLetter(h[|h| - 1].bot.text)
  }

  lemma UsedMore(used: set<string>, h: seq<Round>, text: string, bot: Word)
    requires UsedMatches(used, h) && UserWordsFresh(h) && text !in used
    ensures var h' := h + [Round(text, bot)]; UsedMatches(used + {text, bot.text}, h') && UserWordsFresh(h')
  {
    var h' := h + [Round(text, bot)];
    assert h'[|h|] == Round(text, bot);
    forall w
      ensures Said(w, h') <==> Said(w, h) || w == text || w == bot.text
    {
      if Said(w, h) {
        var i :| 0 <= i < |h| && (w == h[i].user || w == h[i].bot.text);
        assert h'[i] == h[i];
      }
    }
    forall i | 0 <= i < |h|
      ensures text != h[i].user && text != h[i].bot.text
    {
      assert Said(h[i].user, h) && Said(h[i].bot.text, h);
    }
  }

  lemma LinkedMore(h: seq<Round>, text: string, bot: Word)
    requires Linked(h) && text != "" && LastLetter(bot.text) != ""
    requires h != [] ==> Lower(text[..1]) == LastLetter(h[|h| - 1].bot.text)
    ensures Linked(h + [Round(text, bot)])
  {
  }

  lemma HistoryExtended(r: Run, text: string, bot: Word)
    requires HistoryKept(r) && r.game.Playing? && Becomes(r, text, Accepted(bot), Extended(r, text, bot))
    ensures HistoryKept(Extended(r, text, bot))
  {
    LinkedMore(r.rounds, text, bot);
    UsedMore(r.game.session.usedWords, r.rounds, text, bot);
  }

  lemma HistoryNext(r: Run, text: string, outcome: Outcome, r': Run)
    requires HistoryKept(r) && Becomes(r, text, outcome, r')
    ensures HistoryKept(r')
  {
    if outcome.Accepted? {
      HistoryExtended(r, text, outcome.bot);
    }
  }

  lemma HistoryStep(getLimit: nat, r: Run, e: Event)
    requires HistoryKept(r)
    ensures HistoryKept(Step(getLimit, r, e))
  {
    if e.Say? && r.game.Playing? {
      var res := Answer(e.d, getLimit, r.game.session, e.text);
      HeardBecomes(r, e.text, res);
      HistoryNext(r, e.text, Judge(r.game.session, e.text, res).1, Heard(r, e.text, res));
    }
  }

  lemma {:induction false} History(getLimit: nat, events: seq<Event>)
    ensures HistoryKept(After(getLimit, events))
  {
    if events != [] {
      History(getLimit, events[..|events| - 1]);
      HistoryStep(getLimit, After(getLimit, events[..|events| - 1]), events[|events| - 1]);
    }
  }

  /* ---- the rows the bot answered with ---- */

  predicate Allowed(e: Event, ever: Dictionary) {
    e.Say? ==> e.d <= ever && UniqueTexts(e.d)
  }

  /** Every dictionary seen holds rows of `ever`, so a serial names the same row at all times. */
  predicate Within(events: seq<Event>, ever: Dictionary) {
    forall i | 0 <= i < |events| :: Allowed(events[i], ever)
  }

  ghost predicate RowsKept(r: Run, ever: Dictionary) {
    var s, h := SessionOf(r), r.rounds;
    && (forall i | 0 <= i < |h| ::
          && h[i].bot in ever && h[i].bot.text != h[i].user
          && h[i].bot.firstLetter == LastLetter(h[i].user)
          && h[i].bot.firstLetter in s.letterOffsets
          && h[i].bot.serial <= s.letterOffsets[h[i].bot.firstLetter])
    && (forall i, j | 0 <= i < j < |h| && h[i].bot.firstLetter == h[j].bot.firstLetter ::
          h[i].bot.serial < h[j].bot.serial)
  }

  lemma JudgeAccepted(s: Session, text: string, res: TargetRes)
    requires res.found ==> |res.data| > 0
    requires Judge(s, text, res).1.Accepted?
    ensures res.found && |res.data| > 1 && Judge(s, text, res).1.bot == res.data[1]
  {
  }

  /** An accepted round answers with the smallest-serial candidate past the cursor. */
  lemma AcceptedReply(d: Dictionary, getLimit: nat, s: Session, text: string)
    requires UniqueTexts(d) && Turn(d, getLimit, s, text).1.Accepted?
    ensures var bot, letter := Turn(d, getLimit, s, text).1.bot, LastLetter(text);
            SmallestSerial(bot, Candidates(d, text, letter, Cursor(s, letter)))
  {
    JudgeAccepted(s, text, Answer(d, getLimit, s, text));
    ReplyIsSmallest(d, text, LastLetter(text), Cursor(s, LastLetter(text)), getLimit);
  }

  lemma RowsExtended(r: Run, text: string, bot: Word, ever: Dictionary)
    requires RowsKept(r, ever) && r.game.Playing?
    requires bot in ever && bot.text != text && bot.firstLetter == LastLetter(text)
    requires bot.serial > Cursor(r.game.session, bot.firstLetter)
    ensures RowsKept(Extended(r, text, bot), ever)
  {
  }

  lemma RowsNext(r: Run, text: string, outcome: Outcome, r': Run, ever: Dictionary)
    requires RowsKept(r, ever) && Becomes(r, text, outcome, r')
    requires outcome.Accepted? ==>
               && outcome.bot in ever && outcome.bot.text != text && outcome.bot.firstLetter == LastLetter(text)
               && outcome.bot.serial > Cursor(r.game.session, outcome.bot.firstLetter)
    ensures RowsKept(r', ever)
  {
    if outcome.Accepted? {
      RowsExtended(r, text, outcome.bot, ever);
    }
  }

  lemma RowsStep(getLimit: nat, r: Run, e: Event, ever: Dictionary)
    requires RowsKept(r, ever) && Allowed(e, ever)
    ensures RowsKept(Step(getLimit, r, e), ever)
  {
    if e.Say? && r.game.Playing? {
      var s := r.game.session;
      var res := Answer(e.d, getLimit, s, e.text);
      HeardBecomes(r, e.text, res);
      if Judge(s, e.text, res).1.Accepted? {
        AcceptedReply(e.d, getLimit, s, e.text);
      }
      RowsNext(r, e.text, Judge(s, e.text, res).1, Heard(r, e.text, res), ever);
    }
  }

  lemma {:induction false} Rows(getLimit: nat, events: seq<Event>, ever: Dictionary)
    requires Within(events, ever)
    ensures RowsKept(After(getLimit, events), ever)
  {
    if events != [] {
      Rows(getLimit, events[..|events| - 1], ever);
      RowsStep(getLimit, After(getLimit, events[..|events| - 1]), events[|events| - 1], ever);
    }
  }

  predicate DistinctRows(h: seq<Round>) {
    forall i, j | 0 <= i < j < |h| :: h[i].bot.serial != h[j].bot.serial
  }

  lemma RowsAreDistinct(r: Run, ever: Dictionary)
    requires RowsKept(r, ever)
    ensures DistinctRows(r.rounds)
  {
  }

  /** Even while rows come and go between turns, no row serves the bot twice in a game. */
  lemma BotRowsDistinct(getLimit: nat, events: seq<Event>, ever: Dictionary)
    requires Within(events, ever)
    ensures DistinctRows(After(getLimit, events).rounds)
  {
    Rows(getLimit, events, ever);
    RowsAreDistinct(After(getLimit, events), ever);
  }

  /* ---- games over one dictionary ---- */

  predicate Over(events: seq<Event>, d: Dictionary) {
    UniqueTexts(d) && forall i | 0 <= i < |events| && events[i].Say? :: events[i].d == d
  }

  /** Two equal words can only be a user word and a bot word of a strictly later round. */
  ghost predicate OnlyLaterBotRepeats(h: seq<Round>) {
    && (forall i, j | 0 <= i < j < |h| :: h[i].user != h[j].user && h[i].bot.text != h[j].bot.text)
    && (forall i, j | 0 <= i < |h| && 0 <= j < |h| && h[i].user == h[j].bot.text :: i < j)
  }

  lemma KeptMeansNoRepeat(r: Run, d: Dictionary)
    requires UniqueTexts(d) && UserWordsFresh(r.rounds) && RowsKept(r, d)
    ensures OnlyLaterBotRepeats(r.rounds)
  {
    RowsAreDistinct(r, d);
  }

  lemma NoRepeat(getLimit: nat, events: seq<Event>, d: Dictionary)
    requires Over(events, d)
    ensures OnlyLaterBotRepeats(After(getLimit, events).rounds)
  {
    History(getLimit, events);
    Rows(getLimit, events, d);
    KeptMeansNoRepeat(After(getLimit, events), d);
  }

  function UserWords(h: seq<Round>): seq<string> {
    seq(|h|, i requires 0 <= i < |h| => h[i].user)
  }

  function BotWords(h: seq<Round>): seq<string> {
    seq(|h|, i requires 0 <= i < |h| => h[i].bot.text)
  }

  lemma {:induction false} DistinctCount(s: seq<string>, w: string)
    requires forall i, j | 0 <= i < j < |s| :: s[i] != s[j]
    ensures multiset(s)[w] <= 1
  {
    if s != [] {
      var n := |s| - 1;
      assert s == s[..n] + [s[n]];
      DistinctCount(s[..n], w);
      if w == s[n] {
        assert w !in s[..n];
      }
    }
  }

  lemma NoRepeatCounts(h: seq<Round>, w: string)
    requires OnlyLaterBotRepeats(h)
    ensures multiset(UserWords(h) + BotWords(h))[w] <= 2
  {
    DistinctCount(UserWords(h), w);
    DistinctCount(BotWords(h), w);
  }

  /** So no word is said more than twice in a game. */
  lemma AtMostTwice(getLimit: nat, events: seq<Event>, d: Dictionary, w: string)
    requires Over(events, d)
    ensures var h := After(getLimit, events).rounds; multiset(UserWords(h) + BotWords(h))[w] <= 2
  {
    NoRepeat(getLimit, events, d);
    NoRepeatCounts(After(getLimit, events).rounds, w);
  }

  /** The bot says a word of this game again exactly when its next row holds a word the user has played. */
  lemma StaleReply(getLimit: nat, events: seq<Event>, d: Dictionary, text: string, bot: Word)
    requires Over(events, d) && After(getLimit, events).game.Playing?
    requires Turn(d, getLimit, After(getLimit, events).game.session, text).1 == Accepted(bot)
    ensures var r := After(getLimit, events);
            Said(bot.text, r.rounds) <==> bot.text in UserWords(r.rounds)
  {
    var r := After(getLimit, events);
    Rows(getLimit, events, d);
    AcceptedReply(d, getLimit, r.game.session, text);
    NewRow(r, d, text, bot);
  }

  lemma NewRow(r: Run, d: Dictionary, text: string, bot: Word)
    requires UniqueTexts(d) && r.game.Playing? && RowsKept(r, d)
    requires bot in Candidates(d, text, LastLetter(text), Cursor(r.game.session, LastLetter(text)))
    ensures Said(bot.text, r.rounds) <==> bot.text in UserWords(r.rounds)
  {
    var h := r.rounds;
    assert forall i | 0 <= i < |h| :: h[i].bot != bot;
    assert forall i | 0 <= i < |h| :: UserWords(h)[i] == h[i].user;
  }

  /** The rules, exactly: a known, chained, unused word that leaves the bot a usable reply; and which reply that is. */
  ghost predicate Legal(d: Dictionary, s: Session, text: string, bot: Word) {
    && Lower(text) != "/stop" && LastLetter(text) != "" && LastLetter(bot.text) != ""
    && Holders(d, text) != {}
    && SmallestSerial(bot, Candidates(d, text, LastLetter(text), Cursor(s, LastLetter(text))))
    && !Mismatch(s, text) && text !in s.usedWords
  }

  lemma AcceptedExactly(d: Dictionary, getLimit: nat, s: Session, text: string, bot: Word)
    requires UniqueTexts(d) && getLimit >= 1
    ensures Turn(d, getLimit, s, text).1 == Accepted(bot) <==> Legal(d, s, text, bot)
  {
    var letter := LastLetter(text);
    FoundMeansKnown(d, text, letter, Cursor(s, letter), getLimit);
    if Holders(d, text) != {} {
      var h :| h in Holders(d, text);
      assert Holders(d, text) == {h};
      BotReply(d, text, letter, Cursor(s, letter), getLimit);
      SmallestUnique(d, text, letter, Cursor(s, letter));
    }
  }

  lemma SmallestUnique(d: Dictionary, text: string, letter: string, offset: int)
    ensures forall a, b | SmallestSerial(a, Candidates(d, text, letter, offset))
                          && SmallestSerial(b, Candidates(d, text, letter, offset)) :: a == b
  {
  }

  /** The word is in the dictionary, says something, and bot is the row to answer it with. */
  ghost predicate Draws(d: Dictionary, s: Session, text: string, bot: Word) {
    && Lower(text) != "/stop" && LastLetter(text) != "" && Holders(d, text) != {}
    && SmallestSerial(bot, Candidates(d, text, LastLetter(text), Cursor(s, LastLetter(text))))
  }

  /** The word starts with another letter than the one stored. */
  predicate Breaks(s: Session, text: string) {
    s.lastLetter != "" && s.lastLetter != Lower(if text == "" then "" else [text[0]])
  }

  /** What becomes of a message, read off the dictionary and the session alone. */
  ghost predicate OutcomeIs(d: Dictionary, getLimit: nat, s: Session, text: string, game: Game, outcome: Outcome) {
    var stop, letter := Lower(text) == "/stop", LastLetter(text);
    var fit := Candidates(d, text, letter, Cursor(s, letter));
    match outcome
    case Stopped(stats) =>
      && stop && game == Idle
      && stats == Stats(s.allWords, s.allWords - s.userWords, s.userWords, s.userCorrectWords,
                        s.userWords - s.userCorrectWords)
    case InvalidWord => !stop && letter == "" && game == Playing(s)
    case NotFound =>
      && !stop && letter != "" && (forall w | w in d :: w.text != text)
      && game == Playing(s.(allWords := s.allWords + 1, userWords := s.userWords + 1))
    case NoReply =>
      && !stop && letter != "" && (exists w :: w in d && w.text == text) && (getLimit == 0 || fit == {})
      && game == Playing(s.(allWords := s.allWords + 1, userWords := s.userWords + 1))
    case UnusableReply(bot) =>
      getLimit > 0 && Draws(d, s, text, bot) && LastLetter(bot.text) == "" && game == Playing(s)
    case NotMatch =>
      && getLimit > 0 && (exists bot :: Draws(d, s, text, bot) && LastLetter(bot.text) != "")
      && Breaks(s, text) && game == Playing(s)
    case Repeat =>
      && getLimit > 0 && (exists bot :: Draws(d, s, text, bot) && LastLetter(bot.text) != "")
      && !Breaks(s, text) && text in s.usedWords && game == Playing(s)
    case Accepted(bot) =>
      && getLimit > 0 && Draws(d, s, text, bot) && LastLetter(bot.text) != ""
      && !Breaks(s, text) && text !in s.usedWords && game == Playing(Recorded(s, text, bot))
  }

  lemma TurnOfKnown(d: Dictionary, getLimit: nat, s: Session, text: string)
    requires UniqueTexts(d) && Lower(text) != "/stop" && LastLetter(text) != "" && Holders(d, text) != {}
    ensures OutcomeIs(d, getLimit, s, text, Turn(d, getLimit, s, text).0, Turn(d, getLimit, s, text).1)
  {
    var letter := LastLetter(text);
    FoundMeansKnown(d, text, letter, Cursor(s, letter), getLimit);
    var h :| h in Holders(d, text);
    assert Holders(d, text) == {h};
    BotReply(d, text, letter, Cursor(s, letter), getLimit);
    var res := Answer(d, getLimit, s, text);
    assert text[..1] == [text[0]];
    if |res.data| > 1 {
      assert Draws(d, s, text, res.data[1]);
    }
  }

  lemma TurnIs(d: Dictionary, getLimit: nat, s: Session, text: string)
    requires UniqueTexts(d)
    ensures OutcomeIs(d, getLimit, s, text, Turn(d, getLimit, s, text).0, Turn(d, getLimit, s, text).1)
  {
    var letter := LastLetter(text);
    if Lower(text) != "/stop" && letter != "" {
      FoundMeansKnown(d, text, letter, Cursor(s, letter), getLimit);
      if Holders(d, text) != {} {
        TurnOfKnown(d, getLimit, s, text);
      } else {
        assert forall w | w in d :: w.text == text ==> w in Holders(d, text);
      }
    }
  }

  lemma DrawsOne(d: Dictionary, s: Session, text: string)
    ensures forall a, b | Draws(d, s, text, a) && Draws(d, s, text, b) :: a == b
    ensures forall a | Draws(d, s, text, a) ::
              && a in Candidates(d, text, LastLetter(text), Cursor(s, LastLetter(text)))
              && exists w :: w in d && w.text == text
  {
    if h :| h in Holders(d, text) {
      assert h in d && h.text == text;
    }
  }

  /** Every outcome, exactly: a turn ends so if and only if the dictionary and the session call for it. */
  lemma OutcomeExactly(d: Dictionary, getLimit: nat, s: Session, text: string, game: Game, outcome: Outcome)
    requires UniqueTexts(d)
    ensures Turn(d, getLimit, s, text) == (game, outcome) <==> OutcomeIs(d, getLimit, s, text, game, outcome)
  {
    TurnIs(d, getLimit, s, text);
    DrawsOne(d, s, text);
  }

  /** What can be checked before a turn: the word is legal, and the reply it draws is a word the user has played. */
  ghost predicate DrawsStaleReply(d: Dictionary, r: Run, text: string)
    requires r.game.Playing?
  {
    exists w :: Legal(d, r.game.session, text, w) && w.text in UserWords(r.rounds)
  }

  /** The bot breaks the promise of unique words in a turn exactly then. */
  lemma BotRepeatsExactly(getLimit: nat, events: seq<Event>, d: Dictionary, text: string)
    requires Over(events, d) && getLimit >= 1 && After(getLimit, events).game.Playing?
    ensures var r := After(getLimit, events);
            (exists bot :: Turn(d, getLimit, r.game.session, text).1 == Accepted(bot) && Said(bot.text, r.rounds))
            <==> DrawsStaleReply(d, r, text)
  {
    var r := After(getLimit, events);
    forall bot
      ensures Turn(d, getLimit, r.game.session, text).1 == Accepted(bot) <==> Legal(d, r.game.session, text, bot)
    {
      AcceptedExactly(d, getLimit, r.game.session, text, bot);
    }
    forall bot | Turn(d, getLimit, r.game.session, text).1 == Accepted(bot)
      ensures Said(bot.text, r.rounds) <==> bot.text in UserWords(r.rounds)
    {
      StaleReply(getLimit, events, d, text, bot);
    }
  }

  const AB := Word("ab", "a", 1)
  const BA := Word("ba", "b", 2)
  const AA := Word("aa", "a", 3)

  lemma SampleLetters()
    ensures LastLetter("ab") == "b" && LastLetter("ba") == "a" && LastLetter("aa") == "a"
    ensures Lower("ab") != "/stop" && Lower("aa") != "/stop" && Lower("aa"[..1]) == "a"
  {
    assert Lower("ab")[0] == 'a' && Lower("aa")[0] == 'a';
  }

  lemma AcceptedStep(d: Dictionary, r: Run, text: string, bot: Word)
    requires UniqueTexts(d) && r.game.Playing? && Legal(d, r.game.session, text, bot)
    ensures Step(1, r, Say(d, text)) == Extended(r, text, bot)
  {
    AcceptedExactly(d, 1, r.game.session, text, bot);
    HeardBecomes(r, text, Answer(d, 1, r.game.session, text));
  }

  lemma SampleLegal(d: Dictionary)
    requires d == {AB, BA, AA}
    ensures UniqueTexts(d)
    ensures Legal(d, NEW_SESSION, "ab", BA) && Legal(d, Recorded(NEW_SESSION, "ab", BA), "aa", AB)
  {
    SampleLetters();
    assert AB in Holders(d, "ab") && AA in Holders(d, "aa");
    assert SmallestSerial(BA, Candidates(d, "ab", "b", 0)) && SmallestSerial(AB, Candidates(d, "aa", "a", 0));
  }

  /** The project's README promises unique words per session; here the bot repeats the user's first word. */
  lemma BotCanRepeatUser(d: Dictionary)
    requires d == {AB, BA, AA}
    ensures Step(1, Step(1, STARTED, Say(d, "ab")), Say(d, "aa")).rounds == [Round("ab", BA), Round("aa", AB)]
  {
    SampleLegal(d);
    AcceptedStep(d, STARTED, "ab", BA);
    AcceptedStep(d, Step(1, STARTED, Say(d, "ab")), "aa", AB);
  }

  /* ---- the chain ---- */

  /** The dictionary's first_letter column holds what it says. */
  predicate FirstLetters(d: Dictionary) {
    forall w | w in d :: w.text != "" && w.firstLetter == Lower(w.text[..1])
  }

  predicate Follows(next: string, previous: string) {
    next != "" && EndsIn(previous, LowerChar(next[0]))
  }

  lemma FollowsByLetter(next: string, previous: string)
    requires next != "" && LastLetter(previous) == Lower(next[..1])
    ensures Follows(next, previous)
  {
    LastLetterMeaning(previous);
    assert Lower(next[..1]) == [LowerChar(next[0])];
  }

  /** Every word after the first starts with the last usable letter of the word before it. */
  lemma ChainRule(getLimit: nat, events: seq<Event>, ever: Dictionary)
    requires Within(events, ever) && FirstLetters(ever)
    ensures var r := After(getLimit, events);
            var h := r.rounds;
            && (forall i | 0 <= i < |h| :: Follows(h[i].bot.text, h[i].user))
            && (forall i | 0 < i < |h| :: Follows(h[i].user, h[i - 1].bot.text))
            && (r.game.Playing? ==> (h == [] <==> r.game.session.lastLetter == ""))
  {
    History(getLimit, events);
    Rows(getLimit, events, ever);
    ChainOf(After(getLimit, events), ever);
  }

  lemma ChainOf(r: Run, ever: Dictionary)
    requires HistoryKept(r) && RowsKept(r, ever) && FirstLetters(ever)
    ensures forall i | 0 <= i < |r.rounds| :: Follows(r.rounds[i].bot.text, r.rounds[i].user)
    ensures forall i | 0 < i < |r.rounds| :: Follows(r.rounds[i].user, r.rounds[i - 1].bot.text)
  {
    var h := r.rounds;
    forall i | 0 <= i < |h|
      ensures Follows(h[i].bot.text, h[i].user)
    {
      FollowsByLetter(h[i].bot.text, h[i].user);
    }
    forall i | 0 < i < |h|
      ensures Follows(h[i].user, h[i - 1].bot.text)
    {
      FollowsByLetter(h[i].user, h[i - 1].bot.text);
    }
  }

  /* ---- games end ---- */

  /** The rows the bot may still reach. */
  function Remaining(d: Dictionary, s: Session): set<Word> {
    set w | w in d && w.serial > Cursor(s, w.firstLetter)
  }

  lemma RecordedUsesUp(d: Dictionary, s: Session, text: string, bot: Word)
    requires bot in Candidates(d, text, LastLetter(text), Cursor(s, LastLetter(text)))
    ensures |Remaining(d, Recorded(s, text, bot))| < |Remaining(d, s)|
  {
    var rest := Remaining(d, s) - {bot};
    assert Remaining(d, Recorded(s, text, bot)) <= rest;
    SubsetSize(Remaining(d, Recorded(s, text, bot)), rest);
  }

  /** Every accepted round uses up a row; any other message that keeps the game going uses up none. */
  lemma TurnMeasure(d: Dictionary, getLimit: nat, r: Run, text: string)
    requires UniqueTexts(d) && r.game.Playing?
    ensures var r' := Step(getLimit, r, Say(d, text));
            || r' == IDLE
            || (|r'.rounds| == |r.rounds| + 1 && |Remaining(d, SessionOf(r'))| < |Remaining(d, r.game.session)|)
            || (r'.rounds == r.rounds && Remaining(d, SessionOf(r')) == Remaining(d, r.game.session))
  {
    var s := r.game.session;
    HeardBecomes(r, text, Answer(d, getLimit, s, text));
    var outcome := Turn(d, getLimit, s, text).1;
    if outcome.Accepted? {
      AcceptedReply(d, getLimit, s, text);
      RecordedUsesUp(d, s, text, outcome.bot);
    } else {
      assert Remaining(d, Attempted(s)) == Remaining(d, s);
    }
  }

  lemma BudgetStep(getLimit: nat, r: Run, e: Event, d: Dictionary)
    requires UniqueTexts(d) && (e.Say? ==> e.d == d)
    requires |r.rounds| + |Remaining(d, SessionOf(r))| <= |d|
    ensures var r' := Step(getLimit, r, e); |r'.rounds| + |Remaining(d, SessionOf(r'))| <= |d|
  {
    SubsetSize(Remaining(d, NEW_SESSION), d);
    if e.Say? && r.game.Playing? {
      TurnMeasure(d, getLimit, r, e.text);
    }
  }

  lemma {:induction false} Budget(getLimit: nat, events: seq<Event>, d: Dictionary)
    requires Over(events, d)
    ensures var r := After(getLimit, events); |r.rounds| + |Remaining(d, SessionOf(r))| <= |d|
  {
    if events == [] {
      SubsetSize(Remaining(d, NEW_SESSION), d);
    } else {
      Budget(getLimit, events[..|events| - 1], d);
      BudgetStep(getLimit, After(getLimit, events[..|events| - 1]), events[|events| - 1], d);
    }
  }

  /** A game has at most as many accepted rounds as the dictionary has rows. */
  lemma RoundsBounded(getLimit: nat, events: seq<Event>, d: Dictionary)
    requires Over(events, d)
    ensures |After(getLimit, events).rounds| <= |d|
  {
    Budget(getLimit, events, d);
  }
}
