/** The consumer of answer events: fetch, apply, commit, and what a crash and redelivery can and cannot change. */
module AnswerReplay {
  import opened UserStats

  /** One partition, so one ordered log; a message that does not decode is skipped. */
  datatype Message = Malformed | Event(uuid: int, theme: string, counter: int)

  /** Where the loop stands: between messages, holding a fetched one, or about to commit it. */
  datatype Phase = Waiting | Holding(offset: nat) | Handled(offset: nat)

  /** The last two fields are histories: how many messages have been handled at least once, and on which days first. */
  datatype State = State(
    log: seq<Message>,
    position: nat,
    committed: nat,
    phase: Phase,
    users: Users,
    today: int,
    furthest: nat,
    firstDays: seq<int>)

  datatype Step =
    | Produce(message: Message)
    | NextDay
    | Fetch
    | Handle
    | UpdateFails
    | Commit(recorded: bool)     // recorded or not, whatever the client is told
    | Restart                    // crash at any point, then resume from the committed offset

  predicate Enabled(s: State, step: Step) {
    match step
    case Fetch => s.phase.Waiting? && s.position < |s.log|
    case Handle => s.phase.Holding? && s.phase.offset < |s.log|
    case UpdateFails => s.phase.Holding? && s.phase.offset < |s.log| && s.log[s.phase.offset].Event?
    case Commit(_) => s.phase.Handled?
    case _ => true
  }

  function Applied(users: Users, m: Message, day: int): Users {
    match m
    case Malformed => users
    case Event(uuid, theme, counter) => UpdatedUsers(users, uuid, day, theme, counter)
  }

  function Next(s: State, step: Step): State
    requires Enabled(s, step)
  {
    match step
    case Produce(m) => s.(log := s.log + [m])
    case NextDay => s.(today := s.today + 1)
    case Fetch => s.(phase := Holding(s.position), position := s.position + 1)
    case Handle =>
      var o := s.phase.offset;
      var s' := s.(users := Applied(s.users, s.log[o], s.today), phase := Handled(o));
      if o == s.furthest then s'.(furthest := o + 1, firstDays := s.firstDays + [s.today]) else s'
    case UpdateFails => s.(phase := Waiting)
    case Commit(recorded) =>
      s.(phase := Waiting, committed := if recorded then s.phase.offset + 1 else s.committed)
    case Restart => s.(phase := Waiting, position := s.committed)
  }

  /* ---- the loop ---- */

  /** What one turn of the loop meets. */
  datatype Turn = NoMessage | Message(updateFails: bool, recorded: bool)

  function AfterTurn(s: State, t: Turn): State
    requires s.phase.Waiting?
    ensures AfterTurn(s, t).phase.Waiting?
  {
    if t.NoMessage? || s.position >= |s.log| then s
    else
      var held := Next(s, Fetch);
      if s.log[s.position].Event? && t.updateFails then Next(held, UpdateFails)
      else Next(Next(held, Handle), Commit(t.recorded))
  }

  function AfterTurns(s: State, turns: seq<Turn>): State
    requires s.phase.Waiting?
    ensures AfterTurns(s, turns).phase.Waiting?
  {
    if turns == [] then s else AfterTurn(AfterTurns(s, turns[..|turns| - 1]), turns[|turns| - 1])
  }

  class Consumer {
    const db: UsersDB
    var log: seq<Message>
    var position: nat
    var committed: nat
    var today: int
    ghost var furthest: nat
    ghost var firstDays: seq<int>

    constructor (db: UsersDB, day: int)
      ensures this.db == db && Value() == State([], 0, 0, Waiting, db.users, day, 0, [])
    {
      this.db := db;
      log, position, committed, today, furthest, firstDays := [], 0, 0, day, 0, [];
    }

    ghost function Value(): State
      reads this, db
    {
      State(log, position, committed, Waiting, db.users, today, furthest, firstDays)
    }

    /** ApplyAnswer, for as many turns as the process lives. */
    method ApplyAnswer(turns: seq<Turn>)
      modifies this`position, this`committed, this`furthest, this`firstDays, db
      ensures Value() == AfterTurns(old(Value()), turns)
    {
      for i := 0 to |turns|
        invariant Value() == AfterTurns(old(Value()), turns[..i])
      {
        assert turns[..i + 1][..i] == turns[..i];
        ApplyNext(turns[i]);
      }
      assert turns[..|turns|] == turns;
    }

    /** The body of the loop. */
    method ApplyNext(turn: Turn)
      modifies this`position, this`committed, this`furthest, this`firstDays, db
      ensures Value() == AfterTurn(old(Value()), turn)
    {
      if turn.NoMessage? || position >= |log| {
        return;
      }
      var offset := position;
      position := position + 1;
      match log[offset] {
        case Malformed =>
        case Event(uuid, theme, counter) =>
          if turn.updateFails {
            return;
          }
          db.UpdateStreak(uuid, today, theme, counter);
      }
      if offset == furthest {
        furthest, firstDays := offset + 1, firstDays + [today];
      }
      if turn.recorded {
        committed := offset + 1;
      }
    }

    method Resume()
      modifies this`position
      ensures Value() == Next(old(Value()), Restart)
    {
      position := committed;
    }
  }

  /* ---- the reference: the log folded once, left to right ---- */

  function Fold(users: Users, log: seq<Message>, days: seq<int>): Users
    requires |days| <= |log|
  {
    if days == [] then users
    else
      var n := |days| - 1;
      Applied(Fold(users, log, days[..n]), log[n], days[n])
  }

  predicate SameThemes(a: Stats, b: Stats) {
    a.bestTheme == b.bestTheme && a.bestCounter == b.bestCounter
    && a.worstTheme == b.worstTheme && a.worstCounter == b.worstCounter
  }

  ghost predicate SameThemesAll(a: Users, b: Users) {
    a.Keys == b.Keys && forall u | u in a :: SameThemes(a[u], b[u])
  }

  /** Everything below the read position has been handled, except a message still held. */
  ghost predicate Positioned(s: State) {
    && s.committed <= s.position <= |s.log|
    && s.committed <= s.furthest <= |s.log|
    && |s.firstDays| == s.furthest
    && match s.phase
       case Waiting => s.position <= s.furthest
       case Holding(o) => o + 1 == s.position && o <= s.furthest
       case Handled(o) => o + 1 == s.position && o < s.furthest
  }

  lemma StepKeepsPositioned(s: State, step: Step)
    requires Positioned(s) && Enabled(s, step) && !step.UpdateFails?
    ensures Positioned(Next(s, step))
  {
  }

  /** The fold looks at the first messages only, so later ones do not matter. */
  lemma {:induction false} FoldProduce(users: Users, log: seq<Message>, m: Message, days: seq<int>)
    requires |days| <= |log|
    ensures Fold(users, log + [m], days) == Fold(users, log, days)
  {
    if days != [] {
      FoldProduce(users, log, m, days[..|days| - 1]);
    }
  }

  lemma {:induction false} FoldKeys(users: Users, log: seq<Message>, days: seq<int>)
    requires |days| <= |log|
    ensures Fold(users, log, days).Keys == users.Keys
  {
    if days != [] {
      FoldKeys(users, log, days[..|days| - 1]);
    }
  }

  /** A folded message lies within the extremes of its user, so seeing it again changes neither theme. */
  lemma {:induction false} FoldCovers(users: Users, log: seq<Message>, days: seq<int>, i: nat)
    requires |days| <= |log| && i < |days| && log[i].Event? && log[i].uuid in users
    ensures log[i].uuid in Fold(users, log, days)
    ensures var r := Fold(users, log, days)[log[i].uuid]; r.worstCounter <= log[i].counter <= r.bestCounter
  {
    FoldKeys(users, log, days);
    var n := |days| - 1;
    FoldKeys(users, log, days[..n]);
    if i < n {
      FoldCovers(users, log, days[..n], i);
    }
  }

  /* ---- exactly-once for the themes ---- */

  ghost predicate ThemesExact(start: Users, s: State) {
    Positioned(s) && SameThemesAll(s.users, Fold(start, s.log, s.firstDays))
  }

  lemma HandleKeepsThemes(start: Users, s: State)
    requires ThemesExact(start, s) && Enabled(s, Handle)
    ensures ThemesExact(start, Next(s, Handle))
  {
    StepKeepsPositioned(s, Handle);
    var o, s' := s.phase.offset, Next(s, Handle);
    FoldKeys(start, s.log, s.firstDays);
    if o == s.furthest {
      assert s'.firstDays[..o] == s.firstDays;
    } else if s.log[o].Event? && s.log[o].uuid in start {
      FoldCovers(start, s.log, s.firstDays, o);
    }
  }

  lemma StepKeepsThemes(start: Users, s: State, step: Step)
    requires ThemesExact(start, s) && Enabled(s, step) && !step.UpdateFails?
    ensures ThemesExact(start, Next(s, step))
  {
    StepKeepsPositioned(s, step);
    match step {
      case Produce(m) => FoldProduce(start, s.log, m, s.firstDays);
      case Handle => HandleKeepsThemes(start, s);
      case _ =>
    }
  }

  /** Any run, failing updates included. */
  ghost predicate IsAnyRun(run: seq<State>, steps: seq<Step>) {
    && |run| == |steps| + 1
    && (exists day, users :: run[0] == State([], 0, 0, Waiting, users, day, 0, []))
    && forall i | 0 <= i < |steps| :: Enabled(run[i], steps[i]) && run[i + 1] == Next(run[i], steps[i])
  }

  /** A run in which every row update that is tried succeeds. */
  ghost predicate IsRun(run: seq<State>, steps: seq<Step>) {
    IsAnyRun(run, steps) && forall i | 0 <= i < |steps| :: !steps[i].UpdateFails?
  }

  /** Whatever crashes and commits get lost, both theme pairs equal one fold of the log up to the furthest message. */
  lemma {:induction false} ThemesExactlyOnce(run: seq<State>, steps: seq<Step>, i: nat)
    requires IsRun(run, steps) && i < |run|
    ensures ThemesExact(run[0].users, run[i])
  {
    if i > 0 {
      ThemesExactlyOnce(run, steps, i - 1);
      assert run[i - 1 + 1] == Next(run[i - 1], steps[i - 1]);
      StepKeepsThemes(run[0].users, run[i - 1], steps[i - 1]);
    }
  }

  /* ---- and for the whole row, when redeliveries come on the user's last active day ---- */

  /** A message handled before comes again on the day its user's row already shows. */
  predicate SameDayRedelivery(s: State, step: Step) {
    step.Handle? && Enabled(s, step) && s.phase.offset < s.furthest ==>
      match s.log[s.phase.offset]
      case Malformed => true
      case Event(uuid, _, _) => uuid in s.users ==> s.users[uuid].lastDoneDay == s.today
  }

  ghost predicate RowsExact(start: Users, s: State) {
    Positioned(s) && s.users == Fold(start, s.log, s.firstDays)
  }

  lemma StepKeepsRows(start: Users, s: State, step: Step)
    requires RowsExact(start, s) && Enabled(s, step) && !step.UpdateFails? && SameDayRedelivery(s, step)
    ensures RowsExact(start, Next(s, step))
  {
    StepKeepsPositioned(s, step);
    match step {
      case Produce(m) => FoldProduce(start, s.log, m, s.firstDays);
      case Handle =>
        var o := s.phase.offset;
        if o == s.furthest {
          assert Next(s, step).firstDays[..o] == s.firstDays;
        } else if s.log[o].Event? && s.log[o].uuid in s.users {
          FoldKeys(start, s.log, s.firstDays);
          FoldCovers(start, s.log, s.firstDays, o);
          var r := s.users[s.log[o].uuid];
          assert Updated(r, s.today, s.log[o].theme, s.log[o].counter) == r;
        }
      case _ =>
    }
  }

  /** Then the whole table, streaks included, is that one fold. */
  lemma {:induction false} RowsExactlyOnce(run: seq<State>, steps: seq<Step>, i: nat)
    requires IsRun(run, steps) && i < |run|
    requires forall k | 0 <= k < |steps| :: SameDayRedelivery(run[k], steps[k])
    ensures RowsExact(run[0].users, run[i])
  {
    if i > 0 {
      RowsExactlyOnce(run, steps, i - 1);
      assert SameDayRedelivery(run[i - 1], steps[i - 1]) && run[i - 1 + 1] == Next(run[i - 1], steps[i - 1]);
      StepKeepsRows(run[0].users, run[i - 1], steps[i - 1]);
    }
  }

  /** Redelivering a handled message leaves its user's row alone exactly when it comes on the day the row shows. */
  lemma RedeliveryHarmlessExactly(start: Users, s: State)
    requires RowsExact(start, s) && Enabled(s, Handle) && s.phase.offset < s.furthest
    ensures Next(s, Handle).users == s.users <==> SameDayRedelivery(s, Handle)
  {
    var o := s.phase.offset;
    if s.log[o].Event? && s.log[o].uuid in s.users {
      FoldKeys(start, s.log, s.firstDays);
      FoldCovers(start, s.log, s.firstDays, o);
      var u, r := s.log[o].uuid, s.users[s.log[o].uuid];
      var r' := Updated(r, s.today, s.log[o].theme, s.log[o].counter);
      assert Next(s, Handle).users[u] == r';
      assert r' == r <==> r.lastDoneDay == s.today;
    }
  }

  /* ---- delivery, when updates may fail ---- */

  ghost predicate HandlesAt(run: seq<State>, steps: seq<Step>, i: nat, o: nat)
    requires |steps| < |run|
  {
    i < |steps| && steps[i].Handle? && run[i].phase == Holding(o)
  }

  /** Message o has been handled at least once in the first n steps. */
  ghost predicate HandledBy(run: seq<State>, steps: seq<Step>, n: nat, o: nat)
    requires |steps| < |run|
  {
    exists i: nat :: i < n && HandlesAt(run, steps, i, o)
  }

  /** Step j fails on message o, which was never handled before. */
  ghost predicate FailsAt(run: seq<State>, steps: seq<Step>, j: nat, o: nat)
    requires |steps| < |run|
  {
    j < |steps| && steps[j].UpdateFails? && run[j].phase == Holding(o) && !HandledBy(run, steps, j, o)
  }

  predicate NoRestart(steps: seq<Step>, j: nat, k: nat) {
    forall i | j < i < k && i < |steps| :: !steps[i].Restart?
  }

  /** A first update of message o failed, and the process has not restarted since. */
  ghost predicate PassedOver(run: seq<State>, steps: seq<Step>, n: nat, o: nat)
    requires |steps| < |run|
  {
    exists j: nat :: j < n && FailsAt(run, steps, j, o) && NoRestart(steps, j, n)
  }

  /** And then, before any restart, some commit was recorded. */
  ghost predicate LostBy(run: seq<State>, steps: seq<Step>, n: nat, o: nat)
    requires |steps| < |run|
  {
    exists k: nat :: k < n && k < |steps| && steps[k] == Commit(true) && PassedOver(run, steps, k, o)
  }

  lemma HandledMore(run: seq<State>, steps: seq<Step>, n: nat, o: nat)
    requires |steps| < |run|
    ensures HandledBy(run, steps, n + 1, o) <==> HandledBy(run, steps, n, o) || HandlesAt(run, steps, n, o)
  {
  }

  lemma PassedOverMore(run: seq<State>, steps: seq<Step>, n: nat, o: nat)
    requires |steps| < |run| && n < |steps|
    ensures PassedOver(run, steps, n + 1, o)
            <==> (PassedOver(run, steps, n, o) && !steps[n].Restart?) || FailsAt(run, steps, n, o)
  {
    if PassedOver(run, steps, n, o) && !steps[n].Restart? {
      var j: nat :| j < n && FailsAt(run, steps, j, o) && NoRestart(steps, j, n);
      assert NoRestart(steps, j, n + 1);
    }
    if FailsAt(run, steps, n, o) {
      assert NoRestart(steps, n, n + 1);
    }
    if PassedOver(run, steps, n + 1, o) {
      var j: nat :| j < n + 1 && FailsAt(run, steps, j, o) && NoRestart(steps, j, n + 1);
      assert NoRestart(steps, j, n);
    }
  }

  lemma LostMore(run: seq<State>, steps: seq<Step>, n: nat, o: nat)
    requires |steps| < |run| && n < |steps|
    ensures LostBy(run, steps, n + 1, o)
            <==> LostBy(run, steps, n, o) || (steps[n] == Commit(true) && PassedOver(run, steps, n, o))
  {
  }

  /** The committed offset never passes the position, nor a message in hand. */
  predicate Placed(s: State) {
    && s.committed <= s.position
    && (s.phase.Waiting? || (s.phase.offset + 1 == s.position && s.committed <= s.phase.offset))
  }

  lemma {:induction false} RunIsPlaced(run: seq<State>, steps: seq<Step>, n: nat)
    requires IsAnyRun(run, steps) && n < |run|
    ensures Placed(run[n])
  {
    if n > 0 {
      RunIsPlaced(run, steps, n - 1);
      assert run[n - 1 + 1] == Next(run[n - 1], steps[n - 1]);
    }
  }

  /** Where message o stands: handled, in hand, passed over, lost, or still ahead. */
  predicate Tracked(s: State, o: nat, handled: bool, passedOver: bool, lost: bool) {
    && (s.phase == Handled(o) ==> handled)
    && (passedOver ==> o < s.position && s.phase != Holding(o) && !handled)
    && (o < s.position && !handled ==> s.phase == Holding(o) || passedOver || o < s.committed)
    && (o < s.committed && !handled <==> lost)
  }

  lemma StepKeepsTracked(s: State, step: Step, o: nat, handled: bool, passedOver: bool, lost: bool)
    requires Placed(s) && Enabled(s, step) && Tracked(s, o, handled, passedOver, lost)
    ensures var inHand := s.phase == Holding(o);
            Tracked(Next(s, step), o, handled || (step.Handle? && inHand),
                    (passedOver && !step.Restart?) || (step.UpdateFails? && inHand && !handled),
                    lost || (step == Commit(true) && passedOver))
  {
  }

  lemma {:induction false} RunIsTracked(run: seq<State>, steps: seq<Step>, n: nat, o: nat)
    requires IsAnyRun(run, steps) && n < |run|
    ensures Tracked(run[n], o, HandledBy(run, steps, n, o), PassedOver(run, steps, n, o), LostBy(run, steps, n, o))
  {
    if n > 0 {
      var i := n - 1;
      RunIsTracked(run, steps, i, o);
      RunIsPlaced(run, steps, i);
      assert Enabled(run[i], steps[i]) && run[i + 1] == Next(run[i], steps[i]);
      StepKeepsTracked(run[i], steps[i], o,
                       HandledBy(run, steps, i, o), PassedOver(run, steps, i, o), LostBy(run, steps, i, o));
      HandledMore(run, steps, i, o);
      PassedOverMore(run, steps, i, o);
      LostMore(run, steps, i, o);
    }
  }

  /** A committed message is unhandled exactly when its update failed and a commit came before a restart. */
  lemma LostExactly(run: seq<State>, steps: seq<Step>, n: nat, o: nat)
    requires IsAnyRun(run, steps) && n < |run|
    ensures o < run[n].committed && !HandledBy(run, steps, n, o) <==> LostBy(run, steps, n, o)
  {
    RunIsTracked(run, steps, n, o);
  }

  /** So everything committed has been handled exactly when no commit follows a failure without a restart between. */
  lemma DeliveredExactly(run: seq<State>, steps: seq<Step>, n: nat)
    requires IsAnyRun(run, steps) && n < |run|
    ensures (forall o: nat | o < run[n].committed :: HandledBy(run, steps, n, o))
            <==> forall o: nat :: !LostBy(run, steps, n, o)
  {
    forall o: nat
      ensures o < run[n].committed && !HandledBy(run, steps, n, o) <==> LostBy(run, steps, n, o)
    {
      LostExactly(run, steps, n, o);
    }
  }

  /** A lost message is never handled again, whatever follows. */
  lemma LostForGood(run: seq<State>, steps: seq<Step>, n: nat, m: nat, o: nat)
    requires IsAnyRun(run, steps) && n <= m < |run| && LostBy(run, steps, n, o)
    ensures !HandledBy(run, steps, m, o)
  {
    LostExactly(run, steps, m, o);
  }

  /** When updates do not fail, nothing below the committed offset is unhandled. */
  lemma NothingSkipped(run: seq<State>, steps: seq<Step>, n: nat, o: nat)
    requires IsRun(run, steps) && n < |run|
    ensures o < run[n].committed ==> HandledBy(run, steps, n, o)
    ensures run[n].committed <= run[n].furthest
    ensures run[n].phase.Waiting? ==> run[n].position <= run[n].furthest
  {
    LostExactly(run, steps, n, o);
    ThemesExactlyOnce(run, steps, n);
  }

  /** The shortest such loss: the loop goes on after a failed update, and the next commit passes the lost event. */
  lemma FailedUpdateIsLost(s: State, a: Message, b: Message)
    requires s.phase.Waiting? && s.log == [a, b] && a.Event? && b.Event? && s.position == s.committed == s.furthest == 0
    ensures var s' := AfterTurns(s, [Message(true, true), Message(false, true)]);
            s'.committed == 2 && s'.users == Applied(s.users, b, s.today)
  {
    var turns := [Message(true, true), Message(false, true)];
    assert turns[..1] == [Message(true, true)] && turns[..1][..0] == [];
    assert AfterTurns(s, turns[..1]) == AfterTurn(s, turns[0]);
  }

  /** What one turn changes: a failed update only loses the place, everything else handles the message it meets. */
  lemma TurnExactly(s: State, t: Turn)
    requires s.phase.Waiting?
    ensures t.NoMessage? || s.position >= |s.log| ==> AfterTurn(s, t) == s
    ensures t.Message? && s.position < |s.log| ==>
              var o, s' := s.position, AfterTurn(s, t);
              && s'.position == o + 1 && s'.log == s.log && s'.today == s.today && s'.phase == Waiting
              && if t.updateFails && s.log[o] != Malformed then
                   s'.committed == s.committed && s'.users == s.users && s'.furthest == s.furthest
                 else
                   && s'.committed == (if t.recorded then o + 1 else s.committed)
                   && s'.users == Applied(s.users, s.log[o], s.today)
                   && s'.furthest == if o == s.furthest then o + 1 else s.furthest
  {
  }

  /** The steps of one turn. */
  function TurnSteps(s: State, t: Turn): seq<Step> {
    if t.NoMessage? || s.position >= |s.log| then []
    else if t.updateFails && s.log[s.position] != Malformed then [Fetch, UpdateFails]
    else [Fetch, Handle, Commit(t.recorded)]
  }

  function LoopSteps(s: State, turns: seq<Turn>): seq<Step>
    requires s.phase.Waiting?
  {
    if turns == [] then []
    else
      var init := turns[..|turns| - 1];
      LoopSteps(s, init) + TurnSteps(AfterTurns(s, init), turns[|turns| - 1])
  }

  lemma OneMoreStep(run: seq<State>, steps: seq<Step>, step: Step)
    requires IsAnyRun(run, steps) && Enabled(run[|steps|], step)
    ensures IsAnyRun(run + [Next(run[|steps|], step)], steps + [step])
  {
  }

  lemma TurnIsRun(run: seq<State>, steps: seq<Step>, t: Turn) returns (longer: seq<State>)
    requires IsAnyRun(run, steps) && run[|steps|].phase.Waiting?
    ensures IsAnyRun(longer, steps + TurnSteps(run[|steps|], t)) && run <= longer
    ensures longer[|longer| - 1] == AfterTurn(run[|steps|], t)
  {
    var s := run[|steps|];
    var more := TurnSteps(s, t);
    longer := run;
    if more == [] {
      assert steps + more == steps;
    } else {
      var held := Next(s, Fetch);
      OneMoreStep(run, steps, Fetch);
      OneMoreStep(run + [held], steps + [Fetch], more[1]);
      longer := run + [held] + [Next(held, more[1])];
      if |more| == 2 {
        assert steps + more == steps + [Fetch] + [UpdateFails];
      } else {
        var handled := Next(held, Handle);
        OneMoreStep(longer, steps + [Fetch] + [Handle], more[2]);
        longer := longer + [Next(handled, more[2])];
        assert steps + more == steps + [Fetch] + [Handle] + [more[2]];
      }
    }
  }

  ghost predicate EndsAt(run: seq<State>, steps: seq<Step>, s: State) {
    IsAnyRun(run, steps) && run[|run| - 1] == s
  }

  lemma TurnGoesOn(run: seq<State>, steps: seq<Step>, s: State, t: Turn) returns (longer: seq<State>)
    requires EndsAt(run, steps, s) && s.phase.Waiting?
    ensures EndsAt(longer, steps + TurnSteps(s, t), AfterTurn(s, t)) && run <= longer
  {
    longer := TurnIsRun(run, steps, t);
  }

  /** Any number of turns, failing updates included, is a run; so every theorem about runs is about the loop. */
  lemma {:induction false} LoopIsRun(run: seq<State>, steps: seq<Step>, s: State, turns: seq<Turn>)
    returns (longer: seq<State>)
    requires EndsAt(run, steps, s) && s.phase.Waiting?
    ensures EndsAt(longer, steps + LoopSteps(s, turns), AfterTurns(s, turns)) && run <= longer
  {
    if turns == [] {
      longer := run;
      assert steps + [] == steps;
    } else {
      var init, last := turns[..|turns| - 1], turns[|turns| - 1];
      var before := LoopIsRun(run, steps, s, init);
      longer := TurnGoesOn(before, steps + LoopSteps(s, init), AfterTurns(s, init), last);
      Regroup(steps, LoopSteps(s, init), TurnSteps(AfterTurns(s, init), last));
    }
  }

  lemma Regroup(a: seq<Step>, b: seq<Step>, c: seq<Step>)
    ensures a + (b + c) == a + b + c
  {
  }

  /** So of what the loop has committed, exactly the messages whose update failed before a commit are lost. */
  lemma LoopLosesExactly(run: seq<State>, steps: seq<Step>, s: State, turns: seq<Turn>, o: nat)
    returns (longer: seq<State>)
    requires EndsAt(run, steps, s) && s.phase.Waiting?
    ensures var all := steps + LoopSteps(s, turns);
            && EndsAt(longer, all, AfterTurns(s, turns)) && run <= longer
            && (o < AfterTurns(s, turns).committed && !HandledBy(longer, all, |all|, o)
                <==> LostBy(longer, all, |all|, o))
  {
    longer := LoopIsRun(run, steps, s, turns);
    var all := steps + LoopSteps(s, turns);
    LostExactly(longer, all, |all|, o);
  }

  /** Without failing updates a turn keeps the themes exact. */
  lemma TurnKeepsThemes(start: Users, s: State, t: Turn)
    requires ThemesExact(start, s) && s.phase.Waiting? && (t.Message? ==> !t.updateFails)
    ensures ThemesExact(start, AfterTurn(s, t))
  {
    if t.Message? && s.position < |s.log| {
      var held := Next(s, Fetch);
      StepKeepsThemes(start, s, Fetch);
      StepKeepsThemes(start, held, Handle);
      StepKeepsThemes(start, Next(held, Handle), Commit(t.recorded));
    }
  }

  /* ---- what the row of one user means after all this ---- */

  /** A user's events among the first messages, each on the day it was first handled. */
  function HistoryOf(uuid: int, log: seq<Message>, days: seq<int>): seq<Update>
    requires |days| <= |log|
  {
    if days == [] then []
    else
      var n := |days| - 1;
      HistoryOf(uuid, log, days[..n])
      + match log[n]
        case Malformed => []
        case Event(u, theme, counter) => if u == uuid then [Update(days[n], theme, counter)] else []
  }

  /** The fold gives every new user the row of their own history. */
  lemma {:induction false} FoldIsHistory(users: Users, log: seq<Message>, days: seq<int>, uuid: int)
    requires |days| <= |log| && uuid in users && users[uuid] == INITIAL
    ensures uuid in Fold(users, log, days) && Fold(users, log, days)[uuid] == After(HistoryOf(uuid, log, days))
  {
    FoldKeys(users, log, days);
    if days != [] {
      var n := |days| - 1;
      FoldIsHistory(users, log, days[..n], uuid);
      var before := HistoryOf(uuid, log, days[..n]);
      if log[n].Event? && log[n].uuid == uuid {
        var last := Update(days[n], log[n].theme, log[n].counter);
        assert (before + [last])[..|before|] == before;
      } else {
        assert before + [] == before;
      }
    }
  }

  /** In every run with crashes and redeliveries, a user who started new shows the extremes of the events in the log. */
  lemma ThemesMeanLog(run: seq<State>, steps: seq<Step>, i: nat, uuid: int)
    requires IsRun(run, steps) && i < |run| && uuid in run[0].users && run[0].users[uuid] == INITIAL
    ensures Positioned(run[i]) && uuid in run[i].users
    ensures var h := HistoryOf(uuid, run[i].log, run[i].firstDays);
            BestIs(h, run[i].users[uuid]) && WorstIs(h, run[i].users[uuid])
  {
    var s := run[i];
    ThemesExactlyOnce(run, steps, i);
    FoldIsHistory(run[0].users, s.log, s.firstDays, uuid);
    ThemeExtremes(HistoryOf(uuid, s.log, s.firstDays));
  }

  /** First handlings happen on days that never go back. */
  ghost predicate DaysInOrder(s: State) {
    && s.today >= 1
    && (forall i | 0 <= i < |s.firstDays| :: 1 <= s.firstDays[i] <= s.today)
    && forall i, j | 0 <= i < j < |s.firstDays| :: s.firstDays[i] <= s.firstDays[j]
  }

  lemma {:induction false} RunKeepsDays(run: seq<State>, steps: seq<Step>, i: nat)
    requires IsRun(run, steps) && i < |run| && run[0].today >= 1
    ensures DaysInOrder(run[i])
  {
    if i > 0 {
      RunKeepsDays(run, steps, i - 1);
      assert run[i - 1 + 1] == Next(run[i - 1], steps[i - 1]);
    }
  }

  lemma {:induction false} HistoryClocked(uuid: int, log: seq<Message>, days: seq<int>)
    requires |days| <= |log|
    requires forall i | 0 <= i < |days| :: days[i] >= 1
    requires forall i, j | 0 <= i < j < |days| :: days[i] <= days[j]
    ensures Clocked(HistoryOf(uuid, log, days))
    ensures days != [] ==> forall u | u in HistoryOf(uuid, log, days) :: u.day <= days[|days| - 1]
  {
    if days != [] {
      HistoryClocked(uuid, log, days[..|days| - 1]);
    }
  }

  /** And when redeliveries come on the row's day, the streak is the longest run of days with first handlings. */
  lemma StreakMeansLog(run: seq<State>, steps: seq<Step>, i: nat, uuid: int, k: int)
    requires IsRun(run, steps) && i < |run| && run[0].today >= 1
    requires uuid in run[0].users && run[0].users[uuid] == INITIAL
    requires forall j | 0 <= j < |steps| :: SameDayRedelivery(run[j], steps[j])
    ensures Positioned(run[i]) && uuid in run[i].users
    ensures var h := HistoryOf(uuid, run[i].log, run[i].firstDays);
            if h == [] then run[i].users[uuid] == INITIAL
            else RunOf(h, h[|h| - 1].day, k) <==> k <= run[i].users[uuid].streak
  {
    var s := run[i];
    RowsExactlyOnce(run, steps, i);
    RunKeepsDays(run, steps, i);
    FoldIsHistory(run[0].users, s.log, s.firstDays, uuid);
    HistoryClocked(uuid, s.log, s.firstDays);
    var h := HistoryOf(uuid, s.log, s.firstDays);
    if h != [] {
      StreakClosedForm(h, k);
    }
  }
}
