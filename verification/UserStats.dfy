/** The statistics columns of a user, the one UPDATE that changes them, and what they mean after any history. */
module UserStats {

  datatype Stats = Stats(
    streak: int,
    lastDoneDay: int,
    bestTheme: string,
    bestCounter: int,
    worstTheme: string,
    worstCounter: int)

  /** The column defaults of a new user. */
  const INITIAL := Stats(0, 0, "", 0, "", 0)

  /** The statement reads the old row throughout: every CASE sees the values before the update. */
  function Updated(r: Stats, day: int, theme: string, counter: int): Stats {
    Stats(
      if r.lastDoneDay == day then r.streak else if r.lastDoneDay == day - 1 then r.streak + 1 else 1,
      day,
      if counter > r.bestCounter then theme else r.bestTheme,
      if counter > r.bestCounter then counter else r.bestCounter,
      if counter < r.worstCounter then theme else r.worstTheme,
      if counter < r.worstCounter then counter else r.worstCounter)
  }

  type Users = map<int, Stats>

  function UpdatedUsers(users: Users, uuid: int, day: int, theme: string, counter: int): Users {
    if uuid in users then users[uuid := Updated(users[uuid], day, theme, counter)] else users
  }

  class UsersDB {
    var users: Users

    /** An unknown uuid matches no row, which is not an error. */
    method UpdateStreak(uuid: int, currentDay: int, theme: string, counter: int)
      modifies this
      ensures users == UpdatedUsers(old(users), uuid, currentDay, theme, counter)
    {
      if uuid !in users {
        return;
      }
      var r := users[uuid];
      var streak := 1;
      if r.lastDoneDay == currentDay {
        streak := r.streak;
      } else if r.lastDoneDay == currentDay - 1 {
        streak := r.streak + 1;
      }
      var bestTheme, bestCounter := r.bestTheme, r.bestCounter;
      if counter > r.bestCounter {
        bestTheme, bestCounter := theme, counter;
      }
      var worstTheme, worstCounter := r.worstTheme, r.worstCounter;
      if counter < r.worstCounter {
        worstTheme, worstCounter := theme, counter;
      }
      users := users[uuid := Stats(streak, currentDay, bestTheme, bestCounter, worstTheme, worstCounter)];
    }
  }

  /** The day filter of the notification query. */
  predicate NeedsReminder(r: Stats, day: int) {
    r.lastDoneDay < day
  }

  /* ---- histories ---- */

  datatype Update = Update(day: int, theme: string, counter: int)

  function After(h: seq<Update>): Stats {
    if h == [] then INITIAL
    else
      var last := h[|h| - 1];
      Updated(After(h[..|h| - 1]), last.day, last.theme, last.counter)
  }

  /** Days count from 1 and the clock never runs backwards. */
  predicate Clocked(h: seq<Update>) {
    && (forall i | 0 <= i < |h| :: h[i].day >= 1)
    && (forall i, j | 0 <= i < j < |h| :: h[i].day <= h[j].day)
  }

  predicate Answered(h: seq<Update>, day: int) {
    exists i | 0 <= i < |h| :: h[i].day == day
  }

  /** The k days up to and including `day` were all answered. */
  ghost predicate RunOf(h: seq<Update>, day: int, k: int) {
    forall d | day - k < d <= day :: Answered(h, d)
  }

  lemma AnsweredInit(h: seq<Update>, day: int)
    requires h != []
    ensures Answered(h, day) <==> Answered(h[..|h| - 1], day) || h[|h| - 1].day == day
  {
    var init := h[..|h| - 1];
    if Answered(init, day) {
      var i :| 0 <= i < |init| && init[i].day == day;
      assert h[i].day == day;
    }
    if Answered(h, day) && h[|h| - 1].day != day {
      var i :| 0 <= i < |h| && h[i].day == day;
      assert init[i].day == day;
    }
  }

  /** The streak is the run of answered days ending at the latest one, and the day before that run was not answered. */
  lemma {:induction false} StreakRun(h: seq<Update>)
    requires h != [] && Clocked(h)
    ensures var r, day := After(h), h[|h| - 1].day;
            && r.lastDoneDay == day && r.streak >= 1
            && RunOf(h, day, r.streak) && !Answered(h, day - r.streak)
  {
    var init, day, r := h[..|h| - 1], h[|h| - 1].day, After(h);
    forall d
      ensures Answered(h, d) <==> Answered(init, d) || day == d
    {
      AnsweredInit(h, d);
    }
    if init == [] {
      assert After(init) == INITIAL && r.streak == 1;
    } else {
      StreakRun(init);
      var before := After(init);
      assert init[|init| - 1] == h[|init| - 1];
      if before.lastDoneDay < day - 1 {
        assert forall i | 0 <= i < |init| :: init[i].day <= init[|init| - 1].day;
        assert !Answered(init, day - 1);
      }
    }
  }

  /** So it is the longest such run. */
  lemma StreakClosedForm(h: seq<Update>, k: int)
    requires h != [] && Clocked(h)
    ensures RunOf(h, h[|h| - 1].day, k) <==> k <= After(h).streak
  {
    StreakRun(h);
    var day := h[|h| - 1].day;
    if k > After(h).streak {
      assert !Answered(h, day - After(h).streak);
    }
  }

  /** On any later or equal day, a user is reminded exactly when no answer was applied that day. */
  lemma ReminderMeansUnanswered(h: seq<Update>, day: int)
    requires Clocked(h) && day >= 1 && forall i | 0 <= i < |h| :: h[i].day <= day
    ensures NeedsReminder(After(h), day) <==> !Answered(h, day)
  {
    if h != [] {
      StreakRun(h);
      assert After(h).lastDoneDay == h[|h| - 1].day;
    }
  }

  /* ---- best and worst theme ---- */

  /** Update i is the earliest whose counter is c. */
  predicate FirstWith(h: seq<Update>, i: int, c: int) {
    0 <= i < |h| && h[i].counter == c && forall k | 0 <= k < i :: h[k].counter != c
  }

  ghost predicate BestIs(h: seq<Update>, r: Stats) {
    && r.bestCounter >= 0
    && (forall i | 0 <= i < |h| :: h[i].counter <= r.bestCounter)
    && if r.bestCounter == 0 then r.bestTheme == ""
       else exists i :: FirstWith(h, i, r.bestCounter) && h[i].theme == r.bestTheme
  }

  ghost predicate WorstIs(h: seq<Update>, r: Stats) {
    && r.worstCounter <= 0
    && (forall i | 0 <= i < |h| :: h[i].counter >= r.worstCounter)
    && if r.worstCounter == 0 then r.worstTheme == ""
       else exists i :: FirstWith(h, i, r.worstCounter) && h[i].theme == r.worstTheme
  }

  lemma FirstWithMore(h: seq<Update>, i: int, c: int)
    requires h != [] && FirstWith(h[..|h| - 1], i, c)
    ensures FirstWith(h, i, c)
  {
    var init := h[..|h| - 1];
    assert forall k | 0 <= k < |init| :: init[k] == h[k];
  }

  /** The extremes over 0 and all counters, with the theme of the earliest update that reached them. */
  lemma {:induction false} ThemeExtremes(h: seq<Update>)
    ensures BestIs(h, After(h)) && WorstIs(h, After(h))
  {
    if h != [] {
      var init, n := h[..|h| - 1], |h| - 1;
      ThemeExtremes(init);
      var before, r := After(init), After(h);
      assert forall k | 0 <= k < n :: init[k] == h[k];
      if h[n].counter > before.bestCounter {
        assert FirstWith(h, n, r.bestCounter);
      } else if r.bestCounter != 0 {
        var i :| FirstWith(init, i, before.bestCounter) && init[i].theme == before.bestTheme;
        FirstWithMore(h, i, r.bestCounter);
      }
      if h[n].counter < before.worstCounter {
        assert FirstWith(h, n, r.worstCounter);
      } else if r.worstCounter != 0 {
        var i :| FirstWith(init, i, before.worstCounter) && init[i].theme == before.worstTheme;
        FirstWithMore(h, i, r.worstCounter);
      }
    }
  }

  predicate Occurs(h: seq<Update>, c: int) {
    exists i | 0 <= i < |h| :: h[i].counter == c
  }

  /** Reordering or duplicating updates changes neither counter: they depend only on which counters occurred. */
  lemma CountersIgnoreOrder(a: seq<Update>, b: seq<Update>)
    requires forall c :: Occurs(a, c) <==> Occurs(b, c)
    ensures After(a).bestCounter == After(b).bestCounter && After(a).worstCounter == After(b).worstCounter
  {
    CountersBelow(a, b);
    CountersBelow(b, a);
  }

  lemma CountersBelow(a: seq<Update>, b: seq<Update>)
    requires forall c :: Occurs(a, c) ==> Occurs(b, c)
    ensures After(a).bestCounter <= After(b).bestCounter && After(a).worstCounter >= After(b).worstCounter
  {
    ThemeExtremes(a);
    ThemeExtremes(b);
    if After(a).bestCounter != 0 {
      assert Occurs(a, After(a).bestCounter);
    }
    if After(a).worstCounter != 0 {
      assert Occurs(a, After(a).worstCounter);
    }
  }
}
