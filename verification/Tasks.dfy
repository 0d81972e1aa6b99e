/** The tasks table of learn-service and its bulk insert: read the highest position, number the rows, insert them. */
module Tasks {

  datatype Task = Task(text: string, level: string, theme: string, answer: string)

  /** The primary key. */
  datatype Slot = Slot(level: string, position: int)

  type Table = map<Slot, Task>

  /* ---- SELECT COALESCE(MAX(position), 0) ... WHERE level = ? ---- */

  function OfLevel(rows: Table, level: string): set<Slot> {
    set slot | slot in rows && slot.level == level
  }

  predicate IsTop(slots: set<Slot>, top: Slot) {
    top in slots && forall slot | slot in slots :: slot.position <= top.position
  }

  lemma {:induction false} TopExists(slots: set<Slot>)
    requires slots != {}
    ensures exists top :: IsTop(slots, top)
  {
    var x :| x in slots;
    var rest := slots - {x};
    if rest == {} {
      assert slots == {x};
      assert IsTop(slots, x);
    } else {
      TopExists(rest);
      var m :| IsTop(rest, m);
      assert forall y | y in slots :: y == x || y in rest;
      assert IsTop(slots, if m.position < x.position then x else m);
    }
  }

  function MaxPosition(rows: Table, level: string): int {
    var slots := OfLevel(rows, level);
    if slots == {} then 0 else
      TopExists(slots);
      var top :| IsTop(slots, top);
      top.position
  }

  lemma MaxPositionFacts(rows: Table, level: string)
    ensures var m := MaxPosition(rows, level);
            && (forall p :: Slot(level, p) in rows ==> p <= m)
            && (Slot(level, m) in rows || (m == 0 && forall p :: Slot(level, p) !in rows))
  {
    var slots := OfLevel(rows, level);
    forall p | Slot(level, p) in rows
      ensures Slot(level, p) in slots
    {
    }
    if slots != {} {
      TopExists(slots);
      var top :| IsTop(slots, top) && top.position == MaxPosition(rows, level);
      assert top == Slot(level, top.position);
    }
  }

  lemma MaxPositionIs(rows: Table, level: string, m: int)
    requires forall p :: Slot(level, p) in rows ==> p <= m
    requires Slot(level, m) in rows || (m == 0 && forall p :: Slot(level, p) !in rows)
    ensures MaxPosition(rows, level) == m
  {
    MaxPositionFacts(rows, level);
  }

  /* ---- the insert statement ---- */

  type Rows = seq<(Slot, Task)>

  /** The rows of a batch: numbered on from the highest position of the first task's level, each under its own level. */
  function NumberedRows(tasks: seq<Task>, max: int): (values: Rows)
    ensures |values| == |tasks|
    ensures forall i | 0 <= i < |tasks| :: values[i] == (Slot(tasks[i].level, max + 1 + i), tasks[i])
  {
    seq(|tasks|, i requires 0 <= i < |tasks| => (Slot(tasks[i].level, max + 1 + i), tasks[i]))
  }

  predicate DistinctSlots(values: Rows) {
    forall i, j | 0 <= i < j < |values| :: values[i].0 != values[j].0
  }

  /** No row of the statement hits the primary key: neither a row of the table nor another row of the statement. */
  predicate Insertable(rows: Table, values: Rows) {
    DistinctSlots(values) && forall i | 0 <= i < |values| :: values[i].0 !in rows
  }

  predicate Ascending(values: Rows) {
    forall i, j | 0 <= i < j < |values| :: values[i].0.position < values[j].0.position
  }

  function Put(rows: Table, values: Rows): Table {
    if values == [] then rows
    else
      var last := values[|values| - 1];
      Put(rows, values[..|values| - 1])[last.0 := last.1]
  }

  lemma {:induction false} PutElsewhere(rows: Table, values: Rows, slot: Slot)
    requires forall i | 0 <= i < |values| :: values[i].0 != slot
    ensures slot in Put(rows, values) <==> slot in rows
    ensures slot in rows ==> Put(rows, values)[slot] == rows[slot]
  {
    if values != [] {
      PutElsewhere(rows, values[..|values| - 1], slot);
    }
  }

  lemma {:induction false} PutAt(rows: Table, values: Rows, i: nat)
    requires i < |values| && Ascending(values)
    ensures values[i].0 in Put(rows, values) && Put(rows, values)[values[i].0] == values[i].1
  {
    var n := |values| - 1;
    if i < n {
      assert values[..n][i] == values[i];
      PutAt(rows, values[..n], i);
    }
  }

  /** A successful statement adds exactly its rows and changes no other. */
  lemma PutContents(rows: Table, values: Rows)
    requires Ascending(values) && Insertable(rows, values)
    ensures forall slot | slot in rows :: slot in Put(rows, values) && Put(rows, values)[slot] == rows[slot]
    ensures forall i | 0 <= i < |values| ::
              values[i].0 in Put(rows, values) && Put(rows, values)[values[i].0] == values[i].1
    ensures forall slot | slot in Put(rows, values) && slot !in rows ::
              exists i | 0 <= i < |values| :: values[i].0 == slot
  {
    forall slot | slot in rows
      ensures slot in Put(rows, values) && Put(rows, values)[slot] == rows[slot]
    {
      PutElsewhere(rows, values, slot);
    }
    forall i | 0 <= i < |values|
      ensures values[i].0 in Put(rows, values) && Put(rows, values)[values[i].0] == values[i].1
    {
      PutAt(rows, values, i);
    }
    forall slot | slot in Put(rows, values) && slot !in rows
      ensures exists i | 0 <= i < |values| :: values[i].0 == slot
    {
      if forall i | 0 <= i < |values| :: values[i].0 != slot {
        PutElsewhere(rows, values, slot);
      }
    }
  }

  /** The table after an undisturbed bulk insert. */
  function BulkInserted(rows: Table, tasks: seq<Task>): Table
    requires tasks != []
  {
    var values := NumberedRows(tasks, MaxPosition(rows, tasks[0].level));
    if Insertable(rows, values) then Put(rows, values) else rows
  }

  class TaskDB {
    var rows: Table

    method SelectMaxPosition(level: string) returns (m: int)
      ensures m == MaxPosition(rows, level)
      ensures forall p :: Slot(level, p) in rows ==> p <= m
      ensures Slot(level, m) in rows || (m == 0 && forall p :: Slot(level, p) !in rows)
    {
      MaxPositionFacts(rows, level);
      m := MaxPosition(rows, level);
    }

    /** One statement: all the rows or none of them. */
    method Insert(values: Rows) returns (ok: bool)
      modifies this
      ensures ok <==> Insertable(old(rows), values)
      ensures rows == if ok then Put(old(rows), values) else old(rows)
    {
      ok := Insertable(rows, values);
      if ok {
        rows := Put(rows, values);
      }
    }

    /** The whole call when nobody interferes; an empty batch is an error. */
    method NewTaskBulk(tasks: seq<Task>) returns (inserted: int, ok: bool)
      modifies this
      ensures tasks == [] ==> !ok && rows == old(rows)
      ensures tasks != [] ==>
                var values := NumberedRows(tasks, MaxPosition(old(rows), tasks[0].level));
                ok == Insertable(old(rows), values) && rows == BulkInserted(old(rows), tasks)
      ensures ok ==> inserted == |tasks|
    {
      if |tasks| == 0 {
        return 0, false;
      }
      var max := SelectMaxPosition(tasks[0].level);
      var curMaxPos := max;
      var values: Rows := [];
      for i := 0 to |tasks|
        invariant curMaxPos == max + i
        invariant values == NumberedRows(tasks, max)[..i]
      {
        curMaxPos := curMaxPos + 1;
        values := values + [(Slot(tasks[i].level, curMaxPos), tasks[i])];
      }
      assert NumberedRows(tasks, max)[..|tasks|] == NumberedRows(tasks, max);
      ok := Insert(values);
      inserted := if ok then |tasks| else 0;
    }

    /** Removing a row needs both halves of its key. */
    method DelTask(level: string, position: int)
      modifies this
      ensures rows == old(rows) - {Slot(level, position)}
    {
      rows := rows - {Slot(level, position)};
    }
  }

  /* ---- density ---- */

  /** Every level is numbered exactly 1..m. */
  ghost predicate Dense(rows: Table) {
    forall level, p :: Slot(level, p) in rows <==> 1 <= p <= MaxPosition(rows, level)
  }

  lemma DenseMax(rows: Table, level: string)
    requires Dense(rows)
    ensures MaxPosition(rows, level) >= 0
  {
    MaxPositionFacts(rows, level);
  }

  /** A free slot lies above the maximum of its level and becomes the new maximum; other levels keep theirs. */
  lemma NewMaximum(rows: Table, slot: Slot, task: Task, level: string)
    requires Dense(rows) && slot !in rows && slot.position >= 1
    ensures slot.position > MaxPosition(rows, slot.level)
    ensures MaxPosition(rows[slot := task], level)
            == if level == slot.level then slot.position else MaxPosition(rows, level)
  {
    assert slot == Slot(slot.level, slot.position);
    MaxPositionFacts(rows, level);
    MaxPositionIs(rows[slot := task], level, if level == slot.level then slot.position else MaxPosition(rows, level));
  }

  /** One more row keeps a dense table dense exactly when it takes the next number of its level. */
  lemma OneMore(rows: Table, slot: Slot, task: Task)
    requires Dense(rows) && slot !in rows && slot.position >= 1
    ensures Dense(rows[slot := task]) <==> slot.position == MaxPosition(rows, slot.level) + 1
    ensures slot.position > MaxPosition(rows, slot.level)
    ensures slot.position == MaxPosition(rows, slot.level) + 1 ==>
              forall level :: MaxPosition(rows[slot := task], level)
                              == MaxPosition(rows, level) + if level == slot.level then 1 else 0
  {
    var rows' := rows[slot := task];
    forall level
      ensures MaxPosition(rows', level) == if level == slot.level then slot.position else MaxPosition(rows, level)
    {
      NewMaximum(rows, slot, task, level);
    }
    NewMaximum(rows, slot, task, slot.level);
    assert slot == Slot(slot.level, slot.position);
    if slot.position > MaxPosition(rows, slot.level) + 1 {
      DenseMax(rows, slot.level);
      assert Slot(slot.level, MaxPosition(rows, slot.level) + 1) !in rows';
    }
  }

  /** The number of rows of a level among the first i. */
  function CountLevel(values: Rows, i: nat, level: string): nat
    requires i <= |values|
  {
    if i == 0 then 0 else CountLevel(values, i - 1, level) + if values[i - 1].0.level == level then 1 else 0
  }

  /** Row i has the next free number of its own level; a caller can check this from the maxima and the batch. */
  predicate InPlaceAt(rows: Table, values: Rows, i: nat)
    requires i < |values|
  {
    var level := values[i].0.level;
    values[i].0.position == MaxPosition(rows, level) + CountLevel(values, i, level) + 1
  }

  predicate InPlace(rows: Table, values: Rows) {
    forall i | 0 <= i < |values| :: InPlaceAt(rows, values, i)
  }

  /** In-place rows extend the table one by one. */
  lemma {:induction false} InPlaceGrows(rows: Table, values: Rows, n: nat)
    requires n <= |values| && Dense(rows) && Ascending(values) && Insertable(rows, values)
    requires forall i | 0 <= i < n :: InPlaceAt(rows, values, i)
    ensures Dense(Put(rows, values[..n]))
    ensures forall level :: MaxPosition(Put(rows, values[..n]), level)
                            == MaxPosition(rows, level) + CountLevel(values, n, level)
  {
    if n == 0 {
      assert values[..0] == [];
    } else {
      var before := values[..n - 1];
      InPlaceGrows(rows, values, n - 1);
      NotYetThere(rows, values, n - 1);
      PutNext(rows, values, n - 1);
      assert InPlaceAt(rows, values, n - 1);
      DenseMax(rows, values[n - 1].0.level);
      OneMore(Put(rows, before), values[n - 1].0, values[n - 1].1);
    }
  }

  lemma PutNext(rows: Table, values: Rows, i: nat)
    requires i < |values|
    ensures Put(rows, values[..i + 1]) == Put(rows, values[..i])[values[i].0 := values[i].1]
  {
    assert values[..i + 1][..i] == values[..i];
  }

  lemma NotYetThere(rows: Table, values: Rows, i: nat)
    requires i < |values| && Ascending(values) && Insertable(rows, values)
    ensures values[i].0 !in Put(rows, values[..i])
  {
    PutContents(rows, values[..i]);
  }

  /** A statement that goes in leaves every level 1..m exactly when its rows were in place, whatever their levels. */
  lemma BulkKeepsDense(rows: Table, values: Rows)
    requires Dense(rows) && Ascending(values) && Insertable(rows, values)
    requires values != [] ==> values[0].0.position >= 1
    ensures Dense(Put(rows, values)) <==> InPlace(rows, values)
  {
    assert values[..|values|] == values;
    if InPlace(rows, values) {
      InPlaceGrows(rows, values, |values|);
    } else {
      var n := FirstMisplaced(rows, values, 0);
      LeavesGap(rows, values, n);
    }
  }

  /** Task i of the batch would get the next free number of its own level: a condition on the table and the batch. */
  predicate InStepAt(rows: Table, tasks: seq<Task>, i: nat)
    requires i < |tasks|
  {
    MaxPosition(rows, tasks[0].level) + i == MaxPosition(rows, tasks[i].level) + LevelBefore(tasks, i, tasks[i].level)
  }

  predicate InStep(rows: Table, tasks: seq<Task>) {
    forall i | 0 <= i < |tasks| :: InStepAt(rows, tasks, i)
  }

  /** The number of tasks of a level among the first i. */
  function LevelBefore(tasks: seq<Task>, i: nat, level: string): nat
    requires i <= |tasks|
  {
    if i == 0 then 0 else LevelBefore(tasks, i - 1, level) + if tasks[i - 1].level == level then 1 else 0
  }

  lemma {:induction false} CountIsLevelBefore(tasks: seq<Task>, max: int, i: nat, level: string)
    requires i <= |tasks|
    ensures CountLevel(NumberedRows(tasks, max), i, level) == LevelBefore(tasks, i, level)
  {
    if i > 0 {
      CountIsLevelBefore(tasks, max, i - 1, level);
    }
  }

  lemma InStepIsInPlace(rows: Table, tasks: seq<Task>)
    requires tasks != []
    ensures InStep(rows, tasks) <==> InPlace(rows, NumberedRows(tasks, MaxPosition(rows, tasks[0].level)))
  {
    var values := NumberedRows(tasks, MaxPosition(rows, tasks[0].level));
    forall i | 0 <= i < |tasks|
      ensures InStepAt(rows, tasks, i) <==> InPlaceAt(rows, values, i)
    {
      CountIsLevelBefore(tasks, MaxPosition(rows, tasks[0].level), i, tasks[i].level);
    }
  }

  /** No number given to a task is already taken in the task's own level. */
  predicate AboveMaxima(rows: Table, tasks: seq<Task>) {
    forall i | 0 <= i < |tasks| :: MaxPosition(rows, tasks[i].level) <= MaxPosition(rows, tasks[0].level) + i
  }

  lemma InsertableAbove(rows: Table, tasks: seq<Task>)
    requires Dense(rows) && tasks != []
    ensures Insertable(rows, NumberedRows(tasks, MaxPosition(rows, tasks[0].level))) <==> AboveMaxima(rows, tasks)
  {
    var max := MaxPosition(rows, tasks[0].level);
    var values := NumberedRows(tasks, max);
    DenseMax(rows, tasks[0].level);
    forall i | 0 <= i < |tasks|
      ensures values[i].0 !in rows <==> MaxPosition(rows, tasks[i].level) <= max + i
    {
      assert values[i].0 == Slot(tasks[i].level, max + 1 + i);
    }
  }

  /** A bulk insert keeps every level 1..m exactly when it is refused or in step; the maxima and the batch decide. */
  lemma CallKeepsDense(rows: Table, tasks: seq<Task>)
    requires Dense(rows) && tasks != []
    ensures Dense(BulkInserted(rows, tasks)) <==> !AboveMaxima(rows, tasks) || InStep(rows, tasks)
  {
    InsertableAbove(rows, tasks);
    InStepIsInPlace(rows, tasks);
    if AboveMaxima(rows, tasks) {
      DenseMax(rows, tasks[0].level);
      BulkKeepsDense(rows, NumberedRows(tasks, MaxPosition(rows, tasks[0].level)));
    }
  }

  /** Two tasks of two levels into an empty table: the second level starts at 2. */
  lemma MixedLevelsLeaveGap(a: Task, b: Task)
    requires a.level != b.level
    ensures !Dense(BulkInserted(map[], [a, b]))
    ensures Slot(b.level, 2) in BulkInserted(map[], [a, b]) && Slot(b.level, 1) !in BulkInserted(map[], [a, b])
  {
    var rows: Table := map[];
    MaxPositionFacts(rows, a.level);
    MaxPositionFacts(rows, b.level);
    var values := NumberedRows([a, b], 0);
    PutAt(rows, values, 1);
    PutElsewhere(rows, values, Slot(b.level, 1));
    GapNotDense(Put(rows, values), Slot(b.level, 2), Slot(b.level, 1));
  }

  lemma FirstMisplaced(rows: Table, values: Rows, from: nat) returns (n: nat)
    requires from <= |values| && !InPlace(rows, values)
    requires forall i | 0 <= i < from :: InPlaceAt(rows, values, i)
    ensures n < |values| && !InPlaceAt(rows, values, n) && forall i | 0 <= i < n :: InPlaceAt(rows, values, i)
    decreases |values| - from
  {
    if from < |values| && InPlaceAt(rows, values, from) {
      n := FirstMisplaced(rows, values, from + 1);
    } else {
      n := from;
    }
  }

  /** The first row out of place jumps over a number that nothing after it fills. */
  lemma LeavesGap(rows: Table, values: Rows, n: nat)
    requires Dense(rows) && Ascending(values) && Insertable(rows, values)
    requires values != [] ==> values[0].0.position >= 1
    requires n < |values| && !InPlaceAt(rows, values, n) && forall i | 0 <= i < n :: InPlaceAt(rows, values, i)
    ensures !Dense(Put(rows, values))
  {
    var before, slot := Put(rows, values[..n]), values[n].0;
    InPlaceGrows(rows, values, n);
    NotYetThere(rows, values, n);
    OneMore(before, slot, values[n].1);
    DenseMax(before, slot.level);
    var free := Slot(slot.level, MaxPosition(before, slot.level) + 1);
    assert free !in before && free.position < slot.position;
    forall i | 0 <= i < |values|
      ensures values[i].0 != free
    {
      if i < n {
        PutAt(rows, values[..n], i);
      }
    }
    PutElsewhere(rows, values[..n], free);
    PutElsewhere(rows, values, free);
    PutAt(rows, values, n);
    GapNotDense(Put(rows, values), slot, free);
  }

  lemma GapNotDense(rows: Table, taken: Slot, free: Slot)
    requires taken in rows && free !in rows && taken.level == free.level && 1 <= free.position < taken.position
    ensures !Dense(rows)
  {
    assert taken == Slot(taken.level, taken.position) && free == Slot(taken.level, free.position);
  }

  /* ---- deletion ---- */

  lemma DeletingLast(rows: Table, level: string, l: string)
    requires Dense(rows) && Slot(level, MaxPosition(rows, level)) in rows
    ensures MaxPosition(rows - {Slot(level, MaxPosition(rows, level))}, l)
            == MaxPosition(rows, l) - if l == level then 1 else 0
  {
    var m := MaxPosition(rows, l);
    MaxPositionIs(rows - {Slot(level, MaxPosition(rows, level))}, l, if l == level then m - 1 else m);
  }

  /** Deleting keeps every level 1..m exactly when there was no such row or it was the last of its level. */
  lemma DeletionKeepsDense(rows: Table, level: string, position: int)
    requires Dense(rows)
    ensures Dense(rows - {Slot(level, position)})
            <==> Slot(level, position) !in rows || position == MaxPosition(rows, level)
  {
    var slot := Slot(level, position);
    if slot !in rows {
      assert rows - {slot} == rows;
    } else if position == MaxPosition(rows, level) {
      forall l
        ensures MaxPosition(rows - {slot}, l) == MaxPosition(rows, l) - if l == level then 1 else 0
      {
        DeletingLast(rows, level, l);
      }
    } else {
      GapNotDense(rows - {slot}, Slot(level, position + 1), slot);
    }
  }

  /* ---- single-level batches, with the reading and the inserting as separate steps ---- */

  predicate SingleLevel(tasks: seq<Task>) {
    tasks != [] && forall i | 0 <= i < |tasks| :: tasks[i].level == tasks[0].level
  }

  lemma {:induction false} CountSingle(tasks: seq<Task>, max: int, i: nat, level: string)
    requires i <= |tasks| && SingleLevel(tasks)
    ensures CountLevel(NumberedRows(tasks, max), i, level) == if level == tasks[0].level then i else 0
  {
    if i > 0 {
      CountSingle(tasks, max, i - 1, level);
    }
  }

  /** Against a dense table a single-level batch goes in exactly when the maximum it read is still current. */
  lemma StaleOrCurrent(rows: Table, tasks: seq<Task>, max: int)
    requires Dense(rows) && SingleLevel(tasks) && 0 <= max <= MaxPosition(rows, tasks[0].level)
    ensures Insertable(rows, NumberedRows(tasks, max)) <==> max == MaxPosition(rows, tasks[0].level)
  {
    assert NumberedRows(tasks, max)[0].0 == Slot(tasks[0].level, max + 1);
  }

  lemma SingleLevelInPlace(rows: Table, tasks: seq<Task>)
    requires SingleLevel(tasks)
    ensures InPlace(rows, NumberedRows(tasks, MaxPosition(rows, tasks[0].level)))
  {
    var max := MaxPosition(rows, tasks[0].level);
    forall i | 0 <= i < |tasks|
      ensures InPlaceAt(rows, NumberedRows(tasks, max), i)
    {
      CountSingle(tasks, max, i, tasks[0].level);
    }
  }

  /** The level runs on by the batch in order, each task under its own number; nothing else changes. */
  ghost predicate Appended(rows: Table, rows': Table, tasks: seq<Task>, max: int)
    requires tasks != []
  {
    var level := tasks[0].level;
    && max == MaxPosition(rows, level)
    && (forall l :: MaxPosition(rows', l) == MaxPosition(rows, l) + if l == level then |tasks| else 0)
    && (forall slot | slot in rows :: slot in rows' && rows'[slot] == rows[slot])
    && (forall slot: Slot | slot.level == level && max < slot.position <= max + |tasks| ::
          slot in rows' && rows'[slot] == tasks[slot.position - max - 1])
  }

  lemma CurrentMaxima(rows: Table, tasks: seq<Task>, max: int)
    requires Dense(rows) && SingleLevel(tasks) && max == MaxPosition(rows, tasks[0].level)
    ensures var rows' := Put(rows, NumberedRows(tasks, max));
            && Dense(rows')
            && forall l :: MaxPosition(rows', l) == MaxPosition(rows, l) + if l == tasks[0].level then |tasks| else 0
  {
    var values := NumberedRows(tasks, max);
    DenseMax(rows, tasks[0].level);
    StaleOrCurrent(rows, tasks, max);
    SingleLevelInPlace(rows, tasks);
    InPlaceGrows(rows, values, |values|);
    assert values[..|values|] == values;
    forall l
      ensures CountLevel(values, |values|, l) == if l == tasks[0].level then |tasks| else 0
    {
      CountSingle(tasks, max, |values|, l);
    }
  }

  lemma CurrentInsertable(rows: Table, tasks: seq<Task>, max: int)
    requires Dense(rows) && SingleLevel(tasks) && max == MaxPosition(rows, tasks[0].level)
    ensures Insertable(rows, NumberedRows(tasks, max))
  {
    DenseMax(rows, tasks[0].level);
    StaleOrCurrent(rows, tasks, max);
  }

  lemma NumberedAt(rows: Table, tasks: seq<Task>, max: int, slot: Slot)
    requires SingleLevel(tasks) && slot.level == tasks[0].level && max < slot.position <= max + |tasks|
    ensures var rows' := Put(rows, NumberedRows(tasks, max));
            slot in rows' && rows'[slot] == tasks[slot.position - max - 1]
  {
    PutAt(rows, NumberedRows(tasks, max), slot.position - max - 1);
  }

  lemma CurrentExtends(rows: Table, tasks: seq<Task>, max: int, rows': Table)
    requires Dense(rows) && SingleLevel(tasks) && max == MaxPosition(rows, tasks[0].level)
    requires rows' == Put(rows, NumberedRows(tasks, max))
    ensures Dense(rows') && Appended(rows, rows', tasks, max)
  {
    CurrentMaxima(rows, tasks, max);
    CurrentInsertable(rows, tasks, max);
    forall slot | slot in rows
      ensures slot in rows' && rows'[slot] == rows[slot]
    {
      PutElsewhere(rows, NumberedRows(tasks, max), slot);
    }
    forall slot: Slot | slot.level == tasks[0].level && max < slot.position <= max + |tasks|
      ensures slot in rows' && rows'[slot] == tasks[slot.position - max - 1]
    {
      NumberedAt(rows, tasks, max, slot);
    }
  }

  /* ---- every interleaving ---- */

  /** A call that has read its maximum and not yet inserted. */
  datatype Pending = Pending(tasks: seq<Task>, max: int)

  datatype Protocol = Protocol(rows: Table, pending: map<int, Pending>)

  datatype Step =
    | Read(call: int, tasks: seq<Task>)   // SELECT the maximum; the call then holds it
    | Write(call: int)                    // INSERT, all or nothing
    | GiveUp(call: int)                   // the call ends before its insert

  predicate Enabled(p: Protocol, step: Step) {
    match step
    case Read(call, tasks) => call !in p.pending && SingleLevel(tasks)
    case Write(call) => call in p.pending
    case GiveUp(call) => call in p.pending
  }

  function Next(p: Protocol, step: Step): Protocol
    requires Enabled(p, step)
  {
    match step
    case Read(call, tasks) =>
      p.(pending := p.pending[call := Pending(tasks, MaxPosition(p.rows, tasks[0].level))])
    case Write(call) =>
      var values := NumberedRows(p.pending[call].tasks, p.pending[call].max);
      Protocol(if Insertable(p.rows, values) then Put(p.rows, values) else p.rows, p.pending - {call})
    case GiveUp(call) =>
      p.(pending := p.pending - {call})
  }

  /** What a call read cannot lie above the present maximum. */
  ghost predicate ReadBelow(rows: Table, c: Pending) {
    SingleLevel(c.tasks) && 0 <= c.max <= MaxPosition(rows, c.tasks[0].level)
  }

  ghost predicate Sound(p: Protocol) {
    Dense(p.rows) && forall call | call in p.pending :: ReadBelow(p.rows, p.pending[call])
  }

  /** A write whose maximum went stale fails whole; any other appends its batch. */
  lemma WriteSound(p: Protocol, call: int)
    requires Sound(p) && call in p.pending
    ensures var c, after := p.pending[call], Next(p, Write(call)).rows;
            if c.max < MaxPosition(p.rows, c.tasks[0].level) then after == p.rows
            else Dense(after) && Appended(p.rows, after, c.tasks, c.max)
  {
    var c := p.pending[call];
    StaleOrCurrent(p.rows, c.tasks, c.max);
    if c.max == MaxPosition(p.rows, c.tasks[0].level) {
      CurrentExtends(p.rows, c.tasks, c.max, Next(p, Write(call)).rows);
    }
  }

  lemma WriteKeepsMaxima(p: Protocol, call: int)
    requires Sound(p) && call in p.pending
    ensures var after := Next(p, Write(call)).rows;
            Dense(after) && forall l :: MaxPosition(p.rows, l) <= MaxPosition(after, l)
  {
    WriteSound(p, call);
  }

  lemma ReadStaysBelow(rows: Table, rows': Table, c: Pending)
    requires ReadBelow(rows, c) && forall l :: MaxPosition(rows, l) <= MaxPosition(rows', l)
    ensures ReadBelow(rows', c)
  {
  }

  lemma WriteKeepsSound(p: Protocol, call: int)
    requires Sound(p) && call in p.pending
    ensures Sound(Next(p, Write(call)))
  {
    var p' := Next(p, Write(call));
    WriteKeepsMaxima(p, call);
    forall c | c in p'.pending
      ensures ReadBelow(p'.rows, p'.pending[c])
    {
      ReadStaysBelow(p.rows, p'.rows, p.pending[c]);
    }
  }

  lemma StepKeepsSound(p: Protocol, step: Step)
    requires Sound(p) && Enabled(p, step)
    ensures Sound(Next(p, step))
  {
    match step {
      case Read(call, tasks) => DenseMax(p.rows, tasks[0].level);
      case Write(call) => WriteKeepsSound(p, call);
      case GiveUp(call) =>
    }
  }

  ghost predicate IsRun(run: seq<Protocol>, steps: seq<Step>) {
    && |run| == |steps| + 1
    && Dense(run[0].rows) && run[0].pending == map[]
    && forall i | 0 <= i < |steps| :: Enabled(run[i], steps[i]) && run[i + 1] == Next(run[i], steps[i])
  }

  /** In every interleaving of concurrent bulk inserts, every level is numbered exactly 1..m at all times. */
  lemma {:induction false} NumberingHolds(run: seq<Protocol>, steps: seq<Step>, i: nat)
    requires IsRun(run, steps) && i < |run|
    ensures Sound(run[i])
  {
    if i > 0 {
      NumberingHolds(run, steps, i - 1);
      assert Enabled(run[i - 1], steps[i - 1]) && run[i - 1 + 1] == Next(run[i - 1], steps[i - 1]);
      StepKeepsSound(run[i - 1], steps[i - 1]);
    }
  }

  lemma WriteOutcome(run: seq<Protocol>, steps: seq<Step>, i: nat)
    requires IsRun(run, steps) && i < |steps| && steps[i].Write?
    ensures steps[i].call in run[i].pending && SingleLevel(run[i].pending[steps[i].call].tasks)
    ensures var c, before, after := run[i].pending[steps[i].call], run[i].rows, run[i + 1].rows;
            if c.max < MaxPosition(before, c.tasks[0].level) then after == before
            else Appended(before, after, c.tasks, c.max)
  {
    NumberingHolds(run, steps, i);
    assert Enabled(run[i], steps[i]) && run[i + 1] == Next(run[i], steps[i]);
    WriteSound(run[i], steps[i].call);
  }
}
