/** The counter in front of each ai-service call, over every interleaving of entering, deciding and leaving. */
module WorkerGate {
  import opened Sets

  datatype Status = Entered | Admitted | Rejected

  /** A call in flight and the value its increment returned. */
  datatype Call = Call(uuid: int, ticket: int, status: Status)

  datatype Config = Config(limit: int, adminUuid: int)

  datatype Gate = Gate(count: int, calls: map<int, Call>)

  datatype Step =
    | Enter(id: int, uuid: int)   // atomic increment
    | Decide(id: int)             // compare the returned value with the limit
    | Leave(id: int)              // the deferred decrement, admitted or not

  predicate Enabled(g: Gate, step: Step) {
    match step
    case Enter(id, _) => id !in g.calls
    case Decide(id) => id in g.calls && g.calls[id].status.Entered?
    case Leave(id) => id in g.calls && !g.calls[id].status.Entered?
  }

  function Decision(cfg: Config, uuid: int, ticket: int): Status {
    if ticket > cfg.limit && uuid != cfg.adminUuid then Rejected else Admitted
  }

  function Next(cfg: Config, g: Gate, step: Step): Gate
    requires Enabled(g, step)
  {
    match step
    case Enter(id, uuid) => Gate(g.count + 1, g.calls[id := Call(uuid, g.count + 1, Entered)])
    case Decide(id) =>
      var c := g.calls[id];
      g.(calls := g.calls[id := c.(status := Decision(cfg, c.uuid, c.ticket))])
    case Leave(id) => Gate(g.count - 1, g.calls - {id})
  }

  /** The shared counter with the two atomic operations every handler performs on it. */
  class Workers {
    const cfg: Config
    var count: int
    ghost var calls: map<int, Call>

    constructor (cfg: Config)
      ensures this.cfg == cfg && Value() == Gate(0, map[])
    {
      this.cfg, count, calls := cfg, 0, map[];
    }

    ghost function Value(): Gate
      reads this
    {
      Gate(count, calls)
    }

    method AddOne(ghost id: int, uuid: int) returns (ticket: int)
      requires Enabled(Value(), Enter(id, uuid))
      modifies this
      ensures Value() == Next(cfg, old(Value()), Enter(id, uuid)) && ticket == calls[id].ticket
    {
      count := count + 1;
      ticket := count;
      calls := calls[id := Call(uuid, ticket, Entered)];
    }

    method Admit(ghost id: int, uuid: int, ticket: int) returns (ok: bool)
      requires Enabled(Value(), Decide(id)) && calls[id] == Call(uuid, ticket, Entered)
      modifies this`calls
      ensures Value() == Next(cfg, old(Value()), Decide(id)) && ok == calls[id].status.Admitted?
    {
      ok := !(ticket > cfg.limit && uuid != cfg.adminUuid);
      calls := calls[id := Call(uuid, ticket, if ok then Admitted else Rejected)];
    }

    method SubOne(ghost id: int)
      requires Enabled(Value(), Leave(id))
      modifies this
      ensures Value() == Next(cfg, old(Value()), Leave(id))
    {
      count := count - 1;
      calls := calls - {id};
    }
  }

  /* ---- what every step keeps ---- */

  /** The non-admin calls whose value was within the limit: the admitted ones and those about to be. */
  function Within(cfg: Config, calls: map<int, Call>): set<int> {
    set id | id in calls && calls[id].uuid != cfg.adminUuid && calls[id].ticket <= cfg.limit
  }

  function AdmittedUsers(cfg: Config, calls: map<int, Call>): set<int> {
    set id | id in calls && calls[id].uuid != cfg.adminUuid && calls[id].status.Admitted?
  }

  ghost predicate Sound(cfg: Config, g: Gate) {
    && g.count == |g.calls|
    && |Within(cfg, g.calls)| <= (if cfg.limit > 0 then cfg.limit else 0)
    && forall id | id in g.calls ::
         && g.calls[id].ticket >= 1
         && (g.calls[id].status.Entered? || g.calls[id].status == Decision(cfg, g.calls[id].uuid, g.calls[id].ticket))
  }

  lemma EnterKeepsSound(cfg: Config, g: Gate, id: int, uuid: int)
    requires Sound(cfg, g) && id !in g.calls
    ensures Sound(cfg, Next(cfg, g, Enter(id, uuid)))
  {
    var g' := Next(cfg, g, Enter(id, uuid));
    assert g'.calls.Keys == g.calls.Keys + {id};
    assert |g'.calls.Keys| == |g.calls.Keys| + 1;
    if id in Within(cfg, g'.calls) {
      assert Within(cfg, g'.calls) == Within(cfg, g.calls) + {id};
      SubsetSize(Within(cfg, g.calls), g.calls.Keys);
    } else {
      assert Within(cfg, g'.calls) == Within(cfg, g.calls);
    }
  }

  lemma LeaveKeepsSound(cfg: Config, g: Gate, id: int)
    requires Sound(cfg, g) && Enabled(g, Leave(id))
    ensures Sound(cfg, Next(cfg, g, Leave(id)))
  {
    var g' := Next(cfg, g, Leave(id));
    assert g'.calls.Keys == g.calls.Keys - {id};
    SubsetSize(Within(cfg, g'.calls), Within(cfg, g.calls));
  }

  lemma StepKeepsSound(cfg: Config, g: Gate, step: Step)
    requires Sound(cfg, g) && Enabled(g, step)
    ensures Sound(cfg, Next(cfg, g, step))
  {
    match step {
      case Enter(id, uuid) => EnterKeepsSound(cfg, g, id, uuid);
      case Decide(id) =>
        var g' := Next(cfg, g, step);
        assert g'.calls.Keys == g.calls.Keys;
        assert Within(cfg, g'.calls) == Within(cfg, g.calls);
      case Leave(id) => LeaveKeepsSound(cfg, g, id);
    }
  }

  ghost predicate IsRun(cfg: Config, run: seq<Gate>, steps: seq<Step>) {
    && |run| == |steps| + 1 && run[0] == Gate(0, map[])
    && forall i | 0 <= i < |steps| :: Enabled(run[i], steps[i]) && run[i + 1] == Next(cfg, run[i], steps[i])
  }

  lemma {:induction false} RunIsSound(cfg: Config, run: seq<Gate>, steps: seq<Step>, i: nat)
    requires IsRun(cfg, run, steps) && i < |run|
    ensures Sound(cfg, run[i])
  {
    if i > 0 {
      RunIsSound(cfg, run, steps, i - 1);
      assert Enabled(run[i - 1], steps[i - 1]) && run[i - 1 + 1] == Next(cfg, run[i - 1], steps[i - 1]);
      StepKeepsSound(cfg, run[i - 1], steps[i - 1]);
    }
  }

  /** The counter is the number of calls in flight, 0 once all have left; the limit holds for all but the admin. */
  lemma GateHolds(cfg: Config, run: seq<Gate>, steps: seq<Step>, i: nat)
    requires IsRun(cfg, run, steps) && i < |run|
    ensures run[i].count == |run[i].calls| && (run[i].calls == map[] <==> run[i].count == 0)
    ensures |AdmittedUsers(cfg, run[i].calls)| <= (if cfg.limit > 0 then cfg.limit else 0)
  {
    RunIsSound(cfg, run, steps, i);
    AdmittedWithin(cfg, run[i]);
  }

  lemma AdmittedWithin(cfg: Config, g: Gate)
    requires Sound(cfg, g)
    ensures |AdmittedUsers(cfg, g.calls)| <= |Within(cfg, g.calls)|
  {
    forall id | id in AdmittedUsers(cfg, g.calls)
      ensures id in Within(cfg, g.calls)
    {
      assert g.calls[id].status == Decision(cfg, g.calls[id].uuid, g.calls[id].ticket);
    }
    SubsetSize(AdmittedUsers(cfg, g.calls), Within(cfg, g.calls));
  }

  /** A call is turned away exactly when it is not the admin's and the limit was already in flight as it entered. */
  lemma RejectedExactly(cfg: Config, run: seq<Gate>, steps: seq<Step>, i: nat, j: nat, id: int, uuid: int)
    requires IsRun(cfg, run, steps) && i < j < |steps|
    requires steps[i] == Enter(id, uuid) && steps[j] == Decide(id)
    requires forall k | i < k < j :: steps[k] != Decide(id) && steps[k] != Leave(id)
    ensures id in run[j + 1].calls
    ensures run[j + 1].calls[id].status.Rejected? <==> uuid != cfg.adminUuid && |run[i].calls| >= cfg.limit
  {
    RunIsSound(cfg, run, steps, i);
    Undisturbed(cfg, run, steps, i, j, id, uuid);
    assert run[j + 1] == Next(cfg, run[j], steps[j]);
  }

  lemma {:induction false} Undisturbed(cfg: Config, run: seq<Gate>, steps: seq<Step>, i: nat, j: nat,
                                       id: int, uuid: int)
    requires IsRun(cfg, run, steps) && i < j <= |steps| && steps[i] == Enter(id, uuid)
    requires forall k | i < k < j :: steps[k] != Decide(id) && steps[k] != Leave(id)
    ensures id in run[j].calls && run[j].calls[id] == Call(uuid, run[i].count + 1, Entered)
  {
    assert Enabled(run[j - 1], steps[j - 1]) && run[j - 1 + 1] == Next(cfg, run[j - 1], steps[j - 1]);
    if j > i + 1 {
      Undisturbed(cfg, run, steps, i, j - 1, id, uuid);
    }
  }

  /** In particular a call alone in flight is admitted when the limit is at least 1. */
  lemma AloneIsAdmitted(cfg: Config, run: seq<Gate>, steps: seq<Step>, i: nat, j: nat, id: int, uuid: int)
    requires IsRun(cfg, run, steps) && i < j < |steps| && cfg.limit >= 1
    requires steps[i] == Enter(id, uuid) && steps[j] == Decide(id) && run[i].calls == map[]
    requires forall k | i < k < j :: steps[k] != Decide(id) && steps[k] != Leave(id)
    ensures id in run[j + 1].calls && run[j + 1].calls[id].status.Admitted?
  {
    RejectedExactly(cfg, run, steps, i, j, id, uuid);
    assert run[j + 1] == Next(cfg, run[j], steps[j]);
    Undisturbed(cfg, run, steps, i, j, id, uuid);
  }

  /** A rejected call counts until it leaves: with limit 1 a third call is turned away although nobody is admitted. */
  lemma RejectedCallsBlock(cfg: Config, a: int, b: int, c: int, uuid: int, run: seq<Gate>, steps: seq<Step>)
    requires cfg.limit == 1 && uuid != cfg.adminUuid && a != b && a != c && b != c
    requires steps == [Enter(a, uuid), Decide(a), Enter(b, uuid), Decide(b), Leave(a), Enter(c, uuid), Decide(c)]
    requires IsRun(cfg, run, steps)
    ensures c in run[7].calls && run[7].calls[c].status.Rejected? && AdmittedUsers(cfg, run[7].calls) == {}
  {
    assert run[0 + 1] == Next(cfg, run[0], steps[0]);
    assert run[1 + 1] == Next(cfg, run[1], steps[1]);
    assert run[2 + 1] == Next(cfg, run[2], steps[2]);
    assert run[3 + 1] == Next(cfg, run[3], steps[3]);
    assert run[4 + 1] == Next(cfg, run[4], steps[4]);
    assert run[5 + 1] == Next(cfg, run[5], steps[5]);
    assert run[6 + 1] == Next(cfg, run[6], steps[6]);
  }
}
