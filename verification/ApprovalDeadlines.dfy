/** When a decision lands after its deadline: exactly when its claim is stamped late.
    `decide` tests the deadline before that, `cancel` not at all. */
module ApprovalDeadlines {
  import opened Common
  import opened Approvals
  import opened ApprovalProtocol
  import opened ApprovalTheorems
  import opened ApprovalOutcomes

  ghost predicate IsDecision(status: Status) { status.Approved? || status.Rejected? || status.Canceled? }

  /** The stored decision bears a time that has reached the request's deadline. */
  ghost predicate Late(row: Row) {
    IsDecision(row.status) && row.decidedAt.Some? && PastExpiry(row, row.decidedAt.value)
  }

  /** The step stamps the claim of `p`, to decide `id` as `to`, at a clock that has
      reached the deadline of the copy its guards were evaluated on. */
  ghost predicate StampsLate(s: State, e: Event, id: Pk, p: int, to: Status) {
    && e.Advance? && e.p == p && p in s.procs && !s.procs[p].job.SweepJob? && s.procs[p].job.id == id
    && s.procs[p].pc.Cleared? && s.procs[p].pc.to == to && IsDecision(to)
    && PastExpiry(s.procs[p].pc.admission.copy, s.clock)
  }

  /** Some step of the run does. */
  ghost predicate StampedLate(cfg: Settings, clock: int, evs: seq<Event>, id: Pk, p: int, to: Status) {
    evs != [] && (StampedLate(cfg, clock, evs[..|evs| - 1], id, p, to)
                  || StampsLate(Run(cfg, Initial(clock), evs[..|evs| - 1]), evs[|evs| - 1], id, p, to))
  }

  // ----- what the state remembers of the stamp -----

  /** The claim `p` holds, or the row it has won, was stamped late to `to`. */
  ghost predicate Remembers(s: State, id: Pk, p: int, to: Status) {
    && p in s.procs && !s.procs[p].job.SweepJob? && s.procs[p].job.id == id && id in s.table && IsDecision(to)
    && if s.procs[p].pc.Claiming?
       then s.procs[p].pc.claim.Decision? && s.procs[p].pc.claim.to == to && PastExpiry(s.table[id], s.procs[p].pc.claim.at)
       else OwnedBy(s, id, p) && s.table[id].status == to && Late(s.table[id])
  }

  /** The process can still win: it holds a claim, or has won already. */
  ghost predicate InTheRace(s: State, id: Pk, p: int) {
    p in s.procs && (s.procs[p].pc.Claiming? || OwnedBy(s, id, p))
  }

  /** The process has not stamped a claim yet, or never does. */
  ghost predicate Unstamped(s: State, p: int) {
    p !in s.procs || s.procs[p].job.SweepJob?
    || s.procs[p].pc.Starting? || s.procs[p].pc.Holding? || s.procs[p].pc.Cleared?
  }

  /** Before its stamp a process has stamped nothing; afterwards, unless it lost, the
      state tells how it stamped. */
  ghost predicate StampKnown(s: State, id: Pk, p: int, to: Status, stamped: bool) {
    && (Unstamped(s, p) ==> !stamped)
    && (InTheRace(s, id, p) ==> (stamped <==> Remembers(s, id, p, to)))
  }

  lemma StampStep(cfg: Settings, s: State, p: int, ch: Choice, id: Pk, to: Status)
    requires Inv(cfg, s) && p in s.procs && OutcomeOk(s, p) && s.procs[p].pc.Cleared?
    requires StampKnown(s, id, p, to, false)
    ensures StampKnown(Step(cfg, s, Advance(p, ch)), id, p, to, StampsLate(s, Advance(p, ch), id, p, to))
  {
    var t := Step(cfg, s, Advance(p, ch));
    assert ProcOk(cfg, s, p);
    assert t == Stamp(s, p, s.procs[p].pc.admission, s.procs[p].pc.to);
  }

  lemma LostStep(cfg: Settings, s: State, p: int, id: Pk, to: Status, stamped: bool)
    requires Inv(cfg, s) && p in s.procs && OutcomeOk(s, p) && s.procs[p].pc.Claiming?
    requires StampKnown(s, id, p, to, stamped)
    requires var i := s.procs[p].pc.id; !(i in s.table && s.table[i].status.Pending?)
    ensures StampKnown(Update(s, p, s.procs[p].pc.id, s.procs[p].pc.claim, s.procs[p].pc.admitted), id, p, to, stamped)
  {
    LoserHasNoEffect(s, p, s.procs[p].pc.id, s.procs[p].pc.claim, s.procs[p].pc.admitted);
  }

  lemma WonStep(cfg: Settings, s: State, p: int, id: Pk, to: Status, stamped: bool)
    requires Inv(cfg, s) && p in s.procs && OutcomeOk(s, p) && s.procs[p].pc.Claiming?
    requires StampKnown(s, id, p, to, stamped)
    requires var i := s.procs[p].pc.id; i in s.table && s.table[i].status.Pending?
    ensures StampKnown(Update(s, p, s.procs[p].pc.id, s.procs[p].pc.claim, s.procs[p].pc.admitted), id, p, to, stamped)
  {
    assert ProcOk(cfg, s, p);
  }

  lemma UpdateStep(cfg: Settings, s: State, p: int, ch: Choice, id: Pk, to: Status, stamped: bool)
    requires Inv(cfg, s) && p in s.procs && OutcomeOk(s, p) && s.procs[p].pc.Claiming?
    requires StampKnown(s, id, p, to, stamped)
    ensures StampKnown(Step(cfg, s, Advance(p, ch)), id, p, to, stamped)
  {
    var i := s.procs[p].pc.id;
    if i in s.table && s.table[i].status.Pending? {
      WonStep(cfg, s, p, id, to, stamped);
    } else {
      LostStep(cfg, s, p, id, to, stamped);
    }
  }

  lemma StampFrame(s: State, t: State, id: Pk, p: int, to: Status, stamped: bool)
    requires StampKnown(s, id, p, to, stamped)
    requires Unstamped(t, p) ==> Unstamped(s, p)
    requires InTheRace(t, id, p) ==> InTheRace(s, id, p) && (Remembers(t, id, p, to) <==> Remembers(s, id, p, to))
    ensures StampKnown(t, id, p, to, stamped)
  {
  }

  /** What is remembered of `p` survives a step that keeps its process, its winnings
      and the requests and decisions of the table. */
  lemma MemoryFrame(cfg: Settings, s: State, t: State, id: Pk, p: int, to: Status, stamped: bool)
    requires Inv(cfg, s) && Outcomes(s) && StampKnown(s, id, p, to, stamped)
    requires p in s.procs && p in t.procs && t.procs[p] == s.procs[p]
    requires OwnedBy(t, id, p) <==> OwnedBy(s, id, p)
    requires id in s.table ==> id in t.table && SameRequest(s.table[id], t.table[id])
    requires id in s.table && !s.table[id].status.Pending? ==> SameDecision(s.table[id], t.table[id])
    ensures StampKnown(t, id, p, to, stamped)
  {
    assert ProcOk(cfg, s, p) && OutcomeOk(s, p);
    StampFrame(s, t, id, p, to, stamped);
  }

  lemma AdvanceOfOther(cfg: Settings, s: State, q: int, ch: Choice, id: Pk, p: int, to: Status, stamped: bool)
    requires Inv(cfg, s) && Outcomes(s) && StampKnown(s, id, p, to, stamped) && q != p && q in s.procs
    requires !SavesEdit(s, Advance(q, ch))
    ensures StampKnown(AdvanceStep(cfg, s, q, ch), id, p, to, stamped)
  {
    var t := AdvanceStep(cfg, s, q, ch);
    AdvanceFrame(cfg, s, q, ch);
    if p in s.procs {
      if id in s.table {
        AdvanceKeepsDecision(cfg, s, q, ch, id);
      }
      MemoryFrame(cfg, s, t, id, p, to, stamped);
    } else {
      NobodyOwns(cfg, s, q, ch, id, p);
    }
  }

  lemma NobodyOwns(cfg: Settings, s: State, q: int, ch: Choice, id: Pk, p: int)
    requires Inv(cfg, s) && p !in s.procs && q in s.procs
    ensures !InTheRace(AdvanceStep(cfg, s, q, ch), id, p)
  {
    AdvanceFrame(cfg, s, q, ch);
  }

  /** Filing, spawning and the clock change nothing of what is remembered of `p`. */
  lemma EnvironmentStep(cfg: Settings, s: State, e: Event, id: Pk, p: int, to: Status, stamped: bool)
    requires Inv(cfg, s) && Outcomes(s) && StampKnown(s, id, p, to, stamped) && !e.Advance?
    ensures StampKnown(Step(cfg, s, e), id, p, to, stamped)
  {
    var t := Step(cfg, s, e);
    EnvironmentKeepsProc(cfg, s, e, p);
    if p in s.procs {
      if id in s.table {
        EnvironmentKeepsRow(cfg, s, e, id);
      }
      MemoryFrame(cfg, s, t, id, p, to, stamped);
    }
  }

  /** Nor does a step of `p` that neither stamps nor claims. */
  lemma QuietStepOfSame(cfg: Settings, s: State, p: int, ch: Choice, id: Pk, to: Status, stamped: bool)
    requires Inv(cfg, s) && Outcomes(s) && StampKnown(s, id, p, to, stamped)
    requires p in s.procs && !s.procs[p].pc.Cleared? && !s.procs[p].pc.Claiming? && !SavesEdit(s, Advance(p, ch))
    ensures StampKnown(Step(cfg, s, Advance(p, ch)), id, p, to, stamped)
  {
    var t := AdvanceStep(cfg, s, p, ch);
    assert ProcOk(cfg, s, p) && OutcomeOk(s, p);
    QuietStepKind(cfg, s, p, ch);
    if !s.procs[p].job.SweepJob? {
      if id in s.table {
        OtherStepsKeepRow(cfg, s, p, ch, id);
      }
      WinnersStay(cfg, s, p, ch);
      StampFrame(s, t, id, p, to, stamped);
    }
  }

  lemma WinnersStay(cfg: Settings, s: State, p: int, ch: Choice)
    requires Inv(cfg, s) && p in s.procs && !s.procs[p].pc.Claiming?
    ensures AdvanceStep(cfg, s, p, ch).winner == s.winner
    ensures forall i :: i in AdvanceStep(cfg, s, p, ch).table <==> i in s.table
  {
    if s.procs[p].pc.CallbackDone? || s.procs[p].pc.Refreshed? {
      assert ProcOk(cfg, s, p);
    } else {
      QuietSteps(cfg, s, p, ch);
    }
  }

  ghost predicate MovedOn(s: State, t: State, p: int)
    requires p in s.procs
  {
    && p in t.procs && t.procs[p].job == s.procs[p].job
    && (Unstamped(t, p) ==> Unstamped(s, p))
    && (t.procs[p].pc.Claiming? ==> s.procs[p].pc.Sweeping?)
  }

  lemma LoadMoves(s: State, p: int, selection: seq<Pk>)
    requires p in s.procs && s.procs[p].pc.Starting?
    ensures MovedOn(s, Load(s, p, selection), p)
  {
  }

  lemma GuardsMove(cfg: Settings, s: State, p: int, copy: Row, hook: Hook)
    requires p in s.procs && s.procs[p].pc.Holding? && !s.procs[p].job.SweepJob?
    ensures MovedOn(s, Goto(s, p, Guards(cfg, s.procs[p].job, copy, s.clock, hook)), p)
  {
  }

  lemma FinishingMoves(s: State, p: int, id: Pk)
    requires p in s.procs && id in s.table && HasEffectNext(s.procs[p].pc, id)
    ensures MovedOn(s, FinishingStep(s, p, id), p)
  {
    var pc := EffectMoves(s, p, id);
  }

  lemma ResaveMoves(s: State, p: int, id: Pk, left: Row)
    requires p in s.procs && id in s.table && s.procs[p].pc.CallbackDone?
    ensures MovedOn(s, Resave(s, p, id, left), p)
  {
  }

  lemma CallbackMoves(s: State, p: int, id: Pk, copy: Row, callback: Callback)
    requires p in s.procs && id in s.table && s.procs[p].pc.Refreshed?
    ensures MovedOn(s, RunCallback(s, p, id, copy, callback), p)
  {
  }

  lemma NextRowMoves(s: State, p: int)
    requires p in s.procs && s.procs[p].pc.Sweeping?
    ensures p in NextRow(s, p).procs && NextRow(s, p).procs[p].job == s.procs[p].job
    ensures !NextRow(s, p).procs[p].pc.Starting? && !NextRow(s, p).procs[p].pc.Holding? && !NextRow(s, p).procs[p].pc.Cleared?
  {
  }

  /** Where such a step leaves the process. */
  lemma QuietStepKind(cfg: Settings, s: State, p: int, ch: Choice)
    requires p in s.procs && !s.procs[p].pc.Cleared? && !s.procs[p].pc.Claiming?
    ensures MovedOn(s, AdvanceStep(cfg, s, p, ch), p)
  {
    match s.procs[p].pc
    case Starting => LoadMoves(s, p, ch.selection);
    case Holding(copy) => if !s.procs[p].job.SweepJob? { GuardsMove(cfg, s, p, copy, ch.hook); }
    case Won(id) => if id in s.table { FinishingMoves(s, p, id); }
    case Refreshed(id, copy) => if id in s.table { CallbackMoves(s, p, id, copy, ch.callback); }
    case CallbackDone(id, _, left) => if id in s.table { ResaveMoves(s, p, id, left); }
    case Saved(id) => if id in s.table { FinishingMoves(s, p, id); }
    case Audited(id) => if id in s.table { FinishingMoves(s, p, id); }
    case Sweeping => NextRowMoves(s, p);
    case Refused(_) =>
    case Ended(_) =>
  }

  lemma StepKeepsStampKnown(cfg: Settings, s: State, e: Event, id: Pk, p: int, to: Status, stamped: bool)
    requires Inv(cfg, s) && Outcomes(s) && StampKnown(s, id, p, to, stamped) && !SavesEdit(s, e)
    ensures StampKnown(Step(cfg, s, e), id, p, to, stamped || StampsLate(s, e, id, p, to))
  {
    if !(e.Advance? && e.p == p && p in s.procs) {
      StepOfStranger(cfg, s, e, id, p, to, stamped);
    } else if s.procs[p].pc.Cleared? {
      StampStep(cfg, s, p, e.choice, id, to);
    } else if s.procs[p].pc.Claiming? {
      UpdateStep(cfg, s, p, e.choice, id, to, stamped);
    } else {
      QuietStepOfSame(cfg, s, p, e.choice, id, to, stamped);
    }
  }

  lemma StepOfStranger(cfg: Settings, s: State, e: Event, id: Pk, p: int, to: Status, stamped: bool)
    requires Inv(cfg, s) && Outcomes(s) && StampKnown(s, id, p, to, stamped)
    requires !(e.Advance? && e.p == p && p in s.procs) && !SavesEdit(s, e)
    ensures StampKnown(Step(cfg, s, e), id, p, to, stamped)
  {
    if !e.Advance? {
      EnvironmentStep(cfg, s, e, id, p, to, stamped);
    } else if e.p in s.procs {
      AdvanceOfOther(cfg, s, e.p, e.choice, id, p, to, stamped);
    } else {
      assert Step(cfg, s, e) == s;
    }
  }

  lemma {:induction false} RunKnowsStamps(cfg: Settings, clock: int, evs: seq<Event>, id: Pk, p: int, to: Status)
    requires !StoresEdit(cfg, Initial(clock), evs)
    ensures StampKnown(Run(cfg, Initial(clock), evs), id, p, to, StampedLate(cfg, clock, evs, id, p, to))
  {
    if evs != [] {
      var front := evs[..|evs| - 1];
      RunKnowsStamps(cfg, clock, front, id, p, to);
      RunKeepsOutcomes(cfg, clock, front);
      StepKeepsStampKnown(cfg, Run(cfg, Initial(clock), front), evs[|evs| - 1], id, p, to,
                          StampedLate(cfg, clock, front, id, p, to));
    }
  }

  // ----- the theorems -----

  lemma WinnerRemembers(cfg: Settings, s: State, id: Pk, to: Status)
    requires Inv(cfg, s) && Outcomes(s) && id in s.table && id in s.winner && IsDecision(to)
    ensures InTheRace(s, id, s.winner[id])
    ensures Remembers(s, id, s.winner[id], to) <==> s.table[id].status == to && Late(s.table[id])
  {
    var p := s.winner[id];
    assert OutcomeOk(s, p);
  }

  /** Over every run that stores no edit of a callback a request's decision is stored late exactly when the process that
      won it stamped its claim late: an approval, rejection or cancellation whose claim
      was evaluated at or after the deadline, and whose UPDATE then won. */
  lemma LateExactlyWhenStampedLate(cfg: Settings, clock: int, evs: seq<Event>, id: Pk, to: Status)
    requires IsDecision(to) && !StoresEdit(cfg, Initial(clock), evs)
    ensures var s := Run(cfg, Initial(clock), evs);
      id in s.table ==>
        ((s.table[id].status == to && Late(s.table[id]))
         <==> id in s.winner && StampedLate(cfg, clock, evs, id, s.winner[id], to))
  {
    var s := Run(cfg, Initial(clock), evs);
    RunKeepsOutcomes(cfg, clock, evs);
    if id in s.table && id in s.winner {
      RunKnowsStamps(cfg, clock, evs, id, s.winner[id], to);
      WinnerRemembers(cfg, s, id, to);
    }
  }

  const OWNER := Actor(Some(7), true, false)

  /** A canceller can even begin after the deadline: read, test and stamp all come ten
      seconds past it, which the guards of an approval never allow. */
  lemma CancelCanStartAfterDeadline(cfg: Settings) returns (evs: seq<Event>)
    requires cfg.enabled
    ensures var s := Run(cfg, Initial(0), evs);
      && Pk(1) in s.table && s.table[Pk(1)].status == Canceled && Late(s.table[Pk(1)])
      && Pk(1) in s.admissions && PastExpiry(s.admissions[Pk(1)].copy, s.admissions[Pk(1)].at)
  {
    evs := CancelStamped(cfg);
    RunSnoc(cfg, Initial(0), evs, Advance(0, CHOICE));
    evs := evs + [Advance(0, CHOICE)];
  }

  lemma FiledAndPast(cfg: Settings) returns (evs: seq<Event>)
    ensures var s := Run(cfg, Initial(0), evs);
      s.table == map[Pk(1) := ROW] && s.clock == 20 && s.procs == map[]
  {
    var file := File(Pk(1), Some(7), {}, Some(10));
    RunSnoc(cfg, Initial(0), [], file);
    evs := [] + [file];
    var s := Run(cfg, Initial(0), evs);
    assert s.table == map[Pk(1) := ROW];
    RunSnoc(cfg, Initial(0), evs, Tick(20));
    evs := evs + [Tick(20)];
  }

  lemma CancelRead(cfg: Settings) returns (evs: seq<Event>)
    ensures var s := Run(cfg, Initial(0), evs);
      && s.table == map[Pk(1) := ROW] && s.clock == 20 && 0 in s.procs
      && s.procs[0] == Proc(CancelJob(Pk(1), OWNER, ""), Holding(ROW), [], 20, false)
  {
    evs := FiledAndPast(cfg);
    var spawn := Spawn(0, CancelJob(Pk(1), OWNER, ""));
    RunSnoc(cfg, Initial(0), evs, spawn);
    evs := evs + [spawn];
    RunSnoc(cfg, Initial(0), evs, Advance(0, CHOICE));
    evs := evs + [Advance(0, CHOICE)];
  }

  lemma CancelStamped(cfg: Settings) returns (evs: seq<Event>)
    requires cfg.enabled
    ensures var s := Run(cfg, Initial(0), evs);
      && s.table == map[Pk(1) := ROW] && 0 in s.procs && s.procs[0].job.CancelJob?
      && s.procs[0].pc == Claiming(Pk(1), Decision(Canceled, Some(7), 20, ""), Some(Admission(ROW, 20, OWNER, NoHook)))
  {
    evs := CancelRead(cfg);
    RunSnoc(cfg, Initial(0), evs, Advance(0, CHOICE));
    evs := evs + [Advance(0, CHOICE)];
    var s := Run(cfg, Initial(0), evs);
    assert s.procs[0].pc == Cleared(Admission(ROW, 20, OWNER, NoHook), Canceled);
    RunSnoc(cfg, Initial(0), evs, Advance(0, CHOICE));
    evs := evs + [Advance(0, CHOICE)];
  }
}
