/** What a caller of `decide` or `cancel` is told, against what happened to the row,
    over every interleaving of the approvals protocol. */
module ApprovalOutcomes {
  import opened Common
  import opened Approvals
  import opened ApprovalProtocol
  import opened ApprovalTheorems

  /** The status a decision or cancellation asks for. */
  function AskedStatus(job: Job): Status
    requires !job.SweepJob?
  {
    if job.CancelJob? then Canceled else if job.approved then Approved else Rejected
  }

  /** The row carries the decision this caller asked for. */
  ghost predicate CarriesJob(row: Row, job: Job)
    requires !job.SweepJob?
  {
    row.status == AskedStatus(job) && row.decidedBy == job.actor.pk && row.decisionNote == job.note
  }

  /** What the winner's row looks like: its own decision, or a lazy expiry that only
      `decide` performs. */
  ghost predicate WonByJob(row: Row, job: Job)
    requires !job.SweepJob?
  {
    CarriesJob(row, job) || (job.DecideJob? && row.status.Expired?)
  }

  ghost predicate OwnsNothing(s: State, p: int) {
    forall id | id in s.winner :: s.winner[id] != p
  }

  ghost predicate OwnsOnly(s: State, p: int, id: Pk) {
    forall i | i in s.winner && s.winner[i] == p :: i == id
  }

  /** The process won its own request and no other, the row shows it, and the process
      knows whether it was an expiry. */
  ghost predicate OwnsJob(s: State, p: int)
    requires p in s.procs && !s.procs[p].job.SweepJob?
  {
    var job := s.procs[p].job;
    && OwnedBy(s, job.id, p) && OwnsOnly(s, p, job.id) && WonByJob(s.table[job.id], job)
    && (s.procs[p].expiring <==> s.table[job.id].status.Expired?)
  }

  ghost predicate ClaimIsJobs(claim: Claim, job: Job)
    requires !job.SweepJob?
  {
    match claim
    case Expiry(_) => job.DecideJob?
    case Decision(to, decider, _, note) => to == AskedStatus(job) && decider == job.actor.pk && note == job.note
  }

  ghost predicate OutcomeOk(s: State, p: int)
    requires p in s.procs
  {
    var proc := s.procs[p];
    if proc.job.SweepJob? then
      && (forall id | id in s.winner && s.winner[id] == p :: id in s.table && s.table[id].status.Expired?)
      && (proc.pc.Claiming? ==> proc.pc.claim.Expiry?)
      && !proc.pc.Holding? && !proc.pc.Cleared?
      && (proc.pc.Ended? ==> proc.pc.outcome.Finished?)
    else match proc.pc
      case Starting => OwnsNothing(s, p)
      case Holding(_) => OwnsNothing(s, p)
      case Cleared(_, to) => OwnsNothing(s, p) && (if to.Expired? then proc.job.DecideJob? else to == AskedStatus(proc.job))
      case Claiming(id, claim, _) => OwnsNothing(s, p) && id == proc.job.id && ClaimIsJobs(claim, proc.job)
      case Won(id) => id == proc.job.id && OwnsJob(s, p)
      case Refreshed(id, _) => id == proc.job.id && OwnsJob(s, p)
      case CallbackDone(id, _, _) => id == proc.job.id && OwnsJob(s, p)
      case Saved(id) => id == proc.job.id && OwnsJob(s, p)
      case Audited(id) => id == proc.job.id && OwnsJob(s, p)
      case Refused(id) => id == proc.job.id && OwnsJob(s, p)
      case Sweeping => false
      case Ended(outcome) =>
        match outcome
        case Finished => OwnsJob(s, p) && CarriesJob(s.table[proc.job.id], proc.job)
        case NotPending => OwnsNothing(s, p) || (OwnsJob(s, p) && s.table[proc.job.id].status.Expired?)
        case _ => OwnsNothing(s, p)
  }

  ghost predicate Outcomes(s: State) {
    forall p | p in s.procs :: OutcomeOk(s, p)
  }

  // ----- every step keeps it -----

  /** A step of others: what `q` won, and how those rows were decided, stays. */
  lemma OutcomeFrame(s: State, t: State, q: int)
    requires q in s.procs && q in t.procs && t.procs[q] == s.procs[q] && OutcomeOk(s, q)
    requires forall id | id in s.winner :: id in s.table && id in t.winner && t.winner[id] == s.winner[id]
    requires forall id | id in t.winner && t.winner[id] == q :: id in s.winner
    requires forall id | id in s.winner :: id in t.table && SameDecision(s.table[id], t.table[id])
    ensures OutcomeOk(t, q)
  {
  }

  /** A step of `p` leaves the other processes and every winner as they are; a new
      winner is `p`. */
  ghost predicate OthersKept(s: State, t: State, p: int) {
    && t.procs.Keys == s.procs.Keys
    && (forall q | q in s.procs && q != p :: t.procs[q] == s.procs[q])
    && (forall id | id in s.winner :: id in t.winner && t.winner[id] == s.winner[id])
    && (forall id | id in t.winner && id !in s.winner :: t.winner[id] == p)
  }

  lemma UpdateKeepsOthers(s: State, p: int, id: Pk, claim: Claim, adm: Option<Admission>)
    requires p in s.procs && (id in s.winner ==> id in s.table && !s.table[id].status.Pending?)
    ensures OthersKept(s, Update(s, p, id, claim, adm), p)
  {
  }

  lemma CallbackKeepsOthers(s: State, p: int, id: Pk, copy: Row, callback: Callback)
    requires p in s.procs && id in s.table
    ensures OthersKept(s, RunCallback(s, p, id, copy, callback), p)
  {
  }

  lemma ResaveKeepsOthers(s: State, p: int, id: Pk, left: Row)
    requires p in s.procs && id in s.table
    ensures OthersKept(s, Resave(s, p, id, left), p)
  {
  }

  lemma EffectKeepsOthers(s: State, p: int, id: Pk)
    requires p in s.procs && id in s.table && HasEffectNext(s.procs[p].pc, id)
    ensures OthersKept(s, FinishingStep(s, p, id), p)
  {
    var pc := EffectMoves(s, p, id);
  }

  lemma LoadKeepsOthers(s: State, p: int, selection: seq<Pk>)
    requires p in s.procs
    ensures OthersKept(s, Load(s, p, selection), p)
  {
  }

  lemma GotoKeepsOthers(s: State, p: int, pc: Pc)
    requires p in s.procs
    ensures OthersKept(s, Goto(s, p, pc), p)
  {
  }

  lemma NextRowKeepsOthers(s: State, p: int)
    requires p in s.procs
    ensures OthersKept(s, NextRow(s, p), p)
  {
  }

  lemma GuardsKeepOthers(cfg: Settings, s: State, p: int, ch: Choice)
    requires p in s.procs && s.procs[p].pc.Holding?
    ensures OthersKept(s, AdvanceStep(cfg, s, p, ch), p)
  {
    if !s.procs[p].job.SweepJob? {
      GotoKeepsOthers(s, p, Guards(cfg, s.procs[p].job, s.procs[p].pc.copy, s.clock, ch.hook));
    }
  }

  lemma WinnerKeepsOthers(cfg: Settings, s: State, p: int, id: Pk, ch: Choice)
    requires p in s.procs && Finishing(s.procs[p].pc, id)
    ensures OthersKept(s, AdvanceStep(cfg, s, p, ch), p)
  {
    if id in s.table {
      if s.procs[p].pc.Refreshed? {
        CallbackKeepsOthers(s, p, id, s.procs[p].pc.copy, ch.callback);
      } else if s.procs[p].pc.CallbackDone? {
        ResaveKeepsOthers(s, p, id, s.procs[p].pc.left);
      } else if !s.procs[p].pc.Refused? {
        EffectKeepsOthers(s, p, id);
      }
    }
  }

  lemma AdvanceFrame(cfg: Settings, s: State, p: int, ch: Choice)
    requires Inv(cfg, s) && p in s.procs
    ensures OthersKept(s, AdvanceStep(cfg, s, p, ch), p)
  {
    var pc := s.procs[p].pc;
    match pc
    case Starting => LoadKeepsOthers(s, p, ch.selection);
    case Holding(_) => GuardsKeepOthers(cfg, s, p, ch);
    case Cleared(adm, to) =>
    case Claiming(id, claim, adm) => UpdateKeepsOthers(s, p, id, claim, adm);
    case Sweeping => NextRowKeepsOthers(s, p);
    case Ended(_) =>
    case _ => WinnerKeepsOthers(cfg, s, p, pc.id, ch);
  }

  lemma LoadOutcome(s: State, p: int, selection: seq<Pk>)
    requires p in s.procs && OutcomeOk(s, p) && s.procs[p].pc.Starting?
    ensures OutcomeOk(Load(s, p, selection), p)
  {
  }

  lemma GuardsOutcome(cfg: Settings, s: State, p: int, copy: Row, hook: Hook)
    requires p in s.procs && OutcomeOk(s, p) && s.procs[p].pc == Holding(copy)
    ensures !s.procs[p].job.SweepJob? && OutcomeOk(Goto(s, p, Guards(cfg, s.procs[p].job, copy, s.clock, hook)), p)
  {
  }

  lemma StampOutcome(s: State, p: int, adm: Admission, to: Status)
    requires p in s.procs && OutcomeOk(s, p) && s.procs[p].pc == Cleared(adm, to)
    ensures !s.procs[p].job.SweepJob? && OutcomeOk(Stamp(s, p, adm, to), p)
  {
  }

  lemma LoserOutcome(s: State, p: int, id: Pk, claim: Claim, adm: Option<Admission>)
    requires p in s.procs && OutcomeOk(s, p) && s.procs[p].pc == Claiming(id, claim, adm)
    requires !(id in s.table && s.table[id].status.Pending?)
    ensures OutcomeOk(Update(s, p, id, claim, adm), p)
  {
    LoserHasNoEffect(s, p, id, claim, adm);
  }

  lemma WinnerOutcome(s: State, p: int, id: Pk, claim: Claim, adm: Option<Admission>)
    requires p in s.procs && OutcomeOk(s, p) && s.procs[p].pc == Claiming(id, claim, adm)
    requires id in s.table && s.table[id].status.Pending?
    requires forall i | i in s.winner :: i in s.table && !s.table[i].status.Pending?
    ensures OutcomeOk(Update(s, p, id, claim, adm), p)
  {
  }

  lemma UpdateOutcome(s: State, p: int, id: Pk, claim: Claim, adm: Option<Admission>)
    requires p in s.procs && OutcomeOk(s, p) && s.procs[p].pc == Claiming(id, claim, adm)
    requires forall i | i in s.winner :: i in s.table && !s.table[i].status.Pending?
    ensures OutcomeOk(Update(s, p, id, claim, adm), p)
  {
    if id in s.table && s.table[id].status.Pending? {
      WinnerOutcome(s, p, id, claim, adm);
    } else {
      LoserOutcome(s, p, id, claim, adm);
    }
  }

  lemma NextRowOutcome(s: State, p: int)
    requires p in s.procs && OutcomeOk(s, p) && s.procs[p].pc.Sweeping?
    ensures OutcomeOk(NextRow(s, p), p)
  {
  }

  /** Where the winner's step leaves it, and what stays. */
  ghost predicate WinnerMoved(s: State, t: State, p: int, id: Pk)
    requires p in s.procs
  {
    && t.winner == s.winner && t.table.Keys == s.table.Keys
    && p in t.procs && t.procs[p] == s.procs[p].(pc := t.procs[p].pc)
    && (Finishing(t.procs[p].pc, id) || t.procs[p].pc == AfterSignal(s.procs[p]))
  }

  lemma CallbackMovesWinner(s: State, p: int, id: Pk, copy: Row, callback: Callback)
    requires p in s.procs && id in s.table && s.procs[p].pc == Refreshed(id, copy)
    ensures WinnerMoved(s, RunCallback(s, p, id, copy, callback), p, id)
  {
  }

  lemma ResaveMovesWinner(s: State, p: int, id: Pk, left: Row)
    requires p in s.procs && id in s.table
    ensures WinnerMoved(s, Resave(s, p, id, left), p, id)
  {
  }

  lemma EffectMovesWinner(s: State, p: int, id: Pk)
    requires p in s.procs && id in s.table && HasEffectNext(s.procs[p].pc, id)
    ensures WinnerMoved(s, FinishingStep(s, p, id), p, id)
  {
    var pc := EffectMoves(s, p, id);
  }

  lemma WinnerMoves(cfg: Settings, s: State, p: int, id: Pk, ch: Choice)
    requires p in s.procs && id in s.table && Finishing(s.procs[p].pc, id)
    ensures WinnerMoved(s, AdvanceStep(cfg, s, p, ch), p, id)
  {
    match s.procs[p].pc
    case Won(_) => EffectMovesWinner(s, p, id);
    case Refreshed(_, copy) => CallbackMovesWinner(s, p, id, copy, ch.callback);
    case CallbackDone(_, _, left) => ResaveMovesWinner(s, p, id, left);
    case Saved(_) => EffectMovesWinner(s, p, id);
    case Audited(_) => EffectMovesWinner(s, p, id);
    case Refused(_) =>
  }

  /** The winner's later steps keep the decision; the last one tells the caller. */
  lemma FinishingOutcome(s: State, t: State, p: int, id: Pk)
    requires p in s.procs && OutcomeOk(s, p) && Finishing(s.procs[p].pc, id) && OwnedBy(s, id, p)
    requires WinnerMoved(s, t, p, id)
    requires forall i | i in s.table :: SameDecision(s.table[i], t.table[i])
    ensures OutcomeOk(t, p)
  {
    assert id in s.table;
  }

  lemma StepOfWinner(cfg: Settings, s: State, p: int, id: Pk, ch: Choice)
    requires Inv(cfg, s) && p in s.procs && OutcomeOk(s, p) && Finishing(s.procs[p].pc, id)
    requires !SavesEdit(s, Advance(p, ch))
    ensures p in AdvanceStep(cfg, s, p, ch).procs && OutcomeOk(AdvanceStep(cfg, s, p, ch), p)
  {
    var t := AdvanceStep(cfg, s, p, ch);
    assert ProcOk(cfg, s, p);
    assert OwnedBy(s, id, p);
    forall i | i in s.table ensures i in t.table && SameDecision(s.table[i], t.table[i]) {
      OtherStepsKeepRow(cfg, s, p, ch, i);
    }
    WinnerMoves(cfg, s, p, id, ch);
    FinishingOutcome(s, t, p, id);
  }

  lemma StepOfClaimer(cfg: Settings, s: State, p: int, ch: Choice)
    requires Inv(cfg, s) && p in s.procs && OutcomeOk(s, p)
    requires s.procs[p].pc.Starting? || s.procs[p].pc.Claiming? || s.procs[p].pc.Sweeping? || s.procs[p].pc.Ended?
    ensures p in AdvanceStep(cfg, s, p, ch).procs && OutcomeOk(AdvanceStep(cfg, s, p, ch), p)
  {
    match s.procs[p].pc
    case Starting => LoadOutcome(s, p, ch.selection);
    case Claiming(id, claim, adm) => UpdateOutcome(s, p, id, claim, adm);
    case Sweeping => NextRowOutcome(s, p);
    case Ended(_) =>
  }

  lemma StepOfCaller(cfg: Settings, s: State, p: int, ch: Choice)
    requires Inv(cfg, s) && p in s.procs && OutcomeOk(s, p)
    requires s.procs[p].pc.Holding? || s.procs[p].pc.Cleared?
    ensures p in AdvanceStep(cfg, s, p, ch).procs && OutcomeOk(AdvanceStep(cfg, s, p, ch), p)
  {
    match s.procs[p].pc
    case Holding(copy) => GuardsOutcome(cfg, s, p, copy, ch.hook);
    case Cleared(adm, to) => StampOutcome(s, p, adm, to);
  }

  lemma AdvanceOutcome(cfg: Settings, s: State, p: int, ch: Choice)
    requires Inv(cfg, s) && p in s.procs && OutcomeOk(s, p) && !SavesEdit(s, Advance(p, ch))
    ensures p in AdvanceStep(cfg, s, p, ch).procs && OutcomeOk(AdvanceStep(cfg, s, p, ch), p)
  {
    var pc := s.procs[p].pc;
    if pc.Starting? || pc.Claiming? || pc.Sweeping? || pc.Ended? {
      StepOfClaimer(cfg, s, p, ch);
    } else if pc.Holding? || pc.Cleared? {
      StepOfCaller(cfg, s, p, ch);
    } else {
      StepOfWinner(cfg, s, p, pc.id, ch);
    }
  }

  lemma AdvanceKeepsOutcomes(cfg: Settings, s: State, p: int, ch: Choice)
    requires Inv(cfg, s) && Outcomes(s) && p in s.procs && !SavesEdit(s, Advance(p, ch))
    ensures Outcomes(AdvanceStep(cfg, s, p, ch))
  {
    var t := AdvanceStep(cfg, s, p, ch);
    forall id | id in s.winner ensures id in s.table && id in t.table && SameDecision(s.table[id], t.table[id]) {
      AdvanceKeepsDecision(cfg, s, p, ch, id);
    }
    AdvanceFrame(cfg, s, p, ch);
    AdvanceOutcome(cfg, s, p, ch);
    forall q | q in t.procs ensures OutcomeOk(t, q) {
      if q != p {
        OutcomeFrame(s, t, q);
      }
    }
  }

  /** Filing, spawning and the clock: processes stay, and a new one has only started. */
  lemma EnvironmentKeepsOutcome(cfg: Settings, s: State, e: Event, q: int)
    requires Inv(cfg, s) && Outcomes(s) && !(e.Advance? && e.p in s.procs) && q in Step(cfg, s, e).procs
    requires forall id | id in s.winner :: id in s.table && id in Step(cfg, s, e).table && SameDecision(s.table[id], Step(cfg, s, e).table[id])
    ensures OutcomeOk(Step(cfg, s, e), q)
  {
    EnvironmentKeepsProc(cfg, s, e, q);
    if q in s.procs {
      OutcomeFrame(s, Step(cfg, s, e), q);
    }
  }

  lemma EnvironmentKeepsOutcomes(cfg: Settings, s: State, e: Event)
    requires Inv(cfg, s) && Outcomes(s) && !(e.Advance? && e.p in s.procs)
    ensures Outcomes(Step(cfg, s, e))
  {
    var t := Step(cfg, s, e);
    forall id | id in s.winner ensures id in s.table && id in t.table && SameDecision(s.table[id], t.table[id]) {
      EnvironmentKeepsRow(cfg, s, e, id);
    }
    forall q | q in t.procs ensures OutcomeOk(t, q) {
      EnvironmentKeepsOutcome(cfg, s, e, q);
    }
  }

  lemma StepKeepsOutcomes(cfg: Settings, s: State, e: Event)
    requires Inv(cfg, s) && Outcomes(s) && !SavesEdit(s, e)
    ensures Outcomes(Step(cfg, s, e))
  {
    if e.Advance? && e.p in s.procs {
      AdvanceKeepsOutcomes(cfg, s, e.p, e.choice);
    } else {
      EnvironmentKeepsOutcomes(cfg, s, e);
    }
  }

  lemma {:induction false} RunKeepsOutcomes(cfg: Settings, clock: int, evs: seq<Event>)
    requires !StoresEdit(cfg, Initial(clock), evs)
    ensures Inv(cfg, Run(cfg, Initial(clock), evs)) && Outcomes(Run(cfg, Initial(clock), evs))
  {
    InitialInv(cfg, clock);
    RunKeepsInv(cfg, Initial(clock), evs);
    if evs != [] {
      RunKeepsOutcomes(cfg, clock, evs[..|evs| - 1]);
      StepKeepsOutcomes(cfg, Run(cfg, Initial(clock), evs[..|evs| - 1]), evs[|evs| - 1]);
    }
  }

  // ----- the theorem -----

  ghost predicate NoEffects(s: State, p: int) {
    forall id :: s.callbacks[(id, p)] == 0 && s.audits[(id, p)] == 0 && s.signals[(id, p)] == 0
  }

  ghost predicate ToldTheTruth(s: State, p: int)
    requires p in s.procs && !s.procs[p].job.SweepJob? && s.procs[p].pc.Ended?
  {
    var job, outcome := s.procs[p].job, s.procs[p].pc.outcome;
    && (outcome.Finished? <==> OwnedBy(s, job.id, p) && !s.table[job.id].status.Expired?)
    && (outcome.Finished? ==>
          CarriesJob(s.table[job.id], job) && s.audits[(job.id, p)] == 1 && s.signals[(job.id, p)] == 1)
    && (outcome.NotPending? ==>
          (OwnsNothing(s, p) && NoEffects(s, p))
          || (job.DecideJob? && OwnedBy(s, job.id, p) && s.table[job.id].status.Expired?))
    && (outcome.NotEligible? || outcome.Disabled? ==> OwnsNothing(s, p) && NoEffects(s, p))
  }

  /** Nothing was told: the callback left a row the table refuses, and the exception came
      after the row was won and before its audit row and signal. */
  ghost predicate RaisedAfterWinning(s: State, p: int)
    requires p in s.procs && !s.procs[p].job.SweepJob?
  {
    var job := s.procs[p].job;
    && OwnedBy(s, job.id, p) && WonByJob(s.table[job.id], job)
    && s.audits[(job.id, p)] == 0 && s.signals[(job.id, p)] == 0
  }

  lemma OwningNothingHasNoEffects(cfg: Settings, s: State, p: int)
    requires Inv(cfg, s) && OwnsNothing(s, p)
    ensures NoEffects(s, p)
  {
    forall id ensures s.callbacks[(id, p)] == 0 && s.audits[(id, p)] == 0 && s.signals[(id, p)] == 0 {
      assert EffectsOk(s, id, p);
    }
  }

  lemma FinishedHasEffects(cfg: Settings, s: State, p: int, id: Pk)
    requires Inv(cfg, s) && p in s.procs && s.procs[p].pc.Ended? && OwnedBy(s, id, p)
    ensures s.audits[(id, p)] == 1 && s.signals[(id, p)] == 1
  {
    assert EffectsOk(s, id, p);
  }

  lemma OutcomeIsTruth(cfg: Settings, s: State, p: int)
    requires Inv(cfg, s) && p in s.procs && OutcomeOk(s, p)
    requires !s.procs[p].job.SweepJob? && s.procs[p].pc.Ended?
    ensures ToldTheTruth(s, p)
  {
    var job := s.procs[p].job;
    if OwnsNothing(s, p) {
      OwningNothingHasNoEffects(cfg, s, p);
    }
    if OwnedBy(s, job.id, p) {
      FinishedHasEffects(cfg, s, p, job.id);
    }
  }

  lemma RefusedIsRaised(cfg: Settings, s: State, p: int)
    requires Inv(cfg, s) && p in s.procs && OutcomeOk(s, p)
    requires !s.procs[p].job.SweepJob? && s.procs[p].pc.Refused?
    ensures RaisedAfterWinning(s, p)
  {
    assert EffectsOk(s, s.procs[p].job.id, p);
  }

  /** In every state of a run that stores no edit of a callback, a decider or canceller
      that has ended was told the truth: it finished exactly if it won its request other
      than by expiry, and then the row carries its own decision, actor and note, with one
      audit row and one signal; told that the request was not pending it either won
      nothing and had no effect at all, or performed the lazy expiry; told anything else
      it won nothing and had no effect. Only a re-save that the table refuses tells
      nothing: the decision stands without audit row and signal. */
  lemma CallersAreToldTheTruth(cfg: Settings, clock: int, evs: seq<Event>, p: int)
    requires !StoresEdit(cfg, Initial(clock), evs)
    ensures var s := Run(cfg, Initial(clock), evs);
      p in s.procs && !s.procs[p].job.SweepJob? ==>
        && (s.procs[p].pc.Ended? ==> ToldTheTruth(s, p))
        && (s.procs[p].pc.Refused? ==> RaisedAfterWinning(s, p))
  {
    RunKeepsOutcomes(cfg, clock, evs);
    var s := Run(cfg, Initial(clock), evs);
    if p in s.procs && !s.procs[p].job.SweepJob? {
      assert OutcomeOk(s, p);
      if s.procs[p].pc.Ended? {
        OutcomeIsTruth(cfg, s, p);
      } else if s.procs[p].pc.Refused? {
        RefusedIsRaised(cfg, s, p);
      }
    }
  }
}
