/** What holds over every interleaving of the approvals protocol. */
module ApprovalTheorems {
  import opened Common
  import opened Approvals
  import opened ApprovalProtocol

  lemma InitialInv(cfg: Settings, clock: int)
    ensures Inv(cfg, Initial(clock))
  {
  }

  /** The step re-saves `id` with a decision that its callback changed. */
  ghost predicate EditsDecision(s: State, e: Event, id: Pk) {
    SavesEdit(s, e) && s.procs[e.p].pc.id == id
  }

  /** One step never edits the request itself or changes who won it, and it changes a
      terminal decision exactly when it re-saves one that the callback changed. */
  lemma StepKeepsDecision(cfg: Settings, s: State, e: Event, id: Pk)
    requires Inv(cfg, s) && id in s.table
    ensures id in Step(cfg, s, e).table && SameRequest(s.table[id], Step(cfg, s, e).table[id])
    ensures !s.table[id].status.Pending? ==>
      && (SameDecision(s.table[id], Step(cfg, s, e).table[id]) <==> !EditsDecision(s, e, id))
      && id in s.winner && id in Step(cfg, s, e).winner && Step(cfg, s, e).winner[id] == s.winner[id]
  {
    if e.Advance? && e.p in s.procs {
      AdvanceKeepsDecision(cfg, s, e.p, e.choice, id);
    } else {
      EnvironmentKeepsRow(cfg, s, e, id);
    }
  }

  lemma EnvironmentKeepsRow(cfg: Settings, s: State, e: Event, id: Pk)
    requires !(e.Advance? && e.p in s.procs) && id in s.table
    ensures var t := Step(cfg, s, e);
      t.winner == s.winner && id in t.table && t.table[id] == s.table[id]
  {
  }

  lemma EnvironmentKeepsProc(cfg: Settings, s: State, e: Event, p: int)
    requires !(e.Advance? && e.p in s.procs)
    ensures var t := Step(cfg, s, e);
      && t.winner == s.winner
      && (p in s.procs ==> p in t.procs && t.procs[p] == s.procs[p])
      && (p !in s.procs && p in t.procs ==> t.procs[p].pc.Starting?)
  {
  }

  lemma AdvanceKeepsDecision(cfg: Settings, s: State, p: int, ch: Choice, id: Pk)
    requires Inv(cfg, s) && p in s.procs && id in s.table
    ensures var t := AdvanceStep(cfg, s, p, ch);
      && id in t.table && SameRequest(s.table[id], t.table[id])
      && (!s.table[id].status.Pending? ==>
            && (SameDecision(s.table[id], t.table[id]) <==> !EditsDecision(s, Advance(p, ch), id))
            && id in s.winner && id in t.winner && t.winner[id] == s.winner[id])
  {
    if s.procs[p].pc.Claiming? {
      UpdateKeepsDecision(cfg, s, p, id);
    } else {
      OtherStepsKeepRow(cfg, s, p, ch, id);
    }
  }

  lemma UpdateKeepsDecision(cfg: Settings, s: State, p: int, id: Pk)
    requires p in s.procs && s.procs[p].pc.Claiming? && id in s.table
    requires id in s.winner <==> !s.table[id].status.Pending?
    ensures var pc := s.procs[p].pc;
      var t := Update(s, p, pc.id, pc.claim, pc.admitted);
      && id in t.table && SameRequest(s.table[id], t.table[id])
      && (!s.table[id].status.Pending? ==>
            t.table[id] == s.table[id] && id in t.winner && t.winner[id] == s.winner[id])
  {
  }

  /** No step but the conditional UPDATE changes a winner, and none but that and a
      re-save of a changed decision changes a decision. */
  lemma OtherStepsKeepRow(cfg: Settings, s: State, p: int, ch: Choice, id: Pk)
    requires Inv(cfg, s) && p in s.procs && !s.procs[p].pc.Claiming? && id in s.table
    ensures var t := AdvanceStep(cfg, s, p, ch);
      && t.winner == s.winner && id in t.table && SameRequest(s.table[id], t.table[id])
      && (SameDecision(s.table[id], t.table[id]) <==> !EditsDecision(s, Advance(p, ch), id))
  {
    assert ProcOk(cfg, s, p);
    if s.procs[p].pc.CallbackDone? {
      ResaveOfRow(cfg, s, p, s.procs[p].pc.id, id);
    } else if s.procs[p].pc.Refreshed? {
      CallbackKeepsRow(s, p, s.procs[p].pc.id, s.procs[p].pc.copy, ch.callback, id);
    } else {
      QuietSteps(cfg, s, p, ch);
    }
  }

  lemma ResaveOfRow(cfg: Settings, s: State, p: int, i: Pk, id: Pk)
    requires Inv(cfg, s) && p in s.procs && s.procs[p].pc.CallbackDone? && s.procs[p].pc.id == i && i in s.table && id in s.table
    ensures var t := Resave(s, p, i, s.procs[p].pc.left);
      && t.winner == s.winner && id in t.table && SameRequest(s.table[id], t.table[id])
      && (SameDecision(s.table[id], t.table[id]) <==> !(i == id && Overwrites(s.procs[p].pc.given, s.procs[p].pc.left)))
  {
    ResaveKeepsDecision(cfg, s, p, i, s.procs[p].pc.given, s.procs[p].pc.left);
  }

  lemma CallbackKeepsRow(s: State, p: int, i: Pk, copy: Row, callback: Callback, id: Pk)
    requires p in s.procs && i in s.table && id in s.table
    ensures var t := RunCallback(s, p, i, copy, callback);
      t.winner == s.winner && id in t.table && s.table[id] == t.table[id].(callbackFailed := s.table[id].callbackFailed)
  {
  }

  ghost predicate Quiet(s: State, t: State) { t.table == s.table && t.winner == s.winner }

  lemma LoadIsQuiet(s: State, p: int, selection: seq<Pk>)
    requires p in s.procs
    ensures Quiet(s, Load(s, p, selection))
  {
  }

  lemma NextRowIsQuiet(s: State, p: int)
    requires p in s.procs
    ensures Quiet(s, NextRow(s, p))
  {
  }

  /** The winner of `id` is about to refresh, to write its audit row or to send its signal. */
  ghost predicate HasEffectNext(pc: Pc, id: Pk) { (pc.Won? || pc.Saved? || pc.Audited?) && pc.id == id }

  /** Of rows, winners and processes such a step changes its own program point only. */
  lemma EffectMoves(s: State, p: int, id: Pk) returns (pc: Pc)
    requires p in s.procs && id in s.table && HasEffectNext(s.procs[p].pc, id)
    ensures (Finishing(pc, id) || pc == AfterSignal(s.procs[p])) && !pc.CallbackDone? && !pc.Claiming?
    ensures !pc.Starting? && !pc.Holding? && !pc.Cleared?
    ensures var t := FinishingStep(s, p, id);
      t.procs == s.procs[p := s.procs[p].(pc := pc)] && t.table == s.table && t.winner == s.winner
  {
    pc := FinishingStep(s, p, id).procs[p].pc;
  }

  lemma FinishingIsQuiet(s: State, p: int, id: Pk)
    requires p in s.procs && id in s.table && HasEffectNext(s.procs[p].pc, id)
    ensures Quiet(s, FinishingStep(s, p, id))
  {
    var pc := EffectMoves(s, p, id);
  }

  lemma QuietSteps(cfg: Settings, s: State, p: int, ch: Choice)
    requires p in s.procs
    requires !s.procs[p].pc.Claiming? && !s.procs[p].pc.CallbackDone? && !s.procs[p].pc.Refreshed?
    ensures Quiet(s, AdvanceStep(cfg, s, p, ch))
  {
    match s.procs[p].pc
    case Starting => LoadIsQuiet(s, p, ch.selection);
    case Holding(copy) =>
    case Cleared(admission, to) =>
    case Won(id) => if id in s.table { FinishingIsQuiet(s, p, id); }
    case Saved(id) => if id in s.table { FinishingIsQuiet(s, p, id); }
    case Audited(id) => if id in s.table { FinishingIsQuiet(s, p, id); }
    case Sweeping => NextRowIsQuiet(s, p);
    case Refused(_) =>
    case Ended(_) =>
  }

  /** In a run that stores no such edit a request leaves pending at most once: its
      terminal status, decider, time, note and winner are final whatever happens next. */
  lemma {:induction false} TerminalIsForever(cfg: Settings, s: State, evs: seq<Event>, id: Pk)
    requires Inv(cfg, s) && id in s.table && !StoresEdit(cfg, s, evs)
    ensures id in Run(cfg, s, evs).table && SameRequest(s.table[id], Run(cfg, s, evs).table[id])
    ensures !s.table[id].status.Pending? ==>
      SameDecision(s.table[id], Run(cfg, s, evs).table[id])
      && id in Run(cfg, s, evs).winner && Run(cfg, s, evs).winner[id] == s.winner[id]
  {
    if evs != [] {
      var mid := Run(cfg, s, evs[..|evs| - 1]);
      TerminalIsForever(cfg, s, evs[..|evs| - 1], id);
      RunKeepsInv(cfg, s, evs[..|evs| - 1]);
      StepKeepsDecision(cfg, mid, evs[|evs| - 1], id);
    }
  }

  // ----- decisions are final exactly if no callback changes them -----

  /** Step `n` of the run leaves the decision of `id`, if there is one, as it is. */
  ghost predicate KeepsDecision(cfg: Settings, s: State, evs: seq<Event>, n: nat, id: Pk)
    requires n < |evs|
  {
    var before, after := Run(cfg, s, evs[..n]), Run(cfg, s, evs[..n + 1]);
    id in before.table && !before.table[id].status.Pending? ==>
      id in after.table && SameDecision(before.table[id], after.table[id])
  }

  ghost predicate DecisionsFinal(cfg: Settings, s: State, evs: seq<Event>) {
    forall n: nat, id | n < |evs| :: KeepsDecision(cfg, s, evs, n, id)
  }

  lemma {:induction false} PrefixStoresNothing(cfg: Settings, s: State, evs: seq<Event>, n: nat)
    requires !StoresEdit(cfg, s, evs) && n <= |evs|
    ensures !StoresEdit(cfg, s, evs[..n])
  {
    if n < |evs| {
      PrefixStoresNothing(cfg, s, evs[..|evs| - 1], n);
      assert evs[..|evs| - 1][..n] == evs[..n];
    } else {
      assert evs[..n] == evs;
    }
  }

  lemma LastSavesNothing(cfg: Settings, s: State, evs: seq<Event>, n: nat)
    requires n < |evs| && !StoresEdit(cfg, s, evs[..n + 1])
    ensures !SavesEdit(Run(cfg, s, evs[..n]), evs[n])
  {
    assert evs[..n + 1][..n] == evs[..n];
  }

  lemma {:induction false} FirstEdit(cfg: Settings, s: State, evs: seq<Event>) returns (n: nat)
    requires StoresEdit(cfg, s, evs)
    ensures n < |evs| && !StoresEdit(cfg, s, evs[..n]) && SavesEdit(Run(cfg, s, evs[..n]), evs[n])
  {
    n := |evs| - 1;
    if StoresEdit(cfg, s, evs[..n]) {
      var m := n;
      n := FirstEdit(cfg, s, evs[..m]);
      assert evs[..m][..n] == evs[..n];
    }
  }

  lemma StepOfRun(cfg: Settings, s: State, evs: seq<Event>, n: nat)
    requires n < |evs|
    ensures Run(cfg, s, evs[..n + 1]) == Step(cfg, Run(cfg, s, evs[..n]), evs[n])
  {
    assert evs[..n + 1][..n] == evs[..n];
  }

  lemma QuietRunKeepsDecision(cfg: Settings, s: State, evs: seq<Event>, n: nat, id: Pk)
    requires Inv(cfg, s) && !StoresEdit(cfg, s, evs) && n < |evs|
    ensures KeepsDecision(cfg, s, evs, n, id)
  {
    PrefixStoresNothing(cfg, s, evs, n);
    PrefixStoresNothing(cfg, s, evs, n + 1);
    LastSavesNothing(cfg, s, evs, n);
    RunKeepsInv(cfg, s, evs[..n]);
    StepOfRun(cfg, s, evs, n);
    if id in Run(cfg, s, evs[..n]).table {
      StepKeepsDecision(cfg, Run(cfg, s, evs[..n]), evs[n], id);
    }
  }

  lemma EditChangesDecision(cfg: Settings, s: State, evs: seq<Event>) returns (n: nat, id: Pk)
    requires Inv(cfg, s) && StoresEdit(cfg, s, evs)
    ensures n < |evs| && !KeepsDecision(cfg, s, evs, n, id)
  {
    n := FirstEdit(cfg, s, evs);
    RunKeepsInv(cfg, s, evs[..n]);
    StepOfRun(cfg, s, evs, n);
    var mid, p := Run(cfg, s, evs[..n]), evs[n].p;
    id := mid.procs[p].pc.id;
    ResaveKeepsDecision(cfg, mid, p, id, mid.procs[p].pc.given, mid.procs[p].pc.left);
    StepKeepsDecision(cfg, mid, evs[n], id);
  }

  /** Over every run decisions are final exactly if no re-save stores one that the
      callback changed: one that returned, and left values the table's constraint takes. */
  lemma DecisionsAreFinal(cfg: Settings, s: State, evs: seq<Event>)
    requires Inv(cfg, s)
    ensures DecisionsFinal(cfg, s, evs) <==> !StoresEdit(cfg, s, evs)
  {
    if StoresEdit(cfg, s, evs) {
      var n, id := EditChangesDecision(cfg, s, evs);
    } else {
      forall n: nat, id | n < |evs| ensures KeepsDecision(cfg, s, evs, n, id) {
        QuietRunKeepsDecision(cfg, s, evs, n, id);
      }
    }
  }

  /** A callback run in this step, if it returns, assigns no field. */
  predicate Discreet(e: Event) {
    e.Advance? && e.choice.callback.Leaves? ==> e.choice.callback.edit.None?
  }

  ghost predicate NothingLeft(s: State) {
    forall p | p in s.procs && s.procs[p].pc.CallbackDone? :: s.procs[p].pc.left == s.procs[p].pc.given
  }

  lemma CallbackLeavesNothing(s: State, p: int, id: Pk, copy: Row, callback: Callback)
    requires NothingLeft(s) && p in s.procs && id in s.table && (callback.Leaves? ==> callback.edit.None?)
    ensures NothingLeft(RunCallback(s, p, id, copy, callback))
  {
  }

  lemma UpdateLeavesNothing(s: State, p: int, id: Pk, claim: Claim, adm: Option<Admission>)
    requires NothingLeft(s) && p in s.procs
    ensures NothingLeft(Update(s, p, id, claim, adm))
  {
  }

  lemma ResaveLeavesNothing(s: State, p: int, id: Pk, left: Row)
    requires NothingLeft(s) && p in s.procs && id in s.table
    ensures NothingLeft(Resave(s, p, id, left))
  {
  }

  lemma FinishingLeavesNothing(s: State, p: int, id: Pk)
    requires NothingLeft(s) && p in s.procs && id in s.table && HasEffectNext(s.procs[p].pc, id)
    ensures NothingLeft(FinishingStep(s, p, id))
  {
    var pc := EffectMoves(s, p, id);
  }

  lemma LoadLeavesNothing(s: State, p: int, selection: seq<Pk>)
    requires NothingLeft(s) && p in s.procs
    ensures NothingLeft(Load(s, p, selection))
  {
  }

  lemma GotoLeavesNothing(s: State, p: int, pc: Pc)
    requires NothingLeft(s) && p in s.procs && !pc.CallbackDone?
    ensures NothingLeft(Goto(s, p, pc))
  {
  }

  lemma NextRowLeavesNothing(s: State, p: int)
    requires NothingLeft(s) && p in s.procs
    ensures NothingLeft(NextRow(s, p))
  {
  }

  lemma AdvanceLeavesNothing(cfg: Settings, s: State, p: int, ch: Choice)
    requires NothingLeft(s) && p in s.procs && Discreet(Advance(p, ch))
    ensures NothingLeft(AdvanceStep(cfg, s, p, ch))
  {
    match s.procs[p].pc
    case Starting => LoadLeavesNothing(s, p, ch.selection);
    case Holding(copy) =>
      if !s.procs[p].job.SweepJob? { GotoLeavesNothing(s, p, Guards(cfg, s.procs[p].job, copy, s.clock, ch.hook)); }
    case Cleared(adm, to) =>
    case Claiming(id, claim, adm) => UpdateLeavesNothing(s, p, id, claim, adm);
    case Won(id) => if id in s.table { FinishingLeavesNothing(s, p, id); }
    case Refreshed(id, copy) => if id in s.table { CallbackLeavesNothing(s, p, id, copy, ch.callback); }
    case CallbackDone(id, _, left) => if id in s.table { ResaveLeavesNothing(s, p, id, left); }
    case Saved(id) => if id in s.table { FinishingLeavesNothing(s, p, id); }
    case Audited(id) => if id in s.table { FinishingLeavesNothing(s, p, id); }
    case Sweeping => NextRowLeavesNothing(s, p);
    case Refused(_) =>
    case Ended(_) =>
  }

  /** If no callback that returns assigns a field, no edit is ever stored, so decisions
      are final. */
  lemma {:induction false} DiscreetCallbacksStoreNothing(cfg: Settings, s: State, evs: seq<Event>)
    requires NothingLeft(s) && forall i | 0 <= i < |evs| :: Discreet(evs[i])
    ensures NothingLeft(Run(cfg, s, evs)) && !StoresEdit(cfg, s, evs)
  {
    if evs != [] {
      var front, e := evs[..|evs| - 1], evs[|evs| - 1];
      DiscreetCallbacksStoreNothing(cfg, s, front);
      if e.Advance? && e.p in Run(cfg, s, front).procs {
        AdvanceLeavesNothing(cfg, Run(cfg, s, front), e.p, e.choice);
      }
    }
  }

  /** In every state of a run that stores no edit the callback, the audit row and the signal of a
      request come only from the process whose UPDATE won it, at most once each,
      and exactly once when that process is done with it (the callback if any). */
  lemma EffectsOnlyByWinner(cfg: Settings, clock: int, evs: seq<Event>, id: Pk, p: int)
    requires !StoresEdit(cfg, Initial(clock), evs)
    ensures var s := Run(cfg, Initial(clock), evs);
      && s.callbacks[(id, p)] <= 1 && s.audits[(id, p)] <= 1 && s.signals[(id, p)] <= 1
      && (s.callbacks[(id, p)] + s.audits[(id, p)] + s.signals[(id, p)] > 0 ==>
            id in s.winner && s.winner[id] == p && id in s.table && !s.table[id].status.Pending?)
      && (id in s.winner && s.winner[id] == p && p in s.procs && !Finishing(s.procs[p].pc, id) ==>
            s.audits[(id, p)] == 1 && s.signals[(id, p)] == 1)
  {
    InitialInv(cfg, clock);
    RunKeepsInv(cfg, Initial(clock), evs);
    var s := Run(cfg, Initial(clock), evs);
    assert EffectsOk(s, id, p);
  }

  /** A helper of `ApprovalOutcomes`: a claimer that finds the row no longer pending moves only itself. */
  lemma LoserHasNoEffect(s: State, p: int, id: Pk, claim: Claim, adm: Option<Admission>)
    requires p in s.procs && !(id in s.table && s.table[id].status.Pending?)
    ensures Update(s, p, id, claim, adm) == Goto(s, p, if s.procs[p].job.SweepJob? then Sweeping else Ended(NotPending))
  {
  }

  /** The row invariant of every state of a run that stores no edit, with the table's check
      constraint as its first clause; and each approved or rejected row's
      decider passed `can_decide` on the pending copy they read, with their
      overdue test run before the deadline. */
  lemma RowsOfEveryRun(cfg: Settings, clock: int, evs: seq<Event>, id: Pk)
    requires !StoresEdit(cfg, Initial(clock), evs)
    ensures var s := Run(cfg, Initial(clock), evs);
      id in s.table ==>
        && RowOk(s.table[id])
        && (s.table[id].status.Approved? || s.table[id].status.Rejected? ==>
              id in s.admissions && DecidedInTime(cfg, s.admissions[id], s.table[id]))
        && (s.table[id].status.Canceled? ==>
              id in s.admissions && s.admissions[id].copy.status.Pending?
              && CanCancel(s.admissions[id].actor, s.admissions[id].copy)
              && s.table[id].decidedBy == s.admissions[id].actor.pk)
  {
    InitialInv(cfg, clock);
    RunKeepsInv(cfg, Initial(clock), evs);
    var s := Run(cfg, Initial(clock), evs);
    if id in s.table {
      assert RowOk(s.table[id]) && RowAdmitted(cfg, s, id);
    }
  }

  ghost predicate DecidedInTime(cfg: Settings, adm: Admission, row: Row) {
    && adm.copy.status.Pending?
    && CanDecide(cfg, adm.actor, adm.copy, adm.hook)
    && row.decidedBy == adm.actor.pk && row.decidedBy.Some?
    && (row.expiresAt.Some? ==> adm.at < row.expiresAt.value)
    && row.decidedAt.Some? && adm.at <= row.decidedAt.value
  }

  // ----- lazy expiry against eager expiry -----

  /** The step is a decider's or canceller's UPDATE that wins `id`. */
  ghost predicate WinsDecision(s: State, e: Event, id: Pk) {
    && e.Advance? && e.p in s.procs && id in s.table && s.table[id].status.Pending?
    && s.procs[e.p].pc.Claiming? && s.procs[e.p].pc.id == id && s.procs[e.p].pc.claim.Decision?
  }

  /** The step re-saves `id` with another status than its callback was given. */
  ghost predicate EditsStatus(s: State, e: Event, id: Pk, now: int) {
    EditsDecision(s, e, id) && EffectiveStatus(s.procs[e.p].pc.left, now) != EffectiveStatus(s.procs[e.p].pc.given, now)
  }

  /** The row reads differently after the step, or is gone. */
  ghost predicate ChangesStatus(s: State, t: State, id: Pk, now: int)
    requires id in s.table
  {
    id in t.table ==> EffectiveStatus(t.table[id], now) != EffectiveStatus(s.table[id], now)
  }

  /** A step changes a row's effective status, at an instant not yet past, exactly when
      it is a winning decision or cancellation, or stores a status that a callback
      assigned: no sweep and no lazy expiry, of any rows in any order, is visible. */
  lemma OnlyDecisionsAreVisible(cfg: Settings, s: State, e: Event, id: Pk, now: int)
    requires Inv(cfg, s) && id in s.table && s.clock <= now
    ensures ChangesStatus(s, Step(cfg, s, e), id, now) <==> WinsDecision(s, e, id) || EditsStatus(s, e, id, now)
  {
    if e.Advance? && e.p in s.procs {
      AdvanceVisibility(cfg, s, e.p, e.choice, id, now);
    } else {
      EnvironmentKeepsRow(cfg, s, e, id);
    }
  }

  lemma AdvanceVisibility(cfg: Settings, s: State, p: int, ch: Choice, id: Pk, now: int)
    requires Inv(cfg, s) && id in s.table && p in s.procs && s.clock <= now
    ensures ChangesStatus(s, AdvanceStep(cfg, s, p, ch), id, now)
      <==> WinsDecision(s, Advance(p, ch), id) || EditsStatus(s, Advance(p, ch), id, now)
  {
    assert ProcOk(cfg, s, p);
    if s.procs[p].pc.Claiming? {
      UpdateVisibility(cfg, s, p, id, now);
    } else if s.procs[p].pc.CallbackDone? {
      ResaveVisibility(cfg, s, p, id, now);
    } else {
      OtherStepsKeepRow(cfg, s, p, ch, id);
    }
  }

  lemma ResaveVisibility(cfg: Settings, s: State, p: int, id: Pk, now: int)
    requires p in s.procs && ProcOk(cfg, s, p) && s.procs[p].pc.CallbackDone? && id in s.table
    ensures var pc := s.procs[p].pc;
      var t := Resave(s, p, pc.id, pc.left);
      && pc.id in s.table && id in t.table
      && (EffectiveStatus(t.table[id], now) != EffectiveStatus(s.table[id], now)
          <==> pc.id == id && Overwrites(pc.given, pc.left) && EffectiveStatus(pc.left, now) != EffectiveStatus(pc.given, now))
  {
  }

  lemma UpdateVisibility(cfg: Settings, s: State, p: int, id: Pk, now: int)
    requires p in s.procs && ProcOk(cfg, s, p) && s.procs[p].pc.Claiming? && id in s.table && s.clock <= now
    ensures var pc := s.procs[p].pc;
      var t := Update(s, p, pc.id, pc.claim, pc.admitted);
      && id in t.table
      && (EffectiveStatus(t.table[id], now) != EffectiveStatus(s.table[id], now)
          <==> pc.id == id && s.table[id].status.Pending? && pc.claim.Decision?)
  {
  }

  // ----- what the protocol does not promise -----

  lemma RunSnoc(cfg: Settings, s: State, evs: seq<Event>, e: Event)
    ensures Run(cfg, s, evs + [e]) == Step(cfg, Run(cfg, s, evs), e)
  {
    assert (evs + [e])[..|evs|] == evs;
  }

  const CHOICE := Choice(NoHook, NoCallback, [])
  const BOSS := Actor(Some(9), true, true)
  const ROW := Row(Some(7), {}, Some(10), Pending, None, None, "", false)

  lemma FiledAndStarted(cfg: Settings) returns (evs: seq<Event>)
    ensures var s := Run(cfg, Initial(0), evs);
      && s.table == map[Pk(1) := ROW] && s.clock == 0
      && s.procs == map[0 := Proc(DecideJob(Pk(1), BOSS, true, ""), Starting, [], 0, false)]
  {
    var e1, e2 := File(Pk(1), Some(7), {}, Some(10)), Spawn(0, DecideJob(Pk(1), BOSS, true, ""));
    RunSnoc(cfg, Initial(0), [], e1);
    RunSnoc(cfg, Initial(0), [] + [e1], e2);
    evs := [] + [e1] + [e2];
  }

  /** A decider passes its guards at instant 0, ten seconds before the deadline. */
  lemma ClearedBeforeDeadline(cfg: Settings) returns (evs: seq<Event>)
    requires cfg.enabled
    ensures var s := Run(cfg, Initial(0), evs);
      && s.table == map[Pk(1) := ROW] && s.clock == 0
      && 0 in s.procs
      && s.procs[0] == Proc(DecideJob(Pk(1), BOSS, true, ""), Cleared(Admission(ROW, 0, BOSS, NoHook), Approved), [], 0, false)
  {
    evs := FiledAndStarted(cfg);
    RunSnoc(cfg, Initial(0), evs, Advance(0, CHOICE));
    evs := evs + [Advance(0, CHOICE)];
    var s := Run(cfg, Initial(0), evs);
    assert s.procs[0].pc == Holding(ROW);
    RunSnoc(cfg, Initial(0), evs, Advance(0, CHOICE));
    evs := evs + [Advance(0, CHOICE)];
  }

  const DECIDED := ROW.(status := Approved, decidedBy := Some(9), decidedAt := Some(0))

  /** The same decider goes on at once and wins. */
  lemma ApprovedInTime(cfg: Settings) returns (evs: seq<Event>)
    requires cfg.enabled
    ensures var s := Run(cfg, Initial(0), evs);
      s.table == map[Pk(1) := DECIDED] && 0 in s.procs && s.procs[0].pc == Won(Pk(1))
  {
    evs := ClearedBeforeDeadline(cfg);
    RunSnoc(cfg, Initial(0), evs, Advance(0, CHOICE));
    evs := evs + [Advance(0, CHOICE)];
    var s := Run(cfg, Initial(0), evs);
    assert s.procs[0].pc == Claiming(Pk(1), Decision(Approved, Some(9), 0, ""), Some(Admission(ROW, 0, BOSS, NoHook)));
    RunSnoc(cfg, Initial(0), evs, Advance(0, CHOICE));
    evs := evs + [Advance(0, CHOICE)];
  }

  /** Its callback leaves the edit on the instance. */
  lemma ApprovedAndEdited(cfg: Settings, edit: Edit) returns (evs: seq<Event>)
    requires cfg.enabled
    ensures var s := Run(cfg, Initial(0), evs);
      && s.table == map[Pk(1) := DECIDED] && 0 in s.procs
      && s.procs[0].pc == CallbackDone(Pk(1), DECIDED, Edited(DECIDED, edit))
  {
    evs := ApprovedInTime(cfg);
    RunSnoc(cfg, Initial(0), evs, Advance(0, CHOICE));
    evs := evs + [Advance(0, CHOICE)];
    var s, edits := Run(cfg, Initial(0), evs), Advance(0, Choice(NoHook, Leaves(Some(edit)), []));
    assert s.procs[0].pc == Refreshed(Pk(1), DECIDED);
    RunSnoc(cfg, Initial(0), evs, edits);
    evs := evs + [edits];
  }

  /** Whatever a callback assigns, if the table's constraint takes it, can end up in a
      decided row: a longer note, another decider, or pending once more. */
  lemma AnyEditCanBeStored(cfg: Settings, edit: Edit) returns (evs: seq<Event>, last: Event)
    requires cfg.enabled && Storable(Edited(DECIDED, edit))
    ensures var before, after := Run(cfg, Initial(0), evs), Run(cfg, Initial(0), evs + [last]);
      before.table == map[Pk(1) := DECIDED] && after.table == map[Pk(1) := Edited(DECIDED, edit)]
  {
    evs := ApprovedAndEdited(cfg, edit);
    last := Advance(0, CHOICE);
    RunSnoc(cfg, Initial(0), evs, last);
  }

  /** It reads the clock for its claim at instant 20, ten seconds past it. */
  lemma StampedAfterDeadline(cfg: Settings) returns (evs: seq<Event>)
    requires cfg.enabled
    ensures var s := Run(cfg, Initial(0), evs);
      && s.table == map[Pk(1) := ROW] && s.clock == 20
      && 0 in s.procs && s.procs[0].job.DecideJob?
      && s.procs[0].pc == Claiming(Pk(1), Decision(Approved, Some(9), 20, ""), Some(Admission(ROW, 0, BOSS, NoHook)))
  {
    evs := ClearedBeforeDeadline(cfg);
    RunSnoc(cfg, Initial(0), evs, Tick(20));
    evs := evs + [Tick(20)];
    var s := Run(cfg, Initial(0), evs);
    assert s.procs[0].pc == Cleared(Admission(ROW, 0, BOSS, NoHook), Approved);
    RunSnoc(cfg, Initial(0), evs, Advance(0, CHOICE));
    evs := evs + [Advance(0, CHOICE)];
  }

  /** The deadline is tested before the claim, so an approval can be stamped and
      stored after it, turning a row that already read as expired. */
  lemma ApprovalCanLandAfterDeadline(cfg: Settings) returns (evs: seq<Event>, last: Event)
    requires cfg.enabled
    ensures var before, after := Run(cfg, Initial(0), evs), Run(cfg, Initial(0), evs + [last]);
      && Pk(1) in before.table && EffectiveStatus(before.table[Pk(1)], before.clock) == Expired
      && Pk(1) in after.table && EffectiveStatus(after.table[Pk(1)], after.clock) == Approved
      && after.table[Pk(1)].expiresAt == Some(10) && after.table[Pk(1)].decidedAt == Some(20)
  {
    evs := StampedAfterDeadline(cfg);
    last := Advance(0, CHOICE);
    RunSnoc(cfg, Initial(0), evs, last);
  }
}
