/** The approvals lifecycle as an interleaving of deciders, cancellers and expiry
    sweepers that hold stale copies (apps/approvals/services.py). */
module ApprovalProtocol {
  import opened Common
  import opened Approvals

  datatype Job =
    | DecideJob(id: Pk, actor: Actor, approved: bool, note: string)
    | CancelJob(id: Pk, actor: Actor, note: string)
    | SweepJob

  /** The fields a conditional UPDATE writes. */
  datatype Claim =
    | Expiry(at: int)
    | Decision(to: Status, decider: Option<int>, at: int, note: string)

  /** What the actor's guards were evaluated on, and when. */
  datatype Admission = Admission(copy: Row, at: int, actor: Actor, hook: Hook)

  datatype Outcome = Finished | NotPending | NotEligible | Disabled

  datatype Pc =
    | Starting
    | Holding(copy: Row)
    | Cleared(admission: Admission, to: Status)
    | Claiming(id: Pk, claim: Claim, admitted: Option<Admission>)
    | Won(id: Pk)
    | Refreshed(id: Pk, copy: Row)
    | CallbackDone(id: Pk, given: Row, left: Row)
    | Saved(id: Pk)
    | Audited(id: Pk)
    | Refused(id: Pk)
    | Sweeping
    | Ended(outcome: Outcome)

  /** `queue` and `sweepAt` are the sweep's selected rows and captured instant;
      `expiring` tells that the claim it won with was an expiry. */
  datatype Proc = Proc(job: Job, pc: Pc, queue: seq<Pk>, sweepAt: int, expiring: bool)

  datatype State = State(table: Table, clock: int, procs: map<int, Proc>,
                         winner: map<Pk, int>, admissions: map<Pk, Admission>,
                         callbacks: multiset<(Pk, int)>, audits: multiset<(Pk, int)>, signals: multiset<(Pk, int)>)

  /** The values of the claimed fields a callback leaves on the instance it is given. */
  datatype Edit = Edit(status: Status, decidedBy: Option<int>, decidedAt: Option<int>, decisionNote: string, callbackFailed: bool)

  /** What the kind's callback does: it may be missing, raise, or return. */
  datatype Callback = NoCallback | CallbackRaises | Leaves(edit: Option<Edit>)

  /** What the environment resolves during one step. */
  datatype Choice = Choice(hook: Hook, callback: Callback, selection: seq<Pk>)

  datatype Event =
    | File(id: Pk, requestedBy: Option<int>, assignees: set<int>, expiresAt: Option<int>)
    | Tick(seconds: nat)
    | Spawn(p: int, job: Job)
    | Advance(p: int, choice: Choice)

  function Goto(s: State, p: int, pc: Pc): State
    requires p in s.procs
  {
    s.(procs := s.procs[p := s.procs[p].(pc := pc)])
  }

  function Apply(row: Row, c: Claim): Row {
    match c
    case Expiry(at) => row.(status := Expired, decidedAt := Some(at))
    case Decision(to, decider, at, note) => row.(status := to, decidedBy := decider, decidedAt := Some(at), decisionNote := note)
  }

  // ----- one step of a process, by program point -----

  /** Read the instance to act on, or select the overdue rows to sweep. */
  function Load(s: State, p: int, selection: seq<Pk>): State
    requires p in s.procs
  {
    var proc := s.procs[p];
    if proc.job.SweepJob? then
      if forall id | id in selection :: id in OverdueRows(s.table, s.clock)
      then s.(procs := s.procs[p := proc.(pc := Sweeping, queue := selection, sweepAt := s.clock)])
      else s
    else if proc.job.id in s.table then Goto(s, p, Holding(s.table[proc.job.id]))
    else s
  }

  /** The guards of `decide` and `cancel`, on the copy the caller holds. */
  function Guards(cfg: Settings, job: Job, copy: Row, now: int, hook: Hook): Pc
    requires !job.SweepJob?
  {
    var admission := Admission(copy, now, job.actor, hook);
    if !cfg.enabled then Ended(Disabled)
    else match job
      case DecideJob(id, actor, approved, note) =>
        if IsOverdue(copy, now) then Cleared(admission, Expired)
        else if !copy.status.Pending? then Ended(NotPending)
        else if !CanDecide(cfg, actor, copy, hook) then Ended(NotEligible)
        else Cleared(admission, if approved then Approved else Rejected)
      case CancelJob(id, actor, note) =>
        if !CanCancel(actor, copy) then Ended(NotEligible)
        else Cleared(admission, Canceled)
  }

  /** Evaluate the claim's arguments: `decided_at` is read from the clock here. */
  function Stamp(s: State, p: int, admission: Admission, to: Status): State
    requires p in s.procs && !s.procs[p].job.SweepJob?
  {
    var job := s.procs[p].job;
    var claim := if to.Expired? then Expiry(s.clock) else Decision(to, job.actor.pk, s.clock, job.note);
    Goto(s, p, Claiming(job.id, claim, Some(admission)))
  }

  /** The atomic conditional UPDATE: it writes only a row still pending. */
  function Update(s: State, p: int, id: Pk, claim: Claim, admission: Option<Admission>): State
    requires p in s.procs
  {
    if id in s.table && s.table[id].status.Pending? then
      var admitted := if admission.Some? then s.admissions[id := admission.value] else s.admissions;
      s.(procs := s.procs[p := s.procs[p].(pc := Won(id), expiring := claim.Expiry?)],
         table := s.table[id := Apply(s.table[id], claim)], winner := s.winner[id := p], admissions := admitted)
    else if s.procs[p].job.SweepJob? then Goto(s, p, Sweeping)
    else Goto(s, p, Ended(NotPending))
  }

  function Edited(copy: Row, edit: Edit): Row {
    copy.(status := edit.status, decidedBy := edit.decidedBy, decidedAt := edit.decidedAt,
          decisionNote := edit.decisionNote, callbackFailed := edit.callbackFailed)
  }

  /** The kind's callback gets the live instance and may assign its fields. If it raises,
      the failure is stored on the row, and the refresh discards what it assigned. */
  function RunCallback(s: State, p: int, id: Pk, copy: Row, callback: Callback): State
    requires p in s.procs && id in s.table
  {
    var ran := s.(callbacks := s.callbacks + multiset{(id, p)});
    match callback
    case NoCallback => Goto(s, p, CallbackDone(id, copy, copy))
    case CallbackRaises =>
      var row := s.table[id].(callbackFailed := true);
      Goto(ran.(table := s.table[id := row]), p, CallbackDone(id, row, row))
    case Leaves(edit) => Goto(ran, p, CallbackDone(id, copy, if edit.Some? then Edited(copy, edit.value) else copy))
  }

  /** The table's check constraint: a pending row has no decider and no time. */
  predicate Storable(row: Row) {
    row.status.Pending? ==> row.decidedBy.None? && row.decidedAt.None?
  }

  /** The unconditional re-save of the claimed fields from the instance; a row that the
      table's constraint refuses raises out of the operation. */
  function Resave(s: State, p: int, id: Pk, left: Row): State
    requires p in s.procs && id in s.table
  {
    var row := Edited(s.table[id], Edit(left.status, left.decidedBy, left.decidedAt, left.decisionNote, left.callbackFailed));
    if Storable(row) then Goto(s, p, Saved(id)).(table := s.table[id := row]) else Goto(s, p, Refused(id))
  }

  function AfterSignal(proc: Proc): Pc {
    if proc.job.SweepJob? then Sweeping
    else if proc.expiring then Ended(NotPending)
    else Ended(Finished)
  }

  function NextRow(s: State, p: int): State
    requires p in s.procs
  {
    var proc := s.procs[p];
    if proc.queue == [] then Goto(s, p, Ended(Finished))
    else s.(procs := s.procs[p := proc.(pc := Claiming(proc.queue[0], Expiry(proc.sweepAt), None), queue := proc.queue[1..])])
  }

  function FinishingStep(s: State, p: int, id: Pk): State
    requires p in s.procs && id in s.table
  {
    match s.procs[p].pc
    case Won(_) => Goto(s, p, Refreshed(id, s.table[id]))
    case CallbackDone(_, _, left) => Resave(s, p, id, left)
    case Saved(_) => Goto(s, p, Audited(id)).(audits := s.audits + multiset{(id, p)})
    case Audited(_) => Goto(s, p, AfterSignal(s.procs[p])).(signals := s.signals + multiset{(id, p)})
    case _ => s
  }

  function AdvanceStep(cfg: Settings, s: State, p: int, ch: Choice): State {
    if p !in s.procs then s
    else match s.procs[p].pc
      case Starting => Load(s, p, ch.selection)
      case Holding(copy) => if s.procs[p].job.SweepJob? then s else Goto(s, p, Guards(cfg, s.procs[p].job, copy, s.clock, ch.hook))
      case Cleared(admission, to) => if s.procs[p].job.SweepJob? then s else Stamp(s, p, admission, to)
      case Claiming(id, claim, admission) => Update(s, p, id, claim, admission)
      case Won(id) => if id in s.table then FinishingStep(s, p, id) else s
      case Refreshed(id, copy) => if id in s.table then RunCallback(s, p, id, copy, ch.callback) else s
      case CallbackDone(id, _, _) => if id in s.table then FinishingStep(s, p, id) else s
      case Saved(id) => if id in s.table then FinishingStep(s, p, id) else s
      case Audited(id) => if id in s.table then FinishingStep(s, p, id) else s
      case Sweeping => NextRow(s, p)
      case Refused(_) => s
      case Ended(_) => s
  }

  /** Filing inserts a pending row; an id is never reused. */
  function FileStep(s: State, id: Pk, requestedBy: Option<int>, assignees: set<int>, expiresAt: Option<int>): State {
    if id in s.table then s
    else s.(table := s.table[id := Row(requestedBy, assignees, expiresAt, Pending, None, None, "", false)])
  }

  function SpawnStep(s: State, p: int, job: Job): State {
    if p in s.procs then s else s.(procs := s.procs[p := Proc(job, Starting, [], s.clock, false)])
  }

  function TickStep(s: State, seconds: nat): State {
    s.(clock := s.clock + seconds)
  }

  function Step(cfg: Settings, s: State, e: Event): State {
    match e
    case File(id, requestedBy, assignees, expiresAt) => FileStep(s, id, requestedBy, assignees, expiresAt)
    case Tick(seconds) => TickStep(s, seconds)
    case Spawn(p, job) => SpawnStep(s, p, job)
    case Advance(p, choice) => AdvanceStep(cfg, s, p, choice)
  }

  function Initial(clock: int): State {
    State(map[], clock, map[], map[], map[], multiset{}, multiset{}, multiset{})
  }

  /** Every interleaving is some sequence of events. */
  ghost function Run(cfg: Settings, s: State, evs: seq<Event>): State {
    if evs == [] then s else Step(cfg, Run(cfg, s, evs[..|evs| - 1]), evs[|evs| - 1])
  }

  ghost predicate SameDecision(a: Row, b: Row) {
    a.status == b.status && a.decidedBy == b.decidedBy && a.decidedAt == b.decidedAt && a.decisionNote == b.decisionNote
  }

  /** The callback returned with a decision other than the one it was given, and the
      table takes it. */
  ghost predicate Overwrites(given: Row, left: Row) {
    !SameDecision(given, left) && Storable(left)
  }

  /** The step re-saves such an instance. */
  ghost predicate SavesEdit(s: State, e: Event) {
    && e.Advance? && e.p in s.procs && s.procs[e.p].pc.CallbackDone? && s.procs[e.p].pc.id in s.table
    && Overwrites(s.procs[e.p].pc.given, s.procs[e.p].pc.left)
  }

  /** Some step of the run does. */
  ghost predicate StoresEdit(cfg: Settings, s: State, evs: seq<Event>) {
    evs != [] && (StoresEdit(cfg, s, evs[..|evs| - 1]) || SavesEdit(Run(cfg, s, evs[..|evs| - 1]), evs[|evs| - 1]))
  }

  // ----- the invariant -----

  /** The row-level invariant; its first clause is the table's check constraint. */
  ghost predicate RowOk(row: Row) {
    && Storable(row)
    && (!row.status.Pending? ==> row.decidedAt.Some?)
    && (row.status.Expired? ==> row.decidedBy.None?)
  }

  ghost predicate SameRequest(a: Row, b: Row) {
    a.requestedBy == b.requestedBy && a.assignees == b.assignees && a.expiresAt == b.expiresAt
  }

  /** The guards that let an actor move a pending copy to `to`. */
  ghost predicate Admitted(cfg: Settings, adm: Admission, to: Status) {
    && adm.copy.status.Pending?
    && match to
       case Approved => CanDecide(cfg, adm.actor, adm.copy, adm.hook) && !PastExpiry(adm.copy, adm.at)
       case Rejected => CanDecide(cfg, adm.actor, adm.copy, adm.hook) && !PastExpiry(adm.copy, adm.at)
       case Canceled => CanCancel(adm.actor, adm.copy)
       case Expired => PastExpiry(adm.copy, adm.at)
       case Pending => false
  }

  /** A decided row's decider passed the guards on the pending copy they read. */
  ghost predicate RowAdmitted(cfg: Settings, s: State, id: Pk)
    requires id in s.table
  {
    var row := s.table[id];
    (row.status.Approved? || row.status.Rejected? || row.status.Canceled?) ==>
      && id in s.admissions
      && Admitted(cfg, s.admissions[id], row.status)
      && SameRequest(s.admissions[id].copy, row)
      && row.decidedBy == s.admissions[id].actor.pk
      && row.decidedAt.Some? && s.admissions[id].at <= row.decidedAt.value <= s.clock
  }

  ghost predicate Finishing(pc: Pc, id: Pk) {
    match pc
    case Won(i) => i == id
    case Refreshed(i, _) => i == id
    case CallbackDone(i, _, _) => i == id
    case Saved(i) => i == id
    case Audited(i) => i == id
    case Refused(i) => i == id
    case _ => false
  }

  ghost predicate ClaimOk(cfg: Settings, s: State, job: Job, id: Pk, claim: Claim, admission: Option<Admission>) {
    && id in s.table && claim.at <= s.clock
    && (claim.Expiry? ==> PastExpiry(s.table[id], s.clock))
    && (claim.Decision? ==>
          && !job.SweepJob? && admission.Some? && admission.value.at <= claim.at
          && (claim.to.Approved? || claim.to.Rejected? || claim.to.Canceled?)
          && Admitted(cfg, admission.value, claim.to) && SameRequest(admission.value.copy, s.table[id])
          && claim.decider == admission.value.actor.pk)
  }

  ghost predicate ProcOk(cfg: Settings, s: State, p: int)
    requires p in s.procs
  {
    var proc := s.procs[p];
    && (forall id | id in proc.queue :: id in s.table && PastExpiry(s.table[id], s.clock))
    && proc.sweepAt <= s.clock
    && match proc.pc
       case Starting => proc.queue == []
       case Holding(copy) => !proc.job.SweepJob? && proc.job.id in s.table && SameRequest(copy, s.table[proc.job.id])
       case Cleared(adm, to) =>
         && !proc.job.SweepJob? && proc.job.id in s.table && SameRequest(adm.copy, s.table[proc.job.id])
         && adm.at <= s.clock && adm.actor == proc.job.actor && Admitted(cfg, adm, to)
       case Claiming(id, claim, admission) => ClaimOk(cfg, s, proc.job, id, claim, admission)
       case Won(id) => OwnedBy(s, id, p)
       case Refreshed(id, copy) => OwnedBy(s, id, p) && s.table[id] == copy
       case CallbackDone(id, given, left) => OwnedBy(s, id, p) && s.table[id] == given && SameRequest(given, left)
       case Saved(id) => OwnedBy(s, id, p)
       case Audited(id) => OwnedBy(s, id, p)
       case Refused(id) => OwnedBy(s, id, p)
       case Sweeping => true
       case Ended(_) => true
  }

  ghost predicate OwnedBy(s: State, id: Pk, p: int) {
    id in s.table && id in s.winner && s.winner[id] == p
  }

  /** How many effects the winner of `id` has produced, by where it is now. */
  ghost predicate EffectsOk(s: State, id: Pk, p: int) {
    var cb, au, si := s.callbacks[(id, p)], s.audits[(id, p)], s.signals[(id, p)];
    if !(id in s.winner && s.winner[id] == p && p in s.procs) then cb == au == si == 0
    else match s.procs[p].pc
      case Won(i) => if i == id then cb == au == si == 0 else cb <= 1 && au == si == 1
      case Refreshed(i, _) => if i == id then cb == au == si == 0 else cb <= 1 && au == si == 1
      case CallbackDone(i, _, _) => if i == id then cb <= 1 && au == si == 0 else cb <= 1 && au == si == 1
      case Refused(i) => if i == id then cb <= 1 && au == si == 0 else cb <= 1 && au == si == 1
      case Saved(i) => if i == id then cb <= 1 && au == si == 0 else cb <= 1 && au == si == 1
      case Audited(i) => if i == id then cb <= 1 && au == 1 && si == 0 else cb <= 1 && au == si == 1
      case _ => cb <= 1 && au == si == 1
  }

  ghost predicate Inv(cfg: Settings, s: State) {
    && (forall id | id in s.table :: RowOk(s.table[id]) && RowAdmitted(cfg, s, id))
    && (forall id | id in s.table :: id in s.winner <==> !s.table[id].status.Pending?)
    && (forall id | id in s.winner :: id in s.table && s.winner[id] in s.procs)
    && (forall p | p in s.procs :: ProcOk(cfg, s, p))
    && (forall id, p :: EffectsOk(s, id, p))
  }

  // ----- every step keeps the invariant -----

  /** What a process relies on survives any step that keeps requests and
      winners, and the rows this process has won. */
  lemma ProcFrame(cfg: Settings, s: State, t: State, q: int)
    requires q in s.procs && q in t.procs && t.procs[q] == s.procs[q] && ProcOk(cfg, s, q) && s.clock <= t.clock
    requires forall id | id in s.table :: id in t.table && SameRequest(s.table[id], t.table[id])
    requires forall id | id in s.winner :: id in t.winner && t.winner[id] == s.winner[id]
    requires forall id | id in s.table && id in s.winner && s.winner[id] == q :: t.table[id] == s.table[id]
    ensures ProcOk(cfg, t, q)
  {
  }

  lemma SameRowsStayOk(cfg: Settings, s: State, t: State)
    requires Inv(cfg, s) && t.table == s.table && t.admissions == s.admissions && s.clock <= t.clock
    ensures forall id | id in t.table :: RowOk(t.table[id]) && RowAdmitted(cfg, t, id)
  {
    forall id | id in t.table ensures RowOk(t.table[id]) && RowAdmitted(cfg, t, id) {
      assert RowOk(s.table[id]) && RowAdmitted(cfg, s, id);
    }
  }

  lemma SameEffectsStayOk(cfg: Settings, s: State, t: State)
    requires Inv(cfg, s) && t.winner == s.winner
    requires t.callbacks == s.callbacks && t.audits == s.audits && t.signals == s.signals
    requires forall p | p in s.procs :: p in t.procs && t.procs[p] == s.procs[p]
    ensures forall id, p :: EffectsOk(t, id, p)
  {
    forall id, p ensures EffectsOk(t, id, p) {
      assert EffectsOk(s, id, p);
    }
  }

  /** A step that moves only process `p`'s program point. */
  lemma MoveKeepsInv(cfg: Settings, s: State, p: int, proc: Proc)
    requires Inv(cfg, s) && p in s.procs
    requires forall id :: !Finishing(s.procs[p].pc, id) && !Finishing(proc.pc, id)
    requires ProcOk(cfg, s.(procs := s.procs[p := proc]), p)
    ensures Inv(cfg, s.(procs := s.procs[p := proc]))
  {
    var t := s.(procs := s.procs[p := proc]);
    forall q | q in t.procs ensures ProcOk(cfg, t, q) {
      if q != p {
        ProcFrame(cfg, s, t, q);
      }
    }
    forall id, q ensures EffectsOk(t, id, q) {
      assert EffectsOk(s, id, q);
      assert !Finishing(s.procs[p].pc, id) && !Finishing(proc.pc, id);
    }
    SameRowsStayOk(cfg, s, t);
  }

  lemma LoadKeepsInv(cfg: Settings, s: State, p: int, selection: seq<Pk>)
    requires Inv(cfg, s) && p in s.procs && s.procs[p].pc.Starting?
    ensures Inv(cfg, Load(s, p, selection))
  {
    var job := s.procs[p].job;
    assert ProcOk(cfg, s, p);
    if job.SweepJob? {
      if forall id | id in selection :: id in OverdueRows(s.table, s.clock) {
        MoveKeepsInv(cfg, s, p, s.procs[p].(pc := Sweeping, queue := selection, sweepAt := s.clock));
      }
    } else if job.id in s.table {
      MoveKeepsInv(cfg, s, p, s.procs[p].(pc := Holding(s.table[job.id])));
    }
  }

  lemma GuardsAdmit(cfg: Settings, job: Job, copy: Row, now: int, hook: Hook)
    requires !job.SweepJob?
    ensures var pc := Guards(cfg, job, copy, now, hook);
      if pc.Cleared? then pc.admission == Admission(copy, now, job.actor, hook) && Admitted(cfg, pc.admission, pc.to)
      else pc.Ended?
  {
  }

  lemma GuardsKeepInv(cfg: Settings, s: State, p: int, copy: Row, hook: Hook)
    requires Inv(cfg, s) && p in s.procs && s.procs[p].pc == Holding(copy) && !s.procs[p].job.SweepJob?
    ensures Inv(cfg, Goto(s, p, Guards(cfg, s.procs[p].job, copy, s.clock, hook)))
  {
    assert ProcOk(cfg, s, p);
    GuardsAdmit(cfg, s.procs[p].job, copy, s.clock, hook);
    MoveKeepsInv(cfg, s, p, s.procs[p].(pc := Guards(cfg, s.procs[p].job, copy, s.clock, hook)));
  }

  lemma StampKeepsInv(cfg: Settings, s: State, p: int, adm: Admission, to: Status)
    requires Inv(cfg, s) && p in s.procs && s.procs[p].pc == Cleared(adm, to) && !s.procs[p].job.SweepJob?
    ensures Inv(cfg, Stamp(s, p, adm, to))
  {
    assert ProcOk(cfg, s, p);
    var next := Stamp(s, p, adm, to);
    MoveKeepsInv(cfg, s, p, next.procs[p]);
  }

  lemma NextRowKeepsInv(cfg: Settings, s: State, p: int)
    requires Inv(cfg, s) && p in s.procs && s.procs[p].pc.Sweeping?
    ensures Inv(cfg, NextRow(s, p))
  {
    assert ProcOk(cfg, s, p);
    var next := NextRow(s, p);
    MoveKeepsInv(cfg, s, p, next.procs[p]);
  }

  /** The conditional UPDATE: the winner's row leaves pending for good. */
  lemma UpdateKeepsInv(cfg: Settings, s: State, p: int, id: Pk, claim: Claim, adm: Option<Admission>)
    requires Inv(cfg, s) && p in s.procs && s.procs[p].pc == Claiming(id, claim, adm)
    ensures Inv(cfg, Update(s, p, id, claim, adm))
  {
    assert ProcOk(cfg, s, p);
    var t := Update(s, p, id, claim, adm);
    if id in s.table && s.table[id].status.Pending? {
      UpdateKeepsRows(cfg, s, p, id, claim, adm);
      UpdateKeepsProcs(cfg, s, p, id, claim, adm);
      UpdateKeepsEffects(cfg, s, p, id, claim, adm);
    } else {
      MoveKeepsInv(cfg, s, p, t.procs[p]);
    }
  }

  lemma UpdateKeepsRows(cfg: Settings, s: State, p: int, id: Pk, claim: Claim, adm: Option<Admission>)
    requires Inv(cfg, s) && p in s.procs && s.procs[p].pc == Claiming(id, claim, adm)
    requires ClaimOk(cfg, s, s.procs[p].job, id, claim, adm) && s.table[id].status.Pending?
    ensures var t := Update(s, p, id, claim, adm);
      forall j | j in t.table :: RowOk(t.table[j]) && RowAdmitted(cfg, t, j)
  {
    var t := Update(s, p, id, claim, adm);
    forall j | j in t.table ensures RowOk(t.table[j]) && RowAdmitted(cfg, t, j) {
      assert RowOk(s.table[j]) && RowAdmitted(cfg, s, j);
      if j != id {
        assert t.table[j] == s.table[j];
      }
    }
  }

  lemma UpdateKeepsProcs(cfg: Settings, s: State, p: int, id: Pk, claim: Claim, adm: Option<Admission>)
    requires Inv(cfg, s) && p in s.procs && s.procs[p].pc == Claiming(id, claim, adm)
    requires id in s.table && s.table[id].status.Pending?
    ensures var t := Update(s, p, id, claim, adm);
      forall q | q in t.procs :: ProcOk(cfg, t, q)
  {
    var t := Update(s, p, id, claim, adm);
    assert id !in s.winner;
    forall q | q in t.procs ensures ProcOk(cfg, t, q) {
      if q != p {
        ProcFrame(cfg, s, t, q);
      }
    }
  }

  lemma UpdateKeepsEffects(cfg: Settings, s: State, p: int, id: Pk, claim: Claim, adm: Option<Admission>)
    requires Inv(cfg, s) && p in s.procs && s.procs[p].pc == Claiming(id, claim, adm)
    requires id in s.table && s.table[id].status.Pending?
    ensures forall j, q :: EffectsOk(Update(s, p, id, claim, adm), j, q)
  {
    forall j, q ensures EffectsOk(Update(s, p, id, claim, adm), j, q) {
      assert EffectsOk(s, j, q);
    }
  }

  /** What the winner's own later steps leave as it is: callback, re-save, audit row and
      signal touch this process's program point, this row's failure flag and this
      winner's effects. */
  ghost predicate WinnerStep(s: State, t: State, p: int, id: Pk)
    requires p in s.procs
  {
    && t.clock == s.clock && t.winner == s.winner && t.admissions == s.admissions
    && p in t.procs && t.procs == s.procs[p := s.procs[p].(pc := t.procs[p].pc)]
    && (forall j | j != id :: !Finishing(t.procs[p].pc, j))
    && t.table.Keys == s.table.Keys && id in t.table
    && (forall j | j in s.table && j != id :: t.table[j] == s.table[j])
    && t.table[id] == s.table[id].(callbackFailed := t.table[id].callbackFailed)
    && (forall e | e != (id, p) ::
          t.callbacks[e] == s.callbacks[e] && t.audits[e] == s.audits[e] && t.signals[e] == s.signals[e])
  }

  lemma FinishKeepsInv(cfg: Settings, s: State, t: State, p: int, id: Pk)
    requires Inv(cfg, s) && p in s.procs && Finishing(s.procs[p].pc, id)
    requires WinnerStep(s, t, p, id) && ProcOk(cfg, t, p) && EffectsOk(t, id, p)
    ensures Inv(cfg, t)
  {
    FinishKeepsProcs(cfg, s, t, p, id);
    FinishedRowsOk(cfg, s, t, id);
    FinishKeepsEffects(cfg, s, t, p, id);
  }

  lemma FinishKeepsProcs(cfg: Settings, s: State, t: State, p: int, id: Pk)
    requires Inv(cfg, s) && p in s.procs && Finishing(s.procs[p].pc, id)
    requires WinnerStep(s, t, p, id) && ProcOk(cfg, t, p)
    ensures forall q | q in t.procs :: ProcOk(cfg, t, q)
  {
    assert ProcOk(cfg, s, p);
    forall q | q in t.procs ensures ProcOk(cfg, t, q) {
      if q != p {
        ProcFrame(cfg, s, t, q);
      }
    }
  }

  lemma FinishKeepsEffects(cfg: Settings, s: State, t: State, p: int, id: Pk)
    requires Inv(cfg, s) && p in s.procs && Finishing(s.procs[p].pc, id)
    requires WinnerStep(s, t, p, id) && EffectsOk(t, id, p)
    ensures forall j, q :: EffectsOk(t, j, q)
  {
    forall j, q ensures EffectsOk(t, j, q) {
      assert EffectsOk(s, j, q);
      if (j, q) != (id, p) {
        FinishKeepsOtherEffects(s, t, p, id, j, q);
      }
    }
  }

  lemma FinishedRowsOk(cfg: Settings, s: State, t: State, id: Pk)
    requires Inv(cfg, s) && t.clock == s.clock && t.admissions == s.admissions
    requires t.table.Keys == s.table.Keys && id in t.table
    requires forall j | j in s.table && j != id :: t.table[j] == s.table[j]
    requires t.table[id] == s.table[id].(callbackFailed := t.table[id].callbackFailed)
    ensures forall j | j in t.table :: RowOk(t.table[j]) && RowAdmitted(cfg, t, j)
  {
    forall j | j in t.table ensures RowOk(t.table[j]) && RowAdmitted(cfg, t, j) {
      assert RowOk(s.table[j]) && RowAdmitted(cfg, s, j);
    }
  }

  lemma FinishKeepsOtherEffects(s: State, t: State, p: int, id: Pk, j: Pk, q: int)
    requires EffectsOk(s, j, q) && (j, q) != (id, p) && p in s.procs && p in t.procs
    requires t.winner == s.winner && t.procs == s.procs[p := s.procs[p].(pc := t.procs[p].pc)]
    requires Finishing(s.procs[p].pc, id)
    requires forall i | i != id :: !Finishing(t.procs[p].pc, i)
    requires t.callbacks[(j, q)] == s.callbacks[(j, q)] && t.audits[(j, q)] == s.audits[(j, q)] && t.signals[(j, q)] == s.signals[(j, q)]
    ensures EffectsOk(t, j, q)
  {
    assert j != id ==> !Finishing(t.procs[p].pc, j);
  }

  /** The next step of a winner, on its own row and process. */
  lemma CallbackStep(cfg: Settings, s: State, p: int, id: Pk, copy: Row, callback: Callback)
    requires p in s.procs && s.procs[p].pc == Refreshed(id, copy) && ProcOk(cfg, s, p) && EffectsOk(s, id, p)
    ensures id in s.table
    ensures var t := RunCallback(s, p, id, copy, callback);
      WinnerStep(s, t, p, id) && ProcOk(cfg, t, p) && EffectsOk(t, id, p)
  {
  }

  lemma ResaveStep(cfg: Settings, s: State, p: int, id: Pk, given: Row, left: Row)
    requires p in s.procs && s.procs[p].pc == CallbackDone(id, given, left) && !Overwrites(given, left)
    requires ProcOk(cfg, s, p) && id in s.table
    ensures WinnerStep(s, Resave(s, p, id, left), p, id)
  {
  }

  lemma ResaveProcOk(cfg: Settings, s: State, p: int, id: Pk, given: Row, left: Row)
    requires p in s.procs && s.procs[p].pc == CallbackDone(id, given, left) && ProcOk(cfg, s, p) && id in s.table
    ensures p in Resave(s, p, id, left).procs && ProcOk(cfg, Resave(s, p, id, left), p)
  {
  }

  lemma ResaveEffectsOk(s: State, p: int, id: Pk, given: Row, left: Row)
    requires p in s.procs && s.procs[p].pc == CallbackDone(id, given, left) && EffectsOk(s, id, p) && id in s.table
    ensures EffectsOk(Resave(s, p, id, left), id, p)
  {
  }

  lemma EffectStep(cfg: Settings, s: State, p: int, id: Pk)
    requires p in s.procs && (s.procs[p].pc.Won? || s.procs[p].pc.Saved? || s.procs[p].pc.Audited?)
    requires Finishing(s.procs[p].pc, id) && ProcOk(cfg, s, p) && EffectsOk(s, id, p)
    ensures id in s.table
    ensures var t := FinishingStep(s, p, id);
      WinnerStep(s, t, p, id) && ProcOk(cfg, t, p) && EffectsOk(t, id, p)
  {
  }

  lemma CallbackKeepsInv(cfg: Settings, s: State, p: int, id: Pk, copy: Row, callback: Callback)
    requires Inv(cfg, s) && p in s.procs && s.procs[p].pc == Refreshed(id, copy)
    ensures id in s.table && Inv(cfg, RunCallback(s, p, id, copy, callback))
  {
    assert ProcOk(cfg, s, p) && EffectsOk(s, id, p);
    CallbackStep(cfg, s, p, id, copy, callback);
    FinishKeepsInv(cfg, s, RunCallback(s, p, id, copy, callback), p, id);
  }

  /** The unconditional re-save leaves the stored decision as it is, unless the callback
      left another one that the table takes. */
  lemma ResaveKeepsDecision(cfg: Settings, s: State, p: int, id: Pk, given: Row, left: Row)
    requires Inv(cfg, s) && p in s.procs && s.procs[p].pc == CallbackDone(id, given, left)
    ensures id in s.table && !s.table[id].status.Pending?
    ensures id in Resave(s, p, id, left).table
    ensures SameDecision(s.table[id], Resave(s, p, id, left).table[id]) <==> !Overwrites(given, left)
  {
    assert ProcOk(cfg, s, p);
  }

  lemma ResaveKeepsInv(cfg: Settings, s: State, p: int, id: Pk, given: Row, left: Row)
    requires Inv(cfg, s) && p in s.procs && s.procs[p].pc == CallbackDone(id, given, left) && !Overwrites(given, left)
    ensures id in s.table && Inv(cfg, Resave(s, p, id, left))
  {
    assert ProcOk(cfg, s, p) && EffectsOk(s, id, p);
    ResaveStep(cfg, s, p, id, given, left);
    ResaveProcOk(cfg, s, p, id, given, left);
    ResaveEffectsOk(s, p, id, given, left);
    FinishKeepsInv(cfg, s, Resave(s, p, id, left), p, id);
  }

  lemma EffectKeepsInv(cfg: Settings, s: State, p: int, id: Pk)
    requires Inv(cfg, s) && p in s.procs && Finishing(s.procs[p].pc, id)
    requires s.procs[p].pc.Won? || s.procs[p].pc.Saved? || s.procs[p].pc.Audited?
    ensures id in s.table && Inv(cfg, FinishingStep(s, p, id))
  {
    assert ProcOk(cfg, s, p) && EffectsOk(s, id, p);
    EffectStep(cfg, s, p, id);
    FinishKeepsInv(cfg, s, FinishingStep(s, p, id), p, id);
  }

  lemma FileKeepsInv(cfg: Settings, s: State, id: Pk, requestedBy: Option<int>, assignees: set<int>, expiresAt: Option<int>)
    requires Inv(cfg, s)
    ensures Inv(cfg, FileStep(s, id, requestedBy, assignees, expiresAt))
  {
    if id !in s.table {
      FiledRowsOk(cfg, s, id, requestedBy, assignees, expiresAt);
      FiledProcsOk(cfg, s, id, requestedBy, assignees, expiresAt);
      SameEffectsStayOk(cfg, s, FileStep(s, id, requestedBy, assignees, expiresAt));
    }
  }

  lemma FiledProcsOk(cfg: Settings, s: State, id: Pk, requestedBy: Option<int>, assignees: set<int>, expiresAt: Option<int>)
    requires Inv(cfg, s) && id !in s.table
    ensures var t := FileStep(s, id, requestedBy, assignees, expiresAt);
      t.procs == s.procs && forall q | q in t.procs :: ProcOk(cfg, t, q)
  {
    var t := FileStep(s, id, requestedBy, assignees, expiresAt);
    forall q | q in t.procs ensures ProcOk(cfg, t, q) {
      ProcFrame(cfg, s, t, q);
    }
  }

  lemma FiledRowsOk(cfg: Settings, s: State, id: Pk, requestedBy: Option<int>, assignees: set<int>, expiresAt: Option<int>)
    requires Inv(cfg, s)
    ensures var t := FileStep(s, id, requestedBy, assignees, expiresAt);
      forall j | j in t.table :: RowOk(t.table[j]) && RowAdmitted(cfg, t, j)
  {
    var t := FileStep(s, id, requestedBy, assignees, expiresAt);
    forall j | j in t.table ensures RowOk(t.table[j]) && RowAdmitted(cfg, t, j) {
      if j in s.table {
        assert RowOk(s.table[j]) && RowAdmitted(cfg, s, j);
      }
    }
  }

  lemma TickKeepsInv(cfg: Settings, s: State, seconds: nat)
    requires Inv(cfg, s)
    ensures Inv(cfg, TickStep(s, seconds))
  {
    var t := TickStep(s, seconds);
    forall q | q in t.procs ensures ProcOk(cfg, t, q) {
      ProcFrame(cfg, s, t, q);
    }
    SameRowsStayOk(cfg, s, t);
    SameEffectsStayOk(cfg, s, t);
  }

  lemma SpawnKeepsInv(cfg: Settings, s: State, p: int, job: Job)
    requires Inv(cfg, s)
    ensures Inv(cfg, SpawnStep(s, p, job))
  {
    if p !in s.procs {
      SpawnedProcsOk(cfg, s, p, job);
      SameRowsStayOk(cfg, s, SpawnStep(s, p, job));
      SameEffectsStayOk(cfg, s, SpawnStep(s, p, job));
    }
  }

  lemma SpawnedProcsOk(cfg: Settings, s: State, p: int, job: Job)
    requires Inv(cfg, s) && p !in s.procs
    ensures var t := SpawnStep(s, p, job);
      forall q | q in t.procs :: ProcOk(cfg, t, q)
  {
    var t := SpawnStep(s, p, job);
    forall q | q in t.procs ensures ProcOk(cfg, t, q) {
      if q in s.procs {
        ProcFrame(cfg, s, t, q);
      }
    }
  }

  lemma AdvanceKeepsInv(cfg: Settings, s: State, p: int, ch: Choice)
    requires Inv(cfg, s) && !SavesEdit(s, Advance(p, ch))
    ensures Inv(cfg, AdvanceStep(cfg, s, p, ch))
  {
    if p in s.procs {
      match s.procs[p].pc
      case Starting => LoadKeepsInv(cfg, s, p, ch.selection);
      case Holding(copy) =>
        if !s.procs[p].job.SweepJob? {
          GuardsKeepInv(cfg, s, p, copy, ch.hook);
        }
      case Cleared(adm, to) =>
        if !s.procs[p].job.SweepJob? {
          StampKeepsInv(cfg, s, p, adm, to);
        }
      case Claiming(id, claim, adm) => UpdateKeepsInv(cfg, s, p, id, claim, adm);
      case Won(id) => EffectKeepsInv(cfg, s, p, id);
      case Refreshed(id, copy) => CallbackKeepsInv(cfg, s, p, id, copy, ch.callback);
      case CallbackDone(id, given, left) => {
        assert ProcOk(cfg, s, p);
        ResaveKeepsInv(cfg, s, p, id, given, left);
      }
      case Saved(id) => EffectKeepsInv(cfg, s, p, id);
      case Audited(id) => EffectKeepsInv(cfg, s, p, id);
      case Sweeping => NextRowKeepsInv(cfg, s, p);
      case Refused(_) =>
      case Ended(_) =>
    }
  }

  lemma StepKeepsInv(cfg: Settings, s: State, e: Event)
    requires Inv(cfg, s) && !SavesEdit(s, e)
    ensures Inv(cfg, Step(cfg, s, e))
  {
    match e
    case File(id, requestedBy, assignees, expiresAt) => FileKeepsInv(cfg, s, id, requestedBy, assignees, expiresAt);
    case Tick(seconds) => TickKeepsInv(cfg, s, seconds);
    case Spawn(p, job) => SpawnKeepsInv(cfg, s, p, job);
    case Advance(p, choice) => AdvanceKeepsInv(cfg, s, p, choice);
  }

  lemma {:induction false} RunKeepsInv(cfg: Settings, s: State, evs: seq<Event>)
    requires Inv(cfg, s) && !StoresEdit(cfg, s, evs)
    ensures Inv(cfg, Run(cfg, s, evs))
  {
    if evs != [] {
      RunKeepsInv(cfg, s, evs[..|evs| - 1]);
      StepKeepsInv(cfg, Run(cfg, s, evs[..|evs| - 1]), evs[|evs| - 1]);
    }
  }
}
