/** Approval rows, their two status readings and who may act on them
    (apps/approvals/models.py, apps/approvals/permissions.py). */
module Approvals {
  import opened Common

  datatype Status = Pending | Approved | Rejected | Canceled | Expired

  datatype Row = Row(requestedBy: Option<int>, assignees: set<int>, expiresAt: Option<int>,
                     status: Status, decidedBy: Option<int>, decidedAt: Option<int>,
                     decisionNote: string, callbackFailed: bool)

  datatype Pk = Pk(value: int)

  type Table = map<Pk, Row>

  // ----- stored and effective status -----

  predicate PastExpiry(row: Row, now: int) {
    row.expiresAt.Some? && row.expiresAt.value <= now
  }

  predicate IsOverdue(row: Row, now: int) {
    row.status.Pending? && PastExpiry(row, now)
  }

  function EffectiveStatus(row: Row, now: int): Status {
    if IsOverdue(row, now) then Expired else row.status
  }

  function PendingRows(table: Table): set<Pk> {
    set id | id in table && table[id].status.Pending?
  }

  function OverdueRows(table: Table, now: int): set<Pk> {
    set id | id in PendingRows(table) && PastExpiry(table[id], now)
  }

  function ActionableRows(table: Table, now: int): set<Pk> {
    PendingRows(table) - (set id | id in table && PastExpiry(table[id], now))
  }

  function ForEffectiveStatus(table: Table, value: Status, now: int): set<Pk> {
    match value
    case Pending => ActionableRows(table, now)
    case Expired => (set id | id in table && table[id].status.Expired?) + OverdueRows(table, now)
    case _ => set id | id in table && table[id].status == value
  }

  /** The queryset scopes and the row property are one definition: at every
      instant the five scopes hold exactly the rows whose badge reads that way. */
  lemma ScopesAgreeWithBadge(table: Table, value: Status, now: int)
    ensures ForEffectiveStatus(table, value, now) == set id | id in table && EffectiveStatus(table[id], now) == value
  {
    assert ActionableRows(table, now) == set id | id in table && table[id].status.Pending? && !PastExpiry(table[id], now);
    match value
    case Pending =>
    case Expired =>
      assert OverdueRows(table, now) == set id | id in table && IsOverdue(table[id], now);
    case _ =>
  }

  /** Hence the five scopes partition the table. */
  lemma ScopesPartitionTable(table: Table, now: int)
    ensures forall id | id in table :: id in ForEffectiveStatus(table, EffectiveStatus(table[id], now), now)
    ensures forall v, w | v != w :: ForEffectiveStatus(table, v, now) !! ForEffectiveStatus(table, w, now)
    ensures forall v :: ForEffectiveStatus(table, v, now) <= table.Keys
  {
    forall v ensures ForEffectiveStatus(table, v, now) == set id | id in table && EffectiveStatus(table[id], now) == v {
      ScopesAgreeWithBadge(table, v, now);
    }
  }

  // ----- permissions -----

  datatype Settings = Settings(enabled: bool, allowSelfApprove: bool, staffOverride: bool)

  /** A user, or an anonymous caller without a pk. */
  datatype Actor = Actor(pk: Option<int>, isActive: bool, isStaff: bool)

  /** What the kind's own can_decide hook did, if the kind has one. */
  datatype Hook = NoHook | Allows | Refuses | Raises

  function ActingPk(user: Actor): Option<int> {
    if user.isActive then user.pk else None
  }

  predicate IsStaff(user: Actor) {
    user.isStaff && user.isActive
  }

  predicate CanView(user: Actor, row: Row) {
    var pk := ActingPk(user);
    if pk.None? then false
    else if IsStaff(user) then true
    else row.requestedBy == pk || pk.value in row.assignees
  }

  function ViewableRequests(user: Actor, table: Table): set<Pk> {
    var pk := ActingPk(user);
    if pk.None? then {}
    else if IsStaff(user) then table.Keys
    else set id | id in table && (table[id].requestedBy == pk || pk.value in table[id].assignees)
  }

  predicate CanDecide(cfg: Settings, user: Actor, row: Row, hook: Hook) {
    var pk := ActingPk(user);
    if pk.None? || !row.status.Pending? then false
    else if row.requestedBy == pk && !cfg.allowSelfApprove then false
    else
      var eligible :=
        if row.assignees != {} then pk.value in row.assignees || (IsStaff(user) && cfg.staffOverride)
        else IsStaff(user);
      eligible && (hook.NoHook? || hook.Allows?)
  }

  predicate CanCancel(user: Actor, row: Row) {
    var pk := ActingPk(user);
    if pk.None? || !row.status.Pending? then false
    else row.requestedBy == pk || IsStaff(user)
  }

  /** The queryset scoper hides exactly the rows its row-level twin refuses, and
      nobody can act on a row they may not see. */
  lemma ScoperAgreesWithPermission(cfg: Settings, user: Actor, table: Table, id: Pk, hook: Hook)
    requires id in table
    ensures id in ViewableRequests(user, table) <==> CanView(user, table[id])
    ensures CanDecide(cfg, user, table[id], hook) || CanCancel(user, table[id]) ==> id in ViewableRequests(user, table)
  {
  }
}
