/** The bounded expiry sweep without competing writers
    (apps/approvals/services.py, mark_expired). */
module ApprovalSweep {
  import opened Common
  import opened Approvals

  function Deadline(row: Row): int {
    if row.expiresAt.Some? then row.expiresAt.value else 0
  }

  /** `order_by("expires_at")`: some listing of the rows, earliest expiry first. */
  ghost predicate OldestFirst(table: Table, ids: seq<Pk>) {
    && (forall i | 0 <= i < |ids| :: ids[i] in table)
    && (forall i, j | 0 <= i < j < |ids| :: ids[i] != ids[j] && Deadline(table[ids[i]]) <= Deadline(table[ids[j]]))
  }

  ghost predicate Lists(ids: seq<Pk>, all: set<Pk>) {
    forall x :: x in ids <==> x in all
  }

  function Members(ids: seq<Pk>): set<Pk> {
    set id | id in ids
  }

  method Earliest(table: Table, ids: set<Pk>) returns (first: Pk)
    requires ids != {} && ids <= table.Keys
    ensures first in ids && forall id | id in ids :: Deadline(table[first]) <= Deadline(table[id])
  {
    first :| first in ids;
    var todo := ids - {first};
    while todo != {}
      invariant first in ids && todo <= ids
      invariant forall id | id in ids && id !in todo :: Deadline(table[first]) <= Deadline(table[id])
      decreases todo
    {
      var id :| id in todo;
      if Deadline(table[id]) < Deadline(table[first]) {
        first := id;
      }
      todo := todo - {id};
    }
  }

  method OrderByDeadline(table: Table, all: set<Pk>) returns (ids: seq<Pk>)
    requires all <= table.Keys
    ensures OldestFirst(table, ids) && Lists(ids, all)
  {
    ids := [];
    var todo := all;
    while todo != {}
      invariant todo <= all
      invariant OldestFirst(table, ids)
      invariant forall id :: id in ids <==> id in all && id !in todo
      invariant forall i, id | 0 <= i < |ids| && id in todo :: Deadline(table[ids[i]]) <= Deadline(table[id])
      decreases todo
    {
      var first := Earliest(table, todo);
      ids := ids + [first];
      todo := todo - {first};
    }
  }

  /** The rows of `chosen` flipped at `now`; a row whose kind callback raises
      also records that. */
  function Flipped(table: Table, chosen: set<Pk>, now: int, raising: set<Pk>): Table {
    map id | id in table ::
      if id in chosen
      then table[id].(status := Expired, decidedAt := Some(now), callbackFailed := table[id].callbackFailed || id in raising)
      else table[id]
  }

  /** What one call did: it flipped `chosen`, a set of rows no unchosen overdue
      row expires before, as many as the limit allows. */
  ghost predicate SweptOldest(before: Table, after: Table, chosen: set<Pk>, now: int, limit: Option<nat>, raising: set<Pk>) {
    var overdue := OverdueRows(before, now);
    && chosen <= overdue
    && |chosen| == (if limit.Some? then Min(limit.value, |overdue|) else |overdue|)
    && (forall c, o | c in chosen && o in overdue - chosen :: Deadline(before[c]) <= Deadline(before[o]))
    && after == Flipped(before, chosen, now, raising)
  }

  class ApprovalStore {
    var table: Table

    constructor (table: Table)
      ensures this.table == table
    {
      this.table := table;
    }

    /** Expire overdue rows, at most `limit` of them when it is a natural number;
        a negative limit is no limit. */
    method MarkExpired(now: int, limit: Option<int>, raising: set<Pk>) returns (expired: nat, truncated: bool)
      modifies this
      ensures var bound := if limit.Some? && 0 <= limit.value then Some(limit.value as nat) else None;
        && (exists chosen :: |chosen| == expired && SweptOldest(old(table), table, chosen, now, bound, raising))
        && (truncated <==> bound.Some? && bound.value < |OverdueRows(old(table), now)|)
    {
      var overdue := OverdueRows(table, now);
      var ids := OrderByDeadline(table, overdue);
      ListingLength(table, ids, overdue);
      truncated := false;
      ghost var bound: Option<nat> := None;
      if limit.Some? && 0 <= limit.value {
        bound := Some(limit.value as nat);
        truncated := |ids| > limit.value;
        if truncated {
          ids := ids[..limit.value];
        }
      }
      ghost var before, chosen := table, Members(ids);
      ListingLength(before, ids, chosen);
      expired := ExpireAll(ids, now, raising);
      assert SweptOldest(before, table, chosen, now, bound, raising);
    }

    /** One conditional UPDATE per selected row, counting the rows it wrote. */
    method ExpireAll(ids: seq<Pk>, now: int, raising: set<Pk>) returns (expired: nat)
      requires OldestFirst(table, ids) && forall id | id in ids :: id in OverdueRows(table, now)
      modifies this
      ensures expired == |ids|
      ensures table == Flipped(old(table), Members(ids), now, raising)
    {
      expired := 0;
      ghost var before := table;
      assert table == Flipped(before, Members(ids[..0]), now, raising);
      for i := 0 to |ids|
        invariant expired == i
        invariant table == Flipped(before, Members(ids[..i]), now, raising)
      {
        var id := ids[i];
        assert id !in ids[..i] && id in OverdueRows(before, now) && table[id] == before[id];
        FlipOneMore(before, ids, i, now, raising);
        var row := table[id];
        if row.status.Pending? {
          table := table[id := row.(status := Expired, decidedAt := Some(now),
                                    callbackFailed := row.callbackFailed || id in raising)];
          expired := expired + 1;
        }
      }
      assert ids[..|ids|] == ids;
    }
  }

  lemma FlipOneMore(before: Table, ids: seq<Pk>, i: nat, now: int, raising: set<Pk>)
    requires i < |ids| && OldestFirst(before, ids)
    ensures var id, done := ids[i], Members(ids[..i]);
      && id !in done
      && Flipped(before, Members(ids[..i + 1]), now, raising)
         == Flipped(before, done, now, raising)[id := before[id].(status := Expired, decidedAt := Some(now),
                                                 callbackFailed := before[id].callbackFailed || id in raising)]
  {
    assert ids[..i + 1] == ids[..i] + [ids[i]];
  }

  lemma {:induction false} ListingLength(table: Table, ids: seq<Pk>, all: set<Pk>)
    requires OldestFirst(table, ids) && Lists(ids, all)
    ensures |ids| == |all|
  {
    if ids != [] {
      var front, last := ids[..|ids| - 1], ids[|ids| - 1];
      assert ids == front + [last];
      assert Lists(front, all - {last});
      ListingLength(table, front, all - {last});
    } else {
      assert forall id :: id !in all;
      assert all == {};
    }
  }

  // ----- draining a backlog -----

  lemma SweepShrinksOverdue(before: Table, after: Table, chosen: set<Pk>, now: int, limit: Option<nat>, raising: set<Pk>)
    requires SweptOldest(before, after, chosen, now, limit, raising)
    ensures OverdueRows(after, now) == OverdueRows(before, now) - chosen
    ensures |OverdueRows(after, now)| == |OverdueRows(before, now)| - |chosen|
  {
    FlippingRemovesOverdue(before, chosen, now, raising);
    CardinalitySplit(OverdueRows(before, now), chosen, OverdueRows(before, now) - chosen);
  }

  lemma FlippingRemovesOverdue(before: Table, chosen: set<Pk>, now: int, raising: set<Pk>)
    ensures OverdueRows(Flipped(before, chosen, now, raising), now) == OverdueRows(before, now) - chosen
  {
    var after := Flipped(before, chosen, now, raising);
    assert forall id :: id in OverdueRows(after, now) <==> id in before && id !in chosen && IsOverdue(before[id], now);
    assert forall id :: id in OverdueRows(before, now) <==> id in before && IsOverdue(before[id], now);
  }

  /** A run of bounded sweeps over a table nobody else writes. */
  ghost predicate SweepRun(tables: seq<Table>, now: int, limit: nat, raising: set<Pk>) {
    && tables != []
    && forall i | 0 <= i < |tables| - 1 :: OneSweep(tables[i], tables[i + 1], now, limit, raising)
  }

  ghost predicate OneSweep(before: Table, after: Table, now: int, limit: nat, raising: set<Pk>) {
    exists chosen :: SweptOldest(before, after, chosen, now, Some(limit), raising)
  }

  /** After k calls of limit L, min(k * L, n) of the n overdue rows are gone. */
  lemma {:induction false} BacklogAfterCalls(tables: seq<Table>, now: int, limit: nat, raising: set<Pk>, k: nat)
    requires SweepRun(tables, now, limit, raising) && k < |tables|
    ensures |OverdueRows(tables[k], now)| == Max(0, |OverdueRows(tables[0], now)| - k * limit)
  {
    if k > 0 {
      BacklogAfterCalls(tables, now, limit, raising, k - 1);
      assert OneSweep(tables[k - 1], tables[k - 1 + 1], now, limit, raising);
      var chosen :| SweptOldest(tables[k - 1], tables[k], chosen, now, Some(limit), raising);
      SweepShrinksOverdue(tables[k - 1], tables[k], chosen, now, Some(limit), raising);
      assert k * limit == (k - 1) * limit + limit;
    }
  }

  function CeilDiv(n: nat, d: nat): nat
    requires d > 0
  {
    (n + d - 1) / d
  }

  /** With L > 0 the backlog of n rows is drained by call ceil(n / L), not sooner. */
  lemma BacklogDrainsInCeil(tables: seq<Table>, now: int, limit: nat, raising: set<Pk>, k: nat)
    requires SweepRun(tables, now, limit, raising) && k < |tables| && 0 < limit
    ensures |OverdueRows(tables[k], now)| == 0 <==> CeilDiv(|OverdueRows(tables[0], now)|, limit) <= k
  {
    BacklogAfterCalls(tables, now, limit, raising, k);
    CeilIsLeast(|OverdueRows(tables[0], now)|, limit, k);
  }

  lemma CeilIsLeast(n: nat, d: nat, k: nat)
    requires d > 0
    ensures CeilDiv(n, d) <= k <==> n <= k * d
  {
    var q := CeilDiv(n, d);
    assert q * d <= n + d - 1 < q * d + d;
    if q <= k {
      assert q * d <= k * d;
    } else {
      assert k * d <= (q - 1) * d == q * d - d;
    }
  }

  // ----- lazy expiry refines eager expiry -----

  /** Reading the effective status of a lazily swept table is reading the stored
      status of one where everything overdue was expired at once; and sweeping
      any overdue rows at `sweptAt` changes no effective status from then on. */
  lemma LazyRefinesEager(table: Table, chosen: set<Pk>, sweptAt: int, raising: set<Pk>, id: Pk, now: int)
    requires id in table && chosen <= OverdueRows(table, sweptAt) && sweptAt <= now
    ensures EffectiveStatus(Flipped(table, chosen, sweptAt, raising)[id], now) == EffectiveStatus(table[id], now)
    ensures Flipped(table, OverdueRows(table, now), now, raising)[id].status == EffectiveStatus(table[id], now)
  {
  }
}
