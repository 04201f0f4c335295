/** What pruning does to the incident feed: the pruner deletes failed beats long before
    the feed's lookback ends (apps/heartbeat/services.py, apps/heartbeat/feeds.py). */
module IncidentRetention {
  import opened Common
  import H = Heartbeat
  import opened Incidents

  /** The feed's rows are the failed beats of the store; `number` numbers the monitors
      in the order of their keys. */
  ghost predicate Shows(rows: seq<Beat>, s: H.Store, number: string -> int) {
    forall key, t :: FailedRow(rows, number(key), t) <==> FailedBeat(s, key, t)
  }

  ghost predicate FailedRow(rows: seq<Beat>, m: int, t: int) {
    exists b | b in rows :: b.failed && b.monitor == m && b.ts == t
  }

  ghost predicate FailedBeat(s: H.Store, key: string, t: int) {
    H.BeatKey(key, t) in s.beats && s.beats[H.BeatKey(key, t)].status.Fail?
  }

  lemma FailedIsShown(rows: seq<Beat>, since: int, m: int, t: int)
    ensures Failed(rows, since, m, t) <==> t >= since && FailedRow(rows, m, t)
  {
  }

  lemma PrunedBeats(cfg: H.Config, s: H.Store, now: int, key: string, t: int)
    ensures FailedBeat(H.PruneStep(cfg, s, now), key, t) <==> FailedBeat(s, key, t) && t >= H.Cutoff(cfg, now)
  {
  }

  /** After a prune the feed sees what it saw with a lookback that starts no earlier
      than the pruner's cutoff. */
  lemma PruneMovesLookback(cfg: H.Config, s: H.Store, now: int, before: seq<Beat>, after: seq<Beat>,
                           number: string -> int, since: int, key: string, t: int)
    requires Shows(before, s, number) && Shows(after, H.PruneStep(cfg, s, now), number)
    ensures Failed(after, since, number(key), t)
       <==> Failed(before, Max(since, H.Cutoff(cfg, now)), number(key), t)
  {
    FailedIsShown(after, since, number(key), t);
    FailedIsShown(before, Max(since, H.Cutoff(cfg, now)), number(key), t);
    PrunedBeats(cfg, s, now, key, t);
    assert FailedRow(before, number(key), t) <==> FailedBeat(s, key, t);
    assert FailedRow(after, number(key), t) <==> FailedBeat(H.PruneStep(cfg, s, now), key, t);
  }

  /** What a prune changes in the feed, for every store and instant: incidents that began
      before the cutoff are gone, those that began since stay, and a new identity
      appears exactly where the cutoff falls into an incident, between two failures no
      farther apart than the gap. */
  lemma PruneCutsIncidents(cfg: H.Config, s: H.Store, now: int, before: seq<Beat>, after: seq<Beat>,
                           number: string -> int, since: int, key: string, t: int)
    requires Shows(before, s, number) && Shows(after, H.PruneStep(cfg, s, now), number)
    ensures var m, later := number(key), Max(since, H.Cutoff(cfg, now));
      HasIncident(after, since, m, t) <==>
        t >= later && (HasIncident(before, since, m, t)
                       || (Failed(before, since, m, t) && Quiet(before, since, m, Max(later, t - GAP), t)
                           && !Quiet(before, since, m, t - GAP, later)))
  {
    var m, later := number(key), Max(since, H.Cutoff(cfg, now));
    IncidentStarts(after, since, m, t);
    IncidentStarts(before, later, m, t);
    forall u ensures Failed(after, since, m, u) <==> Failed(before, later, m, u) {
      PruneMovesLookback(cfg, s, now, before, after, number, since, key, u);
    }
    assert HasIncident(after, since, m, t) <==> HasIncident(before, later, m, t);
    if t >= later {
      LookbackCutsIncident(before, since, later, m, t);
    }
  }
}
