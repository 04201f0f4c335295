/** The life of the receiver process `rtl_fm` (apps/cw/radiodaemon.py): one server
    starts, stops and retunes it, and a pidfile outlives the server.

    A server restart or the death of the child can fall between any two statements
    of an operation, so the operations are a machine of single steps over a world
    of live processes, the pidfile and the server's own memory. */
module RadioLifecycle {
  import opened Common

  /** Process numbers; none is given to two receivers. */
  datatype Pid = Pid(n: nat)

  /** What follows the reaping of a stale process: the end of a stop, the start of a
      retune, the sweep of a seek (which remembers if something was playing), or the
      spawn inside a start. */
  datatype After = Finish | StartAgain | SweepBand(resume: bool) | SpawnNow

  /** The statement the running operation is at. */
  datatype Control =
    | Idle
    | Terminate(after: After) | Forget(after: After)
    | Reap(after: After) | Kill(pid: Pid, after: After) | Unlink(after: After)
    | Guard | Spawn | WritePid(pid: Pid) | Settle | AwaitSink
    | Sweep(resume: bool)

  /** `live`: the receivers running now; `used`: every receiver ever spawned;
      `child`: the process the server supervises. */
  datatype World = World(live: set<Pid>, used: set<Pid>, pidfile: Option<Pid>, child: Option<Pid>, control: Control)

  datatype Operation = Start | Stop | Retune | Seek

  datatype SweepResult = Found | NothingFound | SweepFailed

  /** What the surroundings answer during an operation. */
  datatype Answers = Answers(newPid: Pid, mayStart: bool, spawns: bool, survives: bool, sinkOpens: bool, sweep: SweepResult)

  datatype Event = Begin(op: Operation) | Proceed(answers: Answers) | Die(pid: Pid) | Restart

  function Fresh(): World { World({}, {}, None, None, Idle) }

  predicate Playing(w: World) { w.child.Some? && w.child.value in w.live }

  // ----- the steps -----

  function BeginStep(w: World, op: Operation): World {
    if !w.control.Idle? then w  // the operation lock is taken
    else match op
      case Start => w.(control := Guard)
      case Stop => w.(control := Terminate(Finish))
      case Retune => w.(control := Terminate(StartAgain))
      case Seek => w.(control := Terminate(SweepBand(Playing(w))))
  }

  function Next(after: After): Control {
    match after
    case Finish => Idle
    case StartAgain => Guard
    case SweepBand(resume) => Sweep(resume)
    case SpawnNow => Spawn
  }

  /** One statement of the running operation; an error ends it. */
  function ProceedStep(w: World, a: Answers): World {
    match w.control
    case Idle => w
    // stopping
    case Terminate(after) => w.(live := if Playing(w) then w.live - {w.child.value} else w.live, control := Forget(after))
    case Forget(after) => w.(child := None, control := Reap(after))
    // reaping
    case Reap(after) =>
      if w.pidfile.None? || (Playing(w) && w.child == w.pidfile) then w.(control := Next(after))
      else w.(control := Kill(w.pidfile.value, after))
    case Kill(pid, after) => w.(live := w.live - {pid}, control := Unlink(after))
    case Unlink(after) => w.(pidfile := None, control := Next(after))
    // starting
    case Guard => w.(control := if a.mayStart then Reap(SpawnNow) else Idle)
    case Spawn =>
      if Playing(w) || !a.spawns || a.newPid in w.used then w.(control := Idle)
      else w.(live := w.live + {a.newPid}, used := w.used + {a.newPid}, child := Some(a.newPid), control := WritePid(a.newPid))
    case WritePid(pid) => w.(pidfile := Some(pid), control := Settle)
    case Settle =>
      var settled := if !a.survives && Playing(w) then w.(live := w.live - {w.child.value}) else w;
      if Playing(settled) then settled.(control := AwaitSink) else settled.(child := None, control := Idle)
    case AwaitSink => w.(control := if a.sinkOpens then Idle else Terminate(Finish))
    // seeking
    case Sweep(resume) =>
      w.(control := if a.sweep.Found? || (a.sweep.NothingFound? && resume) then Guard else Idle)
  }

  function Step(w: World, e: Event): World {
    match e
    case Begin(op) => BeginStep(w, op)
    case Proceed(a) => ProceedStep(w, a)
    case Die(pid) => w.(live := w.live - {pid})
    case Restart => w.(child := None, control := Idle)
  }

  function Run(w: World, events: seq<Event>): World {
    if events == [] then w else Step(Run(w, events[..|events| - 1]), events[|events| - 1])
  }

  // ----- what every step keeps -----

  /** Every live receiver can be found: it is named by the pidfile, or is about to be. */
  predicate Tracked(w: World) {
    forall p | p in w.live :: w.pidfile == Some(p) || w.control == WritePid(p)
  }

  /** A stop has forgotten the child before it reaps. */
  predicate Stopping(c: Control) {
    (c.Reap? || c.Kill? || c.Unlink?) && !c.after.SpawnNow?
  }

  predicate Inv(w: World) {
    && w.live <= w.used
    && (w.pidfile.Some? ==> w.pidfile.value in w.used)
    && Tracked(w)
    && (forall p | p in w.live :: w.control.WritePid? ==> w.control == WritePid(p))
    && (w.control.WritePid? ==> w.child == Some(w.control.pid) && w.pidfile != w.child && w.control.pid in w.used)
    && (w.control.Kill? ==> w.pidfile == Some(w.control.pid))
    && (w.control.Unlink? ==> w.live == {})
    && (w.control.Spawn? ==> forall p | p in w.live :: w.child == Some(p))
    && (Stopping(w.control) ==> w.child.None?)
    && (w.control.Forget? ==> !Playing(w))
    && (w.control.Sweep? ==> w.live == {} && w.child.None?)
  }

  /** The one gap: the server is restarted after it spawned the receiver and before
      it wrote the pidfile, and the receiver is alive. */
  predicate HitsGap(w: World, e: Event) {
    e.Restart? && w.control.WritePid? && w.control.pid in w.live
  }

  lemma BeginKeepsInv(w: World, op: Operation)
    requires Inv(w)
    ensures Inv(BeginStep(w, op))
  {
  }

  lemma ProceedKeepsInv(w: World, a: Answers)
    requires Inv(w)
    ensures Inv(ProceedStep(w, a))
  {
    match w.control
    case Idle =>
    case Terminate(after) =>
    case Forget(after) =>
    case Reap(after) =>
    case Kill(pid, after) =>
    case Unlink(after) =>
    case Guard =>
    case Spawn =>
      if Playing(w) || !a.spawns || a.newPid in w.used {
      } else {
        assert w.live == {};
      }
    case WritePid(pid) =>
    case Settle =>
    case AwaitSink =>
    case Sweep(resume) =>
  }

  /** Every step keeps the invariant, and a restart breaks it exactly in the gap:
      then the receiver is lost from sight. */
  lemma StepKeepsInv(w: World, e: Event)
    requires Inv(w)
    ensures HitsGap(w, e) ==> !Tracked(Step(w, e))
    ensures !HitsGap(w, e) ==> Inv(Step(w, e))
  {
    match e
    case Begin(op) => BeginKeepsInv(w, op);
    case Proceed(a) => ProceedKeepsInv(w, a);
    case Die(pid) =>
    case Restart =>
  }

  // ----- whole runs -----

  /** No restart of the run falls into the gap. */
  predicate AvoidsGap(w: World, events: seq<Event>) {
    events == [] || (AvoidsGap(w, events[..|events| - 1])
                     && !HitsGap(Run(w, events[..|events| - 1]), events[|events| - 1]))
  }

  /** Every live receiver can be found at every moment of the run. */
  predicate TrackedThroughout(w: World, events: seq<Event>) {
    Tracked(Run(w, events)) && (events == [] || TrackedThroughout(w, events[..|events| - 1]))
  }

  lemma {:induction false} RunKeepsInv(w: World, events: seq<Event>)
    requires Inv(w) && AvoidsGap(w, events)
    ensures Inv(Run(w, events))
  {
    if events != [] {
      var n := |events| - 1;
      RunKeepsInv(w, events[..n]);
      StepKeepsInv(Run(w, events[..n]), events[n]);
    }
  }

  /** The pidfile names every live receiver throughout a run exactly when no restart
      of the run falls into the gap. */
  lemma {:induction false} TrackedExactlyOutsideGap(events: seq<Event>)
    ensures TrackedThroughout(Fresh(), events) <==> AvoidsGap(Fresh(), events)
  {
    if events != [] {
      var n := |events| - 1;
      TrackedExactlyOutsideGap(events[..n]);
      if AvoidsGap(Fresh(), events[..n]) {
        RunKeepsInv(Fresh(), events[..n]);
        StepKeepsInv(Run(Fresh(), events[..n]), events[n]);
      }
    }
  }

  predicate AtMostOne(s: set<Pid>) {
    forall p, q | p in s && q in s :: p == q
  }

  /** Safety over every run that avoids the gap: at most one receiver is alive; one
      is spawned only when none is, so an orphan of an earlier server is gone by then;
      and a stop leaves none alive. */
  lemma ReceiverSafety(events: seq<Event>, e: Event)
    requires AvoidsGap(Fresh(), events)
    ensures var w := Run(Fresh(), events);
      && AtMostOne(w.live)
      && (Step(w, e).used != w.used ==> w.live == {})
      && (Stopping(w.control) && Step(w, e).control == Next(w.control.after) && e.Proceed? ==> Step(w, e).live == {})
  {
    RunKeepsInv(Fresh(), events);
    var w := Run(Fresh(), events);
    if Step(w, e).used != w.used {
      assert w.control.Spawn? && !Playing(w);
    }
  }

  // ----- operations run to their end -----

  /** How many statements of the operation are left at most. */
  function Left(c: Control): nat {
    match c
    case Idle => 0
    case Unlink(after) => LeftAfter(after) + 1
    case Kill(_, after) => LeftAfter(after) + 2
    case Reap(after) => LeftAfter(after) + 3
    case Forget(after) => LeftAfter(after) + 4
    case Terminate(after) => LeftAfter(after) + 5
    case AwaitSink => 6
    case Settle => 7
    case WritePid(_) => 8
    case Spawn => 9
    case Guard => 13
    case Sweep(_) => 14
  }

  function LeftAfter(after: After): nat {
    match after
    case Finish => 0
    case SpawnNow => 9
    case StartAgain => 13
    case SweepBand(_) => 14
  }

  /** The operation run to its end, undisturbed. */
  function Complete(w: World, a: Answers): World
    decreases Left(w.control)
  {
    if w.control.Idle? then w else Complete(ProceedStep(w, a), a)
  }

  lemma {:induction false} CompleteKeepsInv(w: World, a: Answers)
    requires Inv(w)
    ensures Inv(Complete(w, a)) && Complete(w, a).control.Idle?
    decreases Left(w.control)
  {
    if !w.control.Idle? {
      ProceedKeepsInv(w, a);
      CompleteKeepsInv(ProceedStep(w, a), a);
    }
  }

  /** What reaping comes to: a receiver the pidfile names is ended and forgotten,
      unless it is the one this server supervises. */
  function Reaped(w: World): World {
    if w.pidfile.None? || (Playing(w) && w.child == w.pidfile) then w
    else w.(live := w.live - {w.pidfile.value}, pidfile := None)
  }

  lemma CompleteReap(w: World, after: After, a: Answers)
    requires w.control == Reap(after)
    ensures Complete(w, a) == Complete(Reaped(w).(control := Next(after)), a)
  {
    var w1 := ProceedStep(w, a);
    assert Complete(w, a) == Complete(w1, a);
    if w1.control.Kill? {
      var w2 := ProceedStep(w1, a);
      assert Complete(w1, a) == Complete(w2, a);
      assert Complete(w2, a) == Complete(ProceedStep(w2, a), a);
    }
  }

  /** What stopping comes to. */
  function Stopped(w: World): World {
    Reaped(w.(live := if Playing(w) then w.live - {w.child.value} else w.live, child := None))
  }

  lemma CompleteStop(w: World, after: After, a: Answers)
    requires w.control == Terminate(after)
    ensures Complete(w, a) == Complete(Stopped(w).(control := Next(after)), a)
  {
    var w1 := ProceedStep(w, a);
    var w2 := ProceedStep(w1, a);
    assert Complete(w, a) == Complete(w1, a);
    assert Complete(w1, a) == Complete(w2, a);
    CompleteReap(w2, after, a);
  }

  /** A complete stop leaves no receiver alive, supervised or not. */
  lemma StopEndsAll(w: World, a: Answers)
    requires Inv(w) && w.control.Idle?
    ensures var stopped := Complete(BeginStep(w, Stop), a);
      stopped.live == {} && stopped.child.None? && stopped.control.Idle?
  {
    CompleteStop(BeginStep(w, Stop), Finish, a);
  }

  /** What the gap costs: the receiver is lost to the new server, whose complete stop
      leaves it alive, and whose next start makes it two. */
  lemma StopMissesLostReceiver(w: World, a: Answers)
    requires Inv(w) && HitsGap(w, Restart)
    ensures w.control.pid in Complete(BeginStep(Step(w, Restart), Stop), a).live
    ensures a.mayStart && a.spawns && a.survives && a.sinkOpens && a.newPid !in w.used ==>
      {w.control.pid, a.newPid} <= Complete(BeginStep(Step(w, Restart), Start), a).live
  {
    CompleteStop(BeginStep(Step(w, Restart), Stop), Finish, a);
    if a.mayStart && a.spawns && a.survives && a.sinkOpens && a.newPid !in w.used {
      CompleteStart(BeginStep(Step(w, Restart), Start), a);
    }
  }

  lemma RunSnoc(w: World, events: seq<Event>, e: Event)
    ensures Run(w, events + [e]) == Step(Run(w, events), e)
  {
    assert (events + [e])[..|events|] == events;
  }

  /** The gap is reachable: four steps into the first start. */
  lemma GapIsReachable(a: Answers) returns (events: seq<Event>)
    requires a.mayStart && a.spawns
    ensures var w := Run(Fresh(), events);
      Inv(w) && HitsGap(w, Restart) && w.control == WritePid(a.newPid)
  {
    var go := Proceed(a);
    RunSnoc(Fresh(), [], Begin(Start));
    RunSnoc(Fresh(), [] + [Begin(Start)], go);
    RunSnoc(Fresh(), [] + [Begin(Start)] + [go], go);
    RunSnoc(Fresh(), [] + [Begin(Start)] + [go] + [go], go);
    events := [] + [Begin(Start)] + [go] + [go] + [go];
  }

  lemma CompleteStart(w: World, a: Answers)
    requires w.control.Guard? && a.mayStart
    ensures Complete(w, a) == Complete(Reaped(w).(control := Spawn), a)
    ensures a.spawns && a.newPid !in w.used && !Playing(Reaped(w)) ==>
      Complete(w, a) == Complete(Spawned(Reaped(w), a.newPid), a)
    ensures a.spawns && a.newPid !in w.used && !Playing(Reaped(w)) && a.survives && a.sinkOpens ==>
      Complete(w, a) == Spawned(Reaped(w), a.newPid).(control := Idle)
  {
    var w1 := ProceedStep(w, a);
    assert Complete(w, a) == Complete(w1, a);
    CompleteReap(w1, SpawnNow, a);
    var w2 := Reaped(w).(control := Spawn);
    if a.spawns && a.newPid !in w.used && !Playing(Reaped(w)) {
      var w3 := ProceedStep(w2, a);
      assert Complete(w2, a) == Complete(w3, a);
      assert Complete(w3, a) == Complete(ProceedStep(w3, a), a);
      var w4 := ProceedStep(w3, a);
      if a.survives && a.sinkOpens {
        var w5 := ProceedStep(w4, a);
        assert Complete(w4, a) == Complete(w5, a);
        assert Complete(w5, a) == ProceedStep(w5, a);
      }
    }
  }

  /** Nothing prevents the receiver from starting. */
  predicate StartsWell(w: World, a: Answers) {
    a.mayStart && a.spawns && a.survives && a.sinkOpens && a.newPid !in w.used
  }

  /** Where a seek leaves the receiver: playing the station it found, or playing again
      if it found none and had been playing; otherwise silent. */
  lemma SeekOutcome(w: World, a: Answers)
    requires Inv(w) && w.control.Idle? && StartsWell(w, a)
    ensures var after := Complete(BeginStep(w, Seek), a);
      && (Playing(after) <==> a.sweep.Found? || (a.sweep.NothingFound? && Playing(w)))
      && after.live == if Playing(after) then {a.newPid} else {}
  {
    var s := BeginStep(w, Seek);
    CompleteStop(s, SweepBand(Playing(w)), a);
    var sweeping := Stopped(s).(control := Sweep(Playing(w)));
    var next := ProceedStep(sweeping, a);
    assert Complete(s, a) == Complete(sweeping, a) == Complete(next, a);
    assert sweeping.live == {};
    if next.control.Guard? {
      CompleteStart(next, a);
    }
  }

  /** A new receiver, supervised and named by the pidfile. */
  function Spawned(w: World, pid: Pid): World {
    w.(live := w.live + {pid}, used := w.used + {pid}, pidfile := Some(pid), child := Some(pid), control := Settle)
  }

  /** The server's receiver: its own memory, and the processes and the pidfile it
      acts on. */
  class Receiver {
    var live: set<Pid>
    var used: set<Pid>
    var pidfile: Option<Pid>
    var child: Option<Pid>

    constructor ()
      ensures State() == Fresh()
    {
      live, used, pidfile, child := {}, {}, None, None;
    }

    function State(): World
      reads this
    {
      World(live, used, pidfile, child, Idle)
    }

    function At(control: Control): World
      reads this
    {
      World(live, used, pidfile, child, control)
    }

    method ReapStale()
      modifies this
      ensures State() == Reaped(old(State()))
    {
      if pidfile.Some? && !(child.Some? && child.value in live && child == pidfile) {
        live := live - {pidfile.value};
        pidfile := None;
      }
    }

    method StopLocked()
      modifies this
      ensures State() == Stopped(old(State()))
      ensures old(Inv(State())) ==> live == {} && child.None?
    {
      if child.Some? && child.value in live {
        live := live - {child.value};
      }
      child := None;
      ReapStale();
    }

    /** Start a receiver, or raise. */
    method StartLocked(a: Answers) returns (raised: bool)
      modifies this
      ensures State() == Complete(old(At(Guard)), a)
      ensures !raised ==> child == Some(a.newPid) == pidfile && a.newPid in live
    {
      ghost var w := At(Guard);
      if !a.mayStart {
        return true;
      }
      ReapStale();
      CompleteStart(w, a);
      if (child.Some? && child.value in live) || !a.spawns || a.newPid in used {
        return true;
      }
      live, used, child := live + {a.newPid}, used + {a.newPid}, Some(a.newPid);
      pidfile := child;
      ghost var settle := At(Settle);
      if !a.survives {
        live := live - {child.value};
      }
      if child.value !in live {
        child := None;
        return true;
      }
      ghost var await := At(AwaitSink);
      assert Complete(settle, a) == Complete(await, a);
      if !a.sinkOpens {
        assert Complete(await, a) == Complete(At(Terminate(Finish)), a);
        CompleteStop(At(Terminate(Finish)), Finish, a);
        StopLocked();
        return true;
      }
      return false;
    }

    method Stop(ghost a: Answers)
      modifies this
      ensures State() == Complete(BeginStep(old(State()), Operation.Stop), a)
    {
      CompleteStop(At(Terminate(Finish)), Finish, a);
      StopLocked();
    }

    method Start(a: Answers) returns (raised: bool)
      modifies this
      ensures State() == Complete(BeginStep(old(State()), Operation.Start), a)
      ensures !raised ==> child == Some(a.newPid) == pidfile && a.newPid in live
      ensures old(Inv(State())) && !raised ==> live == {a.newPid}
    {
      ghost var w := BeginStep(State(), Operation.Start);
      if Inv(w) {
        CompleteKeepsInv(w, a);
      }
      raised := StartLocked(a);
    }

    method Retune(a: Answers) returns (raised: bool)
      modifies this
      ensures State() == Complete(BeginStep(old(State()), Operation.Retune), a)
      ensures !raised ==> child == Some(a.newPid) == pidfile && a.newPid in live
    {
      CompleteStop(At(Terminate(StartAgain)), StartAgain, a);
      StopLocked();
      raised := StartLocked(a);
    }

    /** Stop, sweep the band, and start on the station found, or on what was playing. */
    method Seek(a: Answers) returns (raised: bool)
      modifies this
      ensures State() == Complete(BeginStep(old(State()), Operation.Seek), a)
      ensures !raised ==> a.sweep.Found? && child == Some(a.newPid) == pidfile && a.newPid in live
    {
      var wasPlaying := child.Some? && child.value in live;
      ghost var w := At(Terminate(SweepBand(wasPlaying)));
      CompleteStop(w, SweepBand(wasPlaying), a);
      StopLocked();
      assert Complete(w, a) == Complete(ProceedStep(At(Sweep(wasPlaying)), a), a);
      if a.sweep.SweepFailed? {
        return true;
      }
      if a.sweep.NothingFound? {
        if wasPlaying {
          var _ := StartLocked(a);
        }
        return true;
      }
      raised := StartLocked(a);
    }
  }
}
