/**
 One entry under every interleaving of its operations, its processes and their watchers. Steps are cut where a lock is
 taken or released, or where an operation waits.
 */
module Protocol {
  import opened Basics
  import opened Entry

  datatype Kind = RunOp | RestartOp | StopOp | DeleteOp

  /** Where the operation that holds the operation lock is. A stop remembers what it captured when it began. */
  datatype Op =
    | Free
    | Entered(kind: Kind)
    | Asked(kind: Kind, gen: nat, job: Option<nat>, exited: Option<nat>)
    | Forced(kind: Kind, gen: nat, job: Option<nat>, exited: Option<nat>)
    | Closing(kind: Kind, gen: nat, job: Option<nat>, waited: bool)
    | Finishing(kind: Kind, gen: nat, waited: bool)
    | Ready(kind: Kind)
    | Leaving(kind: Kind)

  datatype Watcher = Watching | Recorded | Closed

  /**
   One run. asked: a stop began while it was running. reported: a stop gave up waiting for it. ends: the statuses with
   which the entry stopped running it, in order. The counters say how often its watcher wrote to the entry, how often
   its child group was closed and how often its `exited` channel was.
   */
  datatype Proc = Proc(pid: nat, running: bool, code: int, watcher: Watcher, grouped: bool, asked: bool, reported: bool,
                       ends: seq<Status>, records: nat, groupCloses: nat, exitedCloses: nat)

  /**
   looked: operations that found the entry and do not hold its lock yet. registering: the first start, which takes no
   operation lock, is still to come.
   */
  datatype System = System(live: Live, op: Op, procs: seq<Proc>, looked: multiset<Kind>,
                           registered: bool, registering: bool)
  {
    /** The run of a generation; they count from one. */
    function Of(gen: nat): Proc
      requires 1 <= gen <= |procs|
    {
      procs[gen - 1]
    }
  }

  datatype Spawned = Up(pid: nat, grouped: bool) | Down(reason: string)

  datatype Action =
    | Lookup(kind: Kind)
    | Enter(kind: Kind)
    | Ask
    | Wait(seen: bool)
    | WaitAgain(seen: bool)
    | CloseGroup
    | Finish(at: int)
    | Start(result: Spawned, at: int)
    | Deregister
    | Leave
    | ProcessEnds(gen: nat, code: int)
    | Record(gen: nat, at: int)
    | CloseExited(gen: nat)
    | RegisterStart(result: Spawned, at: int)

  /** Every generation named anywhere is one that was started. */
  predicate Sound(s: System) {
    && |s.procs| == s.live.gen
    && (s.live.status == Running ==> s.live.gen >= 1)
    && Names(s, s.live.job) && Names(s, s.live.exited)
    && (s.op.Asked? || s.op.Forced? ==> Names(s, Some(s.op.gen)) && Names(s, s.op.job) && Names(s, s.op.exited))
    && (s.op.Closing? ==> Names(s, Some(s.op.gen)) && Names(s, s.op.job))
    && (s.op.Finishing? ==> Names(s, Some(s.op.gen)))
  }

  predicate Names(s: System, gen: Option<nat>) { gen.Some? ==> 1 <= gen.value <= |s.procs| }

  predicate Enabled(s: System, a: Action)
    requires Sound(s)
  {
    match a
    case Lookup(kind) => s.registered
    case Enter(kind) => s.op.Free? && kind in s.looked
    case Ask => s.op.Entered? && s.op.kind != RunOp
    case Wait(seen) => s.op.Asked? && (seen ==> ExitedClosed(s, s.op.exited))
    case WaitAgain(seen) => s.op.Forced? && (seen ==> ExitedClosed(s, s.op.exited))
    case CloseGroup => s.op.Closing?
    case Finish(at) => s.op.Finishing?
    case Start(result, at) => (s.op.Entered? && s.op.kind == RunOp) || (s.op.Ready? && s.op.kind == RestartOp)
    case Deregister => s.op.Ready? && s.op.kind == DeleteOp
    case Leave => s.op.Leaving? || (s.op.Ready? && s.op.kind == StopOp)
    case ProcessEnds(gen, code) => 1 <= gen <= |s.procs| && s.Of(gen).running
    case Record(gen, at) => 1 <= gen <= |s.procs| && s.Of(gen).watcher == Watching && !s.Of(gen).running
    case CloseExited(gen) => 1 <= gen <= |s.procs| && s.Of(gen).watcher == Recorded
    case RegisterStart(result, at) => s.registering
  }

  /** The wait for a watcher is over: its channel is closed, or there was none. */
  predicate ExitedClosed(s: System, exited: Option<nat>)
    requires Names(s, exited)
  {
    exited.Some? ==> s.Of(exited.value).watcher == Closed
  }

  function Put(s: System, gen: nat, p: Proc): (r: System)
    requires Sound(s) && 1 <= gen <= |s.procs|
    ensures Sound(r)
  {
    s.(procs := s.procs[gen - 1 := p])
  }

  function CloseGroupOf(s: System, job: Option<nat>): (r: System)
    requires Sound(s) && Names(s, job)
    ensures Sound(r) && r == s.(procs := r.procs)
  {
    if job.None? then s else Put(s, job.value, s.Of(job.value).(groupCloses := s.Of(job.value).groupCloses + 1))
  }

  /** The spawn, with the entry locked. */
  function Spawn(s: System, result: Spawned, at: int): (r: System)
    requires Sound(s)
    ensures Sound(r)
  {
    if result.Down? then s.(live := StartFailed(s.live, result.reason, at))
    else s.(live := Started(s.live, result.pid, result.grouped, at),
            procs := s.procs + [Proc(result.pid, true, 0, Watching, result.grouped, false, false, [], 0, 0, 0)])
  }

  /** A stop begins: something is running, or there is nothing to do. */
  function AskStep(s: System): (r: System)
    requires Sound(s) && s.op.Entered?
    ensures Sound(r)
  {
    if s.live.status != Running then s.(op := Ready(s.op.kind))
    else
      Put(s, s.live.gen, s.Of(s.live.gen).(asked := true))
        .(live := StopAsked(s.live), op := Asked(s.op.kind, s.live.gen, s.live.job, s.live.exited))
  }

  function FinishStep(s: System, at: int): (r: System)
    requires Sound(s) && s.op.Finishing?
    ensures Sound(r)
  {
    var p := s.Of(s.op.gen);
    Put(s, s.op.gen, p.(reported := p.reported || !s.op.waited, ends := p.ends + [Stopped]))
      .(live := StopDone(s.live, s.op.waited, at), op := Ready(s.op.kind))
  }

  /** A wait ended, and the next thing is to force the process and wait again, or to close its group. */
  function WaitStep(s: System, seen: bool, again: bool): (r: System)
    requires Sound(s) && (s.op.Asked? || s.op.Forced?)
    ensures Sound(r)
  {
    if again then s.(op := Forced(s.op.kind, s.op.gen, s.op.job, s.op.exited))
    else s.(op := Closing(s.op.kind, s.op.gen, s.op.job, seen))
  }

  function CloseStep(s: System): (r: System)
    requires Sound(s) && s.op.Closing?
    ensures Sound(r)
  {
    CloseGroupOf(s, s.op.job).(op := Finishing(s.op.kind, s.op.gen, s.op.waited))
  }

  /** The watcher's locked section. A status it sets ends the run; the child group goes back with it. */
  function RecordStep(s: System, gen: nat, at: int): (r: System)
    requires Sound(s) && 1 <= gen <= |s.procs|
    ensures Sound(r)
  {
    var p := s.Of(gen);
    var live := Watched(s.live, gen, p.code, at);
    if s.live.gen != gen then Put(s, gen, p.(watcher := Recorded))
    else if s.live.stopRequested then Put(s, gen, p.(watcher := Recorded, records := p.records + 1)).(live := live)
    else
      var ended := Put(s, gen, p.(watcher := Recorded, records := p.records + 1, ends := p.ends + [live.status]));
      CloseGroupOf(ended, s.live.job).(live := live)
  }

  function StartStep(s: System, result: Spawned, at: int): (r: System)
    requires Sound(s) && (s.op.Entered? || s.op.Ready?)
    ensures Sound(r)
  {
    if s.live.status == Running && s.op.kind == RunOp then s.(op := Leaving(RunOp))
    else Spawn(s, result, at).(op := Leaving(s.op.kind))
  }

  function Next(s: System, a: Action): (r: System)
    requires Sound(s) && Enabled(s, a)
    ensures Sound(r)
  {
    match a
    case Lookup(kind) => s.(looked := s.looked + multiset{kind})
    case Enter(kind) => s.(looked := s.looked - multiset{kind}, op := Entered(kind))
    case Ask => AskStep(s)
    case Wait(seen) => WaitStep(s, seen, !seen)
    case WaitAgain(seen) => WaitStep(s, seen, false)
    case CloseGroup => CloseStep(s)
    case Finish(at) => FinishStep(s, at)
    case Start(result, at) => StartStep(s, result, at)
    case Deregister => s.(registered := false, op := Leaving(DeleteOp))
    case Leave => s.(op := Free)
    case ProcessEnds(gen, code) => Put(s, gen, s.Of(gen).(running := false, code := code))
    case Record(gen, at) => RecordStep(s, gen, at)
    case CloseExited(gen) => Put(s, gen, s.Of(gen).(watcher := Closed, exitedCloses := s.Of(gen).exitedCloses + 1))
    case RegisterStart(result, at) => Spawn(s, result, at).(registering := false)
  }
}
