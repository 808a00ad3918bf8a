/** The live half of one registered command: what its fields say about the process, and who may change them how. */
module Entry {
  import opened Basics

  datatype Status = Stopped | Running | Exited | Killed | Failed

  /**
   The live fields. A child group, a collector and an `exited` channel are named by the generation they were made for.
   */
  datatype Live = Live(status: Status, error: string, pid: Option<nat>, exitCode: Option<int>, startedAt: Option<int>,
                       endedAt: Option<int>, stopRequested: bool, job: Option<nat>, coll: Option<nat>,
                       exited: Option<nat>, gen: nat)

  function Cleared(l: Live): Live {
    Live(Stopped, "", None, None, None, None, false, None, None, None, l.gen)
  }

  /** A start that never produced a process. */
  function StartFailed(l: Live, reason: string, at: int): Live {
    l.(status := Failed, error := reason, pid := None, exitCode := None, startedAt := None, endedAt := Some(at))
  }

  /** A start that did, inside a child group or not. */
  function Started(l: Live, pid: nat, grouped: bool, at: int): Live {
    var gen := l.gen + 1;
    var job := if grouped then Some(gen) else None;
    Live(Running, "", Some(pid), None, Some(at), None, false, job, Some(gen), Some(gen), gen)
  }

  function StatusOf(code: int): Status { if code == 0 then Exited else Killed }

  /** The watcher of generation `gen` saw its process end. */
  function Watched(l: Live, gen: nat, code: int, at: int): Live {
    if l.gen != gen then l
    else if l.stopRequested then l.(exitCode := Some(code), endedAt := Some(at))
    else l.(exitCode := Some(code), endedAt := Some(at), status := StatusOf(code), job := None)
  }

  function StopAsked(l: Live): Live {
    if l.status == Running then l.(stopRequested := true) else l
  }

  /** The end of a stop, whose wait saw the process end or ran out of time. */
  function StopDone(l: Live, waited: bool, at: int): Live {
    l.(job := None, exitCode := if waited then l.exitCode else None, status := Stopped,
       endedAt := if l.endedAt.None? then Some(at) else l.endedAt)
  }

  class Entry {
    var status: Status
    var error: string
    var pid: Option<nat>
    var exitCode: Option<int>
    var startedAt: Option<int>
    var endedAt: Option<int>
    var stopRequested: bool
    var job: Option<nat>
    var coll: Option<nat>
    var exited: Option<nat>
    var gen: nat

    function State(): Live
      reads this
    {
      Live(status, error, pid, exitCode, startedAt, endedAt, stopRequested, job, coll, exited, gen)
    }

    constructor ()
      ensures State() == Live(Stopped, "", None, None, None, None, false, None, None, None, 0)
    {
      status, error, pid, exitCode, startedAt, endedAt := Stopped, "", None, None, None, None;
      stopRequested, job, coll, exited, gen := false, None, None, None, 0;
    }

    method ClearLive()
      modifies this
      ensures State() == Cleared(old(State()))
      ensures status == Stopped && error == "" && pid.None? && exitCode.None? && startedAt.None? && endedAt.None?
      ensures !stopRequested && job.None? && coll.None? && exited.None? && gen == old(gen)
    {
      status, error, pid, exitCode, startedAt, endedAt := Stopped, "", None, None, None, None;
      stopRequested, job, coll, exited := false, None, None, None;
    }

    method MarkFailed(reason: string, at: int)
      modifies this
      ensures State() == StartFailed(old(State()), reason, at)
      ensures status == Failed && error == reason && endedAt == Some(at)
      ensures pid.None? && exitCode.None? && startedAt.None?
      ensures stopRequested == old(stopRequested) && job == old(job) && coll == old(coll) && exited == old(exited)
      ensures gen == old(gen)
    {
      status, error := Failed, reason;
      pid, exitCode, startedAt := None, None, None;
      endedAt := Some(at);
    }

    /** What a successful spawn writes. */
    method MarkStarted(pid: nat, grouped: bool, at: int)
      modifies this
      ensures State() == Started(old(State()), pid, grouped, at)
      ensures status == Running && error == "" && this.pid == Some(pid) && startedAt == Some(at)
      ensures exitCode.None? && endedAt.None? && !stopRequested && gen == old(gen) + 1
      ensures job == (if grouped then Some(gen) else None) && coll == Some(gen) && exited == Some(gen)
    {
      status, error := Running, "";
      this.pid := Some(pid);
      exitCode, startedAt, endedAt := None, Some(at), None;
      stopRequested := false;
      job := if grouped then Some(gen + 1) else None;
      coll, exited := Some(gen + 1), Some(gen + 1);
      gen := gen + 1;
    }

    /** The watcher's locked section; `closed` is the child group it gives back. */
    method Watch(gen: nat, code: int, at: int) returns (closed: Option<nat>)
      modifies this
      ensures State() == Watched(old(State()), gen, code, at)
      ensures old(this.gen) != gen ==> State() == old(State())
      ensures old(this.gen) == gen ==>
                && exitCode == Some(code) && endedAt == Some(at)
                && (old(stopRequested) ==> status == old(status) && job == old(job))
                && (!old(stopRequested) ==> status == (if code == 0 then Exited else Killed) && job.None?)
      ensures pid == old(pid) && error == old(error) && startedAt == old(startedAt) && this.gen == old(this.gen)
      ensures stopRequested == old(stopRequested) && coll == old(coll) && exited == old(exited)
      ensures closed == if old(this.gen) == gen && !old(stopRequested) then old(job) else None
    {
      closed := None;
      if this.gen != gen { return; }
      exitCode, endedAt := Some(code), Some(at);
      if stopRequested { return; }
      if code == 0 { status := Exited; } else { status := Killed; }
      if job.Some? { closed, job := job, None; }
    }

    /** The first locked section of a stop: `asked` tells whether there is anything to stop. */
    method AskStop() returns (asked: bool, job: Option<nat>, coll: Option<nat>, exited: Option<nat>, pid: nat)
      modifies this
      ensures State() == StopAsked(old(State()))
      ensures State() == old(State()).(stopRequested := old(stopRequested) || old(status) == Running)
      ensures asked == (old(status) == Running)
      ensures job == old(this.job) && coll == old(this.coll) && exited == old(this.exited)
      ensures pid == if old(this.pid).Some? then old(this.pid).value else 0
    {
      asked, job, coll, exited, pid := status == Running, this.job, this.coll, this.exited, 0;
      if this.pid.Some? { pid := this.pid.value; }
      if asked { stopRequested := true; }
    }

    /** The last locked section of a stop. */
    method FinishStop(waited: bool, at: int)
      modifies this
      ensures State() == StopDone(old(State()), waited, at)
      ensures status == Stopped && job.None?
      ensures exitCode == if waited then old(exitCode) else None
      ensures endedAt == if old(endedAt).Some? then old(endedAt) else Some(at)
      ensures pid == old(pid) && error == old(error) && startedAt == old(startedAt) && gen == old(gen)
      ensures stopRequested == old(stopRequested) && coll == old(coll) && exited == old(exited)
    {
      job := None;
      if !waited { exitCode := None; }
      status := Stopped;
      if endedAt.None? { endedAt := Some(at); }
    }
  }
}
