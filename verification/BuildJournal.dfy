/**
 Following one build journal over connections that drop, overlap and resend
 (`follow`, `attachStream` and `sync` in public/dominion-lenses.js).
 The browser's EventSource becomes a step machine: a connection is open or closed, and the server
 answers an attach by delivering consecutive journal entries from some index.
 */
module BuildJournal {
  import opened BuildDigest

  /** A journal event with the durable `_record` stamp; "" when the stamp is missing. */
  datatype Entry = Entry(record: string, event: Event)

  datatype Message = Gone | Deliver(entry: Entry)

  /** One attach attempt: the job it streams and its two closure flags. */
  datatype Connection = Connection(job: string, closed: bool, ended: bool)

  datatype Viewer = Viewer(jobId: string, events: seq<Entry>, seen: set<string>, connections: seq<Connection>)

  const IDLE: Viewer := Viewer("", [], {}, [])

  function AttachTo(v: Viewer, job: string): Viewer {
    if job != v.jobId then v else v.(connections := v.connections + [Connection(job, false, false)])
  }

  /** `state.detach` belongs to the newest connection and closes only that one. */
  function Detach(v: Viewer): Viewer {
    if v.connections == [] then v else Close(v, |v.connections| - 1, v.connections[|v.connections| - 1].ended)
  }

  function Close(v: Viewer, c: nat, ended: bool): Viewer
    requires c < |v.connections|
  {
    v.(connections := v.connections[c := v.connections[c].(closed := true, ended := ended)])
  }

  function FollowJob(v: Viewer, job: string): Viewer {
    if job == "" || job == v.jobId then v
    else AttachTo(Detach(v).(jobId := job, events := [], seen := {}), job)
  }

  function Receive(v: Viewer, c: nat, m: Message): Viewer
    requires c < |v.connections|
  {
    match m
    case Gone => Close(v, c, v.connections[c].ended).(jobId := "")
    case Deliver(e) =>
      if e.record != "" && e.record in v.seen then v
      else
        var seen := if e.record != "" then v.seen + {e.record} else v.seen;
        var after := v.(events := v.events + [e], seen := seen);
        if e.event.Terminal? then Close(after, c, true) else after
  }

  function Drop(v: Viewer, c: nat): Viewer
    requires c < |v.connections|
  {
    if v.connections[c].closed then v else Close(v, c, v.connections[c].ended)
  }

  /** `sync` found no running build: the panel empties, the open connection is left alone. */
  function ShowIdle(v: Viewer): Viewer {
    v.(jobId := "", events := [])
  }

  /** The page state with the handlers that change it. */
  class BuildViewer {
    var jobId: string
    var events: seq<Entry>
    var seenRecords: set<string>
    var connections: seq<Connection>

    function State(): Viewer
      reads this
    {
      Viewer(jobId, events, seenRecords, connections)
    }

    constructor ()
      ensures State() == IDLE
    {
      jobId, events, seenRecords, connections := "", [], {}, [];
    }

    method Follow(job: string)
      modifies this
      ensures State() == FollowJob(old(State()), job)
    {
      if job == "" || job == jobId {
        return;
      }
      if connections != [] {
        var last := |connections| - 1;
        connections := connections[last := connections[last].(closed := true)];
      }
      jobId := job;
      events := [];
      seenRecords := {};
      var _ := AttachStream(job);
    }

    method AttachStream(job: string) returns (from: nat)
      modifies this`connections
      ensures State() == AttachTo(old(State()), job) && from == |events|
    {
      from := |events|;
      if job != jobId {
        return;
      }
      connections := connections + [Connection(job, false, false)];
    }

    method OnMessage(c: nat, m: Message)
      requires c < |connections| && !connections[c].closed
      modifies this
      ensures State() == Receive(old(State()), c, m)
    {
      if m.Gone? {
        connections := connections[c := connections[c].(closed := true)];
        jobId := "";
        return;
      }
      var e := m.entry;
      if e.record != "" {
        if e.record in seenRecords {
          return;
        }
        seenRecords := seenRecords + {e.record};
      }
      var terminal := e.event.Terminal?;
      if terminal {
        connections := connections[c := connections[c].(ended := true)];
      }
      events := events + [e];
      if terminal {
        connections := connections[c := connections[c].(closed := true)];
      }
    }

    /** `retry` says that a reconnect timer was armed. */
    method OnError(c: nat) returns (retry: bool)
      requires c < |connections|
      modifies this`connections
      ensures State() == Drop(old(State()), c)
      ensures retry <==> !old(connections[c].closed) && !old(connections[c].ended)
    {
      if connections[c].closed {
        return false;
      }
      connections := connections[c := connections[c].(closed := true)];
      return !connections[c].ended;
    }
  }
}
