/** The reaper of expired workspaces: what it may delete, and what it must leave. */
module Workspaces {
  import opened Results
  import opened Timestamps
  import B = Budgets
  import opened BudgetWindows
  import opened Deadlines

  /** The parsed lease marker; a creation time that is absent, malformed or naive is `None`. */
  datatype Marker = Marker(managedBy: string, runId: string, createdAt: Option<int>)

  /** An entry of the workspace root: what the reaper finds when it looks. */
  datatype Entry = Entry(isDirectory: bool, inRoot: bool, marker: Option<Marker>)

  datatype ReapError = AgeTooSmall | RemovalFailed

  /** The entries that the reaper is entitled to delete. */
  predicate Expired(e: Entry, protected: set<string>, cutoff: int) {
    && e.isDirectory && e.inRoot && e.marker.Some?
    && e.marker.value.managedBy == "leftovers" && e.marker.value.runId !in protected
    && e.marker.value.createdAt.Some? && e.marker.value.createdAt.value < cutoff
  }

  class WorkspaceRoot {
    var entries: map<string, Entry>  // the children whose names start with "leftovers-"

    constructor (entries: map<string, Entry>)
      ensures this.entries == entries
    {
      this.entries := entries;
    }

    /** Deleting a marked directory may fail; it may then be gone or not. */
    method Remove(name: string) returns (ok: bool)
      requires name in entries
      modifies this
      ensures ok ==> entries == old(entries) - {name}
      ensures !ok ==> entries == old(entries) || entries == old(entries) - {name}
    {
      var done: bool := *;
      var gone: bool := *;
      if done || gone {
        entries := entries - {name};
      }
      ok := done;
    }

    /**
     `reap_expired`: walks the names that the directory listing gave, in that order.  A failed
     removal ends the walk with an error.
     */
    method ReapExpired(names: seq<string>, olderThanHours: int, protected: set<string>, now: int)
      returns (r: Result<seq<string>, ReapError>)
      requires (forall n :: n in names <==> n in entries)
      requires (forall i, j :: 0 <= i < j < |names| ==> names[i] != names[j])
      modifies this
      ensures olderThanHours < 1 ==> r == Err(AgeTooSmall) && entries == old(entries)
      ensures forall n :: n in entries ==> n in old(entries) && entries[n] == old(entries)[n]
      ensures forall n :: n in old(entries) && !Expired(old(entries)[n], protected, now - olderThanHours * HOUR) ==>
          n in entries
      ensures r.Ok? ==> forall n :: n in entries <==>
                n in old(entries) && !Expired(old(entries)[n], protected, now - olderThanHours * HOUR)
      ensures r.Ok? ==> forall n :: n in r.value <==> n in old(entries) && n !in entries
    {
      if olderThanHours < 1 {
        return Err(AgeTooSmall);
      }
      var cutoff := now - olderThanHours * HOUR;
      var removed: seq<string> := [];
      ghost var before := entries;
      var i := 0;
      while i < |names|
        invariant 0 <= i <= |names|
        invariant forall n :: n in entries ==> n in before && entries[n] == before[n]
        invariant forall k :: i <= k < |names| ==> names[k] in entries
        invariant forall k :: 0 <= k < i ==> (names[k] in entries <==> !Expired(before[names[k]], protected, cutoff))
        invariant forall n :: n in removed <==> n in before && n !in entries
      {
        var candidate := entries[names[i]];
        if candidate.isDirectory && candidate.marker.Some? && candidate.inRoot
            && candidate.marker.value.createdAt.Some? {
          var data := candidate.marker.value;
          if data.managedBy == "leftovers" && data.runId !in protected && data.createdAt.value < cutoff {
            var ok := Remove(names[i]);
            if !ok {
              return Err(RemovalFailed);
            }
            removed := removed + [names[i]];
          }
        }
        i := i + 1;
      }
      r := Ok(removed);
    }
  }

  /** The run ids that the reaper is told to leave alone. */
  ghost function LiveRunIds(c: Config, rows: seq<B.Row>, now: int): set<string> {
    set j | 0 <= j < |rows| && B.Live(c, rows[j], now) :: rows[j].runId
  }

  /**
   When an admitted run's directory falls to the reaper, once its marker is old enough: exactly when
   the safety margin, 6900 seconds and the grace left have passed since the run deadline.
   */
  lemma AdmittedRunIsNotReaped(c: Config, snapshot: B.Snapshot, rows: seq<B.Row>, i: nat, k: Reads,
                               now: int, e: Entry, cutoff: int)
    requires InOrder(k) && Admission(c, snapshot, k) && RunDeadline(c, snapshot.resetsAt.value, k).Some?
    requires i < |rows| && rows[i].status == "reserved" && rows[i].createdAt == Some(snapshot.observedAt)
    requires e.marker.Some? && e.marker.value.runId == rows[i].runId
    ensures var horizon := RunDeadline(c, snapshot.resetsAt.value, k).value + (c.resetSafetySeconds + 6900) * SECOND
                           + GraceLeft(c, snapshot.observedAt, snapshot.resetsAt.value, k);
            && (now <= horizon ==> !Expired(e, LiveRunIds(c, rows, now), cutoff))
            && (now > horizon && Expired(e, {}, cutoff) && OnlyRow(rows, i) ==>
                  Expired(e, LiveRunIds(c, rows, now), cutoff))
  {
    LiveBeyondDeadline(c, snapshot, rows[i], k, now);
    hide B.Live, Admission, RunDeadline, GraceLeft;
  }

  /** The run id is the primary key of the reservations. */
  predicate OnlyRow(rows: seq<B.Row>, i: nat)
    requires i < |rows|
  {
    forall j :: 0 <= j < |rows| && rows[j].runId == rows[i].runId ==> j == i
  }
}
