// The jobs table: each method is one storage function of the job engine.
module JobsTable {
  import opened Text
  import opened Wrappers
  import opened Jobs

  function OnRow(t: Table, id: nat, e: Event): Table {
    if id in t then t[id := Apply(t[id], e)] else t
  }

  function NewJob(device: nat, kind: Kind, now: int): Job {
    Job(device, kind, Queued, None, [], now)
  }

  function SweptTable(t: Table, cutoff: int, patchCutoff: int): Table {
    map id | id in t :: SweepRow(t[id], cutoff, patchCutoff)
  }

  // Nothing has been heard of the job for longer than its kind may run: an install has its
  // own limit, every other kind the common one.
  predicate RanOut(j: Job, now: int, timeoutS: int, patchTimeoutS: int) {
    && (j.status == Queued || j.status == Running)
    && (j.kind == PatchInstall ==> now - j.createdAt > patchTimeoutS)
    && (j.kind != PatchInstall ==> now - j.createdAt > timeoutS)
  }

  lemma SweepTakesWhatRanOut(t: Table, now: int, timeoutS: int, patchTimeoutS: int)
    ensures forall id :: id in StaleIds(t, now - timeoutS, now - patchTimeoutS) <==> id in t && RanOut(t[id], now, timeoutS, patchTimeoutS)
    ensures forall id :: id in t ==>
              (SweptTable(t, now - timeoutS, now - patchTimeoutS)[id] ==
               if RanOut(t[id], now, timeoutS, patchTimeoutS) then t[id].(status := Timeout) else t[id])
  {
  }

  // With the stock limits of 2,100 and 4,500 seconds, an install and a shell job of 3,000
  // seconds are told apart.
  lemma StockLimits(device: nat, install: Job, shell: Job)
    requires install == Job(device, PatchInstall, Running, None, [], 0) && shell == Job(device, Shell, Running, None, [], 0)
    ensures SweepRow(install, 3000 - 2100, 3000 - 4500) == install
    ensures SweepRow(shell, 3000 - 2100, 3000 - 4500) == shell.(status := Timeout)
  {
  }

  // Nothing but the row of `id` is different.
  predicate OnlyRow(before: Table, after: Table, id: nat) {
    after.Keys == before.Keys && forall i :: i in before && i != id ==> after[i] == before[i]
  }

  lemma SweptIsAll(before: Table, after: Table, cutoff: int, patchCutoff: int)
    requires after.Keys == before.Keys
    requires forall id :: id in after ==>
               after[id] == if id in StaleIds(before, cutoff, patchCutoff) then SweepRow(before[id], cutoff, patchCutoff) else before[id]
    ensures after == SweptTable(before, cutoff, patchCutoff)
  {
    assert forall id :: id in after ==> after[id] == SweptTable(before, cutoff, patchCutoff)[id];
  }

  function StaleIds(t: Table, cutoff: int, patchCutoff: int): set<nat> {
    set id | id in t && IsStale(t[id], cutoff, patchCutoff)
  }

  function WithoutDevice(t: Table, device: nat): Table {
    map id | id in t && t[id].device != device :: t[id]
  }

  predicate IsActive(t: Table, id: nat, device: nat, kind: Kind) {
    id in t && t[id].device == device && t[id].kind == kind && !Terminal(t[id].status)
  }

  // A chunk that cannot be encoded raises out of append_output, unless the row refuses it
  // before it is looked at.
  predicate AppendRaises(t: Table, id: nat, chunk: Str) {
    && id in t && chunk != [] && !Terminal(t[id].status)
    && ByteLen(t[id].output) < MAX_OUTPUT_BYTES
    && !Encodable(chunk)
  }

  class JobStore {
    var rows: Table
    var nextId: nat

    // Ids are handed out once and never again.
    ghost predicate Valid()
      reads this
    {
      forall id :: id in rows ==> id < nextId
    }

    constructor ()
      ensures Valid() && rows == map[] && nextId == 1
    {
      rows, nextId := map[], 1;
    }

    method CreateJob(device: nat, kind: Kind, now: int) returns (id: nat)
      requires Valid()
      modifies this
      ensures Valid()
      ensures id == old(nextId) && id !in old(rows) && nextId == id + 1
      ensures rows == old(rows)[id := NewJob(device, kind, now)]
      ensures rows[id] == Job(device, kind, Queued, None, [], now)
    {
      id := nextId;
      nextId := nextId + 1;
      rows := rows[id := Job(device, kind, Queued, None, [], now)];
    }

    method MarkRunning(id: nat)
      requires Valid()
      modifies this`rows
      ensures Valid() && rows == OnRow(old(rows), id, Started)
      ensures OnlyRow(old(rows), rows, id)
      ensures id in rows ==> rows[id] == if old(rows)[id].status == Queued then old(rows)[id].(status := Running) else old(rows)[id]
    {
      if id in rows && rows[id].status == Queued {
        rows := rows[id := rows[id].(status := Running)];
      } else if id in rows {
        assert rows == rows[id := rows[id]];
      }
    }

    method AppendOutput(id: nat, chunk: Str) returns (raised: bool)
      requires Valid()
      modifies this`rows
      ensures Valid() && raised == AppendRaises(old(rows), id, chunk)
      ensures rows == OnRow(old(rows), id, Output(chunk))
    {
      raised := false;
      if id in rows { assert rows == rows[id := rows[id]]; }
      if chunk == [] || id !in rows || Terminal(rows[id].status) {
        return;
      }
      var current := rows[id].output;
      if ByteLen(current) >= MAX_OUTPUT_BYTES {
        return;
      }
      var combined := current + chunk;
      if !Encodable(chunk) {
        raised := true;
        return;
      }
      if ByteLen(combined) > MAX_OUTPUT_BYTES {
        combined := Cut(combined, MAX_OUTPUT_BYTES) + TRUNCATED;
      }
      rows := rows[id := rows[id].(output := combined)];
    }

    method FinishJob(id: nat, word: string, exitCode: Option<int>)
      requires Valid()
      modifies this`rows
      ensures Valid() && rows == OnRow(old(rows), id, Finished(ReportedStatus(word), exitCode))
      ensures OnlyRow(old(rows), rows, id)
      ensures id in rows && (old(rows)[id].status == Queued || old(rows)[id].status == Running) ==>
                && rows[id] == old(rows)[id].(status := rows[id].status, exitCode := exitCode)
                && (rows[id].status == Done <==> word == "done") && (rows[id].status == Timeout <==> word == "timeout")
                && (rows[id].status == Failed <==> word != "done" && word != "timeout")
      ensures id in rows && old(rows)[id].status != Queued && old(rows)[id].status != Running ==> rows[id] == old(rows)[id]
    {
      if id in rows { assert rows == rows[id := rows[id]]; }
      if id in rows && !Terminal(rows[id].status) {
        rows := rows[id := rows[id].(status := ReportedStatus(word), exitCode := exitCode)];
      }
    }

    method FailUndispatched(id: nat, reason: Str)
      requires Valid()
      modifies this`rows
      ensures Valid() && rows == OnRow(old(rows), id, Undispatched(reason))
      ensures OnlyRow(old(rows), rows, id)
      ensures id in rows ==>
                rows[id] == if old(rows)[id].status == Queued then old(rows)[id].(status := Failed, output := reason) else old(rows)[id]
    {
      if id in rows { assert rows == rows[id := rows[id]]; }
      if id in rows && rows[id].status == Queued {
        rows := rows[id := rows[id].(status := Failed, output := reason)];
      }
    }

    // Jobs that never reported back; installs get their own, longer, limit.
    method SweepStale(now: int, timeoutS: int, patchTimeoutS: int) returns (stale: set<nat>)
      requires Valid()
      modifies this`rows
      ensures Valid() && stale == StaleIds(old(rows), now - timeoutS, now - patchTimeoutS)
      ensures rows == SweptTable(old(rows), now - timeoutS, now - patchTimeoutS)
      ensures forall id :: id in stale <==> id in old(rows) && RanOut(old(rows)[id], now, timeoutS, patchTimeoutS)
      ensures rows.Keys == old(rows).Keys
      ensures forall id :: id in rows ==> rows[id] == if id in stale then old(rows)[id].(status := Timeout) else old(rows)[id]
    {
      var cutoff, patchCutoff := now - timeoutS, now - patchTimeoutS;
      stale := set id | id in rows && IsStale(rows[id], cutoff, patchCutoff);
      var left := stale;
      while left != {}
        invariant left <= stale
        invariant rows.Keys == old(rows).Keys
        invariant forall id :: id in rows ==>
                    rows[id] == if id in stale - left then SweepRow(old(rows)[id], cutoff, patchCutoff) else old(rows)[id]
        decreases |left|
      {
        var id :| id in left;
        rows := rows[id := rows[id].(status := Timeout)];
        left := left - {id};
      }
      SweptIsAll(old(rows), rows, cutoff, patchCutoff);
      SweepTakesWhatRanOut(old(rows), now, timeoutS, patchTimeoutS);
    }

    // The newest job of this kind that is still queued or running.
    method ActiveJobOfKind(device: nat, kind: Kind) returns (r: Option<nat>)
      ensures r.Some? ==> IsActive(rows, r.value, device, kind)
      ensures r.Some? ==> forall id: nat :: IsActive(rows, id, device, kind) ==> id <= r.value
      ensures r.None? ==> forall id: nat :: !IsActive(rows, id, device, kind)
    {
      r := None;
      var left: set<nat> := set id: nat | id in rows && IsActive(rows, id, device, kind);
      while left != {}
        invariant forall id: nat :: id in left ==> IsActive(rows, id, device, kind)
        invariant r.Some? ==> IsActive(rows, r.value, device, kind)
        invariant forall id: nat :: IsActive(rows, id, device, kind) && id !in left ==> r.Some? && id <= r.value
        decreases |left|
      {
        var id :| id in left;
        left := left - {id};
        if r.None? || r.value < id {
          r := Some(id);
        }
      }
    }

    method DeviceOf(id: nat) returns (r: Option<nat>)
      ensures r == if id in rows then Some(rows[id].device) else None
    {
      r := if id in rows then Some(rows[id].device) else None;
    }

    method DeleteForDevice(device: nat) returns (deleted: set<nat>)
      requires Valid()
      modifies this`rows
      ensures Valid() && deleted == (set id | id in old(rows) && old(rows)[id].device == device)
      ensures rows == WithoutDevice(old(rows), device)
    {
      deleted := set id | id in rows && rows[id].device == device;
      rows := map id | id in rows && rows[id].device != device :: rows[id];
    }
  }
}
