// Job reports on the agent sockets: the ownership gate, and what a report changes.
module AgentSocket {
  import opened Text
  import opened Wrappers
  import opened SecretLines
  import opened SecretFilter
  import opened JobFilters
  import opened JobsTable
  import J = Jobs

  datatype Report =
    | JobStarted(id: nat)
    | JobOutput(id: nat, chunk: Str)
    | JobResult(id: nat, word: string, exitCode: Option<int>)

  // A credential with the device it was stored for and the job it came from.
  datatype Entry = Entry(device: nat, job: nat, cred: Credential)

  // What job reports can touch: job rows, the text each filter holds state for, the vault.
  datatype Server = Server(rows: J.Table, fed: map<nat, Str>, vault: seq<Entry>)

  const MAX_REFUSALS_AUDITED: nat := 20

  function Entries(device: nat, job: nat, found: seq<Credential>): (r: seq<Entry>)
    ensures |r| == |found|
    ensures forall i :: 0 <= i < |found| ==> r[i] == Entry(device, job, found[i])
  {
    seq(|found|, i requires 0 <= i < |found| => Entry(device, job, found[i]))
  }

  function FedText(fed: map<nat, Str>, job: nat): Str { if job in fed then fed[job] else [] }

  // The gate: a job this connection has seen as its own, or one the table gives to it.
  predicate Allowed(rows: J.Table, device: nat, owned: set<nat>, id: nat) {
    id in owned || (id in rows && rows[id].device == device)
  }

  function OwnedAfter(rows: J.Table, device: nat, owned: set<nat>, m: Report): set<nat> {
    if !Allowed(rows, device, owned, m.id) then owned
    else if m.JobResult? then owned - {m.id}
    else owned + {m.id}
  }

  function Appended(rows: J.Table, id: nat, out: Str): J.Table {
    if out == [] then rows else OnRow(rows, id, J.Output(out))
  }

  // A lone surrogate in any field raises out of the vault.
  predicate Storable(c: Credential) {
    J.Encodable(c.title) && J.Encodable(c.secret) && J.Encodable(c.username) && J.Encodable(c.notes)
  }

  // Half of a surrogate pair somewhere in the four fields.
  ghost predicate HasLoneHalf(c: Credential) {
    exists x: int :: 55296 <= x <= 57343 && (x in c.title || x in c.secret || x in c.username || x in c.notes)
  }

  lemma StorableIff(c: Credential)
    ensures Storable(c) <==> !HasLoneHalf(c)
  {
    if !J.Encodable(c.title) { var i :| 0 <= i < |c.title| && 55296 <= c.title[i] <= 57343; assert c.title[i] in c.title; }
    if !J.Encodable(c.secret) { var i :| 0 <= i < |c.secret| && 55296 <= c.secret[i] <= 57343; assert c.secret[i] in c.secret; }
    if !J.Encodable(c.username) { var i :| 0 <= i < |c.username| && 55296 <= c.username[i] <= 57343; assert c.username[i] in c.username; }
    if !J.Encodable(c.notes) { var i :| 0 <= i < |c.notes| && 55296 <= c.notes[i] <= 57343; assert c.notes[i] in c.notes; }
  }

  lemma StoringFails(found: seq<Credential>)
    ensures StoreRaises(found) <==> exists i :: 0 <= i < |found| && HasLoneHalf(found[i])
  {
    hide Storable, HasLoneHalf;
    forall i | 0 <= i < |found|
      ensures Storable(found[i]) <==> !HasLoneHalf(found[i])
    {
      StorableIff(found[i]);
    }
  }

  predicate StoreRaises(found: seq<Credential>) { exists c :: c in found && !Storable(c) }

  // The credentials ahead of the first one that raises.
  function Storeds(found: seq<Credential>): (r: seq<Credential>)
    ensures r <= found
    ensures forall c :: c in r ==> Storable(c)
    ensures r == found <==> !StoreRaises(found)
  {
    if found == [] || !Storable(found[0]) then []
    else
      var r := Storeds(found[1..]);
      assert found == [found[0]] + found[1..];
      [found[0]] + r
  }

  // What the filter of the reported job has to say to the report.
  function Filtered(rule: LineRule, s: Server, m: Report): Piece {
    match m
    case JobStarted(id) => Nothing
    case JobOutput(id, chunk) => Increment(rule, FedText(s.fed, id), chunk)
    case JobResult(id, word, exitCode) => Remainder(rule, FedText(s.fed, id))
  }

  // Up to its first suspension a report that got past the gate has done no more than this.
  function Fed(s: Server, m: Report): Server {
    match m
    case JobStarted(id) => s
    case JobOutput(id, chunk) => s.(fed := s.fed[id := FedText(s.fed, id) + chunk])
    case JobResult(id, word, exitCode) => s.(fed := s.fed - {id})
  }

  // What the filter said ends in an exception: a credential cannot be stored, or the text not
  // appended.
  predicate Fails(rows: J.Table, id: nat, p: Piece) {
    StoreRaises(p.found) || AppendRaises(rows, id, p.out)
  }

  // The rest of it, given what the filter said. What comes after an exception is not done.
  function Effect(s: Server, device: nat, m: Report, p: Piece): Server {
    var vault := s.vault + Entries(device, m.id, Storeds(p.found));
    var rows := if Fails(s.rows, m.id, p) then s.rows else Appended(s.rows, m.id, p.out);
    match m
    case JobStarted(id) => s.(rows := OnRow(s.rows, id, J.Started))
    case JobOutput(id, chunk) => s.(rows := rows, vault := vault)
    case JobResult(id, word, exitCode) =>
      s.(rows := if Fails(s.rows, id, p) then rows else OnRow(rows, id, J.Finished(J.ReportedStatus(word), exitCode)), vault := vault)
  }

  predicate Raises(rule: LineRule, s: Server, m: Report) { Fails(s.rows, m.id, Filtered(rule, s, m)) }

  // A report the gate lets through, in one piece.
  function ApplyReport(rule: LineRule, s: Server, device: nat, m: Report): Server {
    Effect(Fed(s, m), device, m, Filtered(rule, s, m))
  }

  // The filters of jobs that time out or are deleted go with them.
  function SweptServer(s: Server, cutoff: int, patchCutoff: int): Server {
    s.(rows := SweptTable(s.rows, cutoff, patchCutoff), fed := s.fed - StaleIds(s.rows, cutoff, patchCutoff))
  }

  function IdsOf(rows: J.Table, device: nat): set<nat> { set id | id in rows && rows[id].device == device }

  function ServerWithout(s: Server, device: nat): Server {
    s.(rows := WithoutDevice(s.rows, device), fed := s.fed - IdsOf(s.rows, device))
  }

  class JobGate {
    const deviceId: nat
    var owned: set<nat>
    var refused: set<nat>

    ghost predicate Valid()
      reads this
    {
      |refused| <= MAX_REFUSALS_AUDITED
    }

    constructor (deviceId: nat)
      ensures Valid() && owned == {} && refused == {} && this.deviceId == deviceId
    {
      this.deviceId := deviceId;
      owned, refused := {}, {};
    }

    method Allows(jobs: JobStore, id: nat) returns (ok: bool, audited: bool)
      requires Valid()
      modifies this
      ensures Valid()
      ensures ok == Allowed(jobs.rows, deviceId, old(owned), id)
      ensures owned == if ok then old(owned) + {id} else old(owned)
      ensures refused == if audited then old(refused) + {id} else old(refused)
      ensures audited <==> !ok && id !in old(refused) && |old(refused)| < 20
      ensures ok <==> id in old(owned) || (id in jobs.rows && jobs.rows[id].device == deviceId)
    {
      audited := false;
      if id in owned {
        assert owned == owned + {id};
        return true, false;
      }
      var owner := jobs.DeviceOf(id);
      if owner == Some(deviceId) {
        owned := owned + {id};
        return true, false;
      }
      if id !in refused && |refused| < MAX_REFUSALS_AUDITED {
        refused := refused + {id};
        audited := true;
      }
      ok := false;
    }

    method Finished(id: nat)
      requires Valid()
      modifies this`owned
      ensures Valid() && owned == old(owned) - {id}
    {
      owned := owned - {id};
    }
  }

  // The receive loop's branches for job reports.
  class Backend {
    const jobs: JobStore
    const filters: Filters
    var vault: seq<Entry>

    ghost predicate Valid()
      reads this, jobs, filters, filters.states.Values
    {
      jobs.Valid() && filters.Valid()
    }

    ghost function View(): Server
      reads this, jobs, filters
    {
      Server(jobs.rows, filters.fed, vault)
    }

    constructor (parse: Parser)
      ensures Valid() && View() == Server(map[], map[], []) && filters.parse == parse
    {
      jobs := new JobStore();
      filters := new Filters(parse);
      vault := [];
    }

    method Store(device: nat, job: nat, found: seq<Credential>) returns (raised: bool)
      modifies this`vault
      ensures raised == StoreRaises(found)
      ensures raised <==> exists i :: 0 <= i < |found| && HasLoneHalf(found[i])
      ensures vault == old(vault) + Entries(device, job, Storeds(found))
    {
      StoringFails(found);
      hide Storeds, StoreRaises, Storable, Entries;
      NothingStored(device, job, found);
      for i := 0 to |found|
        invariant Storeds(found) == found[..i] + Storeds(found[i..])
        invariant StoreRaises(found) == StoreRaises(found[i..])
        invariant vault == old(vault) + Entries(device, job, found[..i])
      {
        OneMore(found, i);
        OneEntry(old(vault), device, job, found, i);
        if !Storable(found[i]) {
          return true;
        }
        vault := vault + [Entry(device, job, found[i])];
      }
      assert found[|found|..] == [] && found[..|found|] == found;
      raised := false;
    }

    method OnStarted(gate: JobGate, id: nat)
      requires Valid() && gate.Valid()
      modifies gate, jobs
      ensures Valid() && gate.Valid()
      ensures gate.owned == OwnedAfter(old(jobs.rows), gate.deviceId, old(gate.owned), JobStarted(id))
      ensures View() == if Allowed(old(jobs.rows), gate.deviceId, old(gate.owned), id)
                        then ApplyReport(Sanitizer(filters.parse), old(View()), gate.deviceId, JobStarted(id))
                        else old(View())
    {
      var ok, _ := gate.Allows(jobs, id);
      if ok {
        jobs.MarkRunning(id);
      }
    }

    method OnOutput(gate: JobGate, id: nat, chunk: Str) returns (raised: bool)
      requires Valid() && gate.Valid()
      modifies this, gate, jobs, filters, filters.states.Values
      ensures Valid() && gate.Valid()
      ensures gate.owned == OwnedAfter(old(jobs.rows), gate.deviceId, old(gate.owned), JobOutput(id, chunk))
      ensures View() == if Allowed(old(jobs.rows), gate.deviceId, old(gate.owned), id)
                        then ApplyReport(Sanitizer(filters.parse), old(View()), gate.deviceId, JobOutput(id, chunk))
                        else old(View())
      ensures raised == (Allowed(old(jobs.rows), gate.deviceId, old(gate.owned), id) &&
                         Raises(Sanitizer(filters.parse), old(View()), JobOutput(id, chunk)))
    {
      hide Increment, Remainder, OnRow, AppendRaises, StoreRaises, Storeds, Entries, HasLoneHalf, LineFilter.Valid, Filters.Valid, JobGate.Valid;
      raised := false;
      var ok, _ := gate.Allows(jobs, id);
      if ok {
        var clean, found := filters.Extract(id, chunk);
        raised := Store(gate.deviceId, id, found);
        if !raised && clean != [] {
          raised := jobs.AppendOutput(id, clean);
          RaisingChangesNothing(old(jobs.rows), id, clean);
        }
        EmptyNeverRaises(old(jobs.rows), id);
      }
    }

    // Flushes what the filter still holds, then closes the row.
    method Close(device: nat, id: nat, word: string, exitCode: Option<int>) returns (raised: bool)
      requires Valid()
      modifies this, jobs, filters
      ensures Valid() && filters.states.Values <= old(filters.states.Values)
      ensures View() == ApplyReport(Sanitizer(filters.parse), old(View()), device, JobResult(id, word, exitCode))
      ensures raised == Raises(Sanitizer(filters.parse), old(View()), JobResult(id, word, exitCode))
    {
      hide Increment, Remainder, OnRow, OnlyRow, AppendRaises, StoreRaises, Storeds, Entries, HasLoneHalf, J.Encodable, Storable, LineFilter.Valid, Filters.Valid;
      var clean, found := filters.Flush(id);
      raised := Store(device, id, found);
      if !raised && clean != [] {
        raised := jobs.AppendOutput(id, clean);
        RaisingChangesNothing(old(jobs.rows), id, clean);
      }
      EmptyNeverRaises(old(jobs.rows), id);
      if !raised {
        jobs.FinishJob(id, word, exitCode);
      }
    }

    // The action the job belonged to is to be closed with the reported word exactly if the
    // report was let through and nothing raised.
    method OnResult(gate: JobGate, id: nat, word: string, exitCode: Option<int>) returns (raised: bool, closeAction: Option<string>)
      requires Valid() && gate.Valid()
      modifies this, gate, jobs, filters
      ensures Valid() && gate.Valid()
      ensures gate.owned == OwnedAfter(old(jobs.rows), gate.deviceId, old(gate.owned), JobResult(id, word, exitCode))
      ensures View() == if Allowed(old(jobs.rows), gate.deviceId, old(gate.owned), id)
                        then ApplyReport(Sanitizer(filters.parse), old(View()), gate.deviceId, JobResult(id, word, exitCode))
                        else old(View())
      ensures raised == (Allowed(old(jobs.rows), gate.deviceId, old(gate.owned), id) &&
                         Raises(Sanitizer(filters.parse), old(View()), JobResult(id, word, exitCode)))
      ensures closeAction == if Allowed(old(jobs.rows), gate.deviceId, old(gate.owned), id) && !raised then Some(word) else None
    {
      hide ApplyReport, Raises, LineFilter.Valid, JobGate.Valid;
      raised, closeAction := false, None;
      var ok, _ := gate.Allows(jobs, id);
      if ok {
        gate.Finished(id);
        raised := Close(gate.deviceId, id, word, exitCode);
        if !raised {
          closeAction := Some(word);
        }
      }
    }

    method Sweep(now: int, timeoutS: int, patchTimeoutS: int) returns (stale: set<nat>)
      requires Valid()
      modifies jobs, filters
      ensures Valid()
      ensures stale == StaleIds(old(jobs.rows), now - timeoutS, now - patchTimeoutS)
      ensures View() == SweptServer(old(View()), now - timeoutS, now - patchTimeoutS)
    {
      hide LineFilter.Valid, J.IsStale, SweptTable;
      stale := jobs.SweepStale(now, timeoutS, patchTimeoutS);
      DiscardAll(stale);
    }

    method DeleteForDevice(device: nat)
      requires Valid()
      modifies jobs, filters
      ensures Valid() && View() == ServerWithout(old(View()), device)
    {
      hide LineFilter.Valid, WithoutDevice;
      var deleted := jobs.DeleteForDevice(device);
      DiscardAll(deleted);
    }

    method DiscardAll(ids: set<nat>)
      requires filters.Valid()
      modifies filters
      ensures filters.Valid() && filters.states.Values <= old(filters.states.Values)
      ensures filters.fed == old(filters.fed) - ids
    {
      hide LineFilter.Valid;
      var left := ids;
      while left != {}
        invariant left <= ids && filters.Valid() && filters.states.Values <= old(filters.states.Values)
        invariant filters.fed == old(filters.fed) - (ids - left)
        decreases |left|
      {
        var id :| id in left;
        filters.Discard(id);
        left := left - {id};
      }
    }
  }

  lemma NothingStored(device: nat, job: nat, found: seq<Credential>)
    ensures Storeds([]) == [] && !StoreRaises([]) && Entries(device, job, found[..0]) == []
    ensures found[0..] == found && found[..0] == [] && [] + Storeds(found) == Storeds(found)
  {
  }

  lemma OneEntry(vault: seq<Entry>, device: nat, job: nat, found: seq<Credential>, i: nat)
    requires i < |found|
    ensures vault + Entries(device, job, found[..i]) + [Entry(device, job, found[i])] == vault + Entries(device, job, found[..i + 1])
  {
    assert Entries(device, job, found[..i]) + [Entry(device, job, found[i])] == Entries(device, job, found[..i + 1]);
  }

  lemma OneAhead(c: Credential, rest: seq<Credential>)
    ensures Storeds([c] + rest) == if Storable(c) then [c] + Storeds(rest) else []
    ensures StoreRaises([c] + rest) == (!Storable(c) || StoreRaises(rest))
  {
    hide Storable;
    assert ([c] + rest)[0] == c && ([c] + rest)[1..] == rest;
  }

  lemma OneMore(found: seq<Credential>, i: nat)
    requires i < |found| && Storeds(found) == found[..i] + Storeds(found[i..])
    requires StoreRaises(found) == StoreRaises(found[i..])
    ensures if Storable(found[i])
            then Storeds(found) == found[..i + 1] + Storeds(found[i + 1..]) && StoreRaises(found) == StoreRaises(found[i + 1..])
            else Storeds(found) == found[..i] && StoreRaises(found)
  {
    hide Storeds, StoreRaises, Storable;
    var c, rest := found[i], found[i + 1..];
    OneAhead(c, rest);
    MovedOver(found, i, Storeds(rest));
  }

  lemma MovedOver(found: seq<Credential>, i: nat, rest: seq<Credential>)
    requires i < |found|
    ensures found[i..] == [found[i]] + found[i + 1..] && found[..i] + [] == found[..i]
    ensures found[..i] + ([found[i]] + rest) == found[..i + 1] + rest
  {
  }

  // An exception leaves the row as it is.
  lemma RaisingChangesNothing(rows: J.Table, id: nat, out: Str)
    ensures AppendRaises(rows, id, out) ==> OnRow(rows, id, J.Output(out)) == rows
  {
  }

  lemma EmptyNeverRaises(rows: J.Table, id: nat)
    ensures !AppendRaises(rows, id, [])
  {
  }
}
