// One filter per job: the module-level dictionary of the source.
module JobFilters {
  import opened Text
  import opened SecretLines
  import opened SecretFilter

  // What the filter of a job lets through when `chunk` follows `before`.
  function Increment(rule: LineRule, before: Str, chunk: Str): Piece {
    After(Emitted(rule, before), Emitted(rule, before + chunk))
  }

  // What is left to say when the job ends.
  function Remainder(rule: LineRule, before: Str): Piece {
    After(Emitted(rule, before), Whole(rule, before))
  }

  function After(a: Piece, b: Piece): Piece {
    Piece(if |a.out| <= |b.out| then b.out[|a.out|..] else [],
          if |a.found| <= |b.found| then b.found[|a.found|..] else [])
  }

  lemma AfterJoin(a: Piece, p: Piece)
    ensures After(a, Join(a, p)) == p
  {
  }

  lemma Overwrite(m: map<nat, Str>, k: nat, a: Str, b: Str)
    ensures m[k := a][k := b] == m[k := b]
  {
  }

  class Filters {
    const parse: Parser
    var states: map<nat, LineFilter>
    // The text fed to each filter since it was created.
    ghost var fed: map<nat, Str>

    ghost predicate Valid()
      reads this, states.Values
    {
      && fed.Keys == states.Keys
      && (forall j :: j in states ==> states[j].Valid() && states[j].parse == parse && states[j].seen == fed[j])
      && (forall i, j :: i in states && j in states && i != j ==> states[i] != states[j])
    }

    ghost function FedTo(job: nat): Str
      reads this
    {
      if job in fed then fed[job] else []
    }

    constructor (parse: Parser)
      ensures Valid() && fed == map[] && states == map[] && this.parse == parse
    {
      this.parse := parse;
      states, fed := map[], map[];
    }

    // The filter of a job, created on first use.
    method StateOf(job: nat) returns (state: LineFilter)
      requires Valid()
      modifies this
      ensures Valid() && fresh(states.Values - old(states.Values))
      ensures fed == old(fed)[job := old(FedTo(job))]
      ensures job in states && states[job] == state
      ensures job in old(states) ==> states == old(states)
    {
      hide LineFilter.Valid, LineFilter.Mid, LineFilter.Matches;
      if job in states {
        return states[job];
      }
      state := new LineFilter(parse);
      states, fed := states[job := state], fed[job := []];
    }

    method Extract(job: nat, chunk: Str) returns (o: Str, f: seq<Credential>)
      requires Valid()
      modifies this, states.Values
      ensures Valid() && fresh(states.Values - old(states.Values))
      ensures fed == old(fed)[job := old(FedTo(job)) + chunk]
      ensures Piece(o, f) == Increment(Sanitizer(parse), old(FedTo(job)), chunk)
    {
      hide Emitted, Increment, After;
      var state := StateOf(job);
      Overwrite(old(fed), job, old(FedTo(job)), old(FedTo(job)) + chunk);
      o, f := Feed(job, state, chunk);
    }

    method Feed(job: nat, state: LineFilter, chunk: Str) returns (o: Str, f: seq<Credential>)
      requires Valid() && job in states && states[job] == state
      modifies this`fed, state
      ensures Valid()
      ensures fed == old(fed)[job := old(fed)[job] + chunk]
      ensures Piece(o, f) == Increment(Sanitizer(parse), old(fed)[job], chunk)
    {
      hide Run, Process, Shown, ModeOf, After, LineFilter.Matches;
      assert forall j :: j in states && j != job ==> states[j] != state;
      ghost var before := state.emitted;
      ghost var fed' := fed[job := fed[job] + chunk];
      o, f := state.Extract(chunk);
      AfterJoin(before, Piece(o, f));
      fed := fed';
    }

    method Flush(job: nat) returns (o: Str, f: seq<Credential>)
      requires Valid()
      modifies this
      ensures Valid() && states.Values <= old(states.Values)
      ensures fed == old(fed) - {job}
      ensures Piece(o, f) == Remainder(Sanitizer(parse), old(FedTo(job)))
    {
      hide Run, Process, Shown, ModeOf, Whole;
      if job !in states {
        NothingAtAll(Sanitizer(parse));
        return [], [];
      }
      o, f := states[job].Flush();
      AfterJoin(states[job].emitted, Piece(o, f));
      states, fed := states - {job}, fed - {job};
    }

    // For a job that ends without a result: what is held is neither stored nor shown.
    method Discard(job: nat)
      requires Valid()
      modifies this
      ensures Valid() && states.Values <= old(states.Values)
      ensures fed == old(fed) - {job}
    {
      states, fed := states - {job}, fed - {job};
    }
  }

  lemma NothingAtAll(rule: LineRule)
    ensures Remainder(rule, []) == Nothing
  {
    NothingEmitted(rule);
    assert Lines([]) == [];
  }
}
