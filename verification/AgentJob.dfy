// What the agent's goroutines say about a job, branch by branch.
module AgentJob {
  import opened Text
  import opened Wrappers
  import opened Outbox

  // How running the command came out: cmd.Run() or installPatchesOS returned.
  datatype Ending = Clean | ExitCode(code: int) | Broken(message: Str)

  predicate Supported(shell: string) { shell in {"powershell", "zsh", "bash", ""} }

  // One of the three, or none named.
  predicate IsKnownShell(shell: string) { shell == "bash" || shell == "zsh" || shell == "powershell" || shell == "" }

  // The output among some messages.
  function Chunks(said: seq<Msg>): seq<Str> {
    if said == [] then []
    else
      var front, m := Chunks(said[..|said| - 1]), said[|said| - 1];
      if m.Output? then front + [m.chunk] else front
  }

  lemma ChunksSnoc(said: seq<Msg>, m: Msg)
    ensures Chunks(said + [m]) == if m.Output? then Chunks(said) + [m.chunk] else Chunks(said)
  {
    assert (said + [m])[..|said|] == said;
  }

  // The messages of one goroutine so far: what they have come to, and the text in them.
  ghost predicate SoFar(said: seq<Msg>, run: nat, stage: Stage, chunks: seq<Str>) {
    && Spoke(said, stage) && Chunks(said) == chunks
    && forall i :: 0 <= i < |said| ==> said[i] != Direct && said[i].run == run
  }

  lemma Speak(said: seq<Msg>, run: nat, stage: Stage, chunks: seq<Str>, m: Msg)
    requires SoFar(said, run, stage, chunks) && m != Direct && m.run == run
    ensures stage == Working && m.Output? ==> SoFar(said + [m], run, Working, chunks + [m.chunk])
    ensures stage == Working && m.Result? ==> SoFar(said + [m], run, Ended, chunks)
    ensures stage == Ended && m.Report? ==> SoFar(said + [m], run, Reporting, chunks)
  {
    SpokeMore(said, stage, m);
    ChunksSnoc(said, m);
  }

  // Whatever becomes of the command, the job is announced first, its output follows, and one
  // result comes last: timeout if the limit passed, failed if there was nothing to wait for,
  // done with the exit code otherwise. What failed it is the last thing in the output.
  method RunJob(run: nat, shell: string, writes: seq<Str>, ending: Ending, expired: bool) returns (sent: seq<Msg>)
    ensures Spoke(sent, Ended) && forall i :: 0 <= i < |sent| ==> sent[i] != Direct && sent[i].run == run
    ensures var word, code := sent[|sent| - 1].word, sent[|sent| - 1].exitCode;
            && (word == "timeout" <==> IsKnownShell(shell) && expired)
            && (word == "failed" <==> !IsKnownShell(shell) || (!expired && ending.Broken?))
            && (word == "done" <==> IsKnownShell(shell) && !expired && !ending.Broken?)
            && (code == if word != "done" then None else if ending.Clean? then Some(0) else Some(ending.code))
    ensures Chunks(sent) ==
            if !IsKnownShell(shell) then [Codes("unsupported shell: ") + Codes(shell)]
            else if !expired && ending.Broken? then writes + [ending.message]
            else writes
  {
    hide Spoke, Chunks;
    sent := [Started(run)];
    assert SoFar(sent, run, Working, []) by { JustStarted(run); }
    if !Supported(shell) {
      sent := SayBoth(sent, run, [], Output(run, Codes("unsupported shell: ") + Codes(shell)), Result(run, "failed", None));
      return;
    }
    sent := Forward(run, writes, sent);
    if !expired && ending.Broken? {
      sent := SayBoth(sent, run, writes, Output(run, ending.message), Result(run, "failed", None));
      return;
    }
    var m := if expired then Result(run, "timeout", None)
             else if ending.ExitCode? then Result(run, "done", Some(ending.code))
             else Result(run, "done", Some(0));
    Speak(sent, run, Working, writes, m);
    sent := sent + [m];
  }

  lemma JustStarted(run: nat)
    ensures SoFar([Started(run)], run, Working, [])
  {
    assert [Started(run)][..0] == [];
  }

  method SayBoth(said: seq<Msg>, run: nat, chunks: seq<Str>, a: Msg, b: Msg) returns (sent: seq<Msg>)
    requires SoFar(said, run, Working, chunks) && a.Output? && b.Result? && a.run == b.run == run
    ensures SoFar(sent, run, Ended, chunks + [a.chunk]) && sent[|sent| - 1] == b
  {
    Speak(said, run, Working, chunks, a);
    Speak(said + [a], run, Working, chunks + [a.chunk], b);
    sent := said + [a] + [b];
  }

  // The chunk writer: every write of the process is a message of its own.
  method Forward(run: nat, writes: seq<Str>, said: seq<Msg>) returns (sent: seq<Msg>)
    requires SoFar(said, run, Working, [])
    ensures SoFar(sent, run, Working, writes)
  {
    sent := said;
    for i := 0 to |writes|
      invariant SoFar(sent, run, Working, writes[..i])
    {
      Speak(sent, run, Working, writes[..i], Output(run, writes[i]));
      sent := sent + [Output(run, writes[i])];
      assert writes[..i] + [writes[i]] == writes[..i + 1];
    }
    assert writes[..|writes|] == writes;
  }

  // An install says the same of itself, and then what is still pending; one that succeeds
  // after its limit is done all the same.
  method RunPatchInstall(run: nat, writes: seq<Str>, error: Option<Str>, expired: bool) returns (sent: seq<Msg>)
    ensures Spoke(sent, Reporting) && |sent| >= 3 && forall i :: 0 <= i < |sent| ==> sent[i] != Direct && sent[i].run == run
    ensures sent[|sent| - 2] ==
            if error.None? then Result(run, "done", Some(0))
            else if expired then Result(run, "timeout", None)
            else Result(run, "failed", None)
    ensures Chunks(sent) == if error.Some? && !expired then writes + [[LF] + error.value] else writes
  {
    hide Spoke, Chunks;
    sent := [Started(run)];
    assert SoFar(sent, run, Working, []) by { JustStarted(run); }
    sent := Forward(run, writes, sent);
    var word, code, chunks := "done", Some(0), writes;
    if error.Some? {
      word, code := if expired then "timeout" else "failed", None;
      if !expired {
        Speak(sent, run, Working, writes, Output(run, [LF] + error.value));
        sent, chunks := sent + [Output(run, [LF] + error.value)], writes + [[LF] + error.value];
      }
    }
    Speak(sent, run, Working, chunks, Result(run, word, code));
    sent := sent + [Result(run, word, code)];
    assert |sent| >= 2 by { EndedIsTwo(sent); }
    Speak(sent, run, Ended, chunks, Report(run));
    sent := sent + [Report(run)];
  }

  lemma EndedIsTwo(said: seq<Msg>)
    requires Spoke(said, Ended)
    ensures |said| >= 2
  {
  }
}
