/**
 What the invariant of `PipelineRuns` gives: extraction happens at most once and only behind a clean
 scan, no reachable item is stuck while its object is where its row says, and one uninterrupted call of
 the program is one of the runs.
*/
module PipelineTheorems {
  import opened Common
  import opened Pipeline
  import opened PipelineRuns

  lemma InitialInv()
    ensures Inv(INITIAL)
  {
  }

  // ---------------------------------------------------------------- exactly once

  predicate CommitsClaims(a: Action) { a.ExtractEnds? && a.outcome.Claims? }

  /** How many steps of a run committed claims. */
  function Commits(actions: seq<Action>): nat {
    if actions == [] then 0
    else Commits(actions[..|actions| - 1]) + if CommitsClaims(actions[|actions| - 1]) then 1 else 0
  }

  lemma {:induction false} CommitsAreBatches(actions: seq<Action>)
    requires Run(INITIAL, actions).Some?
    ensures |Run(INITIAL, actions).value.item.batches| == Commits(actions)
  {
    if actions != [] {
      CommitsAreBatches(actions[..|actions| - 1]);
    }
  }

  /**
   In every run: claims are committed at most once, exactly when the EXTRACT job is SUCCEEDED, and then
   they are the claims of that one commit; this happens only after the last recorded scan was CLEAN and the
   path was promoted; an item with a recorded INFECTED verdict has no extraction at all; and no stage is
   ever held by two workers.
  */
  lemma ExactlyOnce(actions: seq<Action>)
    requires Run(INITIAL, actions).Some?
    ensures var s := Run(INITIAL, actions).value;
            && Commits(actions) <= 1
            && (Commits(actions) == 1 <==> s.item.extract.Is(SUCCEEDED))
            && s.item.batches == (if Commits(actions) == 1 then [s.item.claims] else [])
            && (Commits(actions) == 0 ==> s.item.claims == {})
            && (Commits(actions) == 1 ==> LastIs(s.item.verdicts, Clean) && s.item.area == Accepted)
            && (Infected in s.item.verdicts ==> s.item.area == Quarantine && s.item.extract.NoJob? && s.item.claims == {})
            && (forall v, w | s.At(v).Holds().Some? && s.At(v).Holds() == s.At(w).Holds() :: v == w)
  {
    InitialInv();
    RunKeeps(INITIAL, actions);
    CommitsAreBatches(actions);
    var s := Run(INITIAL, actions).value;
    OneBatch(s.item, s.silent);
    OneHolder(s);
  }

  lemma OneBatch(it: Item, silent: set<Stage>)
    requires ItemOk(it, silent)
    ensures |it.batches| <= 1 && (|it.batches| == 1 <==> it.extract.Is(SUCCEEDED))
    ensures it.batches == (if |it.batches| == 1 then [it.claims] else []) && (|it.batches| == 0 ==> it.claims == {})
    ensures |it.batches| == 1 ==> LastIs(it.verdicts, Clean) && it.area == Accepted
    ensures Infected in it.verdicts ==> it.area == Quarantine && it.extract.NoJob? && it.claims == {}
  {
    if |it.batches| == 1 {
      assert it.batches == [it.batches[0]];
    }
  }

  lemma OneHolder(s: State)
    requires WorkersOk(s)
    ensures forall v, w | s.At(v).Holds().Some? && s.At(v).Holds() == s.At(w).Holds() :: v == w
  {
    forall v, w | s.At(v).Holds().Some? && s.At(v).Holds() == s.At(w).Holds() ensures v == w {
      assert v in s.workers && w in s.workers;
      assert s.workers[v].Holds() == s.workers[w].Holds();
    }
  }

  lemma {:induction false} RunConcat(s: State, a: seq<Action>, b: seq<Action>)
    requires Run(s, a).Some?
    ensures Run(s, a + b) == Run(Run(s, a).value, b)
  {
    if b == [] {
      assert a + b == a;
    } else {
      RunConcat(s, a, b[..|b| - 1]);
      assert (a + b)[..|a + b| - 1] == a + b[..|b| - 1];
    }
  }

  /** Nobody holds the extract stage of an extracted item, so no step changes its claims. */
  lemma StepLeavesClaims(s: State, a: Action)
    requires Inv(s) && s.item.extract.Is(SUCCEEDED) && Next(s, a).Some?
    ensures var t := Next(s, a).value.item; t.extract == s.item.extract && t.claims == s.item.claims && t.batches == s.item.batches
  {
    forall w | w in s.workers ensures s.workers[w] != Extracting {
      assert s.workers[w].Holds() == Some(Extract) ==> s.item.JobOf(Extract).Is(RUNNING);
    }
  }

  /** Once extracted, always extracted, with the same claims. */
  lemma {:induction false} ClaimsAreFinal(s: State, actions: seq<Action>)
    requires Inv(s) && s.item.extract.Is(SUCCEEDED) && Run(s, actions).Some?
    ensures var t := Run(s, actions).value.item; t.extract == s.item.extract && t.claims == s.item.claims && t.batches == s.item.batches
  {
    if actions != [] {
      var before := actions[..|actions| - 1];
      ClaimsAreFinal(s, before);
      RunKeeps(s, before);
      StepLeavesClaims(Run(s, before).value, actions[|actions| - 1]);
    }
  }

  // ---------------------------------------------------------------- what may be read

  /**
   In every run, bytes are handed out only from the accepted area, after a last scan that was CLEAN, of an item that never
   had an INFECTED verdict and whose hash matches; the one exception is an administrator's download.
  */
  lemma ServedContentIsClean(actions: seq<Action>, access: Access, hashMatches: bool)
    requires Run(INITIAL, actions).Some? && Serves(Run(INITIAL, actions).value.item, access, hashMatches)
    ensures var it := Run(INITIAL, actions).value.item;
            || (it.area == Accepted && Accepted in it.objects && hashMatches && LastIs(it.verdicts, Clean) && Infected !in it.verdicts)
            || (access == DownloadBy(true) && Withheld(it.status))
  {
    InitialInv();
    RunKeeps(INITIAL, actions);
    var s := Run(INITIAL, actions).value;
    ServedItemIsClean(s.item, s.silent, access, hashMatches);
  }

  lemma ServedItemIsClean(it: Item, silent: set<Stage>, access: Access, hashMatches: bool)
    requires ItemOk(it, silent) && Serves(it, access, hashMatches)
    ensures (access == DownloadBy(true) && Withheld(it.status)) ||
            (it.area == Accepted && Accepted in it.objects && hashMatches && LastIs(it.verdicts, Clean) && Infected !in it.verdicts)
  {
    if !Withheld(it.status) {
      assert it.area == Accepted;
    }
  }

  // ---------------------------------------------------------------- no stuck item

  /** Every lease that could still refuse a call has run out. */
  predicate LeasesExpired(it: Item, now: nat) {
    forall k: Stage :: it.JobOf(k).Is(RUNNING) ==> now - it.JobOf(k).Updated() >= JOB_LEASE_S
  }

  predicate AdaptersSucceed(env: Env) {
    env.scan == Clean && env.move.MoveOk? && env.hashMatches && env.extraction.Some? && env.resolution.Some?
  }

  /** A reachable item is finished, waits for an investigation, or the route admits it. */
  lemma NoOtherStatus(actions: seq<Action>)
    requires Run(INITIAL, actions).Some?
    ensures var s := Run(INITIAL, actions).value.item.status;
            Admitted(s) || s in {INFECTED, INTEGRITY_MISMATCH, HITL, GRAPH_PROJECTED, ACTIVE}
  {
    InitialInv();
    RunKeeps(INITIAL, actions);
  }

  /** What the route admits dispatches a stage whose job has not succeeded. */
  lemma AdmittedIsUnfinished(actions: seq<Action>)
    requires Run(INITIAL, actions).Some? && Admitted(Run(INITIAL, actions).value.item.status)
    ensures var it := Run(INITIAL, actions).value.item;
            Dispatch(it.status).Some? && !it.JobOf(Dispatch(it.status).value).Is(SUCCEEDED)
  {
    InitialInv();
    RunKeeps(INITIAL, actions);
  }

  /**
   Progress: once leases have expired, one call with adapters that succeed takes an admitted reachable item
   to HITL or GRAPH_PROJECTED if and only if it is past extraction or its object is at its recorded path.
  */
  lemma OneCallFinishes(actions: seq<Action>, env: Env)
    requires Run(INITIAL, actions).Some?
    requires var s := Run(INITIAL, actions).value; Admitted(s.item.status) && LeasesExpired(s.item, s.now)
    requires AdaptersSucceed(env)
    ensures var s := Run(INITIAL, actions).value;
            var t := ProcessCall(s.item, s.now, env).0;
            var able := s.item.status in {EXTRACTED, ENTITY_CANDIDATES} || s.item.area in s.item.objects;
            && (t.status == HITL <==> able && env.resolution == Some(true))
            && (t.status == GRAPH_PROJECTED <==> able && env.resolution == Some(false))
  {
    InitialInv();
    RunKeeps(INITIAL, actions);
    var s := Run(INITIAL, actions).value;
    CallFinishes(s.item, s.silent, s.now, env);
    CallSpelledOut(s.item, s.now, env);
    if ProcessCall(s.item, s.now, env).1 == Continue {
      CallEnds(s.item, s.now, env, ProcessCall(s.item, s.now, env).0);
    }
  }

  lemma CallFinishes(it: Item, silent: set<Stage>, now: nat, env: Env)
    requires ItemOk(it, silent) && Admitted(it.status) && LeasesExpired(it, now) && AdaptersSucceed(env)
    ensures var (t, end) := ProcessCall(it, now, env);
            if it.status in {EXTRACTED, ENTITY_CANDIDATES} || it.area in it.objects then end == Continue
            else t.status in {SCAN_FAILED, SCAN_TIMEOUT, SCANNER_UNAVAILABLE, EXTRACTION_FAILED}
  {
    assert it.JobOf(Scan) == it.scan && it.JobOf(Extract) == it.extract && it.JobOf(Resolve) == it.resolve;
    match Dispatch(it.status).value
    case Scan => assert Acquire(it.scan, now).Granted?;
    case Extract => assert Acquire(it.extract, now).Granted?;
    case Resolve => assert Acquire(it.resolve, now).Granted?;
  }

  /** A finished or blocked item is left as it is by any further call: redelivery is harmless. */
  lemma RedeliveryIsHarmless(actions: seq<Action>, env: Env)
    requires Run(INITIAL, actions).Some? && !Admitted(Run(INITIAL, actions).value.item.status)
    ensures var s := Run(INITIAL, actions).value; ProcessCall(s.item, s.now, env).0 == s.item
  {
    NoOtherStatus(actions);
  }

  // ---------------------------------------------------------------- the gap between move and commit

  /** The object has left quarantine and no worker is left to record it. */
  predicate Stranded(s: State) {
    && s.item.area == Quarantine && Quarantine !in s.item.objects
    && s.item.extract.NoJob? && s.item.claims == {}
    && forall w | w in s.workers :: s.workers[w] != Promoting && s.workers[w] != Extracting
  }

  lemma StrandedStep(s: State, a: Action)
    requires Inv(s) && Stranded(s) && Next(s, a).Some?
    ensures Stranded(Next(s, a).value)
  {
    if a.Open? {
      assert s.workers[a.w].Ready?;
      assert Dispatch(s.workers[a.w].view) != Some(Extract);
    }
  }

  /** No run, however long, ever extracts such an item. */
  lemma {:induction false} StrandedForever(s: State, actions: seq<Action>)
    requires Inv(s) && Stranded(s) && Run(s, actions).Some?
    ensures Stranded(Run(s, actions).value)
  {
    if actions != [] {
      var before := actions[..|actions| - 1];
      StrandedForever(s, before);
      RunKeeps(s, before);
      StrandedStep(Run(s, before).value, actions[|actions| - 1]);
    }
  }

  /** Two steps take a fresh item to its first scan. */
  lemma FirstScan()
    ensures var s := Run(INITIAL, [Load(1), Open(1)]);
            && s.Some? && s.value.At(1) == Scanning && s.value.workers.Keys == {1} && s.value.silent == {}
            && s.value.item == UPLOADED_ITEM.(status := MALWARE_SCANNING, scan := Job(RUNNING, 1, 0))
  {
    var loaded := INITIAL.Put(1, Ready(QUARANTINED));
    assert Next(INITIAL, Load(1)) == Some(loaded);
    RunStep(INITIAL, [], Load(1));
    assert Run(INITIAL, [Load(1)]) == Some(loaded);
    RunStep(INITIAL, [Load(1)], Open(1));
    assert [Load(1)] + [Open(1)] == [Load(1), Open(1)];
    FirstOpen(loaded);
  }

  lemma FirstOpen(s: State)
    requires s == INITIAL.Put(1, Ready(QUARANTINED))
    ensures var t := Next(s, Open(1));
            && t.Some? && t.value.At(1) == Scanning && t.value.workers.Keys == {1} && t.value.silent == {}
            && t.value.item == UPLOADED_ITEM.(status := MALWARE_SCANNING, scan := Job(RUNNING, 1, 0))
  {
  }

  /** A crash between the move and its commit does strand an item, and one the route admits. */
  lemma CrashStrands() returns (run: seq<Action>)
    ensures Run(INITIAL, run).Some?
    ensures Stranded(Run(INITIAL, run).value) && Admitted(Run(INITIAL, run).value.item.status)
  {
    FirstScan();
    var start := [Load(1), Open(1)];
    run := start + [MoveObject(1)] + [Die(1)];
    RunStep(INITIAL, start, MoveObject(1));
    RunStep(INITIAL, start + [MoveObject(1)], Die(1));
    MoveThenDeathStrands(Run(INITIAL, start).value, 1);
  }

  lemma MoveThenDeathStrands(s: State, w: Worker)
    requires s.At(w) == Scanning && s.workers.Keys == {w} && Admitted(s.item.status)
    requires s.item.area == Quarantine && Quarantine in s.item.objects && s.item.extract.NoJob? && s.item.claims == {}
    ensures var t := Next(s, MoveObject(w));
            t.Some? && Next(t.value, Die(w)).Some? && Stranded(Next(t.value, Die(w)).value)
            && Next(t.value, Die(w)).value.item.status == s.item.status
  {
  }

  lemma RunStep(s: State, actions: seq<Action>, a: Action)
    requires Run(s, actions).Some?
    ensures Run(s, actions + [a]) == Next(Run(s, actions).value, a)
  {
    assert (actions + [a])[..|actions|] == actions;
  }

  // ---------------------------------------------------------------- SCAN_FAILED and the SCAN job

  /**
   "SCAN_FAILED, SCAN_TIMEOUT and SCANNER_UNAVAILABLE mean the SCAN job is FAILED" holds in a reachable state
   if and only if the current attempt was not opened silently.
  */
  lemma ScanStatusExact(actions: seq<Action>)
    requires Run(INITIAL, actions).Some?
    requires Run(INITIAL, actions).value.item.status in {SCAN_FAILED, SCAN_TIMEOUT, SCANNER_UNAVAILABLE}
    ensures var s := Run(INITIAL, actions).value; s.item.scan.Is(FAILED) <==> Scan !in s.silent
  {
    InitialInv();
    RunKeeps(INITIAL, actions);
  }

  predicate FailedScan(s: Status) { s in {SCAN_FAILED, SCAN_TIMEOUT, SCANNER_UNAVAILABLE} }

  /** The status reports a failed scan and the job does not. */
  predicate Disagrees(it: Item) { FailedScan(it.status) && !it.scan.Is(FAILED) }

  /**
   Status and job come apart in one way only: the status reports a failed scan, and a call that loaded MALWARE_SCANNING
   opens the next attempt.
  */
  lemma ComesApart(actions: seq<Action>, a: Action)
    requires Run(INITIAL, actions).Some? && Next(Run(INITIAL, actions).value, a).Some?
    requires !Disagrees(Run(INITIAL, actions).value.item)
    ensures var s := Run(INITIAL, actions).value;
            Disagrees(Next(s, a).value.item) <==> FailedScan(s.item.status) && a.Open? && s.At(a.w) == Ready(MALWARE_SCANNING)
  {
    InitialInv();
    RunKeeps(INITIAL, actions);
    StepComesApart(Run(INITIAL, actions).value, a);
  }

  lemma StepComesApart(s: State, a: Action)
    requires Inv(s) && Next(s, a).Some? && !Disagrees(s.item)
    ensures Disagrees(Next(s, a).value.item) <==> FailedScan(s.item.status) && a.Open? && s.At(a.w) == Ready(MALWARE_SCANNING)
  {
    if a.Open? {
      var view := s.At(a.w).view;
      assert s.item.JobOf(Scan) == s.item.scan;
      assert FailedScan(s.item.status) ==> Acquire(s.item.scan, s.now).Granted?;
    }
  }

  /** A call that loaded MALWARE_SCANNING before another call's scan failed opens silently. */
  lemma LateReaderIsSilent(s: State, v: Worker, w: Worker)
    requires v != w && s.At(v) == Scanning && s.At(w) == Ready(MALWARE_SCANNING) && s.item.scan.Job?
    ensures var t := Next(s, ScanEnds(v, ScanFailed));
            && t.Some? && t.value.item.scan.Is(FAILED) && Next(t.value, Open(w)).Some?
            && var it := Next(t.value, Open(w)).value.item; it.status == SCAN_FAILED && it.scan.Is(RUNNING)
  {
  }

  lemma SilentOpenHappens() returns (run: seq<Action>)
    ensures Run(INITIAL, run).Some?
    ensures var it := Run(INITIAL, run).value.item; it.status == SCAN_FAILED && it.scan.Is(RUNNING)
  {
    FirstScan();
    run := [Load(1), Open(1)];
    var s := Run(INITIAL, run).value;
    RunStep(INITIAL, run, Load(2));
    run := run + [Load(2)];
    LateReaderIsSilent(Run(INITIAL, run).value, 1, 2);
    RunStep(INITIAL, run, ScanEnds(1, ScanFailed));
    run := run + [ScanEnds(1, ScanFailed)];
    RunStep(INITIAL, run, Open(2));
    run := run + [Open(2)];
  }

  // ---------------------------------------------------------------- one call is a run

  /** The commits one uninterrupted scan stage makes. */
  function ScanScript(w: Worker, it: Item, now: nat, env: Env): seq<Action> {
    var result := if it.area in it.objects then env.scan else env.readError;
    if !Acquire(it.scan, now).Granted? then [Open(w)]
    else if result != Clean then [Open(w), ScanEnds(w, result)]
    else match env.move
      case MoveOk => [Open(w), MoveObject(w), CommitPromotion(w)]
      case MoveFailed(copied) => [Open(w), MoveFails(w, copied)]
  }

  function ExtractScript(w: Worker, it: Item, now: nat, env: Env): seq<Action> {
    if !Acquire(it.extract, now).Granted? then [Open(w)]
    else
      var failed := it.area !in it.objects || (env.hashMatches && env.extraction.None?);
      [Open(w), ExtractEnds(w, if failed then Failure else if !env.hashMatches then HashMismatch else Claims(env.extraction.value))]
  }

  function ResolveScript(w: Worker, it: Item, now: nat, env: Env): seq<Action> {
    if !Acquire(it.resolve, now).Granted? then [Open(w)] else [Open(w), ResolveEnds(w, env.resolution)]
  }

  /** The run of `w` from `s` leaves the item as the stage function says and the call where it goes on. */
  predicate Plays(s: State, w: Worker, script: seq<Action>, result: (Item, End), goOn: Pc) {
    var t := Run(s, script);
    t.Some? && t.value.item == result.0 && t.value.now == s.now && t.value.At(w) == if result.1 == Continue then goOn else Idle
  }

  lemma RunCons(s: State, a: Action, rest: seq<Action>)
    requires Next(s, a).Some?
    ensures Run(s, [a] + rest) == Run(Next(s, a).value, rest)
  {
    RunStep(s, [], a);
    RunConcat(s, [a], rest);
  }

  lemma ScanPlays(s: State, w: Worker, env: Env)
    requires s.At(w).Ready? && Dispatch(s.At(w).view) == Some(Scan)
    ensures Plays(s, w, ScanScript(w, s.item, s.now, env), ScanStage(s.item, s.At(w).view, s.now, env), Ready(ACCEPTED))
  {
    var script := ScanScript(w, s.item, s.now, env);
    assert script == [Open(w)] + script[1..];
    RunCons(s, Open(w), script[1..]);
    var t := Next(s, Open(w)).value;
    if |script| > 1 {
      assert script[1..] == [script[1]] + script[2..];
      RunCons(t, script[1], script[2..]);
      if |script| > 2 {
        assert script[2..] == [script[2]] + [];
        RunCons(Next(t, script[1]).value, script[2], []);
      }
    }
  }

  lemma ExtractPlays(s: State, w: Worker, env: Env)
    requires s.At(w).Ready? && Dispatch(s.At(w).view) == Some(Extract)
    ensures Plays(s, w, ExtractScript(w, s.item, s.now, env), ExtractStage(s.item, s.At(w).view, s.now, env), Ready(EXTRACTED))
  {
    var script := ExtractScript(w, s.item, s.now, env);
    assert script == [Open(w)] + script[1..];
    RunCons(s, Open(w), script[1..]);
    if |script| > 1 {
      assert script[1..] == [script[1]] + [];
      RunCons(Next(s, Open(w)).value, script[1], []);
    }
  }

  lemma ResolvePlays(s: State, w: Worker, env: Env)
    requires s.At(w).Ready? && Dispatch(s.At(w).view) == Some(Resolve)
    ensures Plays(s, w, ResolveScript(w, s.item, s.now, env), ResolveStage(s.item, s.At(w).view, s.now, env), Idle)
  {
    var script := ResolveScript(w, s.item, s.now, env);
    assert script == [Open(w)] + script[1..];
    RunCons(s, Open(w), script[1..]);
    if |script| > 1 {
      assert script[1..] == [script[1]] + [];
      RunCons(Next(s, Open(w)).value, script[1], []);
    }
  }

  /** From the extract stage on. */
  lemma TailPlays(s: State, w: Worker, env: Env) returns (script: seq<Action>)
    requires s.At(w).Ready? && Dispatch(s.At(w).view) == Some(Extract)
    ensures Plays(s, w, script, StagesFrom(s.item, s.At(w).view, s.now, env), Idle)
  {
    script := ExtractScript(w, s.item, s.now, env);
    ExtractPlays(s, w, env);
    var t := Run(s, script).value;
    if t.At(w).Ready? {
      ResolvePlays(t, w, env);
      RunConcat(s, script, ResolveScript(w, t.item, t.now, env));
      script := script + ResolveScript(w, t.item, t.now, env);
    }
  }

  /**
   An uninterrupted call of the program, `ProcessCall`, is a run of one worker: what holds of all runs
   holds of it.
  */
  lemma CallIsARun(s: State, w: Worker, env: Env) returns (script: seq<Action>)
    requires s.At(w) == Idle
    ensures Plays(s, w, script, ProcessCall(s.item, s.now, env), Idle)
  {
    var view, t := s.item.status, Next(s, Load(w)).value;
    if Blocked(view) {
      script := [Load(w)];
      RunStep(s, [], Load(w));
    } else {
      var rest: seq<Action>;
      match Dispatch(view) {
        case None =>
          rest := [Open(w)];
          RunStep(t, [], Open(w));
        case Some(Scan) =>
          rest := ScanScript(w, t.item, t.now, env);
          ScanPlays(t, w, env);
          var u := Run(t, rest).value;
          if u.At(w).Ready? {
            var more := TailPlays(u, w, env);
            RunConcat(t, rest, more);
            rest := rest + more;
          }
        case Some(Extract) =>
          rest := TailPlays(t, w, env);
        case Some(Resolve) =>
          rest := ResolveScript(w, t.item, t.now, env);
          ResolvePlays(t, w, env);
      }
      RunCons(s, Load(w), rest);
      script := [Load(w)] + rest;
    }
  }
}
