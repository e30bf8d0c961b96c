/**
 One evidence item of `pipeline.py`: its row, its three job rows, its stored objects and its claims,
 and the pieces of the pipeline between two database commits.
*/
module Pipeline {
  import opened Common

  const JOB_LEASE_S: nat := 900

  datatype Status =
    | UPLOADED | HASHED | QUARANTINED | MALWARE_SCANNING
    | CLEAN | INFECTED | SCAN_FAILED | SCAN_TIMEOUT | SCANNER_UNAVAILABLE
    | ACCEPTED | PROCESSING | EXTRACTED | ENTITY_CANDIDATES | HITL | GRAPH_PROJECTED | ACTIVE
    | EXTRACTION_FAILED | INTEGRITY_MISMATCH | REJECTED | STALE | TOMBSTONED

  datatype JobStatus = RUNNING | SUCCEEDED | FAILED

  datatype Job = NoJob | Job(status: JobStatus, attempts: nat, updatedAt: nat) {
    predicate Is(s: JobStatus) { Job? && status == s }
    function Updated(): nat { if Job? then updatedAt else 0 }
  }

  datatype Stage = Scan | Extract | Resolve

  /** The two storage areas; an item's path is in one of them. */
  datatype Area = Quarantine | Accepted

  datatype ScanResult = Clean | Infected | ScanFailed | ScanTimeout | ScannerUnavailable

  /** What the scanner reports when it cannot read the object. */
  type ReadError = r: ScanResult | r != Clean && r != Infected witness ScanFailed

  type Claim = nat

  /**
   The committed rows of one item and its stored objects. `verdicts` are the recorded scan results and
   `batches` the claims of each committed extraction, oldest first; the program keeps both only as audit
   rows and never reads them.
  */
  datatype Item = Item(
    status: Status, area: Area, objects: set<Area>,
    scan: Job, extract: Job, resolve: Job,
    claims: set<Claim>, verdicts: seq<ScanResult>, batches: seq<set<Claim>>)
  {
    function JobOf(stage: Stage): Job {
      match stage
      case Scan => scan
      case Extract => extract
      case Resolve => resolve
    }

    function WithJob(stage: Stage, job: Job): Item {
      match stage
      case Scan => this.(scan := job)
      case Extract => this.(extract := job)
      case Resolve => this.(resolve := job)
    }
  }

  /** The row an accepted upload commits. */
  const UPLOADED_ITEM := Item(QUARANTINED, Quarantine, {Quarantine}, NoJob, NoJob, NoJob, {}, [], [])

  predicate Blocked(s: Status) { s in {INFECTED, INTEGRITY_MISMATCH, REJECTED, TOMBSTONED} }

  /** Statuses the `/process` route admits. */
  predicate Admitted(s: Status) {
    s in {QUARANTINED, SCAN_FAILED, SCAN_TIMEOUT, SCANNER_UNAVAILABLE, ACCEPTED, EXTRACTION_FAILED, EXTRACTED,
          MALWARE_SCANNING, PROCESSING, ENTITY_CANDIDATES}
  }

  /** Statuses in which source content is withheld. */
  predicate Withheld(s: Status) {
    s in {QUARANTINED, MALWARE_SCANNING, INFECTED, SCAN_FAILED, SCAN_TIMEOUT, SCANNER_UNAVAILABLE, INTEGRITY_MISMATCH}
  }

  /** The three ways to read an item's bytes: in context, and whole by an administrator or another role. */
  datatype Access = InContext | DownloadBy(admin: bool)

  /** The bytes are handed out. */
  predicate Serves(it: Item, access: Access, hashMatches: bool) {
    (!Withheld(it.status) || (access.DownloadBy? && access.admin)) && it.area in it.objects && hashMatches
  }

  /** The stage `process_evidence` enters for an item it sees in status `s`. */
  function Dispatch(s: Status): Option<Stage> {
    if s in {QUARANTINED, SCAN_FAILED, SCAN_TIMEOUT, SCANNER_UNAVAILABLE, MALWARE_SCANNING} then Some(Scan)
    else if s in {ACCEPTED, EXTRACTION_FAILED, PROCESSING} then Some(Extract)
    else if s in {EXTRACTED, ENTITY_CANDIDATES} then Some(Resolve)
    else None
  }

  function Busy(stage: Stage): Status {
    match stage
    case Scan => MALWARE_SCANNING
    case Extract => PROCESSING
    case Resolve => ENTITY_CANDIDATES
  }

  function StatusOf(r: ScanResult): Status {
    match r
    case Clean => CLEAN
    case Infected => INFECTED
    case ScanFailed => SCAN_FAILED
    case ScanTimeout => SCAN_TIMEOUT
    case ScannerUnavailable => SCANNER_UNAVAILABLE
  }

  // ---------------------------------------------------------------- the job guard

  datatype Grant = Granted(job: Job) | AlreadySucceeded | AlreadyRunning

  function Acquire(job: Job, now: nat): Grant {
    match job
    case NoJob => Granted(Job(RUNNING, 1, now))
    case Job(SUCCEEDED, _, _) => AlreadySucceeded
    case Job(RUNNING, attempts, updatedAt) =>
      if now - updatedAt < JOB_LEASE_S then AlreadyRunning else Granted(Job(RUNNING, attempts + 1, now))
    case Job(FAILED, attempts, _) => Granted(Job(RUNNING, attempts + 1, now))
  }

  /**
   The commit that opens a stage. The session writes a column only when its value differs from the one
   it loaded, so a worker whose loaded status (`view`) is already the busy one leaves the row's status.
  */
  function Started(it: Item, stage: Stage, view: Status, job: Job): Item {
    it.WithJob(stage, job).(status := if view == Busy(stage) then it.status else Busy(stage))
  }

  // ---------------------------------------------------------------- the commits that close a stage

  function Closed(job: Job, status: JobStatus, now: nat): Job {
    if job.NoJob? then NoJob else Job(status, job.attempts, now)
  }

  /** A scan result other than CLEAN. */
  function ScanRejected(it: Item, result: ScanResult, now: nat): Item {
    it.(scan := Closed(it.scan, if result == Infected then SUCCEEDED else FAILED, now),
        status := StatusOf(result), verdicts := it.verdicts + [result])
  }

  function Promoted(it: Item, now: nat): Item {
    it.(scan := Closed(it.scan, SUCCEEDED, now), status := ACCEPTED, area := Accepted, verdicts := it.verdicts + [Clean])
  }

  function PromotionFailed(it: Item, now: nat): Item {
    it.(scan := Closed(it.scan, FAILED, now), status := SCAN_FAILED, verdicts := it.verdicts + [Clean])
  }

  function ExtractionCommitted(it: Item, batch: set<Claim>, now: nat): Item {
    it.(extract := Closed(it.extract, SUCCEEDED, now), status := EXTRACTED,
        claims := it.claims + batch, batches := it.batches + [batch])
  }

  function ExtractionFailed(it: Item, mismatch: bool, now: nat): Item {
    it.(extract := Closed(it.extract, FAILED, now), status := if mismatch then INTEGRITY_MISMATCH else EXTRACTION_FAILED)
  }

  function Resolved(it: Item, pending: bool, now: nat): Item {
    it.(resolve := Closed(it.resolve, SUCCEEDED, now), status := if pending then HITL else GRAPH_PROJECTED)
  }

  function ResolutionFailed(it: Item, now: nat): Item {
    it.(resolve := Closed(it.resolve, FAILED, now), status := EXTRACTED)
  }

  /** The storage move of a promotion. */
  function Moved(objects: set<Area>): set<Area> { objects - {Quarantine} + {Accepted} }

  function Activated(it: Item, pending: bool): Item {
    if it.status in {HITL, GRAPH_PROJECTED, ACTIVE} then it.(status := if pending then HITL else ACTIVE) else it
  }

  // ---------------------------------------------------------------- one uninterrupted call

  datatype MoveOutcome = MoveOk | MoveFailed(copied: bool)

  /** What the adapters answer during one call. */
  datatype Env = Env(scan: ScanResult, readError: ReadError, move: MoveOutcome, hashMatches: bool,
          extraction: Option<set<Claim>>, resolution: Option<bool>)

  datatype End = Continue | Stop | Raised(error: Grant) | Refused

  function ScanStage(it: Item, view: Status, now: nat, env: Env): (Item, End) {
    var grant := Acquire(it.scan, now);
    if !grant.Granted? then (it, Raised(grant))
    else
      var s := Started(it, Scan, view, grant.job);
      var result := if it.area in it.objects then env.scan else env.readError;
      if result != Clean then (ScanRejected(s, result, now), Stop)
      else match env.move
        case MoveOk => (Promoted(s.(objects := Moved(s.objects)), now), Continue)
        case MoveFailed(copied) =>
          (PromotionFailed(s.(objects := if copied then s.objects + {Accepted} else s.objects), now), Stop)
  }

  function ExtractStage(it: Item, view: Status, now: nat, env: Env): (Item, End) {
    var grant := Acquire(it.extract, now);
    if !grant.Granted? then (it, Raised(grant))
    else
      var s := Started(it, Extract, view, grant.job);
      if it.area !in it.objects then (ExtractionFailed(s, false, now), Stop)
      else if !env.hashMatches then (ExtractionFailed(s, true, now), Stop)
      else match env.extraction
        case Some(batch) => (ExtractionCommitted(s, batch, now), Continue)
        case None => (ExtractionFailed(s, false, now), Stop)
  }

  function ResolveStage(it: Item, view: Status, now: nat, env: Env): (Item, End) {
    var grant := Acquire(it.resolve, now);
    if !grant.Granted? then (it, Raised(grant))
    else
      var s := Started(it, Resolve, view, grant.job);
      match env.resolution
      case Some(pending) => (Resolved(s, pending, now), Continue)
      case None => (ResolutionFailed(s, now), Stop)
  }

  /** The three guarded stages in order, from the status the call has loaded. */
  function StagesFrom(it: Item, view: Status, now: nat, env: Env): (Item, End) {
    match Dispatch(view)
    case Some(Scan) =>
      var (s, end) := ScanStage(it, view, now, env);
      if end != Continue then (s, end)
      else
        var (t, end) := ExtractStage(s, ACCEPTED, now, env);
        if end != Continue then (t, end) else ResolveStage(t, EXTRACTED, now, env)
    case Some(Extract) =>
      var (t, end) := ExtractStage(it, view, now, env);
      if end != Continue then (t, end) else ResolveStage(t, EXTRACTED, now, env)
    case Some(Resolve) => ResolveStage(it, view, now, env)
    case None => (it, Continue)
  }

  function ProcessCall(it: Item, now: nat, env: Env): (Item, End) {
    if Blocked(it.status) then (it, Refused) else StagesFrom(it, it.status, now, env)
  }

  // ---------------------------------------------------------------- what every call keeps

  predicate LastIs(verdicts: seq<ScanResult>, r: ScanResult) { verdicts != [] && verdicts[|verdicts| - 1] == r }

  /** How the recorded history, the path, the jobs and the claims depend on each other. */
  predicate HistoryOk(it: Item) {
    && (it.area == Accepted <==> it.scan.Is(SUCCEEDED) && LastIs(it.verdicts, Clean))
    && (it.scan.Is(SUCCEEDED) ==> LastIs(it.verdicts, Clean) || LastIs(it.verdicts, Infected))
    && (forall i :: 0 <= i < |it.verdicts| && it.verdicts[i] == Infected ==> i == |it.verdicts| - 1 && it.scan.Is(SUCCEEDED))
    && (it.scan.NoJob? ==> it.verdicts == [])
    && (it.extract.Job? ==> it.area == Accepted)
    && (it.resolve.Job? ==> it.extract.Is(SUCCEEDED))
    && |it.batches| == (if it.extract.Is(SUCCEEDED) then 1 else 0)
    && it.claims == (if it.batches == [] then {} else it.batches[0])
  }

  /**
   What a committed status says about the job rows. `silent` are the stages whose current attempt was opened by a call that
   left the row's status unwritten although it differed from the busy one.
  */
  predicate StatusOk(it: Item, silent: set<Stage>) {
    match it.status
    case QUARANTINED => it.scan.NoJob?
    case MALWARE_SCANNING => it.scan.Is(RUNNING)
    case SCAN_FAILED => it.scan.Is(if Scan in silent then RUNNING else FAILED)
    case SCAN_TIMEOUT => it.scan.Is(if Scan in silent then RUNNING else FAILED)
    case SCANNER_UNAVAILABLE => it.scan.Is(if Scan in silent then RUNNING else FAILED)
    case INFECTED => it.scan.Is(SUCCEEDED) && LastIs(it.verdicts, Infected)
    case ACCEPTED => it.area == Accepted && it.extract.NoJob?
    case PROCESSING => it.extract.Is(RUNNING)
    case EXTRACTION_FAILED => it.extract.Is(if Extract in silent then RUNNING else FAILED)
    case EXTRACTED => it.extract.Is(SUCCEEDED) && !it.resolve.Is(SUCCEEDED) && (it.resolve.Is(RUNNING) <==> Resolve in silent)
    case ENTITY_CANDIDATES => it.resolve.Is(RUNNING)
    case HITL => it.resolve.Is(SUCCEEDED)
    case GRAPH_PROJECTED => it.resolve.Is(SUCCEEDED)
    case ACTIVE => it.resolve.Is(SUCCEEDED)
    case INTEGRITY_MISMATCH => true
    case _ => false
  }

  predicate ItemOk(it: Item, silent: set<Stage>) {
    HistoryOk(it) && StatusOk(it, silent) && forall k | k in silent :: it.JobOf(k).Is(RUNNING)
  }

  /** What stays true of a status once it has been read, however old the reading. */
  predicate SeenOk(it: Item, view: Status) {
    && !Blocked(view)
    && (forall stage | view == Busy(stage) :: it.JobOf(stage).Job?)
    && (Dispatch(view) == Some(Extract) ==> it.area == Accepted)
    && (Dispatch(view) == Some(Resolve) ==> it.extract.Is(SUCCEEDED))
  }

  function Silenced(it: Item, silent: set<Stage>, stage: Stage, view: Status): set<Stage> {
    if view == Busy(stage) && it.status != Busy(stage) then silent + {stage} else silent - {stage}
  }

  lemma OpenItem(it: Item, silent: set<Stage>, stage: Stage, view: Status, now: nat)
    requires ItemOk(it, silent) && SeenOk(it, view) && Dispatch(view) == Some(stage)
    requires Acquire(it.JobOf(stage), now).Granted?
    ensures ItemOk(Started(it, stage, view, Acquire(it.JobOf(stage), now).job), Silenced(it, silent, stage, view))
    ensures forall v :: SeenOk(it, v) ==> SeenOk(Started(it, stage, view, Acquire(it.JobOf(stage), now).job), v)
  {
    var t := Started(it, stage, view, Acquire(it.JobOf(stage), now).job);
    match stage
    case Scan => assert HistoryOk(t);
    case Extract => assert HistoryOk(t);
    case Resolve => assert HistoryOk(t);
  }

  /** The silent stages whose attempt is not over. */
  function StillOpen(it: Item, silent: set<Stage>): set<Stage> { set k | k in silent && it.JobOf(k).Is(RUNNING) }

  /** Closing the running scan keeps the item consistent, whatever its result. */
  lemma ScanCloses(it: Item, silent: set<Stage>, now: nat)
    requires ItemOk(it, silent) && it.scan.Is(RUNNING)
    ensures forall result | result != Clean :: ItemOk(ScanRejected(it, result, now), silent - {Scan})
    ensures ItemOk(Promoted(it, now), silent - {Scan})
    ensures ItemOk(PromotionFailed(it, now), silent - {Scan})
  {
  }

  lemma ExtractCloses(it: Item, silent: set<Stage>, now: nat)
    requires ItemOk(it, silent) && it.extract.Is(RUNNING)
    ensures forall batch :: ItemOk(ExtractionCommitted(it, batch, now), silent - {Extract})
    ensures forall mismatch :: ItemOk(ExtractionFailed(it, mismatch, now), silent - {Extract})
  {
  }

  lemma ResolveCloses(it: Item, silent: set<Stage>, now: nat)
    requires ItemOk(it, silent) && it.resolve.Is(RUNNING)
    ensures forall pending :: ItemOk(Resolved(it, pending, now), silent - {Resolve})
    ensures ItemOk(ResolutionFailed(it, now), silent - {Resolve})
  {
  }

  /** Only the stage whose job has changed can have ended. */
  lemma OthersStillOpen(it: Item, silent: set<Stage>, t: Item, stage: Stage)
    requires ItemOk(it, silent) && !t.JobOf(stage).Is(RUNNING) && forall k | k != stage :: t.JobOf(k) == it.JobOf(k)
    ensures StillOpen(t, silent) == silent - {stage}
  {
  }

  lemma ScanStageKeeps(it: Item, silent: set<Stage>, now: nat, env: Env)
    requires ItemOk(it, silent) && Dispatch(it.status) == Some(Scan)
    ensures var t := ScanStage(it, it.status, now, env).0; ItemOk(t, StillOpen(t, silent))
  {
    var t, grant := ScanStage(it, it.status, now, env).0, Acquire(it.scan, now);
    if grant.Granted? {
      var s := Started(it, Scan, it.status, grant.job);
      OpenItem(it, silent, Scan, it.status, now);
      ScanCloses(s, silent - {Scan}, now);
      ScanCloses(s.(objects := t.objects), silent - {Scan}, now);
      assert silent - {Scan} - {Scan} == silent - {Scan};
      OthersStillOpen(it, silent, t, Scan);
    } else {
      assert StillOpen(t, silent) == silent;
    }
  }

  lemma ExtractStageKeeps(it: Item, silent: set<Stage>, now: nat, env: Env)
    requires ItemOk(it, silent) && Dispatch(it.status) == Some(Extract)
    ensures var t := ExtractStage(it, it.status, now, env).0; ItemOk(t, StillOpen(t, silent))
  {
    var t, grant := ExtractStage(it, it.status, now, env).0, Acquire(it.extract, now);
    if grant.Granted? {
      OpenItem(it, silent, Extract, it.status, now);
      ExtractCloses(Started(it, Extract, it.status, grant.job), silent - {Extract}, now);
      assert silent - {Extract} - {Extract} == silent - {Extract};
      OthersStillOpen(it, silent, t, Extract);
    } else {
      assert StillOpen(t, silent) == silent;
    }
  }

  lemma ResolveStageKeeps(it: Item, silent: set<Stage>, now: nat, env: Env)
    requires ItemOk(it, silent) && Dispatch(it.status) == Some(Resolve)
    ensures var t := ResolveStage(it, it.status, now, env).0; ItemOk(t, StillOpen(t, silent))
  {
    var t, grant := ResolveStage(it, it.status, now, env).0, Acquire(it.resolve, now);
    if grant.Granted? {
      OpenItem(it, silent, Resolve, it.status, now);
      ResolveCloses(Started(it, Resolve, it.status, grant.job), silent - {Resolve}, now);
      assert silent - {Resolve} - {Resolve} == silent - {Resolve};
      OthersStillOpen(it, silent, t, Resolve);
    } else {
      assert StillOpen(t, silent) == silent;
    }
  }

  /** From the extract stage on. */
  lemma TailKeeps(it: Item, silent: set<Stage>, now: nat, env: Env)
    requires ItemOk(it, silent) && Dispatch(it.status) == Some(Extract)
    ensures var t := StagesFrom(it, it.status, now, env).0; ItemOk(t, StillOpen(t, silent)) && t.scan == it.scan
  {
    ExtractStageKeeps(it, silent, now, env);
    var (t, end) := ExtractStage(it, it.status, now, env);
    if end == Continue {
      ResolveStageKeeps(t, StillOpen(t, silent), now, env);
      var u := ResolveStage(t, EXTRACTED, now, env).0;
      assert u.extract == t.extract && u.scan == t.scan;
      assert StillOpen(u, StillOpen(t, silent)) == StillOpen(u, silent);
    }
  }

  /** From the scan stage on. */
  lemma AllStagesKeep(it: Item, silent: set<Stage>, now: nat, env: Env)
    requires ItemOk(it, silent) && Dispatch(it.status) == Some(Scan)
    ensures var t := StagesFrom(it, it.status, now, env).0; ItemOk(t, StillOpen(t, silent))
  {
    ScanStageKeeps(it, silent, now, env);
    var (s, end) := ScanStage(it, it.status, now, env);
    if end == Continue {
      assert s.status == ACCEPTED;
      TailKeeps(s, StillOpen(s, silent), now, env);
      var u := StagesFrom(s, s.status, now, env).0;
      assert StagesFrom(it, it.status, now, env).0 == u;
      assert StillOpen(u, StillOpen(s, silent)) == StillOpen(u, silent);
    }
  }

  /** A call keeps what ties the rows together, whatever the adapters answer and whatever stage was opened silently before. */
  lemma CallKeeps(it: Item, silent: set<Stage>, now: nat, env: Env)
    requires ItemOk(it, silent)
    ensures var t := ProcessCall(it, now, env).0; ItemOk(t, StillOpen(t, silent))
  {
    assert StillOpen(it, silent) == silent;
    if !Blocked(it.status) {
      match Dispatch(it.status)
      case Some(Scan) => AllStagesKeep(it, silent, now, env);
      case Some(Extract) => TailKeeps(it, silent, now, env);
      case Some(Resolve) => ResolveStageKeeps(it, silent, now, env);
      case None => assert ProcessCall(it, now, env).0 == it;
    }
  }

  // ---------------------------------------------------------------- what a call does, column by column

  /** Nobody has finished the job, and nobody's lease on it runs. */
  predicate IsFree(job: Job, now: nat) {
    job.NoJob? || job.status == FAILED || (job.status == RUNNING && now - job.updatedAt >= 900)
  }

  /** The job has been run once more and ended now. */
  predicate EndedOnceMore(before: Job, after: Job, status: JobStatus, now: nat) {
    after == Job(status, 1 + (if before.Job? then before.attempts else 0), now)
  }

  /** The scan stage for every answer of scanner and storage. */
  predicate ScanOutcome(it: Item, now: nat, env: Env, t: Item, end: End) {
    var found := it.area in it.objects;
    var answer: ScanResult := if found then env.scan else env.readError;
    && t.extract == it.extract && t.resolve == it.resolve && t.claims == it.claims && t.batches == it.batches
    && (!end.Raised? ==> t.verdicts == it.verdicts + [answer])
    && (end.Raised? <==> !IsFree(it.scan, now)) && (end.Raised? ==> t == it)
    && (end == Continue <==> IsFree(it.scan, now) && found && env.scan == Clean && env.move.MoveOk?)
    && (end == Continue ==> t.status == ACCEPTED && t.area == Accepted && EndedOnceMore(it.scan, t.scan, SUCCEEDED, now))
    && (end == Continue ==> t.objects == it.objects - {Quarantine} + {Accepted})
    && (end != Continue ==> t.area == it.area && it.objects <= t.objects)
    && (end == Stop && found && env.scan == Infected ==> t.status == INFECTED && EndedOnceMore(it.scan, t.scan, SUCCEEDED, now))
    && (end == Stop && !(found && env.scan == Infected) ==>
          && EndedOnceMore(it.scan, t.scan, FAILED, now)
          && t.status == if answer == ScanTimeout then SCAN_TIMEOUT
                         else if answer == ScannerUnavailable then SCANNER_UNAVAILABLE else SCAN_FAILED)
  }

  /** The extract stage for every answer of storage and parser. */
  predicate ExtractOutcome(it: Item, now: nat, env: Env, t: Item, end: End) {
    var found := it.area in it.objects;
    && t.scan == it.scan && t.resolve == it.resolve && t.area == it.area && t.objects == it.objects
    && (end.Raised? <==> !IsFree(it.extract, now)) && (end.Raised? ==> t == it)
    && (end == Continue <==> IsFree(it.extract, now) && found && env.hashMatches && env.extraction.Some?)
    && (end == Continue ==> && t.status == EXTRACTED && t.claims == it.claims + env.extraction.value
                            && EndedOnceMore(it.extract, t.extract, SUCCEEDED, now))
    && (end == Stop ==> && t.claims == it.claims && EndedOnceMore(it.extract, t.extract, FAILED, now)
                        && t.status == if found && !env.hashMatches then INTEGRITY_MISMATCH else EXTRACTION_FAILED)
  }

  /** The resolve stage. */
  predicate ResolveOutcome(it: Item, now: nat, env: Env, t: Item, end: End) {
    && t.scan == it.scan && t.extract == it.extract && t.area == it.area && t.objects == it.objects && t.claims == it.claims
    && (end.Raised? <==> !IsFree(it.resolve, now)) && (end.Raised? ==> t == it)
    && (end == Continue <==> IsFree(it.resolve, now) && env.resolution.Some?)
    && (end == Continue ==> && EndedOnceMore(it.resolve, t.resolve, SUCCEEDED, now)
                            && t.status == if env.resolution == Some(true) then HITL else GRAPH_PROJECTED)
    && (end == Stop ==> EndedOnceMore(it.resolve, t.resolve, FAILED, now) && t.status == EXTRACTED)
  }

  /**
   A whole call: which statuses are refused, which enter which stage, and what each stage comes to. The stages that follow
   the first one entered are those after it, as long as they succeed.
  */
  ghost predicate CallOutcome(it: Item, now: nat, env: Env, t: Item, end: End) {
    if it.status in {INFECTED, INTEGRITY_MISMATCH, REJECTED, TOMBSTONED} then t == it && end == Refused
    else if it.status in {QUARANTINED, MALWARE_SCANNING, SCAN_FAILED, SCAN_TIMEOUT, SCANNER_UNAVAILABLE} then
      exists s, e :: ScanOutcome(it, now, env, s, e) && if e == Continue then TailOutcome(s, now, env, t, end) else t == s && end == e
    else if it.status in {ACCEPTED, PROCESSING, EXTRACTION_FAILED} then TailOutcome(it, now, env, t, end)
    else if it.status in {EXTRACTED, ENTITY_CANDIDATES} then ResolveOutcome(it, now, env, t, end)
    else t == it && end == Continue
  }

  ghost predicate TailOutcome(it: Item, now: nat, env: Env, t: Item, end: End) {
    exists s, e :: ExtractOutcome(it, now, env, s, e) && if e == Continue then ResolveOutcome(s, now, env, t, end) else t == s && end == e
  }

  lemma GrantSpelledOut(job: Job, now: nat)
    ensures Acquire(job, now).Granted? <==> IsFree(job, now)
    ensures Acquire(job, now).Granted? ==> Acquire(job, now).job == Job(RUNNING, 1 + (if job.Job? then job.attempts else 0), now)
  {
  }

  lemma ScanSpelledOut(it: Item, view: Status, now: nat, env: Env)
    ensures ScanOutcome(it, now, env, ScanStage(it, view, now, env).0, ScanStage(it, view, now, env).1)
  {
    GrantSpelledOut(it.scan, now);
  }

  lemma ExtractSpelledOut(it: Item, view: Status, now: nat, env: Env)
    ensures ExtractOutcome(it, now, env, ExtractStage(it, view, now, env).0, ExtractStage(it, view, now, env).1)
  {
    GrantSpelledOut(it.extract, now);
  }

  lemma ResolveSpelledOut(it: Item, view: Status, now: nat, env: Env)
    ensures ResolveOutcome(it, now, env, ResolveStage(it, view, now, env).0, ResolveStage(it, view, now, env).1)
  {
    GrantSpelledOut(it.resolve, now);
  }

  lemma TailSpelledOut(it: Item, view: Status, now: nat, env: Env)
    requires Dispatch(view) == Some(Extract)
    ensures TailOutcome(it, now, env, StagesFrom(it, view, now, env).0, StagesFrom(it, view, now, env).1)
  {
    ExtractSpelledOut(it, view, now, env);
    var (s, e) := ExtractStage(it, view, now, env);
    assert ExtractOutcome(it, now, env, s, e);
    if e == Continue {
      ResolveSpelledOut(s, EXTRACTED, now, env);
    }
  }

  lemma AllSpelledOut(it: Item, now: nat, env: Env)
    requires Dispatch(it.status) == Some(Scan)
    ensures CallOutcome(it, now, env, StagesFrom(it, it.status, now, env).0, StagesFrom(it, it.status, now, env).1)
  {
    ScanSpelledOut(it, it.status, now, env);
    var (s, e) := ScanStage(it, it.status, now, env);
    assert ScanOutcome(it, now, env, s, e);
    if e == Continue {
      TailSpelledOut(s, ACCEPTED, now, env);
      assert StagesFrom(it, it.status, now, env) == StagesFrom(s, ACCEPTED, now, env);
    }
  }

  lemma CallSpelledOut(it: Item, now: nat, env: Env)
    ensures CallOutcome(it, now, env, ProcessCall(it, now, env).0, ProcessCall(it, now, env).1)
  {
    if Dispatch(it.status) == Some(Scan) {
      AllSpelledOut(it, now, env);
    } else if Dispatch(it.status) == Some(Extract) {
      TailSpelledOut(it, it.status, now, env);
    } else {
      ResolveSpelledOut(it, it.status, now, env);
    }
  }

  lemma ResolveEnds(it: Item, now: nat, env: Env, t: Item)
    requires ResolveOutcome(it, now, env, t, Continue)
    ensures t.status == HITL <==> env.resolution == Some(true)
    ensures t.status == GRAPH_PROJECTED <==> env.resolution == Some(false)
  {
    assert env.resolution == Some(true) || env.resolution == Some(false) by {
      if env.resolution.value {
        assert env.resolution == Some(true);
      } else {
        assert env.resolution == Some(false);
      }
    }
  }

  lemma TailEnds(it: Item, now: nat, env: Env, t: Item)
    requires TailOutcome(it, now, env, t, Continue)
    ensures t.status == HITL <==> env.resolution == Some(true)
    ensures t.status == GRAPH_PROJECTED <==> env.resolution == Some(false)
  {
    var s, e :| ExtractOutcome(it, now, env, s, e) && if e == Continue then ResolveOutcome(s, now, env, t, Continue) else t == s && Continue == e;
    ResolveEnds(s, now, env, t);
  }

  /** A call that goes through leaves HITL behind if a candidate is undecided and GRAPH_PROJECTED if none is. */
  lemma CallEnds(it: Item, now: nat, env: Env, t: Item)
    requires CallOutcome(it, now, env, t, Continue)
    requires it.status in {QUARANTINED, MALWARE_SCANNING, SCAN_FAILED, SCAN_TIMEOUT, SCANNER_UNAVAILABLE, ACCEPTED, PROCESSING,
                           EXTRACTION_FAILED, EXTRACTED, ENTITY_CANDIDATES}
    ensures t.status == HITL <==> env.resolution == Some(true)
    ensures t.status == GRAPH_PROJECTED <==> env.resolution == Some(false)
  {
    if it.status in {QUARANTINED, MALWARE_SCANNING, SCAN_FAILED, SCAN_TIMEOUT, SCANNER_UNAVAILABLE} {
      var s, e :| ScanOutcome(it, now, env, s, e) && if e == Continue then TailOutcome(s, now, env, t, Continue) else t == s && Continue == e;
      TailEnds(s, now, env, t);
    } else if it.status in {ACCEPTED, PROCESSING, EXTRACTION_FAILED} {
      TailEnds(it, now, env, t);
    } else {
      ResolveEnds(it, now, env, t);
    }
  }

  // ---------------------------------------------------------------- the program

  /** The rows of one item as the stages update them. */
  class EvidenceStore {
    var status: Status
    var area: Area
    var objects: set<Area>
    var scan: Job
    var extract: Job
    var resolve: Job
    var claims: set<Claim>
    ghost var verdicts: seq<ScanResult>
    ghost var batches: seq<set<Claim>>

    ghost function Rows(): Item
      reads this
    {
      Item(status, area, objects, scan, extract, resolve, claims, verdicts, batches)
    }

    /** `upload`, after the object is in quarantine. */
    constructor ()
      ensures Rows() == UPLOADED_ITEM && ItemOk(Rows(), {})
      ensures status == QUARANTINED && area == Quarantine && objects == {Quarantine} && claims == {}
      ensures scan == NoJob && extract == NoJob && resolve == NoJob
    {
      status, area, objects := QUARANTINED, Quarantine, {Quarantine};
      scan, extract, resolve := NoJob, NoJob, NoJob;
      claims, verdicts, batches := {}, [], [];
    }

    /** `_job`: nobody enters a stage that has succeeded or whose lease still runs; others count one more attempt. */
    method AcquireJob(job: Job, now: nat) returns (grant: Grant)
      ensures grant == AlreadySucceeded <==> job.Is(SUCCEEDED)
      ensures grant == AlreadyRunning <==> job.Is(RUNNING) && now - job.updatedAt < 900
      ensures grant.Granted? ==> grant.job == Job(RUNNING, 1 + (if job.NoJob? then 0 else job.attempts), now)
    {
      if job.NoJob? {
        return Granted(Job(RUNNING, 1, now));
      }
      if job.status == SUCCEEDED {
        return AlreadySucceeded;
      }
      if job.status == RUNNING {
        if now - job.updatedAt < JOB_LEASE_S {
          return AlreadyRunning;
        }
      }
      return Granted(Job(RUNNING, job.attempts + 1, now));
    }

    method SetJob(stage: Stage, job: Job)
      modifies this`scan, this`extract, this`resolve
      ensures Rows() == old(Rows()).WithJob(stage, job)
    {
      match stage {
        case Scan => scan := job;
        case Extract => extract := job;
        case Resolve => resolve := job;
      }
    }

    /** `_job`, the busy status and the commit that opens a stage. */
    method Open(stage: Stage, view: Status, now: nat) returns (grant: Grant)
      modifies this
      ensures grant == Acquire(old(Rows()).JobOf(stage), now)
      ensures Rows() == if grant.Granted? then Started(old(Rows()), stage, view, grant.job) else old(Rows())
      ensures !grant.Granted? || view == Busy(stage) ==> status == old(status)
      ensures grant.Granted? && stage == Scan && view != MALWARE_SCANNING ==> status == MALWARE_SCANNING
      ensures grant.Granted? && stage == Extract && view != PROCESSING ==> status == PROCESSING
      ensures grant.Granted? && stage == Resolve && view != ENTITY_CANDIDATES ==> status == ENTITY_CANDIDATES
    {
      var job := match stage case Scan => scan case Extract => extract case Resolve => resolve;
      grant := AcquireJob(job, now);
      assert grant == Acquire(job, now);
      if grant.Granted? {
        SetJob(stage, grant.job);
        if view != Busy(stage) {
          status := Busy(stage);
        }
      }
    }

    /** The rest of `run_scan` for an outcome that is not clean. */
    method KeepInQuarantine(result: ScanResult, now: nat)
      requires scan.Job?
      modifies this`scan, this`status, this`verdicts
      ensures Rows() == ScanRejected(old(Rows()), result, now)
    {
      verdicts := verdicts + [result];
      status := StatusOf(result);
      scan := scan.(status := if result != Infected then FAILED else SUCCEEDED, updatedAt := now);
    }

    /** The rest of `run_scan` for a clean outcome. */
    method Promote(move: MoveOutcome, now: nat)
      requires scan.Job?
      modifies this
      ensures var it := old(Rows());
              Rows() == if move.MoveOk? then Promoted(it.(objects := Moved(it.objects)), now)
                        else PromotionFailed(it.(objects := if move.copied then it.objects + {Accepted} else it.objects), now)
    {
      verdicts := verdicts + [Clean];
      if move.MoveOk? {
        objects, area := objects - {Quarantine} + {Accepted}, Accepted;
        scan, status := scan.(status := SUCCEEDED, updatedAt := now), ACCEPTED;
      } else {
        objects := if move.copied then objects + {Accepted} else objects;
        scan, status := scan.(status := FAILED, updatedAt := now), SCAN_FAILED;
      }
    }

    method RunScan(view: Status, now: nat, env: Env) returns (end: End)
      modifies this
      ensures (Rows(), end) == ScanStage(old(Rows()), view, now, env)
      ensures ScanOutcome(old(Rows()), now, env, Rows(), end)
    {
      ScanSpelledOut(Rows(), view, now, env);
      var grant := Open(Scan, view, now);
      if !grant.Granted? {
        return Raised(grant);
      }
      var result := if area in objects then env.scan else env.readError;
      if result != Clean {
        KeepInQuarantine(result, now);
        return Stop;
      }
      Promote(env.move, now);
      return if env.move.MoveOk? then Continue else Stop;
    }

    method CommitExtraction(batch: set<Claim>, now: nat)
      requires extract.Job?
      modifies this`extract, this`status, this`claims, this`batches
      ensures Rows() == ExtractionCommitted(old(Rows()), batch, now)
    {
      claims, batches := claims + batch, batches + [batch];
      extract, status := extract.(status := SUCCEEDED, updatedAt := now), EXTRACTED;
    }

    method FailExtraction(mismatch: bool, now: nat)
      requires extract.Job?
      modifies this`extract, this`status
      ensures Rows() == ExtractionFailed(old(Rows()), mismatch, now)
    {
      extract := extract.(status := FAILED, updatedAt := now);
      status := if mismatch then INTEGRITY_MISMATCH else EXTRACTION_FAILED;
    }

    method RunExtract(view: Status, now: nat, env: Env) returns (end: End)
      modifies this
      ensures (Rows(), end) == ExtractStage(old(Rows()), view, now, env)
      ensures ExtractOutcome(old(Rows()), now, env, Rows(), end)
    {
      ExtractSpelledOut(Rows(), view, now, env);
      var grant := Open(Extract, view, now);
      if !grant.Granted? {
        return Raised(grant);
      }
      if area !in objects || !env.hashMatches || env.extraction.None? {
        FailExtraction(area in objects && !env.hashMatches, now);
        return Stop;
      }
      CommitExtraction(env.extraction.value, now);
      return Continue;
    }

    method RunResolve(view: Status, now: nat, env: Env) returns (end: End)
      modifies this
      ensures (Rows(), end) == ResolveStage(old(Rows()), view, now, env)
      ensures ResolveOutcome(old(Rows()), now, env, Rows(), end)
    {
      ResolveSpelledOut(Rows(), view, now, env);
      var grant := Open(Resolve, view, now);
      if !grant.Granted? {
        return Raised(grant);
      }
      if env.resolution.None? {
        resolve, status := resolve.(status := FAILED, updatedAt := now), EXTRACTED;
        return Stop;
      }
      resolve := resolve.(status := SUCCEEDED, updatedAt := now);
      status := if env.resolution.value then HITL else GRAPH_PROJECTED;
      return Continue;
    }

    /** `process_evidence`. */
    method ProcessEvidence(now: nat, env: Env) returns (end: End)
      modifies this
      ensures (Rows(), end) == ProcessCall(old(Rows()), now, env)
      ensures CallOutcome(old(Rows()), now, env, Rows(), end)
      ensures end == Continue && Admitted(old(status)) ==>
                && (status == HITL <==> env.resolution == Some(true)) && (status == GRAPH_PROJECTED <==> env.resolution == Some(false))
      ensures forall silent | ItemOk(old(Rows()), silent) :: ItemOk(Rows(), StillOpen(Rows(), silent))
    {
      ghost var it := Rows();
      end := RunStages(now, env);
      CallSpelledOut(it, now, env);
      if end == Continue && Admitted(it.status) {
        CallEnds(it, now, env, Rows());
      }
      forall silent | ItemOk(it, silent) ensures ItemOk(Rows(), StillOpen(Rows(), silent)) {
        CallKeeps(it, silent, now, env);
      }
    }

    /** The guarded stages in order. */
    method RunStages(now: nat, env: Env) returns (end: End)
      modifies this
      ensures (Rows(), end) == ProcessCall(old(Rows()), now, env)
    {
      if Blocked(status) {
        return Refused;
      }
      end := Continue;
      if status in {QUARANTINED, SCAN_FAILED, SCAN_TIMEOUT, SCANNER_UNAVAILABLE, MALWARE_SCANNING} {
        end := RunScan(status, now, env);
        if end != Continue {
          return;
        }
      }
      if status in {ACCEPTED, EXTRACTION_FAILED, PROCESSING} {
        end := RunExtract(status, now, env);
        if end != Continue {
          return;
        }
      }
      if status in {EXTRACTED, ENTITY_CANDIDATES} {
        end := RunResolve(status, now, env);
      }
    }

    /** `mark_active` on this item, given whether its case has undecided candidates. */
    method MarkActive(pending: bool)
      modifies this`status
      ensures Rows() == Activated(old(Rows()), pending)
      ensures status == if old(status) !in {HITL, GRAPH_PROJECTED, ACTIVE} then old(status) else if pending then HITL else ACTIVE
      ensures Rows() == old(Rows()).(status := status)
      ensures forall silent | ItemOk(old(Rows()), silent) :: ItemOk(Rows(), silent)
    {
      if status in {HITL, GRAPH_PROJECTED, ACTIVE} {
        status := if pending then HITL else ACTIVE;
      }
    }

    /** `verify` and the read gateway: a missing or altered object flags the item. */
    method Verify(hashMatches: bool) returns (ok: bool)
      modifies this`status
      ensures ok == (area in objects && hashMatches)
      ensures Rows() == if ok then old(Rows()) else old(Rows()).(status := INTEGRITY_MISMATCH)
      ensures forall silent | ItemOk(old(Rows()), silent) :: ItemOk(Rows(), silent)
    {
      ok := area in objects && hashMatches;
      if !ok && status != INTEGRITY_MISMATCH {
        status := INTEGRITY_MISMATCH;
      }
    }

    /** The read gateway and the download route: only the context gateway looks at the status before the object. */
    method ReadContent(access: Access, hashMatches: bool) returns (served: bool)
      modifies this`status
      ensures served == Serves(old(Rows()), access, hashMatches)
      ensures served <==> && area in objects && hashMatches
                          && (access == DownloadBy(true) ||
                              old(status) !in {QUARANTINED, MALWARE_SCANNING, INFECTED, SCAN_FAILED, SCAN_TIMEOUT, SCANNER_UNAVAILABLE, INTEGRITY_MISMATCH})
      ensures Rows() == if (access.InContext? && Withheld(old(status))) || (area in objects && hashMatches) then old(Rows())
                        else old(Rows()).(status := INTEGRITY_MISMATCH)
      ensures forall silent | ItemOk(old(Rows()), silent) :: ItemOk(Rows(), silent)
    {
      if access.InContext? && Withheld(status) {
        return false;
      }
      var ok := Verify(hashMatches);
      if !ok {
        return false;
      }
      return !(access.DownloadBy? && Withheld(status) && !access.admin);
    }
  }
}
