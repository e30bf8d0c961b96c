/**
 Every run of any number of API calls and workers on one evidence item, interleaved at database
 commits: stale status reads, redeliveries, adapter failures, crashes, lease reclaims, object loss,
 integrity checks and `mark_active` at any moment.

 The one assumption is the one the lease makes: a worker that holds a stage finishes or dies before
 its lease runs out (`InTime`).
*/
module PipelineRuns {
  import opened Common
  import opened Pipeline

  type Worker = nat

  /**
   Where a call stands between two commits. `view` is the status it loaded, possibly long ago.
   `Promoting` has moved the object and not yet committed.
  */
  datatype Pc = Idle | Ready(view: Status) | Scanning | Promoting | Extracting | Resolving {
    function Holds(): Option<Stage> {
      match this
      case Idle => None
      case Ready(_) => None
      case Scanning => Some(Scan)
      case Promoting => Some(Scan)
      case Extracting => Some(Extract)
      case Resolving => Some(Resolve)
    }
  }

  /**
   `silent` remembers the stages whose current attempt was opened by a call that left the row's status
   unwritten although it differed from the busy status.
  */
  datatype State = State(item: Item, workers: map<Worker, Pc>, now: nat, silent: set<Stage>) {
    function At(w: Worker): Pc { if w in workers then workers[w] else Idle }
    function Put(w: Worker, pc: Pc): State { this.(workers := workers[w := pc]) }
  }

  datatype Action =
    | Load(w: Worker)
    | Open(w: Worker)
    | ScanEnds(w: Worker, result: ScanResult)
    | MoveObject(w: Worker)
    | MoveFails(w: Worker, copied: bool)
    | CommitPromotion(w: Worker)
    | ExtractEnds(w: Worker, outcome: ExtractOutcome)
    | ResolveEnds(w: Worker, pending: Option<bool>)
    | Die(w: Worker)
    | Wait(seconds: nat)
    | FlagMismatch
    | MarkActive(undecided: bool)
    | LoseObject(area: Area)

  datatype ExtractOutcome = Claims(batch: set<Claim>) | HashMismatch | Failure

  const INITIAL := State(UPLOADED_ITEM, map[], 0, {})

  /** Every holder's lease still runs at time `t`. */
  predicate InTime(s: State, t: int) {
    forall w | w in s.workers && s.workers[w].Holds().Some? ::
      t - s.item.JobOf(s.workers[w].Holds().value).Updated() < JOB_LEASE_S
  }

  function BusyPc(stage: Stage): Pc {
    match stage
    case Scan => Scanning
    case Extract => Extracting
    case Resolve => Resolving
  }

  /** One step, if it can be taken. */
  function Next(s: State, a: Action): Option<State> {
    match a
    case Load(w) =>
      if s.At(w) != Idle then None
      else if Blocked(s.item.status) then Some(s) else Some(s.Put(w, Ready(s.item.status)))
    case Open(w) => if s.At(w).Ready? then Some(Opened(s, w, s.At(w).view)) else None
    case ScanEnds(w, result) =>
      if s.At(w) == Scanning && result != Clean && (result == Infected ==> s.item.area in s.item.objects)
      then Some(s.Put(w, Idle).(item := ScanRejected(s.item, result, s.now), silent := s.silent - {Scan})) else None
    case MoveObject(w) =>
      if s.At(w) == Scanning && s.item.area in s.item.objects
      then Some(s.Put(w, Promoting).(item := s.item.(objects := Moved(s.item.objects)))) else None
    case MoveFails(w, copied) =>
      if s.At(w) == Scanning && s.item.area in s.item.objects
      then Some(s.Put(w, Idle).(item := PromotionFailed(s.item.(objects := if copied then s.item.objects + {Accepted} else s.item.objects), s.now),
                                silent := s.silent - {Scan})) else None
    case CommitPromotion(w) =>
      if s.At(w) == Promoting
      then Some(s.Put(w, Ready(ACCEPTED)).(item := Promoted(s.item, s.now), silent := s.silent - {Scan})) else None
    case ExtractEnds(w, outcome) =>
      if s.At(w) == Extracting && (outcome != Failure ==> s.item.area in s.item.objects)
      then Some(match outcome
                case Claims(batch) => s.Put(w, Ready(EXTRACTED)).(item := ExtractionCommitted(s.item, batch, s.now), silent := s.silent - {Extract})
                case HashMismatch => s.Put(w, Idle).(item := ExtractionFailed(s.item, true, s.now), silent := s.silent - {Extract})
                case Failure => s.Put(w, Idle).(item := ExtractionFailed(s.item, false, s.now), silent := s.silent - {Extract}))
      else None
    case ResolveEnds(w, pending) =>
      if s.At(w) == Resolving
      then Some(s.Put(w, Idle).(item := if pending.Some? then Resolved(s.item, pending.value, s.now) else ResolutionFailed(s.item, s.now),
                                silent := s.silent - {Resolve})) else None
    case Die(w) => Some(s.Put(w, Idle))
    case Wait(seconds) => if InTime(s, s.now + seconds) then Some(s.(now := s.now + seconds)) else None
    case FlagMismatch => Some(s.(item := s.item.(status := INTEGRITY_MISMATCH)))
    case MarkActive(undecided) => Some(s.(item := Activated(s.item, undecided)))
    case LoseObject(area) => Some(s.(item := s.item.(objects := s.item.objects - {area})))
  }

  /** The guard of `_job` and the commit that opens the stage the loaded status calls for. */
  function Opened(s: State, w: Worker, view: Status): State {
    match Dispatch(view)
    case None => s.Put(w, Idle)
    case Some(stage) =>
      var grant := Acquire(s.item.JobOf(stage), s.now);
      if !grant.Granted? then s.Put(w, Idle)
      else s.Put(w, BusyPc(stage)).(
        item := Started(s.item, stage, view, grant.job),
        silent := Silenced(s.item, s.silent, stage, view))
  }

  function Run(s: State, actions: seq<Action>): Option<State> {
    if actions == [] then Some(s)
    else
      var before := Run(s, actions[..|actions| - 1]);
      if before.None? then None else Next(before.value, actions[|actions| - 1])
  }

  // ---------------------------------------------------------------- what every state keeps

  /** Each worker's reading is consistent, a held stage is RUNNING under a live lease, and has one holder. */
  predicate WorkersOk(s: State) {
    && InTime(s, s.now)
    && (forall w | w in s.workers :: s.workers[w].Ready? ==> SeenOk(s.item, s.workers[w].view))
    && (forall w | w in s.workers && s.workers[w].Holds().Some? :: s.item.JobOf(s.workers[w].Holds().value).Is(RUNNING))
    && (forall v, w | v in s.workers && w in s.workers && s.workers[v].Holds().Some? :: s.workers[v].Holds() == s.workers[w].Holds() ==> v == w)
  }

  predicate Inv(s: State) {
    ItemOk(s.item, s.silent) && WorkersOk(s)
  }

  // ---------------------------------------------------------------- preservation

  /**
   A step of worker `w` that may rewrite the job of stage `k`, which nobody else holds, and after which
   every old reading is still good, keeps `WorkersOk`.
  */
  lemma OthersUndisturbed(s: State, t: State, w: Worker, pc: Pc, k: Stage)
    requires WorkersOk(s)
    requires t.workers == s.workers[w := pc] && t.now == s.now
    requires forall view :: SeenOk(s.item, view) ==> SeenOk(t.item, view)
    requires pc.Ready? ==> SeenOk(t.item, pc.view)
    requires forall j | j != k :: s.item.JobOf(j) == t.item.JobOf(j)
    requires forall v | v in s.workers && v != w :: s.workers[v].Holds() != Some(k)
    requires pc.Holds().Some? ==> pc.Holds() == Some(k) && t.item.JobOf(k).Is(RUNNING) && t.now - t.item.JobOf(k).Updated() < JOB_LEASE_S
    ensures WorkersOk(t)
  {
  }

  /** A worker that lets go of what it has, or only reads the row. */
  lemma LetsGo(s: State, w: Worker, pc: Pc)
    requires Inv(s) && pc.Holds().None? && (pc.Ready? ==> SeenOk(s.item, pc.view))
    ensures Inv(s.Put(w, pc))
  {
  }

  /** The guard of `_job` never lets a second worker into a stage that is held. */
  lemma GrantedIsFree(s: State, stage: Stage, v: Worker)
    requires WorkersOk(s) && Acquire(s.item.JobOf(stage), s.now).Granted? && v in s.workers
    ensures s.workers[v].Holds() != Some(stage)
  {
  }

  lemma OpenKeeps(s: State, w: Worker)
    requires Inv(s) && s.At(w).Ready?
    ensures Inv(Opened(s, w, s.At(w).view))
  {
    var view := s.workers[w].view;
    var t := Opened(s, w, view);
    if Dispatch(view).None? || !Acquire(s.item.JobOf(Dispatch(view).value), s.now).Granted? {
      LetsGo(s, w, Idle);
    } else {
      var stage := Dispatch(view).value;
      forall v | v in s.workers ensures s.workers[v].Holds() != Some(stage) {
        GrantedIsFree(s, stage, v);
      }
      OpenItem(s.item, s.silent, stage, view, s.now);
      OthersUndisturbed(s, t, w, BusyPc(stage), stage);
    }
  }

  lemma ScanEndKeeps(s: State, w: Worker, result: ScanResult)
    requires Inv(s) && Next(s, ScanEnds(w, result)).Some?
    ensures Inv(Next(s, ScanEnds(w, result)).value)
  {
    assert s.workers[w].Holds() == Some(Scan);
    ScanCloses(s.item, s.silent, s.now);
    OthersUndisturbed(s, Next(s, ScanEnds(w, result)).value, w, Idle, Scan);
  }

  lemma MoveFailureKeeps(s: State, w: Worker, copied: bool)
    requires Inv(s) && Next(s, MoveFails(w, copied)).Some?
    ensures Inv(Next(s, MoveFails(w, copied)).value)
  {
    assert s.workers[w].Holds() == Some(Scan);
    var t := Next(s, MoveFails(w, copied)).value;
    ScanCloses(s.item.(objects := t.item.objects), s.silent, s.now);
    OthersUndisturbed(s, t, w, Idle, Scan);
  }

  lemma PromotionKeeps(s: State, w: Worker)
    requires Inv(s) && Next(s, CommitPromotion(w)).Some?
    ensures Inv(Next(s, CommitPromotion(w)).value)
  {
    assert s.workers[w].Holds() == Some(Scan);
    ScanCloses(s.item, s.silent, s.now);
    OthersUndisturbed(s, Next(s, CommitPromotion(w)).value, w, Ready(ACCEPTED), Scan);
  }

  lemma ExtractStepKeeps(s: State, a: Action)
    requires Inv(s) && Next(s, a).Some? && a.ExtractEnds?
    ensures Inv(Next(s, a).value)
  {
    var t, w := Next(s, a).value, a.w;
    assert s.workers[w].Holds() == Some(Extract);
    ExtractCloses(s.item, s.silent, s.now);
    OthersUndisturbed(s, t, w, if a.outcome.Claims? then Ready(EXTRACTED) else Idle, Extract);
  }

  lemma ResolveStepKeeps(s: State, a: Action)
    requires Inv(s) && Next(s, a).Some? && a.ResolveEnds?
    ensures Inv(Next(s, a).value)
  {
    var t, w := Next(s, a).value, a.w;
    assert s.workers[w].Holds() == Some(Resolve);
    ResolveCloses(s.item, s.silent, s.now);
    OthersUndisturbed(s, t, w, Idle, Resolve);
  }

  /** Steps that leave the path and the job rows alone. */
  lemma RowStepKeeps(s: State, it: Item)
    requires Inv(s) && ItemOk(it, s.silent)
    requires it.area == s.item.area && it.scan == s.item.scan && it.extract == s.item.extract && it.resolve == s.item.resolve
    ensures Inv(s.(item := it))
  {
    assert forall v :: SeenOk(s.item, v) ==> SeenOk(it, v);
  }

  lemma OutsideStepKeeps(s: State, a: Action)
    requires Inv(s) && Next(s, a).Some? && (a.FlagMismatch? || a.MarkActive? || a.LoseObject?)
    ensures Inv(Next(s, a).value)
  {
    RowStepKeeps(s, Next(s, a).value.item);
  }

  lemma MoveStepKeeps(s: State, a: Action)
    requires Inv(s) && Next(s, a).Some? && a.MoveObject?
    ensures Inv(Next(s, a).value)
  {
    var t := Next(s, a).value;
    assert s.workers[a.w].Holds() == Some(Scan);
    OthersUndisturbed(s, t, a.w, Promoting, Scan);
  }

  lemma StepKeeps(s: State, a: Action)
    requires Inv(s) && Next(s, a).Some?
    ensures Inv(Next(s, a).value)
  {
    match a
    case Load(w) => if !Blocked(s.item.status) { LetsGo(s, w, Ready(s.item.status)); }
    case Open(w) => OpenKeeps(s, w);
    case ScanEnds(w, result) => ScanEndKeeps(s, w, result);
    case MoveObject(_) => MoveStepKeeps(s, a);
    case MoveFails(w, copied) => MoveFailureKeeps(s, w, copied);
    case CommitPromotion(w) => PromotionKeeps(s, w);
    case ExtractEnds(_, _) => ExtractStepKeeps(s, a);
    case ResolveEnds(_, _) => ResolveStepKeeps(s, a);
    case Die(w) => LetsGo(s, w, Idle);
    case Wait(_) =>
    case FlagMismatch => OutsideStepKeeps(s, a);
    case MarkActive(_) => OutsideStepKeeps(s, a);
    case LoseObject(_) => OutsideStepKeeps(s, a);
  }

  /** Every state of every run satisfies the invariant. */
  lemma {:induction false} RunKeeps(s: State, actions: seq<Action>)
    requires Inv(s) && Run(s, actions).Some?
    ensures Inv(Run(s, actions).value)
  {
    if actions != [] {
      RunKeeps(s, actions[..|actions| - 1]);
      StepKeeps(Run(s, actions[..|actions| - 1]).value, actions[|actions| - 1]);
    }
  }
}
