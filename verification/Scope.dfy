/** The recursive scope machine: phases with checking constructors, and guarded transitions. */
module Scope {
  import opened Prelude
  import opened Children
  import PostMerge

  type PostState = PostMerge.State

  datatype ScopeId = ScopeId(path: seq<string>, digest: string)

  datatype Plan = Plan(ordered: seq<Group>, scope: ScopeId, parallel: seq<Child>)

  datatype ResultKey = WorkerResult(child: string) | LeafResult(child: string)

  /** `groups` is the pending dictionary by order, in insertion order. */
  datatype Run = Run(
    order: int, groups: seq<Group>, scope: ScopeId, parallel: seq<Child>,
    completed: map<string, Child>, post: map<string, PostState>,
    intents: map<string, string>, results: map<ResultKey, string>, lanes: map<string, string>)

  datatype Role = Root | NonRoot
  datatype ProofKey = RootBranch | LocalCheckout | AggregatePr | HeadSha | BaseSha | ParentBranch | Handoff

  datatype Phase =
    | Planning(plan: Plan)
    | Running(run: Run)
    | AllMerged(scope: ScopeId, confirmed: map<string, PostState>)
    | Finalizing(role: Role, scope: ScopeId)
    | Done(scope: ScopeId, proof: map<ProofKey, string>)
    | PRFiled(scope: ScopeId, proof: map<ProofKey, string>)
    | Failed(reason: string, path: seq<string>)
    | Parked(cause: string, diagnostic: string, path: seq<string>)

  datatype Event =
    | PlanLoaded(scope: ScopeId)
    | StageReleased(order: int, childIds: seq<string>)
    | Heartbeat
    | Observed(child: string)
    | ChildTerminal(child: string, outcome: string, digest: Option<string>)
    | PostMergeStep(step: PostMerge.Event)
    | WorkerCompleted(child: string, result: string)
    | LeafCompleted(child: string, result: string)
    | FinalizationRequested(role: Role)
    | FinalizationComplete(role: Role, proof: map<ProofKey, string>)
    | FailureRecorded(reason: string)
    | ParkRequested(cause: string, diagnostic: string)

  /** `Illegal` is a transition refusing its event; `Invalid` is a phase constructor refusing its fields. */
  datatype Refusal = Illegal | Invalid

  type Outcome = Result<Phase, Refusal>

  // ---- shared checks

  predicate ValidScope(s: ScopeId) {
    |s.path| > 0 && (forall name :: name in s.path ==> !Empty(name)) && !Empty(s.digest)
  }

  function Flatten(groups: seq<Group>): (r: seq<Child>) {
    if groups == [] then [] else groups[0].records + Flatten(groups[1..])
  }

  /** Orders are contiguous from `first`, and every group is non-empty and free of duplicates. */
  predicate ContiguousFrom(groups: seq<Group>, first: int) {
    forall i :: 0 <= i < |groups| ==>
                  groups[i].order == first + i && groups[i].records != [] && Unique(groups[i].records)
  }

  function Normalized(groups: seq<Group>): (r: seq<Group>)
    ensures |r| == |groups|
  {
    if groups == [] then []
    else [Group(groups[0].order, SortedRecords(groups[0].records))] + Normalized(groups[1..])
  }

  // ---- the planning constructor

  predicate WellFormedPlan(p: Plan) {
    && ValidScope(p.scope)
    && (forall c :: c in p.parallel ==> !c.kind.SubTL?)
    && (forall c :: c in Flatten(p.ordered) ==> c.kind.SubTL?)
    && ContiguousFrom(p.ordered, 1)
    && Unique(p.parallel + Flatten(p.ordered))
  }

  function NormalizedPlan(raw: Plan): Plan {
    Plan(Normalized(raw.ordered), raw.scope, SortedRecords(raw.parallel))
  }

  lemma BadGroupIsRefused(p: Plan, g: Group)
    requires g in p.ordered
    requires g.order <= 0 || exists c :: c in g.records && !c.kind.SubTL?
    ensures !WellFormedPlan(p)
  {
    FlattenMembers(p.ordered, g);
  }

  /** Checks and normalizes the declared children group by group. */
  method MakePlanning(raw: Plan) returns (r: Result<Plan, Refusal>)
    ensures r == if WellFormedPlan(NormalizedPlan(raw)) then Ok(NormalizedPlan(raw)) else Err(Invalid)
  {
    ghost var plan := NormalizedPlan(raw);
    var parallel := SortedRecords(raw.parallel);
    if !ValidScope(raw.scope) || exists c :: c in parallel && c.kind.SubTL? { return Err(Invalid); }
    var ordered: seq<Group> := [];
    for i := 0 to |raw.ordered|
      invariant ordered == plan.ordered[..i]
      invariant forall c :: c in Flatten(ordered) ==> c.kind.SubTL?
    {
      var group := Group(raw.ordered[i].order, SortedRecords(raw.ordered[i].records));
      NormalizedAt(raw.ordered, i);
      if group.order <= 0 || exists c :: c in group.records && !c.kind.SubTL? {
        BadGroupIsRefused(plan, group);
        return Err(Invalid);
      }
      FlattenLast(ordered, group);
      ordered := ordered + [group];
    }
    assert ordered == plan.ordered;
    if !ContiguousFrom(ordered, 1) || !Unique(parallel + Flatten(ordered)) { return Err(Invalid); }
    r := Ok(Plan(ordered, raw.scope, parallel));
  }

  lemma {:induction false} NormalizedAt(groups: seq<Group>, i: nat)
    requires i < |groups|
    ensures Normalized(groups)[i] == Group(groups[i].order, SortedRecords(groups[i].records))
  {
    if i > 0 { NormalizedAt(groups[1..], i - 1); }
  }

  lemma {:induction false} FlattenMembers(groups: seq<Group>, g: Group)
    requires g in groups
    ensures forall c :: c in g.records ==> c in Flatten(groups)
  {
    if groups[0] != g { FlattenMembers(groups[1..], g); }
  }

  lemma {:induction false} FlattenLast(groups: seq<Group>, g: Group)
    ensures Flatten(groups + [g]) == Flatten(groups) + g.records
  {
    if groups == [] {
      assert Flatten([g]) == g.records + Flatten([]);
    } else {
      FlattenLast(groups[1..], g);
      assert (groups + [g])[1..] == groups[1..] + [g];
    }
  }

  // ---- the running constructor

  function DefaultPost(c: Child): PostState {
    PostMerge.State(if c.kind.Worker? then PostMerge.NotRequired else PostMerge.NotStarted, PostMerge.NOTHING)
  }

  /** A fresh post-merge state for every record that has none yet. */
  function Defaulted(records: seq<Child>, post: map<string, PostState>): (r: map<string, PostState>)
    ensures r.Keys == post.Keys + Ids(records)
    ensures forall k :: k in post ==> r[k] == post[k]
  {
    if records == [] then post
    else
      var c := records[0];
      assert Ids(records) == {c.id} + Ids(records[1..]);
      Defaulted(records[1..], if c.id in post then post else post[c.id := DefaultPost(c)])
  }

  /** The constructor's loop over all records. */
  method FillPost(records: seq<Child>, given: map<string, PostState>) returns (post: map<string, PostState>)
    ensures post == Defaulted(records, given)
  {
    post := given;
    for i := 0 to |records|
      invariant Defaulted(records[i..], post) == Defaulted(records, given)
    {
      var c := records[i];
      if c.id !in post { post := post[c.id := DefaultPost(c)]; }
    }
  }

  /** What a completed record must have on file. */
  predicate CompletionProven(c: Child, s: PostState) {
    match c.kind
    case Worker => s.phase.NotRequired? && PostMerge.Has(s.evidence.results.worker)
    case Leaf => s.phase.Complete? || (s.phase.NotRequired? && PostMerge.Has(s.evidence.results.leaf))
    case SubTL => s.phase.Complete? || (s.phase.NotRequired? && c.aggregateDeclined)
  }

  predicate WellFormedRun(r: Run) {
    var pending := r.parallel + Flatten(r.groups);
    && ValidScope(r.scope) && r.order >= 0
    && ContiguousFrom(r.groups, if r.order == 0 then 1 else r.order)
    && (r.order == 0 ==> r.parallel != [])
    && (r.order > 0 ==> r.groups != [])
    && Unique(pending)
    && (forall k, l :: k in r.completed && l in r.completed && r.completed[k].id == r.completed[l].id ==> k == l)
    && (forall k, c :: k in r.completed && c in pending ==> r.completed[k].id != c.id)
    && r.post.Keys == Ids(pending) + (set k | k in r.completed :: r.completed[k].id)
    && (forall k :: k in r.completed ==> k in r.post && CompletionProven(r.completed[k], r.post[k]))
  }

  /** Groups normalized, and a fresh post-merge state for every pending record that has none. */
  function WithDefaults(r: Run): Run {
    var parallel := SortedRecords(r.parallel);
    var groups := Normalized(r.groups);
    r.(parallel := parallel, groups := groups, post := Defaulted(parallel + Flatten(groups), r.post))
  }

  /** The running constructor; a completed record without a state is refused. */
  function MakeRunning(r: Run): Outcome {
    if WellFormedRun(WithDefaults(r)) then Ok(Running(WithDefaults(r))) else Err(Invalid)
  }

  // ---- the all-merged constructor

  /** A confirmation carries a finished post-merge state or a recorded result. */
  predicate Confirmed(s: PostState) {
    var results := s.evidence.results;
    s.phase.Complete?
    || (s.phase.NotRequired?
        && (PostMerge.Has(results.worker) || PostMerge.Has(results.leaf) || results.aggregateDeclined))
  }

  function MakeAllMerged(scope: ScopeId, confirmed: map<string, PostState>): Outcome {
    if ValidScope(scope) && forall k :: k in confirmed ==> Confirmed(confirmed[k])
    then Ok(AllMerged(scope, confirmed)) else Err(Invalid)
  }

  // ---- the constructors of the finishing and stopped phases

  predicate HasProof(proof: map<ProofKey, string>, keys: set<ProofKey>) {
    forall k :: k in keys ==> k in proof && !Empty(proof[k])
  }

  const ROOT_PROOF := {RootBranch, LocalCheckout}
  const HANDOFF_PROOF := {AggregatePr, HeadSha, BaseSha, ParentBranch, Handoff}

  function MakeFinalizing(role: Role, scope: ScopeId): Outcome {
    if ValidScope(scope) then Ok(Finalizing(role, scope)) else Err(Invalid)
  }

  function MakeDone(scope: ScopeId, proof: map<ProofKey, string>): Outcome {
    if ValidScope(scope) then Ok(Done(scope, proof)) else Err(Invalid)
  }

  /** The five texts of a handoff are fields of the filed phase, and each is checked. */
  function MakePRFiled(scope: ScopeId, proof: map<ProofKey, string>): Outcome {
    if HasProof(proof, HANDOFF_PROOF) && ValidScope(scope) then Ok(PRFiled(scope, proof)) else Err(Invalid)
  }

  /** The stopped phases keep the path alone; a constant stands in for the digest they do not keep. */
  function MakeFailed(reason: string, path: seq<string>): Outcome {
    if !Empty(reason) && ValidScope(ScopeId(path, "failure")) then Ok(Failed(reason, path)) else Err(Invalid)
  }

  function MakeParked(cause: string, diagnostic: string, path: seq<string>): Outcome {
    if !Empty(cause) && !Empty(diagnostic) && ValidScope(ScopeId(path, "park"))
    then Ok(Parked(cause, diagnostic, path)) else Err(Invalid)
  }

  // ---- releasing a plan

  function IdList(s: seq<Child>): seq<string> {
    if s == [] then [] else [s[0].id] + IdList(s[1..])
  }

  function Bindings(s: seq<Child>, laneIds: bool): map<string, string> {
    if s == [] then map[]
    else
      var value := if laneIds then s[0].laneId else s[0].dispatchIntent;
      var rest := Bindings(s[1..], laneIds);
      if value.Some? && s[0].id !in rest then rest[s[0].id := value.value] else rest
  }

  function RunningFromPlan(p: Plan, order: int): Outcome {
    var records := p.parallel + Flatten(p.ordered);
    MakeRunning(Run(order, p.ordered, p.scope, p.parallel, map[], map[],
                    Bindings(records, false), map[], Bindings(records, true)))
  }

  /** Release only the first ordered stage, or the direct parallel block. */
  function ReleaseFirstStage(p: Plan, order: int, childIds: seq<string>): Outcome {
    if p.ordered != [] then
      if order != p.ordered[0].order || childIds != IdList(p.ordered[0].records) then Err(Illegal)
      else RunningFromPlan(p, order)
    else if order != 0 || childIds != IdList(p.parallel) then Err(Illegal)
    else if p.parallel == [] then MakeAllMerged(p.scope, map[])
    else RunningFromPlan(p, 0)
  }

  // ---- completing children

  /** The group of an order; empty when the dictionary lacks it. */
  function GroupAt(groups: seq<Group>, order: int): seq<Child> {
    if groups == [] then [] else if groups[0].order == order then groups[0].records else GroupAt(groups[1..], order)
  }

  /** The record, if it is in the parallel block or in the current barrier. */
  function ActiveRecord(r: Run, id: string): Option<Child> {
    Find(r.parallel + GroupAt(r.groups, r.order), id)
  }

  function RemoveFrom(groups: seq<Group>, id: string): seq<Group> {
    if groups == [] then []
    else [Group(groups[0].order, Without(groups[0].records, {id}))] + RemoveFrom(groups[1..], id)
  }

  function DropOrder(groups: seq<Group>, order: int): seq<Group> {
    if groups == [] then []
    else if groups[0].order == order then DropOrder(groups[1..], order)
    else [groups[0]] + DropOrder(groups[1..], order)
  }

  function MinOrder(groups: seq<Group>): int
    requires groups != []
  {
    if |groups| == 1 then groups[0].order
    else
      var rest := MinOrder(groups[1..]);
      if groups[0].order <= rest then groups[0].order else rest
  }

  /** Remove one completed child and open the next barrier when ready; `next` holds the new books. */
  function RemoveActive(r: Run, child: Child, next: Run): Outcome {
    if exists c :: c in r.parallel && c.id == child.id then
      var remaining := Without(r.parallel, {child.id});
      if remaining != [] then MakeRunning(next.(parallel := remaining))
      else if r.order != 0 then MakeRunning(next.(parallel := []))
      else if r.groups != [] then MakeRunning(next.(order := MinOrder(r.groups), parallel := []))
      else MakeAllMerged(r.scope, next.post)
    else
      var pending := RemoveFrom(r.groups, child.id);
      var rest := DropOrder(pending, r.order);
      if GroupAt(pending, r.order) != [] then MakeRunning(next.(groups := pending))
      else if rest != [] then MakeRunning(next.(order := MinOrder(rest), groups := rest))
      else if r.parallel != [] then MakeRunning(next.(order := 0, groups := []))
      else MakeAllMerged(r.scope, next.post)
  }

  /** The books after a child completed with this post-merge state. */
  function Book(r: Run, child: Child, state: PostState): Run {
    r.(completed := r.completed[child.id := child], post := r.post[child.id := state])
  }

  /** A worker's result is evidence beside whatever its state already carries. */
  function WorkerDone(s: PostState, digest: string): PostState {
    PostMerge.State(PostMerge.NotRequired, s.evidence.(results := s.evidence.results.(worker := Some(digest))))
  }

  function LeafDone(s: PostState, digest: string): PostState {
    PostMerge.State(PostMerge.NotRequired, s.evidence.(results := s.evidence.results.(leaf := Some(digest))))
  }

  function CompleteWorker(r: Run, id: string, digest: string): Outcome {
    var found := ActiveRecord(r, id);
    if found.None? || !found.value.kind.Worker? || Empty(digest) || id !in r.post then Err(Illegal)
    else
      var next := Book(r, found.value, WorkerDone(r.post[id], digest));
      RemoveActive(r, found.value, next.(results := r.results[WorkerResult(id) := digest]))
  }

  function CompleteLeaf(r: Run, id: string, digest: string): Outcome {
    var found := ActiveRecord(r, id);
    if found.None? || !found.value.kind.Leaf? || Empty(digest) || id !in r.post then Err(Illegal)
    else
      var next := Book(r, found.value, LeafDone(r.post[id], digest));
      RemoveActive(r, found.value, next.(results := r.results[LeafResult(id) := digest]))
  }

  /** Advance one active pull-request child through the post-merge machine. */
  function PostMergeTransition(r: Run, e: PostMerge.Event): Outcome {
    if e.child !in r.post then Err(Illegal)
    else
      var current := r.post[e.child];
      var found := ActiveRecord(r, e.child);
      if current.phase.Complete? then
        if PostMerge.Advance(current, e) == Ok(current) then Ok(Running(r)) else Err(Illegal)
      else if found.None? || found.value.kind.Worker? then Err(Illegal)
      else match PostMerge.Advance(current, e)
        case Err(_) => Err(Illegal)
        case Ok(state) =>
          if state.phase.Complete? then RemoveActive(r, found.value, Book(r, found.value, state))
          else MakeRunning(r.(post := r.post[e.child := state]))
  }

  predicate Succeeded(outcome: string) {
    outcome == "success" || outcome == "completed"
  }

  function TerminalObserved(r: Run, id: string, outcome: string, digest: Option<string>): Outcome {
    var found := ActiveRecord(r, id);
    if found.None? || !Succeeded(outcome) then Err(Illegal)
    else if !found.value.kind.Worker? then Ok(Running(r))
    else if !PostMerge.Has(digest) then Err(Illegal)
    else CompleteWorker(r, id, digest.value)
  }

  function RunningTransition(r: Run, e: Event): Outcome {
    match e
    case Heartbeat => Ok(Running(r))
    case Observed(id) => if ActiveRecord(r, id).Some? then Ok(Running(r)) else Err(Illegal)
    case ChildTerminal(id, outcome, digest) => TerminalObserved(r, id, outcome, digest)
    case PostMergeStep(step) => PostMergeTransition(r, step)
    case WorkerCompleted(id, result) => CompleteWorker(r, id, result)
    case LeafCompleted(id, result) => CompleteLeaf(r, id, result)
    case _ => Err(Illegal)
  }

  // ---- the whole machine

  predicate Automatic(p: Phase) {
    p.Planning? || p.Running? || p.AllMerged? || p.Finalizing?
  }

  function ScopeOf(p: Phase): ScopeId
    requires Automatic(p)
  {
    match p
    case Planning(plan) => plan.scope
    case Running(run) => run.scope
    case AllMerged(scope, _) => scope
    case Finalizing(_, scope) => scope
  }

  /** Apply one scope event; terminal phases have no automatic arms. */
  function Transition(p: Phase, e: Event): Outcome {
    if e.PlanLoaded? then
      if p.Planning? && e.scope == p.plan.scope then Ok(p) else Err(Illegal)
    else if e.FailureRecorded? && Automatic(p) then
      if Empty(e.reason) then Err(Illegal) else MakeFailed(e.reason, ScopeOf(p).path)
    else if e.ParkRequested? && Automatic(p) then
      if Empty(e.cause) || Empty(e.diagnostic) then Err(Illegal)
      else MakeParked(e.cause, e.diagnostic, ScopeOf(p).path)
    else match p
      case Planning(plan) =>
        if e.StageReleased? then ReleaseFirstStage(plan, e.order, e.childIds) else Err(Illegal)
      case Running(run) => RunningTransition(run, e)
      case AllMerged(scope, _) =>
        if e.FinalizationRequested? then MakeFinalizing(e.role, scope) else Err(Illegal)
      case Finalizing(role, scope) =>
        if !e.FinalizationComplete? || e.role != role then Err(Illegal)
        else if role.Root? then
          if HasProof(e.proof, ROOT_PROOF) then MakeDone(scope, e.proof) else Err(Illegal)
        else if HasProof(e.proof, HANDOFF_PROOF) then
          MakePRFiled(scope, map k | k in HANDOFF_PROOF :: e.proof[k])
        else Err(Illegal)
      case _ => Err(Illegal)
  }
}
