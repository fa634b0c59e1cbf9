/** The queue of calls: what is stored of each, what a Batch request is rebuilt from, and how each
    operation on the queue changes it. */
module Calls {
  import opened Rows

  const MAX_SAFE_INTEGER: nat := 9007199254740991

  datatype Payload = Written(op: Operation) | Argument(value: string)

  /** A stored operation row. Only a row with an input path is sent; companions and effects have none. */
  datatype Item = Item(step: nat, path: Option<string>, payload: Payload)

  datatype Target = Stream(key: Key, cursor: nat) | Private(key: Key)

  datatype Acceptance = Acceptance(cursor: nat, result: string, targets: seq<Target>)

  datatype Refusal = Refusal(code: string, message: Option<string>)

  datatype Outcome = Accepted(acceptance: Acceptance) | Rejected(refusal: Refusal)

  datatype Mutation = Mutation(id: nat, name: string, version: nat, descriptor: string, inputs: seq<Item>)

  /** A request without its digest: two requests have one digest exactly when they are equal. */
  datatype Request = Request(batch: nat, materialization: string, mutations: seq<Mutation>)

  datatype Call = Call(
    name: string,
    version: nat,
    descriptor: string,
    items: seq<Item>,
    batch: Option<nat>,
    materialization: Option<string>,
    digest: Option<Request>,
    acceptance: Option<Acceptance>,
    refusal: Option<Refusal>,
    dismissed: bool,
    reconciled: bool)

  datatype EdgeKind = Lifecycle | Sequence

  /** `edges` maps a call and its predecessor to the meaning of the edge; `last` is the last acknowledged Batch. */
  datatype Queue = Queue(
    store: string,
    materialization: string,
    calls: map<nat, Call>,
    edges: map<(nat, nat), EdgeKind>,
    prerequisites: set<(nat, string)>,
    last: nat,
    next: nat)

  datatype MutationResult = MutationResult(id: nat, outcome: Outcome)

  datatype Ack = Ack(store: string, materialization: string, batch: nat, digest: Request, results: seq<MutationResult>)

  datatype Problem =
    | UnknownBatch | ContextMissing | DigestChanged | CounterExhausted
    | InvalidAck | StoreMismatch | UnknownAcknowledged | MembershipMismatch | ReplayDiffers | Skipped | Mismatch
    | TargetMissing
    | UnknownMutation | PossiblySent | RejectionRequired

  datatype Reply<T> = Done(value: T) | Failed(problem: Problem)

  // ---------------------------------------------------------------- one call

  predicate Live(q: Queue, id: nat) {
    id in q.calls && !q.calls[id].reconciled && q.calls[id].refusal.None?
  }

  /** A refusal is read before an acceptance. */
  function OutcomeOf(c: Call): Option<Outcome> {
    if c.refusal.Some? then Some(Rejected(c.refusal.value))
    else if c.acceptance.Some? then Some(Accepted(c.acceptance.value))
    else None
  }

  function Inputs(items: seq<Item>): seq<Item> {
    if items == [] then []
    else
      var last := items[|items| - 1];
      Inputs(items[..|items| - 1]) + if last.path.Some? then [last] else []
  }

  function Sent(id: nat, c: Call): Mutation {
    Mutation(id, c.name, c.version, c.descriptor, Inputs(c.items))
  }

  // ----------------------------------------------------------------- batches

  predicate Member(q: Queue, batch: nat, id: nat) {
    id in q.calls && q.calls[id].batch == Some(batch)
  }

  /** The members below `bound`, in order of their ids. */
  function MutationsBelow(q: Queue, batch: nat, bound: nat): seq<Mutation> {
    if bound == 0 then []
    else
      MutationsBelow(q, batch, bound - 1)
      + if Member(q, batch, bound - 1) then [Sent(bound - 1, q.calls[bound - 1])] else []
  }

  /** The first member's materialization is the request's. */
  function ContextBelow(q: Queue, batch: nat, bound: nat): Option<string> {
    if bound == 0 then None
    else
      var first := ContextBelow(q, batch, bound - 1);
      if first.Some? || !Member(q, batch, bound - 1) then first else q.calls[bound - 1].materialization
  }

  predicate Empty(q: Queue, batch: nat) {
    forall id :: id in q.calls ==> !Member(q, batch, id)
  }

  function Rebuilt(q: Queue, batch: nat): Request {
    var context := ContextBelow(q, batch, q.next);
    Request(batch, if context.Some? then context.value else "", MutationsBelow(q, batch, q.next))
  }

  /** A call frozen as another request than `request`. */
  predicate Changed(c: Call, request: Request) {
    c.digest.Some? && c.digest != Some(request)
  }

  /** `reconstruct_batch05`: the request rebuilt from what is stored, if it is still the one frozen. */
  function Reconstruct(q: Queue, batch: nat): Reply<Request> {
    if Empty(q, batch) then Failed(UnknownBatch)
    else if ContextBelow(q, batch, q.next).None? then Failed(ContextMissing)
    else if exists id :: id in q.calls && Member(q, batch, id) && Changed(q.calls[id], Rebuilt(q, batch)) then
      Failed(DigestChanged)
    else Done(Rebuilt(q, batch))
  }

  // ------------------------------------------------------------------ freeze

  /** A predecessor has finished: settled or refused, and for a lifecycle edge not refused. */
  predicate Cleared(q: Queue, id: nat, dep: nat) {
    (id, dep) in q.edges && dep in q.calls ==>
      q.calls[dep].reconciled && (q.edges[(id, dep)] == Lifecycle ==> q.calls[dep].refusal.None?)
  }

  predicate Ready(q: Queue, id: nat) {
    && Live(q, id)
    && q.calls[id].batch.None?
    && (forall p :: p in q.prerequisites ==> p.0 != id)
    && (forall e :: e in q.edges && e.0 == id ==> Cleared(q, id, e.1))
  }

  function ReadyCalls(q: Queue): set<nat> {
    set id | id in q.calls && Ready(q, id)
  }

  predicate Unsettled(q: Queue, id: nat) {
    id in q.calls && q.calls[id].batch.Some? && !q.calls[id].reconciled
  }

  predicate Assigned(q: Queue, batch: nat, id: nat) {
    id in q.calls && q.calls[id].batch.Some? && q.calls[id].batch.value == batch && q.calls[id].batch.value > q.last
  }

  /** The earliest assigned Batch not acknowledged. */
  ghost predicate OpenBatch(q: Queue, batch: nat) {
    && (exists id :: Assigned(q, batch, id))
    && forall id, b :: Assigned(q, b, id) ==> batch <= b
  }

  function Assign(q: Queue, ids: set<nat>, batch: nat): Queue {
    q.(calls := map id | id in q.calls ::
      if id in ids then q.calls[id].(batch := Some(batch), materialization := Some(q.materialization)) else q.calls[id])
  }

  function Seal(q: Queue, batch: nat, request: Request): Queue {
    q.(calls := map id | id in q.calls ::
      if Member(q, batch, id) then q.calls[id].(digest := Some(request)) else q.calls[id])
  }

  ghost function Freeze(q: Queue): (Queue, Reply<Option<Request>>) {
    if exists batch :: OpenBatch(q, batch) then
      var batch :| OpenBatch(q, batch);
      (q, match Reconstruct(q, batch) case Done(request) => Done(Some(request)) case Failed(p) => Failed(p))
    else if (exists id :: Unsettled(q, id)) || ReadyCalls(q) == {} then (q, Done(None))
    else if q.last + 1 > MAX_SAFE_INTEGER then (q, Failed(CounterExhausted))
    else
      var taken := Assign(q, ReadyCalls(q), q.last + 1);
      match Reconstruct(taken, q.last + 1)
      case Failed(p) => (q, Failed(p))
      case Done(request) => (Seal(taken, q.last + 1, request), Done(Some(request)))
  }

  // ----------------------------------------------------------------- refusal

  /** `id` is refused when `dep` is. */
  predicate Follows(edges: map<(nat, nat), EdgeKind>, id: nat, dep: nat) {
    (id, dep) in edges && edges[(id, dep)] == Lifecycle
  }

  ghost predicate RefusalPath(edges: map<(nat, nat), EdgeKind>, path: seq<nat>) {
    path != [] && forall i :: 0 < i < |path| ==> Follows(edges, path[i], path[i - 1])
  }

  ghost predicate Reached(edges: map<(nat, nat), EdgeKind>, initial: set<nat>, id: nat) {
    exists path :: RefusalPath(edges, path) && path[0] in initial && path[|path| - 1] == id
  }

  ghost function Closure(edges: map<(nat, nat), EdgeKind>, initial: set<nat>): set<nat> {
    set id | id in initial + (set e | e in edges :: e.0) && Reached(edges, initial, id)
  }

  const DEPENDENCY_REJECTED := Refusal("dependency.rejected", None)

  function Marking(initial: map<nat, Refusal>, id: nat): Refusal {
    if id in initial then initial[id] else DEPENDENCY_REJECTED
  }

  function Marks(reach: set<nat>, initial: map<nat, Refusal>): map<nat, Refusal> {
    map id | id in reach :: Marking(initial, id)
  }

  /** The initial refusals and everything reachable from them, each initial code kept. */
  ghost function Refusals(edges: map<(nat, nat), EdgeKind>, initial: map<nat, Refusal>): map<nat, Refusal> {
    Marks(Closure(edges, initial.Keys), initial)
  }

  function Refuse(q: Queue, refused: map<nat, Refusal>): Queue {
    q.(calls := map id | id in q.calls ::
      if id in refused then q.calls[id].(refusal := Some(refused[id]), reconciled := true) else q.calls[id])
  }

  // --------------------------------------------------------- acknowledgement

  predicate ValidTargets(cursor: nat, targets: seq<Target>) {
    && (forall t :: t in targets && t.Stream? ==> t.cursor <= cursor)
    && forall i, j :: 0 <= i < j < |targets| ==> targets[i].key != targets[j].key
  }

  predicate ValidResult(r: MutationResult) {
    && 1 <= r.id <= MAX_SAFE_INTEGER
    && (r.outcome.Accepted? ==>
      && r.outcome.acceptance.cursor <= MAX_SAFE_INTEGER
      && ValidTargets(r.outcome.acceptance.cursor, r.outcome.acceptance.targets))
  }

  predicate ValidAck(ack: Ack) {
    && 1 <= ack.batch <= MAX_SAFE_INTEGER
    && (forall r :: r in ack.results ==> ValidResult(r))
    && forall i, j :: 0 <= i < j < |ack.results| ==> ack.results[i].id != ack.results[j].id
  }

  function ResultIds(ack: Ack): set<nat> {
    set r | r in ack.results :: r.id
  }

  function MemberIds(q: Queue, batch: nat): set<nat> {
    set id | id in q.calls && Member(q, batch, id)
  }

  /** The call has the digest, the materialization and the outcome the acknowledgement names. */
  predicate Repeats(q: Queue, ack: Ack, id: nat) {
    && id in q.calls
    && q.calls[id].digest == Some(ack.digest)
    && q.calls[id].materialization == Some(ack.materialization)
    && exists r :: r in ack.results && r.id == id && OutcomeOf(q.calls[id]) == Some(r.outcome)
  }

  predicate Answered(ack: Ack, id: nat) {
    exists r :: r in ack.results && r.id == id
  }

  /** The members below `bound`, in order: the first one answered otherwise decides the error. */
  function ReplayedBelow(q: Queue, ack: Ack, bound: nat): Reply<()> {
    if bound == 0 then Done(())
    else
      var below := ReplayedBelow(q, ack, bound - 1);
      if below.Failed? || !Member(q, ack.batch, bound - 1) then below
      else if !Answered(ack, bound - 1) then Failed(MembershipMismatch)
      else if !Repeats(q, ack, bound - 1) then Failed(ReplayDiffers)
      else Done(())
  }

  /** A replayed acknowledgement: as many results as members, and each member answered as it was. */
  function Replayed(q: Queue, ack: Ack): Reply<()> {
    if |MemberIds(q, ack.batch)| != |ack.results| || MemberIds(q, ack.batch) == {} then Failed(UnknownAcknowledged)
    else ReplayedBelow(q, ack, q.next)
  }

  /** Every record a member writes is among its targets. */
  predicate Supplied(m: Mutation, targets: seq<Target>) {
    forall item :: item in m.inputs && item.payload.Written? ==>
      exists t :: t in targets && t.key == item.payload.op.key
  }

  predicate TargetsSupplied(request: Request, ack: Ack) {
    forall m, r :: m in request.mutations && r in ack.results && r.id == m.id && r.outcome.Accepted? ==>
      Supplied(m, r.outcome.acceptance.targets)
  }

  function FirstResult(results: seq<MutationResult>, id: nat): (i: nat)
    ensures i <= |results| && (i < |results| ==> results[i].id == id)
    ensures forall j :: 0 <= j < i ==> results[j].id != id
  {
    if results == [] || results[0].id == id then 0 else 1 + FirstResult(results[1..], id)
  }

  function AcceptedIn(results: seq<MutationResult>, id: nat): Option<Acceptance> {
    var i := FirstResult(results, id);
    if i < |results| && results[i].outcome.Accepted? then Some(results[i].outcome.acceptance) else None
  }

  function RefusalFor(results: seq<MutationResult>, id: nat): Option<Refusal> {
    var i := FirstResult(results, id);
    if i < |results| && results[i].outcome.Rejected? then Some(results[i].outcome.refusal) else None
  }

  function RefusedIn(results: seq<MutationResult>): map<nat, Refusal> {
    map id | id in (set r | r in results :: r.id) && RefusalFor(results, id).Some? :: RefusalFor(results, id).value
  }

  function Accept(q: Queue, results: seq<MutationResult>): Queue {
    q.(calls := map id | id in q.calls ::
      if AcceptedIn(results, id).Some? then q.calls[id].(acceptance := AcceptedIn(results, id)) else q.calls[id])
  }

  ghost function Acknowledge(q: Queue, ack: Ack): (Queue, Reply<()>) {
    if !ValidAck(ack) then (q, Failed(InvalidAck))
    else if ack.store != q.store then (q, Failed(StoreMismatch))
    else if ack.batch <= q.last then (q, Replayed(q, ack))
    else if ack.batch != q.last + 1 then (q, Failed(Skipped))
    else
      match Reconstruct(q, ack.batch)
      case Failed(p) => (q, Failed(p))
      case Done(request) =>
        if ack.materialization != request.materialization || ack.digest != request then (q, Failed(Mismatch))
        else if (set m | m in request.mutations :: m.id) != ResultIds(ack) then (q, Failed(MembershipMismatch))
        else if !TargetsSupplied(request, ack) then (q, Failed(TargetMissing))
        else (Settled(q, ack), Done(()))
  }

  ghost function Settled(q: Queue, ack: Ack): Queue {
    Refuse(Accept(q, ack.results), Refusals(q.edges, RefusedIn(ack.results))).(last := ack.batch)
  }

  // ----------------------------------------------- enqueue, settle and cancel

  /** What a new call is stored with; its operations are numbered in the order they were applied. */
  datatype Draft = Draft(name: string, version: nat, descriptor: string, items: seq<(Option<string>, Payload)>,
                         lifecycle: set<nat>, sequence: set<nat>, prerequisites: set<string>)

  function Numbered(list: seq<(Option<string>, Payload)>): seq<Item> {
    seq(|list|, i requires 0 <= i < |list| => Item(i, list[i].0, list[i].1))
  }

  function NewCall(d: Draft): Call {
    Call(d.name, d.version, d.descriptor, Numbered(d.items), None, None, None, None, None, false, false)
  }

  /** One predecessor has one edge, with the stronger meaning. */
  function NewEdges(id: nat, d: Draft): map<(nat, nat), EdgeKind> {
    map dep | dep in d.lifecycle + d.sequence :: (id, dep) := if dep in d.lifecycle then Lifecycle else Sequence
  }

  /** Predecessors are live calls: only those are looked at. */
  predicate Admissible(q: Queue, d: Draft) {
    forall dep :: dep in d.lifecycle + d.sequence ==> Live(q, dep)
  }

  function Enqueue(q: Queue, d: Draft): (Queue, Reply<nat>) {
    if q.next + 1 > MAX_SAFE_INTEGER then (q, Failed(CounterExhausted))
    else
      (q.(calls := q.calls[q.next := NewCall(d)],
          edges := q.edges + NewEdges(q.next, d),
          prerequisites := q.prerequisites + (set k | k in d.prerequisites :: (q.next, k)),
          next := q.next + 1), Done(q.next))
  }

  function Resolve(q: Queue, key: string): Queue {
    q.(prerequisites := (set p | p in q.prerequisites && p.1 != key))
  }

  /** A companion or a cascade's effect: stored with the call, never sent. */
  function AppendLocal(q: Queue, id: nat, payload: Payload): Queue {
    if !Live(q, id) then q
    else
      var items := q.calls[id].items;
      q.(calls := q.calls[id := q.calls[id].(items := items + [Item(|items|, None, payload)])])
  }

  /** An accepted call has what it waited for. */
  function Reconcile(q: Queue, id: nat): Queue {
    if id !in q.calls || q.calls[id].acceptance.None? || q.calls[id].reconciled then q
    else q.(calls := q.calls[id := q.calls[id].(reconciled := true, items := [])])
  }

  function Dismiss(q: Queue, id: nat): (Queue, Reply<()>) {
    if id !in q.calls then (q, Done(()))
    else if q.calls[id].refusal.None? || !q.calls[id].reconciled then (q, Failed(RejectionRequired))
    else
      (q.(calls := q.calls[id := q.calls[id].(dismissed := true, items := [])],
          prerequisites := (set p | p in q.prerequisites && p.0 != id),
          edges := (map e | e in q.edges && e.0 != id && e.1 != id :: q.edges[e])), Done(()))
  }

  const DROPPED := Refusal("dropped", None)

  /** `drop_mutation05` and, when `dismiss`, `discard_mutation05`. */
  ghost function Cancel(q: Queue, id: nat, dismiss: bool): (Queue, Reply<()>) {
    if id !in q.calls then (q, Failed(UnknownMutation))
    else if q.calls[id].batch.Some? then (q, Failed(PossiblySent))
    else if q.calls[id].reconciled then (q, Done(()))
    else
      var dropped := Refuse(q, Refusals(q.edges, map[id := DROPPED]));
      if dismiss then Dismiss(dropped, id) else (dropped, Done(()))
  }
}
