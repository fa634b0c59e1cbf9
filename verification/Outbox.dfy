/** The actor's outbox: events wait for the carrier to drain them, trace records bounded in between. */
module Outbox {

  const CAPACITY: nat := 4096

  datatype Event = Trace(records: seq<string>, dropped: nat) | Other(text: string)

  datatype Pending = Pending(queue: seq<Event>, wake: bool, records: nat, dropped: nat)

  const NOTHING := Pending([], false, 0, 0)

  function Min(a: nat, b: nat): nat {
    if a < b then a else b
  }

  /** One published event: trace records past the capacity are dropped and counted. */
  function Accept(p: Pending, e: Event): Pending
    requires p.records <= CAPACITY
  {
    match e
    case Other(_) => p.(queue := p.queue + [e])
    case Trace(records, dropped) =>
      var retained := Min(|records|, CAPACITY - p.records);
      p.(queue := if retained == 0 then p.queue else p.queue + [Trace(records[..retained], 0)],
         records := p.records + retained,
         dropped := p.dropped + dropped + (|records| - retained))
  }

  function AcceptAll(p: Pending, batch: seq<Event>): (r: Pending)
    requires p.records <= CAPACITY
    ensures r.records <= CAPACITY && r.wake == p.wake
  {
    if batch == [] then p else Accept(AcceptAll(p, batch[..|batch| - 1]), batch[|batch| - 1])
  }

  /** Only a publisher that finds no wake pending has to notify. */
  function Published(p: Pending, batch: seq<Event>): (r: (Pending, bool))
    requires p.records <= CAPACITY
    ensures r.0.records <= CAPACITY
  {
    if batch == [] then (p, false) else (AcceptAll(p, batch).(wake := true), !p.wake)
  }

  function Drained(p: Pending): (Pending, seq<Event>) {
    (NOTHING, if p.dropped > 0 then [Trace([], p.dropped)] + p.queue else p.queue)
  }

  // ------------------------------------------------------------- what is carried

  /** What events carry: the other events in order, the trace records in order, and losses reported. */
  datatype Load = Load(others: seq<Event>, records: seq<string>, dropped: nat)
  {
    function Then(next: Load): Load {
      Load(others + next.others, records + next.records, dropped + next.dropped)
    }

    function Traced(): nat {
      |records| + dropped
    }
  }

  const NO_LOAD := Load([], [], 0)

  function LoadOf(e: Event): Load {
    match e
    case Other(_) => Load([e], [], 0)
    case Trace(records, dropped) => Load([], records, dropped)
  }

  function Carry(events: seq<Event>): Load {
    if events == [] then NO_LOAD else Carry(events[..|events| - 1]).Then(LoadOf(events[|events| - 1]))
  }

  lemma CarryNext(events: seq<Event>, e: Event)
    ensures Carry(events + [e]) == Carry(events).Then(LoadOf(e))
  {
    assert (events + [e])[..|events|] == events;
  }

  lemma ThenThen(a: Load, b: Load, c: Load)
    ensures a.Then(b).Then(c) == a.Then(b.Then(c))
  {
    assert a.others + b.others + c.others == a.others + (b.others + c.others);
    assert a.records + b.records + c.records == a.records + (b.records + c.records);
  }

  lemma ThenNothing(a: Load)
    ensures a.Then(NO_LOAD) == a
  {
  }

  lemma {:induction false} CarryConcat(a: seq<Event>, b: seq<Event>)
    ensures Carry(a + b) == Carry(a).Then(Carry(b))
  {
    if b == [] {
      assert a + b == a;
      ThenNothing(Carry(a));
    } else {
      var n := |b| - 1;
      var below, last := b[..n], b[n];
      CarryConcat(a, below);
      assert a + b == (a + below) + [last] && b == below + [last];
      CarryJoined(a, below, last);
    }
  }

  lemma CarryJoined(a: seq<Event>, below: seq<Event>, last: Event)
    requires Carry(a + below) == Carry(a).Then(Carry(below))
    ensures Carry((a + below) + [last]) == Carry(a).Then(Carry(below + [last]))
  {
    CarryNext(a + below, last);
    CarryNext(below, last);
    ThenThen(Carry(a), Carry(below), LoadOf(last));
  }

  /** What waits, told from `window`, the load of everything published since the last drain: every
      other event in order, the first 4096 trace records in order, and a count of all the rest. */
  predicate Waits(p: Pending, queued: Load, window: Load) {
    && queued.others == window.others
    && |queued.records| == p.records == (if |window.records| < 4096 then |window.records| else 4096)
    && queued.records <= window.records
    && queued.dropped == 0
    && p.dropped + p.records == window.Traced()
  }

  predicate Holds(p: Pending, window: Load) {
    && Waits(p, Carry(p.queue), window)
    && (p.queue != [] || p.dropped > 0 ==> p.wake)
  }

  function Retained(p: Pending, e: Event): Load
    requires p.records <= CAPACITY
  {
    if e.Other? then LoadOf(e) else Load([], e.records[..Min(|e.records|, CAPACITY - p.records)], 0)
  }

  lemma AcceptWaits(p: Pending, queued: Load, window: Load, e: Event)
    requires Waits(p, queued, window)
    ensures Waits(Accept(p, e), queued.Then(Retained(p, e)), window.Then(LoadOf(e)))
  {
  }

  lemma AcceptQueues(p: Pending, e: Event)
    requires p.records <= CAPACITY
    ensures Carry(Accept(p, e).queue) == Carry(p.queue).Then(Retained(p, e))
  {
    match e
    case Other(_) => CarryNext(p.queue, e);
    case Trace(records, dropped) => CarryNext(p.queue, Trace(records[..Min(|records|, CAPACITY - p.records)], 0));
  }

  lemma {:induction false} AcceptAllWaits(p: Pending, window: Load, batch: seq<Event>)
    requires Waits(p, Carry(p.queue), window)
    ensures var r := AcceptAll(p, batch); Waits(r, Carry(r.queue), window.Then(Carry(batch)))
  {
    if batch != [] {
      var n := |batch| - 1;
      var r := AcceptAll(p, batch[..n]);
      AcceptAllWaits(p, window, batch[..n]);
      AcceptQueues(r, batch[n]);
      AcceptWaits(r, Carry(r.queue), window.Then(Carry(batch[..n])), batch[n]);
      ThenThen(window, Carry(batch[..n]), LoadOf(batch[n]));
    }
  }

  lemma {:induction false} AcceptAllAppends(p: Pending, batch: seq<Event>)
    requires p.records <= CAPACITY
    ensures p.queue <= AcceptAll(p, batch).queue
  {
    if batch != [] { AcceptAllAppends(p, batch[..|batch| - 1]); }
  }

  /** Publishing keeps the account, so the capacity is never exceeded and its subtraction never underflows. */
  lemma PublishHolds(p: Pending, window: Load, batch: seq<Event>)
    requires Holds(p, window)
    ensures Holds(Published(p, batch).0, window.Then(Carry(batch)))
  {
    AcceptAllWaits(p, window, batch);
  }

  /** A drain delivers the window: its other events in order, its first records, and the number lost. */
  predicate Delivers(events: Load, window: Load) {
    && events.others == window.others
    && events.records <= window.records
    && |events.records| == (if |window.records| < 4096 then |window.records| else 4096)
    && events.Traced() == window.Traced()
  }

  /** What waited comes out as it was published, after one report of the losses where there are any. */
  lemma DrainedInOrder(p: Pending)
    ensures p.dropped == 0 ==> Drained(p).1 == p.queue
    ensures p.dropped > 0 ==>
      |Drained(p).1| == |p.queue| + 1 && Drained(p).1[0] == Trace([], p.dropped) && Drained(p).1[1..] == p.queue
  {
  }

  lemma DrainCarries(p: Pending)
    ensures Carry(Drained(p).1) == Load([], [], p.dropped).Then(Carry(p.queue))
  {
    var lost := Trace([], p.dropped);
    if p.dropped > 0 {
      CarryNext([], lost);
      assert [] + [lost] == [lost];
      CarryConcat([lost], p.queue);
    }
  }

  lemma WaitsDelivers(p: Pending, queued: Load, window: Load)
    requires Waits(p, queued, window)
    ensures Delivers(Load([], [], p.dropped).Then(queued), window)
  {
  }

  lemma DrainDelivers(p: Pending, window: Load, rest: Pending, events: seq<Event>)
    requires Holds(p, window) && (rest, events) == Drained(p)
    ensures Holds(rest, NO_LOAD) && Delivers(Carry(events), window)
  {
    DrainCarries(p);
    WaitsDelivers(p, Carry(p.queue), window);
  }

  // ------------------------------------------------------------------- in place

  class Buffer {
    var queue: seq<Event>
    var wakePending: bool
    var traceRecords: nat
    var traceDropped: nat
    ghost var window: Load

    ghost function View(): Pending
      reads this
    {
      Pending(queue, wakePending, traceRecords, traceDropped)
    }

    ghost predicate Valid()
      reads this
    {
      Holds(View(), window)
    }

    constructor ()
      ensures Valid() && window == NO_LOAD
    {
      queue, wakePending, traceRecords, traceDropped, window := [], false, 0, 0, NO_LOAD;
    }

    method Publish(batch: seq<Event>) returns (notify: bool)
      requires Valid()
      modifies this
      ensures Valid() && window == old(window).Then(Carry(batch))
      ensures (View(), notify) == Published(old(View()), batch)
      ensures notify <==> batch != [] && !old(wakePending)
      ensures old(queue) <= queue
    {
      window := window.Then(Carry(batch));
      if batch == [] {
        notify := false;
      } else {
        AcceptBatch(batch);
        notify := !wakePending;
        wakePending := true;
      }
      PublishHolds(old(View()), old(window), batch);
      AcceptAllAppends(old(View()), batch);
    }

    method AcceptBatch(batch: seq<Event>)
      requires traceRecords <= CAPACITY
      modifies this`queue, this`traceRecords, this`traceDropped
      ensures View() == AcceptAll(old(View()), batch)
    {
      var i := 0;
      while i < |batch|
        invariant 0 <= i <= |batch| && traceRecords <= CAPACITY
        invariant View() == AcceptAll(old(View()), batch[..i])
      {
        assert batch[..i + 1][..i] == batch[..i];
        match batch[i] {
          case Other(_) => queue := queue + [batch[i]];
          case Trace(records, dropped) => PushTrace(records, dropped);
        }
        i := i + 1;
      }
      assert batch[..i] == batch;
    }

    method PushTrace(records: seq<string>, dropped: nat)
      requires traceRecords <= CAPACITY
      modifies this`queue, this`traceRecords, this`traceDropped
      ensures View() == Accept(old(View()), Trace(records, dropped))
    {
      var retained := if |records| < CAPACITY - traceRecords then |records| else CAPACITY - traceRecords;
      traceDropped := traceDropped + dropped + (|records| - retained);
      traceRecords := traceRecords + retained;
      if retained != 0 {
        queue := queue + [Trace(records[..retained], 0)];
      }
    }

    method Drain() returns (events: seq<Event>)
      requires Valid()
      modifies this
      ensures Valid() && window == NO_LOAD
      ensures (View(), events) == Drained(old(View()))
      ensures Delivers(Carry(events), old(window))
    {
      window := NO_LOAD;
      events := Take();
      DrainDelivers(old(View()), old(window), View(), events);
    }

    method Take() returns (events: seq<Event>)
      modifies this`queue, this`wakePending, this`traceRecords, this`traceDropped
      ensures (View(), events) == Drained(old(View()))
    {
      wakePending := false;
      traceRecords := 0;
      events := queue;
      queue := [];
      var dropped := traceDropped;
      traceDropped := 0;
      if dropped > 0 {
        events := [Trace([], dropped)] + events;
      }
    }
  }
}

/** Publishers, drains and detaches in every interleaving. Each critical section is one step: a
    publisher updates the events, then takes the sink's lock to call it; a detach looks the runtime up
    in the registry, takes the sink, and removes the runtime, or returns at once when it is not there. */
module Wakes {
  import opened Outbox

  /** How far one call of `detach` got. */
  datatype Detaching = LookedUp | Took | Returned

  /** `notifying` are publishers past the events' lock that still have to look at the sink; `calling`
      holds the sink's lock. `woken` says the sink was called since the last drain; `calls` counts.
      The loads are of everything published since the last drain, published ever, and delivered ever. */
  datatype Machine = Machine(pending: Pending, attached: bool, registered: bool, detachers: map<nat, Detaching>,
                             notifying: set<nat>, calling: set<nat>, woken: bool, calls: nat,
                             window: Load, published: Load, delivered: Load)

  datatype Move =
    | Publishing(publisher: nat, batch: seq<Event>)
    | Enter(publisher: nat)
    | Leave(publisher: nat)
    | Draining
    | Lookup(detacher: nat)
    | TakeSink(detacher: nat)
    | Remove(detacher: nat)

  const ATTACHED := Machine(NOTHING, true, true, map[], {}, {}, false, 0, NO_LOAD, NO_LOAD, NO_LOAD)

  predicate Free(m: Machine) {
    m.calling == {}
  }

  predicate At(m: Machine, detacher: nat, phase: Detaching) {
    detacher in m.detachers && m.detachers[detacher] == phase
  }

  ghost predicate Next(m: Machine, move: Move, n: Machine) {
    match move
    case Publishing(publisher, batch) =>
      && publisher !in m.notifying + m.calling && m.pending.records <= CAPACITY
      && n == m.(pending := Published(m.pending, batch).0,
                 notifying := if Published(m.pending, batch).1 then m.notifying + {publisher} else m.notifying,
                 window := m.window.Then(Carry(batch)), published := m.published.Then(Carry(batch)))
    case Enter(publisher) =>
      && publisher in m.notifying && Free(m)
      && n == if m.attached
              then m.(notifying := m.notifying - {publisher}, calling := {publisher}, woken := true,
                      calls := m.calls + 1)
              else m.(notifying := m.notifying - {publisher})
    case Leave(publisher) => publisher in m.calling && n == m.(calling := m.calling - {publisher})
    case Draining =>
      n == m.(pending := Drained(m.pending).0, delivered := m.delivered.Then(Carry(Drained(m.pending).1)),
              woken := false, window := NO_LOAD)
    case Lookup(detacher) =>
      && detacher !in m.detachers
      && n == m.(detachers := m.detachers[detacher := if m.registered then LookedUp else Returned])
    case TakeSink(detacher) =>
      && At(m, detacher, LookedUp) && Free(m)
      && n == m.(attached := false, detachers := m.detachers[detacher := Took])
    case Remove(detacher) =>
      && At(m, detacher, Took)
      && n == m.(registered := false, detachers := m.detachers[detacher := Returned])
  }

  predicate Waiting(m: Machine) {
    m.pending.queue != [] || m.pending.dropped > 0
  }

  /** Waiting events are announced: a publisher is about to call the sink, or it was called since the
      last drain. Only one thread calls the sink at a time. */
  predicate Announced(m: Machine) {
    && (Waiting(m) ==> m.pending.wake)
    && (m.pending.wake && m.attached ==> m.notifying != {} || m.woken)
    && |m.calling| <= 1
  }

  lemma NextKeepsAnnounced(m: Machine, move: Move, n: Machine)
    requires Announced(m) && Next(m, move, n)
    ensures Announced(n)
  {
  }

  /** Nothing calls a taken sink. A detach that took it, one that returned, and a runtime no longer
      registered all mean that it is taken. */
  predicate Taken(m: Machine) {
    && (!m.attached ==> Free(m))
    && (!m.registered ==> !m.attached)
    && (forall d :: d in m.detachers && m.detachers[d] != LookedUp ==> !m.attached)
    && (forall d :: d in m.detachers && m.detachers[d] == Returned ==> !m.registered)
  }

  lemma NextKeepsTaken(m: Machine, move: Move, n: Machine)
    requires Taken(m) && Next(m, move, n)
    ensures Taken(n)
  {
  }

  /** The buffer holds the window; what was published is what was delivered or counted, then the window. */
  predicate Accounted(m: Machine) {
    Holds(m.pending, m.window) && Balanced(m.published, m.delivered, m.window)
  }

  predicate Balanced(published: Load, delivered: Load, window: Load) {
    && delivered.others <= published.others
    && published.others[|delivered.others|..] == window.others
    && published.Traced() == delivered.Traced() + window.Traced()
  }

  lemma PublishBalances(published: Load, delivered: Load, window: Load, batch: Load)
    requires Balanced(published, delivered, window)
    ensures Balanced(published.Then(batch), delivered, window.Then(batch))
  {
  }

  lemma DeliverBalances(published: Load, delivered: Load, window: Load, events: Load)
    requires Balanced(published, delivered, window) && Delivers(events, window)
    ensures Balanced(published, delivered.Then(events), NO_LOAD)
  {
  }

  lemma NextKeepsAccount(m: Machine, move: Move, n: Machine)
    requires Accounted(m) && Next(m, move, n)
    ensures Accounted(n)
  {
    match move
    case Publishing(_, batch) =>
      PublishHolds(m.pending, m.window, batch);
      PublishBalances(m.published, m.delivered, m.window, Carry(batch));
    case Draining =>
      DrainMoves(m, n);
      DrainBalances(m.pending, m.published, m.delivered, m.window, Drained(m.pending).0, Drained(m.pending).1);
    case _ =>
  }

  lemma DrainMoves(m: Machine, n: Machine)
    requires Next(m, Draining, n)
    ensures n.pending == Drained(m.pending).0 && n.published == m.published && n.window == NO_LOAD
    ensures n.delivered == m.delivered.Then(Carry(Drained(m.pending).1))
  {
  }

  lemma DrainBalances(p: Pending, published: Load, delivered: Load, window: Load, rest: Pending, events: seq<Event>)
    requires Holds(p, window) && Balanced(published, delivered, window) && (rest, events) == Drained(p)
    ensures Holds(rest, NO_LOAD) && Balanced(published, delivered.Then(Carry(events)), NO_LOAD)
  {
    DrainDelivers(p, window, rest, events);
    DeliverBalances(published, delivered, window, Carry(events));
  }

  /** Other events delivered, then those queued, are the ones published, in order; records delivered,
      queued, reported lost and about to be reported lost are the records and losses published. */
  predicate Conserved(m: Machine) {
    && m.delivered.others + Carry(m.pending.queue).others == m.published.others
    && m.delivered.Traced() + |Carry(m.pending.queue).records| + m.pending.dropped == m.published.Traced()
    && m.pending.records == |Carry(m.pending.queue).records| <= CAPACITY
  }

  lemma StartAccounts(m: Machine)
    requires m.pending == NOTHING && m.window == NO_LOAD && m.published == NO_LOAD && m.delivered == NO_LOAD
    ensures Accounted(m)
  {
  }

  lemma AccountConserves(m: Machine)
    requires Accounted(m)
    ensures Conserved(m)
  {
  }

  // ------------------------------------------------------------------ every run

  ghost predicate MoveAt(run: seq<Machine>, moves: seq<Move>, i: nat) {
    i < |moves| && i + 1 < |run| && Next(run[i], moves[i], run[i + 1])
  }

  ghost predicate Run(run: seq<Machine>, moves: seq<Move>) {
    |run| == |moves| + 1 && forall i :: 0 <= i < |moves| ==> MoveAt(run, moves, i)
  }

  lemma RunPrefix(run: seq<Machine>, moves: seq<Move>)
    requires Run(run, moves) && moves != []
    ensures Run(run[..|moves|], moves[..|moves| - 1])
    ensures Next(run[|moves| - 1], moves[|moves| - 1], run[|moves|])
  {
    var n := |moves| - 1;
    assert MoveAt(run, moves, n);
    forall i | 0 <= i < n ensures MoveAt(run[..|moves|], moves[..n], i) { assert MoveAt(run, moves, i); }
  }

  lemma {:induction false} RunAnnounces(run: seq<Machine>, moves: seq<Move>)
    requires Run(run, moves) && Announced(run[0])
    ensures Announced(run[|moves|])
  {
    if moves != [] {
      var n := |moves| - 1;
      RunPrefix(run, moves);
      RunAnnounces(run[..n + 1], moves[..n]);
      NextKeepsAnnounced(run[n], moves[n], run[n + 1]);
    }
  }

  lemma {:induction false} RunTakes(run: seq<Machine>, moves: seq<Move>)
    requires Run(run, moves) && Taken(run[0])
    ensures Taken(run[|moves|])
  {
    if moves != [] {
      var n := |moves| - 1;
      RunPrefix(run, moves);
      RunTakes(run[..n + 1], moves[..n]);
      NextKeepsTaken(run[n], moves[n], run[n + 1]);
    }
  }

  lemma {:induction false} RunAccounts(run: seq<Machine>, moves: seq<Move>)
    requires Run(run, moves) && Accounted(run[0])
    ensures Accounted(run[|moves|])
  {
    if moves != [] {
      var n := |moves| - 1;
      RunPrefix(run, moves);
      RunAccounts(run[..n + 1], moves[..n]);
      NextKeepsAccount(run[n], moves[n], run[n + 1]);
    }
  }

  /** No lost wake: in every interleaving, while events or lost-trace counts wait and the sink is
      attached, a wake is pending and either a publisher is about to call the sink or the sink was
      called since the last drain. */
  lemma NoLostWake(run: seq<Machine>, moves: seq<Move>)
    requires Run(run, moves) && run[0] == ATTACHED
    ensures var m := run[|moves|]; Waiting(m) && m.attached ==> m.pending.wake && (m.notifying != {} || m.woken)
  {
    RunAnnounces(run, moves);
  }

  /** And the pending call can always be made: two steps at most from any such state wake the carrier. */
  lemma WakeCanHappen(run: seq<Machine>, moves: seq<Move>)
    requires Run(run, moves) && run[0] == ATTACHED
    requires var m := run[|moves|]; Waiting(m) && m.attached && !m.woken
    ensures var m := run[|moves|];
      exists caller, free, woken ::
        && (if Free(m) then free == m else exists holder :: Next(m, Leave(holder), free))
        && Next(free, Enter(caller), woken) && woken.woken && woken.calls == m.calls + 1
  {
    RunAnnounces(run, moves);
    var m := run[|moves|];
    var caller :| caller in m.notifying;
    var free := m;
    if !Free(m) {
      var holder :| holder in m.calling;
      assert m.calling == {holder} by { OnlyOne(m.calling, holder); }
      free := m.(calling := m.calling - {holder});
      assert Next(m, Leave(holder), free);
    }
    var woken := free.(notifying := free.notifying - {caller}, calling := {caller}, woken := true,
                       calls := free.calls + 1);
    assert Next(free, Enter(caller), woken);
  }

  lemma OnlyOne(s: set<nat>, x: nat)
    requires x in s && |s| <= 1
    ensures s == {x}
  {
    var rest := s - {x};
    assert s == rest + {x};
    assert |s| == |rest| + 1;
  }

  predicate Quiet(m: Machine, n: Machine) {
    !n.attached && Free(n) && n.calls == m.calls
  }

  lemma QuietNext(m: Machine, n: Machine, move: Move, next: Machine)
    requires Quiet(m, n) && Next(n, move, next)
    ensures Quiet(m, next)
  {
  }

  /** With the sink taken, no call of it is running and none ever starts. */
  lemma {:induction false} TakenStaysQuiet(run: seq<Machine>, moves: seq<Move>)
    requires Run(run, moves) && !run[0].attached && Free(run[0])
    ensures Quiet(run[0], run[|moves|])
  {
    if moves != [] {
      var n := |moves| - 1;
      RunPrefix(run, moves);
      TakenStaysQuiet(run[..n + 1], moves[..n]);
      QuietNext(run[0], run[n], moves[n], run[n + 1]);
    }
  }

  /** Once any detach has returned - one that took the sink, one that found it taken by another in
      flight, or one that no longer found the runtime - no sink call is running and none ever starts. */
  lemma NoWakeAfterDetach(run: seq<Machine>, moves: seq<Move>, i: nat, detacher: nat, j: nat)
    requires Run(run, moves) && run[0] == ATTACHED
    requires i <= j <= |moves| && At(run[i], detacher, Returned)
    ensures Quiet(run[i], run[j])
  {
    RunPart(run, moves, 0, i);
    RunTakes(run[0..i + 1], moves[0..i]);
    RunPart(run, moves, i, j);
    TakenStaysQuiet(run[i..j + 1], moves[i..j]);
  }

  lemma RunPart(run: seq<Machine>, moves: seq<Move>, i: nat, j: nat)
    requires Run(run, moves) && i <= j <= |moves|
    ensures Run(run[i..j + 1], moves[i..j])
  {
    var part, between := run[i..j + 1], moves[i..j];
    forall k | 0 <= k < |between| ensures MoveAt(part, between, k) { assert MoveAt(run, moves, i + k); }
  }

  /** A detach that looked the runtime up is done, or two steps from it. */
  ghost predicate Returns(looked: Machine, detacher: nat) {
    At(looked, detacher, Returned)
    || exists took, back :: Next(looked, TakeSink(detacher), took) && Next(took, Remove(detacher), back)
  }

  /** A detach waits only for a sink call in flight: from every reachable state one more can return by
      itself, once the call has, in the steps its case takes. */
  lemma DetachCanReturn(run: seq<Machine>, moves: seq<Move>, detacher: nat)
    requires Run(run, moves) && run[0] == ATTACHED
    requires Free(run[|moves|]) && detacher !in run[|moves|].detachers
    ensures var m := run[|moves|];
      exists looked :: Next(m, Lookup(detacher), looked) && Returns(looked, detacher)
  {
    var m := run[|moves|];
    var looked := m.(detachers := m.detachers[detacher := if m.registered then LookedUp else Returned]);
    assert Next(m, Lookup(detacher), looked);
    if m.registered {
      var took := looked.(attached := false, detachers := looked.detachers[detacher := Took]);
      var back := took.(registered := false, detachers := took.detachers[detacher := Returned]);
      assert Next(looked, TakeSink(detacher), took) && Next(took, Remove(detacher), back);
    }
  }

  /** Nothing is lost or reordered over any run: delivered other events followed by queued ones are
      the published ones, every trace record and every reported loss is accounted for, and at most
      `CAPACITY` records wait. */
  lemma Conservation(run: seq<Machine>, moves: seq<Move>)
    requires Run(run, moves) && run[0] == ATTACHED
    ensures Conserved(run[|moves|])
  {
    StartAccounts(run[0]);
    RunAccounts(run, moves);
    AccountConserves(run[|moves|]);
  }
}
