/** One host refresh at a time for any number of effects that wait for one. */
module Broker {
  import opened Rows

  datatype Event = RefreshAuth(id: string) | CancelEffect(id: string) | OtherEvent(text: string)

  /** The host effect in flight and the effects waiting for its answer. */
  datatype Flight = Flight(host: string, waiters: set<string>)

  type Active = Option<Flight>

  function Waiters(active: Active): set<string> {
    if active.Some? then active.value.waiters else {}
  }

  function FilterOne(active: Active, event: Event): (Active, Option<Event>) {
    match event
    case RefreshAuth(id) =>
      if active.Some? then (Some(active.value.(waiters := active.value.waiters + {id})), None)
      else (Some(Flight(id, {id})), Some(event))
    case CancelEffect(id) =>
      if id in Waiters(active) then
        var rest := active.value.waiters - {id};
        if rest == {} then (None, Some(CancelEffect(active.value.host)))
        else (Some(active.value.(waiters := rest)), None)
      else (active, Some(event))
    case OtherEvent(_) => (active, Some(event))
  }

  function FilterAll(active: Active, events: seq<Event>): (Active, seq<Event>) {
    if events == [] then (active, [])
    else
      var (below, passed) := FilterAll(active, events[..|events| - 1]);
      var (next, event) := FilterOne(below, events[|events| - 1]);
      (next, if event.Some? then passed + [event.value] else passed)
  }

  function AnswerOne(active: Active, id: string): (Active, Option<set<string>>) {
    if active.Some? && active.value.host == id then (None, Some(active.value.waiters)) else (active, None)
  }

  class RefreshBroker {
    var active: Active

    constructor ()
      ensures active == None
    {
      active := None;
    }

    method Filter(events: seq<Event>) returns (passed: seq<Event>)
      modifies this
      ensures (active, passed) == FilterAll(old(active), events)
    {
      passed := [];
      var i := 0;
      while i < |events|
        invariant 0 <= i <= |events| && (active, passed) == FilterAll(old(active), events[..i])
      {
        assert events[..i + 1][..i] == events[..i];
        match events[i] {
          case RefreshAuth(id) =>
            if active.Some? {
              active := Some(active.value.(waiters := active.value.waiters + {id}));
            } else {
              active := Some(Flight(id, {id}));
              passed := passed + [events[i]];
            }
          case CancelEffect(id) =>
            if active.Some? && id in active.value.waiters {
              var host, rest := active.value.host, active.value.waiters - {id};
              if rest == {} {
                active := None;
                passed := passed + [CancelEffect(host)];
              } else {
                active := Some(Flight(host, rest));
              }
            } else {
              passed := passed + [events[i]];
            }
          case OtherEvent(_) => passed := passed + [events[i]];
        }
        i := i + 1;
      }
      assert events[..i] == events;
    }

    method Answer(id: string) returns (waiters: Option<set<string>>)
      modifies this
      ensures (active, waiters) == AnswerOne(old(active), id)
    {
      waiters := None;
      if active.Some? && active.value.host == id {
        waiters := Some(active.value.waiters);
        active := None;
      }
    }
  }

  /** The events that are no refresh and cancel none of the effects `asked`. */
  function Unasked(events: seq<Event>, asked: set<string>): seq<Event> {
    if events == [] then []
    else
      var e := events[|events| - 1];
      Unasked(events[..|events| - 1], asked)
      + if e.OtherEvent? || (e.CancelEffect? && e.id !in asked) then [e] else []
  }

  /** The ids a filter knows: those waiting, the host's, and those the events ask for. */
  ghost predicate Knows(active: Active, events: seq<Event>, asked: set<string>) {
    && Waiters(active) <= asked && (active.Some? ==> active.value.host in asked)
    && forall e :: e in events && e.RefreshAuth? ==> e.id in asked
  }

  /** Events that have nothing to do with a refresh pass, all of them, in order, and nothing is added to them. */
  lemma {:induction false} UnaskedPass(active: Active, events: seq<Event>, asked: set<string>)
    requires Knows(active, events, asked)
    ensures var (next, passed) := FilterAll(active, events);
      Unasked(passed, asked) == Unasked(events, asked) && Knows(next, [], asked)
  {
    if events != [] {
      var n := |events| - 1;
      assert events[n] in events;
      forall e | e in events[..n] ensures e in events {}
      UnaskedPass(active, events[..n], asked);
      var (below, passed) := FilterAll(active, events[..n]);
      UnaskedOne(below, passed, events[n], asked);
    }
  }

  lemma UnaskedOne(active: Active, passed: seq<Event>, event: Event, asked: set<string>)
    requires Knows(active, [event], asked) && event in [event]
    ensures var (next, e) := FilterOne(active, event);
      && Knows(next, [], asked)
      && Unasked(if e.Some? then passed + [e.value] else passed, asked) ==
        Unasked(passed, asked)
        + if event.OtherEvent? || (event.CancelEffect? && event.id !in asked) then [event] else []
  {
    var e := FilterOne(active, event).1;
    if e.Some? { assert (passed + [e.value])[..|passed|] == passed; }
    assert Unasked(passed, asked) + [] == Unasked(passed, asked);
  }

  // ------------------------------------------------------------------- every run

  datatype Input = Emitted(event: Event) | Answering(id: string)

  /** `hosts` are the refreshes the carrier holds: passed on to it, neither cancelled nor answered since.
      `left` are the effects cancelled while they waited; `cancels` every id ever cancelled. */
  datatype Ledger = Ledger(active: Active, hosts: set<string>, requested: set<string>, cancels: set<string>,
                           left: set<string>, answers: seq<set<string>>)

  const NO_REQUESTS := Ledger(None, {}, {}, {}, {}, [])

  function Answered(answers: seq<set<string>>): set<string> {
    if answers == [] then {} else Answered(answers[..|answers| - 1]) + answers[|answers| - 1]
  }

  /** An id is requested once. */
  predicate NewRequest(l: Ledger, input: Input) {
    input.Emitted? && input.event.RefreshAuth? ==> input.event.id !in l.requested
  }

  /** Effect ids are distinct: one refresh and one cancellation per id. */
  predicate Distinct(l: Ledger, input: Input) {
    NewRequest(l, input) && (input.Emitted? && input.event.CancelEffect? ==> input.event.id !in l.cancels)
  }

  function HostsAfter(hosts: set<string>, passed: Option<Event>): set<string> {
    match passed
    case None => hosts
    case Some(RefreshAuth(id)) => hosts + {id}
    case Some(CancelEffect(id)) => hosts - {id}
    case Some(OtherEvent(_)) => hosts
  }

  function Next(l: Ledger, input: Input): Ledger {
    match input
    case Answering(id) =>
      var (active, waiters) := AnswerOne(l.active, id);
      l.(active := active, hosts := l.hosts - {id},
         answers := l.answers + if waiters.Some? then [waiters.value] else [])
    case Emitted(event) =>
      var (active, passed) := FilterOne(l.active, event);
      l.(active := active, hosts := HostsAfter(l.hosts, passed),
         requested := if event.RefreshAuth? then l.requested + {event.id} else l.requested,
         cancels := if event.CancelEffect? then l.cancels + {event.id} else l.cancels,
         left := if event.CancelEffect? && event.id in Waiters(l.active) then l.left + {event.id} else l.left)
  }

  function After(inputs: seq<Input>): Ledger {
    if inputs == [] then NO_REQUESTS else Next(After(inputs[..|inputs| - 1]), inputs[|inputs| - 1])
  }

  predicate AllDistinct(inputs: seq<Input>) {
    inputs == [] ||
    (AllDistinct(inputs[..|inputs| - 1]) && Distinct(After(inputs[..|inputs| - 1]), inputs[|inputs| - 1]))
  }

  predicate NewRequests(inputs: seq<Input>) {
    inputs == [] ||
    (NewRequests(inputs[..|inputs| - 1]) && NewRequest(After(inputs[..|inputs| - 1]), inputs[|inputs| - 1]))
  }

  /** One host refresh for all that wait, none when nobody waits; every effect that asked waits, has
      left or was answered, and only one of these. */
  predicate Inv(l: Ledger) {
    Sorted(l) && (l.active.Some? ==> l.hosts == {l.active.value.host})
  }

  /** The same, but for the host refresh: it may be gone. */
  predicate Sorted(l: Ledger) {
    && (l.active.None? ==> l.hosts == {})
    && (l.active.Some? ==> l.hosts <= {l.active.value.host} && l.active.value.waiters != {})
    && (l.active.Some? ==> l.active.value.host in l.requested && l.active.value.host !in Answered(l.answers))
    && l.requested == Waiters(l.active) + l.left + Answered(l.answers)
    && Waiters(l.active) !! l.left && Waiters(l.active) !! Answered(l.answers) && l.left !! Answered(l.answers)
    && l.left <= l.cancels
    && forall i, j :: 0 <= i < j < |l.answers| ==> l.answers[i] !! l.answers[j]
  }

  lemma {:induction false} AnswerIsAnswered(answers: seq<set<string>>, i: nat)
    requires i < |answers|
    ensures answers[i] <= Answered(answers)
  {
    if i < |answers| - 1 { AnswerIsAnswered(answers[..|answers| - 1], i); }
  }

  lemma {:induction false} AnsweredSomewhere(answers: seq<set<string>>, id: string)
    requires id in Answered(answers)
    ensures exists i :: 0 <= i < |answers| && id in answers[i]
  {
    if id !in answers[|answers| - 1] {
      AnsweredSomewhere(answers[..|answers| - 1], id);
      var i :| 0 <= i < |answers| - 1 && id in answers[..|answers| - 1][i];
      assert id in answers[i];
    }
  }

  lemma AppendDisjoint(answers: seq<set<string>>, more: set<string>)
    requires more !! Answered(answers)
    requires forall i, j :: 0 <= i < j < |answers| ==> answers[i] !! answers[j]
    ensures Answered(answers + [more]) == Answered(answers) + more
    ensures var all := answers + [more]; forall i, j :: 0 <= i < j < |all| ==> all[i] !! all[j]
  {
    assert (answers + [more])[..|answers|] == answers;
    forall i | 0 <= i < |answers| ensures answers[i] !! more { AnswerIsAnswered(answers, i); }
  }

  lemma NextKeepsSorted(l: Ledger, input: Input)
    requires Sorted(l) && NewRequest(l, input)
    ensures Sorted(Next(l, input))
  {
    match input
    case Answering(id) => AnswerKeepsSorted(l, id);
    case Emitted(event) =>
      assert l.requested == Waiters(l.active) + l.left + Answered(l.answers);
      if event.CancelEffect? && event.id in Waiters(l.active) {
        assert Waiters(l.active) == (Waiters(l.active) - {event.id}) + {event.id};
        assert Waiters(Next(l, input).active) == Waiters(l.active) - {event.id};
      }
  }

  lemma AnswerKeepsSorted(l: Ledger, id: string)
    requires Sorted(l)
    ensures Sorted(Next(l, Answering(id)))
  {
    var n := Next(l, Answering(id));
    if l.active.Some? && l.active.value.host == id {
      assert n.answers == l.answers + [l.active.value.waiters];
      AppendDisjoint(l.answers, l.active.value.waiters);
    } else {
      assert n.answers == l.answers;
    }
  }

  lemma NextKeepsInv(l: Ledger, input: Input)
    requires Inv(l) && Distinct(l, input)
    ensures Inv(Next(l, input))
  {
    NextKeepsSorted(l, input);
  }

  lemma {:induction false} RunKeepsInv(inputs: seq<Input>)
    requires AllDistinct(inputs)
    ensures Inv(After(inputs))
  {
    if inputs != [] {
      RunKeepsInv(inputs[..|inputs| - 1]);
      NextKeepsInv(After(inputs[..|inputs| - 1]), inputs[|inputs| - 1]);
    }
  }

  // ------------------------------------------------------------------ theorems

  /** At most one host refresh is outstanding, and one is exactly while somebody waits. */
  lemma SingleFlight(inputs: seq<Input>)
    requires AllDistinct(inputs)
    ensures var l := After(inputs); |l.hosts| <= 1 && (l.hosts != {} <==> Waiters(l.active) != {})
  {
    RunKeepsInv(inputs);
  }

  /** Every effect that asked is in exactly one answer, unless it still waits or was cancelled while it
      waited; then it is in none. */
  lemma AnsweredOnce(inputs: seq<Input>, id: string)
    requires AllDistinct(inputs) && id in After(inputs).requested
    ensures var l := After(inputs);
      && (id in Waiters(l.active) || id in l.left ==> forall i :: 0 <= i < |l.answers| ==> id !in l.answers[i])
      && (id !in Waiters(l.active) && id !in l.left ==>
        exists i :: 0 <= i < |l.answers| && id in l.answers[i] &&
          forall j :: 0 <= j < |l.answers| && j != i ==> id !in l.answers[j])
  {
    RunKeepsInv(inputs);
    var l := After(inputs);
    forall i | 0 <= i < |l.answers| ensures l.answers[i] <= Answered(l.answers) { AnswerIsAnswered(l.answers, i); }
    if id !in Waiters(l.active) && id !in l.left {
      AnsweredSomewhere(l.answers, id);
    }
  }

  /** The host's answer goes to everyone who asked and neither left nor was answered before. */
  lemma AnswerReachesAllWaiting(inputs: seq<Input>, host: string)
    requires AllDistinct(inputs) && host in After(inputs).hosts
    ensures var l := After(inputs); AnswerOne(l.active, host).1 == Some(l.requested - l.left - Answered(l.answers))
  {
    RunKeepsInv(inputs);
    var l := After(inputs);
    assert l.requested - l.left - Answered(l.answers) == Waiters(l.active);
  }

  /** The host refresh is cancelled exactly when its last waiter is. */
  lemma HostCancelledWithLastWaiter(inputs: seq<Input>, event: Event, host: string)
    requires AllDistinct(inputs + [Emitted(event)]) && host in After(inputs).hosts
    ensures FilterOne(After(inputs).active, event).1 == Some(CancelEffect(host)) <==>
      event.CancelEffect? && Waiters(After(inputs).active) == {event.id}
  {
    assert (inputs + [Emitted(event)])[..|inputs|] == inputs;
    RunKeepsInv(inputs);
  }

  // --------------------------------------------- when an id may be cancelled again

  lemma {:induction false} RunKeepsSorted(inputs: seq<Input>)
    requires NewRequests(inputs)
    ensures Sorted(After(inputs))
  {
    if inputs != [] {
      RunKeepsSorted(inputs[..|inputs| - 1]);
      NextKeepsSorted(After(inputs[..|inputs| - 1]), inputs[|inputs| - 1]);
    }
  }

  /** Somebody waits, and the carrier holds no refresh to answer them with. */
  predicate Stranded(l: Ledger) {
    Waiters(l.active) != {} && l.hosts == {}
  }

  /** The `i`th input cancelled the current flight's host after that host had left. */
  predicate HostCancelledAgain(inputs: seq<Input>, i: nat) {
    && i < |inputs|
    && After(inputs).active.Some?
    && inputs[i] == Emitted(CancelEffect(After(inputs).active.value.host))
    && After(inputs).active.value.host in After(inputs[..i]).left
  }

  predicate SameFlight(l: Ledger, n: Ledger) {
    n.active.Some? && l.active.Some? && n.active.value.host == l.active.value.host
  }

  predicate CancelsLeftHost(l: Ledger, input: Input) {
    l.active.Some? && input == Emitted(CancelEffect(l.active.value.host)) && l.active.value.host in l.left
  }

  /** The step from one input to the next, for a flight that goes on. */
  lemma StrandedNext(l: Ledger, input: Input)
    requires Sorted(l) && NewRequest(l, input)
    ensures var n := Next(l, input);
      Stranded(n) <==> (SameFlight(l, n) && (Stranded(l) || CancelsLeftHost(l, input)))
  {
    NextKeepsSorted(l, input);
    if input.Emitted? && input.event.CancelEffect? && l.active.Some? && input.event.id in Waiters(l.active) {
      var after := Waiters(Next(l, input).active);
      assert after == {} || after == Waiters(l.active) - {input.event.id};
    }
  }

  lemma {:induction false} LeftWasRequested(inputs: seq<Input>, i: nat, id: string)
    requires NewRequests(inputs) && i <= |inputs| && id in After(inputs[..i]).left
    ensures id in After(inputs).requested
    ensures i < |inputs| ==> id in After(inputs[..|inputs| - 1]).requested
  {
    if i == |inputs| {
      assert inputs[..i] == inputs;
      RunKeepsSorted(inputs);
    } else {
      assert inputs[..|inputs| - 1][..i] == inputs[..i];
      LeftWasRequested(inputs[..|inputs| - 1], i, id);
    }
  }

  /** Over any run with distinct requests, however often ids are cancelled, waiters are left without a
      host refresh if and only if some cancellation named the current flight's host after it had left. */
  lemma {:induction false} StrandedExactly(inputs: seq<Input>)
    requires NewRequests(inputs)
    ensures Stranded(After(inputs)) <==> exists i: nat :: HostCancelledAgain(inputs, i)
  {
    if inputs != [] {
      var n := |inputs| - 1;
      var below := inputs[..n];
      StrandedExactly(below);
      RunKeepsSorted(below);
      StrandedNext(After(below), inputs[n]);
      if Stranded(After(inputs)) {
        if Stranded(After(below)) {
          var i: nat :| HostCancelledAgain(below, i);
          assert inputs[..i] == below[..i];
          assert HostCancelledAgain(inputs, i);
        } else {
          assert HostCancelledAgain(inputs, n);
        }
      }
      forall i: nat | HostCancelledAgain(inputs, i) ensures Stranded(After(inputs)) {
        CancelledAgainStrands(inputs, i);
      }
    }
  }

  lemma CancelledAgainStrands(inputs: seq<Input>, i: nat)
    requires NewRequests(inputs) && HostCancelledAgain(inputs, i)
    requires var below := inputs[..|inputs| - 1];
      Stranded(After(below)) <==> exists j: nat :: HostCancelledAgain(below, j)
    ensures Stranded(After(inputs))
  {
    var n := |inputs| - 1;
    var below := inputs[..n];
    var host := After(inputs).active.value.host;
    RunKeepsSorted(below);
    StrandedNext(After(below), inputs[n]);
    LeftWasRequested(inputs, i, host);
    HostStays(After(below), inputs[n], host);
    if i < n {
      assert below[..i] == inputs[..i];
      assert HostCancelledAgain(below, i);
    }
  }

  /** A host that was requested before is the host of a flight that goes on. */
  lemma HostStays(l: Ledger, input: Input, host: string)
    requires NewRequest(l, input) && host in l.requested
    requires Next(l, input).active.Some? && Next(l, input).active.value.host == host
    ensures l.active.Some? && l.active.value.host == host
  {
  }

  /** Such a run: the host effect is cancelled twice while another waits. */
  lemma RepeatedCancelStrands()
    ensures var inputs := [Emitted(RefreshAuth("a")), Emitted(RefreshAuth("b")), Emitted(CancelEffect("a")),
                           Emitted(CancelEffect("a"))];
      var l := After(inputs); Waiters(l.active) == {"b"} && l.hosts == {}
  {
    var i1 := [Emitted(RefreshAuth("a"))];
    var i2 := i1 + [Emitted(RefreshAuth("b"))];
    var i3 := i2 + [Emitted(CancelEffect("a"))];
    var i4 := i3 + [Emitted(CancelEffect("a"))];
    assert i1[..0] == [] && i2[..1] == i1 && i3[..2] == i2 && i4[..3] == i3;
    assert "a" != "b" by { assert "a"[0] != "b"[0]; }
    assert After([]) == NO_REQUESTS;
    assert After(i1).active == Some(Flight("a", {"a"})) && After(i1).hosts == {"a"};
    assert {"a"} + {"b"} == {"a", "b"};
    assert After(i2).active == Some(Flight("a", {"a", "b"})) && After(i2).hosts == {"a"};
    assert {"a", "b"} - {"a"} == {"b"} && {"b"} != {};
    assert After(i3).active == Some(Flight("a", {"b"})) && After(i3).hosts == {"a"};
    assert i4 == [Emitted(RefreshAuth("a")), Emitted(RefreshAuth("b")), Emitted(CancelEffect("a")),
                  Emitted(CancelEffect("a"))];
  }
}
