/** Runs whose echoes drain between two samples of a service: the feed is right at every moment. */
module IncidentRuns {
  import opened Wrappers
  import opened Incidents

  /** The closed incidents of a stream, newest first. */
  function Closes(events: seq<Incident>): seq<Incident> {
    if events == [] then []
    else
      var last, before := events[|events| - 1], Closes(events[..|events| - 1]);
      if last.closedAt.Some? then [last] + before else before
  }

  lemma {:induction false} ClosesOfParts(a: seq<Incident>, b: seq<Incident>)
    ensures Closes(a + b) == Closes(b) + Closes(a)
  {
    if b == [] {
      assert a + b == a;
    } else {
      assert (a + b)[..|a + b| - 1] == a + b[..|b| - 1];
      ClosesOfParts(a, b[..|b| - 1]);
    }
  }

  lemma {:induction false} ClosesAreEvents(events: seq<Incident>, inc: Incident)
    requires inc in Closes(events)
    ensures inc in events && inc.closedAt.Some?
  {
    var before := events[..|events| - 1];
    if inc in Closes(before) {
      ClosesAreEvents(before, inc);
    }
  }

  /** A service's incidents follow each other: whatever comes after a close opened later. */
  ghost predicate InTurn(events: seq<Incident>) {
    forall j, k :: 0 <= j < k < |events| && events[j].service == events[k].service && events[j].closedAt.Some? ==>
      events[j].openedAt < events[k].openedAt
  }

  /** The first place of an incident in a list without two of its id is its own. */
  lemma PlaceOfOwn(list: seq<Incident>, at: nat)
    requires at < |list| && forall i :: 0 <= i < at ==> !SameId(list[i], list[at])
    ensures PlaceOf(list, list[at]) == Some(at)
  {
    var place := PlaceOf(list, list[at]);
    assert SameId(list[at], list[at]);
  }

  lemma {:induction false} ClosesHaveOwnIds(events: seq<Incident>)
    requires InTurn(events)
    ensures forall i, j :: 0 <= i < j < |Closes(events)| ==> !SameId(Closes(events)[i], Closes(events)[j])
  {
    if events != [] {
      var before, last := events[..|events| - 1], events[|events| - 1];
      ClosesHaveOwnIds(before);
      forall inc | inc in Closes(before)
        ensures !SameId(last, inc)
      {
        ClosesAreEvents(before, inc);
        var k :| 0 <= k < |before| && before[k] == inc;
        assert events[k] == inc;
      }
    }
  }

  /** A replay's recent list is the newest closed incidents of the stream. */
  lemma {:induction false} ReplayKeepsNewest(events: seq<Incident>)
    requires InTurn(events)
    ensures Replay(events).recent == Capped(Closes(events))
  {
    if events != [] {
      var before, last := events[..|events| - 1], events[|events| - 1];
      assert forall j :: 0 <= j < |before| ==> before[j] == events[j];
      ReplayKeepsNewest(before);
      if last.closedAt.Some? {
        ClosesHaveOwnIds(events);
        forall i | 0 <= i < |Closes(before)|
          ensures !SameId(Closes(before)[i], last)
        {
          assert Closes(events)[0] == last && Closes(events)[i + 1] == Closes(before)[i];
        }
      }
    }
  }

  ghost predicate IsDown(state: State, service: string) {
    service in state.last && !state.last[service].Online?
  }

  /**
   * The step is in order: a sample comes after the echoes of the service's earlier ones and at a later
   * time, no more closes are under way than the recent list is long, and a restart finds nothing down.
   */
  ghost predicate InOrder(state: State, step: Step) {
    match step
    case Sample(service, status, when) =>
      && !Pending(state, service)
      && forall k :: 0 <= k < |state.emitted| && state.emitted[k].service == service ==>
           state.emitted[k].openedAt < when
    case Deliver =>
      state.delivered <= |state.emitted| ==> |Closes(state.emitted[state.delivered..])| <= MAX_RECENT
    case Restart =>
      forall service :: !IsDown(state, service)
  }

  ghost predicate AllInOrder(steps: seq<Step>) {
    forall n :: 0 <= n < |steps| ==> InOrder(RunFrom(START, steps[..n]), steps[n])
  }

  /** The feed is the replay of its stream, and a service is open exactly when its last status is not online. */
  ghost predicate Faithful(state: State) {
    && state.delivered <= |state.emitted|
    && state.view == Replay(state.emitted)
    && (forall service :: service in state.view.open <==> service in state.last && !state.last[service].Online?)
    && InTurn(state.emitted)
    && (forall j, k :: state.delivered <= j < k < |state.emitted| ==>
          state.emitted[j].service != state.emitted[k].service)
  }

  /** The incident is open and no event of its service comes after it. */
  ghost predicate OpensIn(events: seq<Incident>, service: string, inc: Incident) {
    exists m :: 0 <= m < |events| && events[m] == inc && inc.service == service && inc.closedAt.None?
        && LastOf(events, m)
  }

  ghost predicate LastOf(events: seq<Incident>, m: nat)
    requires m < |events|
  {
    forall k :: m < k < |events| ==> events[k].service != events[m].service
  }

  /** What a replay has open is the last event of its service. */
  lemma {:induction false} OpenIsLast(events: seq<Incident>, service: string)
    requires service in Replay(events).open
    ensures OpensIn(events, service, Replay(events).open[service])
  {
    if events != [] {
      var before, last := events[..|events| - 1], events[|events| - 1];
      if last.service == service {
        assert events[|events| - 1] == last && LastOf(events, |events| - 1);
      } else {
        OpenIsLast(before, service);
        var inc := Replay(before).open[service];
        var m :| 0 <= m < |before| && before[m] == inc && inc.service == service && inc.closedAt.None?
            && LastOf(before, m);
        forall k | m < k < |events|
          ensures events[k].service != events[m].service
        {
          assert k < |before| ==> events[k] == before[k];
        }
        assert events[m] == inc && LastOf(events, m);
      }
    }
  }

  lemma InTurnGrows(events: seq<Incident>, next: Incident)
    requires InTurn(events)
    requires forall k :: 0 <= k < |events| && events[k].service == next.service && events[k].closedAt.Some? ==>
               events[k].openedAt < next.openedAt
    ensures InTurn(events + [next])
  {
  }

  /** Applying the event of an opening, or of the close of what is open, does what the transition did. */
  lemma CloseIsNew(events: seq<Incident>, service: string, when: int)
    requires InTurn(events) && service in Replay(events).open
    ensures var closed := Replay(events).open[service].(closedAt := Some(when));
            && closed.service == service
            && InTurn(events + [closed])
            && PlaceOf(Replay(events).recent, closed).None?
  {
    OpenIsLast(events, service);
    var inc := Replay(events).open[service];
    var m :| 0 <= m < |events| && events[m] == inc && inc.service == service && inc.closedAt.None? && LastOf(events, m);
    var closed := inc.(closedAt := Some(when));
    forall k | 0 <= k < |events| && events[k].service == service && events[k].closedAt.Some?
      ensures events[k].openedAt < inc.openedAt
    {
      assert k < m;
    }
    InTurnGrows(events, closed);
    ReplayKeepsNewest(events);
    forall i | 0 <= i < |Closes(events)|
      ensures !SameId(Closes(events)[i], closed)
    {
      ClosesAreEvents(events, Closes(events)[i]);
    }
  }

  lemma SampleStaysFaithful(state: State, service: string, status: Status, when: int)
    requires Faithful(state) && InOrder(state, Sample(service, status, when))
    ensures Faithful(Next(state, Sample(service, status, when)))
  {
    hide Replay, PlaceOf, InTurn, Capped;
    var after := Next(state, Sample(service, status, when));
    var events := Sampled(state.last, state.view, service, status, when).events;
    if events == [] {
      assert after.emitted == state.emitted;
    } else {
      var event := events[0];
      assert events == [event];
      ReplayGrows(state.emitted, event);
      if status.Online? {
        CloseIsNew(state.emitted, service, when);
      } else {
        assert InTurn(state.emitted + [event]) by {
          InTurnGrows(state.emitted, event);
        }
      }
      assert forall j :: state.delivered <= j < |state.emitted| ==> state.emitted[j].service != service;
    }
  }

  /** A close stands in the newest-first list behind the closes that came after it. */
  lemma CloseStandsAt(events: seq<Incident>, d: nat)
    requires d < |events| && events[d].closedAt.Some?
    ensures |Closes(events[d..])| == |Closes(events[d + 1..])| + 1
    ensures var at := |Closes(events[d + 1..])|;
            at < |Closes(events)| && Closes(events)[at] == events[d]
  {
    var older, event, newer := events[..d], [events[d]], events[d + 1..];
    assert events == (older + event) + newer && events[d..] == event + newer;
    ClosesOfParts(older + event, newer);
    ClosesOfParts(older, event);
    ClosesOfParts(event, newer);
    assert Closes(event) == event + Closes([]);
  }

  /** A closed incident still on the recent list is found there and replaced by itself. */
  lemma CloseIsKept(events: seq<Incident>, at: nat)
    requires InTurn(events) && at < |Closes(events)| && at < MAX_RECENT
    ensures var recent := Replay(events).recent;
            && PlaceOf(recent, Closes(events)[at]) == Some(at)
            && recent[at := Closes(events)[at]] == recent
            && Capped(recent) == recent
  {
    hide Closes, Replay, InTurn;
    ReplayKeepsNewest(events);
    ClosesHaveOwnIds(events);
    PlaceOfOwn(Replay(events).recent, at);
  }

  /** The echo of a service's last event, not yet past the end of the recent list, changes nothing. */
  lemma EchoChangesNothing(events: seq<Incident>, d: nat)
    requires d < |events| && InTurn(events) && LastOf(events, d)
    requires |Closes(events[d..])| <= MAX_RECENT
    ensures Applied(Replay(events), events[d]) == Replay(events)
  {
    hide Closes, Replay, InTurn, Capped, PlaceOf;
    var event, view := events[d], Replay(events);
    LastDecides(events, d);
    if event.closedAt.None? {
      assert view.open[event.service := event] == view.open;
    } else {
      assert view.open - {event.service} == view.open;
      CloseStandsAt(events, d);
      CloseIsKept(events, |Closes(events[d + 1..])|);
    }
  }

  lemma DeliverStaysFaithful(state: State)
    requires Faithful(state) && InOrder(state, Deliver)
    ensures Faithful(Next(state, Deliver))
  {
    if state.delivered < |state.emitted| {
      EchoChangesNothing(state.emitted, state.delivered);
    }
  }

  lemma RestartStaysFaithful(state: State)
    requires Faithful(state) && InOrder(state, Restart)
    ensures Faithful(Next(state, Restart))
  {
    hide Replay, InTurn;
    forall service
      ensures service !in state.view.open
    {
      assert !IsDown(state, service);
    }
  }

  lemma StepStaysFaithful(state: State, step: Step)
    requires Faithful(state) && InOrder(state, step)
    ensures Faithful(Next(state, step))
  {
    hide Faithful, InOrder, Next;
    match step
    case Sample(service, status, when) => SampleStaysFaithful(state, service, status, when);
    case Deliver => DeliverStaysFaithful(state);
    case Restart => RestartStaysFaithful(state);
  }

  lemma InOrderSoFar(steps: seq<Step>)
    requires steps != [] && AllInOrder(steps)
    ensures var n := |steps| - 1;
            AllInOrder(steps[..n]) && InOrder(RunFrom(START, steps[..n]), steps[n])
  {
    hide InOrder, RunFrom;
    var before := steps[..|steps| - 1];
    forall n | 0 <= n < |before|
      ensures InOrder(RunFrom(START, before[..n]), before[n])
    {
      assert before[..n] == steps[..n];
    }
  }

  lemma FaithfulAtStart()
    ensures Faithful(START)
  {
  }

  /**
   * When the echoes of a service drain before its next sample and restarts find nothing down, the feed
   * is at every moment what a replay of the stream rebuilds, open and recent incidents alike, and a
   * service has an open incident exactly when its last sampled status is not online.
   */
  lemma {:induction false} FeedIsFaithful(steps: seq<Step>)
    requires AllInOrder(steps)
    ensures Faithful(RunFrom(START, steps))
    ensures RunFrom(START, steps).view.recent == Capped(Closes(RunFrom(START, steps).emitted))
  {
    hide AllInOrder, InOrder, Next, Replay, Closes, Capped, InTurn;
    if steps == [] {
      FaithfulAtStart();
    } else {
      var n := |steps| - 1;
      InOrderSoFar(steps);
      FeedIsFaithful(steps[..n]);
      StepStaysFaithful(RunFrom(START, steps[..n]), steps[n]);
    }
    ReplayKeepsNewest(RunFrom(START, steps).emitted);
  }

  // ------------------------------------------------------------------------------------------
  // What goes wrong otherwise.

  /**
   * The service's incident was left behind: its last return to online found none open and so closed
   * none, or a restart has since forgotten that it was down.
   */
  ghost predicate Missed(steps: seq<Step>, service: string) {
    if steps == [] then false
    else
      var before, step := RunFrom(START, steps[..|steps| - 1]), steps[|steps| - 1];
      if step.Sample? && step.service == service && step.status.Online? && IsDown(before, service) then
        service !in before.view.open
      else Missed(steps[..|steps| - 1], service) || (step.Restart? && IsDown(before, service))
  }

  lemma StreamGrows(state: State, step: Step, service: string)
    requires Converged(state)
    ensures var after := Next(state, step);
            if step.Sample? && step.service == service && IsDown(after, service) && !IsDown(state, service)
            then OpenFor(Replay(after.emitted), service).Some?
            else if step.Sample? && step.service == service && IsDown(state, service) && !IsDown(after, service)
                && service in state.view.open
            then OpenFor(Replay(after.emitted), service).None?
            else OpenFor(Replay(after.emitted), service).Some? == OpenFor(Replay(state.emitted), service).Some?
  {
    hide PlaceOf, Capped, Replay;
    if step.Sample? {
      var events := Sampled(state.last, state.view, step.service, step.status, step.when).events;
      if events == [] {
        assert state.emitted + events == state.emitted;
      } else {
        assert events == [events[0]];
        ReplayGrows(state.emitted, events[0]);
      }
    }
  }

  /**
   * Over every run, with any delays and restarts: the stream leaves an incident of a service open exactly
   * when its last status is not online, or its last return to online was missed or forgotten in a restart.
   * Once none of its events is under way, that is exactly when the feed shows one open.
   */
  lemma {:induction false} OpenExactly(steps: seq<Step>, service: string)
    ensures var end := RunFrom(START, steps);
            && (OpenFor(Replay(end.emitted), service).Some? <==> IsDown(end, service) || Missed(steps, service))
            && (!Pending(end, service) ==>
               (service in end.view.open <==> IsDown(end, service) || Missed(steps, service)))
  {
    hide Replay;
    EchoesConverge(steps);
    if steps == [] {
      NothingReplayed(service);
    } else {
      var before := RunFrom(START, steps[..|steps| - 1]);
      OpenExactly(steps[..|steps| - 1], service);
      EchoesConverge(steps[..|steps| - 1]);
      StreamGrows(before, steps[|steps| - 1], service);
    }
  }

  lemma NothingReplayed(service: string)
    ensures OpenFor(Replay([]), service).None?
  {
  }

  lemma RunGrows(steps: seq<Step>, step: Step) returns (grown: seq<Step>)
    ensures grown == steps + [step] && RunFrom(START, grown) == Next(RunFrom(START, steps), step)
  {
    grown := steps + [step];
    assert grown[..|grown| - 1] == steps;
  }

  /**
   * A service that comes back up before the echo of its earlier close arrives can stay open for good:
   * the late close removes the new incident, so the return to online closes nothing, and the last
   * echo opens it again. Nothing is under way, the service is online, and its incident is open.
   */
  lemma LateEchoLeavesIncidentOpen(service: string)
    ensures exists steps :: var end := RunFrom(START, steps);
              && end.delivered == |end.emitted|
              && service in end.last && end.last[service].Online?
              && service in end.view.open
  {
    var steps := DownUpDown(service);
    steps := RunGrows(steps, Deliver);
    steps := RunGrows(steps, Deliver);
    steps := RunGrows(steps, Sample(service, Online, 4));
    steps := RunGrows(steps, Deliver);
    assert service in RunFrom(START, steps).view.open;
  }

  /** Down at 1, up at 2, down again at 3, with no echo delivered yet. */
  lemma DownUpDown(service: string) returns (steps: seq<Step>)
    ensures var down, again := Incident(service, P2, 1, None), Incident(service, P2, 3, None);
            var up := down.(closedAt := Some(2));
            RunFrom(START, steps) ==
                State(map[service := Offline], View(map[service := again], [up]), [down, up, again], 0)
  {
    steps := RunGrows([], Sample(service, Offline, 1));
    steps := RunGrows(steps, Sample(service, Online, 2));
    steps := RunGrows(steps, Sample(service, Offline, 3));
    assert RunFrom(START, steps).emitted ==
      [Incident(service, P2, 1, None), Incident(service, P2, 1, Some(2)), Incident(service, P2, 3, None)];
  }

  /**
   * The first sample of a service after a restart leaves the feed right about it, unless the service
   * came back online while the process was down: then its incident stays open.
   */
  lemma RestartForgetsRecovery(state: State, service: string, status: Status, when: int)
    ensures var end := Next(Restarted(state), Sample(service, status, when));
            (service in end.view.open <==> !end.last[service].Online?) <==>
            !(service in Replay(state.emitted).open && status.Online?)
  {
  }
}
