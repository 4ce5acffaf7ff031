/**
 * The incident machine: status changes open and close incidents, every change is emitted as an event,
 * and the same events come back later and are applied to the same state.
 */
module Incidents {
  import opened Wrappers

  const MAX_RECENT := 200

  datatype Status = Online | Degraded | Offline

  datatype Severity = P2 | P3

  /** An incident; its id is its service and the time it opened at. */
  datatype Incident = Incident(service: string, severity: Severity, openedAt: int, closedAt: Option<int>)

  /** What the incident feed is read from: open incidents by service and closed ones, newest first. */
  datatype View = View(open: map<string, Incident>, recent: seq<Incident>)

  /** A view and the events emitted on the way to it. */
  datatype Effect = Effect(view: View, events: seq<Incident>)

  predicate SameId(a: Incident, b: Incident) {
    a.service == b.service && a.openedAt == b.openedAt
  }

  function Capped(recent: seq<Incident>): seq<Incident> {
    if |recent| > MAX_RECENT then recent[..MAX_RECENT] else recent
  }

  /** The first place in the list that holds an incident of this id. */
  function PlaceOf(recent: seq<Incident>, inc: Incident): (place: Option<nat>)
    ensures place.Some? ==>
              && place.value < |recent|
              && SameId(recent[place.value], inc)
              && forall i :: 0 <= i < place.value ==> !SameId(recent[i], inc)
    ensures place.None? ==> forall i :: 0 <= i < |recent| ==> !SameId(recent[i], inc)
  {
    if recent == [] then None
    else if SameId(recent[0], inc) then Some(0)
    else
      match PlaceOf(recent[1..], inc)
      case None => None
      case Some(place) => Some(place + 1)
  }

  /** An event applied to the view. */
  function Applied(view: View, inc: Incident): View {
    if inc.closedAt.None? then view.(open := view.open[inc.service := inc])
    else
      var place := PlaceOf(view.recent, inc);
      var recent := if place.None? then [inc] + view.recent else view.recent[place.value := inc];
      View(view.open - {inc.service}, Capped(recent))
  }

  /** A status change acts on the view at once and emits what it did. */
  function Transition(view: View, service: string, prev: Status, next: Status, when: int): Effect {
    if prev.Online? == next.Online? then Effect(view, [])
    else if !next.Online? then
      var incident := Incident(service, if next.Offline? then P2 else P3, when, None);
      Effect(view.(open := view.open[service := incident]), [incident])
    else if service !in view.open then Effect(view, [])
    else
      var closed := view.open[service].(closedAt := Some(when));
      Effect(View(view.open - {service}, Capped([closed] + view.recent)), [closed])
  }

  /** The sampler sees a service; a first sight counts as a change from online. */
  function Sampled(last: map<string, Status>, view: View, service: string, status: Status, when: int): Effect {
    Transition(view, service, if service in last then last[service] else Online, status, when)
  }

  /** The list is the newest 200 of these. */
  predicate Newest(recent: seq<Incident>, all: seq<Incident>) {
    recent <= all && |recent| == if |all| > 200 then 200 else |all|
  }

  /** The i-th is the first with the id of this one. */
  ghost predicate FirstAt(recent: seq<Incident>, inc: Incident, i: int) {
    && 0 <= i < |recent| && recent[i].service == inc.service && recent[i].openedAt == inc.openedAt
    && forall j :: 0 <= j < i ==> !SameId(recent[j], inc)
  }

  class IncidentFeed {
    var lastStatus: map<string, Status>
    var openIncidents: map<string, Incident>
    var recentIncidents: seq<Incident>
    ghost var emitted: seq<Incident>

    ghost function Shown(): View
      reads this
    {
      View(openIncidents, recentIncidents)
    }

    constructor ()
      ensures lastStatus == map[] && Shown() == View(map[], []) && emitted == []
    {
      lastStatus, openIncidents, recentIncidents, emitted := map[], map[], [], [];
    }

    method HandleTransition(service: string, prev: Status, next: Status, when: int)
      modifies this`openIncidents, this`recentIncidents, this`emitted
      ensures Effect(Shown(), emitted) ==
              var effect := Transition(old(Shown()), service, prev, next, when);
              effect.(events := old(emitted) + effect.events)
    {
      var wasUp := prev == Online;
      var isUp := next == Online;
      if wasUp == isUp {
        return;
      }
      if !isUp {
        var incident := Incident(service, if next == Offline then P2 else P3, when, None);
        openIncidents := openIncidents[service := incident];
        emitted := emitted + [incident];
      } else {
        if service !in openIncidents {
          return;
        }
        var closed := openIncidents[service].(closedAt := Some(when));
        openIncidents := openIncidents - {service};
        recentIncidents := [closed] + recentIncidents;
        if |recentIncidents| > MAX_RECENT {
          recentIncidents := recentIncidents[..MAX_RECENT];
        }
        emitted := emitted + [closed];
      }
    }

    method Sample(service: string, status: Status, when: int)
      modifies this
      ensures lastStatus == old(lastStatus)[service := status]
      ensures var wasUp := service !in old(lastStatus) || old(lastStatus)[service] == Online;
              && (wasUp && status != Online ==>
                    var raised := Incident(service, if status == Offline then P2 else P3, when, None);
                    && openIncidents == old(openIncidents)[service := raised]
                    && recentIncidents == old(recentIncidents) && emitted == old(emitted) + [raised])
              && (!wasUp && status == Online && service in old(openIncidents) ==>
                    var closed := old(openIncidents)[service].(closedAt := Some(when));
                    && openIncidents == old(openIncidents) - {service}
                    && Newest(recentIncidents, [closed] + old(recentIncidents))
                    && emitted == old(emitted) + [closed])
              && (wasUp == (status == Online) || (!wasUp && service !in old(openIncidents)) ==>
                    Shown() == old(Shown()) && emitted == old(emitted))
      ensures Effect(Shown(), emitted) ==
              var effect := Sampled(old(lastStatus), old(Shown()), service, status, when);
              effect.(events := old(emitted) + effect.events)
    {
      if service in lastStatus {
        var prev := lastStatus[service];
        lastStatus := lastStatus[service := status];
        if prev != status {
          HandleTransition(service, prev, status, when);
        }
      } else {
        lastStatus := lastStatus[service := status];
        if status != Online {
          HandleTransition(service, Online, status, when);
        }
      }
    }

    method ApplyIncident(inc: Incident)
      modifies this`openIncidents, this`recentIncidents
      ensures inc.closedAt == None ==>
                openIncidents == old(openIncidents)[inc.service := inc] && recentIncidents == old(recentIncidents)
      ensures inc.closedAt != None ==>
                && openIncidents == old(openIncidents) - {inc.service}
                && ((forall i :: 0 <= i < |old(recentIncidents)| ==> !SameId(old(recentIncidents)[i], inc)) ==>
                      Newest(recentIncidents, [inc] + old(recentIncidents)))
                && (forall i :: FirstAt(old(recentIncidents), inc, i) ==>
                      Newest(recentIncidents, old(recentIncidents)[i := inc]))
      ensures Shown() == Applied(old(Shown()), inc)
    {
      if inc.closedAt.None? {
        openIncidents := openIncidents[inc.service := inc];
      } else {
        openIncidents := openIncidents - {inc.service};
        var place := PlaceOf(recentIncidents, inc);
        if place.None? {
          recentIncidents := [inc] + recentIncidents;
        } else {
          recentIncidents := recentIncidents[place.value := inc];
        }
        if |recentIncidents| > MAX_RECENT {
          recentIncidents := recentIncidents[..MAX_RECENT];
        }
      }
    }
  }

  // ------------------------------------------------------------------------------------------
  // Runs: samples, deliveries of the emitted events in order, after any delay, and restarts.

  datatype Step = Sample(service: string, status: Status, when: int) | Deliver | Restart

  datatype State = State(last: map<string, Status>, view: View, emitted: seq<Incident>, delivered: nat)

  const START := State(map[], View(map[], []), [], 0)

  /** What a restarted process rebuilds from the stream. */
  function Replay(events: seq<Incident>): View {
    if events == [] then View(map[], [])
    else Applied(Replay(events[..|events| - 1]), events[|events| - 1])
  }

  /** After a restart the statuses are forgotten and the view is the stream's replay. */
  function Restarted(state: State): State {
    State(map[], Replay(state.emitted), state.emitted, |state.emitted|)
  }

  function Next(state: State, step: Step): State {
    match step
    case Sample(service, status, when) =>
      var effect := Sampled(state.last, state.view, service, status, when);
      State(state.last[service := status], effect.view, state.emitted + effect.events, state.delivered)
    case Deliver =>
      if state.delivered < |state.emitted| then
        state.(view := Applied(state.view, state.emitted[state.delivered]), delivered := state.delivered + 1)
      else state
    case Restart => Restarted(state)
  }

  function RunFrom(start: State, steps: seq<Step>): State {
    if steps == [] then start
    else Next(RunFrom(start, steps[..|steps| - 1]), steps[|steps| - 1])
  }

  function OpenFor(view: View, service: string): Option<Incident> {
    if service in view.open then Some(view.open[service]) else None
  }

  predicate Pending(state: State, service: string) {
    exists k :: state.delivered <= k < |state.emitted| && state.emitted[k].service == service
  }

  /** What an event leaves open for its service. */
  function Leaves(inc: Incident): Option<Incident> {
    if inc.closedAt.None? then Some(inc) else None
  }

  /** The last event for a service decides what a replay leaves open for it. */
  lemma {:induction false} LastDecides(events: seq<Incident>, k: nat)
    requires k < |events| && forall j :: k < j < |events| ==> events[j].service != events[k].service
    ensures OpenFor(Replay(events), events[k].service) == Leaves(events[k])
  {
    if k < |events| - 1 {
      LastDecides(events[..|events| - 1], k);
    }
  }

  lemma ReplayGrows(events: seq<Incident>, next: Incident)
    ensures Replay(events + [next]) == Applied(Replay(events), next)
  {
    assert (events + [next])[..|events|] == events;
  }

  /** Every service with no event under way is open exactly as a replay of the stream has it. */
  ghost predicate Converged(state: State) {
    && state.delivered <= |state.emitted|
    && (forall service :: service in state.view.open ==> state.view.open[service].service == service)
    && forall service :: !Pending(state, service) ==>
         OpenFor(state.view, service) == OpenFor(Replay(state.emitted), service)
  }

  lemma SampleConverges(state: State, service: string, status: Status, when: int)
    requires Converged(state)
    ensures Converged(Next(state, Sample(service, status, when)))
  {
    var after := Next(state, Sample(service, status, when));
    var events := Sampled(state.last, state.view, service, status, when).events;
    assert |events| <= 1;
    if |events| == 1 {
      ReplayGrows(state.emitted, events[0]);
      assert after.emitted[|state.emitted|].service == service;
    } else {
      assert after.emitted == state.emitted;
    }
    forall other | !Pending(after, other)
      ensures OpenFor(after.view, other) == OpenFor(Replay(after.emitted), other)
    {
      assert forall k :: state.delivered <= k < |state.emitted| ==> after.emitted[k] == state.emitted[k];
      assert !Pending(state, other);
    }
  }

  lemma DeliverConverges(state: State)
    requires Converged(state)
    ensures Converged(Next(state, Deliver))
  {
    if state.delivered < |state.emitted| {
      var after, event := Next(state, Deliver), state.emitted[state.delivered];
      forall other | !Pending(after, other)
        ensures OpenFor(after.view, other) == OpenFor(Replay(after.emitted), other)
      {
        if other == event.service {
          LastDecides(state.emitted, state.delivered);
        } else {
          assert !Pending(state, other);
        }
      }
    }
  }

  lemma {:induction false} ReplayOpensOwn(events: seq<Incident>)
    ensures forall service :: service in Replay(events).open ==> Replay(events).open[service].service == service
  {
    if events != [] {
      ReplayOpensOwn(events[..|events| - 1]);
    }
  }

  /**
   * Whatever the delays and the restarts: in every run, a service none of whose events is under way is open exactly as
   * a replay of the whole stream has it; with nothing under way the open incidents are the replayed ones.
   */
  lemma {:induction false} EchoesConverge(steps: seq<Step>)
    ensures Converged(RunFrom(START, steps))
    ensures var end := RunFrom(START, steps);
            end.delivered == |end.emitted| ==> end.view.open == Replay(end.emitted).open
  {
    if steps != [] {
      var before := RunFrom(START, steps[..|steps| - 1]);
      EchoesConverge(steps[..|steps| - 1]);
      match steps[|steps| - 1]
      case Sample(service, status, when) => SampleConverges(before, service, status, when);
      case Deliver => DeliverConverges(before);
      case Restart => ReplayOpensOwn(before.emitted);
    }
    var end := RunFrom(START, steps);
    if end.delivered == |end.emitted| {
      var replayed := Replay(end.emitted).open;
      forall service
        ensures service in end.view.open <==> service in replayed
        ensures service in replayed ==> end.view.open[service] == replayed[service]
      {
        assert !Pending(end, service);
        assert OpenFor(end.view, service) == OpenFor(Replay(end.emitted), service);
      }
    }
  }
}
