/** The polling hook of `src/monitor/use-polling.ts`: one effect at a time asks for a path again and again; hiding the
    page, a change of scope and a settling request may come in any order. */
module Polling {
  import opened Options

  datatype Observation = Observation(path: string, data: Option<string>, observedAt: Option<nat>, error: Option<string>,
                                     unreachable: bool)

  datatype Outcome = Loaded(data: string) | Failed(message: string, unreachable: bool)

  datatype Delay = AtOnce | Interval

  /** The variables of the effect in force, and what the browser keeps for the page: requests unsettled with
      the path each asks for, requests aborted, timers running. A request or timer is a number never used twice. */
  datatype State = State(path: string, current: bool, hidden: bool, controller: Option<nat>, timer: Option<nat>,
                         timers: map<nat, Delay>, inFlight: map<nat, string>, aborted: set<nat>, stored: Observation,
                         next: nat)

  datatype Event =
    | Mount(path: string)                                // the effect runs, for this scope
    | CleanUp                                            // its cleanup runs
    | Settle(request: nat, outcome: Outcome, now: nat)
    | Fire(timer: nat)
    | Visibility(hidden: bool)

  function Nothing(path: string): Observation { Observation(path, None, None, None, false) }

  function Start(path: string): State { State(path, false, false, None, None, map[], map[], {}, Nothing(path), 0) }

  // ---------- the handlers ----------

  function Poll(s: State): State {
    if !s.current || s.hidden || s.controller.Some? then s
    else s.(controller := Some(s.next), inFlight := s.inFlight[s.next := s.path], next := s.next + 1)
  }

  function ClearTimer(s: State): State { if s.timer.None? then s else s.(timers := s.timers - {s.timer.value}) }

  function Abort(s: State): State {
    if s.controller.None? then s else s.(aborted := s.aborted + {s.controller.value})
  }

  function Store(s: State, outcome: Outcome, now: nat): State {
    match outcome
    case Loaded(data) => s.(stored := Observation(s.path, Some(data), Some(now), None, false))
    case Failed(message, unreachable) =>
      var prior := if s.stored.path == s.path then s.stored else Nothing(s.path);
      s.(stored := prior.(path := s.path, error := Some(message), unreachable := unreachable))
  }

  function SetTimer(s: State, delay: Delay): State {
    s.(timer := Some(s.next), timers := s.timers[s.next := delay], next := s.next + 1)
  }

  /** The request of the effect in force settles: store, let go of the controller, and ask again later. */
  function SettleOwn(s: State, request: nat, outcome: Outcome, now: nat): State {
    var kept := if s.current && request !in s.aborted then Store(s, outcome, now) else s;
    var free := kept.(controller := None);
    if free.current && !free.hidden then SetTimer(free, if request in s.aborted then AtOnce else Interval) else free
  }

  /** One event; one that cannot happen now changes nothing. A request of an effect that is gone settles into nothing:
      that effect is not current, and its variables are its own. */
  function Step(s: State, e: Event): State {
    match e
    case Mount(path) =>
      if s.current then s else Poll(s.(path := path, current := true, controller := None, timer := None))
    case CleanUp =>
      if !s.current then s else ClearTimer(Abort(s)).(current := false)
    case Settle(request, outcome, now) =>
      if request !in s.inFlight then s
      else
        var settled := s.(inFlight := s.inFlight - {request});
        if s.controller == Some(request) then SettleOwn(settled, request, outcome, now) else settled
    case Fire(timer) =>
      if timer !in s.timers then s else Poll(s.(timers := s.timers - {timer}))
    case Visibility(hidden) =>
      var seen := s.(hidden := hidden);
      if !s.current then seen
      else if hidden then Abort(ClearTimer(seen))
      else Poll(ClearTimer(seen))
  }

  function Run(path: string, events: seq<Event>): State {
    if events == [] then Start(path) else Step(Run(path, events[..|events| - 1]), events[|events| - 1])
  }

  // ---------- what every handler keeps ----------

  predicate Inv(s: State) {
    // every number handed out is below the next one
    && (forall r :: r in s.inFlight ==> r < s.next) && (forall t :: t in s.timers ==> t < s.next)
    && (forall r :: r in s.aborted ==> r < s.next)
    // a running timer is the one in the variable, of an effect in force on a visible page
    && (forall t :: t in s.timers ==> s.timer == Some(t) && s.current && !s.hidden && s.controller.None?)
    // an unsettled request is the controller's, or was aborted
    && (forall r :: r in s.inFlight ==> s.controller == Some(r) || r in s.aborted)
    && (s.controller.Some? && s.current ==> s.controller.value in s.inFlight)
    && (s.controller.Some? && (!s.current || s.hidden) ==> s.controller.value in s.aborted)
    && (s.controller.Some? && s.current ==> s.inFlight[s.controller.value] == s.path)
    // an effect in force on a visible page has a request or a timer
    && (s.current && !s.hidden && s.controller.None? ==> exists t :: t in s.timers)
    && (s.controller.Some? ==> s.controller.value < s.next) && (s.timer.Some? ==> s.timer.value < s.next)
  }

  lemma PollKeepsInv(s: State, e: Event)
    requires Inv(s) && (e.Mount? || e.Fire?)
    ensures Inv(Step(s, e))
  {}

  lemma SettleKeepsInv(s: State, e: Event)
    requires Inv(s) && e.Settle?
    ensures Inv(Step(s, e))
  {
    hide Store;
    StoreTouchesStored(s.(inFlight := s.inFlight - {e.request}), e.outcome, e.now);
    if s.controller == Some(e.request) && s.current && !s.hidden { assert s.next in Step(s, e).timers; }
  }

  lemma StoreTouchesStored(s: State, outcome: Outcome, now: nat)
    ensures Store(s, outcome, now) == s.(stored := Store(s, outcome, now).stored)
  {}

  lemma VisibilityKeepsInv(s: State, e: Event)
    requires Inv(s) && (e.Visibility? || e.CleanUp?)
    ensures Inv(Step(s, e))
  {}

  lemma StepKeepsInv(s: State, e: Event)
    requires Inv(s)
    ensures Inv(Step(s, e))
  {
    hide Inv, Step;
    match e
    case Settle(_, _, _) => SettleKeepsInv(s, e);
    case Visibility(_) => VisibilityKeepsInv(s, e);
    case CleanUp => VisibilityKeepsInv(s, e);
    case _ => PollKeepsInv(s, e);
  }

  lemma {:induction false} RunKeepsInv(path: string, events: seq<Event>)
    ensures Inv(Run(path, events))
  {
    hide Step, Inv;
    if events == [] {
      assert Inv(Start(path)) by { StartIsInv(path); }
    } else {
      RunKeepsInv(path, events[..|events| - 1]);
      StepKeepsInv(Run(path, events[..|events| - 1]), events[|events| - 1]);
    }
  }

  lemma StartIsInv(path: string)
    ensures Inv(Start(path))
  {}

  /** A request that was not aborted. */
  predicate Live(s: State, request: nat) { request in s.inFlight && request !in s.aborted }

  /** Over any run: a live request and a running timer never coexist, there is at most one of either, both belong to an
      effect in force on a visible page, and such an effect always has one of them or an aborted request still to
      settle. */
  lemma PollsNeverOverlap(path: string, events: seq<Event>)
    ensures var s := Run(path, events);
      && (forall r, t :: Live(s, r) && t in s.timers ==> false)
      && (forall r, q :: Live(s, r) && Live(s, q) ==> r == q)
      && (forall t, u :: t in s.timers && u in s.timers ==> t == u)
      && (forall r :: Live(s, r) ==> s.current && !s.hidden && s.inFlight[r] == s.path)
      && (forall t :: t in s.timers ==> s.current && !s.hidden)
      && (s.current && !s.hidden ==>
            ((exists t :: t in s.timers) <==> s.controller.None?)
            && (s.controller.Some? ==> s.controller.value in s.inFlight))
  {
    hide Run;
    RunKeepsInv(path, events);
  }

  /** After its cleanup an effect stores nothing and starts nothing; neither does an aborted request store. */
  lemma OnlyLiveRequestsStore(path: string, events: seq<Event>, e: Event)
    ensures var s := Run(path, events);
      Step(s, e).stored != s.stored ==>
        e.Settle? && s.current && s.controller == Some(e.request) && Live(s, e.request)
        && s.inFlight[e.request] == s.path == Step(s, e).stored.path
    ensures var s := Run(path, events);
      !s.current && !e.Mount? ==>
        Step(s, e).timers == s.timers == map[] && Step(s, e).inFlight.Keys <= s.inFlight.Keys && !Step(s, e).current
  {
    hide Run;
    RunKeepsInv(path, events);
  }

  /** A request in force that was not aborted always stores what it comes to: data and its time, with no error; or an
      error, over the data shown for the path so far. */
  lemma LiveRequestStores(path: string, events: seq<Event>, request: nat, outcome: Outcome, now: nat)
    requires Live(Run(path, events), request)
    ensures var s := Run(path, events);
      var was, shown := s.stored, Step(s, Settle(request, outcome, now)).stored;
      && shown.path == s.path
      && match outcome
         case Loaded(data) =>
           shown.data == Some(data) && shown.observedAt == Some(now) && shown.error.None? && !shown.unreachable
         case Failed(message, unreachable) =>
           && shown.error == Some(message) && shown.unreachable == unreachable
           && shown.data == (if was.path == s.path then was.data else None)
           && shown.observedAt == (if was.path == s.path then was.observedAt else None)
  {
    hide Run;
    RunKeepsInv(path, events);
  }

  /** Step i stores: a request that was not aborted settles. */
  predicate StoresAt(path: string, events: seq<Event>, i: nat)
    requires i < |events|
  {
    events[i].Settle? && Live(Run(path, events[..i]), events[i].request)
  }

  /** Step i is the last that stores. */
  ghost predicate LastToStore(path: string, events: seq<Event>, i: nat)
    requires i < |events|
  {
    StoresAt(path, events, i) && forall j :: i < j < |events| ==> !StoresAt(path, events, j)
  }

  lemma LastOneMore(path: string, events: seq<Event>, i: nat)
    requires events != [] && i < |events|
    ensures var n := |events| - 1;
      LastToStore(path, events, i)
      <==> if i == n then StoresAt(path, events, n)
           else LastToStore(path, events[..n], i) && !StoresAt(path, events, n)
  {
    hide Run, Live;
    var before := events[..|events| - 1];
    assert forall k :: 0 <= k < |events| ==> before[..k] == events[..k];
    assert forall k :: 0 <= k < |before| ==> (StoresAt(path, events, k) <==> StoresAt(path, before, k));
  }

  ghost predicate ShownAfter(path: string, events: seq<Event>, i: nat)
    requires i < |events|
  {
    && LastToStore(path, events, i) && events[i].Settle?
    && ShowsOutcome(Run(path, events).stored, events[i].outcome, Run(path, events[..i]).path)
  }

  /** What is shown of errors is what the last request to settle unaborted came to, under the path it was for; nothing
      is shown before there was one. */
  lemma {:induction false} ErrorIsTheLast(path: string, events: seq<Event>)
    ensures || (Run(path, events).stored == Observation(path, None, None, None, false)
                && forall i :: 0 <= i < |events| ==> !StoresAt(path, events, i))
            || exists i: nat :: i < |events| && ShownAfter(path, events, i)
  {
    hide Step, Live, LastToStore, ShowsOutcome;
    if events == [] {
    } else {
      var n := |events| - 1;
      var before := events[..n];
      ErrorIsTheLast(path, before);
      LastOneMore(path, events, n);
      assert forall k :: 0 <= k < |events| ==> before[..k] == events[..k];
      assert forall k :: 0 <= k < n ==> (StoresAt(path, events, k) <==> StoresAt(path, before, k));
      if StoresAt(path, events, n) {
        assert ShowsOutcome(Run(path, events).stored, events[n].outcome, Run(path, events[..n]).path) by {
          SettledShows(path, before, events[n]);
        }
        assert ShownAfter(path, events, n);
      } else {
        NothingStored(path, before, events[n]);
        if i: nat :| i < n && ShownAfter(path, before, i) {
          LastOneMore(path, events, i);
          assert before[..i] == events[..i];
          assert ShownAfter(path, events, i);
        }
      }
    }
  }

  lemma SettledShows(path: string, before: seq<Event>, e: Event)
    requires e.Settle? && Live(Run(path, before), e.request)
    ensures ShowsOutcome(Step(Run(path, before), e).stored, e.outcome, Run(path, before).path)
  {
    hide Step, Run, Live;
    LiveRequestStores(path, before, e.request, e.outcome, e.now);
  }

  predicate ShowsOutcome(shown: Observation, outcome: Outcome, path: string) {
    && shown.path == path
    && shown.error == (if outcome.Failed? then Some(outcome.message) else None)
    && shown.unreachable == (outcome.Failed? && outcome.unreachable)
  }

  lemma NothingStored(path: string, before: seq<Event>, e: Event)
    requires !(e.Settle? && Live(Run(path, before), e.request))
    ensures Step(Run(path, before), e).stored == Run(path, before).stored
  {
    hide Run;
    RunKeepsInv(path, before);
  }

  /** The next look comes at once after an aborted request, and after the interval otherwise. */
  lemma DelayTellsAborted(path: string, events: seq<Event>, request: nat, outcome: Outcome, now: nat)
    requires var s := Run(path, events);
      request in s.inFlight && s.controller == Some(request) && s.current && !s.hidden
    ensures var s := Run(path, events);
      var t := Step(s, Settle(request, outcome, now));
      t.timers == map[s.next := if request in s.aborted then AtOnce else Interval] && t.controller.None?
  {
    hide Run;
    RunKeepsInv(path, events);
  }

  // ---------- where what is shown comes from ----------

  /** At step i a live request for this path delivered this data. */
  predicate Delivered(path: string, events: seq<Event>, i: nat, shown: Observation)
    requires i < |events|
  {
    var s := Run(path, events[..i]);
    && events[i].Settle? && Live(s, events[i].request) && s.inFlight[events[i].request] == shown.path
    && events[i].outcome.Loaded? && shown.data == Some(events[i].outcome.data)
    && shown.observedAt == Some(events[i].now)
  }

  ghost predicate DataDelivered(path: string, events: seq<Event>) {
    var shown := Run(path, events).stored;
    shown.data.Some? ==> exists i :: 0 <= i < |events| && Delivered(path, events, i, shown)
  }

  /** Whatever errors came since, data shown under a path was delivered by a request for that path, never aborted, and
      carries the time it was. */
  lemma {:induction false} ShownWasDelivered(path: string, events: seq<Event>)
    ensures DataDelivered(path, events)
  {
    hide Inv, Step;
    if events != [] {
      var n := |events| - 1;
      var before := events[..n];
      ShownWasDelivered(path, before);
      var was, now := Run(path, before).stored, Run(path, events).stored;
      StoredStep(path, before, events[n]);
      if now.data.Some? && now.data == was.data && now.observedAt == was.observedAt && now.path == was.path {
        var i :| 0 <= i < |before| && Delivered(path, before, i, was);
        assert before[..i] == events[..i];
        assert Delivered(path, events, i, now);
      } else if now.data.Some? {
        assert Delivered(path, events, n, now);
      }
    }
  }

  lemma StoredStep(path: string, before: seq<Event>, e: Event)
    ensures var s := Run(path, before);
      var was, now := s.stored, Step(s, e).stored;
      now.data.Some? ==>
        || (now.data == was.data && now.observedAt == was.observedAt && now.path == was.path)
        || (e.Settle? && Live(s, e.request) && s.inFlight[e.request] == now.path && e.outcome.Loaded?
            && now.data == Some(e.outcome.data) && now.observedAt == Some(e.now))
  {
    hide Run;
    RunKeepsInv(path, before);
  }

  // ---------- the hook's closures ----------

  /** The effect's handlers as they run, each a few changes of the same variables. */
  class Poller {
    var s: State

    constructor (path: string)
      ensures s == Start(path)
    {
      s := Start(path);
    }

    method Ask()
      modifies this
      ensures s == Poll(old(s))
    {
      if !s.current || s.hidden || s.controller.Some? {
        return;
      }
      var active := s.next;
      s := s.(controller := Some(active), next := s.next + 1);
      s := s.(inFlight := s.inFlight[active := s.path]);
    }

    method OnSettle(request: nat, outcome: Outcome, now: nat)
      requires request in s.inFlight && s.controller == Some(request)
      modifies this
      ensures s == Step(old(s), Settle(request, outcome, now))
    {
      s := s.(inFlight := s.inFlight - {request});
      var wasAborted := request in s.aborted;
      if outcome.Loaded? {
        if s.current && !wasAborted {
          s := s.(stored := Observation(s.path, Some(outcome.data), Some(now), None, false));
        }
      } else if s.current && !wasAborted {
        var prior := if s.stored.path == s.path then s.stored else Nothing(s.path);
        s := s.(stored := prior.(path := s.path, error := Some(outcome.message), unreachable := outcome.unreachable));
      }
      s := s.(controller := None);
      if s.current && !s.hidden {
        s := SetTimer(s, if wasAborted then AtOnce else Interval);
      }
    }

    method OnVisibility(hidden: bool)
      requires s.current
      modifies this
      ensures s == Step(old(s), Visibility(hidden))
    {
      s := s.(hidden := hidden);
      s := ClearTimer(s);
      if hidden {
        s := Abort(s);
      } else {
        Ask();
      }
    }

    method OnMount(path: string)
      requires !s.current
      modifies this
      ensures s == Step(old(s), Mount(path))
    {
      s := s.(path := path, current := true, controller := None, timer := None);
      Ask();
    }

    method OnCleanUp()
      requires s.current
      modifies this
      ensures s == Step(old(s), CleanUp)
    {
      s := s.(current := false);
      s := Abort(s);
      s := ClearTimer(s);
    }

    method OnFire(timer: nat)
      requires timer in s.timers
      modifies this
      ensures s == Step(old(s), Fire(timer))
    {
      s := s.(timers := s.timers - {timer});
      Ask();
    }
  }
}
