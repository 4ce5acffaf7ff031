/** The live registry of applications: who is online, as told by registrations, heartbeats and the clock. */
module AppRegistry {
  import opened Wrappers

  const STALENESS_DEGRADED_MS := 90_000
  const STALENESS_OFFLINE_MS := 180_000
  const STALENESS_CHECK_MS := 60_000
  const MAX_MANIFEST_HISTORY := 10

  datatype Status = Online | Degraded | Offline

  /** A time as read from a message; one that does not parse is older and younger than nothing. */
  datatype Timestamp = At(ms: int) | Unparsed

  /** A registry entry; each registration makes a new one, told apart by its number. */
  datatype App = App(
    entry: nat,
    version: string,
    status: Status,
    lastHeartbeat: Timestamp,
    httpReachable: Option<bool>,
    manifest: Option<string>)

  datatype ManifestVersion = ManifestVersion(version: string, manifest: string, registeredAt: int)

  datatype Event =
    | Register(id: string, version: string, manifest: Option<string>)
    | Heartbeat(id: string, timestamp: Option<Timestamp>)
    | Deregister(id: string)
    | CheckStaleness
    /** The answer to a probe that began when `entry` was the app's. */
    | Probe(id: string, entry: nat, ok: bool)

  /** `now - heartbeat > limit`, which nothing satisfies when the heartbeat does not parse. */
  predicate OlderThan(heartbeat: Timestamp, now: int, limit: int) {
    heartbeat.At? && now - heartbeat.ms > limit
  }

  function Checked(app: App, now: int): App {
    if app.status.Offline? then app
    else if OlderThan(app.lastHeartbeat, now, STALENESS_OFFLINE_MS) then
      app.(status := if app.httpReachable == Some(true) then Degraded else Offline)
    else if OlderThan(app.lastHeartbeat, now, STALENESS_DEGRADED_MS) then app.(status := Degraded)
    else app
  }

  /** What an event makes of the app with this id. */
  function Next(app: Option<App>, id: string, event: Event, now: int): Option<App> {
    match event
    case Register(name, version, manifest) =>
      if name == "" || name != id then app
      else
        Some(App(if app.Some? then app.value.entry + 1 else 0, version, Online, At(now),
                 if app.Some? then app.value.httpReachable else None, manifest))
    case Heartbeat(name, timestamp) =>
      if name == "" || name != id || app.None? then app
      else Some(app.value.(lastHeartbeat := timestamp.Or(Some(At(now))).value, status := Online))
    case Deregister(name) =>
      if name == "" || name != id || app.None? then app else Some(app.value.(status := Offline))
    case CheckStaleness =>
      if app.None? then None else Some(Checked(app.value, now))
    case Probe(name, entry, ok) =>
      if name != id || app.None? || app.value.entry != entry then app
      else Some(app.value.(httpReachable := Some(ok),
                           status := if ok && app.value.status.Offline? then Degraded else app.value.status))
  }

  /** A registration with a manifest adds to the history, unless its version is the newest there. */
  function Recorded(history: seq<ManifestVersion>, id: string, event: Event, now: int): seq<ManifestVersion> {
    if event.Register? && event.id == id && id != "" && event.manifest.Some? &&
       (history == [] || history[|history| - 1].version != event.version)
    then history + [ManifestVersion(event.version, event.manifest.value, now)]
    else history
  }

  function LastTen(history: seq<ManifestVersion>): seq<ManifestVersion> {
    if |history| > MAX_MANIFEST_HISTORY then history[|history| - MAX_MANIFEST_HISTORY..] else history
  }

  function Lookup(apps: map<string, App>, id: string): Option<App> {
    if id in apps then Some(apps[id]) else None
  }

  function HistoryOf(histories: map<string, seq<ManifestVersion>>, id: string): seq<ManifestVersion> {
    if id in histories then histories[id] else []
  }

  /**
   * What a registration makes of a history of at most ten: one more version at its end, and the oldest
   * of eleven dropped.
   */
  lemma RegistrationRecords(history: seq<ManifestVersion>, id: string, version: string, manifest: Option<string>,
      now: int)
    requires |history| <= MAX_MANIFEST_HISTORY && id != ""
    ensures var next := LastTen(Recorded(history, id, Register(id, version, manifest), now));
            if manifest.None? || (history != [] && history[|history| - 1].version == version) then next == history
            else
              var longer := history + [ManifestVersion(version, manifest.value, now)];
              next == if |longer| > MAX_MANIFEST_HISTORY then longer[1..] else longer
  {
  }

  lemma OthersStay(history: seq<ManifestVersion>, other: string, event: Event, now: int)
    requires |history| <= MAX_MANIFEST_HISTORY && event.Register? && (event.id != other || other == "")
    ensures LastTen(Recorded(history, other, event, now)) == history
  {
  }

  /**
   * What a check leaves of an app: its status alone may change. It is offline when it was, or when it was last
   * heard of more than 180 seconds ago and did not answer its last probe; online when it was, and was heard of
   * within 90 seconds; and degraded else.
   */
  predicate Judged(after: App, before: App, now: int) {
    && after == before.(status := after.status)
    && (after.status == Offline <==>
          before.status == Offline
          || (before.lastHeartbeat.At? && now - before.lastHeartbeat.ms > 180_000
              && before.httpReachable != Some(true)))
    && (after.status == Online <==>
          before.status == Online && !(before.lastHeartbeat.At? && now - before.lastHeartbeat.ms > 90_000))
  }

  class AppsProjection {
    var apps: map<string, App>
    var manifestHistory: map<string, seq<ManifestVersion>>

    constructor ()
      ensures apps == map[] && manifestHistory == map[]
    {
      apps, manifestHistory := map[], map[];
    }

    method HandleRegister(id: string, version: string, manifest: Option<string>, now: int)
      requires forall other :: |HistoryOf(manifestHistory, other)| <= MAX_MANIFEST_HISTORY
      modifies this
      ensures id != "" ==>
                && id in apps
                && apps[id].version == version && apps[id].status == Online && apps[id].lastHeartbeat == At(now)
                && apps[id].manifest == manifest
                && apps[id].httpReachable == (if id in old(apps) then old(apps)[id].httpReachable else None)
                && (id in old(apps) ==> apps[id].entry != old(apps)[id].entry)
      ensures forall other :: other != id || id == "" ==> Lookup(apps, other) == Lookup(old(apps), other)
      ensures forall other ::
                Lookup(apps, other) == Next(Lookup(old(apps), other), other, Register(id, version, manifest), now)
      ensures forall other :: HistoryOf(manifestHistory, other) ==
                LastTen(Recorded(HistoryOf(old(manifestHistory), other), other, Register(id, version, manifest), now))
    {
      hide LastTen, Recorded;
      ghost var event, histories := Register(id, version, manifest), manifestHistory;
      forall other | other != id || other == ""
        ensures LastTen(Recorded(HistoryOf(histories, other), other, event, now)) == HistoryOf(histories, other)
      {
        OthersStay(HistoryOf(histories, other), other, event, now);
      }
      if id == "" {
        return;
      }
      RegistrationRecords(HistoryOf(histories, id), id, version, manifest, now);
      var httpReachable := if id in apps then apps[id].httpReachable else None;
      var entry: nat := if id in apps then apps[id].entry + 1 else 0;
      apps := apps[id := App(entry, version, Online, At(now), httpReachable, manifest)];
      var history := HistoryOf(manifestHistory, id);
      if (history == [] || history[|history| - 1].version != version) && manifest.Some? {
        history := history + [ManifestVersion(version, manifest.value, now)];
        if |history| > MAX_MANIFEST_HISTORY {
          history := history[1..];
        }
        manifestHistory := manifestHistory[id := history];
      }
    }

    method HandleHeartbeat(id: string, timestamp: Option<Timestamp>, now: int)
      modifies this`apps
      ensures id != "" && id in old(apps) ==>
                && id in apps
                && apps[id] == old(apps)[id].(lastHeartbeat := apps[id].lastHeartbeat, status := Online)
                && apps[id].lastHeartbeat == (if timestamp.Some? then timestamp.value else At(now))
      ensures forall other :: other != id || id == "" ==> Lookup(apps, other) == Lookup(old(apps), other)
      ensures id !in old(apps) ==> apps == old(apps)
      ensures forall other ::
                Lookup(apps, other) == Next(Lookup(old(apps), other), other, Heartbeat(id, timestamp), now)
    {
      if id == "" || id !in apps {
        return;
      }
      var heartbeat := if timestamp.Some? then timestamp.value else At(now);
      apps := apps[id := apps[id].(lastHeartbeat := heartbeat, status := Online)];
    }

    method HandleDeregister(id: string)
      modifies this`apps
      ensures id != "" && id in old(apps) ==> apps == old(apps)[id := old(apps)[id].(status := Offline)]
      ensures id == "" || id !in old(apps) ==> apps == old(apps)
      ensures forall other, now :: Lookup(apps, other) == Next(Lookup(old(apps), other), other, Deregister(id), now)
    {
      if id == "" || id !in apps {
        return;
      }
      apps := apps[id := apps[id].(status := Offline)];
    }

    /** Looks at every app once. */
    method CheckAll(now: int)
      modifies this`apps
      ensures apps.Keys == old(apps).Keys
      ensures forall id :: id in apps ==> Judged(apps[id], old(apps)[id], now)
      ensures forall id :: Lookup(apps, id) == Next(Lookup(old(apps), id), id, CheckStaleness, now)
    {
      ghost var was := apps;
      var left := apps.Keys;
      while left != {}
        invariant apps.Keys == was.Keys && left <= was.Keys
        invariant forall id :: id in apps ==> apps[id] == if id in left then was[id] else Checked(was[id], now)
        decreases left
      {
        var id :| id in left;
        var app := apps[id];
        if app.status != Offline {
          if app.lastHeartbeat.At? && now - app.lastHeartbeat.ms > STALENESS_OFFLINE_MS {
            app := app.(status := if app.httpReachable == Some(true) then Degraded else Offline);
          } else if app.lastHeartbeat.At? && now - app.lastHeartbeat.ms > STALENESS_DEGRADED_MS {
            app := app.(status := Degraded);
          }
        }
        apps := apps[id := app];
        left := left - {id};
      }
    }

    /**
     * The answer of a probe, written to the entry it began with: one that a registration has replaced is
     * no longer seen.
     */
    method ProbeOne(id: string, entry: nat, ok: bool)
      modifies this`apps
      ensures id in old(apps) && old(apps)[id].entry == entry ==>
                && id in apps
                && apps[id] == old(apps)[id].(httpReachable := Some(ok), status := apps[id].status)
                && (old(apps)[id].status == Offline && ok ==> apps[id].status == Degraded)
                && (old(apps)[id].status != Offline || !ok ==> apps[id].status == old(apps)[id].status)
      ensures forall other :: other != id ==> Lookup(apps, other) == Lookup(old(apps), other)
      ensures !(id in old(apps) && old(apps)[id].entry == entry) ==> apps == old(apps)
      ensures forall other, now ::
                Lookup(apps, other) == Next(Lookup(old(apps), other), other, Probe(id, entry, ok), now)
    {
      if id !in apps || apps[id].entry != entry {
        return;
      }
      var app := apps[id].(httpReachable := Some(ok));
      if ok && app.status == Offline {
        app := app.(status := Degraded);
      }
      apps := apps[id := app];
    }
  }

  // ------------------------------------------------------------------------------------------
  // Timed runs.

  datatype Timed = Timed(at: int, event: Event)

  function AppAfter(run: seq<Timed>, n: nat, id: string): Option<App>
    requires n <= |run|
  {
    if n == 0 then None else Next(AppAfter(run, n - 1, id), id, run[n - 1].event, run[n - 1].at)
  }

  /** Event k is a sign of life of this app: it registers, or is heard of once registered. */
  predicate IsSign(run: seq<Timed>, k: nat, id: string)
    requires k < |run|
  {
    var event := run[k].event;
    id != "" && ((event.Register? && event.id == id)
        || (event.Heartbeat? && event.id == id && AppAfter(run, k, id).Some?))
  }

  /** The time a sign of life carries. */
  function SignTime(run: seq<Timed>, k: nat): Timestamp
    requires k < |run|
  {
    if run[k].event.Heartbeat? then run[k].event.timestamp.Or(Some(At(run[k].at))).value else At(run[k].at)
  }

  /** Event j takes the app whose last sign was k off `online`: it leaves, or is found too old. */
  predicate TakesOff(run: seq<Timed>, k: nat, j: nat, id: string)
    requires k < |run| && j < |run|
  {
    var event := run[j].event;
    (event.Deregister? && event.id == id)
        || (event.CheckStaleness? && OlderThan(SignTime(run, k), run[j].at, STALENESS_DEGRADED_MS))
  }

  ghost predicate LastSign(run: seq<Timed>, n: nat, k: int, id: string)
    requires n <= |run|
  {
    0 <= k < n && IsSign(run, k, id) && forall j :: k < j < n ==> !IsSign(run, j, id)
  }

  ghost predicate Untouched(run: seq<Timed>, n: nat, k: nat, id: string)
    requires k < n <= |run|
  {
    forall j :: k < j < n ==> !TakesOff(run, k, j, id)
  }

  /** Where the last sign of a registered app is, and what it has left on the app. */
  lemma {:induction false} SignOf(run: seq<Timed>, n: nat, id: string) returns (k: int)
    requires n <= |run|
    ensures AppAfter(run, n, id).Some? <==> 0 <= k
    ensures 0 <= k ==> LastSign(run, n, k, id) && AppAfter(run, n, id).value.lastHeartbeat == SignTime(run, k)
    ensures 0 <= k ==> (AppAfter(run, n, id).value.status.Online? <==> Untouched(run, n, k, id))
    ensures k < 0 ==> forall j :: 0 <= j < n ==> !IsSign(run, j, id)
  {
    if n == 0 {
      k := -1;
    } else {
      k := SignOf(run, n - 1, id);
      if IsSign(run, n - 1, id) {
        k := n - 1;
      } else if 0 <= k {
        assert Untouched(run, n, k, id) <==> Untouched(run, n - 1, k, id) && !TakesOff(run, k, n - 1, id);
        assert id != "";
      }
    }
  }

  /** Exactly when an app is shown online: since its last sign of life it has neither left nor been found too old. */
  lemma OnlineExactly(run: seq<Timed>, id: string)
    ensures AppAfter(run, |run|, id).Some? && AppAfter(run, |run|, id).value.status.Online? <==>
            exists k :: LastSign(run, |run|, k, id) && Untouched(run, |run|, k, id)
  {
    var k := SignOf(run, |run|, id);
    if 0 <= k {
      forall other | LastSign(run, |run|, other, id)
        ensures other == k
      {
        assert IsSign(run, k, id) && IsSign(run, other, id);
      }
    }
  }

  /**
   * Event j puts a registered app offline: it leaves, or a check finds that it was last heard of more than 180
   * seconds ago and did not answer its last probe.
   */
  predicate PutsOff(run: seq<Timed>, j: nat, id: string)
    requires j < |run|
  {
    var app, event := AppAfter(run, j, id), run[j].event;
    app.Some? && id != "" &&
    (event == Deregister(id)
     || (event.CheckStaleness? && app.value.lastHeartbeat.At?
         && run[j].at - app.value.lastHeartbeat.ms > 180_000 && app.value.httpReachable != Some(true)))
  }

  /** Event j brings the app back: a sign of life, or the answer to a probe of its present entry. */
  predicate BringsBack(run: seq<Timed>, j: nat, id: string)
    requires j < |run|
  {
    IsSign(run, j, id)
    || (AppAfter(run, j, id).Some? && run[j].event == Probe(id, AppAfter(run, j, id).value.entry, true))
  }

  /** Event j puts the app offline, and nothing brings it back before event n. */
  ghost predicate StaysOff(run: seq<Timed>, j: int, n: nat, id: string)
    requires n <= |run|
  {
    0 <= j < n && PutsOff(run, j, id) && forall i :: j < i < n ==> !BringsBack(run, i, id)
  }

  /** Exactly when an app is shown offline: something has put it off, and nothing has brought it back since. */
  lemma {:induction false} OfflineExactly(run: seq<Timed>, n: nat, id: string)
    requires n <= |run|
    ensures AppAfter(run, n, id).Some? && AppAfter(run, n, id).value.status.Offline? <==>
            exists j :: StaysOff(run, j, n, id)
    ensures AppAfter(run, n, id).Some? ==> id != ""
  {
    if n > 0 {
      var m: nat := n - 1;
      OfflineExactly(run, m, id);
      var before := AppAfter(run, m, id);
      if PutsOff(run, m, id) {
        assert StaysOff(run, m, n, id);
      } else if BringsBack(run, m, id) {
        assert AppAfter(run, n, id).Some? && !AppAfter(run, n, id).value.status.Offline?;
      } else {
        assert before.Some? ==>
            (AppAfter(run, n, id).value.status.Offline? <==> before.value.status.Offline?);
        assert before.None? ==> AppAfter(run, n, id).None?;
        if j :| StaysOff(run, j, m, id) {
          assert StaysOff(run, j, n, id);
        }
        if j :| StaysOff(run, j, n, id) {
          assert StaysOff(run, j, m, id);
        }
      }
    }
  }

  /** Times do not go back. */
  ghost predicate InTime(run: seq<Timed>) {
    forall i, j :: 0 <= i < j < |run| ==> run[i].at <= run[j].at
  }

  /** The app's last sign of life carries a time that parses and is later than its arrival by the skew at most. */
  ghost predicate SignHolds(run: seq<Timed>, id: string, skew: nat) {
    forall k :: LastSign(run, |run|, k, id) ==> SignTime(run, k).At? && SignTime(run, k).ms <= run[k].at + skew
  }

  /** The registry was last checked no longer than an interval ago. */
  ghost predicate CheckedLately(run: seq<Timed>, now: int) {
    exists c :: 0 <= c < |run| && run[c].event.CheckStaleness? && now - run[c].at <= STALENESS_CHECK_MS
  }

  lemma {:induction false} EntriesGrow(run: seq<Timed>, m: nat, n: nat, id: string)
    requires m <= n <= |run| && AppAfter(run, m, id).Some?
    ensures AppAfter(run, n, id).Some? && AppAfter(run, m, id).value.entry <= AppAfter(run, n, id).value.entry
    decreases n
  {
    if m < n {
      EntriesGrow(run, m, n - 1, id);
    }
  }

  /** A probe answered after the app has registered again changes nothing any more. */
  lemma LateProbeIsLost(run: seq<Timed>, m: nat, n: nat, id: string, ok: bool, now: int)
    requires m < n <= |run| && AppAfter(run, m, id).Some?
    requires exists k :: m <= k < n && run[k].event.Register? && run[k].event.id == id && id != ""
    ensures Next(AppAfter(run, n, id), id, Probe(id, AppAfter(run, m, id).value.entry, ok), now) == AppAfter(run, n, id)
  {
    var k :| m <= k < n && run[k].event.Register? && run[k].event.id == id && id != "";
    EntriesGrow(run, m, k, id);
    EntriesGrow(run, k + 1, n, id);
  }

  /**
   * An app shown online has registered or been heard of within the last 150 seconds and the skew of its
   * own last sign of life, whatever the other apps' clocks say.
   */
  lemma OnlineIsRecent(run: seq<Timed>, id: string, now: int, skew: nat)
    requires InTime(run) && SignHolds(run, id, skew) && CheckedLately(run, now)
    requires AppAfter(run, |run|, id).Some? && AppAfter(run, |run|, id).value.status.Online?
    ensures exists k ::
              0 <= k < |run| && IsSign(run, k, id)
                  && now - run[k].at <= STALENESS_DEGRADED_MS + STALENESS_CHECK_MS + skew
  {
    var k := SignOf(run, |run|, id);
    var c :| 0 <= c < |run| && run[c].event.CheckStaleness? && now - run[c].at <= STALENESS_CHECK_MS;
    if c > k {
      assert !TakesOff(run, k, c, id);
    } else {
      assert c != k;
      assert run[c].at <= run[k].at;
    }
  }

  /** A heartbeat whose time does not parse keeps an app online through any number of checks. */
  lemma UnparsedStaysOnline(run: seq<Timed>, k: nat, id: string)
    requires k < |run| && id != "" && AppAfter(run, k, id).Some?
    requires run[k].event == Heartbeat(id, Some(Unparsed))
    requires forall j :: k < j < |run| ==> run[j].event.CheckStaleness? || run[j].event.Probe?
    ensures AppAfter(run, |run|, id).Some? && AppAfter(run, |run|, id).value.status.Online?
  {
    assert LastSign(run, |run|, k, id) && Untouched(run, |run|, k, id);
    OnlineExactly(run, id);
  }

  /** So does one from the future, until that future is 90 seconds old. */
  lemma FutureStaysOnline(run: seq<Timed>, k: nat, id: string, future: int)
    requires k < |run| && id != "" && AppAfter(run, k, id).Some?
    requires run[k].event == Heartbeat(id, Some(At(future)))
    requires forall j :: k < j < |run| ==> run[j].event.CheckStaleness? || run[j].event.Probe?
    ensures AppAfter(run, |run|, id).Some?
    ensures AppAfter(run, |run|, id).value.status.Online? <==>
            forall j :: k < j < |run| && run[j].event.CheckStaleness? ==> run[j].at <= future + STALENESS_DEGRADED_MS
  {
    var last := SignOf(run, |run|, id);
    assert IsSign(run, k, id);
    assert last == k;
    assert Untouched(run, |run|, k, id) <==>
      forall j :: k < j < |run| && run[j].event.CheckStaleness? ==> run[j].at <= future + STALENESS_DEGRADED_MS by {
      forall j | k < j < |run|
        ensures TakesOff(run, k, j, id) <==> run[j].event.CheckStaleness? && run[j].at > future + STALENESS_DEGRADED_MS
      {
      }
    }
  }

  // ------------------------------------------------------------------------------------------
  // The manifest history.

  /** Every recorded version, without a bound. */
  function FullHistory(run: seq<Timed>, n: nat, id: string): seq<ManifestVersion>
    requires n <= |run|
  {
    if n == 0 then [] else Recorded(FullHistory(run, n - 1, id), id, run[n - 1].event, run[n - 1].at)
  }

  /** The history as it is kept, cut after each registration. */
  function KeptHistory(run: seq<Timed>, n: nat, id: string): seq<ManifestVersion>
    requires n <= |run|
  {
    if n == 0 then [] else LastTen(Recorded(KeptHistory(run, n - 1, id), id, run[n - 1].event, run[n - 1].at))
  }

  /** Recording one more event on the last ten is recording it on all and keeping the last ten. */
  lemma CutThenRecord(full: seq<ManifestVersion>, id: string, event: Event, now: int)
    ensures LastTen(Recorded(LastTen(full), id, event, now)) == LastTen(Recorded(full, id, event, now))
  {
    if full != [] {
      assert LastTen(full)[|LastTen(full)| - 1] == full[|full| - 1];
    }
  }

  ghost predicate NoRepeats(history: seq<ManifestVersion>) {
    forall i :: 0 < i < |history| ==> history[i].version != history[i - 1].version
  }

  lemma RecordingRepeatsNothing(history: seq<ManifestVersion>, id: string, event: Event, now: int)
    requires NoRepeats(history)
    ensures NoRepeats(Recorded(history, id, event, now))
  {
  }

  /** Cutting as it goes keeps exactly the last ten of all recorded versions, of which no two in a row are equal. */
  lemma {:induction false} HistoryIsLastTen(run: seq<Timed>, n: nat, id: string)
    requires n <= |run|
    ensures KeptHistory(run, n, id) == LastTen(FullHistory(run, n, id))
    ensures NoRepeats(FullHistory(run, n, id))
  {
    hide LastTen, Recorded, NoRepeats;
    if n > 0 {
      HistoryIsLastTen(run, n - 1, id);
      CutThenRecord(FullHistory(run, n - 1, id), id, run[n - 1].event, run[n - 1].at);
      RecordingRepeatsNothing(FullHistory(run, n - 1, id), id, run[n - 1].event, run[n - 1].at);
    } else {
      NothingRecorded();
    }
  }

  lemma NothingRecorded()
    ensures LastTen([]) == [] && NoRepeats([])
  {
  }
}
