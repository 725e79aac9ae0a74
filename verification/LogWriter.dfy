/**
 The query-log batch writer: an event loop that batches entries, watches for clients with many
 blocked queries, and forgets old trackers on a timer.
 */
module LogWriter {
  import opened Text

  datatype Entry = Entry(
    time: int, clientIp: string, question: string, qtype: string, status: string,
    reason: Option<string>, answer: Option<string>, elapsedNs: int, upstreamNs: Option<int>,
    upstreamName: Option<string>, appId: Option<int>)

  /** What wakes the loop; `now` is the monotone clock, in nanoseconds. */
  datatype Event = Received(entry: Entry, now: nat) | Tick(now: nat) | Closed

  datatype Tracker = Tracker(count: nat, start: nat)

  const BATCH_SIZE: nat := 500
  const ALERT_COUNT: nat := 50
  const WINDOW_SECS: nat := 60
  const STALE_SECS: nat := 120

  /** Whole seconds from `start` to `now`; zero if the clock reads earlier. */
  function Secs(now: nat, start: nat): nat {
    if now < start then 0 else (now - start) / 1_000_000_000
  }

  // ----- The anomaly window as a function of the events -----

  /** An alert: the event that raised it and the client it names. */
  datatype Alert = Alert(at: nat, client: string)

  datatype Watch = Watch(trackers: map<string, Tracker>, alerts: seq<Alert>)

  predicate IsBlocked(e: Event) { e.Received? && e.entry.status == "blocked" }

  predicate BlockedBy(e: Event, client: string) { IsBlocked(e) && e.entry.clientIp == client }

  /** The tracker after one more blocked entry. */
  function Bump(trackers: map<string, Tracker>, client: string, now: nat): Tracker {
    var t := if client in trackers then trackers[client] else Tracker(0, now);
    if Secs(now, t.start) > WINDOW_SECS then Tracker(1, now) else Tracker(t.count + 1, t.start)
  }

  /** Whether that entry raises an alert: it extends the window to exactly the threshold. */
  predicate Alerts(trackers: map<string, Tracker>, client: string, now: nat) {
    var t := if client in trackers then trackers[client] else Tracker(0, now);
    Secs(now, t.start) <= WINDOW_SECS && t.count + 1 == ALERT_COUNT
  }

  function Pruned(trackers: map<string, Tracker>, now: nat): map<string, Tracker> {
    map c | c in trackers && Secs(now, trackers[c].start) < STALE_SECS :: trackers[c]
  }

  function Observe(w: Watch, e: Event, position: nat, prune: bool): Watch {
    if IsBlocked(e) then
      var c := e.entry.clientIp;
      Watch(w.trackers[c := Bump(w.trackers, c, e.now)],
            if Alerts(w.trackers, c, e.now) then w.alerts + [Alert(position, c)] else w.alerts)
    else if e.Tick? && prune then Watch(Pruned(w.trackers, e.now), w.alerts)
    else w
  }

  function WatchOf(events: seq<Event>, prune: bool): Watch {
    if events == [] then Watch(map[], [])
    else
      var n := |events| - 1;
      Observe(WatchOf(events[..n], prune), events[n], n, prune)
  }

  predicate HasTime(e: Event) { !e.Closed? }

  /** The clock never runs backwards. */
  predicate Monotone(events: seq<Event>) {
    forall i, j :: 0 <= i < j < |events| && HasTime(events[i]) && HasTime(events[j]) ==> events[i].now <= events[j].now
  }

  // ----- Pruning is invisible -----

  /** The pruned trackers are the kept ones; every dropped one was stale at some event. */
  ghost predicate Agree(events: seq<Event>, kept: map<string, Tracker>, full: map<string, Tracker>) {
    && (forall c :: c in kept ==> c in full && full[c] == kept[c])
    && (forall c :: c in full && c !in kept ==> StaleBy(events, full[c]))
  }

  ghost predicate StaleBy(events: seq<Event>, t: Tracker) {
    exists i :: 0 <= i < |events| && HasTime(events[i]) && Secs(events[i].now, t.start) >= STALE_SECS
  }

  /** A tracker stale at some past event is past the window at every later one. */
  lemma StaleIsExpired(events: seq<Event>, t: Tracker, e: Event)
    requires Monotone(events + [e]) && HasTime(e) && StaleBy(events, t)
    ensures Secs(e.now, t.start) > WINDOW_SECS
  {
    var i :| 0 <= i < |events| && HasTime(events[i]) && Secs(events[i].now, t.start) >= STALE_SECS;
    assert (events + [e])[i] == events[i] && (events + [e])[|events|] == e;
    assert (events[i].now - t.start) / 1_000_000_000 <= (e.now - t.start) / 1_000_000_000;
  }

  lemma StaleStays(events: seq<Event>, e: Event, t: Tracker)
    requires StaleBy(events, t)
    ensures StaleBy(events + [e], t)
  {
    var i :| 0 <= i < |events| && HasTime(events[i]) && Secs(events[i].now, t.start) >= STALE_SECS;
    assert (events + [e])[i] == events[i];
  }

  /** One event keeps the agreement, and raises the same alert on both sides. */
  lemma ObserveAgrees(events: seq<Event>, e: Event, kept: Watch, full: Watch)
    requires Monotone(events + [e])
    requires Agree(events, kept.trackers, full.trackers) && kept.alerts == full.alerts
    ensures var k, f := Observe(kept, e, |events|, true), Observe(full, e, |events|, false);
            Agree(events + [e], k.trackers, f.trackers) && k.alerts == f.alerts
  {
    var k, f := Observe(kept, e, |events|, true), Observe(full, e, |events|, false);
    if IsBlocked(e) {
      var c := e.entry.clientIp;
      if c in full.trackers && c !in kept.trackers {
        StaleIsExpired(events, full.trackers[c], e);
      }
      forall d | d in f.trackers && d !in k.trackers ensures StaleBy(events + [e], f.trackers[d]) {
        StaleStays(events, e, full.trackers[d]);
      }
    } else {
      forall d | d in f.trackers && d !in k.trackers ensures StaleBy(events + [e], f.trackers[d]) {
        if d in kept.trackers {
          assert (events + [e])[|events|] == e;
        } else {
          StaleStays(events, e, full.trackers[d]);
        }
      }
    }
  }

  lemma {:induction false} PruneAgrees(events: seq<Event>)
    requires Monotone(events)
    ensures var k, f := WatchOf(events, true), WatchOf(events, false);
            Agree(events, k.trackers, f.trackers) && k.alerts == f.alerts
  {
    if events != [] {
      var n := |events| - 1;
      var init := events[..n];
      assert events == init + [events[n]];
      PruneAgrees(init);
      ObserveAgrees(init, events[n], WatchOf(init, true), WatchOf(init, false));
    }
  }

  /**
   Under a monotone clock, the writer that drops stale trackers raises exactly the same alerts
   at the same events as one that never drops any.
   */
  lemma PruningInvisible(events: seq<Event>)
    requires Monotone(events)
    ensures WatchOf(events, true).alerts == WatchOf(events, false).alerts
  {
    PruneAgrees(events);
  }

  // ----- Alerts are backed and charged -----

  function BlockedCount(events: seq<Event>, client: string): nat {
    if events == [] then 0
    else
      var n := |events| - 1;
      BlockedCount(events[..n], client) + if BlockedBy(events[n], client) then 1 else 0
  }

  /** From event `w` on, `count` blocked entries of the client, all inside the window `w` opened. */
  ghost predicate Window(events: seq<Event>, w: nat, client: string, count: nat) {
    && w < |events| && BlockedBy(events[w], client)
    && BlockedCount(events[w..], client) == count
    && forall j :: w <= j < |events| && BlockedBy(events[j], client) ==>
         Secs(events[j].now, events[w].now) <= WINDOW_SECS
  }

  ghost predicate Tracked(events: seq<Event>, client: string, t: Tracker) {
    exists w: nat :: Window(events, w, client, t.count) && events[w].now == t.start
  }

  /** The alert is backed by exactly fifty blocked entries of its client, the last one raising it. */
  ghost predicate Backed(events: seq<Event>, a: Alert) {
    && a.at < |events| && BlockedBy(events[a.at], a.client)
    && HasWindow(events[..a.at + 1], a.client, ALERT_COUNT)
  }

  ghost predicate HasWindow(events: seq<Event>, client: string, count: nat) {
    exists w: nat :: Window(events, w, client, count)
  }

  lemma WindowGrows(events: seq<Event>, e: Event, w: nat, client: string, count: nat)
    requires Window(events, w, client, count)
    requires BlockedBy(e, client) ==> Secs(e.now, events[w].now) <= WINDOW_SECS
    ensures Window(events + [e], w, client, count + if BlockedBy(e, client) then 1 else 0)
  {
    var all := events + [e];
    assert all[w..][..|all[w..]| - 1] == events[w..];
    forall j | w <= j < |all| && BlockedBy(all[j], client) ensures Secs(all[j].now, all[w].now) <= WINDOW_SECS {
      if j < |events| { assert all[j] == events[j]; }
    }
  }

  lemma WindowOpens(events: seq<Event>, e: Event)
    requires IsBlocked(e)
    ensures Tracked(events + [e], e.entry.clientIp, Tracker(1, e.now))
  {
    var all := events + [e];
    assert all[|events|..] == [e];
    assert BlockedCount([e], e.entry.clientIp) == BlockedCount([e][..0], e.entry.clientIp) + 1;
    assert Window(all, |events|, e.entry.clientIp, 1);
  }

  /** Every tracker describes a window of the events so far, and every alert is backed. */
  ghost predicate Sound(events: seq<Event>, w: Watch) {
    && (forall c :: c in w.trackers ==> Tracked(events, c, w.trackers[c]))
    && (forall a :: a in w.alerts ==> Backed(events, a))
  }

  lemma TrackedStays(events: seq<Event>, e: Event, client: string, t: Tracker)
    requires Tracked(events, client, t)
    requires BlockedBy(e, client) ==> Secs(e.now, t.start) <= WINDOW_SECS
    ensures Tracked(events + [e], client, Tracker(t.count + if BlockedBy(e, client) then 1 else 0, t.start))
  {
    var w: nat :| Window(events, w, client, t.count) && events[w].now == t.start;
    WindowGrows(events, e, w, client, t.count);
    assert (events + [e])[w] == events[w];
  }

  lemma BumpTracked(events: seq<Event>, e: Event, trackers: map<string, Tracker>)
    requires IsBlocked(e)
    requires forall c :: c in trackers ==> Tracked(events, c, trackers[c])
    ensures Tracked(events + [e], e.entry.clientIp, Bump(trackers, e.entry.clientIp, e.now))
  {
    var c := e.entry.clientIp;
    if c in trackers && Secs(e.now, trackers[c].start) <= WINDOW_SECS {
      TrackedStays(events, e, c, trackers[c]);
    } else {
      WindowOpens(events, e);
    }
  }

  lemma BackedStays(events: seq<Event>, e: Event, a: Alert)
    requires Backed(events, a)
    ensures Backed(events + [e], a)
  {
    assert (events + [e])[..a.at + 1] == events[..a.at + 1];
  }

  lemma ObserveSound(events: seq<Event>, e: Event, w: Watch, prune: bool)
    requires Sound(events, w)
    ensures Sound(events + [e], Observe(w, e, |events|, prune))
  {
    var next := Observe(w, e, |events|, prune);
    forall c | c in next.trackers ensures Tracked(events + [e], c, next.trackers[c]) {
      if BlockedBy(e, c) {
        BumpTracked(events, e, w.trackers);
      } else {
        TrackedStays(events, e, c, w.trackers[c]);
      }
    }
    forall a | a in next.alerts ensures Backed(events + [e], a) {
      if a in w.alerts {
        BackedStays(events, e, a);
      } else {
        BumpTracked(events, e, w.trackers);
        assert (events + [e])[..a.at + 1] == events + [e];
        assert HasWindow(events + [e], a.client, ALERT_COUNT);
      }
    }
  }

  lemma {:induction false} WatchSound(events: seq<Event>, prune: bool)
    ensures Sound(events, WatchOf(events, prune))
  {
    if events != [] {
      var n := |events| - 1;
      assert events == events[..n] + [events[n]];
      WatchSound(events[..n], prune);
      ObserveSound(events[..n], events[n], WatchOf(events[..n], prune), prune);
    }
  }

  /** How many of the alerts name the client. */
  function AlertCount(alerts: seq<Alert>, client: string): nat {
    if alerts == [] then 0
    else
      var n := |alerts| - 1;
      AlertCount(alerts[..n], client) + if alerts[n].client == client then 1 else 0
  }

  /** Blocked entries of the open window that no alert has used yet. */
  function Unused(trackers: map<string, Tracker>, client: string): nat {
    if client !in trackers then 0
    else if trackers[client].count < ALERT_COUNT then trackers[client].count
    else trackers[client].count - ALERT_COUNT
  }

  lemma {:induction false} Charged(events: seq<Event>, prune: bool, client: string)
    ensures var w := WatchOf(events, prune);
            50 * AlertCount(w.alerts, client) + Unused(w.trackers, client) <= BlockedCount(events, client)
  {
    if events != [] {
      var n := |events| - 1;
      var init, e := events[..n], events[n];
      assert events == init + [e];
      var w := WatchOf(init, prune);
      Charged(init, prune, client);
      var next := WatchOf(events, prune);
      if IsBlocked(e) && Alerts(w.trackers, e.entry.clientIp, e.now) {
        assert next.alerts[..|next.alerts| - 1] == w.alerts;
      }
    }
  }

  /** Every alert is backed by fifty blocked entries, and fifty entries pay for one alert. */
  lemma AlertsSoundAndCharged(events: seq<Event>, prune: bool, client: string)
    ensures forall a :: a in WatchOf(events, prune).alerts ==> Backed(events, a)
    ensures 50 * AlertCount(WatchOf(events, prune).alerts, client) <= BlockedCount(events, client)
  {
    WatchSound(events, prune);
    Charged(events, prune, client);
  }

  // ----- Exactly when an alert is raised -----

  /** The event that opened the client's window: its first blocked entry past the window before. */
  function Opener(events: seq<Event>, client: string): (w: Option<nat>)
    ensures w.Some? ==> w.value < |events| && BlockedBy(events[w.value], client)
  {
    if events == [] then None
    else
      var n := |events| - 1;
      var before := Opener(events[..n], client);
      if !BlockedBy(events[n], client) then before
      else if before.None? || Secs(events[n].now, events[before.value].now) > WINDOW_SECS then Some(n)
      else before
  }

  /** The tracker counts the client's blocked entries since the opener. */
  ghost predicate Counts(events: seq<Event>, client: string, trackers: map<string, Tracker>) {
    match Opener(events, client)
    case None => client !in trackers
    case Some(w) => client in trackers
                    && trackers[client] == Tracker(BlockedCount(events[w..], client), events[w].now)
  }

  lemma CountSnoc(events: seq<Event>, e: Event, w: nat, client: string)
    requires w <= |events|
    ensures BlockedCount((events + [e])[w..], client) ==
            BlockedCount(events[w..], client) + if BlockedBy(e, client) then 1 else 0
  {
    var tail := (events + [e])[w..];
    assert tail == events[w..] + [e];
    assert tail[..|tail| - 1] == events[w..];
  }

  lemma {:induction false} TrackersCount(events: seq<Event>, client: string)
    ensures Counts(events, client, WatchOf(events, false).trackers)
  {
    if events != [] {
      var n := |events| - 1;
      var init, e := events[..n], events[n];
      assert events == init + [e];
      TrackersCount(init, client);
      var before := Opener(init, client);
      if before.Some? { CountSnoc(init, e, before.value, client); }
      CountSnoc(init, e, n, client);
      assert init[n..] == [];
    }
  }

  /** The entry at `at` is the client's fiftieth blocked one since the opener of its window. */
  ghost predicate Fiftieth(events: seq<Event>, at: nat, client: string) {
    && at < |events| && BlockedBy(events[at], client)
    && var seen := events[..at + 1];
       Opener(seen, client).Some? && BlockedCount(seen[Opener(seen, client).value..], client) == ALERT_COUNT
  }

  lemma FiftiethLast(events: seq<Event>, client: string)
    requires events != []
    ensures var n := |events| - 1;
            Fiftieth(events, n, client) <==>
            BlockedBy(events[n], client) && Alerts(WatchOf(events[..n], false).trackers, client, events[n].now)
  {
    var n := |events| - 1;
    TrackersCount(events, client);
    TrackersCount(events[..n], client);
    assert events[..n + 1] == events;
  }

  lemma FiftiethStays(events: seq<Event>, e: Event, at: nat, client: string)
    requires at < |events|
    ensures Fiftieth(events + [e], at, client) <==> Fiftieth(events, at, client)
  {
    assert (events + [e])[..at + 1] == events[..at + 1];
  }

  /**
   An entry raises an alert if and only if it is its client's fiftieth blocked one of the window,
   where a window opens with the first blocked entry and again with the first one more than 60
   whole seconds after the last opening.
   */
  lemma {:induction false} AlertsExactly(events: seq<Event>, at: nat, client: string)
    ensures Alert(at, client) in WatchOf(events, false).alerts <==> Fiftieth(events, at, client)
  {
    if events != [] {
      var n := |events| - 1;
      var init, e := events[..n], events[n];
      assert events == init + [e];
      AlertsExactly(init, at, client);
      if at < n { FiftiethStays(init, e, at, client); }
      if at == n { FiftiethLast(events, client); }
    }
  }

  /** So does the writer that drops stale trackers, under a monotone clock. */
  lemma PrunedAlertsExactly(events: seq<Event>, at: nat, client: string)
    requires Monotone(events)
    ensures Alert(at, client) in WatchOf(events, true).alerts <==> Fiftieth(events, at, client)
  {
    PruningInvisible(events);
    AlertsExactly(events, at, client);
  }

  // ----- Fifty within a minute that raise none -----

  function Repeat(e: Event, k: nat): seq<Event> { seq(k, _ => e) }

  /** The watch follows one client only and has raised nothing. */
  ghost predicate Lone(events: seq<Event>, client: string, t: Tracker) {
    WatchOf(events, false) == Watch(map[client := t], [])
  }

  /** One more blocked entry inside the window counts up. */
  lemma OneMore(events: seq<Event>, e: Event, t: Tracker)
    requires IsBlocked(e) && Lone(events, e.entry.clientIp, t)
    requires Secs(e.now, t.start) <= WINDOW_SECS && t.count + 1 < ALERT_COUNT
    ensures Lone(events + [e], e.entry.clientIp, Tracker(t.count + 1, t.start))
  {
    var client, u := e.entry.clientIp, Tracker(t.count + 1, t.start);
    assert (events + [e])[..|events|] == events;
    assert map[client := t][client := u] == map[client := u];
  }

  lemma RepeatSnoc(events: seq<Event>, e: Event, k: nat)
    ensures events + Repeat(e, k + 1) == events + Repeat(e, k) + [e]
  {
  }

  /** A burst that stays inside the window and below the threshold only counts up. */
  lemma {:induction false} Burst(events: seq<Event>, e: Event, k: nat, t: Tracker)
    requires IsBlocked(e) && Secs(e.now, t.start) <= WINDOW_SECS && t.count + k < ALERT_COUNT
    requires Lone(events, e.entry.clientIp, t)
    ensures Lone(events + Repeat(e, k), e.entry.clientIp, Tracker(t.count + k, t.start))
  {
    if k == 0 {
      assert events + Repeat(e, 0) == events;
    } else {
      Burst(events, e, k - 1, t);
      RepeatSnoc(events, e, k - 1);
      OneMore(events + Repeat(e, k - 1), e, Tracker(t.count + k - 1, t.start));
    }
  }

  lemma Expires(events: seq<Event>, e: Event, t: Tracker)
    requires IsBlocked(e) && Lone(events, e.entry.clientIp, t) && Secs(e.now, t.start) > WINDOW_SECS
    ensures Lone(events + [e], e.entry.clientIp, Tracker(1, e.now))
  {
    var client := e.entry.clientIp;
    assert (events + [e])[..|events|] == events;
    assert map[client := t][client := Tracker(1, e.now)] == map[client := Tracker(1, e.now)];
  }

  /**
   One blocked entry at second 0, then 48 at second 59 and 49 at second 61: the last 97 lie within
   two seconds, and no alert is raised.
   */
  lemma StraddlingBurst(entry: Entry)
    requires entry.status == "blocked"
    ensures var a, b, c := Received(entry, 0), Received(entry, 59_000_000_000), Received(entry, 61_000_000_000);
            WatchOf([a] + Repeat(b, 48) + [c] + Repeat(c, 48), false).alerts == []
  {
    var a, b, c := Received(entry, 0), Received(entry, 59_000_000_000), Received(entry, 61_000_000_000);
    var one := [a];
    assert one[..0] == [];
    assert Lone(one, entry.clientIp, Tracker(1, 0));
    Burst(one, b, 48, Tracker(1, 0));
    Expires(one + Repeat(b, 48), c, Tracker(49, 0));
    Burst(one + Repeat(b, 48) + [c], c, 48, Tracker(1, c.now));
  }

  // ----- The loop -----

  /** The entries received, in order. */
  function Entries(events: seq<Event>): seq<Entry> {
    if events == [] then []
    else
      var n := |events| - 1;
      Entries(events[..n]) + if events[n].Received? then [events[n].entry] else []
  }

  lemma HistorySnoc(events: seq<Event>, e: Event)
    ensures Entries(events + [e]) == Entries(events) + if e.Received? then [e.entry] else []
    ensures WatchOf(events + [e], true) == Observe(WatchOf(events, true), e, |events|, true)
  {
    assert (events + [e])[..|events|] == events;
  }

  /** The clients named after one more entry. */
  lemma ClientsAfter(w: Watch, entry: Entry, now: nat, position: nat)
    ensures var next := Observe(w, Received(entry, now), position, true);
            Clients(next.alerts) == Clients(w.alerts)
              + if entry.status == "blocked" && Alerts(w.trackers, entry.clientIp, now) then [entry.clientIp] else []
  {
  }

  class Writer {
    var batch: seq<Entry>
    var blockCounts: map<string, Tracker>
    /** Clients alerted about, in order. */
    var alerts: seq<string>
    /** Batches handed to `flush`, in order. */
    var flushed: seq<seq<Entry>>
    var closed: bool
    ghost var events: seq<Event>

    /** Everything received is flushed or pending, once and in order; batches are bounded. */
    ghost predicate Conserved()
      reads this
    {
      && Concat(flushed) + batch == Entries(events)
      && (forall b :: b in flushed ==> 1 <= |b| <= BATCH_SIZE)
      && |batch| < BATCH_SIZE
      && (closed ==> batch == [])
    }

    /** The trackers and alerts are those of the events so far. */
    ghost predicate Watching()
      reads this
    {
      var w := WatchOf(events, true);
      blockCounts == w.trackers && alerts == Clients(w.alerts)
    }

    ghost predicate Valid()
      reads this
    {
      Conserved() && Watching()
    }

    constructor ()
      ensures Valid() && events == [] && !closed
    {
      batch, blockCounts, alerts, flushed, closed, events := [], map[], [], [], false, [];
    }

    method Flush()
      requires batch != []
      modifies this`batch, this`flushed
      ensures batch == [] && flushed == old(flushed) + [old(batch)]
      ensures Concat(flushed) == Concat(old(flushed)) + old(batch)
    {
      ConcatSnoc(flushed, batch);
      flushed := flushed + [batch];
      batch := [];
    }

    /** The anomaly part of receiving an entry. */
    method Detect(entry: Entry, now: nat)
      modifies this`blockCounts, this`alerts
      ensures if entry.status == "blocked" then
                var c := entry.clientIp;
                && blockCounts == old(blockCounts)[c := Bump(old(blockCounts), c, now)]
                && alerts == old(alerts) + if Alerts(old(blockCounts), c, now) then [c] else []
              else blockCounts == old(blockCounts) && alerts == old(alerts)
    {
      if entry.status == "blocked" {
        var tracker := if entry.clientIp in blockCounts then blockCounts[entry.clientIp] else Tracker(0, now);
        if Secs(now, tracker.start) > WINDOW_SECS {
          tracker := Tracker(1, now);
        } else {
          tracker := tracker.(count := tracker.count + 1);
          if tracker.count == ALERT_COUNT {
            alerts := alerts + [entry.clientIp];
          }
        }
        blockCounts := blockCounts[entry.clientIp := tracker];
      }
    }

    method OnEntry(entry: Entry, now: nat)
      requires Valid() && !closed
      modifies this
      ensures Valid() && !closed && events == old(events) + [Received(entry, now)]
    {
      HistorySnoc(events, Received(entry, now));
      ClientsAfter(WatchOf(events, true), entry, now, |events|);
      Detect(entry, now);
      Push(entry);
      events := events + [Received(entry, now)];
    }

    /** Adds to the batch and hands it over when it is full. */
    method Push(entry: Entry)
      requires |batch| < BATCH_SIZE && forall b :: b in flushed ==> 1 <= |b| <= BATCH_SIZE
      modifies this`batch, this`flushed
      ensures Concat(flushed) + batch == Concat(old(flushed)) + old(batch) + [entry]
      ensures |batch| < BATCH_SIZE && forall b :: b in flushed ==> 1 <= |b| <= BATCH_SIZE
    {
      batch := batch + [entry];
      if |batch| >= BATCH_SIZE {
        Flush();
      }
    }

    method OnTick(now: nat)
      requires Valid() && !closed
      modifies this
      ensures Valid() && !closed && events == old(events) + [Tick(now)] && batch == []
    {
      HistorySnoc(events, Tick(now));
      events := events + [Tick(now)];
      if batch != [] {
        Flush();
      }
      blockCounts := map c | c in blockCounts && Secs(now, blockCounts[c].start) < STALE_SECS :: blockCounts[c];
    }

    method OnClose()
      requires Valid() && !closed
      modifies this
      ensures Valid() && closed && events == old(events) + [Closed]
      ensures Concat(flushed) == Entries(events)
    {
      HistorySnoc(events, Closed);
      events := events + [Closed];
      if batch != [] {
        Flush();
      }
      closed := true;
    }
  }

  function Clients(alerts: seq<Alert>): seq<string> {
    seq(|alerts|, i requires 0 <= i < |alerts| => alerts[i].client)
  }

  /** `handled` is the events up to and with the first `Closed`, or all of them if there is none. */
  predicate UpToClose(handled: seq<Event>, incoming: seq<Event>) {
    if Closed in incoming then
      && handled != [] && handled <= incoming
      && handled[|handled| - 1] == Closed && Closed !in handled[..|handled| - 1]
    else handled == incoming
  }

  /**
   The writer over a whole run: events are handled in order, all of them or up to and with the first
   `Closed`; then nothing is pending and the flushed batches are exactly the entries received.
   */
  method Run(incoming: seq<Event>) returns (writer: Writer)
    ensures fresh(writer) && writer.Valid()
    ensures writer.closed <==> Closed in incoming
    ensures UpToClose(writer.events, incoming)
    ensures writer.closed ==> Concat(writer.flushed) == Entries(writer.events)
  {
    writer := new Writer();
    for i := 0 to |incoming|
      invariant fresh(writer) && writer.Valid() && !writer.closed
      invariant writer.events == incoming[..i] && Closed !in incoming[..i]
    {
      assert incoming[..i + 1] == incoming[..i] + [incoming[i]];
      match incoming[i]
      case Received(entry, now) => writer.OnEntry(entry, now);
      case Tick(now) => writer.OnTick(now);
      case Closed =>
        writer.OnClose();
        assert writer.events[..i] == incoming[..i];
        return;
    }
    assert incoming[..|incoming|] == incoming;
  }
}
