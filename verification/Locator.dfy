/**
 Replication of the service list of one node to every node connected to it: a snapshot on connect,
 then one update per exposed or removed service, applied to the gateway at the other end.
 */
module Locator {
  import opened Common
  import opened Gateway

  type Services = map<string, Meta>

  /** One message of the stream; an entry without endpoints announces a removal. */
  type Update = map<string, Meta>

  datatype Mode = Exposed | Removed

  // ---------------------------------------------------------------------------
  // The receiving end.

  /** What the gateway takes: a service it does not have, or the removal of one it has. */
  predicate Acceptable(view: Services, name: string, meta: Meta)
  {
    if meta.endpoints == [] then name in view else name !in view
  }

  function Merge(view: Services, update: Update): Services
  {
    map name | name in view.Keys + update.Keys && !(name in update && update[name].endpoints == []) ::
      if name in update then update[name] else view[name]
  }

  function Apply(view: Services, update: Update): Option<Services>
  {
    if forall name | name in update :: Acceptable(view, name, update[name]) then Some(Merge(view, update)) else None
  }

  /** Applying a queue of updates in order; None when some update raises an error. */
  function Fold(view: Services, queue: seq<Update>): Option<Services>
    decreases |queue|
  {
    if queue == [] then Some(view)
    else
      match Apply(view, queue[0])
      case None => None
      case Some(next) => Fold(next, queue[1..])
  }

  datatype Announced = Applied | IdMismatch | Raised(answer: Answer)

  function Restrict(update: Update, names: set<string>): Update
  {
    map name | name in update && name in names :: update[name]
  }

  /**
   The sink of a connection, entry by entry in any order: it raises an error exactly when the
   update does not apply, and touches the entries of its own node only.
   */
  method OnAnnounce(gateway: AdhocGateway, uuid: string, node: string, update: Update) returns (r: Announced)
    modifies gateway
    ensures SameElsewhere(gateway.remotes, old(gateway.remotes), uuid)
    ensures node != uuid <==> r.IdMismatch?
    ensures r.IdMismatch? ==> gateway.remotes == old(gateway.remotes)
    ensures node == uuid ==> (r.Applied? <==> Apply(View(old(gateway.remotes), uuid), update).Some?)
    ensures r.Applied? ==> Some(View(gateway.remotes, uuid)) == Apply(View(old(gateway.remotes), uuid), update)
  {
    if node != uuid {
      return IdMismatch;
    }
    ghost var view := View(gateway.remotes, uuid);
    var todo := update.Keys;
    assert Merge(view, Restrict(update, {})) == view;
    while todo != {}
      invariant todo <= update.Keys && SameElsewhere(gateway.remotes, old(gateway.remotes), uuid)
      invariant View(gateway.remotes, uuid) == Merge(view, Restrict(update, update.Keys - todo))
      invariant forall name | name in update.Keys - todo :: Acceptable(view, name, update[name])
      decreases todo
    {
      var name :| name in todo;
      var meta := update[name];
      MergeNext(view, update, update.Keys - todo, name);
      var answer: Answer;
      if meta.endpoints == [] {
        answer := gateway.CleanupService(uuid, name);
      } else {
        answer := gateway.Consume(uuid, name, meta);
      }
      if !answer.Done? {
        assert !Acceptable(view, name, update[name]);
        return Raised(answer);
      }
      assert update.Keys - (todo - {name}) == (update.Keys - todo) + {name};
      todo := todo - {name};
    }
    assert Restrict(update, update.Keys - {}) == update;
    r := Applied;
  }

  lemma MergeNext(view: Services, update: Update, done: set<string>, name: string)
    requires name in update && name !in done
    ensures var part := Merge(view, Restrict(update, done));
            && (name in part <==> name in view)
            && Merge(view, Restrict(update, done + {name})) ==
               if update[name].endpoints == [] then part - {name} else part[name := update[name]]
  {
  }

  // ---------------------------------------------------------------------------
  // The cluster as seen from the sending node.

  datatype Config = Config(me: string, restricted: set<string>, clustered: bool, gatewayed: bool)

  /**
   `local` is the node's own part of its own gateway; `streams` are the undelivered updates per
   remote node; `views` is what each remote gateway knows of this node.
   */
  datatype Cluster = Cluster(local: Services, snapshots: Services, streams: map<string, seq<Update>>,
                             connected: set<string>, views: map<string, Services>, faults: nat)

  datatype Event =
    | Service(name: string, meta: Meta, mode: Mode)
    | Connect(node: string)
    | Deliver(node: string)
    | Drop(node: string)              // the remote sink goes away and cleans up after itself

  function ViewAt(c: Cluster, node: string): Services
  {
    if node in c.views then c.views[node] else map[]
  }

  /** The node's own gateway, consulted first, refuses what does not fit. */
  predicate Refused(cfg: Config, c: Cluster, name: string, mode: Mode)
  {
    cfg.gatewayed && (mode.Exposed? <==> name in c.local)
  }

  /** The event reaches the snapshot and the streams. */
  predicate Propagates(cfg: Config, c: Cluster, name: string, mode: Mode)
  {
    && !Refused(cfg, c, name, mode) && name !in cfg.restricted && cfg.clustered
    && !(mode.Exposed? && name in c.snapshots)
  }

  function Changed(services: Services, name: string, meta: Meta, mode: Mode): Services
  {
    if mode.Exposed? then services[name := meta] else services - {name}
  }

  function AppendAll(streams: map<string, seq<Update>>, update: Update): map<string, seq<Update>>
  {
    map node | node in streams :: streams[node] + [update]
  }

  function OnServiceStep(cfg: Config, c: Cluster, name: string, meta: Meta, mode: Mode): Cluster
  {
    var d := if Refused(cfg, c, name, mode) || !cfg.gatewayed then c
             else c.(local := Changed(c.local, name, meta, mode));
    if !Propagates(cfg, c, name, mode) then d
    else d.(snapshots := Changed(c.snapshots, name, meta, mode), streams := AppendAll(c.streams, map[name := meta]))
  }

  predicate Enabled(c: Cluster, e: Event)
  {
    match e
    case Service(_, _, _) => true
    case Connect(node) => node !in c.connected
    case Deliver(node) => node in c.connected && node in c.streams && c.streams[node] != []
    case Drop(node) => node in c.connected
  }

  function Step(cfg: Config, c: Cluster, e: Event): Cluster
    requires Enabled(c, e)
  {
    match e
    case Service(name, meta, mode) => OnServiceStep(cfg, c, name, meta, mode)
    case Connect(node) =>
      if cfg.clustered then c.(streams := c.streams[node := [c.snapshots]], connected := c.connected + {node}) else c
    case Deliver(node) =>
      (match Apply(ViewAt(c, node), c.streams[node][0])
       case Some(view) => c.(views := c.views[node := view], streams := c.streams[node := c.streams[node][1..]])
       case None => c.(views := c.views[node := map[]], connected := c.connected - {node}, faults := c.faults + 1))
    case Drop(node) => c.(views := c.views[node := map[]], connected := c.connected - {node})
  }

  /**
   The queued updates lead every connected remote gateway from what it knows to exactly the
   sender's snapshot; the others know nothing of the node.
   */
  ghost predicate InSync(c: Cluster)
  {
    && (forall node | node in c.connected ::
          node in c.streams && Fold(ViewAt(c, node), c.streams[node]) == Some(c.snapshots))
    && (forall node | node !in c.connected :: ViewAt(c, node) == map[])
    && c.faults == 0
  }

  /** Exposed services have endpoints; removed ones have none and are there. */
  predicate Proper(cfg: Config, c: Cluster, e: Event)
  {
    e.Service? && Propagates(cfg, c, e.name, e.mode) ==>
      if e.mode.Exposed? then e.meta.endpoints != [] else e.meta.endpoints == [] && e.name in c.snapshots
  }

  lemma {:induction false} FoldAppend(view: Services, queue: seq<Update>, update: Update)
    ensures Fold(view, queue + [update]) ==
            match Fold(view, queue) case None => None case Some(v) => Apply(v, update)
    decreases |queue|
  {
    if queue == [] {
      assert queue + [update] == [update];
    } else {
      assert (queue + [update])[1..] == queue[1..] + [update];
      match Apply(view, queue[0])
      case None =>
      case Some(next) => FoldAppend(next, queue[1..], update);
    }
  }

  /** A single update does to the receiver what the event did to the snapshot exactly when it is proper. */
  lemma UpdateFollowsSnapshot(cfg: Config, c: Cluster, name: string, meta: Meta, mode: Mode)
    requires Propagates(cfg, c, name, mode)
    ensures Apply(c.snapshots, map[name := meta]) == Some(Changed(c.snapshots, name, meta, mode))
            <==> Proper(cfg, c, Service(name, meta, mode))
  {
    var update := map[name := meta];
    assert name in update && update[name] == meta;
    assert forall n | n in update :: n == name;
    var merged := Merge(c.snapshots, update);
    if meta.endpoints == [] {
      assert merged == c.snapshots - {name};
    } else {
      assert merged == c.snapshots[name := meta];
      assert name in merged;
    }
  }

  lemma ServiceKeeps(cfg: Config, c: Cluster, name: string, meta: Meta, mode: Mode)
    requires InSync(c) && Proper(cfg, c, Service(name, meta, mode))
    ensures InSync(OnServiceStep(cfg, c, name, meta, mode))
  {
    if Propagates(cfg, c, name, mode) {
      UpdateFollowsSnapshot(cfg, c, name, meta, mode);
      forall node | node in c.connected
        ensures Fold(ViewAt(c, node), c.streams[node] + [map[name := meta]]) ==
                Some(Changed(c.snapshots, name, meta, mode))
      {
        FoldAppend(ViewAt(c, node), c.streams[node], map[name := meta]);
      }
    }
  }

  lemma ConnectKeeps(cfg: Config, c: Cluster, node: string)
    requires InSync(c) && node !in c.connected
    requires Listed(c.snapshots)
    ensures InSync(Step(cfg, c, Connect(node)))
  {
    var d := Step(cfg, c, Connect(node));
    assert ViewAt(d, node) == map[];
    assert Merge(map[], c.snapshots) == c.snapshots;
    assert Fold(map[], [c.snapshots]) == Some(c.snapshots) by {
      assert [c.snapshots][1..] == [];
      assert Apply(map[], c.snapshots) == Some(c.snapshots);
    }
  }

  /** Every service of the snapshot has endpoints. */
  ghost predicate Listed(services: Services)
  {
    forall name | name in services :: services[name].endpoints != []
  }

  lemma DeliverKeeps(cfg: Config, c: Cluster, node: string)
    requires InSync(c) && Enabled(c, Deliver(node))
    ensures InSync(Step(cfg, c, Deliver(node)))
  {
  }

  lemma StepKeeps(cfg: Config, c: Cluster, e: Event)
    requires InSync(c) && Listed(c.snapshots) && Enabled(c, e) && Proper(cfg, c, e)
    ensures InSync(Step(cfg, c, e)) && Listed(Step(cfg, c, e).snapshots)
  {
    match e
    case Service(name, meta, mode) => ServiceKeeps(cfg, c, name, meta, mode);
    case Connect(node) => ConnectKeeps(cfg, c, node);
    case Deliver(node) => DeliverKeeps(cfg, c, node);
    case Drop(node) =>
  }

  function Start(): Cluster
  {
    Cluster(map[], map[], map[], {}, map[], 0)
  }

  predicate Takes(cfg: Config, c: Cluster, e: Event, d: Cluster)
  {
    Enabled(c, e) && d == Step(cfg, c, e)
  }

  ghost predicate IsRun(cfg: Config, states: seq<Cluster>, events: seq<Event>)
  {
    && |states| == |events| + 1 && states[0] == Start()
    && forall i | 0 <= i < |events| :: Takes(cfg, states[i], events[i], states[i + 1])
  }

  lemma {:induction false} RunsKeep(cfg: Config, states: seq<Cluster>, events: seq<Event>, k: nat)
    requires IsRun(cfg, states, events) && k < |states|
    requires forall i | 0 <= i < k :: Proper(cfg, states[i], events[i])
    ensures InSync(states[k]) && Listed(states[k].snapshots)
  {
    if k > 0 {
      RunsKeep(cfg, states, events, k - 1);
      assert Takes(cfg, states[k - 1], events[k - 1], states[k - 1 + 1]);
      StepKeeps(cfg, states[k - 1], events[k - 1]);
    }
  }

  /**
   Replication: at every point of every run of proper events, over any number of connections and
   reconnections, no update has raised an error, and a remote node whose stream is drained knows
   exactly the sender's snapshot.
   */
  lemma Replication(cfg: Config, states: seq<Cluster>, events: seq<Event>, k: nat, node: string)
    requires IsRun(cfg, states, events) && k < |states|
    requires forall i | 0 <= i < k :: Proper(cfg, states[i], events[i])
    ensures var c := states[k];
            && c.faults == 0
            && (node in c.connected ==> node in c.streams && (c.streams[node] == [] ==> ViewAt(c, node) == c.snapshots))
            && (node !in c.connected ==> ViewAt(c, node) == map[])
  {
    RunsKeep(cfg, states, events, k);
  }

  /** The condition is exact: an improper event on a connected cluster that is in sync breaks it. */
  lemma ImproperBreaksSync(cfg: Config, c: Cluster, name: string, meta: Meta, mode: Mode, node: string)
    requires InSync(c) && node in c.connected
    ensures InSync(OnServiceStep(cfg, c, name, meta, mode)) <==> Proper(cfg, c, Service(name, meta, mode))
  {
    if Proper(cfg, c, Service(name, meta, mode)) {
      ServiceKeeps(cfg, c, name, meta, mode);
    } else {
      var d := OnServiceStep(cfg, c, name, meta, mode);
      UpdateFollowsSnapshot(cfg, c, name, meta, mode);
      FoldAppend(ViewAt(c, node), c.streams[node], map[name := meta]);
      assert d.streams[node] == c.streams[node] + [map[name := meta]] && ViewAt(d, node) == ViewAt(c, node);
    }
  }

  /** A queue that does not fold meets an update the gateway refuses, after some that it takes. */
  lemma {:induction false} UnfoldableQueueFaults(view: Services, queue: seq<Update>) returns (k: nat, at: Services)
    requires Fold(view, queue).None?
    ensures k < |queue| && Fold(view, queue[..k]) == Some(at) && Apply(at, queue[k]).None?
    decreases |queue|
  {
    match Apply(view, queue[0])
    case None => k, at := 0, view;
    case Some(next) =>
      k, at := UnfoldableQueueFaults(next, queue[1..]);
      assert queue[..k + 1][1..] == queue[1..][..k];
      k := k + 1;
  }

  // ---------------------------------------------------------------------------
  // What the node's own gateway contributes.

  ghost predicate Guarded(cfg: Config, c: Cluster)
  {
    cfg.gatewayed && cfg.clustered ==> forall name | name !in cfg.restricted :: name in c.local <==> name in c.snapshots
  }

  lemma StepGuarded(cfg: Config, c: Cluster, e: Event)
    requires Guarded(cfg, c) && Enabled(c, e)
    ensures Guarded(cfg, Step(cfg, c, e))
  {
  }

  lemma {:induction false} RunsGuarded(cfg: Config, states: seq<Cluster>, events: seq<Event>, k: nat)
    requires IsRun(cfg, states, events) && k < |states|
    ensures Guarded(cfg, states[k])
  {
    if k > 0 {
      RunsGuarded(cfg, states, events, k - 1);
      assert Takes(cfg, states[k - 1], events[k - 1], states[k - 1 + 1]);
      StepGuarded(cfg, states[k - 1], events[k - 1]);
    }
  }

  /**
   With a gateway of its own the node never sends a duplicate or the removal of an unknown service:
   in every run, an event that propagates is proper as soon as its endpoints suit its mode.
   */
  lemma GatewayMakesProper(cfg: Config, states: seq<Cluster>, events: seq<Event>, k: nat, name: string, meta: Meta,
                           mode: Mode)
    requires IsRun(cfg, states, events) && k < |states| && cfg.gatewayed
    requires Propagates(cfg, states[k], name, mode)
    ensures Proper(cfg, states[k], Service(name, meta, mode)) <==> (mode.Exposed? <==> meta.endpoints != [])
  {
    RunsGuarded(cfg, states, events, k);
  }

  // ---------------------------------------------------------------------------
  // What the lists hold, as a function of the events alone.

  /** How the node stands with a service after some events: described by the first exposure since the last removal. */
  function Exposure(events: seq<Event>, name: string): Option<Meta>
  {
    if events == [] then None
    else
      var n := |events| - 1;
      var e, before := events[n], Exposure(events[..n], name);
      if !e.Service? || e.name != name then before
      else if e.mode.Removed? then None
      else if before.None? then Some(e.meta) else before
  }

  predicate About(e: Event, name: string)
  {
    e.Service? && e.name == name
  }

  /** The exposure at `i` is the first since a removal, or ever, and no removal follows it. */
  ghost predicate StandsSince(events: seq<Event>, name: string, i: int)
  {
    && 0 <= i < |events| && About(events[i], name) && events[i].mode.Exposed?
    && (forall j | i < j < |events| && About(events[j], name) :: events[j].mode.Exposed?)
    && exists r :: RemovedLast(events, name, r, i)
  }

  /** The last event about the name before `i`, if there is one, is the removal at `r`. */
  ghost predicate RemovedLast(events: seq<Event>, name: string, r: int, i: int)
    requires 0 <= i <= |events|
  {
    && -1 <= r < i && (r >= 0 ==> About(events[r], name) && events[r].mode.Removed?)
    && forall j | r < j < i :: !About(events[j], name)
  }

  /** There is no event about the name, or the last one is a removal. */
  ghost predicate Absent(events: seq<Event>, name: string)
  {
    exists r :: RemovedLast(events, name, r, |events|)
  }

  /** In other words. */
  lemma {:induction false} ExposureIff(events: seq<Event>, name: string)
    ensures Exposure(events, name).None? <==> Absent(events, name)
    ensures forall i | StandsSince(events, name, i) :: Exposure(events, name) == Some(events[i].meta)
    ensures Exposure(events, name).Some? ==> exists i :: StandsSince(events, name, i)
  {
    if events == [] {
      assert RemovedLast(events, name, -1, 0);
    } else {
      var n := |events| - 1;
      var before := events[..n];
      ExposureIff(before, name);
      ExposureNoneStep(events, name, before);
      ExposureSomeStep(events, name, before);
      ExposureStandsStep(events, name, before);
    }
  }

  lemma ExposureNoneStep(events: seq<Event>, name: string, before: seq<Event>)
    requires events != [] && before == events[..|events| - 1]
    requires Exposure(before, name).None? <==> Absent(before, name)
    ensures Exposure(events, name).None? <==> Absent(events, name)
  {
    var n := |before|;
    var e := events[n];
    if About(e, name) {
      if e.mode.Removed? { assert RemovedLast(events, name, n, n + 1); }
    } else {
      if Absent(before, name) {
        var r :| RemovedLast(before, name, r, n);
        assert RemovedLast(events, name, r, n + 1);
      }
      if Absent(events, name) {
        var r :| RemovedLast(events, name, r, n + 1);
        assert RemovedLast(before, name, r, n);
      }
    }
  }

  lemma ExposureSomeStep(events: seq<Event>, name: string, before: seq<Event>)
    requires events != [] && before == events[..|events| - 1]
    requires Exposure(before, name).None? <==> Absent(before, name)
    requires Exposure(before, name).Some? ==> exists i :: StandsSince(before, name, i)
    ensures Exposure(events, name).Some? ==> exists i :: StandsSince(events, name, i)
  {
    var n := |before|;
    if Exposure(events, name).Some? {
      if Exposure(before, name).Some? {
        var i :| StandsSince(before, name, i);
        var r :| RemovedLast(before, name, r, i);
        assert RemovedLast(events, name, r, i);
        assert StandsSince(events, name, i);
      } else {
        var r :| RemovedLast(before, name, r, n);
        assert RemovedLast(events, name, r, n);
        assert StandsSince(events, name, n);
      }
    }
  }

  lemma ExposureStandsStep(events: seq<Event>, name: string, before: seq<Event>)
    requires events != [] && before == events[..|events| - 1]
    requires Exposure(before, name).None? <==> Absent(before, name)
    requires forall i | StandsSince(before, name, i) :: Exposure(before, name) == Some(before[i].meta)
    ensures forall i | StandsSince(events, name, i) :: Exposure(events, name) == Some(events[i].meta)
  {
    var n := |before|;
    forall i | StandsSince(events, name, i) ensures Exposure(events, name) == Some(events[i].meta) {
      var r :| RemovedLast(events, name, r, i);
      if i < n {
        assert RemovedLast(before, name, r, i);
        assert StandsSince(before, name, i);
      } else {
        assert RemovedLast(before, name, r, n);
      }
    }
  }

  /** The lists follow the events: the own gateway with all services, the snapshot with those not restricted. */
  ghost predicate Listing(cfg: Config, c: Cluster, events: seq<Event>, name: string)
  {
    var exposure := Exposure(events, name);
    && (cfg.gatewayed ==> (name in c.local <==> exposure.Some?))
    && (cfg.gatewayed && name in c.local ==> c.local[name] == exposure.value)
    && (name in c.snapshots <==> cfg.clustered && name !in cfg.restricted && exposure.Some?)
    && (name in c.snapshots ==> c.snapshots[name] == exposure.value)
  }

  lemma StepListing(cfg: Config, c: Cluster, events: seq<Event>, e: Event, name: string)
    requires Listing(cfg, c, events, name) && Enabled(c, e)
    ensures Listing(cfg, Step(cfg, c, e), events + [e], name)
  {
    assert (events + [e])[..|events|] == events;
  }

  /**
   Over every run, proper or not: a clustered node's snapshot holds a service with a description
   exactly if it is not restricted and was so described when last exposed anew, whether or not the
   node has a gateway; its own gateway, if it has one, holds all services so.
   */
  lemma {:induction false} SnapshotIsListing(cfg: Config, states: seq<Cluster>, events: seq<Event>, k: nat,
                                             name: string)
    requires IsRun(cfg, states, events) && k < |states|
    ensures Listing(cfg, states[k], events[..k], name)
  {
    if k > 0 {
      SnapshotIsListing(cfg, states, events, k - 1, name);
      assert Takes(cfg, states[k - 1], events[k - 1], states[k - 1 + 1]);
      StepListing(cfg, states[k - 1], events[..k - 1], events[k - 1], name);
      assert events[..k] == events[..k - 1] + [events[k - 1]];
    }
  }

  /** A service event is refused exactly by a gateway that has the exposed service, or lacks the removed one. */
  lemma RefusalExact(cfg: Config, states: seq<Cluster>, events: seq<Event>, k: nat, name: string, mode: Mode)
    requires IsRun(cfg, states, events) && k < |states|
    ensures Refused(cfg, states[k], name, mode) <==>
            cfg.gatewayed && (mode.Exposed? <==> Exposure(events[..k], name).Some?)
  {
    SnapshotIsListing(cfg, states, events, k, name);
  }

  /**
   Replication in terms of the events: in every run of proper events, a remote node that is connected
   and has drained its stream knows exactly the exposed services that are not restricted, each as it
   was described.
   */
  lemma RemoteKnowsExposed(cfg: Config, states: seq<Cluster>, events: seq<Event>, k: nat, node: string, name: string)
    requires IsRun(cfg, states, events) && k < |states|
    requires forall i | 0 <= i < k :: Proper(cfg, states[i], events[i])
    requires node in states[k].connected && node in states[k].streams && states[k].streams[node] == []
    ensures var view, exposure := ViewAt(states[k], node), Exposure(events[..k], name);
            && (name in view <==> cfg.clustered && name !in cfg.restricted && exposure.Some?)
            && (name in view ==> view[name] == exposure.value)
  {
    Replication(cfg, states, events, k, node);
    SnapshotIsListing(cfg, states, events, k, name);
  }

  /** A node is connected since its last connection, unless it was dropped since. */
  predicate Linked(cfg: Config, events: seq<Event>, node: string)
  {
    if events == [] then false
    else
      var n := |events| - 1;
      match events[n]
      case Connect(other) => (cfg.clustered && other == node) || Linked(cfg, events[..n], node)
      case Drop(other) => other != node && Linked(cfg, events[..n], node)
      case _ => Linked(cfg, events[..n], node)
  }

  /** In every run of proper events exactly the nodes connected and not dropped since are connected. */
  lemma {:induction false} ConnectedIsLinked(cfg: Config, states: seq<Cluster>, events: seq<Event>, k: nat,
                                             node: string)
    requires IsRun(cfg, states, events) && k < |states|
    requires forall i | 0 <= i < k :: Proper(cfg, states[i], events[i])
    ensures node in states[k].connected <==> Linked(cfg, events[..k], node)
  {
    if k > 0 {
      ConnectedIsLinked(cfg, states, events, k - 1, node);
      RunsKeep(cfg, states, events, k - 1);
      assert Takes(cfg, states[k - 1], events[k - 1], states[k - 1 + 1]);
      assert events[..k][..k - 1] == events[..k - 1];
      if events[k - 1].Deliver? { DeliveryApplies(states[k - 1], events[k - 1].node); }
    }
  }

  lemma DeliveryApplies(c: Cluster, node: string)
    requires InSync(c) && Enabled(c, Deliver(node))
    ensures Apply(ViewAt(c, node), c.streams[node][0]).Some?
  {
  }

  /** An update that does not apply ends the connection, empties the remote view, and counts as a fault. */
  lemma FaultEffect(cfg: Config, c: Cluster, node: string)
    requires Enabled(c, Deliver(node))
    ensures var d := Step(cfg, c, Deliver(node));
            && (d.faults == c.faults + 1 <==> Apply(ViewAt(c, node), c.streams[node][0]).None?)
            && (d.faults != c.faults ==> node !in d.connected && ViewAt(d, node) == map[])
            && (d.faults == c.faults ==> node in d.connected && d.streams[node] == c.streams[node][1..])
            && (forall other | other != node :: ViewAt(d, other) == ViewAt(c, other))
  {
  }

  // ---------------------------------------------------------------------------
  // The locator object.

  class LocatorObject {
    const cfg: Config
    const gateway: AdhocGateway
    var snapshots: Services
    var streams: map<string, seq<Update>>

    constructor (cfg: Config, gateway: AdhocGateway)
      ensures this.cfg == cfg && this.gateway == gateway && snapshots == map[] && streams == map[]
    {
      this.cfg := cfg;
      this.gateway := gateway;
      snapshots, streams := map[], map[];
    }

    ghost function Model(connected: set<string>, views: map<string, Services>, faults: nat): Cluster
      reads this, gateway
    {
      Cluster(if cfg.gatewayed then View(gateway.remotes, cfg.me) else map[],
              snapshots, streams, connected, views, faults)
    }

    /** `raised` when the node's own gateway refused; nothing else happens then. */
    method OnService(name: string, meta: Meta, mode: Mode,
                     ghost connected: set<string>, ghost views: map<string, Services>, ghost faults: nat)
      returns (raised: bool)
      modifies this, gateway
      ensures raised <==> Refused(cfg, old(Model(connected, views, faults)), name, mode)
      ensures Model(connected, views, faults) ==
              OnServiceStep(cfg, old(Model(connected, views, faults)), name, meta, mode)
      ensures SameElsewhere(gateway.remotes, old(gateway.remotes), cfg.me)
    {
      raised := false;
      if cfg.gatewayed {
        var answer: Answer;
        if mode == Exposed {
          answer := gateway.Consume(cfg.me, name, meta);
        } else {
          answer := gateway.CleanupService(cfg.me, name);
        }
        if !answer.Done? {
          assert name !in View(old(gateway.remotes), cfg.me) ==>
                   View(old(gateway.remotes), cfg.me) - {name} == View(old(gateway.remotes), cfg.me);
          return true;
        }
      }
      if name in cfg.restricted || !cfg.clustered {
        return;
      }
      if mode == Exposed {
        if name in snapshots {
          return;
        }
        snapshots := snapshots[name := meta];
      } else {
        snapshots := snapshots - {name};
      }
      streams := WriteToAll(streams, map[name := meta]);
    }

    /** Without a cluster there are no streams: the one returned is closed at once. */
    method OnConnect(node: string) returns (closed: bool)
      modifies this`streams
      ensures closed <==> !cfg.clustered
      ensures streams == if closed then old(streams) else old(streams)[node := [snapshots]]
    {
      if !cfg.clustered {
        return true;
      }
      closed := false;
      streams := streams - {node};
      streams := streams[node := []];
      streams := streams[node := streams[node] + [snapshots]];
      assert [] + [snapshots] == [snapshots];
      assert streams == old(streams)[node := [snapshots]];
    }
  }

  method WriteToAll(streams: map<string, seq<Update>>, update: Update) returns (r: map<string, seq<Update>>)
    ensures r == AppendAll(streams, update)
  {
    r := streams;
    var todo := streams.Keys;
    while todo != {}
      invariant todo <= streams.Keys && r.Keys == streams.Keys
      invariant forall node | node in r :: r[node] == if node in todo then streams[node] else streams[node] + [update]
      decreases todo
    {
      var node :| node in todo;
      r := r[node := r[node] + [update]];
      todo := todo - {node};
    }
  }
}
