/** The operations on the linked structures carry out the steps of ChatSystem. */
module ChatRefinement {
  import opened Text
  import opened Protocol
  import opened HashMaps
  import opened StsQueues
  import opened Fanout
  import opened ChatSystem
  import opened ChatRuns
  import opened ChatServers

  /** A connection and its session in the step system. */
  ghost predicate Shows(cl: ClientConnection, x: Session)
    reads cl
  {
    && cl.uid == Some(x.uid) && cl.username == x.username && cl.hasReq
    && match x.phase
       case LoggedIn(_) => !cl.isReady && !cl.pingSent
       case Live(stage, pingSent) => cl.isInserted && cl.isReady == stage.Ready? && cl.pingSent == pingSent
       case Ended => true
       case Authenticating(_, _) => false
  }

  predicate Embodied(x: Session) {
    x.phase.LoggedIn? || x.phase.Live?
  }

  /** `conns` has the connection of every session that was let in, registered or not, and keeps it when the
      session ends; no connection belongs to two sessions. */
  ghost predicate AllShown(conns: map<Sid, ClientConnection>, s: Sys)
    reads conns.Values
  {
    && (forall sid | sid in conns :: sid in s.sessions && conns[sid].sid == sid && Shows(conns[sid], s.sessions[sid]))
    && (forall sid | sid in s.sessions && Embodied(s.sessions[sid]) :: sid in conns)
  }

  /** The registry's entries are the connections of the sessions in `s.registry`. */
  ghost predicate MapsTo(entries: map<string, ClientConnection>, conns: map<Sid, ClientConnection>, s: Sys) {
    && entries.Keys == s.registry.Keys
    && forall u | u in entries :: s.registry[u] in conns && entries[u] == conns[s.registry[u]]
  }

  ghost predicate Detached(clientMap: HashMap, queue: StsQueue<Message>, conns: map<Sid, ClientConnection>)
    reads clientMap, queue
  {
    clientMap.Repr !! queue.Repr && forall sid | sid in conns :: Outside(conns[sid], clientMap, queue)
  }

  /** The linked structures and the connections stand for `s`. */
  ghost predicate Represents(clientMap: HashMap, queue: StsQueue<Message>, conns: map<Sid, ClientConnection>, s: Sys)
    reads clientMap, clientMap.Repr, queue, queue.Repr, conns.Values
  {
    && clientMap.Valid() && queue.Valid() && Detached(clientMap, queue, conns)
    && queue.Contents == s.queue && NoDangling(s)
    && MapsTo(clientMap.Entries, conns, s) && AllShown(conns, s)
  }

  lemma EntriesApart(clientMap: HashMap, queue: StsQueue<Message>, conns: map<Sid, ClientConnection>, s: Sys)
    requires Detached(clientMap, queue, conns) && MapsTo(clientMap.Entries, conns, s)
    ensures Apart(clientMap, queue)
  {
  }

  function UidsOf(visited: seq<ClientConnection>): (order: seq<string>)
    requires Keyed(visited)
    ensures |order| == |visited|
    ensures forall i | 0 <= i < |visited| :: visited[i].uid == Some(order[i])
  {
    seq(|visited|, i requires 0 <= i < |visited| && visited[i].uid.Some? => visited[i].uid.value)
  }

  /** A visit of every entry once, as the order of a walk over the abstract registry. */
  lemma VisitIsWalk(visited: seq<ClientConnection>, entries: map<string, ClientConnection>, s: Sys, slots: seq<Slot>)
    requires Enumerates(visited, entries) && |slots| == |visited|
    requires entries.Keys == s.registry.Keys && forall u | u in entries :: entries[u].uid == Some(u)
    ensures Walk(s, UidsOf(visited), slots)
    ensures forall i | 0 <= i < |visited| :: UidsOf(visited)[i] in entries && entries[UidsOf(visited)[i]] == visited[i]
  {
    var order := UidsOf(visited);
    forall u | u in s.registry ensures u in order {
      var i :| 0 <= i < |visited| && visited[i] == entries[u];
      assert order[i] == u;
    }
  }

  function SidOf(cl: ClientConnection?): Option<Sid> {
    if cl == null then None else Some(cl.sid)
  }

  /** What the callbacks see of an entry is what the step system says about it. */
  lemma PeerShown(conns: map<Sid, ClientConnection>, s: Sys, u: string, newCl: ClientConnection?)
    requires NoDangling(s) && AllShown(conns, s) && u in s.registry && s.registry[u] in conns
    requires newCl != null ==> newCl.sid in conns && conns[newCl.sid] == newCl
    ensures var cl := conns[s.registry[u]]; cl.uid == Some(u) && PeerAt(cl, newCl) == PeerOf(s, u, SidOf(newCl))
  {
    assert LiveIn(s, s.registry[u]);
  }

  lemma VisitPeers(visited: seq<ClientConnection>, entries: map<string, ClientConnection>,
                   conns: map<Sid, ClientConnection>, s: Sys, slots: seq<Slot>, newCl: ClientConnection?)
    requires Enumerates(visited, entries) && |slots| == |visited|
    requires NoDangling(s) && MapsTo(entries, conns, s) && AllShown(conns, s)
    requires newCl != null ==> newCl.sid in conns && conns[newCl.sid] == newCl
    ensures Walk(s, UidsOf(visited), slots)
    ensures PeersAt(visited, newCl) == Peers(s, UidsOf(visited), SidOf(newCl))
  {
    forall u | u in entries ensures entries[u].uid == Some(u)
        && PeerAt(entries[u], newCl) == PeerOf(s, u, SidOf(newCl)) {
      PeerShown(conns, s, u, newCl);
    }
    VisitIsWalk(visited, entries, s, slots);
  }

  /** The walk itself, and that no connection changes in it. */
  method WalkConns(hash: string -> string, clientMap: HashMap, queue: StsQueue<Message>, fan: Fan,
                   newCl: ClientConnection?, slots: nat -> Slot, ghost conns: map<Sid, ClientConnection>, ghost s: Sys)
    returns (visited: seq<ClientConnection>)
    requires Represents(clientMap, queue, conns, s)
    modifies queue.Repr
    ensures clientMap.Valid() && queue.Valid() && fresh(queue.Repr - old(queue.Repr))
    ensures Detached(clientMap, queue, conns) && AllShown(conns, s)
    ensures Enumerates(visited, clientMap.Entries)
    ensures queue.Contents == s.queue + FanOut(hash, fan, PeersAt(visited, newCl), SlotsUpTo(slots, |visited|))
  {
    EntriesApart(clientMap, queue, conns, s);
    visited := Iterate(hash, clientMap, queue, fan, newCl, slots);
  }

  /** One of the walks over the map, as a step that queues a fan-out and leaves sessions and registry alone. */
  method WalkAll(hash: string -> string, clientMap: HashMap, queue: StsQueue<Message>, fan: Fan,
                 newCl: ClientConnection?, slots: nat -> Slot, ghost conns: map<Sid, ClientConnection>, ghost s: Sys)
    returns (visited: seq<ClientConnection>, ghost order: seq<string>, ghost given: seq<Slot>)
    requires Represents(clientMap, queue, conns, s)
    requires newCl != null ==> newCl.sid in conns && conns[newCl.sid] == newCl
    modifies queue.Repr
    ensures fresh(queue.Repr - old(queue.Repr)) && Walk(s, order, given)
    ensures Keyed(visited) && PeersAt(visited, newCl) == Peers(s, order, SidOf(newCl))
    ensures given == SlotsUpTo(slots, |order|)
    ensures Represents(clientMap, queue, conns,
                       s.(queue := s.queue + FanOut(hash, fan, Peers(s, order, SidOf(newCl)), given)))
  {
    visited := WalkConns(hash, clientMap, queue, fan, newCl, slots, conns, s);
    given, order := SlotsUpTo(slots, |visited|), UidsOf(visited);
    VisitPeers(visited, clientMap.Entries, conns, s, given, newCl);
  }

  /** Nothing else of the state is represented. */
  lemma SameWorld(clientMap: HashMap, queue: StsQueue<Message>, conns: map<Sid, ClientConnection>, s: Sys, after: Sys)
    requires Represents(clientMap, queue, conns, s)
    requires after.queue == s.queue && after.registry == s.registry && after.sessions == s.sessions && NoDangling(after)
    ensures Represents(clientMap, queue, conns, after)
  {
  }

  lemma FanAllEffect(hash: string -> string, s: Sys, a: Action, after: Sys)
    requires a.FanAll? && Next(hash, s, a, after)
    ensures && after.queue == s.queue + FanOut(hash, a.fan, Peers(s, a.order, None), a.slots)
            && after.registry == s.registry && after.sessions == s.sessions && after.router == s.router
  {
  }

  /** A ping, broadcast or quit to everybody is the FanAll step in the order of the walk. */
  method FanAllStep(hash: string -> string, clientMap: HashMap, queue: StsQueue<Message>, fan: Fan, slots: nat -> Slot,
                    ghost conns: map<Sid, ClientConnection>, ghost s: Sys)
    returns (ghost a: Action, ghost after: Sys)
    requires Represents(clientMap, queue, conns, s) && (fan.BroadcastFan? || fan.PingFan? || fan.QuitFan?)
    modifies queue.Repr
    ensures fresh(queue.Repr - old(queue.Repr))
    ensures a.FanAll? && a.fan == fan && a.slots == SlotsUpTo(slots, |a.order|)
    ensures Next(hash, s, a, after) && Represents(clientMap, queue, conns, after)
  {
    var visited;
    ghost var order, given;
    visited, order, given := WalkAll(hash, clientMap, queue, fan, null, slots, conns, s);
    a := FanAll(fan, order, given);
    after := Step(hash, s, a);
    FanAllEffect(hash, s, a, after);
    SameWorld(clientMap, queue, conns, s.(queue := after.queue), after);
  }

  lemma AnnounceEffect(hash: string -> string, s: Sys, a: Action, after: Sys)
    requires a.Announce? && Next(hash, s, a, after) && NoDangling(s)
    ensures NoDangling(after)
    ensures var x := s.sessions[a.sid];
            && after.queue == s.queue + FanOut(hash, JoinFan(x.username), Peers(s, a.order, Some(a.sid)), a.slots)
            && after.registry == s.registry
            && after.sessions == s.sessions[a.sid := x.(phase := Live(Announced, x.phase.pingSent))]
  {
    NoDanglingStep(hash, s, a);
  }

  /** A connection shows the same for sessions that differ in what it does not hold. */
  predicate Alike(x: Session, y: Session) {
    && x.uid == y.uid && x.username == y.username && (x.phase.LoggedIn? <==> y.phase.LoggedIn?)
    && (x.phase.Live? <==> y.phase.Live?) && (x.phase.Ended? <==> y.phase.Ended?)
    && (x.phase.Live? ==> x.phase.pingSent == y.phase.pingSent && x.phase.stage.Ready? == y.phase.stage.Ready?)
  }

  lemma AlikeWorld(clientMap: HashMap, queue: StsQueue<Message>, conns: map<Sid, ClientConnection>, s: Sys, after: Sys)
    requires Represents(clientMap, queue, conns, s) && after.queue == s.queue && after.registry == s.registry
    requires after.sessions.Keys == s.sessions.Keys && NoDangling(after)
    requires forall sid | sid in s.sessions :: Alike(after.sessions[sid], s.sessions[sid])
    ensures Represents(clientMap, queue, conns, after)
  {
    forall sid | sid in conns ensures Shows(conns[sid], after.sessions[sid]) {
      assert Alike(after.sessions[sid], s.sessions[sid]);
    }
  }

  lemma AnnounceWorld(hash: string -> string, clientMap: HashMap, queue: StsQueue<Message>,
                      conns: map<Sid, ClientConnection>, s: Sys, a: Action, after: Sys)
    requires a.Announce? && Next(hash, s, a, after) && NoDangling(s)
    requires Represents(clientMap, queue, conns, s.(queue := after.queue))
    ensures Represents(clientMap, queue, conns, after)
  {
    AnnounceEffect(hash, s, a, after);
    AlikeWorld(clientMap, queue, conns, s.(queue := after.queue), after);
  }

  /** The join message is the Announce step. */
  method AnnounceStep(hash: string -> string, clientMap: HashMap, queue: StsQueue<Message>, cl: ClientConnection,
                      slots: nat -> Slot, ghost conns: map<Sid, ClientConnection>, ghost s: Sys)
    returns (ghost a: Action, ghost after: Sys)
    requires Represents(clientMap, queue, conns, s)
    requires cl.sid in conns && conns[cl.sid] == cl && Is(s, cl.sid, Inserted)
    modifies queue.Repr
    ensures fresh(queue.Repr - old(queue.Repr))
    ensures a.Announce? && a.sid == cl.sid && a.slots == SlotsUpTo(slots, |a.order|)
    ensures Next(hash, s, a, after) && Represents(clientMap, queue, conns, after)
  {
    assert cl.username == s.sessions[cl.sid].username;
    var visited;
    ghost var order, given;
    visited, order, given := WalkAll(hash, clientMap, queue, JoinFan(cl.username), cl, slots, conns, s);
    a := Action.Announce(cl.sid, order, given);
    after := Step(hash, s, a);
    AnnounceEffect(hash, s, a, after);
    AnnounceWorld(hash, clientMap, queue, conns, s, a, after);
  }

  lemma KickScanEffect(hash: string -> string, s: Sys, a: Action, after: Sys)
    requires a.KickScan? && Next(hash, s, a, after)
    ensures && after.queue == s.queue + FanOut(hash, KickFan, Peers(s, a.order, None), a.slots)
            && after.kicks == s.kicks + Wanted(KickFan, Peers(s, a.order, None))
            && after.registry == s.registry && after.sessions == s.sessions && after.router == s.router
  {
  }

  /** Looking for unresponsive connections is the KickScan step. */
  method KickScanStep(hash: string -> string, clientMap: HashMap, queue: StsQueue<Message>, slots: nat -> Slot,
                      ghost conns: map<Sid, ClientConnection>, ghost s: Sys)
    returns (uids: seq<string>, ghost a: Action, ghost after: Sys)
    requires Represents(clientMap, queue, conns, s)
    modifies queue.Repr
    ensures fresh(queue.Repr - old(queue.Repr))
    ensures a.KickScan? && a.slots == SlotsUpTo(slots, |a.order|)
    ensures Next(hash, s, a, after) && Represents(clientMap, queue, conns, after)
    ensures after.kicks == s.kicks + uids
  {
    var visited;
    ghost var order, given;
    visited, order, given := WalkAll(hash, clientMap, queue, KickFan, null, slots, conns, s);
    uids := Unresponsive(visited);
    a := Action.KickScan(order, given);
    after := Step(hash, s, a);
    KickScanEffect(hash, s, a, after);
    SameWorld(clientMap, queue, conns, s.(queue := after.queue), after);
  }

  lemma EraseWorld(entries: map<string, ClientConnection>, conns: map<Sid, ClientConnection>, s: Sys, uid: string,
                   after: Sys)
    requires MapsTo(entries, conns, s) && after.registry == s.registry - {uid}
    ensures MapsTo(entries - {uid}, conns, after)
  {
  }

  /** Erasing the oldest collected uid is the KickErase step; its session goes on without an entry. */
  method KickEraseStep(hash: string -> string, clientMap: HashMap, ghost queue: StsQueue<Message>, uid: string,
                       ghost conns: map<Sid, ClientConnection>, ghost s: Sys, ghost after: Sys)
    requires Represents(clientMap, queue, conns, s) && Next(hash, s, KickErase, after) && s.kicks[0] == uid
    modifies clientMap.Repr
    ensures fresh(clientMap.Repr - old(clientMap.Repr))
    ensures Represents(clientMap, queue, conns, after)
  {
    EraseWorld(clientMap.Entries, conns, s, uid, after);
    NoDanglingStep(hash, s, KickErase);
    clientMap.Erase(uid);
    assert AllShown(conns, s);
  }

  lemma QuitOneEffect(hash: string -> string, s: Sys, uid: string, slot: Slot, after: Sys)
    requires Next(hash, s, QuitOne(uid, slot), after)
    ensures var p := PeerOf(s, uid, None);
            && after.queue == s.queue + (if p.ready then [Made(hash, QuitFan, p.uid, slot)] else [])
            && after.registry == s.registry && after.sessions == s.sessions && after.router == s.router
  {
    OnePeer(hash, QuitFan, PeerOf(s, uid, None), slot);
  }

  /** srv_kick: the quit signal to the connection that is registered under the given uid, if it is ready. */
  method QuitConn(hash: string -> string, clientMap: HashMap, queue: StsQueue<Message>, uid: string, slot: Slot,
                  ghost conns: map<Sid, ClientConnection>, ghost s: Sys)
    requires Represents(clientMap, queue, conns, s)
    modifies queue.Repr
    ensures queue.Valid() && fresh(queue.Repr - old(queue.Repr)) && Detached(clientMap, queue, conns)
    ensures var p := PeerOf(s, uid, None);
            queue.Contents == s.queue + if p.ready then [Made(hash, QuitFan, p.uid, slot)] else []
    ensures clientMap.Valid() && AllShown(conns, s)
  {
    EntriesApart(clientMap, queue, conns, s);
    var found, cl := clientMap.Find(uid);
    if found {
      PeerShown(conns, s, uid, null);
      Callback(hash, queue, QuitFan, cl, null, slot);
    }
  }

  /** Kicking one user from the command line is the QuitOne step. */
  method QuitOneStep(hash: string -> string, clientMap: HashMap, queue: StsQueue<Message>, uid: string, slot: Slot,
                     ghost conns: map<Sid, ClientConnection>, ghost s: Sys, ghost after: Sys)
    requires Represents(clientMap, queue, conns, s) && Next(hash, s, QuitOne(uid, slot), after)
    modifies queue.Repr
    ensures fresh(queue.Repr - old(queue.Repr))
    ensures Represents(clientMap, queue, conns, after)
  {
    QuitOneEffect(hash, s, uid, slot, after);
    QuitConn(hash, clientMap, queue, uid, slot, conns, s);
    SameWorld(clientMap, queue, conns, s.(queue := queue.Contents), after);
  }

  /** All connections but one are as they were, and that one shows its session's new state. */
  lemma OneShown(conns: map<Sid, ClientConnection>, s: Sys, after: Sys, changed: Option<Sid>)
    requires forall t | t in conns && changed != Some(t) ::
               t in s.sessions && Shows(conns[t], s.sessions[t]) && t in after.sessions
                   && Alike(after.sessions[t], s.sessions[t])
    requires forall t | t in conns :: conns[t].sid == t
    requires changed.Some? && changed.value in conns ==>
               changed.value in after.sessions && Shows(conns[changed.value], after.sessions[changed.value])
    requires forall t | t in after.sessions && Embodied(after.sessions[t]) :: t in conns
    ensures AllShown(conns, after)
  {
    forall t | t in conns ensures Shows(conns[t], after.sessions[t]) {
    }
  }

  /** All connections but that of `sid` show their sessions. */
  ghost predicate OthersShown(conns: map<Sid, ClientConnection>, s: Sys, sid: Sid)
    reads conns.Values
  {
    && (forall t | t in conns :: t in s.sessions && conns[t].sid == t && (t != sid ==> Shows(conns[t], s.sessions[t])))
    && (forall t | t in s.sessions && Embodied(s.sessions[t]) :: t in conns)
  }

  /** The step changes the session of `sid` to `x`, and no other. */
  ghost predicate Touched(s: Sys, sid: Sid, x: Session, after: Sys) {
    sid in s.sessions && after.sessions == s.sessions[sid := x] && NoDangling(after)
  }

  /** Only one connection has changed, along with its session. */
  lemma OneWorld(clientMap: HashMap, queue: StsQueue<Message>, conns: map<Sid, ClientConnection>, s: Sys, sid: Sid,
                 x: Session, after: Sys)
    requires clientMap.Valid() && queue.Valid() && Detached(clientMap, queue, conns) && queue.Contents == after.queue
    requires MapsTo(clientMap.Entries, conns, after) && Touched(s, sid, x, after)
    requires OthersShown(conns, s, sid) && sid in conns && Shows(conns[sid], x)
    ensures Represents(clientMap, queue, conns, after)
  {
    forall t | t in conns ensures Shows(conns[t], after.sessions[t]) {
    }
  }

  function MarkedSession(x: Session): Session {
    if x.phase.Live? then x.(phase := Live(x.phase.stage, true)) else x
  }

  /** A router action other than a mark changes no session, and other than a pop not the queue. */
  lemma RouterEffect(hash: string -> string, s: Sys, a: Action, after: Sys)
    requires Next(hash, s, a, after) && NoDangling(s) && IsRouterAction(a)
    ensures NoDangling(after) && after.registry == s.registry
    ensures after.queue == if a.RoutePop? then s.queue[1..] else s.queue
    ensures !a.RouteMark? ==> after.sessions == s.sessions
    ensures a.RouteMark? ==> Touched(s, s.router.to, MarkedSession(s.sessions[s.router.to]), after)
  {
    NoDanglingStep(hash, s, a);
  }

  /** sts_queue.pop in handle_msg_queue is the RoutePop step. */
  method PopStep(hash: string -> string, ghost clientMap: HashMap, queue: StsQueue<Message>,
                 ghost conns: map<Sid, ClientConnection>, ghost s: Sys, ghost after: Sys)
    returns (msg: Message)
    requires Represents(clientMap, queue, conns, s) && Next(hash, s, RoutePop, after)
    modifies queue.Repr
    ensures fresh(queue.Repr - old(queue.Repr)) && Represents(clientMap, queue, conns, after)
    ensures after.router == Holding(msg)
  {
    RouterEffect(hash, s, RoutePop, after);
    var popped := queue.Pop();
    msg := popped.value;
    assert AllShown(conns, s);
    SameWorld(clientMap, queue, conns, s.(queue := after.queue), after);
  }

  /** The lookup is the RouteFind step: it finds the connection that the step system finds. */
  method FindStep(hash: string -> string, clientMap: HashMap, ghost queue: StsQueue<Message>, msg: Message,
                  ghost conns: map<Sid, ClientConnection>, ghost s: Sys, ghost after: Sys)
    returns (to: ClientConnection?)
    requires Represents(clientMap, queue, conns, s) && Next(hash, s, RouteFind, after) && s.router == Holding(msg)
    ensures Represents(clientMap, queue, conns, after)
    ensures to == null ==> after.router == Idle
    ensures to != null ==> to.sid in conns && conns[to.sid] == to && after.router == Found(msg, to.sid)
  {
    RouterEffect(hash, s, RouteFind, after);
    EntriesApart(clientMap, queue, conns, s);
    to := LookUp(clientMap, msg.recipient);
    SameWorld(clientMap, queue, conns, s, after);
  }

  /** The assignment, and that nothing else changes in it. */
  method SetPinged(ghost clientMap: HashMap, ghost queue: StsQueue<Message>, cl: ClientConnection,
                   ghost conns: map<Sid, ClientConnection>, ghost s: Sys)
    requires Represents(clientMap, queue, conns, s) && cl.sid in conns && conns[cl.sid] == cl && Served(s, cl.sid)
    modifies cl`pingSent
    ensures clientMap.Valid() && queue.Valid() && queue.Contents == s.queue && OthersShown(conns, s, cl.sid)
    ensures Shows(cl, MarkedSession(s.sessions[cl.sid]))
  {
    cl.pingSent := true;
    forall t | t in conns && t != cl.sid ensures Shows(conns[t], s.sessions[t]) {
      assert old(Shows(conns[t], s.sessions[t]));
    }
  }

  method MarkConn(ghost clientMap: HashMap, ghost queue: StsQueue<Message>, cl: ClientConnection,
                  ghost conns: map<Sid, ClientConnection>, ghost s: Sys, ghost after: Sys)
    requires Represents(clientMap, queue, conns, s) && cl.sid in conns && conns[cl.sid] == cl && Served(s, cl.sid)
    requires Touched(s, cl.sid, MarkedSession(s.sessions[cl.sid]), after)
    requires after.queue == s.queue && after.registry == s.registry
    modifies cl`pingSent
    ensures Represents(clientMap, queue, conns, after)
  {
    SetPinged(clientMap, queue, cl, conns, s);
    OneWorld(clientMap, queue, conns, s, cl.sid, MarkedSession(s.sessions[cl.sid]), after);
  }

  /** `cl->ping_sent = 1` in handle_msg_queue is the RouteMark step, whether or not the thread has ended. */
  method MarkStep(hash: string -> string, ghost clientMap: HashMap, ghost queue: StsQueue<Message>,
                  cl: ClientConnection,
                  ghost conns: map<Sid, ClientConnection>, ghost s: Sys, ghost after: Sys)
    requires Represents(clientMap, queue, conns, s) && Next(hash, s, RouteMark, after)
    requires cl.sid in conns && conns[cl.sid] == cl && s.router == Wrote(cl.sid)
    modifies cl`pingSent
    ensures Represents(clientMap, queue, conns, after)
  {
    RouterEffect(hash, s, RouteMark, after);
    MarkConn(clientMap, queue, cl, conns, s, after);
  }

  /** The session of `sid` after a message. */
  function ReceivedSession(x: Session, msg: Message): Session {
    if x.phase.Live? then x.(phase := Live(x.phase.stage, x.phase.pingSent && msg.kind != ACK)) else x
  }

  lemma ReceiveEffect(hash: string -> string, s: Sys, sid: Sid, msg: Message, after: Sys)
    requires Next(hash, s, Action.Receive(sid, msg), after) && NoDangling(s)
    ensures Is(s, sid, Ready) && after.registry == s.registry
    ensures after.queue == s.queue + if msg.kind == PING || msg.kind == ACK then [] else [msg]
    ensures Touched(s, sid, ReceivedSession(s.sessions[sid], msg), after)
  {
    NoDanglingStep(hash, s, Action.Receive(sid, msg));
  }

  /** The message itself, and that the other connections stay as they are. */
  method ReceiveConn(hash: string -> string, stamp: string, ghost clientMap: HashMap, queue: StsQueue<Message>,
                     cl: ClientConnection, msg: Message, ghost conns: map<Sid, ClientConnection>, ghost s: Sys,
                     ghost after: Sys)
    returns (reply: Option<Creation>)
    requires Represents(clientMap, queue, conns, s)
    requires cl.sid in conns && conns[cl.sid] == cl && Is(s, cl.sid, Ready)
    requires Touched(s, cl.sid, ReceivedSession(s.sessions[cl.sid], msg), after) && after.registry == s.registry
    requires after.queue == s.queue + if msg.kind == PING || msg.kind == ACK then [] else [msg]
    modifies queue.Repr, cl`pingSent
    ensures fresh(queue.Repr - old(queue.Repr)) && Represents(clientMap, queue, conns, after)
    ensures reply == if msg.kind == PING then Some(CreateMessage(hash, stamp, ACK, SERVER, msg.sender, "ACK")) else None
  {
    reply := HandleReceived(hash, stamp, queue, cl, msg);
    forall t | t in conns && t != cl.sid ensures Shows(conns[t], s.sessions[t]) {
      assert old(Shows(conns[t], s.sessions[t]));
    }
    OneWorld(clientMap, queue, conns, s, cl.sid, ReceivedSession(s.sessions[cl.sid], msg), after);
  }

  /** A message in the read loop of handle_client is the Receive step. */
  method ReceiveStep(hash: string -> string, stamp: string, ghost clientMap: HashMap, queue: StsQueue<Message>,
                     cl: ClientConnection, msg: Message, ghost conns: map<Sid, ClientConnection>, ghost s: Sys,
                     ghost after: Sys)
    returns (reply: Option<Creation>)
    requires Represents(clientMap, queue, conns, s)
    requires cl.sid in conns && conns[cl.sid] == cl && Next(hash, s, Action.Receive(cl.sid, msg), after)
    modifies queue.Repr, cl`pingSent
    ensures fresh(queue.Repr - old(queue.Repr))
    ensures Represents(clientMap, queue, conns, after)
    ensures reply == if msg.kind == PING then Some(CreateMessage(hash, stamp, ACK, SERVER, msg.sender, "ACK")) else None
  {
    ReceiveEffect(hash, s, cl.sid, msg, after);
    reply := ReceiveConn(hash, stamp, clientMap, queue, cl, msg, conns, s, after);
  }

  lemma ReadyEffect(hash: string -> string, s: Sys, sid: Sid, after: Sys)
    requires Next(hash, s, BecomeReady(sid), after) && NoDangling(s)
    ensures Is(s, sid, Announced) && after.queue == s.queue && after.registry == s.registry
    ensures Touched(s, sid, s.sessions[sid].(phase := Live(Ready, s.sessions[sid].phase.pingSent)), after)
  {
    NoDanglingStep(hash, s, BecomeReady(sid));
  }

  method SetReady(ghost clientMap: HashMap, ghost queue: StsQueue<Message>, cl: ClientConnection,
                  ghost conns: map<Sid, ClientConnection>, ghost s: Sys)
    requires Represents(clientMap, queue, conns, s)
    requires cl.sid in conns && conns[cl.sid] == cl && Is(s, cl.sid, Announced)
    modifies cl`isReady
    ensures clientMap.Valid() && queue.Valid() && queue.Contents == s.queue && OthersShown(conns, s, cl.sid)
    ensures Shows(cl, s.sessions[cl.sid].(phase := Live(Ready, s.sessions[cl.sid].phase.pingSent)))
  {
    cl.isReady := true;
    forall t | t in conns && t != cl.sid ensures Shows(conns[t], s.sessions[t]) {
      assert old(Shows(conns[t], s.sessions[t]));
    }
  }

  method ReadyConn(ghost clientMap: HashMap, ghost queue: StsQueue<Message>, cl: ClientConnection,
                   ghost conns: map<Sid, ClientConnection>, ghost s: Sys, ghost after: Sys)
    requires Represents(clientMap, queue, conns, s)
    requires cl.sid in conns && conns[cl.sid] == cl && Is(s, cl.sid, Announced)
    requires after.queue == s.queue && after.registry == s.registry
    requires Touched(s, cl.sid, s.sessions[cl.sid].(phase := Live(Ready, s.sessions[cl.sid].phase.pingSent)), after)
    modifies cl`isReady
    ensures Represents(clientMap, queue, conns, after)
  {
    SetReady(clientMap, queue, cl, conns, s);
    OneWorld(clientMap, queue, conns, s, cl.sid, after.sessions[cl.sid], after);
  }

  /** `cl.is_ready = 1` is the BecomeReady step. */
  method ReadyStep(hash: string -> string, ghost clientMap: HashMap, ghost queue: StsQueue<Message>,
                   cl: ClientConnection,
                   ghost conns: map<Sid, ClientConnection>, ghost s: Sys, ghost after: Sys)
    requires Represents(clientMap, queue, conns, s)
    requires cl.sid in conns && conns[cl.sid] == cl && Next(hash, s, BecomeReady(cl.sid), after)
    modifies cl`isReady
    ensures Represents(clientMap, queue, conns, after)
  {
    ReadyEffect(hash, s, cl.sid, after);
    ReadyConn(clientMap, queue, cl, conns, s, after);
  }

  /** What the Insert step does to the abstract state. */
  ghost predicate Enters(s: Sys, sid: Sid, after: Sys) {
    && sid in s.sessions && s.sessions[sid].phase.LoggedIn?
    && after.registry == s.registry[s.sessions[sid].uid := sid] && after.queue == s.queue && NoDangling(after)
    && after.sessions.Keys == s.sessions.Keys
    && after.sessions[sid] == s.sessions[sid].(phase := Live(Inserted, false))
    && (forall t | t in s.sessions && t != sid :: Alike(after.sessions[t], s.sessions[t]))
  }

  lemma InsertEffect(hash: string -> string, s: Sys, sid: Sid, after: Sys)
    requires Next(hash, s, Insert(sid), after) && NoDangling(s)
    ensures Enters(s, sid, after)
  {
    NoDanglingStep(hash, s, Insert(sid));
  }

  /** The new entry, and everything else as before. */
  lemma InsertWorld(clientMap: HashMap, queue: StsQueue<Message>, cl: ClientConnection,
                    entries: map<string, ClientConnection>, conns: map<Sid, ClientConnection>, s: Sys, after: Sys)
    requires clientMap.Valid() && queue.Valid() && Detached(clientMap, queue, conns) && queue.Contents == s.queue
    requires MapsTo(entries, conns, s) && cl.sid in conns && conns[cl.sid] == cl && Enters(s, cl.sid, after)
    requires clientMap.Entries == entries[s.sessions[cl.sid].uid := cl]
    requires forall t | t in conns :: t in s.sessions && conns[t].sid == t
    requires forall t | t in s.sessions && Embodied(s.sessions[t]) :: t in conns
    requires forall t | t in conns && t != cl.sid :: Shows(conns[t], s.sessions[t])
    requires Shows(cl, after.sessions[cl.sid])
    ensures Represents(clientMap, queue, conns, after)
  {
    OneShown(conns, s, after, Some(cl.sid));
  }

  /** The insert itself, and that the other connections stay as they are. */
  method InsertConn(clientMap: HashMap, ghost queue: StsQueue<Message>, cl: ClientConnection,
                    ghost conns: map<Sid, ClientConnection>, ghost s: Sys)
    returns (result: int)
    requires Represents(clientMap, queue, conns, s)
    requires cl.sid in conns && conns[cl.sid] == cl && s.sessions[cl.sid].phase.LoggedIn?
    modifies clientMap.Repr, cl
    ensures clientMap.Valid() && fresh(clientMap.Repr - old(clientMap.Repr)) && Detached(clientMap, queue, conns)
    ensures queue.Valid() && queue.Contents == s.queue
    ensures clientMap.Entries == old(clientMap.Entries)[s.sessions[cl.sid].uid := cl]
    ensures result == if s.sessions[cl.sid].uid in s.registry then 2 else 1
    ensures Shows(cl, s.sessions[cl.sid].(phase := Live(Inserted, false)))
    ensures forall t | t in conns && t != cl.sid :: Shows(conns[t], s.sessions[t])
  {
    result := InsertClient(clientMap, cl);
    forall t | t in conns && t != cl.sid ensures Shows(conns[t], s.sessions[t]) {
      assert old(Shows(conns[t], s.sessions[t]));
    }
  }

  /** hash_map_insert in handle_client is the Insert step, and its result is that of the step system. */
  method InsertStep(hash: string -> string, clientMap: HashMap, ghost queue: StsQueue<Message>, cl: ClientConnection,
                    ghost conns: map<Sid, ClientConnection>, ghost s: Sys, ghost after: Sys)
    returns (result: int)
    requires Represents(clientMap, queue, conns, s)
    requires cl.sid in conns && conns[cl.sid] == cl && Next(hash, s, Insert(cl.sid), after)
    modifies clientMap.Repr, cl
    ensures fresh(clientMap.Repr - old(clientMap.Repr))
    ensures Represents(clientMap, queue, conns, after)
    ensures result == if s.sessions[cl.sid].uid in s.registry then 2 else 1
  {
    InsertEffect(hash, s, cl.sid, after);
    ghost var entries := clientMap.Entries;
    result := InsertConn(clientMap, queue, cl, conns, s);
    InsertWorld(clientMap, queue, cl, entries, conns, s, after);
  }

  lemma DisconnectEffect(hash: string -> string, s: Sys, sid: Sid, after: Sys)
    requires Next(hash, s, Disconnect(sid), after) && NoDangling(s)
    ensures LiveIn(s, sid) && Touched(s, sid, s.sessions[sid].(phase := Ended), after)
    ensures after.registry == s.registry - {s.sessions[sid].uid} && after.queue == s.queue
  {
    NoDanglingStep(hash, s, Disconnect(sid));
  }

  method DisconnectConn(clientMap: HashMap, ghost queue: StsQueue<Message>, cl: ClientConnection,
                        ghost conns: map<Sid, ClientConnection>, ghost s: Sys, ghost after: Sys)
    requires Represents(clientMap, queue, conns, s) && cl.sid in conns && conns[cl.sid] == cl && LiveIn(s, cl.sid)
    requires Touched(s, cl.sid, s.sessions[cl.sid].(phase := Ended), after)
    requires after.registry == s.registry - {s.sessions[cl.sid].uid} && after.queue == s.queue
    modifies clientMap.Repr
    ensures fresh(clientMap.Repr - old(clientMap.Repr)) && Represents(clientMap, queue, conns, after)
  {
    assert Shows(cl, s.sessions[cl.sid]);
    EraseWorld(clientMap.Entries, conns, s, s.sessions[cl.sid].uid, after);
    RemoveClient(clientMap, cl);
    assert AllShown(conns, s);
    OneWorld(clientMap, queue, conns, s, cl.sid, s.sessions[cl.sid].(phase := Ended), after);
  }

  /** The end of handle_client is the Disconnect step: whoever is registered under the uid loses the entry. */
  method DisconnectStep(hash: string -> string, clientMap: HashMap, ghost queue: StsQueue<Message>,
                        cl: ClientConnection, ghost conns: map<Sid, ClientConnection>, ghost s: Sys, ghost after: Sys)
    requires Represents(clientMap, queue, conns, s)
    requires cl.sid in conns && conns[cl.sid] == cl && Next(hash, s, Disconnect(cl.sid), after)
    modifies clientMap.Repr
    ensures fresh(clientMap.Repr - old(clientMap.Repr))
    ensures Represents(clientMap, queue, conns, after)
  {
    DisconnectEffect(hash, s, cl.sid, after);
    DisconnectConn(clientMap, queue, cl, conns, s, after);
  }
}
