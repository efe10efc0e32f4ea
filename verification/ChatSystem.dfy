/** The server as interleaved atomic steps: dialogues, registry, queue, routing, pings and kicks
    (server/src/server.c, server/src/server_auth.c). Each locked map or queue operation, each write to a
    connection or its flags, and each stretch of user_auth between two blocking reads, is one step. */
module ChatSystem {
  import opened Text
  import opened Protocol
  import opened AuthDialogue
  import opened Fanout

  /** A client thread and its client_connection. */
  type Sid = nat

  datatype Stage = Inserted | Announced | Ready

  /** `raced` is history: another insert of the same uid since the online check (or since the row was added). */
  datatype Phase =
    | Authenticating(auth: AuthState, raced: bool)
    | LoggedIn(raced: bool)
    | Live(stage: Stage, pingSent: bool)
    | Ended

  datatype Session = Session(phase: Phase, username: string, uid: string)

  /** A message that the router is done with and the connection it was written to, if any. */
  datatype Popped = Popped(message: Message, to: Option<Sid>)

  /** Where handle_msg_queue stands: before a pop, with a popped message, with the connection that the lookup
      found, or with a connection that was written a server's ping and is still to be marked. */
  datatype Router = Idle | Holding(message: Message) | Found(message: Message, to: Sid) | Wrote(to: Sid)

  /** `kicks` are the uids that kick_unresponsive still has to erase; `pushed` and `popped` are history. */
  datatype Sys = Sys(
    users: Users,
    sessions: map<Sid, Session>,
    registry: map<string, Sid>,
    queue: seq<Message>,
    router: Router,
    kicks: seq<string>,
    pushed: seq<Message>,
    popped: seq<Popped>)

  datatype Action =
    | Connect(sid: Sid)
    | AuthRead(sid: Sid, input: Input)
    | Insert(sid: Sid)
    | Announce(sid: Sid, order: seq<string>, slots: seq<Slot>)
    | BecomeReady(sid: Sid)
    | Receive(sid: Sid, message: Message)
    | Disconnect(sid: Sid)
    | RoutePop
    | RouteFind
    | RouteWrite
    | RouteMark
    | FanAll(fan: Fan, order: seq<string>, slots: seq<Slot>)
    | QuitOne(uid: string, slot: Slot)
    | KickScan(order: seq<string>, slots: seq<Slot>)
    | KickErase

  predicate Is(s: Sys, sid: Sid, stage: Stage) {
    sid in s.sessions && s.sessions[sid].phase.Live? && s.sessions[sid].phase.stage == stage
  }

  predicate LiveIn(s: Sys, sid: Sid) {
    sid in s.sessions && s.sessions[sid].phase.Live?
  }

  /** `order` is a walk over the map that meets every entry once. */
  predicate Walk(s: Sys, order: seq<string>, slots: seq<Slot>) {
    && |slots| == |order| && Distinct(order)
    && (forall u | u in order :: u in s.registry) && (forall u | u in s.registry :: u in order)
  }

  predicate Enabled(s: Sys, a: Action) {
    match a
    case Connect(sid) => sid !in s.sessions
    case AuthRead(sid, _) =>
      sid in s.sessions && s.sessions[sid].phase.Authenticating? && !s.sessions[sid].phase.auth.Finished()
    case Insert(sid) => sid in s.sessions && s.sessions[sid].phase.LoggedIn?
    case Announce(sid, order, slots) => Is(s, sid, Inserted) && Walk(s, order, slots)
    case BecomeReady(sid) => Is(s, sid, Announced)
    case Receive(sid, _) => Is(s, sid, Ready)
    case Disconnect(sid) => Is(s, sid, Ready)
    case RoutePop => s.router.Idle? && s.queue != []
    case RouteFind => s.router.Holding?
    case RouteWrite => s.router.Found?
    case RouteMark => s.router.Wrote?
    case FanAll(fan, order, slots) => (fan.BroadcastFan? || fan.PingFan? || fan.QuitFan?) && Walk(s, order, slots)
    case QuitOne(_, _) => true
    case KickScan(order, slots) => Walk(s, order, slots)
    case KickErase => s.kicks != []
  }

  function PeerOf(s: Sys, uid: string, newcomer: Option<Sid>): Peer {
    if uid in s.registry && LiveIn(s, s.registry[uid]) then
      var session := s.sessions[s.registry[uid]];
      Peer(session.uid, session.phase.stage.Ready?, session.phase.pingSent, newcomer == Some(s.registry[uid]))
    else
      Peer(uid, false, false, false)
  }

  function Peers(s: Sys, order: seq<string>, newcomer: Option<Sid>): (peers: seq<Peer>)
    ensures |peers| == |order|
  {
    seq(|order|, i requires 0 <= i < |order| => PeerOf(s, order[i], newcomer))
  }

  function Push(s: Sys, ms: seq<Message>): Sys {
    s.(queue := s.queue + ms, pushed := s.pushed + ms)
  }

  function SetPing(s: Sys, sid: Sid, value: bool): Sys {
    if LiveIn(s, sid) then
      s.(sessions := s.sessions[sid := s.sessions[sid].(phase := Live(s.sessions[sid].phase.stage, value))])
    else s
  }

  /** The uid whose offline check a session relies on until it is inserted. */
  function Pending(x: Session): Option<string> {
    match x.phase
    case Authenticating(auth, _) => if auth.AwaitLogin? then Some(auth.uid) else None
    case LoggedIn(_) => Some(x.uid)
    case _ => None
  }

  function MarkRaced(x: Session, uid: string): Session {
    if Pending(x) != Some(uid) then x
    else if x.phase.LoggedIn? then x.(phase := LoggedIn(true))
    else x.(phase := Authenticating(x.phase.auth, true))
  }

  /** The session after its dialogue moved to `auth`. */
  function AfterTurn(x: Session, auth: AuthState): Session
    requires x.phase.Authenticating?
  {
    match auth
    case Granted(username, uid, added) => Session(LoggedIn(added.None? && x.phase.raced), username, uid)
    case Refused(_) => x.(phase := Ended)
    case _ => x.(phase := Authenticating(auth, false))
  }

  function AuthTurn(hash: string -> string, s: Sys, sid: Sid, input: Input): AuthState
    requires Enabled(s, AuthRead(sid, input))
  {
    Resume(hash, s.sessions[sid].phase.auth, Wake(input, s.users, s.registry.Keys)).state
  }

  predicate IsServerPing(m: Message) {
    m.kind == PING && m.sender == SERVER
  }

  /** handle_msg_queue, one stretch between two shared operations after another: pop, look the recipient up,
      write to the connection that was found, and mark it when that was a server's ping. The bucket is not
      locked from the lookup on, so the connection's thread may end, or take in an answer, in between. */
  function RouterStep(s: Sys): Sys
    requires s.router.Idle? ==> s.queue != []
  {
    match s.router
    case Idle => s.(router := Holding(s.queue[0]), queue := s.queue[1..])
    case Holding(m) =>
      if m.recipient in s.registry then s.(router := Found(m, s.registry[m.recipient]))
      else s.(router := Idle, popped := s.popped + [Popped(m, None)])
    case Found(m, to) =>
      s.(router := if IsServerPing(m) then Wrote(to) else Idle, popped := s.popped + [Popped(m, Some(to))])
    case Wrote(to) => SetPing(s, to, true).(router := Idle)
  }

  predicate IsRouterAction(a: Action) {
    a.RoutePop? || a.RouteFind? || a.RouteWrite? || a.RouteMark?
  }

  function Step(hash: string -> string, s: Sys, a: Action): Sys
    requires Enabled(s, a)
  {
    match a
    case Connect(sid) => s.(sessions := s.sessions[sid := Session(Authenticating(AwaitUsername(0), false), "", "")])
    case AuthRead(sid, input) =>
      var auth := AuthTurn(hash, s, sid, input);
      s.(users := Committed(s.users, auth), sessions := s.sessions[sid := AfterTurn(s.sessions[sid], auth)])
    case Insert(sid) =>
      var x := s.sessions[sid];
      var marked := map t | t in s.sessions :: MarkRaced(s.sessions[t], x.uid);
      s.(sessions := marked[sid := x.(phase := Live(Inserted, false))], registry := s.registry[x.uid := sid])
    case Announce(sid, order, slots) =>
      var x := s.sessions[sid];
      var told := Push(s, FanOut(hash, JoinFan(x.username), Peers(s, order, Some(sid)), slots));
      told.(sessions := s.sessions[sid := x.(phase := Live(Announced, x.phase.pingSent))])
    case BecomeReady(sid) =>
      s.(sessions := s.sessions[sid := s.sessions[sid].(phase := Live(Ready, s.sessions[sid].phase.pingSent))])
    case Receive(sid, m) =>
      if m.kind == PING then s else if m.kind == ACK then SetPing(s, sid, false) else Push(s, [m])
    case Disconnect(sid) =>
      s.(sessions := s.sessions[sid := s.sessions[sid].(phase := Ended)],
          registry := s.registry - {s.sessions[sid].uid})
    case RoutePop => RouterStep(s)
    case RouteFind => RouterStep(s)
    case RouteWrite => RouterStep(s)
    case RouteMark => RouterStep(s)
    case FanAll(fan, order, slots) => Push(s, FanOut(hash, fan, Peers(s, order, None), slots))
    case QuitOne(uid, slot) => Push(s, FanOut(hash, QuitFan, [PeerOf(s, uid, None)], [slot]))
    case KickScan(order, slots) =>
      var peers := Peers(s, order, None);
      Push(s, FanOut(hash, KickFan, peers, slots)).(kicks := s.kicks + Wanted(KickFan, peers))
    case KickErase => s.(registry := s.registry - {s.kicks[0]}, kicks := s.kicks[1..])
  }

  ghost predicate Initial(hash: string -> string, s: Sys) {
    && s.sessions == map[] && s.registry == map[] && s.queue == [] && s.router == Idle && s.kicks == []
    && s.pushed == [] && s.popped == []
    && TableOk(hash, s.users)
  }

  /** The session has been inserted, and may have ended since. */
  predicate Served(s: Sys, sid: Sid) {
    sid in s.sessions && (s.sessions[sid].phase.Live? || s.sessions[sid].phase.Ended?)
  }

  /** Every registry entry refers to a session that was inserted and whose thread has not ended; what the router
      has found was such a session when it looked. */
  predicate NoDangling(s: Sys) {
    && (forall u | u in s.registry :: LiveIn(s, s.registry[u]) && s.sessions[s.registry[u]].uid == u)
    && (s.router.Found? ==> Served(s, s.router.to) && s.sessions[s.router.to].uid == s.router.message.recipient)
    && (s.router.Wrote? ==> Served(s, s.router.to))
  }

  /** Whoever got past the password prompt has a row in the table. */
  predicate SessionKnown(users: Users, x: Session) {
    match x.phase
    case Authenticating(auth, _) =>
      && !auth.Finished()
      && (auth.AwaitLogin? ==> auth.username in users && users[auth.username].uid == auth.uid)
    case LoggedIn(_) => x.username in users && users[x.username].uid == x.uid
    case Live(_, _) => x.username in users && users[x.username].uid == x.uid
    case Ended => true
  }

  ghost predicate Known(hash: string -> string, s: Sys) {
    && TableOk(hash, s.users)
    && forall sid | sid in s.sessions :: SessionKnown(s.users, s.sessions[sid])
  }

  function Messages(popped: seq<Popped>): seq<Message> {
    seq(|popped|, i requires 0 <= i < |popped| => popped[i].message)
  }

  /** The message that the router has popped and not finished with. */
  function InHand(r: Router): seq<Message> {
    if r.Holding? || r.Found? then [r.message] else []
  }

  /** The queue neither loses, repeats nor reorders a message, and a message is only ever written to the
      session that was registered under its recipient when the router looked. */
  predicate Routed(s: Sys) {
    && s.pushed == Messages(s.popped) + InHand(s.router) + s.queue
    && forall i | 0 <= i < |s.popped| && s.popped[i].to.Some? ::
         Served(s, s.popped[i].to.value) && s.sessions[s.popped[i].to.value].uid == s.popped[i].message.recipient
  }

  /** Nobody else was inserted under the uid that an unraced session was found offline with. */
  predicate Unraced(x: Session) {
    Pending(x).Some? && !x.phase.raced
  }

  predicate ChecksHold(s: Sys) {
    forall sid | sid in s.sessions && Unraced(s.sessions[sid]) :: Pending(s.sessions[sid]).value !in s.registry
  }

  lemma NoDanglingOther(hash: string -> string, s: Sys, a: Action)
    requires NoDangling(s) && Enabled(s, a) && !IsRouterAction(a)
    ensures NoDangling(Step(hash, s, a))
  {
  }

  lemma NoDanglingRouter(s: Sys)
    requires NoDangling(s) && (s.router.Idle? ==> s.queue != [])
    ensures NoDangling(RouterStep(s))
  {
  }

  lemma NoDanglingStep(hash: string -> string, s: Sys, a: Action)
    requires NoDangling(s) && Enabled(s, a)
    ensures NoDangling(Step(hash, s, a))
  {
    if IsRouterAction(a) {
      NoDanglingRouter(s);
    } else {
      NoDanglingOther(hash, s, a);
    }
  }

  lemma KnownThread(hash: string -> string, s: Sys, a: Action)
    requires Known(hash, s) && Enabled(s, a)
    requires a.Connect? || a.Insert? || a.Announce? || a.BecomeReady? || a.Disconnect?
    ensures Known(hash, Step(hash, s, a)) && Step(hash, s, a).users == s.users
  {
  }

  lemma KnownOther(hash: string -> string, s: Sys, a: Action)
    requires Known(hash, s) && Enabled(s, a)
    requires !(a.Connect? || a.AuthRead? || a.Insert? || a.Announce? || a.BecomeReady? || a.Disconnect?)
    ensures Known(hash, Step(hash, s, a)) && Step(hash, s, a).users == s.users
  {
  }

  lemma KnownOne(hash: string -> string, s: Sys, sid: Sid, x: Session, users: Users, after: Sys)
    requires Known(hash, s) && TableOk(hash, users) && SessionKnown(users, x)
    requires forall u | u in s.users :: u in users && users[u] == s.users[u]
    requires after.sessions == s.sessions[sid := x] && after.users == users
    ensures Known(hash, after)
  {
  }

  lemma KnownAuth(hash: string -> string, s: Sys, sid: Sid, input: Input)
    requires Known(hash, s) && Enabled(s, AuthRead(sid, input))
    ensures var after := Step(hash, s, AuthRead(sid, input));
            Known(hash, after) && forall u | u in s.users :: u in after.users && after.users[u] == s.users[u]
  {
    ResumeKeepsTable(hash, s.sessions[sid].phase.auth, Wake(input, s.users, s.registry.Keys));
    var after := Step(hash, s, AuthRead(sid, input));
    KnownOne(hash, s, sid, after.sessions[sid], after.users, after);
  }

  lemma KnownStep(hash: string -> string, s: Sys, a: Action)
    requires Known(hash, s) && Enabled(s, a)
    ensures Known(hash, Step(hash, s, a))
    ensures forall u | u in s.users :: u in Step(hash, s, a).users && Step(hash, s, a).users[u] == s.users[u]
  {
    if a.AuthRead? {
      KnownAuth(hash, s, a.sid, a.input);
    } else if a.Connect? || a.Insert? || a.Announce? || a.BecomeReady? || a.Disconnect? {
      KnownThread(hash, s, a);
    } else {
      KnownOther(hash, s, a);
    }
  }

  lemma RouterKeepsOrder(s: Sys)
    requires Routed(s) && NoDangling(s) && (s.router.Idle? ==> s.queue != [])
    ensures Routed(RouterStep(s))
  {
    if s.router.Idle? {
      assert s.queue == [s.queue[0]] + s.queue[1..];
    }
  }

  lemma RoutedOther(hash: string -> string, s: Sys, a: Action)
    requires Routed(s) && Enabled(s, a) && !IsRouterAction(a)
    ensures Routed(Step(hash, s, a))
  {
  }

  lemma RoutedStep(hash: string -> string, s: Sys, a: Action)
    requires Routed(s) && NoDangling(s) && Enabled(s, a)
    ensures Routed(Step(hash, s, a))
  {
    if IsRouterAction(a) {
      RouterKeepsOrder(s);
    } else {
      RoutedOther(hash, s, a);
    }
  }

  /** A uid that no row has yet is not registered. */
  lemma NewUidIsOffline(hash: string -> string, s: Sys, username: string, uid: string)
    requires NoDangling(s) && Known(hash, s) && CanInsert(s.users, username, uid)
    ensures uid !in s.registry
  {
    forall u | u in s.registry ensures u != uid {
      assert LiveIn(s, s.registry[u]) && SessionKnown(s.users, s.sessions[s.registry[u]]);
    }
  }

  lemma ChecksHoldOne(s: Sys, sid: Sid, x: Session, after: Sys)
    requires ChecksHold(s) && (Unraced(x) ==> Pending(x).value !in s.registry)
    requires after.sessions == s.sessions[sid := x] && after.registry == s.registry
    ensures ChecksHold(after)
  {
  }

  /** A dialogue that has found a uid offline, or added its row, is right about it. */
  lemma TurnChecks(hash: string -> string, s: Sys, sid: Sid, input: Input)
    requires ChecksHold(s) && NoDangling(s) && Known(hash, s) && Enabled(s, AuthRead(sid, input))
    ensures var x := AfterTurn(s.sessions[sid], AuthTurn(hash, s, sid, input));
            Unraced(x) ==> Pending(x).value !in s.registry
  {
    var x := s.sessions[sid];
    var auth := AuthTurn(hash, s, sid, input);
    if auth.Granted? {
      if auth.added.None? {
        assert x.phase.auth.AwaitLogin? && Pending(x) == Some(auth.uid);
      } else {
        NewUidIsOffline(hash, s, auth.username, auth.uid);
      }
    }
  }

  lemma ChecksHoldAuth(hash: string -> string, s: Sys, sid: Sid, input: Input)
    requires ChecksHold(s) && NoDangling(s) && Known(hash, s) && Enabled(s, AuthRead(sid, input))
    ensures ChecksHold(Step(hash, s, AuthRead(sid, input)))
  {
    TurnChecks(hash, s, sid, input);
    var x := AfterTurn(s.sessions[sid], AuthTurn(hash, s, sid, input));
    ChecksHoldOne(s, sid, x, Step(hash, s, AuthRead(sid, input)));
  }

  lemma ChecksHoldInsert(hash: string -> string, s: Sys, sid: Sid)
    requires ChecksHold(s) && Enabled(s, Insert(sid))
    ensures ChecksHold(Step(hash, s, Insert(sid)))
  {
  }

  lemma ChecksHoldStep(hash: string -> string, s: Sys, a: Action)
    requires ChecksHold(s) && NoDangling(s) && Known(hash, s) && Enabled(s, a)
    ensures ChecksHold(Step(hash, s, a))
  {
    match a
    case AuthRead(sid, input) => ChecksHoldAuth(hash, s, sid, input);
    case Insert(sid) => ChecksHoldInsert(hash, s, sid);
    case _ =>
  }
}
