/** The whole server (server/src/server.c, server/src/server_auth.c): its registry and queue on the heap, its users
    table, and where each client thread stands. Whatever order the threads take their steps in, the server
    carries out a run of ChatSystem. */
module Server {
  import opened Text
  import opened Hashing
  import opened Protocol
  import opened AuthDialogue
  import opened HashMaps
  import opened StsQueues
  import opened Fanout
  import opened ChatSystem
  import opened ChatRuns
  import opened ChatServers
  import opened ChatRefinement

  const HASH_SIZE: nat := 100

  /** Where a client thread stands in handle_client: in user_auth, back from it, or behind one of its map
      operations. */
  datatype Point = InAuth(auth: AuthState) | BackFromAuth | At(stage: Stage)

  function PointOf(x: Session): Point
    requires !x.phase.Ended?
  {
    match x.phase
    case Authenticating(auth, _) => InAuth(auth)
    case LoggedIn(_) => BackFromAuth
    case Live(stage, _) => At(stage)
  }

  function PointsOf(s: Sys): map<Sid, Point> {
    map sid | sid in s.sessions && !s.sessions[sid].phase.Ended? :: PointOf(s.sessions[sid])
  }

  /** Where the router stands in handle_msg_queue, with the message and the connection pointer it holds. */
  datatype Routing = Waiting | Taken(message: Message) | Directed(message: Message, to: ClientConnection)
                   | Unmarked(to: ClientConnection)

  /** What the server has besides the two linked structures: the users table, the points of the threads, the
      client_connection of each thread that was let in, the router's point, the uids that kick_unresponsive still
      has to erase, and the number of requests. */
  datatype Book = Book(users: Users, points: map<Sid, Point>, conns: map<Sid, ClientConnection>, routing: Routing,
                       kicked: seq<string>, requests: nat)
  {
    ghost predicate Tally(s: Sys) {
      && users == s.users && kicked == s.kicks && points == PointsOf(s)
      && (forall sid | sid in s.sessions :: sid < requests)
      && s.router == RouterOf(routing) && Holds(routing)
    }

    /** The router's pointer is to the connection of a thread that was let in. */
    ghost predicate Holds(r: Routing) {
      r.Directed? || r.Unmarked? ==> r.to.sid in conns && conns[r.to.sid] == r.to
    }
  }

  ghost function RouterOf(r: Routing): Router {
    match r
    case Waiting => Idle
    case Taken(m) => Holding(m)
    case Directed(m, to) => Found(m, to.sid)
    case Unmarked(to) => Wrote(to.sid)
  }

  /** The server is in the state `s` of the step system. */
  ghost predicate Stands(clientMap: HashMap, queue: StsQueue<Message>, book: Book, s: Sys)
    reads clientMap, clientMap.Repr, queue, queue.Repr, book.conns.Values
  {
    Represents(clientMap, queue, book.conns, s) && book.Tally(s)
  }

  /** One thread moved. */
  lemma OneMoved(s: Sys, after: Sys, sid: Sid)
    requires sid in after.sessions && after.sessions.Keys == s.sessions.Keys + {sid}
    requires forall t | t in s.sessions && t != sid ::
               after.sessions[t].phase.Ended? == s.sessions[t].phase.Ended?
               && (!s.sessions[t].phase.Ended? ==> PointOf(after.sessions[t]) == PointOf(s.sessions[t]))
    ensures PointsOf(after) == if after.sessions[sid].phase.Ended? then PointsOf(s) - {sid}
                               else PointsOf(s)[sid := PointOf(after.sessions[sid])]
  {
  }

  /** A step of one thread, from its effect on the abstract state. */
  ghost predicate Steps(s: Sys, sid: Sid, next: Point, after: Sys) {
    && sid in s.sessions && after.sessions.Keys == s.sessions.Keys
    && !after.sessions[sid].phase.Ended? && PointOf(after.sessions[sid]) == next
    && (forall t | t in s.sessions && t != sid ::
          after.sessions[t].phase.Ended? == s.sessions[t].phase.Ended?
          && (!s.sessions[t].phase.Ended? ==> PointOf(after.sessions[t]) == PointOf(s.sessions[t])))
    && after.users == s.users && after.kicks == s.kicks && after.router == s.router
  }

  lemma StepsTally(book: Book, s: Sys, sid: Sid, next: Point, after: Sys)
    requires book.Tally(s) && Steps(s, sid, next, after)
    ensures book.(points := book.points[sid := next]).Tally(after)
  {
    OneMoved(s, after, sid);
  }

  lemma InsertTally(hash: string -> string, book: Book, s: Sys, sid: Sid) returns (after: Sys)
    requires book.Tally(s) && sid in book.points && book.points[sid] == BackFromAuth
    ensures Next(hash, s, Insert(sid), after) && book.(points := book.points[sid := At(Inserted)]).Tally(after)
  {
    after := Step(hash, s, Insert(sid));
    StepsTally(book, s, sid, At(Inserted), after);
  }

  lemma AnnounceTally(hash: string -> string, book: Book, s: Sys, a: Action, after: Sys)
    requires a.Announce? && Next(hash, s, a, after) && book.Tally(s)
    ensures book.(points := book.points[a.sid := At(Announced)]).Tally(after)
  {
    StepsTally(book, s, a.sid, At(Announced), after);
  }

  lemma ReadyTally(hash: string -> string, book: Book, s: Sys, sid: Sid) returns (after: Sys)
    requires book.Tally(s) && sid in book.points && book.points[sid] == At(Announced)
    ensures Next(hash, s, BecomeReady(sid), after) && book.(points := book.points[sid := At(Ready)]).Tally(after)
  {
    after := Step(hash, s, BecomeReady(sid));
    StepsTally(book, s, sid, At(Ready), after);
  }

  lemma ReceiveTally(hash: string -> string, book: Book, s: Sys, sid: Sid, msg: Message) returns (after: Sys)
    requires book.Tally(s) && sid in book.points && book.points[sid] == At(Ready)
    ensures Next(hash, s, Action.Receive(sid, msg), after) && book.Tally(after)
  {
    after := Step(hash, s, Action.Receive(sid, msg));
    StepsTally(book, s, sid, At(Ready), after);
    assert book.points[sid := At(Ready)] == book.points;
  }

  lemma DisconnectTally(hash: string -> string, book: Book, s: Sys, sid: Sid) returns (after: Sys)
    requires book.Tally(s) && sid in book.points && book.points[sid] == At(Ready)
    ensures Next(hash, s, Disconnect(sid), after) && book.(points := book.points - {sid}).Tally(after)
  {
    after := Step(hash, s, Disconnect(sid));
    OneMoved(s, after, sid);
  }

  /** A request comes in: its thread enters user_auth. */
  function Entered(book: Book): Book {
    book.(points := book.points[book.requests := InAuth(AwaitUsername(0))], requests := book.requests + 1)
  }

  lemma ConnectTally(hash: string -> string, book: Book, s: Sys) returns (after: Sys)
    requires book.Tally(s)
    ensures Next(hash, s, Connect(book.requests), after) && Entered(book).Tally(after)
  {
    after := Step(hash, s, Connect(book.requests));
    OneMoved(s, after, book.requests);
  }

  /** A turn of the dialogue of `sid` ends at `auth`. */
  function Moved(book: Book, sid: Sid, auth: AuthState): Book {
    book.(users := Committed(book.users, auth),
          points := match auth
                    case Granted(_, _, _) => book.points[sid := BackFromAuth]
                    case Refused(_) => book.points - {sid}
                    case _ => book.points[sid := InAuth(auth)])
  }

  /** What such a turn does to the abstract state. */
  ghost predicate Turned(s: Sys, sid: Sid, auth: AuthState, after: Sys) {
    && sid in s.sessions && s.sessions[sid].phase.Authenticating? && after.router == s.router
    && after.registry == s.registry && after.queue == s.queue && NoDangling(after)
    && sid in after.sessions && after.sessions == s.sessions[sid := after.sessions[sid]]
    && !after.sessions[sid].phase.Live? && (after.sessions[sid].phase.LoggedIn? <==> auth.Granted?)
    && (auth.Granted? ==> after.sessions[sid].uid == auth.uid && after.sessions[sid].username == auth.username)
  }

  lemma AuthTally(hash: string -> string, book: Book, s: Sys, sid: Sid, input: Input, auth: AuthState)
    returns (after: Sys)
    requires book.Tally(s) && NoDangling(s)
    requires sid in book.points && book.points[sid].InAuth? && !book.points[sid].auth.Finished()
    requires auth == Resume(hash, book.points[sid].auth, Wake(input, book.users, s.registry.Keys)).state
    ensures Next(hash, s, AuthRead(sid, input), after) && Turned(s, sid, auth, after)
            && Moved(book, sid, auth).Tally(after)
  {
    after := Step(hash, s, AuthRead(sid, input));
    NoDanglingStep(hash, s, AuthRead(sid, input));
    OneMoved(s, after, sid);
  }

  /** A step of the ping thread or the command line moves no client thread. */
  lemma OtherTally(hash: string -> string, book: Book, s: Sys, a: Action) returns (after: Sys)
    requires book.Tally(s) && Enabled(s, a) && (a.FanAll? || a.QuitOne? || a.KickScan? || a.KickErase?)
    ensures Next(hash, s, a, after) && book.(kicked := after.kicks).Tally(after)
    ensures a.FanAll? || a.QuitOne? ==> after.kicks == book.kicked
    ensures a.KickErase? ==> after.kicks == book.kicked[1..]
  {
    after := Step(hash, s, a);
    assert after.sessions == s.sessions;
  }

  /** No thread moved. */
  ghost predicate Rested(s: Sys, after: Sys) {
    && after.sessions.Keys == s.sessions.Keys && after.users == s.users && after.kicks == s.kicks
    && forall sid | sid in s.sessions ::
         && after.sessions[sid].phase.Ended? == s.sessions[sid].phase.Ended?
         && (!s.sessions[sid].phase.Ended? ==> PointOf(after.sessions[sid]) == PointOf(s.sessions[sid]))
  }

  lemma RouterRested(s: Sys)
    requires s.router.Idle? ==> s.queue != []
    ensures Rested(s, RouterStep(s))
  {
  }

  lemma RestedPoints(s: Sys, after: Sys)
    requires Rested(s, after)
    ensures PointsOf(after) == PointsOf(s)
  {
    assert PointsOf(after).Keys == PointsOf(s).Keys;
  }

  /** Nor does a step of the router. */
  lemma RouterTally(hash: string -> string, book: Book, s: Sys, a: Action, routing: Routing) returns (after: Sys)
    requires book.Tally(s) && Enabled(s, a) && IsRouterAction(a)
    requires RouterOf(routing) == RouterStep(s).router && book.Holds(routing)
    ensures Next(hash, s, a, after) && book.(routing := routing).Tally(after)
  {
    after := RouterStep(s);
    RouterRested(s);
    RestedPoints(s, after);
  }

  lemma ConnectWorld(hash: string -> string, clientMap: HashMap, queue: StsQueue<Message>,
                     conns: map<Sid, ClientConnection>, s: Sys, sid: Sid, after: Sys)
    requires Represents(clientMap, queue, conns, s) && Next(hash, s, Connect(sid), after)
    ensures Represents(clientMap, queue, conns, after)
  {
    NoDanglingStep(hash, s, Connect(sid));
    assert forall t | t in s.sessions :: after.sessions[t] == s.sessions[t];
  }

  lemma OutsideWorld(clientMap: HashMap, queue: StsQueue<Message>, conns: map<Sid, ClientConnection>, s: Sys, sid: Sid,
                     auth: AuthState, after: Sys)
    requires Represents(clientMap, queue, conns, s) && Turned(s, sid, auth, after) && !auth.Granted?
    ensures Represents(clientMap, queue, conns, after)
  {
    assert sid !in conns;
    OneShown(conns, s, after, None);
  }

  lemma AdmittedWorld(clientMap: HashMap, queue: StsQueue<Message>, conns: map<Sid, ClientConnection>, s: Sys, sid: Sid,
                      auth: AuthState, cl: ClientConnection, after: Sys)
    requires Represents(clientMap, queue, conns, s) && Turned(s, sid, auth, after) && auth.Granted?
    requires cl.sid == sid && cl.uid == Some(auth.uid) && cl.username == auth.username && !cl.isReady && !cl.pingSent
    requires Outside(cl, clientMap, queue)
    ensures Represents(clientMap, queue, conns[sid := cl], after)
  {
    assert sid !in conns;
    OneShown(conns[sid := cl], s, after, Some(sid));
    assert MapsTo(clientMap.Entries, conns[sid := cl], after);
  }

  method Start(users: Users) returns (clientMap: HashMap, queue: StsQueue<Message>, book: Book)
    ensures Stands(clientMap, queue, book, Empty(users))
    ensures fresh(clientMap.Repr) && fresh(queue.Repr) && book.conns == map[]
    ensures forall u :: clientMap.index(u) == Bucket(u, 100)
  {
    clientMap := new HashMap(HASH_SIZE);
    queue := new StsQueue<Message>();
    book := Book(users, map[], map[], Waiting, [], 0);
  }

  /** Whether the user that a username names is online: hash_map_find with the uid of the row. */
  method Online(hash: string -> string, clientMap: HashMap, ghost queue: StsQueue<Message>, book: Book, auth: AuthState,
                input: Input, ghost s: Sys)
    returns (online: set<string>)
    requires Stands(clientMap, queue, book, s) && !auth.Finished()
    ensures Resume(hash, auth, Wake(input, book.users, online))
         == Resume(hash, auth, Wake(input, book.users, s.registry.Keys))
  {
    online := {};
    if auth.AwaitUsername? && input.Received? && TruncateUsername(input.payload) in book.users {
      var uid := book.users[TruncateUsername(input.payload)].uid;
      var found, cl := clientMap.Find(uid);
      online := if found then {uid} else {};
    }
    EntriesApart(clientMap, queue, book.conns, s);
    OnlineOfName(hash, auth, input, book.users, online, s.registry.Keys);
  }

  /** The connection of a thread that user_auth has let in. */
  method Admit(clientMap: HashMap, ghost queue: StsQueue<Message>, conns: map<Sid, ClientConnection>, sid: Sid,
               auth: AuthState, ghost s: Sys, ghost after: Sys)
    returns (conns': map<Sid, ClientConnection>)
    requires Represents(clientMap, queue, conns, s) && Turned(s, sid, auth, after)
    ensures Represents(clientMap, queue, conns', after) && fresh(conns'.Values - conns.Values)
    ensures forall t | t in conns :: t in conns' && conns'[t] == conns[t]
  {
    conns' := conns;
    if auth.Granted? {
      var cl := new ClientConnection(Some(auth.uid), true, auth.username, sid);
      AdmittedWorld(clientMap, queue, conns, s, sid, auth, cl, after);
      conns' := conns[sid := cl];
    } else {
      OutsideWorld(clientMap, queue, conns, s, sid, auth, after);
    }
  }

  /** More connections leave the tally as it is. */
  lemma MoreConns(book: Book, conns: map<Sid, ClientConnection>, s: Sys)
    requires book.Tally(s) && forall t | t in book.conns :: t in conns && conns[t] == book.conns[t]
    ensures book.(conns := conns).Tally(s)
  {
  }

  /** A turn that ends at `auth` is noted: the thread's point, the table, and its connection if it was let in. */
  method Note(clientMap: HashMap, ghost queue: StsQueue<Message>, book: Book, sid: Sid, auth: AuthState, ghost s: Sys,
              ghost after: Sys)
    returns (book': Book)
    requires Represents(clientMap, queue, book.conns, s) && Turned(s, sid, auth, after)
    requires Moved(book, sid, auth).Tally(after)
    ensures fresh(book'.conns.Values - book.conns.Values) && Stands(clientMap, queue, book', after)
  {
    var conns' := Admit(clientMap, queue, book.conns, sid, auth, s, after);
    MoreConns(Moved(book, sid, auth), conns', after);
    book' := Moved(book, sid, auth).(conns := conns');
  }

  /** A blocking read of user_auth returns: its thread goes on to the next one, or leaves the function. */
  method AuthTurn(hash: string -> string, clientMap: HashMap, ghost queue: StsQueue<Message>, book: Book, sid: Sid,
                  input: Input, ghost s: Sys)
    returns (book': Book, sent: seq<Out>, ghost after: Sys)
    requires Stands(clientMap, queue, book, s)
    requires sid in book.points && book.points[sid].InAuth? && !book.points[sid].auth.Finished()
    ensures fresh(book'.conns.Values - book.conns.Values)
    ensures sent == Resume(hash, book.points[sid].auth, Wake(input, book.users, s.registry.Keys)).sent
    ensures Next(hash, s, AuthRead(sid, input), after) && Stands(clientMap, queue, book', after)
  {
    var online := Online(hash, clientMap, queue, book, book.points[sid].auth, input, s);
    var turn := Resume(hash, book.points[sid].auth, Wake(input, book.users, online));
    var auth := turn.state;
    sent := turn.sent;
    after := AuthTally(hash, book, s, sid, input, auth);
    book' := Note(clientMap, queue, book, sid, auth, s, after);
  }

  /** hash_map_insert in handle_client. */
  method InsertOne(hash: string -> string, clientMap: HashMap, ghost queue: StsQueue<Message>, book: Book, sid: Sid,
                   ghost s: Sys)
    returns (result: int, book': Book, ghost after: Sys)
    requires Stands(clientMap, queue, book, s) && sid in book.points && book.points[sid] == BackFromAuth
    modifies clientMap.Repr, book.conns.Values
    ensures fresh(clientMap.Repr - old(clientMap.Repr)) && book'.conns == book.conns
    ensures Next(hash, s, Insert(sid), after) && Stands(clientMap, queue, book', after)
    ensures result == InsertResult(s, sid)
  {
    after := InsertTally(hash, book, s, sid);
    result := InsertStep(hash, clientMap, queue, book.conns[sid], book.conns, s, after);
    book' := book.(points := book.points[sid := At(Inserted)]);
  }

  /** A request comes in: a thread of its own enters user_auth. */
  method TakeRequest(hash: string -> string, ghost clientMap: HashMap, ghost queue: StsQueue<Message>, book: Book,
                     ghost s: Sys)
    returns (book': Book, ghost after: Sys)
    requires Stands(clientMap, queue, book, s)
    ensures book' == Entered(book)
    ensures Next(hash, s, Connect(book.requests), after) && Stands(clientMap, queue, book', after)
  {
    after := ConnectTally(hash, book, s);
    ConnectWorld(hash, clientMap, queue, book.conns, s, book.requests, after);
    book' := Entered(book);
  }

  /** The join message. */
  method AnnounceOne(hash: string -> string, clientMap: HashMap, queue: StsQueue<Message>, book: Book, sid: Sid,
                     slots: nat -> Slot, ghost s: Sys)
    returns (book': Book, ghost a: Action, ghost after: Sys)
    requires Stands(clientMap, queue, book, s) && sid in book.points && book.points[sid] == At(Inserted)
    modifies queue.Repr
    ensures fresh(queue.Repr - old(queue.Repr)) && book'.conns == book.conns
    ensures a.Announce? && a.sid == sid && a.slots == SlotsUpTo(slots, |a.order|)
    ensures Next(hash, s, a, after) && Stands(clientMap, queue, book', after)
  {
    a, after := AnnounceStep(hash, clientMap, queue, book.conns[sid], slots, book.conns, s);
    AnnounceTally(hash, book, s, a, after);
    book' := book.(points := book.points[sid := At(Announced)]);
  }

  /** `cl.is_ready = 1`: the thread enters its read loop. */
  method StartServing(hash: string -> string, ghost clientMap: HashMap, ghost queue: StsQueue<Message>, book: Book,
                      sid: Sid, ghost s: Sys)
    returns (book': Book, ghost after: Sys)
    requires Stands(clientMap, queue, book, s) && sid in book.points && book.points[sid] == At(Announced)
    modifies book.conns.Values
    ensures book'.conns == book.conns
    ensures Next(hash, s, BecomeReady(sid), after) && Stands(clientMap, queue, book', after)
  {
    after := ReadyTally(hash, book, s, sid);
    ReadyStep(hash, clientMap, queue, book.conns[sid], book.conns, s, after);
    book' := book.(points := book.points[sid := At(Ready)]);
  }

  /** One message in the read loop. */
  method TakeMessage(hash: string -> string, stamp: string, ghost clientMap: HashMap, queue: StsQueue<Message>,
                     book: Book, sid: Sid, msg: Message, ghost s: Sys)
    returns (reply: Option<Creation>, ghost after: Sys)
    requires Stands(clientMap, queue, book, s) && sid in book.points && book.points[sid] == At(Ready)
    modifies queue.Repr, book.conns.Values
    ensures fresh(queue.Repr - old(queue.Repr))
    ensures Next(hash, s, Action.Receive(sid, msg), after) && Stands(clientMap, queue, book, after)
    ensures reply == if msg.kind == PING then Some(CreateMessage(hash, stamp, ACK, SERVER, msg.sender, "ACK")) else None
  {
    after := ReceiveTally(hash, book, s, sid, msg);
    reply := ReceiveStep(hash, stamp, clientMap, queue, book.conns[sid], msg, book.conns, s, after);
  }

  /** The end of handle_client. */
  method EndThread(hash: string -> string, clientMap: HashMap, ghost queue: StsQueue<Message>, book: Book, sid: Sid,
                   ghost s: Sys)
    returns (book': Book, ghost after: Sys)
    requires Stands(clientMap, queue, book, s) && sid in book.points && book.points[sid] == At(Ready)
    modifies clientMap.Repr
    ensures fresh(clientMap.Repr - old(clientMap.Repr)) && book'.conns == book.conns
    ensures Next(hash, s, Disconnect(sid), after) && Stands(clientMap, queue, book', after)
  {
    after := DisconnectTally(hash, book, s, sid);
    DisconnectStep(hash, clientMap, queue, book.conns[sid], book.conns, s, after);
    book' := book.(points := book.points - {sid});
  }

  /** The router pops the oldest message. */
  method TakeFromQueue(hash: string -> string, ghost clientMap: HashMap, queue: StsQueue<Message>, book: Book,
                       ghost s: Sys)
    returns (book': Book, ghost after: Sys)
    requires Stands(clientMap, queue, book, s) && book.routing.Waiting? && s.queue != []
    modifies queue.Repr
    ensures fresh(clientMap.Repr - old(clientMap.Repr)) && fresh(queue.Repr - old(queue.Repr))
    ensures book'.conns == book.conns && book'.routing == Taken(s.queue[0])
    ensures Next(hash, s, RoutePop, after) && Stands(clientMap, queue, book', after)
  {
    after := RouterTally(hash, book, s, RoutePop, Taken(s.queue[0]));
    var msg := PopStep(hash, clientMap, queue, book.conns, s, after);
    book' := book.(routing := Taken(msg));
  }

  /** The router looks the recipient up, and drops the message when nobody is registered under its uid. */
  method LookUpRecipient(hash: string -> string, clientMap: HashMap, ghost queue: StsQueue<Message>, book: Book,
                         ghost s: Sys)
    returns (book': Book, ghost after: Sys)
    requires Stands(clientMap, queue, book, s) && book.routing.Taken?
    ensures book'.conns == book.conns && (book'.routing.Directed? ==> book'.routing.message == book.routing.message)
    ensures Next(hash, s, RouteFind, after) && Stands(clientMap, queue, book', after)
  {
    after := Step(hash, s, RouteFind);
    var to := FindStep(hash, clientMap, queue, book.routing.message, book.conns, s, after);
    var routing := if to == null then Waiting else Directed(book.routing.message, to);
    ghost var same := RouterTally(hash, book, s, RouteFind, routing);
    book' := book.(routing := routing);
  }

  /** The router writes to the connection it has found: send_message with the message. */
  method WriteMessage(hash: string -> string, ghost clientMap: HashMap, ghost queue: StsQueue<Message>, book: Book,
                      ghost s: Sys)
    returns (to: ClientConnection, frame: string, book': Book, ghost after: Sys)
    requires Stands(clientMap, queue, book, s) && book.routing.Directed?
    ensures to == book.routing.to && frame == Encode(book.routing.message) && book'.conns == book.conns
    ensures Next(hash, s, RouteWrite, after) && Stands(clientMap, queue, book', after)
    ensures after.popped == s.popped + [Popped(book.routing.message, Some(to.sid))]
  {
    to, frame := book.routing.to, Encode(book.routing.message);
    var routing := if IsServerPing(book.routing.message) then Unmarked(to) else Waiting;
    after := RouterTally(hash, book, s, RouteWrite, routing);
    RouterEffect(hash, s, RouteWrite, after);
    SameWorld(clientMap, queue, book.conns, s, after);
    book' := book.(routing := routing);
  }

  /** The router marks the connection it has written a server's ping to. */
  method MarkPinged(hash: string -> string, ghost clientMap: HashMap, ghost queue: StsQueue<Message>, book: Book,
                    ghost s: Sys)
    returns (book': Book, ghost after: Sys)
    requires Stands(clientMap, queue, book, s) && book.routing.Unmarked?
    modifies book.conns.Values
    ensures fresh(clientMap.Repr - old(clientMap.Repr)) && fresh(queue.Repr - old(queue.Repr))
    ensures book'.conns == book.conns && book'.routing.Waiting?
    ensures Next(hash, s, RouteMark, after) && Stands(clientMap, queue, book', after)
  {
    after := RouterTally(hash, book, s, RouteMark, Waiting);
    MarkStep(hash, clientMap, queue, book.routing.to, book.conns, s, after);
    book' := book.(routing := Waiting);
  }

  /** A ping, a broadcast or a quit signal to everybody. */
  method FanOutAll(hash: string -> string, clientMap: HashMap, queue: StsQueue<Message>, ghost book: Book, fan: Fan,
                   slots: nat -> Slot, ghost s: Sys)
    returns (ghost a: Action, ghost after: Sys)
    requires Stands(clientMap, queue, book, s) && (fan.BroadcastFan? || fan.PingFan? || fan.QuitFan?)
    modifies queue.Repr
    ensures fresh(clientMap.Repr - old(clientMap.Repr)) && fresh(queue.Repr - old(queue.Repr))
    ensures a.FanAll? && a.fan == fan && a.slots == SlotsUpTo(slots, |a.order|)
    ensures Next(hash, s, a, after) && Stands(clientMap, queue, book, after)
  {
    a, after := FanAllStep(hash, clientMap, queue, fan, slots, book.conns, s);
    ghost var same := OtherTally(hash, book, s, a);
  }

  /** srv_kick */
  method KickUser(hash: string -> string, clientMap: HashMap, queue: StsQueue<Message>, ghost book: Book, uid: string,
                  slot: Slot, ghost s: Sys)
    returns (ghost after: Sys)
    requires Stands(clientMap, queue, book, s)
    modifies queue.Repr
    ensures fresh(clientMap.Repr - old(clientMap.Repr)) && fresh(queue.Repr - old(queue.Repr))
    ensures Next(hash, s, QuitOne(uid, slot), after) && Stands(clientMap, queue, book, after)
  {
    after := OtherTally(hash, book, s, QuitOne(uid, slot));
    QuitOneStep(hash, clientMap, queue, uid, slot, book.conns, s, after);
  }

  /** kick_unresponsive over the map. */
  method ScanUnresponsive(hash: string -> string, clientMap: HashMap, queue: StsQueue<Message>, book: Book,
                          slots: nat -> Slot, ghost s: Sys)
    returns (book': Book, ghost a: Action, ghost after: Sys)
    requires Stands(clientMap, queue, book, s)
    modifies queue.Repr
    ensures fresh(queue.Repr - old(queue.Repr)) && book'.conns == book.conns
    ensures a.KickScan? && a.slots == SlotsUpTo(slots, |a.order|)
    ensures Next(hash, s, a, after) && Stands(clientMap, queue, book', after)
  {
    var uids;
    uids, a, after := KickScanStep(hash, clientMap, queue, slots, book.conns, s);
    ghost var same := OtherTally(hash, book, s, a);
    book' := book.(kicked := book.kicked + uids);
  }

  /** The oldest erasure that kick_unresponsive still has to make. */
  method EraseUnresponsive(hash: string -> string, clientMap: HashMap, ghost queue: StsQueue<Message>, book: Book,
                           ghost s: Sys)
    returns (book': Book, ghost after: Sys)
    requires Stands(clientMap, queue, book, s) && book.kicked != []
    modifies clientMap.Repr
    ensures fresh(clientMap.Repr - old(clientMap.Repr)) && book'.conns == book.conns
    ensures Next(hash, s, KickErase, after) && Stands(clientMap, queue, book', after)
  {
    after := OtherTally(hash, book, s, KickErase);
    KickEraseStep(hash, clientMap, queue, book.kicked[0], book.conns, s, after);
    book' := book.(kicked := book.kicked[1..]);
  }

  /** What can happen next: a request, a frame or its absence for a thread, a thread running on to its next map
      operation, or a turn of the router, the ping thread or the command line. */
  datatype Command =
    | Request
    | AuthFrame(sid: Sid, input: Input)
    | RunOn(sid: Sid, slots: nat -> Slot)
    | Frame(sid: Sid, stamp: string, message: Message)
    | HangUp(sid: Sid)
    | RouterTurn
    | Everybody(fan: Fan, slots: nat -> Slot)
    | Kick(uid: string, slot: Slot)
    | Look(slots: nat -> Slot)
    | Erase

  predicate Stopped(book: Book, sid: Sid, point: Point) {
    sid in book.points && book.points[sid] == point
  }

  /** Whether the server can carry a command out; `queued` says that the queue is not empty. */
  predicate CanDo(c: Command, book: Book, queued: bool) {
    match c
    case AuthFrame(sid, _) => sid in book.points && book.points[sid].InAuth? && !book.points[sid].auth.Finished()
    case RunOn(sid, _) =>
      Stopped(book, sid, BackFromAuth) || Stopped(book, sid, At(Inserted)) || Stopped(book, sid, At(Announced))
    case Frame(sid, _, _) => Stopped(book, sid, At(Ready))
    case HangUp(sid) => Stopped(book, sid, At(Ready))
    case RouterTurn => !book.routing.Waiting? || queued
    case Everybody(fan, _) => fan.BroadcastFan? || fan.PingFan? || fan.QuitFan?
    case Erase => book.kicked != []
    case _ => true
  }

  /** Whether a command is possible in a state of the step system. */
  predicate Possible(c: Command, s: Sys) {
    match c
    case AuthFrame(sid, _) =>
      sid in s.sessions && s.sessions[sid].phase.Authenticating? && !s.sessions[sid].phase.auth.Finished()
    case RunOn(sid, _) =>
      sid in s.sessions && (s.sessions[sid].phase.LoggedIn? || Is(s, sid, Inserted) || Is(s, sid, Announced))
    case Frame(sid, _, _) => Is(s, sid, Ready)
    case HangUp(sid) => Is(s, sid, Ready)
    case RouterTurn => !s.router.Idle? || s.queue != []
    case Everybody(fan, _) => fan.BroadcastFan? || fan.PingFan? || fan.QuitFan?
    case Erase => s.kicks != []
    case _ => true
  }

  lemma CanDoIffPossible(c: Command, book: Book, s: Sys)
    requires book.Tally(s)
    ensures CanDo(c, book, s.queue != []) <==> Possible(c, s)
  {
  }

  /** The action that a possible command is. */
  ghost predicate Performs(a: Action, c: Command, s: Sys) {
    match c
    case Request => a.Connect?
    case AuthFrame(sid, input) => a == AuthRead(sid, input)
    case RunOn(sid, slots) =>
      if sid in s.sessions && s.sessions[sid].phase.LoggedIn? then a == Insert(sid)
      else if Is(s, sid, Inserted) then a.Announce? && a.sid == sid && a.slots == SlotsUpTo(slots, |a.order|)
      else a == BecomeReady(sid)
    case Frame(sid, _, message) => a == Receive(sid, message)
    case HangUp(sid) => a == Disconnect(sid)
    case RouterTurn =>
      (match s.router
       case Idle => a == RoutePop
       case Holding(_) => a == RouteFind
       case Found(_, _) => a == RouteWrite
       case Wrote(_) => a == RouteMark)
    case Everybody(fan, slots) => a.FanAll? && a.fan == fan && a.slots == SlotsUpTo(slots, |a.order|)
    case Kick(uid, slot) => a == QuitOne(uid, slot)
    case Look(slots) => a.KickScan? && a.slots == SlotsUpTo(slots, |a.order|)
    case Erase => a == KickErase
  }

  lemma {:induction false} Above(s: set<Sid>) returns (sid: Sid)
    ensures forall x | x in s :: x < sid
    decreases s
  {
    if s == {} {
      sid := 0;
    } else {
      var x :| x in s;
      var rest := Above(s - {x});
      sid := if x < rest then rest else x + 1;
      assert forall y | y in s :: y == x || y in s - {x};
    }
  }

  lemma {:induction false} WalkOf(keys: set<string>) returns (order: seq<string>)
    ensures Distinct(order) && forall u :: u in order <==> u in keys
    decreases keys
  {
    if keys == {} {
      order := [];
    } else {
      var u :| u in keys;
      order := WalkOf(keys - {u});
      order := order + [u];
    }
  }

  /** An action for a command that is possible. */
  lemma PossiblePerforms(c: Command, s: Sys) returns (a: Action)
    requires Possible(c, s)
    ensures Performs(a, c, s) && Enabled(s, a)
  {
    var sid := Above(s.sessions.Keys);
    var order := WalkOf(s.registry.Keys);
    match c
    case Request => a := Connect(sid);
    case AuthFrame(sid, input) => a := AuthRead(sid, input);
    case RunOn(sid, slots) =>
      a := if s.sessions[sid].phase.LoggedIn? then Insert(sid)
           else if Is(s, sid, Inserted) then Announce(sid, order, SlotsUpTo(slots, |order|))
           else BecomeReady(sid);
    case Frame(sid, _, message) => a := Action.Receive(sid, message);
    case HangUp(sid) => a := Disconnect(sid);
    case RouterTurn =>
      a := if s.router.Idle? then RoutePop else if s.router.Holding? then RouteFind
           else if s.router.Found? then RouteWrite else RouteMark;
    case Everybody(fan, slots) => a := FanAll(fan, order, SlotsUpTo(slots, |order|));
    case Kick(uid, slot) => a := QuitOne(uid, slot);
    case Look(slots) => a := Action.KickScan(order, SlotsUpTo(slots, |order|));
    case Erase => a := KickErase;
  }

  /** A command is possible exactly if an action that it can be is enabled. */
  lemma PossibleIff(c: Command, s: Sys)
    ensures Possible(c, s) <==> exists a :: Performs(a, c, s) && Enabled(s, a)
  {
    if Possible(c, s) {
      var a := PossiblePerforms(c, s);
    }
  }

  /** What goes out over a socket: a message of user_auth, the answer to a ping, or a routed frame. */
  datatype Wire = Told(out: Out) | Answered(creation: Creation) | Forwarded(frame: string)

  datatype Written = Written(to: Sid, wire: Wire)

  function ToldAll(sid: Sid, outs: seq<Out>): seq<Written> {
    seq(|outs|, i requires 0 <= i < |outs| => Written(sid, Told(outs[i])))
  }

  /** What a command writes, and to whom. */
  function Output(hash: string -> string, c: Command, s: Sys, a: Action): seq<Written>
    requires Enabled(s, a)
  {
    match a
    case Connect(sid) => ToldAll(sid, Opening(0))
    case AuthRead(sid, input) =>
      ToldAll(sid, Resume(hash, s.sessions[sid].phase.auth, Wake(input, s.users, s.registry.Keys)).sent)
    case Receive(sid, m) =>
      if m.kind == PING && c.Frame? then
        [Written(sid, Answered(CreateMessage(hash, c.stamp, ACK, SERVER, m.sender, "ACK")))]
      else []
    case RouteWrite => [Written(s.router.to, Forwarded(Encode(s.router.message)))]
    case _ => []
  }

  /** The command has been carried out: as this action, with this output. */
  ghost predicate Done(hash: string -> string, c: Command, s: Sys, a: Action, written: seq<Written>, after: Sys) {
    Performs(a, c, s) && Next(hash, s, a, after) && written == Output(hash, c, s, a)
  }

  /** A command and its outcome: a possible one is carried out, and another one does nothing. */
  ghost predicate Carried(hash: string -> string, c: Command, s: Sys, a: Option<Action>, written: seq<Written>,
                          after: Sys) {
    if Possible(c, s) then a.Some? && Done(hash, c, s, a.value, written, after)
    else a == None && written == [] && after == s
  }

  /** The action and the output of a command, as the server sees them. */
  ghost predicate Starts(a: Action, c: Command, book: Book) {
    match c
    case Request => a == Connect(book.requests)
    case AuthFrame(sid, input) => a == AuthRead(sid, input)
    case RunOn(sid, slots) =>
      if Stopped(book, sid, BackFromAuth) then a == Insert(sid)
      else if Stopped(book, sid, At(Inserted)) then a.Announce? && a.sid == sid
          && a.slots == SlotsUpTo(slots, |a.order|)
      else a == BecomeReady(sid)
    case Frame(sid, _, message) => a == Receive(sid, message)
    case HangUp(sid) => a == Disconnect(sid)
    case RouterTurn =>
      (match book.routing
       case Waiting => a == RoutePop
       case Taken(_) => a == RouteFind
       case Directed(_, _) => a == RouteWrite
       case Unmarked(_) => a == RouteMark)
    case Everybody(fan, slots) => a.FanAll? && a.fan == fan && a.slots == SlotsUpTo(slots, |a.order|)
    case Kick(uid, slot) => a == QuitOne(uid, slot)
    case Look(slots) => a.KickScan? && a.slots == SlotsUpTo(slots, |a.order|)
    case Erase => a == KickErase
  }

  function Writes(hash: string -> string, c: Command, book: Book, online: set<string>): seq<Written> {
    match c
    case Request => ToldAll(book.requests, Opening(0))
    case AuthFrame(sid, input) =>
      if sid in book.points && book.points[sid].InAuth? && !book.points[sid].auth.Finished() then
        ToldAll(sid, Resume(hash, book.points[sid].auth, Wake(input, book.users, online)).sent)
      else []
    case Frame(sid, stamp, m) =>
      if m.kind == PING then [Written(sid, Answered(CreateMessage(hash, stamp, ACK, SERVER, m.sender, "ACK")))] else []
    case RouterTurn =>
      if book.routing.Directed? then [Written(book.routing.to.sid, Forwarded(Encode(book.routing.message)))] else []
    case _ => []
  }

  /** The server sees rightly what a command is in the state it is in. */
  lemma StartsPerforms(hash: string -> string, c: Command, book: Book, s: Sys, a: Action, after: Sys)
    requires book.Tally(s) && CanDo(c, book, s.queue != []) && Starts(a, c, book) && Next(hash, s, a, after)
    ensures Performs(a, c, s)
  {
  }

  lemma WritesOutput(hash: string -> string, c: Command, book: Book, s: Sys, a: Action)
    requires book.Tally(s) && CanDo(c, book, s.queue != []) && Starts(a, c, book) && Enabled(s, a)
    ensures Writes(hash, c, book, s.registry.Keys) == Output(hash, c, s, a)
  {
  }

  /** A thread runs on behind its insert. */
  method ExecuteJoin(hash: string -> string, clientMap: HashMap, queue: StsQueue<Message>, book: Book, c: Command,
                     ghost s: Sys)
    returns (book': Book, written: seq<Written>, ghost a: Action, ghost after: Sys)
    requires Stands(clientMap, queue, book, s) && c.RunOn?
    requires Stopped(book, c.sid, At(Inserted)) || Stopped(book, c.sid, At(Announced))
    modifies queue.Repr, book.conns.Values
    ensures fresh(clientMap.Repr - old(clientMap.Repr)) && fresh(queue.Repr - old(queue.Repr))
            && book'.conns == book.conns
    ensures Starts(a, c, book) && written == Writes(hash, c, book, s.registry.Keys)
    ensures Next(hash, s, a, after) && Stands(clientMap, queue, book', after)
  {
    written := [];
    if book.points[c.sid] == At(Inserted) {
      book', a, after := AnnounceOne(hash, clientMap, queue, book, c.sid, c.slots, s);
    } else {
      a := BecomeReady(c.sid);
      book', after := StartServing(hash, clientMap, queue, book, c.sid, s);
    }
  }

  /** A thread runs on from user_auth. */
  method ExecuteInsert(hash: string -> string, clientMap: HashMap, ghost queue: StsQueue<Message>, book: Book,
                       c: Command,
                       ghost s: Sys)
    returns (book': Book, written: seq<Written>, ghost a: Action, ghost after: Sys)
    requires Stands(clientMap, queue, book, s) && c.RunOn? && Stopped(book, c.sid, BackFromAuth)
    modifies clientMap.Repr, book.conns.Values
    ensures fresh(clientMap.Repr - old(clientMap.Repr)) && fresh(queue.Repr - old(queue.Repr))
            && book'.conns == book.conns
    ensures Starts(a, c, book) && written == Writes(hash, c, book, s.registry.Keys)
    ensures Next(hash, s, a, after) && Stands(clientMap, queue, book', after)
  {
    var result;
    a, written := Insert(c.sid), [];
    result, book', after := InsertOne(hash, clientMap, queue, book, c.sid, s);
  }

  /** A request, or a read of a dialogue. */
  method ExecuteAuth(hash: string -> string, clientMap: HashMap, ghost queue: StsQueue<Message>, book: Book, c: Command,
                     ghost s: Sys)
    returns (book': Book, written: seq<Written>, ghost a: Action, ghost after: Sys)
    requires Stands(clientMap, queue, book, s) && CanDo(c, book, s.queue != []) && (c.Request? || c.AuthFrame?)
    ensures fresh(clientMap.Repr - old(clientMap.Repr)) && fresh(queue.Repr - old(queue.Repr))
    ensures fresh(book'.conns.Values - book.conns.Values)
    ensures Starts(a, c, book) && written == Writes(hash, c, book, s.registry.Keys)
    ensures Next(hash, s, a, after) && Stands(clientMap, queue, book', after)
  {
    if c.Request? {
      a, written := Connect(book.requests), ToldAll(book.requests, Opening(0));
      book', after := TakeRequest(hash, clientMap, queue, book, s);
    } else {
      var sent;
      a := AuthRead(c.sid, c.input);
      book', sent, after := AuthTurn(hash, clientMap, queue, book, c.sid, c.input, s);
      written := ToldAll(c.sid, sent);
    }
  }

  /** A thread in its read loop. */
  method ExecuteLoop(hash: string -> string, clientMap: HashMap, queue: StsQueue<Message>, book: Book, c: Command,
                     ghost s: Sys)
    returns (book': Book, written: seq<Written>, ghost a: Action, ghost after: Sys)
    requires Stands(clientMap, queue, book, s) && CanDo(c, book, s.queue != []) && (c.Frame? || c.HangUp?)
    modifies clientMap.Repr, queue.Repr, book.conns.Values
    ensures fresh(clientMap.Repr - old(clientMap.Repr)) && fresh(queue.Repr - old(queue.Repr))
            && book'.conns == book.conns
    ensures Starts(a, c, book) && written == Writes(hash, c, book, s.registry.Keys)
    ensures Next(hash, s, a, after) && Stands(clientMap, queue, book', after)
  {
    if c.Frame? {
      var reply;
      a, book' := Action.Receive(c.sid, c.message), book;
      reply, after := TakeMessage(hash, c.stamp, clientMap, queue, book, c.sid, c.message, s);
      written := if reply.Some? then [Written(c.sid, Answered(reply.value))] else [];
    } else {
      a, written := Disconnect(c.sid), [];
      book', after := EndThread(hash, clientMap, queue, book, c.sid, s);
    }
  }

  /** A client thread does something. */
  method ExecuteThread(hash: string -> string, clientMap: HashMap, queue: StsQueue<Message>, book: Book, c: Command,
                       ghost s: Sys)
    returns (book': Book, written: seq<Written>, ghost a: Action, ghost after: Sys)
    requires Stands(clientMap, queue, book, s) && CanDo(c, book, s.queue != [])
    requires c.Request? || c.AuthFrame? || c.RunOn? || c.Frame? || c.HangUp?
    modifies clientMap.Repr, queue.Repr, book.conns.Values
    ensures fresh(clientMap.Repr - old(clientMap.Repr)) && fresh(queue.Repr - old(queue.Repr))
    ensures fresh(book'.conns.Values - book.conns.Values)
    ensures Starts(a, c, book) && written == Writes(hash, c, book, s.registry.Keys)
    ensures Next(hash, s, a, after) && Stands(clientMap, queue, book', after)
  {
    if c.RunOn? && book.points[c.sid] == BackFromAuth {
      book', written, a, after := ExecuteInsert(hash, clientMap, queue, book, c, s);
    } else if c.RunOn? {
      book', written, a, after := ExecuteJoin(hash, clientMap, queue, book, c, s);
    } else if c.Frame? || c.HangUp? {
      book', written, a, after := ExecuteLoop(hash, clientMap, queue, book, c, s);
    } else {
      book', written, a, after := ExecuteAuth(hash, clientMap, queue, book, c, s);
    }
  }

  /** The router runs on to its next stop. */
  method ExecuteRouter(hash: string -> string, clientMap: HashMap, queue: StsQueue<Message>, book: Book, c: Command,
                       ghost s: Sys)
    returns (book': Book, written: seq<Written>, ghost a: Action, ghost after: Sys)
    requires Stands(clientMap, queue, book, s) && c.RouterTurn? && CanDo(c, book, s.queue != [])
    modifies queue.Repr, book.conns.Values
    ensures fresh(clientMap.Repr - old(clientMap.Repr)) && fresh(queue.Repr - old(queue.Repr))
            && book'.conns == book.conns
    ensures Starts(a, c, book) && written == Writes(hash, c, book, s.registry.Keys)
    ensures Next(hash, s, a, after) && Stands(clientMap, queue, book', after)
  {
    written := [];
    match book.routing {
      case Waiting =>
        a := RoutePop;
        book', after := TakeFromQueue(hash, clientMap, queue, book, s);
      case Taken(_) =>
        a := RouteFind;
        book', after := LookUpRecipient(hash, clientMap, queue, book, s);
      case Directed(_, _) =>
        var to, frame;
        a := RouteWrite;
        to, frame, book', after := WriteMessage(hash, clientMap, queue, book, s);
        written := [Written(to.sid, Forwarded(frame))];
      case Unmarked(_) =>
        a := RouteMark;
        book', after := MarkPinged(hash, clientMap, queue, book, s);
    }
  }

  /** The ping thread looks for unresponsive connections, or erases one. */
  method ExecuteKick(hash: string -> string, clientMap: HashMap, queue: StsQueue<Message>, book: Book, c: Command,
                     ghost s: Sys)
    returns (book': Book, written: seq<Written>, ghost a: Action, ghost after: Sys)
    requires Stands(clientMap, queue, book, s) && CanDo(c, book, s.queue != []) && (c.Look? || c.Erase?)
    modifies clientMap.Repr, queue.Repr
    ensures fresh(clientMap.Repr - old(clientMap.Repr)) && fresh(queue.Repr - old(queue.Repr))
            && book'.conns == book.conns
    ensures Starts(a, c, book) && written == Writes(hash, c, book, s.registry.Keys)
    ensures Next(hash, s, a, after) && Stands(clientMap, queue, book', after)
  {
    written := [];
    if c.Look? {
      book', a, after := ScanUnresponsive(hash, clientMap, queue, book, c.slots, s);
    } else {
      a := KickErase;
      book', after := EraseUnresponsive(hash, clientMap, queue, book, s);
    }
  }

  /** The router, the ping thread or the command line does something. */
  method ExecuteOther(hash: string -> string, clientMap: HashMap, queue: StsQueue<Message>, book: Book, c: Command,
                      ghost s: Sys)
    returns (book': Book, written: seq<Written>, ghost a: Action, ghost after: Sys)
    requires Stands(clientMap, queue, book, s) && CanDo(c, book, s.queue != [])
    requires c.RouterTurn? || c.Everybody? || c.Kick? || c.Look? || c.Erase?
    modifies clientMap.Repr, queue.Repr, book.conns.Values
    ensures fresh(clientMap.Repr - old(clientMap.Repr)) && fresh(queue.Repr - old(queue.Repr))
            && book'.conns == book.conns
    ensures Starts(a, c, book) && written == Writes(hash, c, book, s.registry.Keys)
    ensures Next(hash, s, a, after) && Stands(clientMap, queue, book', after)
  {
    book', written := book, [];
    if c.RouterTurn? {
      book', written, a, after := ExecuteRouter(hash, clientMap, queue, book, c, s);
    } else if c.Everybody? {
      a, after := FanOutAll(hash, clientMap, queue, book, c.fan, c.slots, s);
    } else if c.Kick? {
      a := QuitOne(c.uid, c.slot);
      after := KickUser(hash, clientMap, queue, book, c.uid, c.slot, s);
    } else {
      book', written, a, after := ExecuteKick(hash, clientMap, queue, book, c, s);
    }
  }

  method Dispatch(hash: string -> string, clientMap: HashMap, queue: StsQueue<Message>, book: Book, c: Command,
                  ghost s: Sys)
    returns (book': Book, written: seq<Written>, ghost a: Action, ghost after: Sys)
    requires Stands(clientMap, queue, book, s) && CanDo(c, book, s.queue != [])
    modifies clientMap.Repr, queue.Repr, book.conns.Values
    ensures fresh(clientMap.Repr - old(clientMap.Repr)) && fresh(queue.Repr - old(queue.Repr))
    ensures fresh(book'.conns.Values - book.conns.Values)
    ensures Starts(a, c, book) && written == Writes(hash, c, book, s.registry.Keys)
    ensures Next(hash, s, a, after) && Stands(clientMap, queue, book', after)
  {
    if c.RouterTurn? || c.Everybody? || c.Kick? || c.Look? || c.Erase? {
      book', written, a, after := ExecuteOther(hash, clientMap, queue, book, c, s);
    } else {
      book', written, a, after := ExecuteThread(hash, clientMap, queue, book, c, s);
    }
  }

  lemma DoneByServer(hash: string -> string, c: Command, book: Book, s: Sys, a: Action, written: seq<Written>,
                     after: Sys)
    requires book.Tally(s) && CanDo(c, book, s.queue != []) && Starts(a, c, book) && Next(hash, s, a, after)
    requires written == Writes(hash, c, book, s.registry.Keys)
    ensures Done(hash, c, s, a, written, after)
  {
    StartsPerforms(hash, c, book, s, a, after);
    WritesOutput(hash, c, book, s, a);
  }

  /** One command; one that is not possible does nothing. */
  method Execute(hash: string -> string, clientMap: HashMap, queue: StsQueue<Message>, book: Book, c: Command,
                 ghost s: Sys)
    returns (book': Book, written: seq<Written>, ghost a: Option<Action>, ghost after: Sys)
    requires Stands(clientMap, queue, book, s)
    modifies clientMap.Repr, queue.Repr, book.conns.Values
    ensures fresh(clientMap.Repr - old(clientMap.Repr)) && fresh(queue.Repr - old(queue.Repr))
    ensures fresh(book'.conns.Values - book.conns.Values) && Stands(clientMap, queue, book', after)
    ensures Carried(hash, c, s, a, written, after)
  {
    CanDoIffPossible(c, book, s);
    if !CanDo(c, book, queue.head != null) {
      return book, [], None, s;
    }
    ghost var act;
    book', written, act, after := Dispatch(hash, clientMap, queue, book, c, s);
    DoneByServer(hash, c, book, s, act, written, after);
    a := Some(act);
  }

  /** The actions among the outcomes of some commands. */
  ghost function Actions(outcomes: seq<Option<Action>>): (acts: seq<Action>)
    ensures |acts| <= |outcomes|
  {
    if outcomes == [] then []
    else
      var last := outcomes[|outcomes| - 1];
      Actions(outcomes[..|outcomes| - 1]) + if last.Some? then [last.value] else []
  }

  /** The states between those actions, where `trail` is the state before each command and after the last. */
  ghost function Visited(trail: seq<Sys>, outcomes: seq<Option<Action>>): (states: seq<Sys>)
    requires |trail| == |outcomes| + 1
    ensures |states| == |Actions(outcomes)| + 1
  {
    if outcomes == [] then trail
    else
      var n := |outcomes| - 1;
      Visited(trail[..n + 1], outcomes[..n]) + if outcomes[n].Some? then [trail[n + 1]] else []
  }

  /** What a sequence of commands came to: the states before each of them and after the last, and what each was. */
  datatype Log = Log(trail: seq<Sys>, outcomes: seq<Option<Action>>)

  ghost predicate Logged(hash: string -> string, commands: seq<Command>, written: seq<seq<Written>>, log: Log) {
    && |log.outcomes| == |commands| == |written| && |log.trail| == |commands| + 1 && Initial(hash, log.trail[0])
    && forall i | 0 <= i < |commands| ::
         Carried(hash, commands[i], log.trail[i], log.outcomes[i], written[i], log.trail[i + 1])
  }

  function Extended(log: Log, a: Option<Action>, after: Sys): Log {
    Log(log.trail + [after], log.outcomes + [a])
  }

  lemma LogOne(hash: string -> string, commands: seq<Command>, i: nat, written: seq<seq<Written>>, log: Log,
               a: Option<Action>, output: seq<Written>, after: Sys)
    requires i < |commands| && Logged(hash, commands[..i], written, log)
    requires Carried(hash, commands[i], log.trail[i], a, output, after)
    ensures Logged(hash, commands[..i + 1], written + [output], Extended(log, a, after))
  {
    var cs, ws, l := commands[..i + 1], written + [output], Extended(log, a, after);
    forall k | 0 <= k < |cs| ensures Carried(hash, cs[k], l.trail[k], l.outcomes[k], ws[k], l.trail[k + 1]) {
      if k < i {
        assert Carried(hash, commands[..i][k], log.trail[k], log.outcomes[k], written[k], log.trail[k + 1]);
      }
    }
  }

  lemma LogPrefix(hash: string -> string, commands: seq<Command>, written: seq<seq<Written>>, log: Log, n: nat)
    requires Logged(hash, commands, written, log) && n <= |commands|
    ensures Logged(hash, commands[..n], written[..n], Log(log.trail[..n + 1], log.outcomes[..n]))
  {
    var l := Log(log.trail[..n + 1], log.outcomes[..n]);
    forall k | 0 <= k < n
      ensures Carried(hash, commands[..n][k], l.trail[k], l.outcomes[k], written[..n][k], l.trail[k + 1])
    {
      assert Carried(hash, commands[k], log.trail[k], log.outcomes[k], written[k], log.trail[k + 1]);
    }
  }

  /** Leaving out the commands that did nothing leaves a run. */
  lemma {:induction false} LogIsRun(hash: string -> string, commands: seq<Command>, written: seq<seq<Written>>,
                                    log: Log)
    requires Logged(hash, commands, written, log)
    ensures IsRun(hash, Visited(log.trail, log.outcomes), Actions(log.outcomes))
    ensures Visited(log.trail, log.outcomes)[|Actions(log.outcomes)|] == log.trail[|commands|]
    decreases |commands|
  {
    if commands != [] {
      var n := |commands| - 1;
      var before := Log(log.trail[..n + 1], log.outcomes[..n]);
      LogPrefix(hash, commands, written, log, n);
      LogIsRun(hash, commands[..n], written[..n], before);
      assert Carried(hash, commands[n], log.trail[n], log.outcomes[n], written[n], log.trail[n + 1]);
      if log.outcomes[n].Some? {
        ExtendRun(hash, Visited(before.trail, before.outcomes), Actions(before.outcomes), log.outcomes[n].value);
      }
    }
  }

  /** One of the commands, with its entry in the log. */
  method ServeOne(hash: string -> string, clientMap: HashMap, queue: StsQueue<Message>, book: Book,
                  commands: seq<Command>, i: nat, written: seq<seq<Written>>, ghost log: Log)
    returns (book': Book, written': seq<seq<Written>>, ghost log': Log)
    requires i < |commands| && Logged(hash, commands[..i], written, log) && Stands(clientMap, queue, book, log.trail[i])
    modifies clientMap.Repr, queue.Repr, book.conns.Values
    ensures fresh(clientMap.Repr - old(clientMap.Repr)) && fresh(queue.Repr - old(queue.Repr))
    ensures fresh(book'.conns.Values - book.conns.Values)
    ensures Logged(hash, commands[..i + 1], written', log') && Stands(clientMap, queue, book', log'.trail[i + 1])
    ensures log'.trail[0] == log.trail[0]
  {
    var output;
    ghost var a, after;
    book', output, a, after := Execute(hash, clientMap, queue, book, commands[i], log.trail[i]);
    LogOne(hash, commands, i, written, log, a, output, after);
    written', log' := written + [output], Extended(log, a, after);
  }

  /** The first `n` of the commands. */
  method ServeFirst(hash: string -> string, clientMap: HashMap, queue: StsQueue<Message>, start: Book,
                    commands: seq<Command>, n: nat, ghost s: Sys)
    returns (book: Book, written: seq<seq<Written>>, ghost log: Log)
    requires Stands(clientMap, queue, start, s) && Initial(hash, s) && n <= |commands|
    modifies clientMap.Repr, queue.Repr, start.conns.Values
    ensures fresh(clientMap.Repr - old(clientMap.Repr)) && fresh(queue.Repr - old(queue.Repr))
    ensures fresh(book.conns.Values - start.conns.Values)
    ensures Logged(hash, commands[..n], written, log) && Stands(clientMap, queue, book, log.trail[n])
    ensures log.trail[0] == s
  {
    if n == 0 {
      book, written, log := start, [], Log([s], []);
    } else {
      book, written, log := ServeFirst(hash, clientMap, queue, start, commands, n - 1, s);
      book, written, log := ServeOne(hash, clientMap, queue, book, commands, n - 1, written, log);
    }
  }

  lemma WholeLog(hash: string -> string, commands: seq<Command>, written: seq<seq<Written>>, log: Log)
    requires Logged(hash, commands[..|commands|], written, log)
    ensures Logged(hash, commands, written, log)
    ensures IsRun(hash, Visited(log.trail, log.outcomes), Actions(log.outcomes))
  {
    assert commands[..|commands|] == commands;
    LogIsRun(hash, commands, written, log);
  }

  function Empty(users: Users): Sys {
    Sys(users, map[], map[], [], Idle, [], [], [])
  }

  /** Whatever the commands and their order, the server starts empty and carries them out one after another, each
      that is possible in the state it has come to as its action and with its output, as a run of the step
      system, and stands for its last state. `written` is what went out over the sockets at each command. */
  method Serve(hash: string -> string, users: Users, commands: seq<Command>)
    returns (clientMap: HashMap, queue: StsQueue<Message>, book: Book, written: seq<seq<Written>>, ghost log: Log)
    requires TableOk(hash, users)
    ensures Logged(hash, commands, written, log) && log.trail[0] == Empty(users)
    ensures Stands(clientMap, queue, book, log.trail[|commands|])
    ensures forall u :: clientMap.index(u) == Bucket(u, 100)
    ensures IsRun(hash, Visited(log.trail, log.outcomes), Actions(log.outcomes))
  {
    clientMap, queue, book := Start(users);
    book, written, log := ServeFirst(hash, clientMap, queue, book, commands, |commands|, Empty(users));
    WholeLog(hash, commands, written, log);
  }
}
