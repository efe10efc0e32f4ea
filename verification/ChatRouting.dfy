/** Routing over whole runs of the server: what is pushed, popped and delivered, and to whom. */
module ChatRouting {
  import opened Text
  import opened Hashing
  import opened Protocol
  import opened Fanout
  import opened ChatSystem
  import opened ChatRuns
  import ChatAccounts

  /** What the router has written to `sid`. */
  function Delivered(popped: seq<Popped>, sid: Sid): seq<Message> {
    if popped == [] then []
    else
      var last := popped[|popped| - 1];
      Delivered(popped[..|popped| - 1], sid) + if last.to == Some(sid) then [last.message] else []
  }

  /** The messages addressed to `uid`. */
  function Addressed(ms: seq<Message>, uid: string): seq<Message> {
    if ms == [] then []
    else
      var last := ms[|ms| - 1];
      Addressed(ms[..|ms| - 1], uid) + if last.recipient == uid then [last] else []
  }

  /** `a` results from `b` by leaving out elements. */
  predicate Subsequence<T(==)>(a: seq<T>, b: seq<T>)
    decreases |b|
  {
    a == [] ||
    (b != [] &&
     (Subsequence(a, b[..|b| - 1]) || (a[|a| - 1] == b[|b| - 1] && Subsequence(a[..|a| - 1], b[..|b| - 1]))))
  }

  lemma {:induction false} AddressedAppend(a: seq<Message>, b: seq<Message>, uid: string)
    ensures Addressed(a + b, uid) == Addressed(a, uid) + Addressed(b, uid)
  {
    if b == [] {
      assert a + b == a;
    } else {
      assert (a + b)[..|a + b| - 1] == a + b[..|b| - 1];
      AddressedAppend(a, b[..|b| - 1], uid);
    }
  }

  lemma {:induction false} SubsequenceOfMore<T>(a: seq<T>, b: seq<T>, c: seq<T>)
    requires Subsequence(a, b)
    ensures Subsequence(a, b + c)
    decreases |c|
  {
    if c == [] {
      assert b + c == b;
    } else {
      assert (b + c)[..|b + c| - 1] == b + c[..|c| - 1];
      SubsequenceOfMore(a, b, c[..|c| - 1]);
    }
  }

  lemma {:induction false} SubsequenceSnoc<T>(a: seq<T>, b: seq<T>, x: T)
    requires Subsequence(a, b)
    ensures Subsequence(a + [x], b + [x])
  {
    assert (a + [x])[..|a|] == a && (b + [x])[..|b|] == b;
  }

  lemma {:induction false} DeliveredFromAddressed(popped: seq<Popped>, sid: Sid, uid: string)
    requires forall i | 0 <= i < |popped| && popped[i].to == Some(sid) :: popped[i].message.recipient == uid
    ensures Subsequence(Delivered(popped, sid), Addressed(Messages(popped), uid))
  {
    if popped != [] {
      var n := |popped| - 1;
      var last := popped[n];
      DeliveredFromAddressed(popped[..n], sid, uid);
      assert Messages(popped)[..n] == Messages(popped[..n]);
      assert Addressed(Messages(popped), uid)
          == Addressed(Messages(popped[..n]), uid) + if last.message.recipient == uid then [last.message] else [];
      var d, a := Delivered(popped[..n], sid), Addressed(Messages(popped[..n]), uid);
      if last.to == Some(sid) {
        SubsequenceSnoc(d, a, last.message);
      } else {
        assert Delivered(popped, sid) == d;
        SubsequenceOfMore(d, a, if last.message.recipient == uid then [last.message] else []);
      }
    }
  }

  /** The messages pushed so far are those the router is done with, the one it has in hand, and those still
      queued, in this order; and what the router wrote to a session is a subsequence, in push order, of what was
      addressed to its uid. */
  lemma {:induction false} RoutingConserves(hash: string -> string, states: seq<Sys>, acts: seq<Action>, n: nat,
                                            sid: Sid)
    requires IsRun(hash, states, acts) && n < |states|
    ensures states[n].pushed == Messages(states[n].popped) + InHand(states[n].router) + states[n].queue
    ensures sid in states[n].sessions ==>
              Subsequence(Delivered(states[n].popped, sid), Addressed(states[n].pushed, states[n].sessions[sid].uid))
    ensures sid !in states[n].sessions ==> Delivered(states[n].popped, sid) == []
  {
    RunInvariant(hash, states, acts, n);
    var s := states[n];
    if sid in s.sessions {
      var uid := s.sessions[sid].uid;
      DeliveredFromAddressed(s.popped, sid, uid);
      var rest := InHand(s.router) + s.queue;
      AddressedAppend(Messages(s.popped), rest, uid);
      assert s.pushed == Messages(s.popped) + rest;
      SubsequenceOfMore(Delivered(s.popped, sid), Addressed(Messages(s.popped), uid), Addressed(rest, uid));
    } else {
      NothingDelivered(s.popped, sid);
    }
  }

  lemma {:induction false} NothingDelivered(popped: seq<Popped>, sid: Sid)
    requires forall i | 0 <= i < |popped| :: popped[i].to != Some(sid)
    ensures Delivered(popped, sid) == []
  {
    if popped != [] {
      NothingDelivered(popped[..|popped| - 1], sid);
    }
  }

  lemma HistoryOther(hash: string -> string, s: Sys, a: Action)
    requires Enabled(s, a) && !IsRouterAction(a)
    ensures s.pushed <= Step(hash, s, a).pushed && s.popped == Step(hash, s, a).popped
  {
  }

  lemma HistoryRouter(s: Sys)
    requires s.router.Idle? ==> s.queue != []
    ensures s.pushed == RouterStep(s).pushed && s.popped <= RouterStep(s).popped
  {
  }

  lemma HistoryStep(hash: string -> string, states: seq<Sys>, acts: seq<Action>, k: nat)
    requires IsRun(hash, states, acts) && k < |acts|
    ensures states[k].pushed <= states[k + 1].pushed && states[k].popped <= states[k + 1].popped
  {
    assert Next(hash, states[k], acts[k], states[k + 1]);
    if IsRouterAction(acts[k]) {
      HistoryRouter(states[k]);
    } else {
      HistoryOther(hash, states[k], acts[k]);
    }
  }

  lemma {:induction false} PrefixChain<T>(histories: seq<seq<T>>, i: nat, j: nat)
    requires i <= j < |histories| && forall k | i <= k < j :: histories[k] <= histories[k + 1]
    ensures histories[i] <= histories[j]
  {
    if i < j {
      PrefixChain(histories, i, j - 1);
      assert histories[j - 1] <= histories[j - 1 + 1];
    }
  }

  /** Both histories only ever grow at their end: what was pushed or finished with once stays so. */
  lemma HistoriesGrow(hash: string -> string, states: seq<Sys>, acts: seq<Action>, i: nat, j: nat)
    requires IsRun(hash, states, acts) && i <= j < |states|
    ensures states[i].pushed <= states[j].pushed && states[i].popped <= states[j].popped
  {
    var pushes := seq(|states|, k requires 0 <= k < |states| => states[k].pushed);
    var pops := seq(|states|, k requires 0 <= k < |states| => states[k].popped);
    forall k | i <= k < j ensures pushes[k] <= pushes[k + 1] && pops[k] <= pops[k + 1] {
      HistoryStep(hash, states, acts, k);
    }
    PrefixChain(pushes, i, j);
    PrefixChain(pops, i, j);
  }

  /** The router does nothing between the actions `f` and `n`. */
  predicate RouterRests(acts: seq<Action>, f: nat, n: nat)
    requires n <= |acts|
  {
    forall m | f < m < n :: !IsRouterAction(acts[m])
  }

  lemma RouterHolds(hash: string -> string, s: Sys, a: Action)
    requires Enabled(s, a) && !IsRouterAction(a)
    ensures Step(hash, s, a).router == s.router
  {
  }

  /** What the router has found it found in its last action, in the registry of that moment. */
  lemma {:induction false} FindFound(hash: string -> string, states: seq<Sys>, acts: seq<Action>, n: nat)
    returns (f: nat)
    requires IsRun(hash, states, acts) && n < |states| && states[n].router.Found?
    ensures f < n && acts[f].RouteFind? && RouterRests(acts, f, n)
    ensures var r := states[n].router;
            && states[f].router == Holding(r.message)
            && r.message.recipient in states[f].registry && states[f].registry[r.message.recipient] == r.to
  {
    var s, a := states[n - 1], acts[n - 1];
    assert Next(hash, s, a, states[n - 1 + 1]);
    if IsRouterAction(a) {
      f := n - 1;
    } else {
      RouterHolds(hash, s, a);
      f := FindFound(hash, states, acts, n - 1);
    }
  }

  /** A lookup finds whoever is registered under the recipient; the message is dropped exactly if nobody is. */
  lemma LookupIff(hash: string -> string, states: seq<Sys>, acts: seq<Action>, n: nat)
    requires IsRun(hash, states, acts) && n < |acts| && acts[n].RouteFind?
    ensures states[n].router.Holding?
    ensures var s, s', m := states[n], states[n + 1], states[n].router.message;
            if m.recipient in s.registry then
              s'.router == Found(m, s.registry[m.recipient]) && s'.popped == s.popped
            else
              s'.router == Idle && s'.popped == s.popped + [Popped(m, None)]
  {
    assert Next(hash, states[n], acts[n], states[n + 1]);
  }

  /** What a client sends is queued unchanged, except for pings and answers to pings, which queue nothing. */
  lemma ReceivedIsQueued(hash: string -> string, states: seq<Sys>, acts: seq<Action>, n: nat)
    requires IsRun(hash, states, acts) && n < |acts| && acts[n].Receive?
    ensures states[n + 1].pushed
         == states[n].pushed + if acts[n].message.kind in {1241, 1242} then [] else [acts[n].message]
  {
    assert Next(hash, states[n], acts[n], states[n + 1]);
  }

  /** A session that is to be marked was written a server's ping in the router's last action. */
  lemma {:induction false} FindWrote(hash: string -> string, states: seq<Sys>, acts: seq<Action>, n: nat)
    returns (w: nat)
    requires IsRun(hash, states, acts) && n < |states| && states[n].router.Wrote?
    ensures w < n && acts[w].RouteWrite? && RouterRests(acts, w, n)
    ensures states[w].router.Found? && states[w].router.to == states[n].router.to
            && states[w].router.message.kind == 1241 && states[w].router.message.sender == "server"
  {
    var s, a := states[n - 1], acts[n - 1];
    assert Next(hash, s, a, states[n - 1 + 1]);
    if IsRouterAction(a) {
      w := n - 1;
    } else {
      RouterHolds(hash, s, a);
      w := FindWrote(hash, states, acts, n - 1);
    }
  }

  lemma EndStep(hash: string -> string, s: Sys, a: Action, sid: Sid)
    requires Enabled(s, a) && Served(s, sid)
    ensures Served(Step(hash, s, a), sid)
    ensures LiveIn(Step(hash, s, a), sid) <==> LiveIn(s, sid) && a != Disconnect(sid)
  {
  }

  /** A live session stays live exactly until its thread ends. */
  lemma {:induction false} LiveUntilEnd(hash: string -> string, states: seq<Sys>, acts: seq<Action>, f: nat, n: nat,
                                        sid: Sid)
    requires IsRun(hash, states, acts) && f <= n < |states| && LiveIn(states[f], sid)
    ensures Served(states[n], sid)
    ensures LiveIn(states[n], sid) <==> forall m | f <= m < n :: acts[m] != Disconnect(sid)
  {
    if f < n {
      LiveUntilEnd(hash, states, acts, f, n - 1, sid);
      assert Next(hash, states[n - 1], acts[n - 1], states[n - 1 + 1]);
      EndStep(hash, states[n - 1], acts[n - 1], sid);
    }
  }

  /** A write goes to the session that was registered, and live, under the recipient when the router looked,
      even if another has taken over the uid since. It is still live exactly if its thread has not ended
      between the lookup and the write. */
  lemma {:induction false} WriteTarget(hash: string -> string, states: seq<Sys>, acts: seq<Action>, n: nat)
    returns (f: nat)
    requires IsRun(hash, states, acts) && n < |acts| && acts[n].RouteWrite?
    ensures states[n].router.Found? && f < n && acts[f].RouteFind? && RouterRests(acts, f, n)
    ensures var m, to := states[n].router.message, states[n].router.to;
            && states[n + 1].popped == states[n].popped + [Popped(m, Some(to))]
            && LiveIn(states[f], to) && states[f].sessions[to].uid == m.recipient
            && m.recipient in states[f].registry && states[f].registry[m.recipient] == to
            && (LiveIn(states[n], to) <==> forall k | f < k < n :: acts[k] != Disconnect(to))
  {
    assert Next(hash, states[n], acts[n], states[n + 1]);
    f := FindFound(hash, states, acts, n);
    RunInvariant(hash, states, acts, f);
    LiveUntilEnd(hash, states, acts, f, n, states[n].router.to);
  }

  /** Registered uids are hashes. */
  lemma RegisteredIsHash(hash: string -> string, s: Sys, u: string)
    requires NoDangling(s) && Known(hash, s) && IsGetHash(hash)
    ensures u in s.registry ==> IsHexText(u)
  {
    if u in s.registry {
      var x := s.sessions[s.registry[u]];
      assert LiveIn(s, s.registry[u]) && SessionKnown(s.users, x);
      assert IsHexText(hash(x.username));
    }
  }

  lemma PoppedStep(hash: string -> string, s: Sys, a: Action)
    requires Enabled(s, a) && Step(hash, s, a).popped != s.popped
    ensures |Step(hash, s, a).popped| == |s.popped| + 1 && Step(hash, s, a).popped[..|s.popped|] == s.popped
    ensures var p := Step(hash, s, a).popped[|s.popped|];
            p.to.Some? ==> a.RouteWrite? && p.message == s.router.message
  {
  }

  /** Whatever is written to a session by the router was addressed to the full hexadecimal text of a hash. */
  lemma {:induction false} OnlyHashesWritten(hash: string -> string, states: seq<Sys>, acts: seq<Action>, n: nat,
                                             i: nat)
    requires IsRun(hash, states, acts) && IsGetHash(hash)
    requires n < |states| && i < |states[n].popped| && states[n].popped[i].to.Some?
    ensures IsHexText(states[n].popped[i].message.recipient)
    decreases n
  {
    var s, a := states[n - 1], acts[n - 1];
    assert Next(hash, s, a, states[n - 1 + 1]);
    if states[n].popped != s.popped {
      PoppedStep(hash, s, a);
    }
    if i < |s.popped| {
      OnlyHashesWritten(hash, states, acts, n - 1, i);
    } else {
      var f := WriteTarget(hash, states, acts, n - 1);
      RunInvariant(hash, states, acts, f);
      RegisteredIsHash(hash, states[f], states[n].popped[i].message.recipient);
    }
  }

  /** The server is nobody's uid: what is addressed to it is dropped. */
  lemma {:induction false} NothingForServer(hash: string -> string, states: seq<Sys>, acts: seq<Action>, n: nat, i: nat)
    requires IsRun(hash, states, acts) && IsGetHash(hash) && n < |states| && i < |states[n].popped|
    ensures states[n].popped[i].message.recipient == SERVER ==> states[n].popped[i].to == None
  {
    if states[n].popped[i].to.Some? {
      OnlyHashesWritten(hash, states, acts, n, i);
    }
  }

  /** What arrives of a line that Enter sends: it is addressed to the server. */
  lemma TypedGoesToServer(hash: string -> string, stamp: string, kind: Int32, uid: string, line: string, prior: Message,
                          junk: string)
    requires IsGetHash(hash) && FitsField(uid, HASH_HEX_OUTPUT_LENGTH - 1) && Delimitable(uid)
    requires 0 < |line| < MAX_PAYLOAD_SIZE && NUL !in line && NEWLINE !in line
    ensures var c := CreateMessage(hash, stamp, kind, uid, SERVER, line);
            c.Created? && ParseMessage(prior, Encode(c.message) + junk).recipient == SERVER
  {
    var m := CreateMessage(hash, stamp, kind, uid, SERVER, line).message;
    assert IsHexText(hash(HashedText(stamp, line)));
    RoundTrip(m, prior, junk);
  }

  /** No line typed into the client, whatever its type, the clock and the leftovers on its way, is ever written to
      anybody. */
  lemma {:induction false} TypedIsDropped(hash: string -> string, states: seq<Sys>, acts: seq<Action>, n: nat, i: nat,
                                          stamp: string, kind: Int32, uid: string, line: string, prior: Message,
                                          junk: string)
    requires IsRun(hash, states, acts) && IsGetHash(hash) && n < |states| && i < |states[n].popped|
    requires FitsField(uid, HASH_HEX_OUTPUT_LENGTH - 1) && Delimitable(uid)
    requires 0 < |line| < MAX_PAYLOAD_SIZE && NUL !in line && NEWLINE !in line
    ensures var c := CreateMessage(hash, stamp, kind, uid, SERVER, line);
            c.Created? && (states[n].popped[i].message == ParseMessage(prior, Encode(c.message) + junk) ==>
                             states[n].popped[i].to == None)
  {
    TypedGoesToServer(hash, stamp, kind, uid, line, prior, junk);
    NothingForServer(hash, states, acts, n, i);
  }

  /** The session registered under `u` is ready and is not the newcomer. */
  predicate ReadyOther(s: Sys, u: string, newcomer: Option<Sid>) {
    u in s.registry && Is(s, s.registry[u], Ready) && newcomer != Some(s.registry[u])
  }

  /** The peers of a walk in a reachable state: who is wanted, and that their uids are full hashes. */
  lemma {:induction false} ReadyPeers(hash: string -> string, s: Sys, fan: Fan, order: seq<string>,
                                      newcomer: Option<Sid>)
    requires NoDangling(s) && Known(hash, s) && IsGetHash(hash)
    requires Distinct(order) && (forall u | u in order :: u in s.registry) && forall u | u in s.registry :: u in order
    requires !fan.KickFan? && (fan.JoinFan? <==> newcomer.Some?)
    ensures var peers := Peers(s, order, newcomer);
            && AddressablePeers(peers) && Distinct(Wanted(fan, peers))
            && forall u :: u in Wanted(fan, peers) <==> ReadyOther(s, u, newcomer)
  {
    var peers := Peers(s, order, newcomer);
    forall i | 0 <= i < |peers| ensures peers[i].uid == order[i] && |peers[i].uid| <= 128
                                        && (fan.Wants(peers[i]) <==> ReadyOther(s, order[i], newcomer)) {
      assert order[i] in s.registry;
      var x := s.sessions[s.registry[order[i]]];
      assert x.uid == hash(x.username);
      assert IsHexText(hash(x.username));
    }
    WantedExact(fan, peers);
    forall u | ReadyOther(s, u, newcomer) ensures u in Wanted(fan, peers) {
      var i :| 0 <= i < |order| && order[i] == u;
      assert peers[i].uid == u && fan.Wants(peers[i]);
    }
  }

  /** The fan-out that an action makes, and the session it leaves out. */
  function FanOf(s: Sys, a: Action): (fan: Fan)
    requires Enabled(s, a) && (a.Announce? || a.FanAll?)
  {
    if a.Announce? then JoinFan(s.sessions[a.sid].username) else a.fan
  }

  function NewcomerOf(a: Action): Option<Sid> {
    if a.Announce? then Some(a.sid) else None
  }

  lemma {:induction false} FanPushes(hash: string -> string, states: seq<Sys>, acts: seq<Action>, i: nat)
    returns (peers: seq<Peer>)
    requires IsRun(hash, states, acts) && i < |acts| && (acts[i].Announce? || acts[i].FanAll?)
    ensures Enabled(states[i], acts[i]) && peers == Peers(states[i], acts[i].order, NewcomerOf(acts[i]))
    ensures |acts[i].slots| == |peers|
    ensures states[i + 1].pushed == states[i].pushed + FanOut(hash, FanOf(states[i], acts[i]), peers, acts[i].slots)
  {
    assert Next(hash, states[i], acts[i], states[i + 1]);
    peers := Peers(states[i], acts[i].order, NewcomerOf(acts[i]));
  }

  /** A fan-out in a state that keeps the invariants. */
  lemma {:induction false} FanOutToReady(hash: string -> string, s: Sys, fan: Fan, order: seq<string>,
                                         slots: seq<Slot>, newcomer: Option<Sid>)
    requires NoDangling(s) && Known(hash, s) && IsGetHash(hash) && Walk(s, order, slots)
    requires !fan.KickFan? && (fan.JoinFan? <==> newcomer.Some?)
    ensures var peers := Peers(s, order, newcomer);
            var sent, wanted := FanOut(hash, fan, peers, slots), Wanted(fan, peers);
            && |sent| == |wanted| && Distinct(wanted) && (forall u :: u in wanted <==> ReadyOther(s, u, newcomer))
            && (Sendable(fan) ==> forall j | 0 <= j < |wanted| :: Announces(sent[j], fan, wanted[j]))
  {
    var peers := Peers(s, order, newcomer);
    ReadyPeers(hash, s, fan, order, newcomer);
    FanOutCounts(hash, fan, peers, slots);
    if Sendable(fan) {
      SendableFanOut(hash, fan, peers, slots);
    }
  }

  /** A join, broadcast, ping or quit to everybody gains the queue exactly one message for each ready registered
      session other than the newcomer, for every text, in any run; and the intended ones for sendable texts. */
  lemma {:induction false} FanOutReachesReady(hash: string -> string, states: seq<Sys>, acts: seq<Action>, i: nat)
    returns (sent: seq<Message>, wanted: seq<string>)
    requires IsRun(hash, states, acts) && IsGetHash(hash) && i < |acts| && (acts[i].Announce? || acts[i].FanAll?)
    ensures states[i + 1].pushed == states[i].pushed + sent && |sent| == |wanted|
    ensures Distinct(wanted) && forall u :: u in wanted <==> ReadyOther(states[i], u, NewcomerOf(acts[i]))
    ensures Enabled(states[i], acts[i])
    ensures Sendable(FanOf(states[i], acts[i])) ==>
              forall j | 0 <= j < |wanted| :: Announces(sent[j], FanOf(states[i], acts[i]), wanted[j])
  {
    var peers := FanPushes(hash, states, acts, i);
    RunInvariant(hash, states, acts, i);
    var fan := FanOf(states[i], acts[i]);
    FanOutToReady(hash, states[i], fan, acts[i].order, acts[i].slots, NewcomerOf(acts[i]));
    sent, wanted := FanOut(hash, fan, peers, acts[i].slots), Wanted(fan, peers);
  }

  /** A broadcast of 1 to 2047 characters queues that text, from the server, once for each ready registered session,
      and nothing else. */
  lemma {:induction false} BroadcastReaches(hash: string -> string, states: seq<Sys>, acts: seq<Action>, i: nat,
                                            text: string)
    returns (sent: seq<Message>, wanted: seq<string>)
    requires IsRun(hash, states, acts) && IsGetHash(hash) && i < |acts|
    requires acts[i].FanAll? && acts[i].fan == BroadcastFan(text) && 1 <= |text| <= 2047
    ensures states[i + 1].pushed == states[i].pushed + sent && |sent| == |wanted| && Distinct(wanted)
    ensures forall u :: u in wanted <==> u in states[i].registry && Is(states[i], states[i].registry[u], Ready)
    ensures forall j | 0 <= j < |sent| ::
              sent[j].recipient == wanted[j] && sent[j].sender == "server" && sent[j].kind == 1234
              && sent[j].payload == text
  {
    sent, wanted := FanOutReachesReady(hash, states, acts, i);
    assert forall u :: u in wanted <==> ReadyOther(states[i], u, None);
    forall j | 0 <= j < |sent| ensures Announces(sent[j], BroadcastFan(text), wanted[j]) {
    }
  }

  /** Whoever is let in has a name of at most 15 characters. */
  lemma {:induction false} NameFits(hash: string -> string, states: seq<Sys>, acts: seq<Action>, n: nat, sid: Sid)
    requires IsRun(hash, states, acts) && n < |states| && LiveIn(states[n], sid)
    ensures |states[n].sessions[sid].username| <= 15
  {
    ChatAccounts.LetInHeard(hash, states, acts, n, sid);
  }

  /** The join message: the newcomer's name, from the server, once for each other ready registered session, and
      nothing else. (With an empty name the storage of the callbacks is queued.) */
  lemma {:induction false} JoinReaches(hash: string -> string, states: seq<Sys>, acts: seq<Action>, i: nat)
    returns (sent: seq<Message>, wanted: seq<string>)
    requires IsRun(hash, states, acts) && IsGetHash(hash) && i < |acts| && acts[i].Announce?
    ensures states[i + 1].pushed == states[i].pushed + sent && |sent| == |wanted| && Distinct(wanted)
    ensures LiveIn(states[i], acts[i].sid)
    ensures forall u :: u in wanted <==> u in states[i].registry && Is(states[i], states[i].registry[u], Ready)
                                         && states[i].registry[u] != acts[i].sid
    ensures var name := states[i].sessions[acts[i].sid].username;
            name != "" ==> forall j | 0 <= j < |sent| ::
              sent[j].recipient == wanted[j] && sent[j].sender == "server" && sent[j].kind == 1248
              && sent[j].payload == name
  {
    sent, wanted := FanOutReachesReady(hash, states, acts, i);
    assert forall u :: u in wanted <==> ReadyOther(states[i], u, Some(acts[i].sid));
    NameFits(hash, states, acts, i, acts[i].sid);
    var name := states[i].sessions[acts[i].sid].username;
    if name != "" {
      forall j | 0 <= j < |sent| ensures Announces(sent[j], JoinFan(name), wanted[j]) {
      }
    }
  }

  lemma {:induction false} QuitOneMade(hash: string -> string, s: Sys, u: string, slot: Slot)
    requires NoDangling(s) && Known(hash, s) && IsGetHash(hash)
    ensures var sent := FanOut(hash, QuitFan, [PeerOf(s, u, None)], [slot]);
            if ReadyOther(s, u, None) then |sent| == 1 && Announces(sent[0], QuitFan, u) else sent == []
  {
    OnePeer(hash, QuitFan, PeerOf(s, u, None), slot);
    if u in s.registry {
      RegisteredIsHash(hash, s, u);
      MadeExact(hash, QuitFan, u, slot);
    }
  }

  lemma QuitOnePushes(hash: string -> string, s: Sys, u: string, slot: Slot)
    ensures Step(hash, s, QuitOne(u, slot)).pushed
         == s.pushed + FanOut(hash, QuitFan, [PeerOf(s, u, None)], [slot])
  {
  }

  /** Kicking a user from the command line queues one signal to quit if its session is ready, and nothing
      otherwise. */
  lemma {:induction false} QuitOneReaches(hash: string -> string, states: seq<Sys>, acts: seq<Action>, i: nat)
    returns (sent: seq<Message>)
    requires IsRun(hash, states, acts) && IsGetHash(hash) && i < |acts| && acts[i].QuitOne?
    ensures states[i + 1].pushed == states[i].pushed + sent
    ensures var u := acts[i].uid;
            if u in states[i].registry && Is(states[i], states[i].registry[u], Ready) then
              && |sent| == 1 && sent[0].recipient == u && sent[0].sender == "server"
              && sent[0].kind == 1243 && sent[0].payload == "QUIT"
            else sent == []
  {
    var s, u, slot := states[i], acts[i].uid, acts[i].slot;
    RunInvariant(hash, states, acts, i);
    QuitOneMade(hash, s, u, slot);
    QuitOnePushes(hash, s, u, slot);
    sent := FanOut(hash, QuitFan, [PeerOf(s, u, None)], [slot]);
    assert Next(hash, s, acts[i], states[i + 1]);
  }

  /** When there is such a session, the messages are the intended ones whatever the callbacks' storage held,
      exactly when the text has between 1 and 2047 characters. */
  lemma {:induction false} FanOutTellsIff(hash: string -> string, states: seq<Sys>, acts: seq<Action>, i: nat)
    requires IsRun(hash, states, acts) && IsGetHash(hash) && i < |acts| && (acts[i].Announce? || acts[i].FanAll?)
    requires exists u :: ReadyOther(states[i], u, NewcomerOf(acts[i]))
    ensures Enabled(states[i], acts[i])
    ensures var peers := Peers(states[i], acts[i].order, NewcomerOf(acts[i]));
            Sendable(FanOf(states[i], acts[i])) <==>
              forall slots | |slots| == |peers| :: AllAnnounced(hash, FanOf(states[i], acts[i]), peers, slots)
  {
    var peers := FanPushes(hash, states, acts, i);
    RunInvariant(hash, states, acts, i);
    var fan := FanOf(states[i], acts[i]);
    ReadyPeers(hash, states[i], fan, acts[i].order, NewcomerOf(acts[i]));
    FanOutExact(hash, fan, peers);
  }
}
