/** What being kicked as unresponsive means over whole runs of the server: pings written, marks made and answers
    received. */
module ChatKicks {
  import opened Text
  import opened Hashing
  import opened Protocol
  import opened Fanout
  import opened ChatSystem
  import opened ChatRuns
  import opened ChatRouting

  /** The action sets the ping flag of a live `sid`. */
  predicate Marks(s: Sys, a: Action, sid: Sid) {
    a.RouteMark? && s.router == Wrote(sid) && LiveIn(s, sid)
  }

  /** The action is an answer that `sid` receives from its client. */
  predicate Acks(a: Action, sid: Sid) {
    a.Receive? && a.sid == sid && a.message.kind == 1242
  }

  predicate NoAck(acts: seq<Action>, k: nat, n: nat, sid: Sid)
    requires n <= |acts|
  {
    forall m | k < m < n :: !Acks(acts[m], sid)
  }

  /** The action writes a server's ping to `sid`. */
  predicate Pings(s: Sys, a: Action, sid: Sid) {
    && a.RouteWrite? && s.router.Found? && s.router.to == sid
    && s.router.message.kind == 1241 && s.router.message.sender == "server"
  }

  predicate Flagged(s: Sys, sid: Sid) {
    LiveIn(s, sid) && s.sessions[sid].phase.pingSent
  }

  lemma FlagStep(hash: string -> string, s: Sys, a: Action, sid: Sid)
    requires Enabled(s, a) && LiveIn(Step(hash, s, a), sid)
    ensures Flagged(Step(hash, s, a), sid) <==> Marks(s, a, sid) || (Flagged(s, sid) && !Acks(a, sid))
    ensures LiveIn(s, sid) || a == Insert(sid)
  {
  }

  /** `sid` was marked at `k` and has not answered since. */
  predicate MarkStands(states: seq<Sys>, acts: seq<Action>, k: nat, n: nat, sid: Sid)
    requires |states| == |acts| + 1 && n < |states|
  {
    k < n && Marks(states[k], acts[k], sid) && NoAck(acts, k, n, sid)
  }

  /** A live session's flag is set exactly when it was marked and has not answered since the mark. */
  lemma {:induction false} FlaggedIff(hash: string -> string, states: seq<Sys>, acts: seq<Action>, n: nat, sid: Sid)
    requires IsRun(hash, states, acts) && n < |states| && LiveIn(states[n], sid)
    ensures Flagged(states[n], sid) <==> exists k :: MarkStands(states, acts, k, n, sid)
  {
    if n > 0 {
      var s, a := states[n - 1], acts[n - 1];
      assert Next(hash, s, a, states[n - 1 + 1]);
      FlagStep(hash, s, a, sid);
      if LiveIn(s, sid) {
        FlaggedIff(hash, states, acts, n - 1, sid);
        MarksGoOn(states, acts, n - 1, n, sid);
      } else {
        forall k | MarkStands(states, acts, k, n, sid) ensures false {
          LiveUntilEnd(hash, states, acts, k, n - 1, sid);
        }
      }
    }
  }

  lemma MarksGoOn(states: seq<Sys>, acts: seq<Action>, m: nat, n: nat, sid: Sid)
    requires |states| == |acts| + 1 && m + 1 == n < |states|
    ensures (exists k :: MarkStands(states, acts, k, n, sid)) <==>
              || Marks(states[m], acts[m], sid)
              || (!Acks(acts[m], sid) && exists k :: MarkStands(states, acts, k, m, sid))
  {
    if k :| MarkStands(states, acts, k, n, sid) {
      assert k == m || MarkStands(states, acts, k, m, sid);
    }
    if Marks(states[m], acts[m], sid) {
      assert MarkStands(states, acts, m, n, sid);
    }
    if k :| MarkStands(states, acts, k, m, sid) {
      assert !Acks(acts[m], sid) ==> MarkStands(states, acts, k, n, sid);
    }
  }

  /** The uids that a scan adds to those to be kicked. */
  function Collected(states: seq<Sys>, acts: seq<Action>, i: nat): seq<string>
    requires |states| == |acts| + 1 && i < |acts| && |states[i].kicks| <= |states[i + 1].kicks|
  {
    states[i + 1].kicks[|states[i].kicks|..]
  }

  lemma {:induction false} ScanCollects(hash: string -> string, states: seq<Sys>, acts: seq<Action>, i: nat, u: string)
    requires IsRun(hash, states, acts) && i < |acts| && acts[i].KickScan?
    ensures |states[i].kicks| <= |states[i + 1].kicks|
    ensures u in Collected(states, acts, i) <==>
              u in states[i].registry && Is(states[i], states[i].registry[u], Ready)
              && Flagged(states[i], states[i].registry[u])
  {
    var s, order := states[i], acts[i].order;
    assert Next(hash, s, acts[i], states[i + 1]);
    RunInvariant(hash, states, acts, i);
    var peers := Peers(s, order, None);
    assert states[i + 1].kicks == s.kicks + Wanted(KickFan, peers);
    WantedExact(KickFan, peers);
    forall j | 0 <= j < |peers| ensures peers[j].uid == order[j] && order[j] in s.registry {
      assert order[j] in order;
    }
    if u in s.registry {
      var j :| 0 <= j < |order| && order[j] == u;
      assert peers[j] == PeerOf(s, u, None);
    }
  }

  /** A scan queues one signal to quit for each uid that it collects, in order, and nothing else. */
  lemma {:induction false} ScanSignals(hash: string -> string, states: seq<Sys>, acts: seq<Action>, i: nat)
    returns (sent: seq<Message>)
    requires IsRun(hash, states, acts) && IsGetHash(hash) && i < |acts| && acts[i].KickScan?
    ensures |states[i].kicks| <= |states[i + 1].kicks|
    ensures states[i + 1].pushed == states[i].pushed + sent && |sent| == |Collected(states, acts, i)|
    ensures forall j | 0 <= j < |sent| ::
              sent[j].recipient == Collected(states, acts, i)[j] && sent[j].sender == "server"
              && sent[j].kind == 1243 && sent[j].payload == "QUIT"
  {
    var s, order := states[i], acts[i].order;
    assert Next(hash, s, acts[i], states[i + 1]);
    RunInvariant(hash, states, acts, i);
    var peers := Peers(s, order, None);
    forall j | 0 <= j < |peers| ensures |peers[j].uid| <= 128 {
      assert order[j] in order;
      RegisteredIsHash(hash, s, order[j]);
    }
    SendableFanOut(hash, KickFan, peers, acts[i].slots);
    sent := FanOut(hash, KickFan, peers, acts[i].slots);
    assert Collected(states, acts, i) == Wanted(KickFan, peers);
  }

  /** A scan collects a uid exactly when its registered session is in its read loop, was marked as pinged, and
      has not answered since the mark. */
  lemma {:induction false} KickedIff(hash: string -> string, states: seq<Sys>, acts: seq<Action>, i: nat, u: string)
    requires IsRun(hash, states, acts) && i < |acts| && acts[i].KickScan?
    ensures |states[i].kicks| <= |states[i + 1].kicks|
    ensures u in Collected(states, acts, i) <==>
              && u in states[i].registry && Is(states[i], states[i].registry[u], Ready)
              && exists k :: MarkStands(states, acts, k, i, states[i].registry[u])
  {
    ScanCollects(hash, states, acts, i, u);
    if u in states[i].registry && Is(states[i], states[i].registry[u], Ready) {
      FlaggedIff(hash, states, acts, i, states[i].registry[u]);
    }
  }

  /** Every mark follows a ping that was written in the router's action before it. */
  lemma {:induction false} MarkFollowsPing(hash: string -> string, states: seq<Sys>, acts: seq<Action>, k: nat,
                                           sid: Sid)
    returns (w: nat)
    requires IsRun(hash, states, acts) && k < |acts| && Marks(states[k], acts[k], sid)
    ensures w < k && Pings(states[w], acts[w], sid) && RouterRests(acts, w, k)
  {
    w := FindWrote(hash, states, acts, k);
  }

  /** The action writes something else than a server's ping. */
  predicate WritesOther(s: Sys, a: Action) {
    && a.RouteWrite? && s.router.Found?
    && (s.router.message.kind != 1241 || s.router.message.sender != "server")
  }

  lemma StillToMark(hash: string -> string, states: seq<Sys>, acts: seq<Action>, n: nat, sid: Sid)
    requires IsRun(hash, states, acts) && n < |acts| && states[n].router == Wrote(sid)
    ensures if !IsRouterAction(acts[n]) then states[n + 1].router == Wrote(sid)
            else acts[n] == RouteMark && (LiveIn(states[n], sid) ==> Flagged(states[n + 1], sid))
  {
    assert Next(hash, states[n], acts[n], states[n + 1]);
    if !IsRouterAction(acts[n]) {
      RouterHolds(hash, states[n], acts[n]);
    }
  }

  /** A write of a server's ping is followed by the mark: the router's next action sets the session's flag, if the
      thread is still running. */
  lemma {:induction false} PingThenMark(hash: string -> string, states: seq<Sys>, acts: seq<Action>, w: nat, k: nat,
                                        sid: Sid)
    requires IsRun(hash, states, acts) && w < k < |acts| && Pings(states[w], acts[w], sid) && RouterRests(acts, w, k)
    ensures states[k].router == Wrote(sid)
    ensures IsRouterAction(acts[k]) ==> acts[k] == RouteMark && (LiveIn(states[k], sid) ==> Flagged(states[k + 1], sid))
    decreases k
  {
    if w + 1 < k {
      PingThenMark(hash, states, acts, w, k - 1, sid);
      StillToMark(hash, states, acts, k - 1, sid);
    } else {
      assert Next(hash, states[w], acts[w], states[w + 1]);
    }
    StillToMark(hash, states, acts, k, sid);
  }

  /** The router has written something else than a server's ping, or rests after that. */
  predicate Resting(states: seq<Sys>, acts: seq<Action>, m: nat)
    requires |states| == |acts| + 1
  {
    m < |acts| && (WritesOther(states[m], acts[m]) || (states[m].router.Idle? && !IsRouterAction(acts[m])))
  }

  lemma RestingStep(hash: string -> string, states: seq<Sys>, acts: seq<Action>, m: nat, sid: Sid)
    requires IsRun(hash, states, acts) && Resting(states, acts, m)
    ensures states[m + 1].router == Idle && (Flagged(states[m + 1], sid) ==> Flagged(states[m], sid))
  {
    var s, a := states[m], acts[m];
    assert Next(hash, s, a, states[m + 1]);
    if !a.RouteWrite? {
      RouterHolds(hash, s, a);
    }
    if Flagged(states[m + 1], sid) {
      FlagStep(hash, s, a, sid);
    }
  }

  lemma IdlePops(hash: string -> string, states: seq<Sys>, acts: seq<Action>, n: nat)
    requires IsRun(hash, states, acts) && n < |acts| && states[n].router.Idle? && IsRouterAction(acts[n])
    ensures acts[n] == RoutePop
  {
    assert Next(hash, states[n], acts[n], states[n + 1]);
  }

  /** A write of anything but a server's ping marks nobody: until the router's next action, which is a pop, the router
      is idle and no session's flag gets set. */
  lemma {:induction false} OtherWriteMarksNobody(hash: string -> string, states: seq<Sys>, acts: seq<Action>, w: nat,
                                                 n: nat, sid: Sid)
    requires IsRun(hash, states, acts) && w < n < |states| && WritesOther(states[w], acts[w])
    requires RouterRests(acts, w, n)
    ensures states[n].router == Idle && (Flagged(states[n], sid) ==> Flagged(states[w], sid))
    ensures n < |acts| && IsRouterAction(acts[n]) ==> acts[n] == RoutePop
    decreases n
  {
    if w + 1 < n {
      OtherWriteMarksNobody(hash, states, acts, w, n - 1, sid);
    }
    RestingStep(hash, states, acts, n - 1, sid);
    if n < |acts| && IsRouterAction(acts[n]) {
      IdlePops(hash, states, acts, n);
    }
  }

  /** `sid` answers between the actions `w` and `n`. */
  predicate Answers(acts: seq<Action>, w: nat, n: nat, sid: Sid)
    requires n <= |acts|
  {
    !NoAck(acts, w, n, sid)
  }

  /** Who is collected was written a server's ping, in `w`, and marked for it, in `k`. It has answered that ping
      all the same exactly if the answer came before the mark. */
  lemma {:induction false} KickedThough(hash: string -> string, states: seq<Sys>, acts: seq<Action>, i: nat, u: string)
    returns (w: nat, k: nat)
    requires IsRun(hash, states, acts) && i < |acts| && acts[i].KickScan?
    requires |states[i].kicks| <= |states[i + 1].kicks| && u in Collected(states, acts, i)
    ensures u in states[i].registry
    ensures var sid := states[i].registry[u];
            && w < k < i && Pings(states[w], acts[w], sid) && RouterRests(acts, w, k)
            && MarkStands(states, acts, k, i, sid)
            && (Answers(acts, w, i, sid) <==> Answers(acts, w, k, sid))
  {
    KickedIff(hash, states, acts, i, u);
    var sid := states[i].registry[u];
    k :| MarkStands(states, acts, k, i, sid);
    w := MarkFollowsPing(hash, states, acts, k, sid);
    assert !Acks(acts[k], sid);
  }
}
