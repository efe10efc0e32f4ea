/** Concrete runs: logins that race, a kick that lets a second session in, a kick that does no harm, an answered
    ping that is still kicked for, and a write to a connection whose thread has ended. */
module ChatRaces {
  import opened Text
  import opened Hashing
  import opened Protocol
  import opened AuthDialogue
  import opened Fanout
  import opened ChatSystem
  import opened ChatRuns
  import opened ChatChecks
  import opened ChatKicks

  /** A table with one user, "u" with password "p". */
  function OneUser(hash: string -> string): Users {
    map["u" := Row(hash("u"), hash("p"))]
  }

  function Start(hash: string -> string): Sys {
    Sys(OneUser(hash), map[], map[], [], Idle, [], [], [])
  }

  /** A run under construction. */
  datatype Run = Run(states: seq<Sys>, acts: seq<Action>)
  {
    ghost predicate Ok(hash: string -> string) {
      IsRun(hash, states, acts)
    }

    function Last(): Sys
      requires states != []
    {
      states[|states| - 1]
    }
  }

  function Extend(hash: string -> string, r: Run, a: Action): Run
    requires r.states != [] && Enabled(r.Last(), a)
  {
    Run(r.states + [Step(hash, r.Last(), a)], r.acts + [a])
  }

  lemma ExtendOk(hash: string -> string, r: Run, a: Action)
    requires r.Ok(hash) && Enabled(r.Last(), a)
    ensures Extend(hash, r, a).Ok(hash)
    ensures Extend(hash, r, a).Last() == Step(hash, r.Last(), a)
  {
    ExtendRun(hash, r.states, r.acts, a);
  }

  /** Every insert of the run is of a session that nobody raced. */
  ghost predicate Unhurried(r: Run) {
    && |r.states| == |r.acts| + 1
    && forall i | 0 <= i < |r.acts| && r.acts[i].Insert? ::
         r.acts[i].sid in r.states[i].sessions && r.states[i].sessions[r.acts[i].sid].phase == LoggedIn(false)
  }

  lemma ExtendUnhurried(hash: string -> string, r: Run, a: Action)
    requires Unhurried(r) && Enabled(r.Last(), a)
    requires a.Insert? ==> r.Last().sessions[a.sid].phase == LoggedIn(false)
    ensures Unhurried(Extend(hash, r, a))
  {
  }

  predicate NoKick(acts: seq<Action>) {
    forall i | 0 <= i < |acts| :: !acts[i].KickErase?
  }

  /** `sid` connects and answers both prompts rightly while "u" is offline. */
  lemma LogIn(hash: string -> string, r: Run, sid: Sid) returns (e: Run)
    requires r.Ok(hash) && r.Last().users == OneUser(hash)
    requires sid !in r.Last().sessions && hash("u") !in r.Last().registry
    ensures e.Ok(hash) && (NoKick(r.acts) ==> NoKick(e.acts)) && (Unhurried(r) ==> Unhurried(e))
    ensures e.Last() == r.Last().(sessions := r.Last().sessions[sid := Session(LoggedIn(false), "u", hash("u"))])
  {
    var connected := Act(hash, r, Connect(sid));
    StepName(hash, connected.Last(), sid);
    var named := Act(hash, connected, AuthRead(sid, Received("u")));
    StepPassword(hash, named.Last(), sid);
    e := Act(hash, named, AuthRead(sid, Received("p")));
  }

  function InDialogue(s: Sys, sid: Sid, auth: AuthState): Sys {
    s.(sessions := s.sessions[sid := Session(Authenticating(auth, false), "", "")])
  }

  lemma StepName(hash: string -> string, s: Sys, sid: Sid)
    requires s.users == OneUser(hash) && hash("u") !in s.registry
    requires sid in s.sessions && s.sessions[sid] == Session(Authenticating(AwaitUsername(0), false), "", "")
    ensures var a := AuthRead(sid, Received("u"));
            Enabled(s, a) && Step(hash, s, a) == InDialogue(s, sid, AwaitLogin(0, "u", hash("u")))
  {
  }

  lemma StepPassword(hash: string -> string, s: Sys, sid: Sid)
    requires s.users == OneUser(hash)
    requires sid in s.sessions
    requires s.sessions[sid] == Session(Authenticating(AwaitLogin(0, "u", hash("u")), false), "", "")
    ensures var a := AuthRead(sid, Received("p"));
            && Enabled(s, a)
            && Step(hash, s, a) == s.(sessions := s.sessions[sid := Session(LoggedIn(false), "u", hash("u"))])
  {
  }

  /** One more action that is no insert. */
  lemma Act(hash: string -> string, r: Run, a: Action) returns (e: Run)
    requires r.Ok(hash) && Enabled(r.Last(), a) && !a.Insert? && !a.KickErase?
    ensures e.Ok(hash) && e.Last() == Step(hash, r.Last(), a)
    ensures (NoKick(r.acts) ==> NoKick(e.acts)) && (Unhurried(r) ==> Unhurried(e))
  {
    ExtendOk(hash, r, a);
    e := Extend(hash, r, a);
  }

  predicate HasUser(hash: string -> string, s: Sys, sid: Sid) {
    sid in s.sessions && s.sessions[sid].uid == hash("u")
  }

  /** Inserting one session leaves the other's phase alone but for the race mark. */
  lemma InsertOne(hash: string -> string, r: Run, sid: Sid, other: Sid) returns (e: Run)
    requires r.Ok(hash) && sid != other && HasUser(hash, r.Last(), sid) && HasUser(hash, r.Last(), other)
    requires r.Last().sessions[sid].phase.LoggedIn?
    ensures e == Extend(hash, r, Insert(sid)) && e.Ok(hash)
    ensures var s, s' := r.Last(), e.Last();
            && LiveIn(s', sid) && HasUser(hash, s', sid) && HasUser(hash, s', other)
            && (LiveIn(s, other) ==> LiveIn(s', other))
            && (s.sessions[other].phase.LoggedIn? ==> s'.sessions[other].phase.LoggedIn?)
            && hash("u") in s'.registry
  {
    ExtendOk(hash, r, Insert(sid));
    e := Extend(hash, r, Insert(sid));
  }

  lemma StartOk(hash: string -> string) returns (r: Run)
    ensures r == Run([Start(hash)], []) && r.Ok(hash)
  {
    r := Run([Start(hash)], []);
  }

  /** Two sessions find "u" offline before either is inserted: both end up live, and the second
      hash_map_insert returns 2. No kick is involved. */
  lemma RaceBreaks(hash: string -> string) returns (r: Run)
    ensures r.Ok(hash) && TwoLive(r.Last()) && NoKick(r.acts)
    ensures r.acts != [] && var n := |r.acts| - 1;
            r.acts[n] == Insert(1) && 1 in r.states[n].sessions && InsertResult(r.states[n], 1) == 2
  {
    var r0 := StartOk(hash);
    var r1 := LogIn(hash, r0, 0);
    var r2 := LogIn(hash, r1, 1);
    var r3 := InsertOne(hash, r2, 0, 1);
    r := InsertOne(hash, r3, 1, 0);
    assert r.states[|r.acts| - 1] == r3.Last();
    assert LiveIn(r.Last(), 0) && LiveIn(r.Last(), 1);
  }

  /** The only session is 0, live and registered as "u". */
  function Alone(hash: string -> string, stage: Stage, pingSent: bool, queue: seq<Message>, router: Router,
                 kicks: seq<string>, pushed: seq<Message>, popped: seq<Popped>): Sys
  {
    Sys(OneUser(hash), map[0 := Session(Live(stage, pingSent), "u", hash("u"))], map[hash("u") := 0],
        queue, router, kicks, pushed, popped)
  }

  function AnySlot(): Slot {
    Slot(Message("", 0, "", "", 0, ""), "")
  }

  lemma PeersAlone(hash: string -> string, s: Sys, newcomer: Option<Sid>)
    requires s.registry == map[hash("u") := 0] && LiveIn(s, 0) && s.sessions[0].uid == hash("u")
    ensures Walk(s, [hash("u")], [AnySlot()])
    ensures Peers(s, [hash("u")], newcomer)
            == [Peer(hash("u"), s.sessions[0].phase.stage.Ready?, s.sessions[0].phase.pingSent, newcomer == Some(0))]
  {
  }

  lemma StepAnnounce(hash: string -> string)
    ensures var s := Alone(hash, Inserted, false, [], Idle, [], [], []);
            var a := Announce(0, [hash("u")], [AnySlot()]);
            Enabled(s, a) && Step(hash, s, a) == Alone(hash, Announced, false, [], Idle, [], [], [])
  {
    var s := Alone(hash, Inserted, false, [], Idle, [], [], []);
    PeersAlone(hash, s, Some(0));
    OnePeer(hash, JoinFan("u"), Peer(hash("u"), false, false, true), AnySlot());
  }

  lemma StepPing(hash: string -> string)
    ensures var s := Alone(hash, Ready, false, [], Idle, [], [], []);
            var a := FanAll(PingFan, [hash("u")], [AnySlot()]);
            var ping := Made(hash, PingFan, hash("u"), AnySlot());
            Enabled(s, a) && Step(hash, s, a) == Alone(hash, Ready, false, [ping], Idle, [], [ping], [])
  {
    var s := Alone(hash, Ready, false, [], Idle, [], [], []);
    PeersAlone(hash, s, None);
    OnePeer(hash, PingFan, Peer(hash("u"), true, false, false), AnySlot());
  }

  function Ping(hash: string -> string): Message {
    Made(hash, PingFan, hash("u"), AnySlot())
  }

  lemma PingIsPing(hash: string -> string)
    requires IsGetHash(hash)
    ensures Ping(hash).recipient == hash("u") && IsServerPing(Ping(hash))
  {
    assert IsHexText(hash("u"));
  }

  /** The ping on its way: popped, and its recipient found. */
  lemma StepFind(hash: string -> string)
    requires IsGetHash(hash)
    ensures var ping := Ping(hash);
            var s := Alone(hash, Ready, false, [ping], Idle, [], [ping], []);
            && Enabled(s, RoutePop)
            && Step(hash, s, RoutePop) == Alone(hash, Ready, false, [], Holding(ping), [], [ping], [])
            && Enabled(Step(hash, s, RoutePop), RouteFind)
            && Step(hash, Step(hash, s, RoutePop), RouteFind)
               == Alone(hash, Ready, false, [], Found(ping, 0), [], [ping], [])
  {
    PingIsPing(hash);
  }

  lemma StepWrite(hash: string -> string)
    requires IsGetHash(hash)
    ensures var ping := Ping(hash);
            var s := Alone(hash, Ready, false, [], Found(ping, 0), [], [ping], []);
            && Enabled(s, RouteWrite)
            && Step(hash, s, RouteWrite) == Alone(hash, Ready, false, [], Wrote(0), [], [ping], [Popped(ping, Some(0))])
  {
    PingIsPing(hash);
  }

  lemma StepKick(hash: string -> string, pushed: seq<Message>, popped: seq<Popped>)
    ensures var s := Alone(hash, Ready, true, [], Idle, [], pushed, popped);
            var a := KickScan([hash("u")], [AnySlot()]);
            var quit := Made(hash, KickFan, hash("u"), AnySlot());
            && Enabled(s, a)
                && Step(hash, s, a) == Alone(hash, Ready, true, [quit], Idle, [hash("u")], pushed + [quit], popped)
            && Enabled(Step(hash, s, a), KickErase)
            && Step(hash, Step(hash, s, a), KickErase)
               == Alone(hash, Ready, true, [quit], Idle, [], pushed + [quit], popped).(registry := map[])
  {
    var s := Alone(hash, Ready, true, [], Idle, [], pushed, popped);
    PeersAlone(hash, s, None);
    OnePeer(hash, KickFan, Peer(hash("u"), true, true, false), AnySlot());
  }

  /** A session that is kicked for not answering keeps running without its entry, so the same user can log
      in again: two live sessions, although no login raced and every hash_map_insert returned 1. */
  lemma KickBreaks(hash: string -> string) returns (r: Run)
    requires IsGetHash(hash)
    ensures r.Ok(hash) && TwoLive(r.Last()) && NoRaces(r.states, r.acts)
    ensures forall i | 0 <= i < |r.acts| && r.acts[i].Insert? && r.acts[i].sid in r.states[i].sessions ::
              InsertResult(r.states[i], r.acts[i].sid) == 1
  {
    var kicked := KickedRun(hash);
    var back := LogIn(hash, kicked, 1);
    ExtendUnhurried(hash, back, Insert(1));
    r := InsertOne(hash, back, 1, 0);
    assert LiveIn(r.Last(), 0) && LiveIn(r.Last(), 1);
    UnmarkedHasNoRaces(hash, r.states, r.acts);
    forall i | 0 <= i < |r.acts| && r.acts[i].Insert? && r.acts[i].sid in r.states[i].sessions
      ensures InsertResult(r.states[i], r.acts[i].sid) == 1
    {
      var c := FindCheck(hash, r.states, r.acts, i, r.acts[i].sid);
      UnracedInsertIsNew(hash, r.states, r.acts, c, i);
    }
  }

  /** A kick by itself breaks nothing: the run up to it never has two live sessions of one uid, although the
      kicked session is no longer the registered one. */
  lemma KickAloneIsSingle(hash: string -> string) returns (r: Run)
    requires IsGetHash(hash)
    ensures r.Ok(hash) && (forall n | 0 <= n < |r.states| :: !TwoLive(r.states[n])) && !Orderly(r.Last())
  {
    r := KickedRun(hash);
    forall n, sid | 0 <= n < |r.states| && sid in r.states[n].sessions ensures sid == 0 {
      SessionsGrow(hash, r.states, r.acts, n, |r.states| - 1, sid);
    }
    assert LiveIn(r.Last(), 0);
  }

  lemma {:induction false} SessionsGrow(hash: string -> string, states: seq<Sys>, acts: seq<Action>, k: nat, n: nat,
                                        sid: Sid)
    requires IsRun(hash, states, acts) && k <= n < |states| && sid in states[k].sessions
    ensures sid in states[n].sessions
  {
    if k < n {
      SessionsGrow(hash, states, acts, k, n - 1, sid);
      assert Next(hash, states[n - 1], acts[n - 1], states[n - 1 + 1]);
    }
  }

  /** One more action. */
  lemma Go(hash: string -> string, r: Run, a: Action) returns (e: Run)
    requires r.Ok(hash) && Unhurried(r) && Enabled(r.Last(), a)
    requires a.Insert? ==> r.Last().sessions[a.sid].phase == LoggedIn(false)
    ensures e.Ok(hash) && Unhurried(e) && e.Last() == Step(hash, r.Last(), a) && e == Extend(hash, r, a)
  {
    ExtendOk(hash, r, a);
    ExtendUnhurried(hash, r, a);
    e := Extend(hash, r, a);
  }

  lemma InsertedRun(hash: string -> string) returns (r: Run)
    ensures r.Ok(hash) && Unhurried(r) && r.Last() == Alone(hash, Inserted, false, [], Idle, [], [], [])
  {
    r := StartOk(hash);
    r := LogIn(hash, r, 0);
    r := Go(hash, r, Insert(0));
  }

  lemma ReadyRun(hash: string -> string) returns (r: Run)
    ensures r.Ok(hash) && Unhurried(r) && r.Last() == Alone(hash, Ready, false, [], Idle, [], [], [])
  {
    r := InsertedRun(hash);
    StepAnnounce(hash);
    r := Go(hash, r, Announce(0, [hash("u")], [AnySlot()]));
    r := Go(hash, r, BecomeReady(0));
  }

  /** "u" is served, and the router has found its connection for a ping. */
  lemma FoundRun(hash: string -> string) returns (r: Run)
    requires IsGetHash(hash)
    ensures r.Ok(hash) && Unhurried(r)
    ensures r.Last() == Alone(hash, Ready, false, [], Found(Ping(hash), 0), [], [Ping(hash)], [])
  {
    r := ReadyRun(hash);
    StepPing(hash);
    r := Go(hash, r, FanAll(PingFan, [hash("u")], [AnySlot()]));
    StepFind(hash);
    r := Go(hash, r, RoutePop);
    r := Go(hash, r, RouteFind);
  }

  /** The ping has been written in the last action. */
  lemma WrittenRun(hash: string -> string) returns (r: Run)
    requires IsGetHash(hash)
    ensures r.Ok(hash) && Unhurried(r) && r.acts != []
    ensures r.Last() == Alone(hash, Ready, false, [], Wrote(0), [], [Ping(hash)], [Popped(Ping(hash), Some(0))])
    ensures Pings(r.states[|r.acts| - 1], r.acts[|r.acts| - 1], 0)
  {
    r := FoundRun(hash);
    StepWrite(hash);
    PingIsPing(hash);
    r := Go(hash, r, RouteWrite);
  }

  /** The pinged session before and after the mark. */
  function Written(hash: string -> string): Sys {
    Alone(hash, Ready, false, [], Wrote(0), [], [Ping(hash)], [Popped(Ping(hash), Some(0))])
  }

  function Marked(hash: string -> string): Sys {
    Alone(hash, Ready, true, [], Idle, [], [Ping(hash)], [Popped(Ping(hash), Some(0))])
  }

  lemma StepMark(hash: string -> string)
    ensures Enabled(Written(hash), RouteMark) && Step(hash, Written(hash), RouteMark) == Marked(hash)
  {
  }

  function Answer(): Message {
    Message("", ACK, "", SERVER, 3, "ACK")
  }

  lemma StepAnswer(hash: string -> string)
    ensures Enabled(Written(hash), Receive(0, Answer()))
            && Step(hash, Written(hash), Receive(0, Answer())) == Written(hash)
  {
  }

  function Scan(hash: string -> string): Action {
    KickScan([hash("u")], [AnySlot()])
  }

  /** The marked session is collected by the next scan. */
  lemma ScanRun(hash: string -> string, r: Run) returns (e: Run)
    requires r.Ok(hash) && Unhurried(r) && r.Last() == Marked(hash)
    ensures e.Ok(hash) && Unhurried(e) && Enabled(r.Last(), Scan(hash)) && e == Extend(hash, r, Scan(hash))
    ensures e.Last().kicks == [hash("u")] && e.Last().users == OneUser(hash)
    ensures e.Last().registry == map[hash("u") := 0] && e.Last().sessions == Marked(hash).sessions
  {
    StepKick(hash, r.Last().pushed, r.Last().popped);
    e := Go(hash, r, Scan(hash));
  }

  lemma KickedRun(hash: string -> string) returns (r: Run)
    requires IsGetHash(hash)
    ensures r.Ok(hash) && Unhurried(r)
    ensures r.Last().users == OneUser(hash) && r.Last().registry == map[]
    ensures r.Last().sessions == map[0 := Session(Live(Ready, true), "u", hash("u"))]
  {
    r := WrittenRun(hash);
    StepMark(hash);
    r := Go(hash, r, RouteMark);
    r := ScanRun(hash, r);
    r := Go(hash, r, KickErase);
  }

  /** A session that answers between the write of its ping and the mark is kicked all the same: `w` writes it
      the ping, an answer follows, and the last action collects its uid. */
  lemma AnsweredButKicked(hash: string -> string) returns (r: Run, w: nat)
    requires IsGetHash(hash)
    ensures r.Ok(hash) && r.acts != [] && r.acts[|r.acts| - 1].KickScan?
    ensures w < |r.acts| && Pings(r.states[w], r.acts[w], 0) && Answers(r.acts, w, |r.acts| - 1, 0)
    ensures r.Last().kicks == [hash("u")] && r.states[|r.acts| - 1].kicks == []
    ensures r.Last().registry == map[hash("u") := 0] && LiveIn(r.Last(), 0)
  {
    var pinged, answered, marked := AnsweredRun(hash);
    w := |pinged.acts| - 1;
    r := ScanRun(hash, marked);
    StillThere(hash, pinged, answered, marked, r);
  }

  /** The ping is written, answered, and only then marked. */
  lemma AnsweredRun(hash: string -> string) returns (pinged: Run, answered: Run, marked: Run)
    requires IsGetHash(hash)
    ensures |pinged.states| == |pinged.acts| + 1 && pinged.acts != []
    ensures Pings(pinged.states[|pinged.acts| - 1], pinged.acts[|pinged.acts| - 1], 0)
    ensures |answered.states| == |answered.acts| + 1 && pinged.states <= answered.states
    ensures answered.acts == pinged.acts + [Receive(0, Answer())]
    ensures |marked.states| == |marked.acts| + 1 && |marked.acts| == |answered.acts| + 1
    ensures answered.states <= marked.states && answered.acts <= marked.acts
    ensures marked.Ok(hash) && Unhurried(marked) && marked.Last() == Marked(hash)
  {
    pinged := WrittenRun(hash);
    StepAnswer(hash);
    answered := Go(hash, pinged, Receive(0, Answer()));
    StepMark(hash);
    marked := Go(hash, answered, RouteMark);
  }

  /** Extending a run keeps what it has, and the answer is where it was put. */
  lemma StillThere(hash: string -> string, pinged: Run, answered: Run, marked: Run, r: Run)
    requires |pinged.states| == |pinged.acts| + 1 && pinged.acts != []
    requires |answered.states| == |answered.acts| + 1 && answered.acts == pinged.acts + [Receive(0, Answer())]
    requires |marked.states| == |marked.acts| + 1 && |marked.acts| == |answered.acts| + 1
    requires pinged.states <= answered.states <= marked.states <= r.states
    requires answered.acts <= marked.acts <= r.acts && |r.acts| == |marked.acts| + 1
    ensures var w := |pinged.acts| - 1;
            r.states[w] == pinged.states[w] && r.acts[w] == pinged.acts[w] && Answers(r.acts, w, |r.acts| - 1, 0)
  {
    var w := |pinged.acts| - 1;
    assert r.acts[w + 1] == answered.acts[w + 1] == Receive(0, Answer());
    assert Acks(r.acts[w + 1], 0);
  }

  /** The thread of the recipient ends between the lookup and the write: the last action writes to a connection
      that is nobody's any more. */
  lemma WriteAfterEnd(hash: string -> string) returns (r: Run)
    requires IsGetHash(hash)
    ensures r.Ok(hash) && r.acts != [] && r.acts[|r.acts| - 1].RouteWrite?
    ensures r.Last().popped == [Popped(Ping(hash), Some(0))]
    ensures 0 in r.Last().sessions && r.Last().sessions[0].phase.Ended?
            && r.states[|r.acts| - 1].sessions == r.Last().sessions
  {
    r := FoundRun(hash);
    r := Go(hash, r, Disconnect(0));
    r := Go(hash, r, RouteWrite);
  }
}
