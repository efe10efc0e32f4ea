/** What the clients of the server are told during authentication, taken from what goes out over the sockets. */
module ServerTalk {
  import opened Protocol
  import opened AuthDialogue
  import opened ChatSystem
  import opened ChatDialogues
  import opened Server

  /** The messages of user_auth among what is written, to one thread's client. */
  function ToldTo(written: seq<Written>, sid: Sid): seq<Out> {
    if written == [] then []
    else
      var last := written[|written| - 1];
      ToldTo(written[..|written| - 1], sid) + if last.to == sid && last.wire.Told? then [last.wire.out] else []
  }

  function AllToldTo(written: seq<seq<Written>>, sid: Sid): seq<Out> {
    if written == [] then []
    else AllToldTo(written[..|written| - 1], sid) + ToldTo(written[|written| - 1], sid)
  }

  lemma {:induction false} ToldToOf(to: Sid, outs: seq<Out>, sid: Sid)
    ensures ToldTo(ToldAll(to, outs), sid) == if to == sid then outs else []
  {
    if outs != [] {
      var n := |outs| - 1;
      assert ToldAll(to, outs)[..n] == ToldAll(to, outs[..n]);
      ToldToOf(to, outs[..n], sid);
      assert outs == outs[..n] + [outs[n]];
    }
  }

  /** The output of a command holds what user_auth sends in its action. */
  lemma {:induction false} OutputTells(hash: string -> string, c: Command, s: Sys, a: Action, sid: Sid)
    requires Enabled(s, a)
    ensures ToldTo(Output(hash, c, s, a), sid) == ToldIn(hash, s, a, sid)
  {
    if a.Connect? {
      ToldToOf(a.sid, Opening(0), sid);
    } else if a.AuthRead? {
      ToldToOf(a.sid, Resume(hash, s.sessions[a.sid].phase.auth, WakeAt(s, a)).sent, sid);
    }
  }

  /** The reads of the thread in the actions that a log came to. */
  ghost function LogHeard(log: Log, sid: Sid): seq<Wake>
    requires |log.trail| == |log.outcomes| + 1
  {
    Heard(Visited(log.trail, log.outcomes), Actions(log.outcomes), |Actions(log.outcomes)|, sid)
  }

  lemma {:induction false} HeardInPrefix(states: seq<Sys>, acts: seq<Action>, s: Sys, a: Action, n: nat, sid: Sid)
    requires |states| == |acts| + 1 && n <= |acts|
    ensures Heard(states + [s], acts + [a], n, sid) == Heard(states, acts, n, sid)
  {
    if n > 0 {
      HeardInPrefix(states, acts, s, a, n - 1, sid);
    }
  }

  lemma {:induction false} HeardSnoc(states: seq<Sys>, acts: seq<Action>, s: Sys, a: Action, sid: Sid)
    requires |states| == |acts| + 1
    ensures Heard(states + [s], acts + [a], |acts| + 1, sid)
         == Heard(states, acts, |acts|, sid) + if ReadBy(a, sid) then [WakeAt(states[|acts|], a)] else []
  {
    HeardInPrefix(states, acts, s, a, |acts|, sid);
  }

  lemma {:induction false} LogHeardSnoc(before: Log, log: Log, n: nat, sid: Sid)
    requires |log.trail| == |log.outcomes| + 1 == n + 2 && before == Log(log.trail[..n + 1], log.outcomes[..n])
    requires Visited(before.trail, before.outcomes)[|Actions(before.outcomes)|] == log.trail[n]
    ensures LogHeard(log, sid)
         == LogHeard(before, sid) + if log.outcomes[n].Some? && ReadBy(log.outcomes[n].value, sid)
                                    then [WakeAt(log.trail[n], log.outcomes[n].value)] else []
  {
    var states, acts := Visited(before.trail, before.outcomes), Actions(before.outcomes);
    if log.outcomes[n].Some? {
      HeardSnoc(states, acts, log.trail[n + 1], log.outcomes[n].value, sid);
    } else {
      assert Visited(log.trail, log.outcomes) == states && Actions(log.outcomes) == acts;
    }
  }

  lemma {:induction false} LogGoesOn(hash: string -> string, c: Command, before: Log, log: Log, n: nat,
                                     output: seq<Written>, sid: Sid, told: seq<Out>)
    requires |log.trail| == |log.outcomes| + 1 == n + 2 && before == Log(log.trail[..n + 1], log.outcomes[..n])
    requires Visited(before.trail, before.outcomes)[|Actions(before.outcomes)|] == log.trail[n]
    requires InDialogue(hash, log.trail[n], sid, LogHeard(before, sid), told)
    requires Carried(hash, c, log.trail[n], log.outcomes[n], output, log.trail[n + 1])
    ensures InDialogue(hash, log.trail[n + 1], sid, LogHeard(log, sid), told + ToldTo(output, sid))
  {
    LogHeardSnoc(before, log, n, sid);
    var script := LogHeard(before, sid);
    if log.outcomes[n].Some? {
      var a := log.outcomes[n].value;
      InDialogueStep(hash, log.trail[n], a, sid, script, told);
      OutputTells(hash, c, log.trail[n], a, sid);
    } else {
      assert script + [] == script && told + [] == told;
    }
  }

  /** Whatever the commands, what has gone out over a thread's socket during authentication is what the dialogue over
      the reads of that thread sends, and the thread stands where that dialogue does. */
  lemma {:induction false} SocketTellsDialogue(hash: string -> string, commands: seq<Command>,
                                               written: seq<seq<Written>>, log: Log, sid: Sid)
    requires Logged(hash, commands, written, log)
    ensures InDialogue(hash, log.trail[|commands|], sid, LogHeard(log, sid), AllToldTo(written, sid))
    decreases |commands|
  {
    if commands != [] {
      var n := |commands| - 1;
      var before := Log(log.trail[..n + 1], log.outcomes[..n]);
      LogPrefix(hash, commands, written, log, n);
      SocketTellsDialogue(hash, commands[..n], written[..n], before, sid);
      LogIsRun(hash, commands[..n], written[..n], before);
      assert Carried(hash, commands[n], log.trail[n], log.outcomes[n], written[n], log.trail[n + 1]);
      LogGoesOn(hash, commands[n], before, log, n, written[n], sid, AllToldTo(written[..n], sid));
    }
  }

  /** Whatever frame `m` is in, everybody who parses it gets `m` if that was well-formed. */
  ghost predicate Frames(frame: string, m: Message) {
    m.Fits() && m.WellFormed() ==> forall prior, junk :: ParseMessage(prior, frame + junk) == m
  }

  /** Besides the messages of user_auth, exactly two things go out: the answer to a client's ping, to that client, and
      what the router writes, as a frame, to the connection that it holds. */
  lemma {:induction false} SocketForwards(hash: string -> string, commands: seq<Command>, written: seq<seq<Written>>,
                                          log: Log, i: nat)
    requires Logged(hash, commands, written, log) && i < |commands|
    requires log.outcomes[i].Some? && !log.outcomes[i].value.Connect? && !log.outcomes[i].value.AuthRead?
    ensures var s, a := log.trail[i], log.outcomes[i].value;
            if a.Receive? && a.message.kind == 1241 then
              && commands[i].Frame?
              && written[i] == [Written(a.sid, Answered(CreateMessage(hash, commands[i].stamp, 1242, "server",
                                                                      a.message.sender, "ACK")))]
            else if a.RouteWrite? then
              && s.router.Found? && |written[i]| == 1 && written[i][0].to == s.router.to
              && written[i][0].wire.Forwarded? && Frames(written[i][0].wire.frame, s.router.message)
            else written[i] == []
  {
    assert Carried(hash, commands[i], log.trail[i], log.outcomes[i], written[i], log.trail[i + 1]);
    var s, a := log.trail[i], log.outcomes[i].value;
    if a.RouteWrite? && s.router.message.Fits() && s.router.message.WellFormed() {
      forall prior, junk ensures ParseMessage(prior, Encode(s.router.message) + junk) == s.router.message {
        RoundTrip(s.router.message, prior, junk);
      }
    }
  }
}
