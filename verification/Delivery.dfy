/** What the messages of the server's callbacks (server/src/server.c) do at the client they are for
    (client/src/client_msg_handler.c), and what its answer does at the server. */
module Delivery {
  import opened Text
  import opened Hashing
  import opened Protocol
  import opened ClientSide
  import opened Fanout
  import opened ChatSystem

  /** A text that neither ends a C string nor a scan. */
  predicate Plain(fan: Fan) {
    match fan
    case JoinFan(username) => NUL !in username && NEWLINE !in username
    case BroadcastFan(text) => NUL !in text && NEWLINE !in text
    case _ => true
  }

  /** The client that a connection was registered for, after its login. */
  predicate LoggedInAs(c: State, uid: string) {
    c.flags.authenticated && c.uid == uid
  }

  /** What a callback makes for the uid of a connection is what the client there parses, whatever its storage and its
      buffer hold, and it is taken as addressed to it. */
  lemma {:induction false} AnnouncementArrives(hash: string -> string, fan: Fan, uid: string, slot: Slot, c: State,
                                               prior: Message, junk: string)
    requires IsGetHash(hash) && IsHexText(uid) && Sendable(fan) && Plain(fan) && LoggedInAs(c, uid)
    ensures var m := ParseMessage(prior, Encode(Made(hash, fan, uid, slot)) + junk);
            m == Made(hash, fan, uid, slot) && Announces(m, fan, uid) && Addressed(c, m)
  {
    var m := Made(hash, fan, uid, slot);
    MadeExact(hash, fan, uid, slot);
    assert IsHexText(m.messageUid);
    assert BAR !in uid && NUL !in uid;
    RoundTrip(m, prior, junk);
  }

  /** The client's answer to a ping, as the server parses it. */
  lemma {:induction false} AnswerArrives(hash: string -> string, stamp: string, uid: string, prior: Message,
                                         junk: string)
    requires IsGetHash(hash) && IsHexText(uid)
    ensures var answer := CreateMessage(hash, stamp, 1242, uid, "server", "ACK");
            answer.Created? && var m := ParseMessage(prior, Encode(answer.message) + junk);
            m.kind == 1242 && m.sender == uid
  {
    var answer := CreateMessage(hash, stamp, 1242, uid, "server", "ACK").message;
    assert IsHexText(answer.messageUid);
    assert BAR !in uid && NUL !in uid;
    RoundTrip(answer, prior, junk);
  }

  lemma AckClears(hash: string -> string, s: Sys, sid: Sid, m: Message)
    requires Is(s, sid, Ready) && m.kind == 1242
    ensures var a := Action.Receive(sid, m);
            && Enabled(s, a) && sid in Step(hash, s, a).sessions
            && Step(hash, s, a).sessions[sid].phase == Live(Ready, false)
  {
  }

  /** A ping comes full circle: the client leaves its state alone, and its answer, whenever it is created and whatever
      it is parsed into, clears the flag that the ping was marked with. */
  lemma {:induction false} PingComesBack(hash: string -> string, uid: string, slot: Slot, c: State, prior: Message,
                                         junk: string, stamp: string, prior': Message, junk': string, s: Sys,
                                         sid: Sid)
    requires IsGetHash(hash) && IsHexText(uid) && LoggedInAs(c, uid) && Is(s, sid, Ready)
    ensures var ping := ParseMessage(prior, Encode(Made(hash, PingFan, uid, slot)) + junk);
            ping.kind == 1241 && ping.sender == "server" && ping.payload == "PING" && Handle(c, ping) == c
    ensures var answer := CreateMessage(hash, stamp, 1242, c.uid, "server", "ACK");
            && answer.Created?
            && var a := Action.Receive(sid, ParseMessage(prior', Encode(answer.message) + junk'));
            && Enabled(s, a) && sid in Step(hash, s, a).sessions
            && Step(hash, s, a).sessions[sid].phase == Live(Ready, false)
  {
    AnnouncementArrives(hash, PingFan, uid, slot, c, prior, junk);
    HandledByNumber(c, Made(hash, PingFan, uid, slot));
    AnswerArrives(hash, stamp, uid, prior', junk');
    var answer := CreateMessage(hash, stamp, 1242, uid, "server", "ACK");
    AckClears(hash, s, sid, ParseMessage(prior', Encode(answer.message) + junk'));
  }

  /** The signal to quit that the server sends, to kick one user or all, moves no client whatever: handle_message
      leaves the state as it was. */
  lemma {:induction false} QuitIsIgnored(hash: string -> string, fan: Fan, uid: string, slot: Slot, c: State,
                                         prior: Message, junk: string)
    requires IsGetHash(hash) && IsHexText(uid) && (fan.QuitFan? || fan.KickFan?)
    ensures var m := ParseMessage(prior, Encode(Made(hash, fan, uid, slot)) + junk);
            m.kind == 1243 && m.payload == "QUIT" && m.sender == "server" && Handle(c, m) == c
  {
    var m := Made(hash, fan, uid, slot);
    MadeExact(hash, fan, uid, slot);
    assert IsHexText(m.messageUid);
    assert BAR !in uid && NUL !in uid;
    RoundTrip(m, prior, junk);
    HandledByNumber(c, m);
  }

  /** The same signal from anybody else ends every client that takes it as addressed to it. */
  lemma QuitOfOthers(c: State, m: Message)
    requires m.kind == 1243 && m.sender != "server" && m.payload in {"QUIT", "EXIT"}
    ensures Handle(c, m) == if Addressed(c, m) then c.(reconnect := false, quit := true) else c
  {
    HandledByNumber(c, m);
  }
}
