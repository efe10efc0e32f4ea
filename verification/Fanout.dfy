/** The messages that the server's map callbacks create: join, broadcast, ping and quit
    (server/src/server.c). */
module Fanout {
  import opened Protocol

  /** What a callback knows about a registered connection. */
  datatype Peer = Peer(uid: string, ready: bool, pinged: bool, newcomer: bool)

  /** The storage and the clock that one create_message call meets. */
  datatype Slot = Slot(prior: Message, stamp: string)

  datatype Fan = JoinFan(username: string) | BroadcastFan(text: string) | PingFan | QuitFan | KickFan
  {
    function Kind(): Int32 {
      match this
      case JoinFan(_) => USER_JOIN
      case BroadcastFan(_) => TEXT
      case PingFan => PING
      case _ => SIGNAL
    }

    function Payload(): string {
      match this
      case JoinFan(username) => username
      case BroadcastFan(text) => text
      case PingFan => "PING"
      case _ => SIGNAL_QUIT
    }

    /** The test at the head of the callback. */
    predicate Wants(p: Peer) {
      match this
      case JoinFan(_) => p.ready && !p.newcomer
      case KickFan => p.ready && p.pinged
      case _ => p.ready
    }
  }

  /** The message that one callback pushes. */
  function Made(hash: string -> string, fan: Fan, uid: string, slot: Slot): Message {
    Filled(slot.prior, CreateMessage(hash, slot.stamp, fan.Kind(), SERVER, uid, fan.Payload()))
  }

  /** What a walk over `peers` pushes, in order. */
  function FanOut(hash: string -> string, fan: Fan, peers: seq<Peer>, slots: seq<Slot>): seq<Message>
    requires |slots| == |peers|
  {
    if peers == [] then []
    else
      var n := |peers| - 1;
      FanOut(hash, fan, peers[..n], slots[..n])
      + if fan.Wants(peers[n]) then [Made(hash, fan, peers[n].uid, slots[n])] else []
  }

  /** The uids of the peers that a fan-out is for, in order. */
  function Wanted(fan: Fan, peers: seq<Peer>): seq<string> {
    if peers == [] then []
    else
      var n := |peers| - 1;
      Wanted(fan, peers[..n]) + if fan.Wants(peers[n]) then [peers[n].uid] else []
  }

  predicate Distinct<T(==)>(s: seq<T>) {
    forall i, j | 0 <= i < j < |s| :: s[i] != s[j]
  }

  predicate DistinctUids(peers: seq<Peer>) {
    forall i, j | 0 <= i < j < |peers| :: peers[i].uid != peers[j].uid
  }

  lemma {:induction false} WantedExact(fan: Fan, peers: seq<Peer>)
    ensures forall u ::
              u in Wanted(fan, peers) <==> exists i | 0 <= i < |peers| :: peers[i].uid == u && fan.Wants(peers[i])
    ensures DistinctUids(peers) ==> Distinct(Wanted(fan, peers))
  {
    if peers != [] {
      var n := |peers| - 1;
      WantedExact(fan, peers[..n]);
      assert peers == peers[..n] + [peers[n]];
      if DistinctUids(peers) {
        assert peers[n].uid !in Wanted(fan, peers[..n]);
      }
    }
  }

  lemma {:induction false} OnePeer(hash: string -> string, fan: Fan, p: Peer, slot: Slot)
    ensures FanOut(hash, fan, [p], [slot]) == if fan.Wants(p) then [Made(hash, fan, p.uid, slot)] else []
    ensures Wanted(fan, [p]) == if fan.Wants(p) then [p.uid] else []
  {
    assert [p][..0] == [] && [slot][..0] == [];
  }

  predicate AddressablePeers(peers: seq<Peer>) {
    forall i | 0 <= i < |peers| :: |peers[i].uid| <= 128
  }

  /** The message that a fan-out is meant to push for `uid`: the newcomer's name, the broadcast text, a ping or a
      signal to quit, from the server. */
  predicate Announces(m: Message, fan: Fan, uid: string) {
    m.recipient == uid && m.sender == "server" &&
    match fan
    case JoinFan(username) => m.kind == 1248 && m.payload == username
    case BroadcastFan(text) => m.kind == 1234 && m.payload == text
    case PingFan => m.kind == 1241 && m.payload == "PING"
    case _ => m.kind == 1243 && m.payload == "QUIT"
  }

  /** Its text has between 1 and 2047 characters. */
  predicate Sendable(fan: Fan) {
    match fan
    case JoinFan(username) => 1 <= |username| <= 2047
    case BroadcastFan(text) => 1 <= |text| <= 2047
    case _ => true
  }

  /** What becomes of a text that is too long or empty: the last of 2048 characters is cut off, and otherwise the
      storage of the callback is pushed. */
  predicate Spoilt(m: Message, text: string, uid: string, slot: Slot) {
    && (|text| == 2048 ==> m.recipient == uid && m.sender == "server" && m.payload == text[..2047])
    && (text == "" || |text| > 2048 ==> m == slot.prior)
  }

  /** What one callback pushes for each length of the text. */
  lemma MadeExact(hash: string -> string, fan: Fan, uid: string, slot: Slot)
    requires |uid| <= 128
    ensures Sendable(fan) ==> Announces(Made(hash, fan, uid, slot), fan, uid)
    ensures fan.JoinFan? ==> Spoilt(Made(hash, fan, uid, slot), fan.username, uid, slot)
    ensures fan.BroadcastFan? ==> Spoilt(Made(hash, fan, uid, slot), fan.text, uid, slot)
  {
  }

  /** A walk pushes exactly one message for each connection the fan-out is for, in the order of the walk, and
      none besides, for every text. */
  lemma {:induction false} FanOutCounts(hash: string -> string, fan: Fan, peers: seq<Peer>, slots: seq<Slot>)
    requires |slots| == |peers|
    ensures |FanOut(hash, fan, peers, slots)| == |Wanted(fan, peers)|
  {
    if peers != [] {
      var n := |peers| - 1;
      FanOutCounts(hash, fan, peers[..n], slots[..n]);
    }
  }

  lemma {:induction false} SendableFanOut(hash: string -> string, fan: Fan, peers: seq<Peer>, slots: seq<Slot>)
    requires |slots| == |peers| && AddressablePeers(peers) && Sendable(fan)
    ensures |FanOut(hash, fan, peers, slots)| == |Wanted(fan, peers)|
    ensures forall i | 0 <= i < |Wanted(fan, peers)| ::
              Announces(FanOut(hash, fan, peers, slots)[i], fan, Wanted(fan, peers)[i])
  {
    if peers != [] {
      var n := |peers| - 1;
      SendableFanOut(hash, fan, peers[..n], slots[..n]);
      MadeExact(hash, fan, peers[n].uid, slots[n]);
    }
  }

  /** Every message of the walk is what the fan-out was for. */
  predicate AllAnnounced(hash: string -> string, fan: Fan, peers: seq<Peer>, slots: seq<Slot>)
    requires |slots| == |peers|
  {
    var sent, wanted := FanOut(hash, fan, peers, slots), Wanted(fan, peers);
    |sent| == |wanted| && forall i | 0 <= i < |sent| :: Announces(sent[i], fan, wanted[i])
  }

  /** Storage whose content is no message of the server. */
  function ForeignSlots(n: nat): (slots: seq<Slot>)
    ensures |slots| == n
  {
    seq(n, _ => Slot(Message("", 0, "", "", 0, ""), ""))
  }

  lemma {:induction false} UnsendableFanOut(hash: string -> string, fan: Fan, peers: seq<Peer>)
    requires AddressablePeers(peers) && !Sendable(fan) && Wanted(fan, peers) != []
    ensures !AllAnnounced(hash, fan, peers, ForeignSlots(|peers|))
  {
    var slots, n := ForeignSlots(|peers|), |peers| - 1;
    FanOutCounts(hash, fan, peers, slots);
    assert ForeignSlots(n) == slots[..n];
    if fan.Wants(peers[n]) {
      MadeExact(hash, fan, peers[n].uid, slots[n]);
      var sent, wanted := FanOut(hash, fan, peers, slots), Wanted(fan, peers);
      assert sent[|sent| - 1] == Made(hash, fan, peers[n].uid, slots[n]);
      assert !Announces(sent[|sent| - 1], fan, wanted[|wanted| - 1]);
    } else {
      UnsendableFanOut(hash, fan, peers[..n]);
      assert FanOut(hash, fan, peers, slots) == FanOut(hash, fan, peers[..n], slots[..n]);
      assert Wanted(fan, peers) == Wanted(fan, peers[..n]);
    }
  }

  /** A fan-out that is for anybody pushes the intended messages, whatever the callbacks' storage held, exactly
      when its text has between 1 and 2047 characters. */
  lemma {:induction false} FanOutExact(hash: string -> string, fan: Fan, peers: seq<Peer>)
    requires AddressablePeers(peers) && Wanted(fan, peers) != []
    ensures Sendable(fan) <==> forall slots | |slots| == |peers| :: AllAnnounced(hash, fan, peers, slots)
  {
    if Sendable(fan) {
      forall slots | |slots| == |peers| ensures AllAnnounced(hash, fan, peers, slots) {
        SendableFanOut(hash, fan, peers, slots);
      }
    } else {
      UnsendableFanOut(hash, fan, peers);
    }
  }
}
