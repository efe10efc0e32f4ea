/** The server's operations on the linked registry and the linked queue (server/src/server.c). */
module ChatServers {
  import opened Text
  import opened Protocol
  import opened HashMaps
  import opened StsQueues
  import opened Fanout

  /** What a callback sees of a visited connection; `newCl` is the argument of send_join_message. */
  ghost function PeerAt(cl: ClientConnection, newCl: ClientConnection?): Peer
    requires cl.uid.Some?
    reads cl
  {
    Peer(cl.uid.value, cl.isReady, cl.pingSent, cl == newCl)
  }

  ghost function PeersAt(visited: seq<ClientConnection>, newCl: ClientConnection?): (peers: seq<Peer>)
    requires Keyed(visited)
    reads visited
    ensures |peers| == |visited|
    ensures forall i | 0 <= i < |visited| :: peers[i] == PeerAt(visited[i], newCl)
  {
    seq(|visited|, i requires 0 <= i < |visited| && visited[i].uid.Some? reads visited => PeerAt(visited[i], newCl))
  }

  /** The storage and clock of `n` callbacks. */
  ghost function SlotsUpTo(slots: nat -> Slot, n: nat): (s: seq<Slot>)
    ensures |s| == n && forall i | 0 <= i < n :: s[i] == slots(i)
  {
    seq(n, i requires 0 <= i < n => slots(i))
  }

  lemma {:induction false} FanOutSnoc(hash: string -> string, fan: Fan, peers: seq<Peer>, slots: nat -> Slot, i: nat)
    requires i < |peers|
    ensures FanOut(hash, fan, peers[..i + 1], SlotsUpTo(slots, i + 1))
            == FanOut(hash, fan, peers[..i], SlotsUpTo(slots, i))
               + if fan.Wants(peers[i]) then [Made(hash, fan, peers[i].uid, slots(i))] else []
  {
    assert peers[..i + 1][..i] == peers[..i] && SlotsUpTo(slots, i + 1)[..i] == SlotsUpTo(slots, i);
  }

  /** send_ping, send_quit_signal, send_broadcast and send_join_message. */
  method Callback(hash: string -> string, queue: StsQueue<Message>, fan: Fan, cl: ClientConnection,
                  newCl: ClientConnection?, slot: Slot)
    requires queue.Valid() && cl.uid.Some?
    modifies queue.Repr
    ensures queue.Valid() && fresh(queue.Repr - old(queue.Repr))
    ensures queue.Contents == old(queue.Contents)
            + if fan.Wants(old(PeerAt(cl, newCl))) then [Made(hash, fan, cl.uid.value, slot)] else []
  {
    if fan.Wants(Peer(cl.uid.value, cl.isReady, cl.pingSent, cl == newCl)) {
      queue.Push(Made(hash, fan, cl.uid.value, slot));
    }
  }

  /** The callbacks of the first `i` connections are done: nothing but the queue has changed. */
  ghost predicate Called(hash: string -> string, queue: StsQueue<Message>, fan: Fan, newCl: ClientConnection?,
                         slots: nat -> Slot, visited: seq<ClientConnection>, i: nat, peers: seq<Peer>,
                         before: seq<Message>)
    reads queue, queue.Repr, visited
  {
    && queue.Valid() && Keyed(visited) && i <= |visited| == |peers|
    && (forall k | 0 <= k < |visited| :: visited[k] !in queue.Repr && PeerAt(visited[k], newCl) == peers[k])
    && queue.Contents == before + FanOut(hash, fan, peers[..i], SlotsUpTo(slots, i))
  }

  /** The callback on one of the connections. */
  method CallNext(hash: string -> string, queue: StsQueue<Message>, fan: Fan, newCl: ClientConnection?,
                  slots: nat -> Slot, visited: seq<ClientConnection>, i: nat, ghost peers: seq<Peer>,
                  ghost before: seq<Message>)
    requires Called(hash, queue, fan, newCl, slots, visited, i, peers, before) && i < |visited|
    modifies queue.Repr
    ensures fresh(queue.Repr - old(queue.Repr))
    ensures Called(hash, queue, fan, newCl, slots, visited, i + 1, peers, before)
  {
    FanOutSnoc(hash, fan, peers, slots, i);
    assert PeerAt(visited[i], newCl) == peers[i];
    Callback(hash, queue, fan, visited[i], newCl, slots(i));
    forall k | 0 <= k < |visited| ensures visited[k] !in queue.Repr && PeerAt(visited[k], newCl) == peers[k] {
      assert visited[k] !in old(queue.Repr);
    }
  }

  /** The callback on each of the given connections. */
  method CallAll(hash: string -> string, queue: StsQueue<Message>, fan: Fan, newCl: ClientConnection?,
                 slots: nat -> Slot, visited: seq<ClientConnection>)
    requires queue.Valid() && Keyed(visited) && forall i | 0 <= i < |visited| :: visited[i] !in queue.Repr
    modifies queue.Repr
    ensures queue.Valid() && fresh(queue.Repr - old(queue.Repr))
    ensures queue.Contents == old(queue.Contents)
            + FanOut(hash, fan, PeersAt(visited, newCl), SlotsUpTo(slots, |visited|))
  {
    ghost var peers := PeersAt(visited, newCl);
    for i := 0 to |visited|
      invariant fresh(queue.Repr - old(queue.Repr))
      invariant Called(hash, queue, fan, newCl, slots, visited, i, peers, old(queue.Contents))
    {
      CallNext(hash, queue, fan, newCl, slots, visited, i, peers, old(queue.Contents));
    }
    assert peers[..|visited|] == peers;
  }

  /** The registry and the queue share no object with each other or with a registered connection. */
  ghost predicate Apart(clientMap: HashMap, queue: StsQueue<Message>)
    reads clientMap, queue
  {
    && clientMap.Repr !! queue.Repr
    && forall u | u in clientMap.Entries :: Outside(clientMap.Entries[u], clientMap, queue)
  }

  /** A connection with a request that is not a part of the two structures. */
  ghost predicate Outside(cl: ClientConnection, clientMap: HashMap, queue: StsQueue<Message>)
    reads clientMap, queue
  {
    cl.hasReq && cl !in clientMap.Repr && cl !in queue.Repr
  }

  lemma VisitedOutside(clientMap: HashMap, queue: StsQueue<Message>, visited: seq<ClientConnection>)
    requires Apart(clientMap, queue) && Enumerates(visited, clientMap.Entries)
    ensures forall i | 0 <= i < |visited| :: visited[i] !in queue.Repr && visited[i] !in clientMap.Repr
  {
    forall i | 0 <= i < |visited| ensures Outside(visited[i], clientMap, queue) {
      assert clientMap.Entries[visited[i].uid.value] == visited[i];
    }
  }

  /** hash_map_iterate and hash_map_iterate2 with one of the callbacks. */
  method Iterate(hash: string -> string, clientMap: HashMap, queue: StsQueue<Message>, fan: Fan,
                 newCl: ClientConnection?, slots: nat -> Slot)
    returns (visited: seq<ClientConnection>)
    requires clientMap.Valid() && queue.Valid() && Apart(clientMap, queue)
    modifies queue.Repr
    ensures queue.Valid() && fresh(queue.Repr - old(queue.Repr))
    ensures Enumerates(visited, clientMap.Entries)
    ensures queue.Contents == old(queue.Contents)
            + FanOut(hash, fan, PeersAt(visited, newCl), SlotsUpTo(slots, |visited|))
  {
    visited := clientMap.Iterate();
    VisitedOutside(clientMap, queue, visited);
    CallAll(hash, queue, fan, newCl, slots, visited);
  }

  /** hash_map_find in handle_msg_queue: who is registered under the recipient, if anybody. */
  method LookUp(clientMap: HashMap, recipient: string) returns (to: ClientConnection?)
    requires clientMap.Valid() && forall u | u in clientMap.Entries :: clientMap.Entries[u].hasReq
    ensures to == if recipient in clientMap.Entries then clientMap.Entries[recipient] else null
  {
    var found;
    found, to := clientMap.Find(recipient);
  }

  /** One message in the read loop of handle_client; `reply` is the direct answer to a ping. */
  method HandleReceived(hash: string -> string, stamp: string, queue: StsQueue<Message>, cl: ClientConnection,
                        msg: Message)
    returns (reply: Option<Creation>)
    requires queue.Valid() && cl !in queue.Repr
    modifies queue.Repr, cl`pingSent
    ensures queue.Valid() && fresh(queue.Repr - old(queue.Repr))
    ensures queue.Contents == old(queue.Contents) + if msg.kind == PING || msg.kind == ACK then [] else [msg]
    ensures cl.pingSent == (old(cl.pingSent) && msg.kind != ACK)
    ensures reply == if msg.kind == PING then Some(CreateMessage(hash, stamp, ACK, SERVER, msg.sender, "ACK")) else None
  {
    reply := None;
    if msg.kind == PING {
      reply := Some(CreateMessage(hash, stamp, ACK, SERVER, msg.sender, "ACK"));
    } else if msg.kind == ACK {
      cl.pingSent := false;
    } else {
      queue.Push(msg);
    }
  }

  /** handle_client, the insert: 0 without a uid, 1 for a new entry, 2 for an overwrite. */
  method InsertClient(clientMap: HashMap, cl: ClientConnection) returns (result: int)
    requires clientMap.Valid() && cl !in clientMap.Repr
    modifies clientMap.Repr, cl
    ensures clientMap.Valid() && fresh(clientMap.Repr - old(clientMap.Repr))
    ensures cl.uid == None ==> result == 0 && clientMap.Entries == old(clientMap.Entries)
    ensures cl.uid.Some? ==>
              && clientMap.Entries == old(clientMap.Entries)[cl.uid.value := cl]
              && result == (if cl.uid.value in old(clientMap.Entries) then 2 else 1)
              && cl.isInserted && cl.isReady == old(cl.isReady) && cl.pingSent == old(cl.pingSent)
  {
    result := clientMap.Insert(cl);
    assert cl !in clientMap.Repr;
    if result != 0 {
      cl.isInserted := true;
      cl.id := clientMap.currentElements - 1;
    }
  }

  /** The end of handle_client. */
  method RemoveClient(clientMap: HashMap, cl: ClientConnection)
    requires clientMap.Valid() && cl.uid.Some?
    modifies clientMap.Repr
    ensures clientMap.Valid() && fresh(clientMap.Repr - old(clientMap.Repr))
    ensures clientMap.Entries == old(clientMap.Entries) - if old(cl.isInserted) then {cl.uid.value} else {}
  {
    MinusNone(clientMap.Entries);
    if cl.isInserted {
      clientMap.Erase(cl.uid.value);
    }
  }

  lemma MinusNone<K, V>(m: map<K, V>)
    ensures m - {} == m
  {
  }

  ghost function UidSet(uids: seq<string>): set<string> {
    set u | u in uids
  }

  /** kick_unresponsive, the test: the uids of the ready connections with an unanswered ping, which are those
      that the quit signals go to. */
  method Unresponsive(visited: seq<ClientConnection>) returns (uids: seq<string>)
    requires Keyed(visited)
    ensures uids == Wanted(KickFan, PeersAt(visited, null))
  {
    ghost var peers := PeersAt(visited, null);
    uids := [];
    for i := 0 to |visited|
      invariant uids == Wanted(KickFan, peers[..i])
    {
      assert peers[..i + 1][..i] == peers[..i];
      if visited[i].isReady && visited[i].pingSent {
        uids := uids + [visited[i].uid.value];
      }
    }
    assert peers[..|visited|] == peers;
  }

  lemma MinusNext(m: map<string, ClientConnection>, uids: seq<string>, i: nat)
    requires i < |uids|
    ensures (m - UidSet(uids[..i])) - {uids[i]} == m - UidSet(uids[..i + 1])
  {
    assert UidSet(uids[..i + 1]) == UidSet(uids[..i]) + {uids[i]};
  }

  /** One of the erasures. */
  method EraseNext(clientMap: HashMap, uids: seq<string>, i: nat, ghost entries: map<string, ClientConnection>)
    requires clientMap.Valid() && i < |uids| && clientMap.Entries == entries - UidSet(uids[..i])
    modifies clientMap.Repr
    ensures clientMap.Valid() && fresh(clientMap.Repr - old(clientMap.Repr))
    ensures clientMap.Entries == entries - UidSet(uids[..i + 1])
  {
    MinusNext(entries, uids, i);
    clientMap.Erase(uids[i]);
  }

  /** kick_unresponsive, the erasures: the collected uids lose their entries, and no other one does. */
  method EraseAll(clientMap: HashMap, uids: seq<string>)
    requires clientMap.Valid()
    modifies clientMap.Repr
    ensures clientMap.Valid() && fresh(clientMap.Repr - old(clientMap.Repr))
    ensures clientMap.Entries == old(clientMap.Entries) - UidSet(uids)
  {
    ghost var entries := clientMap.Entries;
    MinusNone(entries);
    for i := 0 to |uids|
      invariant clientMap.Valid() && fresh(clientMap.Repr - old(clientMap.Repr))
      invariant clientMap.Entries == entries - UidSet(uids[..i])
    {
      EraseNext(clientMap, uids, i, entries);
    }
    assert uids[..|uids|] == uids;
  }
}
