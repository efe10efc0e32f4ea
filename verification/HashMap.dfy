/** The connection registry: a separately chained hash map on linked nodes (common/src/hash_map.c). */
module HashMaps {
  import opened Text
  import opened Hashing

  /** client_connection. `uid` and `req` are filled in by user_auth before the connection reaches the
      map and never change afterwards, so they are constants here. */
  class ClientConnection {
    const uid: Option<string>
    const hasReq: bool
    const username: string
    /** The request that the connection serves: its client thread and its socket. */
    const sid: nat
    var id: int
    var isReady: bool
    var isInserted: bool
    var pingSent: bool

    constructor (uid: Option<string>, hasReq: bool, username: string, sid: nat)
      ensures this.uid == uid && this.hasReq == hasReq && this.username == username && this.sid == sid
      ensures !isReady && !isInserted && !pingSent
    {
      this.uid := uid;
      this.hasReq := hasReq;
      this.username := username;
      this.sid := sid;
      id, isReady, isInserted, pingSent := 0, false, false, false;
    }
  }

  class HashNode {
    var cl: ClientConnection
    var next: HashNode?

    constructor (cl: ClientConnection)
      ensures this.cl == cl && next == null
    {
      this.cl := cl;
      next := null;
    }
  }

  ghost predicate Holds(conns: seq<ClientConnection>, uid: string) {
    exists i | 0 <= i < |conns| :: conns[i].uid == Some(uid)
  }

  /** The position of `uid` in a chain, or the chain's length. */
  ghost function Position(conns: seq<ClientConnection>, uid: string): (p: nat)
    ensures if Holds(conns, uid) then p < |conns| && conns[p].uid == Some(uid) else p == |conns|
  {
    if Holds(conns, uid) then var p :| 0 <= p < |conns| && conns[p].uid == Some(uid); p else |conns|
  }

  /** Every connection has a uid and no two share one. */
  ghost predicate Keyed(conns: seq<ClientConnection>) {
    && (forall i | 0 <= i < |conns| :: conns[i].uid.Some?)
    && (forall i, j | 0 <= i < j < |conns| :: conns[i].uid != conns[j].uid)
  }

  ghost function Without<T>(s: seq<T>, p: nat): (r: seq<T>)
    requires p < |s|
    ensures |r| == |s| - 1
    ensures forall i | 0 <= i < p :: r[i] == s[i]
    ensures forall i | p <= i < |r| :: r[i] == s[i + 1]
  {
    s[..p] + s[p + 1..]
  }

  /** hash_bucket: one chain of nodes. */
  class HashBucket {
    var head: HashNode?

    /** The connections of the chain, in order. */
    ghost var Conns: seq<ClientConnection>
    ghost var chain: seq<HashNode>
    ghost var Repr: set<object>

    ghost predicate Valid()
      reads this, Repr
      ensures Valid() ==> this in Repr
    {
      && Shaped()
      && Keyed(Conns)
    }

    ghost predicate Shaped()
      reads this, Repr
      ensures Shaped() ==> this in Repr
    {
      && this in Repr
      && |Conns| == |chain|
      && (forall i | 0 <= i < |chain| :: chain[i] in Repr && chain[i].cl == Conns[i])
      && (forall i, j | 0 <= i < j < |chain| :: chain[i] != chain[j])
      && (forall i, j | 0 <= i && j == i + 1 < |chain| :: chain[i].next == chain[j])
      && (chain == [] ==> head == null)
      && (chain != [] ==> head == chain[0] && chain[|chain| - 1].next == null)
    }

    constructor ()
      ensures Valid() && fresh(Repr) && Conns == []
    {
      head := null;
      Conns, chain := [], [];
      Repr := {this};
    }

    /** The walk that insert and erase start with. */
    method Walk(uid: string) returns (prev: HashNode?, node: HashNode?, ghost p: nat)
      requires Valid()
      ensures p == Position(Conns, uid)
      ensures node == if Holds(Conns, uid) then chain[Position(Conns, uid)] else null
      ensures prev == if Position(Conns, uid) > 0 then chain[Position(Conns, uid) - 1] else null
    {
      prev, node, p := null, head, 0;
      while node != null && node.cl.uid != Some(uid)
        invariant 0 <= p <= |chain|
        invariant node == if p < |chain| then chain[p] else null
        invariant prev == if p > 0 then chain[p - 1] else null
        invariant forall k | 0 <= k < p :: Conns[k].uid != Some(uid)
        decreases |chain| - p
      {
        assert p + 1 < |chain| ==> chain[p].next == chain[p + 1];
        prev := node;
        node := node.next;
        p := p + 1;
      }
    }

    /** A node without a request ends the search. */
    method Find(uid: string) returns (cl: ClientConnection?)
      requires Valid()
      ensures var p := Position(Conns, uid);
              cl == if p < |Conns| && forall k | 0 <= k <= p :: Conns[k].hasReq then Conns[p] else null
    {
      var node := head;
      ghost var p := 0;
      while node != null
        invariant 0 <= p <= |chain|
        invariant node == if p < |chain| then chain[p] else null
        invariant forall k | 0 <= k < p :: Conns[k].uid != Some(uid) && Conns[k].hasReq
        decreases |chain| - p
      {
        if node.cl.uid.Some? && node.cl.hasReq {
          if node.cl.uid.value == uid {
            return node.cl;
          }
          assert p + 1 < |chain| ==> chain[p].next == chain[p + 1];
          node := node.next;
          p := p + 1;
        } else {
          return null;
        }
      }
      return null;
    }

    method Put(uid: string, cl: ClientConnection) returns (isNew: bool)
      requires Valid() && cl.uid == Some(uid)
      modifies Repr
      ensures Valid() && fresh(Repr - old(Repr))
      ensures isNew <==> Position(old(Conns), uid) == |old(Conns)|
      ensures Conns == if isNew then old(Conns) + [cl] else old(Conns)[Position(old(Conns), uid) := cl]
    {
      var prev, node, p := Walk(uid);
      isNew := node == null;
      if isNew {
        Append(prev, cl);
      } else {
        node.cl := cl;
        Conns := Conns[p := cl];
      }
    }

    method Append(prev: HashNode?, cl: ClientConnection)
      requires Shaped() && prev == if chain == [] then null else chain[|chain| - 1]
      modifies Repr
      ensures Shaped() && fresh(Repr - old(Repr))
      ensures Conns == old(Conns) + [cl]
    {
      var newNode := new HashNode(cl);
      if head == null {
        head := newNode;
      } else {
        prev.next := newNode;
      }
      chain, Conns := chain + [newNode], Conns + [cl];
      Repr := Repr + {newNode};
    }

    method Remove(uid: string) returns (removed: bool)
      requires Valid()
      modifies Repr
      ensures Valid() && Repr == old(Repr)
      ensures var p := Position(old(Conns), uid);
              && (removed <==> p < |old(Conns)|)
              && Conns == if removed then Without(old(Conns), p) else old(Conns)
    {
      var prev, node, p := Walk(uid);
      removed := node != null;
      if removed {
        Unlink(prev, node, p);
      }
    }

    method Unlink(prev: HashNode?, node: HashNode, ghost p: nat)
      requires Shaped() && p < |chain| && node == chain[p] && prev == if p > 0 then chain[p - 1] else null
      modifies Repr
      ensures Shaped() && Repr == old(Repr)
      ensures Conns == Without(old(Conns), p)
    {
      assert p + 1 < |chain| ==> chain[p].next == chain[p + 1];
      if prev == null {
        head := node.next;
      } else {
        prev.next := node.next;
      }
      chain, Conns := Without(chain, p), Without(Conns, p);
    }

    /** The walk of hash_map_iterate over one bucket: the connections in the order the callback gets them. */
    method Visit() returns (visited: seq<ClientConnection>)
      requires Valid()
      ensures visited == Conns
    {
      visited := [];
      var node := head;
      while node != null
        invariant |visited| <= |chain| && visited == Conns[..|visited|]
        invariant node == if |visited| < |chain| then chain[|visited|] else null
        decreases |chain| - |visited|
      {
        ghost var p := |visited|;
        assert p + 1 < |chain| ==> chain[p].next == chain[p + 1];
        visited := visited + [node.cl];
        node := node.next;
      }
    }
  }

  /** `cl` sits in the bucket of its uid and is what `entries` holds for that uid. */
  ghost predicate Placed(cl: ClientConnection, b: nat, index: string -> nat, entries: map<string, ClientConnection>) {
    && cl.uid.Some? && index(cl.uid.value) == b
    && cl.uid.value in entries && entries[cl.uid.value] == cl
  }

  /** The chains hold exactly `entries`, each connection in the bucket of its uid. */
  ghost predicate Agrees(lists: seq<seq<ClientConnection>>, index: string -> nat,
                         entries: map<string, ClientConnection>) {
    && (forall u :: index(u) < |lists|)
    && (forall b, i | 0 <= b < |lists| && 0 <= i < |lists[b]| :: Placed(lists[b][i], b, index, entries))
    && (forall u {:trigger index(u)} | u in entries :: Holds(lists[index(u)], u))
  }

  lemma AgreesAt(lists: seq<seq<ClientConnection>>, index: string -> nat, entries: map<string, ClientConnection>,
                 u: string)
    requires Agrees(lists, index, entries)
    ensures var conns := lists[index(u)];
            var p := Position(conns, u);
            && (u in entries <==> p < |conns|)
            && (u in entries ==> entries[u] == conns[p] && conns[p].uid == Some(u))
  {
    var conns := lists[index(u)];
    var p := Position(conns, u);
    if u in entries {
      assert Holds(conns, u);
    }
    if p < |conns| {
      assert Placed(conns[p], index(u), index, entries);
    }
  }

  lemma AgreesPut(lists: seq<seq<ClientConnection>>, index: string -> nat, entries: map<string, ClientConnection>,
                  cl: ClientConnection, after: seq<ClientConnection>)
    requires Agrees(lists, index, entries) && cl.uid.Some?
    requires Keyed(lists[index(cl.uid.value)])
    requires var conns := lists[index(cl.uid.value)];
             var p := Position(conns, cl.uid.value);
             after == if p == |conns| then conns + [cl] else conns[p := cl]
    ensures Agrees(lists[index(cl.uid.value) := after], index, entries[cl.uid.value := cl])
  {
    var uid := cl.uid.value;
    var b := index(uid);
    var p := Position(lists[b], uid);
    var lists', entries' := lists[b := after], entries[uid := cl];
    forall c, i | 0 <= c < |lists'| && 0 <= i < |lists'[c]| ensures Placed(lists'[c][i], c, index, entries') {
      if c != b || i != p {
        assert lists'[c][i] == lists[c][i];
        assert Placed(lists[c][i], c, index, entries);
      }
    }
    forall u | u in entries' ensures Holds(lists'[index(u)], u) {
      if u == uid {
        assert after[p].uid == Some(uid);
      } else {
        AgreesAt(lists, index, entries, u);
        var q := Position(lists[index(u)], u);
        assert lists'[index(u)][q].uid == Some(u);
      }
    }
  }

  lemma AgreesRemove(lists: seq<seq<ClientConnection>>, index: string -> nat, entries: map<string, ClientConnection>,
                     uid: string)
    requires Agrees(lists, index, entries) && uid in entries
    requires Keyed(lists[index(uid)]) && Position(lists[index(uid)], uid) < |lists[index(uid)]|
    ensures Agrees(lists[index(uid) := Without(lists[index(uid)], Position(lists[index(uid)], uid))], index,
            entries - {uid})
  {
    var b := index(uid);
    var p := Position(lists[b], uid);
    var lists', entries' := lists[b := Without(lists[b], p)], entries - {uid};
    forall c, i | 0 <= c < |lists'| && 0 <= i < |lists'[c]| ensures Placed(lists'[c][i], c, index, entries') {
      var j := if c == b && i >= p then i + 1 else i;
      assert lists'[c][i] == lists[c][j];
      assert Placed(lists[c][j], c, index, entries);
    }
    forall u | u in entries' ensures Holds(lists'[index(u)], u) {
      AgreesAt(lists, index, entries, u);
      var q := Position(lists[index(u)], u);
      var r := if index(u) == b && q > p then q - 1 else q;
      assert lists'[index(u)][r].uid == Some(u);
    }
  }

  /** `visited` lists every registered connection exactly once. */
  ghost predicate Enumerates(visited: seq<ClientConnection>, entries: map<string, ClientConnection>) {
    && Keyed(visited)
    && (forall i | 0 <= i < |visited| :: visited[i].uid.value in entries && entries[visited[i].uid.value] == visited[i])
    && (forall u | u in entries :: entries[u] in visited)
  }

  ghost function Flatten(lists: seq<seq<ClientConnection>>): seq<ClientConnection> {
    if lists == [] then [] else Flatten(lists[..|lists| - 1]) + lists[|lists| - 1]
  }

  lemma {:induction false} FlattenPlaced(lists: seq<seq<ClientConnection>>, index: string -> nat,
                                         entries: map<string, ClientConnection>)
    requires forall b, i | 0 <= b < |lists| && 0 <= i < |lists[b]| :: Placed(lists[b][i], b, index, entries)
    requires forall b | 0 <= b < |lists| :: Keyed(lists[b])
    ensures Keyed(Flatten(lists))
    ensures forall i | 0 <= i < |Flatten(lists)| :: var cl := Flatten(lists)[i];
              index(cl.uid.value) < |lists| && Placed(cl, index(cl.uid.value), index, entries)
    ensures forall b, i | 0 <= b < |lists| && 0 <= i < |lists[b]| :: lists[b][i] in Flatten(lists)
  {
    if lists != [] {
      var n := |lists| - 1;
      FlattenPlaced(lists[..n], index, entries);
      assert forall i | 0 <= i < |lists[n]| :: Placed(lists[n][i], n, index, entries);
      forall b, i | 0 <= b < |lists| && 0 <= i < |lists[b]| ensures lists[b][i] in Flatten(lists) {
        assert b < n ==> lists[..n][b][i] in Flatten(lists[..n]);
      }
    }
  }

  /** Walking the buckets in order meets every entry exactly once. */
  lemma {:induction false} IterationEnumerates(lists: seq<seq<ClientConnection>>, index: string -> nat,
                                               entries: map<string, ClientConnection>)
    requires Agrees(lists, index, entries)
    requires forall b | 0 <= b < |lists| :: Keyed(lists[b])
    ensures Enumerates(Flatten(lists), entries)
  {
    FlattenPlaced(lists, index, entries);
    forall u | u in entries ensures entries[u] in Flatten(lists) {
      AgreesAt(lists, index, entries, u);
    }
  }

  /** The `hash_table` array of buckets. */
  class HashTable {
    const buckets: seq<HashBucket>
    /** The connections of each bucket, in chain order. */
    ghost var Lists: seq<seq<ClientConnection>>
    ghost var Repr: set<object>

    ghost predicate Valid()
      reads this, Repr
      ensures Valid() ==> this in Repr
    {
      && this in Repr
      && |buckets| == |Lists|
      && (forall b | 0 <= b < |buckets| ::
            buckets[b] in Repr && buckets[b].Repr <= Repr && this !in buckets[b].Repr
            && buckets[b].Valid() && buckets[b].Conns == Lists[b])
      && (forall b, c | 0 <= b < |buckets| && 0 <= c < |buckets| && b != c :: buckets[b].Repr !! buckets[c].Repr)
    }

    constructor (hashSize: nat)
      ensures Valid() && fresh(Repr)
      ensures |buckets| == hashSize && Lists == seq(hashSize, _ => [])
    {
      var made: seq<HashBucket> := [];
      ghost var all: set<object> := {};
      while |made| < hashSize
        invariant |made| <= hashSize && fresh(all)
        invariant forall b | 0 <= b < |made| :: made[b].Valid() && made[b].Conns == [] && made[b].Repr <= all
        invariant forall b, c | 0 <= b < c < |made| :: made[b].Repr !! made[c].Repr
      {
        var bucket := new HashBucket();
        made := made + [bucket];
        all := all + bucket.Repr;
      }
      buckets := made;
      Lists := seq(hashSize, _ => []);
      Repr := {this} + all;
    }

    method Put(b: nat, uid: string, cl: ClientConnection) returns (isNew: bool)
      requires Valid() && b < |buckets| && cl.uid == Some(uid)
      modifies Repr
      ensures Valid() && fresh(Repr - old(Repr))
      ensures var conns := old(Lists)[b];
              var p := Position(conns, uid);
              && (isNew <==> p == |conns|)
              && Lists == old(Lists)[b := if isNew then conns + [cl] else conns[p := cl]]
    {
      isNew := buckets[b].Put(uid, cl);
      Lists := Lists[b := buckets[b].Conns];
      Repr := Repr + buckets[b].Repr;
    }

    method Remove(b: nat, uid: string) returns (removed: bool)
      requires Valid() && b < |buckets|
      modifies Repr
      ensures Valid() && Repr == old(Repr)
      ensures var conns := old(Lists)[b];
              var p := Position(conns, uid);
              && (removed <==> p < |conns|)
              && Lists == if removed then old(Lists)[b := Without(conns, p)] else old(Lists)
    {
      removed := buckets[b].Remove(uid);
      Lists := Lists[b := buckets[b].Conns];
    }

    lemma AllKeyed()
      requires Valid()
      ensures forall b | 0 <= b < |Lists| :: Keyed(Lists[b])
    {
    }

    method Visit() returns (visited: seq<ClientConnection>)
      requires Valid()
      ensures visited == Flatten(Lists)
    {
      visited := [];
      for i := 0 to |buckets|
        invariant visited == Flatten(Lists[..i])
      {
        var part := buckets[i].Visit();
        visited := visited + part;
        assert Lists[..i + 1][..i] == Lists[..i];
      }
      assert Lists[..|buckets|] == Lists;
    }
  }

  class HashMap {
    const hashTable: HashTable
    /** The bucket index of each uid. */
    const index: string -> nat
    var currentElements: nat

    /** The abstract value: the connection registered under each uid. */
    ghost var Entries: map<string, ClientConnection>
    ghost var Repr: set<object>

    /** Each connection sits in the bucket of its uid, no uid occurs twice, and the element count is right. */
    ghost predicate Valid()
      reads this, Repr
      ensures Valid() ==> this in Repr
    {
      && Separate()
      && Agrees(hashTable.Lists, index, Entries)
      && currentElements == |Entries|
    }

    ghost predicate Separate()
      reads this, Repr
      ensures Separate() ==> this in Repr
    {
      this in Repr && hashTable in Repr && hashTable.Repr <= Repr && this !in hashTable.Repr && hashTable.Valid()
    }

    constructor (hashSize: nat)
      requires hashSize > 0
      ensures Valid() && fresh(Repr)
      ensures Entries == map[]
      ensures forall u :: index(u) == Bucket(u, hashSize)
    {
      hashTable := new HashTable(hashSize);
      index := u => Bucket(u, hashSize);
      currentElements := 0;
      Entries := map[];
      new;
      Repr := {this} + hashTable.Repr;
    }

    /** hash_map_find: a node without a request ends the search of its bucket. */
    method Find(uid: string) returns (found: bool, cl: ClientConnection?)
      requires Valid()
      ensures found <==> cl != null
      ensures found ==> uid in Entries && cl == Entries[uid]
      ensures found <==> var conns := hashTable.Lists[index(uid)];
                         uid in Entries && forall k | 0 <= k <= Position(conns, uid) :: conns[k].hasReq
      ensures (forall u | u in Entries :: Entries[u].hasReq) ==> (found <==> uid in Entries)
    {
      AgreesAt(hashTable.Lists, index, Entries, uid);
      var b := index(uid);
      cl := hashTable.buckets[b].Find(uid);
      found := cl != null;
      assert forall k | 0 <= k < |hashTable.Lists[b]| :: Placed(hashTable.Lists[b][k], b, index, Entries);
    }

    /** hash_map_insert: 1 for a new key, 2 for an overwrite, 0 without a uid. */
    method Insert(cl: ClientConnection) returns (result: int)
      requires Valid()
      modifies Repr
      ensures Valid() && fresh(Repr - old(Repr))
      ensures cl.uid == None ==> result == 0 && Entries == old(Entries)
      ensures cl.uid.Some? ==> Entries == old(Entries)[cl.uid.value := cl]
      ensures cl.uid.Some? ==> result == if cl.uid.value in old(Entries) then 2 else 1
    {
      if cl.uid == None {
        return 0;
      }
      var uid := cl.uid.value;
      ghost var lists, entries := hashTable.Lists, Entries;
      AgreesAt(lists, index, entries, uid);
      var isNew := Store(uid, cl);
      AgreesPut(lists, index, entries, cl, hashTable.Lists[index(uid)]);
      result := if isNew then 1 else 2;
    }

    method Store(uid: string, cl: ClientConnection) returns (isNew: bool)
      requires Separate() && index(uid) < |hashTable.Lists| && cl.uid == Some(uid)
      modifies Repr
      ensures Separate() && fresh(Repr - old(Repr))
      ensures Entries == old(Entries)[uid := cl]
      ensures currentElements == old(currentElements) + if isNew then 1 else 0
      ensures var conns := old(hashTable.Lists)[index(uid)];
              var p := Position(conns, uid);
              && (isNew <==> p == |conns|)
              && hashTable.Lists == old(hashTable.Lists)[index(uid) := if isNew then conns + [cl] else conns[p := cl]]
    {
      isNew := hashTable.Put(index(uid), uid, cl);
      assert this !in hashTable.Repr;
      if isNew {
        currentElements := currentElements + 1;
      }
      Entries := Entries[uid := cl];
      Repr := Repr + hashTable.Repr;
    }

    /** hash_map_erase */
    method Erase(uid: string)
      requires Valid()
      modifies Repr
      ensures Valid() && fresh(Repr - old(Repr))
      ensures Entries == old(Entries) - {uid}
    {
      ghost var lists, entries := hashTable.Lists, Entries;
      AgreesAt(lists, index, entries, uid);
      var removed := Discard(uid);
      EraseSize(entries, uid);
      if removed {
        AgreesRemove(lists, index, entries, uid);
      }
    }

    method Discard(uid: string) returns (removed: bool)
      requires Separate() && index(uid) < |hashTable.Lists|
      requires Holds(hashTable.Lists[index(uid)], uid) ==> currentElements > 0
      modifies Repr
      ensures Separate() && Repr == old(Repr)
      ensures Entries == old(Entries) - {uid}
      ensures currentElements == old(currentElements) - if removed then 1 else 0
      ensures var conns := old(hashTable.Lists)[index(uid)];
              var p := Position(conns, uid);
              && (removed <==> p < |conns|)
              && hashTable.Lists == if removed then old(hashTable.Lists)[index(uid) := Without(conns, p)]
                  else old(hashTable.Lists)
    {
      removed := hashTable.Remove(index(uid), uid);
      assert this !in hashTable.Repr;
      if removed {
        currentElements := currentElements - 1;
      }
      Entries := Entries - {uid};
    }

    /** hash_map_iterate and hash_map_iterate2: the connections in the order the callback gets them. */
    method Iterate() returns (visited: seq<ClientConnection>)
      requires Valid()
      ensures visited == Flatten(hashTable.Lists)
      ensures Enumerates(visited, Entries)
    {
      visited := hashTable.Visit();
      hashTable.AllKeyed();
      IterationEnumerates(hashTable.Lists, index, Entries);
    }
  }

  lemma EraseSize<K, V>(m: map<K, V>, k: K)
    ensures |m - {k}| == if k in m then |m| - 1 else |m|
    ensures k !in m ==> m - {k} == m
  {
    if k in m {
      assert (m - {k}).Keys == m.Keys - {k};
    } else {
      assert m - {k} == m;
    }
  }
}
