/** What holds over every interleaved run of the server. */
module ChatRuns {
  import opened ChatSystem

  ghost predicate Next(hash: string -> string, s: Sys, a: Action, s': Sys) {
    Enabled(s, a) && s' == Step(hash, s, a)
  }

  /** A run: a state between any two actions, from a state without connections. */
  ghost predicate IsRun(hash: string -> string, states: seq<Sys>, acts: seq<Action>) {
    && |states| == |acts| + 1
    && Initial(hash, states[0])
    && forall i | 0 <= i < |acts| :: Next(hash, states[i], acts[i], states[i + 1])
  }

  lemma ExtendRun(hash: string -> string, states: seq<Sys>, acts: seq<Action>, a: Action)
    requires IsRun(hash, states, acts) && Enabled(states[|states| - 1], a)
    ensures IsRun(hash, states + [Step(hash, states[|states| - 1], a)], acts + [a])
  {
    var states', acts' := states + [Step(hash, states[|states| - 1], a)], acts + [a];
    forall i | 0 <= i < |acts'| ensures Next(hash, states'[i], acts'[i], states'[i + 1]) {
      if i < |acts| {
        assert Next(hash, states[i], acts[i], states[i + 1]);
      }
    }
  }

  ghost predicate Invariant(hash: string -> string, s: Sys) {
    NoDangling(s) && Known(hash, s) && Routed(s) && ChecksHold(s)
  }

  lemma {:induction false} RunInvariant(hash: string -> string, states: seq<Sys>, acts: seq<Action>, n: nat)
    requires IsRun(hash, states, acts) && n < |states|
    ensures Invariant(hash, states[n])
  {
    if n > 0 {
      RunInvariant(hash, states, acts, n - 1);
      var s, a := states[n - 1], acts[n - 1];
      assert Next(hash, s, a, states[n - 1 + 1]);
      NoDanglingStep(hash, s, a);
      KnownStep(hash, s, a);
      RoutedStep(hash, s, a);
      ChecksHoldStep(hash, s, a);
    }
  }

  /** In every interleaving of logins, overwrites, kicks and disconnects, each registry entry refers to a
      session that was inserted under that uid and whose thread has not ended. */
  lemma NoDanglingEntry(hash: string -> string, states: seq<Sys>, acts: seq<Action>, n: nat, uid: string)
    requires IsRun(hash, states, acts) && n < |states| && uid in states[n].registry
    ensures var sid := states[n].registry[uid];
            LiveIn(states[n], sid) && states[n].sessions[sid].uid == uid
  {
    RunInvariant(hash, states, acts, n);
  }

  /** Every live session is the one registered under its uid, so no uid has two. */
  predicate Orderly(s: Sys) {
    forall sid | sid in s.sessions && LiveIn(s, sid) ::
        s.sessions[sid].uid in s.registry && s.registry[s.sessions[sid].uid] == sid
  }

  predicate TwoLive(s: Sys) {
    exists a, b | a in s.sessions && b in s.sessions && a != b ::
      LiveIn(s, a) && LiveIn(s, b) && s.sessions[a].uid == s.sessions[b].uid
  }

  /** The result of the hash_map_insert that `Insert(sid)` makes. */
  function InsertResult(s: Sys, sid: Sid): int
    requires sid in s.sessions
  {
    if s.sessions[sid].uid in s.registry then 2 else 1
  }

  /** An insert returned 1, and a kick found its entry already gone. */
  predicate Calm(s: Sys, a: Action)
    requires Enabled(s, a)
  {
    match a
    case Insert(sid) => InsertResult(s, sid) == 1
    case KickErase => s.kicks[0] !in s.registry
    case _ => true
  }

  lemma CalmKeepsOrder(hash: string -> string, s: Sys, a: Action)
    requires Orderly(s) && NoDangling(s) && Enabled(s, a) && Calm(s, a)
    ensures Orderly(Step(hash, s, a))
  {
  }

  lemma UncalmBreaksOrder(hash: string -> string, s: Sys, a: Action)
    requires NoDangling(s) && Enabled(s, a) && !Calm(s, a)
    ensures !Orderly(Step(hash, s, a))
  {
    var uid := if a.KickErase? then s.kicks[0] else s.sessions[a.sid].uid;
    assert LiveIn(Step(hash, s, a), s.registry[uid]);
  }

  lemma {:induction false} CalmRunIsOrderly(hash: string -> string, states: seq<Sys>, acts: seq<Action>, n: nat)
    requires IsRun(hash, states, acts) && n < |states|
    requires forall i | 0 <= i < |acts| :: Enabled(states[i], acts[i]) ==> Calm(states[i], acts[i])
    ensures Orderly(states[n])
  {
    if n > 0 {
      CalmRunIsOrderly(hash, states, acts, n - 1);
      RunInvariant(hash, states, acts, n - 1);
      assert Next(hash, states[n - 1], acts[n - 1], states[n - 1 + 1]);
      CalmKeepsOrder(hash, states[n - 1], acts[n - 1]);
    }
  }

  /** Over a whole run every live session is the registered one of its uid (so it can be reached) exactly when
      every hash_map_insert of the run returned 1 and no kick erased an entry. */
  lemma OrderlyIff(hash: string -> string, states: seq<Sys>, acts: seq<Action>)
    requires IsRun(hash, states, acts)
    ensures (forall n | 0 <= n < |states| :: Orderly(states[n]))
       <==> (forall i | 0 <= i < |acts| :: Enabled(states[i], acts[i]) && Calm(states[i], acts[i]))
  {
    forall i | 0 <= i < |acts| ensures Enabled(states[i], acts[i])
        && (!Calm(states[i], acts[i]) ==> !Orderly(states[i + 1])) {
      assert Next(hash, states[i], acts[i], states[i + 1]);
      RunInvariant(hash, states, acts, i);
      if !Calm(states[i], acts[i]) {
        UncalmBreaksOrder(hash, states[i], acts[i]);
      }
    }
    if forall i | 0 <= i < |acts| :: Enabled(states[i], acts[i]) && Calm(states[i], acts[i]) {
      forall n | 0 <= n < |states| ensures Orderly(states[n]) {
        CalmRunIsOrderly(hash, states, acts, n);
      }
    } else {
      var i :| 0 <= i < |acts| && !(Enabled(states[i], acts[i]) && Calm(states[i], acts[i]));
      assert !Orderly(states[i + 1]);
    }
  }
}
