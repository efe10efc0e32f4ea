/** "Only one logged instance of a client is allowed": exactly when a run keeps that promise. */
module ChatSingle {
  import opened ChatSystem
  import opened ChatRuns
  import opened ChatChecks

  /** The session has been let in, so its uid is settled. */
  predicate LetIn(s: Sys, sid: Sid) {
    sid in s.sessions && !s.sessions[sid].phase.Authenticating?
  }

  lemma UidStep(hash: string -> string, s: Sys, a: Action, sid: Sid)
    requires Enabled(s, a) && LetIn(s, sid)
    ensures LetIn(Step(hash, s, a), sid) && Step(hash, s, a).sessions[sid].uid == s.sessions[sid].uid
  {
  }

  lemma {:induction false} UidKept(hash: string -> string, states: seq<Sys>, acts: seq<Action>, k: nat, n: nat,
                                   sid: Sid)
    requires IsRun(hash, states, acts) && k <= n < |states| && LetIn(states[k], sid)
    ensures LetIn(states[n], sid) && states[n].sessions[sid].uid == states[k].sessions[sid].uid
  {
    if k < n {
      UidKept(hash, states, acts, k, n - 1, sid);
      assert Next(hash, states[n - 1], acts[n - 1], states[n - 1 + 1]);
      UidStep(hash, states[n - 1], acts[n - 1], sid);
    }
  }

  /** Action `k` is a kick that takes the entry of `uid` away from `sid`. */
  predicate Evicts(s: Sys, a: Action, uid: string, sid: Sid) {
    a.KickErase? && s.kicks != [] && s.kicks[0] == uid && uid in s.registry && s.registry[uid] == sid
  }

  /** Some session of `uid` was kicked out of the registry before `n` and is still being served at `n`. */
  predicate Orphaned(states: seq<Sys>, acts: seq<Action>, n: nat, uid: string)
    requires |states| == |acts| + 1 && n < |states|
  {
    exists k, sid | 0 <= k < n && sid in states[n].sessions ::
        Evicts(states[k], acts[k], uid, sid) && LiveIn(states[n], sid)
  }

  /** Before an insert: the uid has no entry and no orphan. */
  predicate Clear(states: seq<Sys>, acts: seq<Action>, i: nat)
    requires |states| == |acts| + 1 && i < |acts|
  {
    acts[i].Insert? && acts[i].sid in states[i].sessions ==>
      && InsertResult(states[i], acts[i].sid) == 1
      && !Orphaned(states, acts, i, states[i].sessions[acts[i].sid].uid)
  }

  predicate Registered(s: Sys, sid: Sid)
    requires sid in s.sessions
  {
    var uid := s.sessions[sid].uid;
    uid in s.registry && s.registry[uid] == sid
  }

  /** Every live session is registered or was kicked. */
  predicate Accounted(states: seq<Sys>, acts: seq<Action>, n: nat)
    requires |states| == |acts| + 1 && n < |states|
  {
    forall sid | sid in states[n].sessions && LiveIn(states[n], sid) ::
      || Registered(states[n], sid)
      || exists k | 0 <= k < n :: Evicts(states[k], acts[k], states[n].sessions[sid].uid, sid)
  }

  predicate Rivals(s: Sys, a: Sid, b: Sid) {
    a != b && LiveIn(s, a) && LiveIn(s, b) && s.sessions[a].uid == s.sessions[b].uid
  }

  /** A live session before the step stays live under its uid unless it disconnects. */
  lemma LiveStep(hash: string -> string, s: Sys, a: Action, sid: Sid)
    requires Enabled(s, a) && LiveIn(Step(hash, s, a), sid)
    ensures a == Insert(sid) || (LiveIn(s, sid) && s.sessions[sid].uid == Step(hash, s, a).sessions[sid].uid)
  {
  }

  lemma InsertBeside(hash: string -> string, s: Sys, sid: Sid, other: Sid)
    requires Enabled(s, Insert(sid)) && LiveIn(s, other) && s.sessions[other].uid == s.sessions[sid].uid
    ensures TwoLive(Step(hash, s, Insert(sid)))
  {
    assert Rivals(Step(hash, s, Insert(sid)), other, sid);
  }

  /** An insert over an entry, or beside an orphan, makes two. */
  lemma UnclearMakesTwo(hash: string -> string, states: seq<Sys>, acts: seq<Action>, i: nat)
    requires IsRun(hash, states, acts) && i < |acts| && !Clear(states, acts, i)
    ensures TwoLive(states[i + 1])
  {
    var s, sid := states[i], acts[i].sid;
    var uid := s.sessions[sid].uid;
    assert Next(hash, s, acts[i], states[i + 1]);
    RunInvariant(hash, states, acts, i);
    if uid in s.registry {
      InsertBeside(hash, s, sid, s.registry[uid]);
    } else {
      var k, other :| 0 <= k < i && other in s.sessions && Evicts(states[k], acts[k], uid, other) && LiveIn(s, other);
      RunInvariant(hash, states, acts, k);
      UidKept(hash, states, acts, k, i, other);
      InsertBeside(hash, s, sid, other);
    }
  }

  lemma ClearKeepsOne(hash: string -> string, states: seq<Sys>, acts: seq<Action>, i: nat)
    requires IsRun(hash, states, acts) && i < |acts| && Clear(states, acts, i)
    requires Accounted(states, acts, i) && !TwoLive(states[i])
    ensures !TwoLive(states[i + 1])
  {
    var s, s' := states[i], states[i + 1];
    assert Next(hash, s, acts[i], s');
    forall a, b | a in s'.sessions && b in s'.sessions && a != b
      ensures !(LiveIn(s', a) && LiveIn(s', b) && s'.sessions[a].uid == s'.sessions[b].uid)
    {
      if Rivals(s', a, b) {
        LiveStep(hash, s, acts[i], a);
        LiveStep(hash, s, acts[i], b);
      }
    }
  }

  /** A session that loses its entry in a step was kicked in it, unless the uid had two. */
  lemma EntryStep(hash: string -> string, s: Sys, a: Action, sid: Sid)
    requires Enabled(s, a) && NoDangling(s) && !TwoLive(s) && LiveIn(Step(hash, s, a), sid)
    requires LiveIn(s, sid) && Registered(s, sid)
    requires a.Insert? && a.sid in s.sessions ==> InsertResult(s, a.sid) == 1
    ensures Registered(Step(hash, s, a), sid) || Evicts(s, a, s.sessions[sid].uid, sid)
  {
    LiveStep(hash, s, a, sid);
  }

  lemma ClearAccounts(hash: string -> string, states: seq<Sys>, acts: seq<Action>, i: nat)
    requires IsRun(hash, states, acts) && i < |acts| && Clear(states, acts, i)
    requires Accounted(states, acts, i) && !TwoLive(states[i])
    ensures Accounted(states, acts, i + 1)
  {
    var s, s' := states[i], states[i + 1];
    assert Next(hash, s, acts[i], s');
    RunInvariant(hash, states, acts, i);
    forall sid | sid in s'.sessions && LiveIn(s', sid)
      ensures Registered(s', sid) || exists k | 0 <= k < i + 1 :: Evicts(states[k], acts[k], s'.sessions[sid].uid, sid)
    {
      LiveStep(hash, s, acts[i], sid);
      if acts[i] != Insert(sid) {
        if Registered(s, sid) {
          EntryStep(hash, s, acts[i], sid);
        } else {
          var k :| 0 <= k < i && Evicts(states[k], acts[k], s.sessions[sid].uid, sid);
          assert Evicts(states[k], acts[k], s'.sessions[sid].uid, sid);
        }
      }
    }
  }

  lemma {:induction false} ClearRunIsSingle(hash: string -> string, states: seq<Sys>, acts: seq<Action>, n: nat)
    requires IsRun(hash, states, acts) && n < |states|
    requires forall i | 0 <= i < n :: Clear(states, acts, i)
    ensures Accounted(states, acts, n) && !TwoLive(states[n])
  {
    if n > 0 {
      ClearRunIsSingle(hash, states, acts, n - 1);
      ClearAccounts(hash, states, acts, n - 1);
      ClearKeepsOne(hash, states, acts, n - 1);
    }
  }

  /** "Only one logged instance": a run never has two live sessions of one uid exactly when every
      hash_map_insert of the run returned 1 and met no session of its uid that had been kicked out of the
      registry and was still being served. */
  lemma SingleIff(hash: string -> string, states: seq<Sys>, acts: seq<Action>)
    requires IsRun(hash, states, acts)
    ensures (forall n | 0 <= n < |states| :: !TwoLive(states[n]))
            <==> (forall i | 0 <= i < |acts| :: Clear(states, acts, i))
  {
    if forall i | 0 <= i < |acts| :: Clear(states, acts, i) {
      forall n | 0 <= n < |states| ensures !TwoLive(states[n]) {
        ClearRunIsSingle(hash, states, acts, n);
      }
    } else {
      var i :| 0 <= i < |acts| && !Clear(states, acts, i);
      UnclearMakesTwo(hash, states, acts, i);
    }
  }

  /** Without kicks: exactly when every hash_map_insert returned 1. */
  lemma KicklessSingleIff(hash: string -> string, states: seq<Sys>, acts: seq<Action>)
    requires IsRun(hash, states, acts) && forall i | 0 <= i < |acts| :: !acts[i].KickErase?
    ensures (forall n | 0 <= n < |states| :: !TwoLive(states[n]))
       <==> (forall i | 0 <= i < |acts| && acts[i].Insert? && acts[i].sid in states[i].sessions ::
               InsertResult(states[i], acts[i].sid) == 1)
  {
    SingleIff(hash, states, acts);
    forall i | 0 <= i < |acts| && acts[i].Insert? && acts[i].sid in states[i].sessions
      ensures Clear(states, acts, i) <==> InsertResult(states[i], acts[i].sid) == 1
    {
    }
  }

  /** Without raced logins: exactly when no login is let in beside a kicked session that is still served. */
  lemma UnracedSingleIff(hash: string -> string, states: seq<Sys>, acts: seq<Action>)
    requires IsRun(hash, states, acts) && NoRaces(states, acts)
    ensures (forall n | 0 <= n < |states| :: !TwoLive(states[n]))
       <==> (forall i | 0 <= i < |acts| && acts[i].Insert? && acts[i].sid in states[i].sessions ::
               !Orphaned(states, acts, i, states[i].sessions[acts[i].sid].uid))
  {
    SingleIff(hash, states, acts);
    forall i | 0 <= i < |acts| && acts[i].Insert? && acts[i].sid in states[i].sessions
      ensures Clear(states, acts, i) <==> !Orphaned(states, acts, i, states[i].sessions[acts[i].sid].uid)
    {
      assert Next(hash, states[i], acts[i], states[i + 1]);
      var c := FindCheck(hash, states, acts, i, acts[i].sid);
      UnracedInsertIsNew(hash, states, acts, c, i);
    }
  }
}
