/** The online check of a login and the insert that relies on it, by their positions in a run. */
module ChatChecks {
  import opened Text
  import opened ChatSystem
  import opened ChatRuns

  /** `sid` relies on `uid` being offline in `s`. */
  predicate Relies(s: Sys, sid: Sid, uid: string) {
    sid in s.sessions && Pending(s.sessions[sid]) == Some(uid)
  }

  /** Action `c` is the read after which user_auth found `uid` offline for `sid` (or added its row), and the
      session has relied on that ever since, up to state `i`. */
  predicate Standing(states: seq<Sys>, acts: seq<Action>, c: nat, i: nat, sid: Sid, uid: string)
    requires |states| == |acts| + 1
  {
    && c < i < |states|
    && acts[c].AuthRead? && acts[c].sid == sid && sid in states[c].sessions && Pending(states[c].sessions[sid]) == None
    && forall k | c < k <= i :: Relies(states[k], sid, uid)
  }

  predicate Inserts(s: Sys, a: Action, uid: string) {
    a.Insert? && a.sid in s.sessions && s.sessions[a.sid].uid == uid
  }

  /** An insert of `uid` strictly between the actions `c` and `i`. */
  predicate InsertedBetween(states: seq<Sys>, acts: seq<Action>, c: nat, i: nat, uid: string)
    requires |states| == |acts| + 1 && i < |states|
  {
    exists k | c < k < i :: Inserts(states[k], acts[k], uid)
  }

  /** No insert of the run comes after another insert of its uid since its own online check. */
  predicate NoRaces(states: seq<Sys>, acts: seq<Action>)
    requires |states| == |acts| + 1
  {
    forall c, i | 0 <= c < i < |acts| && acts[i].Insert? && acts[i].sid in states[i].sessions
                  && Standing(states, acts, c, i, acts[i].sid, states[i].sessions[acts[i].sid].uid) ::
      !InsertedBetween(states, acts, c, i, states[i].sessions[acts[i].sid].uid)
  }

  predicate Marked(s: Sys, sid: Sid)
    requires sid in s.sessions && Pending(s.sessions[sid]).Some?
  {
    s.sessions[sid].phase.raced
  }

  /** A session starts to rely on a uid in a read of its own, and unmarked. */
  lemma RelianceBegins(hash: string -> string, s: Sys, a: Action, sid: Sid, uid: string)
    requires Enabled(s, a) && Relies(Step(hash, s, a), sid, uid)
             && (sid !in s.sessions || Pending(s.sessions[sid]) == None)
    ensures a.AuthRead? && a.sid == sid && sid in s.sessions && !Marked(Step(hash, s, a), sid)
  {
  }

  /** While it does, the uid stays the same, and exactly the inserts of that uid mark it. */
  lemma RelianceGoesOn(hash: string -> string, s: Sys, a: Action, sid: Sid, was: string, uid: string)
    requires Enabled(s, a) && Known(hash, s) && Relies(s, sid, was) && Relies(Step(hash, s, a), sid, uid)
    ensures was == uid
    ensures Marked(Step(hash, s, a), sid) <==> Marked(s, sid) || Inserts(s, a, uid)
  {
  }

  /** Every session about to be inserted has an online check that still stands. */
  lemma {:induction false} FindCheck(hash: string -> string, states: seq<Sys>, acts: seq<Action>, i: nat, sid: Sid)
    returns (c: nat)
    requires IsRun(hash, states, acts) && i < |states|
    requires sid in states[i].sessions && Pending(states[i].sessions[sid]).Some?
    ensures Standing(states, acts, c, i, sid, Pending(states[i].sessions[sid]).value)
  {
    var uid := Pending(states[i].sessions[sid]).value;
    var s, a := states[i - 1], acts[i - 1];
    assert Next(hash, s, a, states[i - 1 + 1]);
    if sid in s.sessions && Pending(s.sessions[sid]).Some? {
      RunInvariant(hash, states, acts, i - 1);
      RelianceGoesOn(hash, s, a, sid, Pending(s.sessions[sid]).value, uid);
      c := FindCheck(hash, states, acts, i - 1, sid);
    } else {
      RelianceBegins(hash, s, a, sid, uid);
      c := i - 1;
    }
  }

  /** The mark of the step system is a fact about positions: an insert of the uid came after the check. */
  lemma {:induction false} MarkedIff(hash: string -> string, states: seq<Sys>, acts: seq<Action>, c: nat, i: nat,
                                     sid: Sid, uid: string)
    requires IsRun(hash, states, acts) && Standing(states, acts, c, i, sid, uid)
    ensures Relies(states[i], sid, uid) && (Marked(states[i], sid) <==> InsertedBetween(states, acts, c, i, uid))
    decreases i
  {
    var s, a := states[i - 1], acts[i - 1];
    assert Relies(states[i], sid, uid);
    assert Next(hash, s, a, states[i - 1 + 1]);
    if c + 1 == i {
      RelianceBegins(hash, s, a, sid, uid);
    } else {
      assert Relies(s, sid, uid);
      MarkedIff(hash, states, acts, c, i - 1, sid, uid);
      RunInvariant(hash, states, acts, i - 1);
      RelianceGoesOn(hash, s, a, sid, uid, uid);
      if Marked(states[i], sid) && !Marked(s, sid) {
        assert Inserts(states[i - 1], acts[i - 1], uid);
      }
    }
  }

  /** If no other insert of the uid falls between a session's online check and its own insert, the insert
      returns 1. */
  lemma UnracedInsertIsNew(hash: string -> string, states: seq<Sys>, acts: seq<Action>, c: nat, i: nat)
    requires IsRun(hash, states, acts) && c < i < |acts| && acts[i].Insert? && acts[i].sid in states[i].sessions
    requires Standing(states, acts, c, i, acts[i].sid, states[i].sessions[acts[i].sid].uid)
    requires !InsertedBetween(states, acts, c, i, states[i].sessions[acts[i].sid].uid)
    ensures InsertResult(states[i], acts[i].sid) == 1
  {
    RunInvariant(hash, states, acts, i);
    MarkedIff(hash, states, acts, c, i, acts[i].sid, states[i].sessions[acts[i].sid].uid);
    assert Unraced(states[i].sessions[acts[i].sid]);
  }

  /** A run whose inserts are all unmarked has no races. */
  lemma UnmarkedHasNoRaces(hash: string -> string, states: seq<Sys>, acts: seq<Action>)
    requires IsRun(hash, states, acts)
    requires forall i | 0 <= i < |acts| && acts[i].Insert? && acts[i].sid in states[i].sessions ::
               states[i].sessions[acts[i].sid].phase != LoggedIn(true)
    ensures NoRaces(states, acts)
  {
    forall c, i | 0 <= c < i < |acts| && acts[i].Insert? && acts[i].sid in states[i].sessions
                  && Standing(states, acts, c, i, acts[i].sid, states[i].sessions[acts[i].sid].uid)
      ensures !InsertedBetween(states, acts, c, i, states[i].sessions[acts[i].sid].uid)
    {
      assert Next(hash, states[i], acts[i], states[i + 1]);
      MarkedIff(hash, states, acts, c, i, acts[i].sid, states[i].sessions[acts[i].sid].uid);
    }
  }
}
