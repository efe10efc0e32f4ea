/** Every client thread of a run is in a dialogue of its own: the one over the reads it has made, with the table and
    the registry as each of them found it. */
module ChatDialogues {
  import opened AuthDialogue
  import opened ChatSystem
  import opened ChatRuns

  /** A read by `sid` itself. */
  predicate ReadBy(a: Action, sid: Sid) {
    a.AuthRead? && a.sid == sid
  }

  /** What a read brings in the state in which it returns. */
  function WakeAt(s: Sys, a: Action): Wake
    requires a.AuthRead?
  {
    Wake(a.input, s.users, s.registry.Keys)
  }

  /** The reads that `sid` has made in the first `n` actions. */
  function Heard(states: seq<Sys>, acts: seq<Action>, n: nat, sid: Sid): (script: seq<Wake>)
    requires |states| == |acts| + 1 && n <= |acts|
    ensures |script| <= n
  {
    if n == 0 then []
    else
      Heard(states, acts, n - 1, sid)
      + if ReadBy(acts[n - 1], sid) then [WakeAt(states[n - 1], acts[n - 1])] else []
  }

  /** What user_auth sends to `sid` in an action. */
  function ToldIn(hash: string -> string, s: Sys, a: Action, sid: Sid): seq<Out>
    requires Enabled(s, a)
  {
    if a == Connect(sid) then Opening(0)
    else if ReadBy(a, sid) then Resume(hash, s.sessions[sid].phase.auth, WakeAt(s, a)).sent
    else []
  }

  /** What it has sent to `sid` in the first `n` actions. */
  function ToldUpTo(hash: string -> string, states: seq<Sys>, acts: seq<Action>, n: nat, sid: Sid): seq<Out>
    requires |states| == |acts| + 1 && n <= |acts| && forall i | 0 <= i < |acts| :: Enabled(states[i], acts[i])
  {
    if n == 0 then []
    else ToldUpTo(hash, states, acts, n - 1, sid) + ToldIn(hash, states[n - 1], acts[n - 1], sid)
  }

  /** `sid` stands where the dialogue over `script` does, and has been told what that sends. */
  ghost predicate InDialogue(hash: string -> string, s: Sys, sid: Sid, script: seq<Wake>, told: seq<Out>) {
    if sid !in s.sessions then script == [] && told == []
    else
      var x, t := s.sessions[sid], Dialogue(hash, script);
      && told == t.sent
      && match x.phase
         case Authenticating(auth, _) => auth == t.state && !auth.Finished()
         case Ended => t.state.Finished()
         case _ => t.state.Granted? && x.username == t.state.username && x.uid == t.state.uid
  }

  lemma {:induction false} OwnRead(hash: string -> string, s: Sys, a: Action, sid: Sid, script: seq<Wake>,
                                   told: seq<Out>)
    requires Enabled(s, a) && ReadBy(a, sid) && InDialogue(hash, s, sid, script, told)
    ensures InDialogue(hash, Step(hash, s, a), sid, script + [WakeAt(s, a)], told + ToldIn(hash, s, a, sid))
  {
    DialogueStep(hash, script, WakeAt(s, a));
  }

  lemma {:induction false} OwnStart(hash: string -> string, s: Sys, sid: Sid, script: seq<Wake>, told: seq<Out>)
    requires Enabled(s, Connect(sid)) && InDialogue(hash, s, sid, script, told)
    ensures InDialogue(hash, Step(hash, s, Connect(sid)), sid, script, told + Opening(0))
  {
    assert [] + Opening(0) == Opening(0);
  }

  /** A thread in user_auth stays where it is, and one that was let in stays who it is. */
  predicate Stays(x: Session, y: Session) {
    match x.phase
    case Authenticating(auth, _) => y.phase.Authenticating? && y.phase.auth == auth
    case Ended => y.phase.Ended?
    case _ => !y.phase.Authenticating? && y.username == x.username && y.uid == x.uid
  }

  lemma OthersStay(hash: string -> string, s: Sys, a: Action, sid: Sid)
    requires Enabled(s, a) && !ReadBy(a, sid) && a != Connect(sid)
    ensures sid in Step(hash, s, a).sessions <==> sid in s.sessions
    ensures sid in s.sessions ==> Stays(s.sessions[sid], Step(hash, s, a).sessions[sid])
  {
  }

  lemma {:induction false} NoRead(hash: string -> string, s: Sys, a: Action, sid: Sid, script: seq<Wake>,
                                  told: seq<Out>)
    requires Enabled(s, a) && !ReadBy(a, sid) && a != Connect(sid) && InDialogue(hash, s, sid, script, told)
    ensures InDialogue(hash, Step(hash, s, a), sid, script, told)
  {
    OthersStay(hash, s, a, sid);
  }

  lemma {:induction false} InDialogueStep(hash: string -> string, s: Sys, a: Action, sid: Sid, script: seq<Wake>,
                                          told: seq<Out>)
    requires Enabled(s, a) && InDialogue(hash, s, sid, script, told)
    ensures InDialogue(hash, Step(hash, s, a), sid, script + if ReadBy(a, sid) then [WakeAt(s, a)] else [],
                       told + ToldIn(hash, s, a, sid))
  {
    if ReadBy(a, sid) {
      OwnRead(hash, s, a, sid, script, told);
    } else {
      assert script + [] == script && told + [] == told;
      if a == Connect(sid) {
        OwnStart(hash, s, sid, script, told);
      } else {
        NoRead(hash, s, a, sid, script, told);
      }
    }
  }

  /** Whatever the interleaving, a thread stands where the dialogue over its own reads stands, and its client has been
      told exactly what that dialogue sends. */
  lemma {:induction false} RunsDialogue(hash: string -> string, states: seq<Sys>, acts: seq<Action>, n: nat, sid: Sid)
    requires IsRun(hash, states, acts) && n < |states|
    ensures forall i | 0 <= i < |acts| :: Enabled(states[i], acts[i])
    ensures InDialogue(hash, states[n], sid, Heard(states, acts, n, sid), ToldUpTo(hash, states, acts, n, sid))
  {
    forall i | 0 <= i < |acts| ensures Enabled(states[i], acts[i]) {
      assert Next(hash, states[i], acts[i], states[i + 1]);
    }
    if n > 0 {
      RunsDialogue(hash, states, acts, n - 1, sid);
      assert Next(hash, states[n - 1], acts[n - 1], states[n - 1 + 1]);
      InDialogueStep(hash, states[n - 1], acts[n - 1], sid, Heard(states, acts, n - 1, sid),
                     ToldUpTo(hash, states, acts, n - 1, sid));
    }
  }

  lemma {:induction false} HeardGrows(states: seq<Sys>, acts: seq<Action>, m: nat, n: nat, sid: Sid)
    requires |states| == |acts| + 1 && m <= n <= |acts|
    ensures Heard(states, acts, m, sid) <= Heard(states, acts, n, sid)
    ensures |Heard(states, acts, m, sid)| == |Heard(states, acts, n, sid)| <==>
              forall k | m <= k < n :: !ReadBy(acts[k], sid)
  {
    if m < n {
      HeardGrows(states, acts, m, n - 1, sid);
    }
  }

  /** The action that made the read number `k`. */
  lemma {:induction false} ReadNumber(states: seq<Sys>, acts: seq<Action>, n: nat, sid: Sid, k: nat) returns (r: nat)
    requires |states| == |acts| + 1 && n <= |acts| && k < |Heard(states, acts, n, sid)|
    ensures r < n && ReadBy(acts[r], sid) && Heard(states, acts, n, sid)[k] == WakeAt(states[r], acts[r])
    ensures Heard(states, acts, r, sid) == Heard(states, acts, n, sid)[..k]
  {
    var before := Heard(states, acts, n - 1, sid);
    if k < |before| {
      r := ReadNumber(states, acts, n - 1, sid, k);
    } else {
      r := n - 1;
    }
  }

  /** Reads are told apart by how many came before them. */
  lemma {:induction false} SameRead(states: seq<Sys>, acts: seq<Action>, m: nat, r: nat, sid: Sid)
    requires |states| == |acts| + 1 && m < |acts| && r < |acts| && ReadBy(acts[m], sid) && ReadBy(acts[r], sid)
    requires |Heard(states, acts, m, sid)| == |Heard(states, acts, r, sid)|
    ensures m == r
  {
    if m < r {
      HeardGrows(states, acts, m, r, sid);
    } else if r < m {
      HeardGrows(states, acts, r, m, sid);
    }
  }

  /** The action by which a thread reaches a stage of its service, and the stage it comes from. */
  predicate Enters(s: Sys, a: Action, sid: Sid, stage: Stage) {
    match stage
    case Inserted => a == Insert(sid) && sid in s.sessions && s.sessions[sid].phase.LoggedIn?
    case Announced => a.Announce? && a.sid == sid && Is(s, sid, Inserted)
    case Ready => a == BecomeReady(sid) && Is(s, sid, Announced)
  }

  lemma StageStep(hash: string -> string, s: Sys, a: Action, sid: Sid, stage: Stage)
    requires Enabled(s, a) && Is(Step(hash, s, a), sid, stage)
    ensures Is(s, sid, stage) || Enters(s, a, sid, stage)
  {
  }

  lemma {:induction false} StageEntered(hash: string -> string, states: seq<Sys>, acts: seq<Action>, n: nat, sid: Sid,
                                        stage: Stage)
    returns (i: nat)
    requires IsRun(hash, states, acts) && n < |states| && Is(states[n], sid, stage)
    ensures i < n && Enters(states[i], acts[i], sid, stage)
  {
    var s, a := states[n - 1], acts[n - 1];
    assert Next(hash, s, a, states[n - 1 + 1]);
    StageStep(hash, s, a, sid, stage);
    if Is(s, sid, stage) {
      i := StageEntered(hash, states, acts, n - 1, sid, stage);
    } else {
      i := n - 1;
    }
  }

  /** Whoever is served in a read loop was let in, then registered, then announced to the others, and only then made
      ready, in this order. */
  lemma {:induction false} ServedInOrder(hash: string -> string, states: seq<Sys>, acts: seq<Action>, n: nat, sid: Sid)
    returns (i: nat, j: nat, k: nat)
    requires IsRun(hash, states, acts) && n < |states| && Is(states[n], sid, Ready)
    ensures i < j < k < n
    ensures acts[i] == Insert(sid) && sid in states[i].sessions && states[i].sessions[sid].phase.LoggedIn?
    ensures acts[j].Announce? && acts[j].sid == sid && acts[k] == BecomeReady(sid)
  {
    k := StageEntered(hash, states, acts, n, sid, Ready);
    j := StageEntered(hash, states, acts, k, sid, Announced);
    i := StageEntered(hash, states, acts, j, sid, Inserted);
  }
}
