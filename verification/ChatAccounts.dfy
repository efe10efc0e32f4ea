/** Accounts over whole runs of the server: rows of the users table, registering and logging in. */
module ChatAccounts {
  import opened AuthDialogue
  import opened DialogueAnswers
  import opened ChatSystem
  import opened ChatRuns
  import opened ChatDialogues

  /** `after` has every row of `before`, unchanged. */
  predicate Kept(before: Users, after: Users) {
    forall u | u in before :: u in after && after[u] == before[u]
  }

  lemma {:induction false} KeptChain(tables: seq<Users>, i: nat, j: nat)
    requires i <= j < |tables| && forall k | i <= k < j :: Kept(tables[k], tables[k + 1])
    ensures Kept(tables[i], tables[j])
  {
    if i < j {
      KeptChain(tables, i, j - 1);
      assert Kept(tables[j - 1], tables[j - 1 + 1]);
    }
  }

  lemma RowsStep(hash: string -> string, states: seq<Sys>, acts: seq<Action>, k: nat)
    requires IsRun(hash, states, acts) && k < |acts|
    ensures Kept(states[k].users, states[k + 1].users)
  {
    RunInvariant(hash, states, acts, k);
    assert Next(hash, states[k], acts[k], states[k + 1]);
    KnownStep(hash, states[k], acts[k]);
  }

  /** Rows are never lost or changed, and the table's invariant holds throughout. */
  lemma RowsPersist(hash: string -> string, states: seq<Sys>, acts: seq<Action>, i: nat, j: nat)
    requires IsRun(hash, states, acts) && i <= j < |states|
    ensures TableOk(hash, states[j].users) && Kept(states[i].users, states[j].users)
  {
    RunInvariant(hash, states, acts, j);
    var tables := seq(|states|, k requires 0 <= k < |states| => states[k].users);
    forall k | i <= k < j ensures Kept(tables[k], tables[k + 1]) {
      RowsStep(hash, states, acts, k);
    }
    KeptChain(tables, i, j);
  }

  /** The action registers `u`: its dialogue ends in success with a new row. */
  predicate Registers(hash: string -> string, s: Sys, a: Action, u: string)
    requires Enabled(s, a)
  {
    && a.AuthRead?
    && var auth := AuthTurn(hash, s, a.sid, a.input);
       auth.Granted? && auth.added.Some? && auth.username == u
  }

  /** The only action that changes the table is the one that ends a registration, and it adds one row. */
  lemma TableChange(hash: string -> string, s: Sys, a: Action)
    requires Enabled(s, a) && Known(hash, s)
    ensures var after := Step(hash, s, a).users;
            (after != s.users <==> exists u :: Registers(hash, s, a, u))
    ensures forall u | Registers(hash, s, a, u) :: u !in s.users && Step(hash, s, a).users.Keys == s.users.Keys + {u}
  {
    if a.AuthRead? {
      ResumeKeepsTable(hash, s.sessions[a.sid].phase.auth, AuthDialogue.Wake(a.input, s.users, s.registry.Keys));
      var auth := AuthTurn(hash, s, a.sid, a.input);
      if auth.Granted? && auth.added.Some? {
        assert Registers(hash, s, a, auth.username);
      }
    }
  }

  /** A row that was not there at the start was added by a registration of the run. */
  lemma {:induction false} RowOrigin(hash: string -> string, states: seq<Sys>, acts: seq<Action>, n: nat, u: string)
    requires IsRun(hash, states, acts) && n < |states|
    requires u in states[n].users && u !in states[0].users
    ensures exists i | 0 <= i < n :: Enabled(states[i], acts[i]) && Registers(hash, states[i], acts[i], u)
  {
    if u in states[n - 1].users {
      RowOrigin(hash, states, acts, n - 1, u);
    } else {
      var s, a := states[n - 1], acts[n - 1];
      assert Next(hash, s, a, states[n - 1 + 1]);
      RunInvariant(hash, states, acts, n - 1);
      TableChange(hash, s, a);
    }
  }

  /** `sid` is at `auth` in state `s`. */
  predicate At(s: Sys, sid: Sid, auth: AuthState) {
    sid in s.sessions && s.sessions[sid].phase.Authenticating? && s.sessions[sid].phase.auth == auth
  }

  /** A row for `u` is added in action `i`. */
  predicate RowAdded(states: seq<Sys>, i: nat, u: string)
    requires i + 1 < |states|
  {
    u !in states[i].users && u in states[i + 1].users
  }

  /** By action `r` the thread `sid` reads a line, its first one after `k` others. */
  predicate IsRead(states: seq<Sys>, acts: seq<Action>, r: nat, sid: Sid, k: nat)
    requires |states| == |acts| + 1
  {
    r < |acts| && ReadBy(acts[r], sid) && acts[r].input.Received? && |Heard(states, acts, r, sid)| == k
  }

  /** The dialogue of the thread that adds a row for `u`, up to and with its last read. */
  lemma {:induction false} Registering(hash: string -> string, states: seq<Sys>, acts: seq<Action>, i: nat, u: string)
    returns (script: seq<Wake>)
    requires IsRun(hash, states, acts) && i < |acts| && RowAdded(states, i, u)
    ensures acts[i].AuthRead? && script == Heard(states, acts, i + 1, acts[i].sid) && RegistrationReads(hash, script, u)
    ensures states[i + 1].users
         == states[i].users[u := Row(hash(u), hash(First15(script[2].input.payload)))]
  {
    var s, a := states[i], acts[i];
    assert Next(hash, s, a, states[i + 1]);
    RunInvariant(hash, states, acts, i);
    TableChange(hash, s, a);
    var sid := a.sid;
    script := Heard(states, acts, i + 1, sid);
    RunsDialogue(hash, states, acts, i, sid);
    DialogueStep(hash, Heard(states, acts, i, sid), WakeAt(s, a));
    assert Init(script) == Heard(states, acts, i, sid);
    RegistersIff(hash, script, u);
  }

  /** A thread that makes a read stands where its dialogue does. */
  lemma {:induction false} AtRead(hash: string -> string, states: seq<Sys>, acts: seq<Action>, r: nat, sid: Sid)
    requires IsRun(hash, states, acts) && r < |acts| && ReadBy(acts[r], sid)
    ensures At(states[r], sid, Dialogue(hash, Heard(states, acts, r, sid)).state)
  {
    assert Next(hash, states[r], acts[r], states[r + 1]);
    RunsDialogue(hash, states, acts, r, sid);
  }

  /** Every row that is ever added was asked for: its thread read the name when it was not in the table, "y" or "Y",
      the password, and at last, in the action that adds the row, a line with the same first 15 characters as the
      password; it read nothing else. The row is the hash of the name and of those 15 characters. */
  lemma {:induction false} RegistrationHeard(hash: string -> string, states: seq<Sys>, acts: seq<Action>, i: nat,
                                             u: string)
    returns (name: nat, choice: nat, chosen: nat)
    requires IsRun(hash, states, acts) && i < |acts| && RowAdded(states, i, u)
    ensures acts[i].AuthRead?
    ensures var sid := acts[i].sid;
            && IsRead(states, acts, name, sid, 0) && IsRead(states, acts, choice, sid, 1)
            && IsRead(states, acts, chosen, sid, 2) && IsRead(states, acts, i, sid, 3)
            && At(states[name], sid, AwaitUsername(0)) && At(states[chosen], sid, AwaitPassword(u))
            && First15(acts[name].input.payload) == u && u !in states[name].users
            && acts[choice].input.payload in {"y", "Y"}
            && First15(acts[i].input.payload) == First15(acts[chosen].input.payload)
            && states[i + 1].users
               == states[i].users[u := Row(hash(u), hash(First15(acts[chosen].input.payload)))]
  {
    var script := Registering(hash, states, acts, i, u);
    var sid := acts[i].sid;
    name := ReadNumber(states, acts, i + 1, sid, 0);
    choice := ReadNumber(states, acts, i + 1, sid, 1);
    chosen := ReadNumber(states, acts, i + 1, sid, 2);
    assert script == Heard(states, acts, i, sid) + [WakeAt(states[i], acts[i])];
    AtRead(hash, states, acts, name, sid);
    FirstRound(hash, script[..0]);
    AtRead(hash, states, acts, chosen, sid);
    AtPasswordIff(hash, script[..2], u);
  }

  /** Whoever has been let in, in whatever run, either registered the name in this very dialogue or gave, at its last
      read, a line whose first 15 characters hash like the password of the name's row. */
  lemma {:induction false} LetInHeard(hash: string -> string, states: seq<Sys>, acts: seq<Action>, n: nat, sid: Sid)
    requires IsRun(hash, states, acts) && n < |states| && sid in states[n].sessions
    requires states[n].sessions[sid].phase.LoggedIn? || states[n].sessions[sid].phase.Live?
    ensures var x, script := states[n].sessions[sid], Heard(states, acts, n, sid);
            RegistrationReads(hash, script, x.username) || LoginReads(hash, script, x.username, x.uid)
  {
    var x, script := states[n].sessions[sid], Heard(states, acts, n, sid);
    RunsDialogue(hash, states, acts, n, sid);
    var r := ReadNumber(states, acts, n, sid, |script| - 1);
    AtRead(hash, states, acts, r, sid);
    RunsDialogue(hash, states, acts, r, sid);
    RegistersIff(hash, script, x.username);
    LogsInIff(hash, script, x.username, x.uid);
  }

  /** Whatever the other threads do, a dialogue stays where it is. */
  lemma PositionStep(hash: string -> string, s: Sys, a: Action, sid: Sid, auth: AuthState)
    requires Enabled(s, a) && At(s, sid, auth) && !auth.Finished() && !ReadBy(a, sid)
    ensures At(Step(hash, s, a), sid, auth)
  {
  }

  lemma {:induction false} PositionKept(hash: string -> string, states: seq<Sys>, acts: seq<Action>, j: nat, k: nat,
                                        sid: Sid, auth: AuthState)
    requires IsRun(hash, states, acts) && j <= k < |states| && At(states[j], sid, auth) && !auth.Finished()
    requires forall m | j <= m < k :: !ReadBy(acts[m], sid)
    ensures At(states[k], sid, auth)
  {
    if j < k {
      PositionKept(hash, states, acts, j, k - 1, sid, auth);
      assert Next(hash, states[k - 1], acts[k - 1], states[k - 1 + 1]);
      PositionStep(hash, states[k - 1], acts[k - 1], sid, auth);
    }
  }

  /** Offering a registered and offline user gets the password prompt. */
  lemma {:induction false} NamedUser(hash: string -> string, states: seq<Sys>, acts: seq<Action>, j: nat, sid: Sid,
                                     a: nat, line: string)
    requires IsRun(hash, states, acts) && j < |acts| && acts[j] == AuthRead(sid, Received(line))
    requires At(states[j], sid, AwaitUsername(a)) && First15(line) in states[j].users
    requires states[j].users[First15(line)].uid !in states[j].registry
    ensures At(states[j + 1], sid, AwaitLogin(a, First15(line), states[j].users[First15(line)].uid))
  {
    assert Next(hash, states[j], acts[j], states[j + 1]);
    RunsDialogue(hash, states, acts, j, sid);
    KnownNameDecides(hash, Heard(states, acts, j, sid), line, WakeAt(states[j], acts[j]), a);
    DialogueStep(hash, Heard(states, acts, j, sid), WakeAt(states[j], acts[j]));
  }

  /** At the password prompt of a login: let in exactly if the first 15 characters hash like the row's password. */
  lemma {:induction false} GivenPassword(hash: string -> string, states: seq<Sys>, acts: seq<Action>, k: nat, sid: Sid,
                                         a: nat, u: string, known: string, word: string)
    requires IsRun(hash, states, acts) && k < |acts| && acts[k] == AuthRead(sid, Received(word))
    requires At(states[k], sid, AwaitLogin(a, u, known)) && u in states[k].users
    ensures sid in states[k + 1].sessions
    ensures var x := states[k + 1].sessions[sid];
            && (x.phase.LoggedIn? <==> hash(First15(word)) == states[k].users[u].passwordHash)
            && (x.phase.LoggedIn? ==> x.username == u && x.uid == states[k].users[u].uid)
  {
    assert Next(hash, states[k], acts[k], states[k + 1]);
    RunsDialogue(hash, states, acts, k, sid);
    LoginDecides(hash, Heard(states, acts, k, sid), word, WakeAt(states[k], acts[k]), a, u, known);
    DialogueStep(hash, Heard(states, acts, k, sid), WakeAt(states[k], acts[k]));
  }

  /** After `u` was registered in action `i`, with `chosen` as the line typed at the password prompt of that
      registration, a dialogue that offers `u` while it is offline asks for the password, and its next read, whatever
      all other threads did in the meantime, lets it in, under the registered uid, if the line has the same first 15
      characters as `chosen`; and, where the hash tells these two texts apart, only then. */
  lemma {:induction false} RegisterThenLogin(hash: string -> string, states: seq<Sys>, acts: seq<Action>, m: nat,
                                             i: nat, u: string, chosen: string, j: nat, k: nat, sid: Sid, a: nat,
                                             line: string, word: string)
    requires IsRun(hash, states, acts) && m < |acts| && i < j < k < |acts| && RowAdded(states, i, u)
    requires acts[i].AuthRead? && acts[m] == AuthRead(acts[i].sid, Received(chosen))
    requires At(states[m], acts[i].sid, AwaitPassword(u))
    requires acts[j] == AuthRead(sid, Received(line)) && acts[k] == AuthRead(sid, Received(word))
    requires forall l | j < l < k :: !ReadBy(acts[l], sid)
    requires At(states[j], sid, AwaitUsername(a)) && First15(line) == u && hash(u) !in states[j].registry
    ensures At(states[k], sid, AwaitLogin(a, u, hash(u))) && sid in states[k + 1].sessions
    ensures var x := states[k + 1].sessions[sid];
            && (x.phase.LoggedIn? <==> hash(First15(word)) == hash(First15(chosen)))
            && (First15(word) == First15(chosen) ==> x.phase.LoggedIn?)
            && ((hash(First15(word)) == hash(First15(chosen)) ==> First15(word) == First15(chosen)) ==>
                  (x.phase.LoggedIn? <==> First15(word) == First15(chosen)))
            && (x.phase.LoggedIn? ==> x.username == u && x.uid == hash(u))
  {
    var name, choice, r := RegistrationHeard(hash, states, acts, i, u);
    RunsDialogue(hash, states, acts, m, acts[i].sid);
    AtPasswordIff(hash, Heard(states, acts, m, acts[i].sid), u);
    SameRead(states, acts, m, r, acts[i].sid);
    RowsPersist(hash, states, acts, i + 1, j);
    RowsPersist(hash, states, acts, i + 1, k);
    NamedUser(hash, states, acts, j, sid, a, line);
    PositionKept(hash, states, acts, j + 1, k, sid, AwaitLogin(a, u, hash(u)));
    GivenPassword(hash, states, acts, k, sid, a, u, hash(u), word);
  }
}
