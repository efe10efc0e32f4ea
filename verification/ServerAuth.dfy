/** `user_auth` itself (server/src/server_auth.c): the loop with its early exits, proved to be a run of
    the machine of AuthDialogue. */
module ServerAuth {
  import opened Text
  import opened Protocol
  import opened AuthDialogue
  import opened DialogueAnswers

  /** The connection and the database as `user_auth` sees them. `future` is what the rest of the world does: what
      each read brings, and with it the table and the online uids found after it. `taken` counts the reads. */
  class Connection {
    const future: nat -> Wake
    var taken: nat
    var users: Users
    var online: set<string>
    var sent: seq<Out>

    /** What has been read so far. */
    ghost function Wakes(): (wakes: seq<Wake>)
      reads `taken
      ensures |wakes| == taken && forall i | 0 <= i < taken :: wakes[i] == future(i)
    {
      var n := taken;
      seq(n, i requires 0 <= i < n => future(i))
    }

    constructor (future: nat -> Wake)
      ensures this.future == future && taken == 0 && sent == []
    {
      this.future := future;
      taken, users, online, sent := 0, map[], {}, [];
    }

    /** SSL_read and parse_message. */
    method Read() returns (input: Input)
      modifies `taken, `users, `online
      ensures taken == old(taken) + 1 && Wakes() == old(Wakes()) + [future(old(taken))]
      ensures var w := future(old(taken)); input == w.input && users == w.users && online == w.online
    {
      var w := future(taken);
      input, users, online := w.input, w.users, w.online;
      taken := taken + 1;
    }

    /** create_message and send_message with a decimal code as payload. */
    method Send(kind: Int32, code: int)
      modifies `sent
      ensures Wakes() == old(Wakes()) && sent == old(sent) + [Notice(kind, code)]
    {
      sent := sent + [Notice(kind, code)];
    }

    method SendUid(username: string, uid: string)
      modifies `sent
      ensures Wakes() == old(Wakes()) && sent == old(sent) + [UidNotice(username, uid)]
    {
      sent := sent + [UidNotice(username, uid)];
    }
  }

  /** The dialogue stands at `state` and everything due has been sent. */
  ghost predicate Stands(hash: string -> string, c: Connection, state: AuthState)
    reads c
  {
    Dialogue(hash, c.Wakes()) == Turn(state, c.sent)
  }

  ghost predicate LastReadWasDue(hash: string -> string, wakes: seq<Wake>)
    requires wakes != []
  {
    !Dialogue(hash, wakes[..|wakes| - 1]).state.Finished()
  }

  /** The dialogue is about to open the round `attempts`, or to end without another one. */
  ghost predicate AtLoop(hash: string -> string, c: Connection, attempts: nat)
    reads c
  {
    && Dialogue(hash, c.Wakes()) == NextRound(attempts, c.sent)
    && (if c.Wakes() == [] then attempts == 0 else LastReadWasDue(hash, c.Wakes()))
    && (c.Wakes() != [] ==> c.users == c.Wakes()[|c.Wakes()| - 1].users)
  }

  /** What the caller of `user_auth` learns agrees with where the dialogue ended. */
  ghost predicate Returned(hash: string -> string, c: Connection, result: int, username: string, uid: string)
    reads c
  {
    && c.Wakes() != [] && LastReadWasDue(hash, c.Wakes())
    && var state := Dialogue(hash, c.Wakes()).state;
    && Stands(hash, c, state)
    && c.users == Committed(c.Wakes()[|c.Wakes()| - 1].users, state)
    && if result == AUTHENTICATION_SUCCESS then state.Granted? && state.username == username && state.uid == uid
       else state == Refused(result)
  }

  lemma {:induction false} EndsInBounds(hash: string -> string, wakes: seq<Wake>)
    requires wakes != [] && LastReadWasDue(hash, wakes)
    ensures |wakes| <= 8 && |Dialogue(hash, wakes).sent| <= 20
  {
    DialogueBounds(hash, wakes);
    DialogueBounds(hash, wakes[..|wakes| - 1]);
  }

  lemma {:induction false} ReturnedInBounds(hash: string -> string, c: Connection, result: int, username: string,
                                            uid: string)
    requires Returned(hash, c, result, username, uid)
    ensures c.taken <= 8 && |c.sent| <= 20
  {
    EndsInBounds(hash, c.Wakes());
  }

  /** Out of rounds, the dialogue has ended in failure. */
  lemma {:induction false} OutOfRounds(hash: string -> string, c: Connection)
    requires AtLoop(hash, c, USER_LOGIN_ATTEMPTS)
    ensures Returned(hash, c, AUTHENTICATION_FAILURE, "", "")
  {
  }

  lemma {:induction false} FinishedStays(hash: string -> string, wakes: seq<Wake>, n: nat)
    requires n <= |wakes| && Dialogue(hash, wakes[..n]).state.Finished()
    ensures Dialogue(hash, wakes).state.Finished()
    decreases |wakes|
  {
    if n == |wakes| {
      assert wakes[..n] == wakes;
    } else {
      var init := wakes[..|wakes| - 1];
      assert init[..n] == wakes[..n];
      FinishedStays(hash, init, n);
    }
  }

  lemma {:induction false} NoReadAfterEnd(hash: string -> string, wakes: seq<Wake>, n: nat)
    requires 0 < n < |wakes| && LastReadWasDue(hash, wakes)
    ensures !Dialogue(hash, wakes[..n]).state.Finished()
  {
    if Dialogue(hash, wakes[..n]).state.Finished() {
      var init := wakes[..|wakes| - 1];
      assert init[..n] == wakes[..n];
      FinishedStays(hash, init, n);
    }
  }

  /** What user_auth did with a connection is determined by the connection's future alone: two that agree with
      one future have read as much, sent the same, left the same table, and ended alike. */
  lemma {:induction false} OutcomeDetermined(hash: string -> string, c: Connection, result: int, username: string,
                                             uid: string,
                                             d: Connection, result': int, username': string, uid': string)
    requires c.future == d.future
    requires Returned(hash, c, result, username, uid) && Returned(hash, d, result', username', uid')
    ensures c.taken == d.taken && c.sent == d.sent && c.users == d.users && result == result'
    ensures result == AUTHENTICATION_SUCCESS ==> username == username' && uid == uid'
  {
    var v, w := c.Wakes(), d.Wakes();
    if |v| < |w| {
      assert v == w[..|v|];
      NoReadAfterEnd(hash, w, |v|);
    } else if |w| < |v| {
      assert w == v[..|w|];
      NoReadAfterEnd(hash, v, |w|);
    } else {
      assert v == w;
    }
    RefusedCodes(hash, v);
  }

  /** A dialogue never ends in a refusal with the code of success. */
  lemma {:induction false} RefusedCodes(hash: string -> string, wakes: seq<Wake>)
    ensures Dialogue(hash, wakes).state != Refused(AUTHENTICATION_SUCCESS)
  {
    if wakes != [] {
      RefusedCodes(hash, wakes[..|wakes| - 1]);
    }
  }

  /** Somebody is let in exactly if the reads were those of a registration or of a login; a registration leaves the
      table with its row added, and everything else leaves it as it was found with the last read. */
  lemma {:induction false} LetInIff(hash: string -> string, c: Connection, result: int, username: string, uid: string,
                                    u: string, v: string)
    requires Returned(hash, c, result, username, uid)
    ensures result == 1400 ==>
              RegistrationReads(hash, c.Wakes(), username) || LoginReads(hash, c.Wakes(), username, uid)
    ensures RegistrationReads(hash, c.Wakes(), u) ==>
              && result == 1400 && username == u && uid == hash(u)
              && c.users == Last(c.Wakes()).users[u := Row(hash(u), hash(First15(c.Wakes()[2].input.payload)))]
    ensures LoginReads(hash, c.Wakes(), u, v) ==>
              result == 1400 && username == u && uid == v && c.users == Last(c.Wakes()).users
    ensures result != 1400 ==> c.users == Last(c.Wakes()).users
  {
    RegistersIff(hash, c.Wakes(), username);
    RegistersIff(hash, c.Wakes(), u);
    LogsInIff(hash, c.Wakes(), username, uid);
    LogsInIff(hash, c.Wakes(), u, v);
    RefusedCodes(hash, c.Wakes());
  }

  /** user_auth */
  method UserAuth(hash: string -> string, c: Connection) returns (result: int, username: string, uid: string)
    requires c.sent == [] && c.taken == 0
    modifies c
    ensures Returned(hash, c, result, username, uid)
    ensures c.taken <= 8 && |c.sent| <= 20
    ensures result == 1400 ==>
              RegistrationReads(hash, c.Wakes(), username) || LoginReads(hash, c.Wakes(), username, uid)
  {
    var attempts := 0;
    while attempts < USER_LOGIN_ATTEMPTS
      invariant attempts <= USER_LOGIN_ATTEMPTS && AtLoop(hash, c, attempts)
    {
      var again;
      again, result, username, uid := Round(hash, c, attempts);
      if !again {
        ReturnedInBounds(hash, c, result, username, uid);
        LetInIff(hash, c, result, username, uid, username, uid);
        return;
      }
      attempts := attempts + 1;
    }
    OutOfRounds(hash, c);
    result, username, uid := AUTHENTICATION_FAILURE, "", "";
    ReturnedInBounds(hash, c, result, username, uid);
  }

  /** The loop body; `again` stands for `attempts++` and the jump back to the loop test. */
  method Round(hash: string -> string, c: Connection, attempts: nat)
    returns (again: bool, result: int, username: string, uid: string)
    requires AtLoop(hash, c, attempts) && attempts < USER_LOGIN_ATTEMPTS
    modifies c
    ensures old(c.taken) < c.taken
    ensures if again then AtLoop(hash, c, attempts + 1) && c.Wakes() != [] else Returned(hash, c, result, username, uid)
  {
    SendOpening(hash, c, attempts);
    var input := ReadNext(hash, c, AwaitUsername(attempts));
    if !input.Received? {
      return false, if input.ReadFailed? then USERNAME_RECEIVE_FAILURE else AUTHENTICATION_FAILURE, "", "";
    }
    username := TruncateUsername(input.payload);
    if username !in c.users {
      again, result, uid := UnknownUser(hash, c, attempts, username, input.payload);
    } else if c.users[username].uid in c.online {
      ghost var sent := c.sent;
      c.Send(AUTH, USER_ALREADY_ONLINE);
      Regroup(sent, [Notice(AUTH, USER_ALREADY_ONLINE)], c.sent, attempts + 1);
      again, result, uid := true, AUTHENTICATION_FAILURE, "";
    } else {
      c.Send(AUTH, ENTER_PASSWORD);
      again, result, uid := Login(hash, c, attempts, username, c.users[username].uid);
    }
  }

  /** The branch of a username that is not in the table: registration in round 0, an error afterwards. */
  method UnknownUser(hash: string -> string, c: Connection, attempts: nat, username: string, ghost payload: string)
    returns (again: bool, result: int, uid: string)
    requires attempts < USER_LOGIN_ATTEMPTS && username == TruncateUsername(payload) && username !in c.users
    requires c.Wakes() != [] && LastReadWasDue(hash, c.Wakes()) && c.users == c.Wakes()[|c.Wakes()| - 1].users
    requires var turn := OnUsername(attempts, payload, c.users, c.online);
             Dialogue(hash, c.Wakes()) == Turn(turn.state, c.sent + turn.sent)
    modifies c
    ensures old(c.taken) <= c.taken
    ensures if again then AtLoop(hash, c, attempts + 1) && c.Wakes() != [] else Returned(hash, c, result, username, uid)
  {
    again, result, uid := true, AUTHENTICATION_FAILURE, "";
    ghost var sent := c.sent;
    c.Send(AUTH, USER_DOES_NOT_EXIST);
    if attempts == 0 {
      c.Send(CHOICE, USER_REGISTER_CHOICE);
      assert c.sent == sent + [Notice(AUTH, USER_DOES_NOT_EXIST), Notice(CHOICE, USER_REGISTER_CHOICE)];
      again, result, uid := Register(hash, c, username);
    } else if attempts + 1 == USER_LOGIN_ATTEMPTS {
      c.Send(ERROR, ATTEMPTS_EXCEEDED);
      assert c.sent == sent + [Notice(AUTH, USER_DOES_NOT_EXIST), Notice(ERROR, ATTEMPTS_EXCEEDED)];
      again := false;
    } else {
      c.Send(AUTH, TRY_AGAIN);
      Regroup(sent, [Notice(AUTH, USER_DOES_NOT_EXIST), Notice(AUTH, TRY_AGAIN)], c.sent, attempts + 1);
    }
  }

  lemma Regroup(before: seq<Out>, notices: seq<Out>, after: seq<Out>, attempts: nat)
    requires after == before + notices
    ensures NextRound(attempts, after).state == NextRound(attempts, notices).state
    ensures NextRound(attempts, after).sent == before + NextRound(attempts, notices).sent
  {
    assert (before + notices) + Opening(attempts) == before + (notices + Opening(attempts));
  }

  method SendOpening(hash: string -> string, c: Connection, attempts: nat)
    requires AtLoop(hash, c, attempts) && attempts < USER_LOGIN_ATTEMPTS
    modifies c`sent
    ensures Stands(hash, c, AwaitUsername(attempts))
  {
    if attempts == 0 {
      c.Send(TOAST, WELCOME);
      c.Send(AUTH_ATTEMPTS, USER_LOGIN_ATTEMPTS - attempts);
      c.Send(AUTH, USER_REGISTER_INFO);
    } else {
      c.Send(AUTH_ATTEMPTS, USER_LOGIN_ATTEMPTS - attempts);
    }
    c.Send(AUTH, ENTER_USERNAME);
    assert c.sent == old(c.sent) + Opening(attempts);
  }

  /** One blocking read at a known point of the dialogue. */
  method ReadNext(hash: string -> string, c: Connection, ghost state: AuthState) returns (input: Input)
    requires !state.Finished() && Stands(hash, c, state)
    modifies c
    ensures c.taken == old(c.taken) + 1 && c.sent == old(c.sent) && LastReadWasDue(hash, c.Wakes())
    ensures var w := c.Wakes()[|c.Wakes()| - 1];
            && input == w.input && c.users == w.users && c.online == w.online
            && Dialogue(hash, c.Wakes()) == Turn(Resume(hash, state, w).state, c.sent + Resume(hash, state, w).sent)
  {
    input := c.Read();
    ghost var w := c.Wakes()[|c.Wakes()| - 1];
    assert c.Wakes() == old(c.Wakes()) + [w];
    DialogueStep(hash, old(c.Wakes()), w);
  }

  /** The registration branch of round 0, from the y/n choice on; `again` means the next round follows. */
  method Register(hash: string -> string, c: Connection, username: string)
    returns (again: bool, result: int, uid: string)
    requires Stands(hash, c, AwaitChoice(username))
    modifies c
    ensures old(c.taken) < c.taken
    ensures if again then AtLoop(hash, c, 1) && c.Wakes() != [] else Returned(hash, c, result, username, uid)
    ensures var choice := c.future(old(c.taken)).input;
            if choice == Received("y") || choice == Received("Y") then
              old(c.sent) + [Notice(1244, 2347)] <= c.sent && old(c.taken) + 1 < c.taken
            else
              && c.sent == old(c.sent) && c.taken == old(c.taken) + 1
              && (again <==> choice == Received("n") || choice == Received("N")) && (!again ==> result == 1401)
  {
    again, result, uid := false, AUTHENTICATION_FAILURE, "";
    var input := ReadNext(hash, c, AwaitChoice(username));
    if !input.Received? {
      return;
    }
    if input.payload == "y" || input.payload == "Y" {
      c.Send(AUTH, ENTER_PASSWORD);
      again, result, uid := ChoosePassword(hash, c, username);
    } else if input.payload == "n" || input.payload == "N" {
      again := true;
      Regroup(c.sent, [], c.sent, 1);
    }
  }

  method ChoosePassword(hash: string -> string, c: Connection, username: string)
    returns (again: bool, result: int, uid: string)
    requires Stands(hash, c, AwaitPassword(username))
    modifies c
    ensures old(c.taken) < c.taken && old(c.sent) <= c.sent
    ensures if again then AtLoop(hash, c, 1) && c.Wakes() != [] else Returned(hash, c, result, username, uid)
  {
    again, result, uid := false, AUTHENTICATION_FAILURE, "";
    var input := ReadNext(hash, c, AwaitPassword(username));
    if !input.Received? {
      return;
    }
    var password := TruncatePassword(input.payload);
    c.Send(AUTH, ENTER_PASSWORD_CONFIRMATION);
    again, result, uid := ConfirmPassword(hash, c, username, password);
  }

  method ConfirmPassword(hash: string -> string, c: Connection, username: string, password: string)
    returns (again: bool, result: int, uid: string)
    requires Stands(hash, c, AwaitConfirmation(username, password))
    modifies c
    ensures old(c.taken) < c.taken && old(c.sent) <= c.sent
    ensures if again then AtLoop(hash, c, 1) && c.Wakes() != [] else Returned(hash, c, result, username, uid)
  {
    again, result, uid := false, AUTHENTICATION_FAILURE, "";
    var input := ReadNext(hash, c, AwaitConfirmation(username, password));
    if !input.Received? {
      return;
    }
    var confirmation := TruncatePassword(input.payload);
    if password == confirmation {
      uid := Uid(hash, username);
      if !CanInsert(c.users, username, uid) {
        return;
      }
      AddUser(hash, c, username, password, uid);
      result := AUTHENTICATION_SUCCESS;
    } else {
      ghost var sent := c.sent;
      c.Send(AUTH, PASSWORDS_DO_NOT_MATCH);
      c.Send(AUTH, TRY_AGAIN);
      Regroup(sent, [Notice(AUTH, PASSWORDS_DO_NOT_MATCH), Notice(AUTH, TRY_AGAIN)], c.sent, 1);
      again := true;
    }
  }

  /** The INSERT, and the two messages after it. */
  method AddUser(hash: string -> string, c: Connection, username: string, password: string, uid: string)
    requires c.Wakes() != [] && LastReadWasDue(hash, c.Wakes()) && c.users == Last(c.Wakes()).users
    requires var row := Row(uid, PasswordHash(hash, password));
             Dialogue(hash, c.Wakes()) == Turn(Granted(username, uid, Some(row)),
                                               c.sent + [Notice(AUTH, USER_CREATED), UidNotice(username, uid)])
    modifies c`users, c`sent
    ensures old(c.sent) <= c.sent && Returned(hash, c, AUTHENTICATION_SUCCESS, username, uid)
  {
    c.users := c.users[username := Row(uid, PasswordHash(hash, password))];
    c.Send(AUTH, USER_CREATED);
    c.SendUid(username, uid);
    assert c.sent == old(c.sent) + [Notice(AUTH, USER_CREATED), UidNotice(username, uid)];
  }

  /** The branch of a password that is not in the table. */
  method WrongPassword(hash: string -> string, c: Connection, attempts: nat) returns (again: bool)
    requires attempts < USER_LOGIN_ATTEMPTS && c.Wakes() != [] && LastReadWasDue(hash, c.Wakes())
    requires c.users == c.Wakes()[|c.Wakes()| - 1].users
    requires var turn := if attempts + 1 == USER_LOGIN_ATTEMPTS then
                           Turn(Refused(AUTHENTICATION_FAILURE),
                               [Notice(AUTH, INVALID_PASSWORD), Notice(ERROR, ATTEMPTS_EXCEEDED)])
                         else
                           NextRound(attempts + 1, [Notice(AUTH, ENTER_PASSWORD), Notice(AUTH, TRY_AGAIN)]);
             Dialogue(hash, c.Wakes()) == Turn(turn.state, c.sent + turn.sent)
    modifies c`sent
    ensures if again then AtLoop(hash, c, attempts + 1) else Returned(hash, c, AUTHENTICATION_FAILURE, "", "")
  {
    ghost var sent := c.sent;
    again := attempts + 1 != USER_LOGIN_ATTEMPTS;
    if again {
      c.Send(AUTH, ENTER_PASSWORD);
      c.Send(AUTH, TRY_AGAIN);
      Regroup(sent, [Notice(AUTH, ENTER_PASSWORD), Notice(AUTH, TRY_AGAIN)], c.sent, attempts + 1);
    } else {
      c.Send(AUTH, INVALID_PASSWORD);
      c.Send(ERROR, ATTEMPTS_EXCEEDED);
      assert c.sent == sent + [Notice(AUTH, INVALID_PASSWORD), Notice(ERROR, ATTEMPTS_EXCEEDED)];
    }
  }

  /** The login branch of an existing, offline user. */
  method Login(hash: string -> string, c: Connection, attempts: nat, username: string, known: string)
    returns (again: bool, result: int, uid: string)
    requires attempts < USER_LOGIN_ATTEMPTS && Stands(hash, c, AwaitLogin(attempts, username, known))
    modifies c
    ensures old(c.taken) < c.taken
    ensures if again then AtLoop(hash, c, attempts + 1) && c.Wakes() != [] else Returned(hash, c, result, username, uid)
  {
    again, result, uid := false, AUTHENTICATION_FAILURE, "";
    var input := ReadNext(hash, c, AwaitLogin(attempts, username, known));
    if !input.Received? {
      return;
    }
    var password := TruncatePassword(input.payload);
    ghost var sent := c.sent;
    if username !in c.users || c.users[username].passwordHash != PasswordHash(hash, password) {
      again := WrongPassword(hash, c, attempts);
    } else {
      uid := c.users[username].uid;
      c.Send(AUTH, USER_AUTHENTICATED);
      c.SendUid(username, uid);
      assert c.sent == sent + [Notice(AUTH, USER_AUTHENTICATED), UidNotice(username, uid)];
      result := AUTHENTICATION_SUCCESS;
    }
  }
}
