/** What each answer of a user leads to in user_auth (server/src/server_auth.c), over whole dialogues and in the
    texts and numbers of the protocol. */
module DialogueAnswers {
  import opened Text
  import opened AuthDialogue

  /** A name or password counts with its first 15 characters. */
  function First15(s: string): string {
    if |s| <= 15 then s else s[..15]
  }

  /** The dialogue takes one more read. */
  ghost predicate Goes(hash: string -> string, script: seq<Wake>, line: string, w: Wake, from: AuthState) {
    Dialogue(hash, script).state == from && !from.Finished() && w.input == Received(line)
  }

  /** What the last read of `script + [w]` led to. */
  function After(hash: string -> string, script: seq<Wake>, w: Wake): AuthState {
    Dialogue(hash, script + [w]).state
  }

  /** What that read made the server send. */
  ghost predicate Tells(hash: string -> string, script: seq<Wake>, w: Wake, outs: seq<Out>) {
    Dialogue(hash, script + [w]).sent == Dialogue(hash, script).sent + outs
  }

  /** The announcement of the round `a`, and its username prompt. */
  function Opens(a: nat): seq<Out>
    requires 0 < a < 3
  {
    [Notice(1245, 3 - a), Notice(1244, 2346)]
  }

  /** Before any read: the welcome, three attempts, the registration info and the username prompt. */
  lemma StartTells(hash: string -> string)
    ensures Dialogue(hash, [])
         == Turn(AwaitUsername(0), [Notice(1235, 2345), Notice(1245, 3), Notice(1244, 2358), Notice(1244, 2346)])
  {
  }

  /** The offer to register: "y" and "Y" ask for a password, "n" and "N" open the second round, and everything
      else ends the dialogue. */
  lemma {:induction false} ChoiceDecides(hash: string -> string, script: seq<Wake>, line: string, w: Wake, u: string)
    requires Goes(hash, script, line, w, AwaitChoice(u))
    ensures After(hash, script, w) == AwaitPassword(u) <==> line in {"y", "Y"}
    ensures After(hash, script, w) == AwaitUsername(1) <==> line in {"n", "N"}
    ensures After(hash, script, w) == Refused(1401) <==> line !in {"y", "Y", "n", "N"}
    ensures Tells(hash, script, w, if line in {"y", "Y"} then [Notice(1244, 2347)]
                                   else if line in {"n", "N"} then Opens(1) else [])
  {
    DialogueStep(hash, script, w);
  }

  /** A name that is not in the table: an offer to register in the first round, the next round in the second, the
      end in the third. */
  lemma {:induction false} UnknownNameDecides(hash: string -> string, script: seq<Wake>, line: string, w: Wake, a: nat)
    requires Goes(hash, script, line, w, AwaitUsername(a)) && First15(line) !in w.users
    ensures a < 3
    ensures After(hash, script, w) == (if a == 0 then AwaitChoice(First15(line))
                                       else if a == 1 then AwaitUsername(2) else Refused(1401))
    ensures Tells(hash, script, w, [Notice(1244, 2356)] + (if a == 0 then [Notice(1236, 2359)]
                                                           else if a == 1 then [Notice(1244, 2352)] + Opens(2)
                                                           else [Notice(1247, 2366)]))
  {
    DialogueStep(hash, script, w);
    DialogueSpends(hash, script);
  }

  /** A name that is in the table: the password prompt exactly if its uid is not online, and otherwise the next
      round or the end. */
  lemma {:induction false} KnownNameDecides(hash: string -> string, script: seq<Wake>, line: string, w: Wake, a: nat)
    requires Goes(hash, script, line, w, AwaitUsername(a)) && First15(line) in w.users
    ensures a < 3
    ensures var u, uid := First15(line), w.users[First15(line)].uid;
            After(hash, script, w) == (if uid !in w.online then AwaitLogin(a, u, uid)
                                       else if a < 2 then AwaitUsername(a + 1) else Refused(1401))
    ensures Tells(hash, script, w, if w.users[First15(line)].uid !in w.online then [Notice(1244, 2347)]
                                   else [Notice(1244, 2357)] + if a < 2 then Opens(a + 1) else [])
  {
    DialogueStep(hash, script, w);
    DialogueSpends(hash, script);
  }

  /** The password of a registration is kept with its first 15 characters. */
  lemma {:induction false} PasswordDecides(hash: string -> string, script: seq<Wake>, line: string, w: Wake, u: string)
    requires Goes(hash, script, line, w, AwaitPassword(u))
    ensures After(hash, script, w) == AwaitConfirmation(u, First15(line))
    ensures Tells(hash, script, w, [Notice(1244, 2348)])
  {
    DialogueStep(hash, script, w);
  }

  /** No row of the table has this username or this uid. */
  predicate Free(users: Users, username: string, uid: string) {
    username !in users && forall v | v in users :: users[v].uid != uid
  }

  /** The confirmation of a registration: another first 15 characters open the second round; the same ones add the
      row if neither the name nor its hash is in the table by then, and otherwise end the dialogue. */
  lemma {:induction false} ConfirmationDecides(hash: string -> string, script: seq<Wake>, line: string, w: Wake,
                                               u: string, p: string)
    requires Goes(hash, script, line, w, AwaitConfirmation(u, p))
    ensures After(hash, script, w) == AwaitUsername(1) <==> First15(line) != p
    ensures After(hash, script, w) == Granted(u, hash(u), Some(Row(hash(u), hash(p)))) <==>
              First15(line) == p && Free(w.users, u, hash(u))
    ensures After(hash, script, w) == Refused(1401) <==> First15(line) == p && !Free(w.users, u, hash(u))
    ensures Tells(hash, script, w, if First15(line) != p then [Notice(1244, 2351), Notice(1244, 2352)] + Opens(1)
                                   else if Free(w.users, u, hash(u)) then [Notice(1244, 2360), UidNotice(u, hash(u))]
                                   else [])
  {
    DialogueStep(hash, script, w);
  }

  /** The line at a login's password prompt is right. */
  predicate Right(hash: string -> string, users: Users, u: string, line: string) {
    u in users && users[u].passwordHash == hash(First15(line))
  }

  /** The password of a login: the user is let in, under the uid of the row, exactly if the hash of its first 15
      characters is the one in the table; otherwise the next round follows, or the end after the third. */
  lemma {:induction false} LoginDecides(hash: string -> string, script: seq<Wake>, line: string, w: Wake, a: nat,
                                        u: string, known: string)
    requires Goes(hash, script, line, w, AwaitLogin(a, u, known))
    ensures a < 3
    ensures After(hash, script, w) == (if Right(hash, w.users, u, line) then Granted(u, w.users[u].uid, None)
                                       else if a < 2 then AwaitUsername(a + 1) else Refused(1401))
    ensures Tells(hash, script, w, if Right(hash, w.users, u, line) then
                                     [Notice(1244, 2361), UidNotice(u, w.users[u].uid)]
                                   else if a < 2 then [Notice(1244, 2347), Notice(1244, 2352)] + Opens(a + 1)
                                   else [Notice(1244, 2350), Notice(1247, 2366)])
  {
    DialogueStep(hash, script, w);
    DialogueSpends(hash, script);
  }

  /** A read that fails, or after which the database does, ends the dialogue. */
  lemma {:induction false} FailureDecides(hash: string -> string, script: seq<Wake>, w: Wake)
    requires !Dialogue(hash, script).state.Finished() && !w.input.Received?
    ensures var atName := Dialogue(hash, script).state.AwaitUsername?;
            && Tells(hash, script, w, [])
            && After(hash, script, w) == Refused(if atName && w.input == ReadFailed then 1403 else 1401)
  {
    DialogueStep(hash, script, w);
  }

  function Last(script: seq<Wake>): Wake
    requires script != []
  {
    script[|script| - 1]
  }

  function Init(script: seq<Wake>): seq<Wake>
    requires script != []
  {
    script[..|script| - 1]
  }

  /** Every read of the script was due. */
  ghost predicate Due(hash: string -> string, script: seq<Wake>) {
    script != [] && !Dialogue(hash, Init(script)).state.Finished()
  }

  lemma {:induction false} FirstRound(hash: string -> string, script: seq<Wake>)
    ensures Dialogue(hash, script).state == AwaitUsername(0) <==> script == []
  {
    if script != [] {
      assert script == Init(script) + [Last(script)];
    }
  }

  /** The reads of a registration of `u`: a name that is not in the table, "y" or "Y", and twice the same first 15
      characters, with the name and its hash still free at the end. */
  predicate RegistrationReads(hash: string -> string, script: seq<Wake>, u: string) {
    && |script| == 4 && (forall i | 0 <= i < 4 :: script[i].input.Received?)
    && First15(script[0].input.payload) == u && u !in script[0].users
    && script[1].input.payload in {"y", "Y"}
    && First15(script[3].input.payload) == First15(script[2].input.payload)
    && Free(script[3].users, u, hash(u))
  }

  predicate NameRead(script: seq<Wake>, u: string) {
    |script| == 1 && script[0].input.Received? && First15(script[0].input.payload) == u && u !in script[0].users
  }

  predicate ChoiceRead(script: seq<Wake>, u: string) {
    && |script| == 2 && NameRead(Init(script), u)
    && script[1].input.Received? && script[1].input.payload in {"y", "Y"}
  }

  predicate PasswordRead(script: seq<Wake>, u: string, p: string) {
    && |script| == 3 && ChoiceRead(Init(script), u)
    && script[2].input.Received? && First15(script[2].input.payload) == p
  }

  lemma {:induction false} AtChoiceIff(hash: string -> string, script: seq<Wake>, u: string)
    ensures Dialogue(hash, script).state == AwaitChoice(u) <==> NameRead(script, u)
  {
    if script != [] {
      FirstRound(hash, Init(script));
      DialogueSpends(hash, Init(script));
    }
  }

  lemma {:induction false} AtPasswordIff(hash: string -> string, script: seq<Wake>, u: string)
    ensures Dialogue(hash, script).state == AwaitPassword(u) <==> ChoiceRead(script, u)
  {
    if script != [] {
      AtChoiceIff(hash, Init(script), u);
    }
  }

  lemma {:induction false} AtConfirmationIff(hash: string -> string, script: seq<Wake>, u: string, p: string)
    ensures Dialogue(hash, script).state == AwaitConfirmation(u, p) <==> PasswordRead(script, u, p)
  {
    if script != [] {
      AtPasswordIff(hash, Init(script), u);
    }
  }

  /** The state of a dialogue that has added a row for `u`. */
  predicate Adds(s: AuthState, u: string) {
    s.Granted? && s.added.Some? && s.username == u
  }

  lemma ReadsBefore(hash: string -> string, script: seq<Wake>, u: string)
    ensures RegistrationReads(hash, script, u) <==>
              && |script| == 4 && script[2].input.Received?
              && PasswordRead(Init(script), u, First15(script[2].input.payload))
              && script[3].input.Received? && First15(script[3].input.payload) == First15(script[2].input.payload)
              && Free(script[3].users, u, hash(u))
  {
  }

  /** A dialogue adds a row for `u` exactly if its reads are those of a registration of `u`; the row is the hash of
      the name and the hash of the first 15 characters of the password line. */
  lemma {:induction false} RegistersIff(hash: string -> string, script: seq<Wake>, u: string)
    requires Due(hash, script)
    ensures Adds(Dialogue(hash, script).state, u) <==> RegistrationReads(hash, script, u)
    ensures RegistrationReads(hash, script, u) ==>
              Dialogue(hash, script).state
              == Granted(u, hash(u), Some(Row(hash(u), hash(First15(script[2].input.payload)))))
  {
    ReadsBefore(hash, script, u);
    var before := Dialogue(hash, Init(script)).state;
    if before.AwaitConfirmation? {
      AtConfirmationIff(hash, Init(script), before.username, before.password);
    }
    if RegistrationReads(hash, script, u) {
      AtConfirmationIff(hash, Init(script), u, First15(script[2].input.payload));
    }
  }

  /** The reads of a login as `u`: at a username prompt a name that is in the table and not online, and then a line
      whose first 15 characters hash like the row's password. */
  ghost predicate LoginReads(hash: string -> string, script: seq<Wake>, u: string, uid: string) {
    && |script| >= 2
    && var name, word := script[|script| - 2], Last(script);
    && Dialogue(hash, Init(Init(script))).state.AwaitUsername?
    && name.input.Received? && First15(name.input.payload) == u && u in name.users && name.users[u].uid !in name.online
    && word.input.Received? && u in word.users && word.users[u] == Row(uid, hash(First15(word.input.payload)))
  }

  /** A dialogue lets somebody in as `u` without a new row exactly if its last two reads are those of a login. */
  lemma {:induction false} LogsInIff(hash: string -> string, script: seq<Wake>, u: string, uid: string)
    requires Due(hash, script)
    ensures Dialogue(hash, script).state == Granted(u, uid, None) <==> LoginReads(hash, script, u, uid)
  {
    if |script| >= 2 {
      var before := Dialogue(hash, Init(Init(script)));
      assert Init(script) == Init(Init(script)) + [script[|script| - 2]];
    }
  }
}
