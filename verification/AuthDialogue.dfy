/** The login and registration dialogue of the server (server/src/server_auth.c) as a machine that is
    resumed at each blocking read, its bounds, and what it does to the users table. */
module AuthDialogue {
  import opened Text
  import opened Hashing
  import opened Protocol

  const USER_LOGIN_ATTEMPTS: nat := 3

  const AUTHENTICATION_SUCCESS: int := 1400
  const AUTHENTICATION_FAILURE: int := 1401
  const USERNAME_RECEIVE_FAILURE: int := 1403

  datatype Row = Row(uid: string, passwordHash: string)

  /** The users table, keyed by its UNIQUE username column. */
  type Users = map<string, Row>

  /** What the server sends: a type with a decimal code, or the `username|uid` message. */
  datatype Out = Notice(kind: Int32, code: int) | UidNotice(username: string, uid: string)

  /** What a blocking read brings: a parsed payload, a failed read, or a frame after which a database,
      hash or allocation call fails. */
  datatype Input = Received(payload: string) | ReadFailed | Broken

  /** The moment a read returns, with the users table and the online uids of that moment. */
  datatype Wake = Wake(input: Input, users: Users, online: set<string>)

  datatype AuthState =
    | AwaitUsername(attempts: nat)
    | AwaitChoice(username: string)
    | AwaitPassword(username: string)
    | AwaitConfirmation(username: string, password: string)
    | AwaitLogin(attempts: nat, username: string, uid: string)
    | Granted(username: string, uid: string, added: Option<Row>)
    | Refused(code: int)
  {
    predicate Finished() {
      Granted? || Refused?
    }
  }

  datatype Turn = Turn(state: AuthState, sent: seq<Out>)

  function TruncateUsername(s: string): string {
    Take(s, MAX_USERNAME_LENGTH - 1)
  }

  function TruncatePassword(s: string): string {
    Take(s, MAX_PASSWORD_LENGTH - 1)
  }

  function Uid(hash: string -> string, username: string): string {
    hash(username)
  }

  function PasswordHash(hash: string -> string, password: string): string {
    hash(password)
  }

  /** The UNIQUE constraints on username and uid. */
  predicate CanInsert(users: Users, username: string, uid: string) {
    username !in users && forall u | u in users :: users[u].uid != uid
  }

  /** What an authentication round sends before it reads a username. */
  function Opening(attempts: nat): seq<Out> {
    (if attempts == 0 then
       [Notice(TOAST, WELCOME), Notice(AUTH_ATTEMPTS, USER_LOGIN_ATTEMPTS), Notice(AUTH, USER_REGISTER_INFO)]
     else
       [Notice(AUTH_ATTEMPTS, USER_LOGIN_ATTEMPTS - attempts)])
    + [Notice(AUTH, ENTER_USERNAME)]
  }

  /** The loop test: another round, or out of attempts. */
  function NextRound(attempts: nat, sent: seq<Out>): Turn {
    if attempts < USER_LOGIN_ATTEMPTS then Turn(AwaitUsername(attempts), sent + Opening(attempts))
    else Turn(Refused(AUTHENTICATION_FAILURE), sent)
  }

  function OnUsername(attempts: nat, payload: string, users: Users, online: set<string>): Turn {
    var username := TruncateUsername(payload);
    if username !in users then
      if attempts == 0 then
        Turn(AwaitChoice(username), [Notice(AUTH, USER_DOES_NOT_EXIST), Notice(CHOICE, USER_REGISTER_CHOICE)])
      else if attempts + 1 == USER_LOGIN_ATTEMPTS then
        Turn(Refused(AUTHENTICATION_FAILURE), [Notice(AUTH, USER_DOES_NOT_EXIST), Notice(ERROR, ATTEMPTS_EXCEEDED)])
      else
        NextRound(attempts + 1, [Notice(AUTH, USER_DOES_NOT_EXIST), Notice(AUTH, TRY_AGAIN)])
    else if users[username].uid in online then
      NextRound(attempts + 1, [Notice(AUTH, USER_ALREADY_ONLINE)])
    else
      Turn(AwaitLogin(attempts, username, users[username].uid), [Notice(AUTH, ENTER_PASSWORD)])
  }

  function OnChoice(username: string, payload: string): Turn {
    if payload == "y" || payload == "Y" then Turn(AwaitPassword(username), [Notice(AUTH, ENTER_PASSWORD)])
    else if payload == "n" || payload == "N" then NextRound(1, [])
    else Turn(Refused(AUTHENTICATION_FAILURE), [])
  }

  function OnConfirmation(hash: string -> string, username: string, password: string, payload: string,
                          users: Users): Turn {
    if TruncatePassword(payload) != password then
      NextRound(1, [Notice(AUTH, PASSWORDS_DO_NOT_MATCH), Notice(AUTH, TRY_AGAIN)])
    else
      var uid := Uid(hash, username);
      if CanInsert(users, username, uid) then
        Turn(Granted(username, uid, Some(Row(uid, PasswordHash(hash, password)))),
             [Notice(AUTH, USER_CREATED), UidNotice(username, uid)])
      else
        Turn(Refused(AUTHENTICATION_FAILURE), [])
  }

  function OnLogin(hash: string -> string, attempts: nat, username: string, payload: string, users: Users): Turn {
    if username in users && users[username].passwordHash == PasswordHash(hash, TruncatePassword(payload)) then
      var uid := users[username].uid;
      Turn(Granted(username, uid, None), [Notice(AUTH, USER_AUTHENTICATED), UidNotice(username, uid)])
    else if attempts + 1 == USER_LOGIN_ATTEMPTS then
      Turn(Refused(AUTHENTICATION_FAILURE), [Notice(AUTH, INVALID_PASSWORD), Notice(ERROR, ATTEMPTS_EXCEEDED)])
    else
      NextRound(attempts + 1, [Notice(AUTH, ENTER_PASSWORD), Notice(AUTH, TRY_AGAIN)])
  }

  /** Everything `user_auth` does from one blocking read to the next (or to its return). */
  function Resume(hash: string -> string, s: AuthState, w: Wake): Turn
    requires !s.Finished()
  {
    if !w.input.Received? then
      Turn(Refused(if s.AwaitUsername? && w.input.ReadFailed? then USERNAME_RECEIVE_FAILURE
          else AUTHENTICATION_FAILURE), [])
    else
      match s
      case AwaitUsername(a) => OnUsername(a, w.input.payload, w.users, w.online)
      case AwaitChoice(u) => OnChoice(u, w.input.payload)
      case AwaitPassword(u) =>
        Turn(AwaitConfirmation(u, TruncatePassword(w.input.payload)), [Notice(AUTH, ENTER_PASSWORD_CONFIRMATION)])
      case AwaitConfirmation(u, p) => OnConfirmation(hash, u, p, w.input.payload, w.users)
      case AwaitLogin(a, u, _) => OnLogin(hash, a, u, w.input.payload, w.users)
  }

  /** Of the online uids only that of the named user matters, and only to a username. */
  lemma OnlineOfName(hash: string -> string, s: AuthState, input: Input, users: Users, online: set<string>,
                     known: set<string>)
    requires !s.Finished()
    requires s.AwaitUsername? && input.Received? && TruncateUsername(input.payload) in users ==>
               var uid := users[TruncateUsername(input.payload)].uid; uid in online <==> uid in known
    ensures Resume(hash, s, Wake(input, users, online)) == Resume(hash, s, Wake(input, users, known))
  {
  }

  /** The dialogue after the given reads: where the server stands and all it has sent. */
  function Dialogue(hash: string -> string, script: seq<Wake>): Turn {
    if script == [] then NextRound(0, [])
    else
      var before := Dialogue(hash, script[..|script| - 1]);
      if before.state.Finished() then before
      else
        var turn := Resume(hash, before.state, script[|script| - 1]);
        Turn(turn.state, before.sent + turn.sent)
  }

  lemma {:induction false} DialogueStep(hash: string -> string, script: seq<Wake>, w: Wake)
    requires !Dialogue(hash, script).state.Finished()
    ensures var turn := Resume(hash, Dialogue(hash, script).state, w);
            Dialogue(hash, script + [w]) == Turn(turn.state, Dialogue(hash, script).sent + turn.sent)
  {
    assert (script + [w])[..|script|] == script;
  }

  /** How many more reads and sends a dialogue at `s` can make. */
  function ReadsLeft(s: AuthState): nat {
    match s
    case AwaitUsername(a) => if a == 0 then 8 else if a == 1 then 4 else 2
    case AwaitChoice(_) => 7
    case AwaitPassword(_) => 6
    case AwaitConfirmation(_, _) => 5
    case AwaitLogin(a, _, _) => if a == 0 then 5 else if a == 1 then 3 else 1
    case _ => 0
  }

  function SendsLeft(s: AuthState): nat {
    match s
    case AwaitUsername(a) => if a == 0 then 16 else if a == 1 then 8 else 3
    case AwaitChoice(_) => 14
    case AwaitPassword(_) => 13
    case AwaitConfirmation(_, _) => 12
    case AwaitLogin(a, _, _) => if a == 0 then 12 else if a == 1 then 7 else 2
    case _ => 0
  }

  /** Every reachable position is in one of the rounds 0, 1 and 2. */
  predicate InRounds(s: AuthState) {
    (s.AwaitUsername? || s.AwaitLogin? ==> s.attempts < USER_LOGIN_ATTEMPTS)
  }

  lemma ResumeSpends(hash: string -> string, s: AuthState, w: Wake)
    requires !s.Finished() && InRounds(s)
    ensures var t := Resume(hash, s, w);
            InRounds(t.state) && ReadsLeft(t.state) < ReadsLeft(s) && |t.sent| + SendsLeft(t.state) <= SendsLeft(s)
  {
  }

  lemma {:induction false} DialogueSpends(hash: string -> string, script: seq<Wake>)
    ensures var t := Dialogue(hash, script);
            && InRounds(t.state)
            && |t.sent| + SendsLeft(t.state) <= 20
            && (|script| <= 8 || t.state.Finished())
            && (!t.state.Finished() ==> |script| + ReadsLeft(t.state) <= 8)
  {
    if script != [] {
      DialogueSpends(hash, script[..|script| - 1]);
      var before := Dialogue(hash, script[..|script| - 1]);
      if !before.state.Finished() {
        ResumeSpends(hash, before.state, script[|script| - 1]);
      }
    }
  }

  /** The remaining-attempts announcements, in order. */
  function Announced(sent: seq<Out>): seq<int> {
    if sent == [] then []
    else
      var last := sent[|sent| - 1];
      Announced(sent[..|sent| - 1]) + if last.Notice? && last.kind == AUTH_ATTEMPTS then [last.code] else []
  }

  /** The number of registration offers. */
  function Offers(sent: seq<Out>): nat {
    if sent == [] then 0
    else Offers(sent[..|sent| - 1]) + if sent[|sent| - 1] == Notice(CHOICE, USER_REGISTER_CHOICE) then 1 else 0
  }

  lemma {:induction false} Counts(a: seq<Out>, b: seq<Out>)
    ensures Announced(a + b) == Announced(a) + Announced(b)
    ensures Offers(a + b) == Offers(a) + Offers(b)
  {
    if b == [] {
      assert a + b == a;
    } else {
      assert (a + b)[..|a + b| - 1] == a + b[..|b| - 1];
      Counts(a, b[..|b| - 1]);
    }
  }

  predicate Counted(o: Out) {
    (o.Notice? && o.kind == AUTH_ATTEMPTS) || o == Notice(CHOICE, USER_REGISTER_CHOICE)
  }

  lemma {:induction false} NothingCounted(outs: seq<Out>)
    requires forall i | 0 <= i < |outs| :: !Counted(outs[i])
    ensures Announced(outs) == [] && Offers(outs) == 0
  {
    if outs != [] {
      NothingCounted(outs[..|outs| - 1]);
    }
  }

  lemma OneCounted(o: Out)
    ensures Announced([o]) == (if o.Notice? && o.kind == AUTH_ATTEMPTS then [o.code] else [])
    ensures Offers([o]) == (if o == Notice(CHOICE, USER_REGISTER_CHOICE) then 1 else 0)
  {
    assert [o][..0] == [];
  }

  /** The rounds opened up to `attempts`, as announced. */
  function Countdown(attempts: nat): seq<int> {
    if attempts == 0 then [3] else if attempts == 1 then [3, 2] else [3, 2, 1]
  }

  /** What the position says about the announcements and offers made so far. */
  predicate Told(s: AuthState, announced: seq<int>, offers: nat) {
    match s
    case AwaitUsername(a) => announced == Countdown(a) && (if a == 0 then offers == 0 else offers <= 1)
    case AwaitLogin(a, _, _) => announced == Countdown(a) && (if a == 0 then offers == 0 else offers <= 1)
    case AwaitChoice(_) => announced == [3] && offers == 1
    case AwaitPassword(_) => announced == [3] && offers == 1
    case AwaitConfirmation(_, _) => announced == [3] && offers == 1
    case _ => [3] <= announced <= [3, 2, 1] && offers <= 1
  }

  lemma OpeningCounts(attempts: nat)
    requires 0 < attempts
    ensures Announced(Opening(attempts)) == [USER_LOGIN_ATTEMPTS - attempts] && Offers(Opening(attempts)) == 0
  {
    var announcement, prompt := Notice(AUTH_ATTEMPTS, USER_LOGIN_ATTEMPTS - attempts), Notice(AUTH, ENTER_USERNAME);
    assert Opening(attempts) == [announcement] + [prompt];
    Counts([announcement], [prompt]);
    OneCounted(announcement);
    OneCounted(prompt);
  }

  lemma NextRoundCounts(attempts: nat, notices: seq<Out>)
    requires 0 < attempts && forall i | 0 <= i < |notices| :: !Counted(notices[i])
    ensures var t := NextRound(attempts, notices);
            Announced(t.sent) == (if t.state.AwaitUsername? then [USER_LOGIN_ATTEMPTS - attempts] else [])
                && Offers(t.sent) == 0
  {
    NothingCounted(notices);
    if attempts < USER_LOGIN_ATTEMPTS {
      OpeningCounts(attempts);
      Counts(notices, Opening(attempts));
    }
  }

  lemma OfferCounts()
    ensures var sent := [Notice(AUTH, USER_DOES_NOT_EXIST), Notice(CHOICE, USER_REGISTER_CHOICE)];
            Announced(sent) == [] && Offers(sent) == 1
  {
    Counts([Notice(AUTH, USER_DOES_NOT_EXIST)], [Notice(CHOICE, USER_REGISTER_CHOICE)]);
    OneCounted(Notice(AUTH, USER_DOES_NOT_EXIST));
    OneCounted(Notice(CHOICE, USER_REGISTER_CHOICE));
    assert [Notice(AUTH, USER_DOES_NOT_EXIST)] + [Notice(CHOICE, USER_REGISTER_CHOICE)]
        == [Notice(AUTH, USER_DOES_NOT_EXIST), Notice(CHOICE, USER_REGISTER_CHOICE)];
  }

  /** A turn from round `a` announces at most the next round and offers registration at most from round 0. */
  predicate TurnCounts(t: Turn, a: nat) {
    && (Offers(t.sent) == if t.state.AwaitChoice? then 1 else 0)
    && (Announced(t.sent) == if t.state.AwaitUsername? then [USER_LOGIN_ATTEMPTS - (a + 1)] else [])
    && (t.state.AwaitUsername? ==> t.state.attempts == a + 1 < USER_LOGIN_ATTEMPTS)
    && (t.state.AwaitLogin? ==> t.state.attempts == a)
    && (t.state.AwaitChoice? ==> a == 0)
  }

  lemma UsernameCounts(a: nat, payload: string, users: Users, online: set<string>)
    requires a < USER_LOGIN_ATTEMPTS
    ensures TurnCounts(OnUsername(a, payload, users, online), a)
  {
    var t := OnUsername(a, payload, users, online);
    if t.state.AwaitChoice? {
      OfferCounts();
    } else if TruncateUsername(payload) in users && users[TruncateUsername(payload)].uid in online {
      NextRoundCounts(a + 1, [Notice(AUTH, USER_ALREADY_ONLINE)]);
    } else if t.state.AwaitUsername? {
      NextRoundCounts(a + 1, [Notice(AUTH, USER_DOES_NOT_EXIST), Notice(AUTH, TRY_AGAIN)]);
    } else {
      NothingCounted(t.sent);
    }
  }

  lemma ChoiceCounts(username: string, payload: string)
    ensures TurnCounts(OnChoice(username, payload), 0)
  {
    var t := OnChoice(username, payload);
    if t.state.AwaitUsername? {
      NextRoundCounts(1, []);
    } else {
      NothingCounted(t.sent);
    }
  }

  lemma ConfirmationCounts(hash: string -> string, username: string, password: string, payload: string, users: Users)
    ensures TurnCounts(OnConfirmation(hash, username, password, payload, users), 0)
  {
    var t := OnConfirmation(hash, username, password, payload, users);
    if TruncatePassword(payload) != password {
      NextRoundCounts(1, [Notice(AUTH, PASSWORDS_DO_NOT_MATCH), Notice(AUTH, TRY_AGAIN)]);
    } else {
      NothingCounted(t.sent);
    }
  }

  lemma LoginCounts(hash: string -> string, a: nat, username: string, payload: string, users: Users)
    requires a < USER_LOGIN_ATTEMPTS
    ensures TurnCounts(OnLogin(hash, a, username, payload, users), a)
  {
    var t := OnLogin(hash, a, username, payload, users);
    if t.state.AwaitUsername? {
      NextRoundCounts(a + 1, [Notice(AUTH, ENTER_PASSWORD), Notice(AUTH, TRY_AGAIN)]);
    } else {
      NothingCounted(t.sent);
    }
  }

  function RoundOf(s: AuthState): nat {
    if s.AwaitUsername? || s.AwaitLogin? then s.attempts else 0
  }

  lemma ResumeCounts(hash: string -> string, s: AuthState, w: Wake)
    requires !s.Finished() && InRounds(s)
    ensures TurnCounts(Resume(hash, s, w), RoundOf(s))
    ensures Resume(hash, s, w).state.AwaitChoice? || Resume(hash, s, w).state.AwaitLogin? ==> s.AwaitUsername?
  {
    if w.input.Received? {
      match s
      case AwaitUsername(a) => UsernameCounts(a, w.input.payload, w.users, w.online);
      case AwaitChoice(u) => ChoiceCounts(u, w.input.payload);
      case AwaitPassword(_) => NothingCounted(Resume(hash, s, w).sent);
      case AwaitConfirmation(u, p) => ConfirmationCounts(hash, u, p, w.input.payload, w.users);
      case AwaitLogin(a, u, _) => LoginCounts(hash, a, u, w.input.payload, w.users);
    } else {
      NothingCounted(Resume(hash, s, w).sent);
    }
  }

  lemma StartTold()
    ensures var t := NextRound(0, []); Told(t.state, Announced(t.sent), Offers(t.sent))
  {
    var announcement := [Notice(AUTH_ATTEMPTS, USER_LOGIN_ATTEMPTS)];
    var prompt := [Notice(AUTH, USER_REGISTER_INFO), Notice(AUTH, ENTER_USERNAME)];
    assert NextRound(0, []).sent == [Notice(TOAST, WELCOME)] + (announcement + prompt);
    Counts([Notice(TOAST, WELCOME)], announcement + prompt);
    Counts(announcement, prompt);
    NothingCounted([Notice(TOAST, WELCOME)]);
    NothingCounted(prompt);
    OneCounted(announcement[0]);
  }

  lemma {:induction false} DialogueTold(hash: string -> string, script: seq<Wake>)
    ensures var t := Dialogue(hash, script); Told(t.state, Announced(t.sent), Offers(t.sent))
  {
    if script == [] {
      StartTold();
    } else {
      var before := Dialogue(hash, script[..|script| - 1]);
      DialogueTold(hash, script[..|script| - 1]);
      DialogueSpends(hash, script[..|script| - 1]);
      if !before.state.Finished() {
        var turn := Resume(hash, before.state, script[|script| - 1]);
        ResumeCounts(hash, before.state, script[|script| - 1]);
        ToldStep(before, turn);
      }
    }
  }

  lemma ToldStep(before: Turn, turn: Turn)
    requires !before.state.Finished() && InRounds(before.state) && TurnCounts(turn, RoundOf(before.state))
    requires turn.state.AwaitChoice? || turn.state.AwaitLogin? ==> before.state.AwaitUsername?
    requires turn.state.AwaitPassword? ==> before.state.AwaitChoice?
    requires turn.state.AwaitConfirmation? ==> before.state.AwaitPassword?
    requires Told(before.state, Announced(before.sent), Offers(before.sent))
    ensures Told(turn.state, Announced(before.sent + turn.sent), Offers(before.sent + turn.sent))
  {
    Counts(before.sent, turn.sent);
  }

  /** user_auth stops after at most 8 reads and 20 sends; it announces a prefix of 3, 2, 1 attempts and
      offers registration at most once, while only "3" has been announced. */
  lemma {:induction false} DialogueBounds(hash: string -> string, script: seq<Wake>)
    ensures var t := Dialogue(hash, script);
            && (|script| >= 8 ==> t.state.Finished())
            && |t.sent| <= 20
            && [3] <= Announced(t.sent) <= [3, 2, 1]
            && Offers(t.sent) <= 1
            && (t.state.AwaitChoice? ==> Announced(t.sent) == [3])
  {
    DialogueSpends(hash, script);
    DialogueTold(hash, script);
  }

  /** The users table after the dialogue reached `s`. */
  function Committed(users: Users, s: AuthState): Users {
    if s.Granted? && s.added.Some? then users[s.username := s.added.value] else users
  }

  /** The invariant of the users table: every uid is the hash of its username, and uids are unique. */
  ghost predicate TableOk(hash: string -> string, users: Users) {
    && (forall u | u in users :: users[u].uid == Uid(hash, u))
    && (forall u, v | u in users && v in users && u != v :: users[u].uid != users[v].uid)
  }

  /** One turn keeps the table's invariant and all its rows; it adds a row exactly when it ends a
      registration; and success always reports the hash of the username as uid. */
  lemma ResumeKeepsTable(hash: string -> string, s: AuthState, w: Wake)
    requires !s.Finished() && TableOk(hash, w.users)
    ensures var after := Resume(hash, s, w).state;
            var users := Committed(w.users, after);
            && TableOk(hash, users)
            && (forall u | u in w.users :: u in users && users[u] == w.users[u])
            && (after.Granted? && after.added.Some?
                ==> after.username !in w.users && users.Keys == w.users.Keys + {after.username})
            && (!(after.Granted? && after.added.Some?) ==> users == w.users)
            && (after.Granted? ==> after.uid == Uid(hash, after.username) && after.username in users
                                   && users[after.username].uid == after.uid)
  {
  }

  /** An existing, offline user is let in by exactly the passwords whose hash is in the table. */
  lemma LoginIff(hash: string -> string, s: AuthState, w: Wake)
    requires s.AwaitLogin? && w.input.Received? && s.username in w.users
    ensures var after := Resume(hash, s, w).state;
            && (after.Granted? <==> hash(TruncatePassword(w.input.payload)) == w.users[s.username].passwordHash)
            && (after.Granted? ==> after == Granted(s.username, w.users[s.username].uid, None))
  {
  }

  function Line(payload: string, users: Users): Wake {
    Wake(Received(payload), users, {})
  }

  lemma {:induction false} Extend(hash: string -> string, script: seq<Wake>, w: Wake)
    requires !Dialogue(hash, script).state.Finished()
    ensures var turn := Resume(hash, Dialogue(hash, script).state, w);
            && Dialogue(hash, script + [w]).state == turn.state
            && |Dialogue(hash, script + [w]).sent| == |Dialogue(hash, script).sent| + |turn.sent|
  {
    DialogueStep(hash, script, w);
  }

  lemma FailedRegistration(hash: string -> string) returns (script: seq<Wake>)
    ensures |script| == 4
    ensures Dialogue(hash, script).state == AwaitUsername(1) && |Dialogue(hash, script).sent| == 12
  {
    script := [];
    Extend(hash, script, Line("u", map[]));
    script := script + [Line("u", map[])];
    Extend(hash, script, Line("y", map[]));
    script := script + [Line("y", map[])];
    Extend(hash, script, Line("p", map[]));
    script := script + [Line("p", map[])];
    Extend(hash, script, Line("q", map[]));
    script := script + [Line("q", map[])];
  }

  lemma WrongPassword(hash: string -> string, before: seq<Wake>, a: nat) returns (script: seq<Wake>)
    requires IsGetHash(hash) && 1 <= a <= 2
    requires Dialogue(hash, before).state == AwaitUsername(a)
    ensures |script| == |before| + 2 && script[..|before|] == before
    ensures !Dialogue(hash, script[..|before| + 1]).state.Finished()
    ensures Dialogue(hash, script).state == if a == 1 then AwaitUsername(2) else Refused(AUTHENTICATION_FAILURE)
    ensures |Dialogue(hash, script).sent| == |Dialogue(hash, before).sent| + if a == 1 then 5 else 3
  {
    var users: Users := map["u" := Row("", "")];
    assert IsHexText(PasswordHash(hash, TruncatePassword("p")));
    Extend(hash, before, Line("u", users));
    var named := before + [Line("u", users)];
    Extend(hash, named, Line("p", users));
    script := named + [Line("p", users)];
    assert script[..|before| + 1] == named;
  }

  /** The bounds of 8 reads and 20 sends are reached: a failed registration, then two wrong passwords
      for a user that somebody else has registered meanwhile. */
  lemma BoundsAreReached(hash: string -> string) returns (script: seq<Wake>)
    requires IsGetHash(hash)
    ensures |script| == 8 && !Dialogue(hash, script[..7]).state.Finished()
    ensures Dialogue(hash, script).state.Refused? && |Dialogue(hash, script).sent| == 20
  {
    script := FailedRegistration(hash);
    script := WrongPassword(hash, script, 1);
    script := WrongPassword(hash, script, 2);
  }
}
