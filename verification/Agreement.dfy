/** The server's dialogue and the client's reaction to it, put together. */
module Agreement {
  import opened Text
  import opened Protocol
  import opened AuthDialogue
  import opened ClientSide

  /** The payload that user_auth prints for `o`. */
  function PayloadOf(o: Out): string {
    match o
    case Notice(_, code) => PrintInt(code)
    case UidNotice(username, uid) => username + [BAR] + uid
  }

  function KindNumber(o: Out): Int32 {
    if o.Notice? then o.kind else UID
  }

  /** `m` is how `o` reaches the client; its message uid and length field are free. */
  predicate Carries(m: Message, o: Out) {
    m.kind == KindNumber(o) && m.sender == SERVER && m.recipient == CLIENT_DEFAULT_NAME && m.payload == PayloadOf(o)
  }

  /** The branch of handle_message that a decimal code takes. */
  function KindOfCode(kind: Int32, code: int): Kind {
    if kind == AUTH then
      if code == ENTER_USERNAME then EnterUsername
      else if code == ENTER_PASSWORD then EnterPassword
      else if code == ENTER_PASSWORD_CONFIRMATION then ConfirmPassword
      else if code == USER_REGISTER_INFO then RegisterInfo
      else if code == TRY_AGAIN then TryAgain
      else if code == USER_ALREADY_ONLINE then AlreadyOnline
      else if code == USER_AUTHENTICATED then UserAuthenticated
      else if code == USER_CREATED then UserCreated
      else Shown
    else if kind == CHOICE && code == USER_REGISTER_CHOICE then RegisterChoice
    else if kind == AUTH_ATTEMPTS then Attempts(code)
    else Shown
  }

  /** The types that user_auth sends codes with. */
  predicate Coded(o: Out) {
    o.Notice? ==> o.kind in {TOAST, AUTH, AUTH_ATTEMPTS, CHOICE, ERROR}
  }

  lemma SameText(code: int, other: int)
    ensures PrintInt(code) == PrintInt(other) <==> code == other
  {
    if PrintInt(code) == PrintInt(other) {
      PrintIntInjective(code, other);
    }
  }

  lemma KindOfAuthCode(code: int)
    ensures KindOfAuth(PrintInt(code)) == KindOfCode(AUTH, code)
  {
    SameText(code, ENTER_USERNAME);
    SameText(code, ENTER_PASSWORD);
    SameText(code, ENTER_PASSWORD_CONFIRMATION);
    SameText(code, USER_REGISTER_INFO);
    SameText(code, TRY_AGAIN);
    SameText(code, USER_ALREADY_ONLINE);
    SameText(code, USER_AUTHENTICATED);
    SameText(code, USER_CREATED);
  }

  /** The client's reaction to `o`. */
  function See(c: State, o: Out): State {
    match o
    case Notice(kind, code) => Deliver(c, CLIENT_DEFAULT_NAME, KindOfCode(kind, code))
    case UidNotice(username, uid) => Deliver(c, CLIENT_DEFAULT_NAME, AssignUid(username + [BAR] + uid))
  }

  /** `See` is handle_message: string comparison of printed codes is comparison of codes. */
  lemma SeeIsHandle(c: State, o: Out, m: Message)
    requires Coded(o) && Carries(m, o)
    ensures See(c, o) == Handle(c, m)
  {
    if o.Notice? {
      KindOfAuthCode(o.code);
      SameText(o.code, USER_REGISTER_CHOICE);
      AtoiOfPrintInt(o.code);
    }
  }

  /** The client after all of `outs`. */
  function SeeAll(c: State, outs: seq<Out>): State
    decreases |outs|
  {
    if outs == [] then c else SeeAll(See(c, outs[0]), outs[1..])
  }

  const ONLINE: Out := Notice(AUTH, USER_ALREADY_ONLINE)
  const OFFER: Out := Notice(CHOICE, USER_REGISTER_CHOICE)
  const MISMATCH: Out := Notice(AUTH, PASSWORDS_DO_NOT_MATCH)

  /** What was sent after the last already-online notice (everything, if there was none). */
  function SinceReset(outs: seq<Out>): seq<Out> {
    if outs == [] then []
    else if ONLINE in outs[1..] then SinceReset(outs[1..])
    else if outs[0] == ONLINE then outs[1..]
    else outs
  }

  /** The client's flags with two facts about what it has seen since the last already-online notice. */
  datatype View = View(flags: Flags, offered: bool, mismatched: bool)

  function WatchFlags(f: Flags, o: Out): Flags {
    match o
    case Notice(kind, code) => ApplyToFlags(f, KindOfCode(kind, code))
    case UidNotice(_, _) => f
  }

  function Watch(v: View, o: Out): View {
    View(WatchFlags(v.flags, o),
         o != ONLINE && (v.offered || o == OFFER),
         o != ONLINE && (v.mismatched || o == MISMATCH))
  }

  function WatchAll(v: View, outs: seq<Out>): View
    decreases |outs|
  {
    if outs == [] then v else WatchAll(Watch(v, outs[0]), outs[1..])
  }

  lemma {:induction false} WatchAppend(v: View, a: seq<Out>, b: seq<Out>)
    ensures WatchAll(v, a + b) == WatchAll(WatchAll(v, a), b)
    decreases |a|
  {
    if a == [] {
      assert a + b == b;
    } else {
      assert (a + b)[1..] == a[1..] + b;
      WatchAppend(Watch(v, a[0]), a[1..], b);
    }
  }

  lemma {:induction false} WatchMeans(v: View, outs: seq<Out>)
    ensures WatchAll(v, outs).offered <==> OFFER in SinceReset(outs) || (v.offered && ONLINE !in outs)
    ensures WatchAll(v, outs).mismatched <==> MISMATCH in SinceReset(outs) || (v.mismatched && ONLINE !in outs)
    decreases |outs|
  {
    if outs != [] {
      WatchMeans(Watch(v, outs[0]), outs[1..]);
      assert outs == [outs[0]] + outs[1..];
      if ONLINE !in outs[1..] {
        NoReset(outs[1..]);
      }
    }
  }

  predicate AllCodes(outs: seq<Out>) {
    forall i | 0 <= i < |outs| :: outs[i].Notice?
  }

  lemma SeeCode(c: State, v: View, o: Out)
    requires c.uid == CLIENT_DEFAULT_NAME && c.flags == v.flags && o.Notice?
    ensures See(c, o) == c.(flags := Watch(v, o).flags)
  {
  }

  /** Until it has a uid the client takes every code, and codes change nothing but flags. */
  lemma {:induction false} SeeCodes(c: State, v: View, outs: seq<Out>)
    requires c.uid == CLIENT_DEFAULT_NAME && c.flags == v.flags && AllCodes(outs)
    ensures SeeAll(c, outs) == c.(flags := WatchAll(v, outs).flags)
    decreases |outs|
  {
    if outs != [] {
      SeeCode(c, v, outs[0]);
      SeeCodes(See(c, outs[0]), Watch(v, outs[0]), outs[1..]);
    }
  }

  lemma {:induction false} NoReset(outs: seq<Out>)
    requires ONLINE !in outs
    ensures SinceReset(outs) == outs
  {
  }

  lemma {:induction false} WatchOne(v: View, a: Out)
    ensures WatchAll(v, [a]) == Watch(v, a)
  {
    assert [a][1..] == [];
  }

  lemma {:induction false} WatchTwo(v: View, a: Out, b: Out)
    ensures WatchAll(v, [a, b]) == Watch(Watch(v, a), b)
  {
    assert [a, b][1..] == [b];
    WatchOne(Watch(v, a), b);
  }

  /** Waiting for input in the round `attempts`. */
  predicate Waiting(v: View, attempts: nat) {
    && attempts < USER_LOGIN_ATTEMPTS
    && !v.flags.authenticated
    && v.flags.authAttempts == USER_LOGIN_ATTEMPTS - attempts
    && (attempts == 0 ==> v.flags.canRegister && !v.mismatched)
    && v.flags.choosingRegister == v.offered
    && (v.mismatched ==> v.offered)
  }

  /** The relation between the server's position and the client that every turn keeps. Stale flags stay
      set below the flag that decides the prompt, and `offered` and `mismatched` say which they are. */
  predicate InStep(s: AuthState, v: View) {
    var f := v.flags;
    match s
    case AwaitUsername(a) =>
      && Waiting(v, a) && f.enteringUsername && f.confirmingPassword == v.mismatched
      && (a == 0 ==> !v.offered && !f.enteringPassword)
    case AwaitChoice(_) =>
      Waiting(v, 0) && v.offered && !f.enteringUsername && !f.enteringPassword && !f.confirmingPassword
    case AwaitPassword(_) =>
      Waiting(v, 0) && v.offered && !f.enteringUsername && f.enteringPassword && !f.confirmingPassword
    case AwaitConfirmation(_, _) =>
      Waiting(v, 0) && v.offered && !f.enteringUsername && !f.enteringPassword && f.confirmingPassword
    case AwaitLogin(a, _, _) =>
      Waiting(v, a) && !f.enteringUsername && f.enteringPassword && f.confirmingPassword == v.mismatched
    case Granted(_, _, _) =>
      && f.authenticated && !f.enteringUsername && !f.enteringPassword
      && f.choosingRegister == v.offered && f.confirmingPassword == v.mismatched && (v.mismatched ==> v.offered)
    case Refused(_) => true
  }

  /** Between two rounds: the counter is not up to date yet and the username prompt may be stale. */
  predicate Between(v: View) {
    && !v.flags.authenticated
    && v.flags.choosingRegister == v.offered
    && v.flags.confirmingPassword == v.mismatched
    && (v.mismatched ==> v.offered)
  }

  lemma {:induction false} OpeningInStep(v: View, attempts: nat)
    requires Between(v) && 0 < attempts < USER_LOGIN_ATTEMPTS
    ensures InStep(AwaitUsername(attempts), WatchAll(v, Opening(attempts)))
  {
    assert Opening(attempts) == [Notice(AUTH_ATTEMPTS, USER_LOGIN_ATTEMPTS - attempts), Notice(AUTH, ENTER_USERNAME)];
    WatchTwo(v, Notice(AUTH_ATTEMPTS, USER_LOGIN_ATTEMPTS - attempts), Notice(AUTH, ENTER_USERNAME));
  }

  lemma {:induction false} NextRoundInStep(v: View, attempts: nat, notices: seq<Out>)
    requires 0 < attempts && Between(WatchAll(v, notices))
    ensures var turn := NextRound(attempts, notices); InStep(turn.state, WatchAll(v, turn.sent))
  {
    if attempts < USER_LOGIN_ATTEMPTS {
      WatchAppend(v, notices, Opening(attempts));
      OpeningInStep(WatchAll(v, notices), attempts);
    }
  }

  lemma {:induction false} UsernameInStep(v: View, a: nat, payload: string, users: Users, online: set<string>)
    requires InStep(AwaitUsername(a), v)
    ensures var turn := OnUsername(a, payload, users, online); InStep(turn.state, WatchAll(v, turn.sent))
  {
    var username := TruncateUsername(payload);
    if username !in users {
      WatchTwo(v, Notice(AUTH, USER_DOES_NOT_EXIST), OFFER);
      WatchTwo(v, Notice(AUTH, USER_DOES_NOT_EXIST), Notice(AUTH, TRY_AGAIN));
      if 0 < a && a + 1 != USER_LOGIN_ATTEMPTS {
        NextRoundInStep(v, a + 1, [Notice(AUTH, USER_DOES_NOT_EXIST), Notice(AUTH, TRY_AGAIN)]);
      }
    } else if users[username].uid in online {
      WatchOne(v, ONLINE);
      NextRoundInStep(v, a + 1, [ONLINE]);
    } else {
      WatchOne(v, Notice(AUTH, ENTER_PASSWORD));
    }
  }

  lemma {:induction false} GrantInStep(v: View, s: AuthState, code: int)
    requires s.Granted? && InStep(s, Watch(v, Notice(AUTH, code)))
    ensures InStep(s, WatchAll(v, [Notice(AUTH, code), UidNotice(s.username, s.uid)]))
  {
    WatchTwo(v, Notice(AUTH, code), UidNotice(s.username, s.uid));
  }

  lemma {:induction false} ChoiceInStep(v: View, username: string, payload: string)
    requires InStep(AwaitChoice(username), v)
    ensures var turn := OnChoice(username, payload); InStep(turn.state, WatchAll(v, turn.sent))
  {
    WatchOne(v, Notice(AUTH, ENTER_PASSWORD));
    NextRoundInStep(v, 1, []);
  }

  lemma {:induction false} MismatchInStep(v: View, username: string, password: string)
    requires InStep(AwaitConfirmation(username, password), v)
    ensures var turn := NextRound(1, [MISMATCH, Notice(AUTH, TRY_AGAIN)]); InStep(turn.state, WatchAll(v, turn.sent))
  {
    WatchTwo(v, MISMATCH, Notice(AUTH, TRY_AGAIN));
    NextRoundInStep(v, 1, [MISMATCH, Notice(AUTH, TRY_AGAIN)]);
  }

  lemma {:induction false} CreatedInStep(v: View, username: string, password: string, s: AuthState)
    requires InStep(AwaitConfirmation(username, password), v) && s.Granted?
    ensures InStep(s, WatchAll(v, [Notice(AUTH, USER_CREATED), UidNotice(s.username, s.uid)]))
  {
    GrantInStep(v, s, USER_CREATED);
  }

  lemma {:induction false} ConfirmationInStep(hash: string -> string, v: View, username: string, password: string,
                                              payload: string, users: Users)
    requires InStep(AwaitConfirmation(username, password), v)
    ensures var turn := OnConfirmation(hash, username, password, payload, users);
            InStep(turn.state, WatchAll(v, turn.sent))
  {
    var turn := OnConfirmation(hash, username, password, payload, users);
    if turn.state.Granted? {
      CreatedInStep(v, username, password, turn.state);
    } else if TruncatePassword(payload) != password {
      MismatchInStep(v, username, password);
    }
  }

  lemma {:induction false} LoginInStep(hash: string -> string, v: View, a: nat, username: string, uid: string,
                                       payload: string, users: Users)
    requires InStep(AwaitLogin(a, username, uid), v)
    ensures var turn := OnLogin(hash, a, username, payload, users); InStep(turn.state, WatchAll(v, turn.sent))
  {
    var turn := OnLogin(hash, a, username, payload, users);
    if turn.state.Granted? {
      GrantInStep(v, turn.state, USER_AUTHENTICATED);
    } else {
      WatchTwo(v, Notice(AUTH, ENTER_PASSWORD), Notice(AUTH, TRY_AGAIN));
      NextRoundInStep(v, a + 1, [Notice(AUTH, ENTER_PASSWORD), Notice(AUTH, TRY_AGAIN)]);
    }
  }

  /** Every turn of user_auth keeps the two sides in step, whatever was read and whatever the table holds. */
  lemma {:induction false} ResumeInStep(hash: string -> string, s: AuthState, w: Wake, v: View)
    requires !s.Finished() && InStep(s, v)
    ensures InStep(Resume(hash, s, w).state, WatchAll(v, Resume(hash, s, w).sent))
  {
    if w.input.Received? {
      match s
      case AwaitUsername(a) => UsernameInStep(v, a, w.input.payload, w.users, w.online);
      case AwaitChoice(u) => ChoiceInStep(v, u, w.input.payload);
      case AwaitPassword(u) => WatchOne(v, Notice(AUTH, ENTER_PASSWORD_CONFIRMATION));
      case AwaitConfirmation(u, p) => ConfirmationInStep(hash, v, u, p, w.input.payload, w.users);
      case AwaitLogin(a, u, uid) => LoginInStep(hash, v, a, u, uid, w.input.payload, w.users);
    }
  }

  function FreshView(): View {
    View(Fresh().flags, false, false)
  }

  lemma FreshAttempts()
    ensures var v := WatchAll(FreshView(), [Notice(TOAST, WELCOME), Notice(AUTH_ATTEMPTS, USER_LOGIN_ATTEMPTS)]);
            v == FreshView().(flags := Fresh().flags.(authAttempts := USER_LOGIN_ATTEMPTS))
  {
    WatchTwo(FreshView(), Notice(TOAST, WELCOME), Notice(AUTH_ATTEMPTS, USER_LOGIN_ATTEMPTS));
  }

  lemma FreshInStep()
    ensures InStep(NextRound(0, []).state, WatchAll(FreshView(), NextRound(0, []).sent))
  {
    var a := [Notice(TOAST, WELCOME), Notice(AUTH_ATTEMPTS, USER_LOGIN_ATTEMPTS)];
    var b := [Notice(AUTH, USER_REGISTER_INFO), Notice(AUTH, ENTER_USERNAME)];
    assert NextRound(0, []).sent == a + b;
    WatchAppend(FreshView(), a, b);
    FreshAttempts();
    WatchTwo(WatchAll(FreshView(), a), b[0], b[1]);
  }

  lemma {:induction false} DialogueInStep(hash: string -> string, script: seq<Wake>)
    ensures InStep(Dialogue(hash, script).state, WatchAll(FreshView(), Dialogue(hash, script).sent))
  {
    if script == [] {
      FreshInStep();
    } else {
      var before := Dialogue(hash, script[..|script| - 1]);
      var w := script[|script| - 1];
      DialogueInStep(hash, script[..|script| - 1]);
      if !before.state.Finished() {
        ResumeInStep(hash, before.state, w, WatchAll(FreshView(), before.sent));
        WatchAppend(FreshView(), before.sent, Resume(hash, before.state, w).sent);
      }
    }
  }

  /** The input that the blocked server is waiting for. */
  function Awaited(s: AuthState): Prompt
    requires !s.Finished()
  {
    match s
    case AwaitUsername(_) => Username
    case AwaitChoice(_) => Choice
    case AwaitPassword(_) => Password
    case AwaitConfirmation(_, _) => Confirmation
    case AwaitLogin(_, _, _) => Password
  }

  function AttemptsOf(s: AuthState): nat
    requires !s.Finished()
  {
    match s
    case AwaitUsername(a) => a
    case AwaitLogin(a, _, _) => a
    case _ => 0
  }

  /** The username|uid message is sent exactly once, last, and only on success. */
  predicate UidIsLast(t: Turn) {
    if t.state.Granted? then
      && t.sent != []
      && AllCodes(t.sent[..|t.sent| - 1])
      && t.sent[|t.sent| - 1] == UidNotice(t.state.username, t.state.uid)
    else
      AllCodes(t.sent)
  }

  lemma ResumeUidIsLast(hash: string -> string, s: AuthState, w: Wake)
    requires !s.Finished()
    ensures UidIsLast(Resume(hash, s, w))
  {
  }

  lemma {:induction false} DialogueUidIsLast(hash: string -> string, script: seq<Wake>)
    ensures UidIsLast(Dialogue(hash, script))
  {
    if script != [] {
      var before := Dialogue(hash, script[..|script| - 1]);
      DialogueUidIsLast(hash, script[..|script| - 1]);
      if !before.state.Finished() {
        var turn := Resume(hash, before.state, script[|script| - 1]);
        ResumeUidIsLast(hash, before.state, script[|script| - 1]);
        if turn.state.Granted? {
          var sent := before.sent + turn.sent;
          assert sent[..|sent| - 1] == before.sent + turn.sent[..|turn.sent| - 1];
        }
      }
    }
  }

  /** What the client has become after the whole dialogue so far. */
  lemma {:induction false} SeeDialogue(hash: string -> string, script: seq<Wake>)
    ensures var t := Dialogue(hash, script);
            && SeeAll(Fresh(), t.sent).flags == WatchAll(FreshView(), t.sent).flags
            && (!t.state.Granted? ==> SeeAll(Fresh(), t.sent) == Fresh().(flags := WatchAll(FreshView(), t.sent).flags))
  {
    var t := Dialogue(hash, script);
    DialogueUidIsLast(hash, script);
    if t.state.Granted? {
      var codes, last := t.sent[..|t.sent| - 1], t.sent[|t.sent| - 1];
      assert t.sent == codes + [last];
      SeeCodes(Fresh(), FreshView(), codes);
      SeeAppend(Fresh(), codes, last);
      WatchAppend(FreshView(), codes, [last]);
      WatchOne(WatchAll(FreshView(), codes), last);
    } else {
      SeeCodes(Fresh(), FreshView(), t.sent);
    }
  }

  lemma {:induction false} SeeAppend(c: State, outs: seq<Out>, o: Out)
    ensures SeeAll(c, outs + [o]) == See(SeeAll(c, outs), o)
    decreases |outs|
  {
    if outs == [] {
      assert outs + [o] == [o] && [o][1..] == [];
    } else {
      assert (outs + [o])[1..] == outs[1..] + [o];
      SeeAppend(See(c, outs[0]), outs[1..], o);
    }
  }

  /** Whenever user_auth blocks, for every table, online set and input so far, the client shows exactly
      the awaited prompt, sends the matching type, and mirrors the attempts counter. */
  lemma {:induction false} PromptAgreement(hash: string -> string, script: seq<Wake>)
    requires !Dialogue(hash, script).state.Finished()
    ensures var s := Dialogue(hash, script).state;
            var c := SeeAll(Fresh(), Dialogue(hash, script).sent);
            && PromptOf(c.flags) == Awaited(s)
            && EnterKind(c.flags) == (if s.AwaitChoice? then CHOICE else AUTH)
            && !c.flags.authenticated
            && c.flags.authAttempts == USER_LOGIN_ATTEMPTS - AttemptsOf(s)
            && (AttemptsOf(s) == 0 ==> c.flags.canRegister)
  {
    DialogueInStep(hash, script);
    SeeDialogue(hash, script);
    WatchMeans(FreshView(), Dialogue(hash, script).sent);
  }

  /** After a successful dialogue the Enter key sends chat text exactly when no registration offer was
      received since the last already-online reset; otherwise a stale flag decides, and which one
      depends only on whether the two passwords once differed. */
  lemma {:induction false} PostLoginDispatch(hash: string -> string, script: seq<Wake>)
    requires Dialogue(hash, script).state.Granted?
    ensures var sent := Dialogue(hash, script).sent;
            var c := SeeAll(Fresh(), sent);
            && c.flags.authenticated
            && (EnterKind(c.flags) == TEXT <==> OFFER !in SinceReset(sent))
            && (EnterKind(c.flags) == AUTH <==> MISMATCH in SinceReset(sent))
  {
    DialogueInStep(hash, script);
    SeeDialogue(hash, script);
    WatchMeans(FreshView(), Dialogue(hash, script).sent);
  }
}
