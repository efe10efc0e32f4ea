/** The client's reaction to server messages (client/src/client_msg_handler.c) and the Enter key
    (client/src/client_gui.c). */
module ClientSide {
  import opened Text
  import opened Protocol

  /** client_state; `is_connected` belongs to the connection thread and is not part of it here. */
  datatype Flags = Flags(
    justJoined: bool,
    enteringUsername: bool,
    enteringPassword: bool,
    confirmingPassword: bool,
    choosingRegister: bool,
    authenticated: bool,
    authAttempts: int,
    canRegister: bool)

  /** client_state, the fields of client that matter here, and the flags that handle_message writes. `undefined`
      says that handle_message has read uninitialised storage or written past an array: from then on the C
      program may do anything, and the other fields say nothing about it. */
  datatype State = State(flags: Flags, uid: string, username: string, reconnect: bool, quit: bool, serverAnswer: bool,
                         undefined: bool)

  /** reset_state */
  function Reset(f: Flags): Flags {
    Flags(f.justJoined, false, false, false, false, false, 0, false)
  }

  /** The state in which a freshly connected client starts to receive. */
  function Fresh(): State {
    State(Reset(Flags(true, false, false, false, false, false, -1, false)), CLIENT_DEFAULT_NAME, CLIENT_DEFAULT_NAME,
          false, false, false, false)
  }

  /** The branches of handle_message. */
  datatype Kind =
    | PingFromServer | AckFromServer | Ignored
    | EnterUsername | EnterPassword | ConfirmPassword | RegisterInfo | TryAgain | RegisterChoice
    | AlreadyOnline | UserAuthenticated | UserCreated | AssignUid(payload: string) | Quit | Attempts(left: int) | Shown

  function KindOf(m: Message): Kind {
    var fromServer := m.sender == SERVER;
    if m.kind == PING then (if fromServer then PingFromServer else Ignored)
    else if m.kind == ACK then (if fromServer then AckFromServer else Ignored)
    else if m.kind == AUTH && fromServer then KindOfAuth(m.payload)
    else if m.kind == CHOICE && fromServer && m.payload == PrintInt(USER_REGISTER_CHOICE) then RegisterChoice
    else if m.kind == UID && fromServer then AssignUid(m.payload)
    else if m.kind == SIGNAL && !fromServer && (m.payload == SIGNAL_QUIT || m.payload == SIGNAL_EXIT) then Quit
    else if m.kind == AUTH_ATTEMPTS && fromServer then Attempts(Atoi(m.payload))
    else Shown
  }

  function KindOfAuth(payload: string): Kind {
    if payload == PrintInt(ENTER_USERNAME) then EnterUsername
    else if payload == PrintInt(ENTER_PASSWORD) then EnterPassword
    else if payload == PrintInt(ENTER_PASSWORD_CONFIRMATION) then ConfirmPassword
    else KindOfReply(payload)
  }

  function KindOfReply(payload: string): Kind {
    if payload == PrintInt(USER_REGISTER_INFO) then RegisterInfo
    else if payload == PrintInt(TRY_AGAIN) then TryAgain
    else if payload == PrintInt(USER_ALREADY_ONLINE) then AlreadyOnline
    else KindOfSuccess(payload)
  }

  function KindOfSuccess(payload: string): Kind {
    if payload == PrintInt(USER_AUTHENTICATED) then UserAuthenticated
    else if payload == PrintInt(USER_CREATED) then UserCreated
    else Shown
  }

  /** Messages addressed to somebody else. */
  predicate Dropped(c: State, recipient: string, kind: Kind) {
    if c.flags.authenticated then
      Take(recipient, HASH_HEX_OUTPUT_LENGTH - 1) != Take(c.uid, HASH_HEX_OUTPUT_LENGTH - 1) && !kind.AssignUid?
    else
      c.uid != CLIENT_DEFAULT_NAME
  }

  function WordRun(s: string): (n: nat)
    ensures n <= |s|
    ensures forall i | 0 <= i < n :: !IsSpace(s[i])
  {
    if s != "" && !IsSpace(s[0]) && s[0] != NUL then 1 + WordRun(s[1..]) else 0
  }

  /** What the conversions of `sscanf(payload, "%[^|]%*c%s", username, uid)` store; None where nothing is. */
  datatype UidFields = UidFields(name: Option<string>, uid: Option<string>)

  function ScanUid(payload: string): UidFields {
    var n := ScanSet(payload, BAR, |payload|);
    if n == 0 then UidFields(None, None)
    else if n == |payload| then UidFields(Some(payload), None)
    else
      var rest := SkipSpace(payload[n + 1..]);
      var k := WordRun(rest);
      UidFields(Some(payload[..n]), if k == 0 then None else Some(rest[..k]))
  }

  /** Both conversions succeed and stay, with their NUL, inside `username[17]` and `uid[129]`. */
  predicate Determined(payload: string) {
    match ScanUid(payload)
    case UidFields(Some(name), Some(uid)) => |name| <= MAX_USERNAME_LENGTH && |uid| <= HASH_HEX_OUTPUT_LENGTH - 1
    case _ => false
  }

  function ApplyToFlags(f: Flags, kind: Kind): Flags {
    match kind
    case EnterUsername => f.(justJoined := false, enteringUsername := true)
    case EnterPassword => f.(enteringUsername := false, enteringPassword := true)
    case ConfirmPassword => f.(enteringPassword := false, confirmingPassword := true)
    case RegisterInfo => f.(canRegister := true)
    case TryAgain => f.(canRegister := false)
    case RegisterChoice => f.(enteringUsername := false, choosingRegister := true)
    case AlreadyOnline => Reset(f)
    case UserAuthenticated => f.(enteringPassword := false, authenticated := true)
    case UserCreated => f.(confirmingPassword := false, authenticated := true)
    case Attempts(left) => if 1 <= left <= 3 then f.(authAttempts := left) else f
    case _ => f
  }

  function Apply(c: State, kind: Kind): State {
    match kind
    case AssignUid(payload) =>
      if !Determined(payload) then c.(undefined := true)
      else if ScanUid(payload).name == Some(c.username) && c.uid == CLIENT_DEFAULT_NAME then
        c.(uid := ScanUid(payload).uid.value)
      else c
    case Quit => c.(reconnect := false, quit := true)
    case _ => c.(flags := ApplyToFlags(c.flags, kind))
  }

  function Deliver(c: State, recipient: string, kind: Kind): State {
    if kind.PingFromServer? || kind.Ignored? then c
    else if kind.AckFromServer? then c.(serverAnswer := true)
    else if Dropped(c, recipient, kind) then c
    else Apply(c, kind)
  }

  /** handle_message as a function of the state and the message. */
  function Handle(c: State, m: Message): State {
    Deliver(c, m.recipient, KindOf(m))
  }

  function HandleAll(c: State, ms: seq<Message>): State
    decreases |ms|
  {
    if ms == [] then c else HandleAll(Handle(c, ms[0]), ms[1..])
  }

  // The flags after an authentication message, by its text.

  function FlagsAfter(f: Flags, text: string): Flags {
    if text == "2346" then f.(justJoined := false, enteringUsername := true)
    else if text == "2347" then f.(enteringUsername := false, enteringPassword := true)
    else if text == "2348" then f.(enteringPassword := false, confirmingPassword := true)
    else FlagsAfterReply(f, text)
  }

  function FlagsAfterReply(f: Flags, text: string): Flags {
    if text == "2358" then f.(canRegister := true)
    else if text == "2352" then f.(canRegister := false)
    else if text == "2357" then Flags(f.justJoined, false, false, false, false, false, 0, false)
    else FlagsAfterSuccess(f, text)
  }

  function FlagsAfterSuccess(f: Flags, text: string): Flags {
    if text == "2361" then f.(enteringPassword := false, authenticated := true)
    else if text == "2360" then f.(confirmingPassword := false, authenticated := true)
    else f
  }

  lemma SuccessByText(f: Flags, text: string)
    ensures ApplyToFlags(f, KindOfSuccess(text)) == FlagsAfterSuccess(f, text)
  {
    FourDigits(USER_AUTHENTICATED, "2361");
    FourDigits(USER_CREATED, "2360");
  }

  lemma ReplyByText(f: Flags, text: string)
    ensures ApplyToFlags(f, KindOfReply(text)) == FlagsAfterReply(f, text)
  {
    FourDigits(USER_REGISTER_INFO, "2358");
    FourDigits(TRY_AGAIN, "2352");
    FourDigits(USER_ALREADY_ONLINE, "2357");
    SuccessByText(f, text);
  }

  lemma AuthByText(f: Flags, text: string)
    ensures ApplyToFlags(f, KindOfAuth(text)) == FlagsAfter(f, text)
  {
    FourDigits(ENTER_USERNAME, "2346");
    FourDigits(ENTER_PASSWORD, "2347");
    FourDigits(ENTER_PASSWORD_CONFIRMATION, "2348");
    ReplyByText(f, text);
  }

  /** The message is for this client: an authenticated one is addressed by its uid, another one has none yet. */
  predicate Addressed(c: State, m: Message) {
    if c.flags.authenticated then m.recipient[..if |m.recipient| < 128 then |m.recipient| else 128]
                               == c.uid[..if |c.uid| < 128 then |c.uid| else 128]
    else c.uid == "client"
  }

  /** What a message that is for this client does, in the numbers and texts of the protocol: the server's codes set
      the flags, and a signal to quit counts only if it is not the server's. */
  function Reaction(c: State, m: Message): State {
    if m.sender == "server" then
      if m.kind == 1244 then c.(flags := FlagsAfter(c.flags, m.payload))
      else if m.kind == 1236 && m.payload == "2359" then
        c.(flags := c.flags.(enteringUsername := false, choosingRegister := true))
      else if m.kind == 1245 && 1 <= Atoi(m.payload) <= 3 then c.(flags := c.flags.(authAttempts := Atoi(m.payload)))
      else c
    else if m.kind == 1243 && m.payload in {"QUIT", "EXIT"} then c.(reconnect := false, quit := true)
    else c
  }

  lemma AppliedByNumber(c: State, m: Message)
    requires m.kind != 1241 && m.kind != 1242 && m.kind != 1246
    ensures Apply(c, KindOf(m)) == Reaction(c, m)
  {
    if m.kind == 1244 && m.sender == "server" {
      AuthByText(c.flags, m.payload);
    } else {
      FourDigits(USER_REGISTER_CHOICE, "2359");
    }
  }

  lemma Unaddressed(c: State, m: Message, kind: Kind)
    requires !kind.PingFromServer? && !kind.AckFromServer? && !kind.Ignored? && !kind.AssignUid?
    ensures Deliver(c, m.recipient, kind) == if Addressed(c, m) then Apply(c, kind) else c
  {
  }

  /** What any message does to the client: an answer of the server is noted, another user's message changes nothing.
      (UidSplits and UidHandshake are about the one type that is missing here.) */
  lemma HandledByNumber(c: State, m: Message)
    requires m.kind != 1246
    ensures Handle(c, m) == if m.kind == 1242 && m.sender == "server" then c.(serverAnswer := true)
                            else if m.kind == 1241 || m.kind == 1242 || !Addressed(c, m) then c
                            else Reaction(c, m)
  {
    if m.kind != 1241 && m.kind != 1242 {
      Unaddressed(c, m, KindOf(m));
      AppliedByNumber(c, m);
    }
  }

  /** Once the client has a uid, no sequence of messages whatever changes it. */
  lemma {:induction false} UidIsFinal(c: State, ms: seq<Message>)
    requires c.uid != CLIENT_DEFAULT_NAME
    ensures HandleAll(c, ms).uid == c.uid
    decreases |ms|
  {
    if ms != [] {
      UidIsFinal(Handle(c, ms[0]), ms[1..]);
    }
  }

  /** The input that draw_ui asks an unauthenticated user for. */
  datatype Prompt = Username | Password | Confirmation | Choice | Nothing

  function PromptOf(f: Flags): Prompt {
    if f.enteringUsername then Username
    else if f.enteringPassword then Password
    else if f.confirmingPassword then Confirmation
    else if f.choosingRegister then Choice
    else Nothing
  }

  /** The message type that the Enter key sends. */
  function EnterKind(f: Flags): Int32 {
    if f.enteringUsername || f.enteringPassword || f.confirmingPassword then AUTH
    else if f.choosingRegister then CHOICE
    else TEXT
  }

  /** The Enter key remembers what is typed at the username prompt. */
  function Typed(c: State, input: string): State {
    if c.flags.enteringUsername then c.(username := Take(input, MAX_USERNAME_LENGTH - 1)) else c
  }

  class ClientState {
    var justJoined: bool
    var enteringUsername: bool
    var enteringPassword: bool
    var confirmingPassword: bool
    var choosingRegister: bool
    var authenticated: bool
    var authAttempts: int
    var canRegister: bool

    function Value(): Flags
      reads this
    {
      Flags(justJoined, enteringUsername, enteringPassword, confirmingPassword, choosingRegister, authenticated,
            authAttempts, canRegister)
    }

    constructor ()
      ensures Value() == Fresh().flags == Flags(true, false, false, false, false, false, 0, false)
    {
      justJoined := true;
      enteringUsername, enteringPassword, confirmingPassword, choosingRegister := false, false, false, false;
      authenticated, authAttempts, canRegister := false, 0, false;
    }

    method ResetState()
      modifies this
      ensures Value() == Reset(old(Value()))
    {
      enteringUsername := false;
      enteringPassword := false;
      confirmingPassword := false;
      choosingRegister := false;
      authenticated := false;
      authAttempts := 0;
      canRegister := false;
    }

    /** The MESSAGE_AUTH branches of handle_message. */
    method HandleAuth(payload: string)
      modifies this
      ensures Value() == ApplyToFlags(old(Value()), KindOfAuth(payload))
    {
      if payload == PrintInt(ENTER_USERNAME) {
        justJoined := false;
        enteringUsername := true;
      } else if payload == PrintInt(ENTER_PASSWORD) {
        enteringUsername := false;
        enteringPassword := true;
      } else if payload == PrintInt(ENTER_PASSWORD_CONFIRMATION) {
        enteringPassword := false;
        confirmingPassword := true;
      } else {
        HandleReply(payload);
      }
    }

    method HandleReply(payload: string)
      modifies this
      ensures Value() == ApplyToFlags(old(Value()), KindOfReply(payload))
    {
      if payload == PrintInt(USER_REGISTER_INFO) {
        canRegister := true;
      } else if payload == PrintInt(TRY_AGAIN) {
        canRegister := false;
      } else if payload == PrintInt(USER_ALREADY_ONLINE) {
        ResetState();
      } else {
        HandleSuccess(payload);
      }
    }

    method HandleSuccess(payload: string)
      modifies this
      ensures Value() == ApplyToFlags(old(Value()), KindOfSuccess(payload))
    {
      if payload == PrintInt(USER_AUTHENTICATED) {
        enteringPassword := false;
        authenticated := true;
      } else if payload == PrintInt(USER_CREATED) {
        confirmingPassword := false;
        authenticated := true;
      }
    }

    /** The MESSAGE_AUTH_ATTEMPS branch. */
    method SetAttempts(payload: string)
      modifies this
      ensures Value() == ApplyToFlags(old(Value()), Attempts(Atoi(payload)))
    {
      var left := Atoi(payload);
      if left == 3 {
        authAttempts := 3;
      } else if left == 2 {
        authAttempts := 2;
      } else if left == 1 {
        authAttempts := 1;
      }
    }
  }

  /** The client of one connection; `outbox` holds what it hands to send_message. */
  class Client {
    const state: ClientState
    var uid: string
    var username: string
    var reconnect: bool
    var quit: bool
    var serverAnswer: bool
    /** The effect of a UID message that the language leaves undefined. */
    var undefined: bool
    var outbox: seq<Creation>

    function Value(): State
      reads this, state
    {
      State(state.Value(), uid, username, reconnect, quit, serverAnswer, undefined)
    }

    constructor ()
      ensures Value() == Fresh() && uid == username == "client" && outbox == [] && fresh(state)
    {
      state := new ClientState();
      uid, username := CLIENT_DEFAULT_NAME, CLIENT_DEFAULT_NAME;
      reconnect, quit, serverAnswer, undefined := false, false, false, false;
      outbox := [];
    }

    method HandleMessage(hash: string -> string, stamp: string, msg: Message)
      modifies this, state
      ensures Value() == Handle(old(Value()), msg)
      ensures msg.kind == 1241 && msg.sender == "server" ==>
                && outbox == old(outbox) + [CreateMessage(hash, stamp, 1242, old(uid), "server", "ACK")]
                && Value() == old(Value())
      ensures msg.kind == 1242 && msg.sender == "server" ==>
                outbox == old(outbox) && Value() == old(Value()).(serverAnswer := true)
      ensures msg.kind != 1241 || msg.sender != "server" ==> outbox == old(outbox)
    {
      var fromServer := msg.sender == SERVER;
      if msg.kind == PING && fromServer {
        outbox := outbox + [CreateMessage(hash, stamp, ACK, uid, SERVER, "ACK")];
        return;
      } else if msg.kind == ACK && fromServer {
        serverAnswer := true;
        return;
      }
      HandleOther(msg, fromServer);
    }

    /** What is left behind the server's pings and its answers to pings. */
    method HandleOther(msg: Message, fromServer: bool)
      requires fromServer == (msg.sender == SERVER) && !((msg.kind == PING || msg.kind == ACK) && fromServer)
      modifies this, state
      ensures Value() == Handle(old(Value()), msg) && outbox == old(outbox)
    {
      if msg.kind == PING && !fromServer {
        return;
      } else if msg.kind == ACK && !fromServer {
        return;
      }
      if !state.authenticated && uid != CLIENT_DEFAULT_NAME {
        return;
      } else if state.authenticated
          && Take(msg.recipient, HASH_HEX_OUTPUT_LENGTH - 1) != Take(uid, HASH_HEX_OUTPUT_LENGTH - 1)
                && msg.kind != UID {
        return;
      }
      HandleAddressed(msg, fromServer);
    }

    /** What is left once pings and other users' messages are out of the way. */
    method HandleAddressed(msg: Message, fromServer: bool)
      requires fromServer == (msg.sender == SERVER) && msg.kind != PING && msg.kind != ACK
      modifies this, state
      ensures Value() == Apply(old(Value()), KindOf(msg)) && outbox == old(outbox)
    {
      if msg.kind == AUTH && fromServer {
        state.HandleAuth(msg.payload);
      } else if msg.kind == CHOICE && msg.payload == PrintInt(USER_REGISTER_CHOICE) && fromServer {
        state.enteringUsername := false;
        state.choosingRegister := true;
      } else if msg.kind == UID && fromServer {
        AdoptUid(msg.payload);
      } else {
        HandleSignal(msg, fromServer);
      }
    }

    /** The MESSAGE_SIGNAL and MESSAGE_AUTH_ATTEMPS branches. */
    method HandleSignal(msg: Message, fromServer: bool)
      requires fromServer == (msg.sender == SERVER) && msg.kind != PING && msg.kind != ACK
      requires !(fromServer && (msg.kind == AUTH || KindOf(msg).RegisterChoice? || msg.kind == UID))
      modifies this, state
      ensures Value() == Apply(old(Value()), KindOf(msg)) && outbox == old(outbox)
    {
      if msg.kind == SIGNAL && (msg.payload == SIGNAL_QUIT || msg.payload == SIGNAL_EXIT) {
        if !fromServer {
          reconnect := false;
          quit := true;
        }
      } else if msg.kind == AUTH_ATTEMPTS && fromServer {
        state.SetAttempts(msg.payload);
      }
    }

    /** The MESSAGE_UID branch. */
    method AdoptUid(payload: string)
      modifies this
      ensures Value() == Apply(old(Value()), AssignUid(payload)) && outbox == old(outbox)
    {
      var fields := ScanUid(payload);
      if !Determined(payload) {
        undefined := true;
      } else if fields.name == Some(username) && uid == CLIENT_DEFAULT_NAME {
        uid := fields.uid.value;
      }
    }

    /** The Enter key of ui_cycle. An empty line is refused by create_message. */
    method PressEnter(hash: string -> string, stamp: string, input: string)
      modifies this
      ensures Value() == Typed(old(Value()), input)
      ensures var f := old(Value()).flags;
              var kind := if f.enteringUsername || f.enteringPassword || f.confirmingPassword then 1244
                          else if f.choosingRegister then 1236 else 1234;
              && kind == EnterKind(f)
              && outbox == old(outbox) + [CreateMessage(hash, stamp, kind, old(uid), "server", input)]
              && username == if f.enteringUsername then (if |input| <= 15 then input else input[..15])
                             else old(username)
    {
      var kind: Int32 := TEXT;
      if state.enteringUsername {
        username := Take(input, MAX_USERNAME_LENGTH - 1);
        kind := AUTH;
      } else if state.enteringPassword || state.confirmingPassword {
        kind := AUTH;
      } else if state.choosingRegister {
        kind := CHOICE;
      }
      outbox := outbox + [CreateMessage(hash, stamp, kind, uid, SERVER, input)];
    }
  }
}
