/** The two sides over the wire: every message of the dialogue arrives intact, and a successful
    dialogue with a user who answers each prompt once leaves the client with the server's uid. */
module Handshake {
  import opened Text
  import opened Hashing
  import opened Protocol
  import opened AuthDialogue
  import opened ClientSide
  import opened Agreement

  predicate Clean(s: string) {
    NUL !in s && NEWLINE !in s
  }

  predicate CleanOut(o: Out) {
    match o
    case Notice(_, code) => Coded(o) && -0x8000_0000 <= code < 0x8000_0000
    case UidNotice(username, uid) => |username| < MAX_USERNAME_LENGTH && Clean(username) && IsHexText(uid)
  }

  function Sent(hash: string -> string, stamp: string, o: Out): Creation {
    CreateMessage(hash, stamp, KindNumber(o), SERVER, CLIENT_DEFAULT_NAME, PayloadOf(o))
  }

  /** What user_auth sends is created, and handle_message sees it unchanged, whatever the receiving
      structure and buffer held. */
  lemma OutArrives(hash: string -> string, stamp: string, o: Out, prior: Message, junk: string)
    requires IsGetHash(hash) && CleanOut(o)
    ensures Sent(hash, stamp, o).Created?
    ensures var m := ParseMessage(prior, Encode(Sent(hash, stamp, o).message) + junk);
            m == Sent(hash, stamp, o).message && Carries(m, o)
  {
    PayloadFits(o);
    assert IsHexText(hash(HashedText(stamp, PayloadOf(o))));
    RoundTrip(Sent(hash, stamp, o).message, prior, junk);
  }

  lemma PayloadFits(o: Out)
    requires CleanOut(o)
    ensures 0 < |PayloadOf(o)| < MAX_PAYLOAD_SIZE && Clean(PayloadOf(o))
  {
    if o.Notice? {
      PrintWidths(o.code);
    }
  }

  /** A typed line arrives as the payload the server reads. */
  lemma LineArrives(hash: string -> string, stamp: string, kind: Int32, line: string, prior: Message, junk: string)
    requires IsGetHash(hash) && Typable(line)
    ensures var c := CreateMessage(hash, stamp, kind, CLIENT_DEFAULT_NAME, SERVER, line);
            c.Created? && ParseMessage(prior, Encode(c.message) + junk).payload == line
  {
    var c := CreateMessage(hash, stamp, kind, CLIENT_DEFAULT_NAME, SERVER, line);
    CreatedPayloadArrives(hash, stamp, kind, CLIENT_DEFAULT_NAME, SERVER, line);
  }

  ghost predicate CleanWake(hash: string -> string, w: Wake) {
    && TableOk(hash, w.users)
    && (w.input.Received? ==> Clean(w.input.payload))
  }

  predicate CleanState(s: AuthState) {
    match s
    case AwaitUsername(_) => true
    case AwaitChoice(u) => CleanName(u)
    case AwaitPassword(u) => CleanName(u)
    case AwaitConfirmation(u, _) => CleanName(u)
    case AwaitLogin(_, u, _) => CleanName(u)
    case Granted(u, _, _) => CleanName(u)
    case Refused(_) => true
  }

  predicate CleanName(u: string) {
    |u| < MAX_USERNAME_LENGTH && Clean(u)
  }

  lemma ResumeClean(hash: string -> string, s: AuthState, w: Wake)
    requires !s.Finished() && CleanState(s) && InRounds(s) && CleanWake(hash, w) && IsGetHash(hash)
    ensures var t := Resume(hash, s, w); CleanState(t.state) && forall i | 0 <= i < |t.sent| :: CleanOut(t.sent[i])
  {
    var t := Resume(hash, s, w);
    if t.state.Granted? {
      ResumeKeepsTable(hash, s, w);
      assert IsHexText(t.state.uid);
    }
  }

  /** Every message that user_auth ever sends meets the conditions of OutArrives. */
  lemma {:induction false} DialogueClean(hash: string -> string, script: seq<Wake>)
    requires IsGetHash(hash) && forall i | 0 <= i < |script| :: CleanWake(hash, script[i])
    ensures var t := Dialogue(hash, script); CleanState(t.state) && forall i | 0 <= i < |t.sent| :: CleanOut(t.sent[i])
  {
    if script != [] {
      var before := Dialogue(hash, script[..|script| - 1]);
      DialogueClean(hash, script[..|script| - 1]);
      DialogueSpends(hash, script[..|script| - 1]);
      if !before.state.Finished() {
        ResumeClean(hash, before.state, script[|script| - 1]);
      }
    }
  }

  /** handle_message over messages that carry `outs` does what `SeeAll` does. */
  lemma {:induction false} SeeAllIsHandleAll(c: State, outs: seq<Out>, ms: seq<Message>)
    requires |ms| == |outs| && forall i | 0 <= i < |outs| :: Coded(outs[i]) && Carries(ms[i], outs[i])
    ensures HandleAll(c, ms) == SeeAll(c, outs)
    decreases |outs|
  {
    if outs != [] {
      SeeIsHandle(c, outs[0], ms[0]);
      SeeAllIsHandleAll(See(c, outs[0]), outs[1..], ms[1..]);
    }
  }

  /** The whole path: print, send, receive into used storage, parse, handle. `stamps`, `priors` and `junks`
      are the clock and the leftovers at each message. */
  lemma {:induction false} DialogueArrives(hash: string -> string, script: seq<Wake>, ms: seq<Message>,
                        stamps: seq<string>, priors: seq<Message>, junks: seq<string>)
    requires IsGetHash(hash) && forall i | 0 <= i < |script| :: CleanWake(hash, script[i])
    requires |ms| == |stamps| == |priors| == |junks| == |Dialogue(hash, script).sent|
    requires forall i | 0 <= i < |ms| ::
               var c := Sent(hash, stamps[i], Dialogue(hash, script).sent[i]);
               c.Created? ==> ms[i] == ParseMessage(priors[i], Encode(c.message) + junks[i])
    ensures HandleAll(Fresh(), ms) == SeeAll(Fresh(), Dialogue(hash, script).sent)
  {
    var outs := Dialogue(hash, script).sent;
    DialogueClean(hash, script);
    forall i | 0 <= i < |outs| ensures Coded(outs[i]) && Carries(ms[i], outs[i]) {
      assert CleanOut(outs[i]);
      OutArrives(hash, stamps[i], outs[i], priors[i], junks[i]);
    }
    SeeAllIsHandleAll(Fresh(), outs, ms);
  }

  /** What the input field can hold when Enter sends it. */
  predicate Typable(line: string) {
    0 < |line| < 128 && Clean(line)
  }

  /** A prompt answered with one line, and the table and online uids when the server reads it. */
  datatype Exchange = Exchange(line: string, users: Users, online: set<string>)

  ghost predicate Proper(hash: string -> string, e: Exchange) {
    Typable(e.line) && TableOk(hash, e.users)
  }

  function WakeOf(e: Exchange): Wake {
    Wake(Received(e.line), e.users, e.online)
  }

  datatype Pair = Pair(server: Turn, client: State)

  /** One exchange from where the two sides are. */
  function Advance(hash: string -> string, before: Pair, e: Exchange): Pair
    requires !before.server.state.Finished()
  {
    var turn := Resume(hash, before.server.state, WakeOf(e));
    Pair(Turn(turn.state, before.server.sent + turn.sent), SeeAll(Typed(before.client, e.line), turn.sent))
  }

  /** Both sides after a user has answered the prompts with the given lines, one each. */
  function Converse(hash: string -> string, es: seq<Exchange>): Pair {
    if es == [] then Pair(NextRound(0, []), SeeAll(Fresh(), Opening(0)))
    else
      var before := Converse(hash, es[..|es| - 1]);
      if before.server.state.Finished() then before else Advance(hash, before, es[|es| - 1])
  }

  function Script(es: seq<Exchange>): (script: seq<Wake>)
    ensures |script| == |es|
    ensures forall i | 0 <= i < |es| :: script[i] == WakeOf(es[i])
  {
    if es == [] then [] else Script(es[..|es| - 1]) + [WakeOf(es[|es| - 1])]
  }

  function NameOf(s: AuthState): Option<string> {
    match s
    case AwaitChoice(u) => Some(u)
    case AwaitPassword(u) => Some(u)
    case AwaitConfirmation(u, _) => Some(u)
    case AwaitLogin(_, u, _) => Some(u)
    case Granted(u, _, _) => Some(u)
    case _ => None
  }

  /** Until success the client is still nameless, and its username is the server's. */
  predicate Agreeing(p: Pair) {
    && p.client.flags == WatchAll(FreshView(), p.server.sent).flags
    && (NameOf(p.server.state).Some? ==> p.client.username == NameOf(p.server.state).value != "")
    && (if p.server.state.Granted? then
          && p.client.uid == Adopted(p.server.state.username, p.server.state.uid)
          && (p.client.undefined <==> Overruns(p.server.state.username))
        else p.client.uid == CLIENT_DEFAULT_NAME && !p.client.undefined)
  }

  /** The rest of a name behind its first delimiter, without leading white space. */
  function Tail(username: string): string
    requires BAR in username
  {
    var n := ScanSet(username, BAR, |username|);
    if n < |username| then SkipSpace(username[n + 1..]) else ""
  }

  /** Without white space. */
  predicate Unbroken(s: string) {
    forall i | 0 <= i < |s| :: s[i] != ' ' && !('\t' <= s[i] <= '\r')
  }

  /** The names whose username|uid message handle_message cannot scan: with a delimiter that is the first
      character (the name is never stored) or that no white space follows within the name (the uid field
      then takes in the delimiter and the whole hash, and does not fit). */
  predicate Overruns(username: string) {
    BAR in username && (username[0] == '|' || Unbroken(Tail(username)))
  }

  /** The uid a nameless client of that name has after the username|uid message. */
  function Adopted(username: string, uid: string): string {
    if BAR in username then CLIENT_DEFAULT_NAME else uid
  }

  lemma {:induction false} WordRunAll(s: string)
    requires forall i | 0 <= i < |s| :: !IsSpace(s[i]) && s[i] != NUL
    ensures WordRun(s) == |s|
  {
    if s != "" {
      WordRunAll(s[1..]);
    }
  }

  lemma {:induction false} SkipSpaceAppend(s: string, tail: string)
    requires tail != "" && !IsSpace(tail[0])
    ensures SkipSpace(s + tail) == SkipSpace(s) + tail
    ensures SkipSpace(s) == "" || !IsSpace(SkipSpace(s)[0])
    ensures |SkipSpace(s)| <= |s| && forall c | c in SkipSpace(s) :: c in s
  {
    if s == "" {
      assert s + tail == tail;
    } else if IsSpace(s[0]) {
      assert (s + tail)[1..] == s[1..] + tail;
      SkipSpaceAppend(s[1..], tail);
    }
  }

  /** The two fields of the message for a name without delimiter. */
  lemma PlainSplits(username: string, uid: string)
    requires username != "" && NUL !in username && IsHexText(uid) && BAR !in username
    ensures ScanUid(username + [BAR] + uid) == UidFields(Some(username), Some(uid))
  {
    var payload := username + [BAR] + uid;
    assert payload == username + ([BAR] + uid);
    ScanSetOfField(username, [BAR] + uid, BAR, |payload|);
    assert payload[..|username|] == username && payload[|username| + 1..] == uid;
    assert !IsSpace(uid[0]);
    WordRunAll(uid);
    assert uid[..|uid|] == uid;
  }

  /** The second field of the message: it ends at the first white space of the name's tail, or else goes on
      over the delimiter to the end of the hash. */
  lemma {:induction false} TailField(tail: string, uid: string)
    requires IsHexText(uid) && NUL !in tail && (tail == "" || !IsSpace(tail[0]))
    ensures var k := WordRun(tail + ([BAR] + uid));
            if forall i | 0 <= i < |tail| :: !IsSpace(tail[i]) then k == |tail| + 1 + |uid| else 0 < k < |tail|
  {
    var s := tail + ([BAR] + uid);
    if forall i | 0 <= i < |tail| :: !IsSpace(tail[i]) {
      WordRunAll(s);
    } else {
      var p :| 0 <= p < |tail| && IsSpace(tail[p]);
      assert IsSpace(s[p]) && !IsSpace(s[0]) && s[0] != NUL;
    }
  }

  lemma FirstDelimiter(s: string) returns (n: nat)
    requires NUL !in s && BAR in s
    ensures n == ScanSet(s, BAR, |s|) < |s| && s[n] == BAR && forall i | 0 <= i < n :: s[i] != BAR
  {
    n := ScanSet(s, BAR, |s|);
    var p :| 0 <= p < |s| && s[p] == BAR;
    assert n <= p;
  }

  /** Where the first field ends, for a name with a delimiter, and what follows it. */
  lemma DelimitedName(username: string, rest: string) returns (n: nat)
    requires NUL !in username && BAR in username
    ensures var payload := username + rest;
            && n == ScanSet(username, BAR, |username|) == ScanSet(payload, BAR, |payload|) < |username|
            && username[n] == BAR && payload[n + 1..] == username[n + 1..] + rest
  {
    n := FirstDelimiter(username);
    var a, b := username[..n], username[n..] + rest;
    assert username + rest == a + b;
    ScanSetOfField(a, b, BAR, |username + rest|);
  }

  lemma DelimitedSplits(username: string, uid: string)
    requires |username| < MAX_USERNAME_LENGTH && NUL !in username && IsHexText(uid) && BAR in username
    ensures var payload := username + [BAR] + uid;
            && ScanUid(payload).name != Some(username)
            && (Determined(payload) <==> !Overruns(username))
  {
    var payload := username + [BAR] + uid;
    assert payload == username + ([BAR] + uid);
    var n := DelimitedName(username, [BAR] + uid);
    if n > 0 {
      var post := username[n + 1..];
      SkipSpaceAppend(post, [BAR] + uid);
      assert Tail(username) == SkipSpace(post);
      TailField(Tail(username), uid);
      var rest := SkipSpace(payload[n + 1..]);
      assert rest == Tail(username) + ([BAR] + uid);
      assert ScanUid(payload) == UidFields(Some(payload[..n]), Some(rest[..WordRun(rest)]));
    }
  }

  /** The client splits "username|uid" back exactly when the username has no delimiter in it, and then both
      fields fit. Otherwise it takes a shorter name for somebody else's, or, for exactly the names that
      overrun, leaves its arrays or compares what it never stored. */
  lemma UidSplits(username: string, uid: string)
    requires username != "" && |username| < MAX_USERNAME_LENGTH && NUL !in username && IsHexText(uid)
    ensures var payload := username + [BAR] + uid;
            && (ScanUid(payload) == UidFields(Some(username), Some(uid)) <==> BAR !in username)
            && (ScanUid(payload).name == Some(username) <==> BAR !in username)
            && (Determined(payload) <==> !Overruns(username))
  {
    if BAR in username {
      DelimitedSplits(username, uid);
    } else {
      PlainSplits(username, uid);
    }
  }

  lemma {:induction false} GrantAdopts(c: State, code: int, username: string, uid: string)
    requires c.uid == CLIENT_DEFAULT_NAME && c.username == username && !c.undefined
    requires code == USER_CREATED || code == USER_AUTHENTICATED
    requires username != "" && |username| < MAX_USERNAME_LENGTH && NUL !in username && IsHexText(uid)
    ensures SeeAll(c, [Notice(AUTH, code), UidNotice(username, uid)])
            == c.(flags := ApplyToFlags(c.flags, KindOfCode(AUTH, code)), uid := Adopted(username, uid),
                  undefined := Overruns(username))
  {
    var outs := [Notice(AUTH, code), UidNotice(username, uid)];
    UidSplits(username, uid);
    assert outs[1..] == [UidNotice(username, uid)] && outs[1..][1..] == [];
    var c1 := See(c, outs[0]);
    assert c1 == c.(flags := ApplyToFlags(c.flags, KindOfCode(AUTH, code)));
    assert SeeAll(c, outs) == SeeAll(c1, outs[1..]) == See(c1, outs[1]);
  }

  lemma {:induction false} ConverseIsDialogue(hash: string -> string, es: seq<Exchange>)
    ensures Converse(hash, es).server == Dialogue(hash, Script(es))
  {
    if es != [] {
      ConverseIsDialogue(hash, es[..|es| - 1]);
      assert Script(es)[..|es| - 1] == Script(es[..|es| - 1]);
    }
  }

  /** One exchange, from a client that shows the right prompt. */
  lemma ExchangeAgrees(hash: string -> string, before: Pair, e: Exchange)
    requires IsGetHash(hash) && Proper(hash, e) && !before.server.state.Finished()
    requires CleanState(before.server.state) && InRounds(before.server.state)
    requires Agreeing(before) && InStep(before.server.state, WatchAll(FreshView(), before.server.sent))
    ensures Agreeing(Advance(hash, before, e))
  {
    var s := before.server.state;
    var turn := Resume(hash, s, WakeOf(e));
    var typed := Typed(before.client, e.line);
    var v := WatchAll(FreshView(), before.server.sent);
    WatchAppend(FreshView(), before.server.sent, turn.sent);
    TypedName(hash, before, e);
    if turn.state.Granted? {
      ResumeKeepsTable(hash, s, WakeOf(e));
      ResumeClean(hash, s, WakeOf(e));
      GrantingTurn(hash, s, WakeOf(e));
      GrantAdopts(typed, turn.sent[0].code, turn.state.username, turn.state.uid);
      WatchTwo(v, turn.sent[0], turn.sent[1]);
    } else {
      ResumeUidIsLast(hash, s, WakeOf(e));
      SeeCodes(typed, v, turn.sent);
    }
  }

  /** After Enter, the client's username is the one the server's next position is about. */
  lemma TypedName(hash: string -> string, before: Pair, e: Exchange)
    requires Typable(e.line) && !before.server.state.Finished() && Agreeing(before)
    requires InStep(before.server.state, WatchAll(FreshView(), before.server.sent))
    ensures var typed := Typed(before.client, e.line);
            && typed == before.client.(username := typed.username)
            && (NameOf(Resume(hash, before.server.state, WakeOf(e)).state).Some? ==>
                  typed.username == NameOf(Resume(hash, before.server.state, WakeOf(e)).state).value != "")
  {
  }

  lemma GrantingTurn(hash: string -> string, s: AuthState, w: Wake)
    requires !s.Finished() && Resume(hash, s, w).state.Granted?
    ensures var t := Resume(hash, s, w);
            && t.sent == [Notice(AUTH, t.sent[0].code), UidNotice(t.state.username, t.state.uid)]
            && t.sent[0].code in {USER_CREATED, USER_AUTHENTICATED}
  {
  }

  lemma StartAgrees(hash: string -> string)
    ensures Agreeing(Converse(hash, []))
  {
    assert NextRound(0, []).sent == Opening(0);
    SeeCodes(Fresh(), FreshView(), Opening(0));
  }

  lemma {:induction false} ConverseReady(hash: string -> string, es: seq<Exchange>)
    requires IsGetHash(hash) && forall i | 0 <= i < |es| :: Proper(hash, es[i])
    ensures var server := Converse(hash, es).server;
            CleanState(server.state) && InRounds(server.state)
                && InStep(server.state, WatchAll(FreshView(), server.sent))
  {
    ConverseIsDialogue(hash, es);
    DialogueInStep(hash, Script(es));
    DialogueSpends(hash, Script(es));
    assert forall i | 0 <= i < |es| :: Proper(hash, es[i]) && CleanWake(hash, Script(es)[i]);
    DialogueClean(hash, Script(es));
  }

  lemma {:induction false} ConverseAgrees(hash: string -> string, es: seq<Exchange>)
    requires IsGetHash(hash) && forall i | 0 <= i < |es| :: Proper(hash, es[i])
    ensures Agreeing(Converse(hash, es))
  {
    if es == [] {
      StartAgrees(hash);
    } else {
      var init := es[..|es| - 1];
      ConverseAgrees(hash, init);
      ConverseReady(hash, init);
      if !Converse(hash, init).server.state.Finished() {
        ExchangeAgrees(hash, Converse(hash, init), es[|es| - 1]);
      }
    }
  }

  /** What one message meets on its way: the clock, the sender's and the receiver's used storage, and the
      leftovers in the receiver's buffer. */
  datatype Path = Path(stamp: string, storage: Message, prior: Message, junk: string)

  /** create_message, send_message, SSL_read and parse_message. */
  function OverWire(hash: string -> string, p: Path, kind: Int32, sender: string, recipient: string,
                    payload: string): Message {
    ParseMessage(p.prior,
                 Encode(Filled(p.storage, CreateMessage(hash, p.stamp, kind, sender, recipient, payload))) + p.junk)
  }

  /** The server's messages as the client parses them. */
  function Heard(hash: string -> string, paths: nat -> Path, outs: seq<Out>): (ms: seq<Message>)
    ensures |ms| == |outs|
  {
    seq(|outs|, i requires 0 <= i < |outs| =>
          OverWire(hash, paths(i), KindNumber(outs[i]), SERVER, CLIENT_DEFAULT_NAME, PayloadOf(outs[i])))
  }

  /** An exchange with the paths of the typed line and of the server's messages. */
  datatype Chat = Chat(exchange: Exchange, typed: Path, heard: nat -> Path)

  function Exchanges(chats: seq<Chat>): (es: seq<Exchange>)
    ensures |es| == |chats| && forall i | 0 <= i < |chats| :: es[i] == chats[i].exchange
  {
    seq(|chats|, i requires 0 <= i < |chats| => chats[i].exchange)
  }

  /** One exchange, frame by frame: Enter sends the line with the type and the uid of the moment, the server
      resumes with the payload it parses, and the client handles each of the messages that it parses. */
  function TalkOnce(hash: string -> string, before: Pair, chat: Chat): Pair
    requires !before.server.state.Finished()
  {
    var e := chat.exchange;
    var line := OverWire(hash, chat.typed, EnterKind(before.client.flags), before.client.uid, SERVER, e.line);
    var turn := Resume(hash, before.server.state, Wake(Received(line.payload), e.users, e.online));
    Pair(Turn(turn.state, before.server.sent + turn.sent),
         HandleAll(Typed(before.client, e.line), Heard(hash, chat.heard, turn.sent)))
  }

  /** Both sides after a user has answered the prompts, frame by frame. */
  function Talk(hash: string -> string, first: nat -> Path, chats: seq<Chat>): Pair {
    if chats == [] then Pair(NextRound(0, []), HandleAll(Fresh(), Heard(hash, first, Opening(0))))
    else
      var before := Talk(hash, first, chats[..|chats| - 1]);
      if before.server.state.Finished() then before else TalkOnce(hash, before, chats[|chats| - 1])
  }

  lemma {:induction false} HeardIsSeen(hash: string -> string, paths: nat -> Path, c: State, outs: seq<Out>)
    requires IsGetHash(hash) && forall i | 0 <= i < |outs| :: CleanOut(outs[i])
    ensures HandleAll(c, Heard(hash, paths, outs)) == SeeAll(c, outs)
  {
    var ms := Heard(hash, paths, outs);
    forall i | 0 <= i < |outs| ensures Coded(outs[i]) && Carries(ms[i], outs[i]) {
      assert CleanOut(outs[i]);
      OutArrives(hash, paths(i).stamp, outs[i], paths(i).prior, paths(i).junk);
    }
    SeeAllIsHandleAll(c, outs, ms);
  }

  lemma OpeningIsClean(attempts: nat)
    requires attempts < USER_LOGIN_ATTEMPTS
    ensures forall i | 0 <= i < |Opening(attempts)| :: CleanOut(Opening(attempts)[i])
  {
  }

  lemma TalkOnceAdvances(hash: string -> string, before: Pair, chat: Chat)
    requires IsGetHash(hash) && Proper(hash, chat.exchange) && !before.server.state.Finished()
    requires CleanState(before.server.state) && InRounds(before.server.state)
             && before.client.uid == CLIENT_DEFAULT_NAME
    ensures TalkOnce(hash, before, chat) == Advance(hash, before, chat.exchange)
  {
    var e, typed := chat.exchange, chat.typed;
    LineArrives(hash, typed.stamp, EnterKind(before.client.flags), e.line, typed.prior, typed.junk);
    ResumeClean(hash, before.server.state, WakeOf(e));
    HeardIsSeen(hash, chat.heard, Typed(before.client, e.line), Resume(hash, before.server.state, WakeOf(e)).sent);
  }

  lemma TalkBegins(hash: string -> string, first: nat -> Path)
    requires IsGetHash(hash)
    ensures Talk(hash, first, []) == Converse(hash, [])
  {
    OpeningIsClean(0);
    HeardIsSeen(hash, first, Fresh(), Opening(0));
  }

  lemma {:induction false} TalkGoesOn(hash: string -> string, es: seq<Exchange>, chat: Chat)
    requires IsGetHash(hash) && Proper(hash, chat.exchange) && forall i | 0 <= i < |es| :: Proper(hash, es[i])
    requires !Converse(hash, es).server.state.Finished()
    ensures TalkOnce(hash, Converse(hash, es), chat) == Advance(hash, Converse(hash, es), chat.exchange)
  {
    ConverseAgrees(hash, es);
    ConverseReady(hash, es);
    TalkOnceAdvances(hash, Converse(hash, es), chat);
  }

  /** The wire changes nothing: the conversation frame by frame is the conversation. */
  lemma {:induction false} TalkIsConverse(hash: string -> string, first: nat -> Path, chats: seq<Chat>)
    requires IsGetHash(hash) && forall i | 0 <= i < |chats| :: Proper(hash, chats[i].exchange)
    ensures Talk(hash, first, chats) == Converse(hash, Exchanges(chats))
  {
    if chats == [] {
      TalkBegins(hash, first);
    } else {
      var init, chat := chats[..|chats| - 1], chats[|chats| - 1];
      var es := Exchanges(init);
      TalkIsConverse(hash, first, init);
      if !Converse(hash, es).server.state.Finished() {
        TalkGoesOn(hash, es, chat);
      }
      assert Exchanges(chats)[..|chats| - 1] == es && Exchanges(chats)[|chats| - 1] == chat.exchange;
    }
  }

  /** A successful dialogue with a user who answers each prompt once, every message of both sides created,
      framed, read into used storage, parsed and handled, leaves the client authenticated under the server's
      username; it has adopted the server's uid, the hash of that username, exactly when the username has no
      '|' in it; and then no message that ever follows changes it. Exactly the names that overrun take the
      client out of what the language defines. */
  lemma {:induction false} UidHandshake(hash: string -> string, first: nat -> Path, chats: seq<Chat>,
                                        later: seq<Message>)
    requires IsGetHash(hash) && forall i | 0 <= i < |chats| :: Proper(hash, chats[i].exchange)
    ensures var p := Talk(hash, first, chats);
            var s := p.server.state;
            s.Granted? ==>
              && p.client.flags.authenticated
              && p.client.username == s.username
              && s.uid == hash(s.username)
              && (p.client.uid == s.uid <==> BAR !in s.username)
              && (p.client.undefined <==> Overruns(s.username))
              && (BAR !in s.username ==> HandleAll(p.client, later).uid == s.uid)
  {
    var es := Exchanges(chats);
    TalkIsConverse(hash, first, chats);
    ConverseHandshake(hash, es, later);
  }

  /** The same without the wire. */
  lemma {:induction false} ConverseHandshake(hash: string -> string, es: seq<Exchange>, later: seq<Message>)
    requires IsGetHash(hash) && forall i | 0 <= i < |es| :: Proper(hash, es[i])
    ensures var p := Converse(hash, es);
            var s := p.server.state;
            s.Granted? ==>
              && p.client.flags.authenticated
              && p.client.username == s.username
              && s.uid == hash(s.username)
              && (p.client.uid == s.uid <==> BAR !in s.username)
              && (p.client.undefined <==> Overruns(s.username))
              && (BAR !in s.username ==> HandleAll(p.client, later).uid == s.uid)
  {
    var p := Converse(hash, es);
    if p.server.state.Granted? {
      ConverseAgrees(hash, es);
      ConverseIsDialogue(hash, es);
      DialogueInStep(hash, Script(es));
      assert forall i | 0 <= i < |es| :: Proper(hash, es[i]) && TableOk(hash, Script(es)[i].users);
      GrantedUid(hash, Script(es));
      assert IsHexText(p.server.state.uid);
      assert p.server.state.uid != CLIENT_DEFAULT_NAME;
      if BAR !in p.server.state.username {
        UidIsFinal(p.client, later);
      }
    }
  }

  lemma {:induction false} ConverseStep(hash: string -> string, es: seq<Exchange>, e: Exchange)
    requires !Converse(hash, es).server.state.Finished()
    ensures Converse(hash, es + [e]).server.state == Resume(hash, Converse(hash, es).server.state, WakeOf(e)).state
  {
    assert (es + [e])[..|es|] == es;
  }

  /** The positions of a registration of `name` with password "p", and the lines typed at them. */
  function Registering(hash: string -> string, name: string, i: nat): AuthState {
    if i == 0 then AwaitUsername(0) else if i == 1 then AwaitChoice(name)
    else if i == 2 then AwaitPassword(name) else if i == 3 then AwaitConfirmation(name, "p")
    else Granted(name, hash(name), Some(Row(hash(name), hash("p"))))
  }

  function Answer(name: string, i: nat): Exchange {
    Exchange(if i == 0 then name else if i == 1 then "y" else "p", map[], {})
  }

  lemma RegisteringTurn(hash: string -> string, name: string, i: nat)
    requires Typable(name) && |name| < MAX_USERNAME_LENGTH && i < 4
    ensures Resume(hash, Registering(hash, name, i), WakeOf(Answer(name, i))).state == Registering(hash, name, i + 1)
  {
  }

  /** The first `i` answers of a registration over an empty table. */
  function Answers(name: string, i: nat): (es: seq<Exchange>)
    ensures |es| == i && forall k | 0 <= k < i :: es[k] == Answer(name, k)
  {
    seq(i, k requires 0 <= k < i => Answer(name, k))
  }

  lemma {:induction false} AnswersGoOn(hash: string -> string, es: seq<Exchange>, name: string, i: nat)
    requires Typable(name) && |name| < MAX_USERNAME_LENGTH && i < 4
    requires Converse(hash, es).server.state == Registering(hash, name, i)
    ensures Converse(hash, es + [Answer(name, i)]).server.state == Registering(hash, name, i + 1)
  {
    ConverseStep(hash, es, Answer(name, i));
    RegisteringTurn(hash, name, i);
  }

  lemma {:induction false} AnswersRegister(hash: string -> string, name: string, i: nat)
    requires Typable(name) && |name| < MAX_USERNAME_LENGTH && i <= 4
    ensures Converse(hash, Answers(name, i)).server.state == Registering(hash, name, i)
  {
    if i == 0 {
      assert Answers(name, i) == [];
    } else {
      AnswersRegister(hash, name, i - 1);
      AnswersGoOn(hash, Answers(name, i - 1), name, i - 1);
      assert Answers(name, i) == Answers(name, i - 1) + [Answer(name, i - 1)];
    }
  }

  /** Somebody who answers every prompt properly with `es` is let in under `name`. */
  ghost predicate GetsThrough(hash: string -> string, es: seq<Exchange>, name: string) {
    var s := Converse(hash, es).server.state;
    s.Granted? && s.username == name && forall i | 0 <= i < |es| :: Proper(hash, es[i])
  }

  lemma {:induction false} Registration(hash: string -> string, name: string) returns (es: seq<Exchange>)
    requires Typable(name) && |name| < MAX_USERNAME_LENGTH
    ensures GetsThrough(hash, es, name)
  {
    es := Answers(name, 4);
    AnswersRegister(hash, name, 4);
    forall i | 0 <= i < 4 ensures Proper(hash, es[i]) {
      assert es[i] == Answer(name, i);
    }
  }

  lemma OverrunningNames()
    ensures !Overruns("a|b c") && Overruns("a|b") && Overruns("|b")
  {
    var s, t := "a|b c", "a|b";
    ScanSetOfField("a", "|b c", BAR, 5);
    assert s == "a" + "|b c" && s[2..] == "b c" && s[1] == BAR;
    assert Tail(s) == "b c" && IsSpace(Tail(s)[1]);
    ScanSetOfField("a", "|b", BAR, 3);
    assert t == "a" + "|b" && t[2..] == "b" && t[1] == BAR;
    assert Tail(t) == "b";
    assert "|b"[0] == BAR;
  }

  /** Names with a delimiter get through: one whose client stays nameless, one whose client writes past its
      uid array, and one whose client compares what it never stored. */
  lemma {:induction false} DelimitersGetThrough(hash: string -> string)
    returns (nameless: seq<Exchange>, overlong: seq<Exchange>, unstored: seq<Exchange>)
    ensures GetsThrough(hash, nameless, "a|b c") && !Overruns("a|b c")
    ensures GetsThrough(hash, overlong, "a|b") && Overruns("a|b")
    ensures GetsThrough(hash, unstored, "|b") && Overruns("|b")
  {
    nameless := Registration(hash, "a|b c");
    overlong := Registration(hash, "a|b");
    unstored := Registration(hash, "|b");
    OverrunningNames();
  }

  lemma {:induction false} GrantedUid(hash: string -> string, script: seq<Wake>)
    requires forall i | 0 <= i < |script| :: TableOk(hash, script[i].users)
    requires Dialogue(hash, script).state.Granted?
    ensures Dialogue(hash, script).state.uid == Uid(hash, Dialogue(hash, script).state.username)
  {
    if script != [] {
      var before := Dialogue(hash, script[..|script| - 1]);
      if before.state.Finished() {
        GrantedUid(hash, script[..|script| - 1]);
      } else {
        ResumeKeepsTable(hash, before.state, script[|script| - 1]);
      }
    }
  }
}
