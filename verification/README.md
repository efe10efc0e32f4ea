# Verification of secure-chat

This project models the logic of the chat and proves properties of it. Run `dafny verify dfyconfig.toml`.

## What is modelled

**Wire format** (`Text`, `Hashing`, `Protocol`). Decimal printing and scanning and the `%[^c]` conversion follow
sections 7.21.6.1 and 7.21.6.2 of ISO/IEC 9899:2011. `create_message`, `send_message` and `parse_message` are functions on
the structure together with the class `Endpoint`, whose receive buffer is never cleared. SHA-512 is a parameter:
`hash` stands for `get_hash`, and the other modules know only that it prints 128 lower-case hexadecimal digits. The hex
loop, its injectivity and the `strtoul(.,16) % size` bucket are modelled exactly, with a 64-bit `unsigned long`.

**Login and registration dialogue** (`AuthDialogue`, `DialogueAnswers`, `ServerAuth`, `ClientSide`, `Agreement`, `Handshake`).
`AuthDialogue.Resume` is what `user_auth` does from one blocking read to the next, with the users table and the online
uids of that moment as arbitrary inputs; `DialogueAnswers` says in the protocol's own numbers and texts what each answer of a
user leads to. `ServerAuth.UserAuth` is the loop itself with its early exits, on a connection whose
whole future is given; its contract says that it is the run of that machine on the reads it takes from that future. The client is the two classes `ClientState` and `Client`, proved against the function
`Handle`; where the code would write past an array or read uninitialised storage, the state says so (`undefined`).
`Agreement` folds the client over everything the server has sent, and `Handshake` puts the wire in between.

**Registry, queue and server** (`HashMaps`, `StsQueues`, `ChatServers`, `Fanout`, `Delivery`). Linked nodes on the heap with a
plain map and a plain sequence as their abstract values, the server's callbacks and loop bodies over both, and what the
callbacks' messages do at the client.

**The server as interleaved steps** (`ChatSystem`, `ChatRuns`, `ChatDialogues`, `ChatChecks`, `ChatSingle`, `ChatAccounts`,
`ChatRouting`, `ChatKicks`, `ChatRaces`). Any number of client threads, the router, the ping thread and the command line take atomic
steps in any order; the theorems are about every state of every run. The router's iteration is four steps (pop, lookup,
write, mark), since no lock spans them.

**The linked structures carry out those steps** (`ChatRefinement`, `Server`, `ServerTalk`). Each operation on the linked map, the linked
queue and the connections is one step, and `Server.Serve` executes any sequence of commands (requests, frames, threads
running on, router turns, walks, kicks) on the heap. It is proved to carry out each that is possible in the state of the
step system it has come to, with exactly the output that the state calls for.

**Command line** (`Cli`). The tokenizer with its growing array, command lookup, and the text that a broadcast joins.

## Findings

- Round trip: a structure survives the wire, whatever the receiver's storage and buffer held, if and only if its three
  ids are non-empty and free of `|`, its payload is free of newlines and its length field is right
  (`Protocol.RoundTripIff`). `create_message` accepts 2048 payload characters but stores 2047, so the last is lost
  (`Protocol.CreatedPayloadArrives`).
- A username with `|` in it registers, but its client never adopts the uid. For exactly the names that
  `Handshake.Overruns` describes the client's scan also writes past `uid[129]` or compares storage it never filled
  (`Handshake.UidHandshake`, `Handshake.DelimitersGetThrough`).
- When `create_message` refuses a broadcast or join text the callbacks still queue their storage. A fan-out queues the
  intended messages if and only if its text has between 1 and 2047 characters (`Fanout.FanOutExact`).
- The client's flags are not mutually exclusive and stale ones survive the dialogue. The prompt is still always the right
  one (`Agreement.PromptAgreement`); after success a stale flag decides what Enter sends in exactly the cases that
  `Agreement.PostLoginDispatch` names.
- With 100 buckets, every uid whose digest has a non-zero byte among the first 56 is in bucket 15
  (`Hashing.BucketClosedForm`).
- README.md:98 promises one logged instance per client. A run never has two live sessions of one uid if and only if every
  `hash_map_insert` of the run returned 1 and met no session of its uid that had been kicked out of the registry and was
  still being served (`ChatSingle.SingleIff`). Racing logins break the promise (`ChatRaces.RaceBreaks`), and so does a new
  login beside a kicked session whose thread goes on (`ChatRaces.KickBreaks`); a kick alone does not
  (`ChatRaces.KickAloneIsSingle`).
- A client is kicked as unresponsive if and only if the router has marked it as pinged and it has not answered since the mark
  (`ChatKicks.KickedIff`). The mark comes after the write, so an answer that arrives between the two is lost, and its
  client is kicked although it answered (`ChatKicks.KickedThough`, `ChatRaces.AnsweredButKicked`).
- The signal to quit that the server sends for a kick, from the command line or for an unanswered ping, moves no client: each
  takes such a signal only from somebody else (`Delivery.QuitIsIgnored`, `Delivery.QuitOfOthers`).
- A message uid depends only on the second and the payload: two such messages to different users share it
  (`Protocol.UidOfTimeAndPayload`).
- The router writes to the connection that was registered when it looked. The connection's thread has ended by then if and
  only if it ended between the lookup and the write (`ChatRouting.WriteTarget`, `ChatRaces.WriteAfterEnd`).
- Every line that the client's Enter key sends is addressed to `server`, which is nobody's uid, so the router drops it: in no
  run is a line typed into this client written to anybody (`ChatRouting.TypedIsDropped`).

## Model

| member | source | states |
|---|---|---|
| Text.PrintIntScans | common/src/protocol.c:52-60 | `%d` scanning gives back the printed integer and stops at whatever non-digit follows, for every integer |
| Text.ScanSetOfField | common/src/protocol.c:55-56 | `%N[^c]` takes exactly a field free of c and NUL that c, NUL, the end of the text or the width limit ends |
| Text.PrintWidths | common/src/protocol.c:70-75 | an int32 prints in at most 11 characters, a uint32 in at most 10, all digits or a minus sign |
| Hashing.GetHash | common/src/protocol.c:195-200 | the loop leaves the hex text of the digest and its terminator in the output array and touches nothing behind it |
| Hashing.HexInjective | common/src/protocol.c:195-200 | two digests with the same hex text are the same digest |
| Hashing.PrintedDigests | common/src/protocol.c:160-203 | for every digest function the printed hash is 128 lower-case hex digits, which is all the other modules use |
| Hashing.StrtoulOfHex | common/src/hash_map.c:90 | `strtoul` in base 16 of a printed digest is its big-endian value, saturated at 2^64-1 |
| Hashing.SaturatesIff | common/src/hash_map.c:130 | it saturates exactly when one of the first 56 of the 64 bytes is non-zero |
| Hashing.BucketClosedForm | server/src/server.c:559 | closed form of the bucket index for every digest and table size; for the server's 100 buckets it is 15 whenever one of the first 56 bytes is non-zero |
| Protocol.EncodeIsWhole | common/src/protocol.c:67-75 | the frame of any structure fits in BUFFER_SIZE-1, is never cut off and holds no NUL |
| Protocol.FrameText | common/src/protocol.c:67-75 | the frame is the uid, the type, the sender, the recipient, the length and the text, in this order, with a bar between them |
| Protocol.CreatedByLength | common/src/protocol.c:13-50 | create_message takes exactly texts of 1 to 2048 characters with ids of at most 129, and refuses the others with 2109, 2110 and 2111; the structure has the first 2047 and 128 of them |
| Protocol.UidOfTimeAndPayload | common/src/protocol.c:32-40 | a message uid is the hash of the clock's text and the payload; where the hash tells the texts apart, two messages have one uid exactly when they share both, whatever their types, senders and recipients |
| Protocol.RoundTrip | common/src/protocol.c:52-75 | parsing undoes sending for every well-formed structure, every earlier content of the receiving structure and every leftover in the buffer, even with the delimiter in the payload |
| Protocol.RoundTripIff | common/src/protocol.c:52-75 | exactly the well-formed structures survive every receiving structure and every leftover |
| Protocol.CreatedPayloadArrives | common/src/protocol.c:13-50 | a payload given to create_message arrives unchanged if and only if it has at most 2047 characters and no newline |
| Protocol.Endpoint.Create | common/src/protocol.c:13-50 | the whole resulting structure and the code, for NULL arguments (2101), each refusal, a failed hash (2112, which leaves the texts cleared) and success (2100) |
| Protocol.Endpoint.Send | common/src/protocol.c:62-93 | the frame fits the buffer and holds no NUL; everybody who parses it, whatever their storage and leftovers, gets the sent structure if that was well-formed, and somebody does not if it was not (and its length field was below 2048) |
| Protocol.Endpoint.Receive | server/src/server.c:271-278 | after reading into the uncleared buffer the structure is the parsed one; a well-formed structure that was framed is received as it was |
| StsQueues.StsQueue.constructor | common/src/sts_queue.c:13-23 | a new queue is empty |
| StsQueues.StsQueue.Push | common/src/sts_queue.c:31-53 | appends one value to the sequence the queue stands for, also when `tail` is stale because the queue had been emptied |
| StsQueues.StsQueue.Pop | common/src/sts_queue.c:55-78 | takes the first value off that sequence, or returns NULL and changes nothing when it is empty |
| HashMaps.HashMap.constructor | common/src/hash_map.c:10-51 | a new map is empty and places uids by the saturating hash |
| HashMaps.HashMap.Find | common/src/hash_map.c:87-117 | finds a uid exactly when the plain map has it and no node up to it lacks a request, and then returns what the plain map holds |
| HashMaps.HashMap.Insert | common/src/hash_map.c:119-163 | updates the plain map at the uid; 1 exactly for a new key, 2 for an overwrite, 0 and no change without a uid; keeps placement, uniqueness and the element count |
| HashMaps.HashMap.Erase | common/src/hash_map.c:165-197 | removes only its key from the plain map; keeps placement, uniqueness and the element count |
| HashMaps.HashMap.Iterate | common/src/hash_map.c:225-253 | visits every entry of the plain map exactly once and nothing else |
| HashMaps.HashBucket.Walk | common/src/hash_map.c:136-140 | the walk stops at the node of the uid, or behind the last node, with its predecessor |
| HashMaps.HashBucket.Put | common/src/hash_map.c:133-159 | appends to the chain or overwrites in place, and leaves all other nodes |
| HashMaps.HashBucket.Remove | common/src/hash_map.c:171-194 | unlinks the node of the uid and leaves all other nodes in order |
| HashMaps.AgreesPut | common/src/hash_map.c:119-163 | overwriting or appending in one chain is updating the plain map at one key, and every connection stays in its own bucket |
| HashMaps.AgreesRemove | common/src/hash_map.c:165-197 | unlinking from one chain is removing one key from the plain map |
| HashMaps.IterationEnumerates | common/src/hash_map.c:240-253 | going through the buckets in order meets every entry exactly once, with no uid twice |
| AuthDialogue.ResumeSpends | server/src/server_auth.c:58-421 | every turn between two reads uses up at least one of the reads that are left, and its messages are covered by the sends that are left |
| AuthDialogue.DialogueBounds | server/src/server_auth.c:28-56 | for all inputs: ended after 8 reads, at most 20 messages, the announced attempts are a prefix of 3,2,1, registration is offered at most once and while only 3 was announced |
| AuthDialogue.BoundsAreReached | server/src/server_auth.c:87-363 | a script of inputs with exactly 8 reads and 20 messages, so neither bound can be lowered |
| AuthDialogue.DialogueTold | server/src/server_auth.c:28-56 | at every read the announcements made so far are exactly those of the rounds opened, and no offer was made in round 0 before a choice is awaited |
| AuthDialogue.ResumeKeepsTable | server/src/server_auth.c:143-195 | a turn keeps the uid-is-hash and uniqueness invariant and every row; it adds a row exactly when it ends a registration; success reports the uid of the row, the hash of the username |
| AuthDialogue.OnlineOfName | server/src/server_auth.c:274-276 | a turn depends on who is online only through the uid of the named user, which is the one hash_map_find is asked for |
| DialogueAnswers.StartTells | server/src/server_auth.c:33-61 | user_auth begins in the first round with the welcome, 3 attempts, the registration info and the username prompt |
| DialogueAnswers.UnknownNameDecides | server/src/server_auth.c:87-269 | in any dialogue, a line whose first 15 characters are no name in the table leads to the offer in the first round, the next round in the second, the end with 1401 in the third, each with its messages by number |
| DialogueAnswers.KnownNameDecides | server/src/server_auth.c:271-295 | a name in the table leads to the password prompt exactly if its uid is not online, and otherwise to the next round or the end |
| DialogueAnswers.ChoiceDecides | server/src/server_auth.c:109-239 | in any dialogue, the answer to the offer leads to the password prompt exactly for y and Y, to the second round exactly for n and N, and to the end with 1401 exactly for everything else |
| DialogueAnswers.PasswordDecides | server/src/server_auth.c:124-130 | the first 15 characters of the password line are kept, and its confirmation asked for |
| DialogueAnswers.ConfirmationDecides | server/src/server_auth.c:140-228 | a confirmation with other first 15 characters opens the second round; one with the same adds the row, the hashes of the name and of those characters, exactly if the name and its hash are free, and else ends the dialogue |
| DialogueAnswers.LoginDecides | server/src/server_auth.c:303-418 | the user is let in, under the uid of the row, exactly if the hash of the line's first 15 characters is the one in the table; else the next round, or the end after the third |
| DialogueAnswers.FailureDecides | server/src/server_auth.c:58-64 | a failed read ends the dialogue, with 1403 at the username prompt and 1401 elsewhere |
| DialogueAnswers.RegistersIff | server/src/server_auth.c:87-214 | a dialogue adds a row for a name exactly if its four reads are that name while it is not in the table, y or Y, and two lines with the same first 15 characters, with name and hash still free at the end; the row is the hashes of the name and of those characters |
| DialogueAnswers.LogsInIff | server/src/server_auth.c:271-418 | a dialogue lets somebody in without a new row exactly if its last two reads are a name at a username prompt, in the table and offline, and a line whose first 15 characters hash like the row's password |
| ServerAuth.UserAuth | server/src/server_auth.c:28-436 | for every future of the connection the loop ends; its messages, result, username, uid and the table it leaves are those of the dialogue machine on the reads it took, which are the first of that future, at most 8, with at most 20 messages; success means that they were the reads of a registration or of a login |
| ServerAuth.LetInIff | server/src/server_auth.c:28-436 | whatever user_auth returned with: 1400 with name and uid exactly after the reads of a registration or of a login; the table has the one new row after a registration and is as the last read found it otherwise |
| ServerAuth.OutcomeDetermined | server/src/server_auth.c:28-436 | the future alone determines how much is read, what is sent, the table that is left, and the result with username and uid |
| ServerAuth.Round | server/src/server_auth.c:30-420 | one pass of the loop takes further reads of the connection's future, and either comes to the next round or returns what the dialogue ended with |
| ServerAuth.UnknownUser | server/src/server_auth.c:87-269 | the branch of an unknown username, in round 0 and later, follows the machine on the connection's next reads |
| ServerAuth.Register | server/src/server_auth.c:101-239 | the registration sub-dialogue follows the machine on the connection's next reads; after y or Y it asks for the password and reads on, after n or N the next round follows with nothing sent, and after anything else it returns 1401 |
| ServerAuth.ConfirmPassword | server/src/server_auth.c:132-228 | on the connection's next read, the row is added to the table found with it, and success announced, exactly in the matching case; otherwise the next round or failure |
| ServerAuth.Login | server/src/server_auth.c:289-418 | the login branch follows the machine on the connection's next read and the table found with it, with the last attempt told apart |
| ClientSide.ClientState.ResetState | client/src/client_gui.c:278-287 | clears every flag but just_joined |
| ClientSide.ClientState.HandleAuth | client/src/client_msg_handler.c:57-119 | the flags after an authentication code are those of its branch (AuthByText says which, by the texts) |
| ClientSide.ClientState.SetAttempts | client/src/client_msg_handler.c:189-209 | only 3, 2 and 1 are taken over |
| ClientSide.Client.HandleMessage | client/src/client_msg_handler.c:17-209 | type 1241 from `server` appends exactly the ACK from the client's uid and changes nothing; 1242 from `server` sets the answer flag and sends nothing; every other message sends nothing; the whole state after any message is the handler function of the state before |
| ClientSide.AuthByText | client/src/client_msg_handler.c:57-119 | which flags each of the eight authentication texts sets and clears, and that no other text changes any |
| ClientSide.HandledByNumber | client/src/client_msg_handler.c:17-209 | the whole state after any message other than a UID message, by type number, sender, addressee and text: which are taken, which dropped, and what each does |
| ClientSide.Client.AdoptUid | client/src/client_msg_handler.c:126-173 | the uid is taken over exactly when the name is the client's own and it has none yet; a payload whose fields do not both convert and fit their arrays leaves the client undefined |
| ClientSide.Client.PressEnter | client/src/client_gui.c:96-117 | sends the input to `server` with type 1244, 1236 or 1234 by the first set flag, and keeps the first 15 characters as the username at its prompt |
| ClientSide.UidIsFinal | client/src/client_msg_handler.c:126-173 | once the client has a uid, no sequence of messages whatever changes it |
| Agreement.SeeIsHandle | client/src/client_msg_handler.c:57-125 | the handler's string comparisons of printed codes are comparisons of codes, for every message user_auth can send |
| Agreement.ResumeInStep | server/src/server_auth.c:58-421 | every turn of the server, folded into the client, keeps the relation between the server's position and the client's flags, stale ones included |
| Agreement.DialogueInStep | client/src/client_msg_handler.c:57-125 | the relation holds after every dialogue, from the initial client state |
| Agreement.PromptAgreement | client/src/client_gui.c:218-246 | whenever user_auth blocks, for every table, online set and input so far, the client shows the awaited prompt, Enter sends the matching type, its attempts counter is 3 minus the server's, and round 0 implies can_register |
| Agreement.PostLoginDispatch | client/src/client_gui.c:99-113 | after success Enter sends a text message exactly when no registration choice was offered since the last already-online reset; a stale flag decides it otherwise |
| Agreement.DialogueUidIsLast | server/src/server_auth.c:203-214 | the username-and-uid message is sent exactly once, last, and only on success |
| Handshake.OutArrives | common/src/protocol.c:13-75 | every message of the dialogue is created, and is parsed on the other side as it was created, whatever storage it is parsed into |
| Handshake.LineArrives | client/src/client_gui.c:96-113 | a line typed by the user arrives at the server as the payload it reads |
| Handshake.DialogueClean | server/src/server_auth.c:28-421 | every message user_auth can send meets the conditions of the wire round trip |
| Handshake.DialogueArrives | client/src/client_msg_handler.c:17-209 | printing, sending, receiving into used storage, parsing and handling everything the server sends in a dialogue leaves the client as the direct fold does |
| Handshake.TalkIsConverse | client/src/client_gui.c:96-113 | a conversation in which every typed line and every answer is created, framed, read into used storage, parsed and handled is the conversation without the wire |
| Handshake.UidSplits | client/src/client_msg_handler.c:126-130 | the message splits back into username and uid exactly when the username is free of the delimiter; both fields fit username[17] and uid[129] exactly for the names that do not overrun |
| Handshake.ConverseAgrees | client/src/client_gui.c:99-107 | with one line typed for each prompt, client and server truncate to the same username at every point of every dialogue |
| Handshake.UidHandshake | server/src/server_auth.c:407-418 | after success over the wire the client is authenticated under the server's username; it holds the server's uid, the hash of that name, if and only if the name has no delimiter in it, and then no later message changes it; it is undefined exactly for the names that overrun |
| Handshake.DelimitersGetThrough | server/src/server_auth.c:101-214 | names with a delimiter register: one that leaves the client without uid, one that overruns uid[129], one whose first field is never stored |
| Fanout.WantedExact | server/src/server.c:157-232 | the addressees of a fan-out are exactly the connections its test accepts, all distinct |
| Fanout.FanOutCounts | server/src/server.c:157-232 | a fan-out pushes exactly one message for each addressee, for every text |
| Fanout.MadeExact | server/src/server.c:200-232 | what one callback pushes for each length of text: for 1 to 2047 characters the newcomer's name as type 1248, the broadcast text as 1234, "PING" as 1241 or "QUIT" as 1243, from `server` to the uid; one cut by a character for 2048; otherwise the content of its storage |
| Fanout.FanOutExact | server/src/server.c:200-232 | the messages of a fan-out with an addressee are those, by type number and text, whatever the callbacks' storage held, if and only if the text has between 1 and 2047 characters |
| Delivery.AnnouncementArrives | server/src/server.c:157-232 | a callback's message for a sendable text without newline is what the client of that uid parses, whatever its storage and buffer held, and counts as addressed to it |
| Delivery.PingComesBack | client/src/client_msg_handler.c:20-31 | a ping parsed by its client changes nothing there, and the answer, parsed by the server, clears the flag that the ping was marked with |
| Delivery.QuitIsIgnored | client/src/client_msg_handler.c:174-188 | the signal to quit that the server makes, parsed by whatever client, leaves it as it was |
| Delivery.QuitOfOthers | client/src/client_msg_handler.c:174-188 | the same signal from anybody else makes every client quit that takes it as addressed to it |
| ChatServers.Callback | server/src/server.c:157-232 | a callback pushes one message to the queue exactly when its test accepts the connection |
| ChatServers.Iterate | common/src/hash_map.c:225-253 | a walk over the linked map appends the fan-out over all its entries, each visited once, to the linked queue |
| ChatServers.LookUp | server/src/server.c:378 | the lookup finds whom the registry holds under the recipient, or nobody |
| ChatServers.HandleReceived | server/src/server.c:276-303 | a ping is answered, an ACK clears the flag, and every other message is queued unchanged |
| ChatServers.InsertClient | server/src/server.c:247-255 | the connection is registered and marked inserted; the result tells new from overwritten |
| ChatServers.RemoveClient | server/src/server.c:308-310 | an inserted connection's uid loses its entry, and no other does |
| ChatServers.Unresponsive | server/src/server.c:173-182 | the collected uids are those of the ready connections with an unanswered ping, in visiting order, the ones that the quit signals go to |
| ChatServers.EraseAll | server/src/server.c:180 | the collected uids lose their entries and no other uid does |
| ChatSystem.NoDanglingStep | server/src/server.c:241-314 | every step keeps registry entries on live sessions of that uid, and what the router holds on a session that was one |
| ChatSystem.KnownStep | server/src/server_auth.c:143-195 | every step keeps the table invariant, all rows, and a row for everybody past the password prompt |
| ChatSystem.RoutedStep | server/src/server.c:293-395 | every step keeps pushed equal to finished, in hand and queued together, and writes on the session that was registered under the recipient |
| ChatSystem.ChecksHoldStep | server/src/server_auth.c:276-287 | every step keeps an unraced session's uid out of the registry between its online check and its insert |
| ChatRuns.RunInvariant | server/src/server.c:234-315 | the four invariants hold in every state of every run |
| ChatRuns.NoDanglingEntry | server/src/server.c:308-314 | in every interleaving each registry entry refers to an inserted session of that uid whose thread has not ended |
| ChatRuns.OrderlyIff | server/src/server.c:247-259 | over a whole run every live session is the registered one of its uid, which is more than being the only one, if and only if every insert returned 1 and no kick removed an entry |
| ChatChecks.FindCheck | server/src/server_auth.c:276-287 | every session about to be inserted has a read in the run at which its uid was found offline and on which it has relied since |
| ChatChecks.MarkedIff | server/src/server_auth.c:276-287 | the race mark of a session says exactly that an insert of its uid lies between that read and now |
| ChatChecks.UnracedInsertIsNew | server/src/server_auth.c:276-287 | an insert returns 1 when no insert of its uid lies between its own online check and itself |
| ChatSingle.SingleIff | README.md:98 | a run never has two live sessions of one uid if and only if every insert returned 1 and met no session of its uid that a kick had taken out of the registry and that was still being served |
| ChatSingle.KicklessSingleIff | README.md:98 | without kicks: if and only if every insert returned 1 |
| ChatSingle.UnracedSingleIff | README.md:98 | without raced logins, by positions: if and only if no insert met a kicked session of its uid that was still being served |
| ChatRaces.RaceBreaks | server/src/server_auth.c:276-287 | a run, without kicks, in which two logins race: two live sessions of one uid, and the second insert returned 2 |
| ChatRaces.KickBreaks | server/src/server.c:173-182 | a run without raced logins, every insert returning 1, in which a kicked thread goes on and its user logs in again: two live sessions of one uid |
| ChatRaces.KickAloneIsSingle | server/src/server.c:173-182 | a run whose kick removes an entry and that still never has two live sessions of one uid |
| ChatRaces.AnsweredButKicked | server/src/server.c:381-386 | a run in which a session is written a ping, answers it before the mark, and is collected by the next scan |
| ChatRaces.WriteAfterEnd | server/src/server.c:378-381 | a run whose last step writes to the connection of a thread that ended after the lookup |
| ChatAccounts.RowsPersist | server/src/server_db.c:44-54 | in every run rows are never lost or changed, uids are hashes of their usernames, and both are unique |
| ChatAccounts.TableChange | server/src/server_auth.c:173-195 | a step changes the table exactly when it ends a registration, and then adds the one row |
| ChatAccounts.RowOrigin | server/src/server_auth.c:143-195 | every row that was not there at the start was added by a registration of the run |
| ChatAccounts.RegistrationHeard | server/src/server_auth.c:87-214 | in every run, the thread that adds a row had read exactly the name while it was not in the table, y or Y, and a password with the same first 15 characters as the line that adds the row; the row is the hashes of the name and of those characters |
| ChatAccounts.LetInHeard | server/src/server_auth.c:28-421 | in every run, whoever has been let in either registered the name in that dialogue or gave, at its last read, a line whose first 15 characters hash like the password of the name's row |
| ChatDialogues.RunsDialogue | server/src/server_auth.c:28-436 | in every state of every run, a thread stands where the dialogue over its own reads, with the table and the registry that each of them met, stands, and has been told exactly what that dialogue sends |
| ChatDialogues.ServedInOrder | server/src/server.c:247-270 | a thread in its read loop was let in, then inserted, then announced, then made ready, in this order |
| ChatAccounts.PositionKept | server/src/server_auth.c:295-301 | whatever the other threads do between two reads of a dialogue, it stays where it is |
| ChatAccounts.RegisterThenLogin | server/src/server_auth.c:271-379 | however many other steps came between, a dialogue that offers a registered and offline user asks for the password; its next line is let in, under the same uid, if it has the same first 15 characters as the line typed at the password prompt of the registration, and, where the hash tells these two texts apart, only then |
| ChatRouting.RoutingConserves | server/src/server.c:357-395 | in every state of every run, pushed is finished, then the message in the router's hand, then queued; what a session was written is a subsequence, in push order, of what was addressed to its uid |
| ChatRouting.OnlyHashesWritten | server/src/server.c:378-389 | whatever the router writes in any run was addressed to the 128 hexadecimal digits of a hash |
| ChatRouting.NothingForServer | server/src/server.c:378-389 | whatever is addressed to `server` is dropped in every run |
| ChatRouting.TypedIsDropped | client/src/client_gui.c:96-117 | what arrives of a line typed into the client, in whatever storage, is never written to anybody |
| ChatRouting.WriteTarget | server/src/server.c:378-385 | a write goes to the session that was live and registered under the recipient at the router's last lookup; it is still live if and only if its thread has not ended since |
| ChatRouting.LookupIff | server/src/server.c:378-389 | a lookup finds whoever is registered under the recipient at that moment, and drops the message exactly if nobody is |
| ChatRouting.ReceivedIsQueued | server/src/server.c:282-303 | what a client sends is queued unchanged, except types 1241 and 1242, which queue nothing |
| ChatRouting.HistoriesGrow | common/src/sts_queue.c:31-78 | what was pushed or finished with once is never undone or reordered later in the run |
| ChatRouting.FanOutReachesReady | server/src/server.c:200-232 | in every run a join, broadcast, ping or quit to everybody gains the queue exactly one message for each ready registered session other than the newcomer, all addressees distinct, for every text; for texts of 1 to 2047 characters it is the newcomer's name as 1248, the text as 1234, "PING" as 1241 or "QUIT" as 1243, from `server` |
| ChatRouting.FanOutTellsIff | server/src/server.c:200-232 | when there is such a session, the messages are those, by type number and text, whatever the callbacks' storage held, if and only if the text has between 1 and 2047 characters |
| ChatRouting.BroadcastReaches | server/src/server.c:200-215 | in every run a broadcast of 1 to 2047 characters queues exactly that text as type 1234 from `server`, once for each ready registered session |
| ChatRouting.JoinReaches | server/src/server.c:217-232 | in every run a login queues the newcomer's name as type 1248 from `server`, once for each other ready registered session, unless the name is empty |
| ChatRouting.QuitOneReaches | server/src/server.c:72-95 | kicking a user from the command line queues one "QUIT" of type 1243 if the session is ready, and nothing otherwise |
| ChatKicks.FlaggedIff | server/src/server.c:382-386 | in every run a live session's ping flag is set if and only if the router marked it and it has received no answer since the mark |
| ChatKicks.KickedIff | server/src/server.c:173-182 | a scan collects a uid if and only if its registered session is in its read loop, was marked, and has not answered since the mark |
| ChatKicks.MarkFollowsPing | server/src/server.c:381-386 | every mark follows a message of type 1241 from `server` that the router's action before it wrote to the same session |
| ChatKicks.PingThenMark | server/src/server.c:381-386 | after such a write the router's next action marks the session, if its thread is still running |
| ChatKicks.OtherWriteMarksNobody | server/src/server.c:381-386 | after a write of any other message the router is idle until its next pop, and no session's flag gets set in between |
| ChatKicks.ScanSignals | server/src/server.c:173-198 | a scan queues one "QUIT" of type 1243 for each uid it collects, in order, and nothing else |
| ChatKicks.KickedThough | server/src/server.c:381-386 | whoever is collected was written a message of type 1241 from `server` and marked for it; it has answered that ping all the same if and only if the answer came between the write and the mark |
| ChatRefinement.FanAllStep | server/src/server.c:317-323 | a ping, broadcast or quit walk over the linked map, with the storage and clock its callbacks are given, is the abstract fan-out step, and the structures and all connections stand for the state after it |
| ChatRefinement.KickScanStep | server/src/server.c:173-182 | looking for unresponsive connections, with the storage and clock given, is the abstract kick scan, with the same uids collected |
| ChatRefinement.KickEraseStep | server/src/server.c:180 | erasing a collected uid is the abstract erase step, after which its connection still stands for its live session |
| ChatRefinement.QuitOneStep | server/src/server.c:72-95 | kicking one uid from the command line is the abstract quit step |
| ChatRefinement.PopStep | server/src/server.c:359 | the pop is the abstract pop step, with the same message |
| ChatRefinement.FindStep | server/src/server.c:378 | the lookup is the abstract lookup step: the connection it returns is that of the session found, or there is none |
| ChatRefinement.MarkStep | server/src/server.c:385 | setting the ping flag is the abstract mark step, whether or not the connection's thread has ended |
| ChatRefinement.InsertStep | server/src/server.c:247-255 | registering a connection is the abstract insert step with the same result, and an overwritten connection still stands for its live session |
| ChatRefinement.AnnounceStep | server/src/server.c:267-268 | the join message, with the storage and clock given, is the abstract announce step |
| ChatRefinement.ReadyStep | server/src/server.c:270 | setting the ready flag is the abstract ready step |
| ChatRefinement.ReceiveStep | server/src/server.c:276-303 | handling a received message is the abstract receive step, with the answer to a ping |
| ChatRefinement.DisconnectStep | server/src/server.c:308-314 | the end of a client thread is the abstract disconnect step, also when the entry is another session's by then |
| Server.Online | server/src/server_auth.c:274-276 | asking the linked map for the one uid of the row makes the dialogue go on as with all online uids |
| Server.AuthTurn | server/src/server_auth.c:58-421 | a read of user_auth returning is the abstract dialogue step and sends what that step sends; a thread that is let in gets its connection |
| Server.TakeFromQueue | server/src/server.c:359 | a router that waits takes the oldest message in the abstract pop step |
| Server.LookUpRecipient | server/src/server.c:378-389 | with a message it takes the abstract lookup step and holds on to the connection, or drops the message |
| Server.WriteMessage | server/src/server.c:381 | it writes the message's frame to the connection it holds, the one the step system writes to |
| Server.MarkPinged | server/src/server.c:382-386 | after a server's ping it marks that connection in the abstract mark step |
| Server.PossibleIff | server/src/server.c:234-399 | a command is possible in a state exactly if an action that it can be is enabled there, a walk over the whole registry and a fresh thread included |
| Server.Execute | server/src/server.c:234-399 | a command that is possible in the state the server stands for is its action of the step system and writes exactly that action's output; another one changes and writes nothing |
| Server.LogIsRun | server/src/server.c:234-399 | leaving out the commands that were not possible, the states and actions of any log are a run of the step system |
| Server.Serve | server/src/server.c:234-399 | from the empty server, whatever the commands and their order, each that is possible in the state then reached is carried out as its action and writes its output, the others do nothing; this is a run of the step system, and the heap stands for its last state |
| ServerTalk.SocketTellsDialogue | server/src/server_auth.c:28-436 | whatever the commands, the messages of user_auth that go out over a thread's socket are those of the dialogue over that thread's reads, and the thread stands where that dialogue stands |
| ServerTalk.SocketForwards | server/src/server.c:282-389 | besides those exactly two things go out: an ACK of type 1242 for each ping, to its sender, and what the router writes, in a frame from which everybody parses the message back if it is well-formed |
| Cli.TokensExact | server/src/server_cli.c:120-137 | a list of spans is the tokens of the line if and only if it is all maximal runs of non-spaces, from left to right |
| Cli.Strtok | server/src/server_cli.c:120-136 | one call returns the next token, and the following calls return the rest |
| Cli.Tokenize | server/src/server_cli.c:104-137 | the array holds exactly the tokens and the final NULL, all inside it, at the size that growing by 64 leads to |
| Cli.ExecLine | server/src/server_cli.c:138-163 | the first command of that name gets the other tokens, which join and split into themselves; nothing happens for an empty line; an unknown name is reported |
| Cli.JoinedFits | server/src/server.c:127-144 | the joined text is never longer than the computed length |
| Cli.JoinedSplits | server/src/server.c:127-144 | the text joined from words splits into the same words again |
| Cli.ArgumentsRejoin | server/src/server_cli.c:120-154 | for every line, the arguments a command is given join and split into the same arguments |
| Cli.JoinArgs | server/src/server.c:120-144 | the broadcast text is terminated inside the allocated length and splits into the arguments it was joined from |

## Left out

- TLS, sockets, thread creation, sleeps, logging, readline, Raylib drawing and certificates: a connection is a sequence of
  frames, and failures of these layers and of SQLite calls are the inputs `ReadFailed` and `Broken`. A send that fails
  is not modelled, neither the client's reconnect flag nor its exit.
- A `connect_db` failure and the result code of an allocation failure after a login: both end the dialogue before or in
  place of a modelled result. A SELECT that fails for another reason than a missing row is read as a missing row by the
  code; the model has only the missing row.
- SHA-512 (section 6.4 of FIPS 180-4): a parameter. That equal hashes mean equal texts is therefore not assumed; where a theorem
  needs it, it needs it of the two texts at hand.
- Mutexes, `malloc` and `free`: each locked map or queue operation is one atomic step, and so is a whole iteration over the
  map, one write to a connection and one assignment of a flag. The answer to a ping in a client thread is part of the step
  that takes the ping in.
- A `client_connection` is on the stack of its thread: what a write or a mark through the router's pointer does after that
  thread has ended is undefined in C. The model keeps the object, and says when the case arises.
- The lookup in the already-online branch overwrites the local pointer `cl` (server/src/server_auth.c:276), and the
  router frees the looked-up connection (server/src/server.c:390): modelled as intended, without the effect.
- The answer to a ping passes its own sender field as the recipient to `create_message` (server/src/server.c:285), which
  clears it first: modelled as intended, from a copy.
- Kicking erases during the iteration that holds the bucket's lock (server/src/server.c:180): modelled as collecting first and
  erasing afterwards.
- `ping_sent` is not initialised in server/src/server.c:241-244: it is taken to be 0.
- A NULL structure given to `create_message`, the client's branch for a NULL uid (it follows only a reconnection), and reconnection itself.
- A length field of 2048 or more in a received frame puts the terminator outside the payload array; numbers in a frame that
  do not fit are reduced modulo 2^32, where the standard leaves the result open.
- When `create_message` refuses a line, Enter still sends the storage it gave it: the model has the refused creation in the
  client's outbox. For the server's callbacks that storage is the parameter `Slot.prior`.
- What a C program does after `undefined` is set: the other fields of the client's state then say nothing about it.
- The quit branch of the client keeps the test of the code, which accepts the signal only when it is not the server's; the
  exit itself is left out.
- The dialogue's messages to its own client bypass the queue and are not in the state of the step system; `ChatDialogues` and
  `ServerTalk` collect them over runs.
- The threads' program counters, local variables and the users table are values (`Server.Book`), not heap objects; each
  stretch between two shared operations is one command.
- `hash_map_clear` and `hash_map_destroy`, the chat-history ring, `format_uptime`, message texts for codes, ban and mute.
