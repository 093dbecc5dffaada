# World Boss Raid: a verified model

World Boss Raid is a raid server and its clients. The server forks one worker process per
connection; all workers fight the same two bosses through one record in shared memory,
guarded by a mutex. This project models that record, the workers, the gate in front of each
connection and the client's two threads, and proves what they keep over every run.

## How it is built

- `Record.dfy` is the shared record and the effect of each locked body on it;
  `GameState.dfy` is the record in memory, with a method per locked body, proved against it.
- `Streaks.dfy` says what the 100-slot streak table stands for: the rolls each name has made.
- `Machine.dfy` is the server as a state machine: any number of workers, each with a program
  counter, moving one locked body at a time in any order, with dice, lucky draws, send
  failures and clock ticks chosen freely. A run (`Behaviour`) is any finite sequence of such
  moves. Workers and the log carry history: kills, accepted hits, rolls, marks, answers sent.
- `Safety.dfy`, `Blows.dfy`, `Answers.dfy`, `Results.dfy`, `Told.dfy` and `LuckyBroadcast.dfy`
  prove properties of all runs. `EndToEnd.dfy` joins them with the client.
- `Paths.dfy` says which moves each piece of a worker's code is made of, up to a whole
  connection: a refusal, or a join, the requests in turn, what ended them, and the leave.
- `Session.dfy` is that code (`game_process_attack`, `handle_attack`, `handle_client` and the
  rest) as methods on the record in memory. Before each locked body and each wait a schedule
  lets the other workers act and time pass, in milliseconds; the program reads whole seconds.
  Each method is proved to extend the run it starts from by exactly its own moves, so the
  theorems about runs hold of it.
- `RateLimiter.dfy`, `Replay.dfy` and `Validator.dfy` are the checks in front of a session;
  `Packets.dfy` is the wire format and `Connection.dfy` the loops that send and receive it
  over a transport that moves any number of bytes per call.
- `Handshake.dfy` is the client's UI thread and network thread on their shared flags,
  `Shown.dfy` what the player is shown, and `AttackCallback.dfy` the callback that waits for an
  attack.
- `HonestClient.dfy` joins the wire, the gate and the session: which client is served in full.
- `Counting.dfy` holds facts about counting in sequences.

Inductive proofs are written out; automatic induction is off wherever Dafny would use it.

Names are C strings, so a bounded copy of 31 bytes into a zeroed 32-byte field reads as the
first 31 characters. The integers of the record are unbounded here; `NumbersFit` shows that
32 bits are enough. Sequence numbers, checksums and lengths have their real widths.

## What the code does not do

Some promises of the repository's own documents do not hold of its code. The model follows the
code; each case has an exact condition and an input.

- README.md:27 and rate_limiter.c:16 speak of a sliding window. The window is fixed and its
  clock shows whole seconds. On those readings no more than the limit pass in any window-long
  interval exactly when the window is one reading long (`SlidingExactly`). In real time the limit
  holds for the window's length from a given millisecond exactly when that is a whole second and
  the window is one second, or it is the beginning or the end of the limiter's first window, or
  it is later and the limit is one (`RealTimeExactly`). Otherwise twice the limit can pass
  (`TwiceTheLimit`, `TenInTwoMilliseconds`), or one less than that (`AlmostTwice`), and never
  more (`RealTimeBound`).
- An idle connection is meant to be closed after thirty seconds (README.md:33 and 307). It is
  closed after five seconds without any packet (client_handler.c:123), and after thirty without a
  heartbeat only once it has sent one. A client that keeps to the limit is sure of being served in
  full by a prompt server exactly when no request comes more than five seconds after the one
  before and none is waited for more than thirty after its last heartbeat (`ServedAtOnceExactly`,
  with any lag `ServedInFullExactly`); of two attacks an hour apart the second is never looked at
  (`HourOfSilence`).
- A lucky attack is meant to reach every client for five seconds (gamestate.h:48-51). That
  holds exactly when no heartbeat holds an older event at the moment of the mark
  (`LuckyCompleteExactly`), and that moment is reachable (`SilencedBroadcast`).
- The sequence check is meant to reject repeated numbers (replay_protection.c:12-14). Among
  numbers from a range, presented in any order, none is accepted twice exactly when the range
  spans at most 2^31 - 2 (`NoReplayExactly`); a wider one needs three packets
  (`ReplayBeyondWindow`). So right after a rollover the packet before it passes again
  (`ReplayAfterRollover`).
- A callback result of 0 is meant to be the answer to its own attack
  (MULTI_THREAD_IMPLEMENTATION.md:168-203). An attack round trip of its own has always begun
  and ended exactly when no older attack is under way at the call (`OwnRoundTripExactly`),
  which a timeout can cause (`LateReplyReachable`). When none is, the raid shown is still that of
  the last answer, which may be a heartbeat's, and a heartbeat that is not lucky blanks the
  attack's numbers: they are shown exactly when every heartbeat since was lucky, or there are none
  to show (`OwnAnswer`). A call is sure of its own numbers exactly when every answer that can
  follow its own is lucky, or its own has no numbers (`OwnNumbersExactly`). Nothing the client
  knows at the call tells (`NeverSureAlone`); the failing trace starts in any state such a call
  can be made in (`Overwritten`), and such states are reachable (`OverwriteReachable`).
- The checksum is meant to detect tampering (README.md:29). A body put in place of another of
  the same length passes the server exactly when its bytes have the same sum modulo 65536, and
  the client always (`ChecksumExactly`): every single wrong byte is caught (`OneWrongByte`), no
  exchange of two bytes is (`SwappedBytesUnseen`). It does not cover the header: any opcode and
  any acceptable number can stand in for those sent (`HeaderUncovered`), and another length does
  exactly when the bytes it takes have the sum of the body sent (`LengthExactly`), for a shorter
  one when the bytes cut off add up to a multiple of 65536 (`ShortenedExactly`).

## Model

| member | source | states |
|---|---|---|
| GameStates.GameState.constructor | src/server/logic/gamestate.c:39-51 | a new record is boss 1 at 1000, nobody online, no event, an empty table |
| GameStates.GameState.PlayerJoin | src/server/logic/gamestate.c:66-75 | one more online, the new count returned, nothing else touched |
| GameStates.GameState.PlayerLeave | src/server/logic/gamestate.c:77-85 | one fewer online but never below zero, nothing else touched |
| GameStates.GameState.GetSnapshot | src/server/logic/gamestate.c:89-95 | the copy is the whole record at that moment |
| GameStates.GameState.ApplyDamage | src/server/logic/gamestate.c:97-131 | in place: no effect on a boss that is down, otherwise damage; true exactly for the blow that brings it to zero, which is named |
| GameStates.GameState.SpawnNextBoss | src/server/logic/gamestate.c:133-159 | in place: the next boss at full life with no killer named, or the end with the last killer kept |
| GameStates.GameState.UpdateStreak | src/server/logic/gamestate.c:163-219 | the two search loops and the in-place update of one slot give the table and the streak of the specification |
| GameStates.GameState.MarkLuckyKill | src/server/logic/gamestate.c:223-230 | the event is set with the time of the mark |
| GameStates.GameState.ClearLuckyKill | src/server/logic/gamestate.c:232-238 | the event is cleared whoever raised it |
| Streaks.TableStep | src/server/logic/gamestate.c:163-219 | one locked update keeps the table the summary of all rolls in lock order, reports the longest winning suffix of one dice value for the first hundred names and 0 for later ones, and moves no slot |
| Streaks.StreakStep | src/server/logic/gamestate.c:199-209 | how the longest suffix of equal wins changes with one more roll |
| Streaks.StreakUnique | src/server/logic/gamestate.c:199-214 | the longest suffix of equal wins is one number |
| Safety.SpawnOwedOnce | src/server/logic/gamestate.c:97-159 | in every interleaving exactly one worker owes a spawn while the boss respawns and none otherwise; kills are stage plus respawning, at most 2; life is zero exactly while respawning or at the end |
| Safety.StagesInOrder | src/server/logic/gamestate.c:133-159 | no boss is skipped: the stage moves by one, only by a spawn, only while the boss is down, and every spawn moves it |
| Safety.RaidLifeStep | src/server/logic/gamestate.c:104-126 | a strike on a live boss takes min(damage, life) off the raid's remaining life; every other step, a spawn included, leaves it unchanged |
| Safety.RaidLifeConserved | src/server/logic/gamestate.c:138-152 | remaining life plus accepted damage is always 3000, and the last boss is down exactly when all 3000 were dealt |
| Safety.HitsLimited | src/server/logic/dice.c:72-97 | at most 500 hits land on boss 1 and 1000 on boss 2, and every blow asks for 2, 3, 4, 5, 12 or 999999 |
| Safety.RunAdvance | src/server/logic/gamestate.c:97-159 | over any stretch of a run the stage never falls, remaining life never rises, and nothing recorded is lost |
| Blows.InstantBlowsLimited | src/server/logic/dice.c:52-101 | no worker deals more than two blows of 999999 in any run |
| Blows.InstantBlowNeedsKill | src/server/logic/dice.c:29-40 | each such blow comes from an attack whose own first look, an earlier step of that worker with no other look in between, was followed by a kill |
| Blows.StreakLimited | src/server/logic/gamestate.c:199-214 | with at most n simultaneous connections under a name its streak never exceeds 2 + 2n |
| Blows.WinningRoll | src/server/logic/dice.c:72-94 | a winning, not lucky roll reports the longest run of equal wins of a followed name (0 for others) and deals 999999 exactly when that name's last three rolls are equal wins, otherwise the dice, doubled for a six |
| Blows.LosingRoll | src/server/logic/dice.c:104-118 | a roll that does not beat the boss strikes no blow, ends the streak, and costs the boss's dice plus ten unless it is a draw |
| Blows.LuckyRoll | src/server/logic/dice.c:52-69 | a lucky attack deals 999999 whatever the dice and leaves the streak table alone |
| Told.AttackBegins | src/server/logic/client_handler.c:381-385 | an attack is played with the client's number if it is 1 to 6, else with the server's roll; on no live boss the answer shows the record and no numbers |
| Told.AttackTells | src/server/logic/dice.c:42-128 | the first answer sent after a roll is that attack's own: the record at its last look, the boss's dice of that very roll, and the damage, counter-damage, critical and lucky marks and streak that the rules give for it |
| Told.HeartbeatTells | src/server/logic/client_handler.c:169-213 | the first answer sent after a heartbeat's look shows the record at that look, no attack's numbers, and is lucky exactly when the event seen is at most five seconds old when the clock is read |
| Blows.RunTable | src/server/logic/gamestate.c:163-219 | in every reachable state the table is the summary of all rolls made |
| Blows.SlotsNeverMove | src/server/logic/gamestate.c:171-193 | a name keeps its slot for the whole run |
| Answers.AnswersNeverGoBack | src/server/logic/dice.c:121-128 | successive answers on a connection, attacks and heartbeats mixed, never show an earlier stage or more remaining life |
| Answers.VictoryAgreement | src/server/logic/gamestate.c:143-156 | every answer with the last stage shows life 0, not respawning, and the one name whose blow killed boss 2 |
| Answers.VictorIsTold | src/server/logic/dice.c:97-128 | the answer to the attack that killed boss 2 is itself a victory under the attacker's name, whatever others do in between |
| Answers.NoKillerWhileAlive | src/server/logic/gamestate.c:151-156 | no killer is named while a boss can be hit, in the record or in an answer |
| Answers.OnlineExact | src/server/logic/gamestate.c:66-85 | the online count is the number of sessions joined and not left; the guard in leave is never what keeps it from falling |
| Results.AnswersFollowTheDice | src/server/logic/dice.c:42-118 | every answer reports an outcome the dice rules allow: a plain win beats the boss's dice with 2 to 5 or 12, a loss costs the boss's dice plus ten and only to a boss that rolled 2 or more, and critical, lucky, streak and instant kill agree |
| LuckyBroadcast.LuckyIsSound | src/server/logic/client_handler.c:184-197 | a heartbeat about to read the clock says lucky only if some attack was lucky within the last five seconds |
| LuckyBroadcast.LuckyAnswerIsSound | src/server/logic/client_handler.c:184-213 | every lucky heartbeat answer ever sent was made by a clock reading of that worker at most five seconds after a lucky attack |
| LuckyBroadcast.LuckyIsComplete | src/server/logic/client_handler.c:176-197 | with no stale heartbeat at the mark, each heartbeat that looks after it and reads the clock within five seconds says lucky |
| LuckyBroadcast.LuckyCompleteExactly | src/server/logic/client_handler.c:186-194 | that holds in every continuation exactly when no heartbeat is stale at the mark |
| LuckyBroadcast.StaleSilences | src/server/logic/client_handler.c:188-191 | from any stale heartbeat, a continuation in which a later heartbeat in time is not told |
| LuckyBroadcast.SilencedBroadcast | src/server/logic/client_handler.c:184-197 | such a moment is reachable with three players |
| EndToEnd.ScreenNeverGoesBack | src/client/client.c:370-423 | the raid on the player's screen at any later moment is no earlier stage and no more remaining life, whatever the server's workers and the client's threads do |
| EndToEnd.NumbersToShow | src/server/logic/client_handler.c:378-403 | an answer carries attack numbers exactly when it is an attack's on a live boss |
| EndToEnd.NumbersFit | src/server/logic/gamestate.h:34-58 | no counter of the record overflows 32 bits with up to 10^9 workers |
| Session.Process.Perform | src/server/logic/gamestate.c:66-238 | the in-place locked bodies carry out exactly the state machine's step for any worker and move |
| Session.Process.ProcessAttack | src/server/logic/dice.c:18-129 | under every schedule of the other workers the attack extends a run by exactly one of its four move sequences, returns the answer the state machine owes, and its result is the one the rules give for its dice and draws, a kill exactly when it spawned |
| Session.Process.Duel | src/server/logic/dice.c:42-118 | the three branches compute what the rules give for the dice, the boss's dice, the draw and the streak, and what the state machine's worker holds |
| Session.Process.Blow | src/server/logic/dice.c:65-69 | damage, then a spawn exactly when told of a kill |
| Session.Process.HandleAttack | src/server/logic/client_handler.c:378-415 | the attack's first move is with the client's number if it is 1 to 6, else with the server's roll; then one answer sent or the session ended |
| Session.Process.HandleHeartbeat | src/server/logic/client_handler.c:169-216 | look, clock, and a second locked step only for an old event; then one answer sent or the session ended |
| Session.Process.HandleJoin | src/server/logic/client_handler.c:351-376 | the run grows by one join under the name sent and its reply, the id is the online count after the join, and the worker leaves if the reply fails |
| Session.Process.HandleRequest | src/server/logic/client_handler.c:139-226 | which moves each request is made of; the session goes on exactly when limiter, opcode, size and send all agree, with exactly one answer per attack or heartbeat |
| Paths.RequestMeans | src/server/logic/client_handler.c:139-226 | which moves each request is made of, by opcode number, length and the limiter's answer |
| Paths.WelcomeMeans | src/server/logic/client_handler.c:157-226 | after which requests the session goes on, by opcode number, length and sending |
| Session.Process.SessionLoop | src/server/logic/client_handler.c:110-232 | the run grows by the moves of the requests served, in order, and the loop ends in one of four ways: more than thirty seconds of silence at a test, nothing arrived within five seconds of a wait, what arrived was no packet, or a request that limiter, opcode, size or send stops; the times of all tests, waits and requests go forward |
| Session.Process.Arrival | src/server/logic/client_handler.c:245-262 | the wait ends with what arrives within five seconds of its beginning and not before it arrives, else after five seconds without it |
| Session.Process.HandleClient | src/server/logic/client_handler.c:65-232 | the run grows by exactly a refusal, or a join and its reply, the moves of the loop and one leave; a session joins exactly when its first packet is a join with a valid name |
| Paths.ServedPerSecond | src/server/logic/client_handler.c:77-144 | a session serves at most 5 requests in any clock second and 10 in any two |
| HonestClient.HonestClientServed | src/server/logic/client_handler.c:65-232 | a client whose frames are numbered by its counter from any start, rightly sized, 200 ms and the server's lag apart, within thirty seconds of its last heartbeat, and whose answers can be sent, is read back exactly; the connection is the join, requests served in order, and the leave; all of them if no request comes more than five seconds after the one before, and only if none comes later by more than the lag |
| HonestClient.ServedInFullExactly | src/server/logic/client_handler.c:110-137 | over all courses of a server within any lag, such a client is sure of full service exactly when no request comes more than five seconds after the one before |
| HonestClient.CutOff | src/server/logic/client_handler.c:112-137 | for every steady client with a longer gap or a longer silence, a course without lag that ends its session there |
| HonestClient.HourOfSilence | src/server/logic/client_handler.c:123-137 | of two attacks an hour apart only the first is served |
| HonestClient.LoopServes | src/server/logic/client_handler.c:110-232 | no request of such a client is refused and it is never found silent; if its session ends early then the next request came more than five seconds after the one before, and everything before it was served |
| HonestClient.NeverSilent | src/server/logic/client_handler.c:110-119 | a client timely with its heartbeats is at no test found silent |
| HonestClient.SilenceIsCutOff | src/server/logic/client_handler.c:113-119 | in every course of the loop no request is waited for more than thirty seconds after the last heartbeat before it was handled |
| HonestClient.OnlySilenceIsCutOff | src/server/logic/client_handler.c:113-137 | the loop leaves an acceptable packet that arrives in time only after more than thirty seconds of silence |
| HonestClient.SilentClientCutOff | src/server/logic/client_handler.c:113-119 | a client that goes on asking for more than thirty seconds and the lag after its last heartbeat is not served further |
| HonestClient.EightAttacksAtMost | src/server/logic/client_handler.c:113-119 | after one heartbeat, of attacks every four seconds at most eight are served |
| HonestClient.ServedAtOnceExactly | src/server/logic/client_handler.c:110-137 | over all courses without lag a steady client is sure of full service exactly when no request comes more than five seconds after the one before nor is waited for more than thirty after the last heartbeat |
| HonestClient.DiceInMeans | src/common/protocol.h:35-37 | the number in an attack's body is its little-endian word in two's complement |
| HonestClient.AttackFramePlayed | src/server/logic/client_handler.c:381-385 | from the wire: an attack frame with a number from 1 to 6 is played with it, any other with the server's roll |
| Session.Process.Cleanup | src/server/logic/client_handler.c:52-61 | the run grows by one leave if it had joined, else by one refusal, and the worker has exited |
| RateLimiters.RateLimiter.constructor | src/server/security/rate_limiter.c:7-14 | an empty window opens at the time of creation |
| RateLimiters.RateLimiter.Check | src/server/security/rate_limiter.c:17-40 | in place: the decision and state of the specification, and the count never passes the limit |
| RateLimiters.WindowBound | src/server/security/rate_limiter.c:17-40 | any interval of m windows and one second lets at most (m + 1) times the limit through, over any request sequence and non-decreasing clock |
| RateLimiters.SessionBound | src/server/logic/client_handler.c:79 | at most 5 requests pass in any clock second and 10 in any two |
| RateLimiters.SlidingExactly | src/server/security/rate_limiter.c:16-40 | on whole-second clock readings a sliding window's promise holds exactly when the window is one reading long |
| RateLimiters.RealTimeExactly | src/server/security/rate_limiter.c:17-40 | in milliseconds, for every window and limit: at most the limit pass in the window's length from a given moment, whatever arrives, exactly when that moment is a safe one, named by window, limit and the limiter's start |
| RateLimiters.RealTimeBound | src/server/security/rate_limiter.c:17-40 | never more than twice the limit pass in any window's length of time |
| RateLimiters.TwiceTheLimit | src/server/security/rate_limiter.c:23-28 | from any moment inside the first window, its beginning apart, and later from any that is not a whole second, arrivals of which twice the limit pass within one window's length |
| RateLimiters.AlmostTwice | src/server/security/rate_limiter.c:23-28 | from any later whole second, with a window of two seconds or more, one less than twice the limit |
| RateLimiters.TenInTwoMilliseconds | src/server/logic/client_handler.c:79 | ten requests in two milliseconds pass the session's limiter |
| RateLimiters.ModerateNeverRefused | src/server/security/rate_limiter.c:17-40 | a client with at most the limit in every window-long interval is never refused |
| RateLimiters.PacingNeverRefused | src/client/client.c:785-796 | arrivals at least 200 ms apart, cut into whole seconds in any way, always pass |
| Replay.ReplayProtection.constructor | src/server/security/replay_protection.c:6-10 | nothing seen yet |
| Replay.ReplayProtection.Validate | src/server/security/replay_protection.c:15-56 | in place: the decision and state of the specification |
| Replay.HonestSender | src/server/security/replay_protection.c:36-55 | a counter that goes up by one is accepted forever, over every 32-bit wrap-around |
| Replay.SerialGreaterAccepted | src/server/security/replay_protection.c:36-51 | every number greater in the sense of section 3.2 of RFC 1982 is accepted, and which others are is named exactly |
| Replay.NoReplayInWindow | src/server/security/replay_protection.c:36-51 | numbers within 2^31 - 2 above the first are accepted in strictly increasing order, none twice |
| Replay.ReplayBeyondWindow | src/server/security/replay_protection.c:40-51 | whenever two numbers are 2^31 - 1 or more apart, the lower is accepted again after the higher |
| Replay.NoReplayExactly | src/server/security/replay_protection.c:36-51 | over every sequence of numbers from a range, none is accepted twice exactly when the range spans at most 2^31 - 2 |
| Replay.ReplayAfterRollover | src/server/security/replay_protection.c:36-51 | 2^32 - 1, 0 and 2^32 - 1 again are all accepted |
| Validator.ValidateUsername | src/server/security/input_validator.c:9-34 | accepts exactly the 32-byte fields that hold a NUL-ended name of 1 to 31 letters, digits, underscores and hyphens |
| Validator.ValidatePacketSize | src/server/security/input_validator.c:51-89 | accepts exactly the lengths the opcode allows |
| Packets.FrameParsed | src/server/logic/client_handler.c:265-325 | a sent packet is read back as it was by both receivers, and the rest of the stream is untouched |
| Packets.FrameBytes | src/client/client.c:98-110 | a frame byte by byte: length, opcode, sum of the body's bytes modulo 65536, number, all lowest byte first, and the body |
| Packets.ServerParseMeans | src/server/logic/client_handler.c:265-325 | what the server makes of any bytes, in every case, by position and value |
| Packets.ClientParseMeans | src/client/client.c:124-181 | the same for the client, which tests neither number nor sum |
| Packets.ChecksumExactly | src/server/logic/client_handler.c:316-322 | a body replaced on the way by any other of its length is taken by the server exactly when the byte sums agree modulo 65536, else refused as such; by the client always |
| Packets.HeaderUncovered | src/server/logic/client_handler.c:297-322 | a changed opcode or an acceptable other number is taken as sent |
| Packets.LengthExactly | src/server/logic/client_handler.c:286-322 | a changed length within its bounds and the stream is taken exactly when the bytes it makes of the body have the same sum modulo 65536, and the rest of the stream moves with it |
| Packets.ShortenedExactly | src/server/logic/client_handler.c:286-322 | a shorter length is taken exactly when the bytes cut off add up to a multiple of 65536 |
| Packets.OneWrongByte | src/server/logic/client_handler.c:316-322 | any change of exactly one body byte makes the server refuse, while the client takes the changed packet |
| Packets.SwappedBytesUnseen | src/server/logic/client_handler.c:417-423 | exchanging two body bytes is never noticed |
| Packets.StreamRead | src/server/logic/client_handler.c:265-325 | the bytes of any list of packets with acceptable numbers are read back as that list, in order, stopping where it ends |
| Packets.ClientStreamRead | src/client/client.c:124-181 | the same on the client for any list of packets, whatever their numbers |
| Connection.ReadFully | src/server/logic/client_handler.c:270-282 | under every split of reads the bytes asked for arrive in order and no others are taken; terminates |
| Connection.CalcChecksum | src/server/logic/client_handler.c:417-423 | the 32-bit loop is the sum of the bytes modulo 65536, without overflow |
| Connection.ReceivePacket | src/server/logic/client_handler.c:265-325 | success is exactly the packet the stream holds; on a transport that delivers it succeeds whenever the stream deserves it |
| Connection.ReceiveStream | src/server/logic/client_handler.c:111-137 | under every split of reads the loop gets the packets the stream holds, in order |
| Connection.ReceiveSession | src/server/logic/client_handler.c:111-137 | if the stream is the frames of some packets with acceptable numbers and then more, the loop gets exactly those packets and leaves the rest, under every split of reads of a transport that delivers |
| Connection.SendPacket | src/server/logic/client_handler.c:328-349 | under every split of writes success means the whole frame went out and failure a proper part of it |
| Connection.PreparedBytes | src/server/logic/client_handler.c:328-349 | what goes out is the caller's own bytes with length and sum filled in |
| Connection.SendLocal | src/client/client.c:98-121 | success means the whole frame went out in one write, failure that a proper part of it did |
| Connection.ReceiveLocal | src/client/client.c:124-181 | success is the packet the stream holds, without sequence check and with a wrong checksum tolerated |
| Connection.ReceiveAnswers | src/client/client.c:356-440 | the network thread's reads get exactly the answers sent, in order, and leave the rest |
| Handshake.SharedGameState.RequestAttack | src/client/client.c:528-532 | the request flag is raised and the completion flag lowered |
| Handshake.SharedGameState.TakeRequest | src/client/client.c:360-365 | a pending request is taken once |
| Handshake.SharedGameState.FinishAttack | src/client/client.c:370-397 | the state and completion, or the error and completion |
| Handshake.SharedGameState.FinishBoot | src/client/client.c:330-353 | the raid and the lucky mark, no attack numbers |
| Handshake.SharedGameState.FinishBeat | src/client/client.c:399-432 | the raid and the lucky mark; a lucky answer keeps the attack numbers on the screen, any other blanks them; or the error and the exit flag |
| Handshake.SharedGameState.CheckAttack | src/client/client.c:540-559 | wait, fail or succeed, and what is shown |
| Handshake.SharedGameState.Quit | src/client/client.c:584-587 | the exit flag is raised |
| Handshake.OnePlace | src/client/client.c:356-397 | while a callback waits and none has timed out, its attack is asked for, under way or done, exactly one of them, unless the client closes |
| Handshake.ZeroMeansOneRoundTrip | src/client/client.c:524-560 | a result of 0 from a call made with no attack under way means exactly one round trip began and ended since; with no timeout none can be under way |
| Handshake.OwnRoundTripExactly | src/client/client.c:524-560 | a result of 0 means one whole round trip since the call, in every continuation, exactly when no older attack is under way at the call |
| Shown.OwnAnswer | src/client/client.c:370-432 | after such a call exactly one attack answer came in; the raid shown is that of the last answer published; the numbers shown are the own attack's exactly when they are blank or every heartbeat published after it was lucky, else none |
| Shown.OwnNumbersExactly | src/client/client.c:399-423 | a call is sure to show its own attack's numbers, in every continuation, exactly when each answer that can follow its own is lucky or its own has no numbers |
| Shown.NeverSureAlone | src/client/client.c:524-560 | whatever the client's state at the call, some answers to come make it lose its own numbers |
| Shown.Overwritten | src/client/client.c:399-423 | from every state a call can be made in, and for every later answer that is not lucky, a continuation without a timeout whose result 0 shows that answer's raid and no numbers |
| Shown.OverwriteReachable | src/client/client.c:324-353 | such a state between two round trips is reachable without a timeout |
| Handshake.LateReplyReachable | src/client/client.c:540-547 | a timed-out call leaves such an attack under way |
| Handshake.RoundTripsBounded | src/client/client.c:356-397 | round trips begun never exceed callback calls, timeouts or not |
| Shown.ShownInOrder | src/client/client.c:330-423 | each answer is taken in once, in order, and shown or lost to a failed receive; the screen is what those shown make of the first screen |
| Shown.RaidIsLatest | src/client/client.c:370-423 | the raid and the lucky mark shown are those of the last answer |
| Shown.NumbersShown | src/client/client.c:406-418 | at any time the attack numbers shown are those of the last attack while only lucky heartbeats followed it, else none |
| Handshake.FailureIsFinal | src/client/client.c:390-396 | after a failed round trip no callback returns 0 again |
| Handshake.RestsBetween | src/client/client.c:399-436 | between two heartbeats of the network thread's loop it has rested |
| AttackCallback.UiThread.AttackCb | src/client/client.c:524-560 | under every schedule of the network thread and of wake-ups: the call gives up exactly when a wait is not woken within five seconds of it, otherwise it ends with its first look that finds the attack done or the client closing, with 0 exactly for an attack done without error; 0 comes with the screen as it is and, with no attack under way at the call, one whole round trip, the raid of the last answer, and the own attack's numbers if every heartbeat since was lucky, else none |
| AttackCallback.UiThread.NetStep | src/client/client.c:324-440 | the network thread's locked bodies carry out exactly the handshake's step, and the trace grows by that step and no other |

## Left out

- TLS, sockets, select, fork, signals, memory mapping and certificates: foreign calls; a transport call moves 1 to n bytes, asks to retry or fails, and the mutex is one step.
- Time is a number of milliseconds that never goes back, the same for the clock and for waits; random draws are free choices in their range.
- Screens, animations, logging, build files and scripts: no property worth proving.
- Death of a worker by a signal inside an attack, and recovery of the mutex: workers run their code to the exit.
- The unlocked read of the exit flag and the sequence counter shared by stress threads: the counter is modelled per connection.
- Contents of stale bytes in a reused packet buffer beyond the current packet's length.
- The network thread's loop is a set of steps taken in any order its program counter allows, not a method of its own; sleeping is left to the schedule, and when a waiting callback is woken is its input.
- A failed receive on the client loses any number of whole answers; one that breaks off inside an answer leaves the stream misaligned, and what later reads make of it is not modelled.
- The single-threaded client, `rate_limiter_reset` and `input_validate_attack_payload`: nothing in a session uses them.
- In a session, when something arrives and what the receiver makes of it are inputs of each turn; the receiver itself is modelled and proved on its own, and how long it blocks inside a packet is left to the schedule.
- A NULL name or record: no caller passes one.
