# Battleship: a verified model of the game server's rules

A Dafny model of the two-player Battleship server: the board and its fleet, the session of a
game with its timers, the seating of clients, the wire format and the receive buffer, and the
linked structures and timers underneath. Objects that the program changes in place are classes
with loops over arrays and linked nodes; each of their methods is proved against a function on
values, and the rules of the game are then proved about those functions.

Main results, by component.

**Board.** `IsValidStartField` accepts a field exactly when it holds only empty and unharmed cells
and the unharmed ones are the cells of straight ships of lengths 1, 1, 2, 2, 3, 4, 5 that touch
nowhere, not even at corners; a board has only one such decomposition. The board after any series
of shots has a closed form that depends only on the set of points shot at (`ShotsSettle`). From it
follow what each cell can become, that missed cells appear exactly on shots and around sunk ships,
that the four-direction walk tells exactly whether a ship is sunk, that marking starts from any
cell of the ship with the same effect, and that the view shown to the opponent is the view it
could have kept up to date itself from the reported results.

**Session.** In every interleaving of requests, fields, moves, departures and pending timers,
however old, the number of seated players and the state agree, so no message is addressed to an
empty seat, a turn timer that gets stopped is one that is still queued, and no message shows a
ship that has not been hit. Two runs that differ only in the valid fields one player sends look
the same to everybody else, message by message, as long as the shots at those fields get the same
answers (`NothingElseIsTold`). Over any number of games one after another in a session, as long as
nobody leaves a game that has two players, exactly one timer drives each waiting state, the
loser's board has taken exactly eighteen hits when the end is scheduled and the winner's at most
seventeen, and every game ends with the session ready for the next. At most 405 timers fire and
200 turns are played in a game, the first of a session or a later one, and its timers run for less
than 58 minutes in all.

**How a game goes.** Whatever messages arrive in between, the boards and the player on turn are
those of a simple game of alternating shots in which a hit keeps the turn (`GameIsReplayed`); the
shot of a turn is the first move that the player on turn has sent since the last one, if that hits
a cell that can still change (`ShotIsFirstMove`); a game whose players have both sent a valid field
starts, with the last valid fields sent (`BothSentStarts`); and at every moment of the turns the
last field of the opponent that a player was sent, and the last thing a player was told about a
turn, are how things are (`NewsIsRight`).

**Wire.** All fourteen message types survive encoding and decoding, the encoded length is the one
in the size table, any other length is refused, and the code is self-delimiting. The receive loop
queues exactly the messages of a simple recursive parser, which returns exactly the messages, in
order, out of any mixture of whole messages, noise and bad heads.

**Server and structures.** Over every run of connections and disconnections the clients in the
game array are exactly the seated ones and moving a just-seated client never lacks room. A new
session is made only when every session is full, so that as long as nobody leaves at most one
player waits alone. A pass over the timers gives the time to each one once, also to those queued
during the pass, and keeps exactly those with time left, in order; a timer loses its time
otherwise only if it is one that sessions remember and the event of an earlier one stops it.
Countdown timers are exact over any series of calls and trigger once. The delivery list is a chain
of exactly the messages that its history leaves under control, with the attempts and times that
the history says.

## Layout

| file | content |
|---|---|
| Geometry, Ships, Fleets | points, ship kinds and the constructor, fleets and uniqueness |
| Grids, FieldValidator, GameField | cell arrays, the validity check, the field object |
| ShotRules, EnemyViews, BoardRuns | shots, the closed form, the opponent's view, cell counts |
| SessionRules, SessionPosts, GameRules | session operations, what each client hears, what they come to for the players |
| SessionRuns, GameProgress, GameEnds | runs, progress, bounds |
| GameStory, PlayerNews | how a whole game goes, what the players know |
| Secrecy | what players can learn about each other's fields |
| GameSession | the session object |
| ClientArrays, Seating, BattleshipServer | client slots, the seating rule, the server object |
| Bytes, Wire, MessageData, Framing, MsgBuffer | byte layout, messages, parser, receive buffer |
| TimeoutHandlers, LinkedLists, TimerPass | countdown timers, the list, a pass over the timers |
| DeliveryRules, MsgDelivery | delivery control |
| Options, Sets | an optional value, sizes of sets |

## Model

| member | source | states |
|---|---|---|
| Ships.ShipTypeOf | src/core/ship.cpp:41-57 | lengths 1 to 5 and no others have a kind, and it is the kind of that length |
| Ships.ForwardShip | src/core/ship.cpp:67-99 | from end points in reading order the constructor keeps them and gives the kind of their distance |
| Ships.ConstructorKind | src/core/ship.cpp:77-93 | aligned end points get the kind of their true distance exactly when they come in reading order or are too far apart for any kind; the reversed branches compute another length |
| Ships.ReversedShip | src/core/ship.cpp:77-93 | end points in reverse order get the kind of two cells less, and neighbours none; they are exchanged unless they are neighbours |
| Ships.ReversedDestroyer | src/core/ship.cpp:87-93 | two neighbouring cells are a destroyer from left to right and no ship from right to left |
| Ships.ContainsPoint | src/core/ship.cpp:155-170 | finds exactly the points on the walk of the ship's length from its head |
| Ships.WalkCoversPlaced | src/core/ship.cpp:155-170 | for a ship on the field that walk is exactly the cells between its end points |
| Fleets.LayoutUnique | src/core/game_field.cpp:257-303 | a board has at most one decomposition into straight ships that do not touch |
| Fleets.ShipThroughCellUnique | src/core/game_field.cpp:257-303 | the ship through a cell is a function of the board |
| Fleets.SomeStartIsValid | src/core/game_field.cpp:222-236 | boards that a game may start from exist |
| FieldValidator.CheckCellValues | src/core/game_field.cpp:416-426 | accepts exactly bytes that are cell states |
| FieldValidator.ReadShip | src/core/game_field.cpp:266-295 | reads a placed ship off non-empty cells, and whenever an isolated ship starts at the cell it reads that ship |
| FieldValidator.RemoveShip | src/core/game_field.cpp:428-443 | empties exactly the cells on the field that a walk of any ship's length meets, none for an invalid ship; for a placed ship those are its cells |
| FieldValidator.NextShip | src/core/game_field.cpp:261-266 | while the scan has cut out only ships of a fleet, the next non-empty cell is the head of a ship of the fleet that is still whole and stands alone |
| FieldValidator.CutShips | src/core/game_field.cpp:257-307 | on success seven placed ships that share no cell cover exactly the non-empty cells; on a board with a standard fleet it succeeds with exactly that fleet |
| FieldValidator.KindsAreLengths | src/core/game_field.cpp:309-341 | the five counters come out at zero exactly when the lengths are 1, 1, 2, 2, 3, 4, 5 |
| FieldValidator.CountKinds | src/core/game_field.cpp:309-341 | accepts exactly when every kind occurs as often as it should |
| FieldValidator.CheckNeighbours | src/core/game_field.cpp:343-412 | accepts exactly when every cell of the field next to the ship, corners included, is empty |
| FieldValidator.FreePartitionIsLayout | src/core/game_field.cpp:343-413 | disjoint ships covering the board with empty surroundings do not touch each other |
| FieldValidator.IsValidField | src/core/game_field.cpp:250-414 | accepts exactly the fields of cell states whose non-empty cells are a standard fleet |
| GameFields.GameField.IsValidStartField | src/core/game_field.cpp:222-236 | accepts exactly the boards a game may start from |
| GameFields.GameField.IsEmpty | src/core/game_field.cpp:210-220 | tells whether the board is the empty board |
| GameFields.GameField.AllShipsDestroyed | src/core/game_field.cpp:238-248 | tells whether no unharmed cell is left |
| GameFields.GameField.GetState | src/core/game_field.cpp:161-179 | outside the field and for other bytes the state is empty |
| GameFields.GameField.SetPoint | src/core/game_field.cpp:181-188 | changes the one cell if it is on the field |
| GameFields.GameField.Assign | src/core/game_field.cpp:24-45 | afterwards the board is the other field's, also when a field is assigned to itself |
| GameFields.GameField.GetForEnemy | src/core/game_field.cpp:47-58 | a new field in which exactly the unharmed cells became empty |
| GameFields.GameField.ShipDestroyed | src/core/game_field.cpp:92-119 | true exactly when the cell is damaged and no straight line of damaged cells from it runs into an unharmed cell |
| GameFields.GameField.MarkDestroyedShipBoundary | src/core/game_field.cpp:121-159 | terminates and turns into missed exactly the empty cells around the straight lines of damaged cells through the point |
| GameFields.GameField.RegisterShot | src/core/game_field.cpp:60-90 | the result and the new board are those of the shot rule |
| ShotRules.DestroyedIsSunk | src/core/game_field.cpp:92-119 | on a board that shows a fleet, the line test at a damaged cell holds exactly when its whole ship is damaged |
| ShotRules.LineIsShip | src/core/game_field.cpp:121-159 | the lines of damaged cells through a cell of a sunk ship are exactly that ship |
| ShotRules.ShotSettles | src/core/game_field.cpp:60-90 | one shot at a board in closed form gives the closed form with one more point |
| ShotRules.ShotsSettle | src/core/game_field.cpp:60-159 | any series of shots from a valid start leads to the closed form of the set of its points |
| BoardRuns.ShotsOnlyMark | src/core/game_field.cpp:60-90 | after any shots empty cells are empty or missed, ship cells unharmed or damaged, and damaged exactly when shot at |
| BoardRuns.MissedExplained | src/core/game_field.cpp:60-159 | an empty cell has become missed exactly when it was shot at or lies next to a ship that is wholly damaged |
| BoardRuns.WalkTellsSunk | src/core/game_field.cpp:92-119 | on every reachable board the walk at a damaged cell tells exactly whether its ship is sunk |
| BoardRuns.MarksWholeShip | src/core/game_field.cpp:121-159 | from any cell of a sunk ship the marking changes exactly the empty cells next to the whole ship |
| EnemyViews.ViewCommutes | src/core/game_field.cpp:47-90 | hiding ships after a shot equals writing the result into the earlier view and, if the ship sank, marking around it there |
| BoardRuns.ViewIsTracked | src/core/game_field.cpp:47-159 | after any series of shots the opponent's view is the one it could have kept from the reported results alone |
| BoardRuns.EighteenCells | src/core/ship.cpp:22-39 | a standard fleet has eighteen cells |
| BoardRuns.HitsDecide | src/core/game_field.cpp:238-248 | a reachable board has at most eighteen hits, and eighteen exactly when no unharmed cell is left |
| BoardRuns.ShotUsesFresh | src/core/game_field.cpp:60-90 | on any board a shot reports something exactly when its cell was empty or unharmed, uses that cell up, and makes none fresh again |
| SessionRuns.EveryRunKeepsRoster | src/server/game_session.cpp:44-82 | in every interleaving 0, 1 and 2 seated players mean the vacant, the waiting and the later states, and the turn timer remembered during a turn is still queued |
| SessionRuns.StepKeepsWorld | src/server/game_session.cpp:166-359 | each request, field, move, departure or timer keeps that rule |
| SessionRuns.CheckOk | src/server/game_session.cpp:199-221 | checking the fields keeps the roster rule in whatever state a stale timer fires it |
| SessionRuns.DepartureOk | src/server/game_session.cpp:65-82 | leaving and ending a game keep the roster rule |
| SessionRuns.EventsQueueLongTimers | src/server/preparation_timeout.cpp:16-117 | no event queues more than one timer or one shorter than the waiting time |
| SessionRuns.NoShipIsShown | src/server/game_session.cpp:287-397 | at every step of every interleaving a field shown as the opponent's is its board with every unharmed cell hidden, and a field shown as one's own is one's own |
| Secrecy.StepKeepsBoards | src/server/client_data.cpp:230-252 | in every interleaving each board is a fleet that does not touch itself after some shots |
| Secrecy.AnswerDecidesView | src/core/game_field.cpp:47-90 | the view of a board after a shot depends only on the view before, the result, and whether a ship sank or was the last |
| Secrecy.NothingElseIsTold | src/server/game_session.cpp:199-397 | in every interleaving all that is told to anybody but one player, and when, depends on the fields that player sends only through the answers to the shots at them, and on whether a field is valid when it is checked |
| Secrecy.SameShotTaken | src/server/game_session.cpp:361-378 | nor does the shot that the retry loop ends with tell more than the view |
| GameRules.FirstFreeSeat | src/server/game_session.cpp:44-63 | a newcomer gets the first free seat, and there is room exactly if one is free |
| GameRules.RequestAnswered | src/server/client_data.cpp:206-228 | the second player starts the preparation and both are asked for their fields; anybody else only hears how things stand |
| GameRules.LeavingFrees | src/server/game_session.cpp:65-82 | who leaves frees that seat and no other |
| GameRules.StrangerLeaves | src/server/game_session.cpp:65-82 | when a stranger leaves each player is told the state |
| GameRules.EndFreesSeats | src/server/game_session.cpp:424-429 | the end of a game leaves both seats free and the session vacant |
| GameRules.FieldCounts | src/server/client_data.cpp:230-252 | a valid field sent in time replaces its sender's field and no other, and only the sender is told, with a receipt exactly if it is so |
| GameRules.CheckKeepsValid | src/server/game_session.cpp:199-221 | exactly the players without a valid field lose the seat; the start is scheduled exactly if both stay, and one left alone waits and is told |
| GameRules.FieldsShown | src/server/game_session.cpp:287-304 | each player is shown the own field and the opponent's without ships |
| GameRules.OnlyFirstMoveCounts | src/server/game_session.cpp:399-407 | the first move of the player on turn is remembered and ends the turn; any other changes nothing and tells nobody |
| GameRules.HitKeepsTurn | src/server/game_session.cpp:330-350 | the shot hits the board of the player not on turn only, and the shooter keeps the turn exactly if it hits a ship |
| GameRules.TurnTold | src/server/game_session.cpp:352-397 | both see the board after the shot, then hear whose turn begins or who has won |
| GameRules.StartAndStopTold | src/server/game_session.cpp:256-328 | the drawn player begins; each player is told rightly whether a turn that begins or ends is the own one |
| GameRules.StopTold | src/server/game_session.cpp:182-197 | both players hear that the preparation is over and what comes next |
| GameStory.GameIsReplayed | src/server/game_session.cpp:306-384 | in any interleaving the boards and the player on turn are those of the simple game with the shots that were played |
| GameStory.FirstMoveIsRemembered | src/server/game_session.cpp:399-407 | until a turn is changed the session remembers the first move of the player on turn and nothing else about the game changes |
| GameStory.ShotIsFirstMove | src/server/game_session.cpp:361-378 | the shot of a turn is the first move the player on turn has sent since the last shot, if it can change a cell, and the turn is the one the last shot has left |
| GameStory.LastFieldCounts | src/server/game_session.cpp:94-104 | while fields are collected each player's field is the last valid one sent |
| GameStory.BothSentStarts | src/server/game_session.cpp:199-264 | if both have sent a valid field the check keeps both, one timer is queued, and firing it begins the first turn with those fields |
| PlayerNews.NewsIsRight | src/server/game_session.cpp:266-397 | over a whole game, from the check of the fields on, the last field of the opponent each player was sent is the current one with its ships hidden, and the last message about a turn says rightly whose it is |
| GameProgress.StepKeepsGame | src/server/game_session.cpp:166-359 | unless someone leaves a game with two players, every step keeps the boards of a game in play reachable from valid starts and leaves exactly the one timer its phase needs |
| GameProgress.EndsAtRest | src/server/game_session.cpp:199-221 | where a step takes a seat from somebody without leaving another player alone in a game, no timer is left and at most one player: the next game can begin |
| GameProgress.EveryGameIsOk | src/server/game_session.cpp:166-359 | over any number of games one after another, from any session with at most one player and no timer left, the game rule holds at every point |
| GameProgress.StartIsAtRest | src/server/game_session.cpp:16-27 | a fresh session is such a session |
| GameProgress.KickChecks | src/server/game_session.cpp:199-208 | if the check disconnects nobody, both fields are valid starts |
| GameProgress.DrivenByOneTimer | src/server/preparation_timeout.cpp:16-117 | with two players exactly one timer is queued, it can fire, and it is of the kind its state calls for |
| GameProgress.FreshShot | src/server/game_session.cpp:361-378 | while the game is not over the retry loop has a shot to end with |
| GameProgress.WinnerHasEighteenHits | src/server/game_session.cpp:339-384 | when the end is scheduled exactly the board of the player not on turn is sunk, with eighteen hits against at most seventeen |
| GameProgress.NobodyLostYet | src/server/game_session.cpp:380-384 | until then both boards have an unharmed cell and at most seventeen hits |
| GameProgress.ResultIsTold | src/server/game_session.cpp:352-359 | the win and the loss are told exactly when the game is over, each to the right player |
| GameProgress.ChangeUsesFresh | src/server/game_session.cpp:330-378 | every change of turn uses up a cell that was fresh |
| GameEnds.StepLowers | src/server/game_session.cpp:166-350 | every fired timer lowers a bound that no other step raises, every change of turn the number of turns left, and every timer fired or stopped the seconds left by its full time |
| GameEnds.GameIsFinite | src/server/game_session.cpp:256-350 | from any point of any game, while everybody keeps the seat, at most 405 timers fire, at most 200 turns are played, and the timers fired or stopped run for at most 3476 seconds |
| GameSessions.GameSession.SetPlayer | src/server/game_session.cpp:44-63 | seats the player as the rule says |
| GameSessions.GameSession.DisconnectPlayer | src/server/game_session.cpp:65-82 | frees the seat; only for a stranger are the players told the state |
| GameSessions.GameSession.SetField | src/server/game_session.cpp:94-104 | stores the field of a seated player only while fields are collected |
| GameSessions.GameSession.StartPreparation | src/server/game_session.cpp:166-180 | new state, request to both players, one timer of 70 seconds |
| GameSessions.GameSession.StopPreparation | src/server/game_session.cpp:182-197 | new state, two messages to each player in order, one timer of 2 seconds |
| GameSessions.GameSession.CheckStartFields | src/server/game_session.cpp:199-221 | disconnects players with invalid fields; shows the boards and schedules the start if both stay |
| GameSessions.GameSession.SendStartFields | src/server/game_session.cpp:287-304 | each player hears its own board and then the opponent's without ships |
| GameSessions.GameSession.StartNewTurn | src/server/game_session.cpp:266-285 | new state, the right message to each player, one timer of 15 seconds, which is remembered |
| GameSessions.GameSession.StartGame | src/server/game_session.cpp:256-264 | the drawn player begins |
| GameSessions.GameSession.EndTurn | src/server/game_session.cpp:306-328 | new state, messages, one timer, and the remembered timer stopped and forgotten |
| GameSessions.GameSession.RegisterShot | src/server/game_session.cpp:361-378 | terminates; the remembered shot is taken if it changes something, otherwise a drawn one; the memory is cleared |
| GameSessions.GameSession.ChangeTurnPlayer | src/server/game_session.cpp:330-350 | board, messages, timer and player on turn after the shot are those of the rule |
| GameSessions.GameSession.SetLastShot | src/server/game_session.cpp:399-407 | remembers a shot of the player on turn unless one is remembered |
| GameSessions.GameSession.EndGame | src/server/game_session.cpp:424-429 | both seats are freed |
| GameSessions.ProcessGameFieldMsg | src/server/client_data.cpp:230-252 | a field is stored exactly when its sender plays, it is a valid start and fields are being collected, and the sender is told which of these failed |
| GameSessions.ProcessGameMoveMsg | src/server/client_data.cpp:254-270 | during and after a turn the first move of the player on turn is remembered, during the turn it also ends it; other moves change nothing |
| GameSessions.ProcessGameSessionReqMsg | src/server/client_data.cpp:206-228 | the second player starts the preparation, anybody else is told how things stand |
| GameSessions.GameSession.SendFields | src/server/game_session.cpp:386-397 | the player on turn sees the opponent's board without ships, the opponent its own |
| GameSessions.GameSession.constructor | src/server/game_session.cpp:16-27 | a new session is vacant with empty boards |
| ClientArrays.ClientArray.Add | src/server/client_array.cpp:41-54 | fills the first free slot, fails exactly when there is none |
| ClientArrays.ClientArray.Remove | src/server/client_array.cpp:56-67 | frees the first slot of the client, the count stays the number of slots in use |
| ClientArrays.ClientArray.IsFull | src/server/client_array.cpp:79-87 | tells whether every slot is in use |
| ClientArrays.ClientArray.ContainsClient | src/server/client_array.cpp:105-115 | tells whether some slot holds the client |
| ClientArrays.TakenCountUpdate | src/server/client_array.cpp:41-67 | changing one slot changes the number of slots in use accordingly |
| Seating.RoomForSeated | src/server/bs_server.cpp:344-362 | while a further client can be seated the game array has a free slot |
| Seating.ConnectKeeps | src/server/bs_server.cpp:297-321 | connecting succeeds exactly when there is a free seat or room for a session, changes nothing otherwise, and keeps the seating rule |
| Seating.WaitingPlayerIsJoined | src/server/bs_server.cpp:304-309 | a client goes to the first session with a free seat; no session is added and no other one changes |
| Seating.NewSessionOnlyWhenFull | src/server/bs_server.cpp:311-320 | only when every session is full a new one is made, with the client alone in it, unless there are as many as there can be |
| Seating.OthersStay | src/server/bs_server.cpp:297-362 | whatever one client does, every other stays in its array and session |
| Seating.EverybodyMeets | src/server/bs_server.cpp:297-321 | over any run in which nobody leaves at most one session has a free seat |
| Seating.DisconnectKeeps | src/server/bs_server.cpp:323-335 | disconnecting keeps the seating rule and leaves no trace of the client |
| Seating.EveryRunKeepsSeating | src/server/bs_server.cpp:297-362 | over every run the clients in the game array are exactly the seated ones and nobody is in both arrays or twice in one |
| BattleshipServers.BattleshipServer.AcceptNewConnection | src/server/bs_server.cpp:110-133 | a new client is queued exactly when there is room |
| BattleshipServers.BattleshipServer.SetGameSession | src/server/client_data.cpp:40-52 | seats a client that has no session |
| BattleshipServers.BattleshipServer.ConnectPlayerToGame | src/server/bs_server.cpp:297-321 | the client gets the first free seat of the first session that has one, or a new session when all are full, and moves between the arrays |
| BattleshipServers.BattleshipServer.DisconnectClient | src/server/bs_server.cpp:323-335 | the client leaves its session and both arrays |
| Wire.EncodedSize | src/core/message.cpp:59-110 | the encoded length is the one in the size table |
| Wire.DecodeEncode | src/core/message.cpp:112-170 | for every message of every type decoding its encoding rebuilds it |
| Wire.DecodesByLength | src/core/message.cpp:112-170 | bytes of a bad type or of another length than their type's are refused, and a decoded message has the type its bytes carry |
| Wire.OneLength | src/core/message.cpp:112-170 | if bytes are a message then neither fewer nor more of them are |
| Wire.EncodeDecode | src/core/message.cpp:112-170 | a decoded message encodes to the same bytes exactly when they begin with the start mark and their flag is 0 or 1 |
| Wire.HeaderBytes | src/core/message.cpp:265-278 | the first bytes are the start mark and the number of the type, in the order of the enumeration, in four bytes, lowest first; then the number of the message in eight |
| Wire.PayloadBytes | src/core/message.cpp:506-560 | for each type the fields of the message stand at their places after the header, a field cell by cell in rows |
| Bytes.LowestFirst | src/core/message.cpp:265-278 | numbers are laid out lowest byte first, in two's complement |
| Wire.SelfDelimiting | src/core/message.cpp:265-278 | encodings followed by anything agree only for the same message and the same rest |
| MessageData.SetHeaderData | src/core/message.cpp:265-278 | writes mark, type and number and leaves the rest |
| MessageData.GetData | src/core/message.cpp:506-517 | the buffer holds exactly the encoded message, for each of the fourteen types |
| MessageData.CreateInstance | src/core/message.cpp:112-170 | reads exactly the message the bytes are, or none |
| Framing.ParseAll | src/core/msg_buffer.cpp:134-190 | any series of whole messages is parsed unchanged and in order, whatever the payloads, and what follows is parsed as if alone |
| Framing.MessagesSurviveNoise | src/core/msg_buffer.cpp:94-190 | out of any mixture of noise, start marks with a bad type and whole messages exactly the messages come, in order |
| Framing.PartialWaits | src/core/msg_buffer.cpp:211-248 | a message not yet complete yields nothing and is kept |
| Framing.NoiseSkipped | src/core/msg_buffer.cpp:94-109 | bytes before a start mark are skipped |
| MsgBuffers.MsgBuffer.MoveMsgToStart | src/core/msg_buffer.cpp:94-132 | terminates with the bytes from the first start mark that a good or still unknown type follows |
| MsgBuffers.MsgBuffer.NewReading | src/core/msg_buffer.cpp:211-248 | finds the next message and how many of its bytes are there |
| MsgBuffers.MsgBuffer.StartMarkPos | src/core/msg_buffer.cpp:192-209 | the first mark from a position on, or -1; a negative position counts as 0 |
| MsgBuffers.MsgBuffer.GainMsg | src/core/msg_buffer.cpp:134-190 | terminates and queues exactly the parsed messages; what is left over is what the parser leaves |
| MsgBuffers.MsgBuffer.ReadMsg | src/core/msg_buffer.cpp:25-47 | the same after new bytes have arrived; without a connection, room or bytes nothing changes, and the result says which |
| MsgBuffers.MsgBuffer.Extract | src/core/msg_buffer.cpp:49-56 | takes the oldest message |
| TimeoutHandlers.TimeoutHandler.Process | src/core/timeout_handler.cpp:15-42 | the time left is the saturating difference, exact also for a negative time but for the part of a second that cannot be borrowed; the event is triggered exactly when a running timer reaches zero |
| TimeoutHandlers.TimeoutHandler.Stop | src/core/timeout_handler.cpp:52-56 | no time is left |
| TimeoutHandlers.LeftIsSaturating | src/core/timeout_handler.cpp:15-42 | over any calls the time left is the set time less the total, not below zero |
| TimeoutHandlers.TriggersWhenReached | src/core/timeout_handler.cpp:15-42 | the triggering call is the one at which the total reaches the set time |
| TimeoutHandlers.TriggersOnce | src/core/timeout_handler.cpp:15-56 | there is at most one, there is one exactly when the time is used up, and never for a timer at zero |
| TimeoutHandlers.ElapsedTime | src/server/bs_server.cpp:49-59 | the subtraction of clock readings is exact and normalised unless there is no second to borrow from, and a span of time exactly if the clock was not set back |
| LinkedLists.List.Put | src/core/list.h:105-126 | appends at the end |
| LinkedLists.List.Get | src/core/list.h:181-204 | takes the first item, nothing from an empty list |
| LinkedLists.List.GetItem | src/core/list.h:206-244 | takes out the first occurrence and returns it, nothing if it is not there |
| LinkedLists.List.Remove | src/core/list.h:128-164 | takes out the first occurrence |
| LinkedLists.List.Clear | src/core/list.h:166-179 | leaves an empty list |
| LinkedLists.List.ContainsItem | src/core/list.h:246-257 | tells whether the item occurs |
| LinkedLists.List.At | src/core/list.h:271-289 | the item at the index, nothing outside |
| LinkedLists.List.Swap | src/core/list.h:291-305 | exchanges the contents |
| TimerPass.TimerQueue.ProcessTimeouts | src/server/bs_server.cpp:277-295 | terminates; every timer queued before or during the pass gets the time once, in order, and had its full time when it came up unless the event of an earlier one had stopped it, which happens only to remembered or new timers; triggered are exactly those whose time is used up; kept are exactly those with more left, in order |
| TimerPass.TimerQueue.PassStep | src/server/bs_server.cpp:284-293 | one timer gets its time and is kept exactly when it had more left; its event changes nothing but one stopped and one new timer |
| TimerPass.WhoTriggers | src/core/timeout_handler.cpp:15-42 | in a pass exactly the timers queued at its start trigger whose full time is used up and which no earlier timer's event has stopped |
| TimerPass.EventsAreBounded | src/server/preparation_timeout.cpp:16-117 | a pass stops at most as many timers as it triggers, and queues at most as many |
| TimerPass.QuietPass | src/server/bs_server.cpp:277-295 | a pass in which no timer's time is used up stops and queues none and takes the time from each |
| DeliveryRules.RunTracks | src/core/msg_delivery_control.cpp:27-69 | after any run the list holds exactly the messages that the history leaves under control, the one added last in front, with the attempts and the time of that history |
| DeliveryRules.ControlsByHistory | src/core/msg_delivery_control.cpp:71-74 | a message is under control exactly if it was added and since then neither removed, nor exhausted at a resend, nor confirmed as the last added one of its number |
| DeliveryRules.AddedIsControlled | src/core/msg_delivery_control.cpp:27-40 | after it is added a message is under control |
| DeliveryRules.ResendAfterRun | src/core/msg_delivery_control.cpp:81-119 | by the history alone: which messages a resend hands out, and which are still under control after it |
| DeliveryRules.OverdueInOrder | src/core/msg_delivery_control.cpp:81-94 | messages are handed out in list order |
| DeliveryRules.OverdueExactly | src/core/msg_delivery_control.cpp:96-108 | exactly the entries that need resending are handed out |
| MsgDelivery.MsgDeliveryControl.Add | src/core/msg_delivery_control.cpp:27-40 | a message not yet under control goes in front |
| MsgDelivery.MsgDeliveryControl.RemoveMsg | src/core/msg_delivery_control.cpp:189-209 | unlinks exactly the one item and keeps the chain |
| MsgDelivery.MsgDeliveryControl.RemoveByMsg | src/core/msg_delivery_control.cpp:42-50 | removes the message, and tells whether it was there |
| MsgDelivery.MsgDeliveryControl.ProcessCheck | src/core/msg_delivery_control.cpp:145-150 | removes the first message with the confirmed number, and tells whether there was one |
| MsgDelivery.MsgDeliveryControl.Decrease | src/core/msg_delivery_control.cpp:62-69 | one attempt less and a new time for that message only |
| MsgDelivery.MsgDeliveryControl.UnderControl | src/core/msg_delivery_control.cpp:71-74 | tells whether the message is under control |
| MsgDelivery.MsgDeliveryControl.Resend | src/core/msg_delivery_control.cpp:81-119 | queues the overdue messages in order and drops the exhausted ones |

## Notes on the model

- The board is a map from the hundred points to signed bytes, so that junk received from a client
  is covered: the check of the cell values and the reading of states are the code's.
- Where the code reads one element past the end of an array before testing the index
  (src/core/game_field.cpp:157, src/core/game_field.cpp:267, src/core/game_field.cpp:284,
  src/core/msg_buffer.cpp:102) the model tests first; the value read is never used. The next item
  is read before an exhausted one is unlinked (src/core/msg_delivery_control.cpp:113-117).
- The constructor of a ship with its end points in reverse order does not always give the kind
  of their distance; `Ships.ConstructorKind` says exactly when it does, and
  `Ships.ReversedDestroyer` is a case where it does not. The validator only passes end points in
  reading order.
- The decoder does not look at the start mark; `Wire.EncodeDecode` says exactly which bytes are
  reproduced.
- Integers on the wire have the layout of a little-endian 64-bit machine: four bytes for an
  enumeration or an `int`, eight for a `long long` or a time. A flag byte other than 0 and 1 is
  read as true.
- Random draws are a sequence of points, and a shot ends the retry loop only if the draws come to
  a cell that it can change; the first player is any of the two. Clock readings are parameters.
- A client is a number that stands for the address of its object.
- The five kind counters of the validator, the walks and the scans keep the code's order;
  long methods of the program are cut into several.

## Left out

- Sockets, `select`, file descriptors, signals and logging: only that bytes arrive is modelled.
- A message whose bytes arrive in two reads: the code reinterprets raw bytes as an object there, so `MsgBuffers.MsgBuffer.GainMsg` asks that nothing is pending and says what is left pending.
- Freeing of messages, items and handlers, and the sharing of messages between the send queue and the delivery list.
- The automatic receipt that a client gets for each of its messages, and the dispatch of messages by type.
- GameSessions.ProcessGameSessionReqMsg: the session that the server offers to a client without one is a parameter; which one that is, is part of the seating rule (`BattleshipServers.BattleshipServer.ConnectPlayerToGame`).
- The terminal interface, the cursor, colours, the display timer, and the vendored terminal library.
- After a player has left in the middle of a game, its old timers stay queued: until they have fired, runs are covered by the roster and secrecy results, not by the progress results. The remembered shot and the fields that stay with a session are covered by both.
- BattleshipServers.BattleshipServer.ConnectPlayerToGame: the server holds its sessions as values and its clients as numbers, so aliasing between the server, the session objects and the client objects is not captured.
- GameSessions.GameSession.CheckStartFields: of disconnecting a client it does the session's part; closing its connection and leaving the arrays is `DisconnectClient` of the server object.
- TimerPass.TimerQueue.TimeoutEvent: stands for the event of any session; it may queue one timer of at least the waiting time and stop a remembered one, which `SessionRuns.EventsQueueLongTimers` shows to cover what sessions queue.
- TimerPass.TimerQueue.ProcessTimeouts: asks for an elapsed time below the waiting time; with a longer one new timers can fire within the same pass.
- TimeoutHandlers.TimeoutHandler.Process: asks for microseconds between 0 and 999999, as its callers give once the clock has passed its first second.
- GameSessions.GameSession.EndGame: of disconnecting a client it does the session's part, like the check of the fields.
- MsgBuffers.MsgBuffer.ReadMsg: the system call is a parameter, what it has read or that it failed; like the loop it calls it asks that nothing is pending.
- The bounds of machine integers on sizes and counters, which stay far below them.
