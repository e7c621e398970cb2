# A model of the tile-game server and its codecs

The repository is a server, in C++, for a two-player game of tiles in the manner of Trax, and a Java client. This
project models four parts of it in Dafny and proves what they are for.

**The winning move.** A tile joins two of its sides in black and the other two in white. A player wins with a tile
that closes a track of either colour. `GameManager::isGameWon` looks for such a track with two recursive searches that
share an array of marks, stop on meeting a mark, and start from the last-laid tile only. `Board.dfy` says what a closed
loop is, without any search. `Tiles.dfy` says the same in coordinates only, without the table the search reads.
`LoopSearch.dfy` has the search as a function of the marks and proves that it decides
whether there is one; `GameRun.dfy` lifts this to whole games; `GameManager.dfy` has the methods that mark arrays in
place and proves that they compute that function. Off the end of `controlBlack` and `controlWhite`, where the C++
functions return nothing (`GameManager.cpp:122-123`, `:166-167`), the model answers false, as is plainly meant.

**The lobby.** Players connect, get a name, ask each other for a game, play, lose their connection, come back, leave.
Seven fields of a player, two vectors and a counter say redundantly where everybody stands. `Lobby.dfy` has the state
as a value, with each handler as a function written in the handler's own order of writes. `LobbyEffects.dfy` says what
each comes to in the end. `LobbyInvariant.dfy` and `LobbySteps.dfy` state and prove what every step keeps, and
`LobbyRuns.dfy` does so over every run. On top of that stand `LobbyAnswers.dfy` (who is answered what), `LobbyProperties.dfy`, `LobbyReplies.dfy`,
`LobbyReconnect.dfy`, `LobbyLimbo.dfy` and, with concrete runs, `LobbyExample.dfy` and `LobbyWin.dfy`. The objects themselves are in
`Players.dfy`, `Games.dfy`, `Server.dfy` and `GameManager.dfy`; `Registry.dfy` relates them to the state, one written
field at a time; the methods of `CommandManager.dfy` are the handlers, each proved to do to the objects what the
function of `Lobby.dfy` does to the state.

**The codecs.** `Serializer.dfy` is the server's: packets are written through a buffer with a moving index and read back.
`DataSerializer.dfy` and `MessageSerializer.dfy` are the client's, with signed bytes, truncating remainders and copies
padded with zeros; `ParserVectors.dfy` has the packets of the client's own tests. Their checksums differ (the server stores the sum, the client its complement), so each codec is
proved against itself.

**The pipeline.** `Pipeline.dfy` has the receiving thread, the packet thread and the command thread as steps that may
interleave in any order over two queues; `ConcurrentQueue.dfy` and `Threads.dfy` have the objects that take these steps.
`Service.dfy` puts the threads and the lobby together, `ServiceCommands.dfy` says what each header does, and `Replies.dfy` says what the lobby's answers are on the wire.

## What a command may assume

The handlers do not check everything they rely on. `LobbyRuns.Guard` states, command by command, what a client that
keeps to the protocol and the network guarantee:

- the sender is registered and connected; a new connection has a socket no registered player is connected on;
- a name is set or taken back only by a connection that has none yet (`nameSet` counts as false on a new connection);
- a join request comes from an available player and names somebody else;
- an answer comes only from a player who has been asked;
- a move comes from a player in a game whose opponent is not lost, lies on the board, lays a tile 1 to 6, and agrees in
  colour with its neighbours (the server does not check moves, nor whose turn it is);
- a lost player is taken over only from a connection that is later in the vector of players.

The last one is no rule of the protocol. `Server::deletePlayer` erases the first record of a name, so the new record is
the one erased when it comes first. `LobbyReconnect.ReconnectKeepsExactly` shows that this order is exactly what
consistency depends on, and `LobbyExample.NewcomerCanBeErased` has a run into the wrong order.

A move by a player whose loss is still being handled does not occur: the loss of a connection in a game and the handling
of the internal command it queues are one step.

## Model

| member | source | states |
|---|---|---|
| LoopSearch.Search | UPSServer/game/GameManager.cpp:81-167 | marks are never taken back and only board cells get marked, so the search ends on every board, matched or not, from any marks; its measure is the number of unmarked cells |
| GameManagers.ControlBlack | UPSServer/game/GameManager.cpp:81-123 | the recursion that marks the array in place gives the answer and the final marks of the black search; from fresh marks, where colours agree, it answers whether the cell is part of a closed black track, in coordinates |
| GameManagers.ControlWhite | UPSServer/game/GameManager.cpp:125-167 | the same for white |
| Tiles.ExitIsSide | UPSServer/game/GameManager.cpp:91-121 | the sides a search leaves a tile by, for every tile and colour, are those the tile joins by its coordinates: tile 1 black from top to bottom, 2 from left to right, 3 to 6 round one corner, white the other two sides |
| Tiles.LinkIsMeeting | UPSServer/game/GameManager.cpp:91-121 | two cells are linked if and only if they are neighbours and both tiles show the colour on their common side |
| Tiles.MatchedIsAgreement | UPSServer/game/GameManager.cpp:81-167 | a board is matched if and only if all neighbouring tiles agree in colour |
| Tiles.SearchDecidesTrack | UPSServer/game/GameManager.cpp:81-167 | in coordinates only: from fresh marks a search answers true if and only if the cell is part of a closed track of the colour |
| Tiles.WinIsClosedTrack | UPSServer/game/GameManager.cpp:169-193 | in coordinates only: a move wins if and only if its tile is part of a closed track of either colour |
| Tiles.RowsWin | UPSServer/game/GameManager.cpp:97-101 | on any board, two rows of three with a straight tile in the middle of each win, in black and in white, whichever of the six is laid last |
| Tiles.ColumnsWin | UPSServer/game/GameManager.cpp:92-96 | the same with two columns of three |
| LoopSearch.SearchDecidesLoop | UPSServer/game/GameManager.cpp:81-167 | on every matched board, from fresh marks, the search answers true if and only if the cell lies on a closed loop of the colour |
| LoopSearch.LoopIsFound | UPSServer/game/GameManager.cpp:81-167 | entered anywhere on a closed loop the search answers true, whatever is marked already and on any board |
| LoopSearch.Follow | UPSServer/game/GameManager.cpp:85-121 | with a stretch of track marked, a branch either closes a loop with it or marks exactly the rest of the track, up to an exit that leads nowhere |
| LoopSearch.MeetsOnlyItsStart | UPSServer/game/GameManager.cpp:85-89 | on a matched board the only marked cell a branch can run into is the one the track began with |
| LoopSearch.SecondBranchFails | UPSServer/game/GameManager.cpp:92-95 | the marks left by a failed first branch never make the second one answer true |
| LoopSearch.UnmatchedBoardMisleads | UPSServer/game/GameManager.cpp:85-87 | matching colours are needed: a board of four tiles on which the search answers true without a loop |
| LoopSearch.ColoursAreSymmetric | UPSServer/game/GameManager.cpp:81-167 | one search is the other on the board with tiles 1 and 2, 3 and 5, 4 and 6 exchanged: same answer and marks, on any board and from any marks |
| LoopSearch.WinIgnoresColours | UPSServer/game/GameManager.cpp:169-193 | exchanging the colours never changes whether a move wins |
| LoopSearch.NewLoopPassesThrough | UPSServer/network/CommandManager.cpp:232-235 | a loop that a move creates passes through the cell of that move |
| LoopSearch.LastCellTestIsEnough | UPSServer/network/CommandManager.cpp:232-235 | on a board without loops, testing the last-laid cell is testing the whole board for a loop of either colour |
| GameManagers.GameManager.IsGameWon | UPSServer/game/GameManager.cpp:169-193 | both searches start from cleared marks; where colours agree the answer is whether the cell is part of a closed track of either colour, in coordinates |
| GameManagers.ClearMarks | UPSServer/game/GameManager.cpp:170-176 | no cell is marked when a search starts |
| GameRun.DeletingMoveMakesLoop | UPSServer/network/CommandManager.cpp:232-265 | a move ends the game if and only if it is the one that creates a loop |
| GameRun.RegisteredWhileLoopFree | UPSServer/network/CommandManager.cpp:216-267 | over every run of lawful moves from the empty board a game is still registered if and only if none of its boards so far had a closed loop anywhere |
| GameRun.EmptyBoardHasNoLoop | UPSServer/game/Game.cpp:3-11 | a game starts on a matched board without loops |
| Games.Game.constructor | UPSServer/game/Game.cpp:3-11 | a new game has the given id and an empty 8 x 8 board of its own |
| Games.Game.GetGameString | UPSServer/game/Game.cpp:29-42 | the nested loops build the cells' numbers row by row with one separator between any two |
| Games.BoardTextReadsBack | UPSServer/game/Game.cpp:29-42 | cutting that text at the separators and reading the numbers gives back the very board, whatever the cells hold |
| Games.BoardTextIsRowByRow | UPSServer/game/Game.cpp:32-39 | the text has 64 numbers; the one at place 8 i + j is that of row i and column j |
| Games.BoardIsEightByEight | UPSServer/game/Game.cpp:6-10 | the cells are those of rows 0 to 7 and columns 0 to 7, all empty at first |
| Text.SplitUndoesJoin | UPSServer/network/CommandManager.cpp:55-65 | cutting a joined text at the separators gives back the items if and only if there are any and none contains the separator |
| Text.ListReadsBack | UPSServer/network/CommandManager.cpp:55-65 | with the count, which tells an empty list from one empty item, the list is read back if and only if no item contains the separator |
| Text.IntTextReadsBack | UPSServer/game/Game.cpp:37 | the decimal text of any number, negative ones included, stands for that number |
| Text.DigitsAsShown | UPSServer/game/Game.cpp:37 | decimal digits, the highest first, a minus before a negative number |
| Text.ListsAsShown | UPSServer/network/CommandManager.cpp:61-62 | names are put together with ';' between them |
| GameManagers.GameManager.GetGameByPlayer | UPSServer/game/GameManager.cpp:18-31 | the last registered game with a player of that name, null if there is none |
| GameManagers.GameManager.GetPlayersOponent | UPSServer/game/GameManager.cpp:33-45 | the other player of that game, null without a game |
| GameManagers.GameManager.RegisterGame | UPSServer/game/GameManager.cpp:47-61 | the game goes to the end of the register under the next id, and the counter moves on |
| GameManagers.GameManager.DeleteGame | UPSServer/game/GameManager.cpp:63-79 | the first game with the id is erased, or the last game if none has it |
| Servers.Server.GetPlayerByName | UPSServer/network/Server.cpp:215-223 | the first registered player of that name, null if there is none |
| Servers.Server.GetPlayerBySocket | UPSServer/network/Server.cpp:205-213 | the first player connected on that socket, null if there is none |
| Servers.Server.DeletePlayer | UPSServer/network/Server.cpp:50-62 | the first player with the name is erased, or the last player if none has it |
| Servers.Server.ProceedPlayerDisconnection | UPSServer/network/Server.cpp:64-92 | the socket goes; out of a game the player is erased too and forgets whom they asked |
| Vectors.ErasedByLoop | UPSServer/network/Server.cpp:54-61 | the erasing loops leave the vector without the first match, or, with no match, without its last element |
| Players.Player.constructor | UPSServer/game/Player.cpp:19-30 | a new connection has a socket and nothing else |
| Players.Player.SetName | UPSServer/game/Player.cpp:64-67 | sets the name and that there is one |
| Players.Player.RemoveSocket | UPSServer/game/Player.cpp:55-58 | the player has no socket any more |
| LobbyInvariant.NameFinds | UPSServer/network/Server.cpp:215-223 | with unique names a name finds the very player who bears it |
| LobbyInvariant.NameFindsGame | UPSServer/game/GameManager.cpp:18-45 | the name of a player in a game finds that game, and in it the other player |
| LobbyInvariant.DeletesThatPlayer | UPSServer/network/Server.cpp:50-62 | erasing by name erases exactly that player |
| LobbyInvariant.DeletesThatGame | UPSServer/game/GameManager.cpp:63-79 | erasing by id erases exactly that game |
| LobbyEffects.AskEffect | UPSServer/network/CommandManager.cpp:127-146 | asker and asked, and nobody else, change: both unavailable and pointing at each other; the acknowledgement goes to one, the request to the other |
| LobbyEffects.AcceptEffect | UPSServer/network/CommandManager.cpp:154-186 | both are in the new game, the asker opens it, and each is told who begins and who the opponent is |
| LobbyEffects.AcceptGoneEffect | UPSServer/network/CommandManager.cpp:187-195 | with the asker gone no game starts, and the asked player is told |
| LobbyEffects.DeclineEffect | UPSServer/network/CommandManager.cpp:198-214 | both are available again; the asker is told if still connected |
| LobbyEffects.WinEffect | UPSServer/network/CommandManager.cpp:235-265 | both players get the winning move, are out of the game and available; the game is erased |
| LobbyEffects.GiveSeatEffect | UPSServer/network/CommandManager.cpp:89-117 | the newcomer has name and seat; both players are told whose turn it is, who their opponent is, and the board, from whose text it can be rebuilt, all as before the seat changed hands |
| LobbySteps.ConnectKeeps | UPSServer/network/Server.cpp:115-123 | accepting a connection keeps the joint invariant |
| LobbySteps.NewPlayerKeeps | UPSServer/network/CommandManager.cpp:36-52 | naming keeps it; names stay unique |
| LobbySteps.JoinPlayerKeeps | UPSServer/network/CommandManager.cpp:123-152 | asking keeps it; pending joins stay a matching |
| LobbySteps.AcceptJoinKeeps | UPSServer/network/CommandManager.cpp:154-196 | accepting keeps it, also when the asker has vanished |
| LobbySteps.DeclineJoinKeeps | UPSServer/network/CommandManager.cpp:198-214 | declining keeps it |
| LobbySteps.MoveKeeps | UPSServer/network/CommandManager.cpp:216-276 | a move keeps it, winning or not |
| LobbySteps.EndGameKeeps | UPSServer/network/CommandManager.cpp:278-306 | leaving a game keeps it, with the opponent there or lost |
| LobbySteps.LogoutKeeps | UPSServer/network/CommandManager.cpp:308-316 | logging out keeps it |
| LobbySteps.DisconnectKeeps | UPSServer/network/Server.cpp:64-92 | losing a connection keeps it, out of a game, in one, and as the second loss in one |
| LobbySteps.LossIsHandled | UPSServer/network/CommandManager.cpp:318-344 | after the first loss in a game everything of it stays, the player is lost and the opponent is told; after the second the game and both players, and nothing else, are erased |
| LobbySteps.GarbageKeeps | UPSServer/network/PacketManager.cpp:39-48 | unreadable packets keep it, also the tenth, which costs the connection |
| LobbySteps.ReconnectKeeps | UPSServer/network/CommandManager.cpp:78-121 | coming back keeps it |
| LobbySteps.ReconnectTakesSeat | UPSServer/network/CommandManager.cpp:88-119 | the newcomer sits in the lost player's seat of the same game; id, board, opponent and turn are unchanged and both are told them; the lost record and no other is erased |
| LobbySteps.DeletesTheEarlier | UPSServer/network/Server.cpp:50-62 | of two records with one name, erasing by name erases the earlier |
| LobbySteps.GameIsFound | UPSServer/network/CommandManager.cpp:218-225 | no handler looks in vain for the game of a player who is in one |
| LobbySteps.SeatIsFound | UPSServer/network/CommandManager.cpp:93-105 | coming back finds the game, the opponent and somebody on turn |
| LobbyRuns.StepKeeps | UPSServer/network/CommandManager.cpp:346-396 | every permitted command keeps the joint invariant: unique names, pending joins a matching of players out of games, `inGame` exactly for players of exactly one registered game, games of two different players with ids below the counter, lost players in games and without sockets |
| LobbyRuns.MoveErasesGameOnLoop | UPSServer/network/CommandManager.cpp:227-275 | in a consistent lobby a move erases its game if and only if the new board has a closed loop anywhere; then both players are told and released, otherwise the opponent alone is told and on turn; no other game changes |
| LobbyRuns.StepKeepsBoards | UPSServer/network/CommandManager.cpp:346-396 | no command leaves a registered game with an unmatched board or a closed loop |
| LobbyRuns.RunKeeps | UPSServer/network/CommandManager.cpp:346-396 | over every run of permitted commands from the empty server both hold |
| LobbyProperties.LostPlayersHaveAGame | UPSServer/network/CommandManager.cpp:318-344 | in every reachable state a player is lost if and only if without a socket, and then has a game with a connected opponent to come back to |
| LobbyProperties.InGameMeansOneGame | UPSServer/game/GameManager.cpp:18-31 | `inGame` holds exactly for the players of registered games, and nobody is in two |
| LobbyProperties.TurnIsAPlayers | UPSServer/network/CommandManager.cpp:105-112 | the name on turn is always that of one of the two players, also while the pointer leads to a replaced record |
| LobbyProperties.JoinsAreAMatching | UPSServer/network/CommandManager.cpp:127-146 | asker and asked are different, unavailable and in no game, and nobody else asks or is asked by either |
| LobbyProperties.ListedMeansJoinable | UPSServer/network/CommandManager.cpp:54-73 | a name is listed for a player if and only if a join request for it by that player would be accepted |
| LobbyProperties.ListedJoinIsAccepted | UPSServer/network/CommandManager.cpp:123-146 | any listed name sent straight back as a join request is accepted, and the very player listed is asked |
| LobbyProperties.ListAnswerReadsBack | UPSServer/network/CommandManager.cpp:54-73 | from count and text of a list answer, the empty one included, a reader gets exactly the listed names if and only if no listed player has a ';' in the name |
| LobbyExample.ListCanMislead | UPSServer/network/CommandManager.cpp:36-73 | the server takes the name "a;b", and a run leads to a list answer that reads as something else |
| LobbyProperties.DeclineUndoesAsking | UPSServer/network/CommandManager.cpp:198-214 | declining restores the lobby from before the request, but for the asker still pointing at the asked player |
| LobbySteps.LogoutEndsGame | UPSServer/network/CommandManager.cpp:278-316 | logging out of a game erases that game only; the opponent is free again and told, or erased if lost |
| LobbyReplies.RepliesReachClients | UPSServer/network/CommandManager.cpp:36-344 | in every reachable state, whatever a command makes the server send goes to registered, connected players, after all earlier replies |
| LobbyAnswers.ConnectionIsFresh | UPSServer/network/Server.cpp:115-123 | a new connection is last in the register with its socket and nothing else, and nothing else changes |
| LobbyAnswers.NamingIsAcknowledgedIfFree | UPSServer/network/CommandManager.cpp:36-52 | a naming is acknowledged if and only if no registered player has the name; otherwise it is refused with "Username already in use!" and nothing changes |
| LobbyAnswers.UsedNameIsRefused | UPSServer/network/CommandManager.cpp:46-50 | the refusal, in any state |
| LobbyAnswers.JoiningIsAcknowledgedIfAvailible | UPSServer/network/CommandManager.cpp:123-152 | a join request is acknowledged, and the player asked, if and only if a player of that name is available; otherwise it is refused and nothing changes |
| LobbyAnswers.ReturnIsRefusedUnlessLost | UPSServer/network/CommandManager.cpp:84-87 | coming back under a name no lost player has is refused and nothing changes |
| LobbyAnswers.LeavingIsHandled | UPSServer/network/Server.cpp:81-85 | out of a game the player whose connection is gone, and no other, is erased and forgets whom they asked; nobody is told |
| LobbyAnswers.TenthPacketDisconnects | UPSServer/network/PacketManager.cpp:39-48 | nine unreadable packets are only counted, the tenth costs the connection |
| LobbyAnswers.StrayPacketIsIgnored | UPSServer/network/PacketManager.cpp:40-42 | an unreadable packet on a socket of nobody changes nothing |
| LobbyAnswers.ListedPlacesAscend | UPSServer/network/CommandManager.cpp:59-60 | the listed players are exactly those in no game, available, connected, named and not the requester, in the order of the register |
| LobbyAnswers.ListIsAnswered | UPSServer/network/CommandManager.cpp:61-72 | the answer has their number and their names with ';' between them, goes to the requester, and nothing else happens |
| LobbyReconnect.LossAndReturn | UPSServer/network/CommandManager.cpp:78-121 | losing a connection and coming back on a new one is a round trip: one seat of one game changes hands, and the newcomer and then the opponent are told player on turn, opponent and board as they stood at the loss |
| LobbyReconnect.ReconnectKeepsExactly | UPSServer/network/CommandManager.cpp:88-119 | coming back keeps the lobby consistent if and only if the lost player is earlier in the vector than the new connection |
| LobbyReconnect.NewcomerIsErased | UPSServer/network/Server.cpp:50-62 | in the other order the new connection is the one erased, while a registered game still has it as a player |
| LobbyExample.NewcomerCanBeErased | UPSServer/network/CommandManager.cpp:119 | that order is reachable: eight commands lead to a lobby in which the lost player coming back is erased |
| LobbyLimbo.AcceptStartsGameIfAskerStayed | UPSServer/network/CommandManager.cpp:164-195 | accepting starts a game if and only if the asker is still registered; if and only if not, the asked player is in limbo |
| LobbyLimbo.LimboExactly | UPSServer/network/CommandManager.cpp:154-214 | for every command and every player: in limbo afterwards if and only if in limbo before and not leaving, or accepting a player who is gone, or waiting for the answer of a player who logs out, loses the connection or sends the tenth unreadable packet by this command |
| LobbyLimbo.GoesAway | UPSServer/network/Server.cpp:81-85 | who leaves by such a command is out of the register |
| LobbyLimbo.LimboLasts | UPSServer/network/CommandManager.cpp:346-396 | no permitted command gets a player out of limbo but by leaving the register |
| LobbyLimbo.LimboIsForever | UPSServer/network/CommandManager.cpp:346-396 | so it is over every run, for as long as the player is registered |
| LobbyLimbo.LimboHasACause | UPSServer/network/CommandManager.cpp:346-396 | over every run a player is in limbo if and only if one of the commands led there and none since took the player out of the register |
| LobbyExample.LimboCanBeEntered | UPSServer/network/Server.cpp:81-85 | a run into limbo |
| LobbyWin.GameCanBeWon | UPSServer/network/CommandManager.cpp:235-265 | a run of a whole game: four moves, the last of which closes a loop, ends the game and releases both players |
| Registries.Registry.PlayersAgree | UPSServer/network/Server.cpp:205-223 | names and sockets read off the objects are those of the state |
| Registries.Registry.GamesAgree | UPSServer/game/GameManager.cpp:18-31 | players' names and ids read off the game objects are those of the state |
| Registries.Registry.AddPlayer | UPSServer/network/Server.cpp:121-123 | a new player object in the vector is the state's new connection |
| Registries.Registry.AddGame | UPSServer/game/GameManager.cpp:47-61 | a new game object in the vector, with a board no other game shares, is the state's new game |
| Registries.Registry.DeletePlayer | UPSServer/network/Server.cpp:50-62 | erasing the object erases the state's player |
| Registries.Registry.DeleteGame | UPSServer/game/GameManager.cpp:63-79 | erasing the object erases the state's game |
| Registries.Registry.RemoveConnection | UPSServer/network/Server.cpp:64-92 | the register's part of a disconnection does to the objects what it does to the state |
| CommandManagers.CommandManager.Handle | UPSServer/network/CommandManager.cpp:346-396 | in a consistent lobby every permitted command does to the objects what it is specified to do to the state; the lobby is consistent again, registered boards stay without loops, and what was reachable stays so; only fresh objects come up |
| CommandManagers.CommandManager.ProceedMessage | UPSServer/network/CommandManager.cpp:350-392 | the sender is found by socket, and the objects change as the lobby does by the message; what that is, header by header, is stated by the rows of `ServiceCommands` |
| CommandManagers.CommandManager.Work | UPSServer/network/CommandManager.cpp:346-396 | the loop over a queue of messages leaves the objects as the messages, served one after another in a reachable lobby, leave the state, and that is reachable again |
| ServiceCommands.NewPlayerMessage | UPSServer/network/CommandManager.cpp:355-358 | header 3 with a text: the sender has the name and is acknowledged if it is free, else refused |
| ServiceCommands.ReturnMessage | UPSServer/network/CommandManager.cpp:359-362 | header 4 with a text: the sender takes the seat of the lost player of that name, or is refused if there is none |
| ServiceCommands.LogoutMessage | UPSServer/network/CommandManager.cpp:367-370 | header 5: the sender leaves the game, or the server |
| ServiceCommands.ListMessage | UPSServer/network/CommandManager.cpp:363-366 | header 6: the sender is sent the list |
| ServiceCommands.JoinMessage | UPSServer/network/CommandManager.cpp:371-374 | header 9 with a text: the available player of that name is asked, or the sender refused |
| ServiceCommands.DeclineMessage | UPSServer/network/CommandManager.cpp:375-378 | header 11: sender and asker are available again, no game starts, the asker is told |
| ServiceCommands.AcceptMessage | UPSServer/network/CommandManager.cpp:379-382 | header 12: with the asker registered a game of the two starts on an empty board with the asker on turn and both are told; otherwise none does |
| ServiceCommands.MoveMessage | UPSServer/network/CommandManager.cpp:383-386 | header 14 with three numbers: the tile, the first, is laid on the row and column of the other two in the sender's game, with everything that follows from a closed loop or none |
| ServiceCommands.OtherMessage | UPSServer/network/CommandManager.cpp:354-390 | any other header leaves the lobby as it is |
| ServiceCommands.LossNotice | UPSServer/network/CommandManager.cpp:387-389 | the server's own notice makes the player lost, or erases the game and both players |
| CommandManagers.CommandManager.IsUsernameAvailible | UPSServer/network/CommandManager.cpp:24-31 | a name is available exactly when no registered player has it |
| CommandManagers.CommandManager.ProceedNewPlayerConnection | UPSServer/network/CommandManager.cpp:36-52 | a free name is set and acknowledged, a used one refused, as `LobbyAnswers.NamingIsAcknowledgedIfFree` says |
| CommandManagers.CommandManager.ProceedPlayerListRequest | UPSServer/network/CommandManager.cpp:54-73 | the loop builds the count and the joined names of exactly the listed players |
| CommandManagers.CommandManager.ProceedPlayerReconnection | UPSServer/network/CommandManager.cpp:78-121 | name, flags, seat, the two messages `LobbySteps.ReconnectTakesSeat` describes, and the erasing by name, in this order |
| CommandManagers.CommandManager.ProceedPlayerJoining | UPSServer/network/CommandManager.cpp:123-152 | request and acknowledgement, or a refusal |
| CommandManagers.CommandManager.ProceedAcceptJoin | UPSServer/network/CommandManager.cpp:154-196 | a game with its two messages, or the notice that the asker is gone |
| CommandManagers.CommandManager.ProceedDeclineJoin | UPSServer/network/CommandManager.cpp:198-214 | both released, the asker told if connected |
| CommandManagers.CommandManager.ProcessGameMove | UPSServer/network/CommandManager.cpp:216-276 | the tile on the board, then either the win with everything it brings, or the turn and the message to the opponent |
| CommandManagers.CommandManager.ProceedGameEnding | UPSServer/network/CommandManager.cpp:278-306 | both ways to leave a game, then its erasing |
| CommandManagers.CommandManager.ProceedPlayerLogout | UPSServer/network/CommandManager.cpp:308-316 | the game's end in a game, a disconnection otherwise |
| CommandManagers.CommandManager.ProceedPlayerLost | UPSServer/network/CommandManager.cpp:318-344 | the first loss in a game, and the second |
| CommandManagers.CommandManager.ProceedDisconnection | UPSServer/network/Server.cpp:64-92 | the disconnection together with the internal command it queues in a game |
| CommandManagers.CommandManager.ProceedGarbage | UPSServer/network/PacketManager.cpp:39-48 | one more unreadable packet, and the disconnection at the tenth, for which alone a game has to be found |
| CommandManagers.Permitted | UPSServer/network/CommandManager.cpp:346-396 | a permitted command never makes a handler follow a pointer to a game or player that is not there |
| Serializers.RoundTrip | UPSServer/helpers/Serializer.cpp:19-78 | for every header of the format map and every payload fitting its format, reading the written packet, whatever bytes follow it, gives the same header, format and payload |
| Serializers.SizeAndChecksumAreNotRead | UPSServer/helpers/Serializer.cpp:139-180 | the server never checks what it writes: whatever stands in the size field and in place of the checksum, the message is read all the same |
| Serializers.DecodedIsEncodable | UPSServer/helpers/Serializer.cpp:139-180 | the other way round: what is read from a whole packet fits its format and encodes to the very payload bytes it was read from |
| Serializers.NumberRoundTrip | UPSServer/helpers/Serializer.cpp:132-137 | all 32 bits of a number survive |
| Serializers.Encode32OfDecode | UPSServer/helpers/Serializer.cpp:192-198 | any four bytes are the bytes of the number read from them |
| Serializers.Serialize | UPSServer/helpers/Serializer.cpp:19-44 | for any header and any format the payload fits: the first four bytes are the header, the next four the number of all bytes, then the payload, and the last byte the sum of all bytes before it modulo 128 |
| Serializers.PacketIsLaidOut | UPSServer/helpers/Serializer.cpp:107-130 | the same of a packet as a value |
| Serializers.BytesByPlace | UPSServer/helpers/Serializer.cpp:132-137 | a number is the sum of its four bytes by their places, the first the highest |
| Serializers.AckPacket | UPSServer/helpers/Serializer.cpp:23-26 | the acknowledgement byte by byte, with checksum 11 |
| Serializers.ListPacket | UPSServer/helpers/Serializer.cpp:36-38 | a list answer byte by byte: count, length of the text, text, checksum |
| Wire.FormatsByNumber | UPSServer/helpers/Serializer.cpp:201-238 | the format map header by header, by number |
| Serializers.PutDataToMessage | UPSServer/helpers/Serializer.cpp:46-78 | the moving index ends exactly behind the separately computed payload size; the bytes between are the payload; nothing before or behind is disturbed |
| Serializers.GetMessageSizeByPayload | UPSServer/helpers/Serializer.cpp:80-105 | the sum over the entries is the length of the encoded payload |
| Serializers.PrepareEmptyPacket | UPSServer/helpers/Serializer.cpp:107-119 | header and total size in place, zeros elsewhere |
| Serializers.CountAndPlaceChecksum | UPSServer/helpers/Serializer.cpp:121-130 | the loop in wrapping 8-bit arithmetic stores the true sum of all bytes before it modulo 128, for any length, and changes no other byte |
| Serializers.WrappedStep | UPSServer/helpers/Serializer.cpp:125-126 | wrapping at 256 loses nothing modulo 128 |
| Serializers.Copy32IntToPlace | UPSServer/helpers/Serializer.cpp:132-137 | four bytes, most significant first, and no others are written |
| Serializers.Deserialize | UPSServer/helpers/Serializer.cpp:139-180 | reading a whole packet gives its message, none for an unknown header |
| Serializers.GetStringFromMessage | UPSServer/helpers/Serializer.cpp:182-190 | the bytes of the range, in order |
| Serializers.Parse32IntFromArray | UPSServer/helpers/Serializer.cpp:192-198 | the number four bytes stand for |
| Replies.ReplyReadsBack | UPSServer/network/CommandManager.cpp:43-343 | the message made of a reply has the header and entries from which exactly that reply is read |
| Replies.PlainRepliesByNumber | UPSServer/network/CommandManager.cpp:43-343 | header, format and entries of the replies without entries, by number |
| Replies.LobbyRepliesByNumber | UPSServer/network/CommandManager.cpp:47-149 | the same of refusal, list and join request |
| Replies.GameRepliesByNumber | UPSServer/network/CommandManager.cpp:104-274 | the same of game start, move, win and continuation, with the order of their entries |
| Replies.ReplyArrives | UPSServer/network/CommandManager.cpp:43-343 | every reply of bytes and 32-bit numbers whose packet is not too long is written as a packet with a header of the format map and a fitting payload, from which, whatever follows, exactly that reply is read |
| DataSerializers.AcceptedIfTiled | ups-client/src/main/java/cz/sedivy/ups/networking/DataSerializer.java:25-53 | bytes are accepted with certain values if and only if fields of the declared classes with these values cover them without gap, overlap or padding |
| DataSerializers.ReadFieldIsChunk | ups-client/src/main/java/cz/sedivy/ups/networking/DataSerializer.java:31-43 | a field that ends within the bytes has none of the zeros with which copies are padded in it |
| DataSerializers.PayloadRoundTrip | ups-client/src/main/java/cz/sedivy/ups/networking/DataSerializer.java:55-86 | payloads of byte-sized numbers and short ASCII texts survive being written and read |
| DataSerializers.RefusedHow | ups-client/src/main/java/cz/sedivy/ups/networking/DataSerializer.java:49-51 | fields that cannot be read end as a wrong length, or as an illegal range only when a text claims a negative length |
| DataSerializers.PayloadRefusedHow | ups-client/src/main/java/cz/sedivy/ups/networking/DataSerializer.java:57-67 | a wrong number of values and a value of another class are told apart; a type without fields takes anything |
| DataSerializers.DataSerializer.BytesToPayload | ups-client/src/main/java/cz/sedivy/ups/networking/DataSerializer.java:25-53 | the loop with its early exits gives the fields, or the error of the first that cannot be read |
| DataSerializers.DataSerializer.PayloadToBytes | ups-client/src/main/java/cz/sedivy/ups/networking/DataSerializer.java:55-86 | the bytes of all fields in order, or the error of a wrong count or class |
| MessageSerializers.RunSumDecidesDivisibility | ups-client/src/main/java/cz/sedivy/ups/networking/MessageSerializer.java:42-53 | the truncating running remainder over signed bytes is zero if and only if their true sum is divisible by 128 |
| MessageSerializers.ChecksumFits | ups-client/src/main/java/cz/sedivy/ups/networking/MessageSerializer.java:119-135 | any bytes, negative ones included, followed by their checksum byte pass the check |
| MessageSerializers.OneChangedByte | ups-client/src/main/java/cz/sedivy/ups/networking/MessageSerializer.java:42-53 | a single changed byte goes unnoticed if and only if it has moved by 128 |
| MessageSerializers.SerializedPassesChecksum | ups-client/src/main/java/cz/sedivy/ups/networking/MessageSerializer.java:96-117 | every serialized packet passes the checksum |
| MessageSerializers.RoundTrip | ups-client/src/main/java/cz/sedivy/ups/networking/MessageSerializer.java:35-117 | a message with ASCII texts comes back unchanged from being serialized, checked and read if and only if nine bytes, four for each number and four plus its length for each text are at most 127, and every number is in -128..127 |
| MessageSerializers.WidthsAreLengths | ups-client/src/main/java/cz/sedivy/ups/networking/DataSerializer.java:55-86 | the payload takes as many bytes as can be counted before serializing it |
| MessageSerializers.WrittenAgain | ups-client/src/test/java/cz/sedivy/ups/test/tests/ParserTests.java:64-87 | an accepted packet with ASCII texts is reproduced byte for byte by reading and serializing it if and only if it is in canonical form |
| MessageSerializers.PartsAgree | ups-client/src/main/java/cz/sedivy/ups/networking/MessageSerializer.java:96-117 | a packet is what the serializer writes if and only if each of its parts is |
| MessageSerializers.MessageSerializer.CheckMessage | ups-client/src/main/java/cz/sedivy/ups/networking/MessageSerializer.java:35-40 | the first of the three checks that fails decides the error |
| MessageSerializers.MessageSerializer.CheckChecksum | ups-client/src/main/java/cz/sedivy/ups/networking/MessageSerializer.java:42-53 | fails exactly when the running remainder is not zero |
| MessageSerializers.MessageSerializer.CheckTotalSize | ups-client/src/main/java/cz/sedivy/ups/networking/MessageSerializer.java:55-62 | fails exactly when the lowest byte of the length field is not the length |
| MessageSerializers.MessageSerializer.CheckMinimalSize | ups-client/src/main/java/cz/sedivy/ups/networking/MessageSerializer.java:64-67 | fails exactly for fewer than nine bytes |
| MessageSerializers.MessageSerializer.InitMessage | ups-client/src/main/java/cz/sedivy/ups/networking/MessageSerializer.java:69-81 | header, length, checksum and payload bytes of a packet; too few bytes end in the error the array accesses raise |
| MessageSerializers.MessageSerializer.DeserializeMessage | ups-client/src/main/java/cz/sedivy/ups/networking/MessageSerializer.java:83-94 | type and payload, or an unknown header or unreadable payload with the message's payload as it was |
| MessageSerializers.MessageSerializer.SerializeMessage | ups-client/src/main/java/cz/sedivy/ups/networking/MessageSerializer.java:96-117 | header, total length, payload and checksum, or the payload's error |
| MessageSerializers.MessageSerializer.CountCheckSum | ups-client/src/main/java/cz/sedivy/ups/networking/MessageSerializer.java:119-135 | the three loops give the checksum byte of the three parts put together |
| MessageSerializers.MessageSerializer.constructor | ups-client/src/main/java/cz/sedivy/ups/networking/MessageSerializer.java:27-33 | the table built from the types has every type under its header and no other header |
| MessageSerializers.Receive | ups-client/src/test/java/cz/sedivy/ups/test/tests/ParserTests.java:66-69 | checking, taking apart and reading in a row give type and payload, or the first error |
| ParserVectors.PartsAreChecked | ups-client/src/main/java/cz/sedivy/ups/networking/MessageSerializer.java:35-67 | a packet of header, length, payload and checksum passes if and only if the length byte counts all bytes and they add up to a multiple of 128; payload and header are taken from where they stand |
| ParserVectors.TypesByNumber | ups-client/src/main/java/cz/sedivy/ups/networking/MessageType.java:4-9 | the six types by number, and their fields in order |
| ParserVectors.OkMessagesWithNumbers | ups-client/src/test/java/cz/sedivy/ups/test/tests/ParserTests.java:21-23 | the first three packets of the tests are read as their types and numbers |
| ParserVectors.OkMessagesWithTexts | ups-client/src/test/java/cz/sedivy/ups/test/tests/ParserTests.java:24-26 | the other three are read as their types, texts and numbers |
| ParserVectors.BadMessages | ups-client/src/test/java/cz/sedivy/ups/test/tests/ParserTests.java:30-36 | the short packet, the wrong length, the wrong checksum and the unknown header end in their errors |
| ParserVectors.BadPayloads | ups-client/src/test/java/cz/sedivy/ups/test/tests/ParserTests.java:38-40 | the texts that claim too much or too little are refused as wrong lengths |
| ParserVectors.EmptyMessageIsWritten | ups-client/src/test/java/cz/sedivy/ups/test/tests/ParserTests.java:53-62 | the empty message, byte by byte |
| ParserVectors.TextAndNumberAreWritten | ups-client/src/test/java/cz/sedivy/ups/test/tests/ParserTests.java:65-87 | a message with a text and a number, byte by byte |
| ParserVectors.MessageIsWritten | ups-client/src/main/java/cz/sedivy/ups/networking/MessageSerializer.java:96-117 | a message is written as type number, length, fields, and the byte missing to the next multiple of 128 |
| JavaBase.RemIsRemainder | ups-client/src/main/java/cz/sedivy/ups/networking/MessageSerializer.java:45 | the remainder is smaller than the divisor and never of the other sign than the dividend |
| JavaBase.CastKeepsLowestByte | ups-client/src/main/java/cz/sedivy/ups/networking/MessageSerializer.java:133 | a cast to a byte keeps the lowest byte |
| ConcurrentQueues.ConcurrentQueue.Push | UPSServer/datatypes/ConcurrentQueue.cpp:75-80 | one more item at the end |
| ConcurrentQueues.ConcurrentQueue.Pop | UPSServer/datatypes/ConcurrentQueue.cpp:82-90 | the first item and the queue without it |
| ConcurrentQueues.ConcurrentQueue.Empty | UPSServer/datatypes/ConcurrentQueue.cpp:39-46 | whether there is an item |
| Pipelines.StepKeeps | UPSServer/network/PacketManager.cpp:29-52 | every step of every thread keeps what is conserved, and what a consumer has seen is still there when it pops |
| Pipelines.Conservation | UPSServer/network/CommandManager.cpp:349-401 | under every interleaving the client commands handled, in hand and queued, then the packets in hand and queued, decoded, are together the in-order decoding of all packets received, those with unknown headers dropped; no consumer pops an empty queue |
| Pipelines.QuietMeansAllHandled | UPSServer/network/CommandManager.cpp:349-396 | with both queues empty and both threads looking, exactly what was received has been handled, in order |
| Pipelines.MessagesArriveInOrder | UPSServer/network/Server.cpp:149-159 | with the codec: messages written as packets are then handled exactly once each, in the order received |
| Pipelines.NoForgedNotice | UPSServer/network/CommandManager.cpp:387-389 | no packet can pass for the server's own notice of a lost player |
| Services.NextKeeps | UPSServer/network/PacketManager.cpp:29-52 | a step of any thread, together with what it does to the lobby (an unreadable packet counted when it is refused, a command served when it is handled, connections at once), keeps threads and lobby in agreement |
| Services.EveryInterleaving | UPSServer/network/CommandManager.cpp:346-401 | under every interleaving the lobby is what connections and handled commands have made of the empty one, in the order handled; these commands and those on their way are the in-order decoding of all packets received; every unreadable packet is counted against its sender once, in order; and the lobby is reachable by permitted commands, so it is consistent and without loops on registered boards |
| Threads.Server.ProcessData | UPSServer/network/Server.cpp:149-159 | a received packet is queued: one step of the receiving thread |
| Threads.Server.PacketManagerPops | UPSServer/network/PacketManager.cpp:30-31 | after a non-empty look the pop finds a packet |
| Threads.Server.PacketManagerForwards | UPSServer/network/PacketManager.cpp:33-48 | a readable packet becomes one command, an unreadable one none and is counted for its socket |
| Threads.Server.CommandManagerPops | UPSServer/network/CommandManager.cpp:350-351 | after a non-empty look the pop finds a command |
| Threads.Server.RegisterLoss | UPSServer/network/Server.cpp:88-90 | the notice of a lost player is queued behind all commands before it |

## Left out

- Sockets, `select`, keep-alive, closing, the sending thread, sleeping and the start of threads: foreign input and output. A packet received is bytes with a socket number; a reply is an entry in a log (`sent`), with the socket it goes to.
- Framing over TCP: one read is one whole packet, as the server takes it. `Serializers.Whole` is a precondition of reading; what the C++ code does beyond the end of a short packet is not modelled.
- Memory management: payload entries are a datatype, and deleted messages and packets are not modelled. Records erased from the vectors live on, as they do in the server, which never frees them.
- Moves off the board, unknown tiles, unmatched colours, and commands that break the protocol: see the guards above. Payloads that do not fit their format are excluded from `Serialize`, where the server logs an error and goes on.
- Overflow of game ids and of the unreadable-packet counter: both are unbounded. That the system may reuse a socket number before the server has noticed the loss of the old connection is excluded by the guard on new connections.
- Registries.Registry: the addresses of new objects are parameters that have not been used before; aliasing of players and games is modelled, allocation is not.
- Threads.Server.PacketManagerForwards: the step of the packet thread alone; the sender's lookup and what an unreadable packet does to the lobby are in `Service.dfy` and `Lobby.Garbage`.
- Threads.Server: handlers are one step each, and the two threads that write player records do not interleave within a handler. `Threads.Server` counts unreadable packets per socket.
- Services.EveryInterleaving: a command carries the socket it came in on and the sender is looked up when it is handled; the server looks up when the packet is forwarded and stores the pointer in the command, so a sender who leaves between the two is not modelled. The loss of a connection in a game is noticed when its command is handled.
- CommandManagers.CommandManager.ProceedDisconnection: the loss of a connection in a game and the handling of the internal command are one step, so no other command comes between them.
- Games.Game.constructor: takes the two players, which the server sets right after construction.
- Lobby texts are characters, payload texts of the C++ codec are bytes, and `Replies` relates those texts whose characters are bytes; that the names in a lobby are such texts is not carried through the lobby's invariant. The Java codec is over a character set given as two functions; its theorems assume it agrees with ASCII, and numbers keep only their lowest byte, as the code does with a note that it is unfinished.
- DataSerializers.DataSerializer.PayloadToBytes: declared classes other than `Integer` and `String` do not occur in any message type and are not modelled.
- Interoperability of server and client: headers and checksum conventions differ.
- That a player eventually becomes available: limbo exists, see `LobbyLimbo`.
- LobbyLimbo.LimboIsForever: says nothing of a player after leaving the register.
- Logging, options, `main.cpp`, the user interface, `NetworkManager`, `TCPClient`, plain getters and setters.
