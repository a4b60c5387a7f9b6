# Verified model of the convoy backend

The backend keeps convoy rooms: members share a destination, stops, chat and live
locations. This project models its three stateful parts in Dafny and proves what holds of
every run of them.

* **The realtime hub.** `ClientModel` is one websocket client: a 32-slot queue, a one-shot
  close and a write pump. `HubModel` is the hub over all sockets, one step per critical
  section, in any interleaving. `HubInvariants`, `LiveState`, `Replica` and `Terminal`
  hold the theorems. `JoinRace` goes below that grain, to the two locks a join takes, and
  `LockLevel` carries the theorems down to it. `Announcements` says what each frame of a
  client and each hub call does, socket by socket.
* **The tables.** `Tables` gives each request as a transition of the rooms, members, users,
  stops, markers and messages. `TableInvariants`, `RoomTheorems`, `Roster`, `Places`, `Stops`
  and `Pagination` prove what every serial run of requests keeps and what it refines;
  `StoppedDeletes` adds the admin's delete that stops half way, and `RowEffects` says what requests
  do to single columns and what they answer.
* **Both together.** `World` runs requests, their hub calls, the checks and joins of websocket
  handlers and all other hub steps side by side, in any order. `OpenSockets` says what opens
  and closes a socket, `Belonging` and `Standing` who belongs in a room after a run.
* **Failures.** `FailingRuns` holds runs from empty tables on which the code does not keep what
  it means to keep; each lies inside a condition that another lemma states exactly.
* **Push.** `Push` is the batching client and the broadcast that prunes and records.

The code works by changing things in place, so the model has an imperative layer as well.
`RealtimeImpl.Client`, `HubImpl.Hub`, `RoomStore.Store`, `RoomService.Service`,
`Push.Broadcaster` and `Server.Server` are classes whose methods follow the code's
statements and loops. Each is proved to do exactly what the state machines say. The
`Server` object carries a ghost list of events, and its invariant says that its tables and
hub are those of the `World` run over these events, so every theorem about runs is a
theorem about the objects.

## How the model reads the code

* Requests are serial. `requireOwner` runs outside the transaction of a transfer
  (`internal/rooms/service.go:387`, `internal/rooms/store.go:386`), so single ownership is a
  property of serial requests.
* In `HubModel` looking a room up and locking it is one step, as is each locked section.
  `leave` is two steps, because its re-check exists for what happens in between. In `JoinRace`
  the lookups are steps of their own; `LockLevel` shows that every such run in which no join
  inserts into a dropped object is matched by a run of `HubModel`.
* A connect (join, snapshot, announce), a disconnect (leave, announce) and an emergency
  (set, broadcast) are single actions for `Replica` only. Everything else about the hub is
  proved for arbitrary interleavings of the steps, with writes, pings and single enqueues
  between any two of them.
* In `World` a request commits to the tables, and each of its hub calls is a later event of
  its own. The websocket handler's three checks and its join are four events. One hub call, such
  as a kick with its broadcast, is one event.
* A hard delete enforces the references to `users` in the order in which the migrations declare
  them, and what a cascade cascades to comes after all of these; this is how PostgreSQL queues
  the triggers of one statement. So the rooms of the user are gone when `rooms.dest_set_by` is
  checked, but the stops of these rooms are still there when `room_stops.created_by` is.
* Timestamps, new identifiers, drawn room codes, and the outcome of socket writes, pings and
  HTTP posts are inputs. Coordinates are reals; JSON has no NaN. Identifiers are naturals,
  which gives the cursor its total order. Chat bodies, names and labels are taken as they
  are after trimming.
* The service always has a hub.

Where the code does not do what its comments say or its design means, the model follows the code:

* `userHardDelete` is said to cascade through every related row
  (`internal/admin/users.go:81-83`). The references `rooms.dest_set_by` and
  `room_stops.created_by` have no cascade (`internal/db/migrations/0003_room_destination.sql:5`,
  `internal/db/migrations/0008_room_stops.sql:12`), so the delete can be refused:
  `RoomTheorems.HardDeleteErases` says exactly when, and
  `FailingRuns.HardDeleteRefusedByDestination` and `FailingRuns.HardDeleteRefusedByOwnStop` are
  such runs.
* The admin's soft delete is called the equivalent of the in-app one, but its three updates
  are not a transaction. `RoomTheorems.AdminDeleteStopped` says exactly when stopping half
  way leaves a deleted account in a room; `FailingRuns.DeleteStoppedHalfway` is such a run, and
  `StoppedDeletes.RepeatedDeleteRestores` says how it ends.
* Deleting an account does not call the hub: `Standing.DeletionSafeIff`, and the run
  `FailingRuns.DeletedUserStaysConnected`.
* The websocket handler joins the hub without looking again at what it has checked, so a kick,
  a leave or the end of the room in between leaves the socket open:
  `FailingRuns.KickBetweenChecksAndJoin` is the run, `Standing.LateJoinExactly` the exact condition.
* A superseded socket's read loop may still handle a frame after its successor has left, and
  then writes live state for an absent user: `LiveState.SupersededSocketBreaksIt`; the exact
  condition is `LiveState.StepFollowsIff`.
* A sweep between the two locks of a join strands the joining client:
  `JoinRace.SweepBetweenStrands`; the exact condition is `JoinRace.ClientsReachableIff`.
* A push reply with a success status but fewer tickets than messages, such as `{}` or
  `{"data":[]}`, leaves recipients counted neither as delivered nor as failed
  (`internal/push/expo.go:97-104`): `Push.RecipientsLost`; the exact condition is
  `Push.ConservedIff`. Request-level errors, a status of 400 or more or a body with `errors`, are
  errors of the post (`internal/push/expo.go:151-161`) and count as failed.
* A cursor whose message has been hard deleted ends the history early:
  `Pagination.SurvivorsSelectedIff`, and the run `FailingRuns.CursorLost`.

## Model

| member | source | states |
|---|---|---|
| ClientModel.LosslessUntilClosed | internal/realtime/client.go:43-125 | over every interleaving of enqueue, close, take, write result, ping and cancel the queue holds at most 32 frames; delivered, in flight and queued frames together are the accepted ones in order; until the close they are all frames addressed, and any lost frame implies that the client is closed |
| ClientModel.EnqueueTakes | internal/realtime/client.go:18-51 | a frame is taken while fewer than 32 are queued and then changes nothing else; with 32 queued it is dropped and the client closed with the reason "send buffer full" |
| ClientModel.StepClosesIff | internal/realtime/client.go:43-112 | exactly what closes an open client, a close, a frame for a full queue, a failed write or a failed ping, and the reason each gives |
| ClientModel.OpenWhileItKeepsUp | internal/realtime/client.go:18-51 | a fresh client that nobody closes and whose writes and pings succeed stays open if and only if it never has more than 32 frames waiting |
| ClientModel.StepKeeps | internal/realtime/client.go:43-125 | each event of a client keeps the queue invariant |
| ClientModel.RunExtends | internal/realtime/client.go:56-61 | close is one-shot: the first reason stays; histories only grow, and a stopped pump writes nothing more |
| ClientModel.AcceptedBeforeDrainIsDelivered | internal/realtime/client.go:81-125 | whatever was accepted while the pump was alive is delivered, in order, when it has drained |
| ClientModel.TerminalFrameArrives | internal/realtime/client.go:53-125 | a frame that found room in the queue, then any events, then a close, then any events: once drained the frame is delivered right behind everything accepted before it |
| ClientModel.HealthyRunDrains | internal/realtime/client.go:67-125 | with no failing write or ping and no cancellation, a pump that stops has drained |
| ClientModel.WritesAreBounded | internal/realtime/client.go:114-125 | without new enqueues a client makes at most one write per frame it holds, at most 32 from the queue and one in flight |
| ClientModel.DrainMakesProgress | internal/realtime/client.go:114-125 | a draining pump with succeeding writes always has an event to make, every event that changes it brings the end closer, and it ends with everything accepted delivered |
| RealtimeImpl.Client.Close | internal/realtime/client.go:56-61 | the object's close is the model's, first reason kept |
| RealtimeImpl.Client.Enqueue | internal/realtime/client.go:43-51 | the object's enqueue is the model's: with fewer than 32 frames queued it appends and changes nothing else, with 32 it drops the frame and closes |
| RealtimeImpl.Client.WriteNext | internal/realtime/client.go:103-112 | takes the oldest frame and writes it while others enqueue and close; a failure closes and stops the pump |
| RealtimeImpl.Client.DrainSend | internal/realtime/client.go:114-125 | the drain loop, with others using the client during each write, performs exactly the drain events and stops |
| RealtimeImpl.DrainDelivers | internal/realtime/client.go:114-125 | however others use the client meanwhile, the drain loop stops, has drained exactly if none of its writes failed, and has then delivered every frame accepted by that time, in order |
| RealtimeImpl.QuietDrainIsBounded | internal/realtime/client.go:114-125 | with nobody else enqueuing it makes at most one write per queued frame, 32 in all, a last one that fails included, and drains if and only if all of these succeed |
| RealtimeImpl.Client.Select | internal/realtime/client.go:78-99 | one turn of the pump's select is the given run of client events, and it returns exactly when the pump has stopped |
| RealtimeImpl.Client.WritePump | internal/realtime/client.go:67-101 | the pump over any choices of its select, with others enqueuing and closing between and during writes, is a run of the client's state machine and keeps the queue lossless |
| HubInvariants.StepKeeps | internal/realtime/hub.go:46-268 | every step keeps: latest socket wins, rooms held by unfinished sockets, alternating presence, lossless clients |
| HubInvariants.LatestConnectionWins | internal/realtime/hub.go:67-105 | after every run a room's entry for a user is a socket exactly if that socket is the newest to have joined there as that user and has not left |
| HubInvariants.AtMostOneOpen | internal/realtime/hub.go:67-79 | after every run at most one socket of a user in a room is open |
| HubInvariants.SupersededLeaveEvictsNobody | internal/realtime/hub.go:88-121 | neither half of a superseded socket's leave removes an entry or reports a transition |
| HubInvariants.SweepNeverDropsClients | internal/realtime/hub.go:106-119 | after every run the newest socket that has not left is registered, and stays so, its room in the hub, through any sweep |
| HubInvariants.FinishedRoomIsCollected | internal/realtime/hub.go:46-121 | after every run each room of the hub has a socket that has not finished leaving; once all have, the room is gone, although location, emergency and snapshot steps can bring it back |
| HubInvariants.TransitionsAlternate | internal/realtime/hub.go:67-105 | the true results of join and leave for a user in a room strictly alternate starting with join, and the user is present exactly when joins exceed leaves by one |
| HubInvariants.HubClientsLossless | internal/realtime/hub.go:245-268 | in every hub run every client is a lossless bounded queue until it is closed |
| LiveState.StepFollowsIff | internal/realtime/hub.go:126-202 | a step keeps locations and emergencies within the present users if and only if it is not a location or raised emergency of an absent user |
| LiveState.LiveStateFollows | internal/realtime/hub.go:88-140 | on every run in which superseded sockets handle no location and raise no emergency, the location and emergency keys are among the present users |
| LiveState.RunFollows | internal/realtime/hub.go:88-140 | the same on runs in which every such frame is of a user present at the time |
| LiveState.CurrentSocketIsPresent | internal/realtime/client.go:149-182 | a frame handled by a socket nobody superseded is of a present user |
| LiveState.SupersededSocketBreaksIt | internal/realtime/client.go:149-165 | a concrete run: join twice, the second socket leaves, the first handles one more location; live state then names an absent user |
| LiveState.LeaveClearsLiveState | internal/realtime/hub.go:88-105 | a leave that removes a user drops their location and emergency and nobody else's, and reports a cleared emergency exactly when a flag was dropped |
| Replica.SnapshotPlusDeltas | internal/realtime/handler.go:76-111 | after every run of actions, folding the frames a current open socket was sent and has queued over its snapshot gives exactly the hub's present set, emergency set and other users' locations |
| Replica.ConnectKeepsSync | internal/realtime/handler.go:76-88 | a connect keeps every replica in sync: the newcomer by its snapshot, the others by the announcement |
| Replica.DisconnectKeepsSync | internal/realtime/handler.go:95-111 | a disconnect keeps every other replica in sync through the emergency and absence frames |
| Replica.EmergencyKeepsSync | internal/realtime/client.go:167-182 | an emergency frame keeps every replica in sync; a repeated one sends nothing |
| Replica.LocationKeepsSync | internal/realtime/client.go:149-165 | a location keeps every replica but the sender's in sync about where its sender is |
| Replica.ActionIsRun | internal/realtime/handler.go:76-111 | an action's closed form is the run of its planned hub steps, so everything proved of hub runs holds of actions |
| Terminal.RunProjects | internal/realtime/hub.go:245-392 | what a hub run does to one client is a run of that client |
| Terminal.KickedFrameArrives | internal/realtime/hub.go:321-342 | a kick that finds the pump alive and room in the queue queues the frame and closes; on every later hub run that drains the client the frame is delivered right behind everything queued before |
| Terminal.RoomEndedFrameArrives | internal/realtime/hub.go:372-392 | the same for every socket of a room that ends |
| Terminal.KickedFrameReaches | internal/realtime/hub.go:321-342 | after such a kick, on every later hub run on which the target's writes and pings succeed and its request is not cancelled, the frame has arrived once the pump has stopped |
| Terminal.RoomEndedFrameReaches | internal/realtime/hub.go:372-392 | the same for every socket of a room that ends |
| JoinRace.StepKeeps | internal/realtime/hub.go:46-121 | with lookups and locked sections as separate steps on room objects, a step leaves all clients where the hub finds them if and only if they were and it is not an insert into an object dropped since the lookup |
| JoinRace.ClientsReachableIff | internal/realtime/hub.go:46-121 | over every interleaving all held clients are reachable from the hub if and only if no join inserted into an object dropped since its lookup; a stranded one is never repaired |
| JoinRace.AtomicJoinIsFresh | internal/realtime/hub.go:67-69 | a join whose two halves are not separated never inserts into a dropped object |
| JoinRace.SweepBetweenStrands | internal/realtime/hub.go:67-119 | the concrete interleaving in which a sweep falls between the lookup and the insert of a join and strands the client |
| LockLevel.RunSims | internal/realtime/hub.go:46-121 | every run of lookups and locked sections without a stale insert is matched by a run of HubModel with the same sockets, the same clients in every room and the same transitions |
| LockLevel.LatestWins | internal/realtime/hub.go:46-105 | on every such run the socket the hub finds for a user in a room is the newest that joined there as that user, if that has not been removed, and there is none otherwise |
| LockLevel.TransitionsAlternate | internal/realtime/hub.go:46-105 | on every such run the true results of join and leave alternate starting with join, and the hub finds the user exactly when joins exceed leaves by one |
| LockLevel.FinishedRoomIsCollected | internal/realtime/hub.go:46-121 | on every such run, once all joins of a room have inserted and all its sockets have finished leaving, the hub has no entry for it, although late lookups can bring it back |
| HubImpl.Targets | internal/realtime/hub.go:251-262 | the loop collects exactly the room's clients except the excluded user, each once |
| HubImpl.EnqueueAll | internal/realtime/hub.go:264-267 | the loop enqueues the frame on every target |
| HubImpl.CloseAll | internal/realtime/hub.go:388-391 | the loop closes every target |
| HubImpl.Hub.Join | internal/realtime/hub.go:67-79 | the object's join is the model's and reports whether the user was absent |
| HubImpl.Hub.LeaveRemove | internal/realtime/hub.go:88-104 | the first half of leave is the model's, with its two results and whether the room is empty |
| HubImpl.Hub.LeaveSweep | internal/realtime/hub.go:106-119 | the second half is the model's: only a room still empty is deleted |
| HubImpl.Hub.Leave | internal/realtime/hub.go:88-121 | both halves in sequence, sweeping exactly when the room was seen empty |
| HubImpl.Hub.SetEmergency | internal/realtime/hub.go:126-140 | sets or clears the flag and reports exactly whether it changed |
| HubImpl.Hub.RecordLocation | internal/realtime/hub.go:197-202 | stores the user's location, creating the room if missing |
| HubImpl.Hub.Snapshot | internal/realtime/hub.go:217-241 | the frame shows the room's present users, emergencies and locations; the room is created if missing |
| HubImpl.Hub.Broadcast | internal/realtime/hub.go:245-268 | the frame is enqueued on every current socket of the room except the excluded user's and on no other |
| HubImpl.Hub.LeaveRoom | internal/realtime/hub.go:276-278 | broadcasts member_left, then disconnects the user: the leave action |
| HubImpl.Hub.DisconnectUser | internal/realtime/hub.go:304-315 | closes the user's current socket, if there is one, and no other |
| HubImpl.Hub.KickConnection | internal/realtime/hub.go:321-342 | tells the others, then queues the frame on the target and closes it |
| HubImpl.Hub.BroadcastRoomEnded | internal/realtime/hub.go:372-392 | queues the frame on every socket of the room, then closes them all |
| HubImpl.Connect | internal/realtime/handler.go:76-88 | join, snapshot if it could be read, announcement only on a transition: the connect action |
| HubImpl.Disconnect | internal/realtime/handler.go:95-111 | close, leave, the emergency cancelled before the absence is announced, nothing announced for a superseded socket: the disconnect action |
| HubImpl.HandleMessage | internal/realtime/client.go:138-187 | an emergency frame makes the user's flag what it says and tells the whole room if that changed; a location frame stores it and tells the others; a ping is answered to its sender alone with pong, anything else with an error, and no room changes |
| Announcements.MessageHandled | internal/realtime/client.go:138-187 | the same of the action of a frame, socket by socket and room by room |
| Announcements.ConnectSays | internal/realtime/handler.go:76-88 | a connect sends the newcomer the snapshot of the room it has joined and tells everybody else, and only them, about a user who was not there before |
| Announcements.DisconnectSays | internal/realtime/handler.go:91-111 | the end of the read loop closes the socket; if the user became absent, their emergency is called off for everybody and then everybody is told of the absence |
| Announcements.JoinReplaces | internal/realtime/hub.go:67-79 | a join closes the socket it replaces, with its reason, and no other; the newcomer is open and empty |
| Announcements.LeaveSays | internal/realtime/hub.go:276-315 | a leave tells everybody in the room, then closes the leaver's socket and no other |
| Announcements.KickSays | internal/realtime/hub.go:321-342 | a kick tells everybody else in the room; the target takes the same frame and is closed; nobody else changes |
| Announcements.EndSays | internal/realtime/hub.go:372-392 | the end of a room tells everybody in it and closes them; nobody else changes |
| Server.MembershipTells | internal/rooms/service.go:141-481 | who is told what by each membership request that goes through |
| Server.EditTells | internal/rooms/service.go:216-505 | who is told what by each edit that goes through: the whole room, except the author of a message; private markers are told to nobody |
| TableInvariants.HandleKeeps | internal/rooms/store.go:18-134 | every request keeps single ownership, kicked implies left, unique active codes, deleted accounts out, and the foreign keys |
| TableInvariants.HandleAllKeeps | internal/rooms/store.go:18-134 | so does every run of requests |
| TableInvariants.CreateKeeps | internal/rooms/service.go:122-139 | creating a room, whatever the draws, keeps all invariants |
| TableInvariants.JoinKeeps | internal/rooms/service.go:141-159 | joining or coming back keeps all invariants |
| TableInvariants.KickKeeps | internal/rooms/service.go:454-468 | a kick keeps all invariants; it can never reach the owner |
| TableInvariants.TransferKeeps | internal/rooms/service.go:386-411 | a transfer keeps exactly one owner, in the room's column and in the roles |
| TableInvariants.SoftDeletes | internal/auth/auth.go:482-500 | a deletion stamps the account, ends exactly the active rooms it owns and kicks it exactly where it had not left, and nothing else |
| TableInvariants.SoftDeleteKeeps | internal/auth/auth.go:469-506 | a deletion keeps all invariants |
| TableInvariants.SignInKeeps | internal/auth/auth.go:389-455 | a sign-in keeps all invariants; a deleted account is not revived |
| TableInvariants.RouteFrame | internal/rooms/service.go:216-379 | editing what a room shows touches no account, no membership and at most that room's row, which keeps owner, code and end time |
| RoomTheorems.OneOwner | internal/rooms/store.go:385-431 | after every run exactly one row of a room has the owner role, it is that of the owner column, and in a room that has not ended it is not kicked |
| RoomTheorems.OwnerRejoins | internal/rooms/service.go:141-159 | an owner who left an active room and joins by its code passes requireOwner again |
| RoomTheorems.CodeNamesOneRoom | internal/rooms/store.go:59-69 | lookup by code is a partial function: it answers a room exactly if that room is active and holds the code |
| RoomTheorems.MemberTestsAgree | internal/rooms/store.go:136-157 | after every run the users listed by left_at alone are exactly those who pass the test of ActiveMembership |
| RoomTheorems.DeletedStayOut | internal/auth/auth.go:256-288 | after every run a deleted user is listed nowhere and owns no active room, their requests are refused and a sign-in as them changes nothing |
| RoomTheorems.OnlyRestoreRevives | internal/admin/users.go:141-157 | no request but a restore clears a deleted account's mark |
| RoomTheorems.EndedIsFinal | internal/rooms/store.go:122-134 | nothing of an ended room's row changes in any later run without a hard delete |
| RoomTheorems.CreateAllOrNothing | internal/rooms/service.go:122-139 | create succeeds exactly with its first free draw and then adds one room and its owner row; otherwise it changes nothing |
| RowEffects.EightAttempts | internal/rooms/service.go:122-139 | create succeeds if and only if one of the first eight draws is free and all before it are taken |
| RowEffects.CreatedRow | internal/rooms/store.go:18-45 | the created room has the name, code, owner and time of its creation and no destination, and its owner is inside since then |
| RowEffects.EditReplies | internal/rooms/service.go:216-505 | an edit is answered by what it lacks first: a session, permission, a proper form (a name of 1 to 40 characters, a body of 1 to 2000, a point on the map), something to apply to, a free id |
| RowEffects.AddStopAppends | internal/rooms/service.go:292-305 | an addition that is answered with success appends the stop to the room's list |
| RowEffects.StepName | internal/rooms/service.go:363-379 | a room's name is the last one a successful rename set |
| RowEffects.StepMessage | internal/rooms/service.go:486-505 | a message is there as it was posted until a hard delete takes its author or its room's owner |
| RowEffects.MemberStamps | internal/rooms/store.go:72-120 | a member row keeps the time of the first join; a leave, a kick or a deletion stamps it with its own time, and only a return clears that |
| RowEffects.NewMemberRow | internal/rooms/store.go:72-81 | a new member row is the user's own, from their join or creation, at its time |
| RowEffects.StepKicked | internal/rooms/store.go:72-120 | a kick and a deletion set the kicked column of a row that has not left, the user's own join clears it, nothing else changes it |
| RowEffects.JoinOrderIsFixed | internal/rooms/store.go:151-157 | over every run without a hard delete the order in which members are listed never changes |
| RowEffects.RoomStamps | internal/rooms/store.go:122-134 | a room keeps its code and time of creation, and its end is the time of what ended it |
| RowEffects.UserStamps | internal/auth/auth.go:482-487 | an account's deletion is the time of the delete, and only a restore clears it |
| RowEffects.SignInEffect | internal/auth/auth.go:389-455 | a sign-in that goes through leads to the linked or a new live account with the email that came along, and touches nobody else |
| RowEffects.ErasedExactly | internal/admin/users.go:84-104 | exactly which rows of every table a hard delete leaves |
| RoomTheorems.AdminDeleteStopped | internal/admin/users.go:109-137 | stopped after some of its three updates, the admin's delete leaves deleted accounts out if and only if it had not begun, there is no such account, or the missing updates had nothing to do |
| StoppedDeletes.CoreSurvives | internal/admin/users.go:109-137 | over every run of requests and deletes stopped anywhere, single ownership, owners not kicked, kicked implies left, unique active codes and the foreign keys hold |
| StoppedDeletes.RepeatedDeleteRestores | internal/admin/users.go:109-137 | a delete that goes through puts the account out whatever stopped before, and it stays out until a delete of it stops short again |
| StoppedDeletes.NeverStoppedIsOut | internal/admin/users.go:109-157 | on every run an account of which no delete stopped short is out whenever it is deleted, wherever deletes of others stopped |
| RoomTheorems.HardDeleteErases | internal/admin/users.go:84-104 | a hard delete goes through if and only if no room of somebody else shows a destination the user set and no stop anywhere was added by them; it then leaves no trace of the account, and otherwise changes nothing |
| Roster.RunFromNothing | internal/rooms/service.go:122-481 | membership refines a plain roster: after every run of requests the live accounts, the rooms with code, owner and end, and the set of users inside are exactly those of a machine with enter, exit, end, hand over and expel |
| Roster.MembershipRefines | internal/rooms/service.go:122-481 | each membership request does what the roster says and gives the reply it says, creation within its eight attempts |
| Roster.TestsAgree | internal/rooms/service.go:424-436 | the code's tests on roles, left_at and kicked are the roster's: inside, owner and inside, open, live |
| Roster.CreateRefines | internal/rooms/service.go:122-139 | the retry loop founds a room with the first draw whose id is new and whose code no open room holds |
| Roster.JoinRefines | internal/rooms/service.go:141-159 | joining puts the user inside the one open room with the code, whether new, left or kicked before |
| Roster.LeaveRefines | internal/rooms/store.go:83-90 | after leaving the user is not inside; nothing else changes |
| Roster.KickRefines | internal/rooms/service.go:454-468 | the owner inside the room puts another user inside it out, and nobody else can |
| Roster.EndRefines | internal/rooms/service.go:470-481 | the owner inside an open room ends it, and nobody else can |
| Roster.TransferRefines | internal/rooms/service.go:386-411 | the owner inside an open room hands it to another user inside it; who is inside does not change |
| Roster.ExpelRefines | internal/auth/auth.go:482-500 | a deleted user is out of everywhere and the rooms they own are over; nothing else changes |
| Roster.AccountRefines | internal/admin/users.go:84-157 | guest, sign-in, both deletions and restore do to the roster what the plain machine says and reply as it does; a hard delete erases exactly if nothing without a cascade refers to the user |
| Stops.StepRefines | internal/rooms/store.go:297-379 | each table operation is the list operation in its room and leaves the other rooms' lists alone |
| Stops.RunRefines | internal/rooms/store.go:297-379 | after every run, over many rooms, each room's rows in order of position are the plain list with append, relabel, delete and clear; positions strictly increase even when the largest was freed and reused |
| Stops.CanAddIff | internal/rooms/store.go:321-337 | an addition goes through exactly if the id is new and every position of the room is below 2^31 - 1 |
| Stops.RunRefinesPlain | internal/rooms/store.go:297-379 | from an empty table, on every run of at most 2^31 additions, each room's rows are the list of a plain machine that appends exactly if the id is in no list |
| Stops.ListingIsRoute | internal/rooms/store.go:299-319 | the ordered listing of a room has exactly one answer, the plain list; the tie-break never matters |
| Places.StopsAreLists | internal/rooms/service.go:250-345 | after every run of requests, listing a room's stops gives exactly the list that the run's accepted edits build |
| Places.StopsArePlainLists | internal/rooms/service.go:250-345 | after every run of requests with at most 2^31 additions, listing a room's stops gives the list of that plain machine: an addition that passes the checks is refused only for an id already in a list |
| Places.StepDest | internal/rooms/store.go:175-249 | every request does to the six destination columns what it does to one optional destination |
| Places.DestinationRefines | internal/rooms/store.go:175-249 | over every run of a room's life what a read shows is the optional destination the requests build: the name and notes a clear leaves behind never show |
| Places.PlacesOnTheMap | internal/rooms/service.go:216-305 | after every run the pin, its time and its setter are set together or not at all, and every destination, stop and private marker, the copy made on transfer included, is within bounds |
| Places.StepMarker | internal/rooms/service.go:272-288 | private markers: each request changes a user's marker in a room only as that user's own edit or transfer says, a hard delete aside |
| Pagination.PageUnique | internal/rooms/store.go:498-531 | the page query has exactly one answer |
| Pagination.ListMessages | internal/rooms/store.go:503-531 | the lines of the room whose (created_at, id) is below the cursor's, the newest ones as far as the limit allows, strictly by time and then by id; no line left out is newer than one on the page, and lines are left out only when it is full |
| Pagination.GrowingHistory | internal/rooms/store.go:498-531 | with messages inserted between fetches, reading to a short page gives every message present at the first fetch exactly once, no message twice, strictly by time and then by id |
| Pagination.FixedHistory | internal/rooms/store.go:498-531 | on a fixed history a walk of full pages is no longer than N / limit pages, so it ends, and a finished one has read exactly the room's messages |
| Pagination.RequestsOnlyAdd | internal/rooms/store.go:480-496 | every run of requests without a hard delete only adds messages |
| Pagination.SurvivorsSelectedIff | internal/rooms/store.go:512-513 | when rows are deleted between fetches, the survivors below the cursor are still selected if and only if the cursor's row survives or there are none |
| Pagination.PageSize | internal/rooms/service.go:514-516 | the limit is kept within 1..100 and otherwise becomes 50 |
| Pagination.ReadBack | internal/rooms/store.go:498-502 | following the last id of each page from no cursor ends and yields the whole history, strictly by time and then by id, newest first |
| Belonging.NextOk | internal/rooms/service.go:413-481 | every event keeps what a handler has checked, and once it has joined, that its open socket belongs, unless it is one that undoes what was checked: before the membership check the end of the room, before the join anything that puts the user out, after it a deletion |
| Belonging.OpenSocketsBelong | internal/realtime/handler.go:42-77 | on every run, in every interleaving of commits, hub calls, checks, joins and hub steps, each registered open socket came from a handler and belongs to an active, non-kicked member of a room that has not ended, or the call that closes it is on its way, unless the room ended, the user left or was kicked between the handler's checks and its join, or a deletion took effect on the account of the user or of the room's owner since |
| Belonging.OpenSocketsBelongUndisturbed | internal/realtime/handler.go:42-77 | so on every run in which that happens to no handler, once the calls owed are made, every registered open socket belongs |
| Standing.DeletionSafeIff | internal/auth/auth.go:469-506 | no deletion, hard ones included, touches a socket or owes a call; whoever might be in a room before may be there after if and only if the deletion does not take effect on their account or the room owner's |
| Standing.LateJoinExactly | internal/realtime/handler.go:56-77 | a handler that joins opens its socket whatever has happened since its checks; over every run in between, the socket belongs if and only if the requests of that run leave its user standing in the room, or a call that closes it is on its way |
| Standing.StaysIff | internal/rooms/service.go:413-481 | whoever may be in a room stays if and only if the request is not their leave or kick, the end of the room, or a deletion that takes effect on their account or the owner's |
| Standing.ReturnsIff | internal/rooms/service.go:122-159 | whoever may not be in a room is let in if and only if the request is their own join by its code or their own creation of it |
| Standing.StandsExactly | internal/rooms/service.go:122-481 | over every run, who may be in a room is exactly who the run's requests leave standing there |
| Standing.OpenSocketsBelongIff | internal/realtime/handler.go:42-77 | after every run an open registered socket belongs if and only if the run's requests leave its user standing in its room, or the call that closes it is on its way |
| OpenSockets.KickOpens | internal/realtime/hub.go:321-342 | after a kick no open registered socket is the target's in the room, and no socket was opened |
| OpenSockets.EndOpens | internal/realtime/hub.go:372-392 | after a room ended no open registered socket is in it, and no socket was opened |
| OpenSockets.LeaveRoomOpens | internal/realtime/hub.go:304-315 | after a leave no open registered socket is the user's in the room, and no socket was opened |
| OpenSockets.StepOpens | internal/realtime/hub.go:67-268 | no step of the hub but a join opens a socket or makes one current again |
| FailingRuns.KickBetweenChecksAndJoin | internal/realtime/handler.go:56-77 | the run: a handler checks, the owner kicks its user, the hub finds nobody, the handler joins; a kicked user's socket is open and no call is on its way |
| FailingRuns.DeletedUserStaysConnected | internal/auth/auth.go:469-506 | the run: a connected user deletes the account; the socket stays open, its user is in the room no more and no call is on its way |
| FailingRuns.DeleteStoppedHalfway | internal/admin/users.go:118-135 | the run: the admin's delete of a room owner stops after its first update; a deleted account owns an active room and is in it |
| FailingRuns.HardDeleteRefusedByDestination | internal/admin/users.go:93-96 | the run: an owner sets a destination and hands the room over; their hard delete is refused |
| FailingRuns.HardDeleteRefusedByOwnStop | internal/admin/users.go:93-96 | the run: an owner adds a stop in their own room; their hard delete is refused |
| FailingRuns.CursorLost | internal/rooms/store.go:510-514 | the run: the cursor's author is hard-deleted between two pages; the second page is empty although an older line is still there |
| RoomStore.Store.CreateRoom | internal/rooms/store.go:18-45 | the transaction adds the room and its owner row or, on a collision or a missing owner, nothing |
| RoomStore.Store.GetActiveByCode | internal/rooms/store.go:59-69 | answers an active room with the code exactly if there is one |
| RoomStore.Store.UpsertMember | internal/rooms/store.go:72-81 | adds the member or clears left_at and kicked, keeping the role |
| RoomStore.Store.MarkLeft | internal/rooms/store.go:83-90 | stamps only a row that has not left |
| RoomStore.Store.ActiveMembership | internal/rooms/store.go:434-444 | the role, exactly for an active, non-kicked member |
| RoomStore.Store.TransferOwnership | internal/rooms/store.go:385-431 | moves the owner column and the roles, or changes nothing if the target is not active or the room has ended |
| RoomStore.Store.ListMembers | internal/rooms/store.go:151-173 | the loop collects exactly the users who have not left, each once, in the order in which they first joined |
| RoomStore.NextPosition | internal/rooms/store.go:323-333 | the aggregate is one past the largest position of the room, 0 for the first |
| RoomStore.Store.AddStop | internal/rooms/store.go:323-337 | goes through exactly if the id is new and every position of the room is below 2^31 - 1, and then appends one past the largest |
| RoomStore.Store.ListStops | internal/rooms/store.go:299-319 | the room's rows, each once, by position and then by time |
| RoomStore.Store.UpdateStopLabel | internal/rooms/store.go:364-379 | retitles only a stop of that room |
| RoomStore.Store.RemoveStop | internal/rooms/store.go:348-359 | deletes only a stop of that room |
| RoomStore.Store.ClearStops | internal/rooms/store.go:341-344 | drops exactly the room's stops |
| RoomStore.Store.ListMessages | internal/rooms/store.go:503-531 | the page of the stored messages |
| RoomStore.Store.SoftDelete | internal/admin/users.go:109-137 | the three updates in order; stopped half way it leaves the first ones, or nothing in a transaction |
| RoomStore.Store.UpsertOAuthUser | internal/auth/auth.go:389-455 | find or create; reading back a deleted account undoes everything |
| RoomStore.Store.Restore | internal/admin/users.go:141-157 | clears the account's deletion mark |
| RoomStore.Store.HardDelete | internal/admin/users.go:84-104 | the cascade, table by table, or nothing when a reference without cascade refuses it |
| RoomService.Service.RequireOwner | internal/rooms/service.go:424-436 | holds exactly for an active member with the owner role |
| RoomService.Service.Create | internal/rooms/service.go:122-139 | the retry loop: what creation over the first 8 draws does |
| RoomService.Service.Join | internal/rooms/service.go:141-159 | the join transition, and member_joined to the room the code names |
| RoomService.Service.Leave | internal/rooms/service.go:413-422 | the leave transition, then member_left and the disconnect |
| RoomService.Service.Kick | internal/rooms/service.go:454-468 | the kick transition, and the hub's kick exactly when it went through |
| RoomService.Service.End | internal/rooms/service.go:470-481 | the end transition, and room_ended exactly when it went through |
| RoomService.Service.TransferOwnership | internal/rooms/service.go:386-411 | the transfer with its copy of the destination, and owner_changed exactly when it went through |
| RoomService.Service.ListMessages | internal/rooms/service.go:510-518 | a page for active members only, its limit brought into 1..100 |
| RoomService.Service.Edit | internal/rooms/service.go:216-379 | each edit of what a room shows has the effect and reply of its request, and is broadcast exactly when it went through |
| Server.Server.ServeMembership | internal/auth/auth.go:269-288 | the session check, the handler and its hub calls: the state stays that of the World run, longer by the request and its calls, and the reply is the model's |
| Server.Server.ServeRoute | internal/auth/auth.go:269-288 | the same for edits of what a room shows |
| Server.Server.ServeAccount | internal/admin/users.go:84-157 | the same for sign-in and the dashboard |
| Server.Server.Arrive | internal/realtime/handler.go:42-54 | the first check passes exactly for a room that is there and has not ended |
| Server.Server.CheckMember | internal/realtime/handler.go:56-60 | the second passes exactly for an active member |
| Server.Server.LoadUser | internal/realtime/handler.go:63-67 | the third passes exactly for a live account |
| Server.Server.Enter | internal/realtime/handler.go:76-88 | a handler past its checks joins, sends the snapshot and announces, whatever has happened since; the state stays that of a World run |
| Server.Server.Receive | internal/realtime/client.go:138-187 | a frame of the read loop has the effect just described and keeps the state that of a World run |
| Server.Server.Write | internal/realtime/client.go:78-99 | a turn of a socket's writer keeps the state that of a World run |
| Server.Server.Hangup | internal/realtime/handler.go:91-111 | so does the end of the read loop |
| Server.Server.SocketsBelong | internal/realtime/handler.go:42-77 | in every state of the server object an open socket the hub holds came from a handler and is an active member's of a room that has not ended, unless what the handler had checked was undone before its join, or an account was deleted since |
| Push.Tally | internal/push/expo.go:97-121 | the ticket loop adds exactly the accepted, the failed and the dead of the batch |
| Push.Send | internal/push/expo.go:69-124 | the posted batches are consecutive, of size 1..100, all of 100 but perhaps the last, and concatenate to the token list; delivered is the number of tickets with status ok, failed that of the other tickets and of the messages whose post failed |
| Push.CountedExactly | internal/push/expo.go:92-104 | the two counts of every send, ticket by ticket |
| Push.ReportsCounted | internal/push/expo.go:92-104 | delivered plus failed is exactly the number of reports: one per message of a failed post, one per ticket otherwise |
| Push.Conserved | internal/push/expo.go:69-124 | with one ticket per message on success, delivered plus failed is the number of tokens for any mix of failed batches |
| Push.ConservedIff | internal/push/expo.go:69-124 | when no post returns more tickets than messages, that holds if and only if none returns fewer |
| Push.RecipientsLost | internal/push/expo.go:97-104 | a batch whose reply is accepted but holds no tickets adds nothing to the result: none of its recipients is counted |
| Push.InvalidExactly | internal/push/expo.go:118-120 | the invalid tokens are exactly those whose own ticket says the device is not registered |
| Push.InvalidFromList | internal/push/expo.go:101-120 | for any shape of reply they come from the list, none more often than it is there, and are at most as many as the failures |
| Push.Broadcaster.DeleteTokens | internal/push/store.go:64-73 | removes exactly the listed tokens |
| Push.Broadcaster.AllTokens | internal/push/store.go:37-52 | lists every stored token exactly once |
| Push.Broadcaster.BroadcastSend | internal/admin/broadcasts.go:92-147 | prunes exactly the tokens reported dead, remaining plus pruned is the number of recipients; the record holds the title cut to 80 and the body to 240, the recipients, the ok tickets as delivered and the others with the failed posts as failed; refused input and an empty table change nothing |

## Left out

- The lookup and the lock of a location, an emergency, a snapshot or a broadcast as separate steps: `LockLevel` separates them for join and leave and lets the others create a missing room, but does not carry live state; `HubImpl.Hub` keeps rooms as values in its map, so it does not show the identity of room objects.
- Delivery order of announcements made outside the room lock under arbitrary interleaving: the code does not fix it; replica agreement is proved for whole actions.
- A hub call in several events: in `World` finding the sockets of a kick, a leave or an end and closing them is one event.
- Concurrent statements inside one request, and PostgreSQL isolation levels.
- Muting, profile edits, feedback, app config, waypoints, dashboard lists and policy pages: they would only add easy members.
- Trimming and case folding of codes, names, labels, notes and messages, and counting in runes rather than characters.
- The order of `ListActiveRoomsForUser`, and the display names and avatars joined into listings.
- JWT, OAuth and LiveKit tokens, HTTP routing, JSON and websocket framing: "authenticated as user u" and the frames are inputs.
- The contents of frames that carry no presence, emergency or location; they are told apart by name only.
- HubImpl.Hub.Snapshot: does not carry the members, destination and stops of the payload, which are read from the tables outside the room lock.
- Uniqueness of a new row's position or id under concurrent inserts, and the failure of a single statement other than by a constraint, except in the admin's delete and the broadcast.
- Tokens registered while a broadcast is under way.
- Push.ConservedIff: for replies with more tickets than messages the exact total is `Push.ReportsCounted`.
- Roster.AccountRefines: whether something without a cascade refers to the user is read from the tables, since the roster has no destinations and stops.
