# Projet_pygame, modelled in Dafny

A model of the game logic underneath Projet_pygame, a two-player pygame
game with a lobby and a small socket server. Rendering, sprite loading,
sockets and threads are not modelled. What remains is the state those parts
drive, together with the properties the code and its comments promise:

- **Lobby sessions** (`src/ui/menu.py`, `test_sessions_json.py`).
  - `Session` records and `to_dict`/`from_dict` with their defaults.
  - The `[Sessions]:` and `[SessionsList]:` message envelopes, split at the first colon.
  - The rebuild of the session list from a server message.
  - The creation form and its `InputBox`.
  - Modules `Json`, `SessionRecords`, `SessionWire` and `Lobby`.
  - JSON text is an abstract `Codec` (an `encode`/`decode` pair).
- **The game server's client registry** (`server_files_hosted_katabump/server.py`, and the older `src/ui/server.py`).
  - Clients are ids in a list that the server changes in place.
  - What the network does is a parameter: which sends fail, what `recv` returns, what `accept` returns.
  - `Registry` holds the list algebra and the two readings of `broadcast`: the live-list walk the code performs, and the copy-then-walk it evidently intends.
  - `HostedServer` and `LegacyServer` are the two `Serveur` classes. Their methods broadcast as the code does, by the live-list walk. The copy-based broadcast is kept apart, as `HostedServer.Serveur.BroadcastOverCopy`.
- **Game content**, with one module per file:
  - `Characters`: health clamped to [0, 100], integer moves, animation frame counters.
  - `EnemyAi`: the IDLE/CHASE/DEATH enemy with integer range checks.
  - `Items`: the item list of `Inventory`, rarity colours, consumables.
  - `Dialogue`: the dialogue tree and dialogue box.
- **Buttons** (`src/ui/button.py`, `src/ui/animated_button.py`).
  - The `clicked` flag that turns mouse samples into clicks.
  - The animated button's frame counter.
  - Module `Buttons`; the mouse is a parameter of `draw`.

Objects whose methods update their fields are classes:
- the `Serveur` classes, `Menu`, `InputBox`
- `Furnace`, `Water`, `Enemy`, `Item`, `Inventory`
- `DialogueTree`, `DialogueBox`, `Button`, `AnimatedButton`

Each method's postcondition ties the new state to a function of the old one, and lemmas prove properties of those functions.

## Model

| member | source | states |
|---|---|---|
| Json.AsNumber | src/ui/menu.py:441 | a value takes part in `79 + idx * gap` exactly when it is an int or a bool (a bool counts as 0 or 1) |
| SessionRecords.NewSession | src/ui/menu.py:868-874 | a fresh session has title "Sans titre", 0 bots, 1 player, y 79 and gap 125 |
| SessionRecords.ToDict | src/ui/menu.py:876-889 | the dictionary has exactly the keys titre, nb_bots, nb_players, y and gap, each holding that field, and `FromDict` of it gives back the same session |
| SessionRecords.FromDict | src/ui/menu.py:892-909 | from a dictionary, each field is the key's value, or its default when the key is missing; from anything else there is no session (`.get` raises) |
| SessionRecords.FromEmptyDictIsDefault | src/ui/menu.py:904-908 | an empty dictionary gives the default session |
| SessionRecords.Entry | src/ui/menu.py:438-442 | one rebuild pass succeeds exactly for a dictionary whose gap is a number, and yields its fields with y = 79 + idx * gap |
| SessionRecords.BuildFrom | src/ui/menu.py:438-447 | the rebuilt list is no longer than the input; entry k is the record at k rebuilt for row k; if it stops short, the next record is the one that raised |
| SessionRecords.BuildFromUnique | src/ui/menu.py:438-447 | those three facts determine the rebuilt list |
| SessionRecords.Build | src/ui/menu.py:438-447 | session k of the rebuilt list is read from record k, and reading stops at the first record that is not a session |
| SessionRecords.BuildAllWellFormed | src/ui/menu.py:435-442 | when every record is well formed, the list has one entry per record, in order, each keeping its own fields with y recomputed from its index whatever y it carried |
| SessionWire.FirstIndex | test_sessions_json.py:141 | the first position of the separator, and none when it is absent |
| SessionWire.SplitOnce | test_sessions_json.py:141 | `split(":", 1)`: one part (the whole string) when there is no separator; otherwise two parts that rejoin to the input, the first of them free of the separator |
| SessionWire.PayloadOf | test_sessions_json.py:140 | `split(":", 1)[1]`: an IndexError exactly when there is no colon; otherwise everything after the first colon |
| SessionWire.SplitEnvelope | test_sessions_json.py:141-142 | splitting `tag:payload` at the first colon gives back the tag and the payload unchanged, whatever colons the payload holds |
| SessionWire.SessionMessageRecognised | test_sessions_json.py:49-59 | a session's message is taken as a creation, and its payload is the encoded `to_dict` |
| SessionWire.IsSessionCreation | test_sessions_json.py:164 | the creation test: a `[SessionsList]` message is never taken for a session creation |
| SessionWire.IsValid | test_sessions_json.py:174-176 | a dictionary that passes validation holds titre, nb_bots and nb_players |
| SessionWire.ValidIff | test_sessions_json.py:175-176 | validation holds exactly when titre, nb_bots and nb_players are all present; y and gap play no part |
| SessionWire.ToDictIsValid | test_sessions_json.py:175-176 | every `to_dict` result passes validation |
| SessionWire.IceTempleDecodes | test_sessions_json.py:75-87 | the Ice Temple record reads back as "Ice Temple", 1 bot, 3 players, y 204, gap 125 |
| SessionWire.TestRecords | test_sessions_json.py:115-121 | one record per listed session |
| SessionWire.TestRecordsWellFormed | test_sessions_json.py:115-121 | every record built by the test is a dictionary with a numeric gap |
| SessionWire.SessionsListRoundTrip | test_sessions_json.py:130-142 | with a lawful codec, the `[SessionsList]` payload splits off intact and decodes to the same records; the rebuild gives one session per record, in the same order |
| Lobby.AfterKey | src/ui/menu.py:980-983 | backspace drops exactly the last character; any other key appends its text while the title is under 15 characters and is ignored otherwise; single characters keep the title within 15 |
| Lobby.TypeThenErase | src/ui/menu.py:981-983 | typing a character into a title with room, then backspace, gives the title back |
| Lobby.TypeAll | src/ui/menu.py:980-983 | typing never shortens the title, and leaves a full title as it is |
| Lobby.TypingStaysBounded | src/ui/menu.py:982-983 | any sequence of single-character keys keeps the title within 15 characters |
| Lobby.InputBox.constructor | src/ui/menu.py:948-959 | empty inactive text, 0 bots, 1 player |
| Lobby.InputBox.HandleEvent | src/ui/menu.py:969-983 | a click inside toggles the box and a click outside deactivates it; a key edits the title as `AfterKey` says, only while active; the 15-character bound is kept |
| Lobby.InputBox.Clean | src/ui/menu.py:1007-1013 | text "", inactive, 0 bots, 1 player |
| Lobby.BuildLaidOut | src/ui/menu.py:438-442 | every rebuilt list puts entry i at y = 79 + i * gap |
| Lobby.Records | src/ui/menu.py:434-438 | a decoded array gives its items; any other value leaves an empty list |
| Lobby.Created | src/ui/menu.py:798-807 | the created session is titled with the text, or "Sans titre" when the text is empty; it carries the bot count, 1 player and gap 125, on the row after the last one |
| Lobby.CreatedLaidOut | src/ui/menu.py:805-807 | appending the created session keeps every entry on its row |
| Lobby.Menu.constructor | src/ui/menu.py:52-366 | no sessions, no server, main state |
| Lobby.Menu.SendSessionToServer | src/ui/menu.py:404-424 | a message exactly when a server is attached; it is `[Sessions]:` followed by the encoded `to_dict`, and it is recognised as a creation |
| Lobby.Menu.UpdateSessionsFromServer | src/ui/menu.py:426-448 | an undecodable payload leaves the list untouched; otherwise the list is replaced by the rebuild, which stops at the first record that raises, and stays laid out |
| Lobby.Menu.PressMoreBots | src/ui/menu.py:790-791 | the bot count goes up by one |
| Lobby.Menu.PressFewerBots | src/ui/menu.py:792-796 | the bot count goes down by one only from a positive count, so it never goes negative |
| Lobby.Menu.ConfirmCreation | src/ui/menu.py:798-812 | exactly one session, the created one, is appended at the end; it is sent when a server is attached; the state becomes play |
| Lobby.Menu.EnterPlay | src/ui/menu.py:814-815 | the play state clears the creation form |
| Registry.Minus | server_files_hosted_katabump/server.py:179-186 | dropping failed clients never lengthens the list |
| Registry.MinusMembers | server_files_hosted_katabump/server.py:179-186 | the survivors are exactly the listed clients that did not fail, without duplicates |
| Registry.IndexOf | src/ui/server.py:39 | `list.remove` finds the first occurrence |
| Registry.Remove | src/ui/server.py:39 | `list.remove` leaves one client fewer: exactly one copy of the client goes |
| Registry.RemoveFacts | src/ui/server.py:39 | removal keeps only listed clients and creates no duplicates; in a duplicate-free list the client is then gone |
| Registry.DeregisterAt | server_files_hosted_katabump/server.py:158-159 | in a duplicate-free list, removing the client at i leaves the clients before and after it, in order |
| Registry.Deregister | server_files_hosted_katabump/server.py:158-159 | the membership-guarded removal does nothing on an absent client and removes it otherwise |
| Registry.DeregisterIdempotent | server_files_hosted_katabump/server.py:153-159 | after the guarded removal the client is gone, a second removal changes nothing, and the list stays duplicate-free |
| Registry.UnguardedRemove | src/ui/server.py:39 | the unguarded removal raises exactly when the client is absent, and otherwise is the guarded one |
| Registry.Sender | server_files_hosted_katabump/server.py:175-178 | the skipped set is the sender alone, or empty when the sender is None |
| Registry.Walk | server_files_hosted_katabump/server.py:175-186 | the live-list walk keeps and attempts no more clients than it was given |
| Registry.WalkKeepsOrSends | server_files_hosted_katabump/server.py:175-186 | every client of the walk is either sent to or still listed; a client passed over stays listed |
| Registry.WalkMembers | server_files_hosted_katabump/server.py:175-186 | the live-list walk only sends to listed clients other than the sender, and only ever removes |
| Registry.WalkStep | server_files_hosted_katabump/server.py:175-186 | one step of the walk: a kept client moves the index on; a removed one makes the next client slide into its place, so that client is passed over |
| Registry.Delivered | server_files_hosted_katabump/server.py:179-180 | no more deliveries than attempts |
| Registry.Closes | server_files_hosted_katabump/server.py:181-183 | exactly the attempted clients whose send failed are closed |
| Registry.DeliveredMembers | server_files_hosted_katabump/server.py:177-180 | only attempted clients whose send went through are logged, each with the message |
| Registry.WalkSurvivors | server_files_hosted_katabump/server.py:179-186 | the walk's survivors are the original list with exactly the clients it closed taken out, the rest in their original order |
| Registry.WalkSkipsNext | server_files_hosted_katabump/server.py:175-186 | when the first client fails, the second one is never sent to and stays listed |
| Registry.Others | server_files_hosted_katabump/server.py:175-178 | every listed client but the sender |
| Registry.WalkWithoutFailures | server_files_hosted_katabump/server.py:175-178 | with no failing send, the walk reaches every client but the sender and keeps the list |
| Registry.Snapshot | server_files_hosted_katabump/server.py:175-186 | the intended broadcast: every listed client but the sender is attempted, and exactly the attempted failures are removed |
| Registry.SnapshotSurvivors | server_files_hosted_katabump/server.py:179-186 | the copy-based broadcast also takes out exactly the clients it closes, the rest in their original order |
| Registry.SnapshotAgreesWithoutFailures | server_files_hosted_katabump/server.py:175-186 | with no failing send, both readings of broadcast agree |
| Registry.NoSenderReachesAll | server_files_hosted_katabump/server.py:175-178 | the corrected broadcast with sender None attempts every client and drops exactly the failing ones |
| Registry.SenderDoesNotHearItself | server_files_hosted_katabump/server.py:175-178 | for any list and any failing sends, neither broadcast ever sends a client its own message; with no failing send, both send it to every other client, in list order |
| Registry.WalkCounterexample | server_files_hosted_katabump/server.py:175-186 | with clients [0, 1], no sender and client 0 failing, the live-list walk never sends to 1, while the copy-based broadcast does |
| HostedServer.Relay | server_files_hosted_katabump/server.py:136-150 | the list when a relay loop breaks, each message having gone through the live-list walk; never longer than at the start |
| HostedServer.RelayShrinks | server_files_hosted_katabump/server.py:136-150 | a relay loop only removes clients, keeps its own exactly when it was listed, and keeps the list duplicate-free |
| HostedServer.RelayBooks | server_files_hosted_katabump/server.py:141-186 | relayed messages reach only listed clients other than the relaying one; only such clients are closed; a client leaves the list exactly when its socket was closed |
| HostedServer.AfterAccepts | server_files_hosted_katabump/server.py:104-126 | every client listed after the accept loop was listed before it or accepted during it |
| HostedServer.Connections | server_files_hosted_katabump/server.py:104-126 | never more connections than accept events; all of them when none raises, none when all raise |
| HostedServer.AcceptAfterStopChangesNothing | server_files_hosted_katabump/server.py:104-126 | once the socket is no longer listening, the accept loop never changes the list, sends nothing and closes nothing |
| HostedServer.AcceptBooks | server_files_hosted_katabump/server.py:112-126 | the accept loop's start broadcasts (`AcceptLog`, `AcceptCloses`) deliver only the start message, only to clients listed before or accepted during the loop, and every socket they close is off the final list |
| HostedServer.ConnectionsAppend | server_files_hosted_katabump/server.py:112-126 | each connection event adds one to the count, and an error event adds none |
| HostedServer.Serveur.constructor | server_files_hosted_katabump/server.py:58-82 | the given address, no clients, not yet listening |
| HostedServer.Serveur.StartServer | server_files_hosted_katabump/server.py:88-98 | listening, with nothing else changed |
| HostedServer.Serveur.SendOrDrop | server_files_hosted_katabump/server.py:175-186 | one send to a listed client: on failure its socket is closed and it is removed, under the `if client in self.clients` guard; otherwise it is logged as delivered |
| HostedServer.Serveur.Broadcast | server_files_hosted_katabump/server.py:167-186 | the broadcast as written: attempts, survivors, closed sockets and deliveries as the live-list `Walk` gives them |
| HostedServer.Serveur.BroadcastOverCopy | server_files_hosted_katabump/server.py:167-186 | the corrected broadcast over a copy of the list: survivors and attempts as `Snapshot` gives them, with the matching closed sockets and deliveries |
| HostedServer.Serveur.StartGame | server_files_hosted_katabump/server.py:192-199 | the start message through the live-list walk with no sender: attempts, survivors, closed sockets and deliveries as `Walk` gives them |
| HostedServer.Serveur.AcceptClients | server_files_hosted_katabump/server.py:104-126 | the list is `AfterAccepts` of the events, the outbox gains exactly `AcceptLog` and the closed sockets exactly `AcceptCloses`: connections get consecutive fresh ids, and an error only moves on to the next accept |
| HostedServer.Serveur.AcceptOne | server_files_hosted_katabump/server.py:112-126 | a connection on a listening socket appends the next id, then the list-walking start broadcast drops the failing clients, closing their sockets and logging its deliveries as `Walk` gives them; an error changes neither the list, the outbox nor the closed sockets |
| HostedServer.Serveur.HandleClient | server_files_hosted_katabump/server.py:128-161 | the list is the relay's result with the client taken off; the outbox gains exactly the relay's deliveries; the closed sockets are the relay's plus the client's own; no client is added |
| HostedServer.Serveur.RelayAll | server_files_hosted_katabump/server.py:136-150 | the relay loop: list, deliveries and closed sockets as `Relay`, `RelayLog` and `RelayCloses` give them |
| HostedServer.Serveur.StopServer | server_files_hosted_katabump/server.py:205-224 | every listed client is closed and the server stops listening; the list itself stays |
| LegacyServer.AcceptUntilError | src/ui/server.py:19-25 | the hosted accept loop run over the connections before the first error: every client listed at the end was listed before or is among those connections |
| LegacyServer.ConnectionsBeforeError | src/ui/server.py:19-25 | the accept thread takes the connections up to the first error |
| LegacyServer.ConnectionsStopAtError | src/ui/server.py:19-25 | the count of connections taken stops at the first accept error, whatever follows |
| LegacyServer.AcceptStopsAtError | src/ui/server.py:19-25 | events after the first accept error change neither the list, the start broadcasts' deliveries nor their closed sockets |
| LegacyServer.AcceptBooksUntilError | src/ui/server.py:19-25 | the accept thread's start broadcasts deliver only the start message, only to clients listed before or taken before the first error, and every socket they close is off the final list |
| LegacyServer.DroppedClientCleanupRaises | src/ui/server.py:38-49 | a client dropped by a broadcast is gone, and its own cleanup `remove` then raises |
| LegacyServer.Serveur.constructor | src/ui/server.py:5-11 | the fixed address, no clients, not yet listening |
| LegacyServer.Serveur.StartServer | src/ui/server.py:13-17 | listening, with nothing else changed |
| LegacyServer.Serveur.SendOrDrop | src/ui/server.py:44-49 | one send; on failure the client is closed and removed with no membership check |
| LegacyServer.Serveur.Broadcast | src/ui/server.py:42-49 | the live-list walk: attempts, survivors, closed sockets and deliveries as `Walk` gives them |
| LegacyServer.Serveur.StartGame | src/ui/server.py:51-54 | the start message, broadcast by the live-list walk with no sender: attempts, survivors, closed sockets and deliveries as `Walk` gives them |
| LegacyServer.Serveur.AcceptClients | src/ui/server.py:19-25 | connections, each followed by the start broadcast, until the first accept error ends the thread: the list is `AcceptUntilError`, the outbox gains exactly `AcceptLogUntilError` and the closed sockets exactly `AcceptClosesUntilError`, with consecutive fresh ids |
| LegacyServer.Serveur.AcceptOne | src/ui/server.py:21-25 | the next id is appended, then the start broadcast runs: list, closed sockets and deliveries as `Walk` gives them |
| LegacyServer.Serveur.HandleClient | src/ui/server.py:27-40 | the cleanup `remove` raises exactly when the client was no longer listed; the list, deliveries and closed sockets are those of `HostedServer.Relay`, and the client ends closed and off the list |
| LegacyServer.Serveur.RelayAll | src/ui/server.py:28-37 | the relay loop: list, deliveries and closed sockets as `HostedServer.Relay`, `RelayLog` and `RelayCloses` give them |
| Characters.Moved | src/game/characters.py:138-154 | "up" and "down" change only y, by speed; "left" and "right" change only x; any other string changes nothing |
| Characters.Facing | src/game/characters.py:150-154 | only "left" and "right" turn the character |
| Characters.MovesCancel | src/game/characters.py:145-154 | a move followed by the opposite move comes back to the start |
| Characters.AfterDamage | src/game/characters.py:160-170 | health - amount, raised to 0 when negative, so it is never negative |
| Characters.AfterHeal | src/game/characters.py:172-182 | health + amount, lowered to 100 when above, so it never exceeds 100 |
| Characters.HealthAfter | src/game/characters.py:160-182 | a run of damage and heals that ends with damage leaves no negative health, and one that ends with healing leaves at most 100, whatever came before |
| Characters.HealthStaysInRange | src/game/characters.py:160-182 | with non-negative amounts, health stays within [0, 100] through any sequence of damage and heals |
| Characters.NegativeHealingLeavesRange | src/game/characters.py:180-182 | a negative heal is not guarded against and can take health below 0 |
| Characters.Advance | src/game/characters.py:216-220 | the next frame cycles within [0, count), back to 0 after the last |
| Characters.AdvanceTimes | src/game/characters.py:216-220 | a valid frame stays valid through any number of advances |
| Characters.AdvanceTimesCycles | src/game/characters.py:212-229 | k advances move a frame k places round the cycle, and count advances bring it back |
| Characters.Tick | src/game/characters.py:212-229 | the timer accumulates; on reaching the period it resets to 0 and the frame advances within range |
| Characters.SkillTick | src/game/characters.py:570-609 | a running skill accumulates its timer and advances its frame on each period; on reaching the frame count it resets to 0 and stops; the frame stays below the count |
| Characters.SkillTicks | src/game/characters.py:570-609 | a stopped skill stays as it is, the frame stays in range, and a skill never starts again by itself |
| Characters.SkillRunsOutOfFrames | src/game/characters.py:570-609 | when every tick reaches the period, a running skill shows each remaining frame in turn and stops exactly when it runs out |
| Characters.Furnace.constructor | src/game/characters.py:62-131 | health 100, speed 2, at (400, 400), facing right, both animations at frame 0 |
| Characters.Furnace.Move | src/game/characters.py:138-154 | the position and facing as `Moved` and `Facing` say; nothing else changes, so valid frames stay valid |
| Characters.Furnace.TakeDamage | src/game/characters.py:160-170 | health becomes max(health - amount, 0); position, speed, facing and every animation counter stay, so valid frames stay valid |
| Characters.Furnace.Heal | src/game/characters.py:172-182 | health becomes min(health + amount, 100); position, speed, facing and every animation counter stay, so valid frames stay valid |
| Characters.Furnace.UpdateAnimation | src/game/characters.py:201-229 | the walk animation ticks while moving and the idle one otherwise; the other is left alone and both frames stay in range |
| Characters.Water.constructor | src/game/characters.py:295-303 | health 100, speed 2, at (400, 400), no skill running, all frames 0 |
| Characters.Water.Move | src/game/characters.py:481-497 | the position and facing as `Moved` and `Facing` say; health, speed, movement flag, every animation counter, the skills and the effect frame stay, so valid frames stay valid |
| Characters.Water.TakeDamage | src/game/characters.py:516-527 | health becomes max(health - amount, 0); death is called exactly when the subtraction went strictly below 0; position, speed, facing, animation counters, skills and effect frame stay, so valid frames stay valid |
| Characters.Water.Heal | src/game/characters.py:538-548 | health becomes min(health + amount, 100); position, speed, facing, animation counters, skills and effect frame stay, so valid frames stay valid |
| Characters.Water.UpdateAnimation | src/game/characters.py:554-633 | each skill ticks as `SkillTick` says from the caller's flag; then the move or idle animation ticks; every frame stays in range |
| Characters.Water.UpdateSkills | src/game/characters.py:570-609 | the three skill blocks; the effect frame resets when skill 1 ends |
| Characters.Water.UpdateMotion | src/game/characters.py:615-633 | the move animation ticks while moving and the idle one otherwise |
| Characters.RunCycle | src/game/characters.py:212-229 | the timer and frame block computes `Tick` |
| Characters.RunSkill | src/game/characters.py:570-581 | one skill block computes `SkillTick`, and reports whether the skill ended on this tick |
| Characters.PlayerTakeDamage | src/game/enemy.py:113-115 | either character takes damage as `AfterDamage` says, without moving; its speed, facing and animation state (`LookOf`) stay, and valid frames stay valid |
| Characters.PlayerHeal | src/game/items.py:147-149 | either character heals as `AfterHeal` says, without moving; its speed, facing and animation state (`LookOf`) stay, and valid frames stay valid |
| EnemyAi.DistanceSquared | src/game/enemy.py:121-133 | the squared distance is non-negative and zero exactly at the same point |
| EnemyAi.WithinRange | src/game/enemy.py:121-133 | a position is within any range of itself, and within range means within range on each axis |
| EnemyAi.WithinRangeSymmetric | src/game/enemy.py:121-133 | a range check does not depend on who looks at whom |
| EnemyAi.AttackRangeIsSeen | src/game/enemy.py:106-166 | whatever is within attack range is within vision range |
| EnemyAi.StepToward | src/game/enemy.py:142-153 | one speed step toward the target on an axis, and none when the coordinates are equal |
| EnemyAi.Chased | src/game/enemy.py:135-153 | an enemy on the target stays; otherwise an enemy with a speed moves, by at most its speed on each axis, and keeps an axis that is already lined up |
| EnemyAi.ChaseFacing | src/game/enemy.py:142-149 | only a horizontal step turns the enemy |
| EnemyAi.StepCloses | src/game/enemy.py:142-153 | a step no longer than the gap closes the gap by exactly the speed |
| EnemyAi.StepCanOvershoot | src/game/enemy.py:142-153 | a step longer than the gap jumps past the target |
| EnemyAi.Enemy.Default | src/game/enemy.py:43-66 | built with no arguments: at (0, 0), health 50, speed 3, damage 10, facing right, idle |
| EnemyAi.Enemy.constructor | src/game/enemy.py:43-66 | the given position, health and speed; damage 10, facing right, idle |
| EnemyAi.Enemy.Move | src/game/enemy.py:73-89 | only the named axis moves, and only left or right turns the enemy |
| EnemyAi.Enemy.TakeDamage | src/game/enemy.py:95-104 | health drops by the amount with no floor; the enemy dies exactly when health reaches 0 or below |
| EnemyAi.Enemy.Die | src/game/enemy.py:172-174 | the state becomes DEATH and nothing else changes |
| EnemyAi.Enemy.Detects | src/game/enemy.py:155-166 | detection holds exactly when dx² + dy² ≤ 200² |
| EnemyAi.Enemy.Attack | src/game/enemy.py:106-115 | the target takes this enemy's damage exactly when it is within 50, and does not move; its speed, facing and animation state stay, and valid frames stay valid |
| EnemyAi.Enemy.ChaseTarget | src/game/enemy.py:135-153 | one speed step toward the target on each axis that differs, facing as `ChaseFacing` says |
| EnemyAi.Enemy.Update | src/game/enemy.py:194-212 | a dead enemy changes nothing; with a player in sight it chases (position `Chased`, facing `ChaseFacing`) and attacks, and otherwise idles in place; with no player it keeps state, position and facing; the player never moves, and its look and frame validity stay |
| Items.RarityColor | src/game/items.py:88-95 | the table colour for rarities 1 to 4, and the common grey for any other value |
| Items.RarityColorsDistinct | src/game/items.py:31-36 | rare, epic and legendary each have a colour of their own |
| Items.IsInstance | src/game/items.py:278 | every item is an `Item`, no item is an instance of an unrelated class, and the two subclasses share no item |
| Items.Item.constructor | src/game/items.py:51-68 | the given attributes, not yet picked up; a plain item at the given position, a consumable or equipment at (0, 0) |
| Items.Item.Use | src/game/items.py:101-153 | a consumable with effect "heal" heals the given player by its amount, and any consumable is picked up; other items do nothing; the player does not move, its look stays and valid frames stay valid |
| Items.TotalValue | src/game/items.py:250-257 | the sum of the item values is non-negative when every value is |
| Items.TotalValueAppend | src/game/items.py:250-257 | adding an item adds its value to the total |
| Items.RemoveFirst | src/game/items.py:245-248 | removal changes nothing when the item is absent, and otherwise takes exactly one item out |
| Items.RemoveFirstAt | src/game/items.py:245-248 | exactly the first occurrence goes; the items before and after it keep their order |
| Items.RemoveFirstMultiset | src/game/items.py:245-248 | one copy of the item goes, and nothing else |
| Items.TotalValueRemove | src/game/items.py:245-257 | removing an item takes its value off the total |
| Items.AddThenRemove | src/game/items.py:220-248 | adding an absent item and removing it gives the list back |
| Items.OfType | src/game/items.py:268-278 | the result is exactly the items that are instances of the class |
| Items.OfTypeAppend | src/game/items.py:278 | the filter keeps inventory order |
| Items.OfItemClassIsAll | src/game/items.py:278 | asking for `Item` returns the whole inventory |
| Items.Inventory.constructor | src/game/items.py:206-214 | empty, with the given maximum size |
| Items.Inventory.IsFull | src/game/items.py:259-266 | full exactly when the count is at least the maximum size, which within the bound means equal to it |
| Items.Inventory.AddItem | src/game/items.py:220-233 | the item is appended and True returned exactly when there was room; otherwise False and unchanged; the bound is kept |
| Items.Inventory.RemoveItem | src/game/items.py:235-248 | True exactly when the item was present, and its first occurrence is removed; otherwise False and unchanged |
| Dialogue.Labels | src/ui/dialogue.py:240 | the choice labels in insertion order |
| Dialogue.Current | src/ui/dialogue.py:227-242 | nothing when the current node is unset, empty or unknown; otherwise its speaker, text and one label per choice |
| Dialogue.Choose | src/ui/dialogue.py:244-265 | accepted exactly with a valid current node and an index within its choices, moving to that choice's target; otherwise the current node stays |
| Dialogue.ChoiceFollowsLabel | src/ui/dialogue.py:240-263 | the choice at a shown position leads to the node paired with the label shown there |
| Dialogue.Follow | src/ui/dialogue.py:244-265 | a conversation with no node selected ignores every choice |
| Dialogue.ClosedTreeKeepsTalking | src/ui/dialogue.py:244-265 | in a tree where every choice leads to a stored node, a started conversation always has a node to show, whatever is chosen |
| Dialogue.UnselectedTreeStays | src/ui/dialogue.py:254-255 | with no valid current node, no choice moves the tree |
| Dialogue.AddThenShow | src/ui/dialogue.py:198-242 | a node just added and started is shown as it was given |
| Dialogue.DialogueTree.constructor | src/ui/dialogue.py:189-192 | no nodes and no current node |
| Dialogue.DialogueTree.AddNode | src/ui/dialogue.py:198-212 | the node is stored under its id, and every other node is unchanged |
| Dialogue.DialogueTree.Start | src/ui/dialogue.py:218-225 | the id becomes current without any check; it shows a node exactly when it is stored |
| Dialogue.DialogueTree.Pick | src/ui/dialogue.py:244-265 | moves and answers as `Choose` says; the nodes are unchanged |
| Dialogue.DialogueBox.constructor | src/ui/dialogue.py:45-59 | the given speaker, text and position; inactive, with no choices |
| Dialogue.DialogueBox.SetDialogue | src/ui/dialogue.py:66-78 | the new speaker, text and choices, and the box active |
| Dialogue.DialogueBox.AddChoice | src/ui/dialogue.py:80-87 | one more choice at the end; nothing else changes |
| Dialogue.DialogueBox.ClearChoices | src/ui/dialogue.py:89-91 | no choices; nothing else changes |
| Dialogue.DialogueBox.Close | src/ui/dialogue.py:165-168 | inactive with no choices |
| Buttons.ClickStep | src/ui/button.py:101-119 | a click is reported exactly on release inside with the flag set; a report clears the flag; a press inside sets it; outside, a plain button keeps the flag only while the mouse button is held, and an animated one always clears it |
| Buttons.After | src/ui/button.py:101-119 | the flag is only ever up while the mouse button is held; inside the button it follows the mouse button; outside an animated button it is down |
| Buttons.AfterOneMore | src/ui/button.py:101-119 | the flag after one more sample is one `ClickStep` further |
| Buttons.NoDoubleClick | src/ui/button.py:110-112 | two draws in a row never both report a click |
| Buttons.FlagNeedsPressInside | src/ui/button.py:103-106 | from a cleared flag, the flag is set only after some press inside |
| Buttons.ClickFollowsPress | src/ui/button.py:101-112 | every reported click is a release inside that follows an earlier press inside |
| Buttons.DragOutsideDiffers | src/ui/animated_button.py:146-148 | holding the button down outside keeps a plain button's flag and clears an animated one's |
| Buttons.Button.constructor | src/ui/button.py:43-72 | no press remembered |
| Buttons.Button.Draw | src/ui/button.py:74-119 | the flag and the reported click as `ClickStep` gives them for a plain button |
| Buttons.Threshold | src/ui/animated_button.py:93 | `60 // speed` is between 0 and 60, positive exactly for speeds up to 60 |
| Buttons.AnimStep | src/ui/animated_button.py:85-96 | no frames means no change; otherwise the counter resets to 0 and the frame advances within range on reaching the threshold, and the counter goes up by one before it |
| Buttons.FrameHolds | src/ui/animated_button.py:92-96 | from a reset counter, the frame holds for fewer than threshold updates |
| Buttons.FrameAdvancesAtThreshold | src/ui/animated_button.py:92-96 | the frame moves on, with the counter reset, on exactly the threshold-th update |
| Buttons.SpeedFloor | src/ui/animated_button.py:68 | the speed is at least 1, and a valid speed is kept |
| Buttons.AnimatedButton.constructor | src/ui/animated_button.py:40-83 | the speed raised to at least 1; first frame, counter 0, no press |
| Buttons.AnimatedButton.Update | src/ui/animated_button.py:85-96 | counter and frame as `AnimStep` says; the frame stays in range |
| Buttons.AnimatedButton.Draw | src/ui/animated_button.py:98-150 | the animation steps first; with no frames it returns False and keeps the flag; otherwise the flag and the click as `ClickStep` gives them for an animated button |

## Left out

- Sockets, threads, `recv` buffer sizes, logging and `print` are left out. Network outcomes are parameters: which sends fail, what `recv` returns, what `accept` returns. Each relay loop and each accept loop runs to completion on its own, with no interleaving between threads.
- JSON text is an abstract codec. Only its round trip (`Lawful`) is assumed where the lobby tests rely on it. Floats in JSON are not modelled.
- `HostedServer.Serveur.AcceptClients`: after `stop_server`, the source loop spins forever on accept errors. The model runs it over a finite list of events.
- `HostedServer.Serveur.HandleClient` and `LegacyServer.Serveur.HandleClient` each take the whole `recv` script for one client. Messages from other clients arriving in between are not interleaved.
- The module-level server start at src/ui/server.py:58-60 and the `exe_server.py` entry points are left out: they only start threads.
- `Lobby.Menu.SendSessionToServer` returns the message instead of calling `broadcast` on the attached server. Its `except` branch is left out, because `to_dict` and the codec cannot raise in the model.
- All pygame drawing, fonts, colours, images and sprite-sheet slicing are left out.
- The screen dispatch of `method_menu` is left out, except for the creation branch and the play state.
- `Characters.Water.constructor`: `Water.__init__` cannot complete as written. It appends to an attribute it never defines and calls `pyg.transofrm` (src/game/characters.py:422-424). The constructor models only the stats and counters it sets up. Frame counts come from the module constants.
- `Characters.Water.TakeDamage`: the docstring says death comes when health reaches 0, but the code calls `death` only when health went strictly below 0 (src/game/characters.py:524-527). The model follows the code. `death` only loads an image, so it is reported as the `died` result.
- `Characters.AfterDamage` and `Characters.AfterHeal`: negative amounts are not guarded against, as in the source. `Characters.NegativeHealingLeavesRange` shows the consequence.
- Animation timers take the elapsed milliseconds as a parameter instead of reading a clock.
- `EnemyAi.Enemy.Detects`: the floating-point `_calculate_distance` is replaced by the equivalent integer comparison dx² + dy² ≤ range². For the non-negative ranges involved, both comparisons agree.
- `Items.OfType`: `isinstance` with an arbitrary class is reduced to the four cases `ItemClass` names: `Item`, `Consumable`, `Equipment`, or a class no item belongs to.
- `Item.get_info`, `Item.update`, `Equipment.get_stats` and `AnimatedButton.presse` are left out. They only assemble a dictionary, do nothing, or print.
- `Items.Item.Use`: the "damage_boost" effect does nothing in the source and does nothing here.
- `Dialogue.DialogueBox.SetDialogue`: the box keeps the caller's list object in the source, so later changes by either side are shared. The model copies the value, so that aliasing is not captured.
- `Dialogue.DialogueTree.CurrentDialogue` returns `Current` of the tree's state and carries no contract of its own. Its properties are stated on `Dialogue.Current`.
- Mouse position and button state come in as `Buttons.Mouse` values, and the rectangle hit test is taken as already done. `Lobby.InputEvent` does the same for `InputBox`.

## Findings

| source | as written | input that shows it | evidently intended | confidence | as-written member | corrected member |
|---|---|---|---|---|---|---|
| server_files_hosted_katabump/server.py:175-186 | `for client in self.clients` walks the live list, and a failed send removes that client from the same list, so the next client slides into its slot and is never sent the message (src/ui/server.py:43-49 does the same) | clients [0, 1], no sender, and the send to 0 fails: 0 is removed and 1 never receives the message | every client but the sender is sent the message once, and the failed ones are removed afterwards, by iterating over a copy of the list | high; not executed | Registry.WalkCounterexample | HostedServer.Serveur.BroadcastOverCopy |
| src/ui/server.py:39 | `handle_client` removes its own socket with no membership check | a client whose start-game send failed was already removed by `broadcast`; when its `recv` then fails, the cleanup `remove` raises ValueError | cleanup removes the client only if it is still listed, as the hosted revision does at server_files_hosted_katabump/server.py:158-159 | high; not executed | LegacyServer.DroppedClientCleanupRaises | Registry.DeregisterIdempotent |
