# app-gamer-completo — a Dafny model of its core

app-gamer-completo is a game hub written in TypeScript and React. This project models its core logic and proves properties of that model.

- **Server fleet (`ServerManager`).** This is an in-memory registry of simulated game servers. It handles:
  - creation, including the paid-access gate for private servers;
  - joining by id or by six-digit join code;
  - leaving, kicking and banning;
  - settings and status control (pause, start, restart, terminate);
  - an audit log capped at 100 entries;
  - idle-shutdown and restart timers;
  - a health check that restarts stuck servers;
  - a ping refresh;
  - matchmaking.
- **Game context.** This is the signed-in player's XP, level, coins and rank, plus the worlds (rooms) they create, update, join and leave.
- **Chat box.** A profanity filter masks every filter word in any letter case. The box also sends typed and quick messages and adds emoji to the input.
- **Payment panel.** It approves and rejects the payments that unlock private worlds. It also has a status filter and summary statistics.
- **The two world-creation forms.** These are the Minecraft world form and the hub's world form. The model covers their guards, in order, and the record each one produces.

## How the model is laid out

Each TypeScript file is modelled in the form it takes in the source:

- **`ServerManager` is a class.** It keeps its map of servers, their insertion order (the iteration order of a JavaScript `Map`), the armed idle timers and the pending restart timers as fields. Its methods change those fields.
- **Each method is specified by a pure function on one server record.** These functions live in `server_model.dfy`, and the lemmas there say what each change guarantees. Examples: a banned id is always refused, a successful join keeps the player list within capacity and free of duplicates, and every change keeps the record well-formed.
- **The health check and the ping refresh are `while` loops**, because the source loops over its servers.
- **The React components and the game context are functions from old state to new state.** The handlers of the source compute a new value and hand it to a state setter.
- **Clock readings, random draws, `Number()` parsing and the confirmation dialog's answer are parameters.**

| file | models |
|---|---|
| `common.dfy` | `Option`, `Result`, JavaScript `trim`, duplicate-free sequences |
| `server_model.dfy` | the server, player and log records; the change each fleet operation makes to one record |
| `server_manager.dfy` | the `ServerManager` class |
| `payment_ledger.dfy` | the admin payment panel and the private-access check |
| `game_types.dfy` | players, worlds, chat messages, reward, rank and filter tables |
| `game_context.dfy` | XP, levels, ranks, coins, and creating, updating, joining and leaving worlds |
| `chat_box.dfy` | the profanity filter and the chat box handlers |
| `minecraft_form.dfy` | the Minecraft world registration form |
| `create_world_form.dfy` | the hub's world creation form |

## Model

| member | source | states |
|---|---|---|
| ServerModel.AppendLog | src/lib/serverManager.ts:285-303 | the new entry is last; the log never exceeds 100 entries; below the cap it is a plain append, otherwise the newest 100 of old + new are kept |
| ServerModel.AppendLogEvictsOldest | src/lib/serverManager.ts:297-302 | with the log full, an append drops exactly the oldest entry |
| ServerModel.AppendLogs | src/lib/serverManager.ts:285-303 | after one or more appends the log holds min(old + new, 100) entries, the newest ones, in order; with no entries it is unchanged |
| ServerModel.FindPlayer | src/lib/serverManager.ts:164 | nothing is found exactly when no player has the id; otherwise the FIRST player with that id |
| ServerModel.RemovePlayer | src/lib/serverManager.ts:167 | a player record remains exactly when it was there and has another id; duplicate-freedom is kept; a missing id changes nothing |
| ServerModel.RemovePlayerConcat | src/lib/serverManager.ts:167 | the filter distributes over concatenation, so the players who remain keep their join order |
| ServerModel.DecimalString | src/lib/serverManager.ts:52 | the decimal rendering of a number is a non-empty string of digits |
| ServerModel.DecimalRoundTrip | src/lib/serverManager.ts:52 | reading the digits of a number back gives the number |
| ServerModel.DecimalLength | src/lib/serverManager.ts:52 | a number between 10^k and 10^(k+1) has k+1 digits |
| ServerModel.JoinCodeIsSixDigits | src/lib/serverManager.ts:51-53 | a join code drawn from [100000, 999999] is exactly six digits |
| ServerModel.Prefix8 | src/lib/serverManager.ts:42 | the first min(8, length) characters of the user id |
| ServerModel.Suffix8 | src/lib/serverManager.ts:89 | the last min(8, length) characters of the server id |
| ServerModel.NewServer | src/lib/serverManager.ts:56-102 | a new server is online and empty, with nothing banned; its name, link, code, host and port derive from its inputs; four system log entries; the record is well-formed |
| ServerModel.CreationLogsAreAppends | src/lib/serverManager.ts:94-97 | the creation entries are exactly what the four log appends leave on the empty log |
| ServerModel.Revived | src/lib/serverManager.ts:180-188 | an offline server comes back online with exactly the auto-start entry appended; any other server is untouched; no other field changes |
| ServerModel.JoinResult | src/lib/serverManager.ts:119-157 | a join never changes bans or capacity and always leaves the server not offline; only the status, players, activity time and log can change (the cases are stated by the join lemmas below) |
| ServerModel.JoinRefusedAddsNoOne | src/lib/serverManager.ts:125-138 | a refused join (banned or full) adds no one, but an offline server is still brought online |
| ServerModel.BannedJoinRefused | src/lib/serverManager.ts:130-133 | a banned id is never admitted and is never among the players afterwards |
| ServerModel.MemberOfFullServerRefused | src/lib/serverManager.ts:135-143 | the capacity check runs before the membership check, so a member joining a full server is refused |
| ServerModel.RejoinIsIdempotent | src/lib/serverManager.ts:140-143 | a member re-joining a non-full server changes nothing beyond the revival, and a second join is a no-op |
| ServerModel.JoinAdmitted | src/lib/serverManager.ts:145-156 | an admitted join keeps the players within capacity and includes the player; a newcomer is appended last, with the activity time set and the entry log appended to the revived log; a member gets the revival alone; nothing but status, players, activity time and log changes |
| ServerModel.JoinPreservesWellformed | src/lib/serverManager.ts:119-157 | a join keeps the log cap, no duplicate players, no duplicate bans, and no banned player inside |
| ServerModel.LeaveResult | src/lib/serverManager.ts:160-177 | a non-member leaving changes nothing; a member is filtered out (RemovePlayer), the activity time is set and exactly the exit entry naming the member is appended; nothing else changes; well-formedness is kept |
| ServerModel.Expel | src/lib/serverManager.ts:191-221 | kick and ban filter the member out, ban appends the id to the bans; only players, bans, activity time and log change (the rest is stated by ExpelEffect) |
| ServerModel.ExpelEffect | src/lib/serverManager.ts:191-221 | kick and ban remove exactly the member; ban records the id once, so every later join by that id is refused; the activity time is set; exactly one kick or ban entry naming the member is logged; nothing else changes; well-formedness is kept |
| ServerModel.ApplySettings | src/lib/serverManager.ts:224-237 | only truthy fields are applied (an empty name and a capacity of 0 are ignored); the activity time is set and exactly the settings entry is appended; no other field changes |
| ServerModel.ControlResult | src/lib/serverManager.ts:240-270 | pause, start and restart set the status to paused, online and offline, set the activity time and append exactly the paused, started or restarting entry; no other field changes |
| ServerModel.IdleShutdownResult | src/lib/serverManager.ts:309-316 | an empty server goes offline with exactly the idle-shutdown entry appended; a server someone has since joined is untouched; no other field changes |
| ServerModel.RestartFinished | src/lib/serverManager.ts:255-259 | when the restart timer fires, the server is online again with exactly the restarted entry appended; no other field changes |
| ServerModel.HealthChecked | src/lib/serverManager.ts:337-342 | a stuck server (online, idle for over ten minutes) gets the stuck-detected and the restarting entries appended, in that order, and is taken offline and no longer stuck; any other server is untouched; players and bans are kept |
| ServerModel.HealthCheckedFrame | src/lib/serverManager.ts:337-342 | the health check changes nothing of a server but its status, activity time and log |
| ServerModel.BestRoomIndex | src/lib/serverManager.ts:426-432 | nothing is found exactly when no server is eligible; otherwise an eligible server with the most players, the first such one in order (stable sort) |
| ServerModel.BestRoom | src/lib/serverManager.ts:426-432 | nothing exactly when no public, online, non-full server runs the game; otherwise one such server with the most players |
| ServerManagerModel.Values | src/lib/serverManager.ts:412 | the servers listed in insertion order, one per key |
| ServerManagerModel.OfKind | src/lib/serverManager.ts:416-423 | exactly the servers of the given kind |
| ServerManagerModel.FindByCode | src/lib/serverManager.ts:111 | the first server in insertion order with that join code; nothing exactly when no server has it |
| ServerManagerModel.Without | src/lib/serverManager.ts:278 | the order without the deleted id, still duplicate-free |
| ServerManagerModel.AdvanceChecked | src/lib/serverManager.ts:336-343 | visiting one more server in the health check adds it to the checked servers and, if stuck, to the restarted ones |
| ServerManagerModel.ServerManager.constructor | src/lib/serverManager.ts:9-13 | an empty, valid registry with no timers |
| ServerManagerModel.ServerManager.GetServer | src/lib/serverManager.ts:406-408 | the record stored under the id, if any |
| ServerManagerModel.ServerManager.ListServers | src/lib/serverManager.ts:411-413 | exactly the stored servers, in insertion order (Values) |
| ServerManagerModel.ServerManager.ListPublic | src/lib/serverManager.ts:416-418 | exactly the stored public servers |
| ServerManagerModel.ServerManager.ListPrivate | src/lib/serverManager.ts:421-423 | exactly the stored private servers |
| ServerManagerModel.ServerManager.Resolve | src/lib/serverManager.ts:104-116 | a known id resolves to itself; otherwise to the first server with that join code; nothing exactly when neither exists |
| ServerManagerModel.ServerManager.FindAvailableRoom | src/lib/serverManager.ts:426-432 | nothing exactly when no stored server is eligible; otherwise a stored eligible server with the most players |
| ServerManagerModel.ServerManager.CheckPrivatePermission | src/lib/serverManager.ts:435-443 | true exactly when the user has an approved payment |
| ServerManagerModel.ServerManager.AddLog | src/lib/serverManager.ts:285-303 | appends to a known server's capped log; an unknown id changes nothing |
| ServerManagerModel.ServerManager.Insert | src/lib/serverManager.ts:93 | stores the record; a new id goes to the end of the order, a known id keeps its place |
| ServerManagerModel.ServerManager.Create | src/lib/serverManager.ts:56-102 | a private server without approved payment is refused with no change; otherwise the new record is stored and returned |
| ServerManagerModel.ServerManager.Join | src/lib/serverManager.ts:119-157 | unknown id: failure, no change; otherwise success exactly when the id is not banned and the server is not full after revival; the record becomes the join result; the idle timer is cancelled on revival or when a newcomer is added |
| ServerManagerModel.ServerManager.JoinByIdOrCode | src/lib/serverManager.ts:104-116 | resolves by id, then by join code, and joins that server; nothing resolved is a failure with no change |
| ServerManagerModel.ServerManager.Leave | src/lib/serverManager.ts:160-177 | a non-member or unknown server changes nothing; otherwise the member is removed, and an emptied server gets its idle timer armed |
| ServerManagerModel.ServerManager.Expulsion | src/lib/serverManager.ts:191-221 | succeeds exactly when the admin is the creator and the target is a member; failure changes nothing; success applies the kick or ban |
| ServerManagerModel.ServerManager.UpdateSettings | src/lib/serverManager.ts:224-237 | succeeds exactly for the creator; failure changes nothing; success applies the truthy settings |
| ServerManagerModel.ServerManager.Control | src/lib/serverManager.ts:240-282 | creator only; terminate deletes the server, drops it from the order and cancels its idle timer; the other actions change the status, and restart arms one restart timer |
| ServerManagerModel.ServerManager.FireAutoShutdown | src/lib/serverManager.ts:306-319 | the fired timer is gone; the server goes offline if still empty |
| ServerManagerModel.ServerManager.FinishRestart | src/lib/serverManager.ts:254-258 | one pending restart is consumed; the server, if it still exists, is online again |
| ServerManagerModel.ServerManager.HealthTick | src/lib/serverManager.ts:331-345 | every server ends as the health check says; one restart timer per stuck server; no server added or removed |
| ServerManagerModel.ServerManager.CheckOne | src/lib/serverManager.ts:339-342 | one server visited by the health check: if stuck, logged and restarted |
| ServerManagerModel.ServerManager.PingTick | src/lib/serverManager.ts:348-382 | every online server gets a ping in [10, 150) and nothing else of it changes; the others are untouched |
| PaymentLedger.FindPayment | src/components/game/AdminPanel.tsx:40 | nothing exactly when no payment has the id; otherwise the FIRST payment with that id |
| PaymentLedger.MarkApproved | src/components/game/AdminPanel.tsx:44-46 | every payment with the id is approved; all others are kept; the length is kept |
| PaymentLedger.Approve | src/components/game/AdminPanel.tsx:39-59 | an unknown id changes nothing; otherwise the payments are marked and the payer joins the approved users, once |
| PaymentLedger.ApproveIdempotent | src/components/game/AdminPanel.tsx:39-59 | approving twice equals approving once |
| PaymentLedger.MarkApprovedIdempotent | src/components/game/AdminPanel.tsx:44-46 | marking twice equals marking once |
| PaymentLedger.MarkApprovedKeepsPayers | src/components/game/AdminPanel.tsx:44-46 | after marking, the payment found under the id has the same payer |
| PaymentLedger.RemovePayment | src/components/game/AdminPanel.tsx:66 | the `filter` that drops a rejected id; what it keeps is stated by RemovePaymentKeeps and its order by RemovePaymentConcat |
| PaymentLedger.RemovePaymentKeeps | src/components/game/AdminPanel.tsx:66 | removal keeps exactly the payments with other ids; a missing id changes nothing |
| PaymentLedger.RemovePaymentConcat | src/components/game/AdminPanel.tsx:66 | removal keeps the order of what remains |
| PaymentLedger.Reject | src/components/game/AdminPanel.tsx:61-69 | a cancelled dialog changes nothing; a confirmed one removes exactly the payments with the id |
| PaymentLedger.WithStatus | src/components/game/AdminPanel.tsx:73 | exactly the payments with the status |
| PaymentLedger.Filtered | src/components/game/AdminPanel.tsx:71-73 | "all" shows everything; otherwise exactly the payments of the chosen status |
| PaymentLedger.ComputeStats | src/components/game/AdminPanel.tsx:75-80 | the panel's counters; that they partition the total and sum the approved revenue is stated by StatsPartition and RevenueAllApproved |
| PaymentLedger.StatsPartition | src/components/game/AdminPanel.tsx:75-80 | the pending and approved counts add up to the total; the revenue equals a one-pass sum that counts each payment's value exactly when it is approved |
| PaymentLedger.RevenueAllApproved | src/components/game/AdminPanel.tsx:75-80 | with nothing pending, the revenue is the sum over every payment |
| PaymentLedger.ApproveGrantsAccess | src/components/game/AdminPanel.tsx:44-46 | approving a payment grants its payer private access |
| GameTypes.RanksAscending | src/lib/constants.ts:114-122 | seven ranks, the first threshold zero, the thresholds strictly rising |
| GameContext.LevelBounds | src/contexts/GameContext.tsx:154 | the level is the thousand of XP the total falls in, counted from 1 |
| GameContext.FirstReached | src/contexts/GameContext.tsx:162 | the first rank whose threshold the XP reaches; nothing when none is reached |
| GameContext.RankAsWritten | src/contexts/GameContext.tsx:162 | the rank lookup as written; RankAsWrittenIsAlwaysBronze states that it is always "Bronze" |
| GameContext.RankAsWrittenIsAlwaysBronze | src/contexts/GameContext.tsx:162 | the rank lookup as written yields "Bronze" for every XP total |
| GameContext.RankCounterexample | src/contexts/GameContext.tsx:162 | at 5000 XP the written lookup says "Bronze"; the corrected one says "Prata" |
| GameContext.HighestReached | src/lib/constants.ts:114-122 | the highest of the first n ranks whose threshold the XP reaches |
| GameContext.RankIndex | src/lib/constants.ts:114-122 | the highest rank whose threshold a non-negative XP total reaches; no higher rank is reached |
| GameContext.RankFor | src/lib/constants.ts:114-122 | the name of the corrected rank; RankIndex states which rank it is, RankMonotone and RankCounterexample what follows |
| GameContext.RankMonotone | src/lib/constants.ts:114-122 | more XP never gives a lower rank |
| GameContext.AddXP | src/contexts/GameContext.tsx:150-170 | XP grows by the amount; the level is recomputed; a level-up pays 100 coins once; nothing else changes; the rank stored is the corrected one (the highest threshold reached), not the as-written "Bronze" (see Findings) |
| GameContext.AddXPComposes | src/contexts/GameContext.tsx:150-170 | two grants reach the same XP, level and rank as one grant of the sum, and the level stays consistent |
| GameContext.AddXPRewardsLevelUp | src/contexts/GameContext.tsx:153-161 | with a non-negative grant the level and coins never drop; the bonus is paid exactly when a thousand is crossed |
| GameContext.GrantXP | src/contexts/GameContext.tsx:150-151 | no signed-in player: no change; otherwise the player gets the XP |
| GameContext.AddCoins | src/contexts/GameContext.tsx:172-178 | only the signed-in player's coins change, by the amount |
| GameContext.CreateReward | src/contexts/GameContext.tsx:211-212 | creating a world pays 100 XP (with the level-up bonus) and 50 coins |
| GameContext.CreateRewardCounterexample | src/contexts/GameContext.tsx:211-212 | as written, the player keeps their XP and gets only the coins; corrected, the XP is paid |
| GameContext.CreateWorld | src/contexts/GameContext.tsx:199-213 | no signed-in player: no change; otherwise the new world goes to the front and the player is rewarded |
| GameContext.NewWorld | src/contexts/GameContext.tsx:202-208 | the draft's fields, the id and date drawn, no players |
| GameContext.Overlay | src/contexts/GameContext.tsx:217 | the spread `{ ...w, ...updates }`; its laws are stated by OverlayLaws |
| GameContext.OverlayLaws | src/contexts/GameContext.tsx:217 | a spread patch is idempotent, and a full patch replaces the world |
| GameContext.UpdateWorld | src/contexts/GameContext.tsx:215-224 | exactly the worlds with the id are patched, and the current world too if it has the id |
| GameContext.UpdateWorldIdempotent | src/contexts/GameContext.tsx:215-224 | a patch that keeps the id changes nothing the second time |
| GameContext.FindWorld | src/contexts/GameContext.tsx:229 | the first world with the id; nothing exactly when none has it |
| GameContext.JoinWorld | src/contexts/GameContext.tsx:226-254 | succeeds exactly when the join guards pass; a refusal changes nothing; success enters the world, makes it current and pays 50 XP |
| GameContext.JoinRefusals | src/contexts/GameContext.tsx:233-240 | a wrong password on a private world, or a full world, is refused with no change |
| GameContext.RemoveId | src/contexts/GameContext.tsx:262 | exactly the other ids remain |
| GameContext.LeaveWorld | src/contexts/GameContext.tsx:256-268 | without a current world or player, no change; otherwise the world is left and the current world and chat are cleared |
| GameContext.JoinThenLeave | src/contexts/GameContext.tsx:226-268 | leaving right after joining restores the head count and removes the player; the other worlds are untouched |
| GameContext.CreateThenJoin | src/contexts/GameContext.tsx:199-254 | a signed-in creator can join a world they just created, with room in it, using its password |
| ChatBox.MaskWordClean | src/components/game/ChatBox.tsx:32-33 | a text without the word is left as is |
| ChatBox.MaskWord | src/components/game/ChatBox.tsx:32-33 | the global case-insensitive replace by the mask; what it does is stated by MaskWordClean, MaskWordShrinks, MaskWordPrefix, MaskWordWindow, MaskWordRemovesWord and MaskWordKeepsAbsent |
| ChatBox.MaskWordShrinks | src/components/game/ChatBox.tsx:32-33 | masking never lengthens the text, and shortens it when the word occurs |
| ChatBox.MaskWordPrefix | src/components/game/ChatBox.tsx:32-33 | up to the first mask character, the masked text is the original |
| ChatBox.MaskWordWindow | src/components/game/ChatBox.tsx:32-33 | every mask-free stretch of the masked text is a stretch of the original |
| ChatBox.MaskWordRemovesWord | src/components/game/ChatBox.tsx:32-33 | after masking, the word occurs nowhere in any letter case |
| ChatBox.MaskWordKeepsAbsent | src/components/game/ChatBox.tsx:31-34 | masking one word never makes another filter word appear |
| ChatBox.FilterWordsAreLowerWords | src/lib/constants.ts:109-112 | the filter words are lower-case ASCII words longer than the mask |
| ChatBox.FilterMessage | src/components/game/ChatBox.tsx:29-36 | the text with each filter word masked in turn |
| ChatBox.MaskAll | src/components/game/ChatBox.tsx:29-36 | the filter words applied in list order; stated by MaskAllRemovesAll and MaskAllUnchanged |
| ChatBox.MaskAllRemovesAll | src/components/game/ChatBox.tsx:29-36 | no filter word survives the filter in any letter case |
| ChatBox.MaskAllUnchanged | src/components/game/ChatBox.tsx:29-36 | the filter never lengthens a text; it leaves it unchanged exactly when no filter word occurs in it |
| ChatBox.FilterFlagMeaning | src/components/game/ChatBox.tsx:41-42 | the "filtered" flag is set exactly when some filter word occurs in the typed text |
| ChatBox.SendMessage | src/components/game/ChatBox.tsx:38-57 | blank input or no player: no change; otherwise the filtered message (free of filter words, flagged exactly when one was typed) is appended, the input cleared, and 10 XP paid |
| ChatBox.QuickMessage | src/components/game/ChatBox.tsx:59-74 | no player: no change; otherwise the message is appended unfiltered and unflagged, the input is kept, and the game state changes only by the 10 XP grant |
| ChatBox.EmojiClick | src/components/game/ChatBox.tsx:76-79 | the emoji goes at the end of the input; the messages are kept |
| Common.TrimStart | src/components/minecraft/CreateMinecraftWorld.tsx:26 | drops the leading JavaScript white space; the result starts with none |
| Common.TrimEnd | src/components/minecraft/CreateMinecraftWorld.tsx:26 | drops the trailing JavaScript white space; the result ends with none |
| Common.Trim | src/components/minecraft/CreateMinecraftWorld.tsx:26 | the slice of the text left after dropping white space at both ends: what is dropped is all white space, and what is kept starts and ends with none |
| Common.TrimEmptyIffBlank | src/components/game/ChatBox.tsx:39 | a trimmed text is empty exactly when every character is white space |
| MinecraftWorldForm.Validate | src/components/minecraft/CreateMinecraftWorld.tsx:26-54 | each error is reported exactly when the earlier guards pass and its own fails; no error exactly when every guard passes |
| MinecraftWorldForm.Submit | src/components/minecraft/CreateMinecraftWorld.tsx:20-78 | a failed guard saves nothing and reports its error; otherwise the new record is appended to the stored list |
| MinecraftWorldForm.NewRecord | src/components/minecraft/CreateMinecraftWorld.tsx:63-73 | the saved world record; its properties are stated by SavedWorldIsClean |
| MinecraftWorldForm.SavedWorldIsClean | src/components/minecraft/CreateMinecraftWorld.tsx:63-73 | a saved world has a non-empty, trimmed name, description and address; the parsed port; a non-blank password exactly when private; a creator name |
| MinecraftWorldForm.OutcomeIndependentOfPlayer | src/components/minecraft/CreateMinecraftWorld.tsx:26-54 | whether saving succeeds never depends on who is signed in or on the stored list |
| CreateWorldForm.Check | src/components/game/CreateWorld.tsx:48-61 | each alert is raised exactly when the earlier guards pass and its own fails |
| CreateWorldForm.Draft | src/components/game/CreateWorld.tsx:64-74 | the draft carries the typed fields, a password only when private, the player's id and name when non-empty, and otherwise the defaults "1" and "Jogador" |
| CreateWorldForm.Submit | src/components/game/CreateWorld.tsx:45-74 | each alert is raised exactly when the earlier guards pass and its own fails; otherwise the draft carries the typed fields, a password only when private, the player's id and name when non-empty, and otherwise the defaults "1" and "Jogador" |
| CreateWorldForm.SelectPublic | src/components/game/CreateWorld.tsx:202 | not private, the password cleared, nothing else changed |
| CreateWorldForm.SelectPrivate | src/components/game/CreateWorld.tsx:216 | private, nothing else changed |
| CreateWorldForm.PublicNeedsOnlyAName | src/components/game/CreateWorld.tsx:48-74 | a public world is refused only for want of a name, and its draft has no password |
| CreateWorldForm.SwitchingBackClearsPassword | src/components/game/CreateWorld.tsx:202-216 | switching to public and back to private loses the typed password |
| CreateWorldForm.SubmitThenJoin | src/components/game/CreateWorld.tsx:64-74 | the draft sent becomes the first world, and its creator can join it with the password sent |

## Left out

- **Persistence.** `loadServers`, `saveServers` and every `localStorage` read and write are not modelled. The registry starts empty, and the payment ledger and stored world lists are passed in as values.
- **Real timers and intervals.** `setTimeout` and `setInterval` are replaced by explicit methods: `FireAutoShutdown`, `FinishRestart`, `HealthTick` and `PingTick`. The five-minute, two-second, one-minute and five-second delays are not modelled.
- **Clock and random values.** `Date.now()`, `new Date()` and `Math.random()` are parameters: `now`, the id, the name suffix, the join code, the ping and the port offset.
- **Log entries.** Log ids are not modelled. Log text is modelled as a `LogMessage` constructor carrying the interpolated values, not as the emoji-decorated string.
- **`senha` on `Server`.** The server password is never read or written by the fleet code.
- ServerManagerModel.ServerManager.FinishRestart: the restart timer's callback mutates the server object it captured, even if that record has since been replaced or deleted. The model updates the record still in the map, or nothing if the server is gone.
- **Aliasing of returned records.** The records that `getServidor` and `criarServidorAutomatico` return are shared objects in the source; here they are values.
- **`abrirJogoDeepLink`.** It opens a deep link in the browser.
- **`stopPingForServer`.** It only clears an entry of the ping-interval map, which nothing ever fills, so it never has an effect.
- **Default arguments of `criarServidorAutomatico`** ('Minecraft', 'publico', 10, true). `Create` takes all five values explicitly, as the call in src/components/omlet/CreateServer.tsx:46-52 passes them.
- ServerManagerModel.ServerManager.Create: the ping it stores is the one the immediate `atualizarPing` draws in [10, 150). The first draw in [10, 60), which that call overwrites at once, is not modelled.
- **`checkAchievements`.** Its body is empty in the source. `updateRankings` fills mock data and is not modelled either.
- **`Number()` parsing.** It is modelled as an `Option<real>` parameter, where `None` stands for NaN.
- **Payment `valor`.** It is a floating-point number in the source and integer cents here. The date sort in `loadPagamentos` is not modelled.
- **Dialogs.** `alert` is not modelled. The answer to `confirm` is a parameter of `Reject`.
- **Storage failure.** The try/catch path in the Minecraft form, for a storage failure, is not modelled.
- **UI-only state.** Dialog visibility, emoji and quick-message panels, status messages and scrolling are not modelled.
- **`Submit` of the Minecraft form.** It returns the appended list directly; the one-second simulated delay is not modelled.
- GameContext.RankIndex: the lookup follows the rank table's intent (the highest threshold reached), not the `find` as written. See Findings.
- GameContext.AddXP: it stores the corrected rank `RankFor(newXP)`, not the as-written `RANKS.find(...)`, which is always "Bronze" (`RankAsWrittenIsAlwaysBronze`). `GrantXP`, `JoinWorld`, `SendMessage`, `QuickMessage` and `CreateReward` inherit this. See Findings.
- GameContext.CreateWorld: it pays the intended reward, not the as-written one. See Findings.

## Findings

| source | as written | input that shows it | evidently intended | confidence | as-written member | corrected member |
|---|---|---|---|---|---|---|
| src/contexts/GameContext.tsx:162 | `RANKS.find(r => newXP >= r.minXP)` returns the first rank whose threshold is reached; the table ascends from 0, so the lowest rank always matches | a player reaching 5000 XP is ranked "Bronze" | the highest rank whose threshold is reached ("Prata" at 5000) | not executed | GameContext.RankCounterexample | GameContext.RankMonotone |
| src/contexts/GameContext.tsx:211-212 | `addXP(100)` and `addCoins(50)` each set the player to a copy of the same snapshot; the later write (coins) replaces the earlier one | any signed-in player creating a world: XP unchanged, coins +50 | +100 XP (with the level-up bonus) and +50 coins | not executed | GameContext.CreateRewardCounterexample | GameContext.CreateReward |
