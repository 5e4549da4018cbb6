/** The shared game state of the hub: the signed-in player with XP, level,
    coins and rank; the list of worlds; the world the player is in and its
    chat. Each operation is a function from the old state to the new one. */
module GameContext {
  import opened Common
  import opened GameTypes

  datatype GameState = GameState(
    currentPlayer: Option<Player>,
    worlds: seq<World>,
    currentWorld: Option<World>,
    worldMessages: seq<ChatMessage>)

  // ---------------------------------------------------------------------------
  // Levels and ranks

  /** `Math.floor(xp / XP_PER_LEVEL) + 1`; Dafny's division by a positive
      divisor rounds down, as `Math.floor` does. */
  function LevelFor(xp: int): int {
    xp / XP_PER_LEVEL + 1
  }

  /** The level of an XP total is the thousand it falls in, counted from 1. */
  lemma LevelBounds(xp: int)
    ensures (LevelFor(xp) - 1) * XP_PER_LEVEL <= xp < LevelFor(xp) * XP_PER_LEVEL
  {
  }

  /** `rs.findIndex(r => xp >= r.minXP)`, as an option. */
  function FirstReached(rs: seq<Rank>, xp: int): (r: Option<nat>)
    ensures r.None? <==> forall i :: 0 <= i < |rs| ==> xp < rs[i].minXP
    ensures r.Some? ==> r.value < |rs| && xp >= rs[r.value].minXP
    ensures r.Some? ==> forall i :: 0 <= i < r.value ==> xp < rs[i].minXP
  {
    if rs == [] then None
    else if xp >= rs[0].minXP then Some(0)
    else match FirstReached(rs[1..], xp)
      case None => None
      case Some(i) => Some(i + 1)
  }

  /** The rank `addXP` assigns, as written: the FIRST rank whose threshold
      the XP reaches, or "Bronze". */
  function RankAsWritten(xp: int): string {
    var f := FirstReached(RANKS, xp);
    OrDefault(if f.Some? then Some(RANKS[f.value].name) else None, "Bronze")
  }

  /** As written the table is searched from its lowest threshold, 0, so
      every player is "Bronze" whatever their XP. */
  lemma RankAsWrittenIsAlwaysBronze(xp: int)
    ensures RankAsWritten(xp) == "Bronze"
  {
    RanksAscending();
  }

  /** The index of the highest of the first `n` ranks whose threshold `xp`
      reaches (index 0 when none does). */
  function HighestReached(n: nat, xp: int): (i: nat)
    requires 1 <= n <= |RANKS|
    ensures i < n && (i == 0 || RANKS[i].minXP <= xp)
    ensures forall j :: i < j < n ==> xp < RANKS[j].minXP
  {
    if n == 1 then 0
    else if RANKS[n - 1].minXP <= xp then n - 1
    else HighestReached(n - 1, xp)
  }

  /** The rank reached with `xp`: the highest threshold not above it. */
  function RankIndex(xp: int): (i: nat)
    ensures i < |RANKS|
    ensures xp >= 0 ==> RANKS[i].minXP <= xp
    ensures forall j :: i < j < |RANKS| ==> xp < RANKS[j].minXP
  {
    HighestReached(|RANKS|, xp)
  }

  /** The rank name `addXP` evidently intends. */
  function RankFor(xp: int): string {
    RANKS[RankIndex(xp)].name
  }

  /** More XP never means a lower rank. */
  lemma RankMonotone(x: int, y: int)
    requires x <= y
    ensures RankIndex(x) <= RankIndex(y)
  {
    RanksAscending();
  }

  /** At 5000 XP the written lookup still says "Bronze", where the table
      gives "Prata". */
  lemma RankCounterexample()
    ensures RankAsWritten(5000) == "Bronze"
    ensures RankFor(5000) == "Prata"
  {
    RankAsWrittenIsAlwaysBronze(5000);
    RanksAscending();
    assert RankIndex(5000) == 1;
  }

  // ---------------------------------------------------------------------------
  // XP and coins

  /** `addXP(amount)` on the player: the XP grows by `amount`, the level is
      recomputed from the XP, a level gained pays 100 coins once (however many
      levels were gained), and the rank follows the XP. Nothing else changes. */
  function AddXP(p: Player, amount: int): (r: Player)
    ensures r.xp == p.xp + amount && r.level == LevelFor(r.xp)
    ensures r.coins == p.coins + (if r.level > p.level then COINS_LEVEL_UP else 0)
    ensures r.rank == RankFor(r.xp)
    ensures r.(xp := p.xp, level := p.level, coins := p.coins, rank := p.rank) == p
  {
    var newXP := p.xp + amount;
    var newLevel := LevelFor(newXP);
    var leveledUp := newLevel > p.level;
    p.(xp := newXP, level := newLevel,
       coins := if leveledUp then p.coins + COINS_LEVEL_UP else p.coins,
       rank := RankFor(newXP))
  }

  /** A player whose level agrees with their XP. */
  predicate LevelConsistent(p: Player) {
    p.level == LevelFor(p.xp)
  }

  /** Two grants of XP reach the same XP, level and rank as one grant of the
      sum, and the level stays consistent with the XP. */
  lemma AddXPComposes(p: Player, a: int, b: int)
    ensures var two := AddXP(AddXP(p, a), b);
      var one := AddXP(p, a + b);
      && two.xp == one.xp && two.level == one.level && two.rank == one.rank
      && LevelConsistent(two)
  {
  }

  /** With non-negative grants the level never drops and the coins never
      shrink; crossing a thousand pays the bonus. */
  lemma AddXPRewardsLevelUp(p: Player, amount: int)
    requires LevelConsistent(p) && amount >= 0
    ensures var r := AddXP(p, amount);
      && r.level >= p.level && r.coins >= p.coins
      && ((p.xp / XP_PER_LEVEL < (p.xp + amount) / XP_PER_LEVEL) <==> r.coins == p.coins + COINS_LEVEL_UP)
  {
  }

  /** `addXP` on the state: nothing without a signed-in player. */
  function GrantXP(st: GameState, amount: int): (r: GameState)
    ensures st.currentPlayer.None? ==> r == st
    ensures st.currentPlayer.Some? ==> r == st.(currentPlayer := Some(AddXP(st.currentPlayer.value, amount)))
  {
    match st.currentPlayer
    case None => st
    case Some(p) => st.(currentPlayer := Some(AddXP(p, amount)))
  }

  /** `addCoins(amount)`: only the coins of the signed-in player change. */
  function AddCoins(st: GameState, amount: int): (r: GameState)
    ensures st.currentPlayer.None? ==> r == st
    ensures st.currentPlayer.Some? ==> (
      && r.currentPlayer.Some?
      && r.currentPlayer.value.coins == st.currentPlayer.value.coins + amount
      && r.currentPlayer.value.(coins := st.currentPlayer.value.coins) == st.currentPlayer.value
      && r.(currentPlayer := st.currentPlayer) == st)
  {
    match st.currentPlayer
    case None => st
    case Some(p) => st.(currentPlayer := Some(p.(coins := p.coins + amount)))
  }

  // ---------------------------------------------------------------------------
  // Worlds

  /** The reward for creating a world. */
  const XP_CREATE_WORLD: int := 100
  const COINS_CREATE_WORLD: int := 50

  /** The player after `createWorld`'s rewards as written: `addXP` and
      `addCoins` each set the player to a copy of the SAME snapshot, so the
      later write, the coins, replaces the earlier one and the XP is lost. */
  function CreateRewardAsWritten(p: Player): Player {
    LastWrite([AddXP(p, XP_CREATE_WORLD), p.(coins := p.coins + COINS_CREATE_WORLD)])
  }

  /** Of several values a handler sets one piece of state to, the state
      keeps the last. */
  function LastWrite(writes: seq<Player>): Player
    requires writes != []
  {
    writes[|writes| - 1]
  }

  /** The rewards `createWorld` evidently intends: 100 XP (with the level-up
      bonus if a level is gained) and then 50 coins. */
  function CreateReward(p: Player): (r: Player)
    ensures r.xp == p.xp + XP_CREATE_WORLD && r.level == LevelFor(r.xp) && r.rank == RankFor(r.xp)
    ensures r.coins == p.coins + COINS_CREATE_WORLD + (if r.level > p.level then COINS_LEVEL_UP else 0)
    ensures r.(xp := p.xp, level := p.level, coins := p.coins, rank := p.rank) == p
  {
    var q := AddXP(p, XP_CREATE_WORLD);
    q.(coins := q.coins + COINS_CREATE_WORLD)
  }

  /** As written, creating a world pays the coins but never the XP, whoever
      the player is; the corrected reward pays both. */
  lemma CreateRewardCounterexample(p: Player)
    ensures CreateRewardAsWritten(p).xp == p.xp
    ensures CreateRewardAsWritten(p).coins == p.coins + COINS_CREATE_WORLD
    ensures CreateReward(p).xp == p.xp + XP_CREATE_WORLD
    ensures CreateReward(p).coins >= p.coins + COINS_CREATE_WORLD
  {
  }

  /** `createWorld(draft)` with the id and date it draws: without a player
      nothing happens; otherwise the new, empty world goes to the FRONT of
      the list and the player is rewarded (`CreateReward`). */
  function CreateWorld(st: GameState, d: WorldDraft, id: string, now: int): (r: GameState)
    ensures st.currentPlayer.None? ==> r == st
    ensures st.currentPlayer.Some? ==> (
      && r.worlds == [NewWorld(d, id, now)] + st.worlds
      && r.currentPlayer == Some(CreateReward(st.currentPlayer.value))
      && r.currentWorld == st.currentWorld && r.worldMessages == st.worldMessages)
  {
    if st.currentPlayer.None? then st
    else st.(worlds := [NewWorld(d, id, now)] + st.worlds,
             currentPlayer := Some(CreateReward(st.currentPlayer.value)))
  }

  /** The record `createWorld` builds: the draft's fields, no one inside. */
  function NewWorld(d: WorldDraft, id: string, now: int): (w: World)
    ensures w.id == id && w.createdAt == now && w.players == 0 && w.playersInside == []
    ensures w.name == d.name && w.description == d.description && w.image == d.image
    ensures w.category == d.category && w.maxPlayers == d.maxPlayers && w.isPrivate == d.isPrivate
    ensures w.password == d.password && w.createdBy == d.createdBy && w.creatorName == d.creatorName
  {
    World(id, d.name, d.description, d.image, d.category, 0, d.maxPlayers, d.isPrivate, d.password,
          d.createdBy, d.creatorName, now, [])
  }

  /** `Partial<World>`: each field present or not; `password` may be set to
      a value or explicitly to nothing. */
  datatype WorldPatch = WorldPatch(
    id: Option<string>,
    name: Option<string>,
    description: Option<string>,
    image: Option<string>,
    category: Option<string>,
    players: Option<int>,
    maxPlayers: Option<int>,
    isPrivate: Option<bool>,
    password: Option<Option<string>>,
    createdBy: Option<string>,
    creatorName: Option<string>,
    createdAt: Option<int>,
    playersInside: Option<seq<string>>)

  function Pick<T>(o: Option<T>, d: T): T {
    if o.Some? then o.value else d
  }

  /** `{ ...w, ...patch }`. */
  function Overlay(w: World, p: WorldPatch): World {
    World(Pick(p.id, w.id), Pick(p.name, w.name), Pick(p.description, w.description), Pick(p.image, w.image),
          Pick(p.category, w.category), Pick(p.players, w.players), Pick(p.maxPlayers, w.maxPlayers),
          Pick(p.isPrivate, w.isPrivate), Pick(p.password, w.password), Pick(p.createdBy, w.createdBy),
          Pick(p.creatorName, w.creatorName), Pick(p.createdAt, w.createdAt), Pick(p.playersInside, w.playersInside))
  }

  /** A patch carrying every field of `w`. */
  function FullPatch(w: World): WorldPatch {
    WorldPatch(Some(w.id), Some(w.name), Some(w.description), Some(w.image), Some(w.category), Some(w.players),
               Some(w.maxPlayers), Some(w.isPrivate), Some(w.password), Some(w.createdBy), Some(w.creatorName),
               Some(w.createdAt), Some(w.playersInside))
  }

  /** Overlaying twice is overlaying once, and a full patch replaces the
      world by the one it was made from. */
  lemma OverlayLaws(w: World, p: WorldPatch, v: World)
    ensures Overlay(Overlay(w, p), p) == Overlay(w, p)
    ensures Overlay(w, FullPatch(v)) == v
  {
  }

  /** `updateWorld(worldId, patch)`: every world with that id is patched,
      the others are kept, and so is the current world if it has that id. */
  function UpdateWorld(st: GameState, worldId: string, p: WorldPatch): (r: GameState)
    ensures |r.worlds| == |st.worlds|
    ensures forall i :: 0 <= i < |st.worlds| ==>
      r.worlds[i] == if st.worlds[i].id == worldId then Overlay(st.worlds[i], p) else st.worlds[i]
    ensures r.currentWorld == if st.currentWorld.Some? && st.currentWorld.value.id == worldId
                              then Some(Overlay(st.currentWorld.value, p)) else st.currentWorld
    ensures r.currentPlayer == st.currentPlayer && r.worldMessages == st.worldMessages
  {
    var ws := seq(|st.worlds|, i requires 0 <= i < |st.worlds| =>
      if st.worlds[i].id == worldId then Overlay(st.worlds[i], p) else st.worlds[i]);
    var cw := if st.currentWorld.Some? && st.currentWorld.value.id == worldId
              then Some(Overlay(st.currentWorld.value, p)) else st.currentWorld;
    st.(worlds := ws, currentWorld := cw)
  }

  /** Applying a patch that keeps the id a second time changes nothing. */
  lemma UpdateWorldIdempotent(st: GameState, worldId: string, p: WorldPatch)
    requires p.id.None? || p.id == Some(worldId)
    ensures UpdateWorld(UpdateWorld(st, worldId, p), worldId, p) == UpdateWorld(st, worldId, p)
  {
    var once := UpdateWorld(st, worldId, p);
    var twice := UpdateWorld(once, worldId, p);
    forall i | 0 <= i < |st.worlds|
      ensures twice.worlds[i] == once.worlds[i]
    {
      OverlayLaws(st.worlds[i], p, st.worlds[i]);
    }
    if st.currentWorld.Some? {
      OverlayLaws(st.currentWorld.value, p, st.currentWorld.value);
    }
  }

  /** `worlds.find(w => w.id === id)`, as the index of the first match. */
  function FindWorld(ws: seq<World>, id: string): (r: Option<nat>)
    ensures r.None? <==> forall i :: 0 <= i < |ws| ==> ws[i].id != id
    ensures r.Some? ==> r.value < |ws| && ws[r.value].id == id
    ensures r.Some? ==> forall i :: 0 <= i < r.value ==> ws[i].id != id
  {
    if ws == [] then None
    else if ws[0].id == id then Some(0)
    else match FindWorld(ws[1..], id)
      case None => None
      case Some(i) => Some(i + 1)
  }

  /** The guards of `joinWorld`: a signed-in player, a world with that id,
      the right password if the world is private (absent and absent match),
      and room left. */
  predicate CanJoin(st: GameState, worldId: string, password: Option<string>) {
    && st.currentPlayer.Some?
    && FindWorld(st.worlds, worldId).Some?
    && var w := st.worlds[FindWorld(st.worlds, worldId).value];
    && (!w.isPrivate || w.password == password)
    && w.players < w.maxPlayers
  }

  /** The world `joinWorld` stores: one more head and the player's id at the
      end of the occupants (a player already inside is added again). */
  function Entered(w: World, pid: string): World {
    w.(players := w.players + 1, playersInside := w.playersInside + [pid])
  }

  /** `joinWorld(worldId, password)`: refused (state unchanged) unless
      `CanJoin`; otherwise every world with that id becomes the entered world,
      which is also the current world, and the player earns 50 XP. */
  function JoinWorld(st: GameState, worldId: string, password: Option<string>): (r: (GameState, bool))
    ensures r.1 == CanJoin(st, worldId, password)
    ensures !r.1 ==> r.0 == st
    ensures r.1 ==> (
      var w := st.worlds[FindWorld(st.worlds, worldId).value];
      var u := Entered(w, st.currentPlayer.value.id);
      && r.0.currentWorld == Some(u)
      && r.0.currentPlayer == Some(AddXP(st.currentPlayer.value, XP_JOIN_WORLD))
      && r.0.worlds == UpdateWorld(st, worldId, FullPatch(u)).worlds
      && r.0.worldMessages == st.worldMessages)
  {
    if !CanJoin(st, worldId, password) then (st, false)
    else
      var p := st.currentPlayer.value;
      var w := st.worlds[FindWorld(st.worlds, worldId).value];
      var u := Entered(w, p.id);
      var s1 := UpdateWorld(st, worldId, FullPatch(u)).(currentWorld := Some(u));
      (GrantXP(s1, XP_JOIN_WORLD), true)
  }

  /** A private world refuses a wrong password, and a full world refuses
      everyone. */
  lemma JoinRefusals(st: GameState, worldId: string, password: Option<string>)
    requires FindWorld(st.worlds, worldId).Some?
    ensures var w := st.worlds[FindWorld(st.worlds, worldId).value];
      (w.isPrivate && w.password != password) || w.players >= w.maxPlayers ==>
        JoinWorld(st, worldId, password) == (st, false)
  {
  }

  /** `ids.filter(id => id !== pid)`. */
  function RemoveId(ids: seq<string>, pid: string): (r: seq<string>)
    ensures forall x :: x in r <==> x in ids && x != pid
    ensures |r| <= |ids|
  {
    if ids == [] then []
    else (if ids[0] == pid then [] else [ids[0]]) + RemoveId(ids[1..], pid)
  }

  function Max0(x: int): int {
    if x < 0 then 0 else x
  }

  /** The world `leaveWorld` stores: one head fewer (never below zero) and
      every occurrence of the player's id gone. */
  function Left(w: World, pid: string): World {
    w.(players := Max0(w.players - 1), playersInside := RemoveId(w.playersInside, pid))
  }

  /** `leaveWorld()`: without a current world or player nothing happens;
      otherwise every world with the current world's id becomes the left
      world, and the current world and its chat are cleared. */
  function LeaveWorld(st: GameState): (r: GameState)
    ensures st.currentWorld.None? || st.currentPlayer.None? ==> r == st
    ensures st.currentWorld.Some? && st.currentPlayer.Some? ==> (
      var u := Left(st.currentWorld.value, st.currentPlayer.value.id);
      && r.worlds == UpdateWorld(st, st.currentWorld.value.id, FullPatch(u)).worlds
      && r.currentWorld.None? && r.worldMessages == []
      && r.currentPlayer == st.currentPlayer)
  {
    if st.currentWorld.None? || st.currentPlayer.None? then st
    else
      var cw := st.currentWorld.value;
      var u := Left(cw, st.currentPlayer.value.id);
      UpdateWorld(st, cw.id, FullPatch(u)).(currentWorld := None, worldMessages := [])
  }

  /** Leaving right after joining gives every world with that id the head
      count it had before (for a non-negative count) and its occupants
      without the player; the other worlds are untouched. */
  lemma JoinThenLeave(st: GameState, worldId: string, password: Option<string>)
    requires CanJoin(st, worldId, password)
    ensures var w := st.worlds[FindWorld(st.worlds, worldId).value];
      var pid := st.currentPlayer.value.id;
      var s2 := LeaveWorld(JoinWorld(st, worldId, password).0);
      && |s2.worlds| == |st.worlds|
      && s2.currentWorld.None? && s2.worldMessages == []
      && (forall i :: 0 <= i < |st.worlds| && st.worlds[i].id != worldId ==> s2.worlds[i] == st.worlds[i])
      && (forall i :: 0 <= i < |st.worlds| && st.worlds[i].id == worldId ==>
            && s2.worlds[i] == w.(players := Max0(w.players), playersInside := RemoveId(w.playersInside + [pid], pid))
            && (w.players >= 0 ==> s2.worlds[i].players == w.players)
            && (forall x :: x in s2.worlds[i].playersInside <==> x in w.playersInside && x != pid))
  {
    var w := st.worlds[FindWorld(st.worlds, worldId).value];
    var pid := st.currentPlayer.value.id;
    var u := Entered(w, pid);
    var s1 := JoinWorld(st, worldId, password).0;
    var s2 := LeaveWorld(s1);
    assert s1.currentWorld == Some(u);
    assert u.id == worldId;
    forall i | 0 <= i < |st.worlds|
      ensures st.worlds[i].id == worldId ==> s1.worlds[i] == u
      ensures st.worlds[i].id != worldId ==> s1.worlds[i] == st.worlds[i]
    {
      OverlayLaws(st.worlds[i], FullPatch(u), u);
    }
    forall i | 0 <= i < |st.worlds| && st.worlds[i].id == worldId
      ensures s2.worlds[i] == Left(u, pid)
    {
      OverlayLaws(s1.worlds[i], FullPatch(Left(u, pid)), Left(u, pid));
    }
  }

  /** A world just created by a signed-in player, with room for someone,
      admits its creator with the password it was given: the new world is
      the first one found under its id. */
  lemma CreateThenJoin(st: GameState, d: WorldDraft, id: string, now: int)
    requires st.currentPlayer.Some? && d.maxPlayers > 0
    ensures JoinWorld(CreateWorld(st, d, id, now), id, d.password).1
  {
    var s1 := CreateWorld(st, d, id, now);
    assert FindWorld(s1.worlds, id) == Some(0);
  }
}
