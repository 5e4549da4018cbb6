/** The records the game hub passes around (players, worlds, chat messages)
    and the constants of its reward, rank and filter tables. */
module GameTypes {
  import opened Common

  /** A player profile; `createdAt` is a clock reading. */
  datatype Player = Player(
    id: string,
    name: string,
    avatar: string,
    bio: string,
    level: int,
    xp: int,
    coins: int,
    rank: string,
    achievements: seq<string>,
    profileFrame: Option<string>,
    profileBackground: Option<string>,
    createdAt: int,
    totalPlayTime: int)

  /** A world (a room) players join; `password` is absent on public worlds. */
  datatype World = World(
    id: string,
    name: string,
    description: string,
    image: string,
    category: string,
    players: int,
    maxPlayers: int,
    isPrivate: bool,
    password: Option<string>,
    createdBy: string,
    creatorName: string,
    createdAt: int,
    playersInside: seq<string>)

  /** What a creator supplies for a new world: a `World` without id, date,
      head count and occupants. */
  datatype WorldDraft = WorldDraft(
    name: string,
    description: string,
    image: string,
    category: string,
    maxPlayers: int,
    isPrivate: bool,
    password: Option<string>,
    createdBy: string,
    creatorName: string)

  /** A chat message; `isFiltered` is absent on quick messages. */
  datatype ChatMessage = ChatMessage(
    id: string,
    playerId: string,
    playerName: string,
    playerAvatar: string,
    message: string,
    timestamp: int,
    isFiltered: Option<bool>)

  const XP_PER_LEVEL: int := 1000

  /** XP granted for joining a world and for sending a chat message. */
  const XP_JOIN_WORLD: int := 50
  const XP_SEND_MESSAGE: int := 10

  /** Coins granted when a level is gained. */
  const COINS_LEVEL_UP: int := 100

  datatype Rank = Rank(name: string, minXP: int, color: string)

  /** The rank table, by ascending XP threshold. */
  const RANKS: seq<Rank> := [
    Rank("Bronze", 0, "#CD7F32"),
    Rank("Prata", 5000, "#C0C0C0"),
    Rank("Ouro", 15000, "#FFD700"),
    Rank("Platina", 30000, "#E5E4E2"),
    Rank("Diamante", 50000, "#B9F2FF"),
    Rank("Mestre", 80000, "#9B59B6"),
    Rank("Lendário", 120000, "#FF1493")
  ]

  /** The words the chat masks. */
  const PROFANITY_FILTER: seq<string> := ["idiota", "burro", "estupido", "imbecil"]

  /** The rank thresholds rise strictly, starting at zero. */
  lemma RanksAscending()
    ensures |RANKS| == 7 && RANKS[0].minXP == 0
    ensures forall i, j :: 0 <= i < j < |RANKS| ==> RANKS[i].minXP < RANKS[j].minXP
  {
  }
}
