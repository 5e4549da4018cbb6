/** The form that creates a world of the hub: its guards (a name; for a
    private world, a paid access and a password), the draft it hands to
    `createWorld`, and the public/private switch. */
module CreateWorldForm {
  import opened Common
  import opened GameTypes
  import GameContext

  /** What the form holds. */
  datatype FormData = FormData(
    name: string,
    description: string,
    image: string,
    category: string,
    maxPlayers: int,
    isPrivate: bool,
    password: string)

  /** The alert shown instead of creating the world. */
  datatype FormError = NameRequired | PaymentRequired | PasswordRequired

  /** The guards of `handleSubmit`, first failure first. */
  function Check(f: FormData, hasPrivateAccess: bool): (r: Option<FormError>)
    ensures r == Some(NameRequired) <==> IsBlank(f.name)
    ensures r == Some(PaymentRequired) <==> !IsBlank(f.name) && f.isPrivate && !hasPrivateAccess
    ensures r == Some(PasswordRequired) <==> !IsBlank(f.name) && f.isPrivate && hasPrivateAccess && IsBlank(f.password)
  {
    TrimEmptyIffBlank(f.name);
    TrimEmptyIffBlank(f.password);
    if Trim(f.name) == [] then Some(NameRequired)
    else if f.isPrivate && !hasPrivateAccess then Some(PaymentRequired)
    else if f.isPrivate && Trim(f.password) == [] then Some(PasswordRequired)
    else None
  }

  /** The draft `handleSubmit` sends once the guards pass. */
  function Draft(f: FormData, player: Option<Player>): (d: WorldDraft)
    ensures d.name == f.name && d.description == f.description && d.image == f.image
    ensures d.category == f.category && d.maxPlayers == f.maxPlayers && d.isPrivate == f.isPrivate
    ensures d.password == (if f.isPrivate then Some(f.password) else None)
    ensures d.createdBy != [] && d.creatorName != []
    ensures player.Some? && player.value.id != [] ==> d.createdBy == player.value.id
    ensures player.Some? && player.value.name != [] ==> d.creatorName == player.value.name
    ensures player.None? || player.value.id == [] ==> d.createdBy == "1"
    ensures player.None? || player.value.name == [] ==> d.creatorName == "Jogador"
  {
    WorldDraft(f.name, f.description, f.image, f.category, f.maxPlayers, f.isPrivate,
               if f.isPrivate then Some(f.password) else None,
               OrDefault(if player.Some? then Some(player.value.id) else None, "1"),
               OrDefault(if player.Some? then Some(player.value.name) else None, "Jogador"))
  }

  /** `handleSubmit`: the guards in order, then the draft. The name is
      checked trimmed but sent as typed; the password goes only with a
      private world; the creator defaults to id "1" and name "Jogador". */
  function Submit(f: FormData, hasPrivateAccess: bool, player: Option<Player>): (r: Result<WorldDraft, FormError>)
    ensures r == Err(NameRequired) <==> IsBlank(f.name)
    ensures r == Err(PaymentRequired) <==> !IsBlank(f.name) && f.isPrivate && !hasPrivateAccess
    ensures r == Err(PasswordRequired) <==> !IsBlank(f.name) && f.isPrivate && hasPrivateAccess && IsBlank(f.password)
    ensures r.Ok? ==> (
      && r.value.name == f.name && r.value.description == f.description && r.value.image == f.image
      && r.value.category == f.category && r.value.maxPlayers == f.maxPlayers
      && r.value.isPrivate == f.isPrivate
      && r.value.password == (if f.isPrivate then Some(f.password) else None)
      && r.value.createdBy != [] && r.value.creatorName != []
      && (player.Some? && player.value.id != [] ==> r.value.createdBy == player.value.id)
      && (player.Some? && player.value.name != [] ==> r.value.creatorName == player.value.name)
      && (player.None? || player.value.id == [] ==> r.value.createdBy == "1")
      && (player.None? || player.value.name == [] ==> r.value.creatorName == "Jogador"))
  {
    match Check(f, hasPrivateAccess)
    case Some(e) => Err(e)
    case None => Ok(Draft(f, player))
  }

  /** The "public" button: not private, and the password is cleared. */
  function SelectPublic(f: FormData): (r: FormData)
    ensures !r.isPrivate && r.password == ""
    ensures r.(isPrivate := f.isPrivate, password := f.password) == f
  {
    f.(isPrivate := false, password := "")
  }

  /** The "private" button: private, the password kept. */
  function SelectPrivate(f: FormData): (r: FormData)
    ensures r.isPrivate && r.(isPrivate := f.isPrivate) == f
  {
    f.(isPrivate := true)
  }

  /** A public world is refused only for want of a name, and its draft
      carries no password, whatever was typed before switching. */
  lemma PublicNeedsOnlyAName(f: FormData, hasPrivateAccess: bool, player: Option<Player>)
    ensures var r := Submit(SelectPublic(f), hasPrivateAccess, player);
      && (r.Err? <==> IsBlank(f.name))
      && (r.Ok? ==> r.value.password.None? && !r.value.isPrivate)
  {
  }

  /** The password typed before switching to public and back to private is
      gone. */
  lemma SwitchingBackClearsPassword(f: FormData)
    ensures SelectPrivate(SelectPublic(f)).password == "" && SelectPrivate(SelectPublic(f)).isPrivate
  {
  }

  /** What the form sends, `createWorld` puts at the front of the list: a
      creator with room in the world can then join it with the password the
      form sent (none for a public world). */
  lemma SubmitThenJoin(f: FormData, hasPrivateAccess: bool, st: GameContext.GameState, id: string, now: int)
    requires st.currentPlayer.Some? && f.maxPlayers > 0
    requires Submit(f, hasPrivateAccess, st.currentPlayer).Ok?
    ensures var d := Submit(f, hasPrivateAccess, st.currentPlayer).value;
      var st' := GameContext.CreateWorld(st, d, id, now);
      && st'.worlds[0] == GameContext.NewWorld(d, id, now)
      && st'.worlds[0].isPrivate == f.isPrivate
      && GameContext.JoinWorld(st', id, if f.isPrivate then Some(f.password) else None).1
  {
    var d := Submit(f, hasPrivateAccess, st.currentPlayer).value;
    GameContext.CreateThenJoin(st, d, id, now);
  }
}
