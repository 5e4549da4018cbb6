/** The form that registers a Minecraft world (a name, a description, the
    address of the server, and a password when private): its guards, in the
    order they run, and the record it appends to the stored list. */
module MinecraftWorldForm {
  import opened Common
  import opened GameTypes

  datatype Visibility = Publico | Privado

  /** What the form holds, as typed. */
  datatype Form = Form(
    nome: string,
    descricao: string,
    ipServidor: string,
    portaServidor: string,
    tipo: Visibility,
    senha: string)

  /** The message the form shows instead of saving. */
  datatype FormError = NameRequired | DescriptionRequired | IpRequired | InvalidPort | PasswordRequired

  /** A stored world; the port is the number the port text parsed to. */
  datatype MinecraftWorld = MinecraftWorld(
    id: string,
    nome: string,
    descricao: string,
    ipServidor: string,
    portaServidor: real,
    tipo: Visibility,
    senha: Option<string>,
    criador: string,
    dataCriacao: string)

  /** The guards of `handleSubmit`, first failure first. `port` is what
      `Number(portaServidor)` gives, `None` standing for NaN. */
  function Validate(f: Form, port: Option<real>): (r: Option<FormError>)
    ensures r.None? <==> (
      && !IsBlank(f.nome) && !IsBlank(f.descricao) && !IsBlank(f.ipServidor)
      && !IsBlank(f.portaServidor) && port.Some?
      && (f.tipo == Privado ==> !IsBlank(f.senha)))
    ensures r == Some(NameRequired) <==> IsBlank(f.nome)
    ensures r == Some(DescriptionRequired) <==> !IsBlank(f.nome) && IsBlank(f.descricao)
    ensures r == Some(IpRequired) <==> !IsBlank(f.nome) && !IsBlank(f.descricao) && IsBlank(f.ipServidor)
    ensures r == Some(InvalidPort) <==>
      !IsBlank(f.nome) && !IsBlank(f.descricao) && !IsBlank(f.ipServidor) && (IsBlank(f.portaServidor) || port.None?)
  {
    TrimEmptyIffBlank(f.nome);
    TrimEmptyIffBlank(f.descricao);
    TrimEmptyIffBlank(f.ipServidor);
    TrimEmptyIffBlank(f.portaServidor);
    TrimEmptyIffBlank(f.senha);
    if Trim(f.nome) == [] then Some(NameRequired)
    else if Trim(f.descricao) == [] then Some(DescriptionRequired)
    else if Trim(f.ipServidor) == [] then Some(IpRequired)
    else if Trim(f.portaServidor) == [] || port.None? then Some(InvalidPort)
    else if f.tipo == Privado && Trim(f.senha) == [] then Some(PasswordRequired)
    else None
  }

  /** `handleSubmit` with the id and date it draws: a failed guard saves
      nothing; otherwise the trimmed record, with the password (untrimmed)
      only on a private world and the player's name or "Jogador" as creator,
      is appended to the stored worlds. */
  function Submit(f: Form, port: Option<real>, player: Option<Player>, id: string, now: string,
                  stored: seq<MinecraftWorld>): (r: Result<seq<MinecraftWorld>, FormError>)
    ensures Validate(f, port).Some? <==> r.Err?
    ensures r.Err? ==> r.error == Validate(f, port).value
    ensures r.Ok? ==> (
      && |r.value| == |stored| + 1 && r.value[..|stored|] == stored
      && r.value[|stored|] == NewRecord(f, port.value, player, id, now))
  {
    match Validate(f, port)
    case Some(e) => Err(e)
    case None => Ok(stored + [NewRecord(f, port.value, player, id, now)])
  }

  /** `novoMundo`. */
  function NewRecord(f: Form, port: real, player: Option<Player>, id: string, now: string): MinecraftWorld {
    MinecraftWorld(id, Trim(f.nome), Trim(f.descricao), Trim(f.ipServidor), port, f.tipo,
                   if f.tipo == Privado then Some(f.senha) else None,
                   OrDefault(if player.Some? then Some(player.value.name) else None, "Jogador"), now)
  }

  /** A saved world has a non-empty name, description and address with no
      white space at either end, the parsed port, a non-blank password
      exactly when private, and a non-empty creator name. */
  lemma SavedWorldIsClean(f: Form, port: Option<real>, player: Option<Player>, id: string, now: string,
                          stored: seq<MinecraftWorld>)
    requires Submit(f, port, player, id, now, stored).Ok?
    ensures var w := Submit(f, port, player, id, now, stored).value[|stored|];
      && IsTrimmedText(w.nome) && IsTrimmedText(w.descricao) && IsTrimmedText(w.ipServidor)
      && Some(w.portaServidor) == port
      && (w.tipo == Privado <==> w.senha.Some?)
      && (w.senha.Some? ==> !IsBlank(w.senha.value))
      && w.criador != []
  {
    var w := NewRecord(f, port.value, player, id, now);
    assert Submit(f, port, player, id, now, stored).value[|stored|] == w;
    TrimOfNonBlank(f.nome);
    TrimOfNonBlank(f.descricao);
    TrimOfNonBlank(f.ipServidor);
  }

  /** Whether a guard fails never depends on who is signed in, nor on the
      stored list. */
  lemma OutcomeIndependentOfPlayer(f: Form, port: Option<real>, p1: Option<Player>, p2: Option<Player>,
                                   id: string, now: string, s1: seq<MinecraftWorld>, s2: seq<MinecraftWorld>)
    ensures Submit(f, port, p1, id, now, s1).Ok? == Submit(f, port, p2, id, now, s2).Ok?
  {
  }
}
