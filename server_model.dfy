/** The records of the simulated server fleet (`Server`, `Jogador`,
    `ServerLog`) and the change each fleet operation makes to ONE record,
    as pure functions. The `ServerManager` class applies them to the entries
    of its map; the lemmas here state what each change guarantees. */
module ServerModel {
  import opened Common

  datatype Status = Online | Offline | Paused
  datatype Kind = Public | Private
  datatype LogKind = System | Entry | Exit | Kick | Ban | Chat

  /** Which audit message was written, with the values it interpolates. */
  datatype LogMessage =
    | Created(serverName: string)
    | Address(host: string, port: int)
    | Link(link: string)
    | Code(code: string)
    | AutoStarted
    | Joined(playerName: string)
    | Left(playerName: string)
    | Kicked(playerName: string)
    | Banned(playerName: string)
    | SettingsUpdated
    | PausedByAdmin
    | StartedByAdmin
    | Restarting
    | Restarted
    | Terminated
    | IdleShutdown
    | StuckDetected

  datatype ServerLog = ServerLog(tipo: LogKind, mensagem: LogMessage, timestamp: int, usuario: Option<string>)

  /** A participant as stored in a server. */
  datatype Jogador = Jogador(id: string, nome: string, avatar: string, entradaEm: int)

  /** A participant as given to a join. */
  datatype JoinRequest = JoinRequest(id: string, nome: string, avatar: string)

  datatype Server = Server(
    id: string,
    nome: string,
    tipo: Kind,
    jogo: string,
    criador: string,
    status: Status,
    jogadores: seq<Jogador>,
    maxJogadores: int,
    criadoEm: int,
    ultimaAtividade: int,
    logs: seq<ServerLog>,
    banidos: seq<string>,
    linkEntrada: string,
    codigoEntrada: string,
    ping: int,
    ip: string,
    porta: int)

  /** Only the newest `MaxLogs` audit entries are kept. */
  const MaxLogs: nat := 100

  /** Idle time after which the health check treats an online server as stuck (ms). */
  const StuckAfter: int := 10 * 60 * 1000

  const BasePort: int := 25565

  // ---------------------------------------------------------------------------
  // Audit log

  /** Appends `entry` and keeps the newest `MaxLogs` entries. */
  function AppendLog(logs: seq<ServerLog>, entry: ServerLog): (r: seq<ServerLog>)
    ensures |r| <= MaxLogs && r != [] && r[|r| - 1] == entry
    ensures |logs| < MaxLogs ==> r == logs + [entry]
    ensures |logs| >= MaxLogs ==> |r| == MaxLogs && r == (logs + [entry])[|logs| + 1 - MaxLogs..]
  {
    var all := logs + [entry];
    if |all| > MaxLogs then all[|all| - MaxLogs..] else all
  }

  /** With the log full, one append evicts exactly the oldest entry. */
  lemma AppendLogEvictsOldest(logs: seq<ServerLog>, entry: ServerLog)
    requires |logs| == MaxLogs
    ensures AppendLog(logs, entry) == logs[1..] + [entry]
  {
    assert (logs + [entry])[1..] == logs[1..] + [entry];
  }

  /** Appending any number of entries never lets the log grow past the cap,
      and the entries kept are always the newest ones, oldest first. */
  function AppendLogs(logs: seq<ServerLog>, entries: seq<ServerLog>): (r: seq<ServerLog>)
    ensures |r| <= MaxLogs || (entries == [] && r == logs)
    ensures |r| <= |logs| + |entries|
    ensures |r| <= |logs + entries| && r == (logs + entries)[|logs + entries| - |r|..]
    ensures entries != [] ==>
      |r| == if |logs| + |entries| <= MaxLogs then |logs| + |entries| else MaxLogs
    decreases |entries|
  {
    if entries == [] then logs
    else
      var r := AppendLogs(AppendLog(logs, entries[0]), entries[1..]);
      assert AppendLog(logs, entries[0]) + entries[1..] == (logs + entries)[|logs + entries| - |AppendLog(logs, entries[0]) + entries[1..]|..];
      r
  }

  /** Adds one audit entry to a server record. */
  function Log(s: Server, tipo: LogKind, msg: LogMessage, now: int, user: Option<string>): Server
  {
    s.(logs := AppendLog(s.logs, ServerLog(tipo, msg, now, user)))
  }

  // ---------------------------------------------------------------------------
  // Membership

  /** The ids of the players, in join order. */
  function Ids(ps: seq<Jogador>): seq<string>
  {
    seq(|ps|, i requires 0 <= i < |ps| => ps[i].id)
  }

  /** `jogadores.find(p => p.id === pid)`: the first player with that id. */
  function FindPlayer(ps: seq<Jogador>, pid: string): (r: Option<Jogador>)
    ensures r.None? <==> pid !in Ids(ps)
    ensures r.Some? ==> r.value in ps && r.value.id == pid
    ensures r.Some? ==> exists i :: 0 <= i < |ps| && ps[i] == r.value && forall k :: 0 <= k < i ==> ps[k].id != pid
  {
    if ps == [] then None
    else
      assert Ids(ps) == [ps[0].id] + Ids(ps[1..]);
      if ps[0].id == pid then Some(ps[0])
      else
        var r := FindPlayer(ps[1..], pid);
        if r.Some? then
          var i :| 0 <= i < |ps[1..]| && ps[1..][i] == r.value && forall k :: 0 <= k < i ==> ps[1..][k].id != pid;
          assert ps[i + 1] == r.value && forall k :: 0 <= k < i + 1 ==> ps[k].id != pid;
          r
        else r
  }

  /** `jogadores.filter(p => p.id !== pid)`. */
  function RemovePlayer(ps: seq<Jogador>, pid: string): (r: seq<Jogador>)
    ensures forall x :: x in Ids(r) <==> x in Ids(ps) && x != pid
    ensures forall p :: p in r <==> p in ps && p.id != pid
    ensures NoDup(Ids(ps)) ==> NoDup(Ids(r))
    ensures pid !in Ids(ps) ==> r == ps
    ensures |r| <= |ps|
  {
    if ps == [] then []
    else
      var rest := RemovePlayer(ps[1..], pid);
      IdsCons(ps[0], ps[1..]);
      assert [ps[0]] + ps[1..] == ps;
      NoDupTail(Ids(ps));
      if ps[0].id == pid then rest
      else
        IdsCons(ps[0], rest);
        NoDupCons(ps[0].id, Ids(rest));
        [ps[0]] + rest
  }

  /** The filter keeps the order of what remains: it distributes over
      concatenation. */
  lemma {:induction false} RemovePlayerConcat(a: seq<Jogador>, b: seq<Jogador>, pid: string)
    ensures RemovePlayer(a + b, pid) == RemovePlayer(a, pid) + RemovePlayer(b, pid)
  {
    if a != [] {
      assert (a + b)[1..] == a[1..] + b;
      RemovePlayerConcat(a[1..], b, pid);
      var h := if a[0].id == pid then [] else [a[0]];
      assert RemovePlayer(a + b, pid) == h + RemovePlayer(a[1..] + b, pid);
      assert RemovePlayer(a, pid) == h + RemovePlayer(a[1..], pid);
    } else {
      assert a + b == b;
    }
  }

  lemma IdsCons(p: Jogador, ps: seq<Jogador>)
    ensures Ids([p] + ps) == [p.id] + Ids(ps)
  {
  }

  /** The record invariants the fleet keeps for every server: the log is
      capped, a player appears once, a ban is recorded once, and no banned
      id is among the players. */
  ghost predicate Wellformed(s: Server) {
    && |s.logs| <= MaxLogs
    && NoDup(Ids(s.jogadores))
    && NoDup(s.banidos)
    && (forall b :: b in s.banidos ==> b !in Ids(s.jogadores))
  }

  // ---------------------------------------------------------------------------
  // Creation

  /** `n.toString()` for a natural number: decimal digits, no leading zero. */
  function DecimalString(n: nat): (r: string)
    ensures |r| >= 1 && forall i :: 0 <= i < |r| ==> '0' <= r[i] <= '9'
  {
    var d := (('0' as int) + n % 10) as char;
    if n < 10 then [d] else DecimalString(n / 10) + [d]
  }

  /** The value of a string of decimal digits. */
  function DecimalValue(s: string): nat
    requires forall i :: 0 <= i < |s| ==> '0' <= s[i] <= '9'
  {
    if s == [] then 0 else DecimalValue(s[..|s| - 1]) * 10 + (s[|s| - 1] as int - '0' as int)
  }

  /** Reading the join code back gives the number it was made from. */
  lemma {:induction false} DecimalRoundTrip(n: nat)
    ensures DecimalValue(DecimalString(n)) == n
  {
    var s := DecimalString(n);
    if n >= 10 {
      DecimalRoundTrip(n / 10);
      assert s[..|s| - 1] == DecimalString(n / 10);
    }
  }

  function Pow10(k: nat): nat {
    if k == 0 then 1 else 10 * Pow10(k - 1)
  }

  lemma {:induction false} DecimalLength(n: nat, k: nat)
    requires Pow10(k) <= n < Pow10(k + 1)
    ensures |DecimalString(n)| == k + 1
  {
    if k > 0 {
      DecimalLength(n / 10, k - 1);
    }
  }

  /** A join code drawn from [100000, 999999] is six ASCII digits. */
  lemma JoinCodeIsSixDigits(code: int)
    requires 100000 <= code <= 999999
    ensures |DecimalString(code)| == 6
    ensures forall i :: 0 <= i < 6 ==> '0' <= DecimalString(code)[i] <= '9'
  {
    assert Pow10(5) == 100000 && Pow10(6) == 1000000;
    DecimalLength(code, 5);
  }

  /** `userId.substr(0, 8)`. */
  function Prefix8(u: string): (r: string)
    ensures |r| == if |u| < 8 then |u| else 8
    ensures r == u[..|r|]
  {
    if |u| <= 8 then u else u[..8]
  }

  /** `id.substr(-8)`. */
  function Suffix8(u: string): (r: string)
    ensures |r| == if |u| < 8 then |u| else 8
    ensures r == u[|u| - |r|..]
  {
    if |u| <= 8 then u else u[|u| - 8..]
  }

  function ServerName(userId: string, suffix: string): string {
    "Servidor-" + Prefix8(userId) + "-" + suffix
  }

  function JoinLink(id: string): string {
    "omlet://join/" + id
  }

  function HostFor(id: string): string {
    "server-" + Suffix8(id) + ".omlet.gg"
  }

  /** The record `criarServidorAutomatico` stores. Clock and random values
      (`now`, the name suffix, the code, the ping, the port offset) are inputs. */
  function NewServer(id: string, userId: string, jogo: string, tipo: Kind, maxJogadores: int,
                     suffix: string, code: nat, ping: int, portOffset: int, now: int): (s: Server)
    ensures s.id == id && s.criador == userId && s.jogo == jogo && s.tipo == tipo
    ensures s.maxJogadores == maxJogadores && s.nome == ServerName(userId, suffix)
    ensures s.status == Online && s.jogadores == [] && s.banidos == []
    ensures s.criadoEm == now && s.ultimaAtividade == now
    ensures s.linkEntrada == JoinLink(id) && s.codigoEntrada == DecimalString(code)
    ensures s.ip == HostFor(id) && s.porta == BasePort + portOffset && s.ping == ping
    ensures |s.logs| == 4 && forall i :: 0 <= i < 4 ==> s.logs[i].tipo == System && s.logs[i].usuario == None
    ensures Wellformed(s)
  {
    assert Ids([]) == [];
    var nome := ServerName(userId, suffix);
    var link := JoinLink(id);
    var codigo := DecimalString(code);
    var host := HostFor(id);
    var porta := BasePort + portOffset;
    Server(id, nome, tipo, jogo, userId, Online, [], maxJogadores, now, now,
           CreationLogs(nome, host, porta, link, codigo, now), [], link, codigo, ping, host, porta)
  }

  /** The four system entries creation writes: name, address, link, code. */
  function CreationLogs(nome: string, host: string, porta: int, link: string, codigo: string, now: int)
    : seq<ServerLog>
  {
    [ServerLog(System, Created(nome), now, None), ServerLog(System, Address(host, porta), now, None),
     ServerLog(System, Link(link), now, None), ServerLog(System, Code(codigo), now, None)]
  }

  /** The creation entries are what the four `addLog` calls leave on the
      record's initially empty log. */
  lemma CreationLogsAreAppends(nome: string, host: string, porta: int, link: string, codigo: string, now: int)
    ensures CreationLogs(nome, host, porta, link, codigo, now) ==
      AppendLog(AppendLog(AppendLog(AppendLog([], ServerLog(System, Created(nome), now, None)),
        ServerLog(System, Address(host, porta), now, None)), ServerLog(System, Link(link), now, None)),
        ServerLog(System, Code(codigo), now, None))
  {
  }

  // ---------------------------------------------------------------------------
  // Joining

  /** `iniciarServidorAutomatico`, which a join runs on an offline server. */
  function Revived(s: Server, now: int): (r: Server)
    ensures r.status != Offline
    ensures r.jogadores == s.jogadores && r.banidos == s.banidos && r.maxJogadores == s.maxJogadores
    ensures r.criador == s.criador && r.ultimaAtividade == s.ultimaAtividade
    ensures s.status != Offline ==> r == s
    ensures s.status == Offline ==> r.status == Online && r.logs == AppendLog(s.logs, ServerLog(System, AutoStarted, now, None))
    ensures r.(status := s.status, logs := s.logs) == s
  {
    if s.status == Offline then Log(s.(status := Online), System, AutoStarted, now, None) else s
  }

  /** The ban check and then the capacity check of `entrarServidor`. */
  predicate Admits(s: Server, pid: string) {
    pid !in s.banidos && |s.jogadores| < s.maxJogadores
  }

  /** The record after `entrarServidor(s.id, j)`: revived if offline; then,
      if admitted and not yet a member, the player is appended and logged. */
  function JoinResult(s: Server, j: JoinRequest, now: int): (r: Server)
    ensures r.banidos == s.banidos && r.maxJogadores == s.maxJogadores && r.status != Offline
    ensures r.(status := s.status, jogadores := s.jogadores, ultimaAtividade := s.ultimaAtividade, logs := s.logs) == s
  {
    var r := Revived(s, now);
    if !Admits(r, j.id) || j.id in Ids(r.jogadores) then r
    else
      var r := r.(jogadores := r.jogadores + [Jogador(j.id, j.nome, j.avatar, now)], ultimaAtividade := now);
      Log(r, Entry, Joined(j.nome), now, Some(j.nome))
  }

  /** A refused join (banned or full) adds no one, yet an offline server has
      still been brought online by it. */
  lemma JoinRefusedAddsNoOne(s: Server, j: JoinRequest, now: int)
    requires !Admits(Revived(s, now), j.id)
    ensures JoinResult(s, j, now).jogadores == s.jogadores
    ensures JoinResult(s, j, now) == Revived(s, now)
    ensures JoinResult(s, j, now).status != Offline
    ensures s.status == Offline ==> JoinResult(s, j, now).status == Online
  {
  }

  /** A banned id is refused whatever the server's state. */
  lemma BannedJoinRefused(s: Server, j: JoinRequest, now: int)
    requires Wellformed(s) && j.id in s.banidos
    ensures !Admits(Revived(s, now), j.id)
    ensures j.id !in Ids(JoinResult(s, j, now).jogadores)
  {
  }

  /** The capacity check runs before the membership check: a member joining
      a full server is refused too. */
  lemma MemberOfFullServerRefused(s: Server, j: JoinRequest, now: int)
    requires j.id in Ids(s.jogadores) && |s.jogadores| >= s.maxJogadores
    ensures !Admits(Revived(s, now), j.id)
  {
  }

  /** A join by a member of a non-full server succeeds and changes nothing
      beyond the revival: no duplicate entry, no log entry. */
  lemma RejoinIsIdempotent(s: Server, j: JoinRequest, now: int)
    requires j.id in Ids(s.jogadores) && Admits(Revived(s, now), j.id)
    ensures JoinResult(s, j, now) == Revived(s, now)
    ensures JoinResult(JoinResult(s, j, now), j, now) == JoinResult(s, j, now)
  {
  }

  /** A successful join leaves the player list within capacity, with the
      player in it exactly once; a new member is appended at the end and
      logged as an entry. */
  lemma JoinAdmitted(s: Server, j: JoinRequest, now: int)
    requires Wellformed(s) && Admits(Revived(s, now), j.id)
    ensures var r := JoinResult(s, j, now);
      && |r.jogadores| <= r.maxJogadores
      && j.id in Ids(r.jogadores)
      && r.banidos == s.banidos && r.status != Offline
      && (j.id !in Ids(s.jogadores) ==>
            && r.jogadores == s.jogadores + [Jogador(j.id, j.nome, j.avatar, now)]
            && r.ultimaAtividade == now
            && r.logs == AppendLog(Revived(s, now).logs, ServerLog(Entry, Joined(j.nome), now, Some(j.nome))))
      && (j.id in Ids(s.jogadores) ==> r == Revived(s, now))
      && r.(status := s.status, jogadores := s.jogadores, ultimaAtividade := s.ultimaAtividade, logs := s.logs) == s
  {
    var r := JoinResult(s, j, now);
    if j.id !in Ids(s.jogadores) {
      assert Ids(r.jogadores) == Ids(s.jogadores) + [j.id];
    }
  }

  lemma JoinPreservesWellformed(s: Server, j: JoinRequest, now: int)
    requires Wellformed(s)
    ensures Wellformed(JoinResult(s, j, now))
  {
    var rv := Revived(s, now);
    if Admits(rv, j.id) && j.id !in Ids(rv.jogadores) {
      var ps := rv.jogadores + [Jogador(j.id, j.nome, j.avatar, now)];
      assert Ids(ps) == Ids(rv.jogadores) + [j.id];
      NoDupAppend(Ids(rv.jogadores), j.id);
    }
  }

  // ---------------------------------------------------------------------------
  // Leaving, kicking, banning

  /** `sairServidor` on a record: a non-member leaves the record untouched;
      a member is removed and the leave is logged under the member's name. */
  function LeaveResult(s: Server, pid: string, now: int): (r: Server)
    ensures pid !in Ids(s.jogadores) ==> r == s
    ensures pid in Ids(s.jogadores) ==>
      && pid !in Ids(r.jogadores)
      && (forall x :: x != pid ==> (x in Ids(r.jogadores) <==> x in Ids(s.jogadores)))
      && r.ultimaAtividade == now && r.banidos == s.banidos && r.status == s.status
      && r.jogadores == RemovePlayer(s.jogadores, pid)
      && (var p := FindPlayer(s.jogadores, pid).value;
          r.logs == AppendLog(s.logs, ServerLog(Exit, Left(p.nome), now, Some(p.nome))))
    ensures r.(jogadores := s.jogadores, ultimaAtividade := s.ultimaAtividade, logs := s.logs) == s
    ensures Wellformed(s) ==> Wellformed(r)
  {
    match FindPlayer(s.jogadores, pid)
    case None => s
    case Some(p) =>
      var r := s.(jogadores := RemovePlayer(s.jogadores, pid), ultimaAtividade := now);
      Log(r, Exit, Left(p.nome), now, Some(p.nome))
  }

  /** The record after `kickJogador` (ban = false) or `banirJogador`
      (ban = true) of a member. */
  function Expel(s: Server, pid: string, now: int, ban: bool): (r: Server)
    requires pid in Ids(s.jogadores)
    ensures r.jogadores == RemovePlayer(s.jogadores, pid)
    ensures r.banidos == (if ban then s.banidos + [pid] else s.banidos)
    ensures r.(jogadores := s.jogadores, banidos := s.banidos, ultimaAtividade := s.ultimaAtividade, logs := s.logs) == s
  {
    var p := FindPlayer(s.jogadores, pid).value;
    var r := s.(jogadores := RemovePlayer(s.jogadores, pid), ultimaAtividade := now);
    if ban then Log(r.(banidos := r.banidos + [pid]), Ban, Banned(p.nome), now, Some(p.nome))
    else Log(r, Kick, Kicked(p.nome), now, Some(p.nome))
  }

  /** Kick removes the member and bans no one; ban removes the member and
      records the id, so that every later join by that id is refused. */
  lemma ExpelEffect(s: Server, pid: string, now: int, ban: bool)
    requires Wellformed(s) && pid in Ids(s.jogadores)
    ensures var r := Expel(s, pid, now, ban);
      && pid !in Ids(r.jogadores)
      && (forall x :: x != pid ==> (x in Ids(r.jogadores) <==> x in Ids(s.jogadores)))
      && r.banidos == (if ban then s.banidos + [pid] else s.banidos)
      && r.status == s.status && r.maxJogadores == s.maxJogadores
      && r.ultimaAtividade == now
      && (var p := FindPlayer(s.jogadores, pid).value;
          r.logs == AppendLog(s.logs, if ban then ServerLog(Ban, Banned(p.nome), now, Some(p.nome))
                                      else ServerLog(Kick, Kicked(p.nome), now, Some(p.nome))))
      && r.(jogadores := s.jogadores, banidos := s.banidos, ultimaAtividade := s.ultimaAtividade, logs := s.logs) == s
      && Wellformed(r)
    ensures ban ==> forall j: JoinRequest, t: int :: j.id == pid ==> !Admits(Revived(Expel(s, pid, now, ban), t), j.id)
  {
    var r := Expel(s, pid, now, ban);
    if ban {
      assert pid !in s.banidos;
      NoDupAppend(s.banidos, pid);
    }
  }

  // ---------------------------------------------------------------------------
  // Settings and control

  /** `Partial<Pick<Server, 'nome' | 'tipo' | 'maxJogadores'>>`. */
  datatype SettingsUpdate = SettingsUpdate(nome: Option<string>, tipo: Option<Kind>, maxJogadores: Option<int>)

  /** `atualizarServidor` on a record. A field is applied only when the
      update's value is truthy in JavaScript: an empty name and a capacity
      of 0 are ignored. Players are not re-checked against a lower capacity. */
  function ApplySettings(s: Server, u: SettingsUpdate, now: int): (r: Server)
    ensures r.nome == (if u.nome.Some? && u.nome.value != "" then u.nome.value else s.nome)
    ensures r.tipo == (if u.tipo.Some? then u.tipo.value else s.tipo)
    ensures r.maxJogadores == (if u.maxJogadores.Some? && u.maxJogadores.value != 0 then u.maxJogadores.value else s.maxJogadores)
    ensures r.jogadores == s.jogadores && r.banidos == s.banidos && r.status == s.status
    ensures r.ultimaAtividade == now && r.logs == AppendLog(s.logs, ServerLog(System, SettingsUpdated, now, None))
    ensures r.(nome := s.nome, tipo := s.tipo, maxJogadores := s.maxJogadores, ultimaAtividade := s.ultimaAtividade, logs := s.logs) == s
    ensures Wellformed(s) ==> Wellformed(r)
  {
    var r := s;
    var r := if u.nome.Some? && u.nome.value != "" then r.(nome := u.nome.value) else r;
    var r := if u.tipo.Some? then r.(tipo := u.tipo.value) else r;
    var r := if u.maxJogadores.Some? && u.maxJogadores.value != 0 then r.(maxJogadores := u.maxJogadores.value) else r;
    Log(r.(ultimaAtividade := now), System, SettingsUpdated, now, None)
  }

  datatype Action = Pause | Start | Restart | Terminate

  /** `controlarServidor` on a record that stays in the map (every action
      but terminate). Restart only takes the server offline; it comes back
      when the restart timer fires (`RestartFinished`). */
  function ControlResult(s: Server, a: Action, now: int): (r: Server)
    requires a != Terminate
    ensures r.status == (match a case Pause => Paused case Start => Online case _ => Offline)
    ensures r.jogadores == s.jogadores && r.banidos == s.banidos && r.maxJogadores == s.maxJogadores
    ensures r.ultimaAtividade == now
    ensures r.logs == AppendLog(s.logs, ServerLog(System, match a case Pause => PausedByAdmin case Start => StartedByAdmin case _ => Restarting, now, None))
    ensures r.(status := s.status, ultimaAtividade := s.ultimaAtividade, logs := s.logs) == s
    ensures Wellformed(s) ==> Wellformed(r)
  {
    var r := match a
      case Pause => Log(s.(status := Paused), System, PausedByAdmin, now, None)
      case Start => Log(s.(status := Online), System, StartedByAdmin, now, None)
      case Restart => Log(s.(status := Offline), System, Restarting, now, None);
    r.(ultimaAtividade := now)
  }

  // ---------------------------------------------------------------------------
  // Timer callbacks

  /** The idle-shutdown timer's callback: an empty server goes offline with
      a logged reason; a server someone has joined since is untouched. */
  function IdleShutdownResult(s: Server, now: int): (r: Server)
    ensures |s.jogadores| == 0 ==> r.status == Offline && r.logs == AppendLog(s.logs, ServerLog(System, IdleShutdown, now, None))
    ensures |s.jogadores| != 0 ==> r == s
    ensures r.(status := s.status, logs := s.logs) == s
    ensures r.jogadores == s.jogadores && r.ultimaAtividade == s.ultimaAtividade
    ensures Wellformed(s) ==> Wellformed(r)
  {
    if |s.jogadores| == 0 then Log(s, System, IdleShutdown, now, None).(status := Offline) else s
  }

  /** The restart timer's callback: the server is online again, whatever its
      status was meanwhile. */
  function RestartFinished(s: Server, now: int): (r: Server)
    ensures r.status == Online && r.jogadores == s.jogadores && r.banidos == s.banidos
    ensures r.logs == AppendLog(s.logs, ServerLog(System, Restarted, now, None))
    ensures r.(status := s.status, logs := s.logs) == s
    ensures Wellformed(s) ==> Wellformed(r)
  {
    Log(s.(status := Online), System, Restarted, now, None)
  }

  /** The health check's test: online and idle for more than ten minutes. */
  predicate IsStuck(s: Server, now: int) {
    s.status == Online && now - s.ultimaAtividade > StuckAfter
  }

  /** One record after a health-check pass: a stuck server is logged as
      such and put through the restart action; any other is untouched. */
  function HealthChecked(s: Server, now: int): (r: Server)
    ensures IsStuck(s, now) ==> r.status == Offline && r.ultimaAtividade == now && !IsStuck(r, now)
    ensures IsStuck(s, now) ==>
      r.logs == AppendLog(AppendLog(s.logs, ServerLog(System, StuckDetected, now, None)), ServerLog(System, Restarting, now, None))
    ensures !IsStuck(s, now) ==> r == s
    ensures r.jogadores == s.jogadores && r.banidos == s.banidos
    ensures Wellformed(s) ==> Wellformed(r)
  {
    if IsStuck(s, now) then ControlResult(Log(s, System, StuckDetected, now, None), Restart, now) else s
  }

  /** The health check changes at most the status, the activity time and the
      log of a server. */
  lemma HealthCheckedFrame(s: Server, now: int)
    ensures HealthChecked(s, now).(status := s.status, ultimaAtividade := s.ultimaAtividade, logs := s.logs) == s
  {
    if IsStuck(s, now) {
      var l := Log(s, System, StuckDetected, now, None);
      assert l.(logs := s.logs) == s;
    }
  }

  /** `atualizarPing`: the ping refresh of an online server. */
  function Pinged(s: Server, p: int): (r: Server)
    ensures r == s.(ping := p)
  {
    s.(ping := p)
  }

  // ---------------------------------------------------------------------------
  // Matchmaking

  /** The filter of `encontrarSalaDisponivel`. */
  predicate Eligible(s: Server, jogo: string) {
    s.tipo == Public && s.jogo == jogo && |s.jogadores| < s.maxJogadores && s.status == Online
  }

  /** The position of the head of the eligible servers after a stable sort
      by descending player count: the FIRST eligible server with the most
      players. */
  function BestRoomIndex(ss: seq<Server>, jogo: string): (r: Option<nat>)
    ensures r.None? <==> forall i :: 0 <= i < |ss| ==> !Eligible(ss[i], jogo)
    ensures r.Some? ==> (
      && r.value < |ss| && Eligible(ss[r.value], jogo)
      && (forall k :: 0 <= k < |ss| && Eligible(ss[k], jogo) ==> |ss[k].jogadores| <= |ss[r.value].jogadores|)
      && (forall k :: 0 <= k < r.value && Eligible(ss[k], jogo) ==> |ss[k].jogadores| < |ss[r.value].jogadores|))
  {
    if ss == [] then None
    else
      var rest := BestRoomIndex(ss[1..], jogo);
      if Eligible(ss[0], jogo) && (rest.None? || |ss[1 + rest.value].jogadores| <= |ss[0].jogadores|) then Some(0)
      else if rest.Some? then Some(1 + rest.value)
      else None
  }

  /** `encontrarSalaDisponivel` over the servers in listing order. */
  function BestRoom(ss: seq<Server>, jogo: string): (r: Option<Server>)
    ensures r.None? <==> forall s :: s in ss ==> !Eligible(s, jogo)
    ensures r.Some? ==> (
      && r.value in ss && Eligible(r.value, jogo)
      && forall s :: s in ss && Eligible(s, jogo) ==> |s.jogadores| <= |r.value.jogadores|)
  {
    match BestRoomIndex(ss, jogo)
    case None => None
    case Some(i) => Some(ss[i])
  }
}
