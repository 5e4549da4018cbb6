/** The in-memory fleet registry (`ServerManager`): a map from server id to
    server record, kept in the map's insertion order, with the idle-shutdown
    and restart timers it has armed. Timer firings, the health check and the
    ping refresh are explicit methods; every clock reading (`now`) and every
    random value is an argument. */
module ServerManagerModel {
  import opened Common
  import opened ServerModel
  import PaymentLedger

  /** The servers listed in the order given (`Array.from(servers.values())`). */
  function Values(order: seq<string>, m: map<string, Server>): (r: seq<Server>)
    requires forall k :: k in order ==> k in m
    ensures |r| == |order| && forall i :: 0 <= i < |order| ==> r[i] == m[order[i]]
  {
    seq(|order|, i requires 0 <= i < |order| => m[order[i]])
  }

  /** `.filter(s => s.tipo === k)`. */
  function OfKind(ss: seq<Server>, k: Kind): (r: seq<Server>)
    ensures forall s :: s in r <==> s in ss && s.tipo == k
  {
    if ss == [] then []
    else (if ss[0].tipo == k then [ss[0]] else []) + OfKind(ss[1..], k)
  }

  /** The position in `order` of the first server whose join code is `code`. */
  function FindByCode(order: seq<string>, m: map<string, Server>, code: string): (r: Option<nat>)
    requires forall k :: k in order ==> k in m
    ensures r.None? <==> forall i :: 0 <= i < |order| ==> m[order[i]].codigoEntrada != code
    ensures r.Some? ==> (
      && r.value < |order| && m[order[r.value]].codigoEntrada == code
      && forall i :: 0 <= i < r.value ==> m[order[i]].codigoEntrada != code)
  {
    if order == [] then None
    else if m[order[0]].codigoEntrada == code then Some(0)
    else match FindByCode(order[1..], m, code)
      case None => None
      case Some(i) => Some(i + 1)
  }

  /** `order` without `id`. */
  function Without(order: seq<string>, id: string): (r: seq<string>)
    ensures forall k :: k in r <==> k in order && k != id
    ensures NoDup(order) ==> NoDup(r)
  {
    if order == [] then []
    else
      var rest := Without(order[1..], id);
      NoDupTail(order);
      if order[0] == id then rest
      else
        NoDupCons(order[0], rest);
        [order[0]] + rest
  }

  /** The ids, in `ord`, of the servers the health check finds stuck. */
  function StuckIds(ord: seq<string>, m: map<string, Server>, now: int): multiset<string>
    requires forall k :: k in ord ==> k in m
  {
    if ord == [] then multiset{}
    else
      var last := ord[|ord| - 1];
      StuckIds(ord[..|ord| - 1], m, now) + (if IsStuck(m[last], now) then multiset{last} else multiset{})
  }

  class ServerManager {
    var servers: map<string, Server>
    /** The keys of `servers` in insertion order, the iteration order of a JavaScript Map. */
    var order: seq<string>
    /** Servers with an armed idle-shutdown timer. */
    var shutdownTimers: set<string>
    /** Restart timers that have not fired yet, one per pending restart. */
    var pendingRestarts: multiset<string>

    ghost predicate Valid()
      reads this
    {
      && NoDup(order)
      && (forall k :: k in order <==> k in servers)
      && (forall k :: k in servers ==> servers[k].id == k && Wellformed(servers[k]))
      && shutdownTimers <= servers.Keys
    }

    /** An empty registry (the stored copy it would load is not modelled). */
    constructor ()
      ensures Valid()
      ensures servers == map[] && order == [] && shutdownTimers == {} && pendingRestarts == multiset{}
    {
      servers := map[];
      order := [];
      shutdownTimers := {};
      pendingRestarts := multiset{};
    }

    // -------------------------------------------------------------------------
    // Queries

    /** `getServidor`. */
    function GetServer(id: string): (r: Option<Server>)
      reads this
      ensures r.Some? <==> id in servers
      ensures r.Some? ==> r.value == servers[id]
    {
      if id in servers then Some(servers[id]) else None
    }

    /** `listarServidores`: every server, in insertion order. */
    function ListServers(): (r: seq<Server>)
      reads this
      requires Valid()
      ensures forall s :: s in r <==> exists k :: k in servers && servers[k] == s
      ensures r == Values(order, servers)
    {
      var r := Values(order, servers);
      assert forall k :: k in servers ==> servers[k] == r[IndexOf(order, k)];
      r
    }

    /** `listarServidoresPublicos`. */
    function ListPublic(): (r: seq<Server>)
      reads this
      requires Valid()
      ensures forall s :: s in r <==> s.tipo == Public && exists k :: k in servers && servers[k] == s
    {
      OfKind(ListServers(), Public)
    }

    /** `listarServidoresPrivados`. */
    function ListPrivate(): (r: seq<Server>)
      reads this
      requires Valid()
      ensures forall s :: s in r <==> s.tipo == Private && exists k :: k in servers && servers[k] == s
    {
      OfKind(ListServers(), Private)
    }

    /** How `entrarServidorPorId` resolves its argument: as an id first,
        otherwise as the join code of the first server (in insertion order)
        that has it. */
    function Resolve(key: string): (r: Option<string>)
      reads this
      requires Valid()
      ensures key in servers ==> r == Some(key)
      ensures r.Some? ==> r.value in servers && (r.value == key || servers[r.value].codigoEntrada == key)
      ensures r.None? <==> key !in servers && forall k :: k in servers ==> servers[k].codigoEntrada != key
    {
      if key in servers then Some(key)
      else match FindByCode(order, servers, key)
        case None => None
        case Some(i) => Some(order[i])
    }

    /** `encontrarSalaDisponivel(jogo)`: nothing exactly when no public,
        online, non-full server runs that game; otherwise such a server with
        the most players (the first of them in insertion order). */
    function FindAvailableRoom(jogo: string): (r: Option<Server>)
      reads this
      requires Valid()
      ensures r.None? <==> forall k :: k in servers ==> !Eligible(servers[k], jogo)
      ensures r.Some? ==> (
        && (exists k :: k in servers && servers[k] == r.value)
        && Eligible(r.value, jogo)
        && forall k :: k in servers && Eligible(servers[k], jogo) ==> |servers[k].jogadores| <= |r.value.jogadores|)
    {
      var ss := ListPublic();
      assert forall k :: k in servers && Eligible(servers[k], jogo) ==> servers[k] in ss;
      BestRoom(ss, jogo)
    }

    /** `verificarPermissaoServidorPrivado`, reading the payment ledger. */
    static function CheckPrivatePermission(userId: string, ledger: seq<PaymentLedger.Payment>): (r: bool)
      ensures r <==> exists p :: p in ledger && p.userId == userId && p.status == PaymentLedger.Approved
    {
      PaymentLedger.HasPrivateAccess(ledger, userId)
    }

    // -------------------------------------------------------------------------
    // Storing a record

    /** Replaces the record of a known server by a well-formed record with the
        same id; the registry stays valid and nothing else changes. */
    method Put(id: string, s: Server)
      requires Valid() && id in servers && s.id == id && Wellformed(s)
      modifies this
      ensures Valid()
      ensures servers == old(servers)[id := s]
      ensures order == old(order) && shutdownTimers == old(shutdownTimers) && pendingRestarts == old(pendingRestarts)
    {
      servers := servers[id := s];
    }

    // -------------------------------------------------------------------------
    // Audit log

    /** `addLog`: appends to the server's log, keeping the newest 100 entries;
        an unknown id is ignored. */
    method AddLog(serverId: string, tipo: LogKind, msg: LogMessage, now: int, user: Option<string>)
      requires Valid()
      modifies this
      ensures Valid()
      ensures servers == if serverId in old(servers)
                         then old(servers)[serverId := Log(old(servers)[serverId], tipo, msg, now, user)]
                         else old(servers)
      ensures order == old(order) && shutdownTimers == old(shutdownTimers) && pendingRestarts == old(pendingRestarts)
    {
      if serverId !in servers {
        return;
      }
      var server := servers[serverId];
      server := server.(logs := AppendLog(server.logs, ServerLog(tipo, msg, now, user)));
      Put(serverId, server);
    }

    // -------------------------------------------------------------------------
    // Creation

    /** `criarServidorAutomatico`. A private server without an approved
        payment is refused and nothing changes. Otherwise the new record
        (`NewServer`) is stored under `id`, replacing any record with that id,
        which keeps its place in the order, and is returned. */
    method Create(userId: string, jogo: string, tipo: Kind, maxJogadores: int, pagamentoAprovado: bool,
                  id: string, suffix: string, code: int, ping: int, portOffset: int, now: int)
      returns (r: Option<Server>)
      requires Valid()
      requires 100000 <= code <= 999999 && 10 <= ping < 150 && 0 <= portOffset < 1000
      modifies this
      ensures Valid()
      ensures tipo == Private && !pagamentoAprovado ==> r.None? && unchanged(this)
      ensures !(tipo == Private && !pagamentoAprovado) ==> (
        && r == Some(NewServer(id, userId, jogo, tipo, maxJogadores, suffix, code, ping, portOffset, now))
        && servers == old(servers)[id := r.value]
        && order == (if id in old(servers) then old(order) else old(order) + [id])
        && shutdownTimers == old(shutdownTimers) && pendingRestarts == old(pendingRestarts))
    {
      if tipo == Private && !pagamentoAprovado {
        return None;
      }
      var server := NewServer(id, userId, jogo, tipo, maxJogadores, suffix, code, ping, portOffset, now);
      Insert(id, server);
      r := Some(server);
    }

    /** `servers.set(id, s)`: a new id goes to the end of the order, a known
        one keeps its place. */
    method Insert(id: string, s: Server)
      requires Valid() && s.id == id && Wellformed(s)
      modifies this
      ensures Valid()
      ensures servers == old(servers)[id := s]
      ensures order == (if id in old(servers) then old(order) else old(order) + [id])
      ensures shutdownTimers == old(shutdownTimers) && pendingRestarts == old(pendingRestarts)
    {
      if id !in servers {
        NoDupAppend(order, id);
        order := order + [id];
      }
      servers := servers[id := s];
    }

    // -------------------------------------------------------------------------
    // Membership

    /** `entrarServidor`. An unknown id fails with no change. An offline
        server is first brought online and its idle timer cancelled, even if
        the join is then refused. The join succeeds exactly when the id is
        not banned and the server is not full; a newcomer is added, which
        cancels the idle timer, and a member is left as is (`JoinResult`). */
    method Join(serverId: string, j: JoinRequest, now: int) returns (ok: bool)
      requires Valid()
      modifies this
      ensures Valid()
      ensures serverId !in old(servers) ==> !ok && unchanged(this)
      ensures serverId in old(servers) ==> (
        var s := old(servers)[serverId];
        && ok == Admits(Revived(s, now), j.id)
        && servers == old(servers)[serverId := JoinResult(s, j, now)]
        && order == old(order) && pendingRestarts == old(pendingRestarts)
        && shutdownTimers == (if s.status == Offline || (ok && j.id !in Ids(s.jogadores))
                              then old(shutdownTimers) - {serverId} else old(shutdownTimers)))
    {
      if serverId !in servers {
        return false;
      }
      var s := servers[serverId];
      if s.status == Offline {
        // iniciarServidorAutomatico
        shutdownTimers := shutdownTimers - {serverId};
      }
      var revived := Revived(s, now);
      ok := Admits(revived, j.id);
      if ok && j.id !in Ids(revived.jogadores) {
        shutdownTimers := shutdownTimers - {serverId};
      }
      JoinPreservesWellformed(s, j, now);
      Put(serverId, JoinResult(s, j, now));
    }

    /** `entrarServidorPorId`: the argument is resolved as an id, then as a
        join code (`Resolve`), and the join proceeds as `Join` on the server
        found; nothing found is a failure with no change. */
    method JoinByIdOrCode(key: string, j: JoinRequest, now: int) returns (ok: bool)
      requires Valid()
      modifies this
      ensures Valid()
      ensures old(Resolve(key)).None? ==> !ok && unchanged(this)
      ensures old(Resolve(key)).Some? ==> (
        var id := old(Resolve(key)).value;
        var s := old(servers)[id];
        && ok == Admits(Revived(s, now), j.id)
        && servers == old(servers)[id := JoinResult(s, j, now)]
        && order == old(order) && pendingRestarts == old(pendingRestarts)
        && shutdownTimers == (if s.status == Offline || (ok && j.id !in Ids(s.jogadores))
                              then old(shutdownTimers) - {id} else old(shutdownTimers)))
    {
      var target := Resolve(key);
      if target.None? {
        return false;
      }
      ok := Join(servers[target.value].id, j, now);
    }

    /** `sairServidor`: a non-member (or an unknown server) changes nothing;
        a member is removed and logged (`LeaveResult`), and if the server is
        now empty its idle-shutdown timer is (re)armed. */
    method Leave(serverId: string, pid: string, now: int)
      requires Valid()
      modifies this
      ensures Valid()
      ensures !(serverId in old(servers) && pid in Ids(old(servers)[serverId].jogadores)) ==> unchanged(this)
      ensures serverId in old(servers) && pid in Ids(old(servers)[serverId].jogadores) ==> (
        var r := LeaveResult(old(servers)[serverId], pid, now);
        && servers == old(servers)[serverId := r]
        && shutdownTimers == (if |r.jogadores| == 0 then old(shutdownTimers) + {serverId} else old(shutdownTimers))
        && order == old(order) && pendingRestarts == old(pendingRestarts))
    {
      if serverId !in servers {
        return;
      }
      var jogador := FindPlayer(servers[serverId].jogadores, pid);
      if jogador.None? {
        return;
      }
      var r := LeaveResult(servers[serverId], pid, now);
      Put(serverId, r);
      if |r.jogadores| == 0 {
        // scheduleAutoShutdown: cancel any armed timer, then arm a new one
        shutdownTimers := shutdownTimers - {serverId};
        shutdownTimers := shutdownTimers + {serverId};
      }
    }

    /** The admin check shared by kick, ban, settings and control. */
    predicate IsCreator(serverId: string, adminId: string)
      reads this
    {
      serverId in servers && servers[serverId].criador == adminId
    }

    /** `kickJogador` (`ban` false) and `banirJogador` (`ban` true): only the
        creator may act, and only on a member; on success the member is
        removed, and with `ban` the id is recorded (`Expel`). Any failure
        changes nothing. */
    method Expulsion(serverId: string, pid: string, adminId: string, now: int, ban: bool) returns (ok: bool)
      requires Valid()
      modifies this
      ensures Valid()
      ensures ok == (old(IsCreator(serverId, adminId)) && pid in Ids(old(servers)[serverId].jogadores))
      ensures !ok ==> unchanged(this)
      ensures ok ==> servers == old(servers)[serverId := Expel(old(servers)[serverId], pid, now, ban)]
      ensures order == old(order) && shutdownTimers == old(shutdownTimers) && pendingRestarts == old(pendingRestarts)
    {
      if serverId !in servers || servers[serverId].criador != adminId {
        return false;
      }
      var jogador := FindPlayer(servers[serverId].jogadores, pid);
      if jogador.None? {
        return false;
      }
      ExpelEffect(servers[serverId], pid, now, ban);
      Put(serverId, Expel(servers[serverId], pid, now, ban));
      return true;
    }

    /** `atualizarServidor`: creator only; applies the truthy fields of the
        update (`ApplySettings`). */
    method UpdateSettings(serverId: string, adminId: string, u: SettingsUpdate, now: int) returns (ok: bool)
      requires Valid()
      modifies this
      ensures Valid()
      ensures ok == old(IsCreator(serverId, adminId))
      ensures !ok ==> unchanged(this)
      ensures ok ==> servers == old(servers)[serverId := ApplySettings(old(servers)[serverId], u, now)]
      ensures order == old(order) && shutdownTimers == old(shutdownTimers) && pendingRestarts == old(pendingRestarts)
    {
      if serverId !in servers || servers[serverId].criador != adminId {
        return false;
      }
      Put(serverId, ApplySettings(servers[serverId], u, now));
      return true;
    }

    /** `controlarServidor`: creator only. Pause, start and restart change
        the record (`ControlResult`); restart also arms a restart timer.
        Terminate (`excluirServidorAutomatico`) deletes the server, drops it
        from the order and cancels its idle timer; the farewell log entry it
        writes first goes with the deleted record. */
    method Control(serverId: string, adminId: string, a: Action, now: int) returns (ok: bool)
      requires Valid()
      modifies this
      ensures Valid()
      ensures ok == old(IsCreator(serverId, adminId))
      ensures !ok ==> unchanged(this)
      ensures ok && a == Terminate ==> (
        && servers == old(servers) - {serverId}
        && order == Without(old(order), serverId)
        && shutdownTimers == old(shutdownTimers) - {serverId}
        && pendingRestarts == old(pendingRestarts))
      ensures ok && a != Terminate ==> (
        && servers == old(servers)[serverId := ControlResult(old(servers)[serverId], a, now)]
        && order == old(order) && shutdownTimers == old(shutdownTimers)
        && pendingRestarts == old(pendingRestarts) + (if a == Restart then multiset{serverId} else multiset{}))
    {
      if serverId !in servers || servers[serverId].criador != adminId {
        return false;
      }
      if a == Terminate {
        servers := servers - {serverId};
        order := Without(order, serverId);
        shutdownTimers := shutdownTimers - {serverId};
        return true;
      }
      if a == Restart {
        pendingRestarts := pendingRestarts + multiset{serverId};
      }
      Put(serverId, ControlResult(servers[serverId], a, now));
      return true;
    }

    // -------------------------------------------------------------------------
    // Timers

    /** The idle-shutdown timer of `serverId` fires: a server still without
        players goes offline (`IdleShutdownResult`). */
    method FireAutoShutdown(serverId: string, now: int)
      requires Valid() && serverId in shutdownTimers
      modifies this
      ensures Valid()
      ensures shutdownTimers == old(shutdownTimers) - {serverId}
      ensures servers == old(servers)[serverId := IdleShutdownResult(old(servers)[serverId], now)]
      ensures order == old(order) && pendingRestarts == old(pendingRestarts)
    {
      Put(serverId, IdleShutdownResult(servers[serverId], now));
      shutdownTimers := shutdownTimers - {serverId};
    }

    /** A restart timer of `serverId` fires: the server, if it still exists,
        is online again (`RestartFinished`). */
    method FinishRestart(serverId: string, now: int)
      requires Valid() && serverId in pendingRestarts
      modifies this
      ensures Valid()
      ensures pendingRestarts == old(pendingRestarts) - multiset{serverId}
      ensures servers == if serverId in old(servers)
                         then old(servers)[serverId := RestartFinished(old(servers)[serverId], now)]
                         else old(servers)
      ensures order == old(order) && shutdownTimers == old(shutdownTimers)
    {
      pendingRestarts := pendingRestarts - multiset{serverId};
      if serverId in servers {
        Put(serverId, RestartFinished(servers[serverId], now));
      }
    }

    /** One run of the health check at time `now`: every stuck server (online
        and idle for over ten minutes) is logged and restarted through
        `Control`, so each record ends as `HealthChecked` says and one
        restart timer is armed per stuck server. */
    method HealthTick(now: int)
      requires Valid()
      modifies this
      ensures Valid()
      ensures servers.Keys == old(servers).Keys
      ensures forall k :: k in servers ==> servers[k] == HealthChecked(old(servers)[k], now)
      ensures pendingRestarts == old(pendingRestarts) + StuckIds(old(order), old(servers), now)
      ensures order == old(order) && shutdownTimers == old(shutdownTimers)
    {
      var i := 0;
      while i < |order|
        invariant Valid()
        invariant 0 <= i <= |order|
        invariant order == old(order) && shutdownTimers == old(shutdownTimers)
        invariant servers.Keys == old(servers).Keys
        invariant CheckedUpTo(old(servers), servers, order[..i], now)
        invariant pendingRestarts == old(pendingRestarts) + StuckIds(order[..i], old(servers), now)
      {
        ghost var before, pending := servers, pendingRestarts;
        CheckOne(order[i], now);
        AdvanceChecked(old(servers), before, servers, order, i, now, old(pendingRestarts), pending, pendingRestarts);
        i := i + 1;
      }
      assert order[..i] == order;
      CheckedAll(old(servers), servers, order, now);
    }

    /** The health check's visit to one server: a stuck server is logged and
        restarted through `Control`. */
    method CheckOne(id: string, now: int)
      requires Valid() && id in servers
      modifies this
      ensures Valid()
      ensures servers == old(servers)[id := HealthChecked(old(servers)[id], now)]
      ensures pendingRestarts == old(pendingRestarts) + (if IsStuck(old(servers)[id], now) then multiset{id} else multiset{})
      ensures order == old(order) && shutdownTimers == old(shutdownTimers)
    {
      var server := servers[id];
      if server.status == Online && now - server.ultimaAtividade > StuckAfter {
        AddLog(id, System, StuckDetected, now, None);
        var _ := Control(id, server.criador, Restart, now);
      }
    }

    /** One run of the ping refresh: every online server gets the fresh ping
        drawn for it (in [10, 150)); the others keep theirs. */
    method PingTick(samples: map<string, int>)
      requires Valid()
      requires forall k :: k in servers ==> k in samples && 10 <= samples[k] < 150
      modifies this
      ensures Valid()
      ensures servers.Keys == old(servers).Keys
      ensures forall k :: k in servers ==>
        servers[k] == if old(servers)[k].status == Online then Pinged(old(servers)[k], samples[k]) else old(servers)[k]
      ensures forall k :: k in servers && old(servers)[k].status == Online ==>
        10 <= servers[k].ping < 150 && servers[k].(ping := old(servers)[k].ping) == old(servers)[k]
      ensures order == old(order) && shutdownTimers == old(shutdownTimers) && pendingRestarts == old(pendingRestarts)
    {
      var i := 0;
      while i < |order|
        invariant Valid()
        invariant 0 <= i <= |order|
        invariant order == old(order) && shutdownTimers == old(shutdownTimers) && pendingRestarts == old(pendingRestarts)
        invariant servers.Keys == old(servers).Keys
        invariant PingedUpTo(old(servers), servers, order[..i], samples)
      {
        var id := order[i];
        ghost var before := servers;
        if servers[id].status == Online {
          Put(id, Pinged(servers[id], samples[id]));
        }
        AdvancePinged(old(servers), before, servers, order, i, samples);
        i := i + 1;
      }
      assert order[..i] == order;
      PingedAll(old(servers), servers, order, samples);
    }
  }

  /** Part way through the health check: the servers in `done` are as
      `HealthChecked` leaves them, the others as they were in `m0`. */
  ghost predicate CheckedUpTo(m0: map<string, Server>, m: map<string, Server>, done: seq<string>, now: int)
    requires m.Keys == m0.Keys
  {
    forall k :: k in m ==> m[k] == if k in done then HealthChecked(m0[k], now) else m0[k]
  }

  /** One step of the health check's loop: visiting `id` extends the visited
      servers by `id` alone, and adds `id` to the stuck ones if it is. */
  lemma AdvanceChecked(m0: map<string, Server>, before: map<string, Server>, after: map<string, Server>,
                       ord: seq<string>, i: nat, now: int,
                       p0: multiset<string>, pBefore: multiset<string>, pAfter: multiset<string>)
    requires NoDup(ord) && i < |ord| && (forall k :: k in ord ==> k in m0)
    requires before.Keys == m0.Keys && CheckedUpTo(m0, before, ord[..i], now)
    requires after == before[ord[i] := HealthChecked(before[ord[i]], now)]
    requires pBefore == p0 + StuckIds(ord[..i], m0, now)
    requires pAfter == pBefore + (if IsStuck(before[ord[i]], now) then multiset{ord[i]} else multiset{})
    ensures after.Keys == m0.Keys
    ensures CheckedUpTo(m0, after, ord[..i + 1], now)
    ensures pAfter == p0 + StuckIds(ord[..i + 1], m0, now)
  {
    NoDupNotBefore(ord, i);
    PrefixSnoc(ord, i);
  }

  /** Once every server has been visited, each is as `HealthChecked` leaves it. */
  lemma CheckedAll(m0: map<string, Server>, m: map<string, Server>, done: seq<string>, now: int)
    requires m.Keys == m0.Keys && (forall k :: k in done <==> k in m)
    requires CheckedUpTo(m0, m, done, now)
    ensures forall k :: k in m ==> m[k] == HealthChecked(m0[k], now)
  {
  }

  /** Part way through the ping refresh: the online servers in `done` carry
      their fresh ping, every other server is as it was in `m0`. */
  ghost predicate PingedUpTo(m0: map<string, Server>, m: map<string, Server>, done: seq<string>, samples: map<string, int>)
    requires m.Keys == m0.Keys && (forall k :: k in m0 ==> k in samples)
  {
    forall k :: k in m ==>
      m[k] == if k in done && m0[k].status == Online then Pinged(m0[k], samples[k]) else m0[k]
  }

  /** One step of the ping refresh's loop. */
  lemma AdvancePinged(m0: map<string, Server>, before: map<string, Server>, after: map<string, Server>,
                      ord: seq<string>, i: nat, samples: map<string, int>)
    requires NoDup(ord) && i < |ord| && (forall k :: k in ord ==> k in m0)
    requires before.Keys == m0.Keys && (forall k :: k in m0 ==> k in samples)
    requires PingedUpTo(m0, before, ord[..i], samples)
    requires after == if before[ord[i]].status == Online then before[ord[i] := Pinged(before[ord[i]], samples[ord[i]])] else before
    ensures after.Keys == m0.Keys
    ensures PingedUpTo(m0, after, ord[..i + 1], samples)
  {
    NoDupNotBefore(ord, i);
    PrefixSnoc(ord, i);
  }

  /** Once every server has been visited, the online ones carry their fresh
      ping in [10, 150) and nothing else of them has changed; the others are
      untouched. */
  lemma PingedAll(m0: map<string, Server>, m: map<string, Server>, done: seq<string>, samples: map<string, int>)
    requires m.Keys == m0.Keys && (forall k :: k in m0 ==> k in samples && 10 <= samples[k] < 150)
    requires forall k :: k in done <==> k in m
    requires PingedUpTo(m0, m, done, samples)
    ensures forall k :: k in m ==>
      m[k] == if m0[k].status == Online then Pinged(m0[k], samples[k]) else m0[k]
    ensures forall k :: k in m && m0[k].status == Online ==>
      10 <= m[k].ping < 150 && m[k].(ping := m0[k].ping) == m0[k]
  {
    forall k | k in m && m0[k].status == Online
      ensures 10 <= m[k].ping < 150 && m[k].(ping := m0[k].ping) == m0[k]
    {
      assert m[k] == m0[k].(ping := samples[k]);
    }
  }

  /** The position of `k` in `s`. */
  function IndexOf(s: seq<string>, k: string): (i: nat)
    requires k in s
    ensures i < |s| && s[i] == k
  {
    if s[0] == k then 0 else 1 + IndexOf(s[1..], k)
  }
}
