/**
 * The dashboard API of `api/discord.js`: the cookie guard in front of every
 * route, and what each route answers given what the bot's client knows about
 * its guilds, channels, roles and members.
 *
 * The client is a snapshot: whether it became ready within the 15-second wait,
 * and its cache of guilds in insertion order. Fetches that can fail carry their
 * outcome as an input.
 */
module Dashboard {
  import opened Common
  import opened Collections
  import Scheduler

  datatype Role = Role(id: string, name: string, hexColor: string, position: int, memberCount: nat)

  /** A member and the status of its presence, if it has one. */
  datatype Member = Member(id: string, presence: Option<string>)

  datatype Channel = Channel(id: string, name: string, channelType: int, isTextBased: bool)

  datatype Guild = Guild(
    id: string,
    name: string,
    memberCount: nat,
    roles: seq<Role>,
    members: seq<Member>,
    channels: seq<Channel>,
    emojiCount: nat)

  /** Whether `waitForClient` sees the client ready before its deadline, and the guild cache. */
  datatype Client = Client(readyInTime: bool, guilds: seq<Guild>)

  /** A route's answer: a successful JSON body, or an HTTP error status with its message. */
  datatype Reply<T> = Success(value: T) | Failure(status: nat, error: string)

  const NotAuthenticated: string := "No autenticado. Por favor inicia sesión."
  const InvalidToken: string := "Token inválido o expirado."
  const WaitTimeout: string := "Timeout esperando la conexión del bot"
  const GuildNotFound: string := "Servidor no encontrado"

  // ---------------------------------------------------------------------------
  // the guard

  /**
   * `requireAuth`: a missing or empty `auth_token` cookie, or one that does not
   * verify, is answered with 401; otherwise the route's own answer stands.
   */
  function RequireAuth<T>(cookie: Option<string>, verifies: string -> bool, route: Reply<T>): (r: Reply<T>)
    ensures cookie.None? || cookie.value == "" ==> r == Failure(401, NotAuthenticated)
    ensures cookie.Some? && cookie.value != "" && !verifies(cookie.value) ==> r == Failure(401, InvalidToken)
    ensures cookie.Some? && cookie.value != "" && verifies(cookie.value) ==> r == route
  {
    if cookie.None? || cookie.value == "" then Failure(401, NotAuthenticated)
    else if !verifies(cookie.value) then Failure(401, InvalidToken)
    else route
  }

  /** Without a valid token the route's answer is never seen: any two routes are answered alike, with 401. */
  lemma UnauthenticatedRouteIgnored<T>(cookie: Option<string>, verifies: string -> bool, a: Reply<T>, b: Reply<T>)
    requires cookie.None? || cookie.value == "" || !verifies(cookie.value)
    ensures RequireAuth(cookie, verifies, a) == RequireAuth(cookie, verifies, b)
    ensures RequireAuth(cookie, verifies, a).Failure? && RequireAuth(cookie, verifies, a).status == 401
  {
  }

  // ---------------------------------------------------------------------------
  // lookups

  /** `client.guilds.cache.get(id)`: the guild with the id. */
  function FindGuild(guilds: seq<Guild>, id: string): (r: Option<Guild>)
    ensures r.Some? ==> r.value in guilds && r.value.id == id
    ensures r.None? <==> forall i :: 0 <= i < |guilds| ==> guilds[i].id != id
  {
    FindWhere(guilds, (g: Guild) => g.id == id)
  }

  /** `guild.roles.cache.find(r => r.name === name)`: the first role with the name. */
  function FindRole(roles: seq<Role>, name: string): (r: Option<Role>)
    ensures r.Some? ==> exists i :: 0 <= i < |roles| && roles[i] == r.value && r.value.name == name
                                    && forall j :: 0 <= j < i ==> roles[j].name != name
    ensures r.None? <==> forall i :: 0 <= i < |roles| ==> roles[i].name != name
  {
    FindWhere(roles, (role: Role) => role.name == name)
  }

  // ---------------------------------------------------------------------------
  // send-message

  /** A call the route makes to the platform. */
  datatype PlatformCall = AwaitClient | FetchChannel(channelId: string) | SendText(channelId: string, text: string)

  datatype SendOutcome = SendOutcome(reply: Reply<string>, calls: seq<PlatformCall>)

  /**
   * `POST /send-message`. `channels` maps each channel the platform knows to
   * whether it is text-based; fetching any other id fails with the platform's
   * `Unknown Channel` error. `sendFails` is the
   * outcome of `channel.send`, with its error message.
   */
  function SendMessage(channelId: string, message: string, client: Client, channels: map<string, bool>,
                       sendFails: Option<string>): (r: SendOutcome)
    ensures channelId == "" || message == "" ==>
      r.calls == [] && r.reply == Failure(400, "Canal y mensaje son requeridos")
    ensures r.reply.Success? <==>
      channelId != "" && message != "" && client.readyInTime && channelId in channels && channels[channelId]
      && sendFails.None?
    ensures SendText(channelId, message) in r.calls <==>
      channelId != "" && message != "" && client.readyInTime && channelId in channels && channels[channelId]
    ensures forall c :: c in r.calls && c.SendText? ==> c == SendText(channelId, message)
    ensures channelId != "" && message != "" && !client.readyInTime ==>
      r == SendOutcome(Failure(500, "Error enviando mensaje: " + WaitTimeout), [AwaitClient])
    ensures channelId != "" && message != "" && client.readyInTime && channelId !in channels ==>
      r == SendOutcome(Failure(500, "Error enviando mensaje: Unknown Channel"), [AwaitClient, FetchChannel(channelId)])
    ensures channelId != "" && message != "" && client.readyInTime && channelId in channels && !channels[channelId] ==>
      r == SendOutcome(Failure(404, "Canal no encontrado o no es de texto"), [AwaitClient, FetchChannel(channelId)])
    ensures channelId != "" && message != "" && client.readyInTime && channelId in channels && channels[channelId] ==>
      && r.calls == [AwaitClient, FetchChannel(channelId), SendText(channelId, message)]
      && r.reply == if sendFails.Some? then Failure(500, "Error enviando mensaje: " + sendFails.value)
                    else Success("Mensaje enviado correctamente")
  {
    if channelId == "" || message == "" then
      SendOutcome(Failure(400, "Canal y mensaje son requeridos"), [])
    else if !client.readyInTime then
      SendOutcome(Failure(500, "Error enviando mensaje: " + WaitTimeout), [AwaitClient])
    else if channelId !in channels then
      SendOutcome(Failure(500, "Error enviando mensaje: Unknown Channel"), [AwaitClient, FetchChannel(channelId)])
    else if !channels[channelId] then
      SendOutcome(Failure(404, "Canal no encontrado o no es de texto"), [AwaitClient, FetchChannel(channelId)])
    else
      var calls := [AwaitClient, FetchChannel(channelId), SendText(channelId, message)];
      match sendFails
      case Some(e) => SendOutcome(Failure(500, "Error enviando mensaje: " + e), calls)
      case None => SendOutcome(Success("Mensaje enviado correctamente"), calls)
  }

  // ---------------------------------------------------------------------------
  // roles

  datatype RoleEntry = RoleEntry(id: string, name: string, color: string, position: int)

  predicate NotEveryone(role: Role) { role.name != "@everyone" }

  function ToRoleEntry(role: Role): RoleEntry {
    RoleEntry(role.id, role.name, role.hexColor, role.position)
  }

  function Position(e: RoleEntry): int { e.position }

  /**
   * The roles route's list: every role but `@everyone`, as entries, by
   * position from highest to lowest.
   */
  function RoleList(g: Guild): (r: seq<RoleEntry>)
    ensures SortedDesc(r, Position)
    ensures multiset(r) == multiset(Map(Filter(g.roles, NotEveryone), ToRoleEntry))
  {
    SortByKeyDesc(Map(Filter(g.roles, NotEveryone), ToRoleEntry), Position)
  }

  /** An entry is listed exactly when it is the entry of a role of the guild other than `@everyone`. */
  lemma RoleListMembership(g: Guild, e: RoleEntry)
    ensures e in RoleList(g) <==> exists role :: role in g.roles && role.name != "@everyone" && e == ToRoleEntry(role)
  {
    var kept := Filter(g.roles, NotEveryone);
    var entries := Map(kept, ToRoleEntry);
    assert e in RoleList(g) <==> e in multiset(entries);
    MapMembership(kept, ToRoleEntry, e);
    FilterMembership(g.roles, NotEveryone);
  }

  /** `GET /roles/:guildId`. */
  function GetRoles(client: Client, guildId: string): (r: Reply<seq<RoleEntry>>)
    ensures !client.readyInTime ==> r == Failure(503, "Error obteniendo roles")
    ensures client.readyInTime && FindGuild(client.guilds, guildId).None? ==> r == Failure(404, GuildNotFound)
    ensures r.Success? ==>
      (FindGuild(client.guilds, guildId).Some? && r.value == RoleList(FindGuild(client.guilds, guildId).value))
    ensures client.readyInTime && FindGuild(client.guilds, guildId).Some? ==>
      r == Success(RoleList(FindGuild(client.guilds, guildId).value))
  {
    if !client.readyInTime then Failure(503, "Error obteniendo roles")
    else
      match FindGuild(client.guilds, guildId)
      case None => Failure(404, GuildNotFound)
      case Some(g) => Success(RoleList(g))
  }

  // ---------------------------------------------------------------------------
  // stats

  datatype RoleCount = RoleCount(id: string, name: string, memberCount: nat)

  datatype Stats = Stats(
    memberCount: nat,
    onlineMembers: nat,
    textChannels: nat,
    voiceChannels: nat,
    emojiCount: nat,
    roles: seq<RoleCount>)

  /** `member.presence?.status` is online, idle or do-not-disturb. */
  predicate IsActive(m: Member) {
    m.presence.Some? && m.presence.value in {"online", "idle", "dnd"}
  }

  predicate IsTextType(c: Channel) { c.channelType == 0 }

  predicate IsVoiceType(c: Channel) { c.channelType == 2 }

  function ToRoleCount(role: Role): RoleCount {
    RoleCount(role.id, role.name, role.memberCount)
  }

  function Members(e: RoleCount): int { e.memberCount }

  /** The statistics of a guild whose members have been fetched. */
  function GuildStats(g: Guild): (s: Stats)
    ensures s.memberCount == g.memberCount && s.emojiCount == g.emojiCount
    ensures s.onlineMembers <= |g.members|
    ensures s.onlineMembers == 0 <==> forall i :: 0 <= i < |g.members| ==> !IsActive(g.members[i])
    ensures SortedDesc(s.roles, Members)
    ensures forall i :: 0 <= i < |s.roles| ==> s.roles[i].name != "@everyone"
    ensures multiset(s.roles) == multiset(Map(Filter(g.roles, NotEveryone), ToRoleCount))
  {
    var roles := SortByKeyDesc(Map(Filter(g.roles, NotEveryone), ToRoleCount), Members);
    assert forall i :: 0 <= i < |roles| ==> roles[i].name != "@everyone" by {
      var kept := Filter(g.roles, NotEveryone);
      forall i | 0 <= i < |roles| ensures roles[i].name != "@everyone" {
        assert roles[i] in multiset(Map(kept, ToRoleCount));
        var j :| 0 <= j < |kept| && Map(kept, ToRoleCount)[j] == roles[i];
      }
    }
    Stats(g.memberCount, CountWhere(g.members, IsActive), CountWhere(g.channels, IsTextType),
          CountWhere(g.channels, IsVoiceType), g.emojiCount, roles)
  }

  /** The counts are those of the filtered lists, and no channel is both text and voice. */
  lemma StatsCounts(g: Guild)
    ensures GuildStats(g).onlineMembers == |Filter(g.members, IsActive)|
    ensures GuildStats(g).textChannels == |Filter(g.channels, IsTextType)|
    ensures GuildStats(g).voiceChannels == |Filter(g.channels, IsVoiceType)|
    ensures GuildStats(g).textChannels + GuildStats(g).voiceChannels <= |g.channels|
  {
    FilterLength(g.members, IsActive);
    FilterLength(g.channels, IsTextType);
    FilterLength(g.channels, IsVoiceType);
    CountDisjoint(g.channels, IsTextType, IsVoiceType);
  }

  /**
   * `GET /stats/:guildId`. `fetchError` is the outcome of `guild.members.fetch()`:
   * `None` when it succeeds, else the error's message.
   */
  function GetStats(client: Client, guildId: string, fetchError: Option<string>): (r: Reply<Stats>)
    ensures !client.readyInTime ==> r == Failure(500, "Error obteniendo estadísticas: " + WaitTimeout)
    ensures r.Success? <==>
      client.readyInTime && FindGuild(client.guilds, guildId).Some? && fetchError.None?
    ensures r.Success? ==> r.value == GuildStats(FindGuild(client.guilds, guildId).value)
    ensures client.readyInTime && FindGuild(client.guilds, guildId).None? ==> r == Failure(404, GuildNotFound)
    ensures client.readyInTime && FindGuild(client.guilds, guildId).Some? && fetchError.Some? ==>
      r == Failure(500, "Error obteniendo estadísticas: " + fetchError.value)
  {
    if !client.readyInTime then Failure(500, "Error obteniendo estadísticas: " + WaitTimeout)
    else
      match FindGuild(client.guilds, guildId)
      case None => Failure(404, GuildNotFound)
      case Some(g) =>
        match fetchError
        case Some(e) => Failure(500, "Error obteniendo estadísticas: " + e)
        case None => Success(GuildStats(g))
  }

  // ---------------------------------------------------------------------------
  // calculate-expelled

  const NslRole: string := "NSL"
  const StudentRole: string := "Estudiante Privado Oficial"

  datatype ExpelledReport = ExpelledReport(expelled: int, nslCount: nat, estudianteCount: nat, warning: bool)

  /**
   * The body of `GET /calculate-expelled/:guildId` for a guild: with both roles,
   * the unclamped difference of their member counts; with either missing, 0, each
   * present role reporting its count, an absent one 0, and a warning.
   */
  function ExpelledOf(g: Guild): (r: ExpelledReport)
    ensures FindRole(g.roles, NslRole).Some? && FindRole(g.roles, StudentRole).Some? ==>
      && !r.warning
      && r.nslCount == FindRole(g.roles, NslRole).value.memberCount
      && r.estudianteCount == FindRole(g.roles, StudentRole).value.memberCount
      && r.expelled == r.nslCount - r.estudianteCount
    ensures FindRole(g.roles, NslRole).None? || FindRole(g.roles, StudentRole).None? ==>
      && r.warning && r.expelled == 0
      && r.nslCount == (if FindRole(g.roles, NslRole).Some? then FindRole(g.roles, NslRole).value.memberCount else 0)
      && r.estudianteCount ==
           (if FindRole(g.roles, StudentRole).Some? then FindRole(g.roles, StudentRole).value.memberCount else 0)
  {
    var nsl := FindRole(g.roles, NslRole);
    var student := FindRole(g.roles, StudentRole);
    if nsl.None? || student.None? then
      ExpelledReport(0, if nsl.Some? then nsl.value.memberCount else 0,
                     if student.Some? then student.value.memberCount else 0, true)
    else
      ExpelledReport(nsl.value.memberCount - student.value.memberCount,
                     nsl.value.memberCount, student.value.memberCount, false)
  }

  /** `GET /calculate-expelled/:guildId`; `fetchError` as for the stats route. */
  function CalculateExpelled(client: Client, guildId: string, fetchError: Option<string>): (r: Reply<ExpelledReport>)
    ensures r.Success? <==>
      client.readyInTime && FindGuild(client.guilds, guildId).Some? && fetchError.None?
    ensures client.readyInTime && FindGuild(client.guilds, guildId).None? ==> r == Failure(404, GuildNotFound)
    ensures r.Success? ==> r.value == ExpelledOf(FindGuild(client.guilds, guildId).value)
    ensures !client.readyInTime ==> r == Failure(500, "Error calculando expulsados: " + WaitTimeout)
    ensures client.readyInTime && FindGuild(client.guilds, guildId).Some? && fetchError.Some? ==>
      r == Failure(500, "Error calculando expulsados: " + fetchError.value)
  {
    if !client.readyInTime then Failure(500, "Error calculando expulsados: " + WaitTimeout)
    else
      match FindGuild(client.guilds, guildId)
      case None => Failure(404, GuildNotFound)
      case Some(g) =>
        match fetchError
        case Some(e) => Failure(500, "Error calculando expulsados: " + e)
        case None => Success(ExpelledOf(g))
  }

  /** What the scheduler's count sees of a guild whose members were fetched. */
  function RolesView(g: Guild): Scheduler.GuildRoles {
    var nsl := FindRole(g.roles, NslRole);
    var student := FindRole(g.roles, StudentRole);
    Scheduler.GuildRoles(
      true,
      if nsl.Some? then Some(nsl.value.memberCount) else None,
      if student.Some? then Some(student.value.memberCount) else None)
  }

  /**
   * The dashboard's count and the count the scheduled report substitutes agree
   * whenever the dashboard answers: both give the difference when both roles
   * exist and 0 when either is missing.
   */
  lemma DashboardAgreesWithScheduler(client: Client, guildId: string)
    requires CalculateExpelled(client, guildId, None).Success?
    ensures var g := FindGuild(client.guilds, guildId).value;
      CalculateExpelled(client, guildId, None).value.expelled
      == Scheduler.CalculateExpelled(map[guildId := RolesView(g)], guildId)
  {
  }

  // ---------------------------------------------------------------------------
  // channel and server lists

  datatype ChannelEntry = ChannelEntry(id: string, name: string, guild: string, guildId: string)

  function Tag(c: Channel, g: Guild): ChannelEntry {
    ChannelEntry(c.id, c.name, g.name, g.id)
  }

  predicate IsTextBasedChannel(c: Channel) { c.isTextBased }

  /** One guild's text-based channels, in cache order, tagged with the guild. */
  function GuildChannels(g: Guild): seq<ChannelEntry> {
    Map(Filter(g.channels, IsTextBasedChannel), (c: Channel) => Tag(c, g))
  }

  /** The channels route's list: each guild's tagged text channels, guild after guild. */
  function ChannelsOf(guilds: seq<Guild>): (r: seq<ChannelEntry>)
    decreases |guilds|
  {
    if guilds == [] then []
    else ChannelsOf(guilds[..|guilds| - 1]) + GuildChannels(guilds[|guilds| - 1])
  }

  lemma GuildChannelsMembership(g: Guild, e: ChannelEntry)
    ensures e in GuildChannels(g) <==> exists c :: c in g.channels && c.isTextBased && e == Tag(c, g)
  {
    var text := Filter(g.channels, IsTextBasedChannel);
    MapMembership(text, (c: Channel) => Tag(c, g), e);
    FilterMembership(g.channels, IsTextBasedChannel);
  }

  /** `e` is a text-based channel of one of the guilds, tagged with that guild. */
  predicate TaggedChannelOf(guilds: seq<Guild>, e: ChannelEntry) {
    exists i, c :: 0 <= i < |guilds| && c in guilds[i].channels && c.isTextBased && e == Tag(c, guilds[i])
  }

  /** A tagged channel of `guilds` comes from the guilds before the last one or from the last one. */
  lemma TaggedChannelOfSnoc(guilds: seq<Guild>, e: ChannelEntry)
    requires guilds != []
    ensures TaggedChannelOf(guilds, e) <==>
      TaggedChannelOf(guilds[..|guilds| - 1], e) || e in GuildChannels(guilds[|guilds| - 1])
  {
    var n := |guilds| - 1;
    var init := guilds[..n];
    GuildChannelsMembership(guilds[n], e);
    if TaggedChannelOf(guilds, e) {
      var i, c :| 0 <= i < |guilds| && c in guilds[i].channels && c.isTextBased && e == Tag(c, guilds[i]);
      if i < n {
        assert init[i] == guilds[i];
      }
    }
    if TaggedChannelOf(init, e) {
      var i, c :| 0 <= i < |init| && c in init[i].channels && c.isTextBased && e == Tag(c, init[i]);
      assert guilds[i] == init[i];
    }
  }

  /**
   * An entry is listed exactly when it is a text-based channel of one of the
   * guilds, tagged with that guild's name and id.
   */
  lemma {:induction false} ChannelsOfMembership(guilds: seq<Guild>, e: ChannelEntry)
    ensures e in ChannelsOf(guilds) <==> TaggedChannelOf(guilds, e)
    decreases |guilds|
  {
    if guilds != [] {
      ChannelsOfMembership(guilds[..|guilds| - 1], e);
      TaggedChannelOfSnoc(guilds, e);
    }
  }

  /** `GET /channels`: pushes each guild's tagged text channels in turn. */
  method ListChannels(client: Client) returns (r: Reply<seq<ChannelEntry>>)
    ensures !client.readyInTime ==>
      r == Failure(503, "El bot aún se está conectando. Intenta de nuevo en unos segundos.")
    ensures client.readyInTime ==> r == Success(ChannelsOf(client.guilds))
  {
    if !client.readyInTime {
      return Failure(503, "El bot aún se está conectando. Intenta de nuevo en unos segundos.");
    }
    var guilds := client.guilds;
    var channelsData: seq<ChannelEntry> := [];
    var i := 0;
    while i < |guilds|
      invariant 0 <= i <= |guilds|
      invariant channelsData == ChannelsOf(guilds[..i])
    {
      assert guilds[..i + 1][..i] == guilds[..i];
      channelsData := channelsData + GuildChannels(guilds[i]);
      i := i + 1;
    }
    assert guilds[..|guilds|] == guilds;
    r := Success(channelsData);
  }

  datatype ServerEntry = ServerEntry(id: string, name: string, memberCount: nat)

  /** `GET /servers`: one entry per guild, in cache order. */
  method ListServers(client: Client) returns (r: Reply<seq<ServerEntry>>)
    ensures !client.readyInTime ==> r == Failure(503, "El bot aún se está conectando.")
    ensures client.readyInTime ==> r.Success? && |r.value| == |client.guilds|
    ensures client.readyInTime ==> forall i :: 0 <= i < |client.guilds| ==>
      r.value[i] == ServerEntry(client.guilds[i].id, client.guilds[i].name, client.guilds[i].memberCount)
  {
    if !client.readyInTime {
      return Failure(503, "El bot aún se está conectando.");
    }
    var serversData: seq<ServerEntry> := [];
    var i := 0;
    while i < |client.guilds|
      invariant 0 <= i <= |client.guilds| && |serversData| == i
      invariant forall j :: 0 <= j < i ==>
        serversData[j] == ServerEntry(client.guilds[j].id, client.guilds[j].name, client.guilds[j].memberCount)
    {
      var guild := client.guilds[i];
      serversData := serversData + [ServerEntry(guild.id, guild.name, guild.memberCount)];
      i := i + 1;
    }
    r := Success(serversData);
  }
}
