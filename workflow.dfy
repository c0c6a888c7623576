/**
 * The application workflow's persistent state and the handlers that act on
 * it (index.js): the `block`, `remove-block`, `stats`, `check-user` and
 * `clear-cooldown` slash commands, the `complete_setup` button that commits
 * the setup wizard, and the `apply` button's gate. Each handler runs as one
 * sequential step over the five collections; the replies it sends become its
 * result, and the audit messages it sends to the log channel are appended to
 * `auditLog`.
 */
module Workflow {
  import opened Records
  import Permission
  import Cooldown
  import Statistics

  /** What an invocation carries besides its command options. */
  datatype Request = Request(
    guild: GuildId,
    member: Member,
    // ids of the guild's channels the client has cached, where a log can be sent
    channels: set<ChannelId>,
    // whether the ServerSettings lookup in the permission check throws
    settingsLookupFails: bool)

  /** The audit messages the handlers send to a guild's log channel. */
  datatype AuditEvent =
    | BlockLogged(target: UserId, actor: UserId)
    | UnblockLogged(target: UserId, actor: UserId)
    | CooldownClearLogged(target: UserId, actor: UserId)
    | SetupLogged(actor: UserId)

  datatype AuditEntry = AuditEntry(channel: ChannelId, event: AuditEvent)

  /** The `stats` summary: three stored counters and the live blocklist size. */
  datatype StatsView = StatsView(total: int, accepted: int, rejected: int, blocked: nat)

  /** The `check-user` summary of a user who has an Application record. */
  datatype History = History(count: nat, lastSeconds: nat, status: Option<string>)

  datatype UserView = UserView(blocked: bool, history: Option<History>)

  /** The private replies of the slash commands. */
  datatype Reply =
    | Denied
    | MissingUser
    | AlreadyBlocked
    | BlockAdded
    | BlockRemoved
    | NotBlocked
    | CooldownReset
    | NeverApplied
    | StatsShown(stats: StatsView)
    | UserShown(user: UserView)

  /** The awaited calls of `complete_setup`, in order; any of them may throw. */
  datatype SetupStep = ReadTemp | SaveSettings | PostApplyButton | ConfirmSetup | SendSetupLog | DeleteTemp

  /**
   * What `complete_setup` leaves on the wizard's message. `SavedTempKept`: a
   * throw after the success text was shown; the catch block's second update of
   * the same interaction is refused, so the success text stays although the
   * scratch row was not deleted.
   */
  datatype SetupReply = RestartSetup | SetupSaved | SavedTempKept | SetupError

  /** The status line `check-user` shows: a stored non-empty status, or "unknown". */
  function ShownStatus(status: Option<string>): (s: Option<string>)
    ensures s.Some? ==> status == s && s.value != ""
    ensures s.None? ==> status.None? || status.value == ""
  {
    if status.Some? && status.value != "" then status else None
  }

  class Store {
    var serverSettings: map<GuildId, Settings>
    var tempSettings: map<GuildId, Settings>
    var stats: map<GuildId, Counters>
    var applications: map<UserId, ApplicationRecord>
    var blocklist: set<(GuildId, UserId)>
    var auditLog: seq<AuditEntry>

    /** The collections as the bot finds them in the database; no audit message sent yet. */
    constructor (
      serverSettings: map<GuildId, Settings>,
      tempSettings: map<GuildId, Settings>,
      stats: map<GuildId, Counters>,
      applications: map<UserId, ApplicationRecord>,
      blocklist: set<(GuildId, UserId)>)
      ensures this.serverSettings == serverSettings && this.tempSettings == tempSettings
      ensures this.stats == stats && this.applications == applications
      ensures this.blocklist == blocklist && auditLog == []
    {
      this.serverSettings := serverSettings;
      this.tempSettings := tempSettings;
      this.stats := stats;
      this.applications := applications;
      this.blocklist := blocklist;
      auditLog := [];
    }

    /** The `findOne` of `hasPermission`, with its catch: the row, no row, or a throw. */
    function Lookup(req: Request): (r: Permission.SettingsLookup)
      reads this
      ensures r.LookupFailed? <==> req.settingsLookupFails
      ensures r.NotFound? <==> !req.settingsLookupFails && req.guild !in serverSettings
      ensures r.Found? ==> req.guild in serverSettings && r.settings == serverSettings[req.guild]
    {
      if req.settingsLookupFails then Permission.LookupFailed
      else if req.guild in serverSettings then Permission.Found(serverSettings[req.guild])
      else Permission.NotFound
    }

    /** `hasPermission(interaction.member)` against the stored ServerSettings. */
    function Allowed(req: Request): (a: bool)
      reads this
      ensures a <==>
        req.member.isAdmin ||
        (!req.settingsLookupFails && req.guild in serverSettings &&
         exists role :: role in req.member.roles && role in serverSettings[req.guild].roles)
    {
      Permission.HasPermission(Lookup(req), req.member)
    }

    /** `isUserBlocked`: whether a Blocklist row exists for the pair. */
    function IsUserBlocked(guild: GuildId, user: UserId): (b: bool)
      reads this
      ensures b <==> user in BlockedUsersOf(guild)
    {
      (guild, user) in blocklist
    }

    /** The users with a Blocklist row in the guild; `countDocuments` counts them. */
    function BlockedUsersOf(guild: GuildId): (users: set<UserId>)
      reads this
      ensures forall user :: user in users <==> (guild, user) in blocklist
    {
      set p | p in blocklist && p.0 == guild :: p.1
    }

    /** The user's last application time, the epoch when the user has no record. */
    function LastApplicationTime(user: UserId): (t: nat)
      reads this
      ensures user !in applications ==> t == 0
      ensures user in applications ==> t == applications[user].lastApplicationTime
    {
      if user in applications then applications[user].lastApplicationTime else 0
    }

    /**
     * `logSystem.sendLog`: one message to the guild's log channel when the
     * guild's settings name one that the client knows, otherwise nothing.
     */
    function SendLog(req: Request, event: AuditEvent): (sent: seq<AuditEntry>)
      reads this
      ensures |sent| <= 1
      ensures sent != [] <==>
        req.guild in serverSettings && serverSettings[req.guild].logChannelId != "" &&
        serverSettings[req.guild].logChannelId in req.channels
      ensures sent != [] ==> sent[0] == AuditEntry(serverSettings[req.guild].logChannelId, event)
    {
      if req.guild in serverSettings then
        var channel := serverSettings[req.guild].logChannelId;
        if channel != "" && channel in req.channels then [AuditEntry(channel, event)] else []
      else []
    }

    /** `updateStats(guild, field, k)`: an upserting `$inc` of one counter. */
    method UpdateStats(guild: GuildId, field: StatField, k: int)
      modifies this
      ensures stats == Statistics.Increment(old(stats), guild, field, k)
      ensures serverSettings == old(serverSettings) && tempSettings == old(tempSettings)
      ensures applications == old(applications) && blocklist == old(blocklist) && auditLog == old(auditLog)
    {
      stats := stats[guild := Statistics.Bump(Statistics.CountersOf(stats, guild), field, k)];
    }

    /**
     * `/block user`: a new pair gets exactly one Blocklist row and one more
     * `blockedUsers`; a pair already blocked changes nothing.
     */
    method Block(req: Request, target: Option<UserId>) returns (reply: Reply)
      modifies this
      ensures serverSettings == old(serverSettings) && tempSettings == old(tempSettings)
      ensures applications == old(applications)
      ensures !old(Allowed(req)) ==> reply == Denied && unchanged(this)
      ensures old(Allowed(req)) && target.None? ==> reply == MissingUser && unchanged(this)
      ensures old(Allowed(req)) && target.Some? && old(IsUserBlocked(req.guild, target.value)) ==>
        reply == AlreadyBlocked && unchanged(this)
      ensures old(Allowed(req)) && target.Some? && !old(IsUserBlocked(req.guild, target.value)) ==>
        && reply == BlockAdded
        && blocklist == old(blocklist) + {(req.guild, target.value)}
        && |BlockedUsersOf(req.guild)| == |old(BlockedUsersOf(req.guild))| + 1
        && stats == Statistics.Increment(old(stats), req.guild, BlockedUsers, 1)
        && auditLog == old(auditLog) + SendLog(req, BlockLogged(target.value, req.member.id))
    {
      if !Allowed(req) {
        return Denied;
      }
      if target.None? {
        return MissingUser;
      }
      var user := target.value;
      if IsUserBlocked(req.guild, user) {
        return AlreadyBlocked;
      }
      ghost var before := BlockedUsersOf(req.guild);
      blocklist := blocklist + {(req.guild, user)};
      assert BlockedUsersOf(req.guild) == before + {user};
      UpdateStats(req.guild, BlockedUsers, 1);
      reply := BlockAdded;
      auditLog := auditLog + SendLog(req, BlockLogged(user, req.member.id));
    }

    /**
     * `/remove-block user`: deletes the pair's row when there is one and says
     * so; otherwise reports that the user is not blocked.
     */
    method RemoveBlock(req: Request, target: Option<UserId>) returns (reply: Reply)
      modifies this
      ensures serverSettings == old(serverSettings) && tempSettings == old(tempSettings)
      ensures stats == old(stats) && applications == old(applications)
      ensures !old(Allowed(req)) ==> reply == Denied && unchanged(this)
      ensures old(Allowed(req)) && target.None? ==> reply == MissingUser && unchanged(this)
      ensures old(Allowed(req)) && target.Some? && !old(IsUserBlocked(req.guild, target.value)) ==>
        reply == NotBlocked && unchanged(this)
      ensures old(Allowed(req)) && target.Some? && old(IsUserBlocked(req.guild, target.value)) ==>
        && reply == BlockRemoved
        && blocklist == old(blocklist) - {(req.guild, target.value)}
        && |BlockedUsersOf(req.guild)| + 1 == |old(BlockedUsersOf(req.guild))|
        && auditLog == old(auditLog) + SendLog(req, UnblockLogged(target.value, req.member.id))
    {
      if !Allowed(req) {
        return Denied;
      }
      if target.None? {
        return MissingUser;
      }
      var user := target.value;
      if !IsUserBlocked(req.guild, user) {
        return NotBlocked;
      }
      ghost var before := BlockedUsersOf(req.guild);
      blocklist := blocklist - {(req.guild, user)};
      assert BlockedUsersOf(req.guild) == before - {user};
      reply := BlockRemoved;
      auditLog := auditLog + SendLog(req, UnblockLogged(user, req.member.id));
    }

    /**
     * `/stats`: the guild's counters (zeros when it has no Stats row) and the
     * number of its Blocklist rows counted live, not the `blockedUsers` counter.
     */
    method ShowStats(req: Request) returns (reply: Reply)
      ensures !Allowed(req) <==> reply == Denied
      ensures Allowed(req) ==> reply.StatsShown?
      ensures reply.StatsShown? ==> reply.stats.blocked == |BlockedUsersOf(req.guild)|
      ensures reply.StatsShown? && req.guild !in stats ==>
        reply.stats.total == 0 && reply.stats.accepted == 0 && reply.stats.rejected == 0
      ensures reply.StatsShown? && req.guild in stats ==>
        && reply.stats.total == stats[req.guild].totalApplications
        && reply.stats.accepted == stats[req.guild].acceptedApplications
        && reply.stats.rejected == stats[req.guild].rejectedApplications
    {
      if !Allowed(req) {
        return Denied;
      }
      var counters := Statistics.CountersOf(stats, req.guild);
      var blockedCount := |BlockedUsersOf(req.guild)|;
      reply := StatsShown(StatsView(
        counters.totalApplications, counters.acceptedApplications,
        counters.rejectedApplications, blockedCount));
    }

    /**
     * `/check-user user`: the user's blocklist status in this guild and, if
     * the user ever applied (in any guild), how many times, when last (in
     * whole seconds) and the last decision.
     */
    method CheckUser(req: Request, target: Option<UserId>) returns (reply: Reply)
      ensures !Allowed(req) <==> reply == Denied
      ensures Allowed(req) && target.None? <==> reply == MissingUser
      ensures Allowed(req) && target.Some? <==> reply.UserShown?
      ensures reply.UserShown? ==> reply.user.blocked == IsUserBlocked(req.guild, target.value)
      ensures reply.UserShown? ==> (reply.user.history.None? <==> target.value !in applications)
      ensures reply.UserShown? && target.value in applications ==>
        var record := applications[target.value];
        && reply.user.history.value.count == |record.applications|
        && reply.user.history.value.lastSeconds * 1000 <= record.lastApplicationTime
        && record.lastApplicationTime < (reply.user.history.value.lastSeconds + 1) * 1000
        && reply.user.history.value.status == ShownStatus(record.lastStatus)
    {
      if !Allowed(req) {
        return Denied;
      }
      if target.None? {
        return MissingUser;
      }
      var user := target.value;
      var blocked := IsUserBlocked(req.guild, user);
      if user in applications {
        var record := applications[user];
        var history := History(|record.applications|, record.lastApplicationTime / 1000, ShownStatus(record.lastStatus));
        reply := UserShown(UserView(blocked, Some(history)));
      } else {
        reply := UserShown(UserView(blocked, None));
      }
    }

    /**
     * `/clear-cooldown user`: puts the user's last application time back to
     * the epoch, keeping the history and the last status; a user without a
     * record gets none and the reply says the user never applied.
     */
    method ClearCooldown(req: Request, target: Option<UserId>) returns (reply: Reply)
      modifies this
      ensures serverSettings == old(serverSettings) && tempSettings == old(tempSettings)
      ensures stats == old(stats) && blocklist == old(blocklist)
      ensures !old(Allowed(req)) ==> reply == Denied && unchanged(this)
      ensures old(Allowed(req)) && target.None? ==> reply == MissingUser && unchanged(this)
      ensures old(Allowed(req)) && target.Some? && target.value !in old(applications) ==>
        reply == NeverApplied && unchanged(this)
      ensures old(Allowed(req)) && target.Some? && target.value in old(applications) ==>
        && reply == CooldownReset
        && applications == old(applications)[target.value := old(applications)[target.value].(lastApplicationTime := 0)]
        && LastApplicationTime(target.value) == 0
        && auditLog == old(auditLog) + SendLog(req, CooldownClearLogged(target.value, req.member.id))
    {
      if !Allowed(req) {
        return Denied;
      }
      if target.None? {
        return MissingUser;
      }
      var user := target.value;
      if user !in applications {
        return NeverApplied;
      }
      applications := applications[user := applications[user].(lastApplicationTime := 0)];
      reply := CooldownReset;
      auditLog := auditLog + SendLog(req, CooldownClearLogged(user, req.member.id));
    }

    /**
     * The `complete_setup` button: copies the guild's TempSettings into its
     * ServerSettings (upsert), posts the "Apply" button, logs, and deletes the
     * scratch row. `failure` names the awaited call that throws, if any; a
     * throw lands in the catch block, which only replies, so TempSettings is
     * kept for a retry; once the success text has been shown, that reply is
     * refused and the success text stays. The button does not run the
     * permission check.
     * `posted` tells whether the "Apply" button message was sent.
     */
    method CompleteSetup(req: Request, failure: Option<SetupStep>) returns (reply: SetupReply, posted: bool)
      modifies this
      ensures stats == old(stats) && applications == old(applications) && blocklist == old(blocklist)
      ensures failure == Some(ReadTemp) ==> reply == SetupError && !posted && unchanged(this)
      ensures failure != Some(ReadTemp) && req.guild !in old(tempSettings) ==>
        reply == RestartSetup && !posted && unchanged(this)
      ensures reply == SetupSaved <==> req.guild in old(tempSettings) && (failure.None? || (failure == Some(SendSetupLog) && old(tempSettings)[req.guild].logChannelId !in req.channels))
      ensures reply == SavedTempKept <==>
        (req.guild in old(tempSettings) &&
         (failure == Some(DeleteTemp) || (failure == Some(SendSetupLog) && old(tempSettings)[req.guild].logChannelId in req.channels)))
      ensures reply == SetupError <==>
        (failure == Some(ReadTemp) ||
         (req.guild in old(tempSettings) && failure in {Some(SaveSettings), Some(PostApplyButton), Some(ConfirmSetup)}))
      ensures reply == SetupSaved ==>
        && serverSettings == old(serverSettings)[req.guild := old(tempSettings)[req.guild]]
        && tempSettings == old(tempSettings) - {req.guild}
        && posted
      ensures reply != SetupSaved ==> tempSettings == old(tempSettings)
      ensures req.guild in old(tempSettings) && failure == Some(SaveSettings) ==>
        reply == SetupError && !posted && unchanged(this)
      ensures posted <==> req.guild in old(tempSettings) && failure !in {Some(ReadTemp), Some(SaveSettings), Some(PostApplyButton)}
      ensures (req.guild in old(tempSettings) && failure.Some? &&
               failure.value in {PostApplyButton, ConfirmSetup, SendSetupLog, DeleteTemp}) ==>
        serverSettings == old(serverSettings)[req.guild := old(tempSettings)[req.guild]]
      ensures reply == RestartSetup <==> failure != Some(ReadTemp) && req.guild !in old(tempSettings)
      ensures auditLog == old(auditLog) +
        if req.guild in old(tempSettings) && (failure.None? || failure == Some(DeleteTemp)) &&
           old(tempSettings)[req.guild].logChannelId in req.channels
        then [AuditEntry(old(tempSettings)[req.guild].logChannelId, SetupLogged(req.member.id))]
        else []
    {
      posted := false;
      if failure == Some(ReadTemp) {
        return SetupError, posted;
      }
      if req.guild !in tempSettings {
        return RestartSetup, posted;
      }
      var temp := tempSettings[req.guild];
      if failure == Some(SaveSettings) {
        return SetupError, posted;
      }
      serverSettings := serverSettings[req.guild := temp];
      if failure == Some(PostApplyButton) {
        return SetupError, posted;
      }
      posted := true;
      if failure == Some(ConfirmSetup) {
        return SetupError, posted;
      }
      if temp.logChannelId in req.channels {
        if failure == Some(SendSetupLog) {
          return SavedTempKept, posted;
        }
        auditLog := auditLog + [AuditEntry(temp.logChannelId, SetupLogged(req.member.id))];
      }
      if failure == Some(DeleteTemp) {
        return SavedTempKept, posted;
      }
      assert failure.Some? ==> failure.value.SendSetupLog?;
      tempSettings := tempSettings - {req.guild};
      reply := SetupSaved;
    }

    /**
     * The "Apply" button's gate. It changes nothing: the user's blocklist
     * status in this guild is checked first, then the cooldown against the
     * user's single, guild-independent Application record.
     */
    method Apply(guild: GuildId, user: UserId, parsedCooldown: Option<int>, now: nat) returns (d: Cooldown.Decision)
      ensures IsUserBlocked(guild, user) <==> d == Cooldown.RejectBlocked
      ensures d == Cooldown.Gate(IsUserBlocked(guild, user), LastApplicationTime(user), Cooldown.EffectiveCooldown(parsedCooldown), now)
    {
      if IsUserBlocked(guild, user) {
        return Cooldown.RejectBlocked;
      }
      var last := if user in applications then applications[user].lastApplicationTime else 0;
      var cooldown := Cooldown.EffectiveCooldown(parsedCooldown);
      var remaining := last + cooldown - now;
      if remaining > 0 {
        var hours := remaining / Cooldown.MsPerHour;
        var minutes := (remaining % Cooldown.MsPerHour) / Cooldown.MsPerMinute;
        d := Cooldown.RejectCooldown(Cooldown.Wait(hours, minutes));
      } else {
        d := Cooldown.ShowForm;
      }
    }
  }

  /**
   * Once `clear-cooldown` has reset a user's record, the user's next "Apply"
   * in a guild that does not block the user shows the form whenever the
   * clock is past one cooldown after the epoch.
   */
  lemma ClearedCooldownOpensGate(s: Store, guild: GuildId, user: UserId, parsedCooldown: Option<int>, now: nat)
    requires user in s.applications && s.applications[user].lastApplicationTime == 0
    requires !s.IsUserBlocked(guild, user)
    requires now >= Cooldown.EffectiveCooldown(parsedCooldown)
    ensures Cooldown.Gate(s.IsUserBlocked(guild, user), s.LastApplicationTime(user), Cooldown.EffectiveCooldown(parsedCooldown), now)
      == Cooldown.ShowForm
  {
  }
}
