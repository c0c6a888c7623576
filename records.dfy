/**
 * The records the bot keeps in its five document collections, and the
 * guild member who invokes a command. Identifiers of guilds, users, roles
 * and channels are the platform's snowflake strings.
 */
module Records {

  datatype Option<+T> = None | Some(value: T)

  type GuildId = string
  type UserId = string
  type RoleId = string
  type ChannelId = string

  /**
   * A ServerSettings row (and, with the same shape, a TempSettings row)
   * without its guildId key: the admin channel, the roles allowed to run the
   * commands, the roles given to accepted applicants and the log channel.
   */
  datatype Settings = Settings(
    staffroom: ChannelId,
    roles: seq<RoleId>,
    staffid: seq<RoleId>,
    logChannelId: ChannelId)

  /** A Stats row without its guildId key. Mongo numbers, so plain integers. */
  datatype Counters = Counters(
    totalApplications: int,
    acceptedApplications: int,
    rejectedApplications: int,
    blockedUsers: int)

  /** What `stats` shows for a guild that has no Stats row yet. */
  const NoCounters := Counters(0, 0, 0, 0)

  /** The four counter names that `updateStats` may be given. */
  datatype StatField = TotalApplications | AcceptedApplications | RejectedApplications | BlockedUsers

  /** One submitted application form; times are milliseconds since the epoch. */
  datatype Submission = Submission(timestamp: nat, q1: string, q2: string, q3: string, q4: string, q5: string)

  /** An Application row, keyed by user id alone (shared by every guild). */
  datatype ApplicationRecord = ApplicationRecord(
    applications: seq<Submission>,
    lastApplicationTime: nat,
    lastStatus: Option<string>)

  /**
   * The invoking guild member as the permission check sees it: whether the
   * member holds the Administrator permission, and the ids of its roles.
   */
  datatype Member = Member(id: UserId, isAdmin: bool, roles: seq<RoleId>)
}
