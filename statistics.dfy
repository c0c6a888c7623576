/**
 * The per-guild counters and the `$inc` that `updateStats` applies to them
 * (index.js `updateStats`, an upsert that starts a missing row at zero).
 */
module Statistics {
  import opened Records

  /** The value of one named counter. */
  function Get(c: Counters, f: StatField): (v: int)
  {
    match f
    case TotalApplications => c.totalApplications
    case AcceptedApplications => c.acceptedApplications
    case RejectedApplications => c.rejectedApplications
    case BlockedUsers => c.blockedUsers
  }

  /** A guild's counters, or all zeros when the guild has no Stats row. */
  function CountersOf(stats: map<GuildId, Counters>, guild: GuildId): (c: Counters)
    ensures guild !in stats ==> forall f :: Get(c, f) == 0
    ensures guild in stats ==> c == stats[guild]
  {
    if guild in stats then stats[guild] else NoCounters
  }

  /** `$inc: { [f]: k }`: counter f grows by k, the other three stay as they were. */
  function Bump(c: Counters, f: StatField, k: int): (r: Counters)
    ensures Get(r, f) == Get(c, f) + k
    ensures forall g :: g != f ==> Get(r, g) == Get(c, g)
    ensures k >= 0 ==> forall g :: Get(r, g) >= Get(c, g)
  {
    match f
    case TotalApplications => c.(totalApplications := c.totalApplications + k)
    case AcceptedApplications => c.(acceptedApplications := c.acceptedApplications + k)
    case RejectedApplications => c.(rejectedApplications := c.rejectedApplications + k)
    case BlockedUsers => c.(blockedUsers := c.blockedUsers + k)
  }

  /** The Stats collection after `updateStats(guild, f, k)`. */
  function Increment(stats: map<GuildId, Counters>, guild: GuildId, f: StatField, k: int): (r: map<GuildId, Counters>)
    ensures r.Keys == stats.Keys + {guild}
    ensures Get(r[guild], f) == Get(CountersOf(stats, guild), f) + k
    ensures forall g :: g != f ==> Get(r[guild], g) == Get(CountersOf(stats, guild), g)
    ensures forall other :: other in stats && other != guild ==> r[other] == stats[other]
  {
    stats[guild := Bump(CountersOf(stats, guild), f, k)]
  }

  /** With a non-negative increment no counter of any guild goes down. */
  lemma IncrementNeverDecreases(stats: map<GuildId, Counters>, guild: GuildId, f: StatField, k: int)
    requires k >= 0
    ensures forall other, g :: other in stats ==> Get(Increment(stats, guild, f, k)[other], g) >= Get(stats[other], g)
  {
  }
}
