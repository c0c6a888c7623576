# Staff-application bot: workflow state model

A Dafny model of the state behind a Discord staff-application bot
(`index.js`). The bot keeps five document collections:

- **ServerSettings**: guild → admin channel, command roles, staff roles and log channel.
- **TempSettings**: the same shape, used as scratch space by the setup wizard.
- **Stats**: guild → four counters.
- **Application**: user → submission history, last application time and last status. The key is the user alone, so history and cooldown are shared by every guild.
- **Blocklist**: (guild, user) pairs.

The handlers guard and update these collections. Modules:

- `Records` (`records.dfy`): the rows of the five collections and the invoking member.
- `Permission` (`permission.dfy`): the `hasPermission` check as a pure function of the settings lookup and the member. Administrators always pass. Otherwise the member needs a role that the guild's non-empty role list names. A missing row, an empty list and a failed lookup all fall back to administrators only.
- `Cooldown` (`cooldown.dfy`): the "Apply" gate. It checks the blocklist first, then applies integer-millisecond cooldown arithmetic with a default of 24 hours. A waiting user is shown whole hours and leftover minutes.
- `Statistics` (`statistics.dfy`): the upserting `$inc` of `updateStats`, on values.
- `Workflow` (`workflow.dfy`): class `Store`. It holds the five collections as `map`/`set` fields plus an append-only audit log. Each handler is a method that reads or updates them:
  - the `block`, `remove-block`, `stats`, `check-user` and `clear-cooldown` commands;
  - the `complete_setup` commit;
  - the `apply` gate.

Each handler is one atomic sequential step. Its reply is the method's result.

Inputs from outside the database are parameters:

- the Administrator flag and the member's role ids;
- the ids of the channels the client has cached (where a log message can go);
- whether the settings lookup of the permission check throws;
- which awaited call of `complete_setup` throws, if any;
- the cooldown as the duration parser returned it (`None` when it returned nothing);
- the current time in milliseconds.

Behaviour of the code worth knowing, all modelled as written:

- `stats` shows the live number of Blocklist rows for the guild, not the `blockedUsers` counter. That counter goes up on every `block` and never goes down on `remove-block`.
- `complete_setup` is a button handler and runs no permission check.
- It writes ServerSettings before it posts and logs. So a throw after the write leaves the new settings in place, and TempSettings is kept for a retry.
- It shows the success text before it sends the log and deletes TempSettings. A throw in either of those two steps cannot replace that text: an interaction is answered only once, so the catch block's error update is refused. The wizard then reports success while the TempSettings row is still there.
- A negative parsed cooldown is kept, because only 0 or nothing falls back to the default. Such a user is never held back.

## Model

| member | source | states |
|---|---|---|
| `Permission.AnyListed` | index.js:243 | true exactly when some role id the member holds is in the listed ids (`roles.cache.some(... includes ...)`) |
| `Permission.HasPermission` | index.js:223-255 | granted iff the member is an Administrator, or the lookup found a row and the member holds a role listed in it; so no row, an empty list or a failed lookup grant exactly the Administrators |
| `Permission.FallbackIsAdministratorOnly` | index.js:233-251 | with no row, an empty role list or a failed lookup, the result equals the Administrator flag |
| `Workflow.Store.Lookup` | index.js:225-251 | the settings lookup fails exactly when the lookup throws; otherwise it is the guild's row, or "not found" exactly when the guild has none |
| `Workflow.Store.Allowed` | index.js:459-463 | a command may run iff the member is an Administrator, or the lookup succeeds, the guild has a row, and the member holds a role that row lists |
| `Workflow.Store.BlockedUsersOf` | index.js:579 | the users counted for a guild are exactly those with a Blocklist row for that guild |
| `Workflow.Store.LastApplicationTime` | index.js:1073-1075 | a user without an Application record counts as having last applied at the epoch (0); otherwise it is the record's time |
| `Workflow.Store.IsUserBlocked` | index.js:261-267 | a pair is blocked exactly when its user is among the guild's Blocklist users that `stats` counts |
| `Statistics.CountersOf` | index.js:565-575 | a guild without a Stats row reads as all four counters zero; otherwise its stored row |
| `Statistics.Bump` | index.js:279 | the named counter grows by k, the other three are unchanged, and none decreases when k ≥ 0 |
| `Statistics.Increment` | index.js:273-285 | upsert: the guild gets a row whose named counter is the old (or zero) value plus k, other counters of the row as before, every other guild's row unchanged |
| `Statistics.IncrementNeverDecreases` | index.js:273-285 | with a non-negative increment no counter of any existing guild goes down |
| `Workflow.Store.UpdateStats` | index.js:273-285 | the Stats collection becomes `Increment` of the old one; nothing else changes |
| `Workflow.Store.SendLog` | index.js:179-217 | one message, to the configured log channel, exactly when the guild has settings naming a non-empty log channel that the client knows; otherwise none |
| `Workflow.Store.Block` | index.js:457-503 | denied or missing user: nothing changes. Already blocked: nothing changes, no new row, counter unchanged. Otherwise exactly that pair is added, the guild's blocked-user count rises by one, `blockedUsers` rises by one, and one audit entry is sent when a log channel is set up |
| `Workflow.Store.RemoveBlock` | index.js:507-551 | a blocked pair is removed (and only it), the count drops by one and the removal is logged; an unblocked pair leaves everything unchanged with a "not blocked" reply |
| `Workflow.Store.ShowStats` | index.js:555-609 | denied iff no permission; otherwise the stored counters (zeros when no row) and the live number of the guild's Blocklist users |
| `Workflow.ShownStatus` | index.js:665 | the stored status when it is present and non-empty, otherwise "unknown" |
| `Workflow.Store.CheckUser` | index.js:613-685 | the user's blocklist status in this guild; and, iff the user has an Application record, its submission count, its last time floored to whole seconds, and its shown status |
| `Workflow.Store.ClearCooldown` | index.js:689-735 | an existing record gets last application time 0 with history and status kept, and the clear is logged; a missing record is not created and the reply is "never applied" |
| `Workflow.ClearedCooldownOpensGate` | index.js:709-717 | after a clear, a user not blocked in the guild passes the gate whenever now ≥ the cooldown |
| `Workflow.Store.CompleteSetup` | index.js:919-1055 | a failed read or missing TempSettings changes nothing ("restart setup"). Success upserts exactly the TempSettings row into ServerSettings and deletes that row, and only that row. Any throw keeps TempSettings. A throw before the upsert leaves ServerSettings unchanged; a throw after it leaves the new settings in place. The "restart setup" reply comes exactly when the read succeeds and finds no row. A throw up to and including the success update (the read, the upsert, the button post, the update itself) gives the generic error. A throw after it (the cached log send or the final delete) leaves the success text shown, because the catch block's second update of the same interaction is refused, while TempSettings is kept and the new settings stay. The setup entry is appended to the audit log exactly when the log channel is cached and the run got past the log send (it succeeded, or only the final delete threw); otherwise the log is unchanged. The "Apply" button is posted iff the upsert went through and the post did not throw |
| `Workflow.Store.Apply` | index.js:1057-1101 | changes nothing; the decision is `Gate` over the pair's blocklist status, the user's guild-independent last application time (0 without a record), the effective cooldown and now; blocked users are refused first |
| `Cooldown.EffectiveCooldown` | index.js:1079 | never 0; the parsed value whenever it is non-zero, 86400000 otherwise |
| `Cooldown.Breakdown` | index.js:1087-1089 | minutes < 60 and hours·3600000 + minutes·60000 ≤ remaining < hours·3600000 + (minutes+1)·60000, i.e. the floor split |
| `Cooldown.Gate` | index.js:1061-1099 | refused as blocked iff blocked; form shown iff not blocked and now ≥ last + cooldown; otherwise refused with the floor split of last + cooldown − now |
| `Cooldown.CooldownBoundary` | index.js:1081-1085 | with last time T and cooldown C > 0, an attempt at T + C − 1 is refused and one at T + C passes |
| `Cooldown.OneHourCooldownShownRoundedDown` | index.js:1079-1089 | a one-hour cooldown with 59 min 1 s left is shown as 0 hours 59 minutes |

## Left out

- The keep-alive HTTP server and the database connection: process and network I/O.
- Slash-command registration over REST: a call to the platform plus a static table.
- Building embeds, buttons and modals, and the replies themselves. Replies are abstract result values, with no wording or colours. Audit messages are entries of an append-only log, and a failing lookup or send inside `sendLog`, which is swallowed, is not modelled.
- The `setup` command and the wizard's prompt buttons (`setup_channel_select`, `setup_next_*`). They only show a button or a form.
- The wizard's form-submission handlers that would fill TempSettings, and the `staff_apply` submission with the accept/reject handling. None of them appears in `index.js`, whose `apply` branch breaks off while the form is being built. The store is therefore built from any initial collections, and nothing in the model appends to an application history, sets `lastStatus` or bumps the application counters.
- The duration parser `ms`: the parsed cooldown is a parameter.
- The platform's permission bit field and role cache: a boolean and a sequence of role ids.
- The second copy of the whole file that follows line 1116 of `index.js`: the model follows the first copy.
- Database errors outside a `try` block are not modelled. This covers the slash-command handlers and the `apply` gate's reads of the Blocklist and Application collections (index.js:1061, 1073). Such a throw ends the handler, but the writes it had already completed persist. For example, if `updateStats` throws in `block` after the Blocklist row was saved, the pair stays blocked while `blockedUsers` is not raised. The `Block` contract (one new pair, one increment) therefore holds only for runs without such a throw. Only the caught failures are modelled: the lookup in `hasPermission` and every awaited call of `complete_setup`.
- Workflow.Store.UpdateStats: the counter name is one of the four schema fields; an arbitrary string field that `$inc` would also create is not modelled (every caller passes `blockedUsers`).
- Concurrency between handlers: each handler runs as one atomic step.
- Workflow.Store.CompleteSetup: when the catch block's error update is refused after a late throw, that second rejection escapes the handler unhandled; the model records only the message left shown (`SavedTempKept`) and the state, not the escaped rejection, which is process-level behaviour.
- Duplicate Blocklist rows, which the database would allow, are not modelled. The Blocklist is a set, and the only writer, `block`, never inserts a pair that is already present.
