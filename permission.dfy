/**
 * The permission check every slash command runs first (index.js
 * `hasPermission`): Administrators always pass; otherwise a member passes
 * only when the guild's ServerSettings lists at least one role and the
 * member holds one of them. A missing row, an empty list and a failed
 * lookup all fall back to "Administrators only".
 */
module Permission {
  import opened Records

  /** The outcome of looking up a guild's ServerSettings row. */
  datatype SettingsLookup = Found(settings: Settings) | NotFound | LookupFailed

  /** Whether some role id the member holds appears in the listed ids. */
  function AnyListed(held: seq<RoleId>, listed: seq<RoleId>): (r: bool)
    ensures r <==> exists role :: role in held && role in listed
  {
    if held == [] then false
    else if held[0] in listed then true
    else
      var rest := AnyListed(held[1..], listed);
      assert forall role :: role in held <==> role == held[0] || role in held[1..];
      rest
  }

  /** Whether the member may run the bot's commands, given the settings lookup. */
  function HasPermission(lookup: SettingsLookup, member: Member): (r: bool)
    ensures r <==>
      member.isAdmin ||
      (lookup.Found? && exists role :: role in member.roles && role in lookup.settings.roles)
  {
    match lookup
    case LookupFailed => member.isAdmin
    case NotFound => member.isAdmin
    case Found(s) =>
      if |s.roles| == 0 then member.isAdmin
      else member.isAdmin || AnyListed(member.roles, s.roles)
  }

  /**
   * With no row, an empty role list, or a lookup that failed, the check is
   * exactly the Administrator flag: no non-administrator gets in.
   */
  lemma FallbackIsAdministratorOnly(lookup: SettingsLookup, member: Member)
    requires lookup.NotFound? || lookup.LookupFailed? || |lookup.settings.roles| == 0
    ensures HasPermission(lookup, member) == member.isAdmin
  {
  }
}
