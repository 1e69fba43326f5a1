/** The Discord objects the bot reads, reduced to the fields its rules look at.
    Every API call the bot makes becomes a parameter of the operation that makes it
    (an oracle result), so this module holds only values. */
module Platform {
  import opened Text

  /** A guild role: its snowflake id, display name and position in the guild's
      role list (a higher position is a higher role). */
  datatype Role = Role(id: int, name: string, position: int)

  /** A guild member: account id, account name, global display name and guild
      nickname (`None` when unset), the administrator permission, the bot flag, and
      the roles it holds. */
  datatype Member = Member(id: int, name: string, globalName: Option<string>, nick: Option<string>,
                           isAdmin: bool, isBot: bool, roles: seq<Role>)

  /** A `str | None` that Python reads as true: set and not empty. */
  predicate Truthy(s: Option<string>) { s.Some? && s.value != [] }

  /** `member.display_name`, that is `nick or global_name or name`: the nickname when
      one is set, else the global display name when one is set, else the account name. */
  function DisplayName(m: Member): (r: string)
    ensures Truthy(m.nick) ==> r == m.nick.value
    ensures !Truthy(m.nick) && Truthy(m.globalName) ==> r == m.globalName.value
    ensures !Truthy(m.nick) && !Truthy(m.globalName) ==> r == m.name
    ensures r == m.name || Some(r) == m.nick || Some(r) == m.globalName
  {
    if Truthy(m.nick) then m.nick.value
    else if Truthy(m.globalName) then m.globalName.value
    else m.name
  }

  /** The ids of a list of roles, in order: discord.py compares roles by id, so two
      role lists are equal exactly when these are. */
  function RoleIds(roles: seq<Role>): (r: seq<int>)
    ensures |r| == |roles|
    ensures forall k :: 0 <= k < |roles| ==> r[k] == roles[k].id
  {
    seq(|roles|, k requires 0 <= k < |roles| => roles[k].id)
  }

  /** `guild.get_role(id)`: the first role of the guild with that id. */
  function FindRole(roles: seq<Role>, id: int): (r: Option<Role>)
    ensures r.Some? ==> r.value in roles && r.value.id == id
    ensures r.None? ==> forall k :: 0 <= k < |roles| ==> roles[k].id != id
  {
    if roles == [] then None
    else if roles[0].id == id then Some(roles[0])
    else FindRole(roles[1..], id)
  }

  /** `member.mention`, "<@{id}>". */
  function Mention(id: int): string { "<@" + IntToString(id) + ">" }

  /** `member.nick or member.name`: an empty nickname counts as none. */
  function CurrentLabel(m: Member): string
  {
    if m.nick.Some? && m.nick.value != [] then m.nick.value else m.name
  }
}
