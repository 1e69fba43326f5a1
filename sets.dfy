/** The registration requests ("sets") of `modules/sets.py`: who may approve, the
    nickname an approval gives, the validation of the request form, the duplicate-id
    scan over the approval channel, the request description and what the pending
    list reads back from it. The approval channel's history is a list of messages,
    newest first, each reduced to the descriptions of its embeds. */
module Sets {
  import opened Text
  import opened Platform
  import Cargos

  /** CARGO_BASE_APROVACAO_ID. */
  const ApprovalBaseRoleId: int := 1421254143103996045

  // ---------------------------------------------------------------------------
  // Who may approve

  /** Some role of the list sits at or above `position`. */
  function HasRoleAtOrAbove(roles: seq<Role>, position: int): (b: bool)
    ensures b <==> exists k :: 0 <= k < |roles| && roles[k].position >= position
  {
    if roles == [] then false
    else roles[0].position >= position || HasRoleAtOrAbove(roles[1..], position)
  }

  /** `usuario_pode_aprovar`: administrators, and members holding a role at or above
      the base approval role; nobody when the guild has no such role. */
  function UsuarioPodeAprovar(m: Option<Member>, guildRoles: seq<Role>): (b: bool)
    ensures m.None? ==> !b
    ensures m.Some? && m.value.isAdmin ==> b
    ensures m.Some? && !m.value.isAdmin && FindRole(guildRoles, ApprovalBaseRoleId).None? ==> !b
    ensures m.Some? && !m.value.isAdmin && FindRole(guildRoles, ApprovalBaseRoleId).Some? ==>
      (b <==> exists k :: 0 <= k < |m.value.roles|
                && m.value.roles[k].position >= FindRole(guildRoles, ApprovalBaseRoleId).value.position)
  {
    if m.None? then false
    else if m.value.isAdmin then true
    else
      var base := FindRole(guildRoles, ApprovalBaseRoleId);
      base.Some? && HasRoleAtOrAbove(m.value.roles, base.value.position)
  }

  /** Holding the base approval role itself is enough. */
  lemma HoldingBaseRoleApproves(m: Member, guildRoles: seq<Role>)
    requires FindRole(guildRoles, ApprovalBaseRoleId).Some?
    requires FindRole(guildRoles, ApprovalBaseRoleId).value in m.roles
    ensures UsuarioPodeAprovar(Some(m), guildRoles)
  {
    var base := FindRole(guildRoles, ApprovalBaseRoleId).value;
    var k :| 0 <= k < |m.roles| && m.roles[k] == base;
    assert m.roles[k].position >= base.position;
  }

  /** Gaining a role never takes the right away. */
  lemma ApprovalMonotonic(m: Member, extra: Role, guildRoles: seq<Role>)
    requires UsuarioPodeAprovar(Some(m), guildRoles)
    ensures UsuarioPodeAprovar(Some(m.(roles := m.roles + [extra])), guildRoles)
  {
    var m2 := m.(roles := m.roles + [extra]);
    if !m.isAdmin {
      var base := FindRole(guildRoles, ApprovalBaseRoleId).value;
      var k :| 0 <= k < |m.roles| && m.roles[k].position >= base.position;
      assert m2.roles[k] == m.roles[k];
    }
  }

  // ---------------------------------------------------------------------------
  // Finding a member by game id

  /** The separator of the nickname parts followed by the id, " | {id}". */
  function IdSuffix(id: string): string { " | " + id }

  /** The member's nickname is set and ends with " | {id}". */
  predicate NickEndsWithId(m: Member, id: string)
  {
    m.nick.Some? && m.nick.value != [] && EndsWith(m.nick.value, IdSuffix(id))
  }

  /** `buscar_usuario_por_id_fivem`: the first member, in guild order, whose
      nickname ends with " | {id}". */
  function BuscarUsuarioPorIdFivem(members: seq<Member>, id: string): (r: Option<Member>)
    ensures r.None? <==> forall k :: 0 <= k < |members| ==> !NickEndsWithId(members[k], id)
    ensures r.Some? ==> r.value in members && NickEndsWithId(r.value, id)
    ensures r.Some? ==> exists k :: 0 <= k < |members| && members[k] == r.value
                          && forall j :: 0 <= j < k ==> !NickEndsWithId(members[j], id)
  {
    if members == [] then None
    else if NickEndsWithId(members[0], id) then Some(members[0])
    else
      var r := BuscarUsuarioPorIdFivem(members[1..], id);
      if r.Some? then FirstInTail(members, id, r.value); r else r
  }

  /** A first match in the tail, after a head that does not match, is a first match
      of the whole list. */
  lemma FirstInTail(members: seq<Member>, id: string, m: Member)
    requires members != [] && !NickEndsWithId(members[0], id)
    requires exists k :: 0 <= k < |members[1..]| && members[1..][k] == m
               && forall j :: 0 <= j < k ==> !NickEndsWithId(members[1..][j], id)
    ensures exists k :: 0 <= k < |members| && members[k] == m
              && forall j :: 0 <= j < k ==> !NickEndsWithId(members[j], id)
  {
    var k :| 0 <= k < |members[1..]| && members[1..][k] == m
             && forall j :: 0 <= j < k ==> !NickEndsWithId(members[1..][j], id);
    assert forall j :: 1 <= j < k + 1 ==> members[j] == members[1..][j - 1];
    assert members[k + 1] == m;
  }

  // ---------------------------------------------------------------------------
  // Approval

  /** The nickname `aprovar_set` gives: "M | {nick} | {id}", and when that is longer
      than 32 characters the nick is cut to its first 15 characters; the id is never
      cut. */
  function ApprovalNick(nick: string, id: string): (r: string)
    ensures |Cargos.Render("M", nick, id)| <= 32 ==> r == Cargos.Render("M", nick, id)
    ensures |Cargos.Render("M", nick, id)| > 32 ==> r == Cargos.Render("M", Take(nick, 15), id)
    ensures |r| <= 32 || |r| <= 22 + |id|
  {
    var full := Cargos.Render("M", nick, id);
    if |full| > 32 then Cargos.Render("M", Take(nick, 15), id) else full
  }

  /** The cut does not bound the length: with an id of more than ten characters and
      a nick of at least fifteen the nickname is longer than 32 characters. */
  lemma ApprovalNickCanExceed(nick: string, id: string)
    requires |nick| >= 15 && |id| > 10
    ensures |ApprovalNick(nick, id)| == 22 + |id| > 32
  {
  }

  /** With an id of at most ten characters the nickname fits in 32 characters. */
  lemma ApprovalNickFits(nick: string, id: string)
    requires |id| <= 10
    ensures |ApprovalNick(nick, id)| <= 32
  {
  }

  /** The approved member is found again by its id, and the id extraction of
      `modules/cargos.py` reads the same id back from the nickname. */
  lemma ApprovedMemberIsFound(members: seq<Member>, k: nat, nick: string, id: string)
    requires k < |members| && members[k].nick == Some(ApprovalNick(nick, id))
    requires AllDigits(id)
    ensures BuscarUsuarioPorIdFivem(members, id).Some?
    ensures exists j :: 0 <= j <= k && members[j] == BuscarUsuarioPorIdFivem(members, id).value
    ensures Cargos.ExtractId(ApprovalNick(nick, id)) == Some(id)
  {
    var r := ApprovalNick(nick, id);
    var n := if |Cargos.Render("M", nick, id)| > 32 then Take(nick, 15) else nick;
    assert r == Cargos.Render("M", n, id);
    assert r[|r| - |IdSuffix(id)|..] == IdSuffix(id);
    assert NickEndsWithId(members[k], id);
    Cargos.LabelIdRoundTrip("M", n, id);
  }

  /** The member role name "🙅‍♂️ | Membro" and its plain fallback "Membro". */
  const MemberRoleName: string := "\U{1F645}\U{200D}\U{2642}\U{FE0F} | Membro"
  const PlainMemberRoleName: string := "Membro"

  /** `discord.utils.get(roles, name=...)`: the first role with that exact name. */
  function RoleNamed(roles: seq<Role>, name: string): (r: Option<Role>)
    ensures r.Some? ==> exists k :: 0 <= k < |roles| && roles[k] == r.value && r.value.name == name
                          && forall j :: 0 <= j < k ==> roles[j].name != name
    ensures r.None? ==> forall k :: 0 <= k < |roles| ==> roles[k].name != name
  {
    if roles == [] then None
    else if roles[0].name == name then Some(roles[0])
    else
      var r := RoleNamed(roles[1..], name);
      if r.Some? then
        var k :| 0 <= k < |roles[1..]| && roles[1..][k] == r.value && forall j :: 0 <= j < k ==> roles[1..][j].name != name;
        assert roles[k + 1] == r.value;
        assert forall j :: 1 <= j < k + 1 ==> roles[j] == roles[1..][j - 1];
        r
      else r
  }

  datatype ApproveOutcome =
    | NotAllowed
    | MemberGone
    | Approved(nick: string, role: Option<Role>)

  /** `aprovar_set`: refused without the approval right, stopped when the requester
      left the guild; otherwise the nickname is rewritten and the member role given
      ("🙅‍♂️ | Membro", else "Membro", else none). */
  function AprovarSet(approver: Option<Member>, guildRoles: seq<Role>, target: Option<Member>,
                      nick: string, id: string): (r: ApproveOutcome)
    ensures !UsuarioPodeAprovar(approver, guildRoles) <==> r == NotAllowed
    ensures r.MemberGone? <==> UsuarioPodeAprovar(approver, guildRoles) && target.None?
    ensures r.Approved? ==> r.nick == ApprovalNick(nick, id)
    ensures r.Approved? && r.role.Some? ==>
      r.role.value in guildRoles && r.role.value.name in {MemberRoleName, PlainMemberRoleName}
    ensures r.Approved? && r.role.Some? && r.role.value.name == PlainMemberRoleName ==>
      forall k :: 0 <= k < |guildRoles| ==> guildRoles[k].name != MemberRoleName
    ensures r.Approved? ==>
      r.role == (if RoleNamed(guildRoles, MemberRoleName).Some? then RoleNamed(guildRoles, MemberRoleName)
                 else RoleNamed(guildRoles, PlainMemberRoleName))
    ensures r.Approved? ==>
      (r.role.None? <==> forall k :: 0 <= k < |guildRoles| ==>
                           guildRoles[k].name != MemberRoleName && guildRoles[k].name != PlainMemberRoleName)
  {
    if !UsuarioPodeAprovar(approver, guildRoles) then NotAllowed
    else if target.None? then MemberGone
    else
      var role := RoleNamed(guildRoles, MemberRoleName);
      var role := if role.Some? then role else RoleNamed(guildRoles, PlainMemberRoleName);
      Approved(ApprovalNick(nick, id), role)
  }

  // ---------------------------------------------------------------------------
  // The approval channel map

  /** `canais_aprovacao`: guild id to the id of its approval channel. */
  class ApprovalChannels {
    var byGuild: map<int, int>

    constructor()
      ensures byGuild == map[]
    {
      byGuild := map[];
    }

    /** `!aprovamento [canal]`: refused unless the author is an administrator;
        otherwise the guild's approval channel becomes the channel named, or the
        channel the command was typed in (`here`) when none is named. */
    method Aprovamento(isAdmin: bool, guild: int, canal: Option<int>, here: int) returns (done: bool)
      modifies this
      ensures done <==> isAdmin
      ensures done ==> byGuild == old(byGuild)[guild := if canal.Some? then canal.value else here]
      ensures !done ==> byGuild == old(byGuild)
    {
      if !isAdmin {
        return false;
      }
      var channel := if canal.Some? then canal.value else here;
      byGuild := byGuild[guild := channel];
      return true;
    }
  }

  /** `canais_aprovacao.get(guild)` followed by the falsiness test: a missing entry
      and a channel id of 0 both count as not configured. */
  function ApprovalChannelOf(byGuild: map<int, int>, guild: int): (r: Option<int>)
    ensures r.Some? <==> guild in byGuild && byGuild[guild] != 0
    ensures r.Some? ==> r.value == byGuild[guild]
  {
    if guild in byGuild && byGuild[guild] != 0 then Some(byGuild[guild]) else None
  }

  /** Setting a channel only affects the guild it was set for. */
  lemma AprovamentoIsPerGuild(byGuild: map<int, int>, guild: int, channel: int, other: int)
    requires channel != 0
    ensures ApprovalChannelOf(byGuild[guild := channel], guild) == Some(channel)
    ensures other != guild ==> ApprovalChannelOf(byGuild[guild := channel], other) == ApprovalChannelOf(byGuild, other)
  {
  }

  // ---------------------------------------------------------------------------
  // The request description and its extractors

  /** A message of the approval channel: the descriptions of its embeds. */
  datatype Message = Message(embeds: seq<Option<string>>)

  const IdMarker: string := "**\U{1F3AE} ID Fivem:** `"
  const NickMarker: string := "**\U{1F464} Nick do Jogo:** `"
  const RecruiterMarker: string := "**\U{1F91D} Recrutado por:** "
  const PendingText: string := "Aguardando aprovação"

  /** The marker the duplicate scan looks for, "**🎮 ID Fivem:** `{id}`". */
  function IdTag(id: string): string { IdMarker + id + "`" }

  const DiscordLabel: string := "**\U{1F464} Discord:** "
  const DiscordIdLabel: string := "\n**\U{1F194} Discord ID:** `"

  /** The first two lines of a request: the requester's mention and account id. */
  function RequestHead(uid: int): string
  {
    DiscordLabel + Mention(uid) + DiscordIdLabel + IntToString(uid) + "`\n"
  }

  /** The recruiter line: present only for a non-empty recruiter name, with the
      recruiter's mention when a member was found. */
  function RecruiterLine(name: string, found: Option<Member>): string
  {
    if name == [] then ""
    else "\n" + RecruiterMarker + name + (if found.Some? then " (" + Mention(found.value.id) + ")" else "")
  }

  /** Everything after the nick: its closing quote, the date line, the recruiter line
      and the status line. */
  function RequestTail(date: string, recruiter: string): string
  {
    "`\n**\U{1F4C5} Data:** " + date + "\n" + recruiter + "\n\n**\U{23F3} Status:** " + PendingText
  }

  /** The description `SetForm.on_submit` builds (`date` is the formatted clock,
      `recruiter` the recruiter line). */
  function RequestDescription(uid: int, id: string, nick: string, date: string, recruiter: string): string
  {
    RequestHead(uid) + IdMarker + id + "`\n" + NickMarker + nick + RequestTail(date, recruiter)
  }

  /** The description carries the duplicate-scan tag of its id and the pending status. */
  lemma DescriptionTags(uid: int, id: string, nick: string, date: string, recruiter: string)
    ensures Contains(RequestDescription(uid, id, nick, date, recruiter), IdTag(id))
    ensures Contains(RequestDescription(uid, id, nick, date, recruiter), PendingText)
  {
    DescriptionHasIdTag(uid, id, nick, date, recruiter);
    DescriptionIsPending(uid, id, nick, date, recruiter);
  }

  lemma DescriptionHasIdTag(uid: int, id: string, nick: string, date: string, recruiter: string)
    ensures Contains(RequestDescription(uid, id, nick, date, recruiter), IdTag(id))
  {
    var rest := "`\n" + NickMarker + nick + RequestTail(date, recruiter);
    IdFieldSplit(uid, id, nick, date, recruiter);
    TagBeforeBacktick(RequestHead(uid), IdMarker, id, rest);
  }

  /** A marker and a value followed by a backtick hold "marker + value + `". */
  lemma TagBeforeBacktick(head: string, marker: string, value: string, rest: string)
    requires rest != [] && rest[0] == '`'
    ensures Contains(head + marker + value + rest, marker + value + "`")
  {
    var t := head + marker + value + rest;
    var tag := marker + value + "`";
    var k := |head|;
    forall i | 0 <= i < |tag|
      ensures t[k + i] == tag[i]
    {
      if i < |marker| {
        assert t[k + i] == marker[i];
      } else if i < |marker| + |value| {
        assert t[k + i] == value[i - |marker|];
      } else {
        assert t[k + i] == rest[0];
      }
    }
    assert t[k..][..|tag|] == tag;
    ContainsAt(t, tag, k);
  }

  lemma DescriptionIsPending(uid: int, id: string, nick: string, date: string, recruiter: string)
    ensures Contains(RequestDescription(uid, id, nick, date, recruiter), PendingText)
  {
    var before := "`\n**\U{1F4C5} Data:** " + date + "\n" + recruiter + "\n\n**\U{23F3} Status:** ";
    assert RequestTail(date, recruiter) == before + PendingText;
    var front := RequestHead(uid) + IdMarker + id + "`\n" + NickMarker + nick + before;
    assert RequestDescription(uid, id, nick, date, recruiter) == front + PendingText + "";
    ContainsSelf(PendingText);
    ContainsInContext(front, PendingText, "", PendingText);
  }

  /** The group `([^<stop>]+)` starting at `j`: the longest run of characters other
      than `stop`, when it is not empty and, for a `closed` group, `stop` follows it. */
  function GroupAt(s: string, j: nat, stop: char, closed: bool): (g: Option<string>)
    requires j <= |s|
    ensures g.Some? ==> g.value != [] && Lacks(g.value, stop) && StartsWith(s[j..], g.value)
    ensures g.Some? && closed ==> j + |g.value| < |s| && s[j + |g.value|] == stop
  {
    var n := SpanLen(s[j..], c => c != stop);
    if n > 0 && (!closed || j + n < |s|) then
      assert s[j..][..n] == s[j..j + n];
      Some(s[j..j + n])
    else None
  }

  /** `re.search(marker + '([^<stop>]+)' [+ stop], s)` from index `from` on: the group
      of the leftmost match. */
  function SearchFrom(s: string, marker: string, stop: char, closed: bool, from: nat): Option<string>
    requires from <= |s|
    decreases |s| - from
  {
    if StartsWith(s[from..], marker) && GroupAt(s, from + |marker|, stop, closed).Some? then
      GroupAt(s, from + |marker|, stop, closed)
    else if from == |s| then None
    else SearchFrom(s, marker, stop, closed, from + 1)
  }

  /** The three extractions of `sets_pendentes`. */
  function ExtractFivemId(desc: string): Option<string> { SearchFrom(desc, IdMarker, '`', true, 0) }
  function ExtractNick(desc: string): Option<string> { SearchFrom(desc, NickMarker, '`', true, 0) }
  function ExtractRecruiter(desc: string): Option<string> { SearchFrom(desc, RecruiterMarker, '\n', false, 0) }

  /** Positions where the marker does not start are skipped by the search. */
  lemma {:induction false} SearchSkips(s: string, marker: string, stop: char, closed: bool, from: nat, i: nat)
    requires from <= i <= |s|
    requires forall j :: from <= j < i ==> !StartsWith(s[j..], marker)
    ensures SearchFrom(s, marker, stop, closed, from) == SearchFrom(s, marker, stop, closed, i)
    decreases i - from
  {
    if from < i {
      SearchSkips(s, marker, stop, closed, from + 1, i);
    }
  }

  /** A marker whose k-th character occurs neither before it nor earlier in itself is
      found where it was put, and its group is the value written after it. */
  lemma FieldRoundTrip(a: string, marker: string, v: string, b: string, stop: char, k: nat)
    requires k < |marker| && Lacks(a, marker[k])
    requires forall j :: 0 <= j < k ==> marker[j] != marker[k]
    requires v != [] && Lacks(v, stop)
    requires b != [] && b[0] == stop
    ensures SearchFrom(a + marker + v + b, marker, stop, true, 0) == Some(v)
  {
    var s := a + marker + (v + b);
    assert s == a + marker + v + b;
    FirstSeparator(a, v + b, marker, k);
    SearchSkips(s, marker, stop, true, 0, |a|);
    var j := |a| + |marker|;
    assert s[j..] == v + b;
    var n := SpanLen(s[j..], c => c != stop);
    assert forall i :: 0 <= i < |v| ==> s[j..][i] == v[i];
    assert s[j..][|v|] == stop;
    assert n == |v|;
    assert s[j..j + n] == v;
  }

  lemma LacksAppend(x: string, y: string, c: char)
    requires Lacks(x, c) && Lacks(y, c)
    ensures Lacks(x + y, c)
  {
    forall k | 0 <= k < |x + y| ensures (x + y)[k] != c {
      if k >= |x| {
        assert (x + y)[k] == y[k - |x|];
      }
    }
  }

  lemma IntToStringLacks(i: int, c: char)
    requires !IsDigit(c) && c != '-'
    ensures Lacks(IntToString(i), c)
  {
    var s := IntToString(i);
    if i < 0 {
      forall k | 1 <= k < |s| ensures s[k] != c {
        assert s[1..][k - 1] == s[k];
      }
    }
  }

  /** The head of a request holds none of the characters the markers are told apart by. */
  lemma HeadLacks(uid: int, c: char)
    requires Lacks(DiscordLabel, c) && Lacks(DiscordIdLabel, c)
    requires !IsDigit(c) && c !in "-<@>`\n"
    ensures Lacks(RequestHead(uid), c)
  {
    IntToStringLacks(uid, c);
    assert Lacks("<@", c) && Lacks(">", c) && Lacks("`\n", c);
    LacksAppend("<@", IntToString(uid), c);
    LacksAppend("<@" + IntToString(uid), ">", c);
    assert Mention(uid) == "<@" + IntToString(uid) + ">";
    LacksAppend(DiscordLabel, Mention(uid), c);
    LacksAppend(DiscordLabel + Mention(uid), DiscordIdLabel, c);
    LacksAppend(DiscordLabel + Mention(uid) + DiscordIdLabel, IntToString(uid), c);
    LacksAppend(DiscordLabel + Mention(uid) + DiscordIdLabel + IntToString(uid), "`\n", c);
  }

  /** A valid game id: `str.isdigit()`, so non-empty and all digits. */
  predicate ValidFivemId(id: string) { AllDigits(id) }

  /** `re.match(r'^[a-zA-Z0-9\s]+$', nick)`: non-empty, letters, digits and white space only. */
  predicate ValidNick(nick: string)
  {
    nick != [] && forall i :: 0 <= i < |nick| ==> IsAlnum(nick[i]) || IsSpace(nick[i])
  }

  /** The game-id marker is told apart by its third character, the 🎮, which the
      head of a request does not hold. */
  lemma IdMarkerSeparates(uid: int)
    ensures IdMarker[2] == '\U{1F3AE}' && forall j :: 0 <= j < 2 ==> IdMarker[j] != IdMarker[2]
    ensures Lacks(RequestHead(uid), IdMarker[2])
  {
    assert Lacks(DiscordLabel, '\U{1F3AE}') && Lacks(DiscordIdLabel, '\U{1F3AE}');
    HeadLacks(uid, '\U{1F3AE}');
  }

  /** Round trip for the game id: the pending list reads back the id of a request
      whose id passed validation. */
  lemma IdRoundTrip(uid: int, id: string, nick: string, date: string, recruiter: string)
    requires ValidFivemId(id)
    ensures ExtractFivemId(RequestDescription(uid, id, nick, date, recruiter)) == Some(id)
  {
    var rest := "`\n" + NickMarker + nick + RequestTail(date, recruiter);
    IdMarkerSeparates(uid);
    assert Lacks(id, '`');
    FieldRoundTrip(RequestHead(uid), IdMarker, id, rest, '`', 2);
    IdFieldSplit(uid, id, nick, date, recruiter);
  }

  /** The description seen around its game id. */
  lemma IdFieldSplit(uid: int, id: string, nick: string, date: string, recruiter: string)
    ensures RequestDescription(uid, id, nick, date, recruiter)
      == RequestHead(uid) + IdMarker + id + ("`\n" + NickMarker + nick + RequestTail(date, recruiter))
  {
  }

  /** Round trip for the nick: the pending list reads back the nick of a request whose
      id and nick passed validation. */
  lemma NickRoundTrip(uid: int, id: string, nick: string, date: string, recruiter: string)
    requires ValidFivemId(id) && ValidNick(nick)
    ensures ExtractNick(RequestDescription(uid, id, nick, date, recruiter)) == Some(nick)
  {
    var before := RequestHead(uid) + IdMarker + id + "`\n";
    NickMarkerSeparates(uid, id);
    assert Lacks(nick, '`');
    assert RequestTail(date, recruiter)[0] == '`';
    FieldRoundTrip(before, NickMarker, nick, RequestTail(date, recruiter), '`', 4);
    NickFieldSplit(uid, id, nick, date, recruiter);
  }

  /** The nick marker is told apart by its fifth character, the 'N' of "Nick", which
      nothing before it in a request holds. */
  lemma NickMarkerSeparates(uid: int, id: string)
    requires ValidFivemId(id)
    ensures NickMarker[4] == 'N' && forall j :: 0 <= j < 4 ==> NickMarker[j] != NickMarker[4]
    ensures Lacks(RequestHead(uid) + IdMarker + id + "`\n", NickMarker[4])
  {
    var head := RequestHead(uid);
    LabelsLackN();
    HeadLacks(uid, 'N');
    DigitsLack(id, 'N');
    LacksAppend(head, IdMarker, 'N');
    LacksAppend(head + IdMarker, id, 'N');
    LacksAppend(head + IdMarker + id, "`\n", 'N');
  }

  /** The fixed texts before the nick marker have no 'N'; the marker has one at 4. */
  lemma LabelsLackN()
    ensures Lacks(DiscordLabel, 'N') && Lacks(DiscordIdLabel, 'N')
    ensures Lacks(IdMarker, 'N') && Lacks("`\n", 'N')
    ensures NickMarker[4] == 'N' && forall j :: 0 <= j < 4 ==> NickMarker[j] != NickMarker[4]
  {
    assert NickMarker[..4] == "**\U{1F464} ";
  }

  /** A digit string holds no character that is not a digit. */
  lemma DigitsLack(id: string, c: char)
    requires AllDigits(id) && !IsDigit(c)
    ensures Lacks(id, c)
  {
  }

  /** The description seen around its nick. */
  lemma NickFieldSplit(uid: int, id: string, nick: string, date: string, recruiter: string)
    ensures RequestDescription(uid, id, nick, date, recruiter)
      == RequestHead(uid) + IdMarker + id + "`\n" + NickMarker + nick + RequestTail(date, recruiter)
  {
  }

  // ---------------------------------------------------------------------------
  // The duplicate scan

  /** The description mentions the tag of the id. */
  predicate DescriptionHasId(desc: Option<string>, id: string)
  {
    desc.Some? && desc.value != [] && Contains(desc.value, IdTag(id))
  }

  /** The history of the approval channel holds a request for the id among the 200
      most recent messages. */
  predicate IdTakenIn(history: seq<Message>, id: string)
  {
    exists i, j :: 0 <= i < |history| && i < 200 && 0 <= j < |history[i].embeds|
      && DescriptionHasId(history[i].embeds[j], id)
  }

  /** The scan of `on_submit` and `check_id`: every embed of the 200 most recent
      messages, stopping at the first that mentions the id. */
  method ScanForId(history: seq<Message>, id: string) returns (taken: bool)
    ensures taken == IdTakenIn(history, id)
  {
    var i := 0;
    while i < |history| && i < 200
      invariant 0 <= i <= |history| && i <= 200
      invariant forall i', j :: 0 <= i' < i && 0 <= j < |history[i'].embeds| ==> !DescriptionHasId(history[i'].embeds[j], id)
    {
      var embeds := history[i].embeds;
      var j := 0;
      while j < |embeds|
        invariant 0 <= j <= |embeds|
        invariant forall j' :: 0 <= j' < j ==> !DescriptionHasId(embeds[j'], id)
      {
        if DescriptionHasId(embeds[j], id) {
          return true;
        }
        j := j + 1;
      }
      i := i + 1;
    }
    return false;
  }

  // ---------------------------------------------------------------------------
  // The request form

  /** The three fields of the form; an empty recruiter field is the empty string. */
  datatype SetForm = SetForm(nick: string, fivemId: string, recruiter: string)

  datatype SubmitError =
    | BadFivemId
    | BadNick
    | NoApprovalChannel
    | ApprovalChannelMissing
    | IdInUse
    | BadRecruiterId

  /** What is posted to the approval channel. */
  datatype SetRequest = SetRequest(channel: int, description: string, recruiterName: Option<string>)

  datatype Submitted = Rejected(why: SubmitError) | Sent(request: SetRequest)

  /** The recruiter's name: the second " | " part of the found member's nickname, the
      whole nickname when it has no second part, the account name without a
      nickname, and "ID: {value}" when no member carries the id. */
  function RecruiterName(found: Option<Member>, value: string): (r: string)
    ensures found.None? ==> r == "ID: " + value
    ensures found.Some? && found.value.nick.Some? && found.value.nick.value != [] ==>
      r == (var parts := Split(found.value.nick.value, " | ");
            if |parts| >= 2 then parts[1] else found.value.nick.value)
    ensures found.Some? && (found.value.nick.None? || found.value.nick.value == []) ==> r == found.value.name
  {
    if found.None? then "ID: " + value
    else if found.value.nick.Some? && found.value.nick.value != [] then
      var parts := Split(found.value.nick.value, " | ");
      if |parts| >= 2 then parts[1] else found.value.nick.value
    else found.value.name
  }

  /** A text containing the separator splits into at least two parts. */
  lemma SplitAtLeastTwo(s: string, sep: string)
    requires |sep| > 0 && Contains(s, sep)
    ensures |Split(s, sep)| >= 2
  {
    var parts := Split(s, sep);
    JoinOfOne(parts, sep);
  }

  lemma JoinOfOne(parts: seq<string>, sep: string)
    requires |parts| >= 1
    ensures |parts| == 1 ==> Join(parts, sep) == parts[0]
  {
  }

  /** A recruiter found by id always has a second nickname part: the name is that part. */
  lemma FoundRecruiterNameIsSecondPart(members: seq<Member>, value: string)
    requires BuscarUsuarioPorIdFivem(members, value).Some?
    ensures var m := BuscarUsuarioPorIdFivem(members, value).value;
      |Split(m.nick.value, " | ")| >= 2
      && RecruiterName(Some(m), value) == Split(m.nick.value, " | ")[1]
  {
    var m := BuscarUsuarioPorIdFivem(members, value).value;
    var nick := m.nick.value;
    var i := |nick| - |IdSuffix(value)|;
    assert StartsWith(nick[i..], " | ");
    ContainsAt(nick, " | ", i);
    SplitAtLeastTwo(nick, " | ");
  }

  /** The recruiter step: nothing for an empty or blank field, an error for a field
      that is not all digits, else the resolved name and the member found. */
  function ResolveRecruiter(value: string, members: seq<Member>): (r: Option<Option<(string, Option<Member>)>>)
    ensures (value == [] || Strip(value) == []) <==> r == Some(None)
    ensures r.None? <==> value != [] && Strip(value) != [] && !AllDigits(value)
    ensures r.Some? && r.value.Some? ==>
      r.value.value.1 == BuscarUsuarioPorIdFivem(members, value)
      && r.value.value.0 == RecruiterName(BuscarUsuarioPorIdFivem(members, value), value)
  {
    if value == [] || Strip(value) == [] then Some(None)
    else if !AllDigits(value) then None
    else
      var found := BuscarUsuarioPorIdFivem(members, value);
      Some(Some((RecruiterName(found, value), found)))
  }

  /** The approval channel of the guild is configured and still exists. */
  predicate ChannelReady(byGuild: map<int, int>, guild: int, guildChannels: set<int>)
  {
    ApprovalChannelOf(byGuild, guild).Some? && ApprovalChannelOf(byGuild, guild).value in guildChannels
  }

  /** The recruiter line of the request: empty when the field was left blank. */
  function FormRecruiterLine(resolved: Option<(string, Option<Member>)>): string
  {
    if resolved.Some? then RecruiterLine(resolved.value.0, resolved.value.1) else ""
  }

  /** `SetForm.on_submit`: the checks in the order the form makes them, then the
      request posted to the approval channel. `byGuild` is `canais_aprovacao`,
      `guildChannels` the ids of the guild's channels, `history` the approval
      channel's messages (newest first), `members` the guild's members and `date`
      the formatted clock. */
  function OnSubmit(form: SetForm, user: Member, guild: int, byGuild: map<int, int>, guildChannels: set<int>,
                    history: seq<Message>, members: seq<Member>, date: string): (r: Submitted)
    ensures r == Rejected(BadFivemId) <==> !ValidFivemId(form.fivemId)
    ensures r == Rejected(BadNick) <==> ValidFivemId(form.fivemId) && !ValidNick(form.nick)
    ensures r == Rejected(NoApprovalChannel) <==>
      ValidFivemId(form.fivemId) && ValidNick(form.nick) && ApprovalChannelOf(byGuild, guild).None?
    ensures r == Rejected(ApprovalChannelMissing) <==>
      (ValidFivemId(form.fivemId) && ValidNick(form.nick)
       && ApprovalChannelOf(byGuild, guild).Some? && ApprovalChannelOf(byGuild, guild).value !in guildChannels)
    ensures r == Rejected(IdInUse) <==>
      (ValidFivemId(form.fivemId) && ValidNick(form.nick) && ChannelReady(byGuild, guild, guildChannels)
       && IdTakenIn(history, form.fivemId))
    ensures r == Rejected(BadRecruiterId) <==>
      (ValidFivemId(form.fivemId) && ValidNick(form.nick) && ChannelReady(byGuild, guild, guildChannels)
       && !IdTakenIn(history, form.fivemId) && ResolveRecruiter(form.recruiter, members).None?)
    ensures r.Sent? <==>
      (ValidFivemId(form.fivemId) && ValidNick(form.nick) && ChannelReady(byGuild, guild, guildChannels)
       && !IdTakenIn(history, form.fivemId) && ResolveRecruiter(form.recruiter, members).Some?)
    ensures r.Sent? ==>
      (var rec := ResolveRecruiter(form.recruiter, members).value;
       r.request.description == RequestDescription(user.id, form.fivemId, form.nick, date, FormRecruiterLine(rec))
       && r.request.recruiterName == (if rec.Some? then Some(rec.value.0) else None))
    ensures r.Sent? ==>
      (r.request.channel == byGuild[guild]
       && ExtractFivemId(r.request.description) == Some(form.fivemId)
       && ExtractNick(r.request.description) == Some(form.nick)
       && Contains(r.request.description, IdTag(form.fivemId)))
  {
    if !ValidFivemId(form.fivemId) then Rejected(BadFivemId)
    else if !ValidNick(form.nick) then Rejected(BadNick)
    else
      var channel := ApprovalChannelOf(byGuild, guild);
      if channel.None? then Rejected(NoApprovalChannel)
      else if channel.value !in guildChannels then Rejected(ApprovalChannelMissing)
      else if IdTakenIn(history, form.fivemId) then Rejected(IdInUse)
      else
        var rec := ResolveRecruiter(form.recruiter, members);
        if rec.None? then Rejected(BadRecruiterId)
        else
          var line := FormRecruiterLine(rec.value);
          var desc := RequestDescription(user.id, form.fivemId, form.nick, date, line);
          IdRoundTrip(user.id, form.fivemId, form.nick, date, line);
          NickRoundTrip(user.id, form.fivemId, form.nick, date, line);
          DescriptionTags(user.id, form.fivemId, form.nick, date, line);
          Sent(SetRequest(channel.value, desc, if rec.value.Some? then Some(rec.value.value.0) else None))
  }

  /** Once a request is posted, a second request for the same id is refused as a
      duplicate, whoever sends it. */
  lemma SecondRequestRefused(form: SetForm, user: Member, guild: int, byGuild: map<int, int>, guildChannels: set<int>,
                             history: seq<Message>, members: seq<Member>, date: string,
                             form2: SetForm, user2: Member, members2: seq<Member>, date2: string)
    requires OnSubmit(form, user, guild, byGuild, guildChannels, history, members, date).Sent?
    requires form2.fivemId == form.fivemId && ValidNick(form2.nick)
    ensures var posted := OnSubmit(form, user, guild, byGuild, guildChannels, history, members, date).request;
      OnSubmit(form2, user2, guild, byGuild, guildChannels, [Message([Some(posted.description)])] + history, members2, date2)
        == Rejected(IdInUse)
  {
    var posted := OnSubmit(form, user, guild, byGuild, guildChannels, history, members, date).request;
    var h := [Message([Some(posted.description)])] + history;
    assert DescriptionHasId(h[0].embeds[0], form.fivemId);
  }

  datatype CheckIdResult = NotConfigured | ChannelMissing | NotANumber | InUse | Available

  /** `check_id`: the channel checks come before the digit check here, then the
      same scan as the form. */
  function CheckId(guild: int, byGuild: map<int, int>, guildChannels: set<int>, history: seq<Message>, id: string): (r: CheckIdResult)
    ensures r == InUse <==>
      (ApprovalChannelOf(byGuild, guild).Some? && ApprovalChannelOf(byGuild, guild).value in guildChannels
       && ValidFivemId(id) && IdTakenIn(history, id))
    ensures r == NotConfigured <==> ApprovalChannelOf(byGuild, guild).None?
    ensures r == ChannelMissing <==>
      ApprovalChannelOf(byGuild, guild).Some? && ApprovalChannelOf(byGuild, guild).value !in guildChannels
    ensures r == NotANumber <==> ChannelReady(byGuild, guild, guildChannels) && !ValidFivemId(id)
    ensures r == Available <==>
      ChannelReady(byGuild, guild, guildChannels) && ValidFivemId(id) && !IdTakenIn(history, id)
  {
    var channel := ApprovalChannelOf(byGuild, guild);
    if channel.None? then NotConfigured
    else if channel.value !in guildChannels then ChannelMissing
    else if !ValidFivemId(id) then NotANumber
    else if IdTakenIn(history, id) then InUse
    else Available
  }

  /** `check_id` and the form agree: an id reported free passes the duplicate check of
      a form with a valid nick, and one reported in use is refused by it. */
  lemma CheckIdAgreesWithForm(form: SetForm, user: Member, guild: int, byGuild: map<int, int>, guildChannels: set<int>,
                              history: seq<Message>, members: seq<Member>, date: string)
    requires ValidNick(form.nick)
    ensures CheckId(guild, byGuild, guildChannels, history, form.fivemId) == InUse ==>
      OnSubmit(form, user, guild, byGuild, guildChannels, history, members, date) == Rejected(IdInUse)
    ensures CheckId(guild, byGuild, guildChannels, history, form.fivemId) == Available ==>
      OnSubmit(form, user, guild, byGuild, guildChannels, history, members, date) != Rejected(IdInUse)
  {
  }

  // ---------------------------------------------------------------------------
  // The pending list

  /** `message.embeds[0].description or ""`. */
  function FirstDescription(m: Message): string
  {
    if m.embeds != [] && m.embeds[0].Some? then m.embeds[0].value else ""
  }

  predicate IsPending(m: Message)
  {
    m.embeds != [] && Contains(FirstDescription(m), PendingText)
  }

  /** The pending messages of a history, in order. */
  function PendingIn(history: seq<Message>): seq<Message>
  {
    if history == [] then []
    else (if IsPending(history[0]) then [history[0]] else []) + PendingIn(history[1..])
  }

  /** One entry of the pending list: the extracted id, nick and recruiter. */
  datatype PendingEntry = PendingEntry(id: Option<string>, nick: Option<string>, recruiter: Option<string>)

  function Summary(m: Message): PendingEntry
  {
    var d := FirstDescription(m);
    PendingEntry(ExtractFivemId(d), ExtractNick(d), ExtractRecruiter(d))
  }

  /** The first loop of `sets_pendentes`: the pending messages, in order. */
  method CollectPending(recent: seq<Message>) returns (pedidos: seq<Message>)
    ensures pedidos == PendingIn(recent)
  {
    pedidos := [];
    var i := 0;
    while i < |recent|
      invariant 0 <= i <= |recent|
      invariant PendingIn(recent) == pedidos + PendingIn(recent[i..])
    {
      assert recent[i..][1..] == recent[i + 1..];
      if IsPending(recent[i]) {
        pedidos := pedidos + [recent[i]];
      }
      i := i + 1;
    }
  }

  /** What `sets_pendentes` answers: a refusal, or the number of pending requests and
      the summaries shown. */
  datatype PendingReport =
    | NotAdmin
    | PendingNotConfigured
    | PendingChannelMissing
    | Pending(total: nat, listed: seq<PendingEntry>)

  /** `sets_pendentes`: refused unless the author is an administrator; then the
      approval channel must be configured and still exist; then the pending requests
      among its 100 most recent messages (`history`, newest first), their number,
      and the summaries of the first five. */
  method SetsPendentes(isAdmin: bool, guild: int, byGuild: map<int, int>, guildChannels: set<int>,
                       history: seq<Message>) returns (r: PendingReport)
    ensures r == NotAdmin <==> !isAdmin
    ensures r == PendingNotConfigured <==> isAdmin && ApprovalChannelOf(byGuild, guild).None?
    ensures r == PendingChannelMissing <==>
      (isAdmin && ApprovalChannelOf(byGuild, guild).Some? && ApprovalChannelOf(byGuild, guild).value !in guildChannels)
    ensures r.Pending? <==> isAdmin && ChannelReady(byGuild, guild, guildChannels)
    ensures r.Pending? ==> r.total == |PendingIn(Take(history, 100))|
    ensures r.Pending? ==> |r.listed| == if r.total < 5 then r.total else 5
    ensures r.Pending? ==> forall k :: 0 <= k < |r.listed| ==> r.listed[k] == Summary(PendingIn(Take(history, 100))[k])
  {
    if !isAdmin {
      return NotAdmin;
    }
    var channel := ApprovalChannelOf(byGuild, guild);
    if channel.None? {
      return PendingNotConfigured;
    }
    if channel.value !in guildChannels {
      return PendingChannelMissing;
    }
    var recent := Take(history, 100);
    var pedidos := CollectPending(recent);
    var total := |pedidos|;
    var shown := if total < 5 then total else 5;
    var listed := Summaries(pedidos, shown);
    return Pending(total, listed);
  }

  /** The second loop of `sets_pendentes`: the summaries of the first `n` requests. */
  method Summaries(pedidos: seq<Message>, n: nat) returns (listed: seq<PendingEntry>)
    requires n <= |pedidos|
    ensures |listed| == n
    ensures forall k :: 0 <= k < n ==> listed[k] == Summary(pedidos[k])
  {
    listed := [];
    for k := 0 to n
      invariant |listed| == k
      invariant forall q :: 0 <= q < k ==> listed[q] == Summary(pedidos[q])
    {
      listed := listed + [Summary(pedidos[k])];
    }
  }

  /** The pending list keeps exactly the pending messages. */
  lemma {:induction false} PendingInSpec(history: seq<Message>)
    ensures forall m :: m in PendingIn(history) <==> m in history && IsPending(m)
  {
    if history != [] {
      PendingInSpec(history[1..]);
      assert history == [history[0]] + history[1..];
    }
  }

  /** A request just posted heads the pending list, which reads back its id and nick. */
  lemma PostedRequestIsListed(uid: int, id: string, nick: string, date: string, recruiter: string, history: seq<Message>)
    requires ValidFivemId(id) && ValidNick(nick)
    ensures var h := [Message([Some(RequestDescription(uid, id, nick, date, recruiter))])] + history;
      PendingIn(Take(h, 100)) != []
      && Summary(PendingIn(Take(h, 100))[0]).id == Some(id)
      && Summary(PendingIn(Take(h, 100))[0]).nick == Some(nick)
  {
    var d := RequestDescription(uid, id, nick, date, recruiter);
    var h := [Message([Some(d)])] + history;
    var recent := Take(h, 100);
    DescriptionTags(uid, id, nick, date, recruiter);
    IdRoundTrip(uid, id, nick, date, recruiter);
    NickRoundTrip(uid, id, nick, date, recruiter);
    assert recent[0] == h[0];
    assert IsPending(recent[0]);
    assert PendingIn(recent)[0] == recent[0];
  }
}
