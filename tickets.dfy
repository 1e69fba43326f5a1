/** The farm-manager sessions of `modules/tickets.py`: one text channel per member,
    opened from a panel in a category, closed by its owner or by staff, reopened
    or deleted by staff. A channel is reduced to its name, its topic, whether it
    is a text channel, the `send_messages` flag of its @everyone overwrite, the
    staff roles given access and the id of the member the panels were made for. */
module Tickets {
  import opened Text
  import opened Platform
  import opened Sorting

  /** The name prefix of a closed session channel, "🔒-". */
  const ClosedMark: string := "\U{1F512}-"

  /** The name prefix of an open session channel, "🎫-". */
  const OpenMark: string := "\U{1F3AB}-"

  // ---------------------------------------------------------------------------
  // Staff recognition

  /** `normalizar_nome`: every white-space character removed. */
  function NormalizarNome(s: string): (r: string)
    ensures NoSpace(r)
    ensures |r| <= |s|
    ensures NoSpace(s) ==> r == s
  {
    Filter(s, NotSpace)
  }

  /** Normalising is idempotent. */
  lemma NormalizarIdempotent(s: string)
    ensures NormalizarNome(NormalizarNome(s)) == NormalizarNome(s)
  {
  }

  /** White space put between two pieces does not change the normal form. */
  lemma NormalizarIgnoresSpaces(a: string, sp: string, b: string)
    requires forall i :: 0 <= i < |sp| ==> IsSpace(sp[i])
    ensures NormalizarNome(a + sp + b) == NormalizarNome(a + b)
  {
    AllSpaceFilter(sp);
    FilterAppend(a, sp, NotSpace);
    assert Filter(a + sp, NotSpace) == Filter(a, NotSpace);
    FilterAppend(a + sp, b, NotSpace);
    FilterAppend(a, b, NotSpace);
  }

  /** STAFF_ROLES as `normalizar_nome` leaves them: every entry with its white
      space removed. Matching happens on these forms only. */
  const StaffRoleKeys: seq<string> := [
    "\U{1F451}|Lider|00",
    "\U{1F48E}|Lider|01",
    "\U{1F46E}|Lider|02",
    "\U{1F396}\U{FE0F}|Lider|03",
    "\U{1F396}\U{FE0F}|GerenteGeral",
    "\U{1F396}\U{FE0F}|GerenteDeFarm",
    "\U{1F396}\U{FE0F}|GerenteDePista",
    "\U{1F396}\U{FE0F}|GerentedeRecrutamento",
    "\U{1F396}\U{FE0F}|Supervisor",
    "\U{1F396}\U{FE0F}|Recrutador",
    "\U{1F396}\U{FE0F}|CeoElite",
    "\U{1F396}\U{FE0F}|SubElite"
  ]

  /** The name is one of `keys` once its white space is removed. */
  predicate MatchesAny(name: string, keys: seq<string>)
  {
    exists j :: 0 <= j < |keys| && NormalizarNome(name) == keys[j]
  }

  /** The role name is one of STAFF_ROLES once white space is ignored on both sides. */
  predicate IsStaffName(name: string)
  {
    MatchesAny(name, StaffRoleKeys)
  }

  /** Whether some role of the list has a staff name (the loops of `usuario_e_staff`). */
  function HasStaffRole(roles: seq<Role>): (b: bool)
    ensures b <==> exists k :: 0 <= k < |roles| && IsStaffName(roles[k].name)
  {
    if roles == [] then false
    else IsStaffName(roles[0].name) || HasStaffRole(roles[1..])
  }

  /** `usuario_e_staff`: administrators, and members holding a staff-named role. */
  function UsuarioEStaff(m: Option<Member>): (b: bool)
    ensures m.None? ==> !b
    ensures m.Some? && m.value.isAdmin ==> b
    ensures m.Some? && !m.value.isAdmin ==>
      (b <==> exists k :: 0 <= k < |m.value.roles| && IsStaffName(m.value.roles[k].name))
  {
    m.Some? && (m.value.isAdmin || HasStaffRole(m.value.roles))
  }

  function Position(r: Role): int { r.position }

  /** The roles of the list whose name matches one of `keys`, in list order. */
  function RolesMatching(roles: seq<Role>, keys: seq<string>): seq<Role>
  {
    if roles == [] then []
    else (if MatchesAny(roles[0].name, keys) then [roles[0]] else []) + RolesMatching(roles[1..], keys)
  }

  /** The guild roles with a staff name, in guild order. */
  function StaffRolesIn(roles: seq<Role>): seq<Role>
  {
    RolesMatching(roles, StaffRoleKeys)
  }

  /** The matching roles of a list are exactly its roles with a matching name, none
      repeated more often than in the list. */
  lemma {:induction false} RolesMatchingSpec(roles: seq<Role>, keys: seq<string>)
    ensures forall x :: x in RolesMatching(roles, keys) <==> x in roles && MatchesAny(x.name, keys)
    ensures forall x :: multiset(RolesMatching(roles, keys))[x] <= multiset(roles)[x]
  {
    if roles != [] {
      RolesMatchingSpec(roles[1..], keys);
      assert roles == [roles[0]] + roles[1..];
    }
  }

  /** What `get_cargos_staff` returns: exactly the staff-named guild roles, each as
      often as the guild lists it (so at most once), from the highest position down. */
  lemma StaffRolesSorted(guildRoles: seq<Role>)
    ensures forall x :: x in SortDesc(StaffRolesIn(guildRoles), Position) <==> x in guildRoles && IsStaffName(x.name)
    ensures SortedDesc(SortDesc(StaffRolesIn(guildRoles), Position), Position)
    ensures forall x :: multiset(SortDesc(StaffRolesIn(guildRoles), Position))[x] <= multiset(guildRoles)[x]
  {
    var f := StaffRolesIn(guildRoles);
    RolesMatchingSpec(guildRoles, StaffRoleKeys);
    var r := SortDesc(f, Position);
    assert multiset(r) == multiset(f);
    assert forall x :: x in r <==> x in multiset(r);
    assert forall x :: x in f <==> x in multiset(f);
  }

  /** The inner loop of `get_cargos_staff`: does the name match an entry of `names`? */
  method MatchNames(name: string, keys: seq<string>) returns (matched: bool)
    ensures matched == MatchesAny(name, keys)
  {
    var j := 0;
    while j < |keys|
      invariant 0 <= j <= |keys|
      invariant forall q :: 0 <= q < j ==> NormalizarNome(name) != keys[q]
    {
      if NormalizarNome(name) == keys[j] {
        return true;
      }
      j := j + 1;
    }
    return false;
  }

  /** The loop of `get_cargos_staff`: the roles whose normalised name is one of `keys`,
      in list order. */
  method CollectMatching(guildRoles: seq<Role>, keys: seq<string>) returns (found: seq<Role>)
    ensures found == RolesMatching(guildRoles, keys)
  {
    found := [];
    var i := 0;
    while i < |guildRoles|
      invariant 0 <= i <= |guildRoles|
      invariant found == RolesMatching(guildRoles[..i], keys)
    {
      var role := guildRoles[i];
      var matched := MatchNames(role.name, keys);
      RolesMatchingSnoc(guildRoles[..i], role, keys);
      assert guildRoles[..i + 1] == guildRoles[..i] + [role];
      if matched {
        found := found + [role];
      }
      i := i + 1;
    }
    assert guildRoles[..i] == guildRoles;
  }

  /** `get_cargos_staff`: the guild's staff-named roles, from the highest position down. */
  method GetCargosStaff(guildRoles: seq<Role>) returns (r: seq<Role>)
    ensures r == SortDesc(StaffRolesIn(guildRoles), Position)
  {
    var found := CollectMatching(guildRoles, StaffRoleKeys);
    r := SortDesc(found, Position);
  }

  /** Matching one more role appends it exactly when its name matches. */
  lemma {:induction false} RolesMatchingSnoc(roles: seq<Role>, x: Role, keys: seq<string>)
    ensures RolesMatching(roles + [x], keys)
      == RolesMatching(roles, keys) + (if MatchesAny(x.name, keys) then [x] else [])
  {
    if roles != [] {
      assert (roles + [x])[1..] == roles[1..] + [x];
      RolesMatchingSnoc(roles[1..], x, keys);
    } else {
      assert [] + [x] == [x];
    }
  }

  // ---------------------------------------------------------------------------
  // Channels and the open guard

  /** A channel of the category. `everyoneSend` is the `send_messages` value of the
      @everyone overwrite, `None` when the channel has no such overwrite; `owner`
      is the member id the session panels were created for, `None` for channels
      the bot did not create. */
  datatype Channel = Channel(
    id: int,
    name: string,
    topic: Option<string>,
    isText: bool,
    everyoneSend: Option<bool>,
    staffRoles: seq<Role>,
    owner: Option<int>)

  predicate IsClosedName(name: string) { StartsWith(name, ClosedMark) }

  /** The guard's view of "an open session of member `uid`": a text channel whose
      topic contains the decimal id and whose name does not start with "🔒-". */
  predicate LooksOpenFor(ch: Channel, uid: int)
  {
    ch.isText && ch.topic.Some? && ch.topic.value != [] && Contains(ch.topic.value, IntToString(uid))
    && !IsClosedName(ch.name)
  }

  /** The channels the guard finds, in category order. */
  function OpenFor(channels: seq<Channel>, uid: int): seq<Channel>
  {
    if channels == [] then []
    else (if LooksOpenFor(channels[0], uid) then [channels[0]] else []) + OpenFor(channels[1..], uid)
  }

  /** The guard finds something exactly when some channel looks open for the member,
      and everything it finds is such a channel of the category. */
  lemma {:induction false} OpenForSpec(channels: seq<Channel>, uid: int)
    ensures OpenFor(channels, uid) == [] <==> forall k :: 0 <= k < |channels| ==> !LooksOpenFor(channels[k], uid)
    ensures forall c :: c in OpenFor(channels, uid) ==> c in channels && LooksOpenFor(c, uid)
  {
    if channels != [] {
      OpenForSpec(channels[1..], uid);
      assert forall k :: 1 <= k < |channels| ==> channels[k] == channels[1..][k - 1];
    }
  }

  /** `''.join(c for c in s if c.isalnum() or c in [' ', '-', '_'])`. */
  predicate IsNameChar(c: char) { IsAlnum(c) || c == ' ' || c == '-' || c == '_' }

  /** The name of a new session channel: "🎫-" and at most 20 characters of the
      cleaned display name, or of "user{id}" when nothing is left of it. */
  function SessionChannelName(user: Member): (r: string)
    ensures StartsWith(r, OpenMark)
    ensures |r| <= |OpenMark| + 20
    ensures !IsClosedName(r)
  {
    var r := OpenMark + Take(SessionBase(user), 20);
    assert r[..|OpenMark|] == OpenMark;
    assert r[0] != ClosedMark[0];
    r
  }

  /** The cleaned display name, or "user{id}" when nothing is left of it. */
  function SessionBase(user: Member): string
  {
    var cleaned := Strip(Filter(DisplayName(user), IsNameChar));
    if cleaned == [] then "user" + IntToString(user.id) else cleaned
  }

  /** The cleaning keeps only ASCII letters and digits, ' ', '-' and '_', and so does
      the fallback "user{id}". */
  lemma SessionBaseChars(user: Member)
    ensures forall i :: 0 <= i < |SessionBase(user)| ==> IsNameChar(SessionBase(user)[i])
  {
    var filtered := Filter(DisplayName(user), IsNameChar);
    if Strip(filtered) == [] {
      FallbackNameChars(user.id);
    } else {
      StripKeeps(filtered, IsNameChar);
    }
  }

  /** The fallback "user{id}" holds only letters, digits and '-'. */
  lemma FallbackNameChars(id: int)
    ensures forall i :: 0 <= i < |"user" + IntToString(id)| ==> IsNameChar(("user" + IntToString(id))[i])
  {
    var digits := IntToString(id);
    if id < 0 {
      assert forall i :: 1 <= i < |digits| ==> digits[i] == digits[1..][i - 1];
    }
    assert forall i :: 0 <= i < |digits| ==> IsNameChar(digits[i]);
    var r := "user" + digits;
    assert forall i :: 4 <= i < |r| ==> r[i] == digits[i - 4];
  }

  /** After "🎫-" a session channel name holds only the characters the cleaning keeps. */
  lemma SessionNameChars(user: Member)
    ensures forall i :: |OpenMark| <= i < |SessionChannelName(user)| ==> IsNameChar(SessionChannelName(user)[i])
  {
    SessionBaseChars(user);
    MarkedCutChars(SessionBase(user));
  }

  lemma MarkedCutChars(b: string)
    requires forall i :: 0 <= i < |b| ==> IsNameChar(b[i])
    ensures var r := OpenMark + Take(b, 20);
      forall i :: |OpenMark| <= i < |r| ==> IsNameChar(r[i])
  {
    var cut := Take(b, 20);
    var r := OpenMark + cut;
    forall i | |OpenMark| <= i < |r|
      ensures IsNameChar(r[i])
    {
      assert r[i] == cut[i - |OpenMark|] == b[i - |OpenMark|];
    }
  }

  /** The topic of a new session channel. */
  function SessionTopic(user: Member): (t: string)
    ensures Contains(t, IntToString(user.id))
  {
    var t := "Gestor de " + user.name + " | ID: " + IntToString(user.id);
    assert t[|t| - |IntToString(user.id)|..] == IntToString(user.id);
    ContainsAt(t, IntToString(user.id), |t| - |IntToString(user.id)|);
    t
  }

  /** The channel `create_text_channel` makes: @everyone may not send, the staff roles
      are given access, and the panels are bound to the user's id. */
  function NewSession(user: Member, newId: int, staff: seq<Role>): (ch: Channel)
    ensures LooksOpenFor(ch, user.id)
  {
    Channel(newId, SessionChannelName(user), Some(SessionTopic(user)), true, Some(false), staff, Some(user.id))
  }

  /** Closing: @everyone loses `send_messages` and "🔒-" is put in front of the name
      unless it is there already. */
  function CloseChannel(ch: Channel): (r: Channel)
    ensures IsClosedName(r.name)
    ensures r.everyoneSend == (if ch.everyoneSend.Some? then Some(false) else None)
    ensures r.id == ch.id && r.topic == ch.topic && r.owner == ch.owner && r.isText == ch.isText
  {
    var name := if IsClosedName(ch.name) then ch.name else ClosedMark + ch.name;
    assert (ClosedMark + ch.name)[..|ClosedMark|] == ClosedMark;
    ch.(name := name, everyoneSend := if ch.everyoneSend.Some? then Some(false) else None)
  }

  /** Reopening: @everyone gets `send_messages` back and a leading "🔒-" (two
      characters) becomes "🎫-". */
  function ReopenChannel(ch: Channel): (r: Channel)
    ensures r.everyoneSend == (if ch.everyoneSend.Some? then Some(true) else None)
    ensures IsClosedName(ch.name) ==> r.name == OpenMark + ch.name[2..]
    ensures !IsClosedName(ch.name) ==> r.name == ch.name
    ensures !IsClosedName(r.name)
    ensures r.id == ch.id && r.topic == ch.topic && r.owner == ch.owner && r.isText == ch.isText
  {
    var name := if IsClosedName(ch.name) then OpenMark + ch.name[2..] else ch.name;
    assert IsClosedName(ch.name) ==> name[0] != ClosedMark[0];
    ch.(name := name, everyoneSend := if ch.everyoneSend.Some? then Some(true) else None)
  }

  /** Closing twice is closing once. */
  lemma CloseIdempotent(ch: Channel)
    ensures CloseChannel(CloseChannel(ch)) == CloseChannel(ch)
  {
  }

  /** Reopening a closed session channel makes the guard see it as open again. */
  lemma ReopenedLooksOpen(ch: Channel, uid: int)
    requires ch.isText && ch.topic.Some? && ch.topic.value != [] && Contains(ch.topic.value, IntToString(uid))
    ensures LooksOpenFor(ReopenChannel(ch), uid)
    ensures !LooksOpenFor(CloseChannel(ch), uid)
  {
  }

  /** Closing and reopening does not restore the name: "🎫-x" becomes "🎫-🎫-x". */
  lemma CloseReopenName(ch: Channel)
    requires StartsWith(ch.name, OpenMark)
    ensures ReopenChannel(CloseChannel(ch)).name == OpenMark + ch.name
  {
    assert ch.name[0] != ClosedMark[0];
    var closed := ClosedMark + ch.name;
    assert closed[2..] == ch.name;
  }

  /** The substring test is loose: a member whose id is a part of another member's
      id is refused while the other member's session is open. */
  lemma GuardMatchesPartOfId(other: Member, newId: int)
    requires other.id == 123
    ensures LooksOpenFor(NewSession(other, newId, []), 12)
  {
    var t := SessionTopic(other);
    assert IntToString(123) == "123";
    assert IntToString(12) == "12";
    assert t[|t| - 3..][..2] == "12";
    ContainsAt(t, "12", |t| - 3);
  }

  // ---------------------------------------------------------------------------
  // The category and the session operations

  datatype OpenOutcome =
    | NoCategory
    | AlreadyOpen(existing: Channel)
    | CreateFailed
    | Created(channel: Channel)

  /** No two open-looking channels bound to the same member. */
  ghost predicate AtMostOneOpenEach(channels: seq<Channel>)
  {
    forall i, j ::
      (0 <= i < j < |channels| && channels[i].owner.Some? && channels[i].owner == channels[j].owner
       && !IsClosedName(channels[i].name)) ==> IsClosedName(channels[j].name)
  }

  /** Every channel bound to a member carries that member's id in its text topic. */
  ghost predicate TopicsNameOwners(channels: seq<Channel>)
  {
    forall k :: 0 <= k < |channels| && channels[k].owner.Some? ==>
      channels[k].isText && channels[k].topic.Some? && channels[k].topic.value != []
      && Contains(channels[k].topic.value, IntToString(channels[k].owner.value))
  }

  /** The channels of the category the session panel lives in. */
  class Category {
    var channels: seq<Channel>

    constructor(channels: seq<Channel>)
      ensures this.channels == channels
    {
      this.channels := channels;
    }

    /** The sessions invariant: open sessions are unique per member and findable. */
    ghost predicate Valid()
      reads this
    {
      AtMostOneOpenEach(channels) && TopicsNameOwners(channels)
    }

    /** Closing from the user panel: only the member the panel was made for. */
    method CloseByUser(k: nat, user: Member) returns (accepted: bool)
      requires k < |channels|
      modifies this
      ensures accepted <==> old(channels)[k].owner == Some(user.id)
      ensures accepted ==> channels == old(channels)[k := CloseChannel(old(channels)[k])]
      ensures !accepted ==> channels == old(channels)
      ensures old(Valid()) ==> Valid()
    {
      accepted := channels[k].owner == Some(user.id);
      if accepted {
        CloseKeepsValid(channels, k);
        channels := channels[k := CloseChannel(channels[k])];
      }
    }

    /** Closing from the staff panel: only staff. */
    method CloseByStaff(k: nat, user: Member) returns (accepted: bool)
      requires k < |channels|
      modifies this
      ensures accepted <==> UsuarioEStaff(Some(user))
      ensures accepted ==> channels == old(channels)[k := CloseChannel(old(channels)[k])]
      ensures !accepted ==> channels == old(channels)
      ensures old(Valid()) ==> Valid()
    {
      accepted := UsuarioEStaff(Some(user));
      if accepted {
        CloseKeepsValid(channels, k);
        channels := channels[k := CloseChannel(channels[k])];
      }
    }

    /** Reopening from the closed panel: only staff. Reopening does not check for
        another open session of the same member, so it can break the invariant. */
    method ReopenByStaff(k: nat, user: Member) returns (accepted: bool)
      requires k < |channels|
      modifies this
      ensures accepted <==> UsuarioEStaff(Some(user))
      ensures accepted ==> channels == old(channels)[k := ReopenChannel(old(channels)[k])]
      ensures !accepted ==> channels == old(channels)
    {
      accepted := UsuarioEStaff(Some(user));
      if accepted {
        channels := channels[k := ReopenChannel(channels[k])];
      }
    }

    /** Deleting from the staff panel: only staff. */
    method DeleteByStaff(k: nat, user: Member) returns (accepted: bool)
      requires k < |channels|
      modifies this
      ensures accepted <==> UsuarioEStaff(Some(user))
      ensures accepted ==> channels == old(channels)[..k] + old(channels)[k + 1..]
      ensures !accepted ==> channels == old(channels)
      ensures old(Valid()) ==> Valid()
    {
      accepted := UsuarioEStaff(Some(user));
      if accepted {
        DeleteKeepsValid(channels, k);
        channels := channels[..k] + channels[k + 1..];
      }
    }
  }

  /** The loop of `open_gestor` that collects the open-looking channels of a member. */
  method FindOpenSessions(channels: seq<Channel>, uid: int) returns (found: seq<Channel>)
    ensures found == OpenFor(channels, uid)
  {
    found := [];
    var i := 0;
    while i < |channels|
      invariant 0 <= i <= |channels|
      invariant OpenFor(channels, uid) == found + OpenFor(channels[i..], uid)
    {
      assert channels[i..][1..] == channels[i + 1..];
      if LooksOpenFor(channels[i], uid) {
        found := found + [channels[i]];
      }
      i := i + 1;
    }
  }

  /** `open_gestor`: refused outside a category and while the member has an
      open-looking channel in it; otherwise a new session channel is created
      (`createOk` is whether the platform accepted the creation, `newId` the id it
      gave the channel, `guildRoles` the guild's roles). */
  method OpenGestor(cat: Category?, user: Member, guildRoles: seq<Role>, newId: int, createOk: bool)
    returns (outcome: OpenOutcome)
    modifies cat
    ensures cat == null ==> outcome == NoCategory
    ensures cat != null && OpenFor(old(cat.channels), user.id) != [] ==>
      outcome == AlreadyOpen(OpenFor(old(cat.channels), user.id)[0]) && cat.channels == old(cat.channels)
    ensures cat != null && OpenFor(old(cat.channels), user.id) == [] && !createOk ==>
      outcome == CreateFailed && cat.channels == old(cat.channels)
    ensures cat != null && OpenFor(old(cat.channels), user.id) == [] && createOk ==>
      outcome == Created(NewSession(user, newId, SortDesc(StaffRolesIn(guildRoles), Position)))
      && cat.channels == old(cat.channels) + [outcome.channel]
    ensures cat != null && old(cat.Valid()) ==> cat.Valid()
  {
    if cat == null {
      return NoCategory;
    }
    var open := FindOpenSessions(cat.channels, user.id);
    if open != [] {
      return AlreadyOpen(open[0]);
    }
    var staff := GetCargosStaff(guildRoles);
    if !createOk {
      return CreateFailed;
    }
    var ch := NewSession(user, newId, staff);
    if cat.Valid() {
      OpenKeepsValid(cat.channels, ch);
    }
    cat.channels := cat.channels + [ch];
    outcome := Created(ch);
  }

  /** Opening only after the guard passed keeps sessions unique: an open session of
      the member would carry the member's id in its topic and stop the guard. */
  lemma OpenKeepsValid(channels: seq<Channel>, ch: Channel)
    requires AtMostOneOpenEach(channels) && TopicsNameOwners(channels)
    requires ch.owner.Some? && LooksOpenFor(ch, ch.owner.value)
    requires OpenFor(channels, ch.owner.value) == []
    ensures AtMostOneOpenEach(channels + [ch]) && TopicsNameOwners(channels + [ch])
  {
    OpenForSpec(channels, ch.owner.value);
    var s := channels + [ch];
    assert forall i :: 0 <= i < |channels| ==> s[i] == channels[i];
  }

  lemma CloseKeepsValid(channels: seq<Channel>, k: nat)
    requires k < |channels|
    ensures AtMostOneOpenEach(channels) ==> AtMostOneOpenEach(channels[k := CloseChannel(channels[k])])
    ensures TopicsNameOwners(channels) ==> TopicsNameOwners(channels[k := CloseChannel(channels[k])])
  {
  }

  lemma DeleteKeepsValid(channels: seq<Channel>, k: nat)
    requires k < |channels|
    ensures AtMostOneOpenEach(channels) ==> AtMostOneOpenEach(channels[..k] + channels[k + 1..])
    ensures TopicsNameOwners(channels) ==> TopicsNameOwners(channels[..k] + channels[k + 1..])
  {
    var s := channels[..k] + channels[k + 1..];
    assert forall i :: 0 <= i < |s| ==> s[i] == channels[if i < k then i else i + 1];
  }

  /** Once a member has opened a session, a second open is refused until it is closed. */
  lemma SecondOpenRefused(channels: seq<Channel>, user: Member, newId: int, staff: seq<Role>)
    ensures OpenFor(channels + [NewSession(user, newId, staff)], user.id) != []
  {
    var s := channels + [NewSession(user, newId, staff)];
    assert LooksOpenFor(s[|channels|], user.id);
    OpenForSpec(s, user.id);
  }

  /** Reopening can leave a member with two open sessions: the member opens a new
      one after closing the first, then staff reopens the first. */
  lemma ReopenCanDuplicate(first: Channel, second: Channel, uid: int)
    requires first.owner == Some(uid) && second.owner == Some(uid)
    requires !IsClosedName(second.name)
    ensures AtMostOneOpenEach([CloseChannel(first), second])
    ensures !AtMostOneOpenEach([ReopenChannel(CloseChannel(first)), second])
  {
    var s := [ReopenChannel(CloseChannel(first)), second];
    assert s[0].owner == s[1].owner;
  }
}
