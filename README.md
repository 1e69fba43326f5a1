# A Dafny model of a FiveM community Discord bot

The bot serves a FiveM role-play community on Discord. Its modules, whose decision
logic this project models and proves things about:

- **cargos**: the nickname codec. A member's label has the form `PREFIX | Name | ID`.
  The codec reads the name, the FiveM id and the visual prefix back out of a label.
  It builds a new label from the member's highest mapped role, within Discord's
  32-character limit. It also decides who may use the role panel.
- **tickets**: the farm-manager sessions. A member opens one text channel in a
  category. The member or staff closes it (`🔒-` name, @everyone may not send).
  Staff reopen it (`🎫-` name) or delete it. Staff are recognised by role names
  compared with white space removed.
- **sets**: registration requests. This covers who may approve a request and how a
  request is validated: the FiveM id, the in-game nick, the configured approval
  channel, the duplicate-id scan and the recruiter lookup. It also covers the text
  of a request and the extractors the pending list uses on it, the approval
  nickname, and the guild-to-approval-channel map.
- **config_cargos**: `CargosManager`, a per-guild cache of roles by name, by id and
  in hierarchy order. The cache is rebuilt whole from the Discord listeners. The
  name lookup falls back to a case-insensitive match. The role order is
  "is greater than".
- **painel_hierarquia**: the hierarchy panel. Members are put into buckets by
  their highest configured rank. A rank with members gets a field, and a long
  mention list is cut into fields of at most 1024 characters. An empty rank gets
  no field, although the code prepares a "Nenhum membro" text for it (see
  Findings). A TOTAL field ends the panel.
- **painel_rec**: the recruiter ranking, `GerenciadorRecrutadores`. It keeps
  counters keyed by recruiter id and supports increment, top-N, sum and reset.
- **Panel registry** (shared by painel_rec and painel_hierarquia): `paineis_ativos`
  holds one panel per guild. Creating a panel replaces the guild's old one. A
  refresh drops every panel whose message cannot be fetched or edited.
- **limpeza**: the clean-up commands. The model covers the staff check by exact
  role name and the checks of the quick commands and of the menu form. It also
  covers author gating of the buttons and what a purge deletes and reports.

Support modules:

- `Text`: Python string behaviour written out, on ASCII character classes:
  `split`, `strip`, `lower`, `isdigit`, `str(int)`, `int(str)`, slicing, and
  `join`.
- `Platform`: `Role`, `Member` and `Option`.
- `Sorting`: Python's stable `sorted(..., reverse=True)` as an insertion sort on a
  key.
- `Panels`: the panel registry.

Platform calls become inputs. A fetch that succeeds or fails, a guild's role list
and a channel's recent messages are all parameters.

Some behaviours of the code are proved as they are. These are not corrected in the
model:

- **Reopen name.** Closing and then reopening turns `🎫-x` into `🎫-🎫-x`.
  Reopening removes only the 2-character `🔒-`. (`Tickets.CloseReopenName`)
- **Reopen bypasses the open guard.** Reopening does not consult the guard, so a
  member can end up with two open sessions. (`Tickets.ReopenCanDuplicate`)
- **Guard matches by substring.** The open guard compares ids as substrings, so
  member 12 is blocked by a session of member 123. (`Tickets.GuardMatchesPartOfId`)
- **Approval nickname length.** It is not capped at 32 characters once the id has
  more than 10 digits. (`Sets.ApprovalNickCanExceed`)

## Model

| member | source | states |
|---|---|---|
| Cargos.ExtractName | modules/cargos.py:75-99 | the name part is never empty, is "User" for an empty label, and otherwise has no white space at either end |
| Cargos.CleanSegment | modules/cargos.py:92-99 | the cleaned segment is never empty and is "User" or has no white space at either end |
| Cargos.NameOfOneSegment | modules/cargos.py:81-91 | a label without " \| " and without outer white space is cleaned as a whole |
| Cargos.NameOfTwoSegments | modules/cargos.py:81-88 | a two-segment label "N \| ID" with a clean name reads as N (the first segment is taken) |
| Cargos.NameOfPlainLabel | modules/cargos.py:89-91 | a label with no separator and a clean name reads as itself |
| Cargos.NameDropsGroupAndNumber | modules/cargos.py:92-99 | "N (G) D" with a clean name and all-digit D reads as N: the group and the trailing number are both removed |
| Cargos.NameDropsInnerNumber | modules/cargos.py:97 | "A D B" with a number D between two clean words reads as "A B" |
| Cargos.CleanGroupAndNumber | modules/cargos.py:92-99 | the clean-up of "N (G) D", with a clean name and all-digit D, gives N |
| Cargos.NameOfThreeSegments | modules/cargos.py:81-85 | a label of three segments is read from its stripped middle segment |
| Cargos.ExampleLabelName | modules/cargos.py:75-99 | the name of "Sup \| Jane Doe (99) 12345 \| 77001" is "Jane Doe" |
| Cargos.RemoveParensPrefix | modules/cargos.py:93 | a leading part without '(' that does not end in white space is kept by the group removal |
| Cargos.RemoveParensGroup | modules/cargos.py:93 | a group " (G)" with no ')' inside is removed together with the space before it |
| Cargos.TrailingNumberAfter | modules/cargos.py:96 | "N D", with D all digits and N not ending in white space, loses " D" and keeps N |
| Cargos.NoTrailingNumber | modules/cargos.py:96 | a text ending in neither white space nor a digit keeps its end |
| Cargos.ReplaceInnerNumbersPrefix | modules/cargos.py:97 | a leading part with no spaced digit and no white space at its end is kept by the inner-number replacement |
| Cargos.ReplaceInnerNumber | modules/cargos.py:97 | " D " after A, D all digits, is replaced by one space, and the scan resumes after it |
| Cargos.RemoveParens | modules/cargos.py:93 | removing parenthesised groups never lengthens the text |
| Cargos.RemoveParensKeepsOut | modules/cargos.py:93 | removing `\s*\([^)]*\)` groups never introduces a character the text did not have |
| Cargos.RemoveParensLeavesNoGroup | modules/cargos.py:93 | after the removal no '(' is followed anywhere by a ')' |
| Cargos.RemoveParensNoop | modules/cargos.py:93 | a text without '(' is left unchanged |
| Cargos.TrimTrailingNumber | modules/cargos.py:96 | the result is a prefix of the text; what was cut is a match of `\s+\d+\s*$`, and it is the leftmost such match |
| Cargos.TrailingNumberStart | modules/cargos.py:96 | the leftmost position at which `\s+\d+\s*$` matches, or the end when there is none |
| Cargos.ReplaceInnerNumbersNoop | modules/cargos.py:97 | a text with no digit after white space is left unchanged by the `\s+\d+\s+` replacement |
| Cargos.TrimTrailingNumberNoop | modules/cargos.py:96 | a text with no digit after white space is left unchanged by the trailing-number removal |
| Cargos.ExtractId | modules/cargos.py:101-113 | None exactly when the label has no match of `\b(\d+)\b`; otherwise the match that starts last, which is all digits |
| Cargos.RunsSound | modules/cargos.py:107 | every run the scanner finds is a word-bounded digit run, and the runs come in increasing order |
| Cargos.RunsComplete | modules/cargos.py:107 | every word-bounded digit run of the label is found by the scanner (`re.findall` misses none) |
| Cargos.ExtractPrefix | modules/cargos.py:115-128 | an empty label has no prefix; a prefix found is one of the 14 visual prefixes |
| Cargos.PrefixIsFirstSegment | modules/cargos.py:121-126 | the prefix is the stripped first " \| " segment when that is a visual prefix, and none otherwise, whatever follows |
| Cargos.LabelNameRoundTrip | modules/cargos.py:81-99 | reading a rendered "P \| N \| ID" label with a clean name gives back N |
| Cargos.LabelPrefixRoundTrip | modules/cargos.py:120-126 | reading a rendered label gives back its visual prefix |
| Cargos.LabelIdRoundTrip | modules/cargos.py:103-111 | reading a rendered label with an all-digit id gives back that id, whatever the name holds |
| Cargos.IdAtEnd | modules/cargos.py:107-111 | a digit run at the end of the label, after a non-word character, is the id read |
| Cargos.ExampleLabelId | modules/cargos.py:101-113 | the id of "Sup \| Jane Doe (99) 12345 \| 77001" is "77001" |
| Cargos.GetCargoPorPrefixo | modules/cargos.py:130-140 | an unknown prefix gives no role; for a known prefix with a configured (non-zero) id the answer is `get_role` of that id; a role given is a guild role whose id is the one configured for that prefix |
| Cargos.ConfiguredRoleFound | modules/cargos.py:130-140 | a guild holding the role configured for a rank gets that role back from the rank's prefix |
| Cargos.PrefixFrom | modules/cargos.py:144-147 | the first table entry from `from` on whose configured name or id the role carries, or none when no entry matches |
| Cargos.GetPrefixoPorCargo | modules/cargos.py:142-147 | a prefix found is one of the visual prefixes |
| Cargos.PrefixOfConfiguredRole | modules/cargos.py:142-147 | a role with the configured id of rank k maps to prefix k unless its name is that of an earlier rank |
| Cargos.EliteAndMemberAreNotStaff | modules/cargos.py:51-54 | a role mapped to "E" or "M" is not a staff role |
| Cargos.UsuarioPodeUsarPainel | modules/cargos.py:149-164 | the early-return scan answers exactly the panel permission: false for no member, true for administrators, else some role maps to a staff prefix |
| Cargos.FirstMappedIsHighest | modules/cargos.py:194-198 | in roles sorted by position, the first mapped prefix belongs to a role at least as high as every other mapped role, and is "M" when none is mapped |
| Cargos.HighestPrefixIsHighest | modules/cargos.py:191-198 | the prefix chosen is that of a highest-positioned role that has a prefix, defaulting to "M" |
| Cargos.FitLabel | modules/cargos.py:204-213 | the label never exceeds 32 characters; a label that fits is kept; else the name cut to 15 is used if that fits; else that shorter label with every space removed, cut to 32, which holds no space |
| Cargos.IdFor | modules/cargos.py:176-180 | the id placed in the label is all digits ("000000" stands in for a missing id) |
| Cargos.NameFor | modules/cargos.py:183-188 | the name placed in the label holds only word characters and single spaces, with no space at either end |
| Cargos.CollapseNameSpaces | modules/cargos.py:188 | `' '.join(s.split())` of a text of word characters keeps only word characters and spaces, with no space at either end and no two in a row |
| Cargos.WordsFromText | modules/cargos.py:188 | every word of such a text is made of word characters |
| Cargos.JoinWordChars | modules/cargos.py:188 | joining such words with spaces yields only word characters and spaces |
| Cargos.LabelParts | modules/cargos.py:174-188 | the name and id parts the method computes are those of `NameFor` and `IdFor` |
| Cargos.PrefixLoop | modules/cargos.py:191-198 | the loop with `break` over roles sorted by position yields the highest mapped prefix |
| Cargos.FitLoop | modules/cargos.py:200-213 | the step-by-step 32-character ladder equals `FitLabel` |
| Cargos.AtualizarNickname | modules/cargos.py:166-223 | without nickname permission nothing is computed; otherwise the new label is at most 32 characters, and True is returned exactly when it differs from the current nick and the edit succeeds |
| Tickets.NormalizarNome | modules/tickets.py:25-29 | the result has no white space, is no longer than the input, and equals the input when it had none |
| Tickets.NormalizarIdempotent | modules/tickets.py:25-29 | normalising twice is normalising once |
| Tickets.NormalizarIgnoresSpaces | modules/tickets.py:25-29 | white space inserted anywhere does not change the normal form |
| Tickets.HasStaffRole | modules/tickets.py:41-44 | true exactly when some role's normalised name equals a normalised STAFF_ROLES entry |
| Tickets.UsuarioEStaff | modules/tickets.py:31-46 | false for no member, true for administrators, else exactly when some role has a staff name |
| Tickets.RolesMatchingSpec | modules/tickets.py:51-55 | the roles kept are exactly the listed roles with a matching name, none more often than listed |
| Tickets.RolesMatchingSnoc | modules/tickets.py:51-55 | one more role is appended to the matches exactly when its name matches |
| Tickets.StaffRolesSorted | modules/tickets.py:48-57 | `get_cargos_staff` holds exactly the staff-named guild roles, each at most as often as in the guild, sorted by position descending |
| Tickets.MatchNames | modules/tickets.py:52-55 | the inner loop answers whether the normalised name equals some key |
| Tickets.GetCargosStaff | modules/tickets.py:48-57 | the loop-and-append builds the staff roles sorted by position descending |
| Tickets.CollectMatching | modules/tickets.py:51-55 | the loop over the guild roles keeps exactly the roles whose normalised name is a key, in guild order |
| Tickets.OpenForSpec | modules/tickets.py:263-271 | the guard finds nothing exactly when no text channel of the category has the id in its topic and a name not starting with "🔒-"; what it finds is such a channel |
| Tickets.SessionChannelName | modules/tickets.py:310-317 | the name starts with "🎫-", has at most 20 characters after it, and is not a closed name |
| Tickets.SessionNameChars | modules/tickets.py:310-317 | after "🎫-" the name holds only ASCII letters, digits, ' ', '-' and '_' |
| Tickets.SessionBaseChars | modules/tickets.py:311-315 | the cleaned display name, or the fallback "user{id}", holds only those characters |
| Tickets.SessionTopic | modules/tickets.py:324 | the topic contains the member's decimal id |
| Tickets.NewSession | modules/tickets.py:309-326 | the created channel looks open to the guard for its member |
| Tickets.CloseChannel | modules/tickets.py:134-141 | a closed channel has a "🔒-" name and @everyone may not send; id, topic, owner and kind are unchanged |
| Tickets.ReopenChannel | modules/tickets.py:83-92 | @everyone may send again; a leading "🔒-" becomes "🎫-", other names are kept; the result is not a closed name |
| Tickets.CloseIdempotent | modules/tickets.py:134-141 | closing twice is closing once |
| Tickets.ReopenedLooksOpen | modules/tickets.py:83-92 | a reopened session channel looks open to the guard again, a closed one does not |
| Tickets.CloseReopenName | modules/tickets.py:90-91 | closing then reopening "🎫-x" gives "🎫-🎫-x" |
| Tickets.GuardMatchesPartOfId | modules/tickets.py:266 | a session of member 123 looks open to the guard for member 12 |
| Tickets.Category.CloseByUser | modules/tickets.py:118-141 | only the member the panel was made for may close; closing changes that channel only and keeps the session invariant |
| Tickets.Category.constructor | modules/tickets.py:241-258 | the category holds the given channels |
| Tickets.Category.CloseByStaff | modules/tickets.py:171-193 | only staff may close from the staff panel; the effect is the same close |
| Tickets.Category.ReopenByStaff | modules/tickets.py:68-92 | only staff may reopen; reopening changes that channel only |
| Tickets.Category.DeleteByStaff | modules/tickets.py:212-233 | only staff may delete; deletion removes exactly that channel and keeps the session invariant |
| Tickets.FindOpenSessions | modules/tickets.py:263-270 | the scan loop collects exactly the channels the guard finds |
| Tickets.OpenGestor | modules/tickets.py:241-326 | refused without a category, refused with the first open session found, unchanged when creation fails, else exactly one new session appended; the at-most-one-open invariant is kept |
| Tickets.OpenKeepsValid | modules/tickets.py:263-326 | opening only after the guard passed keeps at most one open session per member |
| Tickets.CloseKeepsValid | modules/tickets.py:129-141 | closing keeps the session invariants |
| Tickets.DeleteKeepsValid | modules/tickets.py:212-233 | deleting keeps the session invariants |
| Tickets.SecondOpenRefused | modules/tickets.py:263-277 | after a member opened a session, the guard refuses the member's next open |
| Tickets.ReopenCanDuplicate | modules/tickets.py:79-92 | reopening a closed session beside a newer open one leaves the member with two open sessions |
| Sets.HasRoleAtOrAbove | modules/sets.py:30-32 | true exactly when some role's position is at least the threshold |
| Sets.UsuarioPodeAprovar | modules/sets.py:15-34 | false for no member, true for administrators, false when the base role is missing, else exactly when some role is at or above the base role |
| Sets.HoldingBaseRoleApproves | modules/sets.py:25-32 | a member holding the base role may approve |
| Sets.ApprovalMonotonic | modules/sets.py:15-34 | gaining a role never takes the approval right away |
| Sets.BuscarUsuarioPorIdFivem | modules/sets.py:36-41 | none exactly when no member's nick ends with " \| {id}"; else the first member whose nick does |
| Sets.ApprovalNick | modules/sets.py:72-74 | "M \| nick \| id" when that fits 32 characters, else with the nick cut to 15 |
| Sets.ApprovalNickCanExceed | modules/sets.py:72-74 | with an id of more than 10 digits the approval nickname is 22+len(id) > 32 characters long |
| Sets.ApprovalNickFits | modules/sets.py:72-74 | with an id of at most 10 digits the approval nickname fits 32 characters |
| Sets.ApprovedMemberIsFound | modules/sets.py:36-74 | once a member carries the approval nick, the id lookup succeeds; it returns that member or one listed before it; the codec reads the same id back |
| Sets.RoleNamed | modules/sets.py:80-82 | `discord.utils.get` by name: the first role of the guild with that name; none means no role has it |
| Sets.AprovarSet | modules/sets.py:56-85 | refused exactly without the approval right; "member gone" exactly when approved but the member left; the new nick is the approval nickname; the role given is the first "🙅‍♂️ \| Membro" of the guild, else the first "Membro"; none exactly when the guild has neither |
| Sets.ApprovalChannels.Aprovamento | modules/sets.py:328-336 | `!aprovamento` is refused, changing nothing, exactly when the author is not an administrator; otherwise the guild maps to the named channel, or to the current one when none is named, and no other guild changes |
| Sets.ApprovalChannels.constructor | modules/sets.py:13 | no guild has an approval channel at start |
| Sets.ApprovalChannelOf | modules/sets.py:213-214 | a channel is configured exactly when the guild is mapped to a non-zero id |
| Sets.AprovamentoIsPerGuild | modules/sets.py:336 | after `!aprovamento` the guild's channel is the one given, other guilds keep theirs |
| Sets.DescriptionTags | modules/sets.py:256-269 | every request description carries the id tag the duplicate scan looks for, and the pending text |
| Sets.GroupAt | modules/sets.py:464-466 | a captured group is non-empty, free of the stop character, read from that position, and followed by the stop character when one is required |
| Sets.FieldRoundTrip | modules/sets.py:464-466 | a field written after its marker is read back by the marker's regular expression |
| Sets.IdRoundTrip | modules/sets.py:464 | the id extractor reads back the id written into a request description |
| Sets.NickRoundTrip | modules/sets.py:465 | the nick extractor reads back the nick written into a request description |
| Sets.ScanForId | modules/sets.py:228-233 | the loop over the 200 latest messages and their embeds answers exactly whether the id is taken |
| Sets.RecruiterName | modules/sets.py:244-253 | "ID: {value}" when nobody is found; else the second " \| " part of the nick, the whole nick when it has fewer parts, or the account name without a nick |
| Sets.FoundRecruiterNameIsSecondPart | modules/sets.py:244-249 | a recruiter found by id has a nick with at least two parts, and the name used is its second part |
| Sets.ResolveRecruiter | modules/sets.py:239-253 | blank means no recruiter; a non-blank, non-digit value is rejected; otherwise the lookup result and the name derived from it |
| Sets.OnSubmit | modules/sets.py:198-301 | each rejection happens exactly when the earlier checks pass and its own fails, in source order; a request is sent exactly when all checks pass, to the configured channel; its description is the request text built from the user, id, nick, date and resolved recruiter line, and reads back the same id and nick |
| Sets.SecondRequestRefused | modules/sets.py:228-233 | once a request is posted, a second one with the same id is refused as in use |
| Sets.CheckId | modules/sets.py:393-426 | each answer exactly under its condition: not configured, channel missing, not a number, in use (a scanned embed carries the id tag) or available |
| Sets.CheckIdAgreesWithForm | modules/sets.py:413-426 | `check_id` and the form agree on whether an id is taken |
| Sets.CollectPending | modules/sets.py:445-448 | the loop collects exactly the pending messages, in order |
| Sets.SetsPendentes | modules/sets.py:428-485 | refused for a non-administrator; then "not configured" and "channel not found" exactly under their conditions; otherwise the total is the number of pending requests among the 100 latest messages, at most 5 are listed, and each is the summary of the matching pending request |
| Sets.Summaries | modules/sets.py:460-468 | the second loop yields, in order, the summaries of the first n pending requests |
| Sets.PendingInSpec | modules/sets.py:447 | the pending messages are exactly the scanned messages whose first embed says "Aguardando aprovação" |
| Sets.PostedRequestIsListed | modules/sets.py:444-468 | a just-posted request heads the pending list with its id and nick |
| ConfigCargos.BuildNames | modules/config_cargos.py:41 | the name cache is well formed: its key list and its table agree |
| ConfigCargos.BuildNamesHas | modules/config_cargos.py:41 | a name is cached exactly when some role has it |
| ConfigCargos.BuildNamesLast | modules/config_cargos.py:41 | the role cached under a name is the last role with that name (dict comprehension overwrite) |
| ConfigCargos.BuildIdsSpec | modules/config_cargos.py:44 | every cached id maps to a guild role with that id, and every role's id is cached |
| ConfigCargos.BuildHierarchy | modules/config_cargos.py:47-51 | the hierarchy is the guild's roles, as a permutation, sorted by position descending |
| ConfigCargos.CargosManager.constructor | modules/config_cargos.py:11-15 | a new manager has empty caches |
| ConfigCargos.CargosManagerCog.constructor | modules/config_cargos.py:119-121 | the cog owns a fresh, empty manager |
| ConfigCargos.FirstCaseInsensitive | modules/config_cargos.py:68-71 | none exactly when no cached name lowers to the lowered query; else the first such in cache order |
| ConfigCargos.RolesMatching | modules/config_cargos.py:85-91 | a role is listed exactly when some keyword is a case-insensitive substring of its cached name; never more roles than cached names |
| ConfigCargos.RolesMatchingSnoc | modules/config_cargos.py:86-90 | one more cached name appends its role at the end exactly when it matches: the results are in cache order |
| ConfigCargos.RolesMatchingDistinct | modules/config_cargos.py:86-90 | over a well-formed cache (distinct names, each mapped to a role of that name) no role is listed twice |
| ConfigCargos.CollectCategoria | modules/config_cargos.py:85-91 | the loop with `break` over the cache collects exactly the matching roles, in cache order |
| ConfigCargos.AnyKeyword | modules/config_cargos.py:87-90 | the inner keyword loop answers whether some keyword matches |
| ConfigCargos.CargosManager.AtualizarCacheGuild | modules/config_cargos.py:38-51 | the three caches of the guild are replaced by ones built from its roles; other guilds are unchanged |
| ConfigCargos.CargosManager.AtualizarTodosServidores | modules/config_cargos.py:55-58 | every listed guild is rebuilt, in turn |
| ConfigCargos.RebuildAllKeeps | modules/config_cargos.py:55-58 | a guild not in the list keeps its cache entry, or its absence |
| ConfigCargos.RebuildAllLast | modules/config_cargos.py:55-58 | a listed guild ends with the cache built from its last listing |
| ConfigCargos.CargosManager.GetCargoPorNome | modules/config_cargos.py:60-72 | none for an uncached guild; the exact match when there is one; else the first case-insensitive match |
| ConfigCargos.CargosManager.GetCargoPorId | modules/config_cargos.py:74-78 | the cached role with that id, none when the guild or the id is not cached |
| ConfigCargos.CargosManager.GetCargosPorCategoria | modules/config_cargos.py:80-91 | [] for an uncached guild; else the keyword matches in cache order; a role is listed exactly when it is the cached role of its name and matches; no role twice |
| ConfigCargos.CargosManager.GetCargosStaff | modules/config_cargos.py:93-97 | the category lookup with the staff keywords |
| ConfigCargos.CargosManager.GetHierarquia | modules/config_cargos.py:99-101 | the cached hierarchy, [] for an uncached guild |
| ConfigCargos.CargosManager.CargoEMaiorQue | modules/config_cargos.py:103-114 | true exactly when both roles are in the hierarchy and the first comes strictly earlier |
| ConfigCargos.IndexOfId | modules/config_cargos.py:110-111 | `list.index` on roles compared by id: the first position holding the id, none when absent |
| ConfigCargos.RebuildIsPerGuild | modules/config_cargos.py:38-51 | after a guild is rebuilt, every lookup for any other guild answers as before |
| ConfigCargos.RebuiltGuildAnswers | modules/config_cargos.py:44-51 | after a rebuild the guild's hierarchy is its roles sorted by position, and every role is found by id |
| ConfigCargos.MaiorQueIsStrictOrder | modules/config_cargos.py:103-114 | "is greater than" is irreflexive, asymmetric and transitive |
| ConfigCargos.MaiorQueFollowsPosition | modules/config_cargos.py:103-114 | a greater role has a position at least as high |
| ConfigCargos.CargosManagerCog.OnGuildRoleCreate | modules/config_cargos.py:130-137 | a role creation rebuilds the guild's caches |
| ConfigCargos.CargosManagerCog.OnGuildRoleDelete | modules/config_cargos.py:139-146 | a role deletion rebuilds the guild's caches |
| ConfigCargos.CargosManagerCog.OnGuildUpdate | modules/config_cargos.py:158-165 | a guild update rebuilds the guild's caches |
| ConfigCargos.CargosManagerCog.OnGuildRoleUpdate | modules/config_cargos.py:148-156 | a role update rebuilds exactly when the name or the position changed, and changes nothing otherwise |
| PainelHierarquia.CargosReaisWellFormed | modules/painel_hierarquia.py:15-30 | 14 ranks with priorities 1..14 in order and distinct labels |
| PainelHierarquia.DisplaysDistinct | modules/painel_hierarquia.py:15-30 | no two ranks share a label, so the buckets keyed by label are one per rank |
| PainelHierarquia.FirstRank | modules/painel_hierarquia.py:55-63 | the first configured rank whose name equals the role's name with white space removed on both sides, none when there is none |
| PainelHierarquia.RanksOf | modules/painel_hierarquia.py:52-63 | the ranks collected are exactly the first rank of each of the member's roles |
| PainelHierarquia.EncontrarCargoMaisAlto | modules/painel_hierarquia.py:50-72 | a rank returned is a configured one |
| PainelHierarquia.HighestRankSpec | modules/painel_hierarquia.py:50-72 | none exactly when no role matches a rank; else a matched rank whose priority is the smallest of all matched ranks |
| PainelHierarquia.HighestRankIsFirstOfItsPriority | modules/painel_hierarquia.py:69-72 | among the member's ranks of the winning priority, the stable sort returns the first collected |
| PainelHierarquia.ExtrairNomeLimpo | modules/painel_hierarquia.py:38-48 | none exactly for an empty label |
| PainelHierarquia.NomeLimpoOfTwoParts | modules/painel_hierarquia.py:44-46 | a label "a \| b" gives b stripped, so "Nome \| 123" gives "123" |
| PainelHierarquia.NomeLimpoOfPlainName | modules/painel_hierarquia.py:48 | a label without '\|' is returned whole |
| PainelHierarquia.NomeLimpoOfRenderedLabel | modules/painel_hierarquia.py:44-46 | a "P \| N \| ID" label gives its name |
| PainelHierarquia.BucketIsConfigured | modules/painel_hierarquia.py:113-124 | a member lands only in the bucket of a configured rank |
| PainelHierarquia.ColocarMembro | modules/painel_hierarquia.py:113-124 | a bot or an unranked member leaves the buckets as they are; a ranked member is appended to the bucket of its highest rank, no other bucket changes |
| PainelHierarquia.AgruparMembros | modules/painel_hierarquia.py:105-128 | the buckets are exactly the configured labels; each holds, in member order, the non-bot members whose highest rank has that label |
| PainelHierarquia.TotalIsRankedCount | modules/painel_hierarquia.py:137-145 | summing the bucket sizes over the ranks counts every ranked non-bot member exactly once |
| PainelHierarquia.PanelTotalCountsEveryRankedMember | modules/painel_hierarquia.py:202-206 | the TOTAL field counts every ranked non-bot member, over the ranks in priority order |
| PainelHierarquia.ChunkStateCovers | modules/painel_hierarquia.py:160-178 | the closed parts and the open part, one after the other, are the mention list |
| PainelHierarquia.ChunkState | modules/painel_hierarquia.py:160-175 | a non-empty mention list always leaves an open part to flush |
| PainelHierarquia.ChunkStateBounds | modules/painel_hierarquia.py:164-178 | with mentions of at most 998 characters, every part is non-empty and joins to at most 1000 characters |
| PainelHierarquia.JoinEach | modules/painel_hierarquia.py:167-178 | each part joined with ", " |
| PainelHierarquia.Partes | modules/painel_hierarquia.py:159-178 | a non-empty mention list yields at least one part |
| PainelHierarquia.PartesSplitTheList | modules/painel_hierarquia.py:159-178 | each part is at most 1000 characters, and joining the parts with ", " gives back the joined mention list |
| PainelHierarquia.DividirMencoes | modules/painel_hierarquia.py:160-178 | the running-size loop produces exactly `Partes` |
| PainelHierarquia.Mentions | modules/painel_hierarquia.py:152-154 | the mention of each bucket entry, in order |
| PainelHierarquia.ContFields | modules/painel_hierarquia.py:188-193 | one "(cont. i)" field per further part, its value cut to 1024 |
| PainelHierarquia.RankFields | modules/painel_hierarquia.py:140-199 | a rank gets fields exactly when it has members, the first headed with its count; an empty rank gets none (the "Nenhum membro" text is never added); every value has at most 1024 characters |
| PainelHierarquia.RankFieldsCorrigido | modules/painel_hierarquia.py:139-149 | as intended by "show every rank, even with 0 members": every rank gets a field headed with its count, "Nenhum membro" for an empty rank, the written fields otherwise |
| PainelHierarquia.EmptyRanksAreHidden | modules/painel_hierarquia.py:147-149 | as written, when no rank has a member there is no rank field at all |
| PainelHierarquia.CorrectedPanelShowsEveryRank | modules/painel_hierarquia.py:139-149 | with the intended fields, every rank has a field headed with its name and member count, 0 included |
| PainelHierarquia.RankFieldsKeepEveryMention | modules/painel_hierarquia.py:150-199 | the field values of a rank, joined with ", ", are its whole mention list: no mention is lost |
| PainelHierarquia.ListaMembros | modules/painel_hierarquia.py:152-154 | the loop collects the mentions |
| PainelHierarquia.CamposContinuacao | modules/painel_hierarquia.py:188-193 | the loop builds the continuation fields |
| PainelHierarquia.CamposDoCargo | modules/painel_hierarquia.py:143-199 | the branches build the rank's fields as written: none for an empty rank, else one field or the chunked fields |
| PainelHierarquia.CamposDosCargos | modules/painel_hierarquia.py:137-199 | the loop over ranks builds the fields of every rank with members and sums the bucket sizes |
| PainelHierarquia.CriarEmbedHierarquia | modules/painel_hierarquia.py:101-206 | the fields are the fields of the ranks with members, in priority order, followed by TOTAL, whose value is the sum of bucket sizes |
| PainelHierarquia.OnMemberUpdate | modules/painel_hierarquia.py:213-217 | the panel is refreshed exactly when the role lists differ in length or in the id at some position (discord.py compares roles by id); only a failed refresh of a registered guild drops its panel |
| Panels.Without | modules/painel_rec.py:383 | the registry minus the guild, every other panel kept |
| Panels.PaineisAtivos.constructor | modules/painel_rec.py:134 | the registry starts empty |
| Panels.Pruned | modules/painel_rec.py:252-271 | a panel is kept exactly when it is not dropped: the guild and channel are found and the message fails |
| Panels.PrunedIdempotent | modules/painel_rec.py:252-271 | refreshing again with the same answers drops nothing more |
| Panels.CreatedPanelSurvives | modules/painel_rec.py:252-306 | a newly created panel survives a refresh exactly when its message works, and the other guilds are pruned as before |
| Panels.PaineisAtivos.CriarNovoPainel | modules/painel_rec.py:294-306 | the guild's panel is the new one; other guilds are unchanged |
| Panels.PaineisAtivos.SetupPainel | modules/painel_rec.py:273-292 | refused, changing nothing, exactly for a non-administrator; a guild with a panel is asked to confirm and nothing changes; else the panel is created |
| Panels.PaineisAtivos.Confirmar | modules/painel_rec.py:374-387 | only the command's author may confirm; the guild then has exactly the new panel |
| Panels.PaineisAtivos.AtualizarPainelGuild | modules/painel_hierarquia.py:293-314 | a registered guild whose message fails loses its panel; otherwise nothing changes |
| Panels.PaineisAtivos.AtualizarPaineisDaGuild | modules/painel_hierarquia.py:220-281 | an unregistered guild is left alone; a registered one is refreshed as above |
| Panels.PaineisAtivos.AtualizarTodosPaineis | modules/painel_rec.py:250-271 | the loop deleting while iterating ends with exactly the pruned registry |
| Panels.PaineisAtivos.CarregarPaineis | modules/painel_rec.py:199-233 | no file leaves the registry; an unreadable file empties it; a saved registry is loaded and pruned |
| PainelRec.GerenciadorRecrutadores.AdicionarRecrutamento | modules/painel_rec.py:38-50 | the id is keyed by `str(id)`; the entry's total grows by 1 and its name is overwritten, other entries unchanged; a new key goes last; the grand total grows by exactly 1 |
| PainelRec.GerenciadorRecrutadores.constructor | modules/painel_rec.py:15-17 | a new manager holds no recruiter and no key |
| PainelRec.SomaUpdate | modules/painel_rec.py:69-74 | changing one entry changes the sum by the difference of its totals |
| PainelRec.AdicionadoIndexed | modules/painel_rec.py:38-50 | after a recruitment the key list still lists each stored key exactly once |
| PainelRec.AdicionadoSomaUm | modules/painel_rec.py:38-74 | a recruitment adds exactly 1 to the grand total; the number of recruiters grows only for a new id |
| PainelRec.IndexedCard | modules/painel_rec.py:76-78 | the number of recruiters is the length of the key list |
| PainelRec.GerenciadorRecrutadores.GetTotalGeral | modules/painel_rec.py:69-74 | the accumulator loop returns the sum of all totals |
| PainelRec.GerenciadorRecrutadores.GetTotalRecrutadores | modules/painel_rec.py:76-78 | the number of stored recruiters |
| PainelRec.Lista | modules/painel_rec.py:57-63 | one entry per key |
| PainelRec.ListaEntries | modules/painel_rec.py:57-63 | entry i is the id, stored name and stored total of key i |
| PainelRec.ListaSpec | modules/painel_rec.py:57-63 | the list holds exactly the stored recruiters |
| PainelRec.SortedListaSpec | modules/painel_rec.py:57-66 | the sorted list holds exactly the stored recruiters, each once |
| PainelRec.PrefixoAte | modules/painel_rec.py:67 | Python's `lista[:limite]`, negative limits included |
| PainelRec.TopSpec | modules/painel_rec.py:54-67 | at most `limite` entries, by non-increasing total, each a stored recruiter with its name and total, ids distinct, and nobody left out has a larger total than anyone shown |
| PainelRec.PrefixOfRanking | modules/painel_rec.py:66-67 | a prefix of the ranking is ordered, stored, duplicate-free, and beats everyone it leaves out |
| PainelRec.TopKeepsTiesInOrder | modules/painel_rec.py:66 | recruiters with equal totals keep their insertion order |
| PainelRec.GerenciadorRecrutadores.GetTopRecrutadores | modules/painel_rec.py:54-67 | the top list of the stored recruiters |
| PainelRec.GerenciadorRecrutadores.Reset | modules/painel_rec.py:419-420 | the map is emptied and the grand total is 0 |
| PainelRec.AdicionarEAtualizar | modules/painel_rec.py:243-248 | the recruitment is counted, then the panels are refreshed and pruned |
| PainelRec.ConfirmarReset | modules/painel_rec.py:411-423 | only the author may confirm; the counters are then emptied and the panels refreshed; otherwise nothing changes |
| Limpeza.HasRoleNamed | modules/limpeza.py:36-38 | true exactly when some role's name is exactly one of the names |
| Limpeza.UsuarioPodeLimpar | modules/limpeza.py:26-40 | false for no member, true for administrators, else exactly when some role name equals a STAFF_ROLES entry with no normalisation |
| Limpeza.LimparMonotonic | modules/limpeza.py:26-40 | gaining a role never takes the right away |
| Limpeza.LimparIgnoresRoleOrder | modules/limpeza.py:36-38 | the answer does not depend on the order of the roles |
| Limpeza.LimparRapido | modules/limpeza.py:222-237 | refused without permission; refused for a quantity outside 1..999; else a purge of that quantity in the given channel or the current one |
| Limpeza.LimparCanal | modules/limpeza.py:239-242 | a purge of the given channel exactly when permitted and the quantity is in range |
| Limpeza.LimparDireto | modules/limpeza.py:252-275 | the same checks in the same order, then an error when the clean-up cog is not loaded |
| Limpeza.DiretoIsRapido | modules/limpeza.py:222-275 | with the cog loaded the direct command decides exactly as the quick one |
| Limpeza.EnviarModal | modules/limpeza.py:100-137 | non-digit quantity, out-of-range quantity, non-digit channel and unknown channel are each rejected exactly under their condition; a confirmation carries the parsed quantity and the current channel for a blank id |
| Limpeza.ModalAcceptsRendered | modules/limpeza.py:104-123 | a form filled with an in-range quantity and a known channel, written in decimal, is confirmed with exactly those values |
| Limpeza.ParseNatBound | modules/limpeza.py:108 | a string of k digits reads as less than 10^k |
| Limpeza.ThreeDigitsInRange | modules/limpeza.py:81-111 | with the form's 3-character limit, the quantity never exceeds 999, so only 0 is out of range |
| Limpeza.LimparQuantidade | modules/limpeza.py:148-155 | the menu button opens the form exactly for the command's author |
| Limpeza.ConfirmarLimpeza | modules/limpeza.py:54-62 | only the author confirms, and the confirmed purge is the one shown |
| Limpeza.CancelarLimpeza | modules/limpeza.py:67-75 | only the author cancels |
| Limpeza.FluxoMenuSpec | modules/limpeza.py:148-155 | the menu path ends in a purge exactly when the author is permitted, both clicks are the author's and the form is accepted; the purge then has an in-range quantity and a valid channel |
| Limpeza.RealizarLimpeza | modules/limpeza.py:165-190 | the purge deletes the latest quantity+1 messages (or all there are) and reports one less; a forbidden purge deletes nothing |
| Limpeza.SameChannelCleanup | modules/limpeza.py:169-176 | in the command's own channel, the command and the `quantidade` messages before it are deleted, and the report counts those messages |
| Limpeza.OtherChannelOverPurges | modules/limpeza.py:169-176 | in another channel one extra message is deleted, and an empty channel reports -1 |
| Limpeza.RealizarLimpezaCorrigida | modules/limpeza.py:165-190 | the corrected purge deletes a prefix of the history, and nothing when forbidden |
| Limpeza.CorrectedCleanupSpec | modules/limpeza.py:169-176 | the corrected purge deletes the command when present plus at most `quantidade` other messages, and reports exactly those |
| Limpeza.CorrectedAgreesInSameChannel | modules/limpeza.py:169-176 | in the command's own channel the corrected purge is the purge as written |
| Text.Split | modules/cargos.py:81 | `str.split(sep)`: the parts joined with the separator give the text back; no part contains it |
| Text.SplitSingle | modules/cargos.py:81 | a text without the separator splits into itself alone |
| Text.SplitCons | modules/cargos.py:81 | splitting "a + sep + b", where a cannot hold the separator, yields a followed by the parts of b |
| Text.Strip | modules/cargos.py:85-90 | `str.strip()`: the middle of the text, with no white space at either end, only white space cut |
| Text.StripNoop | modules/cargos.py:85-90 | a text with no white space at either end is left as it is |
| Text.Words | modules/cargos.py:188 | `str.split()`: the words are non-empty and hold no white space |
| Text.CollapseSpacesSingleSpaced | modules/cargos.py:188 | `' '.join(s.split())` leaves no white space at either end and only single spaces between words |
| Text.JoinWordsSingleSpaced | modules/cargos.py:188 | non-empty words without white space joined by one space form a single-spaced, non-empty text |
| Text.WordsKeepText | modules/cargos.py:188 | the words, concatenated, are the text's non-white-space characters |
| Text.Filter | modules/tickets.py:311 | the characters kept all pass the test, and a text that passes throughout is kept whole |
| Text.FilterIdempotent | modules/tickets.py:29 | filtering twice is filtering once |
| Text.Lower | modules/config_cargos.py:68-70 | each character is lowered, the length is kept |
| Text.NatToString | modules/limpeza.py:108 | `str(n)`: digits only, no leading zero |
| Text.ParseRendered | modules/limpeza.py:108 | `int(str(n)) == n` |
| Text.IntToStringInjective | modules/painel_rec.py:40 | distinct ids give distinct keys under `str(id)` |
| Text.IntToString | modules/tickets.py:266 | `str(i)`: non-empty; digits for i >= 0; "-" then digits otherwise |
| Text.Take | modules/cargos.py:207 | `s[:n]`: a prefix of length min(n, len(s)) |
| Sorting.SortDesc | modules/painel_rec.py:66 | `sorted(..., reverse=True)`: ordered by non-increasing key and a permutation |
| Sorting.SortStable | modules/painel_rec.py:66 | the sort is stable: equal keys keep their order |
| Sorting.SortSorted | modules/config_cargos.py:47-51 | an already ordered list is returned unchanged |
| Sorting.SortedHeadIsMax | modules/painel_hierarquia.py:69-72 | the head of the sorted list has the largest key |
| Sorting.SortedFirstIsMax | modules/painel_hierarquia.py:69-72 | the first element of a list sorted descending has a key at least that of any element |
| Platform.DisplayName | modules/tickets.py:310 | `display_name`, read as discord.py 2.x defines it (`nick or global_name or name`): the nickname when set and non-empty, else the global display name when set and non-empty, else the account name; the result is always one of the three |
| Platform.RoleIds | modules/painel_hierarquia.py:216 | the ids of a role list, position by position, the key on which role lists compare |
| Platform.FindRole | modules/sets.py:25 | `guild.get_role(id)`: a role found has that id, none means no role has it |

## Left out

- modules/premios.py and main.py are not part of this model. They hold prize broadcasts, the keep-alive server, start-up, the help command and error handlers. These are I/O and framework wiring.
- JSON files are not modelled. `carregar_dados`/`salvar_dados` in modules/painel_rec.py:19-36 and the panel files are left out. The recruiter manager starts empty, and a loaded panel file is a parameter of `CarregarPaineis`. A missing `"total"` or `"canal_id"` key in a saved file, which the source swallows as an exception, is not modelled.
- Discord calls are inputs or oracle results. These are: member and channel edits, role grants, sends, `purge`, `fetch_message`, channel creation and `canal.history`. Exceptions they raise are not modelled apart from the fetch or edit failure that prunes a panel and the `Forbidden` of a purge.
- Concurrency and timing are left out: `asyncio.sleep`, `delete_after` timers, `asyncio.create_task`. The open guard of modules/tickets.py:263-326 is check-then-create across awaits. It is modelled as one sequential step.
- The float average of modules/painel_rec.py:122 and 335 is left out. So are dates, embed colours, titles and all other embed and message text that decides nothing. This includes `criar_embed_painel` (modules/painel_rec.py:137-189) and `rec_stats`.
- Character classes are ASCII. `isdigit`, `isalnum`, `\w`, `\s` and `lower` are Unicode-wide in Python. In the model a digit is '0'..'9', a word character is an ASCII letter, a digit or '_', and `lower` maps only 'A'..'Z'. White space is the set `str.split` uses up to U+001F and ' '.
- Guild ids that the source stores as `str(guild.id)` keys are integers in the model. `Text.IntToStringInjective` shows that the string form is a faithful key.
- Python dict iteration order matters where `items()` is iterated. There it is an explicit key list: the recruiter map, the name cache and the panel registry (`chaves`).
- Tickets.UsuarioEStaff: the STAFF_ROLES entries are written out already normalised (`StaffRoleKeys`). That `normalizar_nome` maps each listed name to its key is not proved, because evaluating the filter on these literal strings is too costly for the solver.
- Tickets.Category.ReopenByStaff: the reopen does not keep the at-most-one-open invariant. `Tickets.ReopenCanDuplicate` shows this, so no invariant is promised.
- PainelHierarquia.EncontrarCargoMaisAlto: its own contract only says the rank is configured. The full characterisation is `PainelHierarquia.HighestRankSpec`.
- PainelHierarquia.ExtrairNomeLimpo: its own contract states only the empty case. The other cases are the lemmas `NomeLimpoOfTwoParts`, `NomeLimpoOfPlainName` and `NomeLimpoOfRenderedLabel`.
- PainelHierarquia.CriarEmbedHierarquia: the name of each bucket entry (`extrair_nome_limpo` with the `name.split('#')` fallback) is not used by any field. Only mentions are shown, so the entry keeps only the mention.
- Cargos.ExtractName: its own contract states only the bounds (never empty, "User" for an empty label, trimmed ends). The segment choice is stated by `LabelNameRoundTrip` (three segments), `NameOfTwoSegments` and `NameOfPlainLabel`. The clean-up is stated by `NameDropsGroupAndNumber` and `NameDropsInnerNumber` on labels of those shapes, and by the removal lemmas for each pattern. There is no closed form for every label. `re.sub` resumes after each match, so "a 1 2 b" becomes "a 2 b" and not every spaced number is removed. The worked example "Sup | Jane Doe (99) 12345 | 77001" → "Jane Doe" is proved as `ExampleLabelName`.
- Cargos.GetPrefixoPorCargo: its contract states only that a prefix found is a visual prefix. The first-match scan is `Cargos.PrefixFrom` and `Cargos.PrefixOfConfiguredRole`.
- Cargos.AtualizarNickname: exceptions other than a refused edit are not modelled. `member.name.split('#')[0]` is taken as the account name.
- Sets.OnSubmit: the request embed's title, date and the staff view are not modelled. The 200-message scan and the 100-message pending list take the channel history, newest first, as a parameter.
- Sets.AprovarSet: the approval and refusal embeds and DMs are not modelled. `recusar_set` only posts text and deletes the request, so it is not modelled.
- Limpeza.RealizarLimpeza: the channel history is a sequence of message ids, newest first. It does not include the bot's own menu and confirmation messages, which the menu path may also purge. The confirmation report and its deletion are text and timers.
- Limpeza.LimparRapido: discord.py's argument conversion is not modelled. This covers a non-integer quantity, an unknown channel mention and `limpar_error`. The model starts from converted arguments.
- Limpeza.EnviarModal: the 3- and 20-character field limits are enforced by Discord before `on_submit` runs, so the model accepts any string. `Limpeza.ThreeDigitsInRange` states what the 3-character limit implies.
- The TOTAL field's value length is not bounded by the model.
- The `administrator` permission gate (`has_permissions(administrator=True)`) is an `isAdmin` input of `Sets.ApprovalChannels.Aprovamento`, `Sets.SetsPendentes` and `Panels.PaineisAtivos.SetupPainel`. The other commands behind it are `setup_cargos`, `verificar_prefixo`, `cargos_cache`, `recarregar_cache`, `rec_stats`, `rec_reset`, `setup_set`, `setup_gestor` and `verificar_acesso`. They only send panels or reports, so they are not modelled. Of `rec_reset` only the confirmation button is modelled (`PainelRec.ConfirmarReset`); its author is the administrator who ran the command.

## Findings

| source | as written | input that shows it | evidently intended | confidence | as-written member | corrected member |
|---|---|---|---|---|---|---|
| modules/limpeza.py:169-176 | `purge(limit=quantidade + 1)` and a report of `len(deleted) - 1`, whatever the target channel | `!limpar canal #other 1` on a channel holding [11, 12, 13] deletes 11 and 12 and reports 1; `!limpar rapido 5 #empty` reports -1 | the extra message is the command itself, so it is counted only when the command is in the purged channel: delete the command plus `quantidade` others, and report the others | not executed | Limpeza.OtherChannelOverPurges | Limpeza.CorrectedCleanupSpec |
| modules/painel_hierarquia.py:139-149 | for an empty rank, `valor` is set to the "Nenhum membro" text and never used; every `add_field` of a rank is in the `else` branch | a guild where rank "00" has no member: the panel has no "00" field; a guild with no ranked member shows only TOTAL | the comment "MOSTRAR TODOS OS CARGOS, mesmo com 0 membros" asks for every rank to be shown, an empty one with "Nenhum membro" | not executed | PainelHierarquia.EmptyRanksAreHidden | PainelHierarquia.CorrectedPanelShowsEveryRank |
