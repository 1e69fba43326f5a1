/** The role cache of `modules/config_cargos.py`: per guild, the roles by name, the
    roles by id and the role hierarchy, rebuilt wholesale from the guild's role list
    whenever the platform reports a change, and queried by the other modules. */
module ConfigCargos {
  import opened Text
  import opened Platform
  import opened Sorting

  // ---------------------------------------------------------------------------
  // What a rebuild computes

  /** `{role.name: role for role in roles}`: the names in the order a dict keeps
      them (first appearance) and the role each name maps to (the last one with it). */
  datatype NameCache = NameCache(keys: seq<string>, table: map<string, Role>)

  /** The keys of a name cache are its table's names, each once, and each name maps
      to a role of that name. */
  predicate WellFormed(c: NameCache)
  {
    (forall k :: 0 <= k < |c.keys| ==> c.keys[k] in c.table)
    && (forall n :: n in c.table ==> n in c.keys && c.table[n].name == n)
    && forall i, j :: 0 <= i < j < |c.keys| ==> c.keys[i] != c.keys[j]
  }

  /** The dict comprehension, one role at a time from the front. */
  function BuildNames(roles: seq<Role>): (c: NameCache)
    ensures WellFormed(c)
    decreases |roles|
  {
    if roles == [] then NameCache([], map[])
    else
      var prev := BuildNames(roles[..|roles| - 1]);
      var last := roles[|roles| - 1];
      NameCache(if last.name in prev.table then prev.keys else prev.keys + [last.name],
                prev.table[last.name := last])
  }

  /** A name is cached exactly when some role has it. */
  lemma {:induction false} BuildNamesHas(roles: seq<Role>, n: string)
    ensures n in BuildNames(roles).table <==> exists k :: 0 <= k < |roles| && roles[k].name == n
    decreases |roles|
  {
    if roles != [] {
      var init := roles[..|roles| - 1];
      BuildNamesHas(init, n);
      if roles[|roles| - 1].name != n {
        if k :| 0 <= k < |roles| && roles[k].name == n {
          assert k < |init| && init[k].name == n;
        }
        if k :| 0 <= k < |init| && init[k].name == n {
          assert roles[k].name == n;
        }
      }
    }
  }

  /** A cached name maps to the last role of the list with that name. */
  lemma {:induction false} BuildNamesLast(roles: seq<Role>, n: string) returns (k: nat)
    requires n in BuildNames(roles).table
    ensures k < |roles| && roles[k] == BuildNames(roles).table[n]
    ensures forall j :: k < j < |roles| ==> roles[j].name != n
    decreases |roles|
  {
    assert roles != [];
    var init := roles[..|roles| - 1];
    var last := roles[|roles| - 1];
    assert BuildNames(roles).table == BuildNames(init).table[last.name := last];
    if last.name == n {
      k := |roles| - 1;
    } else {
      k := BuildNamesLast(init, n);
      assert roles[k] == init[k];
      NoNameAfter(roles, init, k, n);
    }
  }

  /** A name absent after position `k` of the list but the last, and absent from the last. */
  lemma NoNameAfter(roles: seq<Role>, init: seq<Role>, k: nat, n: string)
    requires 0 < |roles| && init == roles[..|roles| - 1] && roles[|roles| - 1].name != n
    requires forall j :: k < j < |init| ==> init[j].name != n
    ensures forall j :: k < j < |roles| ==> roles[j].name != n
  {
    assert forall j :: k < j < |init| ==> init[j] == roles[j];
  }

  /** `{role.id: role for role in roles}`: the last role with each id. */
  function BuildIds(roles: seq<Role>): map<int, Role>
    decreases |roles|
  {
    if roles == [] then map[]
    else BuildIds(roles[..|roles| - 1])[roles[|roles| - 1].id := roles[|roles| - 1]]
  }

  /** Every cached id maps to a role of the list with that id, and every role's id
      is cached. */
  lemma {:induction false} BuildIdsSpec(roles: seq<Role>)
    ensures forall id :: id in BuildIds(roles) ==> BuildIds(roles)[id].id == id && BuildIds(roles)[id] in roles
    ensures forall k :: 0 <= k < |roles| ==> roles[k].id in BuildIds(roles)
    decreases |roles|
  {
    if roles != [] {
      var init := roles[..|roles| - 1];
      var last := roles[|roles| - 1];
      BuildIdsSpec(init);
      var t, u := BuildIds(init), BuildIds(roles);
      assert u == t[last.id := last];
      forall id | id in u ensures u[id].id == id && u[id] in roles {
        if id != last.id {
          assert u[id] == t[id] && t[id] in init;
          assert roles == init + [last];
        }
      }
      forall k | 0 <= k < |roles| ensures roles[k].id in u {
        if k < |init| { assert roles[k] == init[k]; }
      }
    }
  }

  function Position(r: Role): int { r.position }

  /** `sorted(roles, key=position, reverse=True)`. */
  function BuildHierarchy(roles: seq<Role>): (h: seq<Role>)
    ensures SortedDesc(h, Position)
    ensures multiset(h) == multiset(roles)
  {
    SortDesc(roles, Position)
  }

  // ---------------------------------------------------------------------------
  // Lookups over one guild's caches

  /** The case-insensitive pass of `get_cargo_por_nome`: the role of the first cached
      name, in dict order, whose lower-case form is `lname`. */
  function FirstCaseInsensitive(keys: seq<string>, table: map<string, Role>, lname: string): (r: Option<Role>)
    requires forall k :: 0 <= k < |keys| ==> keys[k] in table
    ensures r.None? <==> forall k :: 0 <= k < |keys| ==> Lower(keys[k]) != lname
    ensures r.Some? ==> exists k :: 0 <= k < |keys| && Lower(keys[k]) == lname && r.value == table[keys[k]]
                          && forall j :: 0 <= j < k ==> Lower(keys[j]) != lname
  {
    if keys == [] then None
    else if Lower(keys[0]) == lname then Some(table[keys[0]])
    else
      var r := FirstCaseInsensitive(keys[1..], table, lname);
      if r.Some? then LowerMatchInTail(keys, table, lname, r.value); r else r
  }

  /** A first case-insensitive match in the tail, after a head that does not match,
      is a first match of the whole key list. */
  lemma LowerMatchInTail(keys: seq<string>, table: map<string, Role>, lname: string, v: Role)
    requires keys != [] && Lower(keys[0]) != lname
    requires forall k :: 0 <= k < |keys| ==> keys[k] in table
    requires exists k :: 0 <= k < |keys[1..]| && Lower(keys[1..][k]) == lname && v == table[keys[1..][k]]
               && forall j :: 0 <= j < k ==> Lower(keys[1..][j]) != lname
    ensures exists k :: 0 <= k < |keys| && Lower(keys[k]) == lname && v == table[keys[k]]
              && forall j :: 0 <= j < k ==> Lower(keys[j]) != lname
  {
    var k :| 0 <= k < |keys[1..]| && Lower(keys[1..][k]) == lname && v == table[keys[1..][k]]
             && forall j :: 0 <= j < k ==> Lower(keys[1..][j]) != lname;
    assert forall j :: 1 <= j < k + 1 ==> keys[j] == keys[1..][j - 1];
    assert keys[k + 1] == keys[1..][k];
  }

  /** Some keyword, lower-cased, is a substring of the lower-cased name. */
  predicate MatchesKeyword(name: string, keywords: seq<string>)
  {
    exists w :: 0 <= w < |keywords| && Contains(Lower(name), Lower(keywords[w]))
  }

  /** The roles of `get_cargos_por_categoria`, in dict order. */
  function RolesMatching(keys: seq<string>, table: map<string, Role>, keywords: seq<string>): (r: seq<Role>)
    requires forall k :: 0 <= k < |keys| ==> keys[k] in table
    ensures |r| <= |keys|
    ensures forall x :: x in r <==> exists k :: 0 <= k < |keys| && x == table[keys[k]] && MatchesKeyword(keys[k], keywords)
  {
    if keys == [] then []
    else
      var rest := RolesMatching(keys[1..], table, keywords);
      assert forall k :: 1 <= k < |keys| ==> keys[k] == keys[1..][k - 1];
      (if MatchesKeyword(keys[0], keywords) then [table[keys[0]]] else []) + rest
  }

  /** One more cached name appends its role exactly when it matches: the results
      come in the order of the cache's keys. */
  lemma {:induction false} RolesMatchingSnoc(keys: seq<string>, table: map<string, Role>, keywords: seq<string>, n: string)
    requires forall k :: 0 <= k < |keys| ==> keys[k] in table
    requires n in table
    ensures RolesMatching(keys + [n], table, keywords)
      == RolesMatching(keys, table, keywords) + (if MatchesKeyword(n, keywords) then [table[n]] else [])
    decreases |keys|
  {
    if keys == [] {
      assert keys + [n] == [n];
    } else {
      assert (keys + [n])[1..] == keys[1..] + [n];
      RolesMatchingSnoc(keys[1..], table, keywords, n);
    }
  }

  /** On a well-formed name cache no role is listed twice: distinct names hold
      distinct roles. */
  lemma {:induction false} RolesMatchingDistinct(keys: seq<string>, table: map<string, Role>, keywords: seq<string>)
    requires forall k :: 0 <= k < |keys| ==> keys[k] in table && table[keys[k]].name == keys[k]
    requires forall i, j :: 0 <= i < j < |keys| ==> keys[i] != keys[j]
    ensures forall i, j :: 0 <= i < j < |RolesMatching(keys, table, keywords)| ==>
      RolesMatching(keys, table, keywords)[i] != RolesMatching(keys, table, keywords)[j]
    decreases |keys|
  {
    if keys != [] {
      var tail := keys[1..];
      assert forall k :: 0 <= k < |tail| ==> tail[k] == keys[k + 1];
      RolesMatchingDistinct(tail, table, keywords);
      var rest := RolesMatching(tail, table, keywords);
      var r := RolesMatching(keys, table, keywords);
      if MatchesKeyword(keys[0], keywords) {
        assert r == [table[keys[0]]] + rest;
        forall j | 0 < j < |r| ensures r[0] != r[j] {
          assert r[j] == rest[j - 1] && rest[j - 1] in rest;
          var k :| 0 <= k < |tail| && rest[j - 1] == table[tail[k]] && MatchesKeyword(tail[k], keywords);
          assert table[tail[k]].name == keys[k + 1] != keys[0];
        }
        forall i, j | 0 < i < j < |r| ensures r[i] != r[j] {
          assert r[i] == rest[i - 1] && r[j] == rest[j - 1];
          assert 0 <= i - 1 < j - 1 < |rest|;
        }
      } else {
        assert r == rest;
      }
    }
  }

  /** The outer loop of `get_cargos_por_categoria`: every cached name in dict order,
      its role appended when some keyword matches. */
  method CollectCategoria(keys: seq<string>, table: map<string, Role>, keywords: seq<string>) returns (resultados: seq<Role>)
    requires forall k :: 0 <= k < |keys| ==> keys[k] in table
    ensures resultados == RolesMatching(keys, table, keywords)
  {
    resultados := [];
    var i := 0;
    while i < |keys|
      invariant 0 <= i <= |keys|
      invariant resultados == RolesMatching(keys[..i], table, keywords)
    {
      var found := AnyKeyword(keys[i], keywords);
      RolesMatchingSnoc(keys[..i], table, keywords, keys[i]);
      assert keys[..i + 1] == keys[..i] + [keys[i]];
      if found {
        resultados := resultados + [table[keys[i]]];
      }
      i := i + 1;
    }
    assert keys[..i] == keys;
  }

  /** The inner loop of `get_cargos_por_categoria` on one name: stop at the first
      keyword that matches. */
  method AnyKeyword(name: string, keywords: seq<string>) returns (found: bool)
    ensures found == MatchesKeyword(name, keywords)
  {
    var lname := Lower(name);
    var w := 0;
    while w < |keywords|
      invariant 0 <= w <= |keywords|
      invariant forall v :: 0 <= v < w ==> !Contains(lname, Lower(keywords[v]))
    {
      if Contains(lname, Lower(keywords[w])) {
        return true;
      }
      w := w + 1;
    }
    return false;
  }

  /** The keywords of `get_cargos_staff`. */
  const StaffKeywords: seq<string> := [
    "owner", "adm", "gerente", "lider", "mod", "staff",
    "\U{1F451}", "\U{1F511}", "\U{1F6E1}\U{FE0F}", "respons\U{E1}vel", "resp"
  ]

  // ---------------------------------------------------------------------------
  // The manager

  class CargosManager {
    /** `cargos_cache`: guild id to its name cache. */
    var byName: map<int, NameCache>
    /** `cargos_por_id`: guild id to its roles by id. */
    var byId: map<int, map<int, Role>>
    /** `hierarquia_cache`: guild id to its roles, highest first. */
    var hierarchy: map<int, seq<Role>>

    /** Every name cache is well formed. */
    ghost predicate Valid()
      reads this
    {
      forall g :: g in byName ==> WellFormed(byName[g])
    }

    constructor()
      ensures byName == map[] && byId == map[] && hierarchy == map[]
      ensures Valid()
    {
      byName := map[];
      byId := map[];
      hierarchy := map[];
    }

    /** `atualizar_cache_guild`: the three caches of the guild are replaced by what
        its current role list gives; no other guild is touched. */
    method AtualizarCacheGuild(guild: int, roles: seq<Role>)
      modifies this
      ensures byName == old(byName)[guild := BuildNames(roles)]
      ensures byId == old(byId)[guild := BuildIds(roles)]
      ensures hierarchy == old(hierarchy)[guild := BuildHierarchy(roles)]
      ensures old(Valid()) ==> Valid()
    {
      byName := byName[guild := BuildNames(roles)];
      byId := byId[guild := BuildIds(roles)];
      hierarchy := hierarchy[guild := BuildHierarchy(roles)];
    }

    /** `atualizar_todos_servidores`: every guild of the list is rebuilt in turn
        (see `RebuildAllSpec` for what that leaves in each cache). */
    method AtualizarTodosServidores(guilds: seq<(int, seq<Role>)>)
      modifies this
      ensures byName == RebuildAll(old(byName), guilds, BuildNames)
      ensures byId == RebuildAll(old(byId), guilds, BuildIds)
      ensures hierarchy == RebuildAll(old(hierarchy), guilds, BuildHierarchy)
      ensures old(Valid()) ==> Valid()
    {
      var i := 0;
      while i < |guilds|
        invariant 0 <= i <= |guilds|
        invariant byName == RebuildAll(old(byName), guilds[..i], BuildNames)
        invariant byId == RebuildAll(old(byId), guilds[..i], BuildIds)
        invariant hierarchy == RebuildAll(old(hierarchy), guilds[..i], BuildHierarchy)
        invariant old(Valid()) ==> Valid()
      {
        assert guilds[..i + 1][..i] == guilds[..i];
        AtualizarCacheGuild(guilds[i].0, guilds[i].1);
        i := i + 1;
      }
      assert guilds[..i] == guilds;
    }

    /** `get_cargo_por_nome`: nothing for an uncached guild; the role of that exact
        name when there is one; else the first role whose name matches ignoring case. */
    function GetCargoPorNome(guild: int, nome: string): (r: Option<Role>)
      reads this
      requires Valid()
      ensures guild !in byName ==> r.None?
      ensures guild in byName && nome in byName[guild].table ==> r == Some(byName[guild].table[nome])
      ensures guild in byName && nome !in byName[guild].table ==>
        r == FirstCaseInsensitive(byName[guild].keys, byName[guild].table, Lower(nome))
    {
      if guild !in byName then None
      else if nome in byName[guild].table then Some(byName[guild].table[nome])
      else FirstCaseInsensitive(byName[guild].keys, byName[guild].table, Lower(nome))
    }

    /** `get_cargo_por_id`. */
    function GetCargoPorId(guild: int, id: int): (r: Option<Role>)
      reads this
      ensures r.Some? <==> guild in byId && id in byId[guild]
      ensures r.Some? ==> r.value == byId[guild][id]
    {
      if guild in byId && id in byId[guild] then Some(byId[guild][id]) else None
    }

    /** `get_cargos_por_categoria`: the cached roles, in dict order, whose name
        contains one of the keywords ignoring case; none for an uncached guild. */
    function GetCargosPorCategoria(guild: int, keywords: seq<string>): (r: seq<Role>)
      reads this
      requires Valid()
      ensures guild !in byName ==> r == []
      ensures guild in byName ==> r == RolesMatching(byName[guild].keys, byName[guild].table, keywords)
      ensures forall x :: x in r <==> (guild in byName && x.name in byName[guild].table
                                      && x == byName[guild].table[x.name] && MatchesKeyword(x.name, keywords))
      ensures forall i, j :: 0 <= i < j < |r| ==> r[i] != r[j]
    {
      if guild !in byName then []
      else
        var c := byName[guild];
        RolesMatchingDistinct(c.keys, c.table, keywords);
        RolesMatching(c.keys, c.table, keywords)
    }

    /** `get_cargos_staff`. */
    function GetCargosStaff(guild: int): (r: seq<Role>)
      reads this
      requires Valid()
      ensures r == GetCargosPorCategoria(guild, StaffKeywords)
    {
      GetCargosPorCategoria(guild, StaffKeywords)
    }

    /** `get_hierarquia`: the cached hierarchy, or nothing for an uncached guild. */
    function GetHierarquia(guild: int): (h: seq<Role>)
      reads this
      ensures guild in hierarchy ==> h == hierarchy[guild]
      ensures guild !in hierarchy ==> h == []
    {
      if guild in hierarchy then hierarchy[guild] else []
    }

    /** `cargo_e_maior_que`: `hierarquia.index` finds the first entry equal to the
        role (roles compare by id); a role that is not there makes the answer false. */
    function CargoEMaiorQue(guild: int, cargo1: Role, cargo2: Role): (b: bool)
      reads this
      ensures b <==> IndexOfId(GetHierarquia(guild), cargo1.id).Some? && IndexOfId(GetHierarquia(guild), cargo2.id).Some?
                     && IndexOfId(GetHierarquia(guild), cargo1.id).value < IndexOfId(GetHierarquia(guild), cargo2.id).value
    {
      var h := GetHierarquia(guild);
      if h == [] then false
      else
        var i1 := IndexOfId(h, cargo1.id);
        var i2 := IndexOfId(h, cargo2.id);
        i1.Some? && i2.Some? && i1.value < i2.value
    }
  }

  /** One cache after rebuilding each guild of the list in turn with `build`. */
  function RebuildAll<V>(cache: map<int, V>, guilds: seq<(int, seq<Role>)>, build: seq<Role> -> V): map<int, V>
    decreases |guilds|
  {
    if guilds == [] then cache
    else RebuildAll(cache, guilds[..|guilds| - 1], build)[guilds[|guilds| - 1].0 := build(guilds[|guilds| - 1].1)]
  }

  /** A guild that is not listed keeps its entry, or its absence. */
  lemma {:induction false} RebuildAllKeeps<V>(cache: map<int, V>, guilds: seq<(int, seq<Role>)>, build: seq<Role> -> V, g: int)
    requires forall k :: 0 <= k < |guilds| ==> guilds[k].0 != g
    ensures g in RebuildAll(cache, guilds, build) <==> g in cache
    ensures g in cache ==> RebuildAll(cache, guilds, build)[g] == cache[g]
    decreases |guilds|
  {
    if guilds != [] {
      var init := guilds[..|guilds| - 1];
      assert forall k :: 0 <= k < |init| ==> init[k] == guilds[k];
      RebuildAllKeeps(cache, init, build, g);
    }
  }

  /** A listed guild ends with what its last listing builds. */
  lemma {:induction false} RebuildAllLast<V>(cache: map<int, V>, guilds: seq<(int, seq<Role>)>, build: seq<Role> -> V, k: nat)
    requires k < |guilds|
    requires forall j :: k < j < |guilds| ==> guilds[j].0 != guilds[k].0
    ensures guilds[k].0 in RebuildAll(cache, guilds, build)
    ensures RebuildAll(cache, guilds, build)[guilds[k].0] == build(guilds[k].1)
    decreases |guilds|
  {
    if k < |guilds| - 1 {
      var init := guilds[..|guilds| - 1];
      assert forall j :: 0 <= j < |init| ==> init[j] == guilds[j];
      RebuildAllLast(cache, init, build, k);
    }
  }

  /** `list.index` on roles, which compare by id: the first position holding the id. */
  function IndexOfId(h: seq<Role>, id: int): (r: Option<nat>)
    ensures r.Some? ==> r.value < |h| && h[r.value].id == id && forall j :: 0 <= j < r.value ==> h[j].id != id
    ensures r.None? ==> forall j :: 0 <= j < |h| ==> h[j].id != id
  {
    if h == [] then None
    else if h[0].id == id then Some(0)
    else
      var r := IndexOfId(h[1..], id);
      if r.Some? then Some(r.value + 1) else None
  }

  // ---------------------------------------------------------------------------
  // Properties of the manager

  /** Rebuilding one guild leaves the answers for every other guild as they were. */
  lemma RebuildIsPerGuild(m: CargosManager, guild: int, roles: seq<Role>,
                          oldName: map<int, NameCache>, oldId: map<int, map<int, Role>>, oldH: map<int, seq<Role>>,
                          other: int, nome: string, id: int)
    requires m.byName == oldName[guild := BuildNames(roles)]
    requires m.byId == oldId[guild := BuildIds(roles)]
    requires m.hierarchy == oldH[guild := BuildHierarchy(roles)]
    requires other != guild
    requires m.Valid() && (other in oldName ==> WellFormed(oldName[other]))
    ensures m.GetCargoPorNome(other, nome) ==
      (if other !in oldName then None
       else if nome in oldName[other].table then Some(oldName[other].table[nome])
       else FirstCaseInsensitive(oldName[other].keys, oldName[other].table, Lower(nome)))
    ensures m.GetCargoPorId(other, id) == (if other in oldId && id in oldId[other] then Some(oldId[other][id]) else None)
    ensures m.GetHierarquia(other) == (if other in oldH then oldH[other] else [])
  {
  }

  /** After a rebuild the guild's hierarchy is its roles from the highest position
      down, and every role of the guild is found by id. */
  lemma RebuiltGuildAnswers(m: CargosManager, guild: int, roles: seq<Role>, k: nat)
    requires guild in m.hierarchy && m.hierarchy[guild] == BuildHierarchy(roles)
    requires guild in m.byId && m.byId[guild] == BuildIds(roles)
    requires k < |roles|
    ensures SortedDesc(m.GetHierarquia(guild), Position)
    ensures multiset(m.GetHierarquia(guild)) == multiset(roles)
    ensures m.GetCargoPorId(guild, roles[k].id).Some?
  {
    BuildIdsSpec(roles);
  }

  /** `cargo_e_maior_que` is a strict order: irreflexive, asymmetric and transitive. */
  lemma MaiorQueIsStrictOrder(m: CargosManager, guild: int, a: Role, b: Role, c: Role)
    ensures !m.CargoEMaiorQue(guild, a, a)
    ensures m.CargoEMaiorQue(guild, a, b) ==> !m.CargoEMaiorQue(guild, b, a)
    ensures m.CargoEMaiorQue(guild, a, b) && m.CargoEMaiorQue(guild, b, c) ==> m.CargoEMaiorQue(guild, a, c)
  {
  }

  /** On a rebuilt hierarchy, a role ranked above another sits at a position at least
      as high (as the cache saw them). */
  lemma MaiorQueFollowsPosition(m: CargosManager, guild: int, roles: seq<Role>, a: Role, b: Role)
    requires guild in m.hierarchy && m.hierarchy[guild] == BuildHierarchy(roles)
    requires m.CargoEMaiorQue(guild, a, b)
    ensures var h := m.GetHierarquia(guild);
      h[IndexOfId(h, a.id).value].position >= h[IndexOfId(h, b.id).value].position
  {
  }

  // ---------------------------------------------------------------------------
  // The listeners

  /** The triggers of `CargosManagerCog`: role create, role delete and guild update
      always rebuild the guild; a role update only when its name or position changed.
      `roles` is the guild's role list after the event. */
  class CargosManagerCog {
    var manager: CargosManager

    constructor()
      ensures fresh(manager) && manager.Valid()
      ensures manager.byName == map[] && manager.byId == map[] && manager.hierarchy == map[]
    {
      manager := new CargosManager();
    }

    method OnGuildRoleCreate(guild: int, roles: seq<Role>)
      modifies manager
      ensures manager.byName == old(manager.byName)[guild := BuildNames(roles)]
      ensures manager.byId == old(manager.byId)[guild := BuildIds(roles)]
      ensures manager.hierarchy == old(manager.hierarchy)[guild := BuildHierarchy(roles)]
    {
      manager.AtualizarCacheGuild(guild, roles);
    }

    method OnGuildRoleDelete(guild: int, roles: seq<Role>)
      modifies manager
      ensures manager.byName == old(manager.byName)[guild := BuildNames(roles)]
      ensures manager.byId == old(manager.byId)[guild := BuildIds(roles)]
      ensures manager.hierarchy == old(manager.hierarchy)[guild := BuildHierarchy(roles)]
    {
      manager.AtualizarCacheGuild(guild, roles);
    }

    method OnGuildUpdate(guild: int, roles: seq<Role>)
      modifies manager
      ensures manager.byName == old(manager.byName)[guild := BuildNames(roles)]
      ensures manager.byId == old(manager.byId)[guild := BuildIds(roles)]
      ensures manager.hierarchy == old(manager.hierarchy)[guild := BuildHierarchy(roles)]
    {
      manager.AtualizarCacheGuild(guild, roles);
    }

    method OnGuildRoleUpdate(before: Role, after: Role, guild: int, roles: seq<Role>) returns (rebuilt: bool)
      modifies manager
      ensures rebuilt <==> before.name != after.name || before.position != after.position
      ensures rebuilt ==>
        (manager.byName == old(manager.byName)[guild := BuildNames(roles)]
         && manager.byId == old(manager.byId)[guild := BuildIds(roles)]
         && manager.hierarchy == old(manager.hierarchy)[guild := BuildHierarchy(roles)])
      ensures !rebuilt ==>
        (manager.byName == old(manager.byName) && manager.byId == old(manager.byId)
         && manager.hierarchy == old(manager.hierarchy))
    {
      rebuilt := before.name != after.name || before.position != after.position;
      if rebuilt {
        manager.AtualizarCacheGuild(guild, roles);
      }
    }
  }
}
