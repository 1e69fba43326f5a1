/** The hierarchy panel of `modules/painel_hierarquia.py`: every member that is not
    a bot is put under its highest configured rank, each rank gets one field (or
    several when its mention list is too long for one), and a per-guild registry
    remembers which message shows the panel. */
module PainelHierarquia {
  import opened Text
  import opened Platform
  import opened Sorting
  import Tickets
  import Cargos
  import opened Panels

  // ---------------------------------------------------------------------------
  // The configured ranks

  /** An entry of CARGOS_REAIS: the role name, the label shown for it, its emoji
      and its priority (1 is the highest rank). */
  datatype Rank = Rank(nome: string, display: string, emoji: string, prioridade: int)

  /** CARGOS_REAIS, highest rank first. */
  const CargosReais: seq<Rank> := [
    Rank("\U{1F451} | Lider | 00", "00", "\U{1F451}", 1),
    Rank("\U{1F48E} | Lider | 01", "01", "\U{1F48E}", 2),
    Rank("\U{1F46E} | Lider | 02", "02", "\U{1F46E}", 3),
    Rank("\U{1F396}\U{FE0F} | Lider | 03", "03", "\U{1F396}\U{FE0F}", 4),
    Rank("\U{1F396}\U{FE0F} | Gerente Geral", "G.Geral", "\U{1F4CA}", 5),
    Rank("\U{1F396}\U{FE0F} | Gerente De Farm", "G.Farm", "\U{1F33E}", 6),
    Rank("\U{1F396}\U{FE0F} | Gerente De Pista", "G.Pista", "\U{1F3C1}", 7),
    Rank("\U{1F396}\U{FE0F} | Gerente de Recrutamento", "G.Rec", "\U{1F91D}", 8),
    Rank("\U{1F396}\U{FE0F} | Supervisor", "Sup", "\U{1F441}\U{FE0F}", 9),
    Rank("\U{1F396}\U{FE0F} | Recrutador", "Rec", "\U{1F50D}", 10),
    Rank("\U{1F396}\U{FE0F} | Ceo Elite", "Ceo E", "\U{1F451}", 11),
    Rank("\U{1F396}\U{FE0F} | Sub Elite", "Sub E", "\U{2B50}", 12),
    Rank("\U{1F396}\U{FE0F} | Elite", "E", "\U{2728}", 13),
    Rank("\U{1F645}\U{200D}\U{2642}\U{FE0F} | Membro", "M", "\U{1F464}", 14)
  ]

  /** No two ranks share a label. */
  predicate DistinctDisplays(config: seq<Rank>)
  {
    forall i, j :: 0 <= i < j < |config| ==> config[i].display != config[j].display
  }

  /** The labels of CARGOS_REAIS, in order. */
  const CargosReaisDisplays: seq<string> :=
    ["00", "01", "02", "03", "G.Geral", "G.Farm", "G.Pista", "G.Rec", "Sup", "Rec", "Ceo E", "Sub E", "E", "M"]

  /** The configured ranks have distinct labels and the priorities 1 to 14 in order. */
  lemma CargosReaisWellFormed()
    ensures |CargosReais| == 14
    ensures forall k :: 0 <= k < |CargosReais| ==> CargosReais[k].prioridade == k + 1
    ensures forall i, j :: 0 <= i < j < |CargosReais| ==> CargosReais[i].prioridade < CargosReais[j].prioridade
    ensures DistinctDisplays(CargosReais)
  {
    assert forall k :: 0 <= k < 14 ==> CargosReais[k].display == CargosReaisDisplays[k];
    DisplaysDistinct();
  }

  /** No two labels of CARGOS_REAIS coincide. */
  lemma DisplaysDistinct()
    ensures forall i, j :: 0 <= i < j < |CargosReaisDisplays| ==> CargosReaisDisplays[i] != CargosReaisDisplays[j]
  {
  }

  // ---------------------------------------------------------------------------
  // A member's highest rank

  /** A role name stands for a rank when both agree once white space is removed
      (`normalizar_nome` on both sides). */
  predicate SameRank(roleName: string, r: Rank)
  {
    Tickets.NormalizarNome(roleName) == Tickets.NormalizarNome(r.nome)
  }

  /** The inner loop of `encontrar_cargo_mais_alto`: the first configured rank the
      role name stands for. */
  function FirstRank(name: string, config: seq<Rank>): (r: Option<Rank>)
    ensures r.None? <==> forall k :: 0 <= k < |config| ==> !SameRank(name, config[k])
    ensures r.Some? ==> r.value in config && SameRank(name, r.value)
    ensures r.Some? ==> exists k :: 0 <= k < |config| && config[k] == r.value
                          && forall j :: 0 <= j < k ==> !SameRank(name, config[j])
  {
    if config == [] then None
    else if SameRank(name, config[0]) then Some(config[0])
    else
      var r := FirstRank(name, config[1..]);
      assert r.Some? ==> exists k :: 1 <= k < |config| && config[k] == r.value
                          && forall j :: 0 <= j < k ==> !SameRank(name, config[j]) by {
        if r.Some? {
          var k :| 0 <= k < |config[1..]| && config[1..][k] == r.value
                   && forall j :: 0 <= j < k ==> !SameRank(name, config[1..][j]);
          NoEarlierRank(name, config, k);
        }
      }
      r
  }

  /** A first match at `k` in the tail of a list whose head does not match is a
      first match at `k + 1` in the list. */
  lemma NoEarlierRank(name: string, config: seq<Rank>, k: nat)
    requires k + 1 < |config| && !SameRank(name, config[0])
    requires forall j :: 0 <= j < k ==> !SameRank(name, config[1..][j])
    ensures config[k + 1] == config[1..][k]
    ensures forall j :: 0 <= j < k + 1 ==> !SameRank(name, config[j])
  {
    forall j | 1 <= j < k + 1
      ensures !SameRank(name, config[j])
    {
      assert config[j] == config[1..][j - 1];
    }
  }

  /** `cargos_membro`: the rank of every role that has one, in role order. */
  function RanksOf(roles: seq<Role>, config: seq<Rank>): (rs: seq<Rank>)
    ensures forall x :: x in rs ==> x in config
    ensures forall x :: x in rs <==> exists k :: 0 <= k < |roles| && FirstRank(roles[k].name, config) == Some(x)
  {
    if roles == [] then []
    else
      var rest := RanksOf(roles[1..], config);
      assert forall k :: 1 <= k < |roles| ==> roles[k] == roles[1..][k - 1];
      (match FirstRank(roles[0].name, config)
       case Some(x) => [x]
       case None => []) + rest
  }

  /** The sort key that puts the smallest priority first. */
  function Urgency(r: Rank): int { -r.prioridade }

  /** `encontrar_cargo_mais_alto`: the member's ranks sorted by priority (a stable
      sort), and the first of them; none when no role stands for a rank. */
  function EncontrarCargoMaisAlto(roles: seq<Role>, config: seq<Rank>): (r: Option<Rank>)
    ensures r.Some? ==> r.value in config
  {
    var rs := RanksOf(roles, config);
    if rs == [] then None
    else
      var sorted := SortDesc(rs, Urgency);
      assert sorted[0] in multiset(rs);
      Some(sorted[0])
  }

  /** The highest rank is absent exactly when no role stands for a rank; otherwise
      some role stands for it and no role stands for a rank of smaller priority. */
  lemma HighestRankSpec(roles: seq<Role>, config: seq<Rank>)
    ensures EncontrarCargoMaisAlto(roles, config).None? <==>
      forall k :: 0 <= k < |roles| ==> FirstRank(roles[k].name, config).None?
    ensures EncontrarCargoMaisAlto(roles, config).Some? ==>
      exists k :: 0 <= k < |roles| && FirstRank(roles[k].name, config) == EncontrarCargoMaisAlto(roles, config)
    ensures EncontrarCargoMaisAlto(roles, config).Some? ==>
      forall k :: 0 <= k < |roles| && FirstRank(roles[k].name, config).Some? ==>
        EncontrarCargoMaisAlto(roles, config).value.prioridade <= FirstRank(roles[k].name, config).value.prioridade
  {
    var rs := RanksOf(roles, config);
    if rs != [] {
      var top := SortDesc(rs, Urgency)[0];
      assert top in multiset(rs);
      forall k | 0 <= k < |roles| && FirstRank(roles[k].name, config).Some?
        ensures top.prioridade <= FirstRank(roles[k].name, config).value.prioridade
      {
        SortedHeadIsMax(rs, Urgency, FirstRank(roles[k].name, config).value);
      }
    }
  }

  /** Among ranks of equal priority the sort keeps role order, so the highest rank
      is the first of the member's ranks with its priority. */
  lemma HighestRankIsFirstOfItsPriority(roles: seq<Role>, config: seq<Rank>)
    requires EncontrarCargoMaisAlto(roles, config).Some?
    ensures var top := EncontrarCargoMaisAlto(roles, config).value;
      KeyClass(RanksOf(roles, config), Urgency, Urgency(top)) != []
      && KeyClass(RanksOf(roles, config), Urgency, Urgency(top))[0] == top
  {
    var rs := RanksOf(roles, config);
    var sorted := SortDesc(rs, Urgency);
    SortStable(rs, Urgency, Urgency(sorted[0]));
  }

  // ---------------------------------------------------------------------------
  // The name shown for a member

  /** `extrair_nome_limpo`: none for an empty label; the second " | " part, stripped,
      when there are at least two parts; else the whole label. */
  function ExtrairNomeLimpo(nickname: string): (r: Option<string>)
    ensures r.None? <==> nickname == []
  {
    if nickname == [] then None
    else
      var partes := Split(nickname, Cargos.Separator);
      if |partes| >= 2 then Some(Strip(partes[1])) else Some(nickname)
  }

  /** A label "{a} | {b}" (so "Nome | 123" too) gives its second part. */
  lemma NomeLimpoOfTwoParts(a: string, b: string)
    requires Lacks(a, '|') && Lacks(b, '|')
    ensures ExtrairNomeLimpo(a + Cargos.Separator + b) == Some(Strip(b))
  {
    assert Cargos.Separator[1] == '|' && Cargos.Separator[0] != '|';
    Text.SplitCons(a, b, Cargos.Separator, 1);
    Text.SplitSingle(b, Cargos.Separator, 1);
  }

  /** A non-empty label without a bar is shown whole. */
  lemma NomeLimpoOfPlainName(a: string)
    requires a != [] && Lacks(a, '|')
    ensures ExtrairNomeLimpo(a) == Some(a)
  {
    assert Cargos.Separator[1] == '|';
    Text.SplitSingle(a, Cargos.Separator, 1);
  }

  /** The name the nickname system writes is the name the panel shows, stripped. */
  lemma NomeLimpoOfRenderedLabel(prefix: string, name: string, id: string)
    requires Lacks(prefix, '|') && Lacks(name, '|')
    ensures ExtrairNomeLimpo(Cargos.Render(prefix, name, id)) == Some(Strip(name))
  {
    assert Cargos.Separator[1] == '|' && Cargos.Separator[0] != '|';
    var rest := name + Cargos.Separator + id;
    assert Cargos.Render(prefix, name, id) == prefix + Cargos.Separator + rest;
    Text.SplitCons(prefix, rest, Cargos.Separator, 1);
    Text.SplitCons(name, id, Cargos.Separator, 1);
  }

  /** What a bucket keeps of a member: the name shown, its mention and its label. */
  datatype Entry = Entry(nome: string, mention: string, nickCompleto: string)

  /** The entry of a member: the cleaned label, or the account name before any "#"
      when that is empty. */
  function EntryOf(m: Member): Entry
  {
    var limpo := ExtrairNomeLimpo(CurrentLabel(m));
    var nome := if limpo.None? || limpo.value == [] then Split(m.name, "#")[0] else limpo.value;
    Entry(nome, Mention(m.id), CurrentLabel(m))
  }

  // ---------------------------------------------------------------------------
  // Grouping the members

  /** The label of the bucket a member goes to: none for bots and for members with
      no configured rank, else the label of its highest rank. */
  function BucketOf(m: Member, config: seq<Rank>): Option<string>
  {
    if m.isBot then None
    else match EncontrarCargoMaisAlto(m.roles, config)
      case None => None
      case Some(r) => Some(r.display)
  }

  /** The entries bucket `d` holds after the members `ms`, in member order. */
  function Bucket(ms: seq<Member>, config: seq<Rank>, d: string): seq<Entry>
    decreases |ms|
  {
    if ms == [] then []
    else
      Bucket(ms[..|ms| - 1], config, d)
      + (if BucketOf(ms[|ms| - 1], config) == Some(d) then [EntryOf(ms[|ms| - 1])] else [])
  }

  /** The labels of the configured ranks. */
  function Displays(config: seq<Rank>): set<string>
  {
    set k | 0 <= k < |config| :: config[k].display
  }

  /** One more member adds its entry to its own bucket and to no other. */
  lemma BucketSnoc(ms: seq<Member>, i: nat, config: seq<Rank>, d: string)
    requires i < |ms|
    ensures Bucket(ms[..i + 1], config, d)
      == Bucket(ms[..i], config, d) + (if BucketOf(ms[i], config) == Some(d) then [EntryOf(ms[i])] else [])
  {
    assert ms[..i + 1][..i] == ms[..i];
  }

  /** The bucket label of a ranked member is a configured label. */
  lemma BucketIsConfigured(m: Member, config: seq<Rank>)
    requires BucketOf(m, config).Some?
    ensures BucketOf(m, config).value in Displays(config)
  {
    var r := EncontrarCargoMaisAlto(m.roles, config).value;
    var k :| 0 <= k < |config| && config[k] == r;
  }

  /** The loop step of `AgruparMembros`: appending member `i` to its bucket. */
  lemma BucketsStep(members: seq<Member>, i: nat, config: seq<Rank>,
                    before: map<string, seq<Entry>>, after: map<string, seq<Entry>>)
    requires i < |members|
    requires forall d :: d in before ==> before[d] == Bucket(members[..i], config, d)
    requires BucketOf(members[i], config).Some? ==> BucketOf(members[i], config).value in before
    requires after == (match BucketOf(members[i], config)
                       case Some(d) => before[d := before[d] + [EntryOf(members[i])]]
                       case None => before)
    ensures forall d :: d in after ==> after[d] == Bucket(members[..i + 1], config, d)
  {
    forall d | d in after
      ensures after[d] == Bucket(members[..i + 1], config, d)
    {
      BucketSnoc(members, i, config, d);
    }
  }

  /** The body of the member loop: a bot is skipped, a member with a rank is
      appended to the list of its highest rank. */
  method ColocarMembro(buckets: map<string, seq<Entry>>, member: Member, config: seq<Rank>)
    returns (after: map<string, seq<Entry>>)
    requires BucketOf(member, config).Some? ==> BucketOf(member, config).value in buckets
    ensures after.Keys == buckets.Keys
    ensures after == (match BucketOf(member, config)
                      case Some(d) => buckets[d := buckets[d] + [EntryOf(member)]]
                      case None => buckets)
  {
    after := buckets;
    if !member.isBot {
      var cargo := EncontrarCargoMaisAlto(member.roles, config);
      if cargo.Some? {
        var display := cargo.value.display;
        after := buckets[display := buckets[display] + [EntryOf(member)]];
      }
    }
  }

  /** The member loop of `criar_embed_hierarquia`: `membros_por_cargo` starts with
      an empty list for every label and each member that is not a bot is appended
      to the list of its highest rank. */
  method AgruparMembros(members: seq<Member>, config: seq<Rank>) returns (buckets: map<string, seq<Entry>>)
    ensures buckets.Keys == Displays(config)
    ensures forall d :: d in buckets ==> buckets[d] == Bucket(members, config, d)
  {
    buckets := map d | d in Displays(config) :: [];
    for i := 0 to |members|
      invariant buckets.Keys == Displays(config)
      invariant forall d :: d in buckets ==> buckets[d] == Bucket(members[..i], config, d)
    {
      var member := members[i];
      ghost var before := buckets;
      if BucketOf(member, config).Some? {
        BucketIsConfigured(member, config);
      }
      buckets := ColocarMembro(buckets, member, config);
      BucketsStep(members, i, config, before, buckets);
    }
    assert members[..|members|] == members;
  }

  /** The number of members that are not bots and hold a configured rank. */
  function RankedCount(ms: seq<Member>, config: seq<Rank>): nat
    decreases |ms|
  {
    if ms == [] then 0
    else RankedCount(ms[..|ms| - 1], config) + (if BucketOf(ms[|ms| - 1], config).Some? then 1 else 0)
  }

  /** The total of `criar_embed_hierarquia`: the bucket sizes over the ranks `rs`. */
  function SumBuckets(ms: seq<Member>, config: seq<Rank>, rs: seq<Rank>): nat
  {
    if rs == [] then 0 else |Bucket(ms, config, rs[0].display)| + SumBuckets(ms, config, rs[1..])
  }

  /** How many of the ranks `rs` carry the label `d`. */
  function Occurrences(rs: seq<Rank>, d: string): nat
  {
    if rs == [] then 0 else (if rs[0].display == d then 1 else 0) + Occurrences(rs[1..], d)
  }

  /** A label carried by exactly one rank of a list of distinct labels. */
  lemma {:induction false} OccursOnce(rs: seq<Rank>, k: nat)
    requires DistinctDisplays(rs) && k < |rs|
    ensures Occurrences(rs, rs[k].display) == 1
  {
    if k == 0 {
      NotOccurring(rs[1..], rs[0].display);
    } else {
      assert DistinctDisplays(rs[1..]);
      assert rs[1..][k - 1] == rs[k];
      OccursOnce(rs[1..], k - 1);
    }
  }

  lemma {:induction false} NotOccurring(rs: seq<Rank>, d: string)
    requires forall j :: 0 <= j < |rs| ==> rs[j].display != d
    ensures Occurrences(rs, d) == 0
  {
    if rs != [] {
      NotOccurring(rs[1..], d);
    }
  }

  /** One more member adds, to the sum over `rs`, one per rank of `rs` carrying the
      label of its bucket. */
  lemma {:induction false} SumBucketsSnoc(ms: seq<Member>, config: seq<Rank>, rs: seq<Rank>)
    requires ms != []
    ensures SumBuckets(ms, config, rs) == SumBuckets(ms[..|ms| - 1], config, rs)
      + (match BucketOf(ms[|ms| - 1], config) case Some(d) => Occurrences(rs, d) case None => 0)
  {
    if rs != [] {
      SumBucketsSnoc(ms, config, rs[1..]);
    }
  }

  lemma {:induction false} SumOfNoMembers(config: seq<Rank>, rs: seq<Rank>)
    ensures SumBuckets([], config, rs) == 0
  {
    if rs != [] {
      SumOfNoMembers(config, rs[1..]);
    }
  }

  /** With every label listed once in `rs`, the sum of the bucket sizes is the
      number of ranked members: every such member is in exactly one bucket. */
  lemma {:induction false} TotalIsRankedCount(ms: seq<Member>, config: seq<Rank>, rs: seq<Rank>)
    requires DistinctDisplays(rs)
    requires Displays(config) <= Displays(rs)
    ensures SumBuckets(ms, config, rs) == RankedCount(ms, config)
    decreases |ms|
  {
    if ms == [] {
      SumOfNoMembers(config, rs);
    } else {
      TotalIsRankedCount(ms[..|ms| - 1], config, rs);
      SumBucketsSnoc(ms, config, rs);
      var m := ms[|ms| - 1];
      if BucketOf(m, config).Some? {
        BucketIsConfigured(m, config);
        var j :| 0 <= j < |rs| && rs[j].display == BucketOf(m, config).value;
        OccursOnce(rs, j);
      }
    }
  }

  /** Ranks listed in priority order are left as they are by the sort, and the
      panel's total then counts every ranked member once. CARGOS_REAIS is such a
      list (`CargosReaisWellFormed`). */
  lemma PanelTotalCountsEveryRankedMember(ms: seq<Member>, config: seq<Rank>)
    requires forall i, j :: 0 <= i < j < |config| ==> config[i].prioridade <= config[j].prioridade
    requires DistinctDisplays(config)
    ensures SortDesc(config, Urgency) == config
    ensures SumBuckets(ms, config, SortDesc(config, Urgency)) == RankedCount(ms, config)
  {
    assert SortedDesc(config, Urgency);
    SortSorted(config, Urgency);
    TotalIsRankedCount(ms, config, config);
  }

  // ---------------------------------------------------------------------------
  // Splitting a long mention list

  const MentionSep: string := ", "

  /** The state of the chunking loop of `criar_embed_hierarquia` after the mentions
      `ms`: the closed groups and the open one (`parte_atual`). A mention that would
      take the open group past 1000 characters closes it and opens a new one. */
  function ChunkState(ms: seq<string>): (st: (seq<seq<string>>, seq<string>))
    ensures ms != [] ==> st.1 != []
    decreases |ms|
  {
    if ms == [] then ([], [])
    else
      var prev := ChunkState(ms[..|ms| - 1]);
      var m := ms[|ms| - 1];
      if |Join(prev.1, MentionSep)| + |m| + 2 > 1000 then (prev.0 + [prev.1], [m])
      else (prev.0, prev.1 + [m])
  }

  /** The groups of `partes`: the closed ones and the open one when it is not empty. */
  function Groups(ms: seq<string>): seq<seq<string>>
  {
    var st := ChunkState(ms);
    if st.1 != [] then st.0 + [st.1] else st.0
  }

  /** Each group joined with ", ". */
  function JoinEach(gs: seq<seq<string>>): (r: seq<string>)
    ensures |r| == |gs|
    ensures forall k :: 0 <= k < |gs| ==> r[k] == Join(gs[k], MentionSep)
    decreases |gs|
  {
    if gs == [] then [] else JoinEach(gs[..|gs| - 1]) + [Join(gs[|gs| - 1], MentionSep)]
  }

  /** `partes`: the texts of the fields a long mention list is spread over. */
  function Partes(ms: seq<string>): (ps: seq<string>)
    ensures ms != [] ==> ps != []
  {
    JoinEach(Groups(ms))
  }

  /** The groups one after the other. */
  function Flatten(gs: seq<seq<string>>): seq<string>
    decreases |gs|
  {
    if gs == [] then [] else Flatten(gs[..|gs| - 1]) + gs[|gs| - 1]
  }

  /** The chunking loop: `partes`, `parte_atual` and `tamanho_atual` step by step,
      then the last open group. */
  method DividirMencoes(mentions: seq<string>) returns (partes: seq<string>)
    ensures partes == Partes(mentions)
  {
    partes := [];
    var parteAtual: seq<string> := [];
    var tamanhoAtual := 0;
    ghost var groups: seq<seq<string>> := [];
    for i := 0 to |mentions|
      invariant (groups, parteAtual) == ChunkState(mentions[..i])
      invariant partes == JoinEach(groups)
      invariant tamanhoAtual == |Join(parteAtual, MentionSep)|
    {
      assert mentions[..i + 1][..i] == mentions[..i];
      var menc := mentions[i];
      JoinSnoc(parteAtual, menc, MentionSep);
      if tamanhoAtual + |menc| + 2 > 1000 {
        partes := partes + [Join(parteAtual, MentionSep)];
        groups := groups + [parteAtual];
        parteAtual := [menc];
        tamanhoAtual := |menc|;
      } else {
        if parteAtual != [] {
          tamanhoAtual := tamanhoAtual + |menc| + 2;
        } else {
          tamanhoAtual := tamanhoAtual + |menc|;
        }
        parteAtual := parteAtual + [menc];
      }
    }
    assert mentions[..|mentions|] == mentions;
    if parteAtual != [] {
      partes := partes + [Join(parteAtual, MentionSep)];
    }
  }

  /** Nothing is lost or reordered: the closed groups and the open one, in order,
      are the mentions. */
  lemma {:induction false} ChunkStateCovers(ms: seq<string>)
    ensures Flatten(ChunkState(ms).0) + ChunkState(ms).1 == ms
    decreases |ms|
  {
    if ms != [] {
      var init := ms[..|ms| - 1];
      ChunkStateCovers(init);
      var prev := ChunkState(init);
      var m := ms[|ms| - 1];
      assert ms == init + [m];
      assert ms[..|ms| - 1] == init;
      var f := Flatten(prev.0);
      assert f + prev.1 == init;
      if |Join(prev.1, MentionSep)| + |m| + 2 > 1000 {
        var gs := prev.0 + [prev.1];
        assert ChunkState(ms) == (gs, [m]);
        assert gs[..|gs| - 1] == prev.0;
        assert Flatten(gs) == f + prev.1;
      } else {
        assert ChunkState(ms) == (prev.0, prev.1 + [m]);
        assert f + (prev.1 + [m]) == (f + prev.1) + [m];
      }
    }
  }

  /** Mentions of at most 998 characters make every group non-empty and at most
      1000 characters long once joined. */
  lemma {:induction false} ChunkStateBounds(ms: seq<string>)
    requires forall k :: 0 <= k < |ms| ==> |ms[k]| <= 998
    ensures forall k :: 0 <= k < |ChunkState(ms).0| ==>
      ChunkState(ms).0[k] != [] && |Join(ChunkState(ms).0[k], MentionSep)| <= 1000
    ensures |Join(ChunkState(ms).1, MentionSep)| <= 1000
    decreases |ms|
  {
    if ms != [] {
      var init := ms[..|ms| - 1];
      ChunkStateBounds(init);
      var prev := ChunkState(init);
      var m := ms[|ms| - 1];
      JoinSnoc(prev.1, m, MentionSep);
      if |Join(prev.1, MentionSep)| + |m| + 2 > 1000 {
        assert prev.1 != [];
      }
    }
  }

  /** Joining the joined groups is joining their concatenation. */
  lemma {:induction false} JoinFlatten(gs: seq<seq<string>>)
    requires forall k :: 0 <= k < |gs| ==> gs[k] != []
    ensures Join(JoinEach(gs), MentionSep) == Join(Flatten(gs), MentionSep)
    decreases |gs|
  {
    if gs != [] {
      var init := gs[..|gs| - 1];
      var g := gs[|gs| - 1];
      JoinFlatten(init);
      assert JoinEach(gs) == JoinEach(init) + [Join(g, MentionSep)];
      assert Flatten(gs) == Flatten(init) + g;
      JoinSnoc(JoinEach(init), Join(g, MentionSep), MentionSep);
      if init == [] {
        assert Flatten(gs) == g;
      } else {
        assert Flatten(init) != [] by {
          assert init[|init| - 1] != [];
        }
        JoinAppend(Flatten(init), g, MentionSep);
      }
    }
  }

  /** With mentions of at most 998 characters, every part holds at most 1000
      characters and joining the parts with ", " gives back the whole list. */
  lemma PartesSplitTheList(ms: seq<string>)
    requires forall k :: 0 <= k < |ms| ==> |ms[k]| <= 998
    ensures forall k :: 0 <= k < |Partes(ms)| ==> |Partes(ms)[k]| <= 1000
    ensures Join(Partes(ms), MentionSep) == Join(ms, MentionSep)
  {
    ChunkStateBounds(ms);
    ChunkStateCovers(ms);
    var st := ChunkState(ms);
    var gs := Groups(ms);
    if st.1 != [] {
      assert gs == st.0 + [st.1];
      assert gs[..|gs| - 1] == st.0;
      assert Flatten(gs) == Flatten(st.0) + st.1;
      assert forall k :: 0 <= k < |gs| ==> gs[k] == if k < |st.0| then st.0[k] else st.1;
    } else {
      assert gs == st.0;
      assert Flatten(gs) == Flatten(gs) + st.1;
    }
    assert Flatten(gs) == ms;
    JoinFlatten(gs);
    assert Partes(ms) == JoinEach(gs);
  }

  // ---------------------------------------------------------------------------
  // The fields of the panel

  /** An embed field: its title and its text. */
  datatype Field = Field(name: string, value: string)

  const NenhumMembro: string := "`Nenhum membro`"

  /** The title of a rank's first field, "{emoji} **{display}** ─ `{n}`". */
  function Heading(r: Rank, n: nat): string
  {
    r.emoji + " **" + r.display + "** \U{2500} `" + NatToString(n) + "`"
  }

  /** The title of a continuation field, "{emoji} **{display}** (cont. {i})". */
  function ContHeading(r: Rank, i: nat): string
  {
    r.emoji + " **" + r.display + "** (cont. " + NatToString(i) + ")"
  }

  /** The mentions of the entries, in order (`lista_membros`). */
  function Mentions(es: seq<Entry>): (ms: seq<string>)
    ensures |ms| == |es| && forall k :: 0 <= k < |es| ==> ms[k] == es[k].mention
  {
    if es == [] then [] else [es[0].mention] + Mentions(es[1..])
  }

  /** The continuation fields of the parts `ps`, numbered from `i`. */
  function ContFields(r: Rank, ps: seq<string>, i: nat): (fs: seq<Field>)
    ensures |fs| == |ps|
    ensures forall k :: 0 <= k < |fs| ==> fs[k] == Field(ContHeading(r, i + k), Take(ps[k], 1024))
  {
    if ps == [] then [] else [Field(ContHeading(r, i), Take(ps[0], 1024))] + ContFields(r, ps[1..], i + 1)
  }

  /** The fields of one rank as the loop adds them: none for an empty bucket (the
      "Nenhum membro" text is computed and never added); the joined mentions when
      they fit in 1024 characters; else one field per part. Every text is cut to
      1024 characters. */
  function RankFields(r: Rank, entries: seq<Entry>): (fs: seq<Field>)
    ensures fs == [] <==> entries == []
    ensures fs != [] ==> fs[0].name == Heading(r, |entries|)
    ensures forall k :: 0 <= k < |fs| ==> |fs[k].value| <= 1024
  {
    if entries == [] then []
    else
      var ms := Mentions(entries);
      var valor := Join(ms, MentionSep);
      if |valor| > 1024 then
        var partes := Partes(ms);
        [Field(Heading(r, |entries|), Take(partes[0], 1024))] + ContFields(r, partes[1..], 1)
      else [Field(Heading(r, |entries|), Take(valor, 1024))]
  }

  /** The texts of the fields. */
  function Values(fs: seq<Field>): (vs: seq<string>)
    ensures |vs| == |fs| && forall k :: 0 <= k < |fs| ==> vs[k] == fs[k].value
  {
    if fs == [] then [] else [fs[0].value] + Values(fs[1..])
  }

  /** No mention is cut: with mentions of at most 998 characters, the texts of a
      rank's fields joined with ", " are its whole mention list. */
  lemma RankFieldsKeepEveryMention(r: Rank, entries: seq<Entry>)
    requires entries != []
    requires forall k :: 0 <= k < |entries| ==> |entries[k].mention| <= 998
    ensures Join(Values(RankFields(r, entries)), MentionSep) == Join(Mentions(entries), MentionSep)
  {
    var ms := Mentions(entries);
    var valor := Join(ms, MentionSep);
    var fs := RankFields(r, entries);
    if |valor| > 1024 {
      PartesSplitTheList(ms);
      ValuesOfParts(r, Heading(r, |entries|), Partes(ms));
    } else {
      assert fs == [Field(Heading(r, |entries|), Take(valor, 1024))];
    }
  }

  /** The texts of a first field and its continuation fields are the parts, when
      no part is longer than a field allows. */
  lemma ValuesOfParts(r: Rank, heading: string, partes: seq<string>)
    requires partes != []
    requires forall k :: 0 <= k < |partes| ==> |partes[k]| <= 1000
    ensures Values([Field(heading, Take(partes[0], 1024))] + ContFields(r, partes[1..], 1)) == partes
  {
    var cont := ContFields(r, partes[1..], 1);
    var fs := [Field(heading, Take(partes[0], 1024))] + cont;
    forall k | 0 <= k < |partes|
      ensures Values(fs)[k] == partes[k]
    {
      if k > 0 {
        assert fs[k] == cont[k - 1];
      }
    }
  }

  /** The fields of a rank as the panel evidently intends them ("show every rank,
      even with 0 members"): an empty rank gets its heading and "Nenhum membro". */
  function RankFieldsCorrigido(r: Rank, entries: seq<Entry>): (fs: seq<Field>)
    ensures fs != [] && fs[0].name == Heading(r, |entries|)
    ensures entries == [] ==> fs[0].value == NenhumMembro
    ensures entries != [] ==> fs == RankFields(r, entries)
    ensures forall k :: 0 <= k < |fs| ==> |fs[k].value| <= 1024
  {
    if entries == [] then [Field(Heading(r, 0), NenhumMembro)] else RankFields(r, entries)
  }

  /** The TOTAL field. */
  function TotalField(total: nat): Field
  {
    Field("\U{1F4CA} **TOTAL**", "`" + NatToString(total) + "` membros no servidor")
  }

  /** The fields of the ranks `rs`, one rank after the other. */
  function AllRankFields(ms: seq<Member>, config: seq<Rank>, rs: seq<Rank>): seq<Field>
  {
    if rs == [] then [] else RankFields(rs[0], Bucket(ms, config, rs[0].display)) + AllRankFields(ms, config, rs[1..])
  }

  /** As written, a guild in which none of the ranks `rs` has a member gets no rank
      field at all: the panel is the TOTAL field alone. */
  lemma {:induction false} EmptyRanksAreHidden(ms: seq<Member>, config: seq<Rank>, rs: seq<Rank>)
    requires forall k :: 0 <= k < |rs| ==> Bucket(ms, config, rs[k].display) == []
    ensures AllRankFields(ms, config, rs) == []
  {
    if rs != [] {
      assert Bucket(ms, config, rs[0].display) == [];
      EmptyRanksAreHidden(ms, config, rs[1..]);
    }
  }

  /** The rank fields as evidently intended, one rank after the other. */
  function AllRankFieldsCorrigido(ms: seq<Member>, config: seq<Rank>, rs: seq<Rank>): seq<Field>
  {
    if rs == [] then []
    else RankFieldsCorrigido(rs[0], Bucket(ms, config, rs[0].display)) + AllRankFieldsCorrigido(ms, config, rs[1..])
  }

  /** Some field of `fs` carries the title `h`. */
  predicate HasHeading(fs: seq<Field>, h: string)
  {
    exists i :: 0 <= i < |fs| && fs[i].name == h
  }

  lemma HasHeadingLeft(a: seq<Field>, b: seq<Field>, h: string)
    requires a != [] && a[0].name == h
    ensures HasHeading(a + b, h)
  {
    assert (a + b)[0] == a[0];
  }

  lemma HasHeadingRight(a: seq<Field>, b: seq<Field>, h: string)
    requires HasHeading(b, h)
    ensures HasHeading(a + b, h)
  {
    var i :| 0 <= i < |b| && b[i].name == h;
    assert (a + b)[|a| + i] == b[i];
  }

  /** With the intended fields every rank is shown: each has a field headed with
      its name and its member count, 0 included. */
  lemma {:induction false} CorrectedPanelShowsEveryRank(ms: seq<Member>, config: seq<Rank>, rs: seq<Rank>)
    ensures forall k :: 0 <= k < |rs| ==>
      HasHeading(AllRankFieldsCorrigido(ms, config, rs), Heading(rs[k], |Bucket(ms, config, rs[k].display)|))
  {
    if rs != [] {
      CorrectedPanelShowsEveryRank(ms, config, rs[1..]);
      var b0 := Bucket(ms, config, rs[0].display);
      var head := RankFieldsCorrigido(rs[0], b0);
      var rest := AllRankFieldsCorrigido(ms, config, rs[1..]);
      assert AllRankFieldsCorrigido(ms, config, rs) == head + rest;
      HasHeadingLeft(head, rest, Heading(rs[0], |b0|));
      forall k | 1 <= k < |rs|
        ensures HasHeading(head + rest, Heading(rs[k], |Bucket(ms, config, rs[k].display)|))
      {
        assert rs[k] == rs[1..][k - 1];
        HasHeadingRight(head, rest, Heading(rs[k], |Bucket(ms, config, rs[k].display)|));
      }
    }
  }

  /** `lista_membros`: the mention of every entry, appended one by one. */
  method ListaMembros(membros: seq<Entry>) returns (lista: seq<string>)
    ensures lista == Mentions(membros)
  {
    lista := [];
    for k := 0 to |membros|
      invariant lista == Mentions(membros[..k])
    {
      assert Mentions(membros[..k + 1]) == Mentions(membros[..k]) + [membros[k].mention];
      lista := lista + [membros[k].mention];
    }
    assert membros[..|membros|] == membros;
  }

  /** The continuation loop: one field per part after the first, numbered from 1. */
  method CamposContinuacao(r: Rank, partes: seq<string>) returns (fs: seq<Field>)
    requires partes != []
    ensures fs == ContFields(r, partes[1..], 1)
  {
    fs := [];
    for i := 1 to |partes|
      invariant fs == ContFields(r, partes[1..i], 1)
    {
      fs := fs + [Field(ContHeading(r, i), Take(partes[i], 1024))];
    }
    assert partes[1..|partes|] == partes[1..];
  }

  /** The fields of one rank as the loop builds them: the mention list, then either
      one field or the chunking and the continuation fields. */
  method CamposDoCargo(r: Rank, membros: seq<Entry>) returns (fs: seq<Field>)
    ensures fs == RankFields(r, membros)
  {
    if |membros| == 0 {
      return [];
    }
    var listaMembros := ListaMembros(membros);
    var valor := Join(listaMembros, MentionSep);
    if |valor| > 1024 {
      var partes := DividirMencoes(listaMembros);
      assert partes != [];
      var cont := CamposContinuacao(r, partes);
      fs := [Field(Heading(r, |membros|), Take(partes[0], 1024))] + cont;
    } else {
      fs := [Field(Heading(r, |membros|), Take(valor, 1024))];
    }
  }

  /** The rank loop of `criar_embed_hierarquia`: for each rank of `ordem`, its bucket
      size is added to the total and its fields to the embed. */
  method CamposDosCargos(members: seq<Member>, config: seq<Rank>, membrosPorCargo: map<string, seq<Entry>>,
                         ordem: seq<Rank>) returns (fields: seq<Field>, total: nat)
    requires forall d :: d in membrosPorCargo ==> membrosPorCargo[d] == Bucket(members, config, d)
    requires forall k :: 0 <= k < |ordem| ==> ordem[k].display in membrosPorCargo
    ensures total == SumBuckets(members, config, ordem)
    ensures fields == AllRankFields(members, config, ordem)
  {
    fields := [];
    total := 0;
    for j := 0 to |ordem|
      invariant total + SumBuckets(members, config, ordem[j..]) == SumBuckets(members, config, ordem)
      invariant fields + AllRankFields(members, config, ordem[j..]) == AllRankFields(members, config, ordem)
    {
      var cargo := ordem[j];
      var membros := membrosPorCargo[cargo.display];
      RankStep(members, config, ordem, j);
      total := total + |membros|;
      var campos := CamposDoCargo(cargo, membros);
      ghost var later := AllRankFields(members, config, ordem[j + 1..]);
      assert fields + (campos + later) == (fields + campos) + later;
      fields := fields + campos;
    }
  }

  /** One step of the rank loop: the rank at `j` adds its bucket to the total and its
      fields to the embed. */
  lemma RankStep(ms: seq<Member>, config: seq<Rank>, ordem: seq<Rank>, j: nat)
    requires j < |ordem|
    ensures SumBuckets(ms, config, ordem[j..])
      == |Bucket(ms, config, ordem[j].display)| + SumBuckets(ms, config, ordem[j + 1..])
    ensures AllRankFields(ms, config, ordem[j..])
      == RankFields(ordem[j], Bucket(ms, config, ordem[j].display)) + AllRankFields(ms, config, ordem[j + 1..])
  {
    assert ordem[j..][1..] == ordem[j + 1..];
  }

  /** `criar_embed_hierarquia`: the members grouped by highest rank, then the fields
      of every configured rank in priority order, then the TOTAL field. */
  method CriarEmbedHierarquia(members: seq<Member>, config: seq<Rank>) returns (fields: seq<Field>, total: nat)
    ensures total == SumBuckets(members, config, SortDesc(config, Urgency))
    ensures fields == AllRankFields(members, config, SortDesc(config, Urgency)) + [TotalField(total)]
  {
    var membrosPorCargo := AgruparMembros(members, config);
    var ordem := SortDesc(config, Urgency);
    forall k | 0 <= k < |ordem|
      ensures ordem[k].display in membrosPorCargo
    {
      assert ordem[k] in multiset(config);
      var i :| 0 <= i < |config| && config[i] == ordem[k];
    }
    fields, total := CamposDosCargos(members, config, membrosPorCargo, ordem);
    fields := fields + [TotalField(total)];
  }

  /** `on_member_update`: the guild's panel is refreshed only when the member's
      roles changed, roles being equal when their ids are; `on_member_join` and
      `on_member_remove` always refresh it. */
  method OnMemberUpdate(registry: PaineisAtivos, before: seq<Role>, after: seq<Role>,
                        guild: int, status: PanelStatus) returns (refreshed: bool)
    modifies registry
    ensures refreshed <==> (|before| != |after| || exists k :: 0 <= k < |before| && before[k].id != after[k].id)
    ensures !refreshed ==> registry.paineis == old(registry.paineis)
    ensures refreshed && guild in old(registry.paineis) && status == MessageFails ==>
      registry.paineis == Without(old(registry.paineis), guild)
    ensures refreshed && !(guild in old(registry.paineis) && status == MessageFails) ==>
      registry.paineis == old(registry.paineis)
  {
    refreshed := RoleIds(before) != RoleIds(after);
    if !refreshed && |before| == |after| {
      forall k | 0 <= k < |before| ensures before[k].id == after[k].id {
        assert RoleIds(before)[k] == RoleIds(after)[k];
      }
    }
    if refreshed {
      registry.AtualizarPaineisDaGuild(guild, status);
    }
  }
}
