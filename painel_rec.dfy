/** The recruiter panel of `modules/painel_rec.py`: a counter of recruitments per
    recruiter (keyed by the recruiter's id as text), its ranking, its totals and
    its reset, and the cog operations that change the counters and then refresh
    every registered panel. */
module PainelRec {
  import opened Text
  import opened Sorting
  import opened Panels

  /** What `recrutadores` keeps of a recruiter: the last name seen and the count. */
  datatype Recrutador = Recrutador(nome: string, total: int)

  /** An entry of the ranking: the recruiter's key, name and count. */
  datatype Posicao = Posicao(id: string, nome: string, total: int)

  /** How many entries the ranking shows when the caller gives no limit. */
  const LimitePadrao: int := 10

  // ---------------------------------------------------------------------------
  // The counters as values

  /** `ids` lists the keys of `dados` once each, in insertion order (the order of a
      Python dict). */
  ghost predicate Indexed(ids: seq<string>, dados: map<string, Recrutador>)
  {
    (forall i, j :: 0 <= i < j < |ids| ==> ids[i] != ids[j])
    && (forall k :: k in dados <==> k in ids)
  }

  /** The key of a recruiter: `str(recrutador_id)`. */
  function Chave(recrutadorId: int): string
  {
    IntToString(recrutadorId)
  }

  /** The counters after one more recruitment by `chave`: a new recruiter starts at
      0, the count goes up by one and the name is overwritten. */
  function Adicionado(dados: map<string, Recrutador>, chave: string, nome: string): map<string, Recrutador>
  {
    dados[chave := Recrutador(nome, (if chave in dados then dados[chave].total else 0) + 1)]
  }

  /** The key order after one more recruitment: a new key goes last. */
  function IdsApos(ids: seq<string>, dados: map<string, Recrutador>, chave: string): seq<string>
  {
    if chave in dados then ids else ids + [chave]
  }

  /** `get_total_geral`: the sum of the counts of the recruiters `ids`. */
  function SomaTotais(ids: seq<string>, dados: map<string, Recrutador>): int
    requires forall i :: 0 <= i < |ids| ==> ids[i] in dados
    decreases |ids|
  {
    if ids == [] then 0
    else SomaTotais(ids[..|ids| - 1], dados) + dados[ids[|ids| - 1]].total
  }

  /** Changing the entry of a key listed once changes the sum by the difference of
      the counts; changing one of a key not listed leaves it. */
  lemma {:induction false} SomaUpdate(ids: seq<string>, dados: map<string, Recrutador>, chave: string, r: Recrutador)
    requires forall i :: 0 <= i < |ids| ==> ids[i] in dados
    requires forall i, j :: 0 <= i < j < |ids| ==> ids[i] != ids[j]
    ensures chave in ids ==>
      SomaTotais(ids, dados[chave := r]) == SomaTotais(ids, dados) - dados[chave].total + r.total
    ensures chave !in ids ==> SomaTotais(ids, dados[chave := r]) == SomaTotais(ids, dados)
    decreases |ids|
  {
    if ids != [] {
      var init := ids[..|ids| - 1];
      var last := ids[|ids| - 1];
      assert forall i :: 0 <= i < |init| ==> init[i] == ids[i];
      SomaUpdate(init, dados, chave, r);
      assert ids == init + [last];
      if chave == last {
        assert chave !in init;
      }
    }
  }

  /** One more recruitment keeps the key list in step with the counters. */
  lemma AdicionadoIndexed(ids: seq<string>, dados: map<string, Recrutador>, chave: string, nome: string)
    requires Indexed(ids, dados)
    ensures Indexed(IdsApos(ids, dados, chave), Adicionado(dados, chave, nome))
  {
    if chave !in dados {
      var novos := ids + [chave];
      forall i, j | 0 <= i < j < |novos|
        ensures novos[i] != novos[j]
      {
        if j == |ids| {
          assert novos[i] == ids[i];
        }
      }
    }
  }

  /** One more recruitment raises the overall total by exactly one, and the number
      of recruiters by one exactly when the recruiter is new. */
  lemma {:induction false} AdicionadoSomaUm(ids: seq<string>, dados: map<string, Recrutador>, chave: string, nome: string)
    requires Indexed(ids, dados)
    ensures SomaTotais(IdsApos(ids, dados, chave), Adicionado(dados, chave, nome)) == SomaTotais(ids, dados) + 1
    ensures |IdsApos(ids, dados, chave)| == |ids| + (if chave in dados then 0 else 1)
  {
    var novo := Recrutador(nome, (if chave in dados then dados[chave].total else 0) + 1);
    var depois := dados[chave := novo];
    SomaUpdate(ids, dados, chave, novo);
    if chave !in dados {
      var novos := ids + [chave];
      assert novos[..|novos| - 1] == ids;
      assert SomaTotais(novos, depois) == SomaTotais(ids, depois) + novo.total;
    }
  }

  /** A key list in step with the counters has one key per recruiter. */
  lemma IndexedCard(ids: seq<string>, dados: map<string, Recrutador>)
    requires Indexed(ids, dados)
    ensures |dados| == |ids|
  {
    DistinctCard(ids);
    assert dados.Keys == set x | x in ids;
  }

  /** A sequence without repetitions has as many distinct values as elements. */
  lemma {:induction false} DistinctCard(s: seq<string>)
    requires forall i, j :: 0 <= i < j < |s| ==> s[i] != s[j]
    ensures |set x | x in s| == |s|
    decreases |s|
  {
    if s != [] {
      var init := s[..|s| - 1];
      var last := s[|s| - 1];
      assert forall i :: 0 <= i < |init| ==> init[i] == s[i];
      DistinctCard(init);
      assert s == init + [last];
      assert (set x | x in s) == (set x | x in init) + {last};
      assert last !in init;
    }
  }

  // ---------------------------------------------------------------------------
  // The ranking as a value

  /** The list `get_top_recrutadores` builds before sorting: one entry per
      recruiter, in key order. */
  function Lista(ids: seq<string>, dados: map<string, Recrutador>): (l: seq<Posicao>)
    requires forall i :: 0 <= i < |ids| ==> ids[i] in dados
    ensures |l| == |ids|
    decreases |ids|
  {
    if ids == [] then []
    else
      var k := ids[|ids| - 1];
      Lista(ids[..|ids| - 1], dados) + [Posicao(k, dados[k].nome, dados[k].total)]
  }

  /** Every entry of the list is a stored recruiter with its stored name and count. */
  lemma {:induction false} ListaEntries(ids: seq<string>, dados: map<string, Recrutador>)
    requires forall i :: 0 <= i < |ids| ==> ids[i] in dados
    ensures forall i :: 0 <= i < |ids| ==>
      Lista(ids, dados)[i] == Posicao(ids[i], dados[ids[i]].nome, dados[ids[i]].total)
    decreases |ids|
  {
    if ids != [] {
      var init := ids[..|ids| - 1];
      assert forall i :: 0 <= i < |init| ==> init[i] == ids[i];
      ListaEntries(init, dados);
    }
  }

  function TotalDe(p: Posicao): int { p.total }

  /** Python's `s[:n]`: the first `n` elements, or all but the last `-n` when `n`
      is negative. */
  function PrefixoAte<T>(s: seq<T>, n: int): (r: seq<T>)
    ensures |r| == if n >= 0 then (if n < |s| then n else |s|) else (if |s| + n > 0 then |s| + n else 0)
    ensures r == s[..|r|]
  {
    if n >= 0 then Take(s, n)
    else if |s| + n > 0 then s[..|s| + n]
    else []
  }

  /** `get_top_recrutadores(limite)`: the list sorted by count, largest first (a
      stable sort), cut after `limite` entries. */
  function Top(ids: seq<string>, dados: map<string, Recrutador>, limite: int): seq<Posicao>
    requires forall i :: 0 <= i < |ids| ==> ids[i] in dados
  {
    PrefixoAte(SortDesc(Lista(ids, dados), TotalDe), limite)
  }

  /** The entry of the ranking that stands for a stored recruiter. */
  predicate Stored(p: Posicao, dados: map<string, Recrutador>)
  {
    p.id in dados && dados[p.id] == Recrutador(p.nome, p.total)
  }

  /** The sorted list holds exactly the stored recruiters, each once. */
  lemma SortedListaSpec(ids: seq<string>, dados: map<string, Recrutador>)
    requires Indexed(ids, dados)
    ensures forall p :: p in SortDesc(Lista(ids, dados), TotalDe) ==> Stored(p, dados)
    ensures forall k :: k in dados ==> Posicao(k, dados[k].nome, dados[k].total) in SortDesc(Lista(ids, dados), TotalDe)
    ensures forall i, j :: 0 <= i < j < |SortDesc(Lista(ids, dados), TotalDe)| ==>
      SortDesc(Lista(ids, dados), TotalDe)[i] != SortDesc(Lista(ids, dados), TotalDe)[j]
  {
    var l := Lista(ids, dados);
    ListaEntries(ids, dados);
    ListaSpec(ids, dados);
    PermutedEntries(l, SortDesc(l, TotalDe), dados);
    assert forall i, j :: 0 <= i < j < |l| ==> l[i] != l[j];
    PermutedNoDup(l, SortDesc(l, TotalDe));
  }

  /** The unsorted list holds exactly the stored recruiters. */
  lemma ListaSpec(ids: seq<string>, dados: map<string, Recrutador>)
    requires Indexed(ids, dados)
    ensures forall p :: p in Lista(ids, dados) ==> Stored(p, dados)
    ensures forall k :: k in dados ==> Posicao(k, dados[k].nome, dados[k].total) in Lista(ids, dados)
  {
    var l := Lista(ids, dados);
    ListaEntries(ids, dados);
    forall k | k in dados
      ensures Posicao(k, dados[k].nome, dados[k].total) in l
    {
      var a :| 0 <= a < |ids| && ids[a] == k;
      assert l[a] == Posicao(k, dados[k].nome, dados[k].total);
    }
  }

  /** A permutation has the same elements. */
  lemma PermutedEntries(l: seq<Posicao>, s: seq<Posicao>, dados: map<string, Recrutador>)
    requires multiset(s) == multiset(l)
    requires forall p :: p in l ==> Stored(p, dados)
    requires forall k :: k in dados ==> Posicao(k, dados[k].nome, dados[k].total) in l
    ensures forall p :: p in s ==> Stored(p, dados)
    ensures forall k :: k in dados ==> Posicao(k, dados[k].nome, dados[k].total) in s
  {
    assert forall p :: p in s <==> p in multiset(s);
    assert forall p :: p in l <==> p in multiset(l);
  }

  /** A permutation of a sequence without repetitions has none. */
  lemma PermutedNoDup<T>(l: seq<T>, s: seq<T>)
    requires multiset(s) == multiset(l)
    requires forall i, j :: 0 <= i < j < |l| ==> l[i] != l[j]
    ensures forall i, j :: 0 <= i < j < |s| ==> s[i] != s[j]
  {
    forall i, j | 0 <= i < j < |s|
      ensures s[i] != s[j]
    {
      if s[i] == s[j] {
        TwoPlaces(s, i, j);
        NoDupCount(l, s[i]);
      }
    }
  }

  /** The ranking holds at most `limite` entries (every recruiter when there are
      fewer), largest count first; each entry is a stored recruiter with its stored
      name and count, listed once; and no recruiter left out has a larger count than
      one shown. */
  lemma TopSpec(ids: seq<string>, dados: map<string, Recrutador>, limite: int)
    requires Indexed(ids, dados)
    ensures limite >= 0 ==> |Top(ids, dados, limite)| == if limite < |ids| then limite else |ids|
    ensures SortedDesc(Top(ids, dados, limite), TotalDe)
    ensures forall p :: p in Top(ids, dados, limite) ==> Stored(p, dados)
    ensures forall i, j :: 0 <= i < j < |Top(ids, dados, limite)| ==>
      Top(ids, dados, limite)[i].id != Top(ids, dados, limite)[j].id
    ensures forall p, k :: p in Top(ids, dados, limite) && k in dados && !Shown(Top(ids, dados, limite), k) ==>
      dados[k].total <= p.total
  {
    var s := SortDesc(Lista(ids, dados), TotalDe);
    SortedListaSpec(ids, dados);
    IndexedCard(ids, dados);
    PrefixOfRanking(s, Top(ids, dados, limite), dados);
  }

  /** A prefix of the sorted list of every stored recruiter is itself sorted, holds
      stored recruiters under distinct keys, and leaves out no one with a higher
      count than a recruiter it shows. */
  lemma PrefixOfRanking(s: seq<Posicao>, t: seq<Posicao>, dados: map<string, Recrutador>)
    requires |t| <= |s| && t == s[..|t|]
    requires SortedDesc(s, TotalDe)
    requires forall p :: p in s ==> Stored(p, dados)
    requires forall k :: k in dados ==> Posicao(k, dados[k].nome, dados[k].total) in s
    requires forall i, j :: 0 <= i < j < |s| ==> s[i] != s[j]
    ensures SortedDesc(t, TotalDe)
    ensures forall p :: p in t ==> Stored(p, dados)
    ensures forall i, j :: 0 <= i < j < |t| ==> t[i].id != t[j].id
    ensures forall p, k :: p in t && k in dados && !Shown(t, k) ==> dados[k].total <= p.total
  {
    assert forall i :: 0 <= i < |t| ==> t[i] == s[i];
    forall i, j | 0 <= i < j < |t|
      ensures t[i].id != t[j].id
    {
      assert Stored(s[i], dados) && Stored(s[j], dados);
    }
    forall p, k | p in t && k in dados && !Shown(t, k)
      ensures dados[k].total <= p.total
    {
      var b :| 0 <= b < |s| && s[b] == Posicao(k, dados[k].nome, dados[k].total);
      var c :| 0 <= c < |t| && t[c] == p;
      assert forall i :: 0 <= i < |t| ==> t[i].id != k;
      assert c < b;
    }
  }

  /** The ranking has an entry for the key. */
  predicate Shown(t: seq<Posicao>, k: string)
  {
    exists i :: 0 <= i < |t| && t[i].id == k
  }

  /** In a sequence without repetitions every value occurs at most once. */
  lemma {:induction false} NoDupCount<T>(a: seq<T>, x: T)
    requires forall i, j :: 0 <= i < j < |a| ==> a[i] != a[j]
    ensures multiset(a)[x] <= 1
    decreases |a|
  {
    if a != [] {
      var init := a[..|a| - 1];
      assert forall i :: 0 <= i < |init| ==> init[i] == a[i];
      NoDupCount(init, x);
      assert a == init + [a[|a| - 1]];
      if x == a[|a| - 1] {
        assert x !in init;
      }
    }
  }

  /** An element found at two places of a sequence occurs at least twice. */
  lemma TwoPlaces<T>(s: seq<T>, i: nat, j: nat)
    requires i < j < |s| && s[i] == s[j]
    ensures multiset(s)[s[i]] >= 2
  {
    var x := s[i];
    assert s == s[..i] + [x] + s[i + 1..j] + [x] + s[j + 1..];
    assert multiset(s) == multiset(s[..i]) + multiset{x} + multiset(s[i + 1..j]) + multiset{x} + multiset(s[j + 1..]);
  }

  /** Recruiters with the same count keep their key order in the ranking (Python's
      sort is stable, also with `reverse=True`). */
  lemma TopKeepsTiesInOrder(ids: seq<string>, dados: map<string, Recrutador>, t: int)
    requires Indexed(ids, dados)
    ensures KeyClass(SortDesc(Lista(ids, dados), TotalDe), TotalDe, t) == KeyClass(Lista(ids, dados), TotalDe, t)
  {
    SortStable(Lista(ids, dados), TotalDe, t);
  }

  // ---------------------------------------------------------------------------
  // GerenciadorRecrutadores

  /** `GerenciadorRecrutadores`: `recrutadores` maps a recruiter key to its name and
      count; `ids` is the order in which the keys were first inserted. */
  class GerenciadorRecrutadores {
    var ids: seq<string>
    var recrutadores: map<string, Recrutador>

    ghost predicate Valid()
      reads this
    {
      Indexed(ids, recrutadores)
    }

    /** A manager with no saved data starts empty. */
    constructor()
      ensures Valid() && ids == [] && recrutadores == map[]
    {
      ids := [];
      recrutadores := map[];
    }

    /** `adicionar_recrutamento`: the recruiter's entry is created with count 0 if it
        is new, its count goes up by one and its name is overwritten; every other
        entry is left as it was. */
    method AdicionarRecrutamento(recrutadorId: int, recrutadorNome: string)
      requires Valid()
      modifies this
      ensures Valid()
      ensures recrutadores == Adicionado(old(recrutadores), Chave(recrutadorId), recrutadorNome)
      ensures ids == IdsApos(old(ids), old(recrutadores), Chave(recrutadorId))
      ensures SomaTotais(ids, recrutadores) == old(SomaTotais(ids, recrutadores)) + 1
    {
      var chave := Chave(recrutadorId);
      var novosIds := ids;
      var dados: Recrutador;
      if chave !in recrutadores {
        dados := Recrutador(recrutadorNome, 0);
        novosIds := ids + [chave];
      } else {
        dados := recrutadores[chave];
      }
      dados := dados.(total := dados.total + 1);
      dados := dados.(nome := recrutadorNome);
      var novos := recrutadores[chave := dados];
      assert novos == Adicionado(recrutadores, chave, recrutadorNome);
      assert novosIds == IdsApos(ids, recrutadores, chave);
      AdicionadoIndexed(ids, recrutadores, chave, recrutadorNome);
      AdicionadoSomaUm(ids, recrutadores, chave, recrutadorNome);
      ids, recrutadores := novosIds, novos;
    }

    /** `get_total_geral`: the counts added up over the recruiters. */
    method GetTotalGeral() returns (total: int)
      requires Valid()
      ensures total == SomaTotais(ids, recrutadores)
    {
      total := 0;
      for i := 0 to |ids|
        invariant total == SomaTotais(ids[..i], recrutadores)
      {
        assert ids[..i + 1][..i] == ids[..i];
        total := total + recrutadores[ids[i]].total;
      }
      assert ids[..|ids|] == ids;
    }

    /** `get_total_recrutadores`: the number of recruiters, one per key. */
    method GetTotalRecrutadores() returns (n: nat)
      requires Valid()
      ensures n == |ids| && n == |recrutadores|
    {
      IndexedCard(ids, recrutadores);
      n := |recrutadores|;
    }

    /** `get_top_recrutadores`: the list of entries built in key order, sorted by
        count (largest first) and cut after `limite` entries. */
    method GetTopRecrutadores(limite: int) returns (top: seq<Posicao>)
      requires Valid()
      ensures top == Top(ids, recrutadores, limite)
    {
      var lista: seq<Posicao> := [];
      for i := 0 to |ids|
        invariant lista == Lista(ids[..i], recrutadores)
      {
        assert ids[..i + 1][..i] == ids[..i];
        var rid := ids[i];
        var dados := recrutadores[rid];
        lista := lista + [Posicao(rid, dados.nome, dados.total)];
      }
      assert ids[..|ids|] == ids;
      var ordenada := SortDesc(lista, TotalDe);
      top := PrefixoAte(ordenada, limite);
    }

    /** The reset of `ConfirmaResetView.confirmar`: no recruiter is left, so the
        overall total is 0. */
    method Reset()
      modifies this
      ensures Valid() && ids == [] && recrutadores == map[]
      ensures SomaTotais(ids, recrutadores) == 0
    {
      ids := [];
      recrutadores := map[];
    }
  }

  // ---------------------------------------------------------------------------
  // The cog

  /** The cog's `adicionar_recrutamento`: the recruitment is counted, then every
      registered panel is refreshed, which drops those whose message fails.
      `chaves` is the registry's key list. */
  method AdicionarEAtualizar(g: GerenciadorRecrutadores, paineis: PaineisAtivos, recrutadorId: int,
                             recrutadorNome: string, chaves: seq<int>, present: int -> bool,
                             status: int -> PanelStatus)
    requires g.Valid()
    requires forall k :: k in paineis.paineis <==> k in chaves
    modifies g, paineis
    ensures g.Valid()
    ensures g.recrutadores == Adicionado(old(g.recrutadores), Chave(recrutadorId), recrutadorNome)
    ensures g.ids == IdsApos(old(g.ids), old(g.recrutadores), Chave(recrutadorId))
    ensures paineis.paineis == Pruned(old(paineis.paineis), present, status)
  {
    g.AdicionarRecrutamento(recrutadorId, recrutadorNome);
    paineis.AtualizarTodosPaineis(chaves, present, status);
  }

  /** `ConfirmaResetView.confirmar`: only the author of `rec_reset` may confirm;
      then every counter is dropped and every panel refreshed. */
  method ConfirmarReset(user: int, author: int, g: GerenciadorRecrutadores, paineis: PaineisAtivos,
                        chaves: seq<int>, present: int -> bool, status: int -> PanelStatus) returns (done: bool)
    requires forall k :: k in paineis.paineis <==> k in chaves
    modifies g, paineis
    ensures done <==> user == author
    ensures done ==> g.Valid() && g.recrutadores == map[] && g.ids == []
    ensures done ==> paineis.paineis == Pruned(old(paineis.paineis), present, status)
    ensures !done ==> (g.recrutadores == old(g.recrutadores) && g.ids == old(g.ids)
                       && paineis.paineis == old(paineis.paineis))
  {
    if user != author {
      return false;
    }
    g.Reset();
    paineis.AtualizarTodosPaineis(chaves, present, status);
    return true;
  }
}
