/** The per-guild registry of panel messages kept by the hierarchy panel and the
    recruiter panel (`paineis_ativos` in `modules/painel_hierarquia.py` and in
    `modules/painel_rec.py`, which treat it the same way): creating a panel
    replaces the guild's earlier one, and a panel whose message can no longer be
    fetched is dropped. */
module Panels {
  /** Where a guild's panel is shown: its channel and its message. */
  datatype Panel = Panel(canalId: int, mensagemId: int)

  /** What the platform answers for a registered panel: its channel is gone, the
      message could not be fetched (or, on a refresh, edited), or all went well. */
  datatype PanelStatus = ChannelGone | MessageFails | Reachable

  /** What the saved file gives at start-up: nothing, something unreadable, or a
      registry. */
  datatype SavedPanels = NoFile | Unreadable | Saved(panels: map<int, Panel>)

  /** The registry without the panel of `guild`. */
  function Without(paineis: map<int, Panel>, guild: int): (r: map<int, Panel>)
    ensures guild !in r && r.Keys == paineis.Keys - {guild}
  {
    map g | g in paineis && g != guild :: paineis[g]
  }

  /** A refresh or a load drops a panel when the bot still sees its guild and its
      message fails; a guild it cannot see, or a channel that is gone, keeps it. */
  predicate Dropped(guild: int, present: int -> bool, status: int -> PanelStatus)
  {
    present(guild) && status(guild) == MessageFails
  }

  /** The registry once every panel is checked: the panels that are not dropped,
      each with its entry unchanged. */
  function Pruned(paineis: map<int, Panel>, present: int -> bool, status: int -> PanelStatus): (r: map<int, Panel>)
    ensures forall g :: g in r <==> g in paineis && !Dropped(g, present, status)
  {
    map g | g in paineis && !Dropped(g, present, status) :: paineis[g]
  }

  /** Checking the panels again with the same answers drops nothing more. */
  lemma PrunedIdempotent(paineis: map<int, Panel>, present: int -> bool, status: int -> PanelStatus)
    ensures Pruned(Pruned(paineis, present, status), present, status) == Pruned(paineis, present, status)
  {
  }

  /** A panel just created survives the next check exactly when its message does
      not fail, and no other guild's fate depends on it. */
  lemma CreatedPanelSurvives(paineis: map<int, Panel>, guild: int, p: Panel,
                             present: int -> bool, status: int -> PanelStatus)
    ensures guild in Pruned(paineis[guild := p], present, status) <==> !Dropped(guild, present, status)
    ensures guild in Pruned(paineis[guild := p], present, status) ==> Pruned(paineis[guild := p], present, status)[guild] == p
    ensures Without(Pruned(paineis[guild := p], present, status), guild) == Without(Pruned(paineis, present, status), guild)
  {
  }

  /** What a setup command did. */
  datatype SetupOutcome = SetupRefused | AskedToReplace | PanelCreated

  /** `paineis_ativos` of either panel cog, keyed by guild id. */
  class PaineisAtivos {
    var paineis: map<int, Panel>

    constructor()
      ensures paineis == map[]
    {
      paineis := map[];
    }

    /** `criar_novo_painel`: the new panel replaces any earlier one of the guild. */
    method CriarNovoPainel(guild: int, canal: int, mensagem: int)
      modifies this
      ensures paineis == old(paineis)[guild := Panel(canal, mensagem)]
    {
      paineis := paineis[guild := Panel(canal, mensagem)];
    }

    /** `setup_hierarquia` and `setup_painel`: refused unless the author is an
        administrator; a guild that already has a panel is asked to confirm instead;
        otherwise the panel is created. */
    method SetupPainel(isAdmin: bool, guild: int, canal: int, mensagem: int) returns (outcome: SetupOutcome)
      modifies this
      ensures outcome == SetupRefused <==> !isAdmin
      ensures outcome == AskedToReplace <==> isAdmin && guild in old(paineis)
      ensures outcome != PanelCreated ==> paineis == old(paineis)
      ensures outcome == PanelCreated ==> paineis == old(paineis)[guild := Panel(canal, mensagem)]
    {
      if !isAdmin {
        return SetupRefused;
      }
      if guild in paineis {
        return AskedToReplace;
      }
      CriarNovoPainel(guild, canal, mensagem);
      return PanelCreated;
    }

    /** `ConfirmaSubstituirView.confirmar`: only the author of the command may
        confirm; the old panel is dropped and the new one registered. */
    method Confirmar(user: int, author: int, guild: int, canal: int, mensagem: int) returns (done: bool)
      modifies this
      ensures done <==> user == author
      ensures done ==> paineis == old(paineis)[guild := Panel(canal, mensagem)]
      ensures !done ==> paineis == old(paineis)
    {
      if user != author {
        return false;
      }
      if guild in paineis {
        paineis := Without(paineis, guild);
      }
      CriarNovoPainel(guild, canal, mensagem);
      return true;
    }

    /** `_atualizar_painel_guild`: a registered panel whose message cannot be fetched
        or edited is dropped; anything else leaves the registry as it is. */
    method AtualizarPainelGuild(guild: int, status: PanelStatus)
      modifies this
      ensures guild in old(paineis) && status == MessageFails ==> paineis == Without(old(paineis), guild)
      ensures !(guild in old(paineis) && status == MessageFails) ==> paineis == old(paineis)
    {
      if guild !in paineis {
        return;
      }
      if status == ChannelGone {
        return;
      }
      if status == MessageFails {
        paineis := Without(paineis, guild);
      }
    }

    /** `atualizar_todos_paineis` for one guild: an unregistered guild is left alone. */
    method AtualizarPaineisDaGuild(guild: int, status: PanelStatus)
      modifies this
      ensures guild !in old(paineis) ==> paineis == old(paineis)
      ensures guild in old(paineis) && status == MessageFails ==> paineis == Without(old(paineis), guild)
      ensures status != MessageFails ==> paineis == old(paineis)
    {
      if guild in paineis {
        AtualizarPainelGuild(guild, status);
      }
    }

    /** `atualizar_todos_paineis` with no guild: every registered guild the bot can
        still see is refreshed, so exactly the panels whose message fails are
        dropped, and the others keep their entry. `chaves` is
        `list(paineis_ativos.keys())`. */
    method AtualizarTodosPaineis(chaves: seq<int>, present: int -> bool, status: int -> PanelStatus)
      requires forall g :: g in paineis <==> g in chaves
      modifies this
      ensures paineis == Pruned(old(paineis), present, status)
    {
      for i := 0 to |chaves|
        invariant forall g :: g in paineis <==>
          g in old(paineis) && (g !in chaves[..i] || !Dropped(g, present, status))
        invariant forall g :: g in paineis ==> paineis[g] == old(paineis)[g]
      {
        assert forall g :: g in chaves[..i + 1] <==> g in chaves[..i] || g == chaves[i];
        if present(chaves[i]) {
          AtualizarPainelGuild(chaves[i], status(chaves[i]));
        }
      }
      assert chaves[..|chaves|] == chaves;
      forall g
        ensures g in paineis <==> g in Pruned(old(paineis), present, status)
      {
        assert g in old(paineis) ==> g in chaves;
      }
      assert paineis.Keys == Pruned(old(paineis), present, status).Keys;
    }

    /** `carregar_paineis`: without a file nothing changes; an unreadable file leaves
        no panel; otherwise the saved registry is loaded and exactly the panels
        whose message cannot be fetched are dropped (a guild or channel the bot
        cannot see keeps its entry). `chaves` is the saved registry's key list. */
    method CarregarPaineis(saved: SavedPanels, chaves: seq<int>, present: int -> bool, status: int -> PanelStatus)
      requires saved.Saved? ==> forall g :: g in saved.panels <==> g in chaves
      modifies this
      ensures saved == NoFile ==> paineis == old(paineis)
      ensures saved == Unreadable ==> paineis == map[]
      ensures saved.Saved? ==> paineis == Pruned(saved.panels, present, status)
    {
      match saved
      case NoFile =>
      case Unreadable =>
        paineis := map[];
      case Saved(panels) =>
        paineis := panels;
        for i := 0 to |chaves|
          invariant forall g :: g in paineis <==>
            g in panels && (g !in chaves[..i] || !Dropped(g, present, status))
          invariant forall g :: g in paineis ==> paineis[g] == panels[g]
        {
          assert forall g :: g in chaves[..i + 1] <==> g in chaves[..i] || g == chaves[i];
          var guild := chaves[i];
          if present(guild) && status(guild) == MessageFails && guild in paineis {
            paineis := Without(paineis, guild);
          }
        }
        assert chaves[..|chaves|] == chaves;
        forall g
          ensures g in paineis <==> g in Pruned(panels, present, status)
        {
          assert g in panels ==> g in chaves;
        }
        assert paineis.Keys == Pruned(panels, present, status).Keys;
    }
  }

}
