/** The channel cleanup commands of `modules/limpeza.py`: who may clean, how the
    `!limpar rapido`, `!limpar canal`, `!limpar_direto` commands and the menu's
    quantity form validate their input, which clicks the author alone may make,
    and how many messages a cleanup removes and reports. The purge itself is a
    platform call; here a channel is its history of message ids, newest first. */
module Limpeza {
  import opened Text
  import opened Platform

  /** STAFF_ROLES: the exact role names that may use the cleanup commands. */
  const StaffRoles: seq<string> := [
    "\U{1F451} | Lider | 00",
    "\U{1F48E} | Lider | 01",
    "\U{1F46E} | Lider | 02",
    "\U{1F396}\U{FE0F} | Lider | 03",
    "\U{1F396}\U{FE0F} | Gerente Geral",
    "\U{1F396}\U{FE0F} | Gerente De Farm",
    "\U{1F396}\U{FE0F} | Gerente De Pista",
    "\U{1F396}\U{FE0F} | Gerente de Recrutamento",
    "\U{1F396}\U{FE0F} | Supervisor",
    "\U{1F396}\U{FE0F} | Recrutador",
    "\U{1F396}\U{FE0F} | Ceo Elite",
    "\U{1F396}\U{FE0F} | Sub Elite"
  ]

  /** The smallest and largest quantity a cleanup accepts. */
  const MinQuantidade := 1
  const MaxQuantidade := 999

  // ---------------------------------------------------------------------------
  // usuario_pode_limpar

  /** Whether some role of the list bears one of `names`, character for character. */
  function HasRoleNamed(roles: seq<Role>, names: seq<string>): (b: bool)
    ensures b <==> exists k :: 0 <= k < |roles| && roles[k].name in names
  {
    if roles == [] then false
    else roles[0].name in names || HasRoleNamed(roles[1..], names)
  }

  /** `usuario_pode_limpar`: no member may not; administrators may; anyone else may
      exactly when one of their role names is an entry of STAFF_ROLES, with no
      white-space or case normalisation. */
  function UsuarioPodeLimpar(m: Option<Member>): (b: bool)
    ensures m.None? ==> !b
    ensures m.Some? && m.value.isAdmin ==> b
    ensures m.Some? && !m.value.isAdmin ==>
      (b <==> exists k :: 0 <= k < |m.value.roles| && m.value.roles[k].name in StaffRoles)
  {
    m.Some? && (m.value.isAdmin || HasRoleNamed(m.value.roles, StaffRoles))
  }

  /** Gaining a role never takes the right to clean away. */
  lemma LimparMonotonic(m: Member, extra: Role)
    requires UsuarioPodeLimpar(Some(m))
    ensures UsuarioPodeLimpar(Some(m.(roles := m.roles + [extra])))
  {
    var m2 := m.(roles := m.roles + [extra]);
    if !m.isAdmin {
      var k :| 0 <= k < |m.roles| && m.roles[k].name in StaffRoles;
      assert m2.roles[k] == m.roles[k];
    }
  }

  /** The right depends on the set of role names only, not on their order. */
  lemma LimparIgnoresRoleOrder(m: Member, roles: seq<Role>)
    requires multiset(roles) == multiset(m.roles)
    ensures UsuarioPodeLimpar(Some(m.(roles := roles))) == UsuarioPodeLimpar(Some(m))
  {
    var m2 := m.(roles := roles);
    if !m.isAdmin {
      if k :| 0 <= k < |m.roles| && m.roles[k].name in StaffRoles {
        assert m.roles[k] in multiset(roles);
        var j :| 0 <= j < |roles| && roles[j] == m.roles[k];
        assert m2.roles[j].name in StaffRoles;
      }
      if j :| 0 <= j < |roles| && roles[j].name in StaffRoles {
        assert roles[j] in multiset(m.roles);
        var k :| 0 <= k < |m.roles| && m.roles[k] == roles[j];
        assert m.roles[k].name in StaffRoles;
      }
    }
  }

  // ---------------------------------------------------------------------------
  // The commands without confirmation: limpar_rapido, limpar_canal, limpar_direto

  /** What a cleanup command decides to do. */
  datatype Comando =
    | SemPermissao
    | QuantidadeInvalida
    | SistemaIndisponivel
    | Limpar(quantidade: int, canal: int)

  predicate QuantidadeValida(q: int) { MinQuantidade <= q <= MaxQuantidade }

  /** `limpar_rapido`: permission first, then the quantity range; the target is the
      given channel or else the one the command was typed in (`atual`). */
  function LimparRapido(autor: Member, quantidade: int, canal: Option<int>, atual: int): (r: Comando)
    ensures r == SemPermissao <==> !UsuarioPodeLimpar(Some(autor))
    ensures r == QuantidadeInvalida <==> UsuarioPodeLimpar(Some(autor)) && !QuantidadeValida(quantidade)
    ensures r.Limpar? <==> UsuarioPodeLimpar(Some(autor)) && QuantidadeValida(quantidade)
    ensures r.Limpar? ==> r.quantidade == quantidade
    ensures r.Limpar? && canal.None? ==> r.canal == atual
    ensures r.Limpar? && canal.Some? ==> r.canal == canal.value
  {
    if !UsuarioPodeLimpar(Some(autor)) then SemPermissao
    else if quantidade < MinQuantidade || quantidade > MaxQuantidade then QuantidadeInvalida
    else Limpar(quantidade, if canal.Some? then canal.value else atual)
  }

  /** `limpar_canal`: `limpar_rapido` aimed at the named channel. */
  function LimparCanal(autor: Member, canal: int, quantidade: int, atual: int): (r: Comando)
    ensures r.Limpar? <==> UsuarioPodeLimpar(Some(autor)) && QuantidadeValida(quantidade)
    ensures r.Limpar? ==> r.canal == canal && r.quantidade == quantidade
  {
    LimparRapido(autor, quantidade, Some(canal), atual)
  }

  /** `limpar_direto`: the same checks as `limpar_rapido`, and a failure message when
      the cleanup cog is not loaded (`cogCarregado`), which is checked after the
      quantity. */
  function LimparDireto(autor: Member, quantidade: int, canal: Option<int>, atual: int, cogCarregado: bool): (r: Comando)
    ensures r == SemPermissao <==> !UsuarioPodeLimpar(Some(autor))
    ensures r == QuantidadeInvalida <==> UsuarioPodeLimpar(Some(autor)) && !QuantidadeValida(quantidade)
    ensures r == SistemaIndisponivel <==>
      UsuarioPodeLimpar(Some(autor)) && QuantidadeValida(quantidade) && !cogCarregado
    ensures r.Limpar? ==> QuantidadeValida(r.quantidade) && r.canal == (if canal.Some? then canal.value else atual)
  {
    if !UsuarioPodeLimpar(Some(autor)) then SemPermissao
    else if quantidade < MinQuantidade || quantidade > MaxQuantidade then QuantidadeInvalida
    else if !cogCarregado then SistemaIndisponivel
    else Limpar(quantidade, if canal.Some? then canal.value else atual)
  }

  /** With the cog loaded, `!limpar_direto` does what `!limpar rapido` does. */
  lemma DiretoIsRapido(autor: Member, quantidade: int, canal: Option<int>, atual: int)
    ensures LimparDireto(autor, quantidade, canal, atual, true) == LimparRapido(autor, quantidade, canal, atual)
  {
    var d := LimparDireto(autor, quantidade, canal, atual, true);
    var r := LimparRapido(autor, quantidade, canal, atual);
    assert d.Limpar? <==> r.Limpar?;
  }

  // ---------------------------------------------------------------------------
  // LimpezaQuantidadeModal.on_submit

  /** What submitting the quantity form leads to. */
  datatype Envio =
    | QuantidadeNaoNumerica
    | QuantidadeForaDoLimite
    | CanalInvalido
    | CanalNaoEncontrado
    | Confirmacao(quantidade: int, canal: int)

  /** A channel field left empty or holding only white space. */
  predicate EmBranco(s: string) { Strip(s) == [] }

  /** `on_submit`: the quantity must be digits and within 1..999; a blank channel
      field means the invoking channel `atual`, otherwise the field must be digits
      naming a channel of the guild (`canais`). */
  function EnviarModal(quantidade: string, canalId: string, atual: int, canais: set<int>): (r: Envio)
    ensures r == QuantidadeNaoNumerica <==> !AllDigits(quantidade)
    ensures r == QuantidadeForaDoLimite <==> AllDigits(quantidade) && !QuantidadeValida(ParseNat(quantidade))
    ensures r == CanalInvalido <==>
      AllDigits(quantidade) && QuantidadeValida(ParseNat(quantidade)) && !EmBranco(canalId) && !AllDigits(canalId)
    ensures r == CanalNaoEncontrado <==>
      AllDigits(quantidade) && QuantidadeValida(ParseNat(quantidade)) && !EmBranco(canalId)
      && AllDigits(canalId) && ParseNat(canalId) !in canais
    ensures r.Confirmacao? ==> AllDigits(quantidade) && r.quantidade == ParseNat(quantidade) && QuantidadeValida(r.quantidade)
    ensures r.Confirmacao? && EmBranco(canalId) ==> r.canal == atual
    ensures r.Confirmacao? && !EmBranco(canalId) ==> AllDigits(canalId) && r.canal == ParseNat(canalId) && r.canal in canais
  {
    if !AllDigits(quantidade) then QuantidadeNaoNumerica
    else
      var qtd := ParseNat(quantidade);
      if qtd < MinQuantidade || qtd > MaxQuantidade then QuantidadeForaDoLimite
      else if canalId != [] && Strip(canalId) != [] then
        if !AllDigits(canalId) then CanalInvalido
        else if ParseNat(canalId) !in canais then CanalNaoEncontrado
        else Confirmacao(qtd, ParseNat(canalId))
      else Confirmacao(qtd, atual)
  }

  /** Typing a quantity in range and the id of an existing channel, as `str` would
      render them, always reaches the confirmation for exactly those. */
  lemma ModalAcceptsRendered(n: nat, canal: nat, atual: int, canais: set<int>)
    requires QuantidadeValida(n) && canal in canais
    ensures EnviarModal(NatToString(n), NatToString(canal), atual, canais) == Confirmacao(n, canal)
  {
    ParseRendered(n);
    ParseRendered(canal);
    var c := NatToString(canal);
    StripNoop(c);
    assert !EmBranco(c);
  }

  /** Ten to the power `k`. */
  function Pow10(k: nat): (p: nat)
    ensures p >= 1
  {
    if k == 0 then 1 else 10 * Pow10(k - 1)
  }

  /** A number written with `k` digits is below ten to the `k`. */
  lemma {:induction false} ParseNatBound(s: string)
    requires forall i :: 0 <= i < |s| ==> IsDigit(s[i])
    ensures ParseNat(s) < Pow10(|s|)
  {
    if s != [] {
      ParseNatBound(s[..|s| - 1]);
    }
  }

  /** The form caps the quantity field at three characters, so a numeric entry can
      never exceed 999: only "0", "00" and "000" meet the range check's refusal. */
  lemma ThreeDigitsInRange(quantidade: string)
    requires |quantidade| <= 3 && AllDigits(quantidade)
    ensures ParseNat(quantidade) <= MaxQuantidade
    ensures EnviarModal(quantidade, "", 0, {}) == QuantidadeForaDoLimite <==> ParseNat(quantidade) == 0
  {
    ParseNatBound(quantidade);
    assert Pow10(|quantidade|) <= 1000 by {
      assert Pow10(3) == 1000;
    }
  }

  // ---------------------------------------------------------------------------
  // The buttons of LimpezaView and ConfirmarLimpezaView

  /** What a button click does. */
  datatype Clique =
    | Recusado
    | AbrirFormulario
    | Executar(quantidade: int, canal: int)
    | Cancelado

  /** `LimpezaView.limpar_quantidade`: only the invoking author opens the form. */
  function LimparQuantidade(usuario: int, autor: int): (r: Clique)
    ensures r == Recusado <==> usuario != autor
    ensures r == AbrirFormulario <==> usuario == autor
  {
    if usuario != autor then Recusado else AbrirFormulario
  }

  /** `ConfirmarLimpezaView.confirmar`: only the invoking author starts the cleanup
      that was shown for confirmation. */
  function ConfirmarLimpeza(usuario: int, autor: int, quantidade: int, canal: int): (r: Clique)
    ensures r == Recusado <==> usuario != autor
    ensures r.Executar? <==> usuario == autor
    ensures r.Executar? ==> r.quantidade == quantidade && r.canal == canal
  {
    if usuario != autor then Recusado else Executar(quantidade, canal)
  }

  /** `ConfirmarLimpezaView.cancelar`: only the invoking author cancels. */
  function CancelarLimpeza(usuario: int, autor: int): (r: Clique)
    ensures r == Recusado <==> usuario != autor
    ensures r == Cancelado <==> usuario == autor
  {
    if usuario != autor then Recusado else Cancelado
  }

  /** The menu path end to end: `!limpar` by `autor` in channel `atual`, a click on
      the menu button by `clicador`, the form submitted, and a click on confirm by
      `confirmador`; the cleanup it leads to, if any. */
  function FluxoMenu(autor: Member, clicador: int, quantidade: string, canalId: string,
                     atual: int, canais: set<int>, confirmador: int): Option<Clique>
  {
    if !UsuarioPodeLimpar(Some(autor)) then None
    else if LimparQuantidade(clicador, autor.id) != AbrirFormulario then None
    else match EnviarModal(quantidade, canalId, atual, canais)
      case Confirmacao(q, c) =>
        var clique := ConfirmarLimpeza(confirmador, autor.id, q, c);
        if clique.Executar? then Some(clique) else None
      case _ => None
  }

  /** A cleanup through the menu happens exactly when the invoker may clean, the
      invoker both opened the form and confirmed, and the form was valid; it then
      cleans the quantity typed, in the invoking channel or an existing one. */
  lemma FluxoMenuSpec(autor: Member, clicador: int, quantidade: string, canalId: string,
                      atual: int, canais: set<int>, confirmador: int)
    ensures FluxoMenu(autor, clicador, quantidade, canalId, atual, canais, confirmador).Some? <==>
      UsuarioPodeLimpar(Some(autor)) && clicador == autor.id && confirmador == autor.id
      && EnviarModal(quantidade, canalId, atual, canais).Confirmacao?
    ensures FluxoMenu(autor, clicador, quantidade, canalId, atual, canais, confirmador).Some? ==>
      var r := FluxoMenu(autor, clicador, quantidade, canalId, atual, canais, confirmador).value;
      r.Executar? && QuantidadeValida(r.quantidade) && AllDigits(quantidade) && r.quantidade == ParseNat(quantidade)
      && (r.canal == atual || r.canal in canais)
  {
    var e := EnviarModal(quantidade, canalId, atual, canais);
    if UsuarioPodeLimpar(Some(autor)) && clicador == autor.id && e.Confirmacao? {
      assert LimparQuantidade(clicador, autor.id) == AbrirFormulario;
    }
  }

  // ---------------------------------------------------------------------------
  // realizar_limpeza

  /** The outcome of a cleanup: the messages removed and the count announced, or
      the refusal the platform raised. */
  datatype Relatorio =
    | Concluida(apagadas: seq<int>, informadas: int)
    | SemPermissaoDeApagar

  /** `realizar_limpeza` as written: purge `quantidade + 1` of the newest messages of
      the target channel (`historico`, newest first) and announce one fewer than
      were removed, the extra one standing for the command message. */
  function RealizarLimpeza(quantidade: nat, historico: seq<int>, permitido: bool): (r: Relatorio)
    ensures !permitido <==> r == SemPermissaoDeApagar
    ensures r.Concluida? ==> |r.apagadas| <= |historico| && r.apagadas == historico[..|r.apagadas|]
    ensures r.Concluida? ==> |r.apagadas| == if quantidade + 1 < |historico| then quantidade + 1 else |historico|
    ensures r.Concluida? ==> r.informadas == |r.apagadas| - 1
  {
    if !permitido then SemPermissaoDeApagar
    else
      var apagadas := Take(historico, quantidade + 1);
      Concluida(apagadas, |apagadas| - 1)
  }

  /** For the direct commands, in the channel the command was typed in, the command
      is the newest message: the cleanup removes it and the `quantidade` newest messages before it, and
      announces exactly how many of those it removed. */
  lemma SameChannelCleanup(quantidade: nat, comando: int, outros: seq<int>)
    ensures RealizarLimpeza(quantidade, [comando] + outros, true)
      == Concluida([comando] + Take(outros, quantidade), |Take(outros, quantidade)|)
  {
    var h := [comando] + outros;
    assert Take(h, quantidade + 1) == [comando] + Take(outros, quantidade);
  }

  /** In another channel, which holds no command message, the cleanup as written
      removes one message more than asked and announces one fewer than it removed;
      an empty channel is announced as -1 messages. */
  lemma OtherChannelOverPurges()
    ensures RealizarLimpeza(1, [11, 12, 13], true) == Concluida([11, 12], 1)
    ensures RealizarLimpeza(5, [], true) == Concluida([], -1)
  {
    assert Take([11, 12, 13], 2) == [11, 12];
  }

  /** The cleanup as evidently intended: the extra message is purged only when the
      command sits at the top of the target channel (`comandoNoTopo`, which holds
      for a direct command whose target is the invoking channel; on the menu path the
      menu message and the confirmation prompt are newer still), and only then is it left out of the
      announced count. */
  function RealizarLimpezaCorrigida(quantidade: nat, historico: seq<int>, comandoNoTopo: bool, permitido: bool): (r: Relatorio)
    requires comandoNoTopo ==> historico != []
    ensures !permitido <==> r == SemPermissaoDeApagar
    ensures r.Concluida? ==> |r.apagadas| <= |historico| && r.apagadas == historico[..|r.apagadas|]
  {
    if !permitido then SemPermissaoDeApagar
    else
      var extra := if comandoNoTopo then 1 else 0;
      var apagadas := Take(historico, quantidade + extra);
      Concluida(apagadas, |apagadas| - extra)
  }

  /** The messages other than the command in the target channel. */
  function Outros(historico: seq<int>, comandoNoTopo: bool): seq<int>
    requires comandoNoTopo ==> historico != []
  {
    if comandoNoTopo then historico[1..] else historico
  }

  /** In either channel, the corrected cleanup removes the `quantidade` newest
      messages other than the command (and the command, when it is there), and
      announces exactly how many of those it removed, never a negative count. */
  lemma CorrectedCleanupSpec(quantidade: nat, historico: seq<int>, comandoNoTopo: bool)
    requires comandoNoTopo ==> historico != []
    ensures var r := RealizarLimpezaCorrigida(quantidade, historico, comandoNoTopo, true);
      var outros := Outros(historico, comandoNoTopo);
      r.Concluida?
      && r.apagadas == (if comandoNoTopo then [historico[0]] else []) + Take(outros, quantidade)
      && r.informadas == |Take(outros, quantidade)|
      && 0 <= r.informadas <= quantidade
  {
    if comandoNoTopo {
      assert historico == [historico[0]] + historico[1..];
      assert Take(historico, quantidade + 1) == [historico[0]] + Take(historico[1..], quantidade);
    }
  }

  /** In the invoking channel the corrected cleanup is the one written. */
  lemma CorrectedAgreesInSameChannel(quantidade: nat, historico: seq<int>, permitido: bool)
    requires historico != []
    ensures RealizarLimpezaCorrigida(quantidade, historico, true, permitido)
      == RealizarLimpeza(quantidade, historico, permitido)
  {
  }
}
