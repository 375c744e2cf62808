/**
 * The checks and list columns of usuarios/admin.py: the user and group admin forms
 * and the `GrupoAdmin` / `UsuarioAdmin` display columns.
 */
module Admin {
  import opened Wrappers
  import opened Text
  import opened Validacao
  import opened Grupos
  import Usuarios

  // ---------------------------------------------------------------------------
  // UsuarioAdminForm.clean

  /** The cleaned values of the user admin form that its `clean` inspects. */
  datatype DadosUsuario = DadosUsuario(grupoPrimario: Option<Pk>, gruposSecundarios: seq<Pk>)

  const MsgSemPrincipal := "Usuário deve ter um setor principal definido."
  const MsgPrincipalInativo := "O setor principal deve estar ativo."

  function MsgJaPrincipal(nome: string): string {
    "O setor \"" + nome + "\" já está definido como principal. "
    + "Não pode ser selecionado também como secundário."
  }

  /**
   * `UsuarioAdminForm.clean`: a primary group is required and must be active, and it
   * may not also be chosen as secondary (an error attached to `grupos_secundarios`);
   * otherwise the cleaned data come back unchanged.
   */
  function UsuarioAdminClean(t: Table, dados: DadosUsuario): (r: Result<DadosUsuario, ValidationError>)
    requires dados.grupoPrimario.Some? ==> dados.grupoPrimario.value in t
    ensures r == Failure(Geral(MsgSemPrincipal)) <==> dados.grupoPrimario.None?
    ensures r == Failure(Geral(MsgPrincipalInativo)) <==>
              dados.grupoPrimario.Some? && !t[dados.grupoPrimario.value].ativo
    ensures r.Failure? && r.error.DoCampo? <==>
              && dados.grupoPrimario.Some? && t[dados.grupoPrimario.value].ativo
              && dados.grupoPrimario.value in dados.gruposSecundarios
    ensures r.Failure? && r.error.DoCampo? ==>
              r.error == DoCampo("grupos_secundarios", MsgJaPrincipal(t[dados.grupoPrimario.value].nome))
    ensures r.Success? ==> r.value == dados
  {
    if dados.grupoPrimario.None? then Failure(Geral(MsgSemPrincipal))
    else
      var p := dados.grupoPrimario.value;
      if !t[p].ativo then Failure(Geral(MsgPrincipalInativo))
      else if dados.gruposSecundarios != [] && p in dados.gruposSecundarios then
        Failure(DoCampo("grupos_secundarios", MsgJaPrincipal(t[p].nome)))
      else Success(dados)
  }

  /** The form accepts exactly the data the model's own `clean` accepts for a saved user. */
  lemma UsuarioAdminCleanAgreesWithModel(t: Table, u: Usuarios.Usuario)
    requires u.pk.Some?
    requires u.grupoPrimario.Some? ==> u.grupoPrimario.value in t
    ensures UsuarioAdminClean(t, DadosUsuario(u.grupoPrimario, u.gruposSecundarios)).Success?
            <==> u.Clean(t).Pass?
  {
  }

  // ---------------------------------------------------------------------------
  // GrupoAdminForm.clean_grupo_pai

  datatype ErroGrupoPai = ProprioPai | SubgrupoComoPai {
    function Mensagem(): string {
      match this
      case ProprioPai => "Um grupo não pode ser pai de si mesmo."
      case SubgrupoComoPai => "Não é possível definir um subgrupo como pai."
    }
  }

  /** What `clean_grupo_pai` as written rejects: the instance itself, or a parent the instance descends from. */
  ghost predicate RejeitaComoEscrito(t: Table, instancia: Option<Pk>, grupoPai: Option<Pk>) {
    && grupoPai.Some? && instancia.Some?
    && (grupoPai == instancia || Under(t, grupoPai.value, instancia.value))
  }

  /** What the check is meant to reject: the instance itself, or one of the instance's descendants. */
  ghost predicate RejeitaPretendido(t: Table, instancia: Option<Pk>, grupoPai: Option<Pk>) {
    && grupoPai.Some? && instancia.Some?
    && (grupoPai == instancia || Under(t, instancia.value, grupoPai.value))
  }

  /**
   * `clean_grupo_pai` as written: for a saved instance and a proposed parent, rejects
   * the instance itself, then rejects when the instance is among the proposed parent's
   * subgroups; otherwise returns the proposed parent.
   */
  method CleanGrupoPai(t: Table, order: seq<Pk>, instancia: Option<Pk>, grupoPai: Option<Pk>)
    returns (r: Result<Option<Pk>, ErroGrupoPai>)
    requires Forest(t, order)
    requires grupoPai.Some? ==> grupoPai.value in t
    ensures r.Failure? <==> RejeitaComoEscrito(t, instancia, grupoPai)
    ensures r == Failure(ProprioPai) <==> instancia.Some? && grupoPai == instancia
    ensures r.Success? ==> r.value == grupoPai
  {
    if grupoPai.None? || instancia.None? {
      return Success(grupoPai);
    }
    if grupoPai == instancia {
      return Failure(ProprioPai);
    }
    var subgrupos := GetTodosSubgrupos(t, order, grupoPai.value);
    if instancia.value in subgrupos {
      return Failure(SubgrupoComoPai);
    }
    return Success(grupoPai);
  }

  /** As written, saving a child group with its current parent unchanged is rejected. */
  lemma {:induction false} ComoEscritoRejeitaPaiAtual(t: Table, order: seq<Pk>, k: Pk)
    requires Forest(t, order) && k in t && t[k].grupoPai.Some?
    ensures RejeitaComoEscrito(t, Some(k), t[k].grupoPai)
    ensures !RejeitaPretendido(t, Some(k), t[k].grupoPai)
  {
    var g := t[k].grupoPai.value;
    ChildIsUnder(t, order, g, k);
    if Under(t, k, g) {
      UnderLonger(t, g, k);
      UnderLonger(t, k, g);
      assert false;
    }
  }

  /** As written, making a group the child of its own child passes this check, though it closes a cycle. */
  lemma {:induction false} ComoEscritoAceitaDescendente(t: Table, order: seq<Pk>, k: Pk)
    requires Forest(t, order) && k in t && t[k].grupoPai.Some?
    ensures !RejeitaComoEscrito(t, t[k].grupoPai, Some(k))
    ensures RejeitaPretendido(t, t[k].grupoPai, Some(k))
  {
    ComoEscritoRejeitaPaiAtual(t, order, k);
  }

  /** A two-group instance of both discrepancies: "B" under "A". */
  lemma ExemploDoisGrupos()
    ensures var t := map[1 := Grupo("A", None, true), 2 := Grupo("B", Some(1), true)];
            && RejeitaComoEscrito(t, Some(2), Some(1))
            && !RejeitaComoEscrito(t, Some(1), Some(2))
  {
    var t := map[1 := Grupo("A", None, true), 2 := Grupo("B", Some(1), true)];
    assert IsChain(t, 1, [1]);
    assert IsChain(t, 2, [2, 1]);
    assert forall g :: g in t ==> Rooted(t, g);
    ComoEscritoRejeitaPaiAtual(t, [1, 2], 2);
  }

  /**
   * The same instance seen by `Grupo.clean`: putting "A" under "B" is refused there,
   * because "A" lies on the chain of its proposed parent.
   */
  method ExemploCleanPegaCiclo() returns (r: Outcome<ErroGrupo>)
    ensures r == Fail(NaPropriaHierarquia)
  {
    var t := map[1 := Grupo("A", None, true), 2 := Grupo("B", Some(1), true)];
    assert IsChain(t, 2, [2, 1]);
    ChainUnique(t, 2, [2, 1], Chain(t, 2));
    r := Grupos.Clean(t, Some(1), Some(2));
  }

  /**
   * `clean_grupo_pai` with the containment test the other way round: rejects the
   * instance itself and any subgroup of the instance.
   */
  method CleanGrupoPaiCorrigido(t: Table, order: seq<Pk>, instancia: Option<Pk>, grupoPai: Option<Pk>)
    returns (r: Result<Option<Pk>, ErroGrupoPai>)
    requires Forest(t, order)
    requires grupoPai.Some? ==> grupoPai.value in t
    requires instancia.Some? ==> instancia.value in t
    ensures r.Failure? <==> RejeitaPretendido(t, instancia, grupoPai)
    ensures r == Failure(ProprioPai) <==> instancia.Some? && grupoPai == instancia
    ensures r.Success? ==> r.value == grupoPai
  {
    if grupoPai.None? || instancia.None? {
      return Success(grupoPai);
    }
    if grupoPai == instancia {
      return Failure(ProprioPai);
    }
    var subgrupos := GetTodosSubgrupos(t, order, instancia.value);
    if grupoPai.value in subgrupos {
      return Failure(SubgrupoComoPai);
    }
    return Success(grupoPai);
  }

  /**
   * The corrected check rejects exactly the parents that `Grupo.clean` refuses for a
   * saved group: those whose ancestor chain contains the group.
   */
  lemma CorrigidoConcordaComClean(t: Table, order: seq<Pk>, k: Pk, p: Pk)
    requires Forest(t, order) && k in t && p in t
    ensures RejeitaPretendido(t, Some(k), Some(p)) <==> k in Chain(t, p)
  {
    ChainAt(t, p, Chain(t, p), 0);
  }

  // ---------------------------------------------------------------------------
  // GrupoAdmin and UsuarioAdmin columns

  /** `exibir_hierarquia`: the name, indented by one dash per level and a space below the roots. */
  method ExibirHierarquia(t: Table, g: Pk) returns (r: string)
    requires Rooted(t, g)
    ensures t[g].grupoPai.None? ==> r == t[g].nome
    ensures t[g].grupoPai.Some? ==> r == Repeat('—', Level(t, g)) + " " + t[g].nome
    ensures |r| == |t[g].nome| + (if t[g].grupoPai.None? then 0 else Level(t, g) + 1)
  {
    var nivel := GetNivelHierarquia(t, g);
    var indentacao := Repeat('—', nivel);
    r := if nivel > 0 then indentacao + " " + t[g].nome else t[g].nome;
  }

  /** `"{count} usuário"`, with an `s` unless the count is exactly one. */
  function ContagemUsuarios(count: nat): (r: string)
    ensures var n := |Decimal(count)|;
            && |r| > n && r[..n] == Decimal(count) && DigitsValue(r[..n]) == count
            && r[n..] == (if count == 1 then " usuário" else " usuários")
    ensures r[|r| - 1] == 's' <==> count != 1
  {
    Decimal(count) + " usuário" + (if count != 1 then "s" else "")
  }

  /** `exibir_usuarios_primarios`: the number of users having `g` as primary group. */
  function ExibirUsuariosPrimarios(us: seq<Usuarios.Usuario>, g: Pk): (r: string)
    reads us
    ensures var n := Usuarios.ContarPrimarios(us, g);
            && |Decimal(n)| < |r| && r[..|Decimal(n)|] == Decimal(n)
            && (r[|r| - 1] == 's' <==> n != 1)
  {
    ContagemUsuarios(Usuarios.ContarPrimarios(us, g))
  }

  /** `exibir_usuarios_secundarios`: the number of users having `g` as a secondary group. */
  function ExibirUsuariosSecundarios(us: seq<Usuarios.Usuario>, g: Pk): (r: string)
    reads us
    ensures var n := Usuarios.ContarSecundarios(us, g);
            && |Decimal(n)| < |r| && r[..|Decimal(n)|] == Decimal(n)
            && (r[|r| - 1] == 's' <==> n != 1)
  {
    ContagemUsuarios(Usuarios.ContarSecundarios(us, g))
  }

  /**
   * `exibir_grupo_primario`: the full path of the primary group. A listed user is stored,
   * so its required primary is set and the `-` branch is never taken.
   */
  method ExibirGrupoPrimario(t: Table, u: Usuarios.Usuario) returns (r: string)
    requires u.grupoPrimario.Some? && Rooted(t, u.grupoPrimario.value)
    ensures r == Join(PathNames(t, u.grupoPrimario.value), Separador)
  {
    r := GetHierarquiaCompleta(t, u.grupoPrimario.value);
  }
}
