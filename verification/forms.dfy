/**
 * The user forms of usuarios/forms.py: the field checks of `UsuarioCreateForm` and the
 * read-only group displays that `PerfilUsuarioForm` fills in.
 */
module Forms {
  import opened Wrappers
  import opened Text
  import opened Validacao
  import opened Grupos
  import Usuarios

  /** Python truthiness of an optional string field: absent and empty are both false. */
  predicate Preenchida(s: Option<string>) {
    s.Some? && s.value != ""
  }

  // ---------------------------------------------------------------------------
  // UsuarioCreateForm

  /**
   * `clean_password2`: the two passwords must agree when both are filled in; the
   * second is returned unchanged.
   */
  function CleanPassword2(password1: Option<string>, password2: Option<string>)
    : (r: Result<Option<string>, ValidationError>)
    ensures r.Failure? <==> Preenchida(password1) && Preenchida(password2) && password1 != password2
    ensures r.Failure? ==> r.error == Geral("As senhas não coincidem.")
    ensures r.Success? ==> r.value == password2
  {
    if Preenchida(password1) && Preenchida(password2) && password1 != password2 then
      Failure(Geral("As senhas não coincidem."))
    else Success(password2)
  }

  /** `clean_grupo_primario`: a primary group is required and must be active. */
  function CleanGrupoPrimario(t: Table, grupoPrimario: Option<Pk>): (r: Result<Pk, ValidationError>)
    requires grupoPrimario.Some? ==> grupoPrimario.value in t
    ensures r.Success? <==> grupoPrimario.Some? && t[grupoPrimario.value].ativo
    ensures r.Success? ==> grupoPrimario == Some(r.value)
    ensures grupoPrimario.None? ==> r == Failure(Geral("Usuário deve ter um setor principal definido."))
    ensures grupoPrimario.Some? && !t[grupoPrimario.value].ativo ==>
              r == Failure(Geral("O setor principal deve estar ativo."))
  {
    if grupoPrimario.None? then Failure(Geral("Usuário deve ter um setor principal definido."))
    else if !t[grupoPrimario.value].ativo then Failure(Geral("O setor principal deve estar ativo."))
    else Success(grupoPrimario.value)
  }

  /** Every chosen secondary group is active. */
  predicate SecundariosAtivos(t: Table, grupos: seq<Pk>)
    requires forall g :: g in grupos ==> g in t
  {
    forall i :: 0 <= i < |grupos| ==> t[grupos[i]].ativo
  }

  function MsgSetorInativo(nome: string): string {
    "O setor \"" + nome + "\" deve estar ativo."
  }

  /**
   * `clean_grupos_secundarios`: scans the chosen groups in order and rejects, naming
   * it, the first one that is inactive; otherwise returns the choice unchanged.
   */
  method CleanGruposSecundarios(t: Table, grupos: seq<Pk>) returns (r: Result<seq<Pk>, ValidationError>)
    requires forall g :: g in grupos ==> g in t
    ensures r.Success? <==> SecundariosAtivos(t, grupos)
    ensures r.Success? ==> r.value == grupos
    ensures r.Failure? ==>
              exists i :: 0 <= i < |grupos| && !t[grupos[i]].ativo
                && (forall j :: 0 <= j < i ==> t[grupos[j]].ativo)
                && r.error == Geral(MsgSetorInativo(t[grupos[i]].nome))
  {
    for i := 0 to |grupos|
      invariant forall j :: 0 <= j < i ==> t[grupos[j]].ativo
    {
      if !t[grupos[i]].ativo {
        return Failure(Geral(MsgSetorInativo(t[grupos[i]].nome)));
      }
    }
    return Success(grupos);
  }

  function MsgJaSelecionado(nome: string): string {
    "O setor \"" + nome + "\" já está selecionado como principal. "
    + "Não pode ser selecionado também nos setores secundários."
  }

  /**
   * `UsuarioCreateForm.clean`: the primary group may not also be chosen as secondary
   * (an error attached to `grupos_secundarios`).
   */
  function CreateFormClean(t: Table, grupoPrimario: Option<Pk>, gruposSecundarios: seq<Pk>)
    : (r: Outcome<ValidationError>)
    requires grupoPrimario.Some? ==> grupoPrimario.value in t
    ensures r.Fail? <==> grupoPrimario.Some? && grupoPrimario.value in gruposSecundarios
    ensures r.Fail? ==>
              r.error == DoCampo("grupos_secundarios", MsgJaSelecionado(t[grupoPrimario.value].nome))
  {
    if grupoPrimario.Some? && gruposSecundarios != [] && grupoPrimario.value in gruposSecundarios then
      Fail(DoCampo("grupos_secundarios", MsgJaSelecionado(t[grupoPrimario.value].nome)))
    else Pass
  }

  /**
   * The creation form's three group checks (`clean_grupo_primario`,
   * `clean_grupos_secundarios` and `clean`) accept exactly the choices that the user
   * model's `clean` accepts with, in addition, every secondary active and the primary
   * not among the secondaries. For a saved user `clean` refuses that duplicate itself;
   * the creation form serves users not yet saved, for whom `clean` skips it and only
   * the form refuses it.
   */
  lemma CreateFormAgreesWithModel(t: Table, u: Usuarios.Usuario)
    requires u.grupoPrimario.Some? ==> u.grupoPrimario.value in t
    requires forall g :: g in u.gruposSecundarios ==> g in t
    ensures (&& CleanGrupoPrimario(t, u.grupoPrimario).Success?
             && SecundariosAtivos(t, u.gruposSecundarios)
             && CreateFormClean(t, u.grupoPrimario, u.gruposSecundarios).Pass?)
            <==> (&& u.Clean(t).Pass?
                  && SecundariosAtivos(t, u.gruposSecundarios)
                  && u.grupoPrimario.value !in u.gruposSecundarios)
    ensures u.pk.Some? ==>
              ((&& CleanGrupoPrimario(t, u.grupoPrimario).Success?
                && SecundariosAtivos(t, u.gruposSecundarios)
                && CreateFormClean(t, u.grupoPrimario, u.gruposSecundarios).Pass?)
               <==> u.Clean(t).Pass? && SecundariosAtivos(t, u.gruposSecundarios))
    ensures (u.pk.None? && u.grupoPrimario.Some? && t[u.grupoPrimario.value].ativo
             && u.grupoPrimario.value in u.gruposSecundarios) ==>
              u.Clean(t).Pass? && CreateFormClean(t, u.grupoPrimario, u.gruposSecundarios).Fail?
  {
  }

  // ---------------------------------------------------------------------------
  // PerfilUsuarioForm

  const NaoDefinido := "Não definido"
  const NenhumSecundario := "Nenhum setor secundário"

  /** The full paths of the given groups, in order. */
  ghost function Caminhos(t: Table, gs: seq<Pk>): (r: seq<string>)
    requires forall g :: g in gs ==> Rooted(t, g)
    ensures |r| == |gs|
    decreases |gs|
  {
    if gs == [] then [] else Caminhos(t, gs[..|gs| - 1]) + [Join(PathNames(t, gs[|gs| - 1]), Separador)]
  }

  /** One more group adds its path at the end. */
  lemma CaminhosSnoc(t: Table, gs: seq<Pk>, i: nat)
    requires forall g :: g in gs ==> Rooted(t, g)
    requires i < |gs|
    ensures Caminhos(t, gs[..i + 1]) == Caminhos(t, gs[..i]) + [Join(PathNames(t, gs[i]), Separador)]
  {
    assert gs[..i + 1][..i] == gs[..i];
  }

  /** The read-only group displays of the profile form (their `initial` values; None when unset). */
  class PerfilUsuarioForm {
    var grupoPrimarioDisplay: Option<string>
    var gruposSecundariosDisplay: Option<string>

    /**
     * `PerfilUsuarioForm.__init__` for `instancia`: for a saved user, the primary's full
     * path or `Não definido`, and the secondaries' paths joined by `, ` or `Nenhum setor
     * secundário`; `leituraFalha` is a failure while reading the groups, after which both
     * fall back to the placeholders.
     */
    constructor (t: Table, instancia: Usuarios.Usuario, leituraFalha: bool)
      requires instancia.grupoPrimario.Some? ==> Rooted(t, instancia.grupoPrimario.value)
      requires forall g :: g in instancia.gruposSecundarios ==> Rooted(t, g)
      ensures instancia.pk.None? ==> grupoPrimarioDisplay.None? && gruposSecundariosDisplay.None?
      ensures instancia.pk.Some? && leituraFalha ==>
                grupoPrimarioDisplay == Some(NaoDefinido) && gruposSecundariosDisplay == Some(NenhumSecundario)
      ensures instancia.pk.Some? && !leituraFalha ==>
                && grupoPrimarioDisplay == Some(
                     if instancia.grupoPrimario.Some?
                     then Join(PathNames(t, instancia.grupoPrimario.value), Separador)
                     else NaoDefinido)
                && gruposSecundariosDisplay == Some(
                     if instancia.gruposSecundarios == [] then NenhumSecundario
                     else Join(Caminhos(t, instancia.gruposSecundarios), ", "))
    {
      var primario: Option<string> := None;
      var secundarios: Option<string> := None;
      if instancia.pk.Some? {
        if leituraFalha {
          primario := Some(NaoDefinido);
          secundarios := Some(NenhumSecundario);
        } else {
          if instancia.grupoPrimario.Some? {
            var caminho := GetHierarquiaCompleta(t, instancia.grupoPrimario.value);
            primario := Some(caminho);
          } else {
            primario := Some(NaoDefinido);
          }
          var gruposSec := instancia.gruposSecundarios;
          if gruposSec != [] {
            var textos: seq<string> := [];
            for i := 0 to |gruposSec|
              invariant textos == Caminhos(t, gruposSec[..i])
            {
              var caminho := GetHierarquiaCompleta(t, gruposSec[i]);
              CaminhosSnoc(t, gruposSec, i);
              textos := textos + [caminho];
            }
            assert gruposSec[..|gruposSec|] == gruposSec;
            secundarios := Some(Join(textos, ", "));
          } else {
            secundarios := Some(NenhumSecundario);
          }
        }
      }
      grupoPrimarioDisplay := primario;
      gruposSecundariosDisplay := secundarios;
    }
  }
}
