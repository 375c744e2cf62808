/**
 * The user model of usuarios/models.py (`Usuario`): a primary group, a set of
 * secondary groups (a many-to-many relation, listed in its query order) and the
 * facial fields that usuarios/facial_security.py reads and writes. Also the
 * per-group user counts of `Grupo`.
 */
module Usuarios {
  import opened Wrappers
  import opened Text
  import opened Cifra
  import Grupos

  /**
   * A call to the user's attempt counter (`resetar_tentativas_facial`,
   * `incrementar_tentativas_facial`). Their bodies are not part of this model,
   * so the model records that they were called, in order.
   */
  datatype ChamadaContador = Resetar | Incrementar

  /** The stored fields of a user, apart from the attempt-counter log. */
  datatype CamposUsuario = CamposUsuario(
    pk: Option<Pk>, grupoPrimario: Option<Pk>, gruposSecundarios: seq<Pk>,
    reconhecimentoFacialAtivo: bool, faceEncoding: Option<Token>, dataCadastroFacial: Option<int>)

  /** The errors of `clean` (the first three) and of `validar_setores_unicos` (the last). */
  datatype ErroUsuario =
    | SemSetorPrincipal
    | SetorPrincipalInativo
    | SetorDuplicado(nome: string)
    | DuplicacaoSetores(nome: string)
  {
    function Mensagem(): string {
      match this
      case SemSetorPrincipal => "Usuário deve ter um setor principal definido."
      case SetorPrincipalInativo => "O setor principal deve estar ativo."
      case SetorDuplicado(nome) =>
        "O setor \"" + nome + "\" não pode ser tanto principal quanto secundário. "
        + "Remova-o dos setores secundários."
      case DuplicacaoSetores(nome) =>
        "O setor \"" + nome + "\" não pode ser tanto principal quanto secundário."
    }
  }

  class Usuario {
    /** None until the row is saved. */
    var pk: Option<Pk>
    var grupoPrimario: Option<Pk>
    var gruposSecundarios: seq<Pk>
    var reconhecimentoFacialAtivo: bool
    var faceEncoding: Option<Token>
    /** Time of enrolment, in the caller's clock. */
    var dataCadastroFacial: Option<int>
    var chamadasContador: seq<ChamadaContador>

    constructor (pk: Option<Pk>, grupoPrimario: Option<Pk>, gruposSecundarios: seq<Pk>)
      requires Distinct(gruposSecundarios)
      ensures Valid()
      ensures this.pk == pk && this.grupoPrimario == grupoPrimario
      ensures this.gruposSecundarios == gruposSecundarios
      ensures !reconhecimentoFacialAtivo && faceEncoding.None? && dataCadastroFacial.None?
      ensures chamadasContador == []
    {
      this.pk := pk;
      this.grupoPrimario := grupoPrimario;
      this.gruposSecundarios := gruposSecundarios;
      reconhecimentoFacialAtivo := false;
      faceEncoding := None;
      dataCadastroFacial := None;
      chamadasContador := [];
    }

    /** Every field except the attempt-counter log, to say what an operation leaves alone. */
    function Campos(): CamposUsuario
      reads this
    {
      CamposUsuario(pk, grupoPrimario, gruposSecundarios, reconhecimentoFacialAtivo, faceEncoding, dataCadastroFacial)
    }

    /** The many-to-many table holds each (user, group) pair once. */
    ghost predicate Valid()
      reads this
    {
      Distinct(gruposSecundarios)
    }

    /** The primary group is not also secondary (trivially so while unsaved or without primary). */
    predicate SemDuplicacao()
      reads this
    {
      grupoPrimario.None? || pk.None? || grupoPrimario.value !in gruposSecundarios
    }

    /**
     * `Usuario.clean`: a primary group is required and must be active; a saved user
     * may not have the primary among the secondaries.
     */
    function Clean(t: Grupos.Table): (r: Outcome<ErroUsuario>)
      reads this
      requires grupoPrimario.Some? ==> grupoPrimario.value in t
      ensures r.Pass? <==> grupoPrimario.Some? && t[grupoPrimario.value].ativo && SemDuplicacao()
      ensures r == Fail(SemSetorPrincipal) <==> grupoPrimario.None?
      ensures r == Fail(SetorPrincipalInativo) <==>
                grupoPrimario.Some? && !t[grupoPrimario.value].ativo
    {
      if grupoPrimario.None? then Fail(SemSetorPrincipal)
      else if !t[grupoPrimario.value].ativo then Fail(SetorPrincipalInativo)
      else if pk.Some? && grupoPrimario.value in gruposSecundarios then
        Fail(SetorDuplicado(t[grupoPrimario.value].nome))
      else Pass
    }

    /**
     * `get_todos_grupos`: the primary followed by the secondaries. Reading the required
     * primary while it is unset, or the secondaries of an unsaved user, raises, so
     * both are demanded.
     */
    function GetTodosGrupos(): (r: seq<Pk>)
      reads this
      requires grupoPrimario.Some? && pk.Some?
      ensures forall g :: g in r <==> grupoPrimario == Some(g) || g in gruposSecundarios
      ensures |r| == |gruposSecundarios| + 1 && r[0] == grupoPrimario.value
      ensures r[1..] == gruposSecundarios
    {
      [grupoPrimario.value] + gruposSecundarios
    }

    /**
     * `pertence_grupo`: membership through the primary or a secondary group. The
     * primary must be set; the secondaries are read, and must then exist, only when
     * `g` is not the primary.
     */
    predicate PertenceGrupo(g: Pk)
      reads this
      requires grupoPrimario.Some? && (pk.Some? || grupoPrimario == Some(g))
      ensures grupoPrimario == Some(g) ==> PertenceGrupo(g)
      ensures pk.Some? ==> (PertenceGrupo(g) <==> g in GetTodosGrupos())
    {
      grupoPrimario == Some(g) || g in gruposSecundarios
    }

    /**
     * `validar_setores_unicos`: the primary must be set; True without checking while the
     * user is unsaved; otherwise False, or the error when asked to raise, exactly when
     * the primary is also secondary.
     */
    function ValidarSetoresUnicos(t: Grupos.Table, raiseException: bool): (r: Result<bool, ErroUsuario>)
      reads this
      requires grupoPrimario.Some? && grupoPrimario.value in t
      ensures r == Success(true) <==> SemDuplicacao()
      ensures r == Success(false) <==> !SemDuplicacao() && !raiseException
      ensures r.Failure? ==> raiseException && r.error == DuplicacaoSetores(t[grupoPrimario.value].nome)
    {
      if pk.None? then Success(true)
      else if grupoPrimario.value in gruposSecundarios then
        if raiseException then Failure(DuplicacaoSetores(t[grupoPrimario.value].nome))
        else Success(false)
      else Success(true)
    }

    /**
     * `_corrigir_setores_duplicados`: the primary must be set; for a saved user, removes
     * the primary from the secondaries; every other secondary stays, in order.
     */
    method CorrigirSetoresDuplicados()
      requires Valid() && grupoPrimario.Some?
      modifies this`gruposSecundarios
      ensures Valid() && SemDuplicacao()
      ensures pk.Some? ==> gruposSecundarios == Without(old(gruposSecundarios), grupoPrimario.value)
      ensures pk.None? ==> gruposSecundarios == old(gruposSecundarios)
    {
      if pk.None? {
        return;
      }
      if grupoPrimario.value in gruposSecundarios {
        WithoutDistinct(gruposSecundarios, grupoPrimario.value);
        gruposSecundarios := Without(gruposSecundarios, grupoPrimario.value);
      } else {
        WithoutAbsent(gruposSecundarios, grupoPrimario.value);
      }
    }

    /**
     * `save`: a user that already has a key is checked with `clean` first and, if that
     * fails, nothing is written; then the primary group is removed from the secondaries,
     * which a passing `clean` has already excluded, so nothing changes. A new user needs
     * its primary (the column is NOT NULL) and receives the key `novoPk` from the store;
     * its secondaries stand for the choice a form writes only after `save` returns, so
     * the correction finds no rows to remove and the choice is kept as it is.
     */
    method Save(t: Grupos.Table, novoPk: Pk) returns (r: Outcome<ErroUsuario>)
      requires Valid()
      requires grupoPrimario.Some? ==> grupoPrimario.value in t
      requires pk.None? ==> grupoPrimario.Some?
      modifies this`pk, this`gruposSecundarios
      ensures Valid() && gruposSecundarios == old(gruposSecundarios)
      ensures old(pk).Some? ==> r == old(Clean(t)) && pk == old(pk)
      ensures old(pk).Some? && r.Pass? ==> SemDuplicacao()
      ensures old(pk).None? ==> r == Pass && pk == Some(novoPk)
    {
      if pk.Some? {
        var c := Clean(t);
        if c.Fail? {
          return c;
        }
        WithoutAbsent(gruposSecundarios, grupoPrimario.value);
        CorrigirSetoresDuplicados();
      } else {
        pk := Some(novoPk);
      }
      r := Pass;
    }

    /** `resetar_tentativas_facial` (body not modelled): recorded as a call. */
    method ResetarTentativasFacial()
      modifies this`chamadasContador
      ensures chamadasContador == old(chamadasContador) + [Resetar]
    {
      chamadasContador := chamadasContador + [Resetar];
    }

    /** `incrementar_tentativas_facial` (body not modelled): recorded as a call. */
    method IncrementarTentativasFacial()
      modifies this`chamadasContador
      ensures chamadasContador == old(chamadasContador) + [Incrementar]
    {
      chamadasContador := chamadasContador + [Incrementar];
    }
  }

  /** A check that passes leaves nothing for the correction on save to fix. */
  lemma CleanPassesValidation(u: Usuario, t: Grupos.Table)
    requires u.grupoPrimario.Some? ==> u.grupoPrimario.value in t
    requires u.Clean(t).Pass?
    ensures u.ValidarSetoresUnicos(t, true) == Success(true)
    ensures u.PertenceGrupo(u.grupoPrimario.value)
  {
  }

  // ---------------------------------------------------------------------------
  // Grupo.get_total_usuarios

  /** `grupo.usuarios_primarios.count()` over the user table `us`. */
  function ContarPrimarios(us: seq<Usuario>, g: Pk): (r: nat)
    reads us
    ensures r <= |us|
    ensures r == 0 <==> forall i :: 0 <= i < |us| ==> us[i].grupoPrimario != Some(g)
    ensures r == |us| <==> forall i :: 0 <= i < |us| ==> us[i].grupoPrimario == Some(g)
  {
    if us == [] then 0
    else (if us[0].grupoPrimario == Some(g) then 1 else 0) + ContarPrimarios(us[1..], g)
  }

  /** `grupo.usuarios_secundarios.count()`: users having `g` among their secondaries. */
  function ContarSecundarios(us: seq<Usuario>, g: Pk): (r: nat)
    reads us
    ensures r <= |us|
    ensures r == 0 <==> forall i :: 0 <= i < |us| ==> g !in us[i].gruposSecundarios
    ensures r == |us| <==> forall i :: 0 <= i < |us| ==> g in us[i].gruposSecundarios
  {
    if us == [] then 0
    else (if g in us[0].gruposSecundarios then 1 else 0) + ContarSecundarios(us[1..], g)
  }

  /** `get_total_usuarios`: the primary count plus the secondary count. */
  function GetTotalUsuarios(us: seq<Usuario>, g: Pk): (r: nat)
    reads us
    ensures r <= 2 * |us|
    ensures r == 0 <==> forall i :: 0 <= i < |us| ==> !Membro(us[i], g)
  {
    ContarPrimarios(us, g) + ContarSecundarios(us, g)
  }

  /** `u` holds `g` as primary or as secondary: what `pertence_grupo` decides for a stored user. */
  predicate Membro(u: Usuario, g: Pk)
    reads u
  {
    u.grupoPrimario == Some(g) || g in u.gruposSecundarios
  }

  /** Users that belong to `g`, each counted once. */
  function ContarMembros(us: seq<Usuario>, g: Pk): nat
    reads us
  {
    if us == [] then 0
    else (if Membro(us[0], g) then 1 else 0) + ContarMembros(us[1..], g)
  }

  /** Users with `g` both as primary and as secondary. */
  function ContarDuplicados(us: seq<Usuario>, g: Pk): nat
    reads us
  {
    if us == [] then 0
    else (if us[0].grupoPrimario == Some(g) && g in us[0].gruposSecundarios then 1 else 0)
         + ContarDuplicados(us[1..], g)
  }

  /**
   * The total counts every member once and a second time each user holding `g` as both
   * primary and secondary; with no such user it is the number of members.
   */
  lemma {:induction false} TotalUsuariosContaMembros(us: seq<Usuario>, g: Pk)
    ensures GetTotalUsuarios(us, g) == ContarMembros(us, g) + ContarDuplicados(us, g)
    ensures ContarDuplicados(us, g) == 0 ==> GetTotalUsuarios(us, g) == ContarMembros(us, g)
  {
    if us != [] {
      TotalUsuariosContaMembros(us[1..], g);
    }
  }
}
