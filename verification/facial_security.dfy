/**
 * `FacialSecurityManager` of usuarios/facial_security.py: the attempt limiter over the
 * cache, the lazily built cipher, the wrappers around the face libraries, the login
 * flow (verify one given user, or identify among all enrolled users) and enrolment.
 * The image libraries, Fernet and pickle are foreign: they are fields of `Foreign`
 * and of module Cifra.
 */
module FacialSecurity {
  import opened Wrappers
  import opened Text
  import opened Cifra
  import opened Cache
  import Usuarios
  import Grupos

  /** Raw image data, as handed to the image libraries. */
  type Image = seq<bv8>

  /** What the blur and print-entropy probes make of an image (`ErroSonda`: they raised). */
  datatype LivenessProbe = Aprovada | Desfocada | BaixaEntropia | ErroSonda

  /**
   * The foreign capabilities: whether the face libraries imported, the liveness probes,
   * face detection (the number of faces found), encoding at the detected face, distance,
   * the key derived from `SECRET_KEY`, and whether `Fernet(key)` accepts a key. A
   * `Failure` or `None` stands for an exception (with its text).
   */
  datatype Foreign = Foreign(
    libsAvailable: bool,
    liveness: Image -> LivenessProbe,
    faceLocations: Image -> Result<nat, string>,
    faceEncodings: Image -> Result<seq<Encoding>, string>,
    faceDistance: (Encoding, Encoding) -> Option<real>,
    deriveKey: string -> Bytes,
    keyAccepted: Bytes -> bool)

  /** The Django settings the manager reads; None where a setting is not defined. */
  datatype Settings = Settings(
    confidenceThreshold: Option<real>,
    maxAttempts: Option<int>,
    attemptTimeout: Option<int>,
    encryptionKey: Option<Bytes>,
    secretKey: string)

  datatype Liveness = Liveness(vivo: bool, msg: string)

  datatype Comparacao = Comparacao(isMatch: bool, confidence: real)

  /** `check_attempt_limit`'s answer: allowed with the current count, or over the limit. */
  datatype LimitCheck = Permitido(attempts: int) | Bloqueado(limite: int)

  /** A login message; the formatted ones carry the values they show. */
  datatype LoginMessage =
    | Texto(s: string)
    | Reconhecido(confianca: real)
    | NaoReconhecido(confianca: real)
    | Identificado(usuario: Usuarios.Usuario, confianca: real)

  /** The dictionary `process_facial_login` returns (`confidence` None where the key is absent). */
  datatype LoginResult = LoginResult(
    success: bool, message: LoginMessage, user: Option<Usuarios.Usuario>, confidence: Option<real>)

  /** Where the single-user path ends once the image has yielded an encoding. */
  datatype Veredito = NaoConfigurado | DadosIlegiveis | Comparado(c: Comparacao)

  /**
   * How `register_face` ends: the pair it returns, or an exception raised by the
   * `user.save(update_fields=...)` inside it, which `register_face` does not catch
   * (the ValidationError of `Usuario.clean` for a saved user, Django's ValueError for
   * an update of a user that has no key).
   */
  datatype Cadastro = Devolvido(ok: bool, msg: string) | ErroValidacao(erro: Usuarios.ErroUsuario) | SemChavePrimaria

  /** The identify loop's state: the index of the best candidate so far and its confidence. */
  datatype Escolha = Escolha(indice: Option<nat>, melhor: real)

  const MsgSemLibs := "Bibliotecas de reconhecimento facial não disponíveis"
  const MsgLivenessIndisponivel := "Validação de liveness não disponível"
  const MsgDesfocada := "Imagem muito desfocada. Por favor, ajuste o foco da câmera"
  const MsgSpoofing := "Possível tentativa de spoofing detectada"
  const MsgLivenessAprovada := "Validação de liveness aprovada"
  const MsgNenhumaFace := "Nenhuma face detectada na imagem"
  const MsgMultiplasFaces :=
    "Múltiplas faces detectadas. Por favor, certifique-se de que apenas uma pessoa está na imagem"
  const MsgSemCaracteristicas := "Não foi possível extrair características faciais"
  const MsgSemFace := "Não foi possível processar a face"
  const MsgNaoConfigurado := "Reconhecimento facial não configurado para este usuário"
  const MsgDadosIlegiveis := "Erro ao acessar dados faciais do usuário"
  const MsgNaoIdentificado := "Usuário não identificado"
  const MsgErroCriptografia := "Erro ao processar dados faciais"
  const MsgCadastrada := "Face cadastrada com sucesso"

  // ---------------------------------------------------------------------------
  // The identify loop's selection

  predicate Casou(s: Option<Comparacao>) {
    s.Some? && s.value.isMatch
  }

  /**
   * The selection the identify loop makes over the candidates' scores in order (None:
   * the stored encoding did not decrypt): starting from confidence 0, a match replaces
   * the best so far only when its confidence is strictly greater.
   */
  function Melhor(scores: seq<Option<Comparacao>>): (r: Escolha)
    ensures r.indice.Some? ==>
              && r.indice.value < |scores| && Casou(scores[r.indice.value])
              && scores[r.indice.value].value.confidence == r.melhor && r.melhor > 0.0
    ensures r.indice.None? ==> r.melhor == 0.0
    decreases |scores|
  {
    if scores == [] then Escolha(None, 0.0)
    else
      var antes := Melhor(scores[..|scores| - 1]);
      var s := scores[|scores| - 1];
      if Casou(s) && s.value.confidence > antes.melhor then Escolha(Some(|scores| - 1), s.value.confidence)
      else antes
  }

  /** One more score: it is selected exactly when it is a match beating the best so far. */
  lemma MelhorSnoc(pre: seq<Option<Comparacao>>, s: Option<Comparacao>)
    ensures Melhor(pre + [s]) ==
              if Casou(s) && s.value.confidence > Melhor(pre).melhor then Escolha(Some(|pre|), s.value.confidence)
              else Melhor(pre)
  {
    assert (pre + [s])[..|pre|] == pre;
  }

  /**
   * The selected candidate has the greatest confidence among the matches, every match
   * before it has a strictly smaller one (ties keep the earlier candidate), and nothing
   * is selected exactly when no match has a positive confidence.
   */
  lemma {:induction false} MelhorCaracterizado(scores: seq<Option<Comparacao>>)
    ensures forall j :: 0 <= j < |scores| && Casou(scores[j]) ==>
              scores[j].value.confidence <= Melhor(scores).melhor
    ensures Melhor(scores).indice.Some? ==>
              forall j :: 0 <= j < Melhor(scores).indice.value && Casou(scores[j]) ==>
                scores[j].value.confidence < Melhor(scores).melhor
    ensures Melhor(scores).indice.None? <==>
              forall j :: 0 <= j < |scores| && Casou(scores[j]) ==> scores[j].value.confidence <= 0.0
    decreases |scores|
  {
    if scores != [] {
      var n := |scores| - 1;
      var pre := scores[..n];
      MelhorCaracterizado(pre);
      assert forall j :: 0 <= j < n ==> scores[j] == pre[j];
    }
  }

  // ---------------------------------------------------------------------------
  // The manager

  class FacialSecurityManager {
    const foreign: Foreign
    const settings: Settings
    const confidenceThreshold: real
    const maxAttempts: int
    const attemptTimeout: int
    /** The process-wide Django cache. */
    const cache: AttemptCache
    /** `self._cipher`: None until a use of `cipher` succeeds. */
    var cipherCache: Option<Fernet>

    /** `__init__`: the settings with their defaults 0.6, 3 and 300, and no cipher yet. */
    constructor (settings: Settings, foreign: Foreign, cache: AttemptCache)
      ensures this.settings == settings && this.foreign == foreign && this.cache == cache
      ensures confidenceThreshold == settings.confidenceThreshold.GetOr(0.6)
      ensures maxAttempts == settings.maxAttempts.GetOr(3)
      ensures attemptTimeout == settings.attemptTimeout.GetOr(300)
      ensures cipherCache.None? && Valid()
    {
      this.settings := settings;
      this.foreign := foreign;
      this.cache := cache;
      confidenceThreshold := settings.confidenceThreshold.GetOr(0.6);
      maxAttempts := settings.maxAttempts.GetOr(3);
      attemptTimeout := settings.attemptTimeout.GetOr(300);
      cipherCache := None;
    }

    /**
     * The cipher `cipher` builds: from `FACIAL_ENCRYPTION_KEY` when it is set and
     * non-empty, else from the key derived from `SECRET_KEY`; None where `Fernet(key)`
     * rejects the key.
     */
    function CifraEsperada(): Option<Fernet> {
      var key :=
        if settings.encryptionKey.Some? && settings.encryptionKey.value != [] then settings.encryptionKey.value
        else foreign.deriveKey(settings.secretKey);
      if foreign.keyAccepted(key) then Some(Fernet(key)) else None
    }

    /** The cached cipher, once built, is the one `cipher` builds. */
    ghost predicate Valid()
      reads this
    {
      cipherCache.None? || cipherCache == CifraEsperada()
    }

    /**
     * The `cipher` property: builds the cipher on first use and keeps it; a failure to
     * build it (None here, an exception in the source) leaves nothing cached.
     */
    method Cipher() returns (r: Option<Fernet>)
      requires Valid()
      modifies this`cipherCache
      ensures Valid() && r == CifraEsperada() && cipherCache == r
      ensures old(cipherCache).Some? ==> cipherCache == old(cipherCache)
    {
      if cipherCache.None? {
        var key: Bytes;
        if settings.encryptionKey.None? || settings.encryptionKey.value == [] {
          key := foreign.deriveKey(settings.secretKey);
        } else {
          key := settings.encryptionKey.value;
        }
        if !foreign.keyAccepted(key) {
          return None;
        }
        cipherCache := Some(Fernet(key));
      }
      r := cipherCache;
    }

    /** What `encrypt_encoding` returns: None for None and where the cipher cannot be built. */
    function Criptografado(e: Option<Encoding>): (r: Option<Token>)
      ensures r.Some? <==> e.Some? && CifraEsperada().Some?
      ensures r.Some? ==> Decrypt(CifraEsperada().value, r.value) == e
    {
      if e.None? then None
      else match CifraEsperada()
        case None => None
        case Some(f) => Some(Encrypt(f, e.value))
    }

    /** What `decrypt_encoding` returns: the encoding sealed under this manager's cipher, else None. */
    function Descriptografado(t: Option<Token>): (r: Option<Encoding>)
      ensures r.Some? ==> t.Some? && CifraEsperada().Some? && t.value == Encrypt(CifraEsperada().value, r.value)
      ensures t.Some? && CifraEsperada().Some? && (exists e :: t.value == Encrypt(CifraEsperada().value, e)) ==> r.Some?
    {
      if t.None? then None
      else match CifraEsperada()
        case None => None
        case Some(f) => Decrypt(f, t.value)
    }

    /** Whatever `encrypt_encoding` stores, `decrypt_encoding` gives back. */
    lemma CriptografiaIdaEVolta(e: Encoding)
      requires Criptografado(Some(e)).Some?
      ensures Descriptografado(Criptografado(Some(e))) == Some(e)
    {
    }

    /** `encrypt_encoding`. */
    method EncryptEncoding(e: Option<Encoding>) returns (r: Option<Token>)
      requires Valid()
      modifies this`cipherCache
      ensures Valid() && r == Criptografado(e)
    {
      if e.None? {
        return None;
      }
      var f := Cipher();
      if f.None? {
        return None;
      }
      r := Some(Encrypt(f.value, e.value));
    }

    /** `decrypt_encoding`. */
    method DecryptEncoding(t: Option<Token>) returns (r: Option<Encoding>)
      requires Valid()
      modifies this`cipherCache
      ensures Valid() && r == Descriptografado(t)
    {
      if t.None? {
        return None;
      }
      var f := Cipher();
      if f.None? {
        return None;
      }
      r := Decrypt(f.value, t.value);
    }

    /**
     * `validate_liveness`: refuses a blurred image or one with the entropy of a print;
     * passes without the libraries and when the probes raise.
     */
    function ValidateLiveness(image: Image): (r: Liveness)
      ensures !r.vivo <==> foreign.libsAvailable && foreign.liveness(image) in {Desfocada, BaixaEntropia}
      ensures r.msg != ""
    {
      if !foreign.libsAvailable then Liveness(true, MsgLivenessIndisponivel)
      else match foreign.liveness(image)
        case Desfocada => Liveness(false, MsgDesfocada)
        case BaixaEntropia => Liveness(false, MsgSpoofing)
        case ErroSonda => Liveness(true, MsgLivenessIndisponivel)
        case Aprovada => Liveness(true, MsgLivenessAprovada)
    }

    /**
     * `extract_face_encoding`: an encoding exactly when the libraries are present, one
     * face is found and an encoding is computed for it; otherwise the reason.
     */
    function ExtractFaceEncoding(image: Image): (r: Result<Encoding, string>)
      ensures r.Success? <==>
                && foreign.libsAvailable && foreign.faceLocations(image) == Success(1)
                && foreign.faceEncodings(image).Success? && foreign.faceEncodings(image).value != []
      ensures r.Success? ==> r.value == foreign.faceEncodings(image).value[0]
      ensures !foreign.libsAvailable ==> r == Failure(MsgSemLibs)
      ensures foreign.libsAvailable && foreign.faceLocations(image) == Success(0) ==> r == Failure(MsgNenhumaFace)
    {
      if !foreign.libsAvailable then Failure(MsgSemLibs)
      else match foreign.faceLocations(image)
        case Failure(e) => Failure(e)
        case Success(n) =>
          if n == 0 then Failure(MsgNenhumaFace)
          else if n > 1 then Failure(MsgMultiplasFaces)
          else match foreign.faceEncodings(image)
            case Failure(e) => Failure(e)
            case Success(encs) => if encs != [] then Success(encs[0]) else Failure(MsgSemCaracteristicas)
    }

    /**
     * `compare_faces`: a match exactly when the distance is within the tolerance
     * (inclusive; by default one minus the confidence threshold), with confidence
     * `(1 - distance) * 100`, unclamped; no match and confidence 0 without the libraries
     * or when the distance cannot be computed.
     */
    function CompareFaces(known: Encoding, unknown: Encoding, tolerance: Option<real>): (r: Comparacao)
      ensures r.isMatch <==>
                && foreign.libsAvailable && foreign.faceDistance(known, unknown).Some?
                && foreign.faceDistance(known, unknown).value <= tolerance.GetOr(1.0 - confidenceThreshold)
      ensures foreign.libsAvailable && foreign.faceDistance(known, unknown).Some? ==>
                r.confidence == (1.0 - foreign.faceDistance(known, unknown).value) * 100.0
      ensures !foreign.libsAvailable || foreign.faceDistance(known, unknown).None? ==> r == Comparacao(false, 0.0)
    {
      if !foreign.libsAvailable then Comparacao(false, 0.0)
      else
        var tol := if tolerance.None? then 1.0 - confidenceThreshold else tolerance.value;
        match foreign.faceDistance(known, unknown)
        case None => Comparacao(false, 0.0)
        case Some(distance) =>
          var confidence := (1.0 - distance) * 100.0;
          Comparacao(distance <= tol, confidence)
    }

    /**
     * With the default tolerance a comparison that ran is a match exactly when its
     * confidence reaches the threshold as a percentage; identical faces score 100.
     */
    lemma MatchSeAtingeLimiar(known: Encoding, unknown: Encoding)
      requires foreign.libsAvailable && foreign.faceDistance(known, unknown).Some?
      ensures CompareFaces(known, unknown, None).isMatch <==>
                CompareFaces(known, unknown, None).confidence >= confidenceThreshold * 100.0
      ensures foreign.faceDistance(known, unknown) == Some(0.0) ==> CompareFaces(known, unknown, None).confidence == 100.0
    {
    }

    // -------------------------------------------------------------------------
    // Attempt limiter

    /**
     * `check_attempt_limit`: over the limit exactly when the live count (0 when missing
     * or expired) is at least `max_attempts`; otherwise allowed, with the count.
     */
    function CheckAttemptLimit(userId: Option<Pk>, now: int): (r: LimitCheck)
      reads cache
      ensures r.Bloqueado? <==> Lookup(cache.entries, FacialAttempts(userId), 0, now) >= maxAttempts
      ensures r.Permitido? ==> r.attempts == Lookup(cache.entries, FacialAttempts(userId), 0, now)
      ensures r.Bloqueado? ==> r.limite == maxAttempts
    {
      var attempts := cache.Get(FacialAttempts(userId), 0, now);
      if attempts >= maxAttempts then Bloqueado(maxAttempts) else Permitido(attempts)
    }

    /**
     * `increment_attempts`: stores the live count plus one under the user's key, expiring
     * `attempt_timeout` from now, and returns it; other keys are untouched.
     */
    method IncrementAttempts(userId: Option<Pk>, now: int) returns (n: int)
      modifies cache
      ensures n == old(Lookup(cache.entries, FacialAttempts(userId), 0, now)) + 1
      ensures cache.entries == Bump(old(cache.entries), FacialAttempts(userId), attemptTimeout, now)
    {
      var attempts := cache.Get(FacialAttempts(userId), 0, now);
      cache.Set(FacialAttempts(userId), attempts + 1, attemptTimeout, now);
      n := attempts + 1;
    }

    /** `reset_attempts`: removes the user's key, after which the limiter sees 0. */
    method ResetAttempts(userId: Option<Pk>)
      modifies cache
      ensures cache.entries == old(cache.entries) - {FacialAttempts(userId)}
      ensures forall now :: CheckAttemptLimit(userId, now) == (if maxAttempts <= 0 then Bloqueado(maxAttempts) else Permitido(0))
    {
      cache.Delete(FacialAttempts(userId));
    }

    /**
     * Failed attempts each made before the previous one expires lock the user out once
     * they reach `max_attempts` (counting the attempts live before the burst), for
     * `attempt_timeout` after the last one; from then on the count is back to 0.
     */
    lemma {:induction false} BloqueioAposFalhas(m: map<CacheKey, Entry>, userId: Option<Pk>, ts: seq<int>, now: int)
      requires |ts| > 0
      requires forall i :: 0 < i < |ts| ==> ts[i] < ts[i - 1] + attemptTimeout
      requires cache.entries == Replay(m, FacialAttempts(userId), ts, attemptTimeout)
      ensures now < ts[|ts| - 1] + attemptTimeout ==>
                (CheckAttemptLimit(userId, now).Bloqueado? <==>
                   Lookup(m, FacialAttempts(userId), 0, ts[0]) + |ts| >= maxAttempts)
      ensures now >= ts[|ts| - 1] + attemptTimeout ==>
                CheckAttemptLimit(userId, now) == (if maxAttempts <= 0 then Bloqueado(maxAttempts) else Permitido(0))
    {
      ReplayCount(m, FacialAttempts(userId), ts, attemptTimeout);
    }

    // -------------------------------------------------------------------------
    // Login

    /**
     * The common first steps of `process_facial_login` and `register_face`: the
     * liveness check, then extraction; a failure carries a non-empty message.
     */
    function Preparar(image: Image): (r: Result<Encoding, string>)
      ensures r.Success? <==> ValidateLiveness(image).vivo && ExtractFaceEncoding(image).Success?
      ensures r.Success? ==> r.value == ExtractFaceEncoding(image).value
      ensures !ValidateLiveness(image).vivo ==> r == Failure(ValidateLiveness(image).msg)
      ensures r.Failure? ==> r.error != ""
    {
      var l := ValidateLiveness(image);
      if !l.vivo then Failure(l.msg)
      else match ExtractFaceEncoding(image)
        case Failure(msg) => Failure(if msg == "" then MsgSemFace else msg)
        case Success(e) => Success(e)
    }

    /**
     * Where the single-user path ends for a user with facial flag `ativo` and stored
     * ciphertext `stored`: not configured unless the flag is on and something is stored,
     * unreadable when it does not decrypt, else the comparison with the probe.
     */
    function VereditoUsuario(ativo: bool, stored: Option<Token>, probe: Encoding): (r: Veredito)
      ensures r.Comparado? <==> ativo && Present(stored) && Descriptografado(stored).Some?
      ensures r.Comparado? ==> r.c == CompareFaces(Descriptografado(stored).value, probe, None)
      ensures r == NaoConfigurado <==> !ativo || !Present(stored)
    {
      if !ativo || !Present(stored) then NaoConfigurado
      else match Descriptografado(stored)
        case None => DadosIlegiveis
        case Some(e) => Comparado(CompareFaces(e, probe, None))
    }

    /** The score of one candidate in the identify loop: None when its encoding does not decrypt. */
    function Pontuacao(stored: Option<Token>, probe: Encoding): Option<Comparacao> {
      match Descriptografado(stored)
      case None => None
      case Some(e) => Some(CompareFaces(e, probe, None))
    }

    /**
     * The scores of the candidates, in order; what each one is, `ScoresAt` states (kept
     * out of this contract so that it is not in scope wherever the scores are mentioned).
     */
    function Scores(cands: seq<Usuarios.Usuario>, probe: Encoding): (r: seq<Option<Comparacao>>)
      reads cands
      ensures |r| == |cands|
      decreases |cands|
    {
      if cands == [] then []
      else Scores(cands[..|cands| - 1], probe) + [Pontuacao(cands[|cands| - 1].faceEncoding, probe)]
    }

    /** Each score is the score of the candidate at the same position. */
    lemma {:induction false} ScoresAt(cands: seq<Usuarios.Usuario>, probe: Encoding)
      ensures forall i :: 0 <= i < |cands| ==> Scores(cands, probe)[i] == Pontuacao(cands[i].faceEncoding, probe)
      decreases |cands|
    {
      if cands != [] {
        var n := |cands| - 1;
        ScoresAt(cands[..n], probe);
        assert forall i :: 0 <= i < n ==> cands[..n][i] == cands[i];
      }
    }

    /** The identify loop of `process_facial_login`: the best match among `cands`. */
    method Identificar(cands: seq<Usuarios.Usuario>, probe: Encoding) returns (escolha: Escolha)
      requires Valid()
      modifies this`cipherCache
      ensures Valid() && escolha == Melhor(Scores(cands, probe))
    {
      ghost var scores := Scores(cands, probe);
      ScoresAt(cands, probe);
      var melhorMatch: Option<nat> := None;
      var melhorConfianca: real := 0.0;
      for i := 0 to |cands|
        invariant Valid()
        invariant Escolha(melhorMatch, melhorConfianca) == Melhor(scores[..i])
      {
        assert scores[..i + 1] == scores[..i] + [scores[i]];
        MelhorSnoc(scores[..i], scores[i]);
        var stored := DecryptEncoding(cands[i].faceEncoding);
        if stored.None? {
          continue;
        }
        var cmp := CompareFaces(stored.value, probe, None);
        if cmp.isMatch && cmp.confidence > melhorConfianca {
          melhorMatch := Some(i);
          melhorConfianca := cmp.confidence;
        }
      }
      assert scores[..|cands|] == scores;
      escolha := Escolha(melhorMatch, melhorConfianca);
    }

    /** `Usuario.objects.filter(reconhecimento_facial_ativo=True, face_encoding__isnull=False)` over the table `us`. */
    function Cadastrados(us: seq<Usuarios.Usuario>): (r: seq<Usuarios.Usuario>)
      reads us
      ensures forall i :: 0 <= i < |r| ==> r[i] in us && r[i].reconhecimentoFacialAtivo && r[i].faceEncoding.Some?
      ensures forall i :: 0 <= i < |us| && us[i].reconhecimentoFacialAtivo && us[i].faceEncoding.Some? ==> us[i] in r
      decreases |us|
    {
      if us == [] then []
      else
        var u := us[0];
        (if u.reconhecimentoFacialAtivo && u.faceEncoding.Some? then [u] else []) + Cadastrados(us[1..])
    }

    /** The dictionary the single-user path returns for `user` and a verdict. */
    function ResultadoVerificacao(user: Usuarios.Usuario, v: Veredito): LoginResult {
      match v
      case NaoConfigurado => LoginResult(false, Texto(MsgNaoConfigurado), None, None)
      case DadosIlegiveis => LoginResult(false, Texto(MsgDadosIlegiveis), None, None)
      case Comparado(c) =>
        if c.isMatch then LoginResult(true, Reconhecido(c.confidence), Some(user), Some(c.confidence))
        else LoginResult(false, NaoReconhecido(c.confidence), None, Some(c.confidence))
    }

    /** The user's counter calls on the single-user path: reset on a match, increment on a non-match. */
    function ChamadasDe(v: Veredito): seq<Usuarios.ChamadaContador> {
      if v.Comparado? then (if v.c.isMatch then [Usuarios.Resetar] else [Usuarios.Incrementar]) else []
    }

    /** The cache after the single-user path for key `k`: deleted on a match, incremented on a non-match. */
    function CacheApos(m: map<CacheKey, Entry>, k: CacheKey, v: Veredito, now: int): map<CacheKey, Entry> {
      if v.Comparado? then (if v.c.isMatch then m - {k} else Bump(m, k, attemptTimeout, now)) else m
    }

    /**
     * The single-user path of `process_facial_login` once the image has yielded `probe`:
     * a match resets both counters and logs the user in; a non-match increments both;
     * the other endings touch neither.
     */
    method VerificarUsuario(user: Usuarios.Usuario, probe: Encoding, now: int) returns (r: LoginResult)
      requires Valid()
      modifies this`cipherCache, cache, user`chamadasContador
      ensures Valid()
      ensures user.Campos() == old(user.Campos())
      ensures var v := VereditoUsuario(user.reconhecimentoFacialAtivo, user.faceEncoding, probe);
              && r == ResultadoVerificacao(user, v)
              && user.chamadasContador == old(user.chamadasContador) + ChamadasDe(v)
              && cache.entries == CacheApos(old(cache.entries), FacialAttempts(user.pk), v, now)
    {
      if !user.reconhecimentoFacialAtivo || !Present(user.faceEncoding) {
        return LoginResult(false, Texto(MsgNaoConfigurado), None, None);
      }
      var stored := DecryptEncoding(user.faceEncoding);
      if stored.None? {
        return LoginResult(false, Texto(MsgDadosIlegiveis), None, None);
      }
      var cmp := CompareFaces(stored.value, probe, None);
      if cmp.isMatch {
        user.ResetarTentativasFacial();
        ResetAttempts(user.pk);
        return LoginResult(true, Reconhecido(cmp.confidence), Some(user), Some(cmp.confidence));
      } else {
        user.IncrementarTentativasFacial();
        var _ := IncrementAttempts(user.pk, now);
        return LoginResult(false, NaoReconhecido(cmp.confidence), None, Some(cmp.confidence));
      }
    }

    /** The user the identify loop selects among the enrolled users of the table `us`, if any. */
    function Vencedor(us: seq<Usuarios.Usuario>, probe: Encoding): (w: Option<Usuarios.Usuario>)
      reads us
      ensures w.Some? ==> w.value in us && w.value.reconhecimentoFacialAtivo && w.value.faceEncoding.Some?
      ensures w.Some? <==> Melhor(Scores(Cadastrados(us), probe)).indice.Some?
    {
      var cands := Cadastrados(us);
      var e := Melhor(Scores(cands, probe));
      if e.indice.Some? then Some(cands[e.indice.value]) else None
    }

    /** The dictionary the identify path returns: the selected user with its confidence, or not identified. */
    function ResultadoIdentificacao(us: seq<Usuarios.Usuario>, probe: Encoding): LoginResult
      reads us
    {
      var confianca := Melhor(Scores(Cadastrados(us), probe)).melhor;
      match Vencedor(us, probe)
      case None => LoginResult(false, Texto(MsgNaoIdentificado), None, Some(0.0))
      case Some(u) => LoginResult(true, Identificado(u, confianca), Some(u), Some(confianca))
    }

    /** The cache after the identify path: the selected user's key deleted. */
    function CacheAposIdentificacao(m: map<CacheKey, Entry>, w: Option<Usuarios.Usuario>): map<CacheKey, Entry>
      reads if w.Some? then {w.value} else {}
    {
      if w.Some? then m - {FacialAttempts(w.value.pk)} else m
    }

    /**
     * The identify path of `process_facial_login` once the image has yielded `probe`:
     * the best match among the enrolled users is logged in and both of its counters are
     * reset; with no match nothing changes.
     */
    method IdentificarEntre(usuarios: seq<Usuarios.Usuario>, probe: Encoding) returns (r: LoginResult)
      requires Valid()
      modifies this`cipherCache, cache, usuarios
      ensures Valid()
      ensures forall u :: u in usuarios ==> u.Campos() == old(u.Campos())
      ensures var w := old(Vencedor(usuarios, probe));
              && r == old(ResultadoIdentificacao(usuarios, probe))
              && cache.entries == CacheAposIdentificacao(old(cache.entries), w)
              && forall u :: u in usuarios ==>
                   u.chamadasContador == old(u.chamadasContador) + (if w == Some(u) then [Usuarios.Resetar] else [])
    {
      var cands := Cadastrados(usuarios);
      ghost var w0 := Vencedor(usuarios, probe);
      ghost var r0 := ResultadoIdentificacao(usuarios, probe);
      var escolha := Identificar(cands, probe);
      if escolha.indice.Some? {
        var w := cands[escolha.indice.value];
        assert w0 == Some(w);
        assert r0 == LoginResult(true, Identificado(w, escolha.melhor), Some(w), Some(escolha.melhor));
        w.ResetarTentativasFacial();
        ResetAttempts(w.pk);
        return LoginResult(true, Identificado(w, escolha.melhor), Some(w), Some(escolha.melhor));
      }
      assert w0 == None;
      return LoginResult(false, Texto(MsgNaoIdentificado), None, Some(0.0));
    }

    /**
     * `process_facial_login`: liveness and extraction first; then, with a given user,
     * the single-user path, and otherwise identification among the enrolled users of
     * the table `usuarios`. The attempt limit is not consulted on either path.
     */
    method ProcessFacialLogin(image: Image, user: Option<Usuarios.Usuario>, usuarios: seq<Usuarios.Usuario>, now: int)
      returns (r: LoginResult)
      requires Valid()
      modifies this`cipherCache, cache, usuarios
      modifies if user.Some? then {user.value} else {}
      ensures Valid()
      ensures user.Some? ==> user.value.Campos() == old(user.value.Campos())
      ensures forall u :: u in usuarios ==> u.Campos() == old(u.Campos())
      ensures Preparar(image).Failure? ==>
                && r == LoginResult(false, Texto(Preparar(image).error), None, None)
                && cache.entries == old(cache.entries)
                && (user.Some? ==> user.value.chamadasContador == old(user.value.chamadasContador))
                && forall u :: u in usuarios ==> u.chamadasContador == old(u.chamadasContador)
      ensures Preparar(image).Success? && user.Some? ==>
                var v := VereditoUsuario(user.value.reconhecimentoFacialAtivo, user.value.faceEncoding, Preparar(image).value);
                && r == ResultadoVerificacao(user.value, v)
                && user.value.chamadasContador == old(user.value.chamadasContador) + ChamadasDe(v)
                && cache.entries == CacheApos(old(cache.entries), FacialAttempts(user.value.pk), v, now)
                && forall u :: u in usuarios && u != user.value ==> u.chamadasContador == old(u.chamadasContador)
      ensures Preparar(image).Success? && user.None? ==>
                var w := old(Vencedor(usuarios, Preparar(image).value));
                && r == old(ResultadoIdentificacao(usuarios, Preparar(image).value))
                && cache.entries == CacheAposIdentificacao(old(cache.entries), w)
                && forall u :: u in usuarios ==>
                     u.chamadasContador == old(u.chamadasContador) + (if w == Some(u) then [Usuarios.Resetar] else [])
    {
      var liveness := ValidateLiveness(image);
      if !liveness.vivo {
        return LoginResult(false, Texto(liveness.msg), None, None);
      }
      var extraido := ExtractFaceEncoding(image);
      if extraido.Failure? {
        var msg := if extraido.error == "" then MsgSemFace else extraido.error;
        return LoginResult(false, Texto(msg), None, None);
      }
      var probe := extraido.value;
      if user.Some? {
        r := VerificarUsuario(user.value, probe, now);
        return;
      }
      r := IdentificarEntre(usuarios, probe);
    }

    // -------------------------------------------------------------------------
    // Enrolment

    /** What `register_face` stores for an image, or the message it fails with. */
    function Registro(image: Image): (r: Result<Token, string>)
      ensures r.Success? <==> Preparar(image).Success? && Criptografado(Some(Preparar(image).value)).Some?
      ensures r.Success? ==> Descriptografado(Some(r.value)) == Some(Preparar(image).value)
      ensures r.Failure? ==> r.error != ""
    {
      match Preparar(image)
      case Failure(msg) => Failure(msg)
      case Success(e) =>
        match Criptografado(Some(e))
        case None => Failure(MsgErroCriptografia)
        case Some(t) => Success(t)
    }

    /**
     * `register_face`: a failure of liveness, extraction or encryption returns its
     * message and leaves the user as it was. Otherwise the ciphertext, the enabled flag
     * and the enrolment time are set on the user and `user.save` runs: it raises for a
     * user without a key and, for a saved user, when `Usuario.clean` refuses (the three
     * fields stay set on the object, but nothing is written); when `clean` passes, the
     * correction of the secondaries that `save` ends with finds nothing to remove.
     */
    method RegisterFace(user: Usuarios.Usuario, t: Grupos.Table, image: Image, now: int) returns (r: Cadastro)
      requires Valid() && user.Valid()
      requires user.grupoPrimario.Some? ==> user.grupoPrimario.value in t
      modifies this`cipherCache, user`faceEncoding, user`reconhecimentoFacialAtivo, user`dataCadastroFacial
      modifies user`gruposSecundarios
      ensures Valid()
      ensures Registro(image).Failure? ==> r == Devolvido(false, Registro(image).error) && unchanged(user)
      ensures Registro(image).Success? ==>
                && user.faceEncoding == Some(Registro(image).value)
                && user.reconhecimentoFacialAtivo && user.dataCadastroFacial == Some(now)
                && user.gruposSecundarios == old(user.gruposSecundarios)
                && r == (if old(user.pk).None? then SemChavePrimaria
                         else if old(user.Clean(t)).Fail? then ErroValidacao(old(user.Clean(t)).error)
                         else Devolvido(true, MsgCadastrada))
    {
      var liveness := ValidateLiveness(image);
      if !liveness.vivo {
        return Devolvido(false, liveness.msg);
      }
      var extraido := ExtractFaceEncoding(image);
      if extraido.Failure? {
        return Devolvido(false, if extraido.error == "" then MsgSemFace else extraido.error);
      }
      var encrypted := EncryptEncoding(Some(extraido.value));
      if encrypted.None? {
        return Devolvido(false, MsgErroCriptografia);
      }
      user.faceEncoding := encrypted;
      user.reconhecimentoFacialAtivo := true;
      user.dataCadastroFacial := Some(now);
      if user.pk.None? {
        return SemChavePrimaria;
      }
      var c := user.Clean(t);
      if c.Fail? {
        return ErroValidacao(c.error);
      }
      WithoutAbsent(user.gruposSecundarios, user.grupoPrimario.value);
      user.CorrigirSetoresDuplicados();
      return Devolvido(true, MsgCadastrada);
    }

    /**
     * After a successful enrolment the single-user login path reaches the comparison,
     * against exactly the encoding extracted at enrolment.
     */
    lemma CadastroHabilitaVerificacao(image: Image, probe: Encoding)
      requires Registro(image).Success?
      ensures VereditoUsuario(true, Some(Registro(image).value), probe)
              == Comparado(CompareFaces(Preparar(image).value, probe, None))
    {
    }
  }
}
