/**
 * The group hierarchy of usuarios/models.py (`Grupo`): a table of groups keyed by
 * primary key, each with an optional parent. The upward walks of the source are
 * methods proved against the ancestor chain, a ghost sequence that is unique
 * whenever the walk from a group reaches a root.
 */
module Grupos {
  import opened Wrappers
  import opened Text

  datatype Grupo = Grupo(nome: string, grupoPai: Option<Pk>, ativo: bool)

  /** The saved groups, by primary key. */
  type Table = map<Pk, Grupo>

  const Separador := " > "

  /** Every parent reference points at a saved group (the foreign key's integrity). */
  ghost predicate Closed(t: Table) {
    forall g :: g in t && t[g].grupoPai.Some? ==> t[g].grupoPai.value in t
  }

  // ---------------------------------------------------------------------------
  // Ancestor chains

  /** `c` is the walk from `g` up the parents: `g` first, a root last. */
  ghost predicate IsChain(t: Table, g: Pk, c: seq<Pk>)
    decreases |c|
  {
    && |c| > 0 && c[0] == g && g in t
    && (match t[g].grupoPai
        case None => |c| == 1
        case Some(p) => IsChain(t, p, c[1..]))
  }

  /** The walk up from `g` ends at a root (it does not run into a cycle). */
  ghost predicate Rooted(t: Table, g: Pk) {
    g in t && exists c :: IsChain(t, g, c)
  }

  /** Entry `k` of a chain is saved, its parent is entry `k + 1`, and the rest of the chain is its own. */
  lemma {:induction false} ChainAt(t: Table, g: Pk, c: seq<Pk>, k: nat)
    requires IsChain(t, g, c) && k < |c|
    ensures c[k] in t
    ensures t[c[k]].grupoPai == if k + 1 < |c| then Some(c[k + 1]) else None
    ensures IsChain(t, c[k], c[k..])
    decreases k
  {
    if k > 0 {
      var p := t[g].grupoPai.value;
      ChainAt(t, p, c[1..], k - 1);
      assert c[1..][k - 1] == c[k];
      assert c[1..][k - 1..] == c[k..];
    }
  }

  lemma {:induction false} ChainUnique(t: Table, g: Pk, c1: seq<Pk>, c2: seq<Pk>)
    requires IsChain(t, g, c1) && IsChain(t, g, c2)
    ensures c1 == c2
    decreases |c1|
  {
    match t[g].grupoPai
    case None =>
    case Some(p) =>
      ChainUnique(t, p, c1[1..], c2[1..]);
      assert c1 == [g] + c1[1..] && c2 == [g] + c2[1..];
  }

  /** A chain never visits a group twice. */
  lemma ChainDistinct(t: Table, g: Pk, c: seq<Pk>)
    requires IsChain(t, g, c)
    ensures Distinct(c)
  {
    forall i, j | 0 <= i < j < |c|
      ensures c[i] != c[j]
    {
      if c[i] == c[j] {
        ChainAt(t, g, c, i);
        ChainAt(t, g, c, j);
        ChainUnique(t, c[i], c[i..], c[j..]);
        assert false;
      }
    }
  }

  lemma ChainInTable(t: Table, g: Pk, c: seq<Pk>)
    requires IsChain(t, g, c)
    ensures forall x :: x in c ==> x in t
  {
    forall k | 0 <= k < |c|
      ensures c[k] in t
    {
      ChainAt(t, g, c, k);
    }
  }

  /** The chain from a rooted group. */
  ghost function Chain(t: Table, g: Pk): (c: seq<Pk>)
    requires Rooted(t, g)
    ensures IsChain(t, g, c)
    ensures forall x :: x in c ==> x in t
  {
    var c :| IsChain(t, g, c);
    ChainInTable(t, g, c);
    c
  }

  /** A group's chain is itself followed by its parent's chain. */
  lemma ChainOfParent(t: Table, g: Pk, p: Pk)
    requires Rooted(t, g) && t[g].grupoPai == Some(p)
    ensures Rooted(t, p)
    ensures Chain(t, g) == [g] + Chain(t, p)
  {
    var c := Chain(t, g);
    assert IsChain(t, p, c[1..]);
    ChainUnique(t, p, c[1..], Chain(t, p));
    assert c == [g] + c[1..];
  }

  /** Any suffix of a chain is the chain of the group it starts at. */
  lemma ChainSuffix(t: Table, x: Pk, i: nat)
    requires Rooted(t, x) && i < |Chain(t, x)|
    ensures Rooted(t, Chain(t, x)[i])
    ensures Chain(t, Chain(t, x)[i]) == Chain(t, x)[i..]
  {
    var c := Chain(t, x);
    ChainAt(t, x, c, i);
    ChainUnique(t, c[i], c[i..], Chain(t, c[i]));
  }

  lemma {:induction false} DistinctBound(c: seq<Pk>, s: set<Pk>)
    requires Distinct(c)
    requires forall x :: x in c ==> x in s
    ensures |c| <= |s|
  {
    if c != [] {
      var rest := c[1..];
      forall x | x in rest
        ensures x in s - {c[0]}
      {
        var k :| 0 <= k < |rest| && rest[k] == x;
        assert c[k + 1] == x;
      }
      assert Distinct(rest) by {
        forall i, j | 0 <= i < j < |rest|
          ensures rest[i] != rest[j]
        {
          assert rest[i] == c[i + 1] && rest[j] == c[j + 1];
        }
      }
      DistinctBound(rest, s - {c[0]});
    }
  }

  /** A chain is no longer than the table (it is made of distinct saved groups). */
  lemma ChainBound(t: Table, g: Pk)
    requires Rooted(t, g)
    ensures |Chain(t, g)| <= |t|
  {
    ChainDistinct(t, g, Chain(t, g));
    DistinctBound(Chain(t, g), t.Keys);
    assert |t.Keys| == |t|;
  }

  /** The number of proper ancestors. */
  ghost function Level(t: Table, g: Pk): nat
    requires Rooted(t, g)
  {
    |Chain(t, g)| - 1
  }

  /** `get_nivel_hierarquia` as a specification: 0 exactly for roots, one more than the parent otherwise. */
  lemma LevelOfParent(t: Table, g: Pk)
    requires Rooted(t, g)
    ensures Level(t, g) == 0 <==> t[g].grupoPai.None?
    ensures t[g].grupoPai.Some? ==>
              Rooted(t, t[g].grupoPai.value) && Level(t, g) == Level(t, t[g].grupoPai.value) + 1
  {
    ChainAt(t, g, Chain(t, g), 0);
    if t[g].grupoPai.Some? {
      ChainOfParent(t, g, t[g].grupoPai.value);
    }
  }

  // ---------------------------------------------------------------------------
  // The full path: __str__ and get_hierarquia_completa

  /** The names along a chain, root first (the chain read backwards). */
  ghost function RootFirst(t: Table, c: seq<Pk>): (r: seq<string>)
    requires forall x :: x in c ==> x in t
    ensures |r| == |c|
    ensures forall i :: 0 <= i < |c| ==> r[i] == t[c[|c| - 1 - i]].nome
  {
    if c == [] then []
    else
      var r := [t[c[|c| - 1]].nome] + RootFirst(t, c[..|c| - 1]);
      assert forall i :: 1 <= i < |c| ==> r[i] == RootFirst(t, c[..|c| - 1])[i - 1];
      r
  }

  lemma RootFirstCons(t: Table, g: Pk, c: seq<Pk>)
    requires g in t && forall x :: x in c ==> x in t
    ensures RootFirst(t, [g] + c) == RootFirst(t, c) + [t[g].nome]
  {
    var lhs, rhs := RootFirst(t, [g] + c), RootFirst(t, c) + [t[g].nome];
    assert |lhs| == |rhs|;
    forall i | 0 <= i < |lhs|
      ensures lhs[i] == rhs[i]
    {
      if i < |c| {
        assert ([g] + c)[|c| - i] == c[|c| - 1 - i];
      }
    }
  }

  /** The ancestor names of `g`, root first, ending with its own name. */
  ghost function PathNames(t: Table, g: Pk): seq<string>
    requires Rooted(t, g)
  {
    RootFirst(t, Chain(t, g))
  }

  /**
   * `__str__`: the parent's text, `' > '`, then the own name. The text ends with the
   * own name and holds one separator per proper ancestor (`StrIsPath` gives it whole).
   */
  function Str(t: Table, g: Pk): (r: string)
    requires Rooted(t, g)
    ensures |t[g].nome| <= |r| && r[|r| - |t[g].nome|..] == t[g].nome
    ensures t[g].grupoPai.None? ==> r == t[g].nome
    ensures |r| >= |Separador| * Level(t, g) + |t[g].nome|
    decreases |Chain(t, g)|
  {
    LevelOfParent(t, g);
    match t[g].grupoPai
    case None => t[g].nome
    case Some(p) =>
      ChainOfParent(t, g, p);
      Str(t, p) + Separador + t[g].nome
  }

  /** `__str__` is the root-first path joined by `' > '`, ending with the group's own name. */
  lemma {:induction false} StrIsPath(t: Table, g: Pk)
    requires Rooted(t, g)
    ensures Str(t, g) == Join(PathNames(t, g), Separador)
    ensures |PathNames(t, g)| == Level(t, g) + 1
    ensures PathNames(t, g)[Level(t, g)] == t[g].nome
    decreases |Chain(t, g)|
  {
    var c := Chain(t, g);
    ChainAt(t, g, c, 0);
    match t[g].grupoPai
    case None =>
      assert c == [g];
    case Some(p) =>
      ChainOfParent(t, g, p);
      StrIsPath(t, p);
      RootFirstCons(t, g, Chain(t, p));
      JoinSnoc(PathNames(t, p), t[g].nome, Separador);
  }

  /**
   * `get_hierarquia_completa`: walks up from the group, inserting each name at the
   * front of a list, then joins the list with `' > '`.
   */
  method GetHierarquiaCompleta(t: Table, g: Pk) returns (r: string)
    requires Rooted(t, g)
    ensures r == Join(PathNames(t, g), Separador)
    ensures r == Str(t, g)
  {
    ghost var c := Chain(t, g);
    var hierarquia: seq<string> := [];
    var atual: Option<Pk> := Some(g);
    ghost var k := 0;
    while atual.Some?
      invariant 0 <= k <= |c|
      invariant atual == if k < |c| then Some(c[k]) else None
      invariant hierarquia == RootFirst(t, c[..k])
      decreases |c| - k
    {
      ChainAt(t, g, c, k);
      assert c[..k + 1][..k] == c[..k];
      hierarquia := [t[atual.value].nome] + hierarquia;
      atual := t[atual.value].grupoPai;
      k := k + 1;
    }
    assert c[..k] == c;
    r := Join(hierarquia, Separador);
    StrIsPath(t, g);
  }

  /** `get_nivel_hierarquia`: counts the steps from the parent up to a root. */
  method GetNivelHierarquia(t: Table, g: Pk) returns (nivel: nat)
    requires Rooted(t, g)
    ensures nivel == Level(t, g)
    ensures nivel == 0 <==> t[g].grupoPai.None?
  {
    ghost var c := Chain(t, g);
    ChainAt(t, g, c, 0);
    nivel := 0;
    var atual := t[g].grupoPai;
    ghost var k := 1;
    while atual.Some?
      invariant 1 <= k <= |c|
      invariant atual == if k < |c| then Some(c[k]) else None
      invariant nivel == k - 1
      decreases |c| - k
    {
      ChainAt(t, g, c, k);
      nivel := nivel + 1;
      atual := t[atual.value].grupoPai;
      k := k + 1;
    }
  }

  // ---------------------------------------------------------------------------
  // Grupo.clean: the cycle check with a visited set

  datatype ErroGrupo = PaiDeSiMesmo | ReferenciaCircular | NaPropriaHierarquia {
    function Mensagem(): string {
      match this
      case PaiDeSiMesmo => "Um grupo não pode ser pai de si mesmo."
      case ReferenciaCircular => "Referência circular detectada na hierarquia de grupos."
      case NaPropriaHierarquia =>
        "Referência circular detectada: este grupo está na sua própria hierarquia pai."
    }
  }

  /** `w` is the start of the upward walk from `p`, and `next` is where the walk goes after it. */
  ghost predicate IsWalk(t: Table, p: Pk, w: seq<Pk>, next: Option<Pk>) {
    && (forall i :: 0 <= i < |w| ==> w[i] in t)
    && (|w| == 0 ==> next == Some(p))
    && (|w| > 0 ==> w[0] == p && next == t[w[|w| - 1]].grupoPai)
    && (forall i :: 0 <= i < |w| - 1 ==> t[w[i]].grupoPai == Some(w[i + 1]))
  }

  /** A walk follows the chain: it is a prefix of it, and its next step is the chain's next entry. */
  lemma {:induction false} WalkPrefix(t: Table, p: Pk, c: seq<Pk>, w: seq<Pk>, next: Option<Pk>)
    requires IsChain(t, p, c) && IsWalk(t, p, w, next)
    ensures |w| <= |c|
    ensures forall i :: 0 <= i < |w| ==> w[i] == c[i]
    ensures next == if |w| < |c| then Some(c[|w|]) else None
    decreases |w|
  {
    if |w| > 0 {
      var n := |w| - 1;
      WalkPrefix(t, p, c, w[..n], Some(w[n]));
      ChainAt(t, p, c, n);
    }
  }

  /** A walk that stops (reaches a group without parent) is a chain. */
  lemma {:induction false} WalkIsChain(t: Table, p: Pk, w: seq<Pk>)
    requires |w| > 0 && IsWalk(t, p, w, None)
    ensures IsChain(t, p, w)
    decreases |w|
  {
    if |w| > 1 {
      WalkIsChain(t, w[1], w[1..]);
    }
  }

  /** A walk whose next step revisits a group never reaches a root. */
  lemma RevisitIsCycle(t: Table, p: Pk, w: seq<Pk>, next: Option<Pk>)
    requires IsWalk(t, p, w, next) && next.Some? && next.value in w
    ensures !Rooted(t, p)
  {
    if Rooted(t, p) {
      var c := Chain(t, p);
      var j :| 0 <= j < |w| && w[j] == next.value;
      WalkPrefix(t, p, c, w, next);
      ChainDistinct(t, p, c);
      assert false;
    }
  }

  /** A walk that stops is the chain of its start. */
  lemma WalkEnds(t: Table, p: Pk, w: seq<Pk>)
    requires IsWalk(t, p, w, None)
    ensures Rooted(t, p) && Chain(t, p) == w
  {
    WalkIsChain(t, p, w);
    ChainUnique(t, p, w, Chain(t, p));
  }

  /** Taking one more step keeps a walk. */
  lemma WalkStep(t: Table, p: Pk, w: seq<Pk>, a: Pk)
    requires IsWalk(t, p, w, Some(a)) && a in t
    ensures IsWalk(t, p, w + [a], t[a].grupoPai)
  {
    var w' := w + [a];
    forall i | 0 <= i < |w'| - 1
      ensures t[w'[i]].grupoPai == Some(w'[i + 1])
    {
      if i < |w| - 1 {
        assert w'[i] == w[i] && w'[i + 1] == w[i + 1];
      }
    }
  }

  /** A group the walk reaches lies on the chain, when there is one. */
  lemma WalkReaches(t: Table, p: Pk, w: seq<Pk>, a: Pk)
    requires IsWalk(t, p, w, Some(a))
    ensures Rooted(t, p) ==> a in Chain(t, p)
  {
    if Rooted(t, p) {
      WalkPrefix(t, p, Chain(t, p), w, Some(a));
    }
  }

  /** Visiting one more saved group leaves fewer unvisited ones. */
  lemma FewerUnvisited(keys: set<Pk>, visited: set<Pk>, a: Pk)
    requires a in keys && a !in visited
    ensures |keys - (visited + {a})| < |keys - visited|
  {
    assert keys - (visited + {a}) == (keys - visited) - {a};
  }

  /** Two walks from the same group agree on their common length; the shorter one's next step is the longer one's next entry. */
  lemma {:induction false} WalksAgree(t: Table, p: Pk, v: seq<Pk>, nv: Option<Pk>, w: seq<Pk>, nw: Option<Pk>)
    requires IsWalk(t, p, v, nv) && IsWalk(t, p, w, nw) && |v| <= |w|
    ensures forall i :: 0 <= i < |v| ==> v[i] == w[i]
    ensures nv == if |v| < |w| then Some(w[|v|]) else nw
    decreases |v|
  {
    if |v| > 0 {
      var n := |v| - 1;
      WalksAgree(t, p, v[..n], Some(v[n]), w, nw);
    }
  }

  /** The walk up from `p` reaches `k` before it revisits any group. */
  ghost predicate ChegaAntes(t: Table, p: Pk, k: Pk) {
    exists w: seq<Pk> :: IsWalk(t, p, w, Some(k)) && Distinct(w) && k !in w
  }

  /** A walk without repeats that steps to `k`, having avoided it, witnesses `ChegaAntes`. */
  lemma ChegaAntesPor(t: Table, p: Pk, w: seq<Pk>, k: Pk)
    requires IsWalk(t, p, w, Some(k)) && Distinct(w) && k !in w
    ensures ChegaAntes(t, p, k)
  {
  }

  /** A walk that avoids `k` and then stops or revisits a group never reaches `k` first. */
  lemma NaoChegaAntes(t: Table, p: Pk, w: seq<Pk>, next: Option<Pk>, k: Pk)
    requires IsWalk(t, p, w, next) && k !in w
    requires next.None? || next.value in w
    ensures !ChegaAntes(t, p, k)
  {
    if ChegaAntes(t, p, k) {
      var v: seq<Pk> :| IsWalk(t, p, v, Some(k)) && Distinct(v) && k !in v;
      if |v| <= |w| {
        WalksAgree(t, p, v, Some(k), w, next);
      } else {
        WalksAgree(t, p, w, next, v, Some(k));
      }
    }
  }

  /**
   * `Grupo.clean` for a group with primary key `pk` (None while unsaved) and proposed
   * parent `grupoPai`: the parent may not be the group itself, and the walk up from the
   * parent may neither revisit a group nor reach the group's own key.
   */
  method Clean(t: Table, pk: Option<Pk>, grupoPai: Option<Pk>) returns (r: Outcome<ErroGrupo>)
    requires Closed(t)
    requires grupoPai.Some? ==> grupoPai.value in t
    ensures r == Fail(PaiDeSiMesmo) <==> pk.Some? && grupoPai == pk
    ensures r.Pass? <==>
              || grupoPai.None?
              || (Rooted(t, grupoPai.value) && (pk.None? || pk.value !in Chain(t, grupoPai.value)))
    ensures r == Fail(ReferenciaCircular) ==> grupoPai.Some? && !Rooted(t, grupoPai.value)
    ensures r == Fail(NaPropriaHierarquia) <==>
              grupoPai.Some? && pk.Some? && pk != grupoPai && ChegaAntes(t, grupoPai.value, pk.value)
    ensures (grupoPai.Some? && pk.Some? && pk != grupoPai && Rooted(t, grupoPai.value)
             && pk.value in Chain(t, grupoPai.value)) ==> r == Fail(NaPropriaHierarquia)
    ensures grupoPai.Some? && pk.None? && !Rooted(t, grupoPai.value) ==> r == Fail(ReferenciaCircular)
  {
    if grupoPai.None? {
      return Pass;
    }
    var p := grupoPai.value;
    if pk == Some(p) {
      return Fail(PaiDeSiMesmo);
    }
    var gruposPais: set<Pk> := {};
    var atual: Option<Pk> := Some(p);
    ghost var w: seq<Pk> := [];
    while atual.Some?
      invariant IsWalk(t, p, w, atual)
      invariant forall x :: x in gruposPais <==> x in w
      invariant gruposPais <= t.Keys
      invariant atual.Some? ==> atual.value in t
      invariant pk.Some? ==> pk.value !in w
      invariant Distinct(w)
      decreases |t.Keys - gruposPais|
    {
      var a := atual.value;
      if a in gruposPais {
        RevisitIsCycle(t, p, w, atual);
        if pk.Some? {
          NaoChegaAntes(t, p, w, atual, pk.value);
        }
        return Fail(ReferenciaCircular);
      }
      if pk.Some? && a == pk.value {
        WalkReaches(t, p, w, a);
        ChegaAntesPor(t, p, w, pk.value);
        return Fail(NaPropriaHierarquia);
      }
      WalkStep(t, p, w, a);
      FewerUnvisited(t.Keys, gruposPais, a);
      DistinctConcat(w, [a]);
      gruposPais := gruposPais + {a};
      w := w + [a];
      atual := t[a].grupoPai;
    }
    WalkEnds(t, p, w);
    if pk.Some? {
      NaoChegaAntes(t, p, w, None, pk.value);
    }
    return Pass;
  }

  // ---------------------------------------------------------------------------
  // get_todos_subgrupos

  /** Every saved group is rooted, and `order` lists each saved group once (the `ordering` of the model). */
  ghost predicate Forest(t: Table, order: seq<Pk>) {
    && (forall g :: g in t ==> Rooted(t, g))
    && Distinct(order)
    && (forall x :: x in order <==> x in t)
  }

  /** `x` is a proper descendant of `a`. */
  ghost predicate Under(t: Table, a: Pk, x: Pk) {
    Rooted(t, x) && x != a && a in Chain(t, x)
  }

  /** `self.subgrupos.all()`: the groups whose parent is `g`, in table order. */
  function Filhos(t: Table, order: seq<Pk>, g: Pk): (r: seq<Pk>)
    requires forall x :: x in order ==> x in t
    ensures forall x :: x in r <==> x in order && t[x].grupoPai == Some(g)
  {
    if order == [] then []
    else if t[order[0]].grupoPai == Some(g) then [order[0]] + Filhos(t, order[1..], g)
    else Filhos(t, order[1..], g)
  }

  lemma {:induction false} FilhosDistinct(t: Table, order: seq<Pk>, g: Pk)
    requires forall x :: x in order ==> x in t
    requires Distinct(order)
    ensures Distinct(Filhos(t, order, g))
  {
    if order != [] {
      var rest := order[1..];
      assert Distinct(rest) by {
        forall i, j | 0 <= i < j < |rest|
          ensures rest[i] != rest[j]
        {
          assert rest[i] == order[i + 1] && rest[j] == order[j + 1];
        }
      }
      FilhosDistinct(t, rest, g);
      assert order[0] !in rest by {
        forall k | 0 <= k < |rest|
          ensures rest[k] != order[0]
        {
          assert rest[k] == order[k + 1];
        }
      }
    }
  }

  /** A child's chain is the child followed by the parent's chain, and it still fits in the table. */
  lemma ChildChain(t: Table, order: seq<Pk>, g: Pk, k: Pk)
    requires Forest(t, order) && k in t && t[k].grupoPai == Some(g)
    ensures Rooted(t, g) && Rooted(t, k)
    ensures Chain(t, k) == [k] + Chain(t, g)
    ensures |Chain(t, k)| <= |t|
  {
    ChainOfParent(t, k, g);
    ChainBound(t, k);
  }

  /** The specification of `get_todos_subgrupos`: the children, then each child's subgroups in turn. */
  ghost function Subgrupos(t: Table, order: seq<Pk>, g: Pk): seq<Pk>
    requires Forest(t, order) && g in t
    decreases |t| - |Chain(t, g)|, 1
  {
    ChainBound(t, g);
    var fs := Filhos(t, order, g);
    fs + Descendencia(t, order, g, fs)
  }

  /** The subgroups of each of `ks` (children of `g`), concatenated in order. */
  ghost function Descendencia(t: Table, order: seq<Pk>, g: Pk, ks: seq<Pk>): seq<Pk>
    requires Forest(t, order) && g in t
    requires forall k :: k in ks ==> k in t && t[k].grupoPai == Some(g)
    decreases |t| - |Chain(t, g)|, 0, |ks|
  {
    if ks == [] then []
    else
      var k := ks[|ks| - 1];
      ChildChain(t, order, g, k);
      Descendencia(t, order, g, ks[..|ks| - 1]) + Subgrupos(t, order, k)
  }

  lemma DescendenciaSnoc(t: Table, order: seq<Pk>, g: Pk, ks: seq<Pk>, k: Pk)
    requires Forest(t, order) && g in t
    requires forall x :: x in ks + [k] ==> x in t && t[x].grupoPai == Some(g)
    ensures Descendencia(t, order, g, ks + [k]) == Descendencia(t, order, g, ks) + Subgrupos(t, order, k)
  {
    assert (ks + [k])[..|ks|] == ks;
  }

  /** The subgroups start with the children. */
  lemma SubgruposStartWithChildren(t: Table, order: seq<Pk>, g: Pk)
    requires Forest(t, order) && g in t
    ensures |Filhos(t, order, g)| <= |Subgrupos(t, order, g)|
    ensures Subgrupos(t, order, g)[..|Filhos(t, order, g)|] == Filhos(t, order, g)
  {
    var fs := Filhos(t, order, g);
    assert Subgrupos(t, order, g) == fs + Descendencia(t, order, g, fs);
    assert (fs + Descendencia(t, order, g, fs))[..|fs|] == fs;
  }

  /** A prefix of the children are children, and one more child extends their subgroups. */
  lemma DescendenciaPrefix(t: Table, order: seq<Pk>, g: Pk, i: nat)
    requires Forest(t, order) && g in t && i < |Filhos(t, order, g)|
    ensures forall k :: k in Filhos(t, order, g)[..i + 1] ==> k in t && t[k].grupoPai == Some(g)
    ensures
      var fs := Filhos(t, order, g);
      Descendencia(t, order, g, fs[..i + 1]) == Descendencia(t, order, g, fs[..i]) + Subgrupos(t, order, fs[i])
  {
    var fs := Filhos(t, order, g);
    assert fs[..i + 1] == fs[..i] + [fs[i]];
    DescendenciaSnoc(t, order, g, fs[..i], fs[i]);
  }

  lemma ChildIsUnder(t: Table, order: seq<Pk>, g: Pk, k: Pk)
    requires Forest(t, order) && k in t && t[k].grupoPai == Some(g)
    ensures Under(t, g, k)
    ensures |Chain(t, k)| == |Chain(t, g)| + 1
  {
    ChildChain(t, order, g, k);
    ChainDistinct(t, k, Chain(t, k));
    assert Chain(t, k)[1] == g;
  }

  /** A descendant's chain strictly extends its ancestor's chain. */
  lemma UnderLonger(t: Table, a: Pk, x: Pk)
    requires Rooted(t, a) && Under(t, a, x)
    ensures |Chain(t, x)| > |Chain(t, a)|
  {
    var c := Chain(t, x);
    var i :| 0 <= i < |c| && c[i] == a;
    ChainSuffix(t, x, i);
    assert i != 0;
  }

  lemma UnderTrans(t: Table, a: Pk, b: Pk, x: Pk)
    requires Under(t, a, b) && Under(t, b, x)
    ensures Under(t, a, x)
  {
    var c := Chain(t, x);
    var i :| 0 <= i < |c| && c[i] == b;
    ChainSuffix(t, x, i);
    var j :| 0 <= j < |Chain(t, b)| && Chain(t, b)[j] == a;
    assert c[i + j] == a;
    ChainDistinct(t, x, c);
    assert i != 0 && j != 0;
  }

  /** A proper descendant of `g` is a child of `g` or lies below one. */
  lemma UnderSplit(t: Table, order: seq<Pk>, g: Pk, x: Pk)
    requires Forest(t, order) && g in t && Under(t, g, x)
    ensures x in Filhos(t, order, g) || exists k :: k in Filhos(t, order, g) && Under(t, k, x)
  {
    var c := Chain(t, x);
    var i :| 0 <= i < |c| && c[i] == g;
    assert i != 0;
    ChainAt(t, x, c, i - 1);
    var k := c[i - 1];
    assert k in Filhos(t, order, g);
    if i > 1 {
      ChainSuffix(t, x, i - 1);
      ChainDistinct(t, x, c);
      assert c[0] != c[i - 1];
      assert Under(t, k, x);
    }
  }

  /** Two children of `g` on one chain are the same child. */
  lemma OneChildOnChain(t: Table, order: seq<Pk>, g: Pk, k1: Pk, k2: Pk, x: Pk)
    requires Forest(t, order) && x in t
    requires k1 in t && t[k1].grupoPai == Some(g) && k2 in t && t[k2].grupoPai == Some(g)
    requires k1 in Chain(t, x) && k2 in Chain(t, x)
    ensures k1 == k2
  {
    var c := Chain(t, x);
    var i :| 0 <= i < |c| && c[i] == k1;
    var j :| 0 <= j < |c| && c[j] == k2;
    ChainAt(t, x, c, i);
    ChainAt(t, x, c, j);
    ChainDistinct(t, x, c);
  }

  lemma DistinctConcat(a: seq<Pk>, b: seq<Pk>)
    requires Distinct(a) && Distinct(b)
    requires forall x :: x in a ==> x !in b
    ensures Distinct(a + b)
  {
    var s := a + b;
    forall i, j | 0 <= i < j < |s|
      ensures s[i] != s[j]
    {
      if i < |a| && j >= |a| {
        assert s[j] == b[j - |a|];
        assert s[i] in a;
      } else if i >= |a| {
        assert s[i] == b[i - |a|] && s[j] == b[j - |a|];
      }
    }
  }

  /**
   * In a forest, the subgroups of `g` are exactly its proper descendants, each listed once.
   */
  lemma {:induction false} SubgruposExact(t: Table, order: seq<Pk>, g: Pk)
    requires Forest(t, order) && g in t
    ensures forall x :: x in Subgrupos(t, order, g) <==> x in t && Under(t, g, x)
    ensures Distinct(Subgrupos(t, order, g))
    decreases |t| - |Chain(t, g)|, 1
  {
    ChainBound(t, g);
    var fs := Filhos(t, order, g);
    FilhosDistinct(t, order, g);
    DescendenciaExact(t, order, g, fs);
    forall x
      ensures x in Subgrupos(t, order, g) <==> x in t && Under(t, g, x)
    {
      if x in fs {
        ChildIsUnder(t, order, g, x);
      } else if x in Descendencia(t, order, g, fs) {
        var k :| k in fs && Under(t, k, x);
        ChildIsUnder(t, order, g, k);
        UnderTrans(t, g, k, x);
      } else if x in t && Under(t, g, x) {
        UnderSplit(t, order, g, x);
        assert false;
      }
    }
    forall x | x in fs
      ensures x !in Descendencia(t, order, g, fs)
    {
      ChildIsUnder(t, order, g, x);
    }
    DistinctConcat(fs, Descendencia(t, order, g, fs));
  }

  lemma {:induction false} DescendenciaExact(t: Table, order: seq<Pk>, g: Pk, ks: seq<Pk>)
    requires Forest(t, order) && g in t
    requires forall k :: k in ks ==> k in t && t[k].grupoPai == Some(g)
    requires Distinct(ks)
    ensures forall x :: x in Descendencia(t, order, g, ks) <==> exists k :: k in ks && Under(t, k, x)
    ensures forall x :: x in Descendencia(t, order, g, ks) ==> x in t && |Chain(t, x)| > |Chain(t, g)| + 1
    ensures Distinct(Descendencia(t, order, g, ks))
    decreases |t| - |Chain(t, g)|, 0, |ks|
  {
    if ks != [] {
      var n := |ks| - 1;
      var k, front := ks[n], ks[..n];
      assert ks == front + [k];
      assert Distinct(front);
      ChildChain(t, order, g, k);
      ChildIsUnder(t, order, g, k);
      DescendenciaExact(t, order, g, front);
      SubgruposExact(t, order, k);
      var d1, d2 := Descendencia(t, order, g, front), Subgrupos(t, order, k);
      assert Descendencia(t, order, g, ks) == d1 + d2;
      forall x | x in d2
        ensures |Chain(t, x)| > |Chain(t, g)| + 1
      {
        UnderLonger(t, k, x);
      }
      forall x | x in d1
        ensures x !in d2
      {
        var k1 :| k1 in front && Under(t, k1, x);
        if x in d2 {
          OneChildOnChain(t, order, g, k1, k, x);
          assert false;
        }
      }
      DistinctConcat(d1, d2);
    }
  }

  /** After the first `i` children: the children, then the subgroups of those `i`. */
  ghost predicate ListaParcial(t: Table, order: seq<Pk>, g: Pk, i: nat, r: seq<Pk>)
    requires Forest(t, order) && g in t
  {
    var fs := Filhos(t, order, g);
    i <= |fs| && r == fs + Descendencia(t, order, g, fs[..i])
  }

  lemma ListaParcialPasso(t: Table, order: seq<Pk>, g: Pk, i: nat, r: seq<Pk>, deles: seq<Pk>)
    requires Forest(t, order) && g in t && i < |Filhos(t, order, g)|
    requires ListaParcial(t, order, g, i, r)
    requires deles == Subgrupos(t, order, Filhos(t, order, g)[i])
    ensures ListaParcial(t, order, g, i + 1, r + deles)
  {
    var fs := Filhos(t, order, g);
    DescendenciaPrefix(t, order, g, i);
    var antes := Descendencia(t, order, g, fs[..i]);
    ConcatAssoc(fs, antes, deles);
  }

  /**
   * Regrouping a concatenation. Kept as a lemma of its own, away from the hierarchy
   * facts, where the solver settles it at once.
   */
  lemma ConcatAssoc(a: seq<Pk>, b: seq<Pk>, c: seq<Pk>)
    ensures (a + b) + c == a + (b + c)
  {
  }

  lemma ListaParcialCompleta(t: Table, order: seq<Pk>, g: Pk, r: seq<Pk>)
    requires Forest(t, order) && g in t
    requires ListaParcial(t, order, g, |Filhos(t, order, g)|, r)
    ensures r == Subgrupos(t, order, g)
  {
    var fs := Filhos(t, order, g);
    assert fs[..|fs|] == fs;
  }

  /**
   * `get_todos_subgrupos`: the list of children, extended by each child's own
   * subgroups (recursively), in the order of the children.
   */
  method GetTodosSubgrupos(t: Table, order: seq<Pk>, g: Pk) returns (r: seq<Pk>)
    requires Forest(t, order) && g in t
    ensures r == Subgrupos(t, order, g)
    ensures forall x :: x in r <==> x in t && Under(t, g, x)
    ensures Distinct(r)
    ensures |Filhos(t, order, g)| <= |r| && r[..|Filhos(t, order, g)|] == Filhos(t, order, g)
    decreases |t| - |Chain(t, g)|
  {
    ChainBound(t, g);
    var subgrupos := Filhos(t, order, g);
    r := subgrupos;
    for i := 0 to |subgrupos|
      invariant ListaParcial(t, order, g, i, r)
    {
      var k := subgrupos[i];
      ChildChain(t, order, g, k);
      var deles := GetTodosSubgrupos(t, order, k);
      ListaParcialPasso(t, order, g, i, r, deles);
      r := r + deles;
    }
    ListaParcialCompleta(t, order, g, r);
    SubgruposExact(t, order, g);
    SubgruposStartWithChildren(t, order, g);
  }
}
