/**
 * The question bank web application (app.py) with its database replaced by three
 * in-memory tables: questions (`questoes`), exams (`provas`) and the links that
 * place a question at a position of an exam (`prova_questoes`).
 */
module App {
  import opened Text
  import opened SqlLike
  import opened Sorting

  /** `data_criacao`: a clock reading supplied by the caller, never inspected. */
  type Timestamp = int

  /** A row of `questoes`. */
  datatype Questao = Questao(
    id: int,
    enunciado: string,
    tema: string,
    tipo: string,
    nivel: string,
    gabarito: string,
    fonte: string)

  /** A row of `provas`. */
  datatype Prova = Prova(id: int, titulo: string, dataCriacao: Timestamp)

  /** A row of `prova_questoes`: question `questaoId` at position `ordem` of exam `provaId`. */
  datatype ProvaQuestao = ProvaQuestao(id: int, provaId: int, questaoId: int, ordem: int)

  datatype Option<T> = None | Some(value: T)

  /**
   * NaoEncontrada: `get_or_404` found no exam (HTTP 404).
   * AmostraInvalida: `random.sample` raised ValueError (sample size negative or above the population).
   */
  datatype Erro = NaoEncontrada | AmostraInvalida

  datatype Result<T> = Ok(value: T) | Err(erro: Erro)

  function Min(a: int, b: int): int {
    if a <= b then a else b
  }

  function Max(a: int, b: int): int {
    if a >= b then a else b
  }

  // ------------------------------------------------------------ primary keys

  predicate QuestaoIdsCrescentes(qs: seq<Questao>) {
    forall i, j :: 0 <= i < j < |qs| ==> qs[i].id < qs[j].id
  }

  predicate ProvaIdsCrescentes(ps: seq<Prova>) {
    forall i, j :: 0 <= i < j < |ps| ==> ps[i].id < ps[j].id
  }

  predicate VinculoIdsCrescentes(ls: seq<ProvaQuestao>) {
    forall i, j :: 0 <= i < j < |ls| ==> ls[i].id < ls[j].id
  }

  function IdsDeQuestoes(qs: seq<Questao>): set<int> {
    set q | q in qs :: q.id
  }

  function IdsDeProvas(ps: seq<Prova>): set<int> {
    set p | p in ps :: p.id
  }

  // ------------------------------------------------------------ truncate

  /** Python's `s[:n]`, where a negative `n` counts from the end. */
  function PyPrefix(s: string, n: int): string {
    if n >= |s| then s
    else if n >= 0 then s[..n]
    else if |s| + n >= 0 then s[..|s| + n]
    else []
  }

  /** The `truncate` template filter. */
  function Truncate(text: string, length: int := 80): (r: string)
    ensures |text| <= length ==> r == text
    ensures 0 <= length < |text| ==> |r| == length + 3 && r[..length] == text[..length] && r[length..] == "..."
    ensures length >= 0 ==> |r| <= length + 3
    ensures length < 0 ==> r == text[..Max(0, |text| + length)] + "..."
  {
    if |text| <= length then text else PyPrefix(text, length) + "..."
  }

  // ------------------------------------------------------------ home

  function NegId(q: Questao): int {
    -q.id
  }

  /** `home`: the five questions with the highest ids, highest first. */
  function Home(qs: seq<Questao>): (r: seq<Questao>)
    ensures |r| == Min(5, |qs|)
    ensures forall i, j :: 0 <= i < j < |r| ==> r[i].id >= r[j].id
    ensures multiset(r) <= multiset(qs)
    ensures forall q :: q in qs ==> q in r || q.id <= r[|r| - 1].id
  {
    var s := SortBy(qs, NegId);
    PrefixoDeOrdenada(s, qs, Min(5, |s|));
    s[..Min(5, |s|)]
  }

  /** A prefix of the questions sorted by descending id holds the largest ids. */
  lemma PrefixoDeOrdenada(s: seq<Questao>, qs: seq<Questao>, k: nat)
    requires SortedBy(s, NegId) && multiset(s) == multiset(qs)
    requires 0 < k <= |s| || k == |s| == 0
    ensures multiset(s[..k]) <= multiset(qs)
    ensures forall q :: q in qs ==> q in s[..k] || q.id <= s[k - 1].id
  {
    assert s == s[..k] + s[k..];
    forall q | q in qs ensures q in s[..k] || q.id <= s[k - 1].id {
      assert q in multiset(s);
      var j :| 0 <= j < |s| && s[j] == q;
      if j >= k {
        assert NegId(s[k - 1]) <= NegId(s[j]);
      } else {
        assert s[..k][j] == q;
      }
    }
  }

  // ------------------------------------------------------------ filter

  /**
   * The filters of `gerar_prova`: an empty topic or level selects every question;
   * otherwise the topic must satisfy `tema ILIKE '%<topic>%'` and the level must be equal.
   */
  predicate Corresponde(q: Questao, tema: string, nivel: string) {
    (tema == "" || ILike(q.tema, "%" + tema + "%")) && (nivel == "" || q.nivel == nivel)
  }

  /** `query.all()` after the filters: the matching questions in table order. */
  function Candidatas(qs: seq<Questao>, tema: string, nivel: string): (r: seq<Questao>)
    ensures forall q :: q in r <==> q in qs && Corresponde(q, tema, nivel)
    ensures |r| <= |qs|
    ensures QuestaoIdsCrescentes(qs) ==> QuestaoIdsCrescentes(r)
  {
    if qs == [] then []
    else
      var rest := Candidatas(qs[1..], tema, nivel);
      assert forall q :: q in qs[1..] ==> q in qs;
      if Corresponde(qs[0], tema, nivel) then
        assert QuestaoIdsCrescentes(qs) ==> forall q :: q in rest ==> qs[0].id < q.id by {
          if QuestaoIdsCrescentes(qs) {
            forall q | q in rest ensures qs[0].id < q.id {
              var j :| 0 <= j < |qs[1..]| && qs[1..][j] == q;
              assert qs[j + 1] == q;
            }
          }
        }
        [qs[0]] + rest
      else rest
  }

  /** For a topic without `%` or `_`, a question is a candidate iff its topic contains the topic case-insensitively and its level matches. */
  lemma CandidataSePorSubstring(q: Questao, tema: string, nivel: string)
    requires NoWildcard(tema)
    ensures Corresponde(q, tema, nivel) <==>
            (tema == "" || Contains(Lower(q.tema), Lower(tema))) && (nivel == "" || q.nivel == nivel)
  {
    if tema != "" {
      ILikeIsSubstring(q.tema, tema);
    }
  }

  /**
   * Because `_` is a wildcard, the topic filter "_" selects every question with a
   * non-empty topic, even one such as "x" that does not contain "_".
   */
  lemma FiltroTemaCuringa(q: Questao)
    requires q.tema != ""
    ensures Corresponde(q, "_", "")
    ensures q.tema == "x" ==> !Contains(Lower(q.tema), Lower("_"))
  {
    var t := Lower(q.tema);
    assert "%" + "_" + "%" == "%_%";
    assert Lower("%_%") == "%_%";
    assert "%_%"[1..] == "_%" && "_%"[1..] == "%";
    PercentMatchesAll(t[1..]);
    assert Like("_%", t);
    assert Like("%_%", t);
    if q.tema == "x" {
      UnderscoreMatchesAnyCharacter();
    }
  }

  // ------------------------------------------------------------ draw

  /** `s` is a draw of `k` questions of `pool` without replacement: each position of `pool` is used at most once. */
  predicate Amostra(s: seq<Questao>, pool: seq<Questao>, k: int) {
    |s| == k && multiset(s) <= multiset(pool)
  }

  /**
   * `random.sample(pool, k)`: fails for a negative `k` or one above the pool size,
   * otherwise returns some draw of `k` questions without replacement (which draw is left open).
   */
  method Sortear(pool: seq<Questao>, k: int) returns (r: Result<seq<Questao>>)
    ensures !(0 <= k <= |pool|) ==> r == Err(AmostraInvalida)
    ensures 0 <= k <= |pool| ==> r.Ok? && Amostra(r.value, pool, k)
  {
    if k < 0 || k > |pool| {
      return Err(AmostraInvalida);
    }
    assert pool == pool[..k] + pool[k..];
    assert Amostra(pool[..k], pool, k);
    var s :| Amostra(s, pool, k);
    r := Ok(s);
  }

  /** Every drawn question is a question of the pool. */
  lemma AmostraDoPool(s: seq<Questao>, pool: seq<Questao>, k: int)
    requires Amostra(s, pool, k)
    ensures forall i :: 0 <= i < |s| ==> s[i] in pool
  {
    forall i | 0 <= i < |s| ensures s[i] in pool {
      assert s[i] in multiset(s);
    }
  }

  /** When the pool holds no id twice (a table's primary keys), no question is drawn twice. */
  lemma AmostraSemRepeticao(s: seq<Questao>, pool: seq<Questao>, k: int)
    requires Amostra(s, pool, k)
    requires forall i, j :: 0 <= i < j < |pool| ==> pool[i].id != pool[j].id
    ensures forall i, j :: 0 <= i < j < |s| ==> s[i].id != s[j].id
  {
    AmostraDoPool(s, pool, k);
    forall i, j | 0 <= i < j < |s| ensures s[i].id != s[j].id {
      if s[i].id == s[j].id {
        var m :| 0 <= m < |pool| && pool[m] == s[i];
        var n :| 0 <= n < |pool| && pool[n] == s[j];
        assert m == n;
        NoMaximoUma(pool, s[i]);
        DuasVezes(s, i, j);
        assert false;
      }
    }
  }

  /** In a sequence with no id twice, every question occurs at most once. */
  lemma {:induction false} NoMaximoUma(pool: seq<Questao>, q: Questao)
    requires forall i, j :: 0 <= i < j < |pool| ==> pool[i].id != pool[j].id
    ensures multiset(pool)[q] <= 1
  {
    if pool != [] {
      NoMaximoUma(pool[1..], q);
      assert pool == [pool[0]] + pool[1..];
      if pool[0] == q {
        assert q !in pool[1..] by {
          forall j | 0 <= j < |pool[1..]| ensures pool[1..][j] != q {
            assert pool[j + 1].id != pool[0].id;
          }
        }
      }
    }
  }

  lemma DuasVezes(s: seq<Questao>, i: nat, j: nat)
    requires i < j < |s| && s[i] == s[j]
    ensures multiset(s)[s[i]] >= 2
  {
    assert s == s[..j] + s[j..];
    assert s[..j][i] == s[i];
    assert s[j..][0] == s[i];
  }

  // ------------------------------------------------------------ exams

  /** The title given to a generated exam: "Prova gerada (<topic>)", "Geral" standing in for no topic. */
  function Titulo(tema: string): (r: string)
    ensures |r| == 15 + if tema == "" then 5 else |tema|
    ensures r[..14] == "Prova gerada ("
    ensures r[|r| - 1] == ')'
    ensures r[14..|r| - 1] == if tema == "" then "Geral" else tema
  {
    "Prova gerada (" + (if tema == "" then "Geral" else tema) + ")"
  }

  /** The links `gerar_prova` adds for the drawn questions: link ids from `primeiroId`, positions 1, 2, 3, ... */
  function Vinculos(provaId: int, primeiroId: int, sorteadas: seq<Questao>): seq<ProvaQuestao> {
    seq(|sorteadas|, i requires 0 <= i < |sorteadas| =>
      ProvaQuestao(primeiroId + i, provaId, sorteadas[i].id, i + 1))
  }

  function Ordem(l: ProvaQuestao): int {
    l.ordem
  }

  /** Positions 1..m, in list order, with no gap and no repetition. */
  predicate OrdensContiguas(ls: seq<ProvaQuestao>) {
    forall i :: 0 <= i < |ls| ==> ls[i].ordem == i + 1
  }

  /** The links of a new exam: one per drawn question, positions 1..m in draw order, every question a candidate, none twice. */
  lemma VinculosDeUmaAmostra(provaId: int, primeiroId: int, sorteadas: seq<Questao>, pool: seq<Questao>, k: int)
    requires Amostra(sorteadas, pool, k)
    requires forall i, j :: 0 <= i < j < |pool| ==> pool[i].id != pool[j].id
    ensures |Vinculos(provaId, primeiroId, sorteadas)| == k
    ensures OrdensContiguas(Vinculos(provaId, primeiroId, sorteadas))
    ensures forall l :: l in Vinculos(provaId, primeiroId, sorteadas) ==>
              l.provaId == provaId && exists q :: q in pool && q.id == l.questaoId
    ensures forall i, j :: 0 <= i < j < k ==>
              Vinculos(provaId, primeiroId, sorteadas)[i].questaoId != Vinculos(provaId, primeiroId, sorteadas)[j].questaoId
  {
    var v := Vinculos(provaId, primeiroId, sorteadas);
    AmostraDoPool(sorteadas, pool, k);
    AmostraSemRepeticao(sorteadas, pool, k);
    forall l | l in v ensures l.provaId == provaId && exists q :: q in pool && q.id == l.questaoId {
      var i :| 0 <= i < |v| && v[i] == l;
      assert sorteadas[i] in pool;
    }
  }

  /** `ProvaQuestao.query.filter_by(prova_id=provaId)`: the links of one exam, in table order. */
  function DaProva(ls: seq<ProvaQuestao>, provaId: int): seq<ProvaQuestao> {
    if ls == [] then []
    else (if ls[0].provaId == provaId then [ls[0]] else []) + DaProva(ls[1..], provaId)
  }

  /** The filter keeps every link of the exam, as often as it occurs, and nothing else. */
  lemma {:induction false} DaProvaMultiset(ls: seq<ProvaQuestao>, provaId: int)
    ensures forall l :: multiset(DaProva(ls, provaId))[l] == if l.provaId == provaId then multiset(ls)[l] else 0
  {
    if ls != [] {
      DaProvaMultiset(ls[1..], provaId);
      assert ls == [ls[0]] + ls[1..];
    }
  }

  lemma {:induction false} DaProvaConcat(a: seq<ProvaQuestao>, b: seq<ProvaQuestao>, provaId: int)
    ensures DaProva(a + b, provaId) == DaProva(a, provaId) + DaProva(b, provaId)
  {
    if a == [] {
      assert a + b == b;
    } else {
      var cabeca := if a[0].provaId == provaId then [a[0]] else [];
      assert (a + b)[0] == a[0];
      assert (a + b)[1..] == a[1..] + b;
      assert DaProva(a + b, provaId) == cabeca + DaProva(a[1..] + b, provaId);
      DaProvaConcat(a[1..], b, provaId);
      assert DaProva(a, provaId) == cabeca + DaProva(a[1..], provaId);
    }
  }

  lemma {:induction false} DaProvaNenhum(ls: seq<ProvaQuestao>, provaId: int)
    requires forall i :: 0 <= i < |ls| ==> ls[i].provaId != provaId
    ensures DaProva(ls, provaId) == []
  {
    if ls != [] {
      DaProvaNenhum(ls[1..], provaId);
    }
  }

  lemma {:induction false} DaProvaTodos(ls: seq<ProvaQuestao>, provaId: int)
    requires forall i :: 0 <= i < |ls| ==> ls[i].provaId == provaId
    ensures DaProva(ls, provaId) == ls
  {
    if ls != [] {
      DaProvaTodos(ls[1..], provaId);
      assert ls == [ls[0]] + ls[1..];
    }
  }

  /** `Prova.query.get(id)`: the exam with that primary key, if any. */
  function BuscarProva(ps: seq<Prova>, id: int): (r: Option<Prova>)
    ensures r.None? <==> forall p :: p in ps ==> p.id != id
    ensures r.Some? ==> r.value in ps && r.value.id == id
  {
    if ps == [] then None
    else if ps[0].id == id then Some(ps[0])
    else BuscarProva(ps[1..], id)
  }

  /**
   * `visualizar_prova`: not found when no exam has the id; otherwise the exam and
   * exactly its links, ascending by position.
   */
  function VisualizarProva(ps: seq<Prova>, ls: seq<ProvaQuestao>, id: int): (r: Result<(Prova, seq<ProvaQuestao>)>)
    ensures r.Err? <==> forall p :: p in ps ==> p.id != id
    ensures r.Err? ==> r.erro == NaoEncontrada
    ensures r.Ok? ==> r.value.0 in ps && r.value.0.id == id
    ensures r.Ok? ==> SortedBy(r.value.1, Ordem)
    ensures r.Ok? ==> forall l :: multiset(r.value.1)[l] == if l.provaId == id then multiset(ls)[l] else 0
  {
    match BuscarProva(ps, id)
    case None => Err(NaoEncontrada)
    case Some(p) =>
      DaProvaMultiset(ls, id);
      Ok((p, SortBy(DaProva(ls, id), Ordem)))
  }

  lemma VinculosOrdenados(provaId: int, primeiroId: int, sorteadas: seq<Questao>)
    ensures SortedBy(Vinculos(provaId, primeiroId, sorteadas), Ordem)
    ensures OrdensContiguas(Vinculos(provaId, primeiroId, sorteadas))
  {
  }

  lemma VinculosSnoc(provaId: int, primeiroId: int, sorteadas: seq<Questao>, i: nat)
    requires i < |sorteadas|
    ensures Vinculos(provaId, primeiroId, sorteadas[..i + 1])
         == Vinculos(provaId, primeiroId, sorteadas[..i]) + [ProvaQuestao(primeiroId + i, provaId, sorteadas[i].id, i + 1)]
  {
  }

  /**
   * The database invariant over the table contents: primary keys positive, increasing
   * and below the next key; every link names an existing exam and question; the
   * positions of each exam's links are 1..m.
   */
  ghost predicate Tabelas(qs: seq<Questao>, ps: seq<Prova>, ls: seq<ProvaQuestao>, proxQ: int, proxP: int, proxL: int) {
    && 0 < proxQ && 0 < proxP && 0 < proxL
    && QuestaoIdsCrescentes(qs) && (forall q :: q in qs ==> 0 < q.id < proxQ)
    && ProvaIdsCrescentes(ps) && (forall p :: p in ps ==> 0 < p.id < proxP)
    && VinculoIdsCrescentes(ls) && (forall l :: l in ls ==> 0 < l.id < proxL)
    && ChavesEstrangeiras(qs, ps, ls)
    && (forall p :: p in ps ==> OrdensContiguas(DaProva(ls, p.id)))
  }

  /** Every link names an existing exam and an existing question. */
  ghost predicate ChavesEstrangeiras(qs: seq<Questao>, ps: seq<Prova>, ls: seq<ProvaQuestao>) {
    forall l :: l in ls ==> l.provaId in IdsDeProvas(ps) && l.questaoId in IdsDeQuestoes(qs)
  }

  lemma ChavesDosVinculos(ls: seq<ProvaQuestao>, proxL: int, provaId: int, sorteadas: seq<Questao>)
    requires 0 < proxL
    requires VinculoIdsCrescentes(ls) && (forall l :: l in ls ==> 0 < l.id < proxL)
    ensures VinculoIdsCrescentes(ls + Vinculos(provaId, proxL, sorteadas))
    ensures forall l :: l in ls + Vinculos(provaId, proxL, sorteadas) ==> 0 < l.id < proxL + |sorteadas|
  {
    var v := Vinculos(provaId, proxL, sorteadas);
    var ls' := ls + v;
    forall i, j | 0 <= i < j < |ls'| ensures ls'[i].id < ls'[j].id {
      if i < |ls| {
        assert ls[i] in ls;
      }
    }
  }

  lemma EstrangeirasAposGerar(qs: seq<Questao>, ps: seq<Prova>, ls: seq<ProvaQuestao>,
                              prova: Prova, proxL: int, sorteadas: seq<Questao>)
    requires ChavesEstrangeiras(qs, ps, ls)
    requires forall i :: 0 <= i < |sorteadas| ==> sorteadas[i] in qs
    ensures ChavesEstrangeiras(qs, ps + [prova], ls + Vinculos(prova.id, proxL, sorteadas))
  {
    var v := Vinculos(prova.id, proxL, sorteadas);
    assert IdsDeProvas(ps) <= IdsDeProvas(ps + [prova]);
    assert prova.id in IdsDeProvas(ps + [prova]);
    forall l | l in ls + v ensures l.provaId in IdsDeProvas(ps + [prova]) && l.questaoId in IdsDeQuestoes(qs) {
      if l !in ls {
        var i :| 0 <= i < |v| && v[i] == l;
        assert sorteadas[i] in qs;
      }
    }
  }

  lemma PosicoesAposGerar(ps: seq<Prova>, ls: seq<ProvaQuestao>, prova: Prova, v: seq<ProvaQuestao>)
    requires forall l :: l in ls ==> l.provaId in IdsDeProvas(ps)
    requires forall p :: p in ps ==> p.id < prova.id
    requires forall p :: p in ps ==> OrdensContiguas(DaProva(ls, p.id))
    requires forall i :: 0 <= i < |v| ==> v[i].provaId == prova.id
    requires OrdensContiguas(v)
    ensures DaProva(ls + v, prova.id) == v
    ensures forall p :: p in ps + [prova] ==> OrdensContiguas(DaProva(ls + v, p.id))
  {
    DaProvaNenhum(ls, prova.id) by {
      forall i | 0 <= i < |ls| ensures ls[i].provaId != prova.id {
        assert ls[i] in ls;
      }
    }
    DaProvaTodos(v, prova.id);
    DaProvaConcat(ls, v, prova.id);
    forall p | p in ps + [prova] ensures OrdensContiguas(DaProva(ls + v, p.id)) {
      if p in ps {
        DaProvaConcat(ls, v, p.id);
        DaProvaNenhum(v, p.id);
      }
    }
  }

  lemma BuscarUltima(ps: seq<Prova>, prova: Prova)
    requires forall p :: p in ps ==> p.id < prova.id
    ensures BuscarProva(ps + [prova], prova.id) == Some(prova)
  {
    if ps != [] {
      assert ps[0] in ps;
      assert (ps + [prova])[1..] == ps[1..] + [prova];
      BuscarUltima(ps[1..], prova);
    }
  }

  /** Adding a generated exam and its links keeps the invariant. */
  lemma NovaProvaPreservaTabelas(
    qs: seq<Questao>, ps: seq<Prova>, ls: seq<ProvaQuestao>, proxQ: int, proxP: int, proxL: int,
    prova: Prova, sorteadas: seq<Questao>)
    requires Tabelas(qs, ps, ls, proxQ, proxP, proxL)
    requires prova.id == proxP
    requires forall i :: 0 <= i < |sorteadas| ==> sorteadas[i] in qs
    ensures Tabelas(qs, ps + [prova], ls + Vinculos(proxP, proxL, sorteadas), proxQ, proxP + 1, proxL + |sorteadas|)
  {
    var v := Vinculos(proxP, proxL, sorteadas);
    ChavesDosVinculos(ls, proxL, proxP, sorteadas);
    EstrangeirasAposGerar(qs, ps, ls, prova, proxL, sorteadas);
    VinculosOrdenados(proxP, proxL, sorteadas);
    PosicoesAposGerar(ps, ls, prova, v);
    assert ProvaIdsCrescentes(ps + [prova]);
  }

  /** Viewing a freshly generated exam yields exactly its new links, in draw order. */
  lemma VisualizarAposGerar(ps: seq<Prova>, ls: seq<ProvaQuestao>, prova: Prova, primeiroId: int, sorteadas: seq<Questao>)
    requires forall l :: l in ls ==> l.provaId in IdsDeProvas(ps)
    requires forall p :: p in ps ==> p.id < prova.id
    ensures VisualizarProva(ps + [prova], ls + Vinculos(prova.id, primeiroId, sorteadas), prova.id)
            == Ok((prova, Vinculos(prova.id, primeiroId, sorteadas)))
  {
    var v := Vinculos(prova.id, primeiroId, sorteadas);
    DaProvaNenhum(ls, prova.id) by {
      forall i | 0 <= i < |ls| ensures ls[i].provaId != prova.id {
        assert ls[i] in ls;
      }
    }
    DaProvaTodos(v, prova.id);
    DaProvaConcat(ls, v, prova.id);
    VinculosOrdenados(prova.id, primeiroId, sorteadas);
    SortBySorted(v, Ordem);
    BuscarUltima(ps, prova);
    assert DaProva(ls + v, prova.id) == v;
    assert SortBy(DaProva(ls + v, prova.id), Ordem) == v;
    VisualizarEncontrada(ps + [prova], ls + v, prova, v);
    assert VisualizarProva(ps + [prova], ls + v, prova.id) == Ok((prova, v));
  }

  lemma VisualizarEncontrada(ps: seq<Prova>, ls: seq<ProvaQuestao>, p: Prova, w: seq<ProvaQuestao>)
    requires BuscarProva(ps, p.id) == Some(p)
    requires SortBy(DaProva(ls, p.id), Ordem) == w
    ensures VisualizarProva(ps, ls, p.id) == Ok((p, w))
  {
  }

  // ------------------------------------------------------------ the store

  /** The database: the three tables and the next primary key of each. */
  class Banco {
    var questoes: seq<Questao>
    var provas: seq<Prova>
    var vinculos: seq<ProvaQuestao>
    var proximaQuestao: int
    var proximaProva: int
    var proximoVinculo: int

    ghost predicate Valid()
      reads this
    {
      Tabelas(questoes, provas, vinculos, proximaQuestao, proximaProva, proximoVinculo)
    }

    constructor ()
      ensures Valid()
      ensures questoes == [] && provas == [] && vinculos == []
    {
      questoes, provas, vinculos := [], [], [];
      proximaQuestao, proximaProva, proximoVinculo := 1, 1, 1;
    }

    /** The loop of `gerar_prova` that adds one link per drawn question, with positions 1, 2, 3, ... in draw order. */
    method AnexarVinculos(provaId: int, sorteadas: seq<Questao>)
      modifies this
      ensures vinculos == old(vinculos) + Vinculos(provaId, old(proximoVinculo), sorteadas)
      ensures proximoVinculo == old(proximoVinculo) + |sorteadas|
      ensures questoes == old(questoes) && proximaQuestao == old(proximaQuestao)
      ensures provas == old(provas) && proximaProva == old(proximaProva)
    {
      for i := 0 to |sorteadas|
        invariant vinculos == old(vinculos) + Vinculos(provaId, old(proximoVinculo), sorteadas[..i])
        invariant proximoVinculo == old(proximoVinculo) + i
        invariant questoes == old(questoes) && proximaQuestao == old(proximaQuestao)
        invariant provas == old(provas) && proximaProva == old(proximaProva)
      {
        VinculosSnoc(provaId, old(proximoVinculo), sorteadas, i);
        vinculos := vinculos + [ProvaQuestao(proximoVinculo, provaId, sorteadas[i].id, i + 1)];
        proximoVinculo := proximoVinculo + 1;
      }
      assert sorteadas[..|sorteadas|] == sorteadas;
    }

    /**
     * `gerar_prova` on a POST: filter, draw `min(quantidade, n)` distinct candidates,
     * add the exam, then one link per drawn question with positions 1, 2, 3, ...
     * A negative `quantidade` makes the draw fail before anything is added.
     */
    method GerarProva(tema: string, nivel: string, quantidade: int, agora: Timestamp)
      returns (r: Result<int>, sorteadas: seq<Questao>)
      requires Valid()
      modifies this
      ensures Valid()
      ensures questoes == old(questoes) && proximaQuestao == old(proximaQuestao)
      ensures quantidade < 0 ==>
                && r == Err(AmostraInvalida) && sorteadas == []
                && provas == old(provas) && vinculos == old(vinculos)
                && proximaProva == old(proximaProva) && proximoVinculo == old(proximoVinculo)
      ensures quantidade >= 0 ==> r == Ok(old(proximaProva))
      ensures quantidade >= 0 ==>
                proximaProva == old(proximaProva) + 1 && proximoVinculo == old(proximoVinculo) + |sorteadas|
      ensures quantidade >= 0 ==>
                var c := Candidatas(questoes, tema, nivel);
                Amostra(sorteadas, c, Min(quantidade, |c|))
      ensures quantidade >= 0 ==> forall i, j :: 0 <= i < j < |sorteadas| ==> sorteadas[i].id != sorteadas[j].id
      ensures quantidade >= 0 ==>
                |vinculos| == |old(vinculos)| + Min(quantidade, |Candidatas(questoes, tema, nivel)|)
      ensures quantidade >= 0 ==> provas == old(provas) + [Prova(old(proximaProva), Titulo(tema), agora)]
      ensures quantidade >= 0 ==>
                vinculos == old(vinculos) + Vinculos(old(proximaProva), old(proximoVinculo), sorteadas)
      ensures quantidade >= 0 ==>
                VisualizarProva(provas, vinculos, old(proximaProva))
                == Ok((Prova(old(proximaProva), Titulo(tema), agora), Vinculos(old(proximaProva), old(proximoVinculo), sorteadas)))
    {
      var candidatas := Candidatas(questoes, tema, nivel);
      var amostra := Sortear(candidatas, Min(quantidade, |candidatas|));
      if amostra.Err? {
        r, sorteadas := Err(amostra.erro), [];
        return;
      }
      sorteadas := amostra.value;

      var prova := Prova(proximaProva, Titulo(tema), agora);
      provas := provas + [prova];
      proximaProva := proximaProva + 1;

      AnexarVinculos(prova.id, sorteadas);
      r := Ok(prova.id);
      AmostraDoPool(sorteadas, candidatas, Min(quantidade, |candidatas|));
      AmostraSemRepeticao(sorteadas, candidatas, Min(quantidade, |candidatas|));
      assert forall i :: 0 <= i < |sorteadas| ==> sorteadas[i] in questoes;
      NovaProvaPreservaTabelas(questoes, old(provas), old(vinculos), proximaQuestao, old(proximaProva), old(proximoVinculo),
                               prova, sorteadas);
      VisualizarAposGerar(old(provas), old(vinculos), prova, old(proximoVinculo), sorteadas);
    }
  }
}
