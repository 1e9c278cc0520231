/**
 * The bulk importer (import_csv.py): every CSV row whose statement is not already
 * stored becomes a new question; rows found in the database are skipped and
 * counted as duplicates. The database side of the comparison is
 * `lower(trim(enunciado))`, the row side is `normalizar(enunciado)`.
 */
module ImportCsv {
  import opened Text
  import opened App

  /** One CSV row, by column name. */
  datatype Linha = Linha(
    enunciado: string,
    tema: string,
    tipo: string,
    nivel: string,
    gabarito: string,
    fonte: string)

  /** `normalizar`: strip, lower-case, split on whitespace and join the words with one space. */
  function Normalizar(texto: string): string {
    JoinWords(Words(Lower(Trim(texto))))
  }

  /** The result of `normalizar` has no whitespace at either end, no run of whitespace, only plain spaces and no upper case. */
  lemma NormalizarBemEspacado(s: string)
    ensures WellSpaced(Normalizar(s))
  {
    LowerHasNoUpper(Trim(s));
    WordsNoUpper(Lower(Trim(s)));
    WordsAreWords(Lower(Trim(s)));
    JoinWordsWellSpaced(Words(Lower(Trim(s))));
  }

  /** The words of `normalizar(s)` are the words of `s`, lower-cased, in order. */
  lemma NormalizarPalavras(s: string)
    ensures Words(Normalizar(s)) == LowerAll(Words(s))
  {
    WordsAreWords(Lower(Trim(s)));
    WordsJoinWords(Words(Lower(Trim(s))));
    WordsLower(Trim(s));
    WordsTrim(s);
  }

  /** `normalizar` equals joining the lower-cased words of its input with single spaces. */
  lemma NormalizarComoJuncao(s: string)
    ensures Normalizar(s) == JoinWords(LowerAll(Words(s)))
  {
    WordsLower(Trim(s));
    WordsTrim(s);
  }

  /** A string in normal form is its own normalisation. */
  lemma NormalizarFixo(s: string)
    requires WellSpaced(s)
    ensures Normalizar(s) == s
  {
    TrimWellSpaced(s);
    LowerIsIdentityWithoutUpper(s);
    JoinOfWords(s);
  }

  /** A string in normal form is the single-space join of its words. */
  lemma {:induction false} JoinOfWords(s: string)
    requires WellSpaced(s)
    ensures JoinWords(Words(s)) == s
    decreases |s|
  {
    if s != [] {
      var w := WordPrefix(s);
      WordPrefixSpec(s);
      if |w| == |s| {
        assert w == s;
        WordsOfWord(s);
        assert JoinWords([s]) == s;
      } else {
        var tail := s[|w| + 1..];
        WellSpacedSplit(s, w);
        JoinOfWords(tail);
        JoinOfWordsStep(s, w, tail);
      }
    }
  }

  /** The inductive step: a word, one space and a string in normal form that is the join of its words. */
  lemma JoinOfWordsStep(s: string, w: string, tail: string)
    requires IsWord(w) && tail != [] && !IsSpace(tail[0])
    requires s == w + ([' '] + tail)
    requires JoinWords(Words(tail)) == tail
    ensures JoinWords(Words(s)) == s
  {
    WordsOfWordThen(w, [' '] + tail);
    WordsSpacePrefix(' ', tail);
    WordsNonEmpty(tail);
    JoinWordsCons(w, Words(tail));
  }

  lemma WordsOfWord(w: string)
    requires IsWord(w)
    ensures Words(w) == [w]
  {
    WordsOfWordThen(w, []);
    assert w + [] == w;
    assert Words([]) == [];
    assert [w] + [] == [w];
  }

  lemma WordsNonEmpty(s: string)
    requires s != [] && !IsSpace(s[0])
    ensures Words(s) != []
  {
    assert TrimLeft(s) == s;
  }

  lemma JoinWordsCons(w: string, ws: seq<string>)
    requires ws != []
    ensures JoinWords([w] + ws) == w + " " + JoinWords(ws)
  {
    assert ([w] + ws)[1..] == ws;
  }

  /** A string in normal form breaks after its first word into that word, one space and a string in normal form. */
  lemma WellSpacedSplit(s: string, w: string)
    requires WellSpaced(s)
    requires |w| < |s| && w == s[..|w|] && IsSpace(s[|w|])
    ensures |w| + 1 < |s|
    ensures s == w + ([' '] + s[|w| + 1..])
    ensures !IsSpace(s[|w| + 1])
    ensures WellSpaced(s[|w| + 1..])
  {
    var k := |w|;
    assert s[k] == ' ';
    assert k != |s| - 1;
    assert !IsSpace(s[k + 1]);
    WellSpacedSuffix(s, k + 1);
    SplitAt(s, k);
  }

  lemma WellSpacedSuffix(s: string, k: nat)
    requires WellSpaced(s)
    requires k < |s| && !IsSpace(s[k])
    ensures WellSpaced(s[k..])
  {
    var t := s[k..];
    forall i | 0 <= i < |t| ensures t[i] == s[k + i] { }
  }

  lemma SplitAt(s: string, k: nat)
    requires k < |s|
    ensures s == s[..k] + ([s[k]] + s[k + 1..])
  {
  }

  /** `normalizar` is idempotent. */
  lemma NormalizarIdempotente(s: string)
    ensures Normalizar(Normalizar(s)) == Normalizar(s)
  {
    NormalizarBemEspacado(s);
    NormalizarFixo(Normalizar(s));
  }

  /** The database side of the duplicate test: SQL `lower(trim(enunciado))`, no whitespace collapsing. */
  function ChaveArmazenada(enunciado: string): string {
    Lower(Trim(enunciado))
  }

  /** The column `lower(trim(enunciado))` over the stored questions. */
  function Chaves(qs: seq<Questao>): (r: seq<string>)
    ensures |r| == |qs|
    ensures forall i :: 0 <= i < |qs| ==> r[i] == ChaveArmazenada(qs[i].enunciado)
  {
    seq(|qs|, i requires 0 <= i < |qs| => ChaveArmazenada(qs[i].enunciado))
  }

  /** `questao_existe`: some stored question's `lower(trim(enunciado))` equals `normalizar(enunciado)`. */
  function QuestaoExiste(qs: seq<Questao>, enunciado: string): (r: bool)
    ensures r <==> exists i :: 0 <= i < |qs| && ChaveArmazenada(qs[i].enunciado) == Normalizar(enunciado)
  {
    Normalizar(enunciado) in Chaves(qs)
  }

  /** The rows the import inserts: those whose statement is not found among the stored questions. */
  function Novas(qs: seq<Questao>, linhas: seq<Linha>): seq<Linha> {
    if linhas == [] then []
    else
      var ultima := linhas[|linhas| - 1];
      Novas(qs, linhas[..|linhas| - 1]) + (if QuestaoExiste(qs, ultima.enunciado) then [] else [ultima])
  }

  /** The rows the import skips as duplicates. */
  function Duplicadas(qs: seq<Questao>, linhas: seq<Linha>): seq<Linha> {
    if linhas == [] then []
    else
      var ultima := linhas[|linhas| - 1];
      Duplicadas(qs, linhas[..|linhas| - 1]) + (if QuestaoExiste(qs, ultima.enunciado) then [ultima] else [])
  }

  /** The questions committed for the inserted rows: ids from `primeiroId` on, fields copied verbatim. */
  function Materializar(novas: seq<Linha>, primeiroId: int): seq<Questao> {
    seq(|novas|, i requires 0 <= i < |novas| =>
      Questao(primeiroId + i, novas[i].enunciado, novas[i].tema, novas[i].tipo,
              novas[i].nivel, novas[i].gabarito, novas[i].fonte))
  }

  /** Every row is either inserted or counted as a duplicate. */
  lemma {:induction false} NovasMaisDuplicadas(qs: seq<Questao>, linhas: seq<Linha>)
    ensures |Novas(qs, linhas)| + |Duplicadas(qs, linhas)| == |linhas|
  {
    if linhas != [] {
      NovasMaisDuplicadas(qs, linhas[..|linhas| - 1]);
    }
  }

  /** A row is inserted iff it is in the file and its statement is not found among the stored questions. */
  lemma {:induction false} NovasSeNaoExiste(qs: seq<Questao>, linhas: seq<Linha>, l: Linha)
    ensures l in Novas(qs, linhas) <==> l in linhas && !QuestaoExiste(qs, l.enunciado)
  {
    if linhas != [] {
      var init := linhas[..|linhas| - 1];
      NovasSeNaoExiste(qs, init, l);
      assert linhas == init + [linhas[|linhas| - 1]];
    }
  }

  /** The duplicate test sees only the questions stored before the run: two identical new rows are both inserted. */
  lemma LinhasRepetidasInseridas(qs: seq<Questao>, l: Linha)
    requires !QuestaoExiste(qs, l.enunciado)
    ensures Novas(qs, [l, l]) == [l, l]
  {
    assert [l][..0] == [];
    assert Novas(qs, [l]) == [] + [l];
    assert [l, l][..1] == [l];
    assert Novas(qs, [l, l]) == [l] + [l];
  }

  /** The comparison is asymmetric: a stored "a  b" is not found for an identical row "a  b". */
  lemma EspacosArmazenadosNaoColapsados(q: Questao)
    requires q.enunciado == "a  b"
    ensures !QuestaoExiste([q], "a  b")
  {
    ChaveComEspacoDuplo();
    NormalizarEspacoDuplo();
  }

  lemma ChaveComEspacoDuplo()
    ensures ChaveArmazenada("a  b") == "a  b"
  {
    var s := "a  b";
    assert TrimLeft(s) == s;
    assert TrimRight(s) == s;
    LowerIsIdentityWithoutUpper(s);
  }

  lemma NormalizarEspacoDuplo()
    ensures Normalizar("a  b") == "a b"
  {
    var s := "a  b";
    assert TrimLeft(s) == s;
    assert TrimRight(s) == s;
    LowerIsIdentityWithoutUpper(s);
    assert s == "a" + "  b";
    WordsOfWordThen("a", "  b");
    assert "  b" == [' '] + " b";
    WordsSpacePrefix(' ', " b");
    assert " b" == [' '] + "b";
    WordsSpacePrefix(' ', "b");
    WordsOfWord("b");
    assert Words(s) == ["a", "b"];
    assert JoinWords(["a", "b"]) == "a b";
  }

  /** A row already in normal form is found again once a question with that statement is stored. */
  lemma NormalizadaEncontrada(qs: seq<Questao>, q: Questao, enunciado: string)
    requires q in qs
    requires q.enunciado == enunciado && WellSpaced(enunciado)
    ensures QuestaoExiste(qs, enunciado)
  {
    NormalizarFixo(enunciado);
    TrimWellSpaced(enunciado);
    LowerIsIdentityWithoutUpper(enunciado);
    assert ChaveArmazenada(q.enunciado) == Normalizar(enunciado);
    var i :| 0 <= i < |qs| && qs[i] == q;
  }

  /** Soundness of the duplicate test: a reported duplicate normalises to the same text as some stored statement. */
  lemma DuplicadaTemMesmaNormal(qs: seq<Questao>, enunciado: string)
    requires QuestaoExiste(qs, enunciado)
    ensures exists i :: 0 <= i < |qs| && Normalizar(qs[i].enunciado) == Normalizar(enunciado)
  {
    var i :| 0 <= i < |qs| && ChaveArmazenada(qs[i].enunciado) == Normalizar(enunciado);
    NormalizarBemEspacado(enunciado);
    JoinOfWords(Normalizar(enunciado));
  }

  /**
   * Completeness for clean stored statements: when a stored statement's
   * `lower(trim(...))` is already in normal form, every row that normalises to the
   * same text is found, whatever its case and spacing.
   */
  lemma MesmaNormalEncontrada(qs: seq<Questao>, i: nat, enunciado: string)
    requires i < |qs| && WellSpaced(ChaveArmazenada(qs[i].enunciado))
    requires Normalizar(qs[i].enunciado) == Normalizar(enunciado)
    ensures QuestaoExiste(qs, enunciado)
  {
    JoinOfWords(ChaveArmazenada(qs[i].enunciado));
  }

  /**
   * The import loop: each row is checked against the questions stored before the
   * run (pending rows are not flushed), skipped and counted, or queued and counted;
   * the queued rows are committed once at the end.
   */
  method Importar(db: Banco, linhas: seq<Linha>) returns (inseridas: nat, duplicadas: nat)
    requires db.Valid()
    modifies db
    ensures db.Valid()
    ensures inseridas + duplicadas == |linhas|
    ensures inseridas == |Novas(old(db.questoes), linhas)|
    ensures duplicadas == |Duplicadas(old(db.questoes), linhas)|
    ensures db.questoes == old(db.questoes) + Materializar(Novas(old(db.questoes), linhas), old(db.proximaQuestao))
    ensures db.proximaQuestao == old(db.proximaQuestao) + inseridas
    ensures db.provas == old(db.provas) && db.vinculos == old(db.vinculos)
    ensures db.proximaProva == old(db.proximaProva) && db.proximoVinculo == old(db.proximoVinculo)
  {
    var existentes := db.questoes;
    var pendentes: seq<Linha> := [];
    inseridas, duplicadas := 0, 0;
    for i := 0 to |linhas|
      invariant pendentes == Novas(existentes, linhas[..i])
      invariant inseridas == |pendentes|
      invariant duplicadas == |Duplicadas(existentes, linhas[..i])|
      invariant unchanged(db)
    {
      LinhaSeguinte(existentes, linhas, i);
      if QuestaoExiste(existentes, linhas[i].enunciado) {
        duplicadas := duplicadas + 1;
        continue;
      }
      pendentes := pendentes + [linhas[i]];
      inseridas := inseridas + 1;
    }
    assert linhas[..|linhas|] == linhas;
    NovasMaisDuplicadas(existentes, linhas);
    ImportacaoPreservaTabelas(existentes, db.provas, db.vinculos, db.proximaQuestao, db.proximaProva,
                              db.proximoVinculo, pendentes);
    db.questoes := existentes + Materializar(pendentes, db.proximaQuestao);
    db.proximaQuestao := db.proximaQuestao + |pendentes|;
  }

  /** One more row either extends the inserted rows or the duplicates. */
  lemma LinhaSeguinte(qs: seq<Questao>, linhas: seq<Linha>, i: nat)
    requires i < |linhas|
    ensures Novas(qs, linhas[..i + 1])
         == Novas(qs, linhas[..i]) + if QuestaoExiste(qs, linhas[i].enunciado) then [] else [linhas[i]]
    ensures Duplicadas(qs, linhas[..i + 1])
         == Duplicadas(qs, linhas[..i]) + if QuestaoExiste(qs, linhas[i].enunciado) then [linhas[i]] else []
  {
    assert linhas[..i + 1][..i] == linhas[..i];
  }

  /** Committing the queued rows keeps the database invariant. */
  lemma ImportacaoPreservaTabelas(qs: seq<Questao>, ps: seq<Prova>, ls: seq<ProvaQuestao>,
                                  proxQ: int, proxP: int, proxL: int, novas: seq<Linha>)
    requires Tabelas(qs, ps, ls, proxQ, proxP, proxL)
    ensures Tabelas(qs + Materializar(novas, proxQ), ps, ls, proxQ + |novas|, proxP, proxL)
  {
    var qs' := qs + Materializar(novas, proxQ);
    forall i, j | 0 <= i < j < |qs'| ensures qs'[i].id < qs'[j].id {
      if i < |qs| {
        assert qs[i] in qs;
      }
    }
    assert IdsDeQuestoes(qs) <= IdsDeQuestoes(qs');
  }
}
