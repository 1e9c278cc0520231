# Banco de questões — exam generation and CSV import, modelled in Dafny

The system is a small web application that keeps a bank of exam questions
(`Questao`). It assembles exams (`Prova`) by drawing questions at random from a
filtered part of the bank. Each drawn question is linked to the exam by a
`ProvaQuestao` row that records its position (`ordem`). A separate script
imports questions from a CSV file and skips rows whose statement is already
stored.

The model covers:

- `gerar_prova`, the exam builder, with:
  - the topic filter (`tema ILIKE '%<tema>%'`) and the level filter;
  - the draw (`random.sample`);
  - the title;
  - the loop that creates one link per drawn question.
- `visualizar_prova`, which finds an exam and its links ordered by position.
- `home`, which returns the five newest questions.
- The `truncate` template filter.
- From the importer: `normalizar`, `questao_existe`, and the row loop with its
  two counters.

Modules:

- `Text` (text.dfy): the string primitives the two programs rely on.
  - Whitespace set, ASCII lower-casing.
  - `strip`, `split`, and `' '.join`.
- `SqlLike` (like.dfy): SQL `LIKE`/`ILIKE` matching with the `%` and `_`
  wildcards.
- `Sorting` (sorting.dfy): a stable sort by an integer key, used for
  `ORDER BY`.
- `App` (app.dfy): the three records, the pure parts of the web application
  and the class `Banco`.
  - `Banco` holds the three tables as sequences and the next primary key of
    each table.
  - `Banco.GerarProva` is the exam builder, written as a method.
  - `Banco.Valid` is the database invariant that the builder and the importer
    preserve:
    - primary keys are increasing and below the next key;
    - every link names an existing exam and question;
    - the positions of each exam's links are 1..m.
- `ImportCsv` (import_csv.dfy): the importer. `Importar` is the import loop,
  written as a method over a `Banco`.

## Behaviour as written

Three behaviours of the code are easy to miss:

- **The topic filter is a case-insensitive pattern match, not an equality
  test.**
  - `tema` is placed inside `'%…%'` without escaping.
  - A `%` or `_` typed by the user therefore acts as a wildcard. For example,
    the topic `_` selects every question with a non-empty topic, including
    one such as `x` that does not contain `_`.
  - `App.FiltroTemaCuringa` shows this.
  - For a topic without wildcards the filter is a substring test
    (`App.CandidataSePorSubstring`).
- **An exam is created even when nothing matches.** `random.sample([], 0)`
  succeeds, so the exam is added with no links.
- **A negative `quantidade` makes `random.sample` raise before anything is
  added.** `GerarProva` then returns `Err(AmostraInvalida)` and leaves every
  table unchanged.

The duplicate test of the importer is asymmetric. The stored side is
`lower(trim(enunciado))`, which keeps internal runs of whitespace. The row side
is fully normalised. A stored statement `"a  b"` is therefore not found for an
identical row (`ImportCsv.EspacosArmazenadosNaoColapsados`).

The test also sees only the questions stored before the run. Added rows stay
pending and unflushed until the single commit, so two identical new rows are
both inserted (`ImportCsv.LinhasRepetidasInseridas`).

## Model

| member | source | states |
|---|---|---|
| Text.Lower | import_csv.py:6 | `lower()` keeps the length and lower-cases each character; the result has no upper-case letter and the same whitespace positions |
| Text.TrimLeftSpec | import_csv.py:6 | left part of `strip()`: the result is a suffix of the input and everything cut is whitespace |
| Text.TrimRightSpec | import_csv.py:6 | right part of `strip()`: the result is a prefix of the input and everything cut is whitespace |
| Text.TrimSpec | import_csv.py:6 | after `strip()` neither end is whitespace |
| Text.WordPrefixSpec | import_csv.py:6 | the first word of `split()` is a whitespace-free prefix followed by whitespace or the end |
| Text.WordsAreWords | import_csv.py:6 | `split()` yields only non-empty, whitespace-free words |
| Text.WordsTrim | import_csv.py:6 | `s.strip().split() == s.split()` |
| Text.WordsLower | import_csv.py:6 | `s.lower().split()` is the list of lower-cased words of `s.split()`, in order |
| Text.WordsJoinWords | import_csv.py:6 | `' '.join(ws).split() == ws` for genuine words: split undoes join |
| Text.JoinWordsWellSpaced | import_csv.py:6 | joining upper-case-free words with one space gives a string with no outer whitespace, only single plain spaces and no upper case |
| Text.WordsNoUpper | import_csv.py:6 | the words of an upper-case-free string are upper-case-free |
| Text.TrimWellSpaced | import_csv.py:6 | `strip()` leaves a normalised string unchanged |
| Text.ContainsAt | app.py:99 | a needle found at any offset of the haystack makes `Contains` hold |
| Text.ContainsWitness | app.py:99 | `Contains` holds only when the needle occurs at some offset of the haystack |
| SqlLike.PercentMatchesAll | app.py:99 | the pattern `%` matches every text |
| SqlLike.LikePrefix | app.py:99 | a wildcard-free pattern followed by `%` matches exactly the texts it is a prefix of |
| SqlLike.LikeContains | app.py:99 | `'%' + p + '%'` matches a text iff the wildcard-free `p` occurs in it |
| SqlLike.ILikeIsSubstring | app.py:99 | for a wildcard-free topic, `tema ILIKE '%topic%'` iff the lower-cased topic occurs in the lower-cased column |
| SqlLike.UnderscoreMatchesAnyCharacter | app.py:99 | `'x' ILIKE '%_%'` holds although `'x'` does not contain `'_'` |
| Sorting.InsertBy | app.py:122 | inserting into a key-sorted list keeps it sorted and adds exactly that element |
| Sorting.SortBy | app.py:48 | `ORDER BY key`: the result is sorted by the key and is a permutation of the input |
| Sorting.SortBySorted | app.py:122 | sorting a list already sorted by the key returns it unchanged |
| App.Truncate | app.py:82-84 | short text is returned unchanged; longer text becomes its first `length` characters plus `"..."` (length + 3); a negative length follows Python's slice from the end |
| App.Home | app.py:45-49 | `min(5, n)` questions, ids non-increasing, drawn from the table, and every other question has an id no larger than the last one shown |
| App.PrefixoDeOrdenada | app.py:48 | the first k questions by descending id are a sub-multiset of the table and no question left out has a larger id than the k-th |
| App.Candidatas | app.py:96-103 | a question is a candidate iff it is in the table and passes both filters; there are no more candidates than questions, and increasing ids stay increasing |
| App.CandidataSePorSubstring | app.py:98-101 | without wildcards: candidate iff (empty topic or the topic occurs case-insensitively in `tema`) and (empty level or equal level) |
| App.FiltroTemaCuringa | app.py:98-99 | the topic filter `_` selects every question with a non-empty topic, including topic `x`, which does not contain `_` |
| App.Sortear | app.py:104 | `random.sample`: `Err(AmostraInvalida)` iff k is negative or above the pool size; otherwise k questions drawn without replacement |
| App.AmostraDoPool | app.py:104 | every drawn question belongs to the pool |
| App.AmostraSemRepeticao | app.py:104 | from a pool with unique ids, no question is drawn twice |
| App.Titulo | app.py:106 | title is `"Prova gerada ("`, then the topic (or `"Geral"` for no topic), then `")"` |
| App.VinculosDeUmaAmostra | app.py:103-111 | for a draw of k questions the new links number k, have positions 1..m in draw order, name the exam and candidate questions, and never name a question twice |
| App.VinculosOrdenados | app.py:110-111 | the links of a new exam are sorted by position and their positions are exactly 1..m |
| App.DaProvaMultiset | app.py:122 | `filter_by(prova_id=id)` keeps every link of that exam, as often as it occurs, and nothing else |
| App.DaProvaConcat | app.py:122 | filtering distributes over appending links |
| App.BuscarProva | app.py:121 | `query.get(id)`: none iff no exam has the id; otherwise a stored exam with that id |
| App.VisualizarProva | app.py:119-123 | not found iff no exam has the id; otherwise that exam and exactly its links, sorted by position |
| App.NovaProvaPreservaTabelas | app.py:106-114 | adding an exam with the next key and its links keeps keys increasing, foreign keys valid and every exam's positions 1..m |
| App.VisualizarAposGerar | app.py:110-122 | viewing a freshly generated exam returns it with exactly the new links, in draw order |
| App.Banco.constructor | app.py:13-42 | empty tables satisfy the database invariant |
| App.Banco.AnexarVinculos | app.py:110-112 | the loop appends one link per drawn question (consecutive link ids, `ordem = i + 1`) and changes nothing else |
| App.Banco.GerarProva | app.py:89-117 | negative `quantidade`: error, nothing changed. Otherwise: returns the next exam id; the exam key advances by one and the link key by the number of draws; `min(quantidade, n)` distinct candidates drawn; one exam with the computed title appended; one link per draw appended; questions untouched; invariant kept; the exam then views as exactly its links |
| ImportCsv.NormalizarBemEspacado | import_csv.py:4-6 | `normalizar` output has no outer whitespace, no run of whitespace, only plain spaces and no upper case |
| ImportCsv.NormalizarPalavras | import_csv.py:6 | the words of `normalizar(s)` are the lower-cased words of `s`, in order |
| ImportCsv.NormalizarComoJuncao | import_csv.py:6 | `normalizar(s)` is the single-space join of the lower-cased words of `s` |
| ImportCsv.JoinOfWords | import_csv.py:6 | a normalised string is the single-space join of its own words |
| ImportCsv.NormalizarFixo | import_csv.py:6 | `normalizar` leaves a normalised string unchanged |
| ImportCsv.NormalizarIdempotente | import_csv.py:4-6 | `normalizar(normalizar(s)) == normalizar(s)` |
| ImportCsv.NormalizarEspacoDuplo | import_csv.py:6 | `normalizar("a  b") == "a b"` |
| ImportCsv.ChaveComEspacoDuplo | import_csv.py:12 | `lower(trim("a  b"))` keeps the double space |
| ImportCsv.QuestaoExiste | import_csv.py:8-13 | true iff some stored question has `lower(trim(enunciado))` equal to `normalizar` of the row's statement |
| ImportCsv.EspacosArmazenadosNaoColapsados | import_csv.py:11-13 | a stored `"a  b"` is not found for the row `"a  b"` |
| ImportCsv.NormalizadaEncontrada | import_csv.py:11-13 | a row already in normal form is found once a question with that statement is stored |
| ImportCsv.DuplicadaTemMesmaNormal | import_csv.py:8-13 | a row reported as a duplicate normalises to the same text as some stored statement |
| ImportCsv.MesmaNormalEncontrada | import_csv.py:8-13 | when a stored statement's `lower(trim(...))` is already in normal form, any row normalising to the same text is found, whatever its case and spacing |
| ImportCsv.NovasMaisDuplicadas | import_csv.py:26-40 | every row is counted exactly once: inserted plus duplicates equals the number of rows |
| ImportCsv.NovasSeNaoExiste | import_csv.py:23-40 | a row is inserted iff it is in the file and its statement is not found among the stored questions |
| ImportCsv.LinhasRepetidasInseridas | import_csv.py:10-13 | two identical new rows in one file are both inserted, since pending rows are not seen |
| ImportCsv.LinhaSeguinte | import_csv.py:23-40 | one more row extends either the inserted rows or the duplicates, by the outcome of the test |
| ImportCsv.Importar | import_csv.py:19-42 | the counters are the sizes of the inserted and duplicate rows, which sum to the row count; one question per inserted row, fields copied and ids consecutive, is appended after the existing ones; exams and links are unchanged; the invariant is kept |
| ImportCsv.ImportacaoPreservaTabelas | import_csv.py:31-42 | appending the imported questions with the next keys keeps the database invariant |

## Left out

- Flask routing, templates, `flash`, `redirect`, the rendering in `home` and
  the GET branch of `gerar_prova` (app.py:49, 115-117). The model returns the new
  exam's id instead of redirecting to it.
- Form parsing (app.py:92-94).
  - `quantidade` is an `int` parameter. A missing or non-numeric field, which
    makes `int(...)` raise, is not modelled.
  - A missing `tema` or `nivel` (`None`) is modelled as the empty string. It
    behaves the same under `if tema:`.
- `cadastrar_questao` and `listar_questoes` (app.py:52-80) are not part of
  this model. They are a plain insert and a full listing.
- The SQLAlchemy session, `no_autoflush` and the two commits of `gerar_prova`.
  Each operation is modelled as one atomic update of the tables. A failure
  between the two commits, which would leave an exam without links, is not
  modelled.
- Primary keys are counters that start at 1 and grow by one per insert. The
  database's own key allocation is not modelled.
- `random.sample` uniformity. The draw is an arbitrary choice of k questions
  without replacement, and the model does not say which.
- `datetime.utcnow`: the timestamp is a parameter of `GerarProva`.
- CSV reading, column lookup (a `KeyError` for a missing column), the file
  encoding and the `print` reports. Rows are a sequence of `Linha` records.
- Character handling:
  - `lower` covers the ASCII letters only; Unicode case mapping is not
    modelled.
  - `strip`, `split` and SQL `trim` all use one fixed ASCII whitespace set:
    space, 9-13 and 28-31. Engine-specific `trim`, such as trimming spaces
    only, is not modelled.
- Nullable columns: a NULL `tema` or `nivel` (for example from a short CSV
  row, import_csv.py:21, 33) is modelled as the empty string. SQL excludes a
  NULL column under every applied filter. The model differs for a topic filter
  made only of `%` characters: the empty topic matches such a pattern, so a
  question whose `tema` is NULL is selected in the model and excluded by SQL.
- Column widths such as `String(100)` are not enforced.
- `ORDER BY ordem` and `ORDER BY id DESC` are a stable sort. SQL leaves the
  order of ties open, but ties do not arise for these keys under the
  invariant.
