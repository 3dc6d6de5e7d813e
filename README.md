# Learning translator dictionary — a Dafny model

This project models the engine of `Traductor.py`, a phrase translator that learns from its
users. The engine is the class `TraductorAprendizaje` together with the `Idioma` enumeration and
the `Traduccion` entry record; the Tk user interface around it is not modelled.

The engine keeps a three-level store: source language → target language → lower-cased phrase →
entry. Each entry carries a translated text, the history of the scores it was given, the number
of evaluations and the average score. The engine can:

- insert an entry, overwriting any previous one, with a single seed score;
- look a phrase up without regard to case, and evaluate an entry with a score from 1 to 10;
- list a pair's best and worst entries by average;
- count the entries and compute a statistics report;
- clear the store back to its empty skeleton of twelve ordered language pairs;
- merge a foreign dictionary and its action log into its own.

Every insertion, successful lookup and evaluation appends a record to an action log.

Modules, one file each:

| file | module | contents |
|---|---|---|
| `wrappers.dfy` | `Wrappers` | `Option` |
| `idioma.dfy` | `Idiomas` | the four languages, their enumeration order and display values |
| `texto.dfy` | `Texto` | lower-casing of phrase keys |
| `puntuacion.dfy` | `Puntuacion` | sums and means of score histories; the valid score range 1..10 |
| `traduccion.dfy` | `Traducciones` | the entry record, its scoring operations and its field mapping |
| `tabla.dfy` | `Tablas` | one pair's phrase table, an insertion-ordered dictionary |
| `diccionario.dfy` | `Diccionarios` | the store, its lookups, insertion and entry count |
| `orden.dfy` | `OrdenEstable` | a stable sort by a numeric key |
| `historial.dfy` | `Historial` | the action log and its merge |
| `fusion.dfy` | `Fusion` | the merge engine, as functions |
| `listados.dfy` | `Listados` | the best and worst listings |
| `estadisticas.dfy` | `Estadisticas` | the statistics report, as folds and the loops that compute them |
| `traductor.dfy` | `Traductor` | the class `TraductorAprendizaje`, its state and its methods |

The class holds the store and the log as fields; its methods change them and are proved against
the functions of the other modules. A phrase table is a sequence of (key, entry) pairs rather
than a map, so that the order the source's dictionaries iterate in is part of the model. That
order decides how ties fall in the listings and in which order a merge visits entries. The two
language levels are visited in the enumeration order. Timestamps are abstract instants (`nat`)
that the caller passes in.

The display values of the languages are the enumeration's literal strings, character for
character. Their accented letters are written as two characters each: "é" as U+221A U+00A9 and
"ñ" as U+221A U+00B1.

## Model

| member | source | states |
|---|---|---|
| Idiomas.EnumeracionCompleta | Traductor.py:9-13 | iterating the enumeration visits each of the four languages exactly once |
| Idiomas.DesdeValor | Traductor.py:408-416 | looking a language up by its display value (the enumeration's literal string) finds the language with that value, or reports that none has it |
| Idiomas.ValorIdaYVuelta | Traductor.py:9-13 | the display values are distinct, so the lookup by value recovers every language |
| Texto.Minusculas | Traductor.py:124 | lower-casing keeps the length and lowers each character, leaving non-capitals alone |
| Texto.MinusculasEsMinuscula | Traductor.py:124 | a lower-cased phrase has no capital left |
| Texto.MinusculasFijaMinuscula | Traductor.py:124 | lower-casing a phrase without capitals returns it unchanged |
| Texto.MinusculasIdempotente | Traductor.py:199 | lower-casing twice equals lower-casing once, so a stored key is found again under any case |
| Puntuacion.SumaConcatenada | Traductor.py:137-140 | the sum of a concatenated history is the sum of the two sums |
| Puntuacion.SumaAcotada | Traductor.py:27 | a history of scores in [lo, hi] sums to between n·lo and n·hi |
| Puntuacion.MediaAcotada | Traductor.py:27 | the mean of scores that all lie in [lo, hi] lies in [lo, hi] |
| Puntuacion.CocienteEntre | Traductor.py:27 | a total of n values from [lo, hi], divided by n, lies in [lo, hi] |
| Puntuacion.MediaConcatenada | Traductor.py:137-140 | the mean of a concatenation is the length-weighted mean of the two means |
| Traducciones.Nueva | Traductor.py:16-22 | a new entry has the given text, history [5], count 1, average 5, and both dates set to now; it is coherent |
| Traducciones.ConPuntuacion | Traductor.py:206-208 | the inserted entry has history [score], average = score, count 1, and both dates set to now; it is coherent |
| Traducciones.ActualizarPuntuacion | Traductor.py:24-28 | an evaluation appends the score, adds one to the count, sets average = sum(history)/count and the modification date; it keeps text and creation date; it keeps an entry coherent and gives the running-mean formula |
| Traducciones.ActualizarPuntuacionEnRango | Traductor.py:24-28 | a valid score on a coherent entry with valid scores leaves the average within 1..10 |
| Traducciones.EjemploEvaluacion | Traductor.py:24-28 | an entry seeded with 5 and then scored 9 has history [5, 9], count 2 and average 7 |
| Traducciones.Combinar | Traductor.py:131-142 | the conflict branch of a merge: the foreign text wins, history = local ++ foreign, count = length of that history, creation date kept; with a non-empty history the entry is coherent and re-dated; with an empty one the division fails and average and date stay as they were |
| Traducciones.CombinarPromedioPonderado | Traductor.py:137-140 | merging two coherent entries gives the count-weighted mean of their averages and the sum of their counts |
| Traducciones.ADict | Traductor.py:30-38 | writing an entry out produces exactly the six named fields, holding the entry's text and history |
| Traducciones.DesdeDict | Traductor.py:40-48 | a record is read back exactly when all six fields are present with values of the right kind; the text and history are taken over |
| Traducciones.DictIdaYVuelta | Traductor.py:30-48 | writing an entry out and reading it back gives the same entry |
| Traducciones.DictVueltaEIda | Traductor.py:30-48 | reading a well-formed six-field record and writing it out again gives the same record |
| Tablas.Posicion | Traductor.py:129 | the position of a key is that of its first occurrence, or the table length exactly when the key is absent |
| Tablas.Buscar | Traductor.py:259 | a lookup finds an entry exactly when the key is present, and the pair it finds is in the table |
| Tablas.Poner | Traductor.py:210 | an assignment to a present key replaces that entry in place and leaves the rest; a new key is appended at the end |
| Tablas.PonerBuscar | Traductor.py:210 | after an assignment, the key finds the new entry, every other key finds what it found before, and the table grows by one exactly when the key was new |
| Tablas.PonerClavesUnicas | Traductor.py:210 | an assignment keeps the keys unique |
| Diccionarios.Existe | Traductor.py:244-248 | a phrase exists for a pair exactly when some key of that pair's table is the lower-cased phrase; it never exists for a missing source row or pair |
| Diccionarios.Entrada | Traductor.py:244-248 | a lookup finds an entry exactly when the existence test holds for the lower-cased phrase, and what it finds is in that pair's table |
| Diccionarios.EntradaIgnoraMayusculas | Traductor.py:244-248 | two phrases that lower-case alike find the same entry and agree on existence |
| Diccionarios.EntradaDeMinusculas | Traductor.py:244-248 | looking up the lower-cased phrase gives the same result as looking up the phrase |
| Diccionarios.Insertar | Traductor.py:198-210 | an insertion creates the source row and the pair table when absent, assigns into that pair, and leaves every other pair and row as it was |
| Diccionarios.InsertarEntrada | Traductor.py:198-210 | after an insertion the phrase finds the new entry, and every other (pair, key) finds what it found before |
| Diccionarios.InsertarBienFormado | Traductor.py:210 | an insertion keeps every table's keys unique |
| Diccionarios.EsqueletoBienFormado | Traductor.py:58-63 | the empty skeleton is well-formed |
| Diccionarios.TotalInsertar | Traductor.py:186-210 | an insertion adds one entry to the total when the key is new to the pair, and none when it overwrites |
| Diccionarios.TotalEsqueleto | Traductor.py:186-192 | the empty skeleton holds no entry |
| Diccionarios.SumaFilaCambio | Traductor.py:189-191 | changing one pair's table changes its row's sum by the change in that table's size |
| Diccionarios.SumaOrigenesCambio | Traductor.py:189-191 | changing one source row changes the total by the change in that row's sum |
| OrdenEstable.Ordenar | Traductor.py:360 | sorting gives a permutation of the list in ascending key order |
| OrdenEstable.OrdenarEstable | Traductor.py:360 | the sort is stable: elements with equal keys keep their relative order |
| OrdenEstable.PrefijoDeOrdenada | Traductor.py:346 | in a sorted list, no element of a prefix ranks above any element left out of it |
| OrdenEstable.ConRangoPrefijo | Traductor.py:346 | the elements of a prefix that have a given key form a prefix of those of the whole list |
| OrdenEstable.ConRangoConcatenado | Traductor.py:180-181 | filtering by key distributes over concatenation |
| Historial.OrdenarPorFecha | Traductor.py:181 | sorting the log by date gives a date-ordered permutation of it |
| Historial.FusionarHistorial | Traductor.py:179-181 | an empty foreign log leaves the local log untouched; otherwise the result is a date-ordered permutation of local ++ foreign |
| Historial.FusionarHistorialEstable | Traductor.py:179-181 | records with the same date keep their order after a merge: local ones in local order, then foreign ones in foreign order |
| Listados.Cortar | Traductor.py:346 | slicing to the limit keeps a prefix of length min(limit, n), and with a negative limit drops that many elements from the end |
| Listados.Mejores | Traductor.py:332-346 | an absent pair gives []; otherwise the list has the sliced length, is drawn from the pair's entries, is in descending order of average, and no entry left out has a higher average than a listed one |
| Listados.Peores | Traductor.py:348-362 | an absent pair gives []; otherwise the list has the sliced length, is drawn from the pair's entries, is in ascending order of average, and no entry left out has a lower average than a listed one |
| Listados.MejoresEstable | Traductor.py:344-346 | listed entries with equal averages keep the pair's insertion order |
| Listados.PeoresEstable | Traductor.py:360-362 | listed entries with equal averages keep the pair's insertion order |
| Fusion.Contar | Traductor.py:171-176 | the counter the outcome names ("added", "updated" or an error) grows by one and the other two stay as they were |
| Fusion.FusionarTraduccion | Traductor.py:119-152 | the outcome is "added" exactly when the key is absent; an absent key stores the foreign entry verbatim; a present key stores the combined entry, and fails exactly when both histories are empty; no other key changes; the total grows by one exactly when the entry was added |
| Fusion.FusionarTraduccionCoherente | Traductor.py:119-152 | merging a coherent entry into a coherent store keeps every entry coherent and never fails |
| Fusion.EntradaCoherente | Traductor.py:132 | what a lookup finds in a coherent store is coherent |
| Fusion.InsertarCoherente | Traductor.py:151 | inserting a coherent entry keeps a coherent store coherent |
| Fusion.PonerCoherente | Traductor.py:151 | assigning a coherent entry keeps a coherent table coherent |
| Fusion.FusionarTabla | Traductor.py:168-176 | merging a pair's entries counts each step once and grows the total by the added ones |
| Fusion.FusionarTablaPaso | Traductor.py:168-176 | merging the first k + 1 entries of a pair is merging the first k and then entry k, counting its outcome |
| Fusion.FusionarFila | Traductor.py:167-176 | merging a row counts each of its entries once and grows the total by the added ones |
| Fusion.FusionarOrigenes | Traductor.py:166-176 | merging source rows counts each of their entries once and grows the total by the added ones |
| Fusion.FusionarDiccionario | Traductor.py:159-183 | added + updated + failed equals the number of foreign entries, and the total after equals the total before plus the added ones |
| Fusion.FusionarTablaCoherente | Traductor.py:168-176 | merging coherent tables keeps the store coherent and counts no error |
| Fusion.FusionarFilaCoherente | Traductor.py:167-176 | merging coherent rows keeps the store coherent and counts no error |
| Fusion.FusionarOrigenesCoherente | Traductor.py:166-176 | merging coherent source rows keeps the store coherent and counts no error |
| Fusion.PasoEntrada | Traductor.py:124-152 | after merging a foreign entry, any phrase that lower-cases like its key finds the foreign entry (key was absent) or the combination of the local and foreign entries (key was present) |
| Fusion.PasoConserva | Traductor.py:131-141 | a merge step loses no local entry, and the entry's history is a prefix of its new history |
| Fusion.FusionarTablaMarco | Traductor.py:168-176 | merging a pair's entries leaves every other pair alone, and every phrase of the pair that no foreign key lower-cases like |
| Fusion.FusionarTablaEntrada | Traductor.py:168-176 | when exactly one foreign entry of the pair lower-cases like a phrase, the phrase ends up finding that entry merged into what it found before |
| Fusion.FusionarTablaConserva | Traductor.py:168-176 | merging a pair's entries loses no local entry and keeps each history as a prefix |
| Fusion.FusionarFilaMarco | Traductor.py:167-176 | merging a row leaves alone every other source, every target it does not visit, and every phrase no foreign key of its table lower-cases like |
| Fusion.FusionarFilaEntrada | Traductor.py:167-176 | a phrase exactly one foreign entry of a visited table lower-cases like ends up finding that entry merged into what it found before |
| Fusion.FusionarFilaConserva | Traductor.py:167-176 | merging a row loses no local entry and keeps each history as a prefix |
| Fusion.FusionarOrigenesMarco | Traductor.py:166-176 | merging source rows leaves alone every phrase of an unvisited source, a missing pair, or a pair none of whose foreign keys lower-cases like it |
| Fusion.FusionarOrigenesEntrada | Traductor.py:166-176 | a phrase exactly one foreign entry of a visited pair lower-cases like ends up finding that entry merged into what it found before |
| Fusion.FusionarOrigenesConserva | Traductor.py:166-176 | merging source rows loses no local entry and keeps each history as a prefix |
| Fusion.FusionarDiccionarioMarco | Traductor.py:166-176 | a local phrase that no foreign key of its pair lower-cases like reads exactly as before the merge |
| Fusion.FusionarDiccionarioEntrada | Traductor.py:119-152 | a phrase exactly one foreign entry lower-cases like finds, after the merge, the foreign entry if it was absent, or the local entry combined with it (foreign text, local history then foreign history) |
| Fusion.FusionarDiccionarioConserva | Traductor.py:131-141 | a merge loses no local entry, and every local history is a prefix of the merged history |
| Fusion.EntradaNormalizada | Traductor.py:244-248 | in a store whose keys are lower-cased and unique, looking up a stored key finds its own entry |
| Fusion.AutoFusionDuplica | Traductor.py:131-141 | merging a store with lower-cased unique keys into itself turns each entry into its combination with itself, whose history is its own history twice |
| Fusion.FusionDisjuntaConmuta | Traductor.py:154-176 | merging two foreign dictionaries with lower-cased unique keys that share no phrase of any pair, in either order, gives every lookup the same result |
| Fusion.FusionarDiccionarioCoherente | Traductor.py:154-184 | merging a coherent foreign dictionary into a coherent store keeps every entry coherent and counts no error |
| Estadisticas.PorIdiomaInicial | Traductor.py:288-294 | every language starts with no entries, best 0 and worst 10 |
| Estadisticas.MejorDe | Traductor.py:312-313 | the running best is at least its start and at least every entry's average |
| Estadisticas.PeorDe | Traductor.py:314-315 | the running worst is at most its start and at most every entry's average |
| Estadisticas.MejorDeAlcanzado | Traductor.py:312-313 | the running best is its start or some entry's average |
| Estadisticas.PeorDeAlcanzado | Traductor.py:314-315 | the running worst is its start or some entry's average |
| Estadisticas.PasoParIdioma | Traductor.py:300-319 | a non-empty pair adds its size to its source's and its target's counts, and folds its entries into the source's best and worst; an empty pair changes nothing |
| Estadisticas.IdiomasParEnOrden | Traductor.py:304-315 | the report's three in-place updates for a non-empty pair (source count, target count, then the source's best and worst) give each language the figures the per-language rule states |
| Estadisticas.PasoFila | Traductor.py:297-319 | folding a row adds the row's entry count to the total |
| Estadisticas.PasoFilaComoOrigen | Traductor.py:297-305 | folding a row adds the row's entry count to its source's count and to no other language's |
| Estadisticas.PasoFilaComoDestino | Traductor.py:297-305 | folding a row adds each target's table size to that target's count |
| Estadisticas.PasoFilaOtro | Traductor.py:312-315 | folding a row changes only its source's best and worst |
| Estadisticas.PasoFilaMonotono | Traductor.py:312-315 | folding a row never lowers its source's best nor raises its worst |
| Estadisticas.PasoFilaCotas | Traductor.py:312-315 | after folding a row, every average in it lies between its source's worst and best |
| Estadisticas.PasoOrigenes | Traductor.py:296-319 | folding the source rows adds their entry counts to the total |
| Estadisticas.PasoOrigenesComoDestino | Traductor.py:305 | a language's target count grows by the entries of its column |
| Estadisticas.PasoOrigenesComoOrigen | Traductor.py:304 | a language's source count grows by the entries of its row |
| Estadisticas.PasoOrigenesMonotono | Traductor.py:312-315 | folding source rows never lowers a best nor raises a worst |
| Estadisticas.PasoOrigenesCotas | Traductor.py:312-315 | every average of a source row lies between that source's worst and best |
| Estadisticas.Calcular | Traductor.py:280-330 | the report covers every language, its entry total is the dictionary's total, the global score is 0 when no pair has entries, and it reports the log length |
| Estadisticas.TablasConcatenadas | Traductor.py:296-321 | the per-pair means, the evaluation count and the entry count of a sequence of tables distribute over concatenation |
| Estadisticas.MediasVacias | Traductor.py:300-321 | no pair gets a mean exactly when the tables hold no entry |
| Estadisticas.TablasFilaEntradas | Traductor.py:297-302 | the tables of a row hold as many entries as the row |
| Estadisticas.TablasOrigenesEntradas | Traductor.py:296-302 | the tables of the source rows hold as many entries as those rows |
| Estadisticas.PasoFilaPares | Traductor.py:297-321 | folding a row adds the evaluations of its tables, one combination per non-empty table, and the sum of those tables' mean averages |
| Estadisticas.PasoOrigenesPares | Traductor.py:296-321 | folding the source rows does the same over all of their tables |
| Estadisticas.CalcularGlobal | Traductor.py:280-330 | the report's evaluation total is that of every entry; it counts one combination per non-empty pair, none exactly when the store is empty; its global score is the mean of the per-pair mean averages, or 0 when no pair counts |
| Estadisticas.PasoFilaAlcanzado | Traductor.py:312-315 | after folding a row, its source's best and worst are each their start value or the average of one of the row's entries |
| Estadisticas.PasoOrigenesAlcanzado | Traductor.py:312-315 | after folding the source rows, each language's best and worst are their start value or the average of an entry of its row |
| Estadisticas.CalcularAlcanzado | Traductor.py:288-315 | a language's reported best is 0 or the average of some entry of its row, and its worst is 10 or the average of some entry of its row |
| Estadisticas.CalcularPorIdioma | Traductor.py:296-315 | a language's source count is the size of its row, its target count the size of its column, its best is at least 0 and its worst at most 10, and every average in its row lies between its worst and best |
| Estadisticas.EstadisticasEsqueleto | Traductor.py:280-330 | on the empty skeleton the report is all zeros with the initial per-language figures |
| Estadisticas.PasoFilaVacia | Traductor.py:300 | a row whose tables are all empty changes nothing |
| Estadisticas.PasoOrigenesVacia | Traductor.py:300 | a store whose tables are all empty changes nothing |
| Estadisticas.PasoParValido | Traductor.py:317-319 | with valid averages, the running sum of pair means stays between 1 and 10 times the number of non-empty pairs |
| Estadisticas.PasoFilaValida | Traductor.py:317-319 | the same bound holds after folding a row |
| Estadisticas.PasoOrigenesValido | Traductor.py:317-319 | the same bound holds after folding the source rows |
| Estadisticas.PuntuacionGlobalValida | Traductor.py:317-321 | when every average is in 1..10 and some pair has entries, the global score lies in 1..10 |
| Estadisticas.AcumularFila | Traductor.py:297-319 | the loop over a row's targets computes the row fold |
| Estadisticas.AcumularPar | Traductor.py:300-319 | the body for one non-empty pair computes the pair step |
| Estadisticas.RecorrerPar | Traductor.py:307-315 | the loop over a pair's entries computes the sum of averages, the sum of evaluation counts, and the source's new best and worst |
| Traductor.FilaVacia | Traductor.py:60-63 | the row built for a source language has an empty table for every other language and none for itself |
| Traductor.TraductorAprendizaje.constructor | Traductor.py:52-55 | a new translator holds the empty skeleton and an empty log |
| Traductor.TraductorAprendizaje.InicializarDiccionario | Traductor.py:58-63 | every language gets a row, holding an empty table for every other language and none for itself; the log is untouched |
| Traductor.TraductorAprendizaje.AgregarTraduccion | Traductor.py:194-196 | an insertion with the default score of 5 |
| Traductor.TraductorAprendizaje.AgregarTraduccionConPuntuacion | Traductor.py:198-219 | stores, under the lower-cased phrase, an entry with history [score]; overwrites any previous entry and leaves every other key as it was; the total grows by one exactly when the phrase was new; one "add" record is appended to the log |
| Traductor.TraductorAprendizaje.Traducir | Traductor.py:221-242 | finds a translation exactly when the phrase exists in any case; a hit returns the stored text and appends one "translate" record with the average; a miss changes nothing; the store is never changed |
| Traductor.TraductorAprendizaje.EvaluarTraduccion | Traductor.py:250-278 | a score outside 1..10 or a missing phrase is refused with nothing changed; otherwise the entry is updated by the evaluation, no other entry changes, the total is kept, and one "evaluate" record with the previous average is appended |
| Traductor.TraductorAprendizaje.FusionarTraduccion | Traductor.py:119-152 | the store and the outcome are those of the merge function; the log is untouched |
| Traductor.TraductorAprendizaje.FusionarDiccionarioCompleto | Traductor.py:154-184 | the store is the one the merge fold computes; the report's counters add up to the number of foreign entries; the total after is the total before plus the added ones; the log is the merged log |
| Traductor.TraductorAprendizaje.FusionarEntrada | Traductor.py:170-174 | one step of the entries loop: the store becomes the one the merge of that entry gives, and the counter its outcome names grows by one |
| Traductor.TraductorAprendizaje.FusionarFila | Traductor.py:167-176 | the loop over one foreign row performs the row merge |
| Traductor.TraductorAprendizaje.FusionarTabla | Traductor.py:168-176 | the loop over one foreign pair performs the pair merge |
| Traductor.TraductorAprendizaje.ObtenerTotalTraducciones | Traductor.py:186-192 | the counting loop returns the number of entries |
| Traductor.TraductorAprendizaje.ObtenerEstadisticas | Traductor.py:280-330 | the three nested loops compute the statistics report |
| Traductor.TraductorAprendizaje.LimpiarDiccionario | Traductor.py:627-632 | afterwards the log is empty, the store is the empty skeleton, and the total is 0 |
| Traductor.TraductorAprendizaje.ReemplazarDiccionario | Traductor.py:465-468 | the replace branch of loading: the store and log become the loaded ones |

## Left out

- The Tk user interface (`TraductorAprendizajeGUI`, `main`) is not part of this model.
- File input and output are not modelled: pickle and JSON saving and loading, and the text export `exportar_traducciones_texto`. Only the replace branch of the two loaders is modelled, as `ReemplazarDiccionario`. Their merge branch is a call of `FusionarDiccionarioCompleto`.
- Traductor.TraductorAprendizaje.ReemplazarDiccionario: requires the loaded tables to have unique keys. A dictionary read from a file cannot hold a key twice, so this requirement costs nothing.
- The loaders store the keys they read as they are, without lower-casing them. Their conversion of display values into languages is modelled only as `Idiomas.DesdeValor`.
- `datetime.now()`, `isoformat` and `fromisoformat` are replaced by abstract instants (`nat`) passed by the caller. One call of a merge uses a single instant for every entry it updates, whereas the source reads the clock once per entry.
- Scores and averages are exact reals, not IEEE doubles, so rounding is not modelled.
- Texto.Minusculas: lowers the ASCII and Latin-1 capitals only, not the full Unicode case mapping of Python's `str.lower()`.
- Entries are values. The source's merge stores the foreign entry object itself, so the two dictionaries then share it. That sharing (aliasing) is not modelled. In particular `Fusion.AutoFusionDuplica` is about merging a copy of the store into the store, not the same objects.
- Fusion.FusionDisjuntaConmuta: states that the two orders agree on every lookup, not that the resulting tables list their keys in the same order; the insertion order of new keys follows the merge order.
- The two language levels of the store are visited in enumeration order, where the source follows the insertion order of its dictionaries. Every result proved here is independent of that order except which merge step happens first. Different pairs never share an entry, so that difference is not visible in the results either.
- The seed data `inicializar_traducciones` (Traductor.py:65-117) is not modelled; the constructor ends with the empty skeleton. The seed data is only a fixed sequence of `AgregarTraduccion` calls.
- Return messages, `print` and the GUI's use of results are left out. `EvaluarTraduccion` returns the previous and new averages in place of the message text.
- The merge loop's `try/except` is modelled as the `Error` outcome. Only one exception can occur in a merge of well-typed entries: the division by zero when both histories are empty.
- Evaluation counts are `nat`, so a negative count in loaded data is not representable.
