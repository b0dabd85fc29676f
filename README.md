# raf_est in Dafny

A model of the data and access-control core of raf_est, the results dashboard of the
RAF mathematics exam, school by school. It has two halves.

The ingestion scripts:

- turn each school's exam sheet into the result tree `resultados.json`: students with
  percentage, tier and twelve answers; groups and schools with tier tallies and item rates;
- merge that tree with the language roster or the master roster;
- normalise group labels;
- attach the school directory ("Buscador de Escuelas");
- maintain the credential file `lib/auth-data.json`.

The web side:

- scores rows the same way (`lib/raf.ts`);
- repairs mojibake (`lib/utf8-fix.ts`);
- reads the tree (`lib/data-server.ts`);
- lists schools by tier (`app/escuelas/EscuelasContent.tsx`);
- checks passwords (`lib/auth-data.ts`);
- signs and checks the session cookie (`lib/auth.ts`);
- runs the login route (`app/api/login/route.ts`) and the page guard (`middleware.ts`).

Conventions of the model:

- A percentage is kept in integer tenths: 87.5 % is 875. `Math.round(a / t * 1000) / 10` is
  `(2000a + t) / (2t)`.
- A spreadsheet cell's points are missing, not a number, or an integer. Only their sign is
  ever consulted.
- A JSON object is its list of entries, so key order and duplicate keys are visible.
  `JSON.parse` keeps the last value of a repeated key. `obj[k] = v` keeps an existing
  key's place.
- Things outside the program are parameters of the operations that use them:
  - the file system and `JSON.parse`;
  - SHA-256, HMAC and base64;
  - the clock;
  - `Math.random`, given as the run's stream of draws, each a numerator over 2^53;
  - the Latin-1→UTF-8 decoder.

  The properties that depend on one of them are proved under the laws stated as
  preconditions.
- Operations that work step by step are methods with loops, proved equal to a function
  that specifies them:
  - the percentage loop;
  - the per-item counters;
  - the map building of the merges;
  - the credential scripts.

  The in-place mutations of the parsed JSON are methods over an `array` with `modifies`:
  `fix-grupos-resultados` and `merge-buscador-escuelas`.

Modules: `Base` (options, JSON values, objects as entries), `JsString` (trim, case,
slice, string order), `RafTypes`, `Sorting`, `GrupoNorm`, `Score`, `Utf8Fix`, `ParseExcel`,
`Fusionar`, `MergeMaestra`, `FixGrupos`, `DataServer`, `EscuelasContent`, `Auth`,
`Middleware`, `AuthData`, `LoginRoute`, `ApplyPasswords`, `Azar`, `SyncAuth`,
`GenerateAuth`, `MergeBuscador`.

## Model

| member | source | states |
|---|---|---|
| Base.ObjectOfLookup | lib/auth-data.ts:7-37 | the object JSON.parse builds from a text with repeated keys answers each key with its last value |
| Base.Assign | scripts/sync-auth-escuelas.mjs:52 | `obj[k] = v`: afterwards k holds v, every other key holds what it held, and the object grows by at most one entry |
| Base.Remove | scripts/sync-auth-escuelas.mjs:59 | `delete obj[k]`: afterwards k is absent and every other key holds what it held |
| Base.KeysOf | scripts/sync-auth-escuelas.mjs:57 | `Object.keys(obj)`: one key per entry, and a string is among them exactly when the object has that key |
| Base.SetAllLaterWins | scripts/fusionar-base-lenguaje-matematicas.mjs:121-131 | after a sequence of `map.set` calls a key holds the value of its last set |
| Base.SetAllKeys | scripts/merge-buscador-escuelas.mjs:48-71 | the keys of the map after a sequence of `map.set` calls are exactly the keys that were set |
| JsString.Trim | lib/raf.ts:28 | `trim()` returns a contiguous part of the text with no whitespace at either end, empty exactly when the text is all whitespace |
| JsString.TrimStart | lib/auth-data.ts:43-48 | the text minus its leading whitespace, and nothing else removed |
| JsString.TrimEnd | lib/auth-data.ts:43-48 | the text minus its trailing whitespace, and nothing else removed |
| JsString.TrimIdempotent | lib/raf.ts:43 | trimming an already trimmed answer changes nothing |
| JsString.TrimNoEdges | lib/raf.ts:43 | a text with no whitespace at either end is its own trim |
| JsString.Upper | scripts/parse-excel-to-json.mjs:27 | `toUpperCase()` keeps the length and maps each character by the case table |
| JsString.Lower | scripts/apply-passwords-estilo-dst.mjs:40 | `toLowerCase()` keeps the length and maps each character by the case table |
| JsString.UpperKeepsWhite | scripts/parse-excel-to-json.mjs:27 | case mapping never turns a character into whitespace or whitespace into something else |
| JsString.TrimUpper | scripts/parse-excel-to-json.mjs:27 | upper-casing then trimming equals trimming then upper-casing |
| JsString.Prefix | scripts/parse-excel-to-json.mjs:52 | `slice(0, n)` is the longest prefix of at most n characters, and the whole text when it is short enough |
| JsString.LessIrreflexive | scripts/fix-grupos-resultados.mjs:107 | the default string order never puts a name before itself |
| JsString.LessAsymmetric | scripts/fix-grupos-resultados.mjs:107 | the default string order never puts two names each before the other |
| JsString.LessTransitive | scripts/fix-grupos-resultados.mjs:107 | the default string order is transitive |
| JsString.LessTotal | scripts/fix-grupos-resultados.mjs:107 | any two distinct names are ordered one way or the other |
| Sorting.SortByMultiset | scripts/parse-excel-to-json.mjs:111 | sorting returns a permutation of its input |
| Sorting.SortByCorrect | scripts/fix-grupos-resultados.mjs:107 | with pairwise distinct keys, the sorted list is a permutation of the input in strictly ascending key order |
| Sorting.InsertMultiset | scripts/fix-grupos-resultados.mjs:107 | inserting adds exactly the new element |
| Sorting.InsertSorted | scripts/fix-grupos-resultados.mjs:107 | inserting a new key into a strictly ascending list keeps it strictly ascending |
| RafTypes.Tramo | scripts/parse-excel-to-json.mjs:131-133 | the tally a tier lands in when only the first two tiers are checked: the three exam tiers map to themselves, SIN EXAMEN to esperado |
| Score.CeldaAt | lib/raf.ts:24-25 | item i of a row is its i-th cell pair, and an item the row lacks reads as absent |
| Score.CalcularPorcentaje | lib/raf.ts:20-39 | the loop over items 1..12 returns the student percentage: correct items over items with positive points and mark "C" or zero points, rounded to tenths, 0 when no item counts |
| Score.AciertosBelowContados | lib/raf.ts:30-35 | correct items never outnumber counted items, which never outnumber the items looked at |
| Score.TenthsRange | lib/raf.ts:38 | the rounded ratio of a part to its whole is between 0 and 100.0 |
| Score.TenthsFull | lib/raf.ts:38 | for fewer than 2000 counted items the rounded ratio is 100.0 exactly when every counted item is correct |
| Score.PorcentajeRange | lib/raf.ts:37-38 | the student percentage is in [0, 100.0]; it is 100.0 exactly when at least one item counts and all counted items are correct; it is 0 when no item counts |
| Score.CountsOnlyFirst | lib/raf.ts:23-26 | the counts over items 1..n depend on those items only |
| Score.PorcentajeOnlyFirstTwelve | lib/raf.ts:23 | two rows that agree on items 1..12 get the same percentage, whatever else they hold |
| Score.ObtenerNivel | lib/raf.ts:13-18 | never SIN EXAMEN; REQUIERE APOYO exactly for no percentage or at most 50.0; ESPERADO exactly above 80.0; EN DESARROLLO otherwise |
| Score.ObtenerNivelMonotone | lib/raf.ts:13-18 | a higher percentage never gets a lower tier |
| Score.Respuesta | lib/raf.ts:41-45 | the answer shown for an item is never empty: "-" for a missing mark, otherwise "-" for an all-blank mark or else the trimmed mark |
| Score.RespuestaTrimmed | lib/raf.ts:43 | a shown answer has no blanks at its ends, and it is "C" exactly when the item's trimmed mark is "C" |
| Score.Respuestas | scripts/parse-excel-to-json.mjs:107 | the stored answers are twelve, answer k being the one shown for item k + 1 |
| GrupoNorm.FirstPair | scripts/parse-excel-to-json.mjs:31-34 | the leftmost position at or after a start where "M1"/"V1" and a letter A-H begin, or none when there is no such position |
| GrupoNorm.LeadingDigits | scripts/parse-excel-to-json.mjs:36 | the length of the run of digits a label starts with |
| GrupoNorm.LetraDeNumero | scripts/parse-excel-to-json.mjs:41 | the group letter picked for a group digit is always an upper-case letter |
| GrupoNorm.ReescribirTurno | scripts/parse-excel-to-json.mjs:31-34 | the M1x/V1x rules apply exactly when the label holds such a pair; the leftmost "M1<A-H>" gives 1, its letter and M, and only when no M pair exists does the leftmost "V1<A-H>" give 1, its letter and V |
| GrupoNorm.Reescribir | scripts/parse-excel-to-json.mjs:31-51 | whenever one of the rewriting rules applies its result is a code digit-letter-shift |
| GrupoNorm.NormalizarTexto | scripts/parse-excel-to-json.mjs:28-52 | the normalised label is at most 10 characters, and is either a code or the label's first 10 characters |
| GrupoNorm.NormalizarGrupo | scripts/parse-excel-to-json.mjs:25-53 | null, undefined or "" give "S/G"; any other label gives at most 10 characters: a code or the first 10 characters of the trimmed upper-cased label |
| GrupoNorm.NormalizarGrupoLib | lib/raf.ts:3-11 | the web variant: "S/G" for null or ""; otherwise a code from the M1x/V1x rules or the first 10 characters of the upper-cased, untrimmed label |
| GrupoNorm.CanonicalSinPar | scripts/parse-excel-to-json.mjs:29-34 | a canonical 1AM..3ZV code holds no M1/V1 pair, so the canonical test never hides an M1x/V1x rewrite |
| GrupoNorm.TextoTurno | scripts/parse-excel-to-json.mjs:29-34 | once an M1x/V1x rule fires on the trimmed upper-case label, its code is the normalised label |
| GrupoNorm.TurnoM | scripts/parse-excel-to-json.mjs:27-32 | a label whose trimmed upper-case form has its leftmost "M1<A-H>" at k normalises to 1, the letter at k + 2, M |
| GrupoNorm.TurnoV | scripts/parse-excel-to-json.mjs:27-34 | a label whose trimmed upper-case form has no "M1<A-H>" and its leftmost "V1<A-H>" at k normalises to 1, the letter at k + 2, V |
| GrupoNorm.BlankLabel | scripts/parse-excel-to-json.mjs:26-27 | a non-empty label of blanks only passes the null/"" test, trims to nothing and normalises to "" |
| GrupoNorm.UpperFixed | scripts/parse-excel-to-json.mjs:27 | labels made of digits, capitals, '/' and blanks are unchanged by upper-casing |
| GrupoNorm.PlainLabel | scripts/parse-excel-to-json.mjs:27 | a label of digits, capitals and '/' goes to the rules as it is |
| GrupoNorm.CanonicalUnchanged | scripts/parse-excel-to-json.mjs:29 | a label whose trimmed upper-case form is already 1AM..3ZV comes back as that form |
| GrupoNorm.OutputsAreFixpoints | scripts/fix-grupos-resultados.mjs:15-39 | every code the normaliser produces, and "S/G", normalises to itself, so running the group fix again changes no such name |
| GrupoNorm.ZNumRule | scripts/parse-excel-to-json.mjs:36-43 | Z, grade, group digit, EST, digits, shift, digits gives grade, the group's letter, shift |
| GrupoNorm.ZLetraRule | scripts/parse-excel-to-json.mjs:45-51 | Z, digits, EST, digits, shift, grade, letter gives grade, letter, shift |
| GrupoNorm.PairsOnlyAt | scripts/parse-excel-to-json.mjs:31-34 | when only one position can start an M/V pair, the M1x/V1x rules can only rewrite using that position |
| GrupoNorm.TruncationNotIdempotent | scripts/parse-excel-to-json.mjs:52 | the 10-character cut is not idempotent: Z11EST5V12Q is cut to Z11EST5V12, which normalises again to 1AV |
| GrupoNorm.LibTurnoOrder | lib/raf.ts:6-9 | in the web variant an M1x pair anywhere wins over any V1x pair; with only V1x pairs the code ends in V |
| GrupoNorm.LibTurnoM | lib/raf.ts:5-7 | in the web variant, the leftmost "M1<A-H>" of the upper-cased label at k gives 1, the letter at k + 2, M |
| GrupoNorm.LibTurnoV | lib/raf.ts:5-9 | in the web variant, with no "M1<A-H>", the leftmost "V1<A-H>" at k gives 1, the letter at k + 2, V |
| GrupoNorm.LibDoesNotTrim | lib/raf.ts:5 | the web variant keeps a leading blank before a code, which the script variant removes |
| GrupoNorm.LibKeepsZLabels | lib/raf.ts:10 | the web variant has no Z...EST rules: such a label is only cut to 10 characters |
| Utf8Fix.ReplaceAll | lib/utf8-fix.ts:9-13 | a global replacement of a two-character sequence by one character never lengthens the text |
| Utf8Fix.ReplaceAllUnchanged | lib/utf8-fix.ts:14 | the replacement leaves the text unchanged exactly when the pair occurs nowhere |
| Utf8Fix.ReplaceAllRemoves | lib/utf8-fix.ts:9-13 | after the replacement the pair occurs nowhere |
| Utf8Fix.FixUtf8Mojibake | lib/utf8-fix.ts:5-22 | if a digraph replacement changed the text, that result; else an unchanged text with no Ã followed by 0x80-0xBF is returned as is; else the Latin-1 re-decoding, or the text itself when decoding fails |
| Utf8Fix.FixMojibakeLatin1 | scripts/parse-excel-to-json.mjs:13-21 | the scripts' variant: text with no Ã followed by 0x80-0xBF is kept, otherwise re-decoded, falling back to the text |
| Utf8Fix.CleanTextUnchanged | lib/utf8-fix.ts:14-16 | a text with no digraph and no mojibake sequence is returned unchanged |
| Utf8Fix.DigraphConsumesLetter | lib/utf8-fix.ts:10-11 | in an upper-case name, ÃA and ÃO become Ñ and consume the letter after the Ã (PEÃA gives PEÑ) |
| Utf8Fix.FixObjectStrings | lib/utf8-fix.ts:28-37 | the recursive walk returns the value with every string repaired and everything else kept |
| Utf8Fix.FixJsonShape | lib/utf8-fix.ts:28-37 | the walk keeps the kind of every value, array and object lengths, every key, and every null, boolean and number |
| Utf8Fix.FixJsonIdentity | lib/utf8-fix.ts:28-37 | with a decoder that never changes text it accepts, a tree with no digraphs comes back unchanged |
| Utf8Fix.CleanOrDecoded | lib/utf8-fix.ts:14-21 | with such a decoder, a text with no digraph is returned unchanged |
| Utf8Fix.DigraphsUnchanged | lib/utf8-fix.ts:9-13 | a text with no digraph passes the five replacements unchanged |
| ParseExcel.GrupoDeFila | scripts/parse-excel-to-json.mjs:97-98 | a row's group is "UNICO" when the sheet has no QuizClass column, the cell is absent or its repaired text is empty; otherwise it is normalizarGrupo of the repaired text; never longer than 10 characters |
| ParseExcel.GrupoEnBlanco | scripts/parse-excel-to-json.mjs:97-98 | a QuizClass cell whose repaired text is non-empty but all blanks gives the group "" |
| ParseExcel.ProcesarTodas | scripts/parse-excel-to-json.mjs:94-109 | the first pass keeps one processed row per sheet row, in order, each carrying its row and one of the three exam tiers |
| ParseExcel.Distintos | scripts/parse-excel-to-json.mjs:95-99 | the labels gathered in the Set are each label of the rows once, with no repeats |
| ParseExcel.SinVacios | scripts/parse-excel-to-json.mjs:111 | `filter(Boolean)` keeps exactly the non-empty labels |
| ParseExcel.FilasDeGrupo | scripts/parse-excel-to-json.mjs:141 | the rows of a group are rows of the sheet carrying that label, as many as there are such rows |
| ParseExcel.AlumnoDe | scripts/parse-excel-to-json.mjs:165-172 | a stored student has names of at most 50 characters and carries its row's group, percentage and tier |
| ParseExcel.Resumenes | scripts/parse-excel-to-json.mjs:140-179 | one summary per group name, in the order of the names |
| ParseExcel.SumarFila | scripts/parse-excel-to-json.mjs:120-130 | one row adds 1 to an item's denominator when its mark and numeric points are present, and 1 to its numerator when it is also correct; nothing else changes |
| ParseExcel.ContarReactivos | scripts/parse-excel-to-json.mjs:114-130 | the counting loop returns, per item, the rows that answered it correctly and the rows that attempted it |
| ParseExcel.ProcesarFila | scripts/parse-excel-to-json.mjs:96-108 | the row object of the first pass: group, percentage, tier and twelve answers |
| ParseExcel.PrimeraPasada | scripts/parse-excel-to-json.mjs:95-109 | the first pass returns the processed rows and the Set's labels in order of first occurrence |
| ParseExcel.ContarNiveles | scripts/parse-excel-to-json.mjs:116-134 | the school tallies count the rows of each tier |
| ParseExcel.ResumirGrupos | scripts/parse-excel-to-json.mjs:140-179 | the group loop returns the summary of each group name |
| ParseExcel.ProcesarEscuela | scripts/parse-excel-to-json.mjs:85-190 | an empty sheet gives no school; any other sheet gives the summary built from its rows |
| ParseExcel.NivelesSuman | scripts/parse-excel-to-json.mjs:131-133 | when every row has an exam tier, the three tallies add up to the number of rows |
| ParseExcel.EscuelaTotales | scripts/parse-excel-to-json.mjs:181-189 | requiereApoyo + enDesarrollo + esperado == totalEstudiantes == number of rows |
| ParseExcel.AciertosBelowIntentos | scripts/parse-excel-to-json.mjs:126-127 | an item is answered correctly by no more rows than attempt it, and attempted by no more rows than there are |
| ParseExcel.TasasRango | scripts/parse-excel-to-json.mjs:136-138 | the item rates are twelve values in [0, 100.0], and 0 for an item nobody attempted |
| ParseExcel.DenominadoresReactivo | scripts/parse-excel-to-json.mjs:62-78 | an item that counts for the student counts for the item rate; the item rate also counts items with negative points or positive points and a mark other than "C", which the student percentage skips |
| ParseExcel.NombresGruposOrdenados | scripts/parse-excel-to-json.mjs:111-112 | the group names are never an empty list and never contain "", are strictly ascending, and are the rows' non-empty labels, or just "UNICO" when every label is empty |
| ParseExcel.OrdenarNombres | scripts/parse-excel-to-json.mjs:111 | sorting distinct labels gives them all, strictly ascending |
| ParseExcel.ResumenGrupoCorrecto | scripts/parse-excel-to-json.mjs:160-177 | a group's total is the number of its students and of the rows with its name; every student carries the group's name; the tiers add up to the total |
| ParseExcel.CuentaEnTodas | scripts/parse-excel-to-json.mjs:140-141 | when every label is one of the names or empty, the rows split into the named rows and the empty-label rows |
| ParseExcel.AlumnosEnResumenes | scripts/parse-excel-to-json.mjs:140-179 | the group summaries list as many students as there are rows whose label is one of the names |
| ParseExcel.AlumnosEnGrupos | scripts/parse-excel-to-json.mjs:98-112 | a row whose label is empty counts in totalEstudiantes but in no group: the groups' students plus those rows make the total |
| Recuento.SumarRespuestas | scripts/fusionar-base-lenguaje-matematicas.mjs:198-205 | for a matched student every item adds 1 to the group's and the school's denominators, and an exact "C" adds 1 to both numerators |
| Recuento.ContarResultado | scripts/fusionar-base-lenguaje-matematicas.mjs:187-206 | a matched student adds 1 to the tally of its tier, where anything other than the first two tiers counts as esperado, and adds to the item counters; an unmatched student changes nothing |
| Recuento.TramosSuman | scripts/fusionar-base-lenguaje-matematicas.mjs:187-197 | the three tier tallies add up to the matched students, never more than the students looked up |
| Recuento.AciertosBelowEmparejados | scripts/fusionar-base-lenguaje-matematicas.mjs:198-205 | an item's numerator never exceeds its denominator, the matched students |
| Recuento.EmparejadosMasSin | scripts/fusionar-base-lenguaje-matematicas.mjs:173-187 | every looked-up student is either matched or unmatched |
| Recuento.TodosEmparejados | scripts/merge-maestra-lenguaje.mjs:84-113 | when every lookup finds a record nobody is unmatched |
| Recuento.TodosSinExamen | scripts/merge-maestra-lenguaje.mjs:98-111 | when every lookup finds a SIN EXAMEN record with no answers, every student is tallied as esperado and no answer counts as correct |
| Recuento.TasasEmparejados | scripts/fusionar-base-lenguaje-matematicas.mjs:209-211 | item rates over the matched students are in [0, 100.0], and all 0 when nobody matched |
| Fusionar.ClaveReNormalizada | scripts/fusionar-base-lenguaje-matematicas.mjs:100-105 | the key normalises the group again, which changes nothing for a label that already normalised to a code, so the exam side and the roster side agree |
| Fusionar.NombreFila | scripts/fusionar-base-lenguaje-matematicas.mjs:124-125 | a name from the exam sheet is at most 50 characters |
| Fusionar.EntradasArchivo | scripts/fusionar-base-lenguaje-matematicas.mjs:121-131 | one `map.set` per row of the file |
| Fusionar.EntradaDeFila | scripts/fusionar-base-lenguaje-matematicas.mjs:122-130 | the key and the stored outcome of one exam row |
| Fusionar.AgregarArchivo | scripts/fusionar-base-lenguaje-matematicas.mjs:121-131 | the row loop of a file leaves the map that setting its rows' entries in order gives |
| Fusionar.ExtraerResultadosMatematicas | scripts/fusionar-base-lenguaje-matematicas.mjs:108-137 | the map after setting every row's key in file and row order, so a key seen twice keeps its later row |
| Fusionar.Busquedas | scripts/fusionar-base-lenguaje-matematicas.mjs:171-173 | one lookup per roster student, in roster order, each by that student's key |
| Fusionar.Guiones | scripts/fusionar-base-lenguaje-matematicas.mjs:176 | twelve "-" |
| Fusionar.AlumnoFusionadoCorrecto | scripts/fusionar-base-lenguaje-matematicas.mjs:174-185 | a merged student keeps the roster names cut to 50 characters and takes the group's name; unmatched it reads 0, REQUIERE APOYO and twelve "-"; matched it carries the exam outcome unchanged |
| Fusionar.AlumnosFusionados | scripts/fusionar-base-lenguaje-matematicas.mjs:171-186 | one merged student per roster student, in roster order |
| Fusionar.RecorrerAlumnos | scripts/fusionar-base-lenguaje-matematicas.mjs:171-207 | the student loop returns the merged students and the group's tier tallies, and adds the matched students' item counts to the group's and the school's counters |
| Fusionar.FusionarGrupo | scripts/fusionar-base-lenguaje-matematicas.mjs:162-222 | one group of the merge gives the merged group and adds its item counts to the school's counters |
| Fusionar.FusionarEscuela | scripts/fusionar-base-lenguaje-matematicas.mjs:153-239 | the group loop gives the merged school |
| Fusionar.PasoEscuela | scripts/fusionar-base-lenguaje-matematicas.mjs:162-222 | each group adds its own tallies and item counts to the school's |
| Fusionar.FusionarBase | scripts/fusionar-base-lenguaje-matematicas.mjs:152-240 | one merged school per roster school, in roster order |
| Fusionar.GrupoDeTotales | scripts/fusionar-base-lenguaje-matematicas.mjs:209-221 | in a merged group the tiers add up to the matched students, never more than `total`, which counts every roster student; every student carries the group's name; item rates are in [0, 100.0] and all 0 when nobody matched |
| Fusionar.EscuelaSumaGrupos | scripts/fusionar-base-lenguaje-matematicas.mjs:187-197 | each of the school's tier tallies is the sum of its merged groups' tallies |
| Fusionar.EscuelaSumaTotales | scripts/fusionar-base-lenguaje-matematicas.mjs:228-232 | the school's totalEstudiantes, the roster size, is the sum of its merged groups' totals |
| Fusionar.EscuelaTramosSuman | scripts/fusionar-base-lenguaje-matematicas.mjs:156-197 | the school's tier tallies add up to its matched students, never more than totalEstudiantes |
| MergeMaestra.ClaveMaestraGrupo | scripts/merge-maestra-lenguaje.mjs:28-33 | the key's group part is the trimmed label verbatim, not normalised: two labels give the same key exactly when they trim to the same text, so "1am" and "1AM" are different students |
| MergeMaestra.ClaveMaestraNombres | scripts/merge-maestra-lenguaje.mjs:29-30 | the name parts of the key are upper-cased then trimmed, the same text as trimming first |
| MergeMaestra.EntradasAlumnos | scripts/merge-maestra-lenguaje.mjs:53-60 | one `mapMat.set` per mathematics student, in order |
| MergeMaestra.AgregarAlumnos | scripts/merge-maestra-lenguaje.mjs:53-60 | the student loop leaves the map that setting its students' entries in order gives |
| MergeMaestra.AgregarGrupos | scripts/merge-maestra-lenguaje.mjs:52-61 | the group loop leaves the map that setting its groups' entries in order gives |
| MergeMaestra.ConstruirMapa | scripts/merge-maestra-lenguaje.mjs:50-62 | mapMat is every mathematics student set in school, group and student order, so a repeated key keeps its later student |
| MergeMaestra.Busquedas | scripts/merge-maestra-lenguaje.mjs:84-86 | one lookup per roster student, in roster order, by the key built from the student's own group field |
| MergeMaestra.Primeras | scripts/merge-maestra-lenguaje.mjs:96 | `slice(0, 12)`: a prefix of at most twelve answers, all of them when there are at most twelve, and exactly twelve otherwise |
| MergeMaestra.AlumnoMaestroCorrecto | scripts/merge-maestra-lenguaje.mjs:88-122 | a merged student keeps the roster's names and group field; matched it copies percentage and tier and the first answers up to twelve; unmatched it has no percentage, SIN EXAMEN and no answers |
| MergeMaestra.AlumnosMaestros | scripts/merge-maestra-lenguaje.mjs:84-123 | one merged student per roster student, in roster order |
| MergeMaestra.GruposMaestros | scripts/merge-maestra-lenguaje.mjs:76-138 | one merged group per roster group, in roster order |
| MergeMaestra.Maestra | scripts/merge-maestra-lenguaje.mjs:68-154 | one merged school per roster school, in roster order |
| MergeMaestra.RecorrerAlumnos | scripts/merge-maestra-lenguaje.mjs:84-123 | the student loop returns the merged students, the group's tier tallies and its matched and unmatched counts, and adds the matched students' item counts to the group's and the school's counters |
| MergeMaestra.MezclarGrupo | scripts/merge-maestra-lenguaje.mjs:76-138 | one roster group gives the merged group, its matched and unmatched counts, and adds its item counts to the school's counters |
| MergeMaestra.PasoEscuela | scripts/merge-maestra-lenguaje.mjs:76-138 | each group adds its own tallies and item counts to the school's |
| MergeMaestra.SumarGrupo | scripts/merge-maestra-lenguaje.mjs:76-138 | one turn of the group loop: the merged group, and the school's counters over one more group |
| MergeMaestra.MezclarEscuela | scripts/merge-maestra-lenguaje.mjs:68-153 | the merged school, with its matched and unmatched students |
| MergeMaestra.ArmarEscuela | scripts/merge-maestra-lenguaje.mjs:140-142 | the school's item rates are computed from its counters summed over all its groups' matched students |
| MergeMaestra.MergeMaestraLenguaje | scripts/merge-maestra-lenguaje.mjs:46-154 | the merged roster built against mapMat, with totalConExamen and totalSinExamen over the whole roster |
| MergeMaestra.PasoTotales | scripts/merge-maestra-lenguaje.mjs:89-113 | each school adds its matched and unmatched students to the running totals |
| MergeMaestra.GrupoMaestroTotales | scripts/merge-maestra-lenguaje.mjs:125-137 | in a merged group the tiers add up to the matched students, `total` is matched plus unmatched, item rates are in [0, 100.0] and all 0 when nobody matched |
| MergeMaestra.EscuelaSumaGrupos | scripts/merge-maestra-lenguaje.mjs:98-103 | each of the school's tier tallies is the sum of its merged groups' tallies |
| MergeMaestra.EscuelaConMasSin | scripts/merge-maestra-lenguaje.mjs:84-122 | over a school, matched plus unmatched is the number of roster students |
| MergeMaestra.TotalesCuadran | scripts/merge-maestra-lenguaje.mjs:65-66 | totalConExamen + totalSinExamen is the number of roster students processed |
| MergeMaestra.EscuelaMaestraTotales | scripts/merge-maestra-lenguaje.mjs:144-153 | the merged school keeps the roster's cct, totalEstudiantes and buscador and its number of groups; its tiers add up to its matched students, never more than the students of its groups |
| MergeMaestra.EscuelaTramosSuman | scripts/merge-maestra-lenguaje.mjs:98-100 | the school's tier tallies add up to its matched students |
| MergeMaestra.EntradaEnEscuelas | scripts/merge-maestra-lenguaje.mjs:51-62 | every student of every school of the mathematics tree is set in mapMat |
| MergeMaestra.SegundaPasada | scripts/merge-maestra-lenguaje.mjs:88-122 | running the merge again over its own output finds a record for every roster student; one left as SIN EXAMEN is then tallied as esperado |
| FixGrupos.NormalizarNombre | scripts/fix-grupos-resultados.mjs:63 | a group's new name is normalizarGrupo of its old one, at most 10 characters |
| FixGrupos.ParesDe | scripts/fix-grupos-resultados.mjs:62-68 | each student of a group is pushed under the group's new name, in order |
| FixGrupos.Renombrados | scripts/fix-grupos-resultados.mjs:89-96 | the students of a rebuilt group each carry the group's name |
| FixGrupos.Resumenes | scripts/fix-grupos-resultados.mjs:70-106 | one rebuilt group per Map entry, in insertion order |
| FixGrupos.AnadirBienFormadas | scripts/fix-grupos-resultados.mjs:66-67 | pushing keeps the Map's keys distinct and in step with its lists, and the pushed key is present afterwards |
| FixGrupos.AgruparCorrecto | scripts/fix-grupos-resultados.mjs:61-69 | alumnosByGrupo holds under each key exactly the students renamed to it, in their original order; its keys are exactly the names that occur; no list is empty |
| FixGrupos.AgruparTamano | scripts/fix-grupos-resultados.mjs:61-69 | the Map holds every pushed student once: its lists add up to the number of pushes |
| FixGrupos.ParesTamano | scripts/fix-grupos-resultados.mjs:62-68 | one push per student of the school |
| FixGrupos.AciertosBelowIntentos | scripts/fix-grupos-resultados.mjs:74-82 | an item's "C" answers never outnumber the answers present, which never outnumber the students |
| FixGrupos.NivelesSuman | scripts/fix-grupos-resultados.mjs:86-88 | the three tier tallies plus the SIN EXAMEN students make up the group |
| FixGrupos.ResumirCorrecto | scripts/fix-grupos-resultados.mjs:72-105 | a rebuilt group keeps its name and every student unchanged but for the group field; `total` is the number of students; the three tallies leave out exactly the SIN EXAMEN students; the twelve item rates are in [0, 100.0] |
| FixGrupos.AlumnosEnSort | scripts/fix-grupos-resultados.mjs:107 | sorting the groups keeps the number of students |
| FixGrupos.AlumnosEnResumenes | scripts/fix-grupos-resultados.mjs:71-106 | the rebuilt groups hold one student per student stored in the Map |
| FixGrupos.NombresDistintos | scripts/fix-grupos-resultados.mjs:71 | the names of the rebuilt groups are pairwise distinct |
| FixGrupos.GruposCorregidosCorrecto | scripts/fix-grupos-resultados.mjs:59-108 | after the fix a school's group names are distinct and strictly ascending, and it lists exactly as many students as before |
| FixGrupos.GrupoCorregidoDe | scripts/fix-grupos-resultados.mjs:61-106 | each new group is rebuilt from exactly the students whose old group was renamed to its name, in order, and is non-empty |
| FixGrupos.AlumnosConNombreNuevo | scripts/fix-grupos-resultados.mjs:92 | every student of a fixed school carries its group's new name |
| FixGrupos.LlenarCubetas | scripts/fix-grupos-resultados.mjs:61-69 | the two nested loops leave the Map of the pushes in order |
| FixGrupos.SumarAlumno | scripts/fix-grupos-resultados.mjs:76-81 | an answer present adds 1 to its item's denominator, and 1 to its numerator when it trims to "C" |
| FixGrupos.PasoItems | scripts/fix-grupos-resultados.mjs:74-82 | each student adds its own counts to the group's item counters |
| FixGrupos.ContarItems | scripts/fix-grupos-resultados.mjs:72-82 | the forEach returns, per item, the students with a "C" answer and the students whose answers reach that item |
| FixGrupos.ResumirGrupo | scripts/fix-grupos-resultados.mjs:72-105 | the loop body rebuilds one group from its students |
| FixGrupos.CorregirGrupos | scripts/fix-grupos-resultados.mjs:61-107 | a school's new groups: fill the Map, rebuild one group per entry, sort by name |
| FixGrupos.Corregidas | scripts/fix-grupos-resultados.mjs:59-108 | every school corrected, in order |
| FixGrupos.FixGruposResultados | scripts/fix-grupos-resultados.mjs:59-108 | in place, every school's `grupos` is replaced by its regrouped list and nothing else changes |
| FixGrupos.FixGruposNormalizados | scripts/fix-grupos-resultados.mjs:48-113 | the script as run, renaming with normalizarGrupo |
| FixGrupos.CorregirEscuela | scripts/fix-grupos-resultados.mjs:60-107 | one school: its groups replaced by the regrouped list and nothing else changed |
| DataServer.LoadSync | lib/data-server.ts:8-16 | a file that cannot be read or parsed gives no school |
| DataServer.LoadSyncLimpio | lib/data-server.ts:11-12 | a parsed file whose strings hold no digraph, under a decoder that never changes text, is read exactly as written |
| DataServer.GetEscuelaSync | lib/data-server.ts:22-25 | null exactly when no school has the cct; otherwise the first school with that cct |
| DataServer.AgregarAlumnos | lib/data-server.ts:38-51 | the innermost loop appends the rows of one group's students with the requested tier |
| DataServer.AgregarGrupos | lib/data-server.ts:37-52 | the middle loop appends the rows of one school's groups |
| DataServer.GetAlumnosPorNivelSync | lib/data-server.ts:31-55 | the three loops return the rows of every student with the requested tier, in school, group and student order |
| DataServer.FilasAlumnosCorrectas | lib/data-server.ts:38-50 | a group contributes one row per student with the tier, and only those, each with the school's cct |
| DataServer.FilasGruposCorrectas | lib/data-server.ts:37-52 | a school contributes exactly the rows of its groups' students with the tier |
| DataServer.FilasEscuelasCorrectas | lib/data-server.ts:31-55 | a row is listed exactly when it is the row of a student with the requested tier of some school, carrying that school's cct; the list has one row per such student over every group of every school |
| DataServer.FilasEscuelasDelNivel | lib/data-server.ts:31-55 | every listed row is the row of a student with the requested tier of some school, with that school's cct |
| DataServer.FilasEscuelasCompletas | lib/data-server.ts:31-55 | every student with the requested tier of every school has its row |
| DataServer.FilasGruposTamano | lib/data-server.ts:37-52 | a school contributes one row per student with the tier in its groups |
| DataServer.FilasEscuelasTamano | lib/data-server.ts:31-55 | the listing's length is the number of students with the tier over every group of every school |
| DataServer.NivelesParten | lib/data-server.ts:39 | the lists for the four tiers split a group's students exactly |
| EscuelasContent.GetNivel | app/escuelas/EscuelasContent.tsx:10-16 | a school with no tallied students is REQUIERE APOYO; REQUIERE APOYO exactly when more than half need support; ESPERADO exactly when not and at least half are esperado; EN DESARROLLO otherwise |
| EscuelasContent.CategoriaOrder | app/escuelas/EscuelasContent.tsx:18 | the ranks 0, 1, 2 of REQUIERE APOYO, EN DESARROLLO and ESPERADO |
| EscuelasContent.CompararCategoriaOrden | app/escuelas/EscuelasContent.tsx:31 | the "categoria" comparator is antisymmetric, is 0 only for the same tier, and puts REQUIERE APOYO before EN DESARROLLO before ESPERADO |
| EscuelasContent.MasApoyoNoMejora | app/escuelas/EscuelasContent.tsx:10-16 | one more student needing support never lifts a school's tier |
| Auth.GetSecret | lib/auth.ts:6-13 | the trimmed AUTH_SECRET when it has at least 16 characters, the fixed development secret when it does not and NODE_ENV is development, the configuration error otherwise; any secret returned has at least 16 characters |
| Auth.AUrl | lib/auth.ts:28-30 | character by character, `+` becomes `-` and `/` becomes `_`, nothing else changes and the length is kept |
| Auth.AStd | lib/auth.ts:35 | character by character, `-` becomes `+` and `_` becomes `/`, nothing else changes and the length is kept |
| Auth.SinRelleno | lib/auth.ts:31 | the result is a prefix of the input that does not end in `=`, and everything it drops is `=` |
| Auth.Base64UrlCorrecto | lib/auth.ts:28-35 | the signature text made from base64 holds only base64url characters, is non-empty for a non-empty signature, and the verifier's substitutions give back the base64 text without its padding |
| Auth.Base64Caracteres | lib/auth.ts:28 | every character of base64 text is a data character or `=` |
| Auth.HastaChar | lib/auth.ts:73 | the text before the first occurrence of a character: a prefix that does not contain it, followed in the input by that character when shorter |
| Auth.BuscarCookie | lib/auth.ts:73-74 | a value is found exactly when `raf_session=` followed by a character other than `;` occurs somewhere; it is the text after the leftmost such occurrence up to the next `;`, non-empty and without `;` |
| Auth.BuscarEnCola | lib/auth.ts:73 | with no match at index 0, the leftmost match in the rest of the header is the leftmost of the header, one index later |
| Auth.BuscarCookieAusente | lib/auth.ts:73-75 | a header in which `raf_session=` occurs nowhere yields no cookie |
| Auth.SesionDe | lib/auth.ts:80-86 | a parsed payload gives a session exactly when it is an object whose exp has not passed and whose t is "super" or "escuela"; the session's type is t and its cct is the string cct, if any |
| Auth.Partes | lib/auth.ts:76 | the first dot-field, and the second one exactly when the value contains a dot |
| Auth.LeerToken | lib/auth.ts:75-86 | an empty value, one without a dot or one with an empty first field gives no session; a session needs a non-empty second field whose MAC over the first field verifies |
| Auth.GetSessionFromCookie | lib/auth.ts:69-90 | a missing or empty header, a misconfigured secret or a header without the cookie gives no session; with a non-empty header, a valid secret and a found cookie the outcome is exactly that of reading the trimmed cookie value under the secret |
| Auth.SoloDosCampos | lib/auth.ts:76 | fields after a second dot are ignored |
| Auth.CargaDe | lib/auth.ts:58-63 | the payload carries the session's type and cct and expires 30 days (2592000000 ms) after creation |
| Auth.CreateSessionCookie | lib/auth.ts:57-67 | fails exactly when getSecret does, with its message; otherwise the token is the encoded payload, a dot, and the base64url MAC of the encoded payload |
| Auth.TokenForma | lib/auth.ts:57-67 | a created token is base64 text, one dot, and non-empty base64url text whose substitutions undo to the unpadded MAC |
| Auth.TokenPartes | lib/auth.ts:76 | splitting a created token at its dot gives back exactly its two parts |
| Auth.TokenLimpio | lib/auth.ts:73-74 | a created token holds no `;` and trim leaves it unchanged |
| Auth.CabeceraPropia | lib/auth.ts:69-75 | the header `raf_session=<token>` leads to reading that token |
| Auth.LeerTokenValido | lib/auth.ts:76-86 | a token whose MAC verifies and whose payload decodes and parses reads as the parsed payload's session |
| Auth.BuscarCookiePropia | lib/auth.ts:73-74 | the header `raf_session=<token>` yields the token back |
| Auth.SesionDeCarga | lib/auth.ts:58-63 | a created payload reads back as its session until its expiry time and as no session afterwards |
| Auth.RoundTrip | lib/auth.ts:57-90 | a cookie created at t0 reads back as its session at every time up to t0 plus 30 days and as no session afterwards |
| Auth.GetSession | lib/auth.ts:98-103 | no value gives no session; a value holding `=` and not starting with `.` is read as a whole header, any other as the bare `raf_session` value |
| Auth.SinPrefijo | lib/auth.ts:73 | a text in which `raf_session=` occurs nowhere has no cookie match and does not contain the prefix |
| Auth.TokenSinPrefijo | lib/auth.ts:100 | a well-formed token never contains `raf_session=` and does not start with a dot |
| Auth.TokenSinPrefijoDe | lib/auth.ts:57-67 | a created token never contains `raf_session=` and does not start with a dot |
| Auth.GetSessionRechazaRelleno | lib/auth.ts:100-101 | a created token holding `=` padding, passed bare, gives no session, while the same token inside a Cookie header gives its session |
| Auth.GetSessionCorregida | lib/auth.ts:98-103 | no value gives no session; a value containing `raf_session=` is read as a whole header |
| Auth.GetSessionCorregidaRoundTrip | lib/auth.ts:98-103 | with the correction both the bare token and the header carrying it read back as the session until expiry and as none afterwards |
| Middleware.EscuelaDeRuta | middleware.ts:26 | a school segment exists exactly when the path starts with `/escuela/` followed by a character other than `/`; it is non-empty, holds no `/`, and follows the prefix |
| Middleware.Decidir | middleware.ts:7-43 | without a session (or when reading it threw) /login passes and every other path goes to /login with `from`; an escuela session with a cct goes to its own school from other schools' pages, /, /escuelas and /login and passes elsewhere; any other session goes from /login to / and passes elsewhere |
| Middleware.PasaSoloAutorizado | middleware.ts:7-43 | a request passes only to /login without a session, or with a session outside /login, and an escuela session with a cct never passes on /, /escuelas or another school's page |
| Middleware.OtraEscuelaRedirige | middleware.ts:24-29 | an escuela session asking for another school's page is redirected to its own |
| Middleware.PropiaEscuelaPasa | middleware.ts:24-33 | an escuela session passes on its own school's pages |
| AuthData.NormalizePasswordForVerify | lib/auth-data.ts:43-48 | the normalised password holds no whitespace and none of U+200B to U+200D or U+FEFF |
| AuthData.NormalizeEsFiltrar | lib/auth-data.ts:43-48 | normalising keeps exactly the characters that are neither whitespace nor invisible, in their order |
| AuthData.NormalizeIdempotente | lib/auth-data.ts:43-48 | normalising twice is normalising once |
| AuthData.IndicePrimera | lib/auth-data.ts:61-63 | the index of the first school entry at or after a position whose string hash, trimmed, matches, or the end when none does |
| AuthData.PrimeraEscuela | lib/auth-data.ts:61-63 | no school is found exactly when no entry matches; a found cct is the key of the first matching entry |
| AuthData.Verificar | lib/auth-data.ts:50-65 | an empty normalised password is refused; the env super password matching after normalisation gives super before anything else; a super session comes only from it or from a non-empty stored super hash equal to the password's hash; a non-empty trimmed stored super hash equal to the password's hash gives super; when neither super test matches, the result is the session of the first entry whose trimmed hash matches, or refusal when none does |
| AuthData.VerifyPassword | lib/auth-data.ts:50-65 | the method with its early returns and its loop over the entries computes Verificar |
| AuthData.BuscarEscuela | lib/auth-data.ts:61-64 | the loop returns the cct of the first matching entry, or none |
| AuthData.ClaveSuper | lib/auth-data.ts:21 | a found key names superUsuario or super once BOMs are removed and is the first key of the object that does; none is found only when no key does |
| AuthData.SuperDelArchivo | lib/auth-data.ts:15-24 | the trimmed string superUsuario when there is one, else the trimmed string super, else the trimmed string under the first BOM-named key `find` meets, else "" |
| AuthData.Load | lib/auth-data.ts:7-37 | an unreadable or non-object file gives the trimmed AUTH_SUPER_HASH and no schools; a non-empty AUTH_SUPER_HASH overrides the file; otherwise the file's super hash; for an object file the school table is its `escuelas` object when that is an object and empty otherwise, each key once |
| LoginRoute.CheckAuthSecret | app/api/login/route.ts:27-31 | no error exactly when the trimmed AUTH_SECRET has at least 16 characters; the error names AUTH_SECRET |
| LoginRoute.MensajeError | app/api/login/route.ts:70-84 | in development the error message itself; otherwise auth_secret_required when it mentions AUTH_SECRET, else error |
| LoginRoute.CookieDeSesion | app/api/login/route.ts:62-68 | the session cookie is raf_session, httpOnly, on path /, and lives as long as the token (30 days) |
| LoginRoute.Post | app/api/login/route.ts:33-85 | a short secret sends to /login with auth_secret_required and no cookie; a cookie is set only when the secret is fine and the body held a password; a body read that throws redirects to error=server with the encoded MensajeError text and no cookie |
| LoginRoute.PostFallaLectura | app/api/login/route.ts:70-83 | outside development a failed body read lands on one of the two fixed server-error pages, never showing the raw message, and sets no cookie |
| LoginRoute.SecretoListo | app/api/login/route.ts:34-56 | once checkAuthSecret passes, createSessionCookie cannot fail |
| LoginRoute.PostEscalera | app/api/login/route.ts:42-69 | an empty or missing password goes to error=empty, an unrecognised one to error=invalid, a recognised one to its page with the cookie createSessionCookie makes |
| LoginRoute.ProduccionNoFiltra | app/api/login/route.ts:73-79 | outside development the page never shows the raw error message |
| LoginRoute.MensajeDelSecreto | app/api/login/route.ts:73-79 | getSecret's error, outside development, is shown as auth_secret_required |
| ApplyPasswords.LetraMayusParaCct | scripts/apply-passwords-estilo-dst.mjs:32-36 | the loop's weighted sum of character codes, reduced modulo the 23 capitals, picks the school's letter |
| ApplyPasswords.LetraSinConfusiones | scripts/apply-passwords-estilo-dst.mjs:28-36 | the school's letter is one of the capitals, never I, L or O |
| ApplyPasswords.SinPrefijo | scripts/apply-passwords-estilo-dst.mjs:40 | a cct starting with 26DST in any case loses exactly those five characters; any other cct is unchanged |
| ApplyPasswords.PasswordParaCct | scripts/apply-passwords-estilo-dst.mjs:39-43 | the method builds the school's password |
| ApplyPasswords.PasswordForma | scripts/apply-passwords-estilo-dst.mjs:39-43 | a password is "dst", the lower-cased cct without its 26DST prefix, the school's letter and "+", five characters longer than that suffix |
| ApplyPasswords.PasswordSinPrefijo | scripts/apply-passwords-estilo-dst.mjs:39-43 | a cct without the prefix is lower-cased whole between "dst" and its letter |
| ApplyPasswords.Lista | scripts/apply-passwords-estilo-dst.mjs:53-57 | one (cct, password) row per cct, in order |
| ApplyPasswords.AplicarPasswords | scripts/apply-passwords-estilo-dst.mjs:50-60 | the loop leaves the auth object with `escuelas` replaced by the updated copy, and the list of every cct with its password |
| ApplyPasswords.AsignarCorrecto | scripts/apply-passwords-estilo-dst.mjs:53-57 | after the assignments every listed cct holds its value and every other key what it held before |
| ApplyPasswords.AplicarCorrecto | scripts/apply-passwords-estilo-dst.mjs:50-60 | the written file holds the new `escuelas`; a result cct maps to the hash of its normalised password, an old key not among the results keeps its value, and every other key of the file is as parsed |
| ApplyPasswords.SuperIntacto | scripts/apply-passwords-estilo-dst.mjs:59-60 | superUsuario is never modified |
| ApplyPasswords.PasswordAbreSuEscuela | scripts/apply-passwords-estilo-dst.mjs:53-57 | the hash stored for a school is the one the login check computes for the typed password |
| Azar.Indice | scripts/sync-auth-escuelas.mjs:36 | `Math.floor(Math.random() * n)` is an index below n |
| Azar.Aleatoria | scripts/sync-auth-escuelas.mjs:33-38 | a generated string has the requested length and only characters of the alphabet |
| Azar.Generar | scripts/generate-auth-simple.mjs:30-36 | the generator loop builds the string the draws determine |
| Azar.CadenaDeterminada | scripts/generate-auth-simple.mjs:30-36 | character k of the string is the alphabet character picked by draw k |
| SyncAuth.Conjunto | scripts/sync-auth-escuelas.mjs:41 | the set of result ccts has no repeats and exactly the ccts of the results |
| SyncAuth.AnadirSiFalta | scripts/sync-auth-escuelas.mjs:50-54 | a cct whose entry is truthy is left alone; otherwise it gets the hash of the next drawn password and is listed as added |
| SyncAuth.AnadirFaltantes | scripts/sync-auth-escuelas.mjs:49-55 | the first loop computes the table and the added list of its specification |
| SyncAuth.QuitarSobrantes | scripts/sync-auth-escuelas.mjs:57-62 | the second loop computes the table and the removed list of its specification |
| SyncAuth.SyncAuthEscuelas | scripts/sync-auth-escuelas.mjs:41-72 | the script computes the outcome of its specification |
| SyncAuth.AltaCorrecta | scripts/sync-auth-escuelas.mjs:49-55 | a key is added exactly when it is a result cct whose entry was missing or falsy; an added key holds the value of its password, any other key what it held |
| SyncAuth.BajaCorrecta | scripts/sync-auth-escuelas.mjs:57-62 | a key is deleted and listed exactly when it is one of the keys walked and not a result cct; nothing else changes |
| SyncAuth.SyncCorrecto | scripts/sync-auth-escuelas.mjs:41-72 | afterwards the table's keys are exactly the result ccts; a truthy hash is kept; added lists exactly the result ccts whose entry was missing or falsy, each stored as the hash of its normalised password; removed lists exactly the old keys that are not result ccts; every other key of the file is as parsed; passwords-nuevos.txt is written exactly when something was added |
| SyncAuth.SuperIntacto | scripts/sync-auth-escuelas.mjs:64-65 | superUsuario is never modified |
| SyncAuth.NuevasDelAlfabeto | scripts/sync-auth-escuelas.mjs:33-38 | every new password has 12 characters from the alphabet |
| SyncAuth.AltaGeneradas | scripts/sync-auth-escuelas.mjs:49-55 | every added password is one the generator produced |
| GenerateAuth.CharsSinConfusiones | scripts/generate-auth-simple.mjs:28-29 | the alphabet holds no 0, 1, i, l, o and no capital |
| GenerateAuth.RandomSimple | scripts/generate-auth-simple.mjs:30-36 | randomSimple builds the string its draws determine |
| GenerateAuth.Intento | scripts/generate-auth-simple.mjs:51-53 | a password the do-while loop settles on is not in use and is the one the last draw produced |
| GenerateAuth.RandomNoUsada | scripts/generate-auth-simple.mjs:50-53 | the do-while loop, redrawing while the password is in use, ends with the first unused draw (or none once the draws run out), as Intento describes; randomSimple(8) enters as the generator `generar` |
| GenerateAuth.Passwords | scripts/generate-auth-simple.mjs:56 | the passwords of the list, in order |
| GenerateAuth.Ccts | scripts/generate-auth-simple.mjs:56 | the ccts of the list, in order |
| GenerateAuth.AsignarUna | scripts/generate-auth-simple.mjs:49-57 | one turn of the loop: a fresh password is drawn, marked used, its hash stored for the cct and the pair listed |
| GenerateAuth.Asignar | scripts/generate-auth-simple.mjs:49-57 | the loop over the ccts computes the outcome of its specification |
| GenerateAuth.GenerateAuthSimple | scripts/generate-auth-simple.mjs:38-61 | the script computes the outcome of its specification |
| GenerateAuth.RepartirSinSalida | scripts/generate-auth-simple.mjs:49-57 | once a cct finds no fresh password, the whole run finds none |
| GenerateAuth.RepartirCorrecto | scripts/generate-auth-simple.mjs:47-57 | the list has one row per cct in order; its passwords are pairwise distinct, new, and from the generator; the used set grows by one per cct; each cct maps to the value of its last listed password and every other key is unchanged |
| GenerateAuth.GenerateCorrecto | scripts/generate-auth-simple.mjs:38-61 | the file holds exactly the super hash and the school table; the super password has 10 characters of the alphabet; the school passwords are pairwise distinct, 8 characters of the alphabet, and none equals the super password; each cct maps to the hash of its normalised last password, no other key exists |
| MergeBuscador.Encabezado | scripts/merge-buscador-escuelas.mjs:42 | one header per cell: the trimmed, upper-cased text, or "" for an empty cell |
| MergeBuscador.IndexOf | scripts/merge-buscador-escuelas.mjs:45 | the first position holding the value, or none exactly when it does not occur |
| MergeBuscador.IdxCorrecto | scripts/merge-buscador-escuelas.mjs:43-47 | a column is indexed exactly when it is one of the wanted columns and in the header, at its first position there |
| MergeBuscador.ConstruirIdx | scripts/merge-buscador-escuelas.mjs:43-47 | the forEach loop builds the column index of its specification |
| MergeBuscador.Get | scripts/merge-buscador-escuelas.mjs:53-58 | nothing for a column not in the index or a missing or empty cell; otherwise the trimmed cell |
| MergeBuscador.Entradas | scripts/merge-buscador-escuelas.mjs:49-70 | no entry has a blank cct |
| MergeBuscador.BuildMapFromExcel | scripts/merge-buscador-escuelas.mjs:37-72 | the loop over the data rows builds the map of its specification |
| MergeBuscador.MapaCorto | scripts/merge-buscador-escuelas.mjs:41 | a sheet with fewer than two rows gives the empty map |
| MergeBuscador.SinColumnaCct | scripts/merge-buscador-escuelas.mjs:51-52 | without a CCT column no row yields an entry |
| MergeBuscador.SinColumnaCctMapa | scripts/merge-buscador-escuelas.mjs:42-52 | a header row without CCT gives the empty map |
| MergeBuscador.UltimaGana | scripts/merge-buscador-escuelas.mjs:59-69 | a cct holds the data of the last row carrying it |
| MergeBuscador.ClavesDelMapa | scripts/merge-buscador-escuelas.mjs:49-70 | the map's keys are exactly the non-blank ccts of the data rows |
| MergeBuscador.BuildMap | scripts/merge-buscador-escuelas.mjs:37-72 | buildMapFromExcel with String.prototype.trim builds the map of its specification |
| MergeBuscador.Fusionadas | scripts/merge-buscador-escuelas.mjs:92-98 | the schools keep their number and order, each merged on its own |
| MergeBuscador.ConteoCuenta | scripts/merge-buscador-escuelas.mjs:91-98 | merged counts exactly the schools whose cct is in the map |
| MergeBuscador.ConteoCota | scripts/merge-buscador-escuelas.mjs:91-98 | merged never exceeds the number of schools |
| MergeBuscador.MergeBuscadorEscuelas | scripts/merge-buscador-escuelas.mjs:91-98 | the in-place loop leaves each school merged and returns the count of its specification |
| MergeBuscador.FusionCorrecta | scripts/merge-buscador-escuelas.mjs:91-98 | a school whose cct is in the map gets exactly that info as `buscador` and nothing else changes; any other school is unchanged; merged counts the schools found and is at most their number |

## Left out

- The React pages and components are not part of this model, apart from `getNivel` and the
  category order of `app/escuelas/EscuelasContent.tsx`. Their logic is component state and
  float or `localeCompare` sorting.
- `scripts/build-data.mjs`, `scripts/generate-auth.mjs`, `scripts/regenerate-super-only.mjs`
  and `scripts/ver-hash-super.mjs` are not part of this model. They dispatch to other scripts
  or read and print.
- Files, `process.env`, `process.exit` and the console are not modelled. Parsed rows, parsed
  JSON, environment values and the outcome of a read are inputs. `data.generado` and the other
  timestamps are not modelled.
- The text files the credential scripts write are not modelled: `passwords-inicial.txt` and
  `USUARIOS-Y-CONTRASEÑAS.txt`. The exception is the content of `passwords-nuevos.txt`
  (`SyncAuth.Lineas`).
- XLSX workbook reading is not modelled. A sheet is its matrix of rows, and a cell holds its
  `String()` text.
- SHA-256, HMAC-SHA-256, `btoa`/`atob`, `TextEncoder`, `JSON.parse`/`JSON.stringify` and the
  Latin-1→UTF-8 decoder are parameters. The cookie round trip is proved only under the laws
  `Auth.Leyes` states for them.
- The async and Promise plumbing is left out. There is no concurrency.
- Floating-point arithmetic is left out. Percentages are exact integer tenths, and
  `Math.round(x * 1000) / 10` is rounded half up on the exact ratio.
- Score.CalcularPorcentaje: a Points cell is abstracted to absent, not a number, or an
  integer, because only its sign is ever consulted. Fractional points are not represented, nor
  is `Number()` coercion of strings (`Number("") === 0`).
- JsString.Upper, JsString.Lower: only ASCII and Latin-1 letters change case, with `ÿ` and
  `µ` upper-cased to U+0178 and U+039C as JavaScript does. `ß` (which JavaScript turns into
  "SS") and letters beyond Latin-1 are left as they are.
- String lengths and `charCodeAt` count UTF-16 code units in JavaScript, but characters here.
  The two differ only outside the Basic Multilingual Plane. This affects
  ApplyPasswords.LetraMayusParaCct and the 16-character secret check.
- JsString.Less: compares code points, where the default `sort()` of JavaScript compares UTF-16
  code units; the two orders differ only when a name holds a character outside the Basic
  Multilingual Plane.
- JsString.Prefix: counts characters, where `slice(0, n)` counts UTF-16 code units, so a label
  with characters outside the Basic Multilingual Plane is cut at a different place.
- Auth.SesionDe: an `exp` that is a string, array or object goes through `Number()` in the
  source. The model treats it as NaN, so the session never expires.
- Auth.SesionDe: any non-null, non-string `cct` (a number, boolean, array or object) is kept by
  `data.cct ?? undefined`. The model keeps only a string `cct`.
- AuthData.Verificar: a stored school hash that is not a string is compared through
  `String(h)` in the source. The model never matches it.
- AuthData.Load: a file whose first character is a BOM, and a file that does not parse, are
  covered only through the parsed-or-not input. The keys of `escuelas` are taken in file
  order, while `Object.entries` lists integer-like keys first.
- ApplyPasswords.AplicarCorrecto, SyncAuth.SyncCorrecto: spreading a truthy `escuelas` that is
  an array or a string gives index keys in JavaScript. The model takes it as `{}`. The auth
  file is taken to be an object.
- Azar.Indice: `Math.floor(Math.random() * n)` is computed on the exact product. The rounding
  of the floating-point product is not modelled.
- GenerateAuth.Intento, GenerateAuth.RandomNoUsada: the `do … while` loop draws until it finds
  an unused password, with no bound. The model stops after the draws up to `tope` and then
  reports no password. Termination of the source loop is not claimed.
- FixGrupos.FixGruposResultados: the `_nivel`, `_porcentaje` and `_respuestas` alias fields
  are not part of the student record, so the plain fields are read.
- FixGrupos.FixGruposResultados: a school without a `grupos` key is skipped in the source. In
  the model every school has a (possibly empty) list of groups, and an empty list stays empty.
- Middleware.Decidir: the route `matcher` of `config` is not modelled. The decision is stated
  for every path that reaches the middleware.
- LoginRoute.Post: reading the request body is left out, so the content-type dispatch between
  form data and JSON is not modelled. The body is an input: a string password, no string
  password, or a read error.

## Findings

| source | as written | input that shows it | evidently intended | confidence | as-written member | corrected member |
|---|---|---|---|---|---|---|
| lib/auth.ts:100-101 | a bare cookie value that contains `=` and does not start with `.` is taken for a whole Cookie header, and `raf_session=` is then searched for in it | a token made by createSessionCookie whose base64 payload ends in `=` padding, passed bare to getSession: the result is null, while the same token inside `raf_session=<token>` gives the session | a bare value is wrapped as `raf_session=<value>`, so a padded token also reads back as its session | not executed | Auth.GetSessionRechazaRelleno | Auth.GetSessionCorregidaRoundTrip |
