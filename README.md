# Asset management back office: a verified model

This project models, in Dafny, the logic at the heart of a municipal
education department's asset-management back office ("bens patrimoniais").
The back office registers assets with a patrimonial number, keeps how many
of each asset every administrative unit holds, and moves assets between
units through movement requests. Each approved movement gets a numbered
CIMBPM document. The modules are:

- `Base`: shared text helpers. They model the Python and JavaScript
  built-ins the core relies on: `strip`, `zfill`, `lstrip("0")`, decimal
  rendering and parsing, thousands grouping, and character replacement.
- `Mascaras`: the client-side masks of the asset form. They cover the
  patrimonial number `ddd.ddddddddd-d`, the Brazilian currency field and
  the validation of the multi-row form.
- `Cimbpm`: the CIMBPM document rules. They cover the three-digit unit
  code, the year-scoped sequence number `ooo.ddd.NNNNNNN.YYYY`, Brazilian
  money text, the ordering of a movement's assets and the user's display
  name.
- `ExtracaoNumeros`: the heuristic that finds a patrimonial number in an
  asset's name or description, and the batch action that applies it and
  counts updates and errors.
- `BemPatrimonialForm`: the asset admin form. It covers the unit price
  typed with the mask, the rules between "no number", "old format" and the
  number, and the model validation run with the "no number" flag cleared.
- `MovimentacaoForm`: the ordered checks of the movement form.
- `Movimentacao`: the movement request state machine. Creating a request
  blocks the asset. Approving it transfers stock; rejecting and cancelling
  it do not. The module also covers the batch approve and reject actions
  of both admin screens, what each user sees, and saving a request.
- `Unidades`: administrative units, whether they are active, whether they
  may be deactivated, and their display text.
- `Auditoria`: the field-change diff recorded for audit.
- `Agenda`: the half-hour support slots and the weekday of a date.
- `Middleware`: the forced password-change redirect and its `next`
  parameter.
- `Download`: authorization, regeneration and file name for downloading a
  CIMBPM document.
- `Permissoes`: granting permissions to the two user groups.

The code is the reference. Some effects of the movement model appear only
in the project's tests, not in the model code shown here. Those effects
are stated as the tests assert them: blocking on creation, the transitions
and the stock transfer. `bem_patrimonial/models.py` in the version modelled
here is an older revision without those methods, and the newer model is
not part of this model.

## Model

| member | source | states |
|---|---|---|
| Base.PyLStripShape | bem_patrimonial/admins/forms/bem_patrimonial_form.py:89 | left stripping removes a whitespace prefix and keeps the rest of the text unchanged |
| Base.PyRStripShape | bem_patrimonial/admins/forms/bem_patrimonial_form.py:89 | right stripping removes a whitespace suffix and keeps the rest of the text unchanged |
| Base.PyStrip | bem_patrimonial/admins/forms/bem_patrimonial_form.py:89 | the stripped text is no longer than the input and neither starts nor ends with whitespace |
| Base.JsTrim | static/admin/bem_patrimonial.js:31 | the trimmed text is no longer than the input and neither starts nor ends with JavaScript whitespace |
| Base.DigitsOnly | bem_patrimonial/cimbpm.py:46 | removing the non-digits leaves digits only, and no more characters than the input |
| Base.DigitsOnlyConcat | bem_patrimonial/cimbpm.py:46 | removing the non-digits distributes over concatenation |
| Base.ZFill | bem_patrimonial/cimbpm.py:58 | zero-filling pads to the width and never shortens, keeping a digit string a digit string |
| Base.ZFillValue | bem_patrimonial/cimbpm.py:58 | zero-filling a digit string keeps its value |
| Base.LStripZerosShape | bem_patrimonial/cimbpm.py:53 | stripping leading zeros removes a run of zeros at the front and nothing else, leaving no leading zero |
| Base.LStripZerosValue | bem_patrimonial/cimbpm.py:53 | stripping leading zeros keeps the value |
| Base.NatToString | dados_comuns/utils.py:10 | a number is written as digits without a leading zero that read back as the number |
| Base.NatToStringOfValue | dados_comuns/utils.py:10 | a digit string without leading zeros is the writing of its own value |
| Base.PadNat | bem_patrimonial/cimbpm.py:118-120 | zero-padded formatting writes digits that read back as the number, at least the width long and never truncated |
| Base.PadNatLength | bem_patrimonial/cimbpm.py:118-120 | a number below 10 to the width is padded to exactly the width |
| Base.RemoveConcat | bem_patrimonial/admins/forms/bem_patrimonial_form.py:93 | deleting a character distributes over concatenation |
| Base.TrocarConcat | bem_patrimonial/admins/forms/bem_patrimonial_form.py:93 | replacing a character distributes over concatenation |
| Mascaras.OnlyDigits | static/admin/bem_patrimonial.js:6 | the filtered text holds digits only and is no longer than the input; a missing value gives the empty string |
| Mascaras.OnlyDigitsFixo | static/admin/bem_patrimonial.js:6 | filtering leaves a string unchanged exactly when it already holds digits only |
| Mascaras.OnlyDigitsConcat | static/admin/bem_patrimonial.js:6 | filtering works character by character, so it distributes over concatenation |
| Mascaras.Fmt | static/admin/bem_patrimonial.js:7-13 | the masked asset number is at most 15 characters long |
| Mascaras.FmtLayout | static/admin/bem_patrimonial.js:7-13 | with n the number of digits kept (at most 13): the first three digits lead; a dot follows them when n > 3; a dash precedes the thirteenth; the digits read back in order are the first n typed |
| Mascaras.FmtMascaraCompleta | static/admin/bem_patrimonial.js:7-13 | thirteen or more digits are masked into the full `ddd.ddddddddd-d` pattern the field demands |
| Mascaras.FmtEstavel | static/admin/bem_patrimonial.js:77-90 | the input handler is idempotent: masking the digits of an already masked value gives the same value |
| Mascaras.NormalizarDigitos | static/admin/bem_patrimonial.js:15-19 | the normalised digits are all digits and at least three long |
| Mascaras.NormalizarCorreto | static/admin/bem_patrimonial.js:15-19 | the normalised digits denote the same amount in cents as the typed ones, are at least three long, and carry no leading zero beyond those three; this fixes them uniquely |
| Mascaras.NormalizarIdempotente | static/admin/bem_patrimonial.js:15-19 | normalising twice is normalising once |
| Mascaras.MoneyZero | static/admin/bem_patrimonial.js:15-24 | any input with no nonzero digit (including the empty one) is shown as `0,00` |
| Mascaras.MoneyShape | static/admin/bem_patrimonial.js:15-24 | every output of the currency mask matches the pattern `^\d{1,3}(\.\d{3})*,\d{2}$` that the load-time check accepts |
| Mascaras.MoneyDigits | static/admin/bem_patrimonial.js:15-24 | the digits of the output, read in order, are exactly the normalised input |
| Mascaras.MoneyPartes | static/admin/bem_patrimonial.js:20-23 | the last two normalised digits are the cents after the comma, and the others are the units before it, grouped by thousands |
| Mascaras.MoneyValor | static/admin/bem_patrimonial.js:15-24 | the amount shown, in cents, is the value of the typed digits: no digit is lost or invented |
| Mascaras.MoneyEstavel | static/admin/bem_patrimonial.js:37-44 | the input and blur handlers are idempotent: re-masking the mask's own output changes nothing |
| Mascaras.InicializarValorCorreto | static/admin/bem_patrimonial.js:30-36 | after the load-time fix-up the field is blank or, once trimmed, a well-formed amount |
| Mascaras.InicializarMascarado | static/admin/bem_patrimonial.js:30-36 | a value the mask produced is left untouched on load |
| Mascaras.MoedaSemBordas | static/admin/bem_patrimonial.js:31-32 | a well-formed amount starts and ends with a digit, so JavaScript's trim leaves it alone |
| Mascaras.MoedaSemBordasPy | static/admin/bem_patrimonial.js:32 | a well-formed amount has no Python whitespace at either end, so the form's strip leaves it alone too |
| Mascaras.MoneyExemplo100 | static/admin/bem_patrimonial.js:15-24 | one hundred cents are shown as `1,00` |
| Mascaras.ValidateMultiRows | static/admin/bem_patrimonial.js:245-267 | the errors are the missing-rows error (only for an empty table) followed by one error per row in need of attention, in row order; each row's mark is whether it needs attention; the result is true iff there is no error |
| Mascaras.ErrosLinhasCorreto | static/admin/bem_patrimonial.js:252-264 | an error names row k (numbered from 1) iff k is among the rows examined and that row has its box unchecked and a blank trimmed number |
| Mascaras.ErrosLinhasOrdenados | static/admin/bem_patrimonial.js:252-264 | every error is a row error, and rows are named strictly increasing, so each at most once |
| Mascaras.ValidoSse | static/admin/bem_patrimonial.js:245-267 | the table is valid iff it has rows and none of them needs attention |
| Base.GroupThousandsShape | static/admin/bem_patrimonial.js:22 | the units grouped by thousands take the shape `\d{1,3}(\.\d{3})*` |
| Base.GroupThousandsDigits | static/admin/bem_patrimonial.js:22 | deleting the separators from the grouped units gives the digits back |
| Cimbpm.UltimoGrupo | bem_patrimonial/cimbpm.py:54 | the last dot-separated group holds no dot and is no longer than the code |
| Cimbpm.UltimoGrupoEhSufixo | bem_patrimonial/cimbpm.py:54 | the last group is a suffix of the code, preceded by a dot unless it is the whole code |
| Cimbpm.UltimoGrupoSemPonto | bem_patrimonial/cimbpm.py:53-57 | a code without dots is its own last group, so the two branches of the function agree on it |
| Cimbpm.TresDigitos | bem_patrimonial/cimbpm.py:55-59 | stripping zeros, then padding and cutting to three, always gives exactly three digits |
| Cimbpm.TresDigitosValor | bem_patrimonial/cimbpm.py:55-59 | those three digits denote the group's value modulo 1000 |
| Cimbpm.ZeroOuValor | bem_patrimonial/cimbpm.py:55 | `lstrip("0") or "0"` keeps the value and leaves at most one zero in front |
| Cimbpm.ExtrairCodigoUa | bem_patrimonial/cimbpm.py:47-59 | the unit code is always exactly three digits |
| Cimbpm.ExtrairCodigoUaSemDigitos | bem_patrimonial/cimbpm.py:48-51 | a code without any digit gives `000` |
| Cimbpm.ExtrairCodigoUaValor | bem_patrimonial/cimbpm.py:47-59 | the unit code denotes the digits of the last dot-separated group modulo 1000, whether or not the code has a dot |
| Cimbpm.UltimoGrupoSemDigitos | bem_patrimonial/cimbpm.py:48-55 | a code without digits has a last group without digits, so the early `000` return agrees with the general case |
| Cimbpm.ExtrairCodigoUaUltimoGrupo | bem_patrimonial/cimbpm.py:53-55 | everything up to the last dot is irrelevant: a dotted code has the unit code of its last group |
| Cimbpm.FormatarMoedaBrasileiraForma | bem_patrimonial/cimbpm.py:62-63 | the text is `R$ `, a minus sign exactly for negative amounts, the integer part grouped by `.` in thousands without superfluous zeros, a `,` and two decimals; read back, it denotes the amount's absolute value in cents |
| Cimbpm.OrdenaOrdenada | bem_patrimonial/cimbpm.py:74 | the sort orders the assets by patrimonial number |
| Cimbpm.OrdenaPermutacao | bem_patrimonial/cimbpm.py:74 | the sort is a permutation of its input |
| Cimbpm.OrdenaEstavel | bem_patrimonial/cimbpm.py:74 | assets with equal numbers keep their relative order, as Python's `sorted` guarantees |
| Cimbpm.ObterBensMovimentacao | bem_patrimonial/cimbpm.py:66-74 | the result is sorted; it is a permutation of the item assets when there are items, the single older-layout asset when there are none and it is set, and empty otherwise |
| Cimbpm.ObterNomeUsuario | bem_patrimonial/cimbpm.py:77-78 | a set, non-empty name wins; an unset or empty name falls back to the login name |
| Cimbpm.PgCastInteger | bem_patrimonial/cimbpm.py:113 | a successful cast to a PostgreSQL integer lies in the 32-bit range |
| Cimbpm.PgCastIntegerDigits | bem_patrimonial/cimbpm.py:113 | a non-empty digit string within range casts to its value |
| Cimbpm.Lidos | bem_patrimonial/cimbpm.py:104-113 | the aggregation sees, for every existing number and in order, whether it ends in `.ano` and its sequence as read |
| Cimbpm.UltimoSequencialErro | bem_patrimonial/cimbpm.py:104-114 | the `Max(Cast(...))` query fails exactly when some number of the year has an unreadable sequence |
| Cimbpm.UltimoSequencialAusente | bem_patrimonial/cimbpm.py:104-116 | when all are readable the query yields a maximum, and that maximum is absent exactly when the year has no number |
| Cimbpm.UltimoSequencialCota | bem_patrimonial/cimbpm.py:104-114 | when all are readable, the maximum bounds the sequence of every number of the year |
| Cimbpm.UltimoSequencialAtingido | bem_patrimonial/cimbpm.py:104-114 | a present maximum is the sequence of some number of the year |
| Cimbpm.UltimoSequencialMaximo | bem_patrimonial/cimbpm.py:104-114 | the three facts together: when every number of the year is readable, the query is their maximum, absent for a year with no number |
| Cimbpm.UltimoSequencialUm | bem_patrimonial/cimbpm.py:104-114 | a single readable number of the year is its own maximum |
| Cimbpm.UltimoSequencialDois | bem_patrimonial/cimbpm.py:104-114 | of two numbers of the year, the one read as the larger sequence gives the maximum |
| Cimbpm.LerCampoInteiroNatural | bem_patrimonial/cimbpm.py:111-113 | a sequence read from the whole third field is never negative |
| Cimbpm.GerarNumeroCimbpm | bem_patrimonial/cimbpm.py:91-120 | the intended generator: the sequence is read from the whole third dot-separated field instead of `Substr(numero_cimbpm, 9, 7)` at line 111 (that reading is `GerarNumeroCimbpmOriginal`, see Findings); a number is produced exactly when every existing number of the year has a readable sequence field; otherwise the query error is the result |
| Cimbpm.MontarDoAno | bem_patrimonial/cimbpm.py:118-120 | a number built for a year passes that year's `endswith` filter |
| Cimbpm.MontarCampos | bem_patrimonial/cimbpm.py:118-120 | a built number splits at its dots into the two unit codes, the zero-padded sequence and the year, and its sequence reads back unchanged |
| Cimbpm.MontarSplit | bem_patrimonial/cimbpm.py:118-120 | four dot-free parts joined by dots split back into themselves |
| Cimbpm.GerarNumeroCimbpmOutroAno | bem_patrimonial/cimbpm.py:106-109 | a number of another year added to the table does not change the generated number |
| Cimbpm.AgregadoOutroAno | bem_patrimonial/cimbpm.py:106-113 | a number of another year added to the table does not change the aggregate |
| Cimbpm.GerarNumeroCimbpmSequencia | bem_patrimonial/cimbpm.py:97-120 | the new number is origin code, destination code, sequence and year; the sequence exceeds every sequence of the year, is one more than some existing one, and is 1 when the year has none |
| Cimbpm.GerarNumeroCimbpmUnico | bem_patrimonial/cimbpm.py:91-120 | the number generated as intended is never one that already exists |
| Cimbpm.SubstrMontar | bem_patrimonial/cimbpm.py:111 | `Substr(numero, 9, 7)` reads the first seven characters of a built number's sequence field |
| Cimbpm.LerOriginalSeteDigitos | bem_patrimonial/cimbpm.py:111-113 | a sequence below 10,000,000 is read back whole by the 7-character substring |
| Cimbpm.LerOriginalOitoDigitos | bem_patrimonial/cimbpm.py:111-113 | an eight-digit sequence loses its last digit when read back: the query sees a tenth of it |
| Cimbpm.GerarOriginalApos | bem_patrimonial/cimbpm.py:113-120 | the code as written builds its number from one more than the last sequence it read back |
| Cimbpm.OriginalAposUltimoDeSete | bem_patrimonial/cimbpm.py:104-120 | after number 9,999,999, the code as written generates number 10,000,000 |
| Cimbpm.OriginalLidosAposSete | bem_patrimonial/cimbpm.py:104-114 | with both 9,999,999 and 10,000,000 present, the code as written still sees 9,999,999 as the last sequence |
| Cimbpm.OriginalRepeteOitoDigitos | bem_patrimonial/cimbpm.py:104-120 | with both present, the code as written generates 10,000,000 a second time |
| Cimbpm.GerarNumeroCimbpmOriginalDuplica | bem_patrimonial/cimbpm.py:104-120 | the duplicate in one statement: the same number is generated after 9,999,999 alone and after 9,999,999 and 10,000,000 together |
| ExtracaoNumeros.CoerceToNew | bem_patrimonial/admins/actions/extracao_numeros.py:19-28 | a number is produced exactly when the text holds thirteen digits |
| ExtracaoNumeros.CoerceToNewCorreto | bem_patrimonial/admins/actions/extracao_numeros.py:19-28 | a coerced number matches `^\d{3}\.\d{9}-\d$` and keeps exactly the digits it came from |
| ExtracaoNumeros.Formatar13Correto | bem_patrimonial/admins/actions/extracao_numeros.py:26-27 | thirteen digits laid out as `ddd.ddddddddd-d` match the strict pattern, and filtering the digits back out returns them unchanged |
| ExtracaoNumeros.Formatar13Padrao | bem_patrimonial/admins/actions/extracao_numeros.py:26-27 | the layout of thirteen digits matches the strict pattern |
| ExtracaoNumeros.Formatar13Digitos | bem_patrimonial/admins/actions/extracao_numeros.py:26-27 | filtering the digits out of the layout gives the thirteen digits back, in order |
| ExtracaoNumeros.ClassifyTokenCorreto | bem_patrimonial/admins/actions/extracao_numeros.py:68-84 | SEM_NUMERO exactly for an empty or letter-bearing token, with no value; PADRAO_ATUAL gives a value that matches the strict pattern and has the token's digits, the token itself when it already matches; PADRAO_ANTERIOR exactly for a letter-free token that neither matches nor has thirteen digits, with the token as value |
| ExtracaoNumeros.FimDoToken | bem_patrimonial/admins/actions/extracao_numeros.py:40-44 | the end is the index of the first `' '` or `'/'`, or the length when there is none |
| ExtracaoNumeros.FimDoTokenUnico | bem_patrimonial/admins/actions/extracao_numeros.py:40-44 | any index before which no separator occurs, and that is a separator or the end, is that first separator |
| ExtracaoNumeros.FirstToken | bem_patrimonial/admins/actions/extracao_numeros.py:31-46 | the scanning loop returns the token, start and end of the token specification `PrimeiroToken` |
| ExtracaoNumeros.PrimeiroTokenCorreto | bem_patrimonial/admins/actions/extracao_numeros.py:31-46 | blank text has no token; a token found is non-empty, starts the left-stripped text at index 0, holds no `' '` or `'/'`, has no blank at either end and ends before the separator |
| ExtracaoNumeros.InicioNumerico | bem_patrimonial/admins/actions/extracao_numeros.py:57-63 | the start reported is one where the pattern can match, and no earlier index can start a match: `re.search`'s leftmost match |
| ExtracaoNumeros.InicioNumericoUnico | bem_patrimonial/admins/actions/extracao_numeros.py:57-63 | the leftmost index where a match can start is the one reported |
| ExtracaoNumeros.UltimoTokenNumericoCorreto | bem_patrimonial/admins/actions/extracao_numeros.py:49-65 | a token found runs from the leftmost possible start to the end of the stripped text, has at least two characters, starts and ends with a digit, holds only digits, dots, hyphens, blanks and `/`, and no letter |
| ExtracaoNumeros.UltimoTokenNumericoEm | bem_patrimonial/admins/actions/extracao_numeros.py:54-65 | once the leftmost start is known, the token is the cleaned tail of the stripped text from it |
| ExtracaoNumeros.ColapsarSemEspacosDuplos | bem_patrimonial/admins/actions/extracao_numeros.py:110 | after `re.sub(r"\s{2,}", " ", …)` no two blanks are adjacent |
| ExtracaoNumeros.ColapsarPalavra | bem_patrimonial/admins/actions/extracao_numeros.py:110 | collapsing leaves a word of letters unchanged |
| ExtracaoNumeros.ExtractCorreto | bem_patrimonial/admins/actions/extracao_numeros.py:87-132 | nothing found means no number, SEM_NUMERO and the name unchanged; something found means automatic application with a number, a raw match, a source and a class other than SEM_NUMERO; names starting with a non-digit are searched at the ends only, others at the starts only; a number from the description leaves the name alone |
| ExtracaoNumeros.ExtrairNomeFim | bem_patrimonial/admins/actions/extracao_numeros.py:104-110 | a number found at the end of a name starting with a non-digit gives the suggestion made from the part of the name in front of it |
| ExtracaoNumeros.SugeridoNoFim | bem_patrimonial/admins/actions/extracao_numeros.py:104-110 | the same, for a known start and a known value of that suggestion |
| ExtracaoNumeros.ExtractEspacosIniciais | bem_patrimonial/admins/actions/extracao_numeros.py:104-110 | with the cut taken in the stripped name, blanks in front of a name change neither where the number is found nor the suggested name |
| ExtracaoNumeros.LetraNaoEspaco | bem_patrimonial/admins/actions/extracao_numeros.py:10 | a letter of `[A-Za-zÁ-ú]` is neither blank nor a digit |
| ExtracaoNumeros.PalavraBordas | bem_patrimonial/admins/actions/extracao_numeros.py:100-110 | a word of letters starts with a non-digit and has no blank at either end |
| ExtracaoNumeros.UltimoTokenPalavraNumero | bem_patrimonial/admins/actions/extracao_numeros.py:49-65 | for blanks, a word, a space and a number of two or more digits, the stripped text is the word, the space and the number, and the number is found right after the space |
| ExtracaoNumeros.StripPalavraNumero | bem_patrimonial/admins/actions/extracao_numeros.py:54 | stripping such a name removes exactly the blanks in front |
| ExtracaoNumeros.InicioPalavraNumero | bem_patrimonial/admins/actions/extracao_numeros.py:57-63 | in a word, a space and a number, the leftmost start of a match is right after the space |
| ExtracaoNumeros.SugestaoPalavra | bem_patrimonial/admins/actions/extracao_numeros.py:110 | a single word of letters is its own suggested name |
| ExtracaoNumeros.AntesComoEscrito | bem_patrimonial/admins/actions/extracao_numeros.py:110 | `nome[:a]`, with `a` counted in the stripped name, keeps the blanks and only the first `a - |blanks|` characters of the word: stripped, that is the word cut short |
| ExtracaoNumeros.AntesCorrigido | bem_patrimonial/admins/actions/extracao_numeros.py:110 | cutting the stripped name at `a` and stripping gives the whole word |
| ExtracaoNumeros.CortaComoEscrito | bem_patrimonial/admins/actions/extracao_numeros.py:104-110 | as written, a name with two or more blanks in front of a word and a number is suggested as the word short of `|blanks| - 1` characters |
| ExtracaoNumeros.CortaCorrigido | bem_patrimonial/admins/actions/extracao_numeros.py:104-110 | with the corrected cut, the same name is suggested as the whole word |
| ExtracaoNumeros.ExtractOriginalCorta | bem_patrimonial/admins/actions/extracao_numeros.py:104-110 | the two side by side: as written the suggestion is a strict prefix of the word, corrected it is the word |
| ExtracaoNumeros.ExtractOriginalMesa | bem_patrimonial/admins/actions/extracao_numeros.py:104-110 | as written, the name `"  MESA 12"` is suggested as `"MES"` |
| ExtracaoNumeros.ExtractMesa | bem_patrimonial/admins/actions/extracao_numeros.py:104-110 | with the corrected cut, the name `"  MESA 12"` is suggested as `"MESA"` |
| ExtracaoNumeros.ProcessarCorreto | bem_patrimonial/admins/actions/extracao_numeros.py:235-278 | with either cut of `_extract`, the one written at line 110 or the corrected one: every asset is saved or counted as an error, never skipped; an error leaves it as it was; the description never changes; a saved asset passed validation and carries the extracted number with `numero_formato_antigo` set exactly for PADRAO_ANTERIOR, or is marked `sem_numeracao` when nothing was found |
| ExtracaoNumeros.ProcessarNuncaIgnora | bem_patrimonial/admins/actions/extracao_numeros.py:240-278 | with either cut of `_extract`, each processed asset increments exactly one of the two counters |
| ExtracaoNumeros.ProcessarMesa | bem_patrimonial/admins/actions/extracao_numeros.py:236-263 | the action stores the name `_extract` suggests: with the cut as written an asset named `"  MESA 12"` is saved as `"MES"`, with the corrected cut as `"MESA"`, with the same number |
| ExtracaoNumeros.AplicarNuncaIgnora | bem_patrimonial/admins/actions/extracao_numeros.py:240-249 | an extraction that is applied or has class SEM_NUMERO never reaches the silent `continue` |
| ExtracaoNumeros.ExtractCoerente | bem_patrimonial/admins/actions/extracao_numeros.py:100-132 | `_extract`, as written and with the corrected cut, only declines to apply together with SEM_NUMERO, for every stored asset |
| ExtracaoNumeros.Acervo.AplicarExtracaoNumero | bem_patrimonial/admins/actions/extracao_numeros.py:201-284 | a non-manager gets the error message and nothing changes; without confirmation the answer lists the assets of the selection whose number is null or empty, and nothing changes; once confirmed, exactly those assets are processed by `_extract` as written, each on its own, the others are untouched, and the counts reported are the numbers saved and refused, adding up to the candidates |
| ExtracaoNumeros.Acervo.ProcessarCandidatos | bem_patrimonial/admins/actions/extracao_numeros.py:231-278 | the loop leaves every candidate as its own processing makes it and every other asset as it was, and its two counters are the candidates saved and refused |
| ExtracaoNumeros.Processados | bem_patrimonial/admins/actions/extracao_numeros.py:235-278 | processing the candidates below n keeps the number of assets |
| ExtracaoNumeros.ProcessadosPasso | bem_patrimonial/admins/actions/extracao_numeros.py:235-278 | processing asset i changes that asset alone, and starts from its stored value |
| ExtracaoNumeros.ContagemPasso | bem_patrimonial/admins/actions/extracao_numeros.py:246-278 | one more asset adds one to a counter exactly when it is a candidate with that outcome |
| ExtracaoNumeros.ContagemDesfecho | bem_patrimonial/admins/actions/extracao_numeros.py:246-278 | a counter is the number of candidates seen so far with its outcome |
| ExtracaoNumeros.ContagemSoma | bem_patrimonial/admins/actions/extracao_numeros.py:240-278 | the two counters together count every candidate seen so far |
| ExtracaoNumeros.ContagemAbaixo | bem_patrimonial/admins/actions/extracao_numeros.py:240-278 | the two facts above for the candidates below n |
| ExtracaoNumeros.AbaixoPasso | bem_patrimonial/admins/actions/extracao_numeros.py:235 | the candidates below n + 1 are those below n and n itself when it is one |
| ExtracaoNumeros.ContagemCandidatos | bem_patrimonial/admins/actions/extracao_numeros.py:211-283 | over the whole table, the reported counts are the sizes of the sets of candidates saved and refused, and add up to the number of candidates |
| BemPatrimonialForm.ParseSemSinal | bem_patrimonial/admins/forms/bem_patrimonial_form.py:94 | an unsigned decimal string never parses to a negative number |
| BemPatrimonialForm.ParseDecimal | bem_patrimonial/admins/forms/bem_patrimonial_form.py:94 | a parsed value is negative only when the text starts with a minus sign |
| BemPatrimonialForm.ParseDecimalPonto | bem_patrimonial/admins/forms/bem_patrimonial_form.py:94 | digits, a point and digits parse to the integer the digits spell, scaled down by the length of the fraction |
| BemPatrimonialForm.ParseSemSinalPonto | bem_patrimonial/admins/forms/bem_patrimonial_form.py:94 | the unsigned form of the same: the point splits the integer part from the fraction |
| BemPatrimonialForm.ParseDecimalMenos | bem_patrimonial/admins/forms/bem_patrimonial_form.py:94-95 | a minus in front of an unsigned number parses to its negation, with the same scale |
| BemPatrimonialForm.LerValorUnitario | bem_patrimonial/admins/forms/bem_patrimonial_form.py:86-99 | an accepted unit price is never negative; "required" is reported exactly when the stripped input is blank |
| BemPatrimonialForm.CleanValorUnitario | bem_patrimonial/admins/forms/bem_patrimonial_form.py:86-99 | as written, the negative-amount message can never reach the user: the generic "invalid" message replaces it |
| BemPatrimonialForm.CleanValorUnitarioCorrigido | bem_patrimonial/admins/forms/bem_patrimonial_form.py:89-97 | with the negative-amount message let through: it is given exactly for well-formed negative amounts, and a value is accepted exactly when it is well formed and not negative |
| BemPatrimonialForm.CleanValorMascara | bem_patrimonial/admins/forms/bem_patrimonial_form.py:89-97 | whatever digits the currency mask formats, the server reads back exactly that many cents, with two decimal places |
| BemPatrimonialForm.MascaraNormalizada | bem_patrimonial/admins/forms/bem_patrimonial_form.py:93 | dropping the dots and turning the comma into a point leaves the mask's digits split by one point before the last two, with the same value |
| BemPatrimonialForm.NormalizarMenos | bem_patrimonial/admins/forms/bem_patrimonial_form.py:93 | a leading minus survives the normalisation unchanged |
| BemPatrimonialForm.CleanValorNegativo | bem_patrimonial/admins/forms/bem_patrimonial_form.py:95-99 | a masked positive amount with a leading minus is refused with the generic message as written, and with the negative-amount message when corrected |
| BemPatrimonialForm.CleanValorMenosUm | bem_patrimonial/admins/forms/bem_patrimonial_form.py:95-99 | "-1,00" is refused as "invalid" as written and as "negative" when corrected |
| BemPatrimonialForm.Clean | bem_patrimonial/admins/forms/bem_patrimonial_form.py:101-129 | both flags set is refused, and only then; a missing number without "no number" is refused, and only then; "no number" clears the number and the old-format flag; otherwise number and flags are kept; on creation a missing status becomes "awaiting approval" (AGUARDANDO_APROVACAO); a given status, or any status on an existing asset, is kept |
| BemPatrimonialForm.CleanIdempotente | bem_patrimonial/admins/forms/bem_patrimonial_form.py:101-129 | cleaning data that clean accepted gives the same result again |
| BemPatrimonialForm.Instancia.constructor | bem_patrimonial/admins/forms/bem_patrimonial_form.py:74-77 | an instance holds the primary key and the "no number" flag it is given |
| BemPatrimonialForm.BemPatrimonialAdminForm.constructor | bem_patrimonial/admins/forms/bem_patrimonial_form.py:74-75 | a form starts with its instance, the cleaned number and no model errors |
| BemPatrimonialForm.BemPatrimonialAdminForm.PostClean | bem_patrimonial/admins/forms/bem_patrimonial_form.py:69-84 | the model validation sees "no number" cleared exactly when an existing asset comes with a non-empty number, and its own flag otherwise; the flag, the key and the number are as before afterwards |
| MovimentacaoForm.PyInt | bem_patrimonial/admins/forms/movimentacao_bem_patrimonial_form.py:18 | a quantity is read only from text that is not blank once stripped |
| MovimentacaoForm.PyIntDigits | bem_patrimonial/admins/forms/movimentacao_bem_patrimonial_form.py:18 | a plain digit string is read as the number it spells |
| MovimentacaoForm.CleanCom | bem_patrimonial/admins/forms/movimentacao_bem_patrimonial_form.py:8-47 | a missing field or a quantity that is not an integer is the first error, and only then; an asset key that `int` cannot read is the uncaught error, and only then; an asset key whose integer names no asset is "does not exist", and only then; an accepted request names an existing asset and an origin holding a stock row of it, both by the integer value of their keys, a destination whose text differs from the origin's, and a quantity between 1 and the origin's balance, and an operator editing a request is its requester |
| MovimentacaoForm.OrdemDasVerificacoes | bem_patrimonial/admins/forms/movimentacao_bem_patrimonial_form.py:27-35 | a missing stock row at the origin, or an origin key that is not a number, is reported whatever the destination and quantity; origin equal to destination is reported whatever the quantity |
| MovimentacaoForm.CleanAceita | bem_patrimonial/admins/forms/movimentacao_bem_patrimonial_form.py:14-47 | the converse of the checks: every well-formed transfer, from a unit holding enough to another unit, by someone allowed to edit it, is accepted |
| MovimentacaoForm.OperadorEditandoPropria | bem_patrimonial/admins/forms/movimentacao_bem_patrimonial_form.py:43-45 | as written, an inventory operator editing their own request, loaded as a different object, is refused as "another user's request"; compared by primary key the same edit is accepted |
| MovimentacaoForm.OperadorSeteEditando | bem_patrimonial/admins/forms/movimentacao_bem_patrimonial_form.py:43-45 | operator 7 moving 1 of the 2 units of asset "10" held at unit "1" is refused as written and accepted when compared by primary key |
| MovimentacaoForm.ChavesComZeros | bem_patrimonial/admins/forms/movimentacao_bem_patrimonial_form.py:23-35 | the lookups read keys as integers, so `"010"` finds asset 10 and `"01"` unit 1; the destination is compared as text, so `"01"` passes as different from origin `"1"` and a transfer from unit 1 to unit 1 is accepted, while `"1"` to `"1"` is refused |
| Agenda.DoisDigitos | agendamento_suporte/utils.py:34 | a two-digit field is exactly two digits |
| Agenda.Hhmm | agendamento_suporte/utils.py:34 | an `HH:MM` slot text has five characters with the colon in the middle |
| Agenda.HhmmLer | agendamento_suporte/utils.py:34 | every slot text reads back as the time of day it was written from, so distinct slots have distinct texts |
| Agenda.UltimoHorario | agendamento_suporte/utils.py:32-37 | the last half-hour step up to the end time is at most the end time and the next step passes it |
| Agenda.QuantidadeLimites | agendamento_suporte/utils.py:32-37 | when the loop stops, all the slots it emits fall within the day and up to the end time, and the next one passes it |
| Agenda.GerarHorarios | agendamento_suporte/utils.py:17-39 | the list holds, in order, the `HH:MM` text of every half-hour step from the start that is at most the end time, and the step after the last one passes the end time |
| Agenda.NoDia | agendamento_suporte/utils.py:32 | a time before midnight is its own time of day |
| Agenda.RelogioDoDia | agendamento_suporte/utils.py:32-37 | within one day, the n-th slot is the start plus n half hours |
| Agenda.NaoTermina | agendamento_suporte/utils.py:32-37 | when the last step up to the end time is 23:30 or later, the clock wraps past midnight and every time it shows is again at most the end time: the loop never stops |
| Agenda.TerminaSse | agendamento_suporte/utils.py:32-37 | the loop stops exactly when some step of the clock passes the end time, and that is the stopping condition the method requires |
| Agenda.IndiceSemana | agendamento_suporte/utils.py:50 | the weekday index is between 0 and 6 |
| Agenda.LerData | agendamento_suporte/utils.py:44 | a date is read only when it is a valid calendar date |
| Agenda.LerMesDois | agendamento_suporte/utils.py:44 | a two-digit month from 01 to 12 followed by a dash is read as that month |
| Agenda.LerDiaDois | agendamento_suporte/utils.py:44 | a two-digit day from 01 to 31 is read as that day |
| Agenda.LerIso | agendamento_suporte/utils.py:44 | every valid date written in ISO form reads back as itself |
| Agenda.DiasDoAno | agendamento_suporte/utils.py:50 | a year has 366 days when it is a leap year and 365 otherwise |
| Agenda.AnoSeguinte | agendamento_suporte/utils.py:50 | the days before the next year are those before this one plus this year's |
| Agenda.OrdinalSeguinte | agendamento_suporte/utils.py:50 | the day after a valid date is valid and has the next ordinal |
| Agenda.ProximoNaLista | agendamento_suporte/utils.py:47 | the constant after each weekday is the next one of the list, Sunday wrapping to Monday |
| Agenda.DiaDaSemanaIso | agendamento_suporte/utils.py:42-55 | a valid date in ISO form gets the constant at its weekday index |
| Agenda.IndiceSeguinte | agendamento_suporte/utils.py:50 | consecutive dates have consecutive weekday indices modulo 7 |
| Agenda.DiaDaSemanaSeguinte | agendamento_suporte/utils.py:42-55 | consecutive dates get consecutive weekday constants |
| Agenda.PrimeiroDe2024 | agendamento_suporte/utils.py:42-55 | "2024-01-01" is a Monday |
| Middleware.PorCento | usuario/middleware.py:28 | a percent-escape is three characters starting with `%` |
| Middleware.Utf8 | usuario/middleware.py:28 | a character encodes to one to four bytes, each below 256 |
| Middleware.PorCentoBytesCodificado | usuario/middleware.py:28 | escaped bytes hold only `%` and hexadecimal digits |
| Middleware.QuotePlusCodificado | usuario/middleware.py:28 | the encoded `next` value holds only letters, digits, `_.-~`, `%` and `+`, so no `&`, `=`, `#`, `?` or `/` can end it early |
| Middleware.UnquotePorCento | usuario/middleware.py:28 | decoding an escaped ASCII byte gives that character back |
| Middleware.UnquoteChar | usuario/middleware.py:28 | decoding the encoding of one ASCII character gives that character back |
| Middleware.QuotePlusVolta | usuario/middleware.py:28 | for an ASCII path, decoding the `next` value gives the path back |
| Middleware.QuotePlusConcat | usuario/middleware.py:28 | encoding works character by character, so it distributes over concatenation |
| Middleware.QuotePlusSeguro | usuario/middleware.py:28 | a value made of safe characters only is left as it is |
| Middleware.QuotePlusBarra | usuario/middleware.py:28 | a slash is encoded as `%2F` |
| Middleware.QuotePlusSegmento | usuario/middleware.py:28 | one safe segment between slashes is encoded with both slashes escaped |
| Middleware.QuotePlusAdmin | usuario/tests/tests_middleware.py:34-43 | `/admin/` is encoded as `%2Fadmin%2F`, the `next` value the tests expect |
| Middleware.ForaDoAdmin | usuario/middleware.py:18-22 | anonymous users and paths outside the admin are passed on, and the session is left alone |
| Middleware.TrocaSenhaLivre | usuario/middleware.py:23-24 | the password-change page is always passed on with the session untouched, so the redirect cannot loop |
| Middleware.DestinoLivre | usuario/middleware.py:29 | the redirect target lies under the password-change page |
| Middleware.Redireciona | usuario/middleware.py:26-35 | on a guarded admin path, the request is redirected exactly when the session flag is up or the user must change the password, and the redirect carries the full path as `next` |
| Middleware.UmaVez | usuario/middleware.py:26-29 | the session flag fires once: the same request is passed on afterwards unless the user must change the password |
| Middleware.SessaoPreservada | usuario/middleware.py:27 | no session key other than the flag is added, removed or changed |
| Middleware.Sessao.constructor | usuario/middleware.py:26 | a session holds the values it is given |
| Middleware.Chamar | usuario/middleware.py:14-35 | the response is the decision on the request and the old session, and the new session is the old one with the flag popped exactly when it fired |
| Auditoria.PkTextoInjetivo | dados_comuns/utils.py:8-10 | distinct primary keys, or a key and no key, are written as distinct texts |
| Auditoria.ReprInstancia | dados_comuns/utils.py:7-10 | two instances with the same text are recorded alike exactly when their primary keys agree |
| Auditoria.NuloComoVazio | dados_comuns/utils.py:5-6 | `None` and the empty text are recorded alike, so a change between them is not a change |
| Auditoria.Filtrar | dados_comuns/utils.py:19-20 | the kept fields are exactly those listed that `only` allows |
| Auditoria.MudancasEmPasso | dados_comuns/utils.py:23-29 | scanning one more field adds that field, with its old and new texts, exactly when it is not ignored and its texts differ, and changes nothing else |
| Auditoria.MudancasCorreto | dados_comuns/utils.py:16-30 | the changes hold exactly the considered fields whose recorded texts differ, each mapped to its old and new text |
| Auditoria.MudancasProprio | dados_comuns/utils.py:16-30 | comparing an object with itself finds no change |
| Auditoria.MudancasAusente | dados_comuns/utils.py:26-28 | a field missing from both objects reads as `None` on both sides and is never a change |
| Auditoria.DictChanges | dados_comuns/utils.py:16-30 | the loop over the fields returns exactly the changes of the specification |
| Download.NomeArquivo | bem_patrimonial/views.py:35 | the file name is the number with the `CIMBPM_` prefix and the `.pdf` suffix added, eleven characters longer |
| Download.SemDocumento | bem_patrimonial/views.py:12-13 | a movement without a document is a 404 whoever asks: that check comes before authorization |
| Download.NegadoSse | bem_patrimonial/views.py:15-26 | an existing document is refused exactly to an operator who is not a manager and whose unit is neither the origin nor the destination |
| Download.GestorSempre | bem_patrimonial/views.py:15 | a manager, or a user who is not an operator, is never refused |
| Download.OperadorSemUnidade | bem_patrimonial/views.py:15-21 | an operator without a unit is refused every existing document |
| Download.Entrega | bem_patrimonial/views.py:28-44 | an authorized request gets the attachment exactly when the file exists or is regenerated, under the name built from the number |
| Download.TrocarVolta | bem_patrimonial/views.py:35 | replacing one character and then replacing back gives the text back when the new character was absent |
| Download.TrocarSemDe | bem_patrimonial/views.py:35 | after the replacement the replaced character no longer occurs |
| Download.NomeArquivoVolta | bem_patrimonial/tests/tests_cimbpm.py:590-598 | the number can be read back from the file name: the name holds no dot between prefix and suffix, and restoring the dots gives the number |
| Download.Movimentacao.constructor | bem_patrimonial/views.py:10 | a movement holds the units, the document flags and the number it is given |
| Download.Baixar | bem_patrimonial/views.py:8-44 | the response is the decision on the user and the movement as it was, and the document file exists afterwards exactly when it existed or was regenerated for an attachment |
| Permissoes.ConcedeAteSse | usuario/utils.py:12-13 | scanning the first n verbs grants a codename exactly when one of them, put in front of the key, spells it and is listed for the key |
| Permissoes.AlgumaChaveSse | usuario/utils.py:8-13 | scanning the first n keys grants a codename exactly when one of them grants it |
| Permissoes.ConcedidasSse | usuario/utils.py:5-14 | a permission is granted exactly when it is in the table and some key lists one of add, change, delete and view that, put in front of the key, spells its codename |
| Permissoes.PorChavePasso | usuario/utils.py:11-14 | scanning one more permission for a key adds it exactly when the key grants its codename |
| Permissoes.AteChavePasso | usuario/utils.py:8-14 | scanning one more key adds exactly the permissions that key grants |
| Permissoes.Grupo.constructor | usuario/utils.py:14 | a group holds the permissions it is given |
| Permissoes.AtribuirPermissao | usuario/utils.py:5-19 | the group gains exactly the granted permissions and loses none |
| Permissoes.Reexecutar | usuario/utils.py:5-19 | running the grant a second time adds nothing |
| Permissoes.ConcedeAteFora | usuario/utils.py:6-13 | adding a verb outside the four options to a key's list never changes what the scan grants |
| Permissoes.VerboIgnorado | usuario/utils.py:6-13 | a verb outside add, change, delete and view grants nothing |
| Permissoes.ConcedeAteMonotono | usuario/utils.py:12-13 | listing more verbs for a key never takes a grant away |
| Permissoes.Monotono | usuario/utils.py:5-19 | settings contained in others grant no more than they do |
| Permissoes.OperadorContidoEmGestor | usuario/utils.py:27-51 | key by key, the inventory operator's settings list no verb the asset manager's lack |
| Permissoes.OperadorMenorQueGestor | usuario/utils.py:22-52 | whatever the permission table, the inventory operator group is granted a subset of what the asset manager group is |
| Unidades.Nova | dados_comuns/models.py:16-26 | a unit created without a status keeps its code, acronym and name and is active |
| Unidades.InativaNaoAtiva | dados_comuns/models.py:45-47 | an inactive unit is not active |
| Unidades.TemSaldoSse | dados_comuns/models.py:52-54 | the stock query finds a row exactly when some row of the unit holds a positive quantity |
| Unidades.PodeInativarSse | dados_comuns/models.py:49-54 | a unit may be deactivated exactly when every stock row it has holds zero or less |
| Unidades.QuantidadePositiva | bem_patrimonial/tests/tests_unidade_administrativa_status.py:341-342 | a positive total of one asset in a unit means some row of that unit holds a positive quantity |
| Unidades.PendenteNaoImpede | bem_patrimonial/tests/tests_unidade_administrativa_status.py:504-524 | creating a pending request moves no stock, so whether any unit may be deactivated is unchanged |
| Unidades.AprovadaImpede | bem_patrimonial/tests/tests_unidade_administrativa_status.py:341-360 | once a request with a positive quantity into a unit is approved, and the unit had no negative balance of that asset before, the unit can no longer be deactivated |
| Unidades.Texto | dados_comuns/models.py:33-34 | the display text is as long as the code and the acronym plus the three-character separator |
| Unidades.TextoPartes | dados_comuns/models.py:33-34 | the display text is the code, then `" - "`, then the acronym |
| Movimentacao.AjustarCriaLinha | bem_patrimonial/tests/tests_movimentacao_bloqueio.py:206-221 | after an adjustment, the stock row of that asset and unit exists |
| Movimentacao.AjustarQuantidade | bem_patrimonial/tests/tests_movimentacao_bloqueio.py:206-221 | an adjustment adds its delta to what that unit holds of that asset and to nothing else |
| Movimentacao.AjustarSoma | bem_patrimonial/tests/tests_movimentacao_bloqueio.py:206-221 | an adjustment adds its delta to the total held of that asset and leaves the other assets' totals alone |
| Movimentacao.TransferirSoma | bem_patrimonial/tests/tests_movimentacao_bloqueio.py:567-595 | a transfer conserves the total held of every asset |
| Movimentacao.TransferirEfeito | bem_patrimonial/tests/tests_movimentacao_bloqueio.py:206-221 | a transfer takes the quantity from the origin's holding and gives it to the destination's, whose row then exists, and leaves every other holding as it was; with origin equal to destination the two cancel out |
| Movimentacao.Criar | bem_patrimonial/tests/tests_movimentacao_bloqueio.py:120-158 | saving a new request appends it at the next key as ENVIADA with the given asset, units, quantity and requester, keeps every earlier request, blocks the asset and no other, moves no stock, and adds one history row recording the block by the requester and naming the request |
| Movimentacao.Aprovar | bem_patrimonial/tests/tests_movimentacao_bloqueio.py:223-271 | approval keeps the number of requests, and leaves a request that is not pending untouched |
| Movimentacao.Rejeitar | bem_patrimonial/tests/tests_movimentacao_bloqueio.py:296-313 | rejection keeps the number of requests and the stock, and leaves a request that is not pending untouched; its effect on a pending request is stated in full by RejeitarEfeito |
| Movimentacao.Cancelar | bem_patrimonial/tests/tests_cancelamento_movimentacao.py:77-138 | cancellation keeps the number of requests and the stock, and leaves a request that is not pending untouched; its effect on a pending request is stated in full by CancelarEfeito |
| Movimentacao.AprovarEfeito | bem_patrimonial/tests/tests_movimentacao_bloqueio.py:206-241 | approving a pending request accepts it with its approver, returns the asset to approved at the destination, moves the quantity from the origin's holding to the destination's (cancelling out when they are the same unit), conserves every total, and changes no other request, holding, asset status, asset location or history row |
| Movimentacao.AprovarMesmaUnidade | bem_patrimonial/tests/tests_movimentacao_bloqueio.py:206-241 | approving a pending request whose origin is its destination, which the request form accepts, leaves every holding as it was |
| Movimentacao.RejeitarEfeito | bem_patrimonial/tests/tests_movimentacao_bloqueio.py:296-334 | rejecting a pending request makes it REJEITADA with its rejecter, returns the asset to APROVADO at the same unit, moves no stock, and changes no other request, asset status or history row |
| Movimentacao.CancelarEfeito | bem_patrimonial/tests/tests_cancelamento_movimentacao.py:50-67 | cancelling a pending request makes it CANCELADA with who cancelled it, returns the asset to APROVADO at the same unit, moves no stock, and changes no other request, asset status or history row |
| Movimentacao.AprovarRepetido | bem_patrimonial/tests/tests_movimentacao_bloqueio.py:250-271 | approving twice is approving once: no second move of stock, and the first approver is kept |
| Movimentacao.EstadosFinais | bem_patrimonial/tests/tests_cancelamento_movimentacao.py:77-138 | once a request is accepted, rejected or cancelled, approving, rejecting and cancelling change nothing |
| Movimentacao.CriarPreserva | bem_patrimonial/tests/tests_duplicacao_movimentacao.py:100-121 | creating a request for an asset with none pending keeps at most one pending request per asset and every asset with one blocked |
| Movimentacao.FecharPreserva | bem_patrimonial/tests/tests_duplicacao_movimentacao.py:123-170 | closing a pending request and unblocking its asset keeps the tables consistent, since no other request of that asset was pending |
| Movimentacao.AprovarPreserva | bem_patrimonial/tests/tests_duplicacao_movimentacao.py:123-145 | approval keeps the tables consistent |
| Movimentacao.RejeitarPreserva | bem_patrimonial/tests/tests_duplicacao_movimentacao.py:147-170 | rejection keeps the tables consistent |
| Movimentacao.CancelarPreserva | bem_patrimonial/tests/tests_cancelamento_movimentacao.py:371-401 | cancellation keeps the tables consistent |
| Movimentacao.FecharLibera | bem_patrimonial/tests/tests_duplicacao_movimentacao.py:123-170 | in consistent tables, approving, rejecting or cancelling a pending request leaves its asset with no pending request, so a new request for it may be created |
| Movimentacao.TransicoesConservam | bem_patrimonial/tests/tests_movimentacao_bloqueio.py:296-313 | approval conserves the total held of every asset; rejection and cancellation leave the stock as it was |
| Movimentacao.Transicao | bem_patrimonial/admins/movimentacao_bem_patrimonial.py:18 | the transition an action applies keeps the number of requests |
| Movimentacao.Executar | bem_patrimonial/admins/movimentacao_bem_patrimonial.py:9-34 | a batch action keeps the number of requests |
| Movimentacao.RelatorioPasso | bem_patrimonial/admins/movimentacao_bem_patrimonial.py:18-20 | one more success in front of a well-formed report gives a well-formed report of one more request |
| Movimentacao.ExecutarMensagens | bem_patrimonial/admins/movimentacao_bem_patrimonial.py:9-34 | each processed item gets one success message and one email, at most one per selected request, and a batch that stops adds exactly one warning, last |
| Movimentacao.ExecutarPara | bem_patrimonial/admins/movimentacao_bem_patrimonial.py:13 | once the batch has stopped at an item, the requests after it are never looked at |
| Movimentacao.ExecutarEncerrada | bem_patrimonial/admins/movimentacao_bem_patrimonial.py:9-34 | each guard looks at one closed state only: a batch over one closed request that the guards let through (cancelled, rejected when approving, accepted when rejecting) leaves the tables as they were, yet reports success and sends the requester an email |
| Movimentacao.ExecutarPasso | bem_patrimonial/admins/movimentacao_bem_patrimonial.py:18-20 | an item passing both guards gets its transition, a success message and an email to its requester, then the rest of the batch runs on the new state |
| Movimentacao.ExecutarConserva | bem_patrimonial/admins/movimentacao_bem_patrimonial.py:9-34 | a batch action conserves the total held of every asset |
| Movimentacao.ExecutarPreserva | bem_patrimonial/admins/movimentacao_bem_patrimonial.py:9-34 | a batch action keeps the tables consistent |
| Movimentacao.TelasDiferem | bem_patrimonial/admins/solicitacao_movimentacao.py:11-13 | a user outside the operator group approving their own pending request succeeds on the movements screen and is refused, with nothing changed, on the requests screen |
| Movimentacao.OperadorProprio | bem_patrimonial/admins/movimentacao_bem_patrimonial.py:11-13 | an operator's own request first in the batch stops it with one warning and nothing changed, on either screen and for either action |
| Movimentacao.VisiveisCorreto | bem_patrimonial/admins/solicitacao_movimentacao.py:62-67 | the listed keys are exactly the requests the user may see, each once, in increasing order |
| Movimentacao.VisiveisTelas | bem_patrimonial/admins/movimentacao_bem_patrimonial.py:63-69 | an operator sees on the requests screen a subset of what they see on the movements screen |
| Movimentacao.Editar | bem_patrimonial/admins/solicitacao_movimentacao.py:73-74 | saving an edited request writes the form's asset, units and quantity into it, keeps its requester, its status and who approved, rejected or cancelled it, and changes no other request, asset status, location, stock row or history row |
| Movimentacao.Admin.constructor | bem_patrimonial/admins/movimentacao_bem_patrimonial.py:37-56 | a screen starts over the given tables with no messages and no emails |
| Movimentacao.Admin.ExecutarAcao | bem_patrimonial/admins/movimentacao_bem_patrimonial.py:9-34 | the loop leaves the tables, the messages and the emails exactly as the batch specification says |
| Movimentacao.Admin.SaveModel | bem_patrimonial/admins/solicitacao_movimentacao.py:69-74 | a new request gets the current user as requester and the next key, and is refused with nothing saved on the movements screen while the asset has a pending request; an edit keeps its key and requester; no message or email is produced |

## Left out

- Database access, transactions, row locks and `select_for_update` are not modelled. Each operation is modelled as one atomic step over in-memory tables. The concurrent-creation race that the duplication tests exercise is concurrency and is not modelled.
- Query results are passed as sequences, each row once, in the order given. This covers the stock rows, the existing CIMBPM numbers, the selected requests and the permission table.
- PDF generation (the ReportLab drawing in `bem_patrimonial/cimbpm.py` and `bem_patrimonial/formats.py`) is not modelled. Opening the stored file is not modelled either.
- Email composition and sending are external. An email is recorded only as its kind, the asset and the recipient.
- Django messages are recorded as a level and a text. The redirect, the 404 and the 403 are recorded as outcomes, not as HTTP responses.
- Cimbpm.FormatarMoedaBrasileiraForma: the amount is taken in whole cents. The float rounding of `:,.2f` is not modelled.
- Cimbpm.PgCastInteger: PostgreSQL's cast is modelled for ASCII digits with an optional sign, surrounding blanks and the 32-bit range; any other text is a cast error (`None`). Digit separators and non-decimal prefixes, which only newer PostgreSQL versions accept, are not modelled.
- Python's `\d` is modelled over the ASCII digits; the other Unicode decimal digits it also matches are not modelled. `\s` and `str.strip` use the full `str.isspace` set.
- BemPatrimonialForm.ParseDecimal: only plain decimals with an optional sign are modelled. Exponents, `NaN`, `Infinity`, underscores and surrounding blanks inside the normalised text are not.
- MovimentacaoForm.PyInt: underscores between digits and non-ASCII digits are not modelled.
- The text of the exceptions that the movement form turns into errors is not modelled. This covers a missing key, a bad integer and a missing asset.
- MovimentacaoForm.CleanCom: the asset and origin lookups coerce their keys with `int`, as the integer primary keys do; the `ValueError` of an asset key that is not a number is the outcome `ChaveNaoNumerica`, not an HTTP 500 page.
- Movimentacao.Executar follows the batch actions shown in `bem_patrimonial/admins/movimentacao_bem_patrimonial.py`, whose guards look only at "already accepted" when approving and "already rejected" when rejecting: a cancelled request, a rejected request being approved and an accepted request being rejected are all left as they are, yet reported as approved or rejected, and the requester is emailed (Movimentacao.ExecutarEncerrada). `bem_patrimonial/tests/tests_cancelamento_movimentacao.py:261-299` expects a "foi cancelada" warning, no email and a `cancelar_solicitacao` batch action; that newer admin code is not part of this model.
- BemPatrimonialForm.Clean returns the cleaned values instead of updating the form's dictionary in place. The status is set only when absent, as `setdefault` does. `Dados.status` being `None` stands for the key being absent; a key present with an empty value, which `setdefault` would leave empty, is not modelled.
- BemPatrimonialForm.BemPatrimonialAdminForm.PostClean: the model validation is a parameter from the instance's "no number" flag to the errors it adds. The validation's own rules are not part of this model.
- ExtracaoNumeros.Acervo.ProcessarCandidatos: the asset's `full_clean` is the parameter `valida`, and saving is the update of the asset's row. The gestor check and the confirmation page are in `AplicarExtracaoNumero`. The CSV simulation action `simular_extracao_numero` only writes a report and is not modelled.
- Movimentacao: the status history rows are recorded only for the block on creation, as the tests check them. `aprovar_solicitacao_e_atualizar_historico` on the requests screen is modelled as the same approval transition.
- Movimentacao.Admin.SaveModel: the refusal of a second pending request on the movements screen is stated from the duplication tests. The model code that raises it is not part of this model.
- Agenda.GerarHorarios requires that the loop stops. For the other inputs the source loops forever: once a slot reaches 23:30 the clock wraps to 00:xx, which is again at most the end time. `Agenda.NaoTermina` proves this and `Agenda.TerminaSse` characterises the stopping inputs.
- Agenda: times are whole minutes of the day; seconds and microseconds are not modelled. `agendamento_suporte/constants.py` is not part of this model: the weekday constants are modelled as an enumeration in the list's order.
- Middleware: the login state, the path, the full path and the `must_change_password` flag are fields of the request. Session values are modelled by truthiness. The URL of the password-change page is taken from the tests. Middleware.QuotePlusVolta is proved for ASCII paths only.
- Auditoria: `str()` of a value is the value's text. The fallback when `str()` of a model instance raises is not modelled.
- Download.Baixar: regeneration is modelled as its outcome, the boolean `regerado`. The login redirect of `login_required` is the outcome for unauthenticated users.
- Permissoes: `Permission.objects.all()` is a parameter, and the log line printed per grant is not modelled.
- Unidades: the timestamps set on save are not modelled.
- The DOM wiring of `static/admin/bem_patrimonial.js` is not modelled: event handlers, `toPayload`, `hydrate`, `showError` and `isEmptyField`. Mascaras.Fmt models a missing value as the empty string.
- `form_solicitacao_movimentacao.py`, the admin configuration, signals, settings, migrations and seed commands are configuration or framework glue and are not modelled.

## Findings

| source | as written | input that shows it | evidently intended | confidence | as-written member | corrected member |
|---|---|---|---|---|---|---|
| bem_patrimonial/cimbpm.py:111 | the last sequence is read with `Substr(numero, 9, 7)`, seven characters, while `:07d` writes eight digits from 10,000,000 on | existing numbers of the year ending in sequence 9999999 and 10000000: the seven characters read give 9999999 as the maximum, so 10000000 is generated a second time | read the whole third dot-separated field, so the new number is one more than the largest sequence of the year and never repeats one | not executed | Cimbpm.GerarNumeroCimbpmOriginalDuplica | Cimbpm.GerarNumeroCimbpmUnico |
| bem_patrimonial/admins/forms/movimentacao_bem_patrimonial_form.py:44 | the requester is compared with `is not`, an object identity test, against `request.user`, a lazily evaluated wrapper that is never the object loaded as the requester | inventory operator 7 editing their own request (1 of the 2 units of asset "10" held at unit "1", to unit "2") is refused as "another user's request" | compare the users' primary keys, so an operator may edit their own requests | not executed | MovimentacaoForm.OperadorEditandoPropria | MovimentacaoForm.CleanAceita |
| bem_patrimonial/admins/actions/extracao_numeros.py:110 | the suggested name is cut at `nome[:a]`, where `a` is a position in the stripped name, so leading blanks shift the cut | name "  MESA 12" with an empty description: the suggested name is "MES" | cut the stripped name, giving "MESA", the same suggestion as without the leading blanks | not executed | ExtracaoNumeros.ExtractOriginalMesa | ExtracaoNumeros.ExtractEspacosIniciais |
| bem_patrimonial/admins/forms/bem_patrimonial_form.py:95-99 | the negative-amount `ValidationError` is raised inside the `try` whose `except Exception` replaces it with the generic "invalid value" message | unit price "-1,00": the user reads "Valor inválido. Use o formato 0,00 ou 0.000,00." | report "O valor unitário não pode ser negativo." for every well-formed negative amount | not executed | BemPatrimonialForm.CleanValorMenosUm | BemPatrimonialForm.CleanValorUnitarioCorrigido |
