# Consulta de processos judiciais (PJe) — a Dafny model

This project is a model of a small web application that looks up Brazilian
court cases by their CNJ number, formatted as `NNNNNNN-DD.AAAA.J.TR.OOOO`. The
model covers:

- the client-side service `PJEService`. It formats and validates process
  numbers and answers a lookup from simulated data.
- the search form's input mask and its submit handler.
- the `pje-scraper` edge function. It looks up the tribunal and picks a
  scraping strategy from the tribunal code. It builds the placeholder record
  each strategy returns, and maps that record onto rows of the `processos`,
  `partes_publicas` and `movimentacoes` tables.

Files and modules:

- `text.dfy` (`Text`):
  - the JavaScript character class `\d` and `replace(/\D/g, '')`;
  - `String.prototype.trim`, with the ECMAScript white-space and
    line-terminator set written out.
- `pje_service.dfy` (`PjeService`):
  - the CNJ layout;
  - the anchored regular expression of `validarNumeroProcesso`, as a token
    matcher whose equivalence with the layout is proved;
  - `formatarNumeroProcesso`, and `consultarProcesso` with its mock record.
- `process_search_form.dfy` (`SearchForm`):
  - `formatProcessNumber`, together with the pattern it implements: the
    first 20 digits with the separator written before digit positions 7, 9,
    13, 14 and 16;
  - the component state as a class whose methods update `processNumber`.
- `pje_scraper.dfy` (`PjeScraper`):
  - the request handler of the edge function, as a function;
  - the date reordering `split('/').reverse().join('-')`;
  - the storing routine, as a method whose loops append rows.

Effects are parameters: the database tables and inserts, `fetch`, the clock,
locale-dependent date rendering, and the `Date` parser. `detectarTribunal`
(not part of this model) is passed to `HandleSubmit` as a function.

The lookup is simulated, and the scrapers return placeholder records. The
validation is structural only: the code does not check the CNJ mod-97 check
digit, and so the model does not either.

## Model

| member | source | states |
|---|---|---|
| Text.StripNonDigits | src/services/pjeService.ts:123 | the result contains only ASCII digits and is no longer than the input |
| Text.StripConcat | src/services/pjeService.ts:123 | stripping distributes over concatenation |
| Text.StripDigitsIdentity | src/services/pjeService.ts:123 | a digits-only string is left unchanged |
| Text.StripNoDigits | src/services/pjeService.ts:123 | a string without digits strips to the empty string |
| Text.TrimStart | src/components/ProcessSearchForm.tsx:21 | the result is a suffix of the input; all removed characters are JS white space; the result is empty or starts with a non-space |
| Text.TrimEnd | src/components/ProcessSearchForm.tsx:21 | the result is a prefix; all removed characters are JS white space; the result is empty or ends with a non-space |
| Text.Trim | src/components/ProcessSearchForm.tsx:21 | `trim()`: the result is a stretch of the input with only white space before and after it; it neither starts nor ends with white space; a string that neither starts nor ends with white space is kept whole |
| Text.TrimEmptyIff | src/components/ProcessSearchForm.tsx:21 | `!s.trim()` holds exactly when every character of `s` is white space |
| PjeService.MatchesFrom | src/services/pjeService.ts:134-135 | the regex test with both anchors: a match from a position consumes exactly the rest of the input, as many characters as the remaining tokens need |
| PjeService.CnjPatternIffGroups | src/services/pjeService.ts:134 | the anchored token pattern `\d{7}-\d{2}.\d{4}.\d{1}.\d{2}.\d{4}` matches exactly the 25-character strings with digit groups and separators in place |
| PjeService.CnjPatternIffLayout | src/services/pjeService.ts:134-135 | the pattern matches iff the string has the CNJ layout |
| PjeService.ValidarNumeroProcesso | src/services/pjeService.ts:133-136 | true iff the number has the CNJ layout: 25 characters, '-' at 7, '.' at 10, 15, 17, 20, ASCII digits elsewhere; no trimming and no check digit |
| PjeService.Layout | src/services/pjeService.ts:127 | the template string always has 25 characters; where each digit group and separator sits is stated by `LayoutAt` |
| PjeService.LayoutAt | src/services/pjeService.ts:127 | each position of the laid-out string holds the separator expected there or the digit it comes from |
| PjeService.StripAround | src/services/pjeService.ts:123 | stripping digits, one non-digit, then a rest keeps the digits and strips the rest |
| PjeService.LayoutIsCnj | src/services/pjeService.ts:126-127 | laying out 20 digits gives a CNJ-layout string whose digits are those 20 |
| PjeService.CnjLayoutDigits | src/services/pjeService.ts:126-127 | a CNJ-layout string has 20 digits, and laying those out gives the string back |
| PjeService.CnjLayoutUnique | src/services/pjeService.ts:126-127 | two CNJ-layout strings with the same digits are equal |
| PjeService.FormatarNumeroProcesso | src/services/pjeService.ts:121-131 | with exactly 20 digits the result has the CNJ layout and the same digits; otherwise the input is returned unchanged |
| PjeService.FormatIdempotent | src/services/pjeService.ts:121-131 | formatting twice equals formatting once |
| PjeService.ValidIsFormatted | src/services/pjeService.ts:121-136 | a number that validates is a fixed point of the formatter |
| PjeService.FormattedIsValidIff | src/services/pjeService.ts:121-136 | the formatted number validates iff the input has exactly 20 digits |
| PjeService.MockData | src/services/pjeService.ts:13-70 | the hard-coded record: the requested number, the date, class, subject, jurisdiction and court, one requerente with its CPF, one requerido with its CNPJ, and eight movements without documents |
| PjeService.ConsultarProcesso | src/services/pjeService.ts:8-95 | the record carries the requested number; the known number gets the full mock record; any other number gets no parties, the placeholder fields, and one movement dated by the clock; parties are present iff the number is the known one |
| PjeService.KnownNumberIsValid | src/services/pjeService.ts:73 | the number with mock data passes validation |
| SearchForm.Kept | src/components/ProcessSearchForm.tsx:67 | the first 20 digits, or all of them when there are fewer |
| SearchForm.FormatProcessNumber | src/components/ProcessSearchForm.tsx:51-69 | up to 7 digits are returned bare; the result has at most 25 characters, and exactly 25 iff the input has at least 20 digits |
| SearchForm.SeparatorBefore | src/components/ProcessSearchForm.tsx:55-68 | a separator of one non-digit character before the digit positions 7, 9, 13, 14 and 16, none elsewhere |
| SearchForm.PunctuatePiece | src/components/ProcessSearchForm.tsx:55-68 | a stretch of digits without a boundary is copied verbatim |
| SearchForm.PunctuateTail | src/components/ProcessSearchForm.tsx:55-68 | the final stretch after the last boundary is copied verbatim |
| SearchForm.PunctuateUpTo9 | src/components/ProcessSearchForm.tsx:58-59 | the punctuation of 8 or 9 digits is the branch's `NNNNNNN-NN` |
| SearchForm.PunctuateUpTo13 | src/components/ProcessSearchForm.tsx:60-61 | the punctuation of 10 to 13 digits is the branch's `NNNNNNN-NN.NNNN` |
| SearchForm.PunctuateUpTo14 | src/components/ProcessSearchForm.tsx:62-63 | the punctuation of 14 digits is the branch's `NNNNNNN-NN.NNNN.N` |
| SearchForm.PunctuateUpTo16 | src/components/ProcessSearchForm.tsx:64-65 | the punctuation of 15 or 16 digits is the branch's `NNNNNNN-NN.NNNN.N.NN` |
| SearchForm.PunctuateUpTo20 | src/components/ProcessSearchForm.tsx:66-67 | the punctuation of 17 to 20 digits is the branch's complete mask |
| SearchForm.MaskIsPunctuation | src/components/ProcessSearchForm.tsx:51-69 | across all six branches, the mask equals the reference: the kept digits with the separators inserted before the boundary positions |
| SearchForm.PunctuateDigits | src/components/ProcessSearchForm.tsx:51-69 | the punctuation contains exactly the digits it was given, in order |
| SearchForm.PunctuateSeparators | src/components/ProcessSearchForm.tsx:51-69 | every non-digit of the punctuation is the separator for the boundary reached so far, and a digit follows it |
| SearchForm.MaskKeepsDigits | src/components/ProcessSearchForm.tsx:51-69 | the digits of the masked value are the first 20 digits of the input |
| SearchForm.MaskSeparators | src/components/ProcessSearchForm.tsx:51-69 | each non-digit of the masked value is the separator expected at its boundary |
| SearchForm.MaskIdempotent | src/components/ProcessSearchForm.tsx:51-69 | masking a masked value changes nothing |
| SearchForm.MaskFull | src/components/ProcessSearchForm.tsx:66-67 | with 20 or more digits the mask is the full CNJ layout of the first 20 digits |
| SearchForm.MaskAgreesWithFormatter | src/components/ProcessSearchForm.tsx:51-69 | with 20 or more digits the mask equals the service's formatter on the kept digits, and on the value itself when it has exactly 20, and the result validates |
| SearchForm.MaskValidIff | src/components/ProcessSearchForm.tsx:51-69 | a masked value validates iff the input has at least 20 digits |
| SearchForm.ValidIsNotBlank | src/components/ProcessSearchForm.tsx:21-31 | a valid number is never blank after trimming |
| SearchForm.ProcessSearchForm.constructor | src/components/ProcessSearchForm.tsx:15 | the field starts empty |
| SearchForm.ProcessSearchForm.HandleInputChange | src/components/ProcessSearchForm.tsx:71-74 | the field becomes the masked input |
| SearchForm.ProcessSearchForm.HandleSubmit | src/components/ProcessSearchForm.tsx:18-49 | a blank field gives a missing-number outcome; a non-blank invalid one gives invalid-format; a valid one searches with the field and the tribunal detected from it; each outcome happens exactly when its condition holds |
| SearchForm.TypeAndSubmit | src/components/ProcessSearchForm.tsx:18-74 | typing a value leaves the masked value in the field; submitting then searches iff the value has at least 20 digits, and the searched number is the masked value and validates |
| PjeScraper.TribunalCodigo | supabase/functions/pje-scraper/index.ts:52 | an absent tribunal code defaults to `TJMG` |
| PjeScraper.TribunaisComCodigo | supabase/functions/pje-scraper/index.ts:57-59 | the filter `.eq('codigo', codigo)`: a table row is in the result iff it has the requested code; the result is no longer than the table |
| PjeScraper.NenhumComCodigo | supabase/functions/pje-scraper/index.ts:57-59 | the filter is empty iff no row index of the table has the code |
| PjeScraper.UmaLinhaIff | supabase/functions/pje-scraper/index.ts:57-60 | the filter holds one row iff exactly one row index of the table has the code |
| PjeScraper.UnicoCabeca | supabase/functions/pje-scraper/index.ts:57-60 | when the first row has the code, it is the only one iff no later row has it |
| PjeScraper.UnicoCauda | supabase/functions/pje-scraper/index.ts:57-60 | when the first row lacks the code, exactly one row has it iff exactly one later row has it |
| PjeScraper.BuscarTribunal | supabase/functions/pje-scraper/index.ts:57-64 | `.single()`: a tribunal is found iff exactly one row index of the table has the code, and the row found is the row at that index |
| PjeScraper.SelectStrategy | supabase/functions/pje-scraper/index.ts:81-92 | TJMG and TJSP get their own strategy; every other code gets the generic one |
| PjeScraper.TjmgUrl | supabase/functions/pje-scraper/index.ts:140 | the URL is the base URL, a slash and the process number, so the number can be read back from it |
| PjeScraper.Handle | supabase/functions/pje-scraper/index.ts:50-95 | an unknown tribunal is an error naming the code; only TJMG can otherwise fail; TJMG, TJSP and every other code answer with what their scraper gives for the tribunal found; a successful answer echoes the requested number |
| PjeScraper.ScrapeTJMG | supabase/functions/pje-scraper/index.ts:125-186 | a network failure and a non-OK status are errors, the latter carrying the status; an OK response gives a record with the requested number, the date `21/09/2022`, the fixed class, subject, jurisdiction and court, one party per pole with name and role and no CPF/CNPJ, and one movement dated by the clock |
| PjeScraper.ScrapeTJSP | supabase/functions/pje-scraper/index.ts:188-208 | the requested number, the placeholder date, class `Processo TJSP`, the consult-the-site subject, São Paulo/TJSP, no parties, one movement |
| PjeScraper.ScrapeGenerico | supabase/functions/pje-scraper/index.ts:210-229 | every field is named after the tribunal; no parties; one movement |
| PjeScraper.HandleEchoesNumber | supabase/functions/pje-scraper/index.ts:50-95 | a successful answer echoes the number, has parties iff the code is TJMG, and has exactly one movement |
| PjeScraper.Split | supabase/functions/pje-scraper/index.ts:240 | `split` yields at least one piece, no piece contains the separator, and the pieces plus one separator between each two account for every character |
| PjeScraper.Join | supabase/functions/pje-scraper/index.ts:240 | `join` of a non-empty list has as many characters as the pieces plus one separator between each two |
| PjeScraper.JoinAvoids | supabase/functions/pje-scraper/index.ts:240 | a character that is neither the separator nor in any piece does not occur in the join |
| PjeScraper.Reverse | supabase/functions/pje-scraper/index.ts:240 | `reverse` keeps the length and puts the k-th element from the end at position k |
| PjeScraper.TotalLengthReverse | supabase/functions/pje-scraper/index.ts:240 | reversing the pieces keeps their total length |
| PjeScraper.SplitWithout | supabase/functions/pje-scraper/index.ts:240 | a string without the separator splits into itself |
| PjeScraper.SplitAtFirst | supabase/functions/pje-scraper/index.ts:240 | the first separator ends the first piece |
| PjeScraper.JoinSplit | supabase/functions/pje-scraper/index.ts:240 | joining the pieces with the same separator gives the string back |
| PjeScraper.ReverseThree | supabase/functions/pje-scraper/index.ts:240 | three pieces reverse to the opposite order |
| PjeScraper.JoinThree | supabase/functions/pje-scraper/index.ts:240 | three pieces join with two separators |
| PjeScraper.ReorderDate | supabase/functions/pje-scraper/index.ts:240 | `split('/').reverse().join('-')` keeps the length and leaves no `/` |
| PjeScraper.ReorderDayMonthYear | supabase/functions/pje-scraper/index.ts:240 | `dd/mm/yyyy` is reordered to `yyyy-mm-dd` |
| PjeScraper.ReorderWithoutSlash | supabase/functions/pje-scraper/index.ts:240 | a date without `/` is passed on unchanged |
| PjeScraper.TipoPessoaDe | supabase/functions/pje-scraper/index.ts:261 | natural person iff the CPF is truthy; legal person iff there is no truthy CPF but a truthy CNPJ; not informed otherwise |
| PjeScraper.TipoPessoa.Label | supabase/functions/pje-scraper/index.ts:261 | the three stored labels `fisica`, `juridica` and `nao_informado` each belong to exactly one person type |
| PjeScraper.DataDistribuicaoColuna | supabase/functions/pje-scraper/index.ts:240 | `null` iff the date is empty; an exception iff the parser rejects the reordered date; otherwise the parsed date |
| PjeScraper.ProcessoRowDe | supabase/functions/pje-scraper/index.ts:236-244 | the process row copies number, class and subject, carries the tribunal id and the date column, and is marked `scraping_automatizado`/`ativo` |
| PjeScraper.ParteRowDe | supabase/functions/pje-scraper/index.ts:256-262 | the party row references the process and copies name and role; its person type is classified from CPF/CNPJ |
| PjeScraper.MovimentacaoRowDe | supabase/functions/pje-scraper/index.ts:268-274 | the movement row references the process, copies the text, takes the given number, and stores the parsed date, or the current time for an empty date |
| PjeScraper.SalvarProcessoNoBanco | supabase/functions/pje-scraper/index.ts:231-281 | an invalid distribution date writes nothing; a failed process insert writes no parties or movements; otherwise one party row per party, active pole first, in order; movement rows numbered `ordem = i + 1` in source order up to the first movement whose date cannot be parsed, and all of them when every date parses |
| PjeScraper.InserirPartes | supabase/functions/pje-scraper/index.ts:254-263 | one party row per party of the concatenated poles, in order |
| PjeScraper.InserirMovimentacoes | supabase/functions/pje-scraper/index.ts:266-275 | movement rows numbered `ordem = i + 1` in source order, each with a computable date, stopping exactly at the first movement whose date cannot be parsed |
| PjeScraper.TjmgPartiesNotInformed | supabase/functions/pje-scraper/index.ts:160-173 | the TJMG record's parties are stored as `nao_informado` |
| PjeScraper.TjmgDateLiteral | supabase/functions/pje-scraper/index.ts:240 | the literal `21/09/2022` is reordered to `2022-09-21` |
| PjeScraper.TjmgDateReordered | supabase/functions/pje-scraper/index.ts:240 | the distribution date of the record `scrapeTJMG` answers with reaches the date parser as `2022-09-21` |
| PjeScraper.PlaceholderDate | supabase/functions/pje-scraper/index.ts:240 | the placeholder date `Data não disponível` reaches the parser unchanged, and if the parser rejects it the date column raises |

## Left out

- `consultarProcesso`'s two-second `setTimeout` delay (pjeService.ts:10) is left out; the model has no time.
- The current date and time, rendered by `toLocaleDateString`/`toLocaleString("pt-BR")`, is a string parameter.
- `detectarTribunal` and `consultarProcessoReal` are not part of this model. `HandleSubmit` takes the tribunal detection as a function parameter.
- Toasts, `preventDefault`, the `onSearch` callback and `isLoading` are not modelled. `HandleSubmit` returns the outcome that decides which toast is shown and whether `onSearch` is called.
- The input's `maxLength={25}` attribute is not modelled. The mask never produces more than 25 characters.
- ScrapeTJMG: the page body is fetched but never parsed by the code. The model ignores it, along with the request headers and the `response.text()` call.
- PjeScraper.Handle: CORS preflight, JSON request parsing, environment variables, console logging and the two `scraping_logs` inserts are left out. Those inserts' results are ignored by the code. Errors are returned as values, not as an HTTP 500 response.
- The handler's answer is modelled apart from the storing routine. In the code, storing runs between scraping and answering, but its failures are caught inside it and never change the answer.
- PjeScraper.SalvarProcessoNoBanco: the `Date` parser and `toISOString` are parameters (`isoDate`, `isoTimestamp`), not a model of JavaScript date parsing. Party and movement inserts are assumed to succeed, since the code ignores their results.
- The CNJ mod-97 check digit is not computed: the code validates the layout only.
