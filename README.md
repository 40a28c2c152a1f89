# A verified model of the real-estate scraping pipeline

The pipeline finds real-estate agency sites for a city, asks a language
model to infer CSS selectors for each site, scrapes up to three result pages
per site, consolidates the per-site CSV files into one spreadsheet, and
prepares the figures of a PDF market report. This project models the
decisions each stage takes around its foreign calls in Dafny and proves
what those decisions guarantee:

- **Discovery** (`buscar_sites.py`, module `Busca`) builds three queries and
  filters hosts: not empty, not blocklisted, with an include keyword in the
  URL. It collects the hosts in a set and writes them sorted, each with an
  `https://` prefix.
- **Inference** (`analista_ia.py`, module `Analista`) loads the
  configuration store. It then visits the sites whose host is not yet
  configured. It cleans the model's reply, classifies failures (a quota
  failure halts the run), accepts only a dict with a truthy
  `container_anuncio`, and stores it under the site's host.
- **Extraction** (`extrator_mestre.py`, module `Extrator`) runs the bounded
  page loop. It stops on a page without containers. Without a next-page
  selector it stops and adds the pagination reminder. A failed click ends
  pagination. Each container yields one record, with "N/I" and
  "Não Especificado" as defaults. The per-site error classification keeps
  the partial batch. The module also covers the brace surgery on the
  description model's reply, and the main loop that skips a non-dict
  configuration and writes a CSV only for a non-empty batch.
- **Consolidation** (`consolidar_dados.py`, module `Consolidacao`) reads the
  CSV files, skips the unreadable ones, and concatenates the rest. It drops
  duplicates on (endereco, preco, site), keeping the first row, then
  back-fills missing final columns with "N/I" and fixes the column order.
- **Report preparation** (`gerar_relatorio_pdf.py`, module `Relatorio`)
  covers:
  - the character clean-up and separator rules of `limpar_valor`;
  - the separator swap of `formatar_brl`;
  - the 1000 price floor;
  - the neighbourhood taken from the last comma segment;
  - the `tipo` relabelling;
  - the top-ten neighbourhood table.

Shared modules:

- `Wrappers` holds `Option`.
- `Text` holds Python's whitespace `strip`, substring search, ASCII case
  mapping, `title`, `replace`, `rsplit`/`split` positions, and code-point
  string order.
- `Json` holds JSON values and Python truthiness.
- `Gemini` holds the outcome of a model call and the API-key placeholder.

Every foreign capability is a parameter:

- the browser session: what each page showed, and what scrolling and
  clicking did;
- CSS matching: whether a selector compiles, and the first match's text in a
  container;
- the web search's result list;
- the HTTP fetch;
- BeautifulSoup's `prettify`;
- the model's reply;
- `json.loads`;
- `urlparse(...).netloc`;
- Python's `str()` of a value;
- the `:,.2f` rendering of a number.

Where the source changes state, the model does too:

- `Extrator.ErrorLog` is the caller's error list that `extrair_dados_site`
  appends to.
- `Consolidacao.Table` is the data frame that `drop_duplicates` and the
  column loop change in place.
- `Relatorio.Sheet` is the report's data frame, changed step by step.

Each loop is a method proved equal to a specification function, and the
properties are lemmas about those functions.

## Model

| member | source | states |
|---|---|---|
| Analista.LoadExisting | analista_ia.py:27-36 | A decoded store file gives its map. A missing or corrupt file gives the empty map. |
| Analista.PromptHtml | analista_ia.py:47-51 | The HTML in the prompt is a prefix of the prettified page. It has at most 15000 characters, and it is the whole page when the page is that short. |
| Analista.CleanPlainReply | analista_ia.py:79 | A reply whose stripped text has no backtick is only stripped. |
| Analista.CleanFencedReply | analista_ia.py:79 | A reply that is a "```json" code block, possibly surrounded by whitespace, cleans to the block's body. |
| Analista.CleanReply | analista_ia.py:79 | The cleaned reply is never longer than the stripped reply. `CleanPlainReply` and `CleanFencedReply` state its two cases. |
| Analista.Classify | analista_ia.py:81-85 | An exception is the quota failure exactly when its lower-cased message contains "quota". Otherwise it is an API error carrying that message. |
| Analista.ClassifyIgnoresCase | analista_ia.py:82 | Classification does not depend on the letter case of the message. |
| Analista.QuotaFailureHalts | analista_ia.py:81-124 | The quota failure's text always triggers the halt test of the loop. |
| Analista.GenerateConfig | analista_ia.py:72-85 | A raised call, or a cleaned reply that fails to decode, gives the classification of its message. A decoded reply gives exactly the decoded value. Conversely, an inferred configuration is what `json.loads` made of the cleaned reply to the prompt built from the truncated prettified HTML. |
| Analista.SiteStepHaltsOnQuota | analista_ia.py:81-124 | When the model call on a fetched page raises, or its cleaned reply fails to decode, with a message containing "quota" in any case, the site halts the run with the quota failure. |
| Analista.SiteStepApiError | analista_ia.py:81-124 | Any other such message becomes an API error carrying it, which skips the site unless its text contains the quota text. |
| Analista.Accept | analista_ia.py:127-130 | A configuration is accepted exactly when it is a dict with a truthy `container_anuncio`. The accepted one has `url_busca` set to the site URL and keeps every other key and value. |
| Analista.SiteStepStores | analista_ia.py:108-130 | A site's stored configuration has a truthy container selector, and the host of its `url_busca` is the key it is stored under. |
| Analista.SiteStepAccepts | analista_ia.py:110-130 | On a fetched page, a site is stored exactly when the reply decodes to a configuration the gate accepts. What is stored is that accepted dict, with `url_busca` set to the URL. |
| Analista.SiteStep | analista_ia.py:108-134 | One site: a fetch error, an API error and an invalid configuration skip it, a halting error stops the run, an accepted configuration is stored. Its properties are `SiteStepAccepts`, `SiteStepStores`, `SiteStepHaltsOnQuota` and `SiteStepApiError`. |
| Analista.VisitSite | analista_ia.py:108-134 | The body of one loop iteration computes the site step `SiteStep`, whose cases `SiteStepAccepts`, `SiteStepStores`, `SiteStepHaltsOnQuota` and `SiteStepApiError` state. |
| Analista.SiteLines | analista_ia.py:97-98 | The site list entries are stripped and non-empty, and there are no more of them than lines. `SiteLine`, `SiteLinesConcat`, `SiteLinesFromLines` and `SiteLinesKeepsNonBlank` give the rest. |
| Analista.SiteLinesKeepsNonBlank | analista_ia.py:97-98 | Every line that is not blank appears, stripped, in the site list. |
| Analista.SiteLine | analista_ia.py:98 | One line gives its strip when that is non-blank, and nothing otherwise. |
| Analista.SiteLinesConcat | analista_ia.py:98 | The file is read line by line in order: the entries of two parts one after the other are the entries of their concatenation. |
| Analista.SiteLinesFromLines | analista_ia.py:98 | Every entry is the strip of some non-blank line of the file. |
| Analista.NewSitesMembers | analista_ia.py:100 | A site is pending exactly when it is listed and its host is not a key of the store at load. |
| Analista.NewSitesConcat | analista_ia.py:100 | The pending sites keep the list's order: selection distributes over concatenation. |
| Analista.NewSitesAllNew | analista_ia.py:100 | When no listed host is configured, every listed site is pending. |
| Analista.EmptyStoreProcessesAll | analista_ia.py:93-100 | With a missing or corrupt store, every non-blank site line is processed. |
| Analista.ProcessSites | analista_ia.py:108-134 | The `for` loop over the pending sites: it updates the map and the error list, and stops right after a halting failure. |
| Analista.Analyse | analista_ia.py:21-137 | The whole script, with its placeholder-key exit, its missing-site-list exit, its nothing-new exit and the loop. |
| Analista.ProcessKeepsOtherKeys | analista_ia.py:108-130 | An entry whose key is the host of no processed site leaves the loop unchanged. |
| Analista.ProcessWritesStored | analista_ia.py:127-130 | Each entry of the final map either was there before, or is the configuration that a processed site with that host stored. |
| Analista.ProcessKeepsUnwritten | analista_ia.py:108-130 | An entry that no site handled before the stop stores to is unchanged by the loop. |
| Analista.ProcessKeepsLastStore | analista_ia.py:120-130 | A configuration stored by a site handled before the stop, with no later handled site of the same host storing another, is in the final map under that host. This holds after a quota halt too. |
| Analista.Process | analista_ia.py:108-134 | The loop over the pending sites as a function. `ProcessKeepsOtherKeys`, `ProcessKeepsUnwritten`, `ProcessKeepsLastStore`, `ProcessWritesStored`, `ProcessStopsAtHalt`, `ProcessRecordsFailures` and `ProcessHaltsIff` state its properties. |
| Analista.ProcessStopsAtHalt | analista_ia.py:120-124 | The sites after the first halting one have no effect on the map or the errors. |
| Analista.ProcessRecordsFailures | analista_ia.py:108-134 | Each failing site handled before the halt (the halting one included) adds exactly its own error record, in order. A stored site adds none. |
| Analista.ProcessHaltsIff | analista_ia.py:120-124 | The run ends halted exactly when some site's failure halts. |
| Analista.ProcessedStore | analista_ia.py:100-130 | When no pending site's host is configured, the loop keeps every loaded entry. Every entry it adds is a valid configuration under the host of its `url_busca`. Every configuration a handled site stored, unless a later site of its host replaced it, is in the map. |
| Analista.SavedStore | analista_ia.py:100-137 | The saved map keeps every entry found at load untouched. It adds only valid configurations keyed by their own host. Every configuration accepted before the loop stopped, and not replaced by a later site of the same host, is saved under its host, including after a quota halt. |
| Extrator.BraceText | extrator_mestre.py:55 | There is no text to decode exactly when the reply has no `{`. Otherwise the text starts with `{` and ends with `}`. |
| Extrator.BraceTextEnclosed | extrator_mestre.py:55 | For a reply `a{b}c` with no `{` in `a` and no `}` in `c`, the text decoded is `{b}`: from the first `{` to the last `}` after it. |
| Extrator.BraceTextUnclosed | extrator_mestre.py:55 | For a reply `a{b` with no `}` after the first `{`, the text decoded is `{b}`. |
| Extrator.DetailsSkipsModel | extrator_mestre.py:33-35 | An empty or "N/I" description gives the empty map, whatever the model would reply. |
| Extrator.DetailsOfReply | extrator_mestre.py:53-58 | A reply that strips to `a{b}c` gives the dict that `json.loads` makes of `{b}`. When decoding fails, it gives the empty map. |
| Extrator.DetailsOfText | extrator_mestre.py:53-58 | The details are the fields of what `json.loads` makes of the brace text of the stripped reply. |
| Extrator.DetailsWithoutBrace | extrator_mestre.py:55-58 | A reply with no `{` gives the empty map: the IndexError is caught. |
| Extrator.DetailsOnRaise | extrator_mestre.py:53-58 | A model call that raises gives the empty map: the exception is caught. |
| Extrator.Details | extrator_mestre.py:33-58 | `extrair_detalhes_com_ia` as a function. `DetailsSkipsModel`, `DetailsOnRaise`, `DetailsWithoutBrace`, `DetailsOfText` and `DetailsOfReply` state its cases. |
| Extrator.SelectOne | extrator_mestre.py:95-104 | A field lookup raises exactly when its selector does not compile. |
| Extrator.Line | extrator_mestre.py:129-140 | Every report line is the domain, " - ", then the reason text. |
| Extrator.ListingDefaults | extrator_mestre.py:100-111 | A record's site is the host of `url_busca`. A missing address or price match gives "N/I", and so does a missing model key; a missing type gives "Não Especificado". A key the model gave, any of the seven, is kept. |
| Extrator.BuildListing | extrator_mestre.py:95-111 | One container's record, or the exception its selectors raise. `ListingDefaults`, `NoDescriptionNoDetails`, `BuildFaultIgnoresContainer`, `BuildFaultKinds` and `BuildSucceeds` state its properties. |
| Extrator.NoDescriptionNoDetails | extrator_mestre.py:95-109 | A container whose description matches nothing gets every model field as its placeholder. |
| Extrator.BuildFaultIgnoresContainer | extrator_mestre.py:95-104 | Whether a record's assembly raises depends only on the selectors, not on the container. |
| Extrator.BuildFaultKinds | extrator_mestre.py:133-140 | A record-assembly exception is a selector-syntax or unexpected error, never the reminder. |
| Extrator.BuildSucceeds | extrator_mestre.py:94-112 | When the three field selectors compile, no container raises. |
| Extrator.PageListings | extrator_mestre.py:94-112 | A page yields no more records than containers. It yields one for each exactly when no container raised. |
| Extrator.PageListingsInOrder | extrator_mestre.py:94-112 | Each container before the fault appends exactly its own record, in order. The fault is the one the next container raised. |
| Extrator.PageAllOrNothing | extrator_mestre.py:94-112 | A page that raises while assembling records appends none of them. |
| Extrator.ReadContainers | extrator_mestre.py:94-112 | The container loop computes the page's batch. |
| Extrator.SelectContainers | extrator_mestre.py:88-92 | Containers are selected exactly when `container_anuncio` exists and compiles. Otherwise a syntax or unexpected error is reported. |
| Extrator.ReadPage | extrator_mestre.py:82-92 | A listed page matched some container; a page with no containers matched none. |
| Extrator.ReadPageAt | extrator_mestre.py:82-112 | Scrolling, selecting and reading one page computes the page result. |
| Extrator.ReadPagesBounds | extrator_mestre.py:80-127 | The page loop reads at most three pages, reports at most one reason, and keeps the records already gathered. |
| Extrator.ReadPagesAdvance | extrator_mestre.py:80-127 | The loop reaches the next page only after a page listed without an exception, with pagination configured and a click that worked. It stops at a page without containers. |
| Extrator.ReadPagesCount | extrator_mestre.py:94-112 | The records added are at most the containers matched on the pages read. They equal that number when nothing but the reminder was reported. |
| Extrator.ReadPagesReminder | extrator_mestre.py:114-117 | With a next-page selector the reminder never appears. Without one, the loop stops after the current page, and the reminder is reported exactly when that page listed without an exception. |
| Extrator.ReadPagesStopsAtFault | extrator_mestre.py:80-140 | After clean pages, a page exception, a container exception or a failed click on page k ends the loop. Exactly that one reason is reported, and the records gathered so far (including page k's partial batch) are returned. |
| Extrator.ReadPagesQuiet | extrator_mestre.py:119-127 | A missing or unclickable next button ends pagination without an error entry. |
| Extrator.ReadPages | extrator_mestre.py:80-127 | The page loop as a function. `ReadPagesBounds`, `ReadPagesAdvance`, `ReadPagesCount`, `ReadPagesReminder`, `ReadPagesStopsAtFault` and `ReadPagesQuiet` state its properties. |
| Extrator.VisitBounds | extrator_mestre.py:80-140 | A visit reads at most three pages and reports at most one reason. Its records are at most the containers of the pages read, and equal them when nothing raised. |
| Extrator.VisitSites | extrator_mestre.py:60-111 | Every record of a visit carries the host of `url_busca`. |
| Extrator.VisitSite | extrator_mestre.py:60-140 | One site's visit: a load failure, or the page loop from the first page. `VisitBounds`, `VisitSites` and `LoadFailureReported` state its properties. |
| Extrator.ReminderWithoutPagination | extrator_mestre.py:114-117 | Without `proxima_pagina` only the first page is read. The one reminder is reported exactly when that page loaded and listed its records. |
| Extrator.QuietSessionReportsNoFault | extrator_mestre.py:114-140 | A session where no driver call raises and every selector compiles reports nothing but possibly the reminder. |
| Extrator.LoadFailureReported | extrator_mestre.py:76-140 | A page that fails to load yields no record and exactly one error; a timeout names the URL. |
| Extrator.ErrorLog.Add | extrator_mestre.py:129-140 | Appending to the caller's error list adds exactly that entry at the end. |
| Extrator.Entries | extrator_mestre.py:114-140 | Each reason of a site becomes one entry prefixed by the site's domain, in order. |
| Extrator.ExtractPage | extrator_mestre.py:80-127 | One pass of the page loop: whether it moves to the next page, the records so far, and the reason it reports. |
| Extrator.ExtractPages | extrator_mestre.py:80-140 | The page loop appends the visit's records and reports its reasons, domain-prefixed, to the caller's list. |
| Extrator.ExtractSite | extrator_mestre.py:60-144 | `extrair_dados_site` returns the visit's records, partial ones included when an exception ends the visit. It appends exactly the visit's reasons, domain-prefixed, to the caller's list. |
| Extrator.FileName | extrator_mestre.py:167 | A CSV name is "dados_", then the domain with each dot turned into an underscore and every other character kept, then ".csv". |
| Extrator.ExtractAll | extrator_mestre.py:146-168 | The main loop: nothing happens without a configuration file. Otherwise each configuration is processed in file order. |
| Extrator.ExtractUpTo | extrator_mestre.py:157-168 | The main loop after its first configurations, as a function. `FilesNonEmpty`, `FileWrittenIff`, `FileHoldsLast`, `InvalidConfigReported` and `ReportGrows` state its properties. |
| Extrator.FilesNonEmpty | extrator_mestre.py:165-168 | Every CSV written holds at least one record. |
| Extrator.FileWrittenIff | extrator_mestre.py:159-168 | A CSV is written exactly when some dict configuration whose key maps to its name yielded records. |
| Extrator.FileHoldsLast | extrator_mestre.py:163-168 | The last configuration that writes a CSV name decides that file's contents: the listings of its visit. |
| Extrator.InvalidConfigReported | extrator_mestre.py:159-161 | A configuration that is not a dict is reported under its key and writes no CSV. |
| Extrator.ReportGrows | extrator_mestre.py:157-163 | The report only grows, by at most one line per configuration. |
| Extrator.VisitsReportOnce | extrator_mestre.py:129-140 | Each site's visit reports at most one reason. |
| Busca.QueriesCarrySuffix | buscar_sites.py:35-39 | Every query names the quoted city and ends with the exclusion suffix. |
| Busca.Queries | buscar_sites.py:35-39 | There are three queries. `QueriesCarrySuffix` states their shape. |
| Busca.Reach | buscar_sites.py:46-62 | The results looked at are those up to the first one `urlparse` rejects. |
| Busca.QueryHostsIff | buscar_sites.py:47-57 | A host is collected from a query exactly when a looked-at result has that host and passes the filter. |
| Busca.QueryHosts | buscar_sites.py:47-57 | The hosts one query collects. `QueryHostsIff` and `Reach` state which. |
| Busca.Admits | buscar_sites.py:50-57 | The three filters on a result. `FoundInPasses` and `CollectedHostsPass` state that every collected host passes them. |
| Busca.CollectIff | buscar_sites.py:44-62 | A host is collected exactly when some query found it: an exception ending one query does not stop the later ones. |
| Busca.FoundInPasses | buscar_sites.py:50-57 | A host a query found is non-empty and not blocklisted, and its URL holds an include keyword. |
| Busca.CollectedHostsPass | buscar_sites.py:50-57 | Every collected host is non-empty and matches no blocklisted fragment. It came from a result URL whose lower-cased text holds an include keyword. |
| Busca.SortedOfCount | buscar_sites.py:42-70 | The sorted output lists each collected host exactly once. |
| Busca.SortHosts | buscar_sites.py:70 | `sorted` lists exactly the set's hosts, in strictly increasing order. |
| Busca.FileLines | buscar_sites.py:69-71 | Each output line is "https://" followed by its host, in order. |
| Busca.Discover | buscar_sites.py:28-71 | Without a city the script stops. Otherwise it returns the hosts collected by the three queries, sorted. |
| Consolidacao.ReadableUpTo | consolidar_dados.py:19-26 | There are no frames exactly when every file is unreadable. |
| Consolidacao.ReadableSkipsUnreadable | consolidar_dados.py:20-25 | An unreadable file is skipped, and the other files keep their order. |
| Consolidacao.Concat | consolidar_dados.py:28 | The concatenation has the union of the columns and as many rows as all frames together. Every row has every column. |
| Consolidacao.ConcatRows | consolidar_dados.py:28 | Row `j` of frame `i` sits at position `TotalRows(frames, i) + j` of the concatenation, widened to all columns with missing cells for the columns it lacked. The frames come one after the other, each in its own order. |
| Consolidacao.ConcatRowOrigin | consolidar_dados.py:28 | Every row of the concatenation is some frame's row, widened, at that frame's offset plus its own index. |
| Consolidacao.FirstsKeys | consolidar_dados.py:32 | Deduplication keeps exactly the set of keys of the input rows. |
| Consolidacao.FirstsDistinct | consolidar_dados.py:31-32 | After deduplication no two rows share (endereco, preco, site). |
| Consolidacao.FirstsKeepFirst | consolidar_dados.py:32 | Every kept row is an input row, and the first row of each key is kept. |
| Consolidacao.FirstsUpTo | consolidar_dados.py:32 | The rows `drop_duplicates` keeps, never more than the input. `FirstsKeys`, `FirstsDistinct` and `FirstsKeepFirst` state which. |
| Consolidacao.BackFillCells | consolidar_dados.py:36-38 | The column loop keeps every existing cell and leaves every final column present. A column the frame lacked reads "N/I". |
| Consolidacao.BackFill | consolidar_dados.py:36-38 | The column loop keeps the row count. `BackFillCells` states its cells. |
| Consolidacao.Finish | consolidar_dados.py:31-39 | The table is written exactly when the key columns exist. Its columns are the ten final ones in order, and it has no more rows than the input. |
| Consolidacao.ConsolidationSpec | consolidar_dados.py:11-45 | No file means an early exit. Only unreadable files means nothing to consolidate. A written table never has more rows than were read. |
| Consolidacao.Table.DropDuplicates | consolidar_dados.py:32 | `drop_duplicates` in place keeps, in order, the first row of each key. |
| Consolidacao.Table.SetColumn | consolidar_dados.py:38 | Assigning a column appends it when it is new, then sets it on every row. |
| Consolidacao.Table.Select | consolidar_dados.py:39 | Selecting the columns restricts every row to them, in the given order. |
| Consolidacao.FinishFrame | consolidar_dados.py:31-39 | The in-place work on the concatenated frame computes the finished table. |
| Consolidacao.Consolidate | consolidar_dados.py:11-45 | The script computes the consolidation of what was read. |
| Consolidacao.FinishedDistinct | consolidar_dados.py:31-32 | No two rows of the spreadsheet have the same address, price and site. |
| Consolidacao.FinishedCells | consolidar_dados.py:35-39 | Each final column's cell is the kept row's value when the column existed, and "N/I" otherwise. |
| Consolidacao.FinishedKeepsFirst | consolidar_dados.py:28-32 | The kept rows are input rows, the first of each key is kept, and every input key appears in the table. |
| Relatorio.PriceCharsFilter | gerar_relatorio_pdf.py:21 | The clean-up keeps exactly the digits, commas and dots. |
| Relatorio.PriceChars | gerar_relatorio_pdf.py:21 | The clean-up never lengthens the text. `PriceCharsFilter` states what it keeps. |
| Relatorio.Normalize | gerar_relatorio_pdf.py:21-24 | The normalised text has no comma, and only digits and dots. |
| Relatorio.ParseFloat | gerar_relatorio_pdf.py:25 | `float` succeeds exactly on text with a digit and at most one dot. |
| Relatorio.LimparValor | gerar_relatorio_pdf.py:16-27 | A missing value gives None. Text gives a price exactly when its normalisation is decimal text; it never raises. |
| Relatorio.ReadsBrazilianDecimal | gerar_relatorio_pdf.py:21-25 | "R$ 1.234,56" and its kind read as their value: the dot dropped, the comma as the decimal point. |
| Relatorio.ThousandsDotReadAsDecimal | gerar_relatorio_pdf.py:21-25 | As written, a dot with no comma is read as a decimal point. |
| Relatorio.ThousandsPriceFallsUnderFloor | gerar_relatorio_pdf.py:21-80 | As written, every price under a million written with a thousands dot and no cents falls under the 1000 floor. |
| Relatorio.MillionsRejected | gerar_relatorio_pdf.py:21-27 | As written, a price in the millions written with thousands dots and no cents is rejected. |
| Relatorio.CleanPrice | gerar_relatorio_pdf.py:21-25 | The corrected reading: a missing value gives None, text gives a price exactly when its normalisation is decimal text. |
| Relatorio.CleanPriceAgrees | gerar_relatorio_pdf.py:21-25 | The corrected reading agrees with `limpar_valor` except where the only separators are dots that group thousands. |
| Relatorio.ThousandsDotRead | gerar_relatorio_pdf.py:20-25 | The corrected reading takes "R$ 350.000" as 350000. |
| Relatorio.SwapExchanges | gerar_relatorio_pdf.py:61 | On text without 'X' the swap exchanges commas and dots and keeps every other character. |
| Relatorio.SwapInvolution | gerar_relatorio_pdf.py:61 | On text without 'X' the swap is an involution. |
| Relatorio.SwapSeparators | gerar_relatorio_pdf.py:61 | The swap keeps the length. `SwapExchanges` and `SwapInvolution` state what it does. |
| Relatorio.FormatarBrl | gerar_relatorio_pdf.py:59-61 | A missing value gives "N/A". A number gives "R$ ", then its rendering, separators swapped. |
| Relatorio.FormatarBrlUndone | gerar_relatorio_pdf.py:61 | A formatted amount starts with "R$ ", and swapping its separators back gives the rendered number. |
| Relatorio.BairroOf | gerar_relatorio_pdf.py:83 | A neighbourhood is missing exactly when the address is. It holds no comma and no surrounding whitespace. |
| Relatorio.BairroAfterLastComma | gerar_relatorio_pdf.py:83 | The neighbourhood is the segment after the last comma, stripped and title-cased. |
| Relatorio.Relabel | gerar_relatorio_pdf.py:87-89 | One pass gives the tag to a type cell that matches a pattern, case ignored. It leaves any other cell as it was, and a missing cell stays missing. |
| Relatorio.RelabelFirstMatch | gerar_relatorio_pdf.py:86-89 | After the fill, the three passes amount to a first-match rule: "Terreno"/"Lote" first, then "Casa", then "Apartamento". |
| Relatorio.Category | gerar_relatorio_pdf.py:86-89 | The first-match rule on a type cell. `RelabelFirstMatch` proves the three passes equal it, and `MissingTypeUnspecified` the missing case. |
| Relatorio.MissingTypeUnspecified | gerar_relatorio_pdf.py:86-89 | An offer without a type ends up "Não Especificado". |
| Relatorio.Sheet.constructor | gerar_relatorio_pdf.py:76 | The frame starts as the spreadsheet rows with no derived column. |
| Relatorio.Sheet.AddPrices | gerar_relatorio_pdf.py:78 | Every row gets its price text read by the given reader; the program's reader is `LimparValor`. |
| Relatorio.Sheet.DropUnpriced | gerar_relatorio_pdf.py:79 | The rows without a price go, in place. |
| Relatorio.Sheet.KeepAboveFloor | gerar_relatorio_pdf.py:80 | Only rows priced strictly above 1000 remain. |
| Relatorio.Sheet.AddBairros | gerar_relatorio_pdf.py:83 | Every row gets its neighbourhood. |
| Relatorio.Sheet.FillTypes | gerar_relatorio_pdf.py:86 | A missing type becomes "Não Especificado". |
| Relatorio.Sheet.RelabelTypes | gerar_relatorio_pdf.py:87-89 | One relabelling pass over every row. |
| Relatorio.WhereStronger | gerar_relatorio_pdf.py:79-80 | Dropping unpriced rows and then the cheap ones is dropping the cheap ones. |
| Relatorio.OffersIff | gerar_relatorio_pdf.py:78-89 | For any price reader, `LimparValor` as written included: an offer is in the report exactly when it is a listing whose price reads above the floor, with its neighbourhood and category derived. |
| Relatorio.OffersAboveFloor | gerar_relatorio_pdf.py:78-89 | For any price reader, `LimparValor` as written included: every offer in the report has a price above 1000 read from its own text by that reader, a filled type, and its address's neighbourhood. |
| Relatorio.OffersAppend | gerar_relatorio_pdf.py:78-89 | The offers of two runs of listings are the offers of each, in order. |
| Relatorio.Offers | gerar_relatorio_pdf.py:78-89 | The report's offers, never more than the listings. `OffersIff`, `OffersAboveFloor`, `OffersAppend` and `Prepare` state them. |
| Relatorio.ThousandsListingDropped | gerar_relatorio_pdf.py:78-80 | As written, a listing priced like "R$ 350.000" adds no offer to the report. |
| Relatorio.MillionsListingDropped | gerar_relatorio_pdf.py:78-80 | As written, a listing priced like "R$ 1.500.000" adds no offer to the report. |
| Relatorio.ThousandsListingKept | gerar_relatorio_pdf.py:78-80 | With the corrected reading, such a listing above the floor is kept as the last offer, priced in thousands. |
| Relatorio.Prepare | gerar_relatorio_pdf.py:76-89 | For any price reader, the in-place preparation yields exactly the report's offers under that reader, in spreadsheet order. The program is the preparation with `LimparValor`. |
| Relatorio.CountIn | gerar_relatorio_pdf.py:93 | A count is zero exactly when no offer lies in that neighbourhood. |
| Relatorio.Groups | gerar_relatorio_pdf.py:93 | There is one group per neighbourhood present, with its positive count; offers without a neighbourhood are dropped. |
| Relatorio.Rank | gerar_relatorio_pdf.py:93 | The ranking lists min(10, groups) distinct groups with their counts, counts not increasing. No group left out has more offers than one listed. |
| Relatorio.TopBairros | gerar_relatorio_pdf.py:93 | The neighbourhood table is the top ten of the groups by count, descending. |

## Left out

- **I/O:** reading and writing the text, JSON, CSV and Excel files,
  `os.path.exists`, `glob`, `os.makedirs`, and the report files. Stored
  data is an in-memory map or sequence, and each error report is the
  sequence of its lines.
- **Foreign libraries:** Selenium and its timeouts, `driver.quit`,
  `requests`, Google search, Gemini (prompt wording, model construction,
  `genai.configure`), BeautifulSoup/soupsieve matching and `prettify`, and
  `urlparse`. Each is an input or a parameter of the model. The generated
  prompt text beyond the truncated HTML is not modelled.
- **Delays and console output:** `time.sleep` and every `print`. Neither
  changes any outcome.
- **The API-key warning of `extrator_mestre.py`:** it only prints. The
  placeholder key is modelled where it changes behaviour: the enrichment
  skip in the extractor and the exit at the start of the inference driver.
- **Model construction in the extractor:** `extrator_mestre.py` creates
  the description model outside its `try`. A failure there propagates into
  the page loop's generic handler, but the model treats every model failure
  as an empty reply.
- **Exits before the modelled work:** the browser start-up, the
  configuration file's `json.load` failing, and a top level that is not a
  dict (the extractor takes its `(key, config)` items as given). Also
  `urlparse` of a `url_busca` that is neither a string nor missing.
- **Inputs not modelled:** the city argument and the Excel-file existence test of
  the report; the report's timestamped header.
- **Report output:** the PDF layout, the chart, the per-category
  mean/max/min table, and the overall mean. These are floating-point
  aggregates and layout, not decisions.
- **Float:** `limpar_valor`'s `float` is modelled as an exact decimal
  (`Decimal`), not a binary float. The character clean-up drops letters
  and signs, so `float` only ever sees digits and dots.
- Relatorio.PriceCharsFilter, Relatorio.LimparValor: digits are ASCII only;
  Python's `\d` and `float` also accept other Unicode decimal digits (such as
  full-width "３５００"), which the model drops, so such a price reads as
  None instead of a number.
- **pandas typing:** dtype inference is not modelled, neither by
  `read_csv` in the consolidation nor by `read_excel` in the report. Every
  cell is text or missing. In the report, a price column read as numbers
  is passed as text, and a type cell that is not text is treated as not
  matching by the `na=False` lookups. In the consolidation, inference can
  change the deduplication keys, because pandas treats the number `350000`
  and the text `"350000"` as different values, while the model compares
  the cells' text.
- **pandas version:** `Relatorio.Sheet.FillTypes` assumes that the chained
  `fillna(..., inplace=True)` on the `tipo` column writes back into the
  frame, as it does in pandas 1.x and 2.x without Copy-on-Write. Under
  pandas 3.0 Copy-on-Write it does not, and missing types stay missing.
- **Reading the configuration store (`analista_ia.py`):** two cases are
  not modelled. First, a decoded store whose top level is not an object:
  storing a configuration into it raises `TypeError`. Second, a file that is
  not valid UTF-8: the `UnicodeDecodeError` is not a `JSONDecodeError`, so it
  escapes the handler. The model covers only a missing file, a corrupt
  JSON text and a decoded object.
- **Consolidacao.Finish:** a missing key column, which makes
  `drop_duplicates` raise `KeyError` and end the script, is the
  `MissingKeyColumn` outcome.
- **Relatorio.Rank:** the order among neighbourhoods with equal counts is
  left open, because `sort_values` does not specify it.
- **Relatorio.FormatarBrl:** the `:,.2f` rendering of the number is a
  parameter, so only the "R$ " prefix, the "N/A" case and the separator swap
  are stated.
- **Text.Lower and Text.Title:** they map ASCII and Latin-1 letters only,
  with ª and º counted as cased but having no other case.
  Python's full Unicode case mapping is not modelled.
- **Relabelling precedence:** the three `tipo` passes each test the
  already relabelled column. The effective rule is therefore the first match
  ("Terreno"/"Lote", then "Casa", then "Apartamento"), not a last-pass-wins
  order.
- **Relatorio.Prepare:** it takes the price reader as a parameter.
  `Prepare(listings, LimparValor)` is the program as written, and
  `Prepare(listings, CleanPrice)` is the corrected preparation described
  under Findings. The lemmas about the offers hold for both.

## Findings

| source | as written | input that shows it | evidently intended | confidence | as-written member | corrected member |
|---|---|---|---|---|---|---|
| gerar_relatorio_pdf.py:20-25 | Dots are removed only when a comma is also present, so a lone dot is taken as a decimal point | "R$ 350.000" reads as 350 and falls under the 1000 floor; "R$ 1.500.000" reads as None | Dots that group thousands are removed, so "R$ 350.000" reads as 350000 | not executed | Relatorio.ThousandsDotReadAsDecimal, Relatorio.ThousandsPriceFallsUnderFloor, Relatorio.MillionsRejected, Relatorio.ThousandsListingDropped, Relatorio.MillionsListingDropped | Relatorio.CleanPrice, Relatorio.ThousandsDotRead, Relatorio.ThousandsListingKept |
