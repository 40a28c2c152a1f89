/** The selector-configuration inference driver (analista_ia.py).

    Foreign capabilities are parameters: `host` is `urlparse(url).netloc`,
    `fetch` is the HTTP GET of a site, `prettify` is BeautifulSoup's cleaning
    and `prettify()`, `ask` is the Gemini call on the prompt built from the
    truncated HTML, and `parse` is `json.loads`. */
module Analista {
  import opened Wrappers
  import opened Text
  import opened Json
  import opened Gemini

  /** At most this many characters of cleaned HTML reach the prompt. */
  const PromptHtmlBudget: nat := 15000
  /** The text of the quota error; its presence in an error halts the run. */
  const QuotaExceededText := "Cota da API excedida"

  /** What the configuration store file holds when the run starts. */
  datatype StoredFile = Absent | Corrupt | Decoded(configs: map<string, Json>)

  /** Result of fetching a site's HTML (`buscar_html_da_pagina`). */
  datatype Fetch = Page(html: string) | FetchFailed(detail: string)

  /** The foreign capabilities the driver calls. */
  datatype Oracles = Oracles(
    host: string -> string,
    fetch: string -> Fetch,
    prettify: string -> string,
    ask: string -> ModelCall,
    parse: string -> ParseOutcome,
    show: Json -> string)

  /** Why a site produced no configuration. */
  datatype Failure =
    | FetchError(detail: string)
    | QuotaExceeded
    | ApiError(detail: string)
    | InvalidConfig(reply: Json)
  {
    /** The reason text written after "site - " in the error report;
        `show` is Python's `str()` of a decoded value. */
    function Text(show: Json -> string): string {
      match this
      case FetchError(d) => "Erro ao buscar a URL: " + d
      case QuotaExceeded => QuotaExceededText
      case ApiError(d) => "Erro ao comunicar com a API: " + d
      case InvalidConfig(reply) => "A IA não retornou uma configuração válida. Resposta: " + show(reply)
    }
  }

  /** One line of the error report: the site URL and the reason. */
  datatype ErrorRecord = ErrorRecord(site: string, failure: Failure)

  /** `carregar_configuracoes_existentes`: a missing or undecodable file is an empty store. */
  function LoadExisting(f: StoredFile): (m: map<string, Json>)
    ensures f.Decoded? ==> m == f.configs
    ensures !f.Decoded? ==> m == map[]
  {
    if f.Decoded? then f.configs else map[]
  }

  /** The HTML part of the prompt: the first 15000 characters of the prettified page. */
  function PromptHtml(pretty: string): (r: string)
    ensures |r| <= PromptHtmlBudget
    ensures |r| <= |pretty| && r == pretty[..|r|]
    ensures |pretty| <= PromptHtmlBudget ==> r == pretty
  {
    Truncate(pretty, PromptHtmlBudget)
  }

  /** The reply cleaning: strip, then drop every "```json", then every "```". */
  function CleanReply(text: string): (r: string)
    ensures |r| <= |Strip(text)|
  {
    RemoveAll(RemoveAll(Strip(text), "```json"), "```")
  }

  /** A reply without backticks is only stripped. */
  lemma CleanPlainReply(text: string)
    requires '`' !in Strip(text)
    ensures CleanReply(text) == Strip(text)
  {
    RemoveAllAbsent(Strip(text), "```json");
    RemoveAllAbsent(Strip(text), "```");
  }

  /** A reply fenced as a JSON code block, possibly surrounded by whitespace,
      cleans to the block's body between the two line breaks. */
  lemma CleanFencedReply(before: string, body: string, after: string)
    requires forall k :: 0 <= k < |before| ==> IsSpace(before[k])
    requires forall k :: 0 <= k < |after| ==> IsSpace(after[k])
    requires '`' !in body
    ensures CleanReply(before + "```json\n" + body + "\n```" + after) == "\n" + body + "\n"
  {
    var rest := "\n" + body + "\n";
    var fenced := "```json" + rest + "```";
    FencedShape(before, body, after);
    assert fenced[0] == '`' && fenced[|fenced| - 1] == '`';
    StripSurrounded(before, fenced, after);
    DropJsonFence(rest);
    DropBareFence(rest);
  }

  lemma FencedShape(before: string, body: string, after: string)
    ensures before + "```json\n" + body + "\n```" + after == before + ("```json" + ("\n" + body + "\n") + "```") + after
  {
  }

  lemma DropJsonFence(rest: string)
    requires '`' !in rest
    ensures RemoveAll("```json" + rest + "```", "```json") == rest + "```"
  {
    var fenced := "```json" + rest + "```";
    assert StartsWith(fenced, "```json");
    assert fenced[|"```json"|..] == rest + "```";
    RemoveAllKeepsPrefix(rest, "```", "```json");
    ShortFenceKept();
  }

  lemma ShortFenceKept()
    ensures RemoveAll("```", "```json") == "```"
  {
    assert !StartsWith("```", "```json");
    assert !StartsWith("``", "```json");
    assert !StartsWith("`", "```json");
    assert "```"[1..] == "``" && "``"[1..] == "`" && "`"[1..] == [];
  }

  lemma DropBareFence(rest: string)
    requires '`' !in rest
    ensures RemoveAll(rest + "```", "```") == rest
  {
    RemoveAllKeepsPrefix(rest, "```", "```");
    assert StartsWith("```", "```");
    assert "```"[3..] == [];
    assert rest + [] == rest;
  }

  /** The exception classification of `gerar_configuracao_com_ia`: "quota",
      in any letter case, means the quota is exhausted; any other message is
      an API error carrying that message. */
  function Classify(message: string): (f: Failure)
    ensures f == QuotaExceeded <==> Contains(Lower(message), "quota")
    ensures f != QuotaExceeded ==> f == ApiError(message)
  {
    if Contains(Lower(message), "quota") then QuotaExceeded else ApiError(message)
  }

  /** Lower-casing is idempotent, so the classification ignores letter case. */
  lemma ClassifyIgnoresCase(message: string)
    ensures Classify(Lower(message)).QuotaExceeded? == Classify(message).QuotaExceeded?
  {
    assert Lower(Lower(message)) == Lower(message);
  }

  /** A failure that stops the run: its text mentions the quota error. */
  predicate Halts(f: Failure, show: Json -> string) {
    Contains(f.Text(show), QuotaExceededText)
  }

  /** A quota failure always halts the run. */
  lemma QuotaFailureHalts(show: Json -> string)
    ensures Halts(QuotaExceeded, show)
  {
    assert OccursAt(QuotaExceededText, QuotaExceededText, 0);
  }

  /** The result of asking the model for a configuration. */
  datatype Inference = Inferred(config: Json) | InferenceFailed(failure: Failure)

  /** `gerar_configuracao_com_ia`: the model sees the truncated cleaned HTML;
      a raised call or an undecodable cleaned reply is classified. */
  function GenerateConfig(html: string, o: Oracles): (r: Inference)
    ensures r.InferenceFailed? ==> r.failure.QuotaExceeded? || r.failure.ApiError?
    ensures r.Inferred? ==> exists text :: o.ask(PromptHtml(o.prettify(html))) == Reply(text)
                                            && o.parse(CleanReply(text)) == Parsed(r.config)
    ensures o.ask(PromptHtml(o.prettify(html))).Raised? ==>
      r == InferenceFailed(Classify(o.ask(PromptHtml(o.prettify(html))).message))
    ensures forall t, m :: o.ask(PromptHtml(o.prettify(html))) == Reply(t) && o.parse(CleanReply(t)) == ParseError(m) ==>
      r == InferenceFailed(Classify(m))
    ensures forall t, v :: o.ask(PromptHtml(o.prettify(html))) == Reply(t) && o.parse(CleanReply(t)) == Parsed(v) ==>
      r == Inferred(v)
  {
    match o.ask(PromptHtml(o.prettify(html)))
    case Raised(m) => InferenceFailed(Classify(m))
    case Reply(text) =>
      match o.parse(CleanReply(text))
      case Parsed(v) => Inferred(v)
      case ParseError(m) => InferenceFailed(Classify(m))
  }

  /** The validation gate: a dict with a truthy `container_anuncio` is stored,
      with `url_busca` set to the site URL and every other key kept. */
  function Accept(config: Json, url: string): (r: Option<map<string, Json>>)
    ensures r.Some? <==> config.JObject? && Truthy(Get(config.fields, "container_anuncio", JNull))
    ensures r.Some? ==> "container_anuncio" in r.value && Truthy(r.value["container_anuncio"])
    ensures r.Some? ==> "url_busca" in r.value && r.value["url_busca"] == JString(url)
    ensures r.Some? ==> r.value.Keys == config.fields.Keys + {"url_busca"}
    ensures r.Some? ==> forall k :: k in config.fields && k != "url_busca" ==> r.value[k] == config.fields[k]
  {
    if config.JObject? && Truthy(Get(config.fields, "container_anuncio", JNull)) then
      Some(config.fields["url_busca" := JString(url)])
    else None
  }

  /** What a stored configuration looks like under key `domain`: a truthy
      container selector and a `url_busca` whose host is the key. */
  predicate StoredFor(c: Json, domain: string, host: string -> string) {
    c.JObject? && "container_anuncio" in c.fields && Truthy(c.fields["container_anuncio"])
    && "url_busca" in c.fields && c.fields["url_busca"].JString? && host(c.fields["url_busca"].s) == domain
  }

  /** What one site contributes. */
  datatype Step = Store(config: map<string, Json>) | Skip(failure: Failure) | Halt(failure: Failure)

  /** One iteration of the main loop for `url`: fetch, infer, validate. */
  function SiteStep(url: string, o: Oracles): Step {
    match o.fetch(url)
    case FetchFailed(d) => Skip(FetchError(d))
    case Page(html) =>
      match GenerateConfig(html, o)
      case InferenceFailed(f) => if Halts(f, o.show) then Halt(f) else Skip(f)
      case Inferred(v) =>
        match Accept(v, url)
        case Some(c) => Store(c)
        case None => Skip(InvalidConfig(v))
  }

  /** The per-site step as a function of the URL. */
  function StepOf(o: Oracles): string -> Step {
    url => SiteStep(url, o)
  }

  /** A stored configuration is valid and keyed by its own host. */
  lemma SiteStepStores(url: string, o: Oracles)
    ensures SiteStep(url, o).Store? ==> StoredFor(JObject(SiteStep(url, o).config), o.host(url), o.host)
  {
  }

  /** From a raised or undecodable reply to the loop's halt: when the model
      call on a fetched page raises, or its cleaned reply fails to decode,
      with a message mentioning "quota" in any letter case, the site halts
      the run with the quota failure. */
  lemma SiteStepHaltsOnQuota(url: string, o: Oracles, html: string, m: string)
    requires o.fetch(url) == Page(html)
    requires o.ask(PromptHtml(o.prettify(html))) == Raised(m)
             || (o.ask(PromptHtml(o.prettify(html))).Reply?
                 && o.parse(CleanReply(o.ask(PromptHtml(o.prettify(html))).text)) == ParseError(m))
    requires Contains(Lower(m), "quota")
    ensures SiteStep(url, o) == Halt(QuotaExceeded)
  {
    QuotaFailureHalts(o.show);
  }

  /** Any other message is an API error carrying it, which skips the site
      unless its report text happens to contain the quota text. */
  lemma SiteStepApiError(url: string, o: Oracles, html: string, m: string)
    requires o.fetch(url) == Page(html)
    requires o.ask(PromptHtml(o.prettify(html))) == Raised(m)
             || (o.ask(PromptHtml(o.prettify(html))).Reply?
                 && o.parse(CleanReply(o.ask(PromptHtml(o.prettify(html))).text)) == ParseError(m))
    requires !Contains(Lower(m), "quota")
    ensures SiteStep(url, o) == if Halts(ApiError(m), o.show) then Halt(ApiError(m)) else Skip(ApiError(m))
  {
  }

  /** On a fetched page, the site is stored exactly when the model's reply
      decodes to a configuration the validation gate accepts, and what is
      stored is the accepted dict, `url_busca` included. */
  lemma SiteStepAccepts(url: string, o: Oracles, html: string)
    requires o.fetch(url) == Page(html)
    ensures SiteStep(url, o).Store? <==>
      GenerateConfig(html, o).Inferred? && Accept(GenerateConfig(html, o).config, url).Some?
    ensures SiteStep(url, o).Store? ==> SiteStep(url, o).config == Accept(GenerateConfig(html, o).config, url).value
  {
  }

  /** The body of one loop iteration, as the script runs it. */
  method VisitSite(url: string, o: Oracles) returns (step: Step)
    ensures step == SiteStep(url, o)
  {
    var fetched := o.fetch(url);
    if fetched.FetchFailed? {
      return Skip(FetchError(fetched.detail));
    }
    var inference := GenerateConfig(fetched.html, o);
    if inference.InferenceFailed? {
      if Halts(inference.failure, o.show) {
        return Halt(inference.failure);
      }
      return Skip(inference.failure);
    }
    var accepted := Accept(inference.config, url);
    if accepted.Some? {
      step := Store(accepted.value);
    } else {
      step := Skip(InvalidConfig(inference.config));
    }
  }

  /** The loop's state: the configuration map, the error list, and whether it stopped. */
  datatype Progress = Progress(configs: map<string, Json>, errors: seq<ErrorRecord>, halted: bool)

  /** The main loop over the new sites, in order, writing each stored
      configuration under its site's host and stopping after a halting failure. */
  function Process(sites: seq<string>, p: Progress, step: string -> Step, host: string -> string): Progress
    decreases |sites|
  {
    if sites == [] then p
    else
      var url := sites[0];
      match step(url)
      case Store(c) => Process(sites[1..], p.(configs := p.configs[host(url) := JObject(c)]), step, host)
      case Skip(f) => Process(sites[1..], p.(errors := p.errors + [ErrorRecord(url, f)]), step, host)
      case Halt(f) => p.(errors := p.errors + [ErrorRecord(url, f)], halted := true)
  }

  /** The lines of the site list: stripped, blank ones dropped. */
  function SiteLines(lines: seq<string>): (r: seq<string>)
    ensures |r| <= |lines|
    ensures forall i :: 0 <= i < |r| ==> r[i] != [] && Strip(r[i]) == r[i]
  {
    if lines == [] then []
    else
      var rest := SiteLines(lines[1..]);
      StripIdempotent(lines[0]);
      if Strip(lines[0]) != [] then [Strip(lines[0])] + rest else rest
  }

  /** A single line contributes its strip when that is non-blank, and nothing otherwise. */
  lemma SiteLine(l: string)
    ensures SiteLines([l]) == if Strip(l) != [] then [Strip(l)] else []
  {
    assert [l][1..] == [];
  }

  /** The list is read line by line, in order: reading two parts one after
      the other is reading their concatenation. */
  lemma {:induction false} SiteLinesConcat(a: seq<string>, b: seq<string>)
    ensures SiteLines(a + b) == SiteLines(a) + SiteLines(b)
    decreases |a|
  {
    if a == [] {
      assert a + b == b;
    } else {
      assert (a + b)[0] == a[0] && (a + b)[1..] == a[1..] + b;
      SiteLinesConcat(a[1..], b);
    }
  }

  /** Every entry is the strip of some non-blank line of the file. */
  lemma {:induction false} SiteLinesFromLines(lines: seq<string>, x: string)
    requires x in SiteLines(lines)
    ensures exists l :: l in lines && Strip(l) != [] && x == Strip(l)
    decreases |lines|
  {
    if Strip(lines[0]) != [] && x == Strip(lines[0]) {
      assert lines[0] in lines;
    } else {
      SiteLinesFromLines(lines[1..], x);
      var l :| l in lines[1..] && Strip(l) != [] && x == Strip(l);
      assert l in lines;
    }
  }

  /** No non-blank line is lost. */
  lemma {:induction false} SiteLinesKeepsNonBlank(lines: seq<string>, l: string)
    requires l in lines && Strip(l) != []
    ensures Strip(l) in SiteLines(lines)
    decreases |lines|
  {
    if lines[0] != l {
      SiteLinesKeepsNonBlank(lines[1..], l);
    }
  }

  /** `[x for x in xs if keep(x)]`. */
  function Keep<T>(xs: seq<T>, keep: T -> bool): (r: seq<T>)
    ensures |r| <= |xs|
    decreases |xs|
  {
    if xs == [] then [] else (if keep(xs[0]) then [xs[0]] else []) + Keep(xs[1..], keep)
  }

  /** An element is kept exactly when it is there and passes the test. */
  lemma {:induction false} KeepMembers<T>(xs: seq<T>, keep: T -> bool)
    ensures forall x :: x in Keep(xs, keep) <==> x in xs && keep(x)
    decreases |xs|
  {
    if xs != [] {
      KeepMembers(xs[1..], keep);
      assert forall x :: x in xs <==> x == xs[0] || x in xs[1..];
    }
  }

  /** Filtering keeps input order: it distributes over concatenation. */
  lemma {:induction false} KeepConcat<T>(a: seq<T>, b: seq<T>, keep: T -> bool)
    ensures Keep(a + b, keep) == Keep(a, keep) + Keep(b, keep)
    decreases |a|
  {
    if a == [] {
      assert a + b == b;
    } else {
      assert (a + b)[0] == a[0] && (a + b)[1..] == a[1..] + b;
      KeepConcat(a[1..], b, keep);
      var h := if keep(a[0]) then [a[0]] else [];
      var x, y := Keep(a[1..], keep), Keep(b, keep);
      assert Keep(a + b, keep) == h + (x + y);
      assert h + (x + y) == (h + x) + y;
    }
  }

  /** When every element passes, nothing is dropped. */
  lemma {:induction false} KeepAll<T>(xs: seq<T>, keep: T -> bool)
    requires forall x :: x in xs ==> keep(x)
    ensures Keep(xs, keep) == xs
    decreases |xs|
  {
    if xs != [] {
      assert forall x :: x in xs[1..] ==> x in xs;
      KeepAll(xs[1..], keep);
    }
  }

  /** The test a site passes to be processed: its host is not yet a key of the store. */
  function Unconfigured(configs: map<string, Json>, host: string -> string): string -> bool {
    s => host(s) !in configs
  }

  /** `sites_novos`: the sites whose host is not yet a key of the store. */
  function NewSites(sites: seq<string>, configs: map<string, Json>, host: string -> string): seq<string> {
    Keep(sites, Unconfigured(configs, host))
  }

  /** A site is pending exactly when it is listed and its host is not yet configured. */
  lemma NewSitesMembers(sites: seq<string>, configs: map<string, Json>, host: string -> string)
    ensures forall s :: s in NewSites(sites, configs, host) <==> s in sites && host(s) !in configs
  {
    KeepMembers(sites, Unconfigured(configs, host));
  }

  /** The pending sites keep the order of the list: selecting from two lists
      one after the other is selecting from their concatenation. */
  lemma NewSitesConcat(a: seq<string>, b: seq<string>, configs: map<string, Json>, host: string -> string)
    ensures NewSites(a + b, configs, host) == NewSites(a, configs, host) + NewSites(b, configs, host)
  {
    KeepConcat(a, b, Unconfigured(configs, host));
  }

  /** With no listed host configured, every listed site is pending. */
  lemma NewSitesAllNew(sites: seq<string>, configs: map<string, Json>, host: string -> string)
    requires forall s :: s in sites ==> host(s) !in configs
    ensures NewSites(sites, configs, host) == sites
  {
    KeepAll(sites, Unconfigured(configs, host));
  }

  /** What a run of the script produces. */
  datatype Run =
    | PlaceholderKey                         // stops before anything else
    | NoSiteList                             // the site list file does not exist
    | NothingNew(loaded: map<string, Json>)  // nothing to do; the store is not rewritten
    | Finished(saved: map<string, Json>, errors: seq<ErrorRecord>, halted: bool)

  /** The error report file is written only when some site failed. */
  predicate WritesErrorReport(r: Run) {
    r.Finished? && r.errors != []
  }

  /** The sites the loop runs over. */
  function PendingSites(siteFile: seq<string>, stored: StoredFile, host: string -> string): seq<string> {
    NewSites(SiteLines(siteFile), LoadExisting(stored), host)
  }

  /** The whole script as a function of its inputs. */
  function AnalysisSpec(siteFile: Option<seq<string>>, stored: StoredFile, apiKey: Option<string>, o: Oracles): Run {
    if apiKey == Some(KeyPlaceholder) then PlaceholderKey
    else if siteFile.None? then NoSiteList
    else
      var pending := PendingSites(siteFile.value, stored, o.host);
      if pending == [] then NothingNew(LoadExisting(stored))
      else
        var p := Process(pending, Progress(LoadExisting(stored), [], false), StepOf(o), o.host);
        Finished(p.configs, p.errors, p.halted)
  }

  /** The `__main__` block: load the store, select the new sites, and run the
      inference loop over them. */
  method Analyse(siteFile: Option<seq<string>>, stored: StoredFile, apiKey: Option<string>, o: Oracles)
    returns (run: Run)
    ensures run == AnalysisSpec(siteFile, stored, apiKey, o)
  {
    if apiKey == Some(KeyPlaceholder) {
      return PlaceholderKey;
    }
    if siteFile.None? {
      return NoSiteList;
    }
    var configs := LoadExisting(stored);
    var sites := SiteLines(siteFile.value);
    var pending := NewSites(sites, configs, o.host);
    if pending == [] {
      return NothingNew(configs);
    }
    var p := ProcessSites(pending, configs, o);
    run := Finished(p.configs, p.errors, p.halted);
  }

  /** The `for` loop over the new sites, updating the map and the error list
      and breaking out after a halting failure. */
  method ProcessSites(pending: seq<string>, loaded: map<string, Json>, o: Oracles) returns (p: Progress)
    ensures p == Process(pending, Progress(loaded, [], false), StepOf(o), o.host)
  {
    var configs := loaded;
    var errors: seq<ErrorRecord> := [];
    var i := 0;
    while i < |pending|
      invariant 0 <= i <= |pending|
      invariant Process(pending, Progress(loaded, [], false), StepOf(o), o.host)
             == Process(pending[i..], Progress(configs, errors, false), StepOf(o), o.host)
    {
      var url := pending[i];
      assert pending[i..][0] == url && pending[i..][1..] == pending[i + 1..];
      var step := VisitSite(url, o);
      assert step == StepOf(o)(url);
      match step {
        case Store(c) =>
          configs := configs[o.host(url) := JObject(c)];
        case Skip(f) =>
          errors := errors + [ErrorRecord(url, f)];
        case Halt(f) =>
          errors := errors + [ErrorRecord(url, f)];
          return Progress(configs, errors, true);
      }
      i := i + 1;
    }
    p := Progress(configs, errors, false);
  }

  // ---------------------------------------------------------------------
  // Properties of the loop

  /** An entry whose key no processed site maps to is left as it was. */
  lemma {:induction false} ProcessKeepsOtherKeys(sites: seq<string>, p: Progress, step: string -> Step, host: string -> string, k: string)
    requires k in p.configs
    requires forall s :: s in sites ==> host(s) != k
    ensures k in Process(sites, p, step, host).configs
    ensures Process(sites, p, step, host).configs[k] == p.configs[k]
    decreases |sites|
  {
    if sites != [] {
      var url := sites[0];
      assert forall s :: s in sites[1..] ==> s in sites;
      match step(url)
      case Store(c) => ProcessKeepsOtherKeys(sites[1..], p.(configs := p.configs[host(url) := JObject(c)]), step, host, k);
      case Skip(f) => ProcessKeepsOtherKeys(sites[1..], p.(errors := p.errors + [ErrorRecord(url, f)]), step, host, k);
      case Halt(f) =>
    }
  }

  /** Every entry of the final map was there before, or is the configuration
      stored by a processed site whose host is its key. */
  lemma {:induction false} ProcessWritesStored(sites: seq<string>, p: Progress, step: string -> Step, host: string -> string, k: string)
    requires k in Process(sites, p, step, host).configs
    ensures (k in p.configs && Process(sites, p, step, host).configs[k] == p.configs[k])
            || exists i :: 0 <= i < |sites| && host(sites[i]) == k && step(sites[i]).Store?
                           && Process(sites, p, step, host).configs[k] == JObject(step(sites[i]).config)
    decreases |sites|
  {
    if sites != [] {
      var url := sites[0];
      var r := Process(sites, p, step, host);
      match step(url)
      case Store(c) =>
        var q := p.(configs := p.configs[host(url) := JObject(c)]);
        ProcessWritesStored(sites[1..], q, step, host, k);
        if k in q.configs && r.configs[k] == q.configs[k] {
          if k == host(url) {
            assert host(sites[0]) == k && step(sites[0]).Store? && r.configs[k] == JObject(step(sites[0]).config);
          }
        } else {
          var i :| 0 <= i < |sites[1..]| && host(sites[1..][i]) == k && step(sites[1..][i]).Store?
                   && r.configs[k] == JObject(step(sites[1..][i]).config);
          assert sites[1..][i] == sites[i + 1];
        }
      case Skip(f) =>
        var q := p.(errors := p.errors + [ErrorRecord(url, f)]);
        ProcessWritesStored(sites[1..], q, step, host, k);
        if !(k in q.configs && r.configs[k] == q.configs[k]) {
          var i :| 0 <= i < |sites[1..]| && host(sites[1..][i]) == k && step(sites[1..][i]).Store?
                   && r.configs[k] == JObject(step(sites[1..][i]).config);
          assert sites[1..][i] == sites[i + 1];
        }
      case Halt(f) =>
    }
  }

  /** An entry that no handled site stores to is left as it was. */
  lemma {:induction false} ProcessKeepsUnwritten(sites: seq<string>, p: Progress, step: string -> Step, host: string -> string, k: string)
    requires k in p.configs
    requires forall j :: 0 <= j < Handled(sites, step) && host(sites[j]) == k ==> !step(sites[j]).Store?
    ensures k in Process(sites, p, step, host).configs
    ensures Process(sites, p, step, host).configs[k] == p.configs[k]
    decreases |sites|
  {
    if sites != [] {
      var url := sites[0];
      match step(url)
      case Store(c) =>
        assert host(url) != k;
        forall j | 0 <= j < Handled(sites[1..], step) && host(sites[1..][j]) == k
          ensures !step(sites[1..][j]).Store?
        {
          assert sites[1..][j] == sites[j + 1];
        }
        ProcessKeepsUnwritten(sites[1..], p.(configs := p.configs[host(url) := JObject(c)]), step, host, k);
      case Skip(f) =>
        forall j | 0 <= j < Handled(sites[1..], step) && host(sites[1..][j]) == k
          ensures !step(sites[1..][j]).Store?
        {
          assert sites[1..][j] == sites[j + 1];
        }
        ProcessKeepsUnwritten(sites[1..], p.(errors := p.errors + [ErrorRecord(url, f)]), step, host, k);
      case Halt(f) =>
    }
  }

  /** A configuration stored by a handled site, with no later handled site of
      the same host storing one, is in the final map under that host. This
      holds also when a later site halts the run. */
  lemma {:induction false} ProcessKeepsLastStore(sites: seq<string>, p: Progress, step: string -> Step, host: string -> string, i: nat)
    requires i < Handled(sites, step) && step(sites[i]).Store?
    requires forall j :: i < j < Handled(sites, step) && host(sites[j]) == host(sites[i]) ==> !step(sites[j]).Store?
    ensures host(sites[i]) in Process(sites, p, step, host).configs
    ensures Process(sites, p, step, host).configs[host(sites[i])] == JObject(step(sites[i]).config)
    decreases |sites|
  {
    var url := sites[0];
    var k := host(sites[i]);
    if i == 0 {
      var q := p.(configs := p.configs[host(url) := JObject(step(url).config)]);
      forall j | 0 <= j < Handled(sites[1..], step) && host(sites[1..][j]) == k
        ensures !step(sites[1..][j]).Store?
      {
        assert sites[1..][j] == sites[j + 1];
      }
      ProcessKeepsUnwritten(sites[1..], q, step, host, k);
    } else {
      assert !step(url).Halt?;
      assert sites[1..][i - 1] == sites[i];
      forall j | i - 1 < j < Handled(sites[1..], step) && host(sites[1..][j]) == k
        ensures !step(sites[1..][j]).Store?
      {
        assert sites[1..][j] == sites[j + 1];
      }
      match step(url)
      case Store(c) =>
        ProcessKeepsLastStore(sites[1..], p.(configs := p.configs[host(url) := JObject(c)]), step, host, i - 1);
      case Skip(f) =>
        ProcessKeepsLastStore(sites[1..], p.(errors := p.errors + [ErrorRecord(url, f)]), step, host, i - 1);
    }
  }

  /** How many sites the loop handles: up to and including the first halting one. */
  function Handled(sites: seq<string>, step: string -> Step): (n: nat)
    ensures n <= |sites|
    ensures forall j :: 0 <= j < n - 1 ==> !step(sites[j]).Halt?
    ensures 0 < n ==> (n < |sites| || n == |sites|) && (step(sites[n - 1]).Halt? || n == |sites|)
    ensures n < |sites| ==> 0 < n && step(sites[n - 1]).Halt?
    decreases |sites|
  {
    if sites == [] then 0
    else if step(sites[0]).Halt? then 1
    else 1 + Handled(sites[1..], step)
  }

  /** The error records of the failing sites among `sites`, in order. */
  function Failures(sites: seq<string>, step: string -> Step): seq<ErrorRecord>
    decreases |sites|
  {
    if sites == [] then []
    else
      var rest := Failures(sites[1..], step);
      match step(sites[0])
      case Store(_) => rest
      case Skip(f) => [ErrorRecord(sites[0], f)] + rest
      case Halt(f) => [ErrorRecord(sites[0], f)] + rest
  }

  /** Sites after the first halting one have no effect. */
  lemma {:induction false} ProcessStopsAtHalt(sites: seq<string>, p: Progress, step: string -> Step, host: string -> string)
    ensures Process(sites, p, step, host) == Process(sites[..Handled(sites, step)], p, step, host)
    decreases |sites|
  {
    if sites != [] {
      var url := sites[0];
      var n := Handled(sites, step);
      assert sites[..n][0] == url;
      match step(url)
      case Store(c) =>
        assert sites[..n][1..] == sites[1..][..n - 1];
        ProcessStopsAtHalt(sites[1..], p.(configs := p.configs[host(url) := JObject(c)]), step, host);
      case Skip(f) =>
        assert sites[..n][1..] == sites[1..][..n - 1];
        ProcessStopsAtHalt(sites[1..], p.(errors := p.errors + [ErrorRecord(url, f)]), step, host);
      case Halt(f) =>
    }
  }

  /** Each failing site adds exactly its own error record, in order. */
  lemma {:induction false} ProcessRecordsFailures(sites: seq<string>, p: Progress, step: string -> Step, host: string -> string)
    ensures Process(sites, p, step, host).errors == p.errors + Failures(sites[..Handled(sites, step)], step)
    decreases |sites|
  {
    if sites != [] {
      var url := sites[0];
      var n := Handled(sites, step);
      assert sites[..n][0] == url;
      match step(url)
      case Store(c) =>
        assert sites[..n][1..] == sites[1..][..n - 1];
        ProcessRecordsFailures(sites[1..], p.(configs := p.configs[host(url) := JObject(c)]), step, host);
      case Skip(f) =>
        assert sites[..n][1..] == sites[1..][..n - 1];
        ProcessRecordsFailures(sites[1..], p.(errors := p.errors + [ErrorRecord(url, f)]), step, host);
      case Halt(f) =>
        assert sites[..n] == [url];
    }
  }

  /** A run that starts unhalted ends halted exactly when some site halted. */
  lemma {:induction false} ProcessHaltsIff(sites: seq<string>, p: Progress, step: string -> Step, host: string -> string)
    requires !p.halted
    ensures Process(sites, p, step, host).halted <==> exists j :: 0 <= j < |sites| && step(sites[j]).Halt?
    decreases |sites|
  {
    if sites != [] {
      var url := sites[0];
      match step(url)
      case Store(c) =>
        ProcessHaltsIff(sites[1..], p.(configs := p.configs[host(url) := JObject(c)]), step, host);
        HaltExistsShift(sites, step);
      case Skip(f) =>
        ProcessHaltsIff(sites[1..], p.(errors := p.errors + [ErrorRecord(url, f)]), step, host);
        HaltExistsShift(sites, step);
      case Halt(f) =>
        assert step(sites[0]).Halt?;
    }
  }

  lemma HaltExistsShift(sites: seq<string>, step: string -> Step)
    requires sites != [] && !step(sites[0]).Halt?
    ensures (exists j :: 0 <= j < |sites| && step(sites[j]).Halt?)
            <==> (exists j :: 0 <= j < |sites[1..]| && step(sites[1..][j]).Halt?)
  {
    if exists j :: 0 <= j < |sites| && step(sites[j]).Halt? {
      var j :| 0 <= j < |sites| && step(sites[j]).Halt?;
      assert step(sites[1..][j - 1]).Halt?;
    }
    if exists j :: 0 <= j < |sites[1..]| && step(sites[1..][j]).Halt? {
      var j :| 0 <= j < |sites[1..]| && step(sites[1..][j]).Halt?;
      assert step(sites[j + 1]).Halt?;
    }
  }

  /** Site `i` is handled before the loop stops and stores a configuration,
      and no later handled site of the same host stores another. */
  predicate LastStore(sites: seq<string>, step: string -> Step, host: string -> string, i: int) {
    0 <= i < Handled(sites, step) && step(sites[i]).Store?
    && forall j :: i < j < Handled(sites, step) && host(sites[j]) == host(sites[i]) ==> !step(sites[j]).Store?
  }

  /** A finished run keeps every entry found at load untouched (no configured
      domain is sent to the model again), and every entry it adds is a valid
      configuration stored under the host of its `url_busca`. Every
      configuration accepted before the loop stopped, and not replaced by a
      later site of the same host, is saved under its host, also after a
      quota halt. */
  lemma SavedStore(siteFile: Option<seq<string>>, stored: StoredFile, apiKey: Option<string>, o: Oracles)
    requires AnalysisSpec(siteFile, stored, apiKey, o).Finished?
    ensures forall k :: k in LoadExisting(stored) ==>
      k in AnalysisSpec(siteFile, stored, apiKey, o).saved
      && AnalysisSpec(siteFile, stored, apiKey, o).saved[k] == LoadExisting(stored)[k]
    ensures forall k :: k in AnalysisSpec(siteFile, stored, apiKey, o).saved && k !in LoadExisting(stored) ==>
      StoredFor(AnalysisSpec(siteFile, stored, apiKey, o).saved[k], k, o.host)
    ensures var pending := PendingSites(siteFile.value, stored, o.host);
      forall i :: LastStore(pending, StepOf(o), o.host, i) ==>
        o.host(pending[i]) in AnalysisSpec(siteFile, stored, apiKey, o).saved
        && AnalysisSpec(siteFile, stored, apiKey, o).saved[o.host(pending[i])] == JObject(SiteStep(pending[i], o).config)
  {
    var loaded := LoadExisting(stored);
    var pending := PendingSites(siteFile.value, stored, o.host);
    assert AnalysisSpec(siteFile, stored, apiKey, o).saved == Process(pending, Progress(loaded, [], false), StepOf(o), o.host).configs;
    NewSitesMembers(SiteLines(siteFile.value), loaded, o.host);
    ProcessedStore(pending, loaded, o);
  }

  /** The map the loop leaves, started from `loaded` with no pending site
      already configured, keeps every loaded entry, and every entry it adds
      is stored under its host. */
  lemma ProcessedStore(pending: seq<string>, loaded: map<string, Json>, o: Oracles)
    requires forall s :: s in pending ==> o.host(s) !in loaded
    ensures var r := Process(pending, Progress(loaded, [], false), StepOf(o), o.host);
      forall k :: k in loaded ==> k in r.configs && r.configs[k] == loaded[k]
    ensures var r := Process(pending, Progress(loaded, [], false), StepOf(o), o.host);
      forall k :: k in r.configs && k !in loaded ==> StoredFor(r.configs[k], k, o.host)
    ensures var r := Process(pending, Progress(loaded, [], false), StepOf(o), o.host);
      forall i :: LastStore(pending, StepOf(o), o.host, i) ==>
        o.host(pending[i]) in r.configs && r.configs[o.host(pending[i])] == JObject(SiteStep(pending[i], o).config)
  {
    var p := Progress(loaded, [], false);
    var r := Process(pending, p, StepOf(o), o.host);
    forall i | LastStore(pending, StepOf(o), o.host, i)
      ensures o.host(pending[i]) in r.configs && r.configs[o.host(pending[i])] == JObject(SiteStep(pending[i], o).config)
    {
      ProcessKeepsLastStore(pending, p, StepOf(o), o.host, i);
    }
    forall k | k in loaded
      ensures k in r.configs && r.configs[k] == loaded[k]
    {
      ProcessKeepsOtherKeys(pending, p, StepOf(o), o.host, k);
    }
    forall k | k in r.configs && k !in loaded
      ensures StoredFor(r.configs[k], k, o.host)
    {
      ProcessWritesStored(pending, p, StepOf(o), o.host, k);
      var i :| 0 <= i < |pending| && o.host(pending[i]) == k && StepOf(o)(pending[i]).Store?
               && r.configs[k] == JObject(StepOf(o)(pending[i]).config);
      SiteStepStores(pending[i], o);
    }
  }

  /** With a missing or corrupt store every listed site is new. */
  lemma EmptyStoreProcessesAll(lines: seq<string>, stored: StoredFile, host: string -> string)
    requires !stored.Decoded?
    ensures PendingSites(lines, stored, host) == SiteLines(lines)
  {
    NewSitesAllNew(SiteLines(lines), map[], host);
  }
}
