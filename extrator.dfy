/** The paginated listing extractor (extrator_mestre.py).

    The browser, CSS matching, the model and `json.loads` are inputs: a
    `Session` says what each page showed and what each driver call did,
    `compile` says whether soupsieve accepts a selector, a `Container` says
    what text the first match of a selector has inside it, `ask` is the
    model's reply to the description prompt, `netloc` is
    `urlparse(url).netloc` and `show` is Python's `str()` of a value. */
module Extrator {
  import opened Wrappers
  import opened Text
  import opened Json
  import opened Gemini

  /** At most this many result pages are read per site. */
  const PagesToExtract: nat := 3
  /** At most this many characters of a description reach the model. */
  const DescriptionBudget: nat := 2000
  /** The placeholder for a field that was not found. */
  const NotInformed := "N/I"
  /** The placeholder for a listing type the model did not give. */
  const Unspecified := "Não Especificado"

  /** An exception raised by the browser driver: a timeout, or any other one with its message. */
  datatype BrowserFault = TimedOut | DriverError(message: string)

  /** What the selector engine does with a selector value: accept it, reject
      its syntax, or raise some other exception (a non-string value, say). */
  datatype Compiled = Compiles | BadSyntax | Rejected(message: string)

  /** A matched listing container: the text of the first element a selector matches in it. */
  datatype Container = Container(first: Json -> Option<string>)

  /** What looking up and clicking the next-page button did. */
  datatype Click = Clicked | NoButton | Intercepted | ClickFailed(fault: BrowserFault)

  /** One result page: whether the two scrolls raised, the containers the
      container selector matches in its source, and what clicking "next" did. */
  datatype Page = Page(scroll: Option<BrowserFault>, containers: seq<Container>, click: Click)

  /** One browser session: whether loading `url_busca` raised, and the i-th page shown. */
  datatype Session = Session(load: Option<BrowserFault>, page: nat -> Page)

  /** The foreign capabilities, and the API key from the environment. */
  datatype Env = Env(
    apiKey: Option<string>,
    netloc: Json -> string,
    compile: Json -> Compiled,
    ask: string -> ModelCall,
    parse: string -> ParseOutcome,
    show: Json -> string)

  /** One extracted listing, a row of the site's CSV. Fields taken from the
      model's reply keep whatever JSON value it gave. */
  datatype Listing = Listing(
    codigo: Json, tipo: Json, endereco: string, preco: string, area: Json,
    quartos: Json, salas: Json, banheiros: Json, garagem: Json, site: string)

  /** Why a line was added to the error report. */
  datatype Reason =
    | NoPagination                   // reminder: no next-page selector configured
    | LoadTimeout(url: Json)         // a driver call timed out
    | SelectorSyntax(container: Json) // a selector was rejected as bad syntax
    | Unexpected(detail: string)     // any other exception, with its text
    | InvalidConfig                  // the configuration is not a dict

  /** The reason's text in the report. */
  function ReasonText(r: Reason, show: Json -> string): string {
    match r
    case NoPagination => "Lembrete: Paginação não configurada."
    case LoadTimeout(url) => "Timeout ao carregar a página " + show(url) + "."
    case SelectorSyntax(c) => "Erro de sintaxe no seletor '" + show(c) + "'."
    case Unexpected(d) => "Erro inesperado durante a navegação: " + d
    case InvalidConfig => "Configuração inválida no JSON."
  }

  /** One line of the error report. */
  datatype ErrorEntry = ErrorEntry(domain: string, reason: Reason)

  /** The report line: every entry is prefixed by its domain. */
  function Line(e: ErrorEntry, show: Json -> string): (r: string)
    ensures StartsWith(r, e.domain + " - ")
    ensures r[|e.domain| + 3..] == ReasonText(e.reason, show)
  {
    e.domain + " - " + ReasonText(e.reason, show)
  }

  // ---------------------------------------------------------------------
  // Details from the description (`extrair_detalhes_com_ia`)

  /** The text handed to `json.loads`: `{`, what lies between the first `{`
      and the last `}` after it (or all of the rest when there is none), and
      `}`. `None` when the reply has no `{` (the caught IndexError). */
  function BraceText(reply: string): (r: Option<string>)
    ensures r.None? <==> '{' !in reply
    ensures r.Some? ==> |r.value| >= 2 && r.value[0] == '{' && r.value[|r.value| - 1] == '}'
  {
    if '{' !in reply then None
    else
      var after := reply[FirstIndex(reply, '{') + 1..];
      var inner := if '}' in after then after[..LastIndex(after, '}')] else after;
      Some("{" + inner + "}")
  }

  /** A reply `a{b}c` with no `{` in `a` and no `}` in `c` yields `{b}`. */
  lemma BraceTextEnclosed(a: string, b: string, c: string)
    requires '{' !in a && '}' !in c
    ensures BraceText(a + "{" + b + "}" + c) == Some("{" + b + "}")
  {
    var s := a + "{" + b + "}" + c;
    var after := b + "}" + c;
    assert s == a + ("{" + after);
    SplitAt(a, "{" + after);
    assert s[|a|] == '{' && s[..|a|] == a && s[|a| + 1..] == after;
    FirstIndexAt(s, '{', |a|);
    assert after == b + ("}" + c);
    SplitAt(b, "}" + c);
    assert after[|b|] == '}' && after[..|b|] == b && after[|b| + 1..] == c;
    LastIndexAt(after, '}', |b|);
  }

  /** A reply `a{b` with no `{` in `a` and no `}` in `b` yields `{b}`: the
      text after the brace is kept whole. */
  lemma BraceTextUnclosed(a: string, b: string)
    requires '{' !in a && '}' !in b
    ensures BraceText(a + "{" + b) == Some("{" + b + "}")
  {
    var s := a + "{" + b;
    assert s[|a|] == '{' && s[..|a|] == a;
    FirstIndexAt(s, '{', |a|);
    assert s[|a| + 1..] == b;
  }

  /** Whether the description is sent to the model at all. */
  predicate AsksModel(description: string, apiKey: Option<string>) {
    description != [] && description != NotInformed && apiKey != Some(KeyPlaceholder)
  }

  /** The details the model extracts from a description; any failure is the
      empty dict. A successful parse of text that starts with `{` is always
      an object; any other value is treated as a failure. */
  function Details(description: string, env: Env): (d: map<string, Json>)
  {
    if !AsksModel(description, env.apiKey) then map[]
    else
      match env.ask(Truncate(description, DescriptionBudget))
      case Raised(_) => map[]
      case Reply(text) =>
        match BraceText(Strip(text))
        case None => map[]
        case Some(t) => ObjectFields(env.parse(t))
  }

  /** The dict `json.loads` returned, or the empty dict for anything else. */
  function ObjectFields(o: ParseOutcome): map<string, Json> {
    if o.Parsed? && o.value.JObject? then o.value.fields else map[]
  }

  /** An empty or "N/I" description gives no details, whatever the model would say. */
  lemma DetailsSkipsModel(description: string, env: Env, ask: string -> ModelCall)
    requires description == [] || description == NotInformed
    ensures Details(description, env) == map[]
    ensures Details(description, env.(ask := ask)) == map[]
  {
  }

  /** A reply that strips to `a{b}c`, with no `{` in `a` and no `}` in `c`,
      gives what `json.loads` makes of `{b}` when that is an object. */
  lemma DetailsOfReply(description: string, env: Env, text: string, a: string, b: string, c: string)
    requires AsksModel(description, env.apiKey)
    requires env.ask(Truncate(description, DescriptionBudget)) == Reply(text)
    requires Strip(text) == a + "{" + b + "}" + c
    requires '{' !in a && '}' !in c
    ensures env.parse("{" + b + "}").Parsed? && env.parse("{" + b + "}").value.JObject?
            ==> Details(description, env) == env.parse("{" + b + "}").value.fields
    ensures !(env.parse("{" + b + "}").Parsed? && env.parse("{" + b + "}").value.JObject?)
            ==> Details(description, env) == map[]
  {
    BraceTextEnclosed(a, b, c);
    DetailsOfText(description, env, text, "{" + b + "}");
  }

  /** The details of a reply whose stripped text yields `t` between braces. */
  lemma DetailsOfText(description: string, env: Env, text: string, t: string)
    requires AsksModel(description, env.apiKey)
    requires env.ask(Truncate(description, DescriptionBudget)) == Reply(text)
    requires BraceText(Strip(text)) == Some(t)
    ensures Details(description, env) == ObjectFields(env.parse(t))
  {
  }

  /** A model call that raises gives no details: the exception is caught. */
  lemma DetailsOnRaise(description: string, env: Env)
    requires AsksModel(description, env.apiKey)
    requires env.ask(Truncate(description, DescriptionBudget)).Raised?
    ensures Details(description, env) == map[]
  {
  }

  /** A reply whose stripped text has no `{` gives no details. */
  lemma DetailsWithoutBrace(description: string, env: Env, text: string)
    requires env.ask(Truncate(description, DescriptionBudget)) == Reply(text)
    requires '{' !in Strip(text)
    ensures Details(description, env) == map[]
  {
  }

  // ---------------------------------------------------------------------
  // One listing (the body of the inner `for anuncio in anuncios` loop)

  /** `anuncio.select_one(selector)` followed by `.text.strip()`. */
  datatype Pick = Picked(text: string) | NoMatch | PickFault(reason: Reason)

  /** `container` is the container selector, named by the syntax-error message. */
  function SelectOne(c: Container, selector: Json, container: Json, env: Env): (p: Pick)
    ensures p.PickFault? <==> !env.compile(selector).Compiles?
  {
    match env.compile(selector)
    case BadSyntax => PickFault(SelectorSyntax(container))
    case Rejected(m) => PickFault(Unexpected(m))
    case Compiles =>
      match c.first(selector)
      case Some(t) => Picked(Strip(t))
      case None => NoMatch
  }

  /** The picked text, or `default` when the selector matched nothing. */
  function PickedOr(p: Pick, default: string): string {
    if p.Picked? then p.text else default
  }

  /** The selector a configuration gives for `field`, `''` when absent. */
  function FieldSelector(config: map<string, Json>, field: string): Json {
    Get(config, field, JString(""))
  }

  /** `netloc` of the configuration's `url_busca`; `None` when absent. */
  function Domain(config: map<string, Json>, env: Env): string {
    env.netloc(Get(config, "url_busca", JNull))
  }

  /** Building one listing succeeds or raises at one of its selectors. */
  datatype Built = Built(listing: Listing) | BuildFault(reason: Reason)

  /** One container's listing, evaluated in the source's order: description,
      model details, address, price. */
  function BuildListing(c: Container, config: map<string, Json>, container: Json, env: Env): Built {
    var description := SelectOne(c, FieldSelector(config, "descricao"), container, env);
    if description.PickFault? then BuildFault(description.reason)
    else
      var d := Details(PickedOr(description, ""), env);
      var address := SelectOne(c, FieldSelector(config, "endereco"), container, env);
      if address.PickFault? then BuildFault(address.reason)
      else
        var price := SelectOne(c, FieldSelector(config, "preco"), container, env);
        if price.PickFault? then BuildFault(price.reason)
        else
          Built(Listing(
            Get(d, "codigo", JString(NotInformed)),
            Get(d, "tipo", JString(Unspecified)),
            PickedOr(address, NotInformed),
            PickedOr(price, NotInformed),
            Get(d, "area", JString(NotInformed)),
            Get(d, "quartos", JString(NotInformed)),
            Get(d, "salas", JString(NotInformed)),
            Get(d, "banheiros", JString(NotInformed)),
            Get(d, "garagem", JString(NotInformed)),
            Domain(config, env)))
  }

  /** Whether building a listing raises depends only on the selectors, not on
      the container: a faulty selector fails at the first container of a page. */
  lemma BuildFaultIgnoresContainer(c: Container, c': Container, config: map<string, Json>, container: Json, env: Env)
    ensures BuildListing(c, config, container, env).BuildFault? <==> BuildListing(c', config, container, env).BuildFault?
    ensures BuildListing(c, config, container, env).BuildFault? ==>
              BuildListing(c, config, container, env) == BuildListing(c', config, container, env)
  {
  }

  /** The defaults of a listing: its site is the host of `url_busca`, a
      missing address or price is "N/I", a key the model did not give is
      "N/I" ("Não Especificado" for the type), and a key it gave (even as
      null) is kept. */
  lemma ListingDefaults(c: Container, config: map<string, Json>, container: Json, env: Env)
    requires BuildListing(c, config, container, env).Built?
    ensures var l := BuildListing(c, config, container, env).listing;
      && l.site == Domain(config, env)
      && (c.first(FieldSelector(config, "endereco")).None? ==> l.endereco == NotInformed)
      && (c.first(FieldSelector(config, "endereco")).Some? ==> l.endereco == Strip(c.first(FieldSelector(config, "endereco")).value))
      && (c.first(FieldSelector(config, "preco")).None? ==> l.preco == NotInformed)
      && (c.first(FieldSelector(config, "preco")).Some? ==> l.preco == Strip(c.first(FieldSelector(config, "preco")).value))
    ensures var l := BuildListing(c, config, container, env).listing;
      var description := SelectOne(c, FieldSelector(config, "descricao"), container, env);
      var d := Details(PickedOr(description, ""), env);
      && ("tipo" !in d ==> l.tipo == JString(Unspecified))
      && ("tipo" in d ==> l.tipo == d["tipo"])
      && ("codigo" !in d ==> l.codigo == JString(NotInformed))
      && ("codigo" in d ==> l.codigo == d["codigo"])
      && ("area" !in d ==> l.area == JString(NotInformed))
      && ("area" in d ==> l.area == d["area"])
      && ("quartos" !in d ==> l.quartos == JString(NotInformed))
      && ("quartos" in d ==> l.quartos == d["quartos"])
      && ("salas" !in d ==> l.salas == JString(NotInformed))
      && ("salas" in d ==> l.salas == d["salas"])
      && ("banheiros" !in d ==> l.banheiros == JString(NotInformed))
      && ("banheiros" in d ==> l.banheiros == d["banheiros"])
      && ("garagem" !in d ==> l.garagem == JString(NotInformed))
      && ("garagem" in d ==> l.garagem == d["garagem"])
  {
  }

  /** A container whose description selector matches nothing gets every
      model field as its placeholder, and the model is not asked. */
  lemma NoDescriptionNoDetails(c: Container, config: map<string, Json>, container: Json, env: Env)
    requires env.compile(FieldSelector(config, "descricao")).Compiles?
    requires c.first(FieldSelector(config, "descricao")).None?
    requires BuildListing(c, config, container, env).Built?
    ensures var l := BuildListing(c, config, container, env).listing;
      && l.codigo == JString(NotInformed) && l.tipo == JString(Unspecified) && l.area == JString(NotInformed)
      && l.quartos == JString(NotInformed) && l.salas == JString(NotInformed)
      && l.banheiros == JString(NotInformed) && l.garagem == JString(NotInformed)
  {
    DetailsSkipsModel("", env, env.ask);
  }

  /** The listing builder of a configuration, as a function of the container. */
  function BuildOf(config: map<string, Json>, env: Env): Container -> Built {
    c => BuildListing(c, config, Get(config, "container_anuncio", JNull), env)
  }

  /** A listing fault is an exception, never the pagination reminder. */
  lemma BuildFaultKinds(c: Container, config: map<string, Json>, env: Env)
    ensures BuildOf(config, env)(c).BuildFault? ==>
      BuildOf(config, env)(c).reason.SelectorSyntax? || BuildOf(config, env)(c).reason.Unexpected?
  {
  }

  /** When the three field selectors compile, no container raises. */
  lemma BuildSucceeds(c: Container, config: map<string, Json>, env: Env)
    requires env.compile(FieldSelector(config, "descricao")).Compiles?
    requires env.compile(FieldSelector(config, "endereco")).Compiles?
    requires env.compile(FieldSelector(config, "preco")).Compiles?
    ensures BuildOf(config, env)(c).Built?
  {
  }

  /** The listings of one page's containers, in order, up to the first that raises. */
  datatype Batch = Batch(listings: seq<Listing>, fault: Option<Reason>)

  /** The inner loop over a page's containers (`for anuncio in anuncios`). */
  function PageListings(cs: seq<Container>, build: Container -> Built): (b: Batch)
    ensures |b.listings| <= |cs|
    ensures b.fault.None? <==> |b.listings| == |cs|
    decreases |cs|
  {
    if cs == [] then Batch([], None)
    else
      match build(cs[0])
      case BuildFault(r) => Batch([], Some(r))
      case Built(l) =>
        var rest := PageListings(cs[1..], build);
        Batch([l] + rest.listings, rest.fault)
  }

  /** Each container before the fault appends exactly its own listing, in
      order, and the fault is the one raised by the next container. */
  lemma {:induction false} PageListingsInOrder(cs: seq<Container>, build: Container -> Built)
    ensures var b := PageListings(cs, build);
      forall k :: 0 <= k < |b.listings| ==> build(cs[k]).Built? && b.listings[k] == build(cs[k]).listing
    ensures var b := PageListings(cs, build);
      b.fault.Some? ==> build(cs[|b.listings|]).BuildFault? && b.fault.value == build(cs[|b.listings|]).reason
    decreases |cs|
  {
    if cs != [] && build(cs[0]).Built? {
      PageListingsInOrder(cs[1..], build);
      var b := PageListings(cs, build);
      var rest := PageListings(cs[1..], build);
      assert forall k :: 1 <= k < |b.listings| ==> b.listings[k] == rest.listings[k - 1] && cs[k] == cs[1..][k - 1];
      if b.fault.Some? {
        assert cs[|b.listings|] == cs[1..][|rest.listings|];
      }
    }
  }

  /** A page yields a listing for every container or none at all. */
  lemma PageAllOrNothing(cs: seq<Container>, config: map<string, Json>, env: Env)
    ensures PageListings(cs, BuildOf(config, env)).fault.Some? ==> PageListings(cs, BuildOf(config, env)).listings == []
  {
    var b := PageListings(cs, BuildOf(config, env));
    PageListingsInOrder(cs, BuildOf(config, env));
    if b.fault.Some? && b.listings != [] {
      BuildFaultIgnoresContainer(cs[0], cs[|b.listings|], config, Get(config, "container_anuncio", JNull), env);
    }
  }

  /** The inner loop from container `j` on: a fault there ends it, a
      listing there is followed by those after it. */
  lemma PageListingsFrom(cs: seq<Container>, build: Container -> Built, j: nat)
    requires j < |cs|
    ensures build(cs[j]).BuildFault? ==> PageListings(cs[j..], build) == Batch([], Some(build(cs[j]).reason))
    ensures build(cs[j]).Built? ==>
      var rest := PageListings(cs[j + 1..], build);
      PageListings(cs[j..], build) == Batch([build(cs[j]).listing] + rest.listings, rest.fault)
  {
    assert cs[j..][0] == cs[j] && cs[j..][1..] == cs[j + 1..];
  }

  /** The reading loop of one page's containers. */
  method ReadContainers(cs: seq<Container>, config: map<string, Json>, env: Env) returns (b: Batch)
    ensures b == PageListings(cs, BuildOf(config, env))
  {
    ghost var build := BuildOf(config, env);
    var listings: seq<Listing> := [];
    var j := 0;
    while j < |cs|
      invariant 0 <= j <= |cs|
      invariant PageListings(cs, build)
             == var rest := PageListings(cs[j..], build); Batch(listings + rest.listings, rest.fault)
    {
      PageListingsFrom(cs, build, j);
      var built := BuildListing(cs[j], config, Get(config, "container_anuncio", JNull), env);
      assert built == build(cs[j]);
      if built.BuildFault? {
        return Batch(listings, Some(built.reason));
      }
      ghost var rest := PageListings(cs[j + 1..], build);
      assert listings + ([built.listing] + rest.listings) == (listings + [built.listing]) + rest.listings;
      listings := listings + [built.listing];
      j := j + 1;
    }
    assert cs[j..] == [];
    b := Batch(listings, None);
  }

  // ---------------------------------------------------------------------
  // One site (`extrair_dados_site`)

  /** The report reason for a driver exception inside the navigation block. */
  function DriverReason(f: BrowserFault, url: Json): Reason {
    match f
    case TimedOut => LoadTimeout(url)
    case DriverError(m) => Unexpected(m)
  }

  /** `soup.select(config['container_anuncio'])` on a page. */
  datatype Selection = Selected(containers: seq<Container>) | SelectFault(reason: Reason)

  /** A missing key raises KeyError, whose text is the quoted key. */
  function SelectContainers(config: map<string, Json>, page: Page, env: Env): (r: Selection)
    ensures r.Selected? <==> "container_anuncio" in config && env.compile(config["container_anuncio"]).Compiles?
    ensures r.Selected? ==> r.containers == page.containers
    ensures r.SelectFault? ==> r.reason.SelectorSyntax? || r.reason.Unexpected?
  {
    if "container_anuncio" !in config then SelectFault(Unexpected("'container_anuncio'"))
    else
      match env.compile(config["container_anuncio"])
      case BadSyntax => SelectFault(SelectorSyntax(config["container_anuncio"]))
      case Rejected(m) => SelectFault(Unexpected(m))
      case Compiles => Selected(page.containers)
  }

  /** What reading one page gives: an exception before its containers were
      listed, no container at all, or the page's batch and how many
      containers it matched. */
  datatype PageResult = PageFault(reason: Reason) | NoContainers | Listed(batch: Batch, matched: nat)

  /** Scroll, parse and select one page, then build its listings. */
  function ReadPage(page: Page, config: map<string, Json>, env: Env): (r: PageResult)
    ensures r.Listed? ==> r.matched == |page.containers| > 0
    ensures r.NoContainers? ==> page.containers == []
  {
    if page.scroll.Some? then PageFault(DriverReason(page.scroll.value, Get(config, "url_busca", JNull)))
    else
      match SelectContainers(config, page, env)
      case SelectFault(r) => PageFault(r)
      case Selected(cs) =>
        if cs == [] then NoContainers else Listed(PageListings(cs, BuildOf(config, env)), |cs|)
  }

  /** The per-page body up to the pagination decision. */
  method ReadPageAt(page: Page, config: map<string, Json>, env: Env) returns (r: PageResult)
    ensures r == ReadPage(page, config, env)
  {
    if page.scroll.Some? {
      return PageFault(DriverReason(page.scroll.value, Get(config, "url_busca", JNull)));
    }
    var selection := SelectContainers(config, page, env);
    if selection.SelectFault? {
      return PageFault(selection.reason);
    }
    if selection.containers == [] {
      return NoContainers;
    }
    var batch := ReadContainers(selection.containers, config, env);
    r := Listed(batch, |selection.containers|);
  }

  /** What the page loop consults: each page's result, each page's click,
      whether a next-page selector is configured, and `url_busca`. */
  datatype Pager = Pager(read: nat -> PageResult, click: nat -> Click, paginated: bool, url: Json)

  /** What a visit of a site returns and reports: its listings, its report
      reasons, and how many pages had their containers selected. */
  datatype Visit = Visit(listings: seq<Listing>, errors: seq<Reason>, pagesRead: nat)

  /** The page loop from page `i` on, with `acc` the listings so far. */
  function ReadPages(i: nat, p: Pager, acc: seq<Listing>): Visit
    decreases PagesToExtract - i
  {
    if i >= PagesToExtract then Visit(acc, [], i)
    else
      match p.read(i)
      case PageFault(r) => Visit(acc, [r], i)
      case NoContainers => Visit(acc, [], i + 1)
      case Listed(b, _) =>
        var got := acc + b.listings;
        if b.fault.Some? then Visit(got, [b.fault.value], i + 1)
        else if !p.paginated then Visit(got, [NoPagination], i + 1)
        else if i == PagesToExtract - 1 then Visit(got, [], i + 1)
        else
          match p.click(i)
          case Clicked => ReadPages(i + 1, p, got)
          case NoButton => Visit(got, [], i + 1)
          case Intercepted => Visit(got, [], i + 1)
          case ClickFailed(f) => Visit(got, [DriverReason(f, p.url)], i + 1)
  }

  /** The page loop of a configuration in a browser session. */
  function PagerOf(config: map<string, Json>, env: Env, s: Session): Pager {
    Pager((k: nat) => ReadPage(s.page(k), config, env), (k: nat) => s.page(k).click,
          Truthy(Get(config, "proxima_pagina", JNull)), Get(config, "url_busca", JNull))
  }

  /** A visit: load `url_busca`, then read pages from the first. */
  function VisitSite(config: map<string, Json>, env: Env, s: Session): Visit {
    if s.load.Some? then Visit([], [DriverReason(s.load.value, Get(config, "url_busca", JNull))], 0)
    else ReadPages(0, PagerOf(config, env, s), [])
  }

  /** The page loop reads at most three pages, adds at most one report
      reason, and keeps what was gathered before. */
  lemma {:induction false} ReadPagesBounds(i: nat, p: Pager, acc: seq<Listing>)
    requires i <= PagesToExtract
    ensures var v := ReadPages(i, p, acc);
      i <= v.pagesRead <= PagesToExtract && |v.errors| <= 1 && acc <= v.listings
    decreases PagesToExtract - i
  {
    if i < PagesToExtract && p.read(i).Listed? && p.read(i).batch.fault.None? && p.paginated
       && i < PagesToExtract - 1 && p.click(i).Clicked? {
      ReadPagesBounds(i + 1, p, acc + p.read(i).batch.listings);
    }
  }

  /** The loop goes on to page `k + 1` only after page `k` was listed
      without an exception, pagination is configured and the click worked;
      so it stops at a page without containers, and no page it counts as
      read raised before its containers were listed. */
  lemma {:induction false} ReadPagesAdvance(i: nat, p: Pager, acc: seq<Listing>)
    requires i <= PagesToExtract
    ensures var v := ReadPages(i, p, acc);
      forall k :: i <= k < v.pagesRead - 1 ==>
        p.read(k).Listed? && p.read(k).batch.fault.None? && p.paginated && p.click(k).Clicked?
    ensures var v := ReadPages(i, p, acc);
      forall k :: i <= k < v.pagesRead ==> !p.read(k).PageFault?
    decreases PagesToExtract - i
  {
    if i < PagesToExtract && p.read(i).Listed? && p.read(i).batch.fault.None? && p.paginated
       && i < PagesToExtract - 1 && p.click(i).Clicked? {
      ReadPagesAdvance(i + 1, p, acc + p.read(i).batch.listings);
      ReadPagesBounds(i + 1, p, acc + p.read(i).batch.listings);
    }
  }

  /** The listings of the pages `i` up to (not including) `j`, in order. */
  function Gathered(p: Pager, i: nat, j: nat): seq<Listing>
    decreases j - i
  {
    if j <= i then []
    else (if p.read(i).Listed? then p.read(i).batch.listings else []) + Gathered(p, i + 1, j)
  }

  /** When the loop went past the pages `i` up to `k` cleanly and page `k`
      raises (a page exception, an exception from one of its containers or
      a failed click), the visit reports exactly that one exception and
      returns everything gathered up to it. */
  lemma {:induction false} ReadPagesStopsAtFault(i: nat, p: Pager, acc: seq<Listing>, k: nat)
    requires i <= k < PagesToExtract
    requires forall m :: i <= m < k ==>
      p.read(m).Listed? && p.read(m).batch.fault.None? && p.paginated && p.click(m).Clicked?
    ensures var v := ReadPages(i, p, acc);
      p.read(k).PageFault? ==> v == Visit(acc + Gathered(p, i, k), [p.read(k).reason], k)
    ensures var v := ReadPages(i, p, acc);
      p.read(k).Listed? && p.read(k).batch.fault.Some? ==>
        v == Visit(acc + Gathered(p, i, k) + p.read(k).batch.listings, [p.read(k).batch.fault.value], k + 1)
    ensures var v := ReadPages(i, p, acc);
      p.read(k).Listed? && p.read(k).batch.fault.None? && p.paginated && k < PagesToExtract - 1
      && p.click(k).ClickFailed? ==>
        v == Visit(acc + Gathered(p, i, k) + p.read(k).batch.listings, [DriverReason(p.click(k).fault, p.url)], k + 1)
    decreases k - i
  {
    if i < k {
      var got := acc + p.read(i).batch.listings;
      assert ReadPages(i, p, acc) == ReadPages(i + 1, p, got);
      ReadPagesStopsAtFault(i + 1, p, got, k);
      assert got + Gathered(p, i + 1, k) == acc + Gathered(p, i, k);
    } else {
      assert Gathered(p, i, k) == [] && acc + [] == acc;
    }
  }

  /** Containers matched on the pages `i` up to (not including) `j`. */
  function Matched(p: Pager, i: nat, j: nat): nat
    decreases j - i
  {
    if j <= i then 0
    else (if p.read(i).Listed? then p.read(i).matched else 0) + Matched(p, i + 1, j)
  }

  /** Every listed page's batch has at most one listing per matched
      container, and one for each when nothing raised. */
  ghost predicate BatchesFit(p: Pager) {
    forall k :: p.read(k).Listed? ==>
      |p.read(k).batch.listings| <= p.read(k).matched
      && (p.read(k).batch.fault.None? ==> |p.read(k).batch.listings| == p.read(k).matched)
  }

  /** The listings the page loop adds are at most the containers matched on
      the pages it read, and exactly those when no exception was reported. */
  lemma {:induction false} ReadPagesCount(i: nat, p: Pager, acc: seq<Listing>)
    requires i <= PagesToExtract && BatchesFit(p) && FaultsAreExceptions(p)
    ensures var v := ReadPages(i, p, acc);
      && |acc| <= |v.listings|
      && |v.listings| - |acc| <= Matched(p, i, v.pagesRead)
      && (v.errors == [] || v.errors == [NoPagination] ==> |v.listings| - |acc| == Matched(p, i, v.pagesRead))
    decreases PagesToExtract - i
  {
    if i < PagesToExtract {
      match p.read(i)
      case PageFault(r) =>
      case NoContainers =>
        assert Matched(p, i + 1, i + 1) == 0;
      case Listed(b, n) =>
        var got := acc + b.listings;
        if b.fault.None? && p.paginated && i < PagesToExtract - 1 && p.click(i).Clicked? {
          ReadPagesCount(i + 1, p, got);
          ReadPagesBounds(i + 1, p, got);
        } else {
          assert Matched(p, i, i + 1) == n + Matched(p, i + 1, i + 1);
        }
    }
  }

  /** No page exception is the reminder. */
  ghost predicate FaultsAreExceptions(p: Pager) {
    && (forall k :: p.read(k).PageFault? ==> p.read(k).reason != NoPagination)
    && (forall k :: p.read(k).Listed? && p.read(k).batch.fault.Some? ==> p.read(k).batch.fault.value != NoPagination)
  }

  /** With a next-page selector the reminder is never added; without one,
      the loop stops after the page `i` and adds the reminder exactly when
      that page was listed without an exception. */
  lemma {:induction false} ReadPagesReminder(i: nat, p: Pager, acc: seq<Listing>)
    requires i < PagesToExtract && FaultsAreExceptions(p)
    ensures p.paginated ==> NoPagination !in ReadPages(i, p, acc).errors
    ensures !p.paginated ==> ReadPages(i, p, acc).pagesRead <= i + 1
    ensures !p.paginated ==>
      (ReadPages(i, p, acc).errors == [NoPagination] <==> p.read(i).Listed? && p.read(i).batch.fault.None?)
    decreases PagesToExtract - i
  {
    if p.read(i).Listed? && p.read(i).batch.fault.None? && p.paginated
       && i < PagesToExtract - 1 && p.click(i).Clicked? {
      ReadPagesReminder(i + 1, p, acc + p.read(i).batch.listings);
    }
  }

  /** Without exceptions on any page and with every click accounted for, the
      loop reports nothing but possibly the reminder: a missing or
      unclickable next button ends pagination silently. */
  lemma {:induction false} ReadPagesQuiet(i: nat, p: Pager, acc: seq<Listing>)
    requires i <= PagesToExtract
    requires forall k :: i <= k < PagesToExtract ==> !p.read(k).PageFault? && !p.click(k).ClickFailed?
    requires forall k :: i <= k < PagesToExtract && p.read(k).Listed? ==> p.read(k).batch.fault.None?
    ensures ReadPages(i, p, acc).errors == [] || ReadPages(i, p, acc).errors == [NoPagination]
    decreases PagesToExtract - i
  {
    if i < PagesToExtract && p.read(i).Listed? && p.paginated && i < PagesToExtract - 1 && p.click(i).Clicked? {
      ReadPagesQuiet(i + 1, p, acc + p.read(i).batch.listings);
    }
  }

  // Properties of a visit

  /** Containers on the pages `i` up to (not including) `j` of a session. */
  function ContainerTotal(s: Session, i: nat, j: nat): nat
    decreases j - i
  {
    if j <= i then 0 else |s.page(i).containers| + ContainerTotal(s, i + 1, j)
  }

  /** A session's pages fit their batches, and raise nothing that is a reminder. */
  lemma PagerOfFits(config: map<string, Json>, env: Env, s: Session)
    ensures BatchesFit(PagerOf(config, env, s))
    ensures FaultsAreExceptions(PagerOf(config, env, s))
  {
    var p := PagerOf(config, env, s);
    forall k: nat | p.read(k).PageFault?
      ensures p.read(k).reason != NoPagination
    {
      var page := s.page(k);
      if page.scroll.Some? {
        assert p.read(k).reason == DriverReason(page.scroll.value, Get(config, "url_busca", JNull));
      }
    }
    forall k: nat | p.read(k).Listed?
      ensures |p.read(k).batch.listings| <= p.read(k).matched
      ensures p.read(k).batch.fault.None? ==> |p.read(k).batch.listings| == p.read(k).matched
    {
      var b := PageListings(s.page(k).containers, BuildOf(config, env));
      assert p.read(k) == Listed(b, |s.page(k).containers|);
    }
    forall k: nat | p.read(k).Listed? && p.read(k).batch.fault.Some?
      ensures p.read(k).batch.fault.value != NoPagination
    {
      var cs := s.page(k).containers;
      PageListingsInOrder(cs, BuildOf(config, env));
      BuildFaultKinds(cs[|p.read(k).batch.listings|], config, env);
    }
  }

  /** Over pages that raised nothing before listing, matched containers are the pages' containers. */
  lemma {:induction false} MatchedIsContainerTotal(config: map<string, Json>, env: Env, s: Session, i: nat, j: nat)
    requires forall k :: i <= k < j ==> !PagerOf(config, env, s).read(k).PageFault?
    ensures Matched(PagerOf(config, env, s), i, j) == ContainerTotal(s, i, j)
    decreases j - i
  {
    if i < j {
      MatchedIsContainerTotal(config, env, s, i + 1, j);
    }
  }

  /** A visit reads at most three pages and reports at most one reason; its
      listings outnumber no page's containers and equal them when nothing
      raised. */
  lemma VisitBounds(config: map<string, Json>, env: Env, s: Session)
    ensures var v := VisitSite(config, env, s);
      v.pagesRead <= PagesToExtract && |v.errors| <= 1
    ensures var v := VisitSite(config, env, s);
      && |v.listings| <= ContainerTotal(s, 0, v.pagesRead)
      && (v.errors == [] || v.errors == [NoPagination] ==> |v.listings| == ContainerTotal(s, 0, v.pagesRead))
  {
    if s.load.None? {
      var p := PagerOf(config, env, s);
      ReadPagesBounds(0, p, []);
      ReadPagesAdvance(0, p, []);
      PagerOfFits(config, env, s);
      ReadPagesCount(0, p, []);
      MatchedIsContainerTotal(config, env, s, 0, ReadPages(0, p, []).pagesRead);
    }
  }

  /** Every listing the page loop adds comes from a listed page, so when
      those all carry one domain, so does the whole batch. */
  lemma {:induction false} ReadPagesSites(i: nat, p: Pager, acc: seq<Listing>, domain: string)
    requires i <= PagesToExtract
    requires forall k :: 0 <= k < |acc| ==> acc[k].site == domain
    requires forall k: nat, j :: p.read(k).Listed? && 0 <= j < |p.read(k).batch.listings| ==> p.read(k).batch.listings[j].site == domain
    ensures var v := ReadPages(i, p, acc);
      forall k :: 0 <= k < |v.listings| ==> v.listings[k].site == domain
    decreases PagesToExtract - i
  {
    if i < PagesToExtract && p.read(i).Listed? {
      var b := p.read(i).batch;
      var got := acc + b.listings;
      assert forall k :: |acc| <= k < |got| ==> got[k] == b.listings[k - |acc|];
      if b.fault.None? && p.paginated && i < PagesToExtract - 1 && p.click(i).Clicked? {
        ReadPagesSites(i + 1, p, got, domain);
      }
    }
  }

  /** Every listing a session's page yields carries the configuration's domain. */
  lemma PagerOfSites(config: map<string, Json>, env: Env, s: Session)
    ensures var p := PagerOf(config, env, s);
      forall k: nat, j :: p.read(k).Listed? && 0 <= j < |p.read(k).batch.listings| ==> p.read(k).batch.listings[j].site == Domain(config, env)
  {
    var p := PagerOf(config, env, s);
    forall k: nat, j | p.read(k).Listed? && 0 <= j < |p.read(k).batch.listings|
      ensures p.read(k).batch.listings[j].site == Domain(config, env)
    {
      var cs := s.page(k).containers;
      PageListingsInOrder(cs, BuildOf(config, env));
      ListingDefaults(cs[j], config, Get(config, "container_anuncio", JNull), env);
    }
  }

  /** Every listing of a visit is stamped with the host of `url_busca`. */
  lemma VisitSites(config: map<string, Json>, env: Env, s: Session)
    ensures var v := VisitSite(config, env, s);
      forall k :: 0 <= k < |v.listings| ==> v.listings[k].site == Domain(config, env)
  {
    if s.load.None? {
      var p := PagerOf(config, env, s);
      assert VisitSite(config, env, s) == ReadPages(0, p, []);
      PagerOfSites(config, env, s);
      ReadPagesSites(0, p, [], Domain(config, env));
    }
  }

  /** The pagination reminder: never with a next-page selector; without
      one, only the first page is read and the reminder is reported exactly
      when that page yielded its listings. */
  lemma ReminderWithoutPagination(config: map<string, Json>, env: Env, s: Session)
    ensures Truthy(Get(config, "proxima_pagina", JNull)) ==> NoPagination !in VisitSite(config, env, s).errors
    ensures !Truthy(Get(config, "proxima_pagina", JNull)) ==> VisitSite(config, env, s).pagesRead <= 1
    ensures !Truthy(Get(config, "proxima_pagina", JNull)) ==>
      (VisitSite(config, env, s).errors == [NoPagination] <==>
        && s.load.None?
        && ReadPage(s.page(0), config, env).Listed?
        && ReadPage(s.page(0), config, env).batch.fault.None?)
  {
    if s.load.None? {
      PagerOfFits(config, env, s);
      ReadPagesReminder(0, PagerOf(config, env, s), []);
    }
  }

  /** A session in which no driver call raises and every selector compiles
      reports nothing but possibly the reminder. */
  lemma QuietSessionReportsNoFault(config: map<string, Json>, env: Env, s: Session)
    requires s.load.None?
    requires forall k :: 0 <= k < PagesToExtract ==> s.page(k).scroll.None? && !s.page(k).click.ClickFailed?
    requires "container_anuncio" in config && env.compile(config["container_anuncio"]).Compiles?
    requires env.compile(FieldSelector(config, "descricao")).Compiles?
    requires env.compile(FieldSelector(config, "endereco")).Compiles?
    requires env.compile(FieldSelector(config, "preco")).Compiles?
    ensures VisitSite(config, env, s).errors == [] || VisitSite(config, env, s).errors == [NoPagination]
  {
    var p := PagerOf(config, env, s);
    forall k | 0 <= k < PagesToExtract && p.read(k).Listed?
      ensures p.read(k).batch.fault.None?
    {
      var cs := s.page(k).containers;
      PageListingsInOrder(cs, BuildOf(config, env));
      if p.read(k).batch.fault.Some? {
        BuildSucceeds(cs[|p.read(k).batch.listings|], config, env);
      }
    }
    ReadPagesQuiet(0, p, []);
  }

  /** The visit of a site whose page fails to load adds no listing and
      exactly one report reason. */
  lemma LoadFailureReported(config: map<string, Json>, env: Env, s: Session)
    requires s.load.Some?
    ensures VisitSite(config, env, s).listings == []
    ensures |VisitSite(config, env, s).errors| == 1
    ensures s.load == Some(TimedOut) ==> VisitSite(config, env, s).errors == [LoadTimeout(Get(config, "url_busca", JNull))]
  {
  }

  /** The growing error report the extractor appends to. */
  class ErrorLog {
    var entries: seq<ErrorEntry>

    constructor ()
      ensures entries == []
    {
      entries := [];
    }

    method Add(e: ErrorEntry)
      modifies this
      ensures entries == old(entries) + [e]
    {
      entries := entries + [e];
    }
  }

  /** The report lines for reasons of one domain. */
  function Entries(domain: string, reasons: seq<Reason>): (r: seq<ErrorEntry>)
    ensures |r| == |reasons|
    ensures forall k :: 0 <= k < |r| ==> r[k] == ErrorEntry(domain, reasons[k])
  {
    seq(|reasons|, k requires 0 <= k < |reasons| => ErrorEntry(domain, reasons[k]))
  }

  /** No reason, no report line; one reason, one line. */
  lemma EntriesOfFew(domain: string, r: Reason)
    ensures Entries(domain, []) == []
    ensures Entries(domain, [r]) == [ErrorEntry(domain, r)]
  {
  }

  /** `extrair_dados_site`: load the page, then read up to three pages,
      appending listings as they are built and reasons to the caller's log. */
  method ExtractSite(config: map<string, Json>, env: Env, s: Session, log: ErrorLog) returns (listings: seq<Listing>)
    modifies log
    ensures listings == VisitSite(config, env, s).listings
    ensures log.entries == old(log.entries) + Entries(Domain(config, env), VisitSite(config, env, s).errors)
  {
    var domain := Domain(config, env);
    if s.load.Some? {
      EntriesOfFew(domain, DriverReason(s.load.value, Get(config, "url_busca", JNull)));
      log.Add(ErrorEntry(domain, DriverReason(s.load.value, Get(config, "url_busca", JNull))));
      return [];
    }
    PagerReads(config, env, s);
    listings := ExtractPages(config, env, s, log, domain, PagerOf(config, env, s));
  }

  /** What the pager of a session reads and clicks on each page. */
  lemma PagerReads(config: map<string, Json>, env: Env, s: Session)
    ensures var p := PagerOf(config, env, s);
      && (forall k :: p.read(k) == ReadPage(s.page(k), config, env) && p.click(k) == s.page(k).click)
      && p.paginated == Truthy(Get(config, "proxima_pagina", JNull))
      && p.url == Get(config, "url_busca", JNull)
  {
  }

  /** One pass of the page loop of `extrair_dados_site` on page `i`, with
      `acc` the listings so far: the listings after it, whether the loop goes
      on to the next page, and the reason it reports. */
  method ExtractPage(config: map<string, Json>, env: Env, s: Session, i: nat, acc: seq<Listing>, ghost p: Pager)
    returns (got: seq<Listing>, more: bool, fault: Option<Reason>)
    requires i < PagesToExtract
    requires p.read(i) == ReadPage(s.page(i), config, env) && p.click(i) == s.page(i).click
    requires p.paginated == Truthy(Get(config, "proxima_pagina", JNull))
    requires p.url == Get(config, "url_busca", JNull)
    ensures more ==> fault.None? && i + 1 < PagesToExtract && ReadPages(i, p, acc) == ReadPages(i + 1, p, got)
    ensures !more ==> ReadPages(i, p, acc).listings == got
    ensures !more ==> ReadPages(i, p, acc).errors == if fault.Some? then [fault.value] else []
  {
    got, more, fault := acc, false, None;
    var page := s.page(i);
    var result := ReadPageAt(page, config, env);
    match result {
      case PageFault(r) =>
        fault := Some(r);
        return;
      case NoContainers =>
        return;
      case Listed(batch, _) =>
        got := acc + batch.listings;
        if batch.fault.Some? {
          fault := batch.fault;
          return;
        }
    }
    if !Truthy(Get(config, "proxima_pagina", JNull)) {
      fault := Some(NoPagination);
      return;
    }
    if i == PagesToExtract - 1 {
      return;
    }
    match page.click {
      case Clicked => more := true;
      case NoButton =>
      case Intercepted =>
      case ClickFailed(f) => fault := Some(DriverReason(f, Get(config, "url_busca", JNull)));
    }
  }

  /** The page loop of `extrair_dados_site` once the page has loaded; `p`
      is the session's pager. */
  method ExtractPages(config: map<string, Json>, env: Env, s: Session, log: ErrorLog, domain: string, ghost p: Pager)
    returns (listings: seq<Listing>)
    requires forall k :: p.read(k) == ReadPage(s.page(k), config, env) && p.click(k) == s.page(k).click
    requires p.paginated == Truthy(Get(config, "proxima_pagina", JNull))
    requires p.url == Get(config, "url_busca", JNull)
    modifies log
    ensures listings == ReadPages(0, p, []).listings
    ensures log.entries == old(log.entries) + Entries(domain, ReadPages(0, p, []).errors)
  {
    listings := [];
    for i := 0 to PagesToExtract
      invariant log.entries == old(log.entries)
      invariant ReadPages(0, p, []) == ReadPages(i, p, listings)
    {
      var more, fault;
      listings, more, fault := ExtractPage(config, env, s, i, listings, p);
      if !more {
        if fault.Some? {
          EntriesOfFew(domain, fault.value);
          log.Add(ErrorEntry(domain, fault.value));
        } else {
          EntriesOfFew(domain, NoPagination);
        }
        return;
      }
    }
    EntriesOfFew(domain, NoPagination);
  }

  // ---------------------------------------------------------------------
  // The main loop over the configuration file

  /** The CSV file a domain's listings go to: dots become underscores. */
  function FileName(domain: string): (r: string)
    ensures StartsWith(r, "dados_")
    ensures r[|r| - 4..] == ".csv"
    ensures forall k :: 6 <= k < |r| - 4 ==> r[k] != '.'
    ensures |r| == |domain| + 10
    ensures forall k :: 0 <= k < |domain| ==> r[6 + k] == (if domain[k] == '.' then '_' else domain[k])
  {
    "dados_" + ReplaceChar(domain, '.', '_') + ".csv"
  }

  /** The CSV files written so far, by name, and the report. */
  datatype Extraction = Extraction(files: map<string, seq<Listing>>, errors: seq<ErrorEntry>)

  /** The main loop after its first `n` configurations; `visit(config, k)`
      is the visit of the `k`-th configuration and `domain` its host. */
  function ExtractUpTo(items: seq<(string, Json)>, n: nat, visit: (map<string, Json>, nat) -> Visit,
                       domain: map<string, Json> -> string): Extraction
    requires n <= |items|
  {
    if n == 0 then Extraction(map[], [])
    else
      var x := ExtractUpTo(items, n - 1, visit, domain);
      var key := items[n - 1].0;
      var config := items[n - 1].1;
      if !config.JObject? then x.(errors := x.errors + [ErrorEntry(key, InvalidConfig)])
      else
        var v := visit(config.fields, n - 1);
        var errors := x.errors + Entries(domain(config.fields), v.errors);
        if v.listings == [] then x.(errors := errors)
        else Extraction(x.files[FileName(key) := v.listings], errors)
  }

  /** The visits made with the k-th browser session for the k-th configuration. */
  function VisitsOf(env: Env, browse: nat -> Session): (map<string, Json>, nat) -> Visit {
    (config: map<string, Json>, k: nat) => VisitSite(config, env, browse(k))
  }

  /** The domain of each configuration. */
  function DomainOf(env: Env): map<string, Json> -> string {
    config => Domain(config, env)
  }

  /** The whole script: `None` when the configuration file is missing,
      otherwise its `(domain, config)` items in file order are processed. */
  method ExtractAll(configFile: Option<seq<(string, Json)>>, env: Env, browse: nat -> Session)
    returns (r: Option<Extraction>)
    ensures configFile.None? ==> r.None?
    ensures configFile.Some? ==> r == Some(ExtractUpTo(configFile.value, |configFile.value|, VisitsOf(env, browse), DomainOf(env)))
  {
    if configFile.None? {
      return None;
    }
    var items := configFile.value;
    var log := new ErrorLog();
    var files: map<string, seq<Listing>> := map[];
    for i := 0 to |items|
      invariant Extraction(files, log.entries) == ExtractUpTo(items, i, VisitsOf(env, browse), DomainOf(env))
    {
      var (key, config) := items[i];
      if !config.JObject? {
        log.Add(ErrorEntry(key, InvalidConfig));
        continue;
      }
      var listings := ExtractSite(config.fields, env, browse(i), log);
      if listings != [] {
        files := files[FileName(key) := listings];
      }
    }
    r := Some(Extraction(files, log.entries));
  }

  /** Every CSV written holds at least one listing. */
  lemma {:induction false} FilesNonEmpty(items: seq<(string, Json)>, n: nat, visit: (map<string, Json>, nat) -> Visit,
                                         domain: map<string, Json> -> string)
    requires n <= |items|
    ensures forall f :: f in ExtractUpTo(items, n, visit, domain).files ==> ExtractUpTo(items, n, visit, domain).files[f] != []
  {
    if n > 0 {
      FilesNonEmpty(items, n - 1, visit, domain);
    }
  }

  /** The `k`-th configuration writes the CSV named `name`: it is a dict,
      its key maps to that name and its visit yielded listings. */
  predicate WritesFile(items: seq<(string, Json)>, visit: (map<string, Json>, nat) -> Visit, k: nat, name: string)
    requires k < |items|
  {
    items[k].1.JObject? && FileName(items[k].0) == name && visit(items[k].1.fields, k).listings != []
  }

  /** The last configuration that writes a CSV decides its contents: each
      write overwrites the file. */
  lemma {:induction false} FileHoldsLast(items: seq<(string, Json)>, n: nat, visit: (map<string, Json>, nat) -> Visit,
                                         domain: map<string, Json> -> string, name: string, k: nat)
    requires k < n <= |items|
    requires WritesFile(items, visit, k, name)
    requires forall k' :: k < k' < n ==> !WritesFile(items, visit, k', name)
    ensures name in ExtractUpTo(items, n, visit, domain).files
    ensures ExtractUpTo(items, n, visit, domain).files[name] == visit(items[k].1.fields, k).listings
    decreases n
  {
    if k < n - 1 {
      FileHoldsLast(items, n - 1, visit, domain, name, k);
      assert !WritesFile(items, visit, n - 1, name);
    }
  }

  /** A CSV named `name` is written exactly when some dict configuration
      whose key maps to that name yielded listings. */
  lemma {:induction false} FileWrittenIff(items: seq<(string, Json)>, n: nat, visit: (map<string, Json>, nat) -> Visit,
                                          domain: map<string, Json> -> string, name: string)
    requires n <= |items|
    ensures name in ExtractUpTo(items, n, visit, domain).files <==>
      exists k :: 0 <= k < n && items[k].1.JObject? && FileName(items[k].0) == name
                  && visit(items[k].1.fields, k).listings != []
  {
    if n > 0 {
      FileWrittenIff(items, n - 1, visit, domain, name);
      var k := n - 1;
      if items[k].1.JObject? && FileName(items[k].0) == name && visit(items[k].1.fields, k).listings != [] {
        assert name in ExtractUpTo(items, n, visit, domain).files;
      }
    }
  }

  /** With visits that report at most one reason, every configuration
      contributes at most one report line, and the report only grows. */
  lemma {:induction false} ReportGrows(items: seq<(string, Json)>, m: nat, n: nat, visit: (map<string, Json>, nat) -> Visit,
                                       domain: map<string, Json> -> string)
    requires m <= n <= |items|
    requires forall c, k :: |visit(c, k).errors| <= 1
    ensures ExtractUpTo(items, m, visit, domain).errors <= ExtractUpTo(items, n, visit, domain).errors
    ensures |ExtractUpTo(items, n, visit, domain).errors| <= |ExtractUpTo(items, m, visit, domain).errors| + (n - m)
    decreases n - m
  {
    if m < n {
      ReportGrows(items, m, n - 1, visit, domain);
    }
  }

  /** Each visit of the script reports at most one reason. */
  lemma VisitsReportOnce(env: Env, browse: nat -> Session)
    ensures forall c, k :: |VisitsOf(env, browse)(c, k).errors| <= 1
  {
    forall c, k ensures |VisitsOf(env, browse)(c, k).errors| <= 1 {
      VisitBounds(c, env, browse(k));
    }
  }

  /** A configuration that is not a dict is reported under its key and
      writes no CSV. */
  lemma InvalidConfigReported(items: seq<(string, Json)>, k: nat, visit: (map<string, Json>, nat) -> Visit,
                              domain: map<string, Json> -> string)
    requires k < |items| && !items[k].1.JObject?
    requires forall c, j :: |visit(c, j).errors| <= 1
    ensures ErrorEntry(items[k].0, InvalidConfig) in ExtractUpTo(items, |items|, visit, domain).errors
    ensures ExtractUpTo(items, k + 1, visit, domain).files == ExtractUpTo(items, k, visit, domain).files
  {
    ReportGrows(items, k + 1, |items|, visit, domain);
    var before := ExtractUpTo(items, k, visit, domain).errors;
    assert ExtractUpTo(items, k + 1, visit, domain).errors[|before|] == ErrorEntry(items[k].0, InvalidConfig);
  }
}
