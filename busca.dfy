/** Discovery of candidate real-estate sites (buscar_sites.py).

    The web search is an input: `search(query)` is the sequence of result
    URLs the search yields for a query before it ends or raises, and
    `netloc(url)` is `urlparse(url).netloc`, or `None` when `urlparse`
    raises on a malformed URL (which, being inside the same `try`, ends
    that query's results). */
module Busca {
  import opened Wrappers
  import opened Text

  /** Appended to every query to keep job boards and notices out. */
  const ExcludeSuffix := "-vagas -emprego -classificados -cartorio -registro -noticias"

  /** A URL is kept only if its lower-cased text contains one of these. */
  const IncludeKeywords: seq<string> := ["imoveis", "imobiliaria", "corretor", "creci", "aluguel", "venda", "lançamentos"]

  /** A host containing one of these is a portal or unrelated site, never kept. */
  const IgnoredDomains: seq<string> := [
    "zapimoveis", "vivareal", "olx", "imovelweb", "mercadolivre",
    "facebook", "instagram", "linkedin", "youtube", "twitter",
    "infojobs", "catho", "vagas.com.br", "indeed", "glassdoor",
    "guiamais", "jusbrasil", "gov.br", "prefeitura", "econodata"]

  /** The three searches run for a city, in order. */
  function Queries(city: string): (qs: seq<string>)
    ensures |qs| == 3
  {
    [ "site imobiliária " + Quote(city) + " MG " + ExcludeSuffix,
      "imóveis à venda em " + Quote(city) + " " + ExcludeSuffix,
      "corretor de imóveis site " + Quote(city) + " " + ExcludeSuffix ]
  }

  /** The city between double quotes, as the queries name it. */
  function Quote(city: string): string {
    "\"" + city + "\""
  }

  /** Every query names the quoted city and ends with the exclusion suffix. */
  lemma QueriesCarrySuffix(city: string)
    ensures forall q :: q in Queries(city) ==>
      |ExcludeSuffix| <= |q| && q[|q| - |ExcludeSuffix|..] == ExcludeSuffix
    ensures forall q :: q in Queries(city) ==> Contains(q, Quote(city))
  {
    var qs := Queries(city);
    assert forall q :: q in qs ==> q == qs[0] || q == qs[1] || q == qs[2];
    QuotedThenSuffix("site imobiliária ", city, " MG ");
    QuotedThenSuffix("imóveis à venda em ", city, " ");
    QuotedThenSuffix("corretor de imóveis site ", city, " ");
  }

  lemma QuotedThenSuffix(lead: string, city: string, gap: string)
    ensures var q := lead + Quote(city) + gap + ExcludeSuffix;
      |ExcludeSuffix| <= |q| && q[|q| - |ExcludeSuffix|..] == ExcludeSuffix && Contains(q, Quote(city))
  {
    var quoted := Quote(city);
    assert OccursAt(quoted, quoted, 0);
    ContainsConcat(lead, quoted, quoted);
    ContainsConcat(lead + quoted, gap, quoted);
    ContainsConcat(lead + quoted + gap, ExcludeSuffix, quoted);
  }

  /** The host contains a blocklisted fragment. */
  predicate Blocked(host: string) {
    exists p :: p in IgnoredDomains && Contains(host, p)
  }

  /** The lower-cased URL contains an include keyword. */
  predicate Wanted(url: string) {
    exists k :: k in IncludeKeywords && Contains(Lower(url), k)
  }

  /** The filter a result with host `host` passes to be collected. */
  predicate Admits(url: string, host: string) {
    host != [] && !Blocked(host) && Wanted(url)
  }

  /** The hosts collected from one query's results, up to the first
      malformed URL. */
  function QueryHosts(urls: seq<string>, netloc: string -> Option<string>): set<string>
    decreases |urls|
  {
    if urls == [] then {}
    else
      match netloc(urls[0])
      case None => {}
      case Some(h) => (if Admits(urls[0], h) then {h} else {}) + QueryHosts(urls[1..], netloc)
  }

  /** How many results of a query are looked at: all up to the first malformed one. */
  function Reach(urls: seq<string>, netloc: string -> Option<string>): (n: nat)
    ensures n <= |urls|
    ensures forall j :: 0 <= j < n ==> netloc(urls[j]).Some?
    ensures n < |urls| ==> netloc(urls[n]).None?
    decreases |urls|
  {
    if urls == [] || netloc(urls[0]).None? then 0 else 1 + Reach(urls[1..], netloc)
  }

  /** The set after the first `n` queries. */
  function CollectUpTo(queries: seq<string>, n: nat, search: string -> seq<string>, netloc: string -> Option<string>): set<string>
    requires n <= |queries|
  {
    if n == 0 then {} else CollectUpTo(queries, n - 1, search, netloc) + QueryHosts(search(queries[n - 1]), netloc)
  }

  /** One of the results of a query that are looked at has host `h` and
      passes the filter. */
  predicate FoundIn(urls: seq<string>, netloc: string -> Option<string>, h: string) {
    exists j :: 0 <= j < Reach(urls, netloc) && netloc(urls[j]) == Some(h) && Admits(urls[j], h)
  }

  /** A host is collected from a query exactly when one of the results
      looked at has that host and passes the filter. */
  lemma {:induction false} QueryHostsIff(urls: seq<string>, netloc: string -> Option<string>, h: string)
    ensures h in QueryHosts(urls, netloc) <==> FoundIn(urls, netloc, h)
    decreases |urls|
  {
    if urls != [] && netloc(urls[0]).Some? {
      QueryHostsIff(urls[1..], netloc, h);
      var n := Reach(urls, netloc);
      if FoundIn(urls, netloc, h) {
        var j :| 0 <= j < n && netloc(urls[j]) == Some(h) && Admits(urls[j], h);
        if j > 0 {
          assert urls[1..][j - 1] == urls[j];
        }
      }
      if h in QueryHosts(urls[1..], netloc) {
        var j :| 0 <= j < Reach(urls[1..], netloc) && netloc(urls[1..][j]) == Some(h) && Admits(urls[1..][j], h);
        assert urls[j + 1] == urls[1..][j];
      }
    }
  }

  /** One of the first `n` queries found `h`. */
  predicate FoundBy(queries: seq<string>, n: nat, search: string -> seq<string>,
                    netloc: string -> Option<string>, h: string)
    requires n <= |queries|
  {
    exists q :: 0 <= q < n && FoundIn(search(queries[q]), netloc, h)
  }

  /** The first `n` queries found `h` when the first `n - 1` did or the last one does. */
  lemma FoundByStep(queries: seq<string>, n: nat, search: string -> seq<string>,
                    netloc: string -> Option<string>, h: string)
    requires 0 < n <= |queries|
    ensures FoundBy(queries, n, search, netloc, h) <==>
      FoundBy(queries, n - 1, search, netloc, h) || FoundIn(search(queries[n - 1]), netloc, h)
  {
    if FoundBy(queries, n, search, netloc, h) {
      var q :| 0 <= q < n && FoundIn(search(queries[q]), netloc, h);
      assert q < n - 1 ==> FoundBy(queries, n - 1, search, netloc, h);
    }
  }

  /** A host is collected exactly when some query's looked-at results
      include it with the filter passed: a query ended early by an
      exception does not stop the later ones. */
  lemma {:induction false} CollectIff(queries: seq<string>, n: nat, search: string -> seq<string>,
                                      netloc: string -> Option<string>, h: string)
    requires n <= |queries|
    ensures h in CollectUpTo(queries, n, search, netloc) <==> FoundBy(queries, n, search, netloc, h)
  {
    if n > 0 {
      CollectIff(queries, n - 1, search, netloc, h);
      QueryHostsIff(search(queries[n - 1]), netloc, h);
      FoundByStep(queries, n, search, netloc, h);
    }
  }

  /** A host found in a query's results passes the filter through one of them. */
  lemma FoundInPasses(urls: seq<string>, netloc: string -> Option<string>, h: string)
    requires FoundIn(urls, netloc, h)
    ensures h != [] && !Blocked(h)
    ensures exists j :: 0 <= j < |urls| && netloc(urls[j]) == Some(h) && Wanted(urls[j])
  {
  }

  /** Every collected host is non-empty, matches no blocklisted fragment,
      and came from a result URL of one of the queries holding an include
      keyword. */
  lemma CollectedHostsPass(queries: seq<string>, search: string -> seq<string>, netloc: string -> Option<string>, h: string)
    requires h in CollectUpTo(queries, |queries|, search, netloc)
    ensures h != [] && !Blocked(h)
    ensures exists q, j :: (0 <= q < |queries| && 0 <= j < |search(queries[q])|
      && netloc(search(queries[q])[j]) == Some(h) && Wanted(search(queries[q])[j]))
  {
    CollectIff(queries, |queries|, search, netloc, h);
    var q :| 0 <= q < |queries| && FoundIn(search(queries[q]), netloc, h);
    FoundInPasses(search(queries[q]), netloc, h);
  }

  /** `s` lists `hosts` in strictly increasing code-point order. */
  ghost predicate SortedOf(s: seq<string>, hosts: set<string>) {
    && (forall i, j :: 0 <= i < j < |s| ==> LexLess(s[i], s[j]))
    && (forall x :: x in s <==> x in hosts)
  }

  /** A strictly increasing listing has as many entries as the set. */
  lemma SortedOfCount(s: seq<string>, hosts: set<string>)
    requires SortedOf(s, hosts)
    ensures |s| == |hosts|
    decreases |s|
  {
    if s != [] {
      var rest := hosts - {s[0]};
      forall x | x in s[1..] ensures x != s[0] {
        var i :| 0 <= i < |s[1..]| && s[1..][i] == x;
        assert LexLess(s[0], s[i + 1]);
        LexIrreflexive(s[0]);
      }
      assert forall i, j :: 0 <= i < j < |s[1..]| ==> s[1..][i] == s[i + 1] && s[1..][j] == s[j + 1];
      assert forall x :: x in s <==> x == s[0] || x in s[1..];
      SortedOfCount(s[1..], rest);
    }
  }

  /** The least element of a non-empty set of hosts. */
  method Least(hosts: set<string>) returns (m: string)
    requires hosts != {}
    ensures m in hosts && forall x :: x in hosts && x != m ==> LexLess(m, x)
  {
    m :| m in hosts;
    var todo := hosts - {m};
    while todo != {}
      invariant todo <= hosts && m in hosts && m !in todo
      invariant forall x :: x in hosts && x !in todo && x != m ==> LexLess(m, x)
      decreases |todo|
    {
      var x :| x in todo;
      if LexLess(x, m) {
        forall y | y in hosts && y !in todo && y != x
          ensures LexLess(x, y)
        {
          if y != m {
            LexTransitive(x, m, y);
          }
        }
        m := x;
      } else if x != m {
        LexTotal(x, m);
      }
      todo := todo - {x};
    }
  }

  /** `sorted(urls_encontradas)`: repeatedly take the least remaining host. */
  method SortHosts(hosts: set<string>) returns (s: seq<string>)
    ensures SortedOf(s, hosts)
  {
    s := [];
    var rest := hosts;
    while rest != {}
      invariant rest <= hosts
      invariant forall x :: x in hosts <==> x in rest || x in s
      invariant forall x :: x in s ==> x !in rest
      invariant forall i, j :: 0 <= i < j < |s| ==> LexLess(s[i], s[j])
      invariant forall i, y :: 0 <= i < |s| && y in rest ==> LexLess(s[i], y)
      decreases |rest|
    {
      var m := Least(rest);
      s := s + [m];
      rest := rest - {m};
    }
  }

  /** The lines of the output file. */
  function FileLines(hosts: seq<string>): (lines: seq<string>)
    ensures |lines| == |hosts|
    ensures forall i :: 0 <= i < |hosts| ==> StartsWith(lines[i], "https://") && lines[i][8..] == hosts[i]
  {
    seq(|hosts|, i requires 0 <= i < |hosts| => "https://" + hosts[i])
  }

  /** The script: with no city argument it stops; otherwise it runs the three
      queries, collects the admitted hosts in a set and returns them sorted,
      the content of the output file being their `FileLines`. */
  method Discover(city: Option<string>, search: string -> seq<string>, netloc: string -> Option<string>)
    returns (r: Option<seq<string>>)
    ensures city.None? ==> r.None?
    ensures city.Some? ==> r.Some? && SortedOf(r.value, CollectUpTo(Queries(city.value), 3, search, netloc))
  {
    if city.None? {
      return None;
    }
    var queries := Queries(city.value);
    var found: set<string> := {};
    for q := 0 to |queries|
      invariant found == CollectUpTo(queries, q, search, netloc)
    {
      var urls := search(queries[q]);
      var j := 0;
      while j < |urls|
        invariant 0 <= j <= |urls|
        invariant CollectUpTo(queries, q + 1, search, netloc) == found + QueryHosts(urls[j..], netloc)
      {
        assert urls[j..][0] == urls[j] && urls[j..][1..] == urls[j + 1..];
        var host := netloc(urls[j]);
        if host.None? {
          break;
        }
        if host.value != [] && !Blocked(host.value) && Wanted(urls[j]) {
          found := found + {host.value};
        }
        j := j + 1;
      }
      assert j < |urls| ==> urls[j..][0] == urls[j];
    }
    var sorted := SortHosts(found);
    r := Some(sorted);
  }
}
