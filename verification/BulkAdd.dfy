/**
 * Bulk add: parsing a paste (app/services/bulk_add.py) and planning, cutting and creating the monitors
 * (bulk_add_monitors of app/api/routes/dashboard.py). Spec functions look at the whole paste; the methods
 * are the loops with their growing lists and sets.
 */
module BulkAdd {
  import opened Common
  import opened MonitorNames
  import opened Plans

  const BULK_STAGGER_SECONDS := 2
  const BULK_STAGGER_CAP := 120
  const SSL_MIN_INTERVAL := 3600

  datatype Site = Bad(raw: string, error: string) | Good(raw: string, url: string, host: string, name: string)

  /**
   * What bulk add calls: `str.lower`, the blank test, URL normalization, and the two validators, which
   * give None or the detail of a refusal.
   */
  datatype Env = Env(
    lower: string -> string, blank: string -> bool, normalize: string -> Site,
    checkHttp: Site -> Option<string>, checkSsl: Site -> Option<string>)

  // ---- parse -----------------------------------------------------------------------------------------

  function ParseKey(env: Env, s: Site): string {
    env.lower(if s.Good? then s.url else s.raw)
  }

  /** Keys of the tokens that are not blank. */
  function TokenKeys(env: Env, tokens: seq<string>): set<string> {
    if tokens == [] then {}
    else
      var n := |tokens| - 1;
      TokenKeys(env, tokens[..n]) + if env.blank(tokens[n]) then {} else {ParseKey(env, env.normalize(tokens[n]))}
  }

  /** The first site of every key, in order. */
  function Parsed(env: Env, tokens: seq<string>): seq<Site> {
    if tokens == [] then []
    else
      var n := |tokens| - 1;
      var s := env.normalize(tokens[n]);
      Parsed(env, tokens[..n])
      + if env.blank(tokens[n]) || ParseKey(env, s) in TokenKeys(env, tokens[..n]) then [] else [s]
  }

  method Parse(env: Env, tokens: seq<string>) returns (out: seq<Site>)
    ensures out == Parsed(env, tokens)
  {
    out := [];
    var seen: set<string> := {};
    for i := 0 to |tokens|
      invariant out == Parsed(env, tokens[..i]) && seen == TokenKeys(env, tokens[..i])
    {
      assert tokens[..i + 1][..i] == tokens[..i];
      if !env.blank(tokens[i]) {
        var s := env.normalize(tokens[i]);
        var key := ParseKey(env, s);
        if key !in seen {
          seen := seen + {key};
          out := out + [s];
        }
      }
    }
    assert tokens[..|tokens|] == tokens;
  }

  function ParseKeys(env: Env, sites: seq<Site>): set<string> {
    if sites == [] then {} else ParseKeys(env, sites[..|sites| - 1]) + {ParseKey(env, sites[|sites| - 1])}
  }

  /** Sites with distinct keys, which together are `keys`. */
  predicate OnePerKey(env: Env, sites: seq<Site>, keys: set<string>) {
    && ParseKeys(env, sites) == keys
    && (forall i :: 0 <= i < |sites| ==> ParseKey(env, sites[i]) in keys)
    && (forall i, j :: 0 <= i < j < |sites| ==> ParseKey(env, sites[i]) != ParseKey(env, sites[j]))
  }

  lemma OneMoreKey(env: Env, sites: seq<Site>, keys: set<string>, s: Site)
    requires OnePerKey(env, sites, keys) && ParseKey(env, s) !in keys
    ensures OnePerKey(env, sites + [s], keys + {ParseKey(env, s)})
  {
    assert (sites + [s])[..|sites|] == sites;
  }

  lemma ParsedOneMore(env: Env, tokens: seq<string>)
    requires tokens != []
    ensures var before, s := tokens[..|tokens| - 1], env.normalize(tokens[|tokens| - 1]);
            var keys, key := TokenKeys(env, before), ParseKey(env, s);
            if env.blank(tokens[|tokens| - 1]) then
              Parsed(env, tokens) == Parsed(env, before) && TokenKeys(env, tokens) == keys
            else if key in keys then
              Parsed(env, tokens) == Parsed(env, before) && TokenKeys(env, tokens) == keys
            else
              Parsed(env, tokens) == Parsed(env, before) + [s] && TokenKeys(env, tokens) == keys + {key}
  {
  }

  /** Duplicates are dropped and nothing else: the keys of the result are those of the paste, each once. */
  lemma {:induction false} ParseKeepsOnePerKey(env: Env, tokens: seq<string>)
    ensures OnePerKey(env, Parsed(env, tokens), TokenKeys(env, tokens))
  {
    if tokens != [] {
      var before, last := tokens[..|tokens| - 1], tokens[|tokens| - 1];
      ParseKeepsOnePerKey(env, before);
      ParsedOneMore(env, tokens);
      if !env.blank(last) && ParseKey(env, env.normalize(last)) !in TokenKeys(env, before) {
        OneMoreKey(env, Parsed(env, before), TokenKeys(env, before), env.normalize(last));
      }
    }
  }

  // ---- same_url --------------------------------------------------------------------------------------

  function RStrip(s: string, c: char): string {
    if s != "" && s[|s| - 1] == c then RStrip(s[..|s| - 1], c) else s
  }

  function UrlKey(env: Env, url: string): string {
    env.lower(RStrip(url, '/'))
  }

  predicate SameUrl(env: Env, a: string, b: string) {
    UrlKey(env, a) == UrlKey(env, b)
  }

  lemma {:induction false} RStripSlash(s: string, slashes: string)
    requires forall i :: 0 <= i < |slashes| ==> slashes[i] == '/'
    ensures RStrip(s + slashes, '/') == RStrip(s, '/')
  {
    if slashes == "" {
      assert s + slashes == s;
    } else {
      var n := |slashes| - 1;
      assert (s + slashes)[..|s| + n] == s + slashes[..n];
      RStripSlash(s, slashes[..n]);
    }
  }

  /** Trailing slashes never change which addresses are the same. */
  lemma SlashesDoNotMatter(env: Env, a: string, b: string, slashes: string)
    requires forall i :: 0 <= i < |slashes| ==> slashes[i] == '/'
    ensures SameUrl(env, a + slashes, b) <==> SameUrl(env, a, b)
    ensures SameUrl(env, a, b + slashes) <==> SameUrl(env, a, b)
  {
    RStripSlash(a, slashes);
    RStripSlash(b, slashes);
  }

  predicate NoTrailingSlash(s: string) {
    s == "" || s[|s| - 1] != '/'
  }

  predicate OnlySlashes(s: string) {
    forall i :: 0 <= i < |s| ==> s[i] == '/'
  }

  lemma {:induction false} StripsSlashes(s: string) returns (slashes: string)
    ensures s == RStrip(s, '/') + slashes && NoTrailingSlash(RStrip(s, '/')) && OnlySlashes(slashes)
  {
    slashes := "";
    if s != "" && s[|s| - 1] == '/' {
      slashes := StripsSlashes(s[..|s| - 1]);
      assert s == s[..|s| - 1] + ['/'];
      slashes := slashes + ['/'];
    }
  }

  /** Two addresses are the same exactly if they differ in trailing slashes and letter case only. */
  lemma SameUrlIff(env: Env, a: string, b: string, x: string, y: string, tail: string, other: string)
    requires a == x + tail && NoTrailingSlash(x) && OnlySlashes(tail)
    requires b == y + other && NoTrailingSlash(y) && OnlySlashes(other)
    ensures SameUrl(env, a, b) <==> env.lower(x) == env.lower(y)
  {
    RStripSlash(x, tail);
    RStripSlash(y, other);
  }

  function UrlKeys(env: Env, urls: seq<string>): set<string> {
    if urls == [] then {} else UrlKeys(env, urls[..|urls| - 1]) + {UrlKey(env, urls[|urls| - 1])}
  }

  /** `any(same_url(url, u) for u in urls)`. */
  method AnySame(env: Env, url: string, urls: seq<string>) returns (found: bool)
    ensures found <==> UrlKey(env, url) in UrlKeys(env, urls)
  {
    found := false;
    for i := 0 to |urls|
      invariant found <==> UrlKey(env, url) in UrlKeys(env, urls[..i])
    {
      assert urls[..i + 1][..i] == urls[..i];
      if SameUrl(env, url, urls[i]) {
        found := true;
      }
    }
    assert urls[..|urls|] == urls;
  }

  // ---- Which sites get an HTTP monitor -----------------------------------------------------------------

  datatype Kind = Http | Ssl
  datatype Item = Item(kind: Kind, site: Site)
  datatype Why = BadSite(error: string) | AlreadyMonitored | Invalid(detail: string) | OverLimit
  datatype Skip = Skip(kind: Kind, site: Site, why: Why)

  /** The site could be monitored if nothing else had its address. */
  predicate Usable(env: Env, s: Site) {
    s.Good? && env.checkHttp(s) == None
  }

  function UsableKeys(env: Env, sites: seq<Site>): set<string> {
    if sites == [] then {}
    else
      var s := sites[|sites| - 1];
      UsableKeys(env, sites[..|sites| - 1]) + if Usable(env, s) then {UrlKey(env, s.url)} else {}
  }

  function HttpPick(env: Env, seen: set<string>, s: Site): seq<Site> {
    if Usable(env, s) && UrlKey(env, s.url) !in seen then [s] else []
  }

  /** The first usable site of every address that is not `taken`. */
  function HttpPlan(env: Env, taken: set<string>, sites: seq<Site>): seq<Site> {
    if sites == [] then []
    else
      var n := |sites| - 1;
      HttpPlan(env, taken, sites[..n]) + HttpPick(env, taken + UsableKeys(env, sites[..n]), sites[n])
  }

  function RStripDot(detail: string): string {
    RStrip(detail, '.')
  }

  function HttpSkip(env: Env, seen: set<string>, s: Site): seq<Skip> {
    if s.Bad? then [Skip(Http, s, BadSite(s.error))]
    else if UrlKey(env, s.url) in seen then [Skip(Http, s, AlreadyMonitored)]
    else match env.checkHttp(s)
         case Some(detail) => [Skip(Http, s, Invalid(RStripDot(detail)))]
         case None => []
  }

  function HttpSkips(env: Env, taken: set<string>, sites: seq<Site>): seq<Skip> {
    if sites == [] then []
    else
      var n := |sites| - 1;
      HttpSkips(env, taken, sites[..n]) + HttpSkip(env, taken + UsableKeys(env, sites[..n]), sites[n])
  }

  lemma PlanOneMore(env: Env, taken: set<string>, sites: seq<Site>, i: nat)
    requires i < |sites|
    ensures var seen := taken + UsableKeys(env, sites[..i]);
            && HttpPlan(env, taken, sites[..i + 1]) == HttpPlan(env, taken, sites[..i]) + HttpPick(env, seen, sites[i])
            && HttpSkips(env, taken, sites[..i + 1])
               == HttpSkips(env, taken, sites[..i]) + HttpSkip(env, seen, sites[i])
            && taken + UsableKeys(env, sites[..i + 1])
               == seen + if Usable(env, sites[i]) then {UrlKey(env, sites[i].url)} else {}
  {
    assert sites[..i + 1][..i] == sites[..i];
  }

  /** One turn of the planning loop; `urls` are the addresses known after it. */
  method PlanSite(env: Env, s: Site, httpUrls: seq<string>)
    returns (pick: seq<Site>, skip: seq<Skip>, urls: seq<string>)
    ensures pick == HttpPick(env, UrlKeys(env, httpUrls), s) && skip == HttpSkip(env, UrlKeys(env, httpUrls), s)
    ensures UrlKeys(env, urls)
            == UrlKeys(env, httpUrls) + if Usable(env, s) then {UrlKey(env, s.url)} else {}
  {
    pick, skip, urls := [], [], httpUrls;
    if s.Bad? {
      skip := [Skip(Http, s, BadSite(s.error))];
    } else {
      var found := AnySame(env, s.url, httpUrls);
      if found {
        skip := [Skip(Http, s, AlreadyMonitored)];
      } else if env.checkHttp(s).Some? {
        skip := [Skip(Http, s, Invalid(RStripDot(env.checkHttp(s).value)))];
      } else {
        pick := [s];
        urls := httpUrls + [s.url];
        assert urls[..|httpUrls|] == httpUrls;
      }
    }
  }

  method PlanHttp(env: Env, existing: seq<string>, sites: seq<Site>) returns (planned: seq<Site>, skipped: seq<Skip>)
    ensures planned == HttpPlan(env, UrlKeys(env, existing), sites)
    ensures skipped == HttpSkips(env, UrlKeys(env, existing), sites)
  {
    ghost var taken := UrlKeys(env, existing);
    var httpUrls := existing;
    planned, skipped := [], [];
    for i := 0 to |sites|
      invariant UrlKeys(env, httpUrls) == taken + UsableKeys(env, sites[..i])
      invariant planned == HttpPlan(env, taken, sites[..i]) && skipped == HttpSkips(env, taken, sites[..i])
    {
      PlanOneMore(env, taken, sites, i);
      var pick, skip, urls := PlanSite(env, sites[i], httpUrls);
      planned, skipped, httpUrls := planned + pick, skipped + skip, urls;
    }
    assert sites[..|sites|] == sites;
  }

  // ---- Which of them also get an SSL monitor ------------------------------------------------------------

  predicate Https(s: Site) {
    s.Good? && "https://" <= s.url
  }

  predicate SslUsable(env: Env, s: Site) {
    Https(s) && env.checkSsl(s) == None
  }

  function SslHosts(env: Env, sites: seq<Site>): set<string> {
    if sites == [] then {}
    else
      var s := sites[|sites| - 1];
      SslHosts(env, sites[..|sites| - 1]) + if SslUsable(env, s) then {s.host} else {}
  }

  function SslWant(seen: set<string>, s: Site): seq<Site> {
    if Https(s) && s.host !in seen then [s] else []
  }

  function SslPick(env: Env, seen: set<string>, s: Site): seq<Site> {
    if SslUsable(env, s) && s.host !in seen then [s] else []
  }

  function SslSkip(env: Env, seen: set<string>, s: Site): seq<Skip> {
    if Https(s) && s.host !in seen && env.checkSsl(s).Some?
    then [Skip(Ssl, s, Invalid(RStripDot(env.checkSsl(s).value)))] else []
  }

  /** The sites an SSL monitor is wanted for: https, and no usable one of their host before. */
  function SslWanted(env: Env, hosts: set<string>, sites: seq<Site>): seq<Site> {
    if sites == [] then []
    else
      var n := |sites| - 1;
      SslWanted(env, hosts, sites[..n]) + SslWant(hosts + SslHosts(env, sites[..n]), sites[n])
  }

  function SslPlan(env: Env, hosts: set<string>, sites: seq<Site>): seq<Site> {
    if sites == [] then []
    else
      var n := |sites| - 1;
      SslPlan(env, hosts, sites[..n]) + SslPick(env, hosts + SslHosts(env, sites[..n]), sites[n])
  }

  function SslSkips(env: Env, hosts: set<string>, sites: seq<Site>): seq<Skip> {
    if sites == [] then []
    else
      var n := |sites| - 1;
      SslSkips(env, hosts, sites[..n]) + SslSkip(env, hosts + SslHosts(env, sites[..n]), sites[n])
  }

  method PlanSsl(env: Env, hosts: set<string>, sites: seq<Site>) returns (planned: seq<Site>, skipped: seq<Skip>)
    ensures planned == SslPlan(env, hosts, sites) && skipped == SslSkips(env, hosts, sites)
  {
    var sslHosts := hosts;
    planned, skipped := [], [];
    for i := 0 to |sites|
      invariant sslHosts == hosts + SslHosts(env, sites[..i])
      invariant planned == SslPlan(env, hosts, sites[..i]) && skipped == SslSkips(env, hosts, sites[..i])
    {
      assert sites[..i + 1][..i] == sites[..i];
      var s := sites[i];
      if Https(s) && s.host !in sslHosts {
        if env.checkSsl(s).Some? {
          skipped := skipped + [Skip(Ssl, s, Invalid(RStripDot(env.checkSsl(s).value)))];
        } else {
          sslHosts := sslHosts + {s.host};
          planned := planned + [s];
        }
      }
    }
    assert sites[..|sites|] == sites;
  }

  // ---- The whole plan, cut to the room there is -----------------------------------------------------------

  function Items(kind: Kind, sites: seq<Site>): (items: seq<Item>)
    ensures |items| == |sites| && forall i :: 0 <= i < |sites| ==> items[i] == Item(kind, sites[i])
  {
    if sites == [] then [] else Items(kind, sites[..|sites| - 1]) + [Item(kind, sites[|sites| - 1])]
  }

  /** Every HTTP monitor first, in paste order, and then the SSL monitors. */
  function FullPlan(env: Env, taken: set<string>, hosts: set<string>, sites: seq<Site>, alsoSsl: bool): seq<Item> {
    var http := HttpPlan(env, taken, sites);
    if alsoSsl then Items(Http, http) + Items(Ssl, SslPlan(env, hosts, http)) else Items(Http, http)
  }

  function Over(items: seq<Item>): (skips: seq<Skip>)
    ensures |skips| == |items|
  {
    if items == [] then []
    else
      var last := items[|items| - 1];
      Over(items[..|items| - 1]) + [Skip(last.kind, last.site, OverLimit)]
  }

  /** Python's `xs[n:]`. */
  function Rest<T>(xs: seq<T>, n: nat): seq<T> {
    if n < |xs| then xs[n..] else []
  }

  function ValidationSkips(
    env: Env, taken: set<string>, hosts: set<string>, sites: seq<Site>, alsoSsl: bool): seq<Skip>
  {
    if alsoSsl then HttpSkips(env, taken, sites) + SslSkips(env, hosts, HttpPlan(env, taken, sites))
    else HttpSkips(env, taken, sites)
  }

  function AllSkips(
    env: Env, taken: set<string>, hosts: set<string>, sites: seq<Site>, alsoSsl: bool, room: nat): seq<Skip>
  {
    ValidationSkips(env, taken, hosts, sites, alsoSsl)
    + Over(Rest(FullPlan(env, taken, hosts, sites, alsoSsl), room))
  }

  method ReportOver(over: seq<Item>) returns (skips: seq<Skip>)
    ensures skips == Over(over)
  {
    skips := [];
    for i := 0 to |over|
      invariant skips == Over(over[..i])
    {
      assert over[..i + 1][..i] == over[..i];
      skips := skips + [Skip(over[i].kind, over[i].site, OverLimit)];
    }
    assert over[..|over|] == over;
  }

  method PlanAll(env: Env, existing: seq<string>, hosts: set<string>, sites: seq<Site>, alsoSsl: bool)
    returns (all: seq<Item>, skipped: seq<Skip>)
    ensures all == FullPlan(env, UrlKeys(env, existing), hosts, sites, alsoSsl)
    ensures skipped == ValidationSkips(env, UrlKeys(env, existing), hosts, sites, alsoSsl)
  {
    var http, httpSkipped := PlanHttp(env, existing, sites);
    all, skipped := Items(Http, http), httpSkipped;
    if alsoSsl {
      var ssl, sslSkipped := PlanSsl(env, hosts, http);
      all, skipped := all + Items(Ssl, ssl), skipped + sslSkipped;
    }
  }

  method Plan(env: Env, existing: seq<string>, hosts: set<string>, sites: seq<Site>, alsoSsl: bool, room: nat)
    returns (planned: seq<Item>, skipped: seq<Skip>)
    ensures planned == Take(FullPlan(env, UrlKeys(env, existing), hosts, sites, alsoSsl), room)
    ensures skipped == AllSkips(env, UrlKeys(env, existing), hosts, sites, alsoSsl, room)
  {
    var all, early := PlanAll(env, existing, hosts, sites, alsoSsl);
    var late := ReportOver(Rest(all, room));
    planned, skipped := Take(all, room), early + late;
  }

  // ---- Creating the monitors --------------------------------------------------------------------------------

  datatype NewRow = NewRow(name: string, kind: Kind, url: string, interval: int, checkAfter: int)

  function BaseName(item: Item): string
    requires item.site.Good?
  {
    match item.kind
    case Http => item.site.name
    case Ssl => item.site.name + " SSL"
  }

  /** SSL monitors are checked hourly at most. */
  function IntervalOf(kind: Kind, interval: int): int {
    if kind == Ssl then Max(interval, SSL_MIN_INTERVAL) else interval
  }

  function RowOf(item: Item, name: string, interval: int, i: nat): NewRow
    requires item.site.Good?
  {
    var after := Min(i * BULK_STAGGER_SECONDS, BULK_STAGGER_CAP);
    var url := if item.kind == Http then item.site.url else "https://" + item.site.host + ":443";
    NewRow(name, item.kind, url, IntervalOf(item.kind, interval), after)
  }

  /** The names of the first `n` rows. */
  function NamesUpTo(rows: seq<NewRow>, n: nat): set<string>
    requires n <= |rows|
  {
    if n == 0 then {} else NamesUpTo(rows, n - 1) + {rows[n - 1].name}
  }

  predicate AllGood(planned: seq<Item>) {
    forall i :: 0 <= i < |planned| ==> planned[i].site.Good?
  }

  /** Row `i` is that of the i-th planned item, under the first name free at its turn. */
  ghost predicate CreatedInTurn(planned: seq<Item>, names: set<string>, interval: int, rows: seq<NewRow>, i: nat) {
    && i < |planned| && i < |rows| && planned[i].site.Good?
    && rows[i] == RowOf(planned[i], rows[i].name, interval, i)
    && Chosen(BaseName(planned[i]), names + NamesUpTo(rows, i), rows[i].name)
  }

  ghost predicate RowsFor(planned: seq<Item>, names: set<string>, interval: int, rows: seq<NewRow>) {
    |rows| == |planned| && forall i: nat :: i < |planned| ==> CreatedInTurn(planned, names, interval, rows, i)
  }

  lemma {:induction false} NamesUpToAppend(rows: seq<NewRow>, row: NewRow, n: nat)
    requires n <= |rows|
    ensures NamesUpTo(rows + [row], n) == NamesUpTo(rows, n)
  {
    if n > 0 {
      NamesUpToAppend(rows, row, n - 1);
    }
  }

  lemma CreatedInTurnAppend(
    planned: seq<Item>, names: set<string>, interval: int, rows: seq<NewRow>, row: NewRow, i: nat)
    requires CreatedInTurn(planned, names, interval, rows, i)
    ensures CreatedInTurn(planned, names, interval, rows + [row], i)
  {
    NamesUpToAppend(rows, row, i);
  }

  /** One turn of the creating loop. */
  method CreateOne(
    planned: seq<Item>, i: nat, inUse: set<string>, interval: int, rows: seq<NewRow>, ghost names: set<string>)
    returns (row: NewRow, inUse': set<string>)
    requires i < |planned| && planned[i].site.Good? && |rows| == i && inUse == names + NamesUpTo(rows, i)
    ensures inUse' == names + NamesUpTo(rows + [row], i + 1)
    ensures CreatedInTurn(planned, names, interval, rows + [row], i)
  {
    var name;
    name, inUse' := UniqueName(BaseName(planned[i]), inUse);
    row := RowOf(planned[i], name, interval, i);
    NamesUpToAppend(rows, row, i);
  }

  method Create(planned: seq<Item>, names: set<string>, interval: int) returns (rows: seq<NewRow>)
    requires AllGood(planned)
    ensures RowsFor(planned, names, interval, rows)
  {
    var inUse := names;
    rows := [];
    for i := 0 to |planned|
      invariant |rows| == i && inUse == names + NamesUpTo(rows, i)
      invariant forall j: nat :: j < i ==> CreatedInTurn(planned, names, interval, rows, j)
    {
      var row;
      row, inUse := CreateOne(planned, i, inUse, interval, rows, names);
      forall j: nat | j < i ensures CreatedInTurn(planned, names, interval, rows + [row], j) {
        CreatedInTurnAppend(planned, names, interval, rows, row, j);
      }
      rows := rows + [row];
    }
  }
}
