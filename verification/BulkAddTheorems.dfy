/** What bulk add guarantees about a paste: full accounting, no duplicates, HTTP before SSL, fresh names. */
module BulkAddTheorems {
  import opened Common
  import opened Plans
  import opened BulkAdd
  import opened MonitorNames

  // ---- First come, first planned ---------------------------------------------------------------------

  /** What two sites are compared by: the address, or the text that gave none. */
  function Text(s: Site): string {
    if s.Good? then s.url else s.raw
  }

  /** Token `i` is not blank, and no earlier one that is not blank has its address but for letter case. */
  predicate FirstOfKey(env: Env, tokens: seq<string>, i: nat) {
    && i < |tokens| && !env.blank(tokens[i])
    && forall j :: 0 <= j < i && !env.blank(tokens[j]) ==>
         env.lower(Text(env.normalize(tokens[j]))) != env.lower(Text(env.normalize(tokens[i])))
  }

  lemma {:induction false} TokenKeysMember(env: Env, tokens: seq<string>, key: string)
    ensures key in TokenKeys(env, tokens)
            <==> exists j :: 0 <= j < |tokens| && !env.blank(tokens[j])
                             && ParseKey(env, env.normalize(tokens[j])) == key
  {
    if tokens != [] {
      var n := |tokens| - 1;
      TokenKeysMember(env, tokens[..n], key);
      assert forall j :: 0 <= j < n ==> tokens[..n][j] == tokens[j];
    }
  }

  /** `at` lists positions below `n` in order, and among them exactly those that are `chosen`. */
  ghost predicate PositionsOf(at: seq<nat>, n: nat, chosen: nat -> bool) {
    && (forall k :: 0 <= k < |at| ==> at[k] < n && chosen(at[k]))
    && (forall k, l :: 0 <= k < l < |at| ==> at[k] < at[l])
    && (forall i: nat :: i < n && chosen(i) ==> i in at)
  }

  lemma PositionsSnoc(at: seq<nat>, n: nat, before: nat -> bool, after: nat -> bool)
    requires PositionsOf(at, n, before) && forall i: nat :: i < n ==> (before(i) <==> after(i))
    ensures PositionsOf(if after(n) then at + [n] else at, n + 1, after)
  {
    var at' := if after(n) then at + [n] else at;
    forall i: nat | i < n + 1 && after(i) ensures i in at' {
      assert i < n ==> before(i) && i in at;
    }
  }

  /** `picked` are the sites at the positions `at`. */
  predicate PickedAt(picked: seq<Site>, sites: seq<Site>, at: seq<nat>) {
    |picked| == |at| && forall k :: 0 <= k < |at| ==> at[k] < |sites| && picked[k] == sites[at[k]]
  }

  lemma PickedSnoc(picked: seq<Site>, init: seq<Site>, at: seq<nat>, s: Site)
    requires PickedAt(picked, init, at)
    ensures PickedAt(picked, init + [s], at) && PickedAt(picked + [s], init + [s], at + [|init|])
  {
  }

  function Normalized(env: Env, tokens: seq<string>): (sites: seq<Site>)
    ensures |sites| == |tokens| && forall i :: 0 <= i < |tokens| ==> sites[i] == env.normalize(tokens[i])
  {
    seq(|tokens|, i requires 0 <= i < |tokens| => env.normalize(tokens[i]))
  }

  lemma FirstOfKeyPrefix(env: Env, init: seq<string>, token: string, i: nat)
    requires i < |init|
    ensures FirstOfKey(env, init, i) <==> FirstOfKey(env, init + [token], i)
  {
    assert forall j :: 0 <= j <= i ==> (init + [token])[j] == init[j];
  }

  lemma LastToken(env: Env, init: seq<string>, token: string)
    ensures FirstOfKey(env, init + [token], |init|)
            <==> !env.blank(token) && ParseKey(env, env.normalize(token)) !in TokenKeys(env, init)
  {
    TokenKeysMember(env, init, ParseKey(env, env.normalize(token)));
    assert forall j :: 0 <= j < |init| ==> (init + [token])[j] == init[j];
  }

  /** Parsing keeps the first token of every key, in the order of the paste. */
  lemma {:induction false} ParsedAreFirst(env: Env, tokens: seq<string>) returns (at: seq<nat>)
    ensures PositionsOf(at, |tokens|, (i: nat) => FirstOfKey(env, tokens, i))
    ensures PickedAt(Parsed(env, tokens), Normalized(env, tokens), at)
  {
    at := [];
    if tokens != [] {
      var n := |tokens| - 1;
      var init, last := tokens[..n], tokens[n];
      at := ParsedAreFirst(env, init);
      assert tokens == init + [last];
      assert Normalized(env, tokens) == Normalized(env, init) + [env.normalize(last)];
      forall i: nat | i < n ensures FirstOfKey(env, init, i) <==> FirstOfKey(env, tokens, i) {
        FirstOfKeyPrefix(env, init, last, i);
      }
      LastToken(env, init, last);
      ParsedOneMore(env, tokens);
      PositionsSnoc(at, n, (i: nat) => FirstOfKey(env, init, i), (i: nat) => FirstOfKey(env, tokens, i));
      PickedSnoc(Parsed(env, init), Normalized(env, init), at, env.normalize(last));
      at := if FirstOfKey(env, tokens, n) then at + [n] else at;
    }
  }

  /** Site `i` can be monitored, its address is not taken, and no earlier site that can be has that address. */
  predicate FirstOfAddress(env: Env, taken: set<string>, sites: seq<Site>, i: nat) {
    && i < |sites| && sites[i].Good? && env.checkHttp(sites[i]) == None && UrlKey(env, sites[i].url) !in taken
    && forall j :: 0 <= j < i && sites[j].Good? && env.checkHttp(sites[j]) == None ==>
         !SameUrl(env, sites[j].url, sites[i].url)
  }

  lemma {:induction false} UsableKeysMember(env: Env, sites: seq<Site>, key: string)
    ensures key in UsableKeys(env, sites)
            <==> exists j :: 0 <= j < |sites| && Usable(env, sites[j]) && UrlKey(env, sites[j].url) == key
  {
    if sites != [] {
      var n := |sites| - 1;
      UsableKeysMember(env, sites[..n], key);
      assert forall j :: 0 <= j < n ==> sites[..n][j] == sites[j];
    }
  }

  lemma FirstOfAddressPrefix(env: Env, taken: set<string>, init: seq<Site>, s: Site, i: nat)
    requires i < |init|
    ensures FirstOfAddress(env, taken, init, i) <==> FirstOfAddress(env, taken, init + [s], i)
  {
    assert forall j :: 0 <= j <= i ==> (init + [s])[j] == init[j];
  }

  lemma LastOfAddress(env: Env, taken: set<string>, init: seq<Site>, s: Site)
    ensures HttpPick(env, taken + UsableKeys(env, init), s)
            == if FirstOfAddress(env, taken, init + [s], |init|) then [s] else []
  {
    if s.Good? {
      UsableKeysMember(env, init, UrlKey(env, s.url));
    }
    assert forall j :: 0 <= j < |init| ==> (init + [s])[j] == init[j];
  }

  lemma FirstsOneMore(env: Env, taken: set<string>, init: seq<Site>, s: Site)
    ensures forall i: nat :: i < |init| ==>
              (FirstOfAddress(env, taken, init, i) <==> FirstOfAddress(env, taken, init + [s], i))
  {
    forall i: nat | i < |init|
      ensures FirstOfAddress(env, taken, init, i) <==> FirstOfAddress(env, taken, init + [s], i)
    {
      FirstOfAddressPrefix(env, taken, init, s, i);
    }
  }

  lemma PlannedOneMore(env: Env, taken: set<string>, init: seq<Site>, s: Site, at: seq<nat>)
    requires PickedAt(HttpPlan(env, taken, init), init, at)
    ensures var at' := if FirstOfAddress(env, taken, init + [s], |init|) then at + [|init|] else at;
            PickedAt(HttpPlan(env, taken, init + [s]), init + [s], at')
  {
    assert (init + [s])[..|init|] == init;
    LastOfAddress(env, taken, init, s);
    PickedSnoc(HttpPlan(env, taken, init), init, at, s);
  }

  /** HTTP monitors are planned for the first usable site of every free address, in order. */
  lemma {:induction false} HttpPlanIsFirst(env: Env, taken: set<string>, sites: seq<Site>) returns (at: seq<nat>)
    ensures PositionsOf(at, |sites|, (i: nat) => FirstOfAddress(env, taken, sites, i))
    ensures PickedAt(HttpPlan(env, taken, sites), sites, at)
  {
    if sites == [] {
      at := [];
    } else {
      var n := |sites| - 1;
      var init, s := sites[..n], sites[n];
      assert sites == init + [s];
      at := HttpPlanIsFirst(env, taken, init);
      FirstsOneMore(env, taken, init, s);
      PositionsSnoc(at, n, (i: nat) => FirstOfAddress(env, taken, init, i),
                    (i: nat) => FirstOfAddress(env, taken, sites, i));
      PlannedOneMore(env, taken, init, s, at);
      at := if FirstOfAddress(env, taken, sites, n) then at + [n] else at;
    }
  }

  predicate HasCertificate(env: Env, s: Site) {
    s.Good? && "https://" <= s.url && env.checkSsl(s) == None
  }

  /** Site `i` is https, its certificate can be watched, and no SSL monitor, old or earlier, has its host. */
  predicate FirstOfHost(env: Env, hosts: set<string>, sites: seq<Site>, i: nat) {
    && i < |sites| && HasCertificate(env, sites[i]) && sites[i].host !in hosts
    && forall j :: 0 <= j < i && HasCertificate(env, sites[j]) ==> sites[j].host != sites[i].host
  }

  lemma {:induction false} SslHostsMember(env: Env, sites: seq<Site>, host: string)
    ensures host in SslHosts(env, sites)
            <==> exists j :: 0 <= j < |sites| && SslUsable(env, sites[j]) && sites[j].host == host
  {
    if sites != [] {
      var n := |sites| - 1;
      SslHostsMember(env, sites[..n], host);
      assert forall j :: 0 <= j < n ==> sites[..n][j] == sites[j];
    }
  }

  lemma FirstOfHostPrefix(env: Env, hosts: set<string>, init: seq<Site>, s: Site, i: nat)
    requires i < |init|
    ensures FirstOfHost(env, hosts, init, i) <==> FirstOfHost(env, hosts, init + [s], i)
  {
    assert forall j :: 0 <= j <= i ==> (init + [s])[j] == init[j];
  }

  lemma LastOfHost(env: Env, hosts: set<string>, init: seq<Site>, s: Site)
    ensures SslPick(env, hosts + SslHosts(env, init), s)
            == if FirstOfHost(env, hosts, init + [s], |init|) then [s] else []
  {
    if s.Good? {
      SslHostsMember(env, init, s.host);
    }
    assert forall j :: 0 <= j < |init| ==> (init + [s])[j] == init[j];
  }

  /** SSL monitors are planned for the first usable https site of every free host, in order. */
  lemma {:induction false} SslPlanIsFirst(env: Env, hosts: set<string>, sites: seq<Site>) returns (at: seq<nat>)
    ensures PositionsOf(at, |sites|, (i: nat) => FirstOfHost(env, hosts, sites, i))
    ensures PickedAt(SslPlan(env, hosts, sites), sites, at)
  {
    at := [];
    if sites != [] {
      var n := |sites| - 1;
      var init, s := sites[..n], sites[n];
      at := SslPlanIsFirst(env, hosts, init);
      assert sites == init + [s];
      forall i: nat | i < n ensures FirstOfHost(env, hosts, init, i) <==> FirstOfHost(env, hosts, sites, i) {
        FirstOfHostPrefix(env, hosts, init, s, i);
      }
      LastOfHost(env, hosts, init, s);
      PositionsSnoc(at, n, (i: nat) => FirstOfHost(env, hosts, init, i), (i: nat) => FirstOfHost(env, hosts, sites, i));
      PickedSnoc(SslPlan(env, hosts, init), init, at, s);
      at := if FirstOfHost(env, hosts, sites, n) then at + [n] else at;
    }
  }

  // ---- Why a site is skipped -------------------------------------------------------------------------

  /** `x` is what the paste's site `i` is skipped for: it did not parse, is monitored already, or was refused. */
  ghost predicate SkippedFor(env: Env, taken: set<string>, sites: seq<Site>, i: nat, x: Skip) {
    && i < |sites| && x.kind == Http && x.site == sites[i]
    && var s := sites[i];
       if s.Bad? then x.why == BadSite(s.error)
       else
         var known := UrlKey(env, s.url) in taken
                      || exists j :: 0 <= j < i && sites[j].Good? && env.checkHttp(sites[j]) == None
                                     && SameUrl(env, sites[j].url, s.url);
         if known then x.why == AlreadyMonitored
         else env.checkHttp(s).Some? && x.why == Invalid(RStrip(env.checkHttp(s).value, '.'))
  }

  lemma SkippedForPrefix(env: Env, taken: set<string>, init: seq<Site>, s: Site, i: nat, x: Skip)
    requires i < |init|
    ensures SkippedFor(env, taken, init, i, x) <==> SkippedFor(env, taken, init + [s], i, x)
  {
    assert forall j :: 0 <= j <= i ==> (init + [s])[j] == init[j];
  }

  /** The last site is planned or skipped for a reason. */
  lemma LastSkip(env: Env, taken: set<string>, init: seq<Site>, s: Site) returns (x: Skip)
    ensures FirstOfAddress(env, taken, init + [s], |init|) ==>
              HttpSkips(env, taken, init + [s]) == HttpSkips(env, taken, init)
    ensures !FirstOfAddress(env, taken, init + [s], |init|) ==>
              HttpSkips(env, taken, init + [s]) == HttpSkips(env, taken, init) + [x]
              && SkippedFor(env, taken, init + [s], |init|, x)
  {
    var seen := taken + UsableKeys(env, init);
    assert (init + [s])[..|init|] == init;
    assert HttpSkips(env, taken, init + [s]) == HttpSkips(env, taken, init) + HttpSkip(env, seen, s);
    LastOfAddress(env, taken, init, s);
    LastReason(env, taken, init, s);
    var skip := HttpSkip(env, seen, s);
    x := if skip == [] then Skip(Http, s, AlreadyMonitored) else skip[0];
    assert skip != [] ==> skip == [x];
  }

  lemma LastReason(env: Env, taken: set<string>, init: seq<Site>, s: Site)
    ensures var seen := taken + UsableKeys(env, init);
            var skip := HttpSkip(env, seen, s);
            && (skip == [] <==> HttpPick(env, seen, s) == [s])
            && (skip != [] ==> |skip| == 1 && SkippedFor(env, taken, init + [s], |init|, skip[0]))
  {
    if s.Good? {
      UsableKeysMember(env, init, UrlKey(env, s.url));
    }
    assert forall j :: 0 <= j < |init| ==> (init + [s])[j] == init[j];
  }

  ghost predicate AllSkippedFor(env: Env, taken: set<string>, sites: seq<Site>, at: seq<nat>, skips: seq<Skip>) {
    |at| == |skips| && forall k :: 0 <= k < |at| ==> SkippedFor(env, taken, sites, at[k], skips[k])
  }

  lemma AllSkippedForPrefix(
    env: Env, taken: set<string>, init: seq<Site>, s: Site, at: seq<nat>, skips: seq<Skip>)
    requires AllSkippedFor(env, taken, init, at, skips)
    ensures AllSkippedFor(env, taken, init + [s], at, skips)
  {
    forall k | 0 <= k < |at| ensures SkippedFor(env, taken, init + [s], at[k], skips[k]) {
      SkippedForPrefix(env, taken, init, s, at[k], skips[k]);
    }
  }

  lemma SkipsOneMore(env: Env, taken: set<string>, init: seq<Site>, s: Site, at: seq<nat>)
    requires AllSkippedFor(env, taken, init, at, HttpSkips(env, taken, init))
    ensures var at' := if FirstOfAddress(env, taken, init + [s], |init|) then at else at + [|init|];
            AllSkippedFor(env, taken, init + [s], at', HttpSkips(env, taken, init + [s]))
  {
    AllSkippedForPrefix(env, taken, init, s, at, HttpSkips(env, taken, init));
    var x := LastSkip(env, taken, init, s);
  }

  /** The skipped HTTP sites are exactly the others, in order, each with its own reason. */
  lemma {:induction false} SkipsSayWhy(env: Env, taken: set<string>, sites: seq<Site>) returns (at: seq<nat>)
    ensures AllSkippedFor(env, taken, sites, at, HttpSkips(env, taken, sites))
    ensures PositionsOf(at, |sites|, (i: nat) => !FirstOfAddress(env, taken, sites, i))
  {
    if sites == [] {
      at := [];
    } else {
      var n := |sites| - 1;
      var init, s := sites[..n], sites[n];
      assert sites == init + [s];
      at := SkipsSayWhy(env, taken, init);
      FirstsOneMore(env, taken, init, s);
      PositionsSnoc(at, n, (i: nat) => !FirstOfAddress(env, taken, init, i),
                    (i: nat) => !FirstOfAddress(env, taken, sites, i));
      SkipsOneMore(env, taken, init, s, at);
      at := if FirstOfAddress(env, taken, sites, n) then at else at + [n];
    }
  }

  /** Site `i` is skipped for SSL: https, its host still free when its turn comes, and refused as `x` says. */
  ghost predicate SslRefused(env: Env, hosts: set<string>, sites: seq<Site>, i: nat, x: Skip) {
    && i < |sites| && sites[i].Good? && "https://" <= sites[i].url && sites[i].host !in hosts
    && (forall j :: 0 <= j < i && HasCertificate(env, sites[j]) ==> sites[j].host != sites[i].host)
    && env.checkSsl(sites[i]).Some?
    && x == Skip(Ssl, sites[i], Invalid(RStrip(env.checkSsl(sites[i]).value, '.')))
  }

  lemma SslRefusedPrefix(env: Env, hosts: set<string>, init: seq<Site>, s: Site, i: nat, x: Skip)
    requires SslRefused(env, hosts, init, i, x)
    ensures SslRefused(env, hosts, init + [s], i, x)
  {
    assert forall j :: 0 <= j <= i ==> (init + [s])[j] == init[j];
  }

  lemma LastSslSkip(env: Env, hosts: set<string>, init: seq<Site>, s: Site)
    ensures var skip := SslSkip(env, hosts + SslHosts(env, init), s);
            |skip| <= 1 && (skip != [] ==> SslRefused(env, hosts, init + [s], |init|, skip[0]))
  {
    if s.Good? {
      SslHostsMember(env, init, s.host);
    }
    assert forall j :: 0 <= j < |init| ==> (init + [s])[j] == init[j];
  }

  /** Every skip reported for SSL is the validator's refusal of an https site with a free host. */
  lemma {:induction false} SslSkipsSayWhy(env: Env, hosts: set<string>, sites: seq<Site>, x: Skip) returns (i: nat)
    requires x in SslSkips(env, hosts, sites)
    ensures SslRefused(env, hosts, sites, i, x)
  {
    var n := |sites| - 1;
    var init, s := sites[..n], sites[n];
    assert sites == init + [s];
    LastSslSkip(env, hosts, init, s);
    if x in SslSkips(env, hosts, init) {
      i := SslSkipsSayWhy(env, hosts, init, x);
      SslRefusedPrefix(env, hosts, init, s, i, x);
    } else {
      i := n;
    }
  }

  /** What was planned beyond the room is reported in order, as over the limit. */
  lemma {:induction false} CutSaysOverLimit(items: seq<Item>, i: nat)
    requires i < |items|
    ensures Over(items)[i] == Skip(items[i].kind, items[i].site, OverLimit)
  {
    if i < |items| - 1 {
      CutSaysOverLimit(items[..|items| - 1], i);
    }
  }

  // ---- Accounting ------------------------------------------------------------------------------------

  /** The sites of the items of one kind, in order. */
  function SitesOf(kind: Kind, items: seq<Item>): seq<Site> {
    if items == [] then []
    else
      var last := items[|items| - 1];
      SitesOf(kind, items[..|items| - 1]) + if last.kind == kind then [last.site] else []
  }

  function SkipsOf(kind: Kind, skips: seq<Skip>): seq<Site> {
    if skips == [] then []
    else
      var last := skips[|skips| - 1];
      SkipsOf(kind, skips[..|skips| - 1]) + if last.kind == kind then [last.site] else []
  }

  lemma {:induction false} SitesOfSplit(kind: Kind, a: seq<Item>, b: seq<Item>)
    ensures SitesOf(kind, a + b) == SitesOf(kind, a) + SitesOf(kind, b)
  {
    if b == [] {
      assert a + b == a;
    } else {
      var n := |b| - 1;
      assert (a + b)[..|a| + n] == a + b[..n];
      SitesOfSplit(kind, a, b[..n]);
    }
  }

  lemma {:induction false} SkipsOfSplit(kind: Kind, a: seq<Skip>, b: seq<Skip>)
    ensures SkipsOf(kind, a + b) == SkipsOf(kind, a) + SkipsOf(kind, b)
  {
    if b == [] {
      assert a + b == a;
    } else {
      var n := |b| - 1;
      assert (a + b)[..|a| + n] == a + b[..n];
      SkipsOfSplit(kind, a, b[..n]);
    }
  }

  lemma {:induction false} SitesOfItems(kind: Kind, made: Kind, sites: seq<Site>)
    ensures SitesOf(kind, Items(made, sites)) == if kind == made then sites else []
  {
    if sites != [] {
      var n := |sites| - 1;
      SitesOfItems(kind, made, sites[..n]);
      assert Items(made, sites)[..n] == Items(made, sites[..n]);
    }
  }

  lemma {:induction false} SkipsOfOver(kind: Kind, items: seq<Item>)
    ensures SkipsOf(kind, Over(items)) == SitesOf(kind, items)
  {
    if items != [] {
      var n := |items| - 1;
      SkipsOfOver(kind, items[..n]);
      assert Over(items)[..n] == Over(items[..n]);
    }
  }

  /** How often a site occurs. */
  function Times(sites: seq<Site>, x: Site): nat {
    if sites == [] then 0
    else Times(sites[..|sites| - 1], x) + if sites[|sites| - 1] == x then 1 else 0
  }

  lemma {:induction false} TimesSplit(a: seq<Site>, b: seq<Site>, x: Site)
    ensures Times(a + b, x) == Times(a, x) + Times(b, x)
  {
    if b == [] {
      assert a + b == a;
    } else {
      var n := |b| - 1;
      assert (a + b)[..|a| + n] == a + b[..n];
      TimesSplit(a, b[..n], x);
    }
  }

  /** One site: planned or skipped, and not both. */
  lemma OneSiteAccounted(env: Env, seen: set<string>, s: Site)
    ensures SkipsOf(Ssl, HttpSkip(env, seen, s)) == []
    ensures HttpPick(env, seen, s) + SkipsOf(Http, HttpSkip(env, seen, s)) == [s]
  {
    var skips := HttpSkip(env, seen, s);
    if skips != [] {
      assert skips[..0] == [];
    }
  }

  lemma {:induction false} HttpAccounted(env: Env, taken: set<string>, sites: seq<Site>, x: Site)
    ensures Times(HttpPlan(env, taken, sites), x) + Times(SkipsOf(Http, HttpSkips(env, taken, sites)), x)
            == Times(sites, x)
    ensures SkipsOf(Ssl, HttpSkips(env, taken, sites)) == []
  {
    if sites != [] {
      var init, s := sites[..|sites| - 1], sites[|sites| - 1];
      HttpAccounted(env, taken, init, x);
      HttpAccountedStep(env, taken, init, s, x);
    }
  }

  lemma HttpAccountedStep(env: Env, taken: set<string>, init: seq<Site>, s: Site, x: Site)
    ensures var seen, skips := taken + UsableKeys(env, init), HttpSkips(env, taken, init);
            var plan, pick, skip := HttpPlan(env, taken, init), HttpPick(env, seen, s), HttpSkip(env, seen, s);
            && Times(plan + pick, x) + Times(SkipsOf(Http, skips + skip), x)
               == Times(plan, x) + Times(SkipsOf(Http, skips), x) + (if s == x then 1 else 0)
            && SkipsOf(Ssl, skips + skip) == SkipsOf(Ssl, skips)
  {
    var seen, skips := taken + UsableKeys(env, init), HttpSkips(env, taken, init);
    var plan, pick, skip := HttpPlan(env, taken, init), HttpPick(env, seen, s), HttpSkip(env, seen, s);
    SkipsOfSplit(Http, skips, skip);
    SkipsOfSplit(Ssl, skips, skip);
    TimesSplit(plan, pick, x);
    TimesSplit(SkipsOf(Http, skips), SkipsOf(Http, skip), x);
    OneSiteAccounted(env, seen, s);
    TimesSplit(pick, SkipsOf(Http, skip), x);
    assert Times([s], x) == if s == x then 1 else 0 by {
      assert [s][..0] == [];
    }
  }

  lemma OneSslAccounted(env: Env, seen: set<string>, s: Site)
    ensures SkipsOf(Http, SslSkip(env, seen, s)) == []
    ensures SslPick(env, seen, s) + SkipsOf(Ssl, SslSkip(env, seen, s)) == SslWant(seen, s)
  {
    var skips := SslSkip(env, seen, s);
    if skips != [] {
      assert skips[..0] == [];
    }
  }

  lemma {:induction false} SslAccounted(env: Env, hosts: set<string>, sites: seq<Site>, x: Site)
    ensures Times(SslPlan(env, hosts, sites), x) + Times(SkipsOf(Ssl, SslSkips(env, hosts, sites)), x)
            == Times(SslWanted(env, hosts, sites), x)
    ensures SkipsOf(Http, SslSkips(env, hosts, sites)) == []
  {
    if sites != [] {
      var init, s := sites[..|sites| - 1], sites[|sites| - 1];
      SslAccounted(env, hosts, init, x);
      SslAccountedStep(env, hosts, init, s, x);
    }
  }

  lemma SslAccountedStep(env: Env, hosts: set<string>, init: seq<Site>, s: Site, x: Site)
    ensures var seen, skips := hosts + SslHosts(env, init), SslSkips(env, hosts, init);
            var plan, want := SslPlan(env, hosts, init), SslWanted(env, hosts, init);
            && Times(plan + SslPick(env, seen, s), x) + Times(SkipsOf(Ssl, skips + SslSkip(env, seen, s)), x)
                 - Times(want + SslWant(seen, s), x)
               == Times(plan, x) + Times(SkipsOf(Ssl, skips), x) - Times(want, x)
            && SkipsOf(Http, skips + SslSkip(env, seen, s)) == SkipsOf(Http, skips)
  {
    var seen, skips := hosts + SslHosts(env, init), SslSkips(env, hosts, init);
    var pick, skip, want := SslPick(env, seen, s), SslSkip(env, seen, s), SslWant(seen, s);
    SkipsOfSplit(Ssl, skips, skip);
    SkipsOfSplit(Http, skips, skip);
    TimesSplit(SslPlan(env, hosts, init), pick, x);
    TimesSplit(SkipsOf(Ssl, skips), SkipsOf(Ssl, skip), x);
    OneSslAccounted(env, seen, s);
    TimesSplit(pick, SkipsOf(Ssl, skip), x);
    TimesSplit(SslWanted(env, hosts, init), want, x);
  }

  lemma CutAccounted(kind: Kind, all: seq<Item>, room: nat)
    ensures SitesOf(kind, Take(all, room)) + SkipsOf(kind, Over(Rest(all, room))) == SitesOf(kind, all)
  {
    assert all == Take(all, room) + Rest(all, room);
    SitesOfSplit(kind, Take(all, room), Rest(all, room));
    SkipsOfOver(kind, Rest(all, room));
  }

  lemma SitesOfFullPlan(env: Env, taken: set<string>, hosts: set<string>, sites: seq<Site>, alsoSsl: bool)
    ensures var all, http := FullPlan(env, taken, hosts, sites, alsoSsl), HttpPlan(env, taken, sites);
            && SitesOf(Http, all) == http
            && SitesOf(Ssl, all) == if alsoSsl then SslPlan(env, hosts, http) else []
  {
    var http := HttpPlan(env, taken, sites);
    SitesOfItems(Http, Http, http);
    SitesOfItems(Ssl, Http, http);
    if alsoSsl {
      var ssl := SslPlan(env, hosts, http);
      SitesOfItems(Http, Ssl, ssl);
      SitesOfItems(Ssl, Ssl, ssl);
      SitesOfSplit(Http, Items(Http, http), Items(Ssl, ssl));
      SitesOfSplit(Ssl, Items(Http, http), Items(Ssl, ssl));
    }
  }

  lemma NoStrayHttpSkips(env: Env, taken: set<string>, sites: seq<Site>)
    ensures SkipsOf(Ssl, HttpSkips(env, taken, sites)) == []
  {
    HttpAccounted(env, taken, sites, Bad("", ""));
  }

  lemma NoStraySslSkips(env: Env, hosts: set<string>, sites: seq<Site>)
    ensures SkipsOf(Http, SslSkips(env, hosts, sites)) == []
  {
    SslAccounted(env, hosts, sites, Bad("", ""));
  }

  lemma ValidationSkipsByKind(env: Env, taken: set<string>, hosts: set<string>, sites: seq<Site>, alsoSsl: bool)
    ensures var skips, http := ValidationSkips(env, taken, hosts, sites, alsoSsl), HttpPlan(env, taken, sites);
            && SkipsOf(Http, skips) == SkipsOf(Http, HttpSkips(env, taken, sites))
            && SkipsOf(Ssl, skips) == if alsoSsl then SkipsOf(Ssl, SslSkips(env, hosts, http)) else []
  {
    NoStrayHttpSkips(env, taken, sites);
    if alsoSsl {
      var http := HttpPlan(env, taken, sites);
      NoStraySslSkips(env, hosts, http);
      SkipsOfSplit(Http, HttpSkips(env, taken, sites), SslSkips(env, hosts, http));
      SkipsOfSplit(Ssl, HttpSkips(env, taken, sites), SslSkips(env, hosts, http));
    }
  }

  /**
   * Every site of the paste is either created or reported as skipped, exactly once (as often as it was
   * pasted); so is every SSL monitor that was asked for.
   */
  lemma EverySiteAccountedOnce(
    env: Env, taken: set<string>, hosts: set<string>, sites: seq<Site>, alsoSsl: bool, room: nat, x: Site)
    ensures var created := Take(FullPlan(env, taken, hosts, sites, alsoSsl), room);
            var skipped := AllSkips(env, taken, hosts, sites, alsoSsl, room);
            && Times(SitesOf(Http, created), x) + Times(SkipsOf(Http, skipped), x) == Times(sites, x)
            && Times(SitesOf(Ssl, created), x) + Times(SkipsOf(Ssl, skipped), x)
               == if alsoSsl then Times(SslWanted(env, hosts, HttpPlan(env, taken, sites)), x) else 0
  {
    var all := FullPlan(env, taken, hosts, sites, alsoSsl);
    var early := ValidationSkips(env, taken, hosts, sites, alsoSsl);
    ValidationSkipsByKind(env, taken, hosts, sites, alsoSsl);
    SitesOfFullPlan(env, taken, hosts, sites, alsoSsl);
    HttpAccounted(env, taken, sites, x);
    SslAccounted(env, hosts, HttpPlan(env, taken, sites), x);
    KindAccounted(Http, all, early, room, x);
    KindAccounted(Ssl, all, early, room, x);
  }

  lemma KindAccounted(kind: Kind, all: seq<Item>, early: seq<Skip>, room: nat, x: Site)
    ensures Times(SitesOf(kind, Take(all, room)), x) + Times(SkipsOf(kind, early + Over(Rest(all, room))), x)
            == Times(SitesOf(kind, all), x) + Times(SkipsOf(kind, early), x)
  {
    CutAccounted(kind, all, room);
    SkipsOfSplit(kind, early, Over(Rest(all, room)));
    TimesSplit(SkipsOf(kind, early), SkipsOf(kind, Over(Rest(all, room))), x);
    TimesSplit(SitesOf(kind, Take(all, room)), SkipsOf(kind, Over(Rest(all, room))), x);
  }

  // ---- No duplicate addresses, and none left out ---------------------------------------------------------

  /** What is known of a planned site: usable, from the paste, and at an address not taken. */
  predicate PlanEntry(env: Env, taken: set<string>, sites: seq<Site>, s: Site) {
    Usable(env, s) && s in sites && UrlKey(env, s.url) in UsableKeys(env, sites) - taken
  }

  lemma PlanEntrySnoc(env: Env, taken: set<string>, sites: seq<Site>, s: Site, x: Site)
    ensures PlanEntry(env, taken, sites, x) ==> PlanEntry(env, taken, sites + [s], x)
    ensures Usable(env, s) && UrlKey(env, s.url) !in taken ==> PlanEntry(env, taken, sites + [s], s)
  {
    assert (sites + [s])[..|sites|] == sites;
  }

  lemma {:induction false} PlannedIsUsable(env: Env, taken: set<string>, sites: seq<Site>)
    ensures forall i :: 0 <= i < |HttpPlan(env, taken, sites)| ==>
              PlanEntry(env, taken, sites, HttpPlan(env, taken, sites)[i])
  {
    if sites != [] {
      var n := |sites| - 1;
      var before, plan := HttpPlan(env, taken, sites[..n]), HttpPlan(env, taken, sites);
      PlannedIsUsable(env, taken, sites[..n]);
      assert sites == sites[..n] + [sites[n]];
      forall i | 0 <= i < |plan| ensures PlanEntry(env, taken, sites, plan[i]) {
        PlanEntrySnoc(env, taken, sites[..n], sites[n], plan[i]);
        assert i < |before| ==> plan[i] == before[i];
      }
    }
  }

  predicate AllDiffer(env: Env, plan: seq<Site>) {
    forall i, j :: 0 <= i < j < |plan| ==>
      plan[i].Good? && plan[j].Good? && !SameUrl(env, plan[i].url, plan[j].url)
  }

  /** No two planned HTTP monitors have the same address. */
  lemma {:induction false} PlannedAddressesDiffer(env: Env, taken: set<string>, sites: seq<Site>)
    ensures AllDiffer(env, HttpPlan(env, taken, sites))
  {
    if sites != [] {
      var n := |sites| - 1;
      var before, plan := HttpPlan(env, taken, sites[..n]), HttpPlan(env, taken, sites);
      PlannedAddressesDiffer(env, taken, sites[..n]);
      PlannedIsUsable(env, taken, sites[..n]);
      forall i, j | 0 <= i < j < |plan|
        ensures plan[i].Good? && plan[j].Good? && !SameUrl(env, plan[i].url, plan[j].url)
      {
        assert plan[i] == before[i] && PlanEntry(env, taken, sites[..n], before[i]);
        assert j < |before| ==> plan[j] == before[j];
      }
    }
  }

  /** Addresses of a list of good sites. */
  function Addresses(env: Env, sites: seq<Site>): set<string> {
    if sites == [] then {}
    else
      var s := sites[|sites| - 1];
      Addresses(env, sites[..|sites| - 1]) + if s.Good? then {UrlKey(env, s.url)} else {}
  }

  /** After planning, exactly the addresses that were taken or asked for usably are monitored. */
  lemma {:induction false} EveryUsableAddressIsPlanned(env: Env, taken: set<string>, sites: seq<Site>)
    ensures taken + Addresses(env, HttpPlan(env, taken, sites)) == taken + UsableKeys(env, sites)
  {
    if sites != [] {
      var n := |sites| - 1;
      EveryUsableAddressIsPlanned(env, taken, sites[..n]);
      var before, s := HttpPlan(env, taken, sites[..n]), sites[n];
      assert (before + [s])[..|before|] == before && before + [] == before;
    }
  }

  predicate NewHosts(env: Env, hosts: set<string>, sites: seq<Site>, plan: seq<Site>) {
    forall i :: 0 <= i < |plan| ==> SslUsable(env, plan[i]) && plan[i].host in SslHosts(env, sites) - hosts
  }

  predicate HostsDiffer(plan: seq<Site>) {
    forall i, j :: 0 <= i < j < |plan| ==> plan[i].Good? && plan[j].Good? && plan[i].host != plan[j].host
  }

  /** An SSL monitor per host at most, and none for a host that has one. */
  lemma {:induction false} SslHostsDiffer(env: Env, hosts: set<string>, sites: seq<Site>)
    ensures NewHosts(env, hosts, sites, SslPlan(env, hosts, sites)) && HostsDiffer(SslPlan(env, hosts, sites))
  {
    if sites != [] {
      var n := |sites| - 1;
      var before, plan := SslPlan(env, hosts, sites[..n]), SslPlan(env, hosts, sites);
      SslHostsDiffer(env, hosts, sites[..n]);
      forall i | 0 <= i < |plan| ensures SslUsable(env, plan[i]) && plan[i].host in SslHosts(env, sites) - hosts {
        assert i < |before| ==> plan[i] == before[i];
      }
      forall i, j | 0 <= i < j < |plan| ensures plan[i].Good? && plan[j].Good? && plan[i].host != plan[j].host {
        assert plan[i] == before[i];
        assert j < |before| ==> plan[j] == before[j];
      }
    }
  }

  // ---- The cut ----------------------------------------------------------------------------------------------

  /**
   * The cut: as many monitors are created as there is room for, and if a site's HTTP monitor is cut then
   * no SSL monitor is created.
   */
  lemma HttpBeforeSsl(env: Env, taken: set<string>, hosts: set<string>, sites: seq<Site>, alsoSsl: bool, room: nat)
    ensures var all := FullPlan(env, taken, hosts, sites, alsoSsl);
            && |Take(all, room)| == Min(room, |all|)
            && (SitesOf(Http, Rest(all, room)) != [] ==> SitesOf(Ssl, Take(all, room)) == [])
  {
    var all, http := FullPlan(env, taken, hosts, sites, alsoSsl), HttpPlan(env, taken, sites);
    assert forall i :: 0 <= i < |all| ==> (all[i].kind == Http <==> i < |http|);
    CutIn(all, |http|, room);
  }

  /** A list of HTTP items followed by SSL items, cut anywhere. */
  lemma CutIn(all: seq<Item>, http: nat, room: nat)
    requires forall i :: 0 <= i < |all| ==> (all[i].kind == Http <==> i < http)
    ensures SitesOf(Http, Rest(all, room)) != [] ==> SitesOf(Ssl, Take(all, room)) == []
  {
    if room <= http {
      assert forall i :: 0 <= i < |Take(all, room)| ==> Take(all, room)[i] == all[i];
      NoneOf(Ssl, Take(all, room));
    } else {
      assert forall i :: 0 <= i < |Rest(all, room)| ==> Rest(all, room)[i] == all[room + i];
      NoneOf(Http, Rest(all, room));
    }
  }

  lemma {:induction false} NoneOf(kind: Kind, items: seq<Item>)
    requires forall i :: 0 <= i < |items| ==> items[i].kind != kind
    ensures SitesOf(kind, items) == []
  {
    if items != [] {
      NoneOf(kind, items[..|items| - 1]);
    }
  }

  // ---- The created rows --------------------------------------------------------------------------------------

  lemma PlanIsGood(env: Env, taken: set<string>, hosts: set<string>, sites: seq<Site>, alsoSsl: bool)
    ensures AllGood(FullPlan(env, taken, hosts, sites, alsoSsl))
  {
    var http := HttpPlan(env, taken, sites);
    PlannedIsUsable(env, taken, sites);
    SslHostsDiffer(env, hosts, http);
    forall i | 0 <= i < |http| ensures http[i].Good? {
      assert PlanEntry(env, taken, sites, http[i]);
    }
  }

  lemma {:induction false} NameIn(rows: seq<NewRow>, i: nat, n: nat)
    requires i < n <= |rows|
    ensures rows[i].name in NamesUpTo(rows, n)
  {
    if i < n - 1 {
      NameIn(rows, i, n - 1);
    }
  }

  predicate FreshNames(names: set<string>, rows: seq<NewRow>) {
    && (forall i :: 0 <= i < |rows| ==> rows[i].name !in names)
    && (forall i, j :: 0 <= i < j < |rows| ==> rows[i].name != rows[j].name)
  }

  /** Created monitors carry names nobody else has. */
  lemma NamesAreFresh(planned: seq<Item>, names: set<string>, interval: int, rows: seq<NewRow>)
    requires RowsFor(planned, names, interval, rows)
    ensures |rows| == |planned| && FreshNames(names, rows)
  {
    forall i: nat, j: nat | i < j < |rows| ensures rows[i].name != rows[j].name {
      NameIn(rows, i, j);
      assert CreatedInTurn(planned, names, interval, rows, j);
    }
    forall i: nat | i < |rows| ensures rows[i].name !in names {
      assert CreatedInTurn(planned, names, interval, rows, i);
    }
  }

  /**
   * Row by row: an HTTP monitor has the site's address and the interval asked for; an SSL monitor has port
   * 443 of the site's host and that interval, but at least an hour. The first name tried is the site's,
   * with " SSL" for the latter; the i-th row starts 2i seconds from now, or two minutes if that is less.
   */
  lemma RowsFollowThePlan(
    planned: seq<Item>, names: set<string>, interval: int, rows: seq<NewRow>, i: nat)
    requires RowsFor(planned, names, interval, rows) && i < |planned|
    ensures |rows| == |planned| && planned[i].site.Good?
    ensures rows[i].kind == planned[i].kind
    ensures rows[i].kind == Http ==>
              && rows[i].url == planned[i].site.url && rows[i].interval == interval
              && Chosen(planned[i].site.name, names + NamesUpTo(rows, i), rows[i].name)
    ensures rows[i].kind == Ssl ==>
              && rows[i].url == "https://" + planned[i].site.host + ":443"
              && rows[i].interval == (if interval < 3600 then 3600 else interval)
              && Chosen(planned[i].site.name + " SSL", names + NamesUpTo(rows, i), rows[i].name)
    ensures rows[i].checkAfter == if 2 * i < 120 then 2 * i else 120
  {
    assert CreatedInTurn(planned, names, interval, rows, i);
  }

  lemma {:induction false} UrlKeysMember(env: Env, urls: seq<string>, u: string)
    requires u in urls
    ensures UrlKey(env, u) in UrlKeys(env, urls)
  {
    var n := |urls| - 1;
    if u != urls[n] {
      assert urls == urls[..n] + [urls[n]];
      UrlKeysMember(env, urls[..n], u);
    }
  }

  lemma CreatedRow(
    env: Env, taken: set<string>, hosts: set<string>, sites: seq<Site>, alsoSsl: bool, room: nat,
    names: set<string>, interval: int, rows: seq<NewRow>, i: nat)
    requires var created := Take(FullPlan(env, taken, hosts, sites, alsoSsl), room);
             RowsFor(created, names, interval, rows)
    requires i < |rows| && rows[i].kind == Http
    ensures var http := HttpPlan(env, taken, sites);
            i < |http| && PlanEntry(env, taken, sites, http[i]) && rows[i].url == http[i].url
  {
    var all := FullPlan(env, taken, hosts, sites, alsoSsl);
    var created := Take(all, room);
    RowsFollowThePlan(created, names, interval, rows, i);
    assert created[i] == all[i];
    PlannedIsUsable(env, taken, sites);
  }

  /**
   * No created HTTP monitor has the address of an existing one or of another created one, for any paste
   * and any limit.
   */
  lemma CreatedAddressesAreNew(
    env: Env, existing: seq<string>, hosts: set<string>, sites: seq<Site>, alsoSsl: bool, room: nat,
    names: set<string>, interval: int, rows: seq<NewRow>)
    requires var created := Take(FullPlan(env, UrlKeys(env, existing), hosts, sites, alsoSsl), room);
             RowsFor(created, names, interval, rows)
    ensures forall i, u :: 0 <= i < |rows| && rows[i].kind == Http && u in existing ==> !SameUrl(env, rows[i].url, u)
    ensures forall i, j :: 0 <= i < j < |rows| && rows[i].kind == Http && rows[j].kind == Http ==>
              !SameUrl(env, rows[i].url, rows[j].url)
  {
    var taken := UrlKeys(env, existing);
    PlannedAddressesDiffer(env, taken, sites);
    forall i, u | 0 <= i < |rows| && rows[i].kind == Http && u in existing
      ensures !SameUrl(env, rows[i].url, u)
    {
      CreatedRow(env, taken, hosts, sites, alsoSsl, room, names, interval, rows, i);
      UrlKeysMember(env, existing, u);
    }
    forall i, j | 0 <= i < j < |rows| && rows[i].kind == Http && rows[j].kind == Http
      ensures !SameUrl(env, rows[i].url, rows[j].url)
    {
      CreatedRow(env, taken, hosts, sites, alsoSsl, room, names, interval, rows, i);
      CreatedRow(env, taken, hosts, sites, alsoSsl, room, names, interval, rows, j);
    }
  }
}
