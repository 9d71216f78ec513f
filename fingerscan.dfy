/**
 * Web fingerprinting (`fingerscan/web.go`): the rule checker `checkRule`,
 * `identifyResponse` (the dispatch on the shape of each fingerprint key and
 * the md5 path probes), the joining of a probe path onto the page URL, and
 * the charset normalisation of the page fetcher.
 */
module FingerScan {
  import opened Types
  import opened Strs

  datatype UrlHash = UrlHash(url: string, hash: string)

  /** One fingerprint of the rule file. */
  datatype FingerArg = FingerArg(id: int, name: string, key: string, version: string, path: seq<UrlHash>)

  /** The fetched page the rules are checked against. */
  datatype WebResponse = WebResponse(
    url: string,
    stateCode: int,
    body: string,
    title: string,
    header: map<string, seq<string>>)

  datatype Results = Results(url: string, fingerPrint: seq<string>)

  // ---------------------------------------------------------------- checkRule

  /**
   * The text of the `name="…"` clause of a rule: present only when the rule
   * mentions `name=` and the greedy pattern `name="(.*)"` matches.
   */
  function Clause(rule: string, name: string): Option<string> {
    if Contains(rule, name + "=") then Capture(rule, name + "=\"", '"') else None
  }

  predicate TitleHit(rule: string, resp: WebResponse) {
    var t := Clause(rule, "title");
    t.Some? && Contains(Lower(resp.title), Lower(t.value))
  }

  predicate BodyHit(rule: string, resp: WebResponse) {
    var t := Clause(rule, "body");
    t.Some? && Contains(Lower(resp.body), Lower(t.value))
  }

  predicate HeaderHit(rule: string, resp: WebResponse) {
    var t := Clause(rule, "header");
    t.Some? && exists k, v :: k in resp.header && v in resp.header[k] && Contains(Lower(v), Lower(t.value))
  }

  /** `checkRule`: the title clause, else the body clause, else the header clause. */
  predicate CheckRule(rule: string, resp: WebResponse) {
    TitleHit(rule, resp) || BodyHit(rule, resp) || HeaderHit(rule, resp)
  }

  /** The rule `name="t"`. */
  function ClauseRule(name: string, t: string): string {
    name + "=\"" + t + "\""
  }

  /** A one-line rule `name="t"` yields the clause text `t`. */
  lemma ClauseOfRule(name: string, t: string)
    requires '\n' !in t
    ensures Clause(ClauseRule(name, t), name) == Some(t)
  {
    var rule := ClauseRule(name, t);
    CaptureClause(name + "=\"", t, '"');
    assert rule == name + "=\"" + t + ['"'];
    ContainsInfix([], name + "=", "\"" + t + "\"");
    assert [] + (name + "=") + ("\"" + t + "\"") == rule;
  }

  /** `title="t"` matches every response whose title contains `t`, ignoring case. */
  lemma TitleRuleMatches(t: string, resp: WebResponse)
    requires '\n' !in t
    requires Contains(Lower(resp.title), Lower(t))
    ensures CheckRule(ClauseRule("title", t), resp)
  {
    ClauseOfRule("title", t);
  }

  /** `body="t"` matches every response whose body contains `t`, ignoring case. */
  lemma BodyRuleMatches(t: string, resp: WebResponse)
    requires '\n' !in t
    requires Contains(Lower(resp.body), Lower(t))
    ensures CheckRule(ClauseRule("body", t), resp)
  {
    ClauseOfRule("body", t);
  }

  /** `header="t"` matches when any value of any header contains `t`, ignoring case. */
  lemma HeaderRuleMatches(t: string, resp: WebResponse, k: string, v: string)
    requires '\n' !in t
    requires k in resp.header && v in resp.header[k]
    requires Contains(Lower(v), Lower(t))
    ensures CheckRule(ClauseRule("header", t), resp)
  {
    ClauseOfRule("header", t);
  }

  /** An empty title or body clause matches every response. */
  lemma EmptyClauseMatchesAll(rule: string, resp: WebResponse)
    requires Clause(rule, "title") == Some([]) || Clause(rule, "body") == Some([])
    ensures CheckRule(rule, resp)
  {
    assert Lower([]) == [];
    ContainsEmpty(Lower(resp.title));
    ContainsEmpty(Lower(resp.body));
  }

  /** In particular the rule `title=""` matches every response. */
  lemma EmptyTitleMatchesAll(resp: WebResponse)
    ensures CheckRule("title=\"\"", resp)
  {
    ClauseOfRule("title", []);
    assert ClauseRule("title", []) == "title=\"\"";
    EmptyClauseMatchesAll("title=\"\"", resp);
  }

  /** A rule with no `="` anywhere in it matches nothing. */
  lemma NoQuotedClauseNoMatch(rule: string, resp: WebResponse)
    requires !Contains(rule, "=\"")
    ensures !CheckRule(rule, resp)
  {
    if Clause(rule, "title").Some? {
      ClauseQuoted(rule, "title");
    }
    if Clause(rule, "body").Some? {
      ClauseQuoted(rule, "body");
    }
    if Clause(rule, "header").Some? {
      ClauseQuoted(rule, "header");
    }
  }

  /** A clause is only found after `="`. */
  lemma ClauseQuoted(rule: string, name: string)
    requires Clause(rule, name).Some?
    ensures Contains(rule, "=\"")
  {
    CaptureSound(rule, name + "=\"", '"');
    var t := Clause(rule, name).value;
    assert name + "=\"" + t + "\"" == name + "=\"" + (t + "\"");
    ContainsPiece(rule, name, "=\"", t + "\"");
  }

  // ---------------------------------------------------------- identifyResponse

  /** Some rule matches. */
  predicate AnyHit(rules: seq<string>, resp: WebResponse) {
    exists k :: 0 <= k < |rules| && CheckRule(rules[k], resp)
  }

  /** How many rules match. */
  function Hits(rules: seq<string>, resp: WebResponse): nat
    decreases |rules|
  {
    if rules == [] then 0
    else Hits(rules[..|rules| - 1], resp) + (if CheckRule(rules[|rules| - 1], resp) then 1 else 0)
  }

  /** The count never exceeds the rules. */
  lemma {:induction false} HitsBound(rules: seq<string>, resp: WebResponse)
    decreases |rules|
    ensures Hits(rules, resp) <= |rules|
  {
    if rules != [] {
      HitsBound(rules[..|rules| - 1], resp);
    }
  }

  /** When every rule matches, the count is the number of rules. */
  lemma {:induction false} AllRulesHit(rules: seq<string>, resp: WebResponse)
    requires forall k :: 0 <= k < |rules| ==> CheckRule(rules[k], resp)
    decreases |rules|
    ensures Hits(rules, resp) == |rules|
  {
    if rules != [] {
      var init := rules[..|rules| - 1];
      assert forall k :: 0 <= k < |init| ==> init[k] == rules[k];
      AllRulesHit(init, resp);
    }
  }

  /** When the count is the number of rules, every rule matches. */
  lemma {:induction false} FullCountAllHit(rules: seq<string>, resp: WebResponse, k: nat)
    requires Hits(rules, resp) == |rules| && k < |rules|
    decreases |rules|
    ensures CheckRule(rules[k], resp)
  {
    var init := rules[..|rules| - 1];
    HitsBound(init, resp);
    if k < |init| {
      FullCountAllHit(init, resp, k);
      assert init[k] == rules[k];
    }
  }

  /** The count never exceeds the rules, and reaches them exactly when every rule matches. */
  lemma HitsAll(rules: seq<string>, resp: WebResponse)
    ensures Hits(rules, resp) <= |rules|
    ensures Hits(rules, resp) == |rules| <==> forall k :: 0 <= k < |rules| ==> CheckRule(rules[k], resp)
  {
    HitsBound(rules, resp);
    if forall k :: 0 <= k < |rules| ==> CheckRule(rules[k], resp) {
      AllRulesHit(rules, resp);
    }
    if Hits(rules, resp) == |rules| {
      forall k | 0 <= k < |rules|
        ensures CheckRule(rules[k], resp)
      {
        FullCountAllHit(rules, resp, k);
      }
    }
  }

  /** Every rule judges the two responses alike. */
  predicate SameVerdicts(rules: seq<string>, r1: WebResponse, r2: WebResponse) {
    forall k :: 0 <= k < |rules| ==> (CheckRule(rules[k], r1) <==> CheckRule(rules[k], r2))
  }

  /** Two responses that every rule judges alike get the same count. */
  lemma {:induction false} HitsAgree(rules: seq<string>, r1: WebResponse, r2: WebResponse)
    requires SameVerdicts(rules, r1, r2)
    decreases |rules|
    ensures Hits(rules, r1) == Hits(rules, r2)
  {
    if rules != [] {
      var init := rules[..|rules| - 1];
      assert forall k :: 0 <= k < |init| ==> init[k] == rules[k];
      HitsAgree(init, r1, r2);
    }
  }

  /** `1||2||3`: one append when some alternative matches. */
  function OrCount(key: string, resp: WebResponse): nat {
    if AnyHit(Split(key, "||"), resp) then 1 else 0
  }

  /** `1&&2&&3`: one append when the count of matching conjuncts is their number. */
  function AndCount(key: string, resp: WebResponse): nat {
    var rules := Split(key, "&&");
    if Hits(rules, resp) == |rules| then 1 else 0
  }

  /** The single match of `\((.*)\)` in the key, when there is exactly one. */
  function Bracket(key: string): (r: Option<Match>)
    ensures r.Some? ==> r.value.start + 1 <= r.value.close < |key|
  {
    var ms := Matches(key, 0, "(", ')');
    if |ms| == 1 then Some(ms[0]) else None
  }

  /**
   * `1||2||(3&&4)`: the first `||`-alternative holding `&&` makes the name
   * appended once if every conjunct of the bracket matches.
   */
  function AndBracketCount(key: string, inner: string, resp: WebResponse): nat {
    var rules := Split(key, "||");
    var conj := Split(inner, "&&");
    if (exists k :: 0 <= k < |rules| && Contains(rules[k], "&&")) && Hits(conj, resp) == |conj| then 1 else 0
  }

  /** The counter `i` of one `&&`-part in the `1&&2&&(3||4)` case. */
  function Score(rule: string, alt: bool, resp: WebResponse): nat {
    (if Contains(rule, "||") && alt then 1 else 0) + (if CheckRule(rule, resp) then 1 else 0)
  }

  /** How many parts reach the counter value `n`. */
  function Full(rules: seq<string>, n: nat, alt: bool, resp: WebResponse): nat
    decreases |rules|
  {
    if rules == [] then 0
    else Full(rules[..|rules| - 1], n, alt, resp) + (if Score(rules[|rules| - 1], alt, resp) == n then 1 else 0)
  }

  /**
   * `1&&2&&(3||4)`: each `&&`-part whose counter reaches the number of parts
   * appends the name once more.
   */
  function OrBracketCount(key: string, inner: string, resp: WebResponse): nat {
    var rules := Split(key, "&&");
    Full(rules, |rules|, AnyHit(Split(inner, "||"), resp), resp)
  }

  function BracketCount(key: string, resp: WebResponse): nat {
    match Bracket(key)
    case None => 0
    case Some(m) =>
      var whole := key[m.start..m.close + 1];
      var inner := key[m.start + 1..m.close];
      (if Contains(whole, "&&") then AndBracketCount(key, inner, resp) else 0)
      + (if Contains(whole, "||") then OrBracketCount(key, inner, resp) else 0)
  }

  /** The shape flags `identifyResponse` computes for a key. */
  predicate OrShape(key: string) {
    Contains(key, "||") && !Contains(key, "&&") && !Contains(key, "(")
  }

  predicate AndShape(key: string) {
    Contains(key, "&&") && !Contains(key, "||") && !Contains(key, "(")
  }

  predicate PlainShape(key: string) {
    !Contains(key, "&&") && !Contains(key, "||") && !Contains(key, "(")
  }

  predicate BracketShape(key: string) {
    Contains(key, "&&") && Contains(key, "||") && Contains(key, "(") && !Contains(key, "()")
  }

  /** How many times the key appends the fingerprint name. */
  function KeyCount(key: string, resp: WebResponse): nat {
    (if OrShape(key) then OrCount(key, resp) else 0)
    + (if AndShape(key) then AndCount(key, resp) else 0)
    + (if PlainShape(key) && CheckRule(key, resp) then 1 else 0)
    + (if BracketShape(key) then BracketCount(key, resp) else 0)
  }

  /** An OR key appends the name at most once, and does so iff some alternative matches. */
  lemma OrKeyOnce(key: string, resp: WebResponse)
    requires OrShape(key)
    ensures KeyCount(key, resp) <= 1
    ensures KeyCount(key, resp) == 1 <==> exists k :: 0 <= k < |Split(key, "||")| && CheckRule(Split(key, "||")[k], resp)
  {
    assert !AndShape(key) && !PlainShape(key) && !BracketShape(key);
    var rules := Split(key, "||");
    if AnyHit(rules, resp) {
      var k :| 0 <= k < |rules| && CheckRule(rules[k], resp);
      assert 0 <= k < |Split(key, "||")| && CheckRule(Split(key, "||")[k], resp);
      assert exists j :: 0 <= j < |Split(key, "||")| && CheckRule(Split(key, "||")[j], resp);
    }
  }

  /** An AND key appends the name once iff every conjunct matches, and otherwise never. */
  lemma AndKeyAll(key: string, resp: WebResponse)
    requires AndShape(key)
    ensures KeyCount(key, resp) <= 1
    ensures KeyCount(key, resp) == 1 <==> forall k :: 0 <= k < |Split(key, "&&")| ==> CheckRule(Split(key, "&&")[k], resp)
  {
    assert !OrShape(key) && !PlainShape(key) && !BracketShape(key);
    var rules := Split(key, "&&");
    HitsAll(rules, resp);
    if Hits(rules, resp) != |rules| {
      var k :| 0 <= k < |rules| && !CheckRule(rules[k], resp);
      assert !CheckRule(Split(key, "&&")[k], resp);
    }
  }

  /** A key with no operator and no bracket appends the name iff `checkRule` accepts it. */
  lemma PlainKey(key: string, resp: WebResponse)
    requires PlainShape(key)
    ensures KeyCount(key, resp) == (if CheckRule(key, resp) then 1 else 0)
  {
  }

  /**
   * Keys that fall into no branch: both operators without a bracket, an
   * empty bracket `()`, or a bracket with at most one kind of operator.
   */
  lemma UnhandledKeys(key: string, resp: WebResponse)
    requires (Contains(key, "&&") && Contains(key, "||") && !Contains(key, "("))
          || Contains(key, "()")
          || (Contains(key, "(") && !(Contains(key, "&&") && Contains(key, "||")))
    ensures KeyCount(key, resp) == 0
  {
    if Contains(key, "()") {
      assert "()" == [] + "(" + ")";
      ContainsPiece(key, [], "(", ")");
    }
  }

  /**
   * `1||2||(3&&4)`: with a bracket holding only `&&`, the plain alternatives
   * are never checked, so two responses that agree on the bracketed
   * conjuncts get the same verdict.
   */
  lemma AndBracketIgnoresAlternatives(key: string, r1: WebResponse, r2: WebResponse)
    requires BracketShape(key) && Bracket(key).Some?
    requires var m := Bracket(key).value;
      !Contains(key[m.start..m.close + 1], "||") && SameVerdicts(Split(key[m.start + 1..m.close], "&&"), r1, r2)
    ensures KeyCount(key, r1) == KeyCount(key, r2)
  {
    var m := Bracket(key).value;
    HitsAgree(Split(key[m.start + 1..m.close], "&&"), r1, r2);
  }

  /** A counter is at most 2, so no part reaches a target above 2. */
  lemma {:induction false} FullAboveTwo(rules: seq<string>, n: nat, alt: bool, resp: WebResponse)
    requires n >= 3
    decreases |rules|
    ensures Full(rules, n, alt, resp) == 0
  {
    if rules != [] {
      FullAboveTwo(rules[..|rules| - 1], n, alt, resp);
    }
  }

  /**
   * `1&&2&&(3||4)` as written: with three or more `&&`-parts no counter can
   * reach their number, so such a key never appends its name.
   */
  lemma OrBracketNeedsTwoParts(key: string, resp: WebResponse)
    requires BracketShape(key) && Bracket(key).Some?
    requires var m := Bracket(key).value; !Contains(key[m.start..m.close + 1], "&&")
    requires |Split(key, "&&")| >= 3
    ensures KeyCount(key, resp) == 0
  {
    var m := Bracket(key).value;
    FullAboveTwo(Split(key, "&&"), |Split(key, "&&")|, AnyHit(Split(key[m.start + 1..m.close], "||"), resp), resp);
  }

  // ---------------------------------------------------------------- md5 probes

  /** The page fetcher `newHTTPClient` and the md5 digest, both outside the model. */
  datatype Fetched = Page(body: string) | FetchError(err: Error)

  datatype Web = Web(fetch: (string, bool, int) -> Fetched, md5Hex: string -> string)

  /** The timeout, in seconds, of every probe fetch. */
  const ProbeTimeout := 5

  /**
   * The probe URL as written: `response.Url[len(response.Url)-1:]` panics on
   * an empty URL (`None`), and a URL already ending in `/` is dropped.
   */
  function JoinPathAsWritten(base: string, path: string): Option<string> {
    if base == "" then None
    else Some((if base[|base| - 1] != '/' then base + "/" else "") + path)
  }

  /** The probe URL as intended: the page URL, one `/`, then the path. */
  function JoinPath(base: string, path: string): (r: Option<string>)
    ensures r.Some? <==> base != ""
    ensures r.Some? ==> |base| + |path| <= |r.value| <= |base| + 1 + |path|
    ensures r.Some? ==> r.value[..|base|] == base && r.value[|r.value| - |path|..] == path
    ensures r.Some? ==> r.value[|r.value| - |path| - 1] == '/'
  {
    if base == "" then None
    else if base[|base| - 1] != '/' then Some(base + "/" + path)
    else Some(base + path)
  }

  /** A page URL ending in `/` loses everything but the probe path. */
  lemma JoinPathDropsBase(base: string, path: string)
    requires base != "" && base[|base| - 1] == '/'
    ensures JoinPathAsWritten(base, path) == Some(path)
    ensures JoinPath(base, path) == Some(base + path)
  {
    assert "" + path == path;
  }

  /** For instance `http://host/` with `favicon.ico` probes just `favicon.ico`. */
  lemma JoinPathExample()
    ensures JoinPathAsWritten("http://host/", "favicon.ico") == Some("favicon.ico")
    ensures JoinPath("http://host/", "favicon.ico") == Some("http://host/favicon.ico")
  {
    JoinPathDropsBase("http://host/", "favicon.ico");
    assert "http://host/" + "favicon.ico" == "http://host/favicon.ico";
  }

  /** Without a trailing `/` the two joins agree. */
  lemma JoinPathAgrees(base: string, path: string)
    requires base == "" || base[|base| - 1] != '/'
    ensures JoinPathAsWritten(base, path) == JoinPath(base, path)
  {
  }

  /** What `identifyResponse` returns: results and error, or the index panic. */
  datatype Identified = Identified(results: Results, err: Option<Error>) | IndexPanic

  /** After one fingerprint: go on with the names so far, or return. */
  datatype Step = Continue(prints: seq<string>) | Stop(outcome: Identified)

  /** The md5 probes of one fingerprint, from the names found so far. */
  function Hashes(prints: seq<string>, name: string, path: seq<UrlHash>, base: string, web: Web): Step
    decreases |path|
  {
    if path == [] then Continue(prints)
    else if path[0].url == "" then Hashes(prints, name, path[1..], base, web)
    else
      var u := JoinPath(base, path[0].url);
      if u.None? then Stop(IndexPanic)
      else
        var reply := web.fetch(u.value, Contains(u.value, "https"), ProbeTimeout);
        if reply.FetchError? then Stop(Identified(Results("", []), Some(reply.err)))
        else
          var more := if web.md5Hex(reply.body) == path[0].hash then prints + [name] else prints;
          Hashes(more, name, path[1..], base, web)
  }

  /** The fingerprints from the names found so far. */
  function Scan(prints: seq<string>, fingers: seq<FingerArg>, resp: WebResponse, web: Web): Identified
    decreases |fingers|
  {
    if fingers == [] then Identified(Results(resp.url, prints), None)
    else
      var f := fingers[0];
      var step := Hashes(prints + Repeat(f.name, KeyCount(f.key, resp)), f.name, f.path, resp.url, web);
      if step.Stop? then step.outcome else Scan(step.prints, fingers[1..], resp, web)
  }

  function Identify(fingers: seq<FingerArg>, resp: WebResponse, web: Web): Identified {
    Scan([], fingers, resp, web)
  }

  /**
   * The probes only add their own fingerprint's name; they stop on a fetch
   * error with empty results, and panic only on an empty page URL.
   */
  lemma {:induction false} HashesShape(prints: seq<string>, name: string, path: seq<UrlHash>, base: string, web: Web)
    decreases |path|
    ensures var s := Hashes(prints, name, path, base, web);
      (s.Continue? ==> prints <= s.prints && forall i :: |prints| <= i < |s.prints| ==> s.prints[i] == name)
      && (s.Stop? && s.outcome.IndexPanic? ==> base == "")
      && (s.Stop? && s.outcome.Identified? ==> s.outcome.results == Results("", []) && s.outcome.err.Some?)
  {
    if path != [] {
      if path[0].url == "" {
        HashesShape(prints, name, path[1..], base, web);
      } else if base != "" {
        var u := JoinPath(base, path[0].url).value;
        var reply := web.fetch(u, Contains(u, "https"), ProbeTimeout);
        if reply.Page? {
          var more := if web.md5Hex(reply.body) == path[0].hash then prints + [name] else prints;
          HashesShape(more, name, path[1..], base, web);
        }
      }
    }
  }

  /**
   * A successful scan reports the page URL and keeps the names found so far
   * in front; every name it adds is the name of one of the fingerprints. A
   * failed probe returns empty results with its error, and the panic needs
   * an empty page URL.
   */
  lemma {:induction false} ScanShape(prints: seq<string>, fingers: seq<FingerArg>, resp: WebResponse, web: Web)
    decreases |fingers|
    ensures var r := Scan(prints, fingers, resp, web);
      (r.Identified? && r.err.None? ==>
        r.results.url == resp.url && prints <= r.results.fingerPrint
        && forall i :: |prints| <= i < |r.results.fingerPrint| ==>
             exists k :: 0 <= k < |fingers| && fingers[k].name == r.results.fingerPrint[i])
      && (r.Identified? && r.err.Some? ==> r.results == Results("", []))
      && (r.IndexPanic? ==> resp.url == "")
  {
    if fingers != [] {
      var f := fingers[0];
      var start := prints + Repeat(f.name, KeyCount(f.key, resp));
      var step := Hashes(start, f.name, f.path, resp.url, web);
      HashesShape(start, f.name, f.path, resp.url, web);
      if step.Continue? {
        ScanShape(step.prints, fingers[1..], resp, web);
        var r := Scan(step.prints, fingers[1..], resp, web);
        if r.Identified? && r.err.None? {
          forall i | |prints| <= i < |r.results.fingerPrint|
            ensures exists k :: 0 <= k < |fingers| && fingers[k].name == r.results.fingerPrint[i]
          {
            if i < |step.prints| {
              assert step.prints[i] == f.name by {
                if i < |start| {
                  assert start[i] == f.name;
                }
              }
              assert fingers[0].name == r.results.fingerPrint[i];
            } else {
              var k :| 0 <= k < |fingers[1..]| && fingers[1..][k].name == r.results.fingerPrint[i];
              assert fingers[k + 1].name == r.results.fingerPrint[i];
            }
          }
        }
      }
    }
  }

  /** `identifyResponse` succeeds on any page when no fingerprint has a probe path. */
  lemma {:induction false} NoProbesNoFailure(prints: seq<string>, fingers: seq<FingerArg>, resp: WebResponse, web: Web)
    requires forall k :: 0 <= k < |fingers| ==> fingers[k].path == []
    decreases |fingers|
    ensures Scan(prints, fingers, resp, web).Identified?
    ensures Scan(prints, fingers, resp, web).err.None?
  {
    if fingers != [] {
      var f := fingers[0];
      NoProbesNoFailure(prints + Repeat(f.name, KeyCount(f.key, resp)), fingers[1..], resp, web);
    }
  }

  // ------------------------------------------------------------------ methods

  /** The counter loop over a list of rules. */
  method CountHits(rules: seq<string>, resp: WebResponse) returns (i: nat)
    ensures i == Hits(rules, resp)
  {
    i := 0;
    var k := 0;
    while k < |rules|
      invariant 0 <= k <= |rules|
      invariant i == Hits(rules[..k], resp)
    {
      assert rules[..k + 1][..k] == rules[..k];
      if CheckRule(rules[k], resp) {
        i := i + 1;
      }
      k := k + 1;
    }
    assert rules[..k] == rules;
  }

  /** The loop that stops at the first matching rule. */
  method AnyRuleHits(rules: seq<string>, resp: WebResponse) returns (hit: bool)
    ensures hit == AnyHit(rules, resp)
  {
    hit := false;
    var k := 0;
    while k < |rules|
      invariant 0 <= k <= |rules|
      invariant forall j :: 0 <= j < k ==> !CheckRule(rules[j], resp)
    {
      if CheckRule(rules[k], resp) {
        hit := true;
        break;
      }
      k := k + 1;
    }
  }

  method OrKey(key: string, name: string, resp: WebResponse, prints: seq<string>) returns (out: seq<string>)
    ensures out == prints + Repeat(name, OrCount(key, resp))
  {
    out := prints;
    var rules := Split(key, "||");
    var k := 0;
    while k < |rules|
      invariant 0 <= k <= |rules|
      invariant out == prints
      invariant forall j :: 0 <= j < k ==> !CheckRule(rules[j], resp)
    {
      if CheckRule(rules[k], resp) {
        out := out + [name];
        break;
      }
      k := k + 1;
    }
  }

  method AndKey(key: string, name: string, resp: WebResponse, prints: seq<string>) returns (out: seq<string>)
    ensures out == prints + Repeat(name, AndCount(key, resp))
  {
    out := prints;
    var rules := Split(key, "&&");
    var i := CountHits(rules, resp);
    if i == |rules| {
      out := out + [name];
    }
  }

  method AndBracket(key: string, inner: string, name: string, resp: WebResponse, prints: seq<string>)
    returns (out: seq<string>)
    ensures out == prints + Repeat(name, AndBracketCount(key, inner, resp))
  {
    out := prints;
    var rules := Split(key, "||");
    var conj := Split(inner, "&&");
    var k := 0;
    while k < |rules|
      invariant 0 <= k <= |rules|
      invariant out == prints
      invariant Hits(conj, resp) == |conj| ==> forall j :: 0 <= j < k ==> !Contains(rules[j], "&&")
    {
      if Contains(rules[k], "&&") {
        var i := CountHits(conj, resp);
        if i == |conj| {
          out := out + [name];
          break;
        }
      }
      k := k + 1;
    }
  }

  method OrBracket(key: string, inner: string, name: string, resp: WebResponse, prints: seq<string>)
    returns (out: seq<string>)
    ensures out == prints + Repeat(name, OrBracketCount(key, inner, resp))
  {
    out := prints;
    var rules := Split(key, "&&");
    var alts := Split(inner, "||");
    ghost var alt := AnyHit(alts, resp);
    var k := 0;
    while k < |rules|
      invariant 0 <= k <= |rules|
      invariant out == prints + Repeat(name, Full(rules[..k], |rules|, alt, resp))
    {
      assert rules[..k + 1][..k] == rules[..k];
      var i := PartCounter(rules[k], alts, resp);
      if i == |rules| {
        out := out + [name];
      }
      k := k + 1;
    }
    assert rules[..k] == rules;
  }

  /** The counter `i` of one `&&`-part: its `||` bracket, then the part itself. */
  method PartCounter(rule: string, alts: seq<string>, resp: WebResponse) returns (i: nat)
    ensures i == Score(rule, AnyHit(alts, resp), resp)
  {
    i := 0;
    if Contains(rule, "||") {
      var hit := AnyRuleHits(alts, resp);
      if hit {
        i := i + 1;
      }
    }
    if CheckRule(rule, resp) {
      i := i + 1;
    }
  }

  lemma BracketCountSplits(key: string, resp: WebResponse, m: Match)
    requires Bracket(key) == Some(m)
    ensures var whole := key[m.start..m.close + 1];
      var inner := key[m.start + 1..m.close];
      BracketCount(key, resp)
      == (if Contains(whole, "&&") then AndBracketCount(key, inner, resp) else 0)
       + (if Contains(whole, "||") then OrBracketCount(key, inner, resp) else 0)
  {
  }

  method BracketKey(key: string, name: string, resp: WebResponse, prints: seq<string>) returns (out: seq<string>)
    ensures out == prints + Repeat(name, BracketCount(key, resp))
  {
    out := prints;
    var found := Bracket(key);
    if found.Some? {
      var m := found.value;
      var whole := key[m.start..m.close + 1];
      var inner := key[m.start + 1..m.close];
      ghost var a := if Contains(whole, "&&") then AndBracketCount(key, inner, resp) else 0;
      ghost var b := if Contains(whole, "||") then OrBracketCount(key, inner, resp) else 0;
      BracketCountSplits(key, resp, m);
      if Contains(whole, "&&") {
        out := AndBracket(key, inner, name, resp, out);
      }
      if Contains(whole, "||") {
        out := OrBracket(key, inner, name, resp, out);
      }
      RepeatAdd(name, a, b);
    }
  }

  /** The four key branches of one fingerprint. */
  method KeyPrints(key: string, name: string, resp: WebResponse, prints: seq<string>) returns (out: seq<string>)
    ensures out == prints + Repeat(name, KeyCount(key, resp))
  {
    var or := Contains(key, "||");
    var and := Contains(key, "&&");
    var brackets := Contains(key, "(");
    var bracketLR := Contains(key, "()");
    out := prints;
    if or && !and && !brackets {
      out := OrKey(key, name, resp, out);
    }
    if and && !or && !brackets {
      out := AndKey(key, name, resp, out);
    }
    if !and && !or && !brackets {
      if CheckRule(key, resp) {
        out := out + [name];
      }
    }
    if and && or && brackets && !bracketLR {
      out := BracketKey(key, name, resp, out);
    }
  }

  /** The md5 probe loop of one fingerprint. */
  method HashPrints(prints: seq<string>, name: string, path: seq<UrlHash>, base: string, web: Web)
    returns (step: Step)
    ensures step == Hashes(prints, name, path, base, web)
  {
    var acc := prints;
    var k := 0;
    while k < |path|
      invariant 0 <= k <= |path|
      invariant Hashes(acc, name, path[k..], base, web) == Hashes(prints, name, path, base, web)
    {
      assert path[k..][0] == path[k] && path[k..][1..] == path[k + 1..];
      var hash := path[k];
      if hash.url != "" {
        if base == "" {
          // `response.Url[len(response.Url)-1:]` is out of range
          return Stop(IndexPanic);
        }
        var url := "";
        if base[|base| - 1] != '/' {
          url := base + "/";
        } else {
          url := base;
        }
        url := url + hash.url;
        var insecureSkipVerify := Contains(url, "https");
        var reply := web.fetch(url, insecureSkipVerify, ProbeTimeout);
        if reply.FetchError? {
          return Stop(Identified(Results("", []), Some(reply.err)));
        }
        if web.md5Hex(reply.body) == hash.hash {
          acc := acc + [name];
        }
      }
      k := k + 1;
    }
    step := Continue(acc);
  }

  /** `identifyResponse`: every fingerprint's key, then its probes, in file order. */
  method IdentifyResponse(fingers: seq<FingerArg>, resp: WebResponse, web: Web) returns (out: Identified)
    ensures out == Identify(fingers, resp, web)
  {
    var prints: seq<string> := [];
    var n := 0;
    while n < |fingers|
      invariant 0 <= n <= |fingers|
      invariant Scan(prints, fingers[n..], resp, web) == Identify(fingers, resp, web)
    {
      assert fingers[n..][0] == fingers[n] && fingers[n..][1..] == fingers[n + 1..];
      var finger := fingers[n];
      prints := KeyPrints(finger.key, finger.name, resp, prints);
      var step := HashPrints(prints, finger.name, finger.path, resp.url, web);
      if step.Stop? {
        return step.outcome;
      }
      prints := step.prints;
      n := n + 1;
    }
    return Identified(Results(resp.url, prints), None);
  }

  // ----------------------------------------------------------------- charset

  /** The charset switch of the page fetcher: the Chinese encodings become `GBK`, the rest `utf-8`. */
  function NormalizeCharset(charset: string): (r: string)
    ensures r == "GBK" || r == "utf-8"
  {
    var c := Lower(charset);
    if c == Lower("GB2312") || c == Lower("Big5") || c == Lower("GB18030") || c == Lower("GBK") then "GBK"
    else "utf-8"
  }

  /** A charset maps to `GBK` exactly when its lower-case form is one of the four names. */
  lemma NormalizeCharsetNames(charset: string)
    ensures NormalizeCharset(charset) == "GBK" <==>
      Lower(charset) in {"gb2312", "big5", "gb18030", "gbk"}
  {
    assert Lower("GB2312") == "gb2312";
    assert Lower("Big5") == "big5";
    assert Lower("GB18030") == "gb18030";
    assert Lower("GBK") == "gbk";
  }

  /** Case does not matter, and normalising twice changes nothing. */
  lemma NormalizeCharsetStable(charset: string)
    ensures NormalizeCharset(Lower(charset)) == NormalizeCharset(charset)
    ensures NormalizeCharset(NormalizeCharset(charset)) == NormalizeCharset(charset)
  {
    LowerIdempotent(charset);
    assert Lower("GBK") == "gbk";
    assert Lower("utf-8") == "utf-8";
    NormalizeCharsetNames("GBK");
    NormalizeCharsetNames("utf-8");
  }
}
