/**
 Oathkeeper access rules: the stored array and its locked mutations, the sign-in posture of a
 service's main rule, and the owner of a rule. Handler configuration is kept only where the control
 plane reads or builds it.
 */
module AccessRules {
  import opened Prelude

  datatype Config =
    | NoConfig
    | TokenFromHeader(header: string)
    | RemoteJson(remote: string, app: string)   // the OPA endpoint and the service named in the payload
    | Other(text: string)

  datatype Handler = Handler(name: string, config: Config)

  datatype Upstream = Upstream(url: string, preserveHost: Option<bool>, stripPath: Option<string>)

  datatype Rule = Rule(
    id: string, upstream: Upstream, matchUrl: string, methods: seq<string>,
    authenticators: seq<Handler>, authorizer: Handler, mutators: seq<Handler>, errors: seq<Handler>)

  /** The handlers enabled in the running gateway, and the OPA endpoint. */
  datatype Gateway = Gateway(
    authenticators: seq<string>, authorizers: seq<string>, mutators: seq<string>, errorHandlers: seq<string>,
    opaRemote: string)

  datatype SignIn = Cookie | Bearer | Introspection

  // ── The sign-in posture ───────────────────────────────────────────────────

  /** The ordered authenticator chain for the accepted sign-in methods; an error names a disabled handler. */
  function BuildSignInAuthenticators(gw: Gateway, signIn: seq<SignIn>): Result<seq<Handler>, string> {
    if signIn == [] then Ok([Handler("noop", NoConfig)])
    else
      var chain :=
        (if Cookie in signIn then [Handler("cookie_session", NoConfig)] else []) +
        (if Bearer in signIn then
           [Handler("bearer_token", if Introspection in signIn then TokenFromHeader("X-Session-Token") else NoConfig)]
         else []) +
        (if Introspection in signIn then [Handler("oauth2_introspection", NoConfig)] else []);
      FirstDisabled(gw, chain)
  }

  function FirstDisabled(gw: Gateway, chain: seq<Handler>): (r: Result<seq<Handler>, string>)
    ensures r.Ok? <==> forall h :: h in chain ==> h.name in gw.authenticators
    ensures r.Ok? ==> r.value == chain
    ensures r.Err? ==> exists h :: h in chain && h.name == r.error && h.name !in gw.authenticators
  {
    if exists h :: h in chain && h.name !in gw.authenticators then Err(FirstNotIn(chain, gw.authenticators))
    else Ok(chain)
  }

  function FirstNotIn(chain: seq<Handler>, enabled: seq<string>): (name: string)
    requires exists h :: h in chain && h.name !in enabled
    ensures exists h :: h in chain && h.name == name && h.name !in enabled
  {
    if chain[0].name !in enabled then chain[0].name else FirstNotIn(chain[1..], enabled)
  }

  /** cookie, then bearer, then introspection; anything else (`noop` included) has no rank. */
  function Rank(h: Handler): int {
    if h.name == "cookie_session" then 1
    else if h.name == "bearer_token" then 2
    else if h.name == "oauth2_introspection" then 3
    else 0
  }

  predicate WhollyPublic(r: Rule) {
    && r.authenticators == [Handler("noop", NoConfig)]
    && r.authorizer == Handler("allow", NoConfig)
    && r.mutators == [Handler("noop", NoConfig)]
  }

  /** A chain that signs callers in: enabled authenticators only, in the fixed order, one credential source each. */
  ghost predicate SignInChain(gw: Gateway, chain: seq<Handler>) {
    && chain != []
    && (forall i :: 0 <= i < |chain| ==> Rank(chain[i]) > 0 && chain[i].name in gw.authenticators)
    && (forall i, j :: 0 <= i < j < |chain| ==> Rank(chain[i]) < Rank(chain[j]))
    && (forall i, j :: 0 <= i < |chain| && 0 <= j < |chain| && Rank(chain[i]) == 2 && Rank(chain[j]) == 3 ==>
          chain[i].config == TokenFromHeader("X-Session-Token"))
  }

  ghost predicate WhollyProtected(gw: Gateway, service: string, r: Rule) {
    && SignInChain(gw, r.authenticators)
    && r.authorizer == Handler("remote_json", RemoteJson(gw.opaRemote, service))
    && r.mutators == [Handler("header", NoConfig)]
  }

  /**
   The chain built for a non-empty request accepts exactly the requested methods, in order, when it is built at
   all.
   */
  lemma BuiltChainSignsIn(gw: Gateway, signIn: seq<SignIn>)
    requires signIn != [] && BuildSignInAuthenticators(gw, signIn).Ok?
    ensures var chain := BuildSignInAuthenticators(gw, signIn).value;
            && SignInChain(gw, chain)
            && (Cookie in signIn <==> HasRank(chain, 1))
            && (Bearer in signIn <==> HasRank(chain, 2))
            && (Introspection in signIn <==> HasRank(chain, 3))
  {
    var chain := BuildSignInAuthenticators(gw, signIn).value;
    forall i | 0 <= i < |chain| ensures chain[i].name in gw.authenticators {
      assert chain[i] in chain;
    }
    assert signIn[0] in signIn && (signIn[0].Cookie? || signIn[0].Bearer? || signIn[0].Introspection?);
    ChainOfThree(Cookie in signIn, Bearer in signIn, Introspection in signIn);
    assert chain == ChainOf(Cookie in signIn, Bearer in signIn, Introspection in signIn);
  }

  ghost predicate HasRank(chain: seq<Handler>, rank: nat) {
    exists i :: 0 <= i < |chain| && Rank(chain[i]) == rank
  }

  function ChainOf(cookie: bool, bearer: bool, introspection: bool): seq<Handler> {
    (if cookie then [Handler("cookie_session", NoConfig)] else []) +
    (if bearer then [Handler("bearer_token", if introspection then TokenFromHeader("X-Session-Token") else NoConfig)]
        else []) +
    (if introspection then [Handler("oauth2_introspection", NoConfig)] else [])
  }

  lemma ChainOfThree(cookie: bool, bearer: bool, introspection: bool)
    ensures var chain := ChainOf(cookie, bearer, introspection);
            && (forall i :: 0 <= i < |chain| ==> Rank(chain[i]) > 0)
            && (forall i, j :: 0 <= i < j < |chain| ==> Rank(chain[i]) < Rank(chain[j]))
            && (forall i, j :: 0 <= i < |chain| && 0 <= j < |chain| && Rank(chain[i]) == 2 && Rank(chain[j]) == 3 ==>
                  chain[i].config == TokenFromHeader("X-Session-Token"))
            && (cookie <==> HasRank(chain, 1)) && (bearer <==> HasRank(chain, 2))
                 && (introspection <==> HasRank(chain, 3))
  {
    var chain := ChainOf(cookie, bearer, introspection);
    if cookie {
      assert Rank(chain[0]) == 1;
    }
    if bearer {
      assert Rank(chain[if cookie then 1 else 0]) == 2;
    }
    if introspection {
      assert Rank(chain[|chain| - 1]) == 3;
    }
  }

  // ── The stored array and its mutations ────────────────────────────────────

  /** `findIndex(r => r.id === id)`, with the array's length for "not found". */
  function IndexOf(rules: seq<Rule>, id: string): (i: nat)
    ensures i <= |rules|
    ensures i < |rules| ==> rules[i].id == id
    ensures forall j :: 0 <= j < i ==> rules[j].id != id
  {
    if rules == [] || rules[0].id == id then 0 else 1 + IndexOf(rules[1..], id)
  }

  function Find(rules: seq<Rule>, id: string): Option<Rule> {
    var i := IndexOf(rules, id);
    if i < |rules| then Some(rules[i]) else None
  }

  predicate DistinctIds(rules: seq<Rule>) {
    forall i, j :: 0 <= i < j < |rules| ==> rules[i].id != rules[j].id
  }

  /** The editable part of a service's main rule. `stripPath`: absent, remove, or set. */
  datatype StripChange = Keep | Remove | Set(path: string)

  datatype ServiceOptions = ServiceOptions(
    upstreamUrl: Option<string>, matchUrl: Option<string>, matchMethods: Option<seq<string>>,
    stripPath: StripChange, signIn: Option<seq<SignIn>>)

  datatype RuleOp =
    | Add(rule: Rule)
    | Replace(id: string, rule: Rule)
    | Delete(id: string)
    | Configure(service: string, options: ServiceOptions)

  function StripPathAfter(change: StripChange, was: Option<string>): Option<string> {
    match change
    case Keep => was
    case Remove => None
    case Set(path) => Some(path)
  }

  /** The edited main rule, or the disabled handler that made the edit fail. */
  function Configured(gw: Gateway, service: string, existing: Rule, options: ServiceOptions): Result<Rule, string> {
    var reshaped := existing.(
      upstream := Upstream(
        options.upstreamUrl.GetOr(existing.upstream.url),
        existing.upstream.preserveHost,
        StripPathAfter(options.stripPath, existing.upstream.stripPath)),
      matchUrl := options.matchUrl.GetOr(existing.matchUrl),
      methods := options.matchMethods.GetOr(existing.methods));
    match options.signIn
    case None => Ok(reshaped)
    case Some(signIn) =>
      match BuildSignInAuthenticators(gw, signIn)
      case Err(e) => Err(e)
      case Ok(chain) =>
        if signIn == [] then
          Ok(reshaped.(authenticators := chain, authorizer := Handler("allow", NoConfig),
                       mutators := [Handler("noop", NoConfig)]))
        else
          Ok(reshaped.(
            authenticators := chain,
            authorizer := if existing.authorizer.name == "allow"
                          then Handler("remote_json", RemoteJson(gw.opaRemote, service))
                          else existing.authorizer,
            mutators := if exists m :: m in existing.mutators && m.name == "header" then existing.mutators
                        else [Handler("header", NoConfig)]))
  }

  /** What a locked section writes back, or nothing when it returns or throws without writing. */
  function Apply(gw: Gateway, op: RuleOp, rules: seq<Rule>): Option<seq<Rule>> {
    match op
    case Add(rule) =>
      if IndexOf(rules, rule.id) < |rules| then None else Some(rules + [rule])
    case Replace(id, rule) =>
      var i := IndexOf(rules, id);
      if i == |rules| then None else Some(rules[i := rule])
    case Delete(id) =>
      var kept := Filter(rules, (r: Rule) => r.id != id);
      if |kept| == |rules| then None else Some(kept)
    case Configure(service, options) =>
      var i := IndexOf(rules, service);
      if i == |rules| then None
      else
        var updated := Configured(gw, service, rules[i], options);
        if updated.Err? then None else Some(rules[i := updated.value])
  }

  /** The service layer persists a replacement under the id in the path. */
  predicate KeepsIds(op: RuleOp) {
    op.Replace? ==> op.rule.id == op.id
  }

  lemma {:induction false} FilterKeepsDistinctIds(rules: seq<Rule>, id: string)
    requires DistinctIds(rules)
    ensures DistinctIds(Filter(rules, (r: Rule) => r.id != id))
  {
    var p := (r: Rule) => r.id != id;
    if rules != [] {
      FilterKeepsDistinctIds(rules[1..], id);
      var rest := Filter(rules[1..], p);
      forall k | 0 <= k < |rest| ensures rest[k].id != rules[0].id {
        assert rest[k] in rest;
      }
    }
  }

  lemma {:induction false} DeletedIsGone(rules: seq<Rule>, id: string)
    requires DistinctIds(rules)
    ensures |Filter(rules, (r: Rule) => r.id != id)| ==
            if IndexOf(rules, id) < |rules| then |rules| - 1 else |rules|
  {
    var p := (r: Rule) => r.id != id;
    if rules != [] {
      DeletedIsGone(rules[1..], id);
      if rules[0].id == id {
        FilterKeepsAll(rules[1..], p);
      }
    }
  }

  lemma ApplyKeepsDistinctIds(gw: Gateway, op: RuleOp, rules: seq<Rule>)
    requires DistinctIds(rules) && KeepsIds(op) && Apply(gw, op, rules).Some?
    ensures DistinctIds(Apply(gw, op, rules).value)
  {
    if op.Delete? {
      FilterKeepsDistinctIds(rules, op.id);
    }
  }

  /** Why a config edit is refused. */
  datatype Refusal = UnknownService | NoRule | Disabled(handler: string)

  // ── The repository ────────────────────────────────────────────────────────

  /** The `rbac:oathkeeper:rules` key. Each method is the body of one locked section. */
  class RuleRepository {
    var rules: seq<Rule>
    const gw: Gateway

    constructor (gw: Gateway)
      ensures rules == [] && this.gw == gw
    {
      this.gw := gw;
      rules := [];
    }

    method AddAccessRule(rule: Rule) returns (ok: bool)
      modifies this
      ensures ok <==> Apply(gw, Add(rule), old(rules)).Some?
      ensures rules == Apply(gw, Add(rule), old(rules)).GetOr(old(rules))
    {
      var i := 0;
      while i < |rules|
        invariant 0 <= i <= |rules|
        invariant forall j :: 0 <= j < i ==> rules[j].id != rule.id
      {
        if rules[i].id == rule.id {
          return false;
        }
        i := i + 1;
      }
      rules := rules + [rule];
      return true;
    }

    method UpdateAccessRule(id: string, rule: Rule) returns (ok: bool)
      modifies this
      ensures ok <==> Apply(gw, Replace(id, rule), old(rules)).Some?
      ensures rules == Apply(gw, Replace(id, rule), old(rules)).GetOr(old(rules))
    {
      var idx := IndexOf(rules, id);
      if idx == |rules| {
        return false;
      }
      rules := rules[idx := rule];
      return true;
    }

    method DeleteAccessRule(id: string) returns (ok: bool)
      modifies this
      ensures ok <==> Apply(gw, Delete(id), old(rules)).Some?
      ensures rules == Apply(gw, Delete(id), old(rules)).GetOr(old(rules))
    {
      var filtered := Filter(rules, (r: Rule) => r.id != id);
      if |filtered| == |rules| {
        return false;
      }
      rules := filtered;
      return true;
    }

    /**
     The array changes only for a registered service with a rule and enabled handlers; each refusal names its
     reason.
     */
    method UpdateServiceConfig(name: string, registered: bool, options: ServiceOptions) returns (r: Result<(), Refusal>)
      modifies this
      ensures r.Ok? <==> registered && Apply(gw, Configure(name, options), old(rules)).Some?
      ensures rules == if registered then Apply(gw, Configure(name, options), old(rules)).GetOr(old(rules))
              else old(rules)
      ensures r == Err(UnknownService) <==> !registered
      ensures r == Err(NoRule) <==> registered && Find(old(rules), name).None?
      ensures r.Err? && r.error.Disabled? ==>
                options.signIn.Some? && BuildSignInAuthenticators(gw, options.signIn.value) == Err(r.error.handler)
    {
      if !registered {
        return Err(UnknownService);
      }
      var idx := IndexOf(rules, name);
      if idx == |rules| {
        return Err(NoRule);
      }
      var updated := Configured(gw, name, rules[idx], options);
      if updated.Err? {
        return Err(Disabled(updated.error));
      }
      rules := rules[idx := updated.value];
      return Ok(());
    }

    /** The rule part of `createService`: an id that is already taken is silently left alone. */
    method CreateServiceRules(main: Rule, health: Option<Rule>)
      modifies this
      ensures rules == Created(gw, old(rules), main, health)
    {
      var _ := AddAccessRule(main);
      if health.Some? {
        var _ := AddAccessRule(health.value);
      }
    }
  }

  function Created(gw: Gateway, rules: seq<Rule>, main: Rule, health: Option<Rule>): seq<Rule> {
    var withMain := Apply(gw, Add(main), rules).GetOr(rules);
    if health.None? then withMain else Apply(gw, Add(health.value), withMain).GetOr(withMain)
  }

  /** The main rule `createService` builds, or the disabled handler that makes it throw before writing. */
  function MainRule(gw: Gateway, name: string, upstream: Upstream, matchUrl: string, methods: seq<string>,
                    signIn: seq<SignIn>): Result<Rule, string>
  {
    match BuildSignInAuthenticators(gw, signIn)
    case Err(e) => Err(e)
    case Ok(chain) =>
      Ok(Rule(name, upstream, matchUrl, methods, chain,
              if signIn == [] then Handler("allow", NoConfig)
              else Handler("remote_json", RemoteJson(gw.opaRemote, name)),
              [Handler(if signIn == [] then "noop" else "header", NoConfig)], []))
  }

  function HealthRule(name: string, upstream: Upstream, matchUrl: string): Rule {
    Rule(name + "-health", upstream, matchUrl, ["GET", "OPTIONS"], [Handler("noop", NoConfig)],
         Handler("allow", NoConfig), [Handler("noop", NoConfig)], [])
  }

  // ── Posture over any run of edits ─────────────────────────────────────────

  /** The rule accepts exactly `signIn`: wholly public for none, wholly protected by its chain otherwise. */
  ghost predicate HasPosture(gw: Gateway, service: string, r: Rule, signIn: seq<SignIn>) {
    && r.id == service
    && BuildSignInAuthenticators(gw, signIn) == Ok(r.authenticators)
    && (signIn == [] <==> WhollyPublic(r))
    && (signIn != [] <==> WhollyProtected(gw, service, r))
  }

  datatype Edit = Edit(service: string, options: ServiceOptions)

  /** One `updateServiceConfig` call; a call that throws leaves the array alone. */
  function Edited(gw: Gateway, rules: seq<Rule>, edit: Edit): seq<Rule> {
    Apply(gw, Configure(edit.service, edit.options), rules).GetOr(rules)
  }

  function Edits(gw: Gateway, rules: seq<Rule>, edits: seq<Edit>): seq<Rule> {
    if edits == [] then rules else Edited(gw, Edits(gw, rules, edits[..|edits| - 1]), edits[|edits| - 1])
  }

  /** The sign-in methods in force: the last ones asked of this service that the gateway could build. */
  function InForce(gw: Gateway, service: string, signIn: seq<SignIn>, edits: seq<Edit>): seq<SignIn> {
    if edits == [] then signIn
    else InForceAfter(gw, service, InForce(gw, service, signIn, edits[..|edits| - 1]), edits[|edits| - 1])
  }

  function InForceAfter(gw: Gateway, service: string, signIn: seq<SignIn>, edit: Edit): seq<SignIn> {
    if edit.service == service && edit.options.signIn.Some? &&
       BuildSignInAuthenticators(gw, edit.options.signIn.value).Ok?
    then edit.options.signIn.value
    else signIn
  }

  /** The array is sound and the service's main rule has the posture of `signIn`. */
  ghost predicate Stands(gw: Gateway, rules: seq<Rule>, service: string, signIn: seq<SignIn>) {
    && DistinctIds(rules)
    && Find(rules, service).Some?
    && HasPosture(gw, service, Find(rules, service).value, signIn)
  }

  lemma MainRuleHasPosture(gw: Gateway, name: string, upstream: Upstream, matchUrl: string, methods: seq<string>,
                           signIn: seq<SignIn>)
    requires MainRule(gw, name, upstream, matchUrl, methods, signIn).Ok?
    ensures HasPosture(gw, name, MainRule(gw, name, upstream, matchUrl, methods, signIn).value, signIn)
  {
    if signIn != [] {
      BuiltChainSignsIn(gw, signIn);
    }
  }

  lemma ConfiguredKeepsPosture(gw: Gateway, service: string, existing: Rule, options: ServiceOptions,
      signIn: seq<SignIn>)
    requires HasPosture(gw, service, existing, signIn) && Configured(gw, service, existing, options).Ok?
    ensures HasPosture(gw, service, Configured(gw, service, existing, options).value, options.signIn.GetOr(signIn))
  {
    if options.signIn.Some? && options.signIn.value != [] {
      BuiltChainSignsIn(gw, options.signIn.value);
      if signIn != [] {
        assert existing.mutators[0].name == "header";
      }
    }
  }

  lemma UpdatedElsewhere(rules: seq<Rule>, i: nat, updated: Rule, id: string)
    requires DistinctIds(rules) && i < |rules| && updated.id == rules[i].id
    ensures DistinctIds(rules[i := updated])
    ensures Find(rules[i := updated], id) == if id == updated.id then Some(updated) else Find(rules, id)
  {
    var after := rules[i := updated];
    var j, k := IndexOf(rules, id), IndexOf(after, id);
    assert forall n :: 0 <= n < |rules| ==> after[n].id == rules[n].id;
    assert j == k;
  }

  lemma CreatedHasPosture(gw: Gateway, rules: seq<Rule>, main: Rule, health: Option<Rule>)
    requires DistinctIds(rules) && Find(rules, main.id) == None
    ensures DistinctIds(Created(gw, rules, main, health))
    ensures Find(Created(gw, rules, main, health), main.id) == Some(main)
  {
    CreatedMainRule(gw, rules, main, health);
    var withMain := Apply(gw, Add(main), rules).GetOr(rules);
    ApplyKeepsDistinctIds(gw, Add(main), rules);
    if health.Some? && Apply(gw, Add(health.value), withMain).Some? {
      ApplyKeepsDistinctIds(gw, Add(health.value), withMain);
    }
  }

  lemma EditKeepsPosture(gw: Gateway, before: seq<Rule>, edit: Edit, name: string, signIn: seq<SignIn>)
    requires Stands(gw, before, name, signIn)
    ensures Stands(gw, Edited(gw, before, edit), name, InForceAfter(gw, name, signIn, edit))
  {
    var i := IndexOf(before, edit.service);
    if i < |before| && Configured(gw, edit.service, before[i], edit.options).Ok? {
      UpdatedElsewhere(before, i, Configured(gw, edit.service, before[i], edit.options).value, name);
      if edit.service == name {
        ConfiguredKeepsPosture(gw, name, before[i], edit.options, signIn);
      }
    }
  }

  /**
   Posture over runs: once a service is created under an unused rule id, any sequence of config
   edits (of any services, refused ones included) leaves its main rule with exactly the posture of
   the sign-in methods in force, and rule ids stay pairwise distinct.
   */
  lemma {:induction false} PostureAlways(gw: Gateway, rules: seq<Rule>, main: Rule, health: Option<Rule>,
                                         signIn: seq<SignIn>, edits: seq<Edit>)
    requires DistinctIds(rules) && Find(rules, main.id) == None
    requires HasPosture(gw, main.id, main, signIn)
    ensures Stands(gw, Edits(gw, Created(gw, rules, main, health), edits), main.id, InForce(gw, main.id, signIn, edits))
  {
    if edits == [] {
      CreatedHasPosture(gw, rules, main, health);
    } else {
      var front := edits[..|edits| - 1];
      PostureAlways(gw, rules, main, health, signIn, front);
      EditKeepsPosture(gw, Edits(gw, Created(gw, rules, main, health), front), edits[|edits| - 1], main.id,
                       InForce(gw, main.id, signIn, front));
    }
  }

  /** Creating a service puts its main rule in place exactly when no other rule holds that id. */
  lemma CreatedMainRule(gw: Gateway, rules: seq<Rule>, main: Rule, health: Option<Rule>)
    ensures Find(Created(gw, rules, main, health), main.id) == Some(main)
            <==> (Find(rules, main.id) == None || Find(rules, main.id) == Some(main))
  {
    var withMain := Apply(gw, Add(main), rules).GetOr(rules);
    FindAfterAppend(rules, main, main.id);
    if health.Some? {
      FindAfterAppend(withMain, health.value, main.id);
    }
  }

  lemma {:induction false} FindAfterAppend(rules: seq<Rule>, added: Rule, id: string)
    ensures Find(rules + [added], id) ==
            if Find(rules, id).Some? then Find(rules, id) else if added.id == id then Some(added) else None
  {
    if rules == [] {
      assert [added][1..] == [];
    } else {
      assert (rules + [added])[1..] == rules[1..] + [added];
      FindAfterAppend(rules[1..], added, id);
    }
  }

  /**
   The swallowed "already exists": the health rule of service `a` takes the id of a service named
   `a-health`, so creating that service with sign-in required leaves it public.
   */
  lemma HealthRuleTakesAnId(gw: Gateway, up: Upstream, url: string)
    requires "cookie_session" in gw.authenticators
    ensures var a := MainRule(gw, "a", up, url, ["GET"], [Cookie]);
            var b := MainRule(gw, "a-health", up, url, ["GET"], [Cookie]);
            && a.Ok? && b.Ok?
            && var rules := Created(gw, Created(gw, [], a.value, Some(HealthRule("a", up, url))), b.value, None);
            Find(rules, "a-health").Some? && WhollyPublic(Find(rules, "a-health").value)
  {
    var a := MainRule(gw, "a", up, url, ["GET"], [Cookie]).value;
    var b := MainRule(gw, "a-health", up, url, ["GET"], [Cookie]).value;
    var health := HealthRule("a", up, url);
    assert "a" + "-health" == "a-health";
    assert Created(gw, [], a, Some(health)) == [a, health];
    assert IndexOf([a, health], "a-health") == 1 by {
      assert [a, health][0].id != "a-health";
    }
  }

  // ── What an edit writes ───────────────────────────────────────────────────

  /**
   An edit touches what it names and nothing else: each option that is given takes effect, each that is left out
   keeps what was there; id, error handlers and host preservation always stay.
   */
  lemma EditWrites(gw: Gateway, service: string, existing: Rule, options: ServiceOptions)
    requires Configured(gw, service, existing, options).Ok?
    ensures var r := Configured(gw, service, existing, options).value;
            && r.id == existing.id && r.errors == existing.errors
            && r.upstream.preserveHost == existing.upstream.preserveHost
            && r.upstream.url
                 == (if options.upstreamUrl.Some? then options.upstreamUrl.value else existing.upstream.url)
            && r.matchUrl == (if options.matchUrl.Some? then options.matchUrl.value else existing.matchUrl)
            && r.methods == (if options.matchMethods.Some? then options.matchMethods.value else existing.methods)
            && (options.stripPath.Keep? ==> r.upstream.stripPath == existing.upstream.stripPath)
            && (options.stripPath.Remove? ==> r.upstream.stripPath.None?)
            && (options.stripPath.Set? ==> r.upstream.stripPath == Some(options.stripPath.path))
            && (options.signIn.None? ==> r.authenticators == existing.authenticators
                                         && r.authorizer == existing.authorizer && r.mutators == existing.mutators)
            && (options.signIn == Some([]) ==> WhollyPublic(r))
            && (options.signIn.Some? && options.signIn.value != [] ==>
                 && SignInChain(gw, r.authenticators)
                 && r.authorizer == (if existing.authorizer.name == "allow"
                                     then Handler("remote_json", RemoteJson(gw.opaRemote, service))
                                     else existing.authorizer)
                 && r.mutators == if exists m :: m in existing.mutators && m.name == "header" then existing.mutators
                                  else [Handler("header", NoConfig)])
  {
    if options.signIn.Some? && options.signIn.value != [] {
      BuiltChainSignsIn(gw, options.signIn.value);
    }
  }

  /** An edit fails exactly when it asks for a sign-in method whose handler the gateway has disabled. */
  lemma EditFailsExactly(gw: Gateway, service: string, existing: Rule, options: ServiceOptions)
    ensures Configured(gw, service, existing, options).Err? <==>
            && options.signIn.Some?
            && (|| (Cookie in options.signIn.value && "cookie_session" !in gw.authenticators)
                || (Bearer in options.signIn.value && "bearer_token" !in gw.authenticators)
                || (Introspection in options.signIn.value && "oauth2_introspection" !in gw.authenticators))
  {
    if options.signIn.Some? && options.signIn.value != [] {
      var s := options.signIn.value;
      ChainNames(Cookie in s, Bearer in s, Introspection in s);
    }
  }

  lemma ChainNames(cookie: bool, bearer: bool, introspection: bool)
    ensures var chain := ChainOf(cookie, bearer, introspection);
            && (cookie <==> exists h :: h in chain && h.name == "cookie_session")
            && (bearer <==> exists h :: h in chain && h.name == "bearer_token")
            && (introspection <==> exists h :: h in chain && h.name == "oauth2_introspection")
            && forall h :: h in chain ==> h.name in {"cookie_session", "bearer_token", "oauth2_introspection"}
  {
    var chain := ChainOf(cookie, bearer, introspection);
    if cookie {
      assert chain[0].name == "cookie_session";
    }
    if bearer {
      assert chain[if cookie then 1 else 0].name == "bearer_token";
    }
    if introspection {
      assert chain[|chain| - 1].name == "oauth2_introspection";
    }
  }

  /** An added rule goes to the end, unless its id is taken. */
  lemma AddAppends(gw: Gateway, rules: seq<Rule>, rule: Rule)
    ensures Apply(gw, Add(rule), rules)
            == if exists r :: r in rules && r.id == rule.id then None else Some(rules + [rule])
  {
    if r :| r in rules && r.id == rule.id {
      var k :| 0 <= k < |rules| && rules[k] == r;
    }
  }

  /** The other mutations find the first rule with the id, and write nothing if there is none. */
  lemma UnknownIdWritesNothing(gw: Gateway, op: RuleOp, rules: seq<Rule>)
    requires !op.Add? && forall r :: r in rules ==> r.id != if op.Configure? then op.service else op.id
    ensures Apply(gw, op, rules).None?
  {
    if op.Delete? {
      FilterKeepsAll(rules, (r: Rule) => r.id != op.id);
    }
  }

  /** They write in its place; all other rules stay where they were. */
  lemma WritesInPlace(gw: Gateway, front: seq<Rule>, rule: Rule, back: seq<Rule>, next: Rule, options: ServiceOptions)
    requires forall r :: r in front ==> r.id != rule.id
    ensures Apply(gw, Replace(rule.id, next), front + [rule] + back) == Some(front + [next] + back)
    ensures var edited := Configured(gw, rule.id, rule, options);
            Apply(gw, Configure(rule.id, options), front + [rule] + back)
            == if edited.Ok? then Some(front + [edited.value] + back) else None
  {
    FoundBehind(front, rule, back);
  }

  lemma FoundBehind(front: seq<Rule>, rule: Rule, back: seq<Rule>)
    requires forall r :: r in front ==> r.id != rule.id
    ensures IndexOf(front + [rule] + back, rule.id) == |front|
    ensures (front + [rule] + back)[|front|] == rule
    ensures forall next :: (front + [rule] + back)[|front| := next] == front + [next] + back
  {
    var rules := front + [rule] + back;
    forall k | 0 <= k < |front| ensures rules[k].id != rule.id {
      assert rules[k] == front[k] && front[k] in front;
    }
    assert rules[|front|] == rule;
  }

  /** Or, of a rule that is deleted, close the gap. */
  lemma DeleteClosesGap(gw: Gateway, front: seq<Rule>, rule: Rule, back: seq<Rule>)
    requires (forall r :: r in front ==> r.id != rule.id) && (forall r :: r in back ==> r.id != rule.id)
    ensures Apply(gw, Delete(rule.id), front + [rule] + back) == Some(front + back)
  {
    FilteredOut(front, rule, back, rule.id);
  }

  lemma FilteredOut(front: seq<Rule>, rule: Rule, back: seq<Rule>, id: string)
    requires (forall r :: r in front ==> r.id != id) && rule.id == id && (forall r :: r in back ==> r.id != id)
    ensures Filter(front + [rule] + back, (r: Rule) => r.id != id) == front + back
  {
    var p := (r: Rule) => r.id != id;
    FilterAppend(front + [rule], back, p);
    FilterAppend(front, [rule], p);
    FilterKeepsAll(front, p);
    FilterKeepsAll(back, p);
    assert front + [] == front;
  }

  /** What a new service's two rules carry over from the request. */
  lemma BuiltRulesCarry(gw: Gateway, name: string, upstream: Upstream, matchUrl: string, methods: seq<string>,
                        signIn: seq<SignIn>)
    ensures var main := MainRule(gw, name, upstream, matchUrl, methods, signIn);
            main.Ok? ==> main.value.id == name && main.value.upstream == upstream && main.value.matchUrl == matchUrl
                         && main.value.methods == methods && main.value.errors == []
    ensures var health := HealthRule(name, upstream, matchUrl);
            && health.id == name + "-health" && health.upstream == upstream && health.matchUrl == matchUrl
            && health.methods == ["GET", "OPTIONS"] && WhollyPublic(health)
  {
  }

  // ── Which service owns a rule ─────────────────────────────────────────────

  predicate Owns(service: string, id: string) {
    id == service || service + "-" <= id
  }

  function BeforeDash(id: string): string {
    if id == "" || id[0] == '-' then "" else [id[0]] + BeforeDash(id[1..])
  }

  /** The text up to the first dash, or all of it. */
  lemma {:induction false} BeforeDashMeans(id: string)
    ensures var p := BeforeDash(id);
            p <= id && '-' !in p && (|p| < |id| ==> id[|p|] == '-')
  {
    if id != "" && id[0] != '-' {
      BeforeDashMeans(id[1..]);
    }
  }

  lemma OwnersNest(a: string, b: string, id: string)
    requires Owns(a, id) && Owns(b, id) && |a| == |b|
    ensures a == b
  {
    assert a <= id && b <= id;
    assert a == id[..|a|] && b == id[..|b|];
  }

  /** The longest registered service owning the id, whatever order the registry is read in. */
  method DeriveServiceForRule(id: string, services: seq<string>) returns (owner: string)
    ensures (exists s :: s in services && Owns(s, id)) ==> owner in services && Owns(owner, id)
    ensures forall s :: s in services && Owns(s, id) ==> |s| <= |owner| && (|s| == |owner| ==> s == owner)
    ensures (forall s :: s in services ==> !Owns(s, id)) ==> owner == BeforeDash(id)
    ensures id in services ==> owner == id
  {
    var best: Option<string> := None;
    for i := 0 to |services|
      invariant best.None? <==> forall j :: 0 <= j < i ==> !Owns(services[j], id)
      invariant best.Some? ==> best.value in services[..i] && Owns(best.value, id)
      invariant best.Some? ==> forall j :: 0 <= j < i && Owns(services[j], id) ==> |services[j]| <= |best.value|
    {
      var svc := services[i];
      if Owns(svc, id) && (best.None? || |svc| > |best.value|) {
        best := Some(svc);
      }
    }
    owner := best.GetOr(BeforeDash(id));
    forall s | s in services && Owns(s, id) && |s| == |owner| ensures s == owner {
      OwnersNest(s, owner, id);
    }
    assert id in services ==> Owns(id, id);
  }
}
