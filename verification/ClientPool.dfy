/** The pool of API clients: what is cached, what an invalidation evicts, and when a lookup answers as a fresh build
    would. Each operation is one step here; check and store of the original are two critical sections. */
module ClientPool {
  import opened Common

  /** A CA certificate read from a Secret: none configured, Secret missing, or a text that parses or does not. */
  datatype Ca = NoCa | MissingCa | Pem(text: string, parses: bool)

  datatype Login = Login(username: string, password: string)

  /** A UyuniProvider with the Secrets it names; also the copy of one that an Organization keeps in its status. The
      reference to the CA Secret may leave its namespace to the default. */
  datatype Provider = Provider(url: string, insecure: bool, ca: Ca, caNamespaced: bool, secret: Option<Login>)

  /** How an Organization logs in: with its provider's credentials, or with its own Secret, which may be missing. */
  datatype Credentials = Shared | Own(secret: Option<Login>)

  datatype Org = Org(provider: string, credentials: Credentials, snapshot: Option<Provider>)

  /** Namespace and name. */
  type Key = (string, string)

  /** What the API server holds. `displays` is the Organization that a list by display name finds first. */
  datatype Cluster = Cluster(providers: map<string, Provider>, defaultName: Option<string>,
                             orgs: map<Key, Org>, displays: map<Key, Key>)

  datatype Details = Details(url: string, insecure: bool, ca: Ca)

  datatype Config = Config(details: Details, login: Login)

  /** A client, with a number that tells it from every other one. */
  datatype Client = Client(serial: int, config: Config)

  /** `provider` names the provider whose client the entry shares, and is empty for a client of its own. */
  datatype OrgEntry = OrgEntry(client: Client, provider: string)

  datatype State = State(cache: map<string, Client>, orgs: map<Key, OrgEntry>, cobbler: map<string, Client>, built: int)

  // ---------------------------------------------------------------------------------------------------------------
  // What a fresh build gives
  // ---------------------------------------------------------------------------------------------------------------

  predicate UsableLogin(secret: Option<Login>) {
    secret.Some? && secret.value.username != "" && secret.value.password != ""
  }

  function ConfigOf(p: Provider): Option<Config> {
    if UsableLogin(p.secret) && !p.ca.MissingCa? then Some(Config(Details(p.url, p.insecure, p.ca), p.secret.value))
    else None
  }

  function ProviderConfig(c: Cluster, name: string): Option<Config> {
    if name in c.providers then ConfigOf(c.providers[name]) else None
  }

  predicate TrustsCa(config: Config) {
    config.details.ca.Pem? && config.details.ca.text != "" ==> config.details.ca.parses
  }

  function CobblerConfig(c: Cluster, name: string): Option<Config> {
    var config := ProviderConfig(c, name);
    if config.Some? && TrustsCa(config.value) then config else None
  }

  /** A named provider, or the default one. */
  function ResolveName(c: Cluster, ref: string): Option<string> {
    if ref != "" then Some(ref) else c.defaultName
  }

  function FindOrg(c: Cluster, key: Key): Option<Key> {
    if key in c.orgs then Some(key)
    else if key in c.displays && c.displays[key] in c.orgs then Some(c.displays[key])
    else None
  }

  /** Whether a build for an Organization with credentials of its own finds the live provider's CA: it does not
      default the namespace. */
  predicate FindsCa(p: Provider) {
    p.ca.NoCa? || (p.ca.Pem? && p.caNamespaced)
  }

  /** The live provider's connection details, or else those of the snapshot, whose references are complete. */
  function ProviderDetails(c: Cluster, org: Org): Option<Details> {
    if org.provider in c.providers then
      var p := c.providers[org.provider];
      if FindsCa(p) then Some(Details(p.url, p.insecure, p.ca)) else None
    else if org.snapshot.Some? && org.snapshot.value.url != "" && !org.snapshot.value.ca.MissingCa? then
      Some(Details(org.snapshot.value.url, org.snapshot.value.insecure, org.snapshot.value.ca))
    else None
  }

  function SnapshotConfig(org: Org): Option<Config> {
    if org.snapshot.Some? && org.snapshot.value.url != "" then ConfigOf(org.snapshot.value) else None
  }

  function OwnConfig(c: Cluster, org: Org): Option<Config>
    requires org.credentials.Own?
  {
    var details := ProviderDetails(c, org);
    if details.Some? && UsableLogin(org.credentials.secret)
        then Some(Config(details.value, org.credentials.secret.value))
    else None
  }

  function SharedConfig(c: Cluster, org: Org): Option<Config> {
    var name := ResolveName(c, org.provider);
    if name.None? then None else ProviderConfig(c, name.value)
  }

  /** The client configuration and the tag that a build for this Organization stores, when every login is accepted. */
  function FreshEntry(c: Cluster, key: Key): Option<(Config, string)> {
    var found := FindOrg(c, key);
    if found.None? then None
    else
      var org := c.orgs[found.value];
      if org.credentials.Own? then
        (var config := OwnConfig(c, org); if config.Some? then Some((config.value, "")) else None)
      else
        var shared := SharedConfig(c, org);
        if shared.Some? then Some((shared.value, org.provider))
        else if SnapshotConfig(org).Some? then Some((SnapshotConfig(org).value, ""))
        else None
  }

  // ---------------------------------------------------------------------------------------------------------------
  // The operations. `online` holds the configurations whose login the servers accept now.
  // ---------------------------------------------------------------------------------------------------------------

  function Build(s: State, c: Cluster, online: set<Config>, name: string): (Option<Client>, State) {
    var config := ProviderConfig(c, name);
    if config.Some? && config.value in online then
      var client := Client(s.built, config.value);
      (Some(client), s.(cache := s.cache[name := client], built := s.built + 1))
    else (None, s)
  }

  function For(s: State, c: Cluster, online: set<Config>, ref: string): (Option<Client>, State) {
    var name := ResolveName(c, ref);
    if name.None? then (None, s)
    else if name.value in s.cache then (Some(s.cache[name.value]), s)
    else Build(s, c, online, name.value)
  }

  function Cobbler(s: State, c: Cluster, ref: string): (Option<Client>, State) {
    var name := ResolveName(c, ref);
    if name.None? then (None, s)
    else if name.value in s.cobbler then (Some(s.cobbler[name.value]), s)
    else if CobblerConfig(c, name.value).None? then (None, s)
    else
      var client := Client(s.built, CobblerConfig(c, name.value).value);
      (Some(client), s.(cobbler := s.cobbler[name.value := client], built := s.built + 1))
  }

  /** A client of the Organization's own, if its login is accepted. */
  function BuildOwn(s: State, online: set<Config>, key: Key, config: Option<Config>): (Option<Client>, State) {
    if config.Some? && config.value in online then
      var client := Client(s.built, config.value);
      (Some(client), s.(orgs := s.orgs[key := OrgEntry(client, "")], built := s.built + 1))
    else (None, s)
  }

  function BuildForOrg(s: State, c: Cluster, online: set<Config>, key: Key): (Option<Client>, State) {
    var found := FindOrg(c, key);
    if found.None? then (None, s)
    else
      var org := c.orgs[found.value];
      if org.credentials.Own? then BuildOwn(s, online, key, OwnConfig(c, org))
      else
        var (shared, s1) := For(s, c, online, org.provider);
        if shared.Some? then (shared, s1.(orgs := s1.orgs[key := OrgEntry(shared.value, org.provider)]))
        else BuildOwn(s1, online, key, SnapshotConfig(org))
  }

  function ForOrganization(s: State, c: Cluster, online: set<Config>, key: Key): (Option<Client>, State) {
    if key.1 == "" then (None, s)
    else if key in s.orgs then (Some(s.orgs[key].client), s)
    else BuildForOrg(s, c, online, key)
  }

  function Invalidate(s: State, name: string): State {
    s.(cache := s.cache - {name}, cobbler := s.cobbler - {name},
       orgs := map k | k in s.orgs && s.orgs[k].provider != name :: s.orgs[k])
  }

  /** Several providers at once: one rotated Secret may serve more than one. */
  function InvalidateAll(s: State, names: set<string>): State {
    s.(cache := s.cache - names, cobbler := s.cobbler - names,
       orgs := map k | k in s.orgs && s.orgs[k].provider !in names :: s.orgs[k])
  }

  lemma InvalidateOneMore(s: State, names: set<string>, name: string)
    ensures InvalidateAll(s, {}) == s
    ensures Invalidate(InvalidateAll(s, names), name) == InvalidateAll(s, names + {name})
  {
    assert InvalidateAll(s, {}).orgs == s.orgs;
    assert s.cache - names - {name} == s.cache - (names + {name});
    assert s.cobbler - names - {name} == s.cobbler - (names + {name});
    assert Invalidate(InvalidateAll(s, names), name).orgs == InvalidateAll(s, names + {name}).orgs;
  }

  function InvalidateOrg(s: State, key: Key): State {
    s.(orgs := s.orgs - {key})
  }

  // ---------------------------------------------------------------------------------------------------------------
  // Shared clients
  // ---------------------------------------------------------------------------------------------------------------

  /** Every entry tagged with a provider holds the very client cached for that provider. */
  predicate Coherent(s: State) {
    forall k :: k in s.orgs && s.orgs[k].provider != "" ==>
      s.orgs[k].provider in s.cache && s.cache[s.orgs[k].provider] == s.orgs[k].client
  }

  datatype Event =
    | AskProvider(ref: string, online: set<Config>)
    | AskCobbler(ref: string)
    | AskOrg(key: Key, online: set<Config>)
    | ProvidersChanged(names: set<string>, after: Cluster)
    | OrgChanged(key: Key, after: Cluster)

  datatype World = World(c: Cluster, s: State)

  /** A lookup, or a change together with the invalidation that follows it. */
  function Next(w: World, e: Event): World {
    match e
    case AskProvider(ref, online) => w.(s := For(w.s, w.c, online, ref).1)
    case AskCobbler(ref) => w.(s := Cobbler(w.s, w.c, ref).1)
    case AskOrg(key, online) => w.(s := ForOrganization(w.s, w.c, online, key).1)
    case ProvidersChanged(names, after) => World(after, InvalidateAll(w.s, names))
    case OrgChanged(key, after) => World(after, InvalidateOrg(w.s, key))
  }

  function Run(w: World, es: seq<Event>): World
    decreases |es|
  {
    if es == [] then w else Run(Next(w, es[0]), es[1..])
  }

  lemma LookupsKeepCoherent(s: State, c: Cluster, online: set<Config>, ref: string)
    requires Coherent(s)
    ensures Coherent(For(s, c, online, ref).1)
    ensures For(s, c, online, ref).0.Some? && ref != "" ==>
              ref in For(s, c, online, ref).1.cache
                  && For(s, c, online, ref).1.cache[ref] == For(s, c, online, ref).0.value
  {
  }

  lemma StoringKeepsCoherent(s: State, s': State, key: Key, e: OrgEntry)
    requires Coherent(s) && s'.cache == s.cache && s'.orgs == s.orgs[key := e]
    requires e.provider != "" ==> e.provider in s.cache && s.cache[e.provider] == e.client
    ensures Coherent(s')
  {
  }

  lemma OwnClientKeepsCoherent(s: State, online: set<Config>, key: Key, config: Option<Config>)
    requires Coherent(s)
    ensures Coherent(BuildOwn(s, online, key, config).1)
  {
    if config.Some? && config.value in online {
      StoringKeepsCoherent(s, BuildOwn(s, online, key, config).1, key, OrgEntry(Client(s.built, config.value), ""));
    }
  }

  lemma OrgLookupKeepsCoherent(s: State, c: Cluster, online: set<Config>, key: Key)
    requires Coherent(s)
    ensures Coherent(ForOrganization(s, c, online, key).1)
  {
    if key.1 != "" && key !in s.orgs && FindOrg(c, key).Some? {
      var org := c.orgs[FindOrg(c, key).value];
      if org.credentials.Own? {
        OwnClientKeepsCoherent(s, online, key, OwnConfig(c, org));
      } else {
        LookupsKeepCoherent(s, c, online, org.provider);
        var (shared, s1) := For(s, c, online, org.provider);
        if shared.Some? {
          var e := OrgEntry(shared.value, org.provider);
          StoringKeepsCoherent(s1, s1.(orgs := s1.orgs[key := e]), key, e);
        } else {
          OwnClientKeepsCoherent(s1, online, key, SnapshotConfig(org));
        }
      }
    }
  }

  lemma NextKeepsCoherent(w: World, e: Event)
    requires Coherent(w.s)
    ensures Coherent(Next(w, e).s)
  {
    match e
    case AskProvider(ref, online) => LookupsKeepCoherent(w.s, w.c, online, ref);
    case AskCobbler(_) =>
    case AskOrg(key, online) => OrgLookupKeepsCoherent(w.s, w.c, online, key);
    case ProvidersChanged(_, _) =>
    case OrgChanged(_, _) =>
  }

  /** In every reachable state, whatever changes in the cluster. */
  lemma {:induction false} EveryStateIsCoherent(w: World, es: seq<Event>)
    requires Coherent(w.s)
    ensures Coherent(Run(w, es).s)
    decreases |es|
  {
    if es != [] {
      NextKeepsCoherent(w, es[0]);
      EveryStateIsCoherent(Next(w, es[0]), es[1..]);
    }
  }

  /** No two clients have the same number: the next number is above all of them, and the clients of two providers, or
      of a provider and of Cobbler, are two. */
  predicate Numbered(s: State) {
    && (forall n :: n in s.cache ==> s.cache[n].serial < s.built)
    && (forall n :: n in s.cobbler ==> s.cobbler[n].serial < s.built)
    && (forall k :: k in s.orgs ==> s.orgs[k].client.serial < s.built)
    && (forall n, m :: n in s.cache && m in s.cache && n != m ==> s.cache[n].serial != s.cache[m].serial)
    && (forall n, m :: n in s.cobbler && m in s.cobbler && n != m ==> s.cobbler[n].serial != s.cobbler[m].serial)
    && (forall n, m :: n in s.cache && m in s.cobbler ==> s.cache[n].serial != s.cobbler[m].serial)
  }

  lemma ForKeepsNumbered(s: State, c: Cluster, online: set<Config>, ref: string)
    requires Numbered(s)
    ensures var (r, s') := For(s, c, online, ref); Numbered(s') && (r.Some? ==> r.value.serial < s'.built)
  {
  }

  lemma CobblerKeepsNumbered(s: State, c: Cluster, ref: string)
    requires Numbered(s)
    ensures Numbered(Cobbler(s, c, ref).1)
  {
  }

  lemma StoringKeepsNumbered(s: State, key: Key, e: OrgEntry, built: int)
    requires Numbered(s) && s.built <= built && e.client.serial < built
    ensures Numbered(s.(orgs := s.orgs[key := e], built := built))
  {
  }

  lemma OwnClientKeepsNumbered(s: State, online: set<Config>, key: Key, config: Option<Config>)
    requires Numbered(s)
    ensures Numbered(BuildOwn(s, online, key, config).1)
  {
    if config.Some? && config.value in online {
      StoringKeepsNumbered(s, key, OrgEntry(Client(s.built, config.value), ""), s.built + 1);
    }
  }

  lemma OrgLookupKeepsNumbered(s: State, c: Cluster, online: set<Config>, key: Key)
    requires Numbered(s)
    ensures Numbered(ForOrganization(s, c, online, key).1)
  {
    if key.1 != "" && key !in s.orgs && FindOrg(c, key).Some? {
      var org := c.orgs[FindOrg(c, key).value];
      if org.credentials.Own? {
        OwnClientKeepsNumbered(s, online, key, OwnConfig(c, org));
      } else {
        ForKeepsNumbered(s, c, online, org.provider);
        var (shared, s1) := For(s, c, online, org.provider);
        if shared.Some? {
          StoringKeepsNumbered(s1, key, OrgEntry(shared.value, org.provider), s1.built);
        } else {
          OwnClientKeepsNumbered(s1, online, key, SnapshotConfig(org));
        }
      }
    }
  }

  lemma {:induction false} EveryStateIsNumbered(w: World, es: seq<Event>)
    requires Numbered(w.s)
    ensures Numbered(Run(w, es).s)
    decreases |es|
  {
    if es != [] {
      match es[0] {
        case AskProvider(ref, online) => ForKeepsNumbered(w.s, w.c, online, ref);
        case AskCobbler(ref) => CobblerKeepsNumbered(w.s, w.c, ref);
        case AskOrg(key, online) => OrgLookupKeepsNumbered(w.s, w.c, online, key);
        case ProvidersChanged(_, _) =>
        case OrgChanged(_, _) =>
      }
      EveryStateIsNumbered(Next(w, es[0]), es[1..]);
    }
  }

  // ---------------------------------------------------------------------------------------------------------------
  // Agreement with a fresh build
  // ---------------------------------------------------------------------------------------------------------------

  predicate EntryFresh(s: State, c: Cluster, key: Key)
    requires key in s.orgs
  {
    FreshEntry(c, key) == Some((s.orgs[key].client.config, s.orgs[key].provider))
  }

  predicate OrgsFresh(s: State, c: Cluster) {
    forall key {:trigger EntryFresh(s, c, key)} :: key in s.orgs ==> EntryFresh(s, c, key)
  }

  predicate ProvidersFresh(s: State, c: Cluster) {
    forall n :: n in s.cache ==> ProviderConfig(c, n) == Some(s.cache[n].config)
  }

  predicate CobblersFresh(s: State, c: Cluster) {
    forall n :: n in s.cobbler ==> CobblerConfig(c, n) == Some(s.cobbler[n].config)
  }

  /** Everything cached is what a fresh build would cache now. */
  predicate Fresh(s: State, c: Cluster) {
    ProvidersFresh(s, c) && CobblersFresh(s, c) && OrgsFresh(s, c)
  }

  /** Every Organization names its provider. */
  predicate Named(c: Cluster) {
    forall k :: k in c.orgs ==> c.orgs[k].provider != ""
  }

  /** The lookup finds the Organization's live provider refusing the login, and falls back to the snapshot. */
  predicate FallsBack(s: State, c: Cluster, online: set<Config>, key: Key) {
    && key.1 != "" && key !in s.orgs && FindOrg(c, key).Some?
    && var org := c.orgs[FindOrg(c, key).value];
       && org.credentials.Shared? && org.provider !in s.cache
       && ProviderConfig(c, org.provider).Some? && ProviderConfig(c, org.provider).value !in online
       && SnapshotConfig(org).Some? && SnapshotConfig(org).value in online
  }

  lemma SameOrgsFresh(s: State, s': State, c: Cluster)
    requires OrgsFresh(s, c) && s'.orgs == s.orgs
    ensures OrgsFresh(s', c)
  {
    forall key | key in s.orgs
      ensures EntryFresh(s', c, key)
    {
      assert EntryFresh(s, c, key);
    }
  }

  lemma ForKeepsFresh(s: State, c: Cluster, online: set<Config>, ref: string)
    requires Fresh(s, c)
    ensures Fresh(For(s, c, online, ref).1, c)
  {
    SameOrgsFresh(s, For(s, c, online, ref).1, c);
  }

  lemma CobblerKeepsFresh(s: State, c: Cluster, ref: string)
    requires Fresh(s, c)
    ensures Fresh(Cobbler(s, c, ref).1, c)
  {
    SameOrgsFresh(s, Cobbler(s, c, ref).1, c);
  }

  /** What For and Cobbler answer is what a fresh build gives: the same configuration, and nothing only when the fresh
      build fails or its login is refused. */
  lemma ProviderLookupsAnswerFresh(s: State, c: Cluster, online: set<Config>, ref: string)
    requires Fresh(s, c)
    ensures var name := ResolveName(c, ref); var r := For(s, c, online, ref).0;
            if r.Some? then name.Some? && ProviderConfig(c, name.value) == Some(r.value.config)
            else name.None? || ProviderConfig(c, name.value).None? || ProviderConfig(c, name.value).value !in online
    ensures var name := ResolveName(c, ref); var r := Cobbler(s, c, ref).0;
            if r.Some? then name.Some? && CobblerConfig(c, name.value) == Some(r.value.config)
            else name.None? || CobblerConfig(c, name.value).None?
  {
  }

  lemma OtherEntriesStay(s: State, s': State, c: Cluster, key: Key)
    requires OrgsFresh(s, c) && key in s'.orgs
    requires forall k :: k in s'.orgs && k != key ==> k in s.orgs && s'.orgs[k] == s.orgs[k]
    ensures OrgsFresh(s', c) <==> EntryFresh(s', c, key)
  {
    forall k | k in s'.orgs && k != key
      ensures EntryFresh(s', c, k)
    {
      assert EntryFresh(s, c, k);
    }
  }

  lemma StoredEntryFreshIff(s: State, s': State, c: Cluster, key: Key, e: OrgEntry)
    requires Fresh(s, c) && key !in s.orgs
    requires s'.cache == s.cache && s'.cobbler == s.cobbler && s'.orgs == s.orgs[key := e]
    ensures Fresh(s', c) <==> FreshEntry(c, key) == Some((e.client.config, e.provider))
  {
    OtherEntriesStay(s, s', c, key);
  }

  lemma OwnClientFreshIff(s: State, c: Cluster, online: set<Config>, key: Key, config: Option<Config>)
    requires Fresh(s, c) && key !in s.orgs
    ensures Fresh(BuildOwn(s, online, key, config).1, c) <==>
              (config.Some? && config.value in online ==> FreshEntry(c, key) == Some((config.value, "")))
  {
    if config.Some? && config.value in online {
      StoredEntryFreshIff(s, BuildOwn(s, online, key, config).1, c, key, OrgEntry(Client(s.built, config.value), ""));
    }
  }

  /** A lookup for an Organization leaves the pool fresh exactly when it does not fall back to a snapshot of a
      provider that is still there. */
  lemma OrgLookupKeepsFreshIff(s: State, c: Cluster, online: set<Config>, key: Key)
    requires Fresh(s, c) && Named(c)
    ensures Fresh(ForOrganization(s, c, online, key).1, c) <==> !FallsBack(s, c, online, key)
  {
    if key.1 != "" && key !in s.orgs && FindOrg(c, key).Some? {
      var org := c.orgs[FindOrg(c, key).value];
      if org.credentials.Own? {
        OwnClientFreshIff(s, c, online, key, OwnConfig(c, org));
      } else {
        ForKeepsFresh(s, c, online, org.provider);
        ProviderLookupsAnswerFresh(s, c, online, org.provider);
        var (shared, s1) := For(s, c, online, org.provider);
        if shared.Some? {
          var e := OrgEntry(shared.value, org.provider);
          StoredEntryFreshIff(s1, s1.(orgs := s1.orgs[key := e]), c, key, e);
        } else {
          OwnClientFreshIff(s1, c, online, key, SnapshotConfig(org));
        }
      }
    }
  }

  /** What ForOrganization answers is what a fresh build gives, unless it falls back. */
  lemma OrgLookupAnswersFresh(s: State, c: Cluster, online: set<Config>, key: Key)
    requires Fresh(s, c) && Named(c) && !FallsBack(s, c, online, key)
    ensures var r := ForOrganization(s, c, online, key).0;
            if r.Some? then FreshEntry(c, key).Some? && FreshEntry(c, key).value.0 == r.value.config
            else key.1 == "" || FreshEntry(c, key).None? || FreshEntry(c, key).value.0 !in online
  {
    if key in s.orgs {
      assert EntryFresh(s, c, key);
    }
  }

  // ---------------------------------------------------------------------------------------------------------------
  // What a lookup answers, field by field
  // ---------------------------------------------------------------------------------------------------------------

  /** The client goes to this address, with this trust and this login. */
  predicate Reaches(client: Client, url: string, insecure: bool, ca: Ca, login: Login) {
    && client.config.details.url == url && client.config.details.insecure == insecure && client.config.details.ca == ca
    && client.config.login.username == login.username && client.config.login.password == login.password
  }

  predicate ReachesProvider(client: Client, p: Provider) {
    p.secret.Some? && Reaches(client, p.url, p.insecure, p.ca, p.secret.value)
  }

  /** The Secret is there with both of its keys. */
  predicate GoodSecret(secret: Option<Login>) {
    secret.Some? && secret.value.username != "" && secret.value.password != ""
  }

  predicate Accepts(online: set<Config>, p: Provider) {
    && GoodSecret(p.secret) && p.ca != MissingCa
    && Config(Details(p.url, p.insecure, p.ca), Login(p.secret.value.username, p.secret.value.password)) in online
  }

  /** A client for a named provider is that provider's in every field. There is none exactly when none is cached and
      the provider, its Secret, one of its keys or its CA Secret is missing, or its login is refused. */
  lemma ForReachesTheProvider(s: State, c: Cluster, online: set<Config>, name: string)
    requires Fresh(s, c) && name != ""
    ensures var r := For(s, c, online, name).0;
            && (r.Some? ==> name in c.providers && ReachesProvider(r.value, c.providers[name]))
            && (r.None? <==> name !in s.cache && (name in c.providers ==> !Accepts(online, c.providers[name])))
  {
  }

  /** The same for Cobbler, which does not log in, but needs a certificate that parses. */
  lemma CobblerReachesTheProvider(s: State, c: Cluster, name: string)
    requires Fresh(s, c) && name != ""
    ensures var r := Cobbler(s, c, name).0;
            && (r.Some? ==> name in c.providers && ReachesProvider(r.value, c.providers[name]))
            && (r.None? <==> !(&& name in c.providers && GoodSecret(c.providers[name].secret)
                               && match c.providers[name].ca
                                  case NoCa => true
                                  case MissingCa => false
                                  case Pem(text, parses) => text == "" || parses))
  {
  }

  /** Without a name it is the default provider that answers, if there is one. */
  lemma DefaultProviderAnswers(s: State, c: Cluster, online: set<Config>)
    requires c.defaultName != Some("")
    ensures c.defaultName.None? ==> For(s, c, online, "") == (None, s) && Cobbler(s, c, "") == (None, s)
    ensures c.defaultName.Some? ==> For(s, c, online, "") == For(s, c, online, c.defaultName.value)
    ensures c.defaultName.Some? ==> Cobbler(s, c, "") == Cobbler(s, c, c.defaultName.value)
  {
  }

  /** The Organization that goes by this name: by its own, or else by its display name. */
  predicate GoesBy(c: Cluster, key: Key, own: Key) {
    own in c.orgs && if key in c.orgs then own == key else key in c.displays && own == c.displays[key]
  }

  lemma NobodyIsServed(s: State, c: Cluster, online: set<Config>, key: Key)
    requires OrgsFresh(s, c) && forall own :: !GoesBy(c, key, own)
    ensures ForOrganization(s, c, online, key) == (None, s)
  {
    CachedNamesAreFound(s, c);
    assert !GoesBy(c, key, key);
    assert key in c.displays ==> !GoesBy(c, key, c.displays[key]);
  }

  lemma CachedNamesAreFound(s: State, c: Cluster)
    requires OrgsFresh(s, c)
    ensures forall key :: key in s.orgs ==> FindOrg(c, key).Some?
  {
    forall key | key in s.orgs
      ensures FindOrg(c, key).Some?
    {
      assert EntryFresh(s, c, key);
    }
  }

  /** With a login of its own: the live provider's address and trust, or the snapshot's when the provider is gone. */
  lemma OwnClientReaches(s: State, c: Cluster, online: set<Config>, key: Key, own: Key)
    requires OrgsFresh(s, c) && key.1 != "" && GoesBy(c, key, own) && c.orgs[own].credentials.Own?
    ensures var r := ForOrganization(s, c, online, key).0;
            var org := c.orgs[own]; var secret := org.credentials.secret; var live := org.provider in c.providers;
            && (r.Some? ==>
                  && GoodSecret(secret) && (live || org.snapshot.Some?)
                  && var p := if live then c.providers[org.provider] else org.snapshot.value;
                     Reaches(r.value, p.url, p.insecure, p.ca, secret.value))
            && (r.None? <==>
                && key !in s.orgs
                && (GoodSecret(secret) && (live || (org.snapshot.Some? && org.snapshot.value.url != "")) ==>
                      var p := if live then c.providers[org.provider] else org.snapshot.value;
                      || p.ca == MissingCa || (live && p.ca != NoCa && !p.caNamespaced)
                      || Config(Details(p.url, p.insecure, p.ca), secret.value) !in online))
  {
    assert key in s.orgs ==> EntryFresh(s, c, key);
  }

  /** Without one: the live provider's client, or else one built from the snapshot. */
  lemma SharedClientReaches(s: State, c: Cluster, online: set<Config>, key: Key, own: Key)
    requires Coherent(s) && Fresh(s, c) && Named(c)
    requires key.1 != "" && GoesBy(c, key, own) && c.orgs[own].credentials.Shared?
    ensures var r := ForOrganization(s, c, online, key).0;
            var org := c.orgs[own];
            var live := org.provider in c.providers
                        && (org.provider in s.cache || Accepts(online, c.providers[org.provider]));
            && (r.Some? ==>
                  if live then ReachesProvider(r.value, c.providers[org.provider])
                  else
                    && org.snapshot.Some? && org.snapshot.value.url != ""
                    && ReachesProvider(r.value, org.snapshot.value))
            && (r.None? <==>
                  && key !in s.orgs && !live
                  && (org.snapshot.Some? && org.snapshot.value.url != "" ==> !Accepts(online, org.snapshot.value)))
  {
    assert key in s.orgs ==> EntryFresh(s, c, key);
    assert ResolveName(c, c.orgs[own].provider) == Some(c.orgs[own].provider);
  }

  lemma ProviderAnswersStay(s: State, c: Cluster, online: set<Config>, name: string, c': Cluster, online': set<Config>)
    requires name != ""
    ensures var (r, s') := For(s, c, online, name); r.Some? ==> For(s', c', online', name) == (r, s')
    ensures var (r, s') := Cobbler(s, c, name); r.Some? ==> Cobbler(s', c', name) == (r, s')
  {
  }

  lemma OrgAnswersStay(s: State, c: Cluster, online: set<Config>, key: Key, c': Cluster, online': set<Config>)
    ensures var (r, s') := ForOrganization(s, c, online, key);
            r.Some? ==> ForOrganization(s', c', online', key) == (r, s')
  {
    var (r, s') := ForOrganization(s, c, online, key);
    assert r.Some? ==> key.1 != "" && key in s'.orgs && s'.orgs[key].client == r.value;
  }

  /** What a lookup has answered, the next one answers again, whatever has become of the cluster and the servers, */
  lemma AnswersStay(s: State, c: Cluster, online: set<Config>, name: string, key: Key,
                    c': Cluster, online': set<Config>)
    requires name != ""
    ensures var (r, s') := For(s, c, online, name); r.Some? ==> For(s', c', online', name) == (r, s')
    ensures var (r, s') := Cobbler(s, c, name); r.Some? ==> Cobbler(s', c', name) == (r, s')
    ensures var (r, s') := ForOrganization(s, c, online, key);
            r.Some? ==> ForOrganization(s', c', online', key) == (r, s')
  {
    ProviderAnswersStay(s, c, online, name, c', online');
    OrgAnswersStay(s, c, online, key, c', online');
  }

  /** until its provider is invalidated, or the Organization itself: then the entry goes, and no other one does. */
  lemma InvalidationForgets(s: State, name: string, key: Key, c: Cluster, online: set<Config>)
    requires name != ""
    ensures var s' := Invalidate(s, name);
            && For(s', c, online, name) == Build(s', c, online, name)
            && name !in s'.cobbler && (key in s.orgs && s.orgs[key].provider == name ==> key !in s'.orgs)
            && (forall n :: n != name ==> SameAt(s.cache, s'.cache, n) && SameAt(s.cobbler, s'.cobbler, n))
            && (key in s.orgs && s.orgs[key].provider != name ==> SameAt(s.orgs, s'.orgs, key))
    ensures var s' := InvalidateOrg(s, key);
            && s'.cache == s.cache && s'.cobbler == s.cobbler && key !in s'.orgs
            && forall k :: k != key ==> SameAt(s.orgs, s'.orgs, k)
  {
  }

  /** A client shared with a provider is forgotten together with it, and one of the Organization's own is not. */
  lemma SharedClientsGoWithTheProvider(s: State, c: Cluster, online: set<Config>, key: Key, own: Key)
    requires key !in s.orgs && key.1 != "" && GoesBy(c, key, own) && c.orgs[own].provider != ""
    ensures var org := c.orgs[own]; var (r, s') := ForOrganization(s, c, online, key);
            r.Some? ==> (key !in Invalidate(s', org.provider).orgs <==>
                         org.credentials.Shared? && For(s, c, online, org.provider).0.Some?)
  {
  }

  // ---------------------------------------------------------------------------------------------------------------
  // Changes
  // ---------------------------------------------------------------------------------------------------------------

  predicate SameAt<K(==), V(==)>(a: map<K, V>, b: map<K, V>, k: K) {
    (k in a <==> k in b) && (k in a ==> a[k] == b[k])
  }

  /** Two states of an Organization that differ at most in what the Secrets it names hold and in its snapshot. */
  predicate SameButSecrets(a: Org, b: Org) {
    a.provider == b.provider && a.credentials.Own? == b.credentials.Own?
  }

  /** Only these providers change; they may also come or go. A Secret they name may be named by the snapshots of
      Organizations as well, and by Organizations for themselves, so that these change with it. */
  ghost predicate ChangesProviders(before: Cluster, after: Cluster, names: set<string>) {
    && after.displays == before.displays && after.orgs.Keys == before.orgs.Keys
    && (forall k {:trigger before.orgs[k]} {:trigger after.orgs[k]} ::
          k in before.orgs ==> SameButSecrets(before.orgs[k], after.orgs[k]))
    && forall n {:trigger SameAt(before.providers, after.providers, n)} ::
         n !in names ==> SameAt(before.providers, after.providers, n)
  }

  /** An Organization whose entry carries no tag: with credentials of its own it is served as before if its own
      configuration stays, and from a snapshot only while the provider cannot be built and the snapshot stays. */
  predicate ServedAsBefore(before: Cluster, after: Cluster, key: Key)
    requires key in before.orgs && key in after.orgs && SameButSecrets(before.orgs[key], after.orgs[key])
  {
    var was, now := before.orgs[key], after.orgs[key];
    if was.credentials.Own? then OwnConfig(after, now) == OwnConfig(before, was)
    else ProviderConfig(after, now.provider).None? && SnapshotConfig(now) == SnapshotConfig(was)
  }

  predicate UntaggedServed(s: State, before: Cluster, after: Cluster)
    requires after.orgs.Keys == before.orgs.Keys
    requires forall k :: k in before.orgs ==> SameButSecrets(before.orgs[k], after.orgs[k])
  {
    forall key {:trigger FindOrg(before, key)} ::
      key in s.orgs && s.orgs[key].provider == "" && FindOrg(before, key).Some? ==>
      ServedAsBefore(before, after, FindOrg(before, key).value)
  }

  lemma EntryAfterProviderChange(s: State, before: Cluster, after: Cluster, names: set<string>, key: Key)
    requires key in s.orgs && EntryFresh(s, before, key) && Named(before) && "" !in names
    requires ChangesProviders(before, after, names) && s.orgs[key].provider !in names
    ensures FindOrg(before, key).Some?
    ensures EntryFresh(s, after, key) <==>
              (s.orgs[key].provider == "" ==> ServedAsBefore(before, after, FindOrg(before, key).value))
  {
    assert FindOrg(after, key) == FindOrg(before, key);
    var found := FindOrg(before, key).value;
    var was, now := before.orgs[found], after.orgs[found];
    assert SameButSecrets(was, now) && was.provider != "";
    assert was.provider !in names ==> SameAt(before.providers, after.providers, was.provider);
  }

  lemma EntriesAfterProviderChange(s: State, before: Cluster, after: Cluster, names: set<string>)
    requires OrgsFresh(s, before) && Named(before) && "" !in names && ChangesProviders(before, after, names)
    ensures OrgsFresh(InvalidateAll(s, names), after) <==> UntaggedServed(s, before, after)
  {
    var s' := InvalidateAll(s, names);
    forall key | key in s'.orgs
      ensures FindOrg(before, key).Some?
      ensures EntryFresh(s', after, key) <==>
                (s.orgs[key].provider == "" ==> ServedAsBefore(before, after, FindOrg(before, key).value))
    {
      assert EntryFresh(s, before, key);
      assert EntryFresh(s', before, key);
      EntryAfterProviderChange(s', before, after, names, key);
    }
    if OrgsFresh(s', after) {
      forall key | key in s.orgs && s.orgs[key].provider == "" && FindOrg(before, key).Some?
        ensures ServedAsBefore(before, after, FindOrg(before, key).value)
      {
        assert key in s'.orgs && EntryFresh(s', after, key);
      }
    }
  }

  /** Invalidating the changed providers is enough exactly when no Organization still cached without a tag depends on
      what has changed. The entries of Organizations with credentials of their own are not evicted, although they were
      built with the provider's address and certificate; nor are those built from a snapshot, although it names the
      provider's Secrets. */
  lemma InvalidateIsEnoughIff(s: State, before: Cluster, after: Cluster, names: set<string>)
    requires Fresh(s, before) && Named(before) && "" !in names && ChangesProviders(before, after, names)
    ensures Fresh(InvalidateAll(s, names), after) <==> UntaggedServed(s, before, after)
  {
    var s' := InvalidateAll(s, names);
    forall n | n in s'.cache || n in s'.cobbler
      ensures ProviderConfig(after, n) == ProviderConfig(before, n)
    {
      assert SameAt(before.providers, after.providers, n);
    }
    EntriesAfterProviderChange(s, before, after, names);
  }

  /** So an Organization with credentials of its own goes on being served with the old address after its provider has
      moved, even if the provider is invalidated, as it is when it is deleted and created anew. */
  lemma OwnCredentialsKeepTheOldAddress(s: State, before: Cluster, after: Cluster, online: set<Config>, key: Key)
    requires Fresh(s, before) && Named(before) && key in s.orgs && key in before.orgs && key.1 != ""
    requires before.orgs[key].credentials.Own? && after.orgs == before.orgs
    requires var name := before.orgs[key].provider;
             && ChangesProviders(before, after, {name}) && name in before.providers && name in after.providers
             && after.providers[name].url != before.providers[name].url && FindsCa(after.providers[name])
    ensures var name := before.orgs[key].provider; var s' := InvalidateAll(s, {name});
            && ForOrganization(s', after, online, key).0 == Some(s.orgs[key].client)
            && s.orgs[key].client.config.details.url == before.providers[name].url
            && FreshEntry(after, key).Some? && FreshEntry(after, key).value.0.details.url == after.providers[name].url
  {
    assert EntryFresh(s, before, key);
  }

  /** Where all logins are accepted and a provider serves its own clients, an Organization of that provider with a
      usable login of its own is served exactly when the provider's CA reference, if any, names the namespace: the
      lookup for the provider defaults it, and the one for the Organization does not. */
  lemma OwnCredentialsAreServedIff(s: State, c: Cluster, online: set<Config>, key: Key)
    requires key in c.orgs && key !in s.orgs && key.1 != "" && c.orgs[key].provider != ""
    requires c.orgs[key].credentials.Own? && UsableLogin(c.orgs[key].credentials.secret)
    requires For(s, c, online, c.orgs[key].provider).0.Some? && c.orgs[key].provider in c.providers
    requires OwnConfig(c, c.orgs[key]).Some? ==> OwnConfig(c, c.orgs[key]).value in online
    ensures var p := c.providers[c.orgs[key].provider];
            ForOrganization(s, c, online, key).0.Some? <==> p.ca.NoCa? || (p.ca.Pem? && p.caNamespaced)
  {
  }

  // ---------------------------------------------------------------------------------------------------------------
  // Which changes are followed by an invalidation
  // ---------------------------------------------------------------------------------------------------------------

  /** A reference with an empty namespace means the operator's. */
  datatype SecretName = SecretName(namespace: string, name: string)

  /** The Secrets a provider names. */
  datatype References = References(provider: string, credentials: SecretName, ca: Option<SecretName>)

  function InNamespace(ref: SecretName, operatorNs: string): SecretName {
    if ref.namespace == "" then SecretName(operatorNs, ref.name) else ref
  }

  /** A build for the provider reads this Secret. */
  predicate Reads(r: References, operatorNs: string, secret: SecretName) {
    InNamespace(r.credentials, operatorNs) == secret || (r.ca.Some? && InNamespace(r.ca.value, operatorNs) == secret)
  }

  /** The controller's own test, which looks at the name alone. */
  predicate Mentions(r: References, name: string) {
    r.credentials.name == name || (r.ca.Some? && r.ca.value.name == name)
  }

  /** The providers invalidated when a Secret changes. */
  function Followed(list: seq<References>, operatorNs: string, secret: SecretName): set<string> {
    if secret.namespace != operatorNs then {} else set r | r in list && Mentions(r, secret.name) :: r.provider
  }

  /** The rotation of a Secret is followed by the invalidation of every provider that reads it if and only if the
      Secret is in the operator's namespace, or no provider reads it; and of none but those that name a Secret of that
      name, in whatever namespace. */
  lemma RotationIsFollowedIff(list: seq<References>, operatorNs: string, secret: SecretName)
    ensures forall p :: p in Followed(list, operatorNs, secret) ==>
              exists r :: r in list && r.provider == p
                          && (r.credentials.name == secret.name || (r.ca.Some? && r.ca.value.name == secret.name))
    ensures (forall r :: r in list && Reads(r, operatorNs, secret) ==> r.provider in Followed(list, operatorNs, secret))
            <==> secret.namespace == operatorNs || forall r :: r in list ==> !Reads(r, operatorNs, secret)
  {
    if secret.namespace == operatorNs {
      forall r | r in list && Reads(r, operatorNs, secret)
        ensures r.provider in Followed(list, operatorNs, secret)
      {
        assert Mentions(r, secret.name);
      }
    }
  }

  /** No other change of a live provider is followed. After it, a lookup still answers with the cached client, and the
      cache is fresh if and only if the change left what clients are built from. */
  lemma UnfollowedChangeIsHarmlessIff(s: State, before: Cluster, after: Cluster, online: set<Config>, name: string)
    requires ProvidersFresh(s, before) && ChangesProviders(before, after, {name}) && name != "" && name in s.cache
    ensures For(s, after, online, name) == (Some(s.cache[name]), s)
    ensures ProvidersFresh(s, after) <==> ProviderConfig(after, name) == ProviderConfig(before, name)
  {
    forall n | n in s.cache && n != name
      ensures ProviderConfig(after, n) == ProviderConfig(before, n)
    {
      assert SameAt(before.providers, after.providers, n);
    }
  }

  /** Only this Organization changes; a list by display name may find it where it did not, or no longer find it. */
  ghost predicate ChangesOrg(before: Cluster, after: Cluster, key: Key) {
    && after.providers == before.providers && after.defaultName == before.defaultName
    && (forall k {:trigger SameAt(before.orgs, after.orgs, k)} :: k != key ==> SameAt(before.orgs, after.orgs, k))
    && (forall k {:trigger SameAt(before.displays, after.displays, k)} ::
          !Displayed(before, k, key) && !Displayed(after, k, key) ==> SameAt(before.displays, after.displays, k))
  }

  predicate Displayed(c: Cluster, name: Key, key: Key) {
    name in c.displays && c.displays[name] == key
  }

  /** A cached name under which a list finds, or found, the changed Organization by its display name. */
  predicate IsAlias(s: State, before: Cluster, after: Cluster, key: Key, name: Key) {
    name in s.orgs && name != key && name !in before.orgs
        && (Displayed(before, name, key) || Displayed(after, name, key))
  }

  predicate AliasesServed(s: State, before: Cluster, after: Cluster, key: Key) {
    forall name :: name in s.orgs && IsAlias(s, before, after, key, name) ==>
      FreshEntry(after, name) == FreshEntry(before, name)
  }

  /** Invalidating a changed Organization is enough exactly when no entry cached under its display name is affected;
      in particular when Organizations are looked up by their own names. */
  lemma InvalidateOrgIsEnoughIff(s: State, before: Cluster, after: Cluster, key: Key)
    requires Fresh(s, before) && ChangesOrg(before, after, key)
    ensures Fresh(InvalidateOrg(s, key), after) <==> AliasesServed(s, before, after, key)
    ensures (forall name :: name in s.orgs ==> name in before.orgs) ==> Fresh(InvalidateOrg(s, key), after)
  {
    var s' := InvalidateOrg(s, key);
    forall name | name in s'.orgs
      ensures EntryFresh(s', after, name) <==> FreshEntry(after, name) == FreshEntry(before, name)
      ensures !IsAlias(s, before, after, key, name) ==> FreshEntry(after, name) == FreshEntry(before, name)
    {
      assert EntryFresh(s, before, name);
      assert SameAt(before.orgs, after.orgs, name);
      if !IsAlias(s, before, after, key, name) && name !in before.orgs {
        assert SameAt(before.displays, after.displays, name);
        assert FindOrg(before, name).Some? && before.displays[name] != key;
        assert SameAt(before.orgs, after.orgs, before.displays[name]);
      }
    }
    forall n | n in s'.cache || n in s'.cobbler
      ensures ProviderConfig(after, n) == ProviderConfig(before, n)
    {
    }
    if Fresh(s', after) {
      forall name | IsAlias(s, before, after, key, name)
        ensures FreshEntry(after, name) == FreshEntry(before, name)
      {
        assert name in s'.orgs && EntryFresh(s', after, name);
      }
    }
  }

  /** The clusters the theorems speak of: Organizations name their providers, and a change is a change of one
      object. */
  ghost predicate Shaped(w: World, e: Event) {
    && Named(Next(w, e).c)
    && (e.ProvidersChanged? ==> "" !in e.names && ChangesProviders(w.c, e.after, e.names))
    && (e.OrgChanged? ==> ChangesOrg(w.c, e.after, e.key))
  }

  /** What a step has to respect for the pool to stay fresh. */
  ghost predicate Careful(w: World, e: Event)
    requires Shaped(w, e)
  {
    match e
    case AskProvider(_, _) => true
    case AskCobbler(_) => true
    case AskOrg(key, online) => !FallsBack(w.s, w.c, online, key)
    case ProvidersChanged(_, after) => UntaggedServed(w.s, w.c, after)
    case OrgChanged(key, after) => AliasesServed(w.s, w.c, after, key)
  }

  lemma StaysFreshIffCareful(w: World, e: Event)
    requires Fresh(w.s, w.c) && Named(w.c) && Shaped(w, e)
    ensures Fresh(Next(w, e).s, Next(w, e).c) <==> Careful(w, e)
  {
    match e
    case AskProvider(ref, online) => ForKeepsFresh(w.s, w.c, online, ref);
    case AskCobbler(ref) => CobblerKeepsFresh(w.s, w.c, ref);
    case AskOrg(key, online) => OrgLookupKeepsFreshIff(w.s, w.c, online, key);
    case ProvidersChanged(names, after) => InvalidateIsEnoughIff(w.s, w.c, after, names);
    case OrgChanged(key, after) => InvalidateOrgIsEnoughIff(w.s, w.c, after, key);
  }

  ghost predicate ShapedRun(w: World, es: seq<Event>)
    decreases |es|
  {
    es == [] || (Shaped(w, es[0]) && ShapedRun(Next(w, es[0]), es[1..]))
  }

  ghost predicate CarefulRun(w: World, es: seq<Event>)
    requires ShapedRun(w, es)
    decreases |es|
  {
    es == [] || (Careful(w, es[0]) && CarefulRun(Next(w, es[0]), es[1..]))
  }

  ghost predicate FreshThroughout(w: World, es: seq<Event>)
    decreases |es|
  {
    Fresh(w.s, w.c) && (es == [] || FreshThroughout(Next(w, es[0]), es[1..]))
  }

  /** Over every run in which each change is followed by its invalidation: the pool is fresh throughout, so that every
      lookup answers as a fresh build would, exactly when every step is careful. */
  lemma {:induction false} FreshThroughoutIffCareful(w: World, es: seq<Event>)
    requires Fresh(w.s, w.c) && Named(w.c) && ShapedRun(w, es)
    ensures FreshThroughout(w, es) <==> CarefulRun(w, es)
    decreases |es|
  {
    if es != [] {
      StaysFreshIffCareful(w, es[0]);
      if Careful(w, es[0]) {
        FreshThroughoutIffCareful(Next(w, es[0]), es[1..]);
      }
    }
  }

  // ---------------------------------------------------------------------------------------------------------------
  // The pool as it runs
  // ---------------------------------------------------------------------------------------------------------------

  class Pool {
    var cache: map<string, Client>
    var orgCache: map<Key, OrgEntry>
    var cobblerCache: map<string, Client>
    var built: int

    ghost function Contents(): State
      reads this
    {
      State(cache, orgCache, cobblerCache, built)
    }

    constructor ()
      ensures Contents() == State(map[], map[], map[], 0)
    {
      cache, orgCache, cobblerCache, built := map[], map[], map[], 0;
    }

    method Connect(config: Config, online: set<Config>) returns (client: Option<Client>)
      modifies this`built
      ensures client == if config in online then Some(Client(old(built), config)) else None
      ensures built == old(built) + if config in online then 1 else 0
    {
      if config !in online {
        return None;
      }
      client := Some(Client(built, config));
      built := built + 1;
    }

    method ProviderClient(c: Cluster, online: set<Config>, name: string) returns (r: Option<Client>)
      modifies this
      ensures (r, Contents()) == Build(old(Contents()), c, online, name)
    {
      var config := ProviderConfig(c, name);
      if config.None? {
        return None;
      }
      r := Connect(config.value, online);
      if r.Some? {
        cache := cache[name := r.value];
      }
    }

    method ForProvider(c: Cluster, online: set<Config>, ref: string) returns (r: Option<Client>)
      modifies this
      ensures (r, Contents()) == For(old(Contents()), c, online, ref)
    {
      var name := ResolveName(c, ref);
      if name.None? {
        return None;
      }
      if name.value in cache {
        return Some(cache[name.value]);
      }
      r := ProviderClient(c, online, name.value);
    }

    method CobblerClient(c: Cluster, ref: string) returns (r: Option<Client>)
      modifies this
      ensures (r, Contents()) == Cobbler(old(Contents()), c, ref)
    {
      var name := ResolveName(c, ref);
      if name.None? {
        return None;
      }
      if name.value in cobblerCache {
        return Some(cobblerCache[name.value]);
      }
      var config := ProviderConfig(c, name.value);
      if config.None? || !TrustsCa(config.value) {
        return None;
      }
      r := Some(Client(built, config.value));
      built := built + 1;
      cobblerCache := cobblerCache[name.value := r.value];
    }

    method OwnClient(online: set<Config>, key: Key, config: Option<Config>) returns (r: Option<Client>)
      modifies this
      ensures (r, Contents()) == BuildOwn(old(Contents()), online, key, config)
    {
      if config.None? {
        return None;
      }
      r := Connect(config.value, online);
      if r.Some? {
        orgCache := orgCache[key := OrgEntry(r.value, "")];
      }
    }

    method OrgClient(c: Cluster, online: set<Config>, key: Key) returns (r: Option<Client>)
      modifies this
      ensures (r, Contents()) == ForOrganization(old(Contents()), c, online, key)
    {
      if key.1 == "" {
        return None;
      }
      if key in orgCache {
        return Some(orgCache[key].client);
      }
      var found := FindOrg(c, key);
      if found.None? {
        return None;
      }
      var org := c.orgs[found.value];
      if org.credentials.Own? {
        r := OwnClient(online, key, OwnConfig(c, org));
        return;
      }
      r := ForProvider(c, online, org.provider);
      if r.Some? {
        orgCache := orgCache[key := OrgEntry(r.value, org.provider)];
        return;
      }
      r := OwnClient(online, key, SnapshotConfig(org));
    }

    method EvictProvider(name: string)
      modifies this
      ensures Contents() == Invalidate(old(Contents()), name)
    {
      cache := cache - {name};
      cobblerCache := cobblerCache - {name};
      var all := orgCache;
      var left := all.Keys;
      while left != {}
        invariant left <= all.Keys && orgCache.Keys <= all.Keys
        invariant forall k :: k in all && k !in left ==> (k in orgCache <==> all[k].provider != name)
        invariant forall k :: k in left ==> k in orgCache
        invariant forall k :: k in orgCache ==> orgCache[k] == all[k]
        invariant cache == old(cache) - {name} && cobblerCache == old(cobblerCache) - {name} && built == old(built)
        decreases left
      {
        var k :| k in left;
        left := left - {k};
        if all[k].provider == name {
          orgCache := orgCache - {k};
        }
      }
    }

    /** What the provider controller does when a Secret changes. */
    method EvictForSecret(list: seq<References>, operatorNs: string, secret: SecretName)
      modifies this
      ensures Contents() == InvalidateAll(old(Contents()), Followed(list, operatorNs, secret))
    {
      InvalidateOneMore(Contents(), {}, "");
      if secret.namespace != operatorNs {
        return;
      }
      for i := 0 to |list|
        invariant Contents() == InvalidateAll(old(Contents()), Followed(list[..i], operatorNs, secret))
      {
        var prov := list[i];
        assert list[..i + 1] == list[..i] + [prov];
        if prov.credentials.name == secret.name || (prov.ca.Some? && prov.ca.value.name == secret.name) {
          InvalidateOneMore(old(Contents()), Followed(list[..i], operatorNs, secret), prov.provider);
          assert Followed(list[..i + 1], operatorNs, secret)
              == Followed(list[..i], operatorNs, secret) + {prov.provider};
          EvictProvider(prov.provider);
        } else {
          assert Followed(list[..i + 1], operatorNs, secret) == Followed(list[..i], operatorNs, secret);
        }
      }
      assert list[..|list|] == list;
    }

    method EvictOrg(key: Key)
      modifies this`orgCache
      ensures Contents() == InvalidateOrg(old(Contents()), key)
    {
      orgCache := orgCache - {key};
    }
  }
}
