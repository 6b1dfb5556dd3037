/**
 * The bridge from the legacy server settings to a source catalog: endpoints grouped by host, and the
 * shipped bootstrap sources only for an open wallet that has configured nothing.
 */
module ChainSelection {
  import opened Endpoints
  import opened RustStrings
  import opened Wrappers

  datatype Origin = UserAdded | Bootstrap

  datatype ChainSource = ChainSource(id: string, title: string, origin: Origin, endpoints: seq<Endpoint>)

  // ---------------------------------------------------------------- host keys

  function HostKey(host: string): string {
    LowerCase(TrimEndOf(Trim(host), '.'))
  }

  /** A host that is written as its key: in small letters, without white space around it or dots behind it. */
  predicate IsKey(host: string) {
    && IsTrimmed(host) && (host != "" ==> host[|host| - 1] != '.')
    && forall i :: 0 <= i < |host| ==> !('A' <= host[i] <= 'Z')
  }

  /** Such a host is its own key. */
  lemma KeyIsItself(host: string)
    requires IsKey(host)
    ensures HostKey(host) == host
  {
    TrimOfTrimmed(host);
    assert TrimEndOf(host, '.') == host;
    assert LowerCase(host) == host;
  }

  /** White space around a host, dots behind it and capitals in it make no difference. */
  lemma KeyIgnores(host: string, space: char)
    requires IsSpace(space)
    ensures HostKey([space] + host) == HostKey(host) == HostKey(host + [space])
    ensures host == "" || !IsSpace(host[|host| - 1]) ==> HostKey(host + ".") == HostKey(host)
    ensures HostKey(LowerCase(host)) == HostKey(host)
  {
    assert ([space] + host)[1..] == host;
    TrimIgnoresSpaceBehind(host, space);
    if host == "" || !IsSpace(host[|host| - 1]) { DotBehind(host); }
    LowerCaseTrims(host);
    LowerCaseTrimsDots(Trim(host));
    LowerCaseTwice(TrimEndOf(Trim(host), '.'));
  }

  lemma DotBehind(host: string)
    requires host == "" || !IsSpace(host[|host| - 1])
    ensures HostKey(host + ".") == HostKey(host)
  {
    StartBeforeDot(host);
    var start := TrimStart(host);
    assert TrimEnd(start) == start && TrimEnd(start + ".") == start + ".";
    assert (start + ".")[..|start|] == start;
  }

  const ID_PREFIX: string := "host:"

  // ---------------------------------------------------------------- grouping

  /** An endpoint the settings name, with the host as it was written. */
  datatype Setting = Setting(host: string, endpoint: Endpoint)

  type Groups = map<string, ChainSource>

  /** `upsert_user_source` */
  function Upserted(groups: Groups, s: Setting): Groups {
    var key := HostKey(s.host);
    var present := if key in groups then groups[key] else ChainSource(ID_PREFIX + key, s.host, UserAdded, []);
    groups[key := if s.endpoint in present.endpoints then present
                  else present.(endpoints := present.endpoints + [s.endpoint])]
  }

  function Grouped(settings: seq<Setting>): Groups {
    if settings == [] then map[] else Upserted(Grouped(settings[..|settings| - 1]), settings[|settings| - 1])
  }

  /** The map the upserts change in place. */
  class HostGroups {
    var byHost: Groups

    constructor ()
      ensures byHost == map[]
    {
      byHost := map[];
    }

    method Upsert(host: string, endpoint: Endpoint)
      modifies this
      ensures byHost == Upserted(old(byHost), Setting(host, endpoint))
    {
      var key := HostKey(host);
      if key !in byHost {
        byHost := byHost[key := ChainSource(ID_PREFIX + key, host, UserAdded, [])];
      }
      var entry := byHost[key];
      if endpoint !in entry.endpoints {
        byHost := byHost[key := entry.(endpoints := entry.endpoints + [endpoint])];
      }
    }
  }

  predicate Names(s: Setting, key: string, e: Endpoint) {
    HostKey(s.host) == key && s.endpoint == e
  }

  ghost predicate Distinct(endpoints: seq<Endpoint>) {
    forall i, j :: 0 <= i < j < |endpoints| ==> endpoints[i] != endpoints[j]
  }

  /**
   * Whatever is upserted and however often: there is one source for each normalised host, with
   * exactly that host's endpoints, each once, under the host's identity.
   */
  lemma {:induction false} GroupingIsExact(settings: seq<Setting>, key: string)
    ensures key in Grouped(settings) <==> exists i :: 0 <= i < |settings| && HostKey(settings[i].host) == key
    ensures
      key in Grouped(settings) ==>
        var source := Grouped(settings)[key];
        && source.id == "host:" + key && source.origin == UserAdded && Distinct(source.endpoints)
        && forall e :: e in source.endpoints <==> exists i :: 0 <= i < |settings| && Names(settings[i], key, e)
  {
    if settings != [] {
      var before, last := settings[..|settings| - 1], settings[|settings| - 1];
      GroupingIsExact(before, key);
      assert settings == before + [last];
      forall e
        ensures (exists i :: 0 <= i < |settings| && Names(settings[i], key, e))
           <==> (exists i :: 0 <= i < |before| && Names(before[i], key, e)) || Names(last, key, e)
      {
        NamedByOneMore(before, last, key, e);
      }
      if HostKey(last.host) == key {
        assert HostKey(settings[|before|].host) == key;
      }
    }
  }

  lemma NamedByOneMore(before: seq<Setting>, last: Setting, key: string, e: Endpoint)
    ensures
      var settings := before + [last];
      (exists i :: 0 <= i < |settings| && Names(settings[i], key, e))
      <==> (exists i :: 0 <= i < |before| && Names(before[i], key, e)) || Names(last, key, e)
  {
    var settings := before + [last];
    if i :| 0 <= i < |settings| && Names(settings[i], key, e) {
      assert i < |before| ==> Names(before[i], key, e);
    }
    if i :| 0 <= i < |before| && Names(before[i], key, e) {
      assert Names(settings[i], key, e);
    }
    if Names(last, key, e) {
      assert Names(settings[|before|], key, e);
    }
  }

  /** The first setting of a host labels its source. */
  lemma {:induction false} FirstHostIsLabel(settings: seq<Setting>, i: nat)
    requires i < |settings| && forall j :: 0 <= j < i ==> HostKey(settings[j].host) != HostKey(settings[i].host)
    ensures HostKey(settings[i].host) in Grouped(settings)
    ensures Grouped(settings)[HostKey(settings[i].host)].title == settings[i].host
  {
    GroupingIsExact(settings, HostKey(settings[i].host));
    if i < |settings| - 1 {
      FirstHostIsLabel(settings[..|settings| - 1], i);
    } else {
      GroupingIsExact(settings[..i], HostKey(settings[i].host));
    }
  }

  // ---------------------------------------------------------------- the catalog

  /** The network's entries that parse, the wallet, and the sources shipped for the network. */
  datatype AppState = AppState(
    electrum: Option<Endpoint>, peer: Option<Endpoint>, walletOpen: bool, shipped: map<string, ChainSource>)

  function Configured(state: AppState): seq<Setting> {
    (if state.electrum.Some? then [Setting(state.electrum.value.host, state.electrum.value)] else [])
    + (if state.peer.Some? then [Setting(state.peer.value.host, state.peer.value)] else [])
  }

  /** Sources keyed by id; two hosts never share an id. */
  function Catalog(groups: Groups): map<string, ChainSource> {
    map id | id in (set key | key in groups :: ID_PREFIX + key) && |id| >= |ID_PREFIX| && id[|ID_PREFIX|..] in groups
      :: groups[id[|ID_PREFIX|..]]
  }

  /** `catalog_and_policy_from_app_state`, whose policy is always automatic. */
  function CatalogOf(state: AppState): map<string, ChainSource> {
    var user := Catalog(Grouped(Configured(state)));
    if user == map[] && state.walletOpen then state.shipped else user
  }

  /** The sources `envelope_from_state` persists. */
  function PersistedSources(state: AppState): map<string, ChainSource> {
    map id | id in CatalogOf(state) && CatalogOf(state)[id].origin != Bootstrap :: CatalogOf(state)[id]
  }

  /** Inserting the grouped sources never collides: each keeps its place, and there is nothing else. */
  lemma CatalogKeepsEverySource(groups: Groups)
    ensures
      forall key :: key in groups ==>
        ID_PREFIX + key in Catalog(groups) && Catalog(groups)[ID_PREFIX + key] == groups[key]
    ensures forall id :: id in Catalog(groups) ==> exists key :: key in groups && id == ID_PREFIX + key
  {
    forall key | key in groups
      ensures ID_PREFIX + key in Catalog(groups) && Catalog(groups)[ID_PREFIX + key] == groups[key]
    {
      assert (ID_PREFIX + key)[|ID_PREFIX|..] == key;
    }
  }

  /**
   * A configured wallet gets its own sources and no others, a closed one with nothing configured gets
   * none, and the shipped sources are never persisted.
   */
  lemma ShippedSourcesNeverJoin(state: AppState)
    requires forall id :: id in state.shipped ==> state.shipped[id].origin == Bootstrap
    ensures
      Configured(state) != [] ==>
        CatalogOf(state) != map[] && forall id :: id in CatalogOf(state) ==> CatalogOf(state)[id].origin == UserAdded
    ensures Configured(state) == [] ==> CatalogOf(state) == if state.walletOpen then state.shipped else map[]
    ensures PersistedSources(state) == Catalog(Grouped(Configured(state)))
  {
    var settings := Configured(state);
    var groups := Grouped(settings);
    CatalogKeepsEverySource(groups);
    if settings != [] {
      GroupingIsExact(settings, HostKey(settings[0].host));
      assert ID_PREFIX + HostKey(settings[0].host) in Catalog(groups);
    }
    forall id | id in Catalog(groups)
      ensures Catalog(groups)[id].origin == UserAdded
    {
      var key :| key in groups && id == ID_PREFIX + key;
      GroupingIsExact(settings, key);
    }
  }

  predicate IsPersisted(state: AppState, id: string, e: Endpoint) {
    id in PersistedSources(state) && e in PersistedSources(state)[id].endpoints
  }

  lemma PersistedIsConfigured(state: AppState, id: string, e: Endpoint)
    requires forall id :: id in state.shipped ==> state.shipped[id].origin == Bootstrap
    requires IsPersisted(state, id, e)
    ensures state.electrum == Some(e) || state.peer == Some(e)
  {
    var settings := Configured(state);
    ShippedSourcesNeverJoin(state);
    GroupingIsExact(settings, id[|ID_PREFIX|..]);
    var i :| 0 <= i < |settings| && Names(settings[i], id[|ID_PREFIX|..], e);
  }

  lemma ConfiguredIsPersisted(state: AppState, i: nat)
    requires forall id :: id in state.shipped ==> state.shipped[id].origin == Bootstrap
    requires i < |Configured(state)|
    ensures IsPersisted(state, ID_PREFIX + HostKey(Configured(state)[i].host), Configured(state)[i].endpoint)
  {
    var settings := Configured(state);
    var key := HostKey(settings[i].host);
    ShippedSourcesNeverJoin(state);
    CatalogKeepsEverySource(Grouped(settings));
    assert Names(settings[i], key, settings[i].endpoint);
    GroupingIsExact(settings, key);
  }

  /** The persisted sources, however grouped, hold the endpoints of the settings and no others. */
  lemma PersistedEndpointsAreConfigured(state: AppState, e: Endpoint)
    requires forall id :: id in state.shipped ==> state.shipped[id].origin == Bootstrap
    ensures (exists id :: IsPersisted(state, id, e)) <==> state.electrum == Some(e) || state.peer == Some(e)
  {
    if id :| IsPersisted(state, id, e) { PersistedIsConfigured(state, id, e); }
    if state.electrum == Some(e) { ConfiguredIsPersisted(state, 0); }
    else if state.peer == Some(e) { ConfiguredIsPersisted(state, |Configured(state)| - 1); }
  }
}
