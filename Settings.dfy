/**
 * The per-document settings cache of server/src/server.ts: `globalSettings`,
 * the `documentSettings` map and the three handlers that use them
 * (`getDocumentSettings`, the close handler and the configuration-change
 * handler), as functions from the old cache to the new one.
 *
 * The client's answer to a `workspace/configuration` request is a function
 * `fetch` of the resource; whether a request is sent is part of each result.
 */
module Settings {
  import opened Wrappers

  datatype ExampleSettings = ExampleSettings(maxNumberOfProblems: int)

  /** `defaultSettings`, also the initial `globalSettings`. */
  const DefaultSettings: ExampleSettings := ExampleSettings(1000)

  /**
   * The cache state: whether the client supports `workspace/configuration`
   * (fixed at initialisation), the fallback settings and the cached entries.
   */
  datatype SettingsCache = SettingsCache(
    hasConfigurationCapability: bool,
    globalSettings: ExampleSettings,
    documentSettings: map<string, ExampleSettings>)

  /** A lookup's answer, the cache after it, and whether the client was asked. */
  datatype Lookup = Lookup(settings: ExampleSettings, cache: SettingsCache, requested: bool)

  /** The state before any handler has run. */
  function InitialCache(hasConfigurationCapability: bool): (c: SettingsCache)
    ensures c.hasConfigurationCapability == hasConfigurationCapability
    ensures c.globalSettings == DefaultSettings && c.documentSettings == map[]
    ensures CacheInvariant(c)
  {
    SettingsCache(hasConfigurationCapability, DefaultSettings, map[])
  }

  /** Entries are only ever cached when the client supports configuration requests. */
  predicate CacheInvariant(c: SettingsCache) {
    !c.hasConfigurationCapability ==> c.documentSettings == map[]
  }

  /** `getDocumentSettings(resource)`. */
  function GetDocumentSettings(c: SettingsCache, resource: string, fetch: string -> ExampleSettings): (r: Lookup)
    ensures r.cache.hasConfigurationCapability == c.hasConfigurationCapability
    ensures r.cache.globalSettings == c.globalSettings
    // without the capability: the global settings, and nothing changes
    ensures !c.hasConfigurationCapability ==>
      r.settings == c.globalSettings && r.cache == c && !r.requested
    // with it: the answer is what the map holds for the resource afterwards
    ensures c.hasConfigurationCapability ==>
      resource in r.cache.documentSettings && r.settings == r.cache.documentSettings[resource]
    // the client is asked exactly when the resource has no entry yet
    ensures r.requested <==> c.hasConfigurationCapability && resource !in c.documentSettings
    ensures r.requested ==> r.settings == fetch(resource)
    ensures !r.requested ==> r.cache == c
    // no other entry is touched
    ensures r.cache.documentSettings.Keys <= c.documentSettings.Keys + {resource}
    ensures forall u :: u in c.documentSettings ==>
      u in r.cache.documentSettings && r.cache.documentSettings[u] == c.documentSettings[u]
  {
    if !c.hasConfigurationCapability then
      Lookup(c.globalSettings, c, false)
    else if resource in c.documentSettings then
      Lookup(c.documentSettings[resource], c, false)
    else
      var fetched := fetch(resource);
      Lookup(fetched, c.(documentSettings := c.documentSettings[resource := fetched]), true)
  }

  /** The close handler: forget the closed document's entry. */
  function DidClose(c: SettingsCache, uri: string): (r: SettingsCache)
    ensures r.hasConfigurationCapability == c.hasConfigurationCapability
    ensures r.globalSettings == c.globalSettings
    ensures uri !in r.documentSettings
    ensures r.documentSettings.Keys == c.documentSettings.Keys - {uri}
    ensures forall u :: u in r.documentSettings ==> r.documentSettings[u] == c.documentSettings[u]
  {
    c.(documentSettings := c.documentSettings - {uri})
  }

  /**
   * The `settings` object of a configuration-change notification; its
   * `languageServerExample` section may be missing.
   */
  datatype ChangedSettings = ChangedSettings(languageServerExample: Option<ExampleSettings>)

  /**
   * The configuration-change handler (before it revalidates the open
   * documents): with the capability every cached entry is dropped; without it
   * the pushed `languageServerExample` section, or the defaults when it is
   * absent, becomes the global settings. Without the capability the handler
   * reads `settings.languageServerExample` unguarded, so a notification with no
   * `settings` object aborts it (`None`) and nothing changes.
   */
  function DidChangeConfiguration(c: SettingsCache, settings: Option<ChangedSettings>): (r: Option<SettingsCache>)
    ensures r.None? <==> !c.hasConfigurationCapability && settings.None?
    ensures r.Some? ==> r.value.hasConfigurationCapability == c.hasConfigurationCapability
    ensures r.Some? && c.hasConfigurationCapability ==>
      r.value.documentSettings == map[] && r.value.globalSettings == c.globalSettings
    ensures r.Some? && !c.hasConfigurationCapability ==>
      var section := settings.value.languageServerExample;
      r.value.documentSettings == c.documentSettings
      && r.value.globalSettings == (if section.Some? then section.value else DefaultSettings)
  {
    if c.hasConfigurationCapability then
      Some(c.(documentSettings := map[]))
    else if settings.None? then
      None
    else
      Some(c.(globalSettings := settings.value.languageServerExample.GetOr(DefaultSettings)))
  }

  // ---------------------------------------------------------------------------
  // Properties across calls
  // ---------------------------------------------------------------------------

  /** Every handler keeps entries out of the map when the capability is missing. */
  lemma HandlersKeepInvariant(c: SettingsCache, resource: string, fetch: string -> ExampleSettings,
                              settings: Option<ChangedSettings>)
    requires CacheInvariant(c)
    ensures CacheInvariant(GetDocumentSettings(c, resource, fetch).cache)
    ensures CacheInvariant(DidClose(c, resource))
    ensures CacheInvariant(DidChangeConfiguration(c, settings).GetOr(c))
  {
  }

  /**
   * A second lookup of the same resource is answered from the cache: the same
   * settings, no request, no change, whatever the client would answer now.
   */
  lemma RepeatedLookupIsCached(c: SettingsCache, resource: string, fetch1: string -> ExampleSettings,
                               fetch2: string -> ExampleSettings)
    ensures var first := GetDocumentSettings(c, resource, fetch1);
            var second := GetDocumentSettings(first.cache, resource, fetch2);
            second.settings == first.settings && second.cache == first.cache && !second.requested
  {
  }

  /** With the capability, the first lookup of an uncached resource asks the client and stores its answer. */
  lemma FirstLookupFetches(c: SettingsCache, resource: string, fetch: string -> ExampleSettings)
    requires c.hasConfigurationCapability && resource !in c.documentSettings
    ensures var r := GetDocumentSettings(c, resource, fetch);
            r.requested && r.settings == fetch(resource)
            && r.cache.documentSettings == c.documentSettings[resource := fetch(resource)]
  {
  }

  /** After its document is closed, a resource is fetched afresh; other resources are answered as before. */
  lemma CloseForgetsOnlyThatDocument(c: SettingsCache, uri: string, other: string, fetch: string -> ExampleSettings)
    requires c.hasConfigurationCapability
    requires other != uri
    ensures GetDocumentSettings(DidClose(c, uri), uri, fetch).requested
    ensures GetDocumentSettings(DidClose(c, uri), uri, fetch).settings == fetch(uri)
    ensures GetDocumentSettings(DidClose(c, uri), other, fetch).settings == GetDocumentSettings(c, other, fetch).settings
    ensures GetDocumentSettings(DidClose(c, uri), other, fetch).requested == GetDocumentSettings(c, other, fetch).requested
  {
  }

  /** After a configuration change with the capability, every resource is fetched afresh. */
  lemma ChangeForcesRefetch(c: SettingsCache, settings: Option<ChangedSettings>, resource: string,
                            fetch: string -> ExampleSettings)
    requires c.hasConfigurationCapability
    ensures DidChangeConfiguration(c, settings).Some?
    ensures GetDocumentSettings(DidChangeConfiguration(c, settings).value, resource, fetch).requested
    ensures GetDocumentSettings(DidChangeConfiguration(c, settings).value, resource, fetch).settings == fetch(resource)
  {
  }

  /**
   * Without the capability, lookups follow the latest pushed configuration;
   * a notification without a settings object leaves them as they were.
   */
  lemma GlobalSettingsFollowChanges(c: SettingsCache, settings: Option<ChangedSettings>, resource: string,
                                    fetch: string -> ExampleSettings)
    requires !c.hasConfigurationCapability
    ensures settings.Some? ==>
      GetDocumentSettings(DidChangeConfiguration(c, settings).value, resource, fetch).settings
      == settings.value.languageServerExample.GetOr(DefaultSettings)
    ensures settings.None? ==>
      DidChangeConfiguration(c, settings).None?
      && GetDocumentSettings(c, resource, fetch).settings == c.globalSettings
  {
  }
}
