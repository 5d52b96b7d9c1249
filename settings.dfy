/** The settings read path (a read-through cache with a 300-second lifetime,
    indeed/indeed/utils.py:13-19). */
module SettingsCache {
  import opened Platform

  const TtlSeconds := 300

  /** The cache holds the key and it has not expired at `now`. */
  predicate Live(cache: map<string, CacheEntry>, now: int) {
    SettingsCacheKey in cache && now < cache[SettingsCacheKey].expiresAt
  }

  /** The settings a read at `now` returns: the cached copy while it lives,
      the stored document otherwise. */
  function ReadSettings(cache: map<string, CacheEntry>, doc: Settings, now: int): (r: Settings)
    ensures Live(cache, now) ==> r == cache[SettingsCacheKey].value
    ensures !Live(cache, now) ==> r == doc
  {
    if Live(cache, now) then cache[SettingsCacheKey].value else doc
  }

  /** The cache after a read: a miss stores the document for 300 seconds. */
  function CacheAfterRead(cache: map<string, CacheEntry>, doc: Settings, now: int): (r: map<string, CacheEntry>)
    ensures Live(cache, now) ==> r == cache
    ensures !Live(cache, now) ==> r == cache[SettingsCacheKey := CacheEntry(doc, now + TtlSeconds)]
    ensures Live(r, now) && r[SettingsCacheKey].value == ReadSettings(cache, doc, now)
  {
    if Live(cache, now) then cache else cache[SettingsCacheKey := CacheEntry(doc, now + TtlSeconds)]
  }

  /** get_integration_settings. */
  method GetIntegrationSettings(site: Site, now: int) returns (s: Settings)
    modifies site`cache
    ensures s == ReadSettings(old(site.cache), site.settingsDoc, now)
    ensures site.cache == CacheAfterRead(old(site.cache), site.settingsDoc, now)
  {
    if SettingsCacheKey in site.cache && now < site.cache[SettingsCacheKey].expiresAt {
      s := site.cache[SettingsCacheKey].value;
    } else {
      s := site.settingsDoc;
      site.cache := site.cache[SettingsCacheKey := CacheEntry(s, now + TtlSeconds)];
    }
  }

  /** A miss at t caches the document: reads before t + 300 return that copy
      whatever the stored document has become; reads from t + 300 on reload. */
  lemma CachedForTtl(cache: map<string, CacheEntry>, doc: Settings, doc': Settings, t: int, t': int)
    requires !Live(cache, t) && t <= t'
    ensures t' < t + TtlSeconds ==> ReadSettings(CacheAfterRead(cache, doc, t), doc', t') == doc
    ensures t' >= t + TtlSeconds ==> ReadSettings(CacheAfterRead(cache, doc, t), doc', t') == doc'
  {
  }
}

/** The settings document's controller
    (indeed/indeed/doctype/indeed_integration_settings/indeed_integration_settings.py). */
module IntegrationSettings {
  import opened Common
  import opened Platform
  import opened SettingsCache

  const WebhookPath := "/api/method/indeed.indeed.api.webhook_job_application"
  const ApiKeyRequired := "API Key is required when auto-posting is enabled with API method"
  const CompanyRequired := "Default Company is required when auto-posting is enabled"

  /** onload: the webhook URL shown on the form. */
  function Onload(doc: Settings, siteUrl: string): (r: Settings)
    ensures r.webhookUrl == siteUrl + WebhookPath
    ensures r.(webhookUrl := doc.webhookUrl) == doc
  {
    doc.(webhookUrl := siteUrl + WebhookPath)
  }

  /** validate: the two configuration errors, checked in this order. */
  function Validate(doc: Settings): (r: Outcome)
    ensures !doc.enableAutoPosting ==> r == Pass
    ensures doc.enableAutoPosting && doc.integrationMethod == "API" && doc.apiKey == "" ==> r == Fail(ApiKeyRequired)
    ensures r == Fail(CompanyRequired) <==>
      doc.enableAutoPosting && !(doc.integrationMethod == "API" && doc.apiKey == "") && doc.company == ""
    ensures r == Pass <==>
      !doc.enableAutoPosting || (!(doc.integrationMethod == "API" && doc.apiKey == "") && doc.company != "")
  {
    if doc.enableAutoPosting && doc.integrationMethod == "API" && doc.apiKey == "" then Fail(ApiKeyRequired)
    else if doc.enableAutoPosting && doc.company == "" then Fail(CompanyRequired)
    else Pass
  }

  /** on_update: the cached copy is dropped. */
  method OnUpdate(site: Site)
    modifies site`cache
    ensures site.cache == old(site.cache) - {SettingsCacheKey}
  {
    site.cache := site.cache - {SettingsCacheKey};
  }

  /** After on_update the next read returns the stored document. */
  lemma ReadAfterUpdateReloads(cache: map<string, CacheEntry>, doc: Settings, now: int)
    ensures ReadSettings(cache - {SettingsCacheKey}, doc, now) == doc
  {
  }
}
