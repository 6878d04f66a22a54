/** InMemorySettingsRepository: the settings store and its memoised default setting. */
module Settings {
  import opened Wrappers
  import opened Models
  import opened Repository

  /**
   * What `GetDefaultSetting` returns given the cached setting: the cached one
   * when there is one, otherwise the first stored setting, or null when there
   * are none.
   */
  function DefaultSetting(cached: Option<Setting>, models: Store<SettingData>): (r: Option<Setting>)
    ensures cached.Some? ==> r == cached
    ensures cached.None? ==> (r.None? <==> models == map[])
    ensures cached.None? && r.Some? ==> r.value in models.Values
  {
    if cached.Some? then cached
    else
      var first := FirstWhere(models, (s: Setting) => true);
      assert models != map[] ==> exists k :: k in models && models[k] in models.Values;
      first
  }

  /**
   * A setting once cached is what every later call returns, whatever the store
   * then holds; a null result is not cached, so the next call reads the store.
   */
  lemma CachedSettingIsSticky(cached: Option<Setting>, before: Store<SettingData>, after: Store<SettingData>)
    ensures var first := DefaultSetting(cached, before);
      && (first.Some? ==> DefaultSetting(first, after) == first)
      && (first.None? ==> DefaultSetting(first, after) == DefaultSetting(None, after))
  {
  }

  class SettingsRepository {
    const store: Repository<SettingData>
    var cached: Option<Setting>   // `_defaultSetting`

    constructor (store: Repository<SettingData>)
      ensures this.store == store && cached == None
    {
      this.store := store;
      cached := None;
    }

    /** `_defaultSetting ??= GetAll().FirstOrDefault()` */
    method GetDefaultSetting() returns (setting: Option<Setting>)
      modifies this
      ensures setting == DefaultSetting(old(cached), store.models)
      ensures cached == setting
    {
      if cached.None? {
        cached := FirstWhere(store.models, (s: Setting) => true);
      }
      setting := cached;
    }
  }
}
