/** The decision rules of the two newer variants, stated as functions on
    values: what a pause, play or speed command does to the playback
    settings and what it broadcasts, when a fetched page title replaces the
    current one, and how `_url_package` answers from the content-type
    cache. The `Slideshow` classes are proved against these. */
module Rules {
  import opened Protocol

  // ---------------------------------------------------------------------
  // Playback settings commands

  /** The fields of `Slideshow` that pause, play and speed commands change. */
  datatype Settings = Settings(paused: bool, speed: real, imageDuration: real)

  /** The outcome of one settings command: the new settings and the messages
      broadcast, or the `ZeroDivisionError` of a speed of zero. */
  datatype Effect = Applied(settings: Settings, messages: seq<Message>) | Raised

  /** The commands handled by `SettingStep`: pause, play and speed, and
      also every unrecognised action, which falls through silently;
      `next` and `previous` move through the playlist instead. */
  predicate IsSettingCommand(a: Action) {
    a.Pause? || a.Play? || a.SetSpeed? || a.Unrecognised?
  }

  /** The `pause`, `play` and `speed` branches of `websocket_handler`, and the
      silent fall-through for any other action. */
  function SettingStep(s: Settings, a: Action): (e: Effect)
    requires IsSettingCommand(a)
    // only a change of speed to zero raises
    ensures e.Raised? <==> a.SetSpeed? && a.value != s.speed && a.value == 0.0
    // a message is broadcast exactly when a setting changes, and at most one
    ensures e.Applied? ==> |e.messages| <= 1 && (e.messages == [] <==> e.settings == s)
    ensures e.Applied? && a.Pause? ==>
              e.settings == s.(paused := true) && (e.messages != [] ==> e.messages == [PauseNotice])
    ensures e.Applied? && a.Play? ==>
              e.settings == s.(paused := false) && (e.messages != [] ==> e.messages == [PlayNotice])
    ensures e.Applied? && a.SetSpeed? ==>
              e.settings.speed == a.value && e.settings.paused == s.paused
    // the current speed again changes nothing
    ensures a.SetSpeed? && a.value == s.speed ==> e == Applied(s, [])
    ensures e.Applied? && a.SetSpeed? && e.messages != [] ==>
              a.value != 0.0 && e.messages == [SpeedNotice(a.value)] && e.settings.imageDuration == 4.0 / a.value
    ensures a.Unrecognised? ==> e == Applied(s, [])
  {
    if a.Pause? then
      if !s.paused then Applied(s.(paused := true), [PauseNotice]) else Applied(s, [])
    else if a.Play? then
      if s.paused then Applied(s.(paused := false), [PlayNotice]) else Applied(s, [])
    else if a.SetSpeed? then
      if s.speed != a.value then
        if a.value == 0.0 then Raised
        else Applied(Settings(s.paused, a.value, 4.0 / a.value), [SpeedNotice(a.value)])
      else Applied(s, [])
    else
      Applied(s, [])
  }

  /** A repeated settings command changes nothing and broadcasts nothing. */
  lemma SettingStepIdempotent(s: Settings, a: Action)
    requires IsSettingCommand(a)
    requires SettingStep(s, a).Applied?
    ensures SettingStep(SettingStep(s, a).settings, a) == Applied(SettingStep(s, a).settings, [])
  {
  }

  /** Pausing a playing show and then playing it again restores the
      settings, with one broadcast each. */
  lemma PauseThenPlay(s: Settings)
    requires !s.paused
    ensures var p := SettingStep(s, Pause);
            p == Applied(s.(paused := true), [PauseNotice])
            && SettingStep(p.settings, Play) == Applied(s, [PlayNotice])
  {
  }

  /** The new image duration depends on the requested speed alone, not on
      the duration configured before. */
  lemma SpeedSetsDuration(s: Settings, t: Settings, v: real)
    requires s.speed == t.speed && v != s.speed && v != 0.0
    ensures SettingStep(s, SetSpeed(v)).Applied? && SettingStep(t, SetSpeed(v)).Applied?
    ensures SettingStep(s, SetSpeed(v)).settings.imageDuration
         == SettingStep(t, SetSpeed(v)).settings.imageDuration == 4.0 / v
  {
  }

  // ---------------------------------------------------------------------
  // Page title

  /** The title after a fetch and the messages broadcast about it. */
  datatype TitleEffect = TitleEffect(title: string, messages: seq<Message>)

  /** The title rule of `RegexSlideshow._fetch_urls`: `found` is the text the
      title pattern captured, if it matched. */
  function TitleStep(parseTitle: bool, title: string, found: Option<string>): (r: TitleEffect)
    // one title message is broadcast exactly when the title changes
    ensures r.messages == [] <==> r.title == title
    ensures r.messages != [] ==> r.messages == [TitleNotice(r.title)]
    // it changes exactly when parsing is on, the pattern matched and the text differs
    ensures r.title != title <==> parseTitle && found.Some? && found.value != title
    ensures r.title != title ==> r.title == found.value
  {
    if parseTitle && found.Some? && found.value != title then
      TitleEffect(found.value, [TitleNotice(found.value)])
    else
      TitleEffect(title, [])
  }

  /** Fetching the same title again broadcasts nothing. */
  lemma TitleStepIdempotent(parseTitle: bool, title: string, found: Option<string>)
    ensures var r := TitleStep(parseTitle, title, found);
            TitleStep(parseTitle, r.title, found) == TitleEffect(r.title, [])
  {
  }

  // ---------------------------------------------------------------------
  // Content-type cache

  /** The outcome of `_url_package`: the package message, the cache after
      the call, and whether the resolver `_get_content_type` was called. */
  datatype Lookup = Lookup(message: Message, cache: map<string, Option<string>>, resolved: bool)

  /** `_url_package(url)`: with casting on, a cached type other than `None`
      is used; a missing or `None` entry is resolved and stored. With
      casting off the type is `None` and the cache is not consulted. */
  function PackageLookup(casting: bool, resolve: string -> Option<string>,
                         cache: map<string, Option<string>>, url: string): (r: Lookup)
    ensures r.message.Package? && r.message.url == url
    ensures !casting ==> r.message.contentType == None && r.cache == cache && !r.resolved
    ensures r.resolved <==> casting && (url !in cache || cache[url] == None)
    ensures r.resolved ==> r.message.contentType == resolve(url) && r.cache == cache[url := resolve(url)]
    ensures casting && !r.resolved ==> url in cache && r.message.contentType == cache[url] && r.cache == cache
  {
    if casting then
      var cached := if url in cache then cache[url] else None;
      if cached == None then
        Lookup(Package(url, resolve(url)), cache[url := resolve(url)], true)
      else
        Lookup(Package(url, cached), cache, false)
    else
      Lookup(Package(url, None), cache, false)
  }

  /** A lookup touches no cache entry but that of its own URL. */
  lemma LookupKeepsOtherEntries(casting: bool, resolve: string -> Option<string>,
                                cache: map<string, Option<string>>, url: string, other: string)
    requires other != url
    ensures var r := PackageLookup(casting, resolve, cache, url);
            (other in r.cache <==> other in cache) && (other in cache ==> r.cache[other] == cache[other])
  {
  }

  /** Once a URL has resolved to a type, asking again is answered from the
      cache with the same message. */
  lemma SecondLookupIsCached(casting: bool, resolve: string -> Option<string>,
                             cache: map<string, Option<string>>, url: string)
    requires resolve(url).Some?
    ensures var r := PackageLookup(casting, resolve, cache, url);
            var r' := PackageLookup(casting, resolve, r.cache, url);
            !r'.resolved && r'.message == r.message && r'.cache == r.cache
  {
  }

  /** A URL that resolved to `None` is resolved again on every request: the
      cache stores `None`, which the lookup treats as missing. */
  lemma NoneIsResolvedAgain(resolve: string -> Option<string>,
                            cache: map<string, Option<string>>, url: string)
    requires url !in cache || cache[url] == None
    requires resolve(url) == None
    ensures var r := PackageLookup(true, resolve, cache, url);
            r.resolved && PackageLookup(true, resolve, r.cache, url).resolved
  {
  }
}
