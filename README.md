# Google Photos slideshow: playlist and viewer protocol

This project models the core of a live slideshow server in Dafny. The server
reads a shared photo album (or a list of URLs, or a folder), keeps a
playlist of image URLs and a current position, and advances through the
playlist on a timer. It pushes each new slide to every connected browser over
a websocket and takes `next`, `previous`, `pause`, `play` and `speed`
commands from the viewers. Every few seconds it refetches the album and
merges the fresh URL list into the running playlist, without disturbing the
slide on display.

The repository has three successive versions of the `Slideshow` class. Each is
modelled as its own Dafny class, with fields the methods update in place:

- `slideshow.py` is the oldest version (`SlideshowV1`);
- `google_photos_slideshow.py` is the middle one (`SlideshowV2`);
- `src/google_photos_slideshow/google_photos_slideshow.py` is the newest
  (`SlideshowV3`).

Code the versions share, and the rules they decide by, are pure modules:

- `Protocol`: the inbound commands, the outbound JSON messages, and what one
  command leads to.
- `Playlist`: the list operations Python provides (comprehensions,
  `list.index`, `list.remove`, slice clamping, `list(set(...))`,
  `random.shuffle`). Also the refresh-merge stated as a function (`Merged`,
  `MergedIndex`), the removal loop proved against it (`RemoveDeparted`), the
  splice-then-prune merge of the two newer versions on values
  (`MergeAfter`, which their `Slideshow` classes call on their fields), and
  the wrap-around index steps.
- `Rules`: the pause/play/speed rule of the two newer versions, the title
  rule, and the content-type cache lookup of `_url_package`.
- `ContentTypes`: the suffix-to-media-type mapping of the URL-list and
  folder slideshows.
- `ServerAddress`: the `server_url` property.

How the outside world is represented:

- Randomness is non-deterministic choice. `random.shuffle` gives some
  permutation, and `list(set(...))` gives some duplicate-free order.
- A page fetch is its result: the URLs the image pattern found and the text
  the title pattern captured.
- The content-type resolver `_get_content_type` is a fixed function
  `resolve`. A ghost log `lookups` records each call.
- A command that raises in the websocket handler gives the reply `Closed`.
  The viewer is then removed from the client set, as the handler's `finally`
  does.
- A broadcast is the list of messages sent to every registered viewer.

Behaviour of the code that is easy to miss:

- **The position can reach the end of the list.** After a refresh,
  `current_index` may equal `len(urls)`. In all three versions this happens
  exactly when the refresh adds no new URL and drops the displayed URL and
  every URL after it (`Playlist.IndexAtEnd`; `Playlist.IndexMayReachLength`
  gives a concrete instance).
- **Registration can fail.** When the list is empty, or the position is
  past its end, `_register` raises `IndexError` after adding the viewer.
  `_register` runs before the handler's `try`, so the viewer stays in the
  set.
- **Unregistering twice is an error.** `_unregister` uses `set.remove`,
  which raises `KeyError` for a viewer that is not registered.
- **`next` on an empty list ends the session.** In the newer versions it
  first resets the position to 0, then raises and closes the viewer's
  session. It is not ignored.
- **A speed of zero ends the session in the two newer versions.** There a
  change of speed to zero raises `ZeroDivisionError` and closes the
  viewer's session. The oldest version just stores the speed 0.0.

## Model

| member | source | states |
|---|---|---|
| `Playlist.NonMembers` | src/google_photos_slideshow/google_photos_slideshow.py:170-174 | `new_urls` / `removed_urls`: the result holds exactly the elements of the list that are not in the other list, and is no longer than the list |
| `Playlist.Members` | src/google_photos_slideshow/google_photos_slideshow.py:183-187 | the URLs that survive the removal loop: exactly the list's elements that are candidates, and no more of them than the list has |
| `Playlist.IndexOf` | src/google_photos_slideshow/google_photos_slideshow.py:185 | `list.index`: the position of the first occurrence (no earlier occurrence) |
| `Playlist.RemoveFirst` | src/google_photos_slideshow/google_photos_slideshow.py:187 | `list.remove`: the first occurrence is taken out, nothing else; one element shorter |
| `Playlist.SliceEnd` | src/google_photos_slideshow/google_photos_slideshow.py:180 | Python slice clamping of `current_index + 1`: the bound itself, or the length when the bound is past it |
| `Playlist.Merged` | src/google_photos_slideshow/google_photos_slideshow.py:169-187 | the reference outcome of a refresh: surviving URLs before the cut, the new block, surviving URLs after the cut. Its length is the number of surviving URLs plus the block's |
| `Playlist.MergedIndex` | src/google_photos_slideshow/google_photos_slideshow.py:183-187 | the reference position after a refresh, the number of surviving URLs before the old position: never past the old position |
| `Playlist.RemoveDeparted` | src/google_photos_slideshow/google_photos_slideshow.py:183-187 | the removal loop leaves exactly the candidates in their order (`Members`). The position drops by exactly the number of departed URLs before it and stays within `0..len` |
| `Playlist.SplicePrune` | src/google_photos_slideshow/google_photos_slideshow.py:180-187 | splicing candidates in adds no departed URL, pruning the spliced list gives `Merged`, and the part before the position is untouched |
| `Playlist.MergedIndexBounds` | src/google_photos_slideshow/google_photos_slideshow.py:183-187 | the merged position is the old one minus the departed URLs before it; it is never below 0 and never past the merged length |
| `Playlist.DisplayedSlideKept` | src/google_photos_slideshow/google_photos_slideshow.py:180-187 | a displayed URL that is still a candidate is still displayed after the merge, when new URLs are spliced in after it |
| `Playlist.MergeLayout` | src/google_photos_slideshow/google_photos_slideshow.py:170-187 | surviving old URLs keep their relative order, and the new URLs form one contiguous block |
| `Playlist.NewUrlsFollowDisplayed` | src/google_photos_slideshow/google_photos_slideshow.py:180 | cutting after the displayed URL puts the new block immediately after it |
| `Playlist.NewUrlsAtDisplayed` | slideshow.py:52 | cutting at the displayed position puts the new block at that position, so the first new URL becomes the displayed one |
| `Playlist.MergeContents` | src/google_photos_slideshow/google_photos_slideshow.py:170-187 | duplicate-free list and candidates give a duplicate-free merged list holding exactly the candidates |
| `Playlist.IndexMayReachLength` | src/google_photos_slideshow/google_photos_slideshow.py:183-187 | a concrete refresh that leaves the position equal to the list length |
| `Playlist.IndexAtEnd` | src/google_photos_slideshow/google_photos_slideshow.py:169-187 | for either cut (at the displayed position or just after it), the position ends equal to the length exactly when the refresh adds no new URL and the displayed URL and every URL after it departed |
| `Playlist.MergeAfterDisplayed` | src/google_photos_slideshow/google_photos_slideshow.py:169-187 | the newer merge as a whole: index bookkeeping and bounds, displayed URL kept with the new block right after it, exact contents without duplicates |
| `Playlist.MergeAfter` | src/google_photos_slideshow/google_photos_slideshow.py:169-187 | the merge on values, proved against `Merged` and `MergedIndex`. The block is a permutation of the new candidates. The position drops by the departed URLs before it and stays within `0..len`. A surviving displayed URL stays displayed, with the new block right after it. Duplicate-free inputs give exactly the candidates, once each |
| `Playlist.ShuffledCandidates` | src/google_photos_slideshow/google_photos_slideshow.py:170-177 | every URL of the shuffled `new_urls` is a candidate that was not listed before |
| `Playlist.SpliceAtDisplayed` | slideshow.py:52 | before removals the new URLs occupy `current_index ..` and the previously displayed URL sits right after them |
| `Playlist.MergeAtDisplayed` | slideshow.py:46-59 | the oldest merge as a whole: index bookkeeping and bounds, first new URL displayed, displayed URL kept when nothing is new, exact contents without duplicates |
| `Playlist.Shuffle` | src/google_photos_slideshow/google_photos_slideshow.py:177 | `random.shuffle`: the result is a permutation (same multiset) |
| `Playlist.Distinct` | google_photos_slideshow.py:253 | a duplicate-free list of exactly the given URLs |
| `Playlist.ListOfSet` | google_photos_slideshow.py:253 | `list(set(...))`: some duplicate-free order of exactly the found URLs |
| `Playlist.WrapNext` | slideshow.py:64 | `(i + 1) % len` lies in `0..len-1` and, from inside the list, is the next position or 0 at the end |
| `Playlist.WrapPrevious` | src/google_photos_slideshow/google_photos_slideshow.py:202 | `(i - 1) % len` with Python's modulo lies in `0..len-1` and, from inside the list, is the previous position or the last at 0 |
| `Playlist.Advanced` | src/google_photos_slideshow/google_photos_slideshow.py:190-198 | the step of the newer `_next_url`: one position on with the list kept, or back to 0 with some reordering of it; either way the same URLs, and the position is one on or 0 |
| `Playlist.WrapInverse` | slideshow.py:62-70 | next-then-previous and previous-then-next both restore the position |
| `Playlist.PreviousThenAdvance` | src/google_photos_slideshow/google_photos_slideshow.py:190-203 | previous then the reshuffling next restores the position; the list is unchanged unless the position was 0, and always a permutation of the old one |
| `ContentTypes.Lower` | src/google_photos_slideshow/google_photos_slideshow.py:409 | `str.lower`: same length, each character lower-cased |
| `ContentTypes.ContentTypeOf` | src/google_photos_slideshow/google_photos_slideshow.py:407-425 | `_get_content_type` of the URL-list slideshow: the suffix tests on the lower-cased URL. A media type is found exactly when the lower-cased URL ends with one of the extensions of the folder filter `FolderExtensions` (line 464); otherwise `None` |
| `ContentTypes.TypeOfLowered` | src/google_photos_slideshow/google_photos_slideshow.py:469-487 | the suffix chain of `_get_content_type` on an already lower-cased URL, first match wins: it yields a type exactly when the URL ends with an extension of `FolderExtensions` |
| `ContentTypes.ContentTypeIgnoresCase` | src/google_photos_slideshow/google_photos_slideshow.py:407-425 | a URL and its lower-cased form get the same media type |
| `ContentTypes.ContentTypeOfExtension` | src/google_photos_slideshow/google_photos_slideshow.py:464-487 | every extension in the folder filter, in any letter case and after any prefix, maps to its media type, which is not `None` |
| `ContentTypes.ContentTypeBySuffix` | src/google_photos_slideshow/google_photos_slideshow.py:469-487 | the media type depends only on the last five characters of the URL |
| `ServerAddress.NatToString` | src/google_photos_slideshow/google_photos_slideshow.py:307 | `str(port)` is a non-empty string of decimal digits |
| `ServerAddress.NatRoundTrip` | src/google_photos_slideshow/google_photos_slideshow.py:307 | reading the decimal rendering back gives the number |
| `ServerAddress.IntToString` | src/google_photos_slideshow/google_photos_slideshow.py:307 | `str(port)`: non-empty, and it starts with `-` exactly for a negative port |
| `ServerAddress.IntToStringInjective` | src/google_photos_slideshow/google_photos_slideshow.py:307 | two integers render alike exactly when they are equal |
| `ServerAddress.ServerUrl` | src/google_photos_slideshow/google_photos_slideshow.py:305-308 | `server_url`: the address starts with `http://` and the host, followed by nothing or by `:`; `ServerUrlDefaultPort` and `ServerUrlDeterminesPort` say when and with which port |
| `ServerAddress.FolderSource` | src/google_photos_slideshow/google_photos_slideshow.py:448 | the source a folder slideshow passes to the base constructor: longer than `http://` plus the host, and ends with `/` |
| `ServerAddress.ServerUrlDefaultPort` | src/google_photos_slideshow/google_photos_slideshow.py:305-308 | the port is left out of the address exactly when it is 80 |
| `ServerAddress.ServerUrlDeterminesPort` | src/google_photos_slideshow/google_photos_slideshow.py:305-308 | for one host, equal addresses mean equal ports |
| `ServerAddress.FolderSourceIsServerUrl` | src/google_photos_slideshow/google_photos_slideshow.py:448 | the source a folder slideshow announces is the server address followed by `/` |
| `Rules.SettingStep` | src/google_photos_slideshow/google_photos_slideshow.py:259-274 | pause/play/speed: a message is broadcast exactly when a setting changes, and at most one. Pause ends paused, play ends playing, and speed sets `speed = v` and `image_duration = 4/v` only when v differs from the current speed; an equal v changes nothing and broadcasts nothing. Only a change to speed 0 raises. Any other action changes nothing |
| `Rules.SettingStepIdempotent` | src/google_photos_slideshow/google_photos_slideshow.py:259-274 | repeating a pause, play or speed command changes nothing and broadcasts nothing |
| `Rules.PauseThenPlay` | src/google_photos_slideshow/google_photos_slideshow.py:259-268 | pausing then playing a running show restores the settings, with one broadcast each |
| `Rules.SpeedSetsDuration` | google_photos_slideshow.py:145-150 | the new image duration is `4/v` whatever duration was configured before |
| `Rules.TitleStep` | google_photos_slideshow.py:245-252 | the title changes exactly when parsing is on, the pattern matched and the text differs; exactly then one title message is broadcast |
| `Rules.TitleStepIdempotent` | google_photos_slideshow.py:245-252 | fetching the same title again broadcasts nothing |
| `Rules.PackageLookup` | src/google_photos_slideshow/google_photos_slideshow.py:231-239 | casting off gives type `None` with the cache untouched. A cached non-`None` type is used without the resolver. A missing or `None` entry is resolved and stored |
| `Rules.LookupKeepsOtherEntries` | src/google_photos_slideshow/google_photos_slideshow.py:231-239 | no cache entry changes but the requested URL's |
| `Rules.SecondLookupIsCached` | src/google_photos_slideshow/google_photos_slideshow.py:231-239 | once a URL resolved to a type, asking again gives the same message from the cache |
| `Rules.NoneIsResolvedAgain` | src/google_photos_slideshow/google_photos_slideshow.py:233-236 | a URL that resolves to `None` is resolved again on the next request |
| `SlideshowV3.Slideshow.constructor` | src/google_photos_slideshow/google_photos_slideshow.py:139-154 | empty playlist at position 0, empty cache and client set, playing at speed 1 |
| `SlideshowV3.Slideshow.RecordUrls` | src/google_photos_slideshow/google_photos_slideshow.py:169-188 | the new list is `Merged` with the cut after the displayed URL and the block a permutation of `new_urls`. The position is `MergedIndex` and drops by the departed URLs before it. The displayed URL is kept, with the new block after it. Contents are exact; the invariant `0 <= index <= len` is kept |
| `SlideshowV3.Slideshow.NextUrl` | src/google_photos_slideshow/google_photos_slideshow.py:190-198 | forward by one, or to 0 with the list reshuffled once the end is passed. Returns `urls[current_index]`, inside the list. On an empty list: position 0, then `IndexError` |
| `SlideshowV3.Slideshow.PreviousUrl` | src/google_photos_slideshow/google_photos_slideshow.py:200-203 | position becomes `(index - 1) mod len`, list unchanged, returns `urls[current_index]`; `ZeroDivisionError` with no change on an empty list |
| `SlideshowV3.Slideshow.UrlPackage` | src/google_photos_slideshow/google_photos_slideshow.py:231-239 | message, cache and resolver calls are those of `Rules.PackageLookup` |
| `SlideshowV3.Slideshow.UpdateClients` | src/google_photos_slideshow/google_photos_slideshow.py:210-216 | advances and broadcasts one package only when the list is non-empty and not paused; otherwise nothing changes |
| `SlideshowV3.Slideshow.Register` | src/google_photos_slideshow/google_photos_slideshow.py:218-229 | adds the viewer. Then sends exactly five messages in order: package of the displayed URL, speed, pause or play, source, title. `IndexError` when the position is past the end |
| `SlideshowV3.Slideshow.Unregister` | src/google_photos_slideshow/google_photos_slideshow.py:241-243 | removes the viewer; raises for a viewer not registered |
| `SlideshowV3.Slideshow.HandleMessage` | src/google_photos_slideshow/google_photos_slideshow.py:249-274 | the state change and reply satisfy `Handled`. `next` steps the position as `Advanced` says and broadcasts the package of the new URL; on an empty list it resets the position to 0, closes the session and removes the viewer. `previous` steps to `WrapPrevious` and broadcasts the package; on an empty list it closes and removes the viewer. Pause, play, speed and any other action have the exact effect and broadcast of `Rules.SettingStep`; a speed change to 0 closes and removes the viewer. Nothing else changes |
| `SlideshowV3.Slideshow.Session` | src/google_photos_slideshow/google_photos_slideshow.py:245-277 | registration fails exactly when the position is past the end. Then nothing is sent or handled, the viewer stays added and nothing else changes. Otherwise the viewer gets the five-message snapshot. The ghost trace `states` starts at the registered state, and each reply answers its command as `Handled` says, from the state the previous command left. Only the last reply may close the session, and every command is handled unless one closes it. At the end the viewer is removed and the rest of the state is the state the last command left |
| `SlideshowV3.Slideshow.HandledClients` | src/google_photos_slideshow/google_photos_slideshow.py:249-274 | a handled command removes the viewer exactly when its reply closes the session, and otherwise leaves the viewer set as it was |
| `SlideshowV3.Slideshow.Serve` | src/google_photos_slideshow/google_photos_slideshow.py:249-274 | the command loop: replies and trace as in `Session`. The viewer set changes only by the command that closes the session, which removes the viewer |
| `SlideshowV3.Slideshow.PreviousThenNext` | src/google_photos_slideshow/google_photos_slideshow.py:190-203 | previous then next restores the position, and the list when the position was not 0 |
| `SlideshowV2.Slideshow.constructor` | google_photos_slideshow.py:41-56 | empty playlist at position 0, empty cache and client set, playing at speed 1 |
| `SlideshowV2.Slideshow.FetchUrls` | google_photos_slideshow.py:245-271 | the title follows `Rules.TitleStep`. The found URLs are taken once each, then merged after the displayed URL. The displayed URL is kept, and from a duplicate-free list the result holds each found URL exactly once |
| `SlideshowV2.Slideshow.MergeCandidates` | google_photos_slideshow.py:254-271 | the merge inside `_fetch_urls`, with the same outcome as `SlideshowV3.Slideshow.RecordUrls` |
| `SlideshowV2.Slideshow.NextUrl` | google_photos_slideshow.py:66-74 | forward by one, or to 0 with a reshuffle past the end; returns `urls[current_index]`; `IndexError` on an empty list |
| `SlideshowV2.Slideshow.PreviousUrl` | google_photos_slideshow.py:76-79 | position becomes `(index - 1) mod len`, list unchanged; `ZeroDivisionError` on an empty list |
| `SlideshowV2.Slideshow.UrlPackage` | google_photos_slideshow.py:107-115 | message, cache and resolver calls are those of `Rules.PackageLookup` |
| `SlideshowV2.Slideshow.UpdateClients` | google_photos_slideshow.py:86-92 | advances and broadcasts only when non-empty and not paused; otherwise no field changes |
| `SlideshowV2.Slideshow.Register` | google_photos_slideshow.py:94-105 | adds the viewer, then sends exactly five messages in order: package, speed, pause iff paused, source = the album URL, title |
| `SlideshowV2.Slideshow.Unregister` | google_photos_slideshow.py:117-119 | removes the viewer; an absent viewer raises instead of being a no-op |
| `SlideshowV2.Slideshow.HandleMessage` | google_photos_slideshow.py:125-150 | the state change and reply satisfy `Handled`. `next` steps the position as `Advanced` says and broadcasts the package of the new URL; on an empty list it resets the position to 0, closes the session and removes the viewer. `previous` steps to `WrapPrevious` and broadcasts the package; on an empty list it closes and removes the viewer. Pause, play, speed and any other action have the exact effect and broadcast of `Rules.SettingStep`; a speed change to 0 closes and removes the viewer. Nothing else changes |
| `SlideshowV2.Slideshow.Session` | google_photos_slideshow.py:121-153 | registration fails exactly when the position is past the end. Then nothing is sent or handled, the viewer stays added and nothing else changes. Otherwise the viewer gets the five-message snapshot, with the album URL as the source. The ghost trace `states` starts at the registered state, and each reply answers its command as `Handled` says, from the state the previous command left. Only the last reply may close the session, and every command is handled unless one closes it. At the end the viewer is removed and the rest of the state is the state the last command left |
| `SlideshowV2.Slideshow.HandledClients` | google_photos_slideshow.py:125-150 | a handled command removes the viewer exactly when its reply closes the session, and otherwise leaves the viewer set as it was |
| `SlideshowV2.Slideshow.Serve` | google_photos_slideshow.py:125-150 | the command loop: replies and trace as in `Session`. The viewer set changes only by the command that closes the session, which removes the viewer |
| `SlideshowV2.Slideshow.PreviousThenNext` | google_photos_slideshow.py:66-79 | previous then next restores the position, and the list when the position was not 0 |
| `SlideshowV1.Slideshow.constructor` | slideshow.py:27-39 | empty playlist at position 0, no viewers, playing |
| `SlideshowV1.Slideshow.FetchUrls` | slideshow.py:46-59 | the found URLs are taken once each and merged AT the displayed position. The first new URL becomes the displayed one, and with nothing new a surviving displayed URL stays. The position drops by the departed URLs before it, never below 0 |
| `SlideshowV1.Slideshow.NextUrl` | slideshow.py:62-65 | position becomes `(index + 1) mod len`, list never reshuffled; `ZeroDivisionError` on an empty list |
| `SlideshowV1.Slideshow.PreviousUrl` | slideshow.py:67-70 | position becomes `(index - 1) mod len`; `ZeroDivisionError` on an empty list |
| `SlideshowV1.Slideshow.UpdateClients` | slideshow.py:77-83 | advances and broadcasts one `{'url': ...}` only when non-empty and not paused |
| `SlideshowV1.Slideshow.Register` | slideshow.py:85-87 | only adds the viewer; nothing is sent |
| `SlideshowV1.Slideshow.Unregister` | slideshow.py:89-91 | removes the viewer; raises for a viewer not registered |
| `SlideshowV1.Slideshow.HandleMessage` | slideshow.py:97-108 | the state change and reply satisfy `Handled`. `next` and `previous` step the position modulo the length and broadcast exactly one `{'url': ...}` of the new URL; on an empty list they close the session and remove the viewer. Pause and play set the flag unconditionally, and speed sets `image_speed = v` (0 included), all without a broadcast. The list is never changed |
| `SlideshowV1.Slideshow.Session` | slideshow.py:93-111 | the ghost trace `states` starts at the state with the viewer added, and each reply answers its command as `Handled` says, from the state the previous command left. Only the last reply may close, and every command is handled unless one closes the session. At the end the viewer is removed and the rest of the state is the state the last command left |
| `SlideshowV1.Slideshow.Serve` | slideshow.py:97-108 | the command loop: replies and trace as in `Session`. The viewer set changes only by the command that closes the session, which removes the viewer |
| `SlideshowV1.Slideshow.NextThenPrevious` | slideshow.py:62-70 | next then previous restores the position; the list is never touched |
| `SlideshowV1.Slideshow.PreviousThenNext` | slideshow.py:62-70 | previous then next restores the position; the list is never touched |

## Left out

- The HTTP and websocket servers, routes, static folders, signal handling and shutdown (`serve`, `start_http_server`, `setup_routes`, `serve_index`, `cleanup`) are network and process plumbing.
- Fetching the page and running the regular expressions (`aiohttp` GET and HEAD, `re.findall`, `re.search`) are foreign library calls. A fetch enters the model as its found URLs and captured title text. The resolver `_get_content_type` is a fixed function: the same URL always resolves alike, and a failing HEAD request is not modelled.
- The `_fetch_urls` of the newest file's `RegexSlideshow` is not part of this model. Its title rule is the middle file's, `Rules.TitleStep`.
- `URLListSlideshow._fetch_urls` returns `None`, which `_record_urls` cannot iterate. `RecordUrls` takes an actual list.
- The subclass constructors (`URLListSlideshow`, `FolderSlideshow`, `RegexSlideshow`, `GooglePhotosSlideshow`) are left out; only the base class's is modelled. `URLListSlideshow.__init__` calls the base constructor without its required `source`.
- The refresh loop `run`, `last_refresh`, the sleeps and the timing of refreshes are left out. Their point is time.
- Concurrency goes too. `_send_to_all` is one list of messages for all viewers, with no `asyncio.gather` and no per-viewer send failures. Operations do not interleave at `await` points, so each one runs to completion.
- `load_content_type` and its futures are left out: they are asyncio-specific, and their only caller is commented out.
- Configuration is left out: argument parsing, YAML, the tkinter prompt, mode dispatch and `server_ip_url`, which asks the operating system for an address.
- The distribution of `random.shuffle` and the order of `list(set(...))` are left out. Only "some permutation" and "some duplicate-free order" are stated.
- Speeds and durations are Dafny `real`, not IEEE floats, so rounding, infinities and NaN are not modelled.
- Commands arrive already decoded. Invalid JSON, a missing `action` or `value` key, and a non-numeric speed (which `float` rejects, ending the session) are not modelled.
- `ContentTypes.Lower`: lower-cases ASCII letters only, not the full Unicode case mapping of `str.lower`.
- Log output is not modelled.
