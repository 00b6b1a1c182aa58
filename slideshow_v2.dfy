/** The middle `Slideshow` class with the fetch step of its
    `RegexSlideshow`: the live playlist, the playback settings, the page
    title, the content-type cache and the set of connected viewers. A page
    fetch is given as the title text the title pattern captured (if any)
    and the URLs the image pattern found; the resolver `_get_content_type`
    (an HTTP HEAD request) is the constant `resolve`. */
module SlideshowV2 {
  import opened Protocol
  import opened Playlist
  import opened Rules

  /** What one websocket command can change: the playlist and the
      displayed position, the playback settings, the content-type cache
      with the resolver log, and the set of viewers. */
  datatype State = State(urls: seq<string>, currentIndex: int, settings: Settings,
                         contentTypes: map<string, Option<string>>, lookups: seq<string>,
                         clients: set<ClientId>)

  class Slideshow {
    var urls: seq<string>
    var currentIndex: int
    var paused: bool
    var speed: real
    var imageDuration: real
    var title: string
    var contentTypes: map<string, Option<string>>
    var clients: set<ClientId>
    /** The album page; also announced to viewers as the source. */
    const url: string
    const supportCasting: bool
    const parseTitle: bool
    const resolve: string -> Option<string>
    /** The URLs handed to the resolver, in order. */
    ghost var lookups: seq<string>

    /** The displayed position lies within the list or just past its end. */
    ghost predicate Valid()
      reads this
    {
      0 <= currentIndex <= |urls|
    }

    /** The fields the pause, play and speed commands act on. */
    function CurrentSettings(): Settings
      reads this
    {
      Settings(paused, speed, imageDuration)
    }

    /** `m` is what `_url_package(url)` returns from the cache `cache0`
        with resolver log `lookups0`, and `cache1` and `lookups1` are the
        cache and log it leaves behind. */
    ghost predicate Packaged(url: string, cache0: map<string, Option<string>>, lookups0: seq<string>, m: Message,
                             cache1: map<string, Option<string>>, lookups1: seq<string>)
    {
      var r := PackageLookup(supportCasting, resolve, cache0, url);
      m == r.message && cache1 == r.cache && lookups1 == lookups0 + (if r.resolved then [url] else [])
    }

    /** The part of the object that websocket commands change. */
    ghost function Snapshot(): State
      reads this
    {
      State(urls, currentIndex, CurrentSettings(), contentTypes, lookups, clients)
    }

    /** One command of viewer `client` as the dispatch in `websocket_handler`
        handles it, from state `s` to state `t` with reply `reply`: `next`
        and `previous` step the position and send one package; pause, play
        and speed follow `SettingStep`; a command that raises closes the
        session and removes the viewer, changing nothing else. */
    ghost predicate Handled(s: State, client: ClientId, action: Action, reply: Reply, t: State) {
      && (action.Next? ==>
            t.settings == s.settings
            && Advanced(s.urls, s.currentIndex, t.urls, t.currentIndex)
            && if s.urls == [] then
                 reply == Closed && t == s.(currentIndex := 0, clients := s.clients - {client})
               else
                 t.clients == s.clients && 0 <= t.currentIndex < |t.urls|
                 && reply.Broadcast? && |reply.messages| == 1
                 && Packaged(t.urls[t.currentIndex], s.contentTypes, s.lookups, reply.messages[0],
                             t.contentTypes, t.lookups))
      && (action.Previous? ==>
            if s.urls == [] then
              reply == Closed && t == s.(clients := s.clients - {client})
            else
              t.settings == s.settings && t.urls == s.urls && t.clients == s.clients
              && t.currentIndex == WrapPrevious(s.currentIndex, |s.urls|)
              && reply.Broadcast? && |reply.messages| == 1
              && Packaged(t.urls[t.currentIndex], s.contentTypes, s.lookups, reply.messages[0],
                          t.contentTypes, t.lookups))
      && (IsSettingCommand(action) ==>
            var e := SettingStep(s.settings, action);
            if e.Raised? then
              reply == Closed && t == s.(clients := s.clients - {client})
            else
              reply == Broadcast(e.messages) && t == s.(settings := e.settings))
    }

    /** A handled command removes the viewer exactly when it closes the
        session, and otherwise leaves the viewers alone. */
    lemma HandledClients(s: State, client: ClientId, action: Action, reply: Reply, t: State)
      requires Handled(s, client, action, reply, t)
      ensures t.clients == if reply == Closed then s.clients - {client} else s.clients
    {
    }

    /** A trace of handled commands stays one when a further handled
        command is appended. */
    lemma ExtendTrace(client: ClientId, actions: seq<Action>, replies: seq<Reply>, states: seq<State>,
                      reply: Reply, t: State)
      requires |replies| < |actions| && |states| == |replies| + 1
      requires forall j :: 0 <= j < |replies| ==> Handled(states[j], client, actions[j], replies[j], states[j + 1])
      requires Handled(states[|replies|], client, actions[|replies|], reply, t)
      ensures forall j :: 0 <= j < |replies| + 1 ==>
                Handled((states + [t])[j], client, actions[j], (replies + [reply])[j], (states + [t])[j + 1])
    {
      forall j | 0 <= j < |replies| + 1
        ensures Handled((states + [t])[j], client, actions[j], (replies + [reply])[j], (states + [t])[j + 1])
      {
        if j < |replies| {
          assert (states + [t])[j] == states[j] && (states + [t])[j + 1] == states[j + 1];
          assert (replies + [reply])[j] == replies[j];
        }
      }
    }

    constructor (url: string, title: string, imageDuration: real, supportCasting: bool,
                 parseTitle: bool, resolve: string -> Option<string>)
      ensures Valid()
      ensures urls == [] && currentIndex == 0 && contentTypes == map[] && clients == {}
      ensures !paused && speed == 1.0 && this.imageDuration == imageDuration && this.title == title
      ensures this.url == url && this.supportCasting == supportCasting && this.parseTitle == parseTitle
      ensures this.resolve == resolve
      ensures lookups == []
    {
      this.url := url;
      this.supportCasting := supportCasting;
      this.parseTitle := parseTitle;
      this.resolve := resolve;
      urls := [];
      currentIndex := 0;
      contentTypes := map[];
      clients := {};
      paused := false;
      speed := 1.0;
      this.imageDuration := imageDuration;
      this.title := title;
      lookups := [];
    }

    /** The bookkeeping of `RegexSlideshow._fetch_urls` after the page is
        read: adopt a changed title and broadcast it, take each found URL
        once (`list(set(...))`, in the order `candidates`), and merge those
        into the playlist. `block` is the order the shuffle chose. */
    method FetchUrls(titleMatch: Option<string>, found: seq<string>)
      returns (sent: seq<Message>, ghost candidates: seq<string>, ghost block: seq<string>)
      requires Valid()
      modifies this`title, this`urls, this`currentIndex
      ensures Valid()
      ensures var t := TitleStep(parseTitle, old(title), titleMatch); title == t.title && sent == t.messages
      ensures NoDup(candidates) && forall u :: u in candidates <==> u in found
      ensures multiset(block) == multiset(NonMembers(candidates, old(urls)))
      ensures urls == Merged(old(urls), SliceEnd(old(currentIndex) + 1, |old(urls)|), candidates, block)
      ensures currentIndex == MergedIndex(old(urls), old(currentIndex), candidates)
      // the displayed URL stays displayed when it is still found
      ensures old(currentIndex) < |old(urls)| && old(urls)[old(currentIndex)] in found ==>
                currentIndex < |urls| && urls[currentIndex] == old(urls)[old(currentIndex)]
      // from a duplicate-free list, the result holds each found URL exactly once
      ensures NoDup(old(urls)) ==> NoDup(urls) && forall u :: u in urls <==> u in found
    {
      sent := [];
      if parseTitle && titleMatch.Some? && titleMatch.value != title {
        title := titleMatch.value;
        sent := [TitleNotice(title)];
      }
      var listed := ListOfSet(found);
      block := MergeCandidates(listed);
      candidates := listed;
    }

    /** The merge inside `RegexSlideshow._fetch_urls`: splice the shuffled
        new candidates in after the displayed URL, then drop the URLs that
        are no longer candidates, stepping the displayed position back for
        each one before it. */
    method MergeCandidates(candidates: seq<string>) returns (ghost block: seq<string>)
      requires Valid()
      modifies this`urls, this`currentIndex
      ensures Valid()
      ensures multiset(block) == multiset(NonMembers(candidates, old(urls)))
      ensures urls == Merged(old(urls), SliceEnd(old(currentIndex) + 1, |old(urls)|), candidates, block)
      ensures currentIndex == MergedIndex(old(urls), old(currentIndex), candidates)
      // the position moves back by the number of departed URLs before it
      ensures currentIndex == old(currentIndex) - |NonMembers(old(urls)[..old(currentIndex)], candidates)|
      // the displayed URL stays displayed when it is still a candidate
      ensures old(currentIndex) < |old(urls)| && old(urls)[old(currentIndex)] in candidates ==>
                currentIndex < |urls| && urls[currentIndex] == old(urls)[old(currentIndex)]
      // and the new URLs then follow it as one block
      ensures old(currentIndex) < |old(urls)| && old(urls)[old(currentIndex)] in candidates ==>
                BlockAt(urls, currentIndex + 1, block)
      // duplicate-free inputs give a duplicate-free list of exactly the candidates
      ensures NoDup(old(urls)) && NoDup(candidates) ==>
                NoDup(urls) && forall u :: u in urls <==> u in candidates
    {
      urls, currentIndex, block := MergeAfter(urls, currentIndex, candidates);
    }

    /** `_next_url`: one step forward, or back to the start with the list
        reshuffled once the end is passed. On an empty list the position is
        reset to 0 and the lookup raises `IndexError` (`None` here). */
    method NextUrl() returns (url: Option<string>)
      requires Valid()
      modifies this`urls, this`currentIndex
      ensures Valid()
      ensures Advanced(old(urls), old(currentIndex), urls, currentIndex)
      ensures url.None? <==> old(urls) == []
      ensures old(urls) == [] ==> urls == [] && currentIndex == 0
      ensures url.Some? ==> currentIndex < |urls| && url.value == urls[currentIndex]
    {
      currentIndex := currentIndex + 1;
      if currentIndex >= |urls| {
        currentIndex := 0;
        urls := Shuffle(urls);
      }
      if currentIndex < |urls| {
        url := Some(urls[currentIndex]);
      } else {
        url := None;
      }
    }

    /** `_previous_url`: one step back, wrapping to the end. On an empty list
        the modulo raises `ZeroDivisionError` (`None` here) before any
        change. */
    method PreviousUrl() returns (url: Option<string>)
      requires Valid()
      modifies this`currentIndex
      ensures Valid()
      ensures url.None? <==> urls == []
      ensures urls == [] ==> currentIndex == old(currentIndex)
      ensures urls != [] ==> currentIndex == WrapPrevious(old(currentIndex), |urls|)
      ensures url.Some? ==> currentIndex < |urls| && url.value == urls[currentIndex]
    {
      if |urls| == 0 {
        url := None;
      } else {
        currentIndex := WrapPrevious(currentIndex, |urls|);
        url := Some(urls[currentIndex]);
      }
    }

    /** `_url_package`. */
    method UrlPackage(url: string) returns (m: Message)
      modifies this`contentTypes, this`lookups
      ensures Packaged(url, old(contentTypes), old(lookups), m, contentTypes, lookups)
    {
      var contentType: Option<string>;
      if supportCasting {
        contentType := if url in contentTypes then contentTypes[url] else None;
        if contentType == None {
          contentType := resolve(url);
          lookups := lookups + [url];
          contentTypes := contentTypes[url := contentType];
        }
      } else {
        contentType := None;
      }
      m := Package(url, contentType);
    }

    /** `_update_clients`: advance and broadcast the new URL's package, but
        only when there are URLs and the show is not paused. */
    method UpdateClients() returns (sent: seq<Message>)
      requires Valid()
      modifies this`urls, this`currentIndex, this`contentTypes, this`lookups
      ensures Valid()
      ensures old(urls) == [] || paused ==>
                sent == [] && urls == old(urls) && currentIndex == old(currentIndex)
                && contentTypes == old(contentTypes) && lookups == old(lookups)
      ensures old(urls) != [] && !paused ==>
                Advanced(old(urls), old(currentIndex), urls, currentIndex)
                && currentIndex < |urls| && |sent| == 1
                && Packaged(urls[currentIndex], old(contentTypes), old(lookups), sent[0], contentTypes, lookups)
    {
      sent := [];
      if urls != [] && !paused {
        var next := NextUrl();
        var m := UrlPackage(next.value);
        sent := [m];
      }
    }

    /** `_register`: add the viewer, then send it the package of the
        displayed URL, the speed, pause or play, the source and the title.
        When the displayed position is past the end, the lookup raises
        `IndexError` (`ok` false) after the viewer was added. */
    method Register(client: ClientId) returns (ok: bool, sent: seq<Message>)
      requires Valid()
      modifies this`clients, this`contentTypes, this`lookups
      ensures clients == old(clients) + {client}
      ensures ok <==> currentIndex < |urls|
      ensures !ok ==> sent == [] && contentTypes == old(contentTypes) && lookups == old(lookups)
      ensures ok ==> |sent| == 5 && Packaged(urls[currentIndex], old(contentTypes), old(lookups), sent[0], contentTypes, lookups)
      ensures ok ==> sent[1..] == [SpeedNotice(speed), if paused then PauseNotice else PlayNotice,
                                   SourceNotice(this.url), TitleNotice(title)]
    {
      clients := clients + {client};
      if currentIndex < |urls| {
        var package := UrlPackage(urls[currentIndex]);
        var mode := if paused then PauseNotice else PlayNotice;
        sent := [package, SpeedNotice(speed), mode, SourceNotice(this.url), TitleNotice(title)];
        ok := true;
      } else {
        sent := [];
        ok := false;
      }
    }

    /** `_unregister`: `set.remove` raises `KeyError` (`ok` false) for a
        viewer that is not registered. */
    method Unregister(client: ClientId) returns (ok: bool)
      modifies this`clients
      ensures ok <==> client in old(clients)
      ensures clients == old(clients) - {client}
    {
      ok := client in clients;
      clients := clients - {client};
    }

    /** One pass of the dispatch in `websocket_handler`. A command that
        raises yields `Closed`, and the handler's `finally` unregisters the
        viewer. */
    method HandleMessage(client: ClientId, action: Action) returns (reply: Reply)
      requires Valid()
      modifies this`urls, this`currentIndex, this`paused, this`speed, this`imageDuration,
               this`contentTypes, this`lookups, this`clients
      ensures Valid()
      ensures Handled(old(Snapshot()), client, action, reply, Snapshot())
    {
      match action
      case Next =>
        var next := NextUrl();
        if next.Some? {
          var m := UrlPackage(next.value);
          reply := Broadcast([m]);
        } else {
          var _ := Unregister(client);
          reply := Closed;
        }
      case Previous =>
        var previous := PreviousUrl();
        if previous.Some? {
          var m := UrlPackage(previous.value);
          reply := Broadcast([m]);
        } else {
          var _ := Unregister(client);
          reply := Closed;
        }
      case Pause =>
        if !paused {
          paused := true;
          reply := Broadcast([PauseNotice]);
        } else {
          reply := Broadcast([]);
        }
      case Play =>
        if paused {
          paused := false;
          reply := Broadcast([PlayNotice]);
        } else {
          reply := Broadcast([]);
        }
      case SetSpeed(value) =>
        if speed != value {
          if value == 0.0 {
            var _ := Unregister(client);
            reply := Closed;
          } else {
            imageDuration := 4.0 / value;
            speed := value;
            reply := Broadcast([SpeedNotice(speed)]);
          }
        } else {
          reply := Broadcast([]);
        }
      case Unrecognised(_) =>
        reply := Broadcast([]);
    }

    /** `websocket_handler` for one connection: register, handle the
        viewer's commands in order until one raises, then unregister. A
        failed registration happens before the `try`, so the viewer stays
        in the set and no command is handled. */
    method Session(client: ClientId, actions: seq<Action>)
      returns (ok: bool, snapshot: seq<Message>, replies: seq<Reply>, ghost states: seq<State>)
      requires Valid()
      modifies this`urls, this`currentIndex, this`paused, this`speed, this`imageDuration,
               this`contentTypes, this`lookups, this`clients
      ensures Valid()
      // `states[0]` is the state after registration, `states[i + 1]` the
      // state after the i-th command
      ensures |replies| <= |actions| && |states| == |replies| + 1
      ensures states[0].urls == old(urls) && states[0].currentIndex == old(currentIndex)
              && states[0].settings == old(CurrentSettings()) && states[0].clients == old(clients) + {client}
      // registration fails exactly when the position is past the end; then
      // nothing is sent or handled and nothing else changes
      ensures ok <==> old(currentIndex) < |old(urls)|
      ensures !ok ==> snapshot == [] && replies == [] && Snapshot() == states[0]
                      && states[0].contentTypes == old(contentTypes) && states[0].lookups == old(lookups)
      ensures ok ==> |snapshot| == 5
                     && Packaged(old(urls)[old(currentIndex)], old(contentTypes), old(lookups), snapshot[0],
                                 states[0].contentTypes, states[0].lookups)
                     && snapshot[1..] == [SpeedNotice(old(speed)), if old(paused) then PauseNotice else PlayNotice,
                                          SourceNotice(this.url), TitleNotice(title)]
      // each reply answers its command as `HandleMessage` does, in order,
      // and only the last one may close the session
      ensures forall i :: 0 <= i < |replies| ==> Handled(states[i], client, actions[i], replies[i], states[i + 1])
      ensures forall i :: 0 <= i < |replies| - 1 ==> replies[i].Broadcast?
      ensures ok ==> |replies| == |actions| || (replies != [] && replies[|replies| - 1] == Closed)
      // at the end the viewer is removed and nothing else changes
      ensures ok ==> Snapshot() == states[|replies|].(clients := old(clients) - {client})
      ensures ok && client !in old(clients) ==> clients == old(clients)
    {
      ok, snapshot := Register(client);
      replies, states := [], [Snapshot()];
      if ok {
        replies, states := Serve(client, actions);
        if replies == [] || replies[|replies| - 1] != Closed {
          var _ := Unregister(client);
        }
      }
    }

    /** The `async for` loop of `websocket_handler`: handle the viewer's
        commands in order until one raises and closes the session. */
    method Serve(client: ClientId, actions: seq<Action>) returns (replies: seq<Reply>, ghost states: seq<State>)
      requires Valid()
      modifies this`urls, this`currentIndex, this`paused, this`speed, this`imageDuration,
               this`contentTypes, this`lookups, this`clients
      ensures Valid()
      ensures |replies| <= |actions| && |states| == |replies| + 1
      ensures states[0] == old(Snapshot()) && Snapshot() == states[|replies|]
      ensures forall i :: 0 <= i < |replies| ==> Handled(states[i], client, actions[i], replies[i], states[i + 1])
      ensures forall i :: 0 <= i < |replies| - 1 ==> replies[i].Broadcast?
      ensures |replies| == |actions| || (replies != [] && replies[|replies| - 1] == Closed)
      // the command that closes the session removes the viewer; until then
      // the viewers stay as they were
      ensures replies != [] && replies[|replies| - 1] == Closed ==> clients == old(clients) - {client}
      ensures replies == [] || replies[|replies| - 1] != Closed ==> clients == old(clients)
    {
      replies, states := [], [Snapshot()];
      var closed := false;
      var i := 0;
      while i < |actions| && !closed
        invariant Valid()
        invariant 0 <= i <= |actions| && |replies| == i && |states| == i + 1
        invariant states[0] == old(Snapshot()) && Snapshot() == states[i]
        invariant forall j :: 0 <= j < i ==> Handled(states[j], client, actions[j], replies[j], states[j + 1])
        invariant forall j :: 0 <= j < i - 1 ==> replies[j].Broadcast?
        invariant closed <==> replies != [] && replies[i - 1] == Closed
        invariant !closed ==> clients == old(clients)
        invariant closed ==> clients == old(clients) - {client}
      {
        var reply := HandleMessage(client, actions[i]);
        HandledClients(states[i], client, actions[i], reply, Snapshot());
        ExtendTrace(client, actions, replies, states, reply, Snapshot());
        replies := replies + [reply];
        states := states + [Snapshot()];
        closed := reply == Closed;
        i := i + 1;
      }
    }

    /** Stepping back then forward from inside the list restores the
        displayed position and, except from the first URL (where the step
        forward wraps and reshuffles), the list itself. */
    method PreviousThenNext() returns (back: Option<string>, forth: Option<string>)
      requires Valid() && currentIndex < |urls|
      modifies this`urls, this`currentIndex
      ensures currentIndex == old(currentIndex) && multiset(urls) == multiset(old(urls))
      ensures old(currentIndex) != 0 ==> urls == old(urls)
      ensures forth == Some(old(urls)[old(currentIndex)]) || old(currentIndex) == 0
    {
      ghost var i := currentIndex;
      back := PreviousUrl();
      forth := NextUrl();
      PreviousThenAdvance(old(urls), i, urls, currentIndex);
    }
  }
}
