/** The oldest `Slideshow` class: the live playlist, the pause flag, the
    seconds each image is shown and the set of connected viewers. A page
    fetch is given as the URLs the image pattern found. */
module SlideshowV1 {
  import opened Protocol
  import opened Playlist

  /** What one websocket command can change, with the playlist it reads:
      the list and the displayed position, the pause flag, the seconds per
      image and the set of viewers. */
  datatype State = State(urls: seq<string>, currentIndex: int, paused: bool, imageSpeed: real,
                         clients: set<ClientId>)

  class Slideshow {
    var urls: seq<string>
    var currentIndex: int
    var paused: bool
    /** Seconds per image. */
    var imageSpeed: real
    var clients: set<ClientId>
    /** The album page. */
    const url: string

    /** The displayed position lies within the list or just past its end. */
    ghost predicate Valid()
      reads this
    {
      0 <= currentIndex <= |urls|
    }

    /** The part of the object that websocket commands read or change. */
    ghost function Snapshot(): State
      reads this
    {
      State(urls, currentIndex, paused, imageSpeed, clients)
    }

    /** One command of viewer `client` as the dispatch in `websocket_handler`
        handles it, from state `s` to state `t` with reply `reply`:
        navigation steps the position modulo the length and broadcasts the
        new URL, or on an empty list raises, closing the session and
        removing the viewer; pause, play and speed set their field
        unconditionally and broadcast nothing. */
    ghost predicate Handled(s: State, client: ClientId, action: Action, reply: Reply, t: State) {
      if action.Next? || action.Previous? then
        if s.urls == [] then
          reply == Closed && t == s.(clients := s.clients - {client})
        else
          t == s.(currentIndex := if action.Next? then WrapNext(s.currentIndex, |s.urls|)
                                  else WrapPrevious(s.currentIndex, |s.urls|))
          && reply == Broadcast([UrlMessage(s.urls[t.currentIndex])])
      else
        reply == Broadcast([])
        && t == match action
                case Pause => s.(paused := true)
                case Play => s.(paused := false)
                case SetSpeed(v) => s.(imageSpeed := v)
                case Unrecognised(_) => s
    }

    constructor (url: string, imageSpeed: real)
      ensures Valid()
      ensures urls == [] && currentIndex == 0 && clients == {} && !paused
      ensures this.imageSpeed == imageSpeed && this.url == url
    {
      this.url := url;
      urls := [];
      currentIndex := 0;
      clients := {};
      paused := false;
      this.imageSpeed := imageSpeed;
    }

    /** The bookkeeping of `_fetch_urls` after the page is read: take each
        found URL once (`list(set(...))`, in the order `candidates`),
        splice the shuffled new candidates in AT the displayed position,
        then drop the URLs that are no longer candidates, stepping the
        displayed position back for each one before it. `block` is the
        order the shuffle chose. */
    method FetchUrls(found: seq<string>) returns (ghost candidates: seq<string>, ghost block: seq<string>)
      requires Valid()
      modifies this`urls, this`currentIndex
      ensures Valid()
      ensures NoDup(candidates) && forall u :: u in candidates <==> u in found
      ensures multiset(block) == multiset(NonMembers(candidates, old(urls)))
      ensures urls == Merged(old(urls), old(currentIndex), candidates, block)
      ensures currentIndex == MergedIndex(old(urls), old(currentIndex), candidates)
      // the position moves back by the number of departed URLs before it
      ensures currentIndex == old(currentIndex) - |NonMembers(old(urls)[..old(currentIndex)], candidates)|
      // the new URLs take the displayed position: the first of them is displayed
      ensures BlockAt(urls, currentIndex, block)
      ensures block != [] ==> urls[currentIndex] == block[0]
      // with nothing new, a displayed URL that is still found stays displayed
      ensures block == [] && old(currentIndex) < |old(urls)| && old(urls)[old(currentIndex)] in found ==>
                currentIndex < |urls| && urls[currentIndex] == old(urls)[old(currentIndex)]
      // from a duplicate-free list, the result holds each found URL exactly once
      ensures NoDup(old(urls)) ==> NoDup(urls) && forall u :: u in urls <==> u in found
    {
      var listed := ListOfSet(found);
      var newUrls := NonMembers(listed, urls);
      var removedUrls := NonMembers(urls, listed);
      newUrls := Shuffle(newUrls);
      ghost var before, index := urls, currentIndex;
      ShuffledCandidates(before, listed, newUrls);
      urls := urls[..currentIndex] + newUrls + urls[currentIndex..];
      SplicePrune(before, index, listed, newUrls, index);
      urls, currentIndex := RemoveDeparted(urls, currentIndex, removedUrls, listed);
      candidates, block := listed, newUrls;
      MergeAtDisplayed(before, index, candidates, block, urls, currentIndex);
    }

    /** `_next_url`: one step forward modulo the length; the list is never
        reshuffled. On an empty list the modulo raises `ZeroDivisionError`
        (`None` here) before any change. */
    method NextUrl() returns (next: Option<string>)
      requires Valid()
      modifies this`currentIndex
      ensures Valid()
      ensures next.None? <==> urls == []
      ensures urls == [] ==> currentIndex == old(currentIndex)
      ensures urls != [] ==> currentIndex == WrapNext(old(currentIndex), |urls|)
      ensures next.Some? ==> currentIndex < |urls| && next.value == urls[currentIndex]
    {
      if |urls| == 0 {
        next := None;
      } else {
        currentIndex := WrapNext(currentIndex, |urls|);
        next := Some(urls[currentIndex]);
      }
    }

    /** `_previous_url`: one step back modulo the length. On an empty list
        the modulo raises `ZeroDivisionError` (`None` here) before any
        change. */
    method PreviousUrl() returns (previous: Option<string>)
      requires Valid()
      modifies this`currentIndex
      ensures Valid()
      ensures previous.None? <==> urls == []
      ensures urls == [] ==> currentIndex == old(currentIndex)
      ensures urls != [] ==> currentIndex == WrapPrevious(old(currentIndex), |urls|)
      ensures previous.Some? ==> currentIndex < |urls| && previous.value == urls[currentIndex]
    {
      if |urls| == 0 {
        previous := None;
      } else {
        currentIndex := WrapPrevious(currentIndex, |urls|);
        previous := Some(urls[currentIndex]);
      }
    }

    /** `_update_clients`: advance and broadcast the new URL, but only when
        there are URLs and the show is not paused. */
    method UpdateClients() returns (sent: seq<Message>)
      requires Valid()
      modifies this`currentIndex
      ensures Valid()
      ensures urls == [] || paused ==> sent == [] && currentIndex == old(currentIndex)
      ensures urls != [] && !paused ==>
                currentIndex == WrapNext(old(currentIndex), |urls|) && sent == [UrlMessage(urls[currentIndex])]
    {
      sent := [];
      if urls != [] && !paused {
        var next := NextUrl();
        sent := [UrlMessage(next.value)];
      }
    }

    /** `_register`: only adds the viewer; nothing is sent to it. */
    method Register(client: ClientId)
      modifies this`clients
      ensures clients == old(clients) + {client}
    {
      clients := clients + {client};
    }

    /** `_unregister`: `set.remove` raises `KeyError` (`ok` false) for a
        viewer that is not registered. */
    method Unregister(client: ClientId) returns (ok: bool)
      modifies this`clients
      ensures ok <==> client in old(clients)
      ensures clients == old(clients) - {client}
    {
      ok := client in clients;
      clients := clients - {client};
    }

    /** One pass of the dispatch in `websocket_handler`: navigation
        broadcasts the new URL; pause, play and speed set their field
        unconditionally and broadcast nothing. A command that raises yields
        `Closed`, and the handler's `finally` unregisters the viewer. */
    method HandleMessage(client: ClientId, action: Action) returns (reply: Reply)
      requires Valid()
      modifies this`currentIndex, this`paused, this`imageSpeed, this`clients
      ensures Valid()
      ensures Handled(old(Snapshot()), client, action, reply, Snapshot())
    {
      match action
      case Next =>
        var next := NextUrl();
        if next.Some? {
          reply := Broadcast([UrlMessage(next.value)]);
        } else {
          var _ := Unregister(client);
          reply := Closed;
        }
      case Previous =>
        var previous := PreviousUrl();
        if previous.Some? {
          reply := Broadcast([UrlMessage(previous.value)]);
        } else {
          var _ := Unregister(client);
          reply := Closed;
        }
      case Pause =>
        paused := true;
        reply := Broadcast([]);
      case Play =>
        paused := false;
        reply := Broadcast([]);
      case SetSpeed(value) =>
        imageSpeed := value;
        reply := Broadcast([]);
      case Unrecognised(_) =>
        reply := Broadcast([]);
    }

    /** `websocket_handler` for one connection: register, handle the
        viewer's commands in order until one raises, then unregister. */
    method Session(client: ClientId, actions: seq<Action>) returns (replies: seq<Reply>, ghost states: seq<State>)
      requires Valid()
      modifies this`currentIndex, this`paused, this`imageSpeed, this`clients
      ensures Valid()
      // `states[0]` is the state after registration, `states[i + 1]` the
      // state after the i-th command
      ensures |replies| <= |actions| && |states| == |replies| + 1
      ensures states[0] == old(Snapshot()).(clients := old(clients) + {client})
      // each reply answers its command as `HandleMessage` does, in order,
      // and only the last one may close the session
      ensures forall i :: 0 <= i < |replies| ==> Handled(states[i], client, actions[i], replies[i], states[i + 1])
      ensures forall i :: 0 <= i < |replies| - 1 ==> replies[i].Broadcast?
      ensures |replies| == |actions| || (replies != [] && replies[|replies| - 1] == Closed)
      // at the end the viewer is removed and nothing else changes
      ensures Snapshot() == states[|replies|].(clients := old(clients) - {client})
    {
      Register(client);
      replies, states := Serve(client, actions);
      if replies == [] || replies[|replies| - 1] != Closed {
        var _ := Unregister(client);
      }
    }

    /** The `async for` loop of `websocket_handler`: handle the viewer's
        commands in order until one raises and closes the session. */
    method Serve(client: ClientId, actions: seq<Action>) returns (replies: seq<Reply>, ghost states: seq<State>)
      requires Valid()
      modifies this`currentIndex, this`paused, this`imageSpeed, this`clients
      ensures Valid()
      ensures |replies| <= |actions| && |states| == |replies| + 1
      ensures states[0] == old(Snapshot()) && Snapshot() == states[|replies|]
      ensures forall i :: 0 <= i < |replies| ==> Handled(states[i], client, actions[i], replies[i], states[i + 1])
      ensures forall i :: 0 <= i < |replies| - 1 ==> replies[i].Broadcast?
      ensures |replies| == |actions| || (replies != [] && replies[|replies| - 1] == Closed)
      // the command that closes the session removes the viewer; until then
      // the viewers stay as they were
      ensures replies != [] && replies[|replies| - 1] == Closed ==> clients == old(clients) - {client}
      ensures replies == [] || replies[|replies| - 1] != Closed ==> clients == old(clients)
    {
      replies, states := [], [Snapshot()];
      var closed := false;
      var i := 0;
      while i < |actions| && !closed
        invariant Valid()
        invariant 0 <= i <= |actions| && |replies| == i && |states| == i + 1
        invariant states[0] == old(Snapshot()) && Snapshot() == states[i]
        invariant forall j :: 0 <= j < i ==> Handled(states[j], client, actions[j], replies[j], states[j + 1])
        invariant forall j :: 0 <= j < i - 1 ==> replies[j].Broadcast?
        invariant closed <==> replies != [] && replies[i - 1] == Closed
        invariant !closed ==> clients == old(clients)
        invariant closed ==> clients == old(clients) - {client}
      {
        var reply := HandleMessage(client, actions[i]);
        replies := replies + [reply];
        states := states + [Snapshot()];
        closed := reply == Closed;
        i := i + 1;
      }
    }

    /** Stepping forward then back from inside the list restores the
        displayed position; the list is never touched. */
    method NextThenPrevious() returns (forth: Option<string>, back: Option<string>)
      requires Valid() && currentIndex < |urls|
      modifies this`currentIndex
      ensures currentIndex == old(currentIndex)
      ensures back == Some(urls[currentIndex])
    {
      ghost var i := currentIndex;
      forth := NextUrl();
      back := PreviousUrl();
      WrapInverse(i, |urls|);
    }

    /** Stepping back then forward from inside the list restores the
        displayed position. */
    method PreviousThenNext() returns (back: Option<string>, forth: Option<string>)
      requires Valid() && currentIndex < |urls|
      modifies this`currentIndex
      ensures currentIndex == old(currentIndex)
      ensures forth == Some(urls[currentIndex])
    {
      ghost var i := currentIndex;
      back := PreviousUrl();
      forth := NextUrl();
      WrapInverse(i, |urls|);
    }
  }
}
