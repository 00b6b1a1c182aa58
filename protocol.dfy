/** The values the slideshow server exchanges with its viewers: inbound
    commands, outbound JSON messages, and what handling one command leads to.
    Shared by the three variants of the `Slideshow` class. */
module Protocol {

  /** Python's `None` or a value. */
  datatype Option<T> = None | Some(value: T)

  /** A connected websocket, identified by a number. */
  type ClientId = nat

  /** One inbound viewer command: the `action` field of the JSON message,
      and for `speed` the `value` field after `float(...)`. */
  datatype Action =
    | Next
    | Previous
    | Pause
    | Play
    | SetSpeed(value: real)
    | Unrecognised(name: string)

  /** One outbound JSON message. */
  datatype Message =
    | UrlMessage(url: string)                            // {'url': u}
    | Package(url: string, contentType: Option<string>)  // {'url': u, 'content-type': t}
    | PauseNotice                                        // {'action': 'pause'}
    | PlayNotice                                         // {'action': 'play'}
    | SpeedNotice(speed: real)                           // {'action': 'speed', 'speed': s}
    | SourceNotice(source: string)                       // {'action': 'source', 'source': s}
    | TitleNotice(title: string)                         // {'action': 'title', 'title': t}

  /** What one inbound message leads to. */
  datatype Reply =
    | Broadcast(messages: seq<Message>)  // sent, in order, to every registered client
    | Closed                             // the handler raised; its `finally` unregistered the client
}
