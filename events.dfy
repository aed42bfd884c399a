/**
 A window-focus event as the activity tracker reports it, and the defaults the
 aggregator applies when a field is absent.

 An event is a JSON object: its `data` member is itself an object whose `app`
 and `title` entries name the focused window, and its `duration` member is the
 number of seconds the window held focus. Any of these may be missing.
 */
module Events {

  datatype Option<+T> = None | Some(value: T)

  /** One event record; `None` marks a member the record does not carry. */
  datatype Event = Event(data: Option<map<string, string>>, duration: Option<real>)

  /** The name used for a missing `app` or `title` entry. */
  const Unknown: string := "Unknown"

  /** The `data` object, or the empty object when the event has none. */
  function Data(e: Event): map<string, string>
  {
    match e.data
    case None => map[]
    case Some(d) => d
  }

  /** Looks up `key` in `d`, falling back to `Unknown`. */
  function Lookup(d: map<string, string>, key: string): string
  {
    if key in d then d[key] else Unknown
  }

  /** The application an event is attributed to. */
  function AppName(e: Event): string
  {
    Lookup(Data(e), "app")
  }

  /** The window title an event records. */
  function Title(e: Event): string
  {
    Lookup(Data(e), "title")
  }

  /** The event's duration in seconds; a missing duration counts as 0. */
  function Duration(e: Event): real
  {
    match e.duration
    case None => 0.0
    case Some(d) => d
  }
}
