/**
 * A URL as the model needs it: the part before the path (scheme, host, port),
 * the path, and the part after it (query and fragment, each with its delimiter).
 * Parsing and percent-encoding are not modelled.
 */
module Urls {

  datatype Url = Url(origin: string, path: string, tail: string)

  /** The URL's string form. */
  function Serialize(u: Url): string {
    u.origin + u.path + u.tail
  }

  /** `Url::set_path`: replaces the path and keeps everything else. */
  function SetPath(u: Url, path: string): (r: Url)
    ensures r.origin == u.origin && r.tail == u.tail && r.path == path
    ensures Serialize(r) == u.origin + path + u.tail
  {
    u.(path := path)
  }
}
