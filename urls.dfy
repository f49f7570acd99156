/** The part of the `url` crate that the crawler relies on.

    The crate's parser and its relative resolution (`Url::join`) follow the
    WHATWG URL Standard; neither is modelled here. A `UrlLib` value carries
    the two entry points as plain functions, so every statement about the
    crawler holds for whatever they compute. Only the serialization round trip
    (`Lawful`) is assumed where the crawler depends on it. */
module Urls {

  datatype Option<+T> = None | Some(value: T)

  /** A parsed URL. `host` is absent for URLs such as `mailto:x@y`; `rest`
      stands for everything the serialization puts between the host and the
      fragment (port, path, query). */
  datatype Url = Url(scheme: string, host: Option<string>, rest: string, fragment: Option<string>)

  /** `Url::to_string` (and `Url::as_str`): the serialization of a URL. */
  function ToString(u: Url): string
  {
    u.scheme + ":"
    + (if u.host.Some? then "//" + u.host.value else "")
    + u.rest
    + (if u.fragment.Some? then "#" + u.fragment.value else "")
  }

  /** `Url::parse(s)` and `base.join(s)`; `None` is the crate's `Err`. */
  datatype UrlLib = UrlLib(parse: string -> Option<Url>, join: (Url, string) -> Option<Url>)

  /** `u` serializes to a string that parses back to `u`. */
  ghost predicate Reparses(lib: UrlLib, u: Url)
  {
    lib.parse(ToString(u)) == Some(u)
  }

  /** Whatever `parse` returns for `s` serializes back to itself, with or
      without its fragment. */
  ghost predicate ParseReparses(lib: UrlLib, s: string)
  {
    lib.parse(s).Some? ==>
      Reparses(lib, lib.parse(s).value) && Reparses(lib, lib.parse(s).value.(fragment := None))
  }

  /** Whatever `join` returns for `base` and `s` serializes back to itself
      once its fragment is removed. */
  ghost predicate JoinReparses(lib: UrlLib, base: Url, s: string)
  {
    lib.join(base, s).Some? ==> Reparses(lib, lib.join(base, s).value.(fragment := None))
  }

  /** The serialization round trip the URL Standard guarantees, for every URL
      that `parse` or `join` produces. */
  ghost predicate Lawful(lib: UrlLib)
  {
    && (forall s :: ParseReparses(lib, s))
    && (forall base, s :: JoinReparses(lib, base, s))
  }
}
