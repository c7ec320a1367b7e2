/** `resolveUrl`, which the post page and the post card both use to turn a stored image
    path into the address the browser loads. */
module MediaUrl {
  import opened Wrappers
  import opened Strings

  const DefaultBase := "http://127.0.0.1:8000"

  /** `import.meta.env.VITE_API_URL || "http://127.0.0.1:8000"` */
  function Base(envBase: Option<string>): string
  {
    if envBase.Some? && envBase.value != "" then envBase.value else DefaultBase
  }

  /** `resolveUrl(path)`: no address for an empty path, an `http…` path as it is, otherwise
      the base joined to the path by one `/`. */
  function ResolveUrl(path: Option<string>, envBase: Option<string>): Option<string>
  {
    if path.None? || path.value == "" then None
    else if StartsWith(path.value, "http") then path
    else Some(Base(envBase) + (if StartsWith(path.value, "/") then path.value else "/" + path.value))
  }

  /** An empty or missing path gives no address; a path starting with `http` is kept; any
      other one becomes the base, one `/`, and the path without its own leading `/`. */
  lemma ResolveUrlSpec(path: Option<string>, envBase: Option<string>)
    ensures ResolveUrl(path, envBase).None? <==> path.None? || path.value == ""
    ensures path.Some? && StartsWith(path.value, "http") ==> ResolveUrl(path, envBase) == path
    ensures path.Some? && path.value != "" && !StartsWith(path.value, "http") ==>
              var r := ResolveUrl(path, envBase).value;
              var b := Base(envBase);
              var rest := if path.value[0] == '/' then path.value[1..] else path.value;
              r == b + "/" + rest
  {
    if path.Some? && path.value != "" && !StartsWith(path.value, "http") && path.value[0] == '/' {
      assert path.value == "/" + path.value[1..];
    }
  }

  /** With a base of the `http` kind (the default is one), resolving a resolved address
      changes nothing more. */
  lemma ResolveUrlIdempotent(path: Option<string>, envBase: Option<string>)
    requires StartsWith(Base(envBase), "http")
    ensures ResolveUrl(ResolveUrl(path, envBase), envBase) == ResolveUrl(path, envBase)
  {
    var r := ResolveUrl(path, envBase);
    if r.Some? && !StartsWith(path.value, "http") {
      var b := Base(envBase);
      var tail := if StartsWith(path.value, "/") then path.value else "/" + path.value;
      assert r.value[..4] == (b + tail)[..4] == b[..4];
    }
  }

  lemma DefaultBaseIsHttp()
    ensures StartsWith(DefaultBase, "http")
  {
  }
}
