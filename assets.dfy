/** Asset URL resolution: a path under the public folder is turned into an
    absolute URL by forcing a leading "/" and putting the application's base
    URL in front of it.  The base URL depends on where the code runs, which is
    passed in here as a `Runtime` instead of being read from globals. */
module Assets {
  import opened Wrappers

  /** What the base URL choice can observe: the origin of the page when a
      browser window exists, and the `VERCEL_URL` environment variable when it
      is set. */
  datatype Runtime = Runtime(windowOrigin: Option<string>, vercelUrl: Option<string>)

  const SecureScheme: string := "https://"
  const LocalOrigin: string := "http://localhost:3000"

  /** A JavaScript string is truthy when it is set and not empty. */
  predicate Truthy(v: Option<string>)
  {
    v.Some? && v.value != ""
  }

  predicate StartsWithSlash(s: string)
  {
    |s| > 0 && s[0] == '/'
  }

  predicate IsSuffix(suffix: string, s: string)
  {
    |suffix| <= |s| && s[|s| - |suffix|..] == suffix
  }

  /** The base URL: in a browser the page's origin; on a server the
      deployment host over https when `VERCEL_URL` is truthy; otherwise the
      local development server. */
  function BaseUrl(rt: Runtime): (url: string)
    ensures rt.windowOrigin.Some? ==> url == rt.windowOrigin.value
    ensures rt.windowOrigin.None? && Truthy(rt.vercelUrl) ==>
              SecureScheme <= url && url[|SecureScheme|..] == rt.vercelUrl.value
    ensures rt.windowOrigin.None? && !Truthy(rt.vercelUrl) ==> url == LocalOrigin
  {
    if rt.windowOrigin.Some? then rt.windowOrigin.value
    else if Truthy(rt.vercelUrl) then SecureScheme + rt.vercelUrl.value
    else LocalOrigin
  }

  /** In a browser the environment variable plays no part. */
  lemma BrowserIgnoresVercelUrl(origin: string, v1: Option<string>, v2: Option<string>)
    ensures BaseUrl(Runtime(Some(origin), v1)) == BaseUrl(Runtime(Some(origin), v2)) == origin
  {
  }

  /** An empty `VERCEL_URL` is falsy: it behaves as if it were not set. */
  lemma EmptyVercelUrlIsUnset()
    ensures BaseUrl(Runtime(None, Some(""))) == BaseUrl(Runtime(None, None)) == LocalOrigin
  {
  }

  /** On a server the base URL is always an absolute http(s) URL. */
  lemma ServerBaseIsAbsolute(v: Option<string>)
    ensures var url := BaseUrl(Runtime(None, v));
            SecureScheme <= url || "http://" <= url
  {
  }

  /** The path with a leading "/" forced: a path that has one is kept as it
      is (even "//a": slashes are not collapsed), any other gets exactly one
      in front ("" becomes "/"). */
  function NormalizePath(path: string): (p: string)
    ensures StartsWithSlash(p)
    ensures IsSuffix(path, p) && |p| <= |path| + 1
    ensures StartsWithSlash(path) <==> p == path
  {
    if StartsWithSlash(path) then path else "/" + path
  }

  /** The normalised path is the shortest string that starts with "/" and
      ends with the given path, and the only one of its length. */
  lemma {:induction false} NormalizePathShortest(path: string, s: string)
    requires StartsWithSlash(s) && IsSuffix(path, s)
    ensures |NormalizePath(path)| <= |s|
    ensures |s| == |NormalizePath(path)| ==> s == NormalizePath(path)
  {
    if !StartsWithSlash(path) && |s| == |path| + 1 {
      assert s[1..] == path;
      assert s == [s[0]] + s[1..];
    }
  }

  /** Normalising twice is normalising once. */
  lemma NormalizePathIdempotent(path: string)
    ensures NormalizePath(NormalizePath(path)) == NormalizePath(path)
  {
  }

  /** The full URL of an asset: the base URL followed by the normalised path,
      so the base URL is a prefix, the given path a suffix, and exactly one
      "/" may come between them. */
  function AssetUrl(rt: Runtime, path: string): (url: string)
    ensures BaseUrl(rt) <= url
    ensures url[|BaseUrl(rt)|..] == NormalizePath(path)
    ensures url[|BaseUrl(rt)|] == '/'
    ensures IsSuffix(path, url)
    ensures |BaseUrl(rt)| + |path| <= |url| <= |BaseUrl(rt)| + |path| + 1
  {
    var base := BaseUrl(rt);
    var p := NormalizePath(path);
    var url := base + p;
    assert url[|base|..] == p;
    assert url[|url| - |path|..] == p[|p| - |path|..];
    url
  }

  /** Two paths resolve to the same URL exactly when they normalise to the
      same path: the only paths that collide are "x" and "/x". */
  lemma {:induction false} AssetUrlSameIff(rt: Runtime, p1: string, p2: string)
    ensures AssetUrl(rt, p1) == AssetUrl(rt, p2) <==> NormalizePath(p1) == NormalizePath(p2)
  {
    var n := |BaseUrl(rt)|;
    if AssetUrl(rt, p1) == AssetUrl(rt, p2) {
      assert NormalizePath(p1) == AssetUrl(rt, p1)[n..] == AssetUrl(rt, p2)[n..] == NormalizePath(p2);
    }
  }

  /** Resolving an already normalised path gives the same URL. */
  lemma AssetUrlOfNormalized(rt: Runtime, path: string)
    ensures AssetUrl(rt, NormalizePath(path)) == AssetUrl(rt, path)
  {
    NormalizePathIdempotent(path);
    AssetUrlSameIff(rt, NormalizePath(path), path);
  }

  /** A relative model path, resolved on a server without `VERCEL_URL`. */
  lemma LocalModelUrl()
    ensures AssetUrl(Runtime(None, None), "assets/earth/earth.gltf")
         == "http://localhost:3000/assets/earth/earth.gltf"
    ensures NormalizePath("//a") == "//a"
    ensures NormalizePath("") == "/"
  {
  }
}
