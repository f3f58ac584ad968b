/**
 * Site URL normalisation (src/lib/config.ts). The three environment variables
 * `process.env.NEXT_PUBLIC_SITE_URL`, `NEXT_PUBLIC_VERCEL_URL` and
 * `NEXT_PUBLIC_VERCEL_BRANCH_URL` are parameters; an unset variable is `None`.
 */
module Config {
  import opened JsBuiltins

  const LocalUrl: string := "http://localhost:3000"

  /** `urlify`: keep a URL that already names a scheme starting with "http", otherwise
    * prefix "https://". */
  function Urlify(url: string): (r: string)
    ensures StartsWith(r, "http")
    ensures StartsWith(url, "http") ==> r == url
    ensures !StartsWith(url, "http") ==> r == "https://" + url
  {
    if StartsWith(url, "http") || StartsWith(url, "https") then url
    else "https://" + url
  }

  /** The second test of `urlify` adds nothing: a string starting with "https" starts with "http". */
  lemma HttpsIsHttp(url: string)
    requires StartsWith(url, "https")
    ensures StartsWith(url, "http")
  {
    assert url[..4] == url[..5][..4];
  }

  /** Urlifying twice is urlifying once. */
  lemma UrlifyIdempotent(url: string)
    ensures Urlify(Urlify(url)) == Urlify(url)
  {
  }

  /** `getServerUrl`: the first of the three variables that is set and non-empty, urlified,
    * or the local development URL when none is. */
  function GetServerUrl(siteUrl: Option<string>, vercelUrl: Option<string>,
                        branchUrl: Option<string>): (r: string)
    ensures StartsWith(r, "http")
    ensures Truthy(siteUrl) ==> r == Urlify(siteUrl.value)
    ensures !Truthy(siteUrl) && Truthy(vercelUrl) ==> r == Urlify(vercelUrl.value)
    ensures !Truthy(siteUrl) && !Truthy(vercelUrl) && Truthy(branchUrl) ==> r == Urlify(branchUrl.value)
    ensures !Truthy(siteUrl) && !Truthy(vercelUrl) && !Truthy(branchUrl) ==> r == LocalUrl
  {
    Urlify(Or(siteUrl, Or(vercelUrl, Or(branchUrl, LocalUrl))))
  }
}
