/** What both API classes share: the request a call issues, the transport outcome that
    stands for the network, the base URL clean-up and the header merge. */
module Http {
  import opened Wrappers
  import opened Strings
  import opened Json
  import opened Errors

  /** A response as `fetch` delivers it. `json` is what `response.json()` yields for `body`
      (`None` when it rejects); the JSON decoder itself is not modelled. */
  datatype Reply = Reply(
    status: nat,
    statusText: string,
    contentType: Option<string>,
    body: string,
    json: Option<Json>)

  /** The outcome of one `fetch`: it rejected, or a response arrived. */
  datatype Transport = Failed(rejection: Rejection) | Responded(reply: Reply)

  /** `response.ok`. */
  predicate IsOk(status: nat)
  {
    200 <= status <= 299
  }

  /** What is handed to `fetch`: the URL and the `RequestInit` fields the client sets. */
  datatype Request = Request(url: string, verb: string, headers: map<string, string>, body: Option<string>)

  /** `removeTrailingSlash`: drops one trailing "/" unless the URL is just "/". */
  function RemoveTrailingSlash(url: string): (r: string)
    ensures r == url || (r != [] && r + "/" == url)
    ensures r == url <==> url == "/" || !EndsWith(url, "/")
  {
    if EndsWith(url, "/") && |url| > 1 then url[..|url| - 1] else url
  }

  /** Applying the clean-up twice changes the result exactly when the URL ends in "//"
      after at least one other character: "a//" becomes "a/" and then "a". */
  lemma RemoveTrailingSlashTwice(url: string)
    ensures RemoveTrailingSlash(RemoveTrailingSlash(url)) != RemoveTrailingSlash(url)
            <==> |url| > 2 && EndsWith(url, "//")
  {
    var r := RemoveTrailingSlash(url);
    if |url| > 2 && EndsWith(url, "//") {
      assert r == url[..|url| - 1];
      assert EndsWith(r, "/") && |r| > 1;
    } else if r != url {
      assert r == url[..|url| - 1];
      assert !(EndsWith(r, "/") && |r| > 1);
    }
  }

  const AuthorizationHeader: string := "Authorization"

  /** The three headers every request starts from. */
  function BaseHeaders(key: string): map<string, string>
  {
    map["Accept" := "application/json",
        AuthorizationHeader := "Bearer " + key,
        "Content-Type" := "application/json"]
  }

  /** `{ ...base, ...custom }`: custom headers win on a shared key. Header names are
      compared exactly, as object keys are. */
  function MergeHeaders(base: map<string, string>, custom: Option<map<string, string>>): (h: map<string, string>)
    ensures h.Keys == base.Keys + custom.GetOr(map[]).Keys
    ensures forall k :: k in custom.GetOr(map[]) ==> h[k] == custom.GetOr(map[])[k]
    ensures forall k :: k in base && k !in custom.GetOr(map[]) ==> h[k] == base[k]
  {
    base + custom.GetOr(map[])
  }

  /** What the merge promises for the connection's own headers: all three are there, and
      each keeps its base value unless a custom header of that name replaces it. */
  lemma MergedHeadersCarryAuth(key: string, custom: Option<map<string, string>>)
    ensures var h := MergeHeaders(BaseHeaders(key), custom);
      && "Accept" in h && AuthorizationHeader in h && "Content-Type" in h
      && (AuthorizationHeader !in custom.GetOr(map[]) ==> h[AuthorizationHeader] == "Bearer " + key)
      && ("Accept" !in custom.GetOr(map[]) ==> h["Accept"] == "application/json")
      && ("Content-Type" !in custom.GetOr(map[]) ==> h["Content-Type"] == "application/json")
  {
  }
}
