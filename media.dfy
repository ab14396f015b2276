/** The object-storage side of the server: the upload credential, the
    fire-and-forget delete of a sound's stored file, and the playback proxy.
    The storage SDK and the upstream connection are not modelled; the
    functions here decide what is asked of them and what the client gets. */
module Media {
  import opened Api
  import opened Strings

  /** The four storage settings read from the environment; `None` when the
      variable is unset. */
  datatype StorageConfig = StorageConfig(
    accessKey: Option<string>,
    secretKey: Option<string>,
    bucket: Option<string>,
    domain: Option<string>)

  /** Upload credentials are valid for one hour. */
  const UPLOAD_TOKEN_EXPIRES: nat := 3600

  /** The put policy the upload token is signed over. */
  datatype PutPolicy = PutPolicy(scope: string, expires: nat)

  /** The reply body of `GET /api/upload-token`: the token (a policy signed
      with the secret key, carrying the access key), the public domain and
      the size limit. */
  datatype UploadGrant = UploadGrant(
    policy: PutPolicy,
    accessKey: string,
    domain: string,
    maxSize: nat)

  /** `GET /api/upload-token`: 500 when any of the four settings is unset,
      whichever it is; otherwise a one-hour policy scoped to the bucket, and
      the 5 MB limit. */
  function UploadToken(cfg: StorageConfig): (r: Outcome<UploadGrant>)
    ensures r.Fail? <==>
      !Present(cfg.accessKey) || !Present(cfg.secretKey) || !Present(cfg.bucket) || !Present(cfg.domain)
    ensures r.Fail? ==> r.error == ServerMisconfigured && Status(r.error) == 500
    ensures r.Ok? ==>
      && r.value.policy == PutPolicy(cfg.bucket.value, UPLOAD_TOKEN_EXPIRES)
      && r.value.accessKey == cfg.accessKey.value
      && r.value.domain == cfg.domain.value
      && r.value.maxSize == MAX_FILE_SIZE
  {
    if !Present(cfg.accessKey) || !Present(cfg.secretKey) || !Present(cfg.bucket) || !Present(cfg.domain) then
      Fail(ServerMisconfigured)
    else
      Ok(UploadGrant(PutPolicy(cfg.bucket.value, UPLOAD_TOKEN_EXPIRES), cfg.accessKey.value,
                     cfg.domain.value, MAX_FILE_SIZE))
  }

  /** A request to delete one stored file, sent without waiting for its
      outcome; a failure is only logged. */
  datatype StorageDelete = StorageDelete(bucket: string, key: string)

  /** The storage key of a sound: `url.split('/').pop()`. It holds no '/',
      it ends the url, and it is the whole url or comes right after a '/'. */
  function StorageKey(url: string): (key: string)
    ensures '/' !in key
    ensures |key| <= |url| && key == url[|url| - |key|..]
    ensures |key| < |url| ==> url[|url| - |key| - 1] == '/'
  {
    LastSegment(url)
  }

  /** The delete a sound's removal asks of storage: issued only when the
      access key, secret key and bucket are set (the domain is not needed),
      for the key derived from the sound's url. */
  function DeleteRequest(cfg: StorageConfig, url: string): (r: Option<StorageDelete>)
    ensures r.Some? <==> Present(cfg.accessKey) && Present(cfg.secretKey) && Present(cfg.bucket)
    ensures r.Some? ==> r.value.bucket == cfg.bucket.value && r.value.key == StorageKey(url)
  {
    if Present(cfg.accessKey) && Present(cfg.secretKey) && Present(cfg.bucket) then
      Some(StorageDelete(cfg.bucket.value, StorageKey(url)))
    else None
  }

  /** A configuration that can issue upload tokens also deletes the stored
      file of a removed sound, into the same bucket uploads go to. */
  lemma UploadableImpliesDeletable(cfg: StorageConfig, url: string)
    requires UploadToken(cfg).Ok?
    ensures DeleteRequest(cfg, url).Some?
    ensures DeleteRequest(cfg, url).value.bucket == UploadToken(cfg).value.policy.scope
  {
  }

  // ---------------------------------------------------------------------
  // The playback proxy
  // ---------------------------------------------------------------------

  const PLAIN_SCHEME := "http://"
  const DEFAULT_CONTENT_TYPE := "audio/mpeg"
  const PROXY_CACHE_CONTROL := "public, max-age=31536000"

  /** What the upstream fetch produced: a response with its (possibly
      absent) Content-Type, or a connection error. */
  datatype Upstream = Connected(contentType: Option<string>) | ConnectFailed

  /** The proxy's reply. `Streamed` sends status 200 with the two headers
      and pipes the upstream body from `source`; the upstream's own status
      is not forwarded. */
  datatype ProxyReply =
    | MissingUrl
    | Redirect(location: string)
    | Streamed(source: string, contentType: string, cacheControl: string)
    | ProxyError

  /** The status code each proxy reply is sent with. */
  function ProxyStatus(r: ProxyReply): nat
  {
    match r
    case MissingUrl => 400
    case Redirect(_) => 302
    case Streamed(_, _, _) => 200
    case ProxyError => 500
  }

  /** `GET /api/proxy?url=…`: 400 without a url; a redirect to the url
      unchanged when it does not start with "http://"; otherwise the
      upstream body, typed as the upstream says or as audio/mpeg, cached
      publicly for a year; 500 when the upstream cannot be reached. */
  function Proxy(url: Option<string>, upstream: Upstream): (r: ProxyReply)
    ensures r == MissingUrl <==> !Present(url)
    ensures r.Redirect? <==> Present(url) && !StartsWith(url.value, PLAIN_SCHEME)
    ensures r.Redirect? ==> r.location == url.value
    ensures r == ProxyError <==>
      Present(url) && StartsWith(url.value, PLAIN_SCHEME) && upstream.ConnectFailed?
    ensures r.Streamed? ==>
      && r.source == url.value
      && r.cacheControl == PROXY_CACHE_CONTROL
      && (Present(upstream.contentType) ==> r.contentType == upstream.contentType.value)
      && (!Present(upstream.contentType) ==> r.contentType == DEFAULT_CONTENT_TYPE)
    ensures ProxyStatus(r) == 400 <==> !Present(url)
    ensures ProxyStatus(r) == 302 <==> Present(url) && !StartsWith(url.value, PLAIN_SCHEME)
    ensures ProxyStatus(r) == 500 <==>
      Present(url) && StartsWith(url.value, PLAIN_SCHEME) && upstream.ConnectFailed?
    ensures ProxyStatus(r) == 200 <==>
      Present(url) && StartsWith(url.value, PLAIN_SCHEME) && upstream.Connected?
  {
    if !Present(url) then MissingUrl
    else if !StartsWith(url.value, PLAIN_SCHEME) then Redirect(url.value)
    else
      match upstream
      case ConnectFailed => ProxyError
      case Connected(ct) =>
        Streamed(url.value, if Present(ct) then ct.value else DEFAULT_CONTENT_TYPE, PROXY_CACHE_CONTROL)
  }

  /** Only plain-transport urls are fetched by the server itself; the
      request never reaches the upstream for any other url. */
  lemma ProxyIgnoresUpstreamUnlessPlain(url: Option<string>, u1: Upstream, u2: Upstream)
    requires !Present(url) || !StartsWith(url.value, PLAIN_SCHEME)
    ensures Proxy(url, u1) == Proxy(url, u2)
  {
  }
}
