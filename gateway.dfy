/**
 * The request handler `fetch`: basic authentication against `USER_`
 * entries, the object key from the URL path, and GET/PUT on the bucket, with
 * the `LAST_USED_` timestamp refreshed on every successful GET or PUT.
 */
module Gateway {
  import opened Wrappers
  import opened JsStrings
  import opened JsNumbers
  import opened Stores

  /** What `fetch` reads of a request. */
  datatype Request = Request(
    verb: string,                 // `request.method`
    authorization: Option<string>,  // `request.headers.get("Authorization")`
    pathname: string,               // `new URL(request.url).pathname`
    body: Option<Blob>)             // `request.body`, `None` for `null`

  datatype Body = Text(text: string) | Object(data: Blob)

  datatype Response = Response(status: int, body: Body, allow: Option<string>)

  /** `fetch` either returns a response or throws (from `atob`). */
  datatype Outcome = Returned(response: Response) | Threw

  /** The outcome of one request and the stores after it. */
  datatype Handled = Handled(outcome: Outcome, kv: KvStore, bucket: BucketStore)

  const BasicScheme: string := "Basic "

  /** `authHeader.split(" ")[1]`, for a header that starts with `"Basic "`. */
  function EncodedCredentials(header: string): string
    requires StartsWith(header, BasicScheme)
  {
    assert header[5] == ' ';
    Split(header, ' ')[1]
  }

  /**
   * `const [username, password] = decoded.split(":")`: the first two fields;
   * the password is `undefined` (`None`) when there is no `:`.
   */
  function Credentials(decoded: string): (string, Option<string>) {
    var fields := Split(decoded, ':');
    (fields[0], if |fields| >= 2 then Some(fields[1]) else None)
  }

  /** `pathname.slice(1)`: the path without its leading `/`. */
  function ObjectKey(pathname: string): string {
    DropFirst(pathname)
  }

  function Reply(status: int, text: string, kv: KvStore, bucket: BucketStore): Handled {
    Handled(Returned(Response(status, Text(text), None)), kv, bucket)
  }

  /** The handled request answered `status` (it did not throw). */
  predicate Answered(h: Handled, status: int) {
    h.outcome.Returned? && h.outcome.response.status == status
  }

  /**
   * One request against the stores `kv` and `bucket` at time `now`;
   * `bucketBound` says whether `BUCKET` is bound, `atob` decodes base64
   * (`None` where it throws).
   */
  function Fetch(req: Request, now: int, kv: KvStore, bucket: BucketStore, bucketBound: bool,
                 atob: string -> Option<string>): (h: Handled)
    // a thrown exception changes nothing
    ensures h.outcome.Threw? ==> h.kv == kv && h.bucket == bucket
    // every response is one of the six statuses the handler uses
    ensures h.outcome.Returned? ==> h.outcome.response.status in {200, 400, 401, 404, 405, 500}
    // the stores change only on success ...
    ensures h.kv != kv || h.bucket != bucket ==> Answered(h, 200)
    // ... the bucket only by a PUT of the request body under the object key ...
    ensures h.bucket == bucket ||
            (req.verb == "PUT" && req.body.Some? &&
             h.bucket == bucket[ObjectKey(req.pathname) := req.body.value])
    // ... and KV only at the object's timestamp entry, which is set to `now`
    ensures h.kv == kv || h.kv == kv[TimestampName(ObjectKey(req.pathname)) := IntToString(now)]
  {
    if req.authorization.None? || !StartsWith(req.authorization.value, BasicScheme) then
      Reply(401, "Unauthorized", kv, bucket)
    else
      var decoded := atob(EncodedCredentials(req.authorization.value));
      if decoded.None? then Handled(Threw, kv, bucket)
      else
        var (username, password) := Credentials(decoded.value);
        var userEntry := UserPrefix + username;
        if userEntry !in kv || password.None? || kv[userEntry] != password.value then
          Reply(401, "Unauthorized", kv, bucket)
        else if !bucketBound then
          Reply(500, "R2 bucket \"BUCKET\" not bound.", kv, bucket)
        else
          var key := ObjectKey(req.pathname);
          if key == "" then
            Reply(400, "A key in the URL path is required. e.g., /my-object-key", kv, bucket)
          else if req.verb == "GET" then
            if key !in bucket then
              Reply(404, "Object with key \"" + key + "\" not found.", kv, bucket)
            else
              var kv' := kv[TimestampName(key) := IntToString(now)];
              Handled(Returned(Response(200, Object(bucket[key]), None)), kv', bucket)
          else if req.verb == "PUT" then
            if req.body.None? then
              Reply(400, "Request body is required for PUT.", kv, bucket)
            else
              var bucket' := bucket[key := req.body.value];
              var kv' := kv[TimestampName(key) := IntToString(now)];
              Reply(200, "Object with key \"" + key + "\" stored successfully.", kv', bucket')
          else
            Handled(Returned(Response(405, Text("Method Not Allowed"), Some("GET, PUT"))), kv, bucket)
  }

  // ---------------------------------------------------------------------
  // The string logic of the credential check

  /** `authHeader.split(" ")[1]` is the text after `"Basic "` up to the next space. */
  lemma EncodedCredentialsOf(token: string, tail: string)
    requires ' ' !in token
    requires tail == [] || tail[0] == ' '
    ensures StartsWith(BasicScheme + token + tail, BasicScheme)
    ensures EncodedCredentials(BasicScheme + token + tail) == token
  {
    assert BasicScheme + token + tail == "Basic" + [' '] + token + tail;
    SplitSecondField("Basic", token, tail, ' ');
  }

  /**
   * The username is the text before the first `:` and the password the text
   * up to the second one: whatever follows a second `:` is ignored.
   */
  lemma CredentialsOf(user: string, pass: string, tail: string)
    requires ':' !in user && ':' !in pass
    requires tail == [] || tail[0] == ':'
    ensures Credentials(user + ":" + pass + tail) == (user, Some(pass))
  {
    SplitSecondField(user, pass, tail, ':');
    assert user + ":" + pass + tail == user + ([':'] + pass + tail);
    SplitFirstField(user, [':'] + pass + tail, ':');
  }

  /** Without a `:` the password is `undefined`. */
  lemma CredentialsWithoutColon(user: string)
    requires ':' !in user
    ensures Credentials(user) == (user, None)
  {
    SplitCons(user, "", ':');
    assert user + "" == user;
  }

  // ---------------------------------------------------------------------
  // The paths through `fetch`

  /** No `Authorization` header, or one without the `Basic ` scheme: 401, nothing written. */
  lemma FetchWithoutBasicScheme(req: Request, now: int, kv: KvStore, bucket: BucketStore,
                                bucketBound: bool, atob: string -> Option<string>)
    requires req.authorization.None? || !StartsWith(req.authorization.value, BasicScheme)
    ensures var h := Fetch(req, now, kv, bucket, bucketBound, atob);
            Answered(h, 401) && h.kv == kv && h.bucket == bucket
  {
  }

  /** Credentials that are not base64: `atob` throws and nothing is written. */
  lemma FetchUndecodable(req: Request, now: int, kv: KvStore, bucket: BucketStore,
                         bucketBound: bool, atob: string -> Option<string>, token: string, tail: string)
    requires req.authorization == Some(BasicScheme + token + tail)
    requires ' ' !in token && (tail == [] || tail[0] == ' ')
    requires atob(token) == None
    ensures var h := Fetch(req, now, kv, bucket, bucketBound, atob);
            h.outcome == Threw && h.kv == kv && h.bucket == bucket
  {
    EncodedCredentialsOf(token, tail);
  }

  /**
   * A request whose credentials decode to `user:pass…` gets past the
   * credential check exactly when KV holds `USER_<user>` with value `pass`;
   * otherwise it is answered 401 and nothing is written.
   */
  lemma FetchAuthenticates(req: Request, now: int, kv: KvStore, bucket: BucketStore,
                           bucketBound: bool, atob: string -> Option<string>,
                           token: string, tail: string, user: string, pass: string, more: string)
    requires req.authorization == Some(BasicScheme + token + tail)
    requires ' ' !in token && (tail == [] || tail[0] == ' ')
    requires atob(token) == Some(user + ":" + pass + more)
    requires ':' !in user && ':' !in pass && (more == [] || more[0] == ':')
    ensures var h := Fetch(req, now, kv, bucket, bucketBound, atob);
            Answered(h, 401) <==> !(UserPrefix + user in kv && kv[UserPrefix + user] == pass)
    ensures var h := Fetch(req, now, kv, bucket, bucketBound, atob);
            Answered(h, 401) ==> h.kv == kv && h.bucket == bucket
  {
    EncodedCredentialsOf(token, tail);
    CredentialsOf(user, pass, more);
  }

  /** Decoded credentials without a `:` never authenticate. */
  lemma FetchWithoutPassword(req: Request, now: int, kv: KvStore, bucket: BucketStore,
                             bucketBound: bool, atob: string -> Option<string>,
                             token: string, tail: string, user: string)
    requires req.authorization == Some(BasicScheme + token + tail)
    requires ' ' !in token && (tail == [] || tail[0] == ' ')
    requires atob(token) == Some(user) && ':' !in user
    ensures var h := Fetch(req, now, kv, bucket, bucketBound, atob);
            Answered(h, 401) && h.kv == kv && h.bucket == bucket
  {
    EncodedCredentialsOf(token, tail);
    CredentialsWithoutColon(user);
  }

  /**
   * The request carries `Basic <token>`, possibly followed by more
   * space-separated words, and `token` decodes to `user:pass`, possibly
   * followed by more `:`-separated fields, where `pass` is the password KV
   * holds for `user`: the requests the credential check lets through.
   */
  predicate SignedIn(req: Request, kv: KvStore, atob: string -> Option<string>,
                     token: string, tail: string, user: string, pass: string, more: string)
  {
    req.authorization == Some(BasicScheme + token + tail) &&
    ' ' !in token && (tail == [] || tail[0] == ' ') &&
    atob(token) == Some(user + ":" + pass + more) &&
    ':' !in user && ':' !in pass && (more == [] || more[0] == ':') &&
    UserPrefix + user in kv && kv[UserPrefix + user] == pass
  }

  lemma SignedInPasses(req: Request, kv: KvStore, atob: string -> Option<string>,
                       token: string, tail: string, user: string, pass: string, more: string)
    requires SignedIn(req, kv, atob, token, tail, user, pass, more)
    ensures StartsWith(req.authorization.value, BasicScheme)
    ensures atob(EncodedCredentials(req.authorization.value)) == Some(user + ":" + pass + more)
    ensures Credentials(user + ":" + pass + more) == (user, Some(pass))
  {
    EncodedCredentialsOf(token, tail);
    CredentialsOf(user, pass, more);
  }

  /** An authenticated request while `BUCKET` is unbound: 500, nothing written. */
  lemma FetchUnbound(req: Request, now: int, kv: KvStore, bucket: BucketStore,
                     atob: string -> Option<string>,
                     token: string, tail: string, user: string, pass: string, more: string)
    requires SignedIn(req, kv, atob, token, tail, user, pass, more)
    ensures var h := Fetch(req, now, kv, bucket, false, atob);
            Answered(h, 500) && h.kv == kv && h.bucket == bucket
  {
    SignedInPasses(req, kv, atob, token, tail, user, pass, more);
  }

  /** A path with nothing after the leading `/`: 400, before either store is touched. */
  lemma FetchWithoutKey(req: Request, now: int, kv: KvStore, bucket: BucketStore,
                        atob: string -> Option<string>,
                        token: string, tail: string, user: string, pass: string, more: string)
    requires SignedIn(req, kv, atob, token, tail, user, pass, more)
    requires |req.pathname| <= 1
    ensures var h := Fetch(req, now, kv, bucket, true, atob);
            Answered(h, 400) && h.kv == kv && h.bucket == bucket
  {
    SignedInPasses(req, kv, atob, token, tail, user, pass, more);
  }

  /**
   * GET `/<key>`: 404 with nothing written when the bucket has no such
   * object; otherwise the stored object, with its `LAST_USED_` entry set to
   * `now` and the bucket unchanged.
   */
  lemma FetchGet(req: Request, now: int, kv: KvStore, bucket: BucketStore,
                 atob: string -> Option<string>,
                 token: string, tail: string, user: string, pass: string, more: string, key: string)
    requires SignedIn(req, kv, atob, token, tail, user, pass, more)
    requires req.pathname == "/" + key && key != "" && req.verb == "GET"
    ensures var h := Fetch(req, now, kv, bucket, true, atob);
            key !in bucket ==> Answered(h, 404) && h.kv == kv && h.bucket == bucket
    ensures var h := Fetch(req, now, kv, bucket, true, atob);
            key in bucket ==>
              h.outcome == Returned(Response(200, Object(bucket[key]), None)) &&
              h.kv == kv[LastUsedPrefix + key := IntToString(now)] && h.bucket == bucket
  {
    SignedInPasses(req, kv, atob, token, tail, user, pass, more);
    assert ObjectKey(req.pathname) == key;
  }

  /**
   * PUT `/<key>`: 400 with nothing written when there is no body; otherwise
   * 200, the bucket maps `key` to the body and the `LAST_USED_` entry is `now`.
   */
  lemma FetchPut(req: Request, now: int, kv: KvStore, bucket: BucketStore,
                 atob: string -> Option<string>,
                 token: string, tail: string, user: string, pass: string, more: string, key: string)
    requires SignedIn(req, kv, atob, token, tail, user, pass, more)
    requires req.pathname == "/" + key && key != "" && req.verb == "PUT"
    ensures var h := Fetch(req, now, kv, bucket, true, atob);
            req.body.None? ==> Answered(h, 400) && h.kv == kv && h.bucket == bucket
    ensures var h := Fetch(req, now, kv, bucket, true, atob);
            req.body.Some? ==>
              Answered(h, 200) && h.bucket == bucket[key := req.body.value] &&
              h.kv == kv[LastUsedPrefix + key := IntToString(now)]
  {
    SignedInPasses(req, kv, atob, token, tail, user, pass, more);
    assert ObjectKey(req.pathname) == key;
  }

  /** Any other method: 405 with `Allow: GET, PUT`, nothing written. */
  lemma FetchOtherMethod(req: Request, now: int, kv: KvStore, bucket: BucketStore,
                         atob: string -> Option<string>,
                         token: string, tail: string, user: string, pass: string, more: string)
    requires SignedIn(req, kv, atob, token, tail, user, pass, more)
    requires |req.pathname| > 1 && req.verb != "GET" && req.verb != "PUT"
    ensures var h := Fetch(req, now, kv, bucket, true, atob);
            h.outcome == Returned(Response(405, Text("Method Not Allowed"), Some("GET, PUT"))) &&
            h.kv == kv && h.bucket == bucket
  {
    SignedInPasses(req, kv, atob, token, tail, user, pass, more);
  }

  /**
   * A stored password that contains `:` never matches: the decoded
   * credentials are cut at every `:`, so every request naming that user is
   * answered 401 (or throws, when `atob` rejects it) and nothing is written.
   */
  lemma FetchColonPassword(req: Request, now: int, kv: KvStore, bucket: BucketStore,
                           bucketBound: bool, atob: string -> Option<string>,
                           token: string, tail: string, decoded: string)
    requires req.authorization == Some(BasicScheme + token + tail)
    requires ' ' !in token && (tail == [] || tail[0] == ' ')
    requires atob(token) == Some(decoded)
    requires UserPrefix + Credentials(decoded).0 in kv && ':' in kv[UserPrefix + Credentials(decoded).0]
    ensures var h := Fetch(req, now, kv, bucket, bucketBound, atob);
            Answered(h, 401) && h.kv == kv && h.bucket == bucket
  {
    EncodedCredentialsOf(token, tail);
  }

  /**
   * No request deletes anything, and no request changes a `USER_` entry:
   * the credentials are read-only for the handler.
   */
  lemma FetchKeepsCredentials(req: Request, now: int, kv: KvStore, bucket: BucketStore,
                              bucketBound: bool, atob: string -> Option<string>, name: string)
    requires StartsWith(name, UserPrefix)
    ensures var h := Fetch(req, now, kv, bucket, bucketBound, atob);
            kv.Keys <= h.kv.Keys && bucket.Keys <= h.bucket.Keys &&
            (name in h.kv <==> name in kv) && (name in kv ==> h.kv[name] == kv[name])
  {
    var ts := TimestampName(ObjectKey(req.pathname));
    assert ts[0] == 'L' && name[0] == 'U';
    assert name != ts;
  }
}
