# SSLMjpeg: configuration, request shaping and decoder dispatch

This project models the core of `SSLMjpeg`, the client that opens a TLS
connection to an MJPEG camera stream. A client has:

- a decoder type, DEFAULT or NATIVE. The type is fixed at construction, and a null type is refused.
- a flag that adds a `Connection: close` request header. The flag starts off and can only be turned on.
- access to two pieces of process-wide state: the static cookie store and the default `Authenticator`.

Every setter returns the client itself. Before a connection reads its body,
`loadConnectionProperties` sets the request headers:

- `Cache-Control: no-cache` always;
- `Connection: close` when the flag is on;
- `Cookie` when the store holds cookies, with the stored cookies joined by `;` in store order.

`connect` then wraps the body stream in the decoder of the client's type.

Files and modules:

- `wrappers.dfy` (`Wrappers`): `Option`, which stands for Java's `null`, and `Result`, which stands for a thrown exception.
- `text.dfy` (`Text`): `Join`, which is `TextUtils.join`. `Split` is its inverse, and `SplitJoin` proves the round trip.
- `cookies.dfy` (`Cookies`): a cookie. `Parse` reads the first cookie of a cookie string, standing for `HttpCookie.parse(..).get(0)`. `Render` writes one back, standing for `HttpCookie.toString`. `ParseRender` proves the round trip.
- `sslmjpeg.dfy` (`Mjpeg`): the rest of the model.
  - `Type`, `Error` and the frame-stream wrappers.
  - `RequestHeaders`, the header map as a pure function.
  - `WrapStream`, the `switch (type)` dispatch.
  - The `Session` class: the static cookie store and the authenticator.
  - `HttpsUrlConnection`: the request properties of a connection, as a map in which setting a key overwrites it.
  - The `SSLMjpeg` class. Its setters change state in place, and `LoadConnectionProperties` sets the properties one at a time. Each method is proved against the pure functions.

The static `msCookieManager` and the global `Authenticator` are modelled as one
`Session` object. Callers are expected to create one `Session` and hand that
same object to every client they build. State added through one client is then
seen by all of them, as it is for the static field. The session's `Valid()`
invariant says every stored cookie can be read back from the `Cookie` header,
and `AddCookie` preserves it. The authenticator is a ghost field, because only
the platform reads it when a server asks for credentials.

A connection records whether it is connected yet and which request properties
it sent. `getInputStream` connects it, and after that no request property can
be set. So `Connect` is proved to set the headers before it reads the body, and
the headers that go out are exactly the ones `RequestHeaders` gives.

Java's `null` strings are `None`. Java's field `type` is named `kind`, because
`type` is a Dafny keyword. `Type` is a closed datatype that has no null, so the
match in `WrapStream` is exhaustive. The `IllegalStateException("invalid type")`
branch of `connect` therefore has no counterpart: it cannot be reached once the
constructor has refused null.

`addCookie` does not catch the `IllegalArgumentException` that
`HttpCookie.parse` throws (SSLMjpeg.java:106). The model returns it as an
`IllegalArgument` failure. `credential` replaces the process-wide authenticator
on every call whose two arguments are both non-empty (SSLMjpeg.java:88-93), so
the last such call wins for every client.

## Model

| member | source | states |
|---|---|---|
| Mjpeg.Session.constructor | app/src/main/java/com/github/niqdev/mjpeg/SSLMjpeg.java:42 | the process-wide state starts with an empty cookie store and no default authenticator, and the store is valid |
| Mjpeg.SSLMjpeg.constructor | app/src/main/java/com/github/niqdev/mjpeg/SSLMjpeg.java:51-60 | a constructed client keeps the given (non-null) type and starts with the close-header flag off |
| Mjpeg.SSLMjpeg.NewInstance | app/src/main/java/com/github/niqdev/mjpeg/SSLMjpeg.java:67-69 | `newInstance()` gives a fresh client of type DEFAULT with the flag off |
| Mjpeg.SSLMjpeg.NewInstanceOf | app/src/main/java/com/github/niqdev/mjpeg/SSLMjpeg.java:55-78 | fails with IllegalArgument("null type not allowed") exactly when the type is null; otherwise a fresh client of that type with the flag off |
| Mjpeg.InstalledAuthenticator | app/src/main/java/com/github/niqdev/mjpeg/SSLMjpeg.java:87-96 | the authenticator is unchanged when the username or the password is null or empty; otherwise it answers exactly (username, password) |
| Mjpeg.SSLMjpeg.Credential | app/src/main/java/com/github/niqdev/mjpeg/SSLMjpeg.java:87-96 | `credential` returns the same client, sets the process-wide authenticator as InstalledAuthenticator says, and leaves the cookie store alone |
| Mjpeg.IsEmpty | app/src/main/java/com/github/niqdev/mjpeg/SSLMjpeg.java:88 | `TextUtils.isEmpty` holds exactly for null and for the empty string |
| Mjpeg.Session.Add | app/src/main/java/com/github/niqdev/mjpeg/SSLMjpeg.java:106 | the cookie store is appended to at its end, and the authenticator is untouched; adding a well-formed cookie to a valid store keeps it valid |
| Cookies.Parse | app/src/main/java/com/github/niqdev/mjpeg/SSLMjpeg.java:106 | a parsed cookie has a non-empty name, and its rendering is a prefix of the header it came from; no `=` in the first segment, or an empty name, is a failure |
| Cookies.ParseRender | app/src/main/java/com/github/niqdev/mjpeg/SSLMjpeg.java:106 | parsing the rendering of a well-formed cookie, with or without trailing `;` attributes, yields that cookie |
| Mjpeg.SSLMjpeg.AddCookie | app/src/main/java/com/github/niqdev/mjpeg/SSLMjpeg.java:104-109 | keeps every stored cookie readable from the header (Session.Valid); a null or empty string changes nothing; a string that parses appends its first cookie to the store; one that does not parse fails with IllegalArgument and leaves the store as it was; on success the same client is returned; the authenticator is never touched |
| Mjpeg.SSLMjpeg.SendConnectionCloseHeader | app/src/main/java/com/github/niqdev/mjpeg/SSLMjpeg.java:117-120 | the flag is on afterwards whatever it was before (so a second call changes nothing); only the client itself is modified, and the same client is returned |
| Cookies.RenderAll | app/src/main/java/com/github/niqdev/mjpeg/SSLMjpeg.java:187 | the renderings handed to the join are one per stored cookie, in store order, each the `toString` of that cookie |
| Text.Join | app/src/main/java/com/github/niqdev/mjpeg/SSLMjpeg.java:187 | `TextUtils.join` of no parts is empty; otherwise it starts with the first part, and its length is that of all parts plus one separator per gap |
| Cookies.Render | app/src/main/java/com/github/niqdev/mjpeg/SSLMjpeg.java:187 | a cookie renders as its name followed by `=`, and the rendering holds no `;` unless the name or the value does |
| Text.SplitJoin | app/src/main/java/com/github/niqdev/mjpeg/SSLMjpeg.java:187 | splitting a `TextUtils.join` result at the separator gives back the joined parts, when no part contains the separator |
| Text.JoinAppend | app/src/main/java/com/github/niqdev/mjpeg/SSLMjpeg.java:187 | joining one more part appends the separator and that part to the earlier joined text |
| Mjpeg.RequestHeaders | app/src/main/java/com/github/niqdev/mjpeg/SSLMjpeg.java:179-189 | Cache-Control is always no-cache; Connection is present exactly when the flag is set, and is then close; Cookie is present exactly when the store is non-empty, and is then the store's renderings joined by `;` in store order; there are no other keys |
| Mjpeg.CookieHeaderRoundTrip | app/src/main/java/com/github/niqdev/mjpeg/SSLMjpeg.java:185-188 | splitting the Cookie header at `;` and parsing each piece gives back exactly the stored cookies, in store order |
| Mjpeg.CookieHeaderAfterAdd | app/src/main/java/com/github/niqdev/mjpeg/SSLMjpeg.java:185-188 | after one more cookie is stored, the Cookie header is the old header, then `;`, then the new cookie (or the new cookie alone if the store was empty); every other header is unchanged |
| Mjpeg.HttpsUrlConnection.constructor | app/src/main/java/com/github/niqdev/mjpeg/SSLMjpeg.java:129 | an opened connection is not yet connected and has no request properties; it keeps its URL and the network's outcome for its body |
| Mjpeg.HttpsUrlConnection.SetRequestProperty | app/src/main/java/com/github/niqdev/mjpeg/SSLMjpeg.java:180-187 | setting a request property overwrites that key only, and is allowed only before the connection is made |
| Mjpeg.HttpsUrlConnection.GetInputStream | app/src/main/java/com/github/niqdev/mjpeg/SSLMjpeg.java:133 | reading the body connects, sending the request properties as they stand, and yields the network's outcome |
| Mjpeg.SSLMjpeg.LoadConnectionProperties | app/src/main/java/com/github/niqdev/mjpeg/SSLMjpeg.java:179-189 | on a connection not yet made, the request properties become the old ones overridden by RequestHeaders of the client's flag and the current cookie store, and the connection stays unmade |
| Mjpeg.WrapStream | app/src/main/java/com/github/niqdev/mjpeg/SSLMjpeg.java:134-141 | every type has a wrapper: the result belongs to the client's type and wraps the very stream given |
| Mjpeg.WrapStreamInverse | app/src/main/java/com/github/niqdev/mjpeg/SSLMjpeg.java:134-141 | a frame stream is recovered from its type and its source stream, so the dispatch is one-to-one |
| Mjpeg.SSLMjpeg.Connect | app/src/main/java/com/github/niqdev/mjpeg/SSLMjpeg.java:123-147 | a TLS setup error (NoSuchAlgorithm or KeyManagement) is returned, and the connection is neither touched nor connected; an IOError opening the connection is returned; otherwise the connection is made, and the properties it sent are the old ones overridden by RequestHeaders; a body IOError is returned, and a readable body is wrapped by WrapStream for the client's type |
| Mjpeg.ConfiguredClientScenario | app/src/main/java/com/github/niqdev/mjpeg/SSLMjpeg.java:104-147 | a DEFAULT client with the cookie `sid=abc123` and the close flag sends exactly Cache-Control no-cache, Connection close and Cookie sid=abc123, and delivers a DEFAULT wrapper around the connection's body |

## Left out

- `open(url)` and `open(url, timeout)` are left out. Their work is RxJava scheduling: `subscribeOn` an I/O worker, `observeOn` the main thread, and a wall-clock `timeout`. Neither concurrency nor time is modelled.
- The laziness of `Observable.defer` is left out. The model's `Connect` is one call that returns a `Result`, and the `Result` stands for `Observable.just` and `Observable.error`.
- TLS setup is left out: `SSLContext.getInstance("TLSv1.2")`, `init`, the trust manager, the socket factory and the hostname verifier are foreign security APIs. Only the outcome of building the context is modelled, as the `tls` parameter of `Connect`.
- Opening the `HttpsURLConnection` and reading its body are network I/O. They appear only as outcomes: the `connection` parameter of `Connect` and the `body` of `HttpsUrlConnection`.
- Cookies.Parse models only the plain `name=value[;attributes]` form of `HttpCookie.parse`, and it drops the attributes. Several parts of `HttpCookie.parse` are not modelled:
  - stripping a leading `Set-Cookie:` or `Set-Cookie2:` prefix;
  - trimming whitespace and stripping quotes;
  - rejecting reserved or non-token names;
  - skipping an empty leading segment, as `StringTokenizer` does;
  - checking attributes, so a header such as `a=b;max-age=x`, on which `HttpCookie.parse` throws for the non-numeric `max-age`, is accepted here;
  - version 1 cookies: a header that mentions `max-age`, `version=` or `Set-Cookie2:` makes a version 1 cookie, and a version 1 header may hold several cookies.
- Cookies.Render is `HttpCookie.toString` for version 0 cookies only (`name=value`). A version 1 cookie renders as `name="value"`, possibly followed by `$Path`/`$Domain`, and that form is not modelled.
- Mjpeg.Session.Add is append-only. Some `CookieStore` behaviour is library behaviour that this model does not cover:
  - `CookieStore.add` replaces an equal cookie;
  - `CookieStore.add` does not keep a cookie with `max-age=0`;
  - `getCookies` drops expired cookies.
- Mjpeg.SSLMjpeg.NewInstance and Mjpeg.SSLMjpeg.NewInstanceOf accept any `Session`, so the model does not enforce that all clients share one cookie store and one authenticator. In Java this sharing is guaranteed by the static field `msCookieManager` and the global `Authenticator`. Dafny classes have no static mutable fields.
- `SSLMjpeg` holds no lock of its own across its uses of the cookie store. `loadConnectionProperties` reads the store twice: once to test whether it is empty (SSLMjpeg.java:185), and once to join it (SSLMjpeg.java:187). A concurrent `addCookie` can land between the two reads. The model has no concurrency: each operation reads one snapshot of the store, so this interleaving is not captured.
- The authenticator is a ghost field. The platform's use of it when a server challenges is not modelled.
- The decoding done by `MjpegInputStreamDefault` and `MjpegInputStreamNative` is left out. They appear only as wrappers around their input stream.
- Two runtime exceptions are not modelled as failures:
  - the `ClassCastException` that the cast at SSLMjpeg.java:129 raises when the URL opens a connection that is not HTTPS;
  - the `IllegalStateException` that `setRequestProperty` raises once the connection has been made. The model instead makes `!connected` a precondition of Mjpeg.HttpsUrlConnection.SetRequestProperty, and proves that `connect` always meets it.
- `Log` calls are left out.
- The Android activity `MainActivity.kt` is not part of this model. It only builds a client and displays the stream.
