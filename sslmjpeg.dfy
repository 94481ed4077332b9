/**
 * The MJPEG client `SSLMjpeg`: its configuration (decoder type, close-header
 * flag, the process-wide cookie store and authenticator), the request headers
 * it derives from that configuration, and the connect step that shapes the
 * request and wraps the response body in the decoder of the configured type.
 */
module Mjpeg {
  import opened Wrappers
  import Text
  import opened Cookies

  /** The decoder implementation a client uses (`SSLMjpeg.Type`). */
  datatype Type = DEFAULT | NATIVE

  /** The exceptions `SSLMjpeg` throws or catches: IllegalArgumentException, IOException, NoSuchAlgorithmException, KeyManagementException. */
  datatype Error =
    | IllegalArgument(message: string)
    | IOError
    | NoSuchAlgorithm
    | KeyManagement

  /** The response body of an open connection; decoding it is not part of this model. */
  datatype InputStream = InputStream(id: nat)

  /** The frame stream handed to the caller: one wrapper per decoder type, around the body stream. */
  datatype MjpegInputStream =
    | MjpegInputStreamDefault(source: InputStream)
    | MjpegInputStreamNative(source: InputStream)

  /** The credential pair the default authenticator answers with (`PasswordAuthentication`). */
  datatype PasswordAuthentication = PasswordAuthentication(username: string, password: string)

  const CacheControlKey := "Cache-Control"
  const ConnectionKey := "Connection"
  const CookieKey := "Cookie"
  const CookieSeparator := ';'

  /** `TextUtils.isEmpty`: null or of length zero. */
  predicate IsEmpty(s: Option<string>): (empty: bool)
    ensures empty <==> s == None || s == Some("")
  {
    s.None? || |s.value| == 0
  }

  /** The decoder type a frame stream belongs to. */
  function TypeOf(s: MjpegInputStream): (t: Type)
  {
    match s
    case MjpegInputStreamDefault(_) => DEFAULT
    case MjpegInputStreamNative(_) => NATIVE
  }

  /** The `switch (type)` of `connect`: every type has its wrapper, around the very stream given. */
  function WrapStream(kind: Type, input: InputStream): (s: MjpegInputStream)
    ensures TypeOf(s) == kind
    ensures s.source == input
  {
    match kind
    case DEFAULT => MjpegInputStreamDefault(input)
    case NATIVE => MjpegInputStreamNative(input)
  }

  /** Wrapping is undone by reading back the type and the source of the frame stream. */
  lemma WrapStreamInverse(s: MjpegInputStream)
    ensures WrapStream(TypeOf(s), s.source) == s
  {
    match s
    case MjpegInputStreamDefault(_) =>
    case MjpegInputStreamNative(_) =>
  }

  /** The authenticator installed after `credential(username, password)`, given the one before. */
  function InstalledAuthenticator(current: Option<PasswordAuthentication>, username: Option<string>, password: Option<string>)
    : (after: Option<PasswordAuthentication>)
    ensures IsEmpty(username) || IsEmpty(password) ==> after == current
    ensures !IsEmpty(username) && !IsEmpty(password) ==>
              after.Some? && after.value.username == username.value && after.value.password == password.value
  {
    if !IsEmpty(username) && !IsEmpty(password) then Some(PasswordAuthentication(username.value, password.value))
    else current
  }

  /**
   * The request headers `loadConnectionProperties` sets, as a map: always
   * `Cache-Control: no-cache`, `Connection: close` exactly when the flag is
   * set, and `Cookie` exactly when the store holds cookies, with their
   * renderings joined by `;` in store order. No other header.
   */
  function RequestHeaders(closeConnection: bool, cookies: seq<Cookie>): (h: map<string, string>)
    ensures h.Keys <= {CacheControlKey, ConnectionKey, CookieKey}
    ensures CacheControlKey in h && h[CacheControlKey] == "no-cache"
    ensures ConnectionKey in h <==> closeConnection
    ensures closeConnection ==> h[ConnectionKey] == "close"
    ensures CookieKey in h <==> |cookies| > 0
    ensures |cookies| > 0 ==> h[CookieKey] == Text.Join(CookieSeparator, RenderAll(cookies))
  {
    var base := map[CacheControlKey := "no-cache"];
    var withClose := if closeConnection then base[ConnectionKey := "close"] else base;
    if |cookies| > 0 then withClose[CookieKey := Text.Join(CookieSeparator, RenderAll(cookies))] else withClose
  }

  /**
   * A receiver that splits the `Cookie` header at `;` and parses each piece
   * gets back exactly the stored cookies, in store order.
   */
  lemma CookieHeaderRoundTrip(closeConnection: bool, cookies: seq<Cookie>)
    requires |cookies| > 0
    requires forall i :: 0 <= i < |cookies| ==> WellFormed(cookies[i])
    ensures var pieces := Text.Split(CookieSeparator, RequestHeaders(closeConnection, cookies)[CookieKey]);
            |pieces| == |cookies| &&
            forall i :: 0 <= i < |cookies| ==> Parse(pieces[i]) == Some(cookies[i])
  {
    var rendered := RenderAll(cookies);
    forall i | 0 <= i < |rendered| ensures CookieSeparator !in rendered[i] {
      assert WellFormed(cookies[i]);
    }
    Text.SplitJoin(CookieSeparator, rendered);
    forall i | 0 <= i < |cookies| ensures Parse(rendered[i]) == Some(cookies[i]) {
      ParseRender(cookies[i], "");
      assert Render(cookies[i]) + "" == Render(cookies[i]);
    }
  }

  /**
   * Adding a cookie to the store adds its rendering at the end of the `Cookie`
   * header, after a `;` when cookies were stored before; every other header stays.
   */
  lemma CookieHeaderAfterAdd(closeConnection: bool, cookies: seq<Cookie>, c: Cookie)
    ensures var before := RequestHeaders(closeConnection, cookies);
            var after := RequestHeaders(closeConnection, cookies + [c]);
            && after[CookieKey] == (if |cookies| == 0 then Render(c) else before[CookieKey] + [CookieSeparator] + Render(c))
            && after - {CookieKey} == before - {CookieKey}
  {
    assert RenderAll(cookies + [c]) == RenderAll(cookies) + [Render(c)];
    if |cookies| > 0 {
      Text.JoinAppend(CookieSeparator, RenderAll(cookies), Render(c));
    }
  }

  /**
   * The process-wide session state: the static cookie store `msCookieManager`
   * (append-only here) and the default `Authenticator` (ghost: it is only
   * consulted by the platform when a server asks for credentials).
   */
  class Session {
    var cookies: seq<Cookie>
    ghost var authenticator: Option<PasswordAuthentication>

    /** Every stored cookie can be read back from the header it is rendered into. */
    predicate Valid()
      reads this
    {
      forall i :: 0 <= i < |cookies| ==> WellFormed(cookies[i])
    }

    constructor ()
      ensures Valid()
      ensures cookies == [] && authenticator == None
    {
      cookies := [];
      authenticator := None;
    }

    /** `CookieStore.add`: the cookie joins the store at the end. */
    method Add(c: Cookie)
      modifies this
      ensures cookies == old(cookies) + [c]
      ensures authenticator == old(authenticator)
      ensures old(Valid()) && WellFormed(c) ==> Valid()
    {
      cookies := cookies + [c];
    }
  }

  /**
   * The request side of an `HttpsURLConnection`: its request properties, whether
   * it is connected yet, the properties it sent, and what reading its body yields.
   */
  class HttpsUrlConnection {
    const url: string
    var requestProperties: map<string, string>
    /** Set once `getInputStream` has connected; request properties can no longer be set. */
    var connected: bool
    /** The request properties as they went out when the connection was made. */
    ghost var sent: map<string, string>
    /** The outcome of `getInputStream`, decided by the network. */
    const body: Result<InputStream, Error>

    constructor (url: string, body: Result<InputStream, Error>)
      ensures this.url == url && this.body == body
      ensures requestProperties == map[] && !connected
    {
      this.url := url;
      this.body := body;
      requestProperties := map[];
      connected := false;
      sent := map[];
    }

    /** `setRequestProperty`: sets the key, overwriting any earlier value; only before connecting. */
    method SetRequestProperty(key: string, value: string)
      requires !connected
      modifies this
      ensures requestProperties == old(requestProperties)[key := value]
      ensures !connected && sent == old(sent)
    {
      requestProperties := requestProperties[key := value];
    }

    /** `getInputStream`: connects, sending the request properties as they are now, and yields the body. */
    method GetInputStream() returns (r: Result<InputStream, Error>)
      modifies this
      ensures connected && sent == old(requestProperties)
      ensures requestProperties == old(requestProperties)
      ensures r == body
    {
      connected := true;
      sent := requestProperties;
      r := body;
    }
  }

  class SSLMjpeg {
    /** The decoder type (`type` in the Java class); never null and never changed. */
    const kind: Type
    /** The process-wide state, shared by every client. */
    const session: Session
    var sendConnectionCloseHeader: bool

    /** The private constructor, past its null check: the type is given and the flag is off. */
    constructor (kind: Type, session: Session)
      ensures this.kind == kind && this.session == session
      ensures !sendConnectionCloseHeader
    {
      this.kind := kind;
      this.session := session;
      sendConnectionCloseHeader := false;
    }

    /** `newInstance()`: a client of type DEFAULT. */
    static method NewInstance(session: Session) returns (client: SSLMjpeg)
      ensures fresh(client)
      ensures client.kind == DEFAULT && client.session == session && !client.sendConnectionCloseHeader
    {
      client := new SSLMjpeg(DEFAULT, session);
    }

    /** `newInstance(type)`: a null type is refused with IllegalArgumentException, any other is kept. */
    static method NewInstanceOf(kind: Option<Type>, session: Session) returns (r: Result<SSLMjpeg, Error>)
      ensures r.Failure? <==> kind.None?
      ensures kind.None? ==> r.error == IllegalArgument("null type not allowed")
      ensures kind.Some? ==> fresh(r.value) && r.value.kind == kind.value && r.value.session == session
                             && !r.value.sendConnectionCloseHeader
    {
      if kind.None? {
        return Failure(IllegalArgument("null type not allowed"));
      }
      var client := new SSLMjpeg(kind.value, session);
      return Success(client);
    }

    /** `credential`: installs an authenticator answering `(username, password)` unless either is null or empty. */
    method Credential(username: Option<string>, password: Option<string>) returns (self: SSLMjpeg)
      modifies session
      ensures self == this
      ensures session.authenticator == InstalledAuthenticator(old(session.authenticator), username, password)
      ensures session.cookies == old(session.cookies)
    {
      if !IsEmpty(username) && !IsEmpty(password) {
        session.authenticator := Some(PasswordAuthentication(username.value, password.value));
      }
      return this;
    }

    /**
     * `addCookie`: a null or empty string changes nothing; otherwise the first
     * cookie it parses to joins the store, and a string that does not parse
     * fails with IllegalArgumentException, leaving the store as it was.
     */
    method AddCookie(cookie: Option<string>) returns (r: Result<SSLMjpeg, Error>)
      requires session.Valid()
      modifies session
      ensures session.Valid()
      ensures session.authenticator == old(session.authenticator)
      ensures r.Success? ==> r.value == this
      ensures IsEmpty(cookie) ==> r.Success? && session.cookies == old(session.cookies)
      ensures !IsEmpty(cookie) && Parse(cookie.value).Some? ==>
                r.Success? && session.cookies == old(session.cookies) + [Parse(cookie.value).value]
      ensures !IsEmpty(cookie) && Parse(cookie.value).None? ==>
                r.Failure? && r.error.IllegalArgument? && session.cookies == old(session.cookies)
    {
      if !IsEmpty(cookie) {
        var parsed := Parse(cookie.value);
        if parsed.None? {
          return Failure(IllegalArgument("invalid cookie name-value pair"));
        }
        session.Add(parsed.value);
      }
      return Success(this);
    }

    /** `sendConnectionCloseHeader`: turns the flag on; nothing else changes. */
    method SendConnectionCloseHeader() returns (self: SSLMjpeg)
      modifies this
      ensures self == this
      ensures sendConnectionCloseHeader
    {
      sendConnectionCloseHeader := true;
      return this;
    }

    /** `loadConnectionProperties`: the connection's request properties gain `RequestHeaders` of the current state. */
    method LoadConnectionProperties(conn: HttpsUrlConnection)
      requires !conn.connected
      modifies conn
      ensures conn.requestProperties ==
                old(conn.requestProperties) + RequestHeaders(sendConnectionCloseHeader, session.cookies)
      ensures !conn.connected && conn.sent == old(conn.sent)
    {
      conn.SetRequestProperty(CacheControlKey, "no-cache");
      if sendConnectionCloseHeader {
        conn.SetRequestProperty(ConnectionKey, "close");
      }
      if |session.cookies| > 0 {
        conn.SetRequestProperty(CookieKey, Text.Join(CookieSeparator, RenderAll(session.cookies)));
      }
    }

    /**
     * `connect`, with the network as parameters: `tls` is the outcome of
     * building the TLS 1.2 context (an error or None), `connection` that of
     * opening the connection to `url`. A failing step ends with its error and no
     * later step runs; otherwise the request headers are set, the connection is
     * made sending them, and the body stream is wrapped in the decoder of this
     * client's type.
     */
    method Connect(url: string, tls: Option<Error>, connection: Result<HttpsUrlConnection, Error>)
      returns (r: Result<MjpegInputStream, Error>)
      requires tls.Some? ==> tls.value == NoSuchAlgorithm || tls.value == KeyManagement
      requires connection.Failure? ==> connection.error == IOError
      requires connection.Success? ==> connection.value.url == url && !connection.value.connected
      requires connection.Success? && connection.value.body.Failure? ==> connection.value.body.error == IOError
      modifies if connection.Success? then {connection.value} else {}
      ensures tls.Some? ==> r == Failure(tls.value)
      ensures tls.None? && connection.Failure? ==> r == Failure(connection.error)
      ensures connection.Success? && tls.Some? ==>
                connection.value.requestProperties == old(connection.value.requestProperties)
                && !connection.value.connected
      ensures connection.Success? && tls.None? ==>
                && connection.value.connected
                && connection.value.sent ==
                     old(connection.value.requestProperties) + RequestHeaders(sendConnectionCloseHeader, session.cookies)
                && connection.value.requestProperties == connection.value.sent
                && r == match connection.value.body
                        case Success(input) => Success(WrapStream(kind, input))
                        case Failure(e) => Failure(e)
    {
      if tls.Some? {
        return Failure(tls.value);
      }
      if connection.Failure? {
        return Failure(connection.error);
      }
      var conn := connection.value;
      LoadConnectionProperties(conn);
      var input := conn.GetInputStream();
      if input.Failure? {
        return Failure(input.error);
      }
      return Success(WrapStream(kind, input.value));
    }
  }

  /**
   * A client configured with one cookie and the close flag sends exactly the
   * three headers when it connects, and its frame stream wraps the body of the
   * connection.
   */
  method ConfiguredClientScenario() returns (headers: map<string, string>, stream: Result<MjpegInputStream, Error>)
    ensures headers == map[CacheControlKey := "no-cache", ConnectionKey := "close", CookieKey := "sid=abc123"]
    ensures stream == Success(MjpegInputStreamDefault(InputStream(7)))
  {
    var sid := Cookie("sid", "abc123");
    var header := Render(sid);
    ParseRender(sid, "");
    assert header + "" == header;
    var session := new Session();
    var client := SSLMjpeg.NewInstance(session);
    var added := client.AddCookie(Some(header));
    assert session.cookies == [sid];
    var self := client.SendConnectionCloseHeader();
    var conn := new HttpsUrlConnection("https://camera.local/video", Success(InputStream(7)));
    stream := client.Connect("https://camera.local/video", None, Success(conn));
    headers := conn.requestProperties;
    assert headers == conn.sent;
    assert RenderAll([sid]) == [header];
    assert headers == RequestHeaders(true, [sid]);
    assert header == "sid=abc123";
    assert headers.Keys == {CacheControlKey, ConnectionKey, CookieKey};
  }
}
