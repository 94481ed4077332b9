/**
 * The cookies kept in the process-wide store: how one is read from the string
 * handed to `addCookie` and how it is written back into a `Cookie` header.
 * This is the plain (version 0, Netscape) cookie form: `name=value`, optionally
 * followed by `;`-separated attributes that the request header does not carry.
 */
module Cookies {
  import opened Wrappers
  import Text

  datatype Cookie = Cookie(name: string, value: string)

  /** A cookie whose rendering can be read back unambiguously. */
  predicate WellFormed(c: Cookie)
  {
    |c.name| > 0 && '=' !in c.name && ';' !in c.name && ';' !in c.value
  }

  /**
   * The cookie as it appears in a request header (`HttpCookie.toString` of a
   * version 0 cookie): it starts with the name, and carries no `;` unless the
   * name or the value does, so it can stand between the separators of a header.
   */
  function Render(c: Cookie): (r: string)
    ensures c.name + "=" <= r
    ensures ';' !in c.name && ';' !in c.value ==> ';' !in r
  {
    c.name + "=" + c.value
  }

  /** The renderings of a store's cookies, in store order. */
  function RenderAll(cookies: seq<Cookie>): (rendered: seq<string>)
    ensures |rendered| == |cookies|
    ensures forall i :: 0 <= i < |cookies| ==> rendered[i] == Render(cookies[i])
  {
    seq(|cookies|, i requires 0 <= i < |cookies| => Render(cookies[i]))
  }

  /** The position of the first `c` in `s`, or None when `s` has none. */
  function IndexOf(s: string, c: char): (r: Option<nat>)
    ensures r.Some? ==> r.value < |s| && s[r.value] == c && c !in s[..r.value]
    ensures r.None? ==> c !in s
    decreases |s|
  {
    if s == [] then None
    else if s[0] == c then Some(0)
    else match IndexOf(s[1..], c)
      case None => None
      case Some(i) => Some(i + 1)
  }

  /**
   * The first cookie of a cookie header string in the plain form: its first
   * `;`-separated segment split at the first `=`; the attributes after it are
   * dropped. None stands for the two IllegalArgumentException cases of
   * `HttpCookie.parse` kept here: the segment has no `=`, or the name is empty.
   */
  function Parse(header: string): (r: Option<Cookie>)
    ensures r.Some? ==> WellFormed(r.value) && Render(r.value) <= header
  {
    var segment := Text.Split(';', header)[0];
    match IndexOf(segment, '=')
    case None => None
    case Some(i) =>
      if i == 0 then None
      else
        var c := Cookie(segment[..i], segment[i + 1..]);
        Text.SplitFirstIsPrefix(';', header);
        assert Render(c) == segment;
        Some(c)
  }

  /**
   * Reading back a rendered cookie gives the cookie, also when attributes
   * (a `;` and anything after it) follow the `name=value` pair.
   */
  lemma ParseRender(c: Cookie, attributes: string)
    requires WellFormed(c)
    requires attributes == [] || attributes[0] == ';'
    ensures Parse(Render(c) + attributes) == Some(c)
  {
    var header := Render(c) + attributes;
    assert ';' !in Render(c);
    Text.SplitSepFreePrefix(';', Render(c), attributes);
    if attributes != [] {
      assert attributes == [';'] + attributes[1..];
    }
    var segment := Text.Split(';', header)[0];
    assert segment == Render(c);
    IndexOfAfterFree(c.name, "=" + c.value, '=');
    assert segment == c.name + ("=" + c.value);
  }

  /** In `a + b` with no `c` in `a`, the first `c` is the first one of `b`, shifted by `|a|`. */
  lemma {:induction false} IndexOfAfterFree(a: string, b: string, c: char)
    requires c !in a
    requires |b| > 0 && b[0] == c
    ensures IndexOf(a + b, c) == Some(|a|)
    decreases |a|
  {
    if a == [] {
      assert a + b == b;
    } else {
      assert (a + b)[1..] == a[1..] + b;
      IndexOfAfterFree(a[1..], b, c);
    }
  }
}
