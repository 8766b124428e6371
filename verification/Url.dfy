/** Url: splitting scheme://host:port/path?query, and putting it together again. */
module Urls {

  // ------------------------------------------------------------ std::string

  predicate At(s: string, pattern: string, i: int) {
    0 <= i && i + |pattern| <= |s| && s[i..i + |pattern|] == pattern
  }

  /** find from position from on; -1 stands for npos. */
  function FindFrom(s: string, pattern: string, from: nat): (r: int)
    requires from <= |s|
    ensures r == -1 || from <= r <= |s| - |pattern|
    decreases |s| - from
  {
    if At(s, pattern, from) then from
    else if from == |s| then -1
    else FindFrom(s, pattern, from + 1)
  }

  function Find(s: string, pattern: string): (r: int)
    ensures r == -1 || 0 <= r <= |s| - |pattern|
  {
    FindFrom(s, pattern, 0)
  }

  /** find_last_of a single character. */
  function FindLast(s: string, c: char): (r: int)
    ensures -1 <= r < |s|
  {
    if s == "" then -1
    else if s[|s| - 1] == c then |s| - 1
    else FindLast(s[..|s| - 1], c)
  }

  predicate Blank(c: char) { c == '\t' || c == ' ' }

  function LTrim(s: string): (r: string)
    ensures |r| <= |s|
  {
    if s != "" && Blank(s[0]) then LTrim(s[1..]) else s
  }

  lemma {:induction false} FindFromIsFirst(s: string, pattern: string, from: nat)
    requires from <= |s|
    ensures var r := FindFrom(s, pattern, from);
      && (r != -1 ==> At(s, pattern, r))
      && (forall i :: from <= i && (r == -1 || i < r) ==> !At(s, pattern, i))
    decreases |s| - from
  {
    if !At(s, pattern, from) && from < |s| {
      FindFromIsFirst(s, pattern, from + 1);
    }
  }

  /** find gives the first occurrence, or none if there is none. */
  lemma FindIsFirst(s: string, pattern: string)
    ensures Find(s, pattern) != -1 ==> At(s, pattern, Find(s, pattern))
    ensures forall i :: Find(s, pattern) == -1 || i < Find(s, pattern) ==> !At(s, pattern, i)
  {
    FindFromIsFirst(s, pattern, 0);
  }

  lemma {:induction false} FindLastIsLast(s: string, c: char)
    ensures FindLast(s, c) != -1 ==> s[FindLast(s, c)] == c
    ensures forall i :: FindLast(s, c) < i < |s| ==> s[i] != c
  {
    if s != "" && s[|s| - 1] != c {
      FindLastIsLast(s[..|s| - 1], c);
      assert forall i :: 0 <= i < |s| - 1 ==> s[..|s| - 1][i] == s[i];
    }
  }

  lemma {:induction false} LTrimDropsBlanks(s: string)
    ensures LTrim(s) == "" || (LTrim(s)[0] != ' ' && LTrim(s)[0] != '\t')
    ensures s[|s| - |LTrim(s)|..] == LTrim(s)
    ensures forall i :: 0 <= i < |s| - |LTrim(s)| ==> s[i] == ' ' || s[i] == '\t'
  {
    if s != "" && Blank(s[0]) {
      LTrimDropsBlanks(s[1..]);
      assert forall i :: 0 < i < |s| ==> s[i] == s[1..][i - 1];
    }
  }

  // ------------------------------------------------------------------ parsing

  datatype Parts = Parts(scheme: string, host: string, port: string, path: string, query: string)

  /** Which delimiters parse has met: "://", the colon of the port, the question mark. */
  datatype Trace = Trace(parts: Parts, hasScheme: bool, hasPort: bool, hasQuery: bool)

  /** Whether a colon of the authority is taken for the start of a port. */
  predicate SplitsPort(authority: string) {
    var p, bracket := FindLast(authority, ':'), FindLast(authority, ']');
    p >= 0 && (bracket == -1 || p > bracket)
  }

  function WithAuthority(t: Trace, authority: string): (r: Trace)
    ensures r.parts == t.parts.(host := r.parts.host, port := r.parts.port)
  {
    if SplitsPort(authority) then
      var p := FindLast(authority, ':');
      t.(parts := t.parts.(host := authority[..p], port := authority[p + 1..]), hasPort := true)
    else t.(parts := t.parts.(host := authority))
  }

  function WithQuery(t: Trace, query: string): Trace {
    t.(parts := t.parts.(query := query), hasQuery := true)
  }

  /** What follows the scheme. */
  function AfterScheme(t: Trace, s: string): Trace {
    var p := Find(s, "/");
    if p >= 0 then
      var tmp := s[p..];
      var q := Find(tmp, "?");
      if q >= 0 then
        WithQuery(WithAuthority(t.(parts := t.parts.(path := tmp[..q])), s[..p]), tmp[q + 1..])
      else WithAuthority(t.(parts := t.parts.(path := tmp)), s[..p])
    else
      var q := Find(s, "?");
      if q >= 0 then WithQuery(WithAuthority(t, s[..q]), s[q + 1..])
      else WithAuthority(t, s)
  }

  const NOTHING: Trace := Trace(Parts("", "", "", "", ""), false, false, false)

  function Traced(url: string): Trace {
    var s := LTrim(url);
    var p := Find(s, "://");
    if p >= 0 then AfterScheme(NOTHING.(parts := NOTHING.parts.(scheme := s[..p]), hasScheme := true), s[p + 3..])
    else AfterScheme(NOTHING, s)
  }

  function Parsed(url: string): Parts {
    Traced(url).parts
  }

  lemma NothingFromEmpty()
    ensures Parsed("") == NOTHING.parts
  {
    hide FindFrom, Find, FindLast, At;
    assert LTrim("") == "";
    assert Find("", "://") == -1 && Find("", "/") == -1 && Find("", "?") == -1;
    assert FindLast("", ':') == -1;
  }

  class Url {
    var scheme: string
    var host: string
    var port: string
    var path: string
    var query: string

    function View(): Parts
      reads this
    {
      Parts(scheme, host, port, path, query)
    }

    constructor (url: string)
      ensures View() == Parsed(url)
    {
      hide Parsed;
      scheme, host, port, path, query := "", "", "", "", "";
      new;
      NothingFromEmpty();
      if url != "" {
        Parse(url);
      }
    }

    method Parse(url: string)
      requires View() == NOTHING.parts
      modifies this
      ensures View() == Parsed(url)
    {
      hide Find, LTrim, AfterScheme;
      var tmp := LTrim(url);
      var p := Find(tmp, "://");
      if p != -1 {
        scheme := tmp[..p];
        tmp := tmp[p + 3..];
        ParseAfterScheme(tmp, NOTHING.(parts := View(), hasScheme := true));
      } else {
        ParseAfterScheme(tmp, NOTHING);
      }
    }

    /** Host, path and query; then the port is split off the host. */
    method ParseAfterScheme(url: string, ghost t: Trace)
      requires View() == t.parts && host == port == path == query == ""
      modifies this
      ensures View() == AfterScheme(t, url).parts
    {
      hide Find, WithAuthority;
      var tmp := url;
      var p := Find(tmp, "/");
      ghost var u := t;
      if p != -1 {
        host := tmp[..p];
        tmp := tmp[p..];
        p := Find(tmp, "?");
        if p != -1 {
          path := tmp[..p];
          query := tmp[p + 1..];
        } else {
          path := tmp;
        }
        u := t.(parts := t.parts.(path := path));
      } else {
        path := "";
        p := Find(tmp, "?");
        if p != -1 {
          host := tmp[..p];
          query := tmp[p + 1..];
        } else {
          host := tmp;
        }
      }
      ParsePort(u);
    }

    method AppendPath(str: string)
      modifies this`path
      ensures path == if Ignored(str) then old(path) else JoinedPath(old(path), str)
    {
      if str == "" || str == "/" {
        return;
      }
      if path == "" || path == "/" {
        path := "";
        if str[0] != '/' {
          path := path + "/";
        }
      } else if path[|path| - 1] == '/' && str[0] == '/' {
        path := path[..|path| - 1];
      } else if path[|path| - 1] != '/' && str[0] != '/' {
        path := path + "/";
      }
      path := path + str;
    }

    method ParsePort(ghost t: Trace)
      requires port == "" && View() == t.parts.(host := host, port := "", query := query)
      requires t.parts.port == ""
      modifies this`host, this`port
      ensures View() == WithAuthority(t, old(host)).parts.(query := query)
    {
      hide FindLast;
      HostWithoutColon();
      if host != "" {
        var p := FindLast(host, ':');
        if p != -1 {
          var bracket := FindLast(host, ']');
          if bracket == -1 || p > bracket {
            port := host[p + 1..];
            host := host[..p];
          }
        }
      }
    }
  }

  /** What appendPath leaves alone. */
  predicate Ignored(str: string) { str == "" || str == "/" }

  /** The path without one trailing slash, the addition without one leading slash. */
  function Front(path: string): string {
    if path != "" && path[|path| - 1] == '/' then path[..|path| - 1] else path
  }

  function Back(str: string): string {
    if str != "" && str[0] == '/' then str[1..] else str
  }

  /** Exactly one slash at the seam, whichever side brought one. */
  function JoinedPath(path: string, str: string): string {
    Front(path) + "/" + Back(str)
  }

  /**
   The seam of an appended path: the path up to a trailing slash, one slash, and the
   addition after a leading one. A second slash stands there only if path or addition
   brought two.
   */
  lemma OneSlashAtSeam(path: string, str: string)
    requires !Ignored(str)
    ensures
      var r := JoinedPath(path, str);
      var trailing, leading := path != "" && path[|path| - 1] == '/', str[0] == '/';
      var k, j := if trailing then |path| - 1 else |path|, if leading then 1 else 0;
      && |r| == |path| + |str| + (if trailing && leading then -1 else if trailing || leading then 0 else 1)
      && r[..k] == path[..k] && r[k] == '/' && r[k + 1..] == str[j..]
      && (k > 0 && r[k - 1] == '/' ==> trailing && path[|path| - 2] == '/')
      && (r[k + 1] == '/' ==> leading && str[1] == '/')
  {
    assert |Back(str)| > 0;
  }

  lemma FrontOfAppended(x: string, y: string)
    requires y != ""
    ensures Front(x + y) == x + Front(y)
  {
  }

  lemma BackOfPrepended(x: string, y: string)
    requires x != ""
    ensures Back(x + y) == Back(x) + y
  {
  }

  lemma FrontOfBack(a: string)
    requires !Ignored(a)
    ensures Front(Back(a)) == Back(Front(a)) && Back(a) != "" && Front(a) != ""
  {
  }

  /** Appending twice is appending the two joined. */
  lemma JoinedPathAssociative(path: string, a: string, b: string)
    requires !Ignored(a)
    ensures JoinedPath(JoinedPath(path, a), b) == JoinedPath(path, JoinedPath(a, b))
  {
    hide Front, Back;
    FrontOfBack(a);
    FrontOfAppended(Front(path) + "/", Back(a));
    BackOfPrepended(Front(a), "/" + Back(b));
    assert Front(a) + "/" + Back(b) == Front(a) + ("/" + Back(b));
    assert Front(path) + "/" + (Back(Front(a)) + ("/" + Back(b))) == Front(path) + "/" + Back(Front(a)) + "/" + Back(b);
  }

  lemma HostWithoutColon()
    ensures FindLast("", ':') == -1
  {
  }

  // ----------------------------------------------------------------- printing

  function If(b: bool, s: string): string {
    if b then s else ""
  }

  function SchemePart(t: Trace): string {
    t.parts.scheme + If(t.hasScheme, "://")
  }

  function AuthorityPart(t: Trace): string {
    t.parts.host + If(t.hasPort, ":") + t.parts.port
  }

  function QueryPart(t: Trace): string {
    If(t.hasQuery, "?") + t.parts.query
  }

  function RestPart(t: Trace): string {
    AuthorityPart(t) + t.parts.path + QueryPart(t)
  }

  /** The components with the delimiters that were met. */
  function Assembled(t: Trace): string {
    SchemePart(t) + RestPart(t)
  }

  /** Scheme, host, optional port, path and query, as in section 3 of RFC 3986. */
  function Printed(c: Parts): string {
    Assembled(Trace(c, c.scheme != "", c.port != "", c.query != ""))
  }

  /** A component that is not empty has had its delimiter. */
  predicate Delimited(t: Trace) {
    && (t.parts.scheme != "" ==> t.hasScheme)
    && (t.parts.port != "" ==> t.hasPort)
    && (t.parts.query != "" ==> t.hasQuery)
  }

  lemma AuthorityAssembled(t: Trace, authority: string)
    requires t.parts.port == "" && !t.hasPort
    ensures var r := WithAuthority(t, authority);
      && AuthorityPart(r) == authority && r.hasScheme == t.hasScheme && r.hasQuery == t.hasQuery
      && (r.parts.port != "" ==> r.hasPort) && (r.hasPort <==> SplitsPort(authority))
  {
    FindLastIsLast(authority, ':');
    if SplitsPort(authority) {
      var p := FindLast(authority, ':');
      assert authority == authority[..p] + ":" + authority[p + 1..];
    } else {
      assert authority + "" + "" == authority;
    }
  }

  lemma Cut(s: string, pattern: string)
    requires Find(s, pattern) != -1
    ensures var p := Find(s, pattern); s == s[..p] + pattern + s[p + |pattern|..]
  {
    hide Find;
    FindIsFirst(s, pattern);
  }

  /** The pieces that follow the scheme, before the port is split off. */
  datatype Pieces = Pieces(authority: string, path: string, hasQuery: bool, query: string)

  function Cuts(s: string): Pieces {
    var p := Find(s, "/");
    var tmp := if p >= 0 then s[p..] else s;
    var q := Find(tmp, "?");
    if p >= 0 then
      if q >= 0 then Pieces(s[..p], tmp[..q], true, tmp[q + 1..]) else Pieces(s[..p], tmp, false, "")
    else
      if q >= 0 then Pieces(s[..q], "", true, s[q + 1..]) else Pieces(s, "", false, "")
  }

  lemma CutsJoin(s: string)
    ensures var c := Cuts(s); c.authority + c.path + (If(c.hasQuery, "?") + c.query) == s
    ensures !Cuts(s).hasQuery ==> Cuts(s).query == ""
  {
    hide Find;
    var p := Find(s, "/");
    var tmp := if p >= 0 then s[p..] else s;
    var q := Find(tmp, "?");
    if q >= 0 {
      Cut(tmp, "?");
      var front, back := tmp[..q], tmp[q + 1..];
      if p >= 0 {
        assert s == s[..p] + tmp;
        assert s[..p] + front + ("?" + back) == s[..p] + (front + "?" + back);
      } else {
        assert front + "" + ("?" + back) == front + "?" + back;
      }
    } else if p >= 0 {
      assert s == s[..p] + tmp;
      assert s[..p] + tmp + ("" + "") == s[..p] + tmp;
    } else {
      assert s + "" + ("" + "") == s;
    }
  }

  lemma AfterSchemeIs(t: Trace, s: string)
    requires t.parts == NOTHING.parts.(scheme := t.parts.scheme) && !t.hasPort && !t.hasQuery
    ensures var c, r := Cuts(s), AfterScheme(t, s);
      && AuthorityPart(r) == c.authority && r.parts.path == c.path && QueryPart(r) == If(c.hasQuery, "?") + c.query
      && r.parts.scheme == t.parts.scheme && r.hasScheme == t.hasScheme
      && r.hasQuery == c.hasQuery && r.parts.query == c.query
      && (r.hasPort <==> SplitsPort(c.authority)) && (r.parts.port != "" ==> r.hasPort)
  {
    hide Find, WithAuthority, SplitsPort;
    var c := Cuts(s);
    AuthorityAssembled(t.(parts := t.parts.(path := c.path)), c.authority);
    AuthorityAssembled(t, c.authority);
  }

  /** Everything between the delimiters is in some component. */
  lemma AfterSchemeAssembled(t: Trace, s: string)
    requires t.parts == NOTHING.parts.(scheme := t.parts.scheme) && !t.hasPort && !t.hasQuery
    ensures var r := AfterScheme(t, s);
      && RestPart(r) == s && SchemePart(r) == SchemePart(t)
      && (r.parts.port != "" ==> r.hasPort) && (r.parts.query != "" ==> r.hasQuery)
  {
    hide AfterScheme, AuthorityPart, QueryPart, Cuts, SplitsPort;
    AfterSchemeIs(t, s);
    CutsJoin(s);
  }

  /** A parsed URL with its delimiters is the URL without its leading blanks. */
  lemma TraceAssembles(url: string)
    ensures Assembled(Traced(url)) == LTrim(url) && Delimited(Traced(url))
  {
    hide Find, LTrim, AfterScheme, RestPart;
    var s := LTrim(url);
    var p := Find(s, "://");
    if p >= 0 {
      Cut(s, "://");
      AfterSchemeAssembled(NOTHING.(parts := NOTHING.parts.(scheme := s[..p]), hasScheme := true), s[p + 3..]);
      AfterSchemeKeeps(NOTHING.(parts := NOTHING.parts.(scheme := s[..p]), hasScheme := true), s[p + 3..]);
    } else {
      AfterSchemeAssembled(NOTHING, s);
      AfterSchemeKeeps(NOTHING, s);
      assert "" + "" + s == s;
    }
  }

  lemma AfterSchemeKeeps(t: Trace, s: string)
    ensures AfterScheme(t, s).hasScheme == t.hasScheme && AfterScheme(t, s).parts.scheme == t.parts.scheme
  {
    hide Find, SplitsPort;
  }

  // ---------------------------------------------------------------- round trip

  predicate Contains(s: string, pattern: string) { Find(s, pattern) != -1 }

  predicate StartsBlank(s: string) { s != "" && Blank(s[0]) }

  /** What a caller can check before printing. */
  predicate WellFormed(c: Parts) {
    && (if c.scheme != "" then !StartsBlank(c.scheme) && !Contains(c.scheme, "://")
        else !StartsBlank(Printed(c)) && !Contains(Printed(c), "://"))
    && '/' !in c.host && '/' !in c.port
    && (c.path != "" ==> c.path[0] == '/' && '?' !in c.path)
    && (c.path == "" ==> '?' !in c.host && '?' !in c.port && '/' !in c.query)
    && (if c.port != "" then ':' !in c.port && ']' !in c.port else !SplitsPort(c.host))
  }

  lemma FindIs(s: string, pattern: string, k: nat)
    requires At(s, pattern, k) && forall i :: 0 <= i < k ==> !At(s, pattern, i)
    ensures Find(s, pattern) == k
  {
    hide Find;
    FindIsFirst(s, pattern);
  }

  lemma FindIsNot(s: string, pattern: string)
    requires forall i :: !At(s, pattern, i)
    ensures Find(s, pattern) == -1
  {
    hide Find;
    FindIsFirst(s, pattern);
  }

  lemma AtChar(s: string, c: char, i: int)
    ensures At(s, [c], i) <==> 0 <= i < |s| && s[i] == c
  {
    if 0 <= i < |s| {
      assert s[i..i + 1] == [s[i]];
    }
  }

  /** find of a single character. */
  lemma FindChar(front: string, c: char, back: string)
    requires c !in front
    ensures Find(front + [c] + back, [c]) == |front|
    ensures Find(front, [c]) == -1
  {
    hide Find;
    var s := front + [c] + back;
    forall i ensures At(s, [c], i) <==> 0 <= i < |s| && s[i] == c { AtChar(s, c, i); }
    forall i ensures !At(front, [c], i) { AtChar(front, c, i); }
    FindIs(s, [c], |front|);
    FindIsNot(front, [c]);
  }

  lemma FrontHasNone(s: string, c: char)
    ensures Find(s, [c]) == -1 ==> c !in s
    ensures Find(s, [c]) != -1 ==> c !in s[..Find(s, [c])] && s[Find(s, [c])] == c
  {
    hide Find;
    FindIsFirst(s, [c]);
    forall i ensures At(s, [c], i) <==> 0 <= i < |s| && s[i] == c { AtChar(s, c, i); }
  }

  lemma SeparatorChars(s: string, i: nat)
    ensures At(s, "://", i) ==> i + 2 < |s| && s[i + 1] == '/' && s[i + 2] == '/'
  {
    if At(s, "://", i) {
      assert s[i + 1] == s[i..i + 3][1] && s[i + 2] == s[i..i + 3][2];
    }
  }

  /** "://" cannot overlap itself, so the first one is the delimiter. */
  lemma FindSeparator(scheme: string, rest: string)
    requires !Contains(scheme, "://")
    ensures Find(scheme + "://" + rest, "://") == |scheme|
  {
    hide Find;
    var s := scheme + "://" + rest;
    FindIsFirst(scheme, "://");
    assert s[|scheme|] == ':';
    forall i | 0 <= i < |scheme| ensures !At(s, "://", i) {
      if i + 3 <= |scheme| {
        assert s[i..i + 3] == scheme[i..i + 3];
        assert !At(scheme, "://", i);
      } else {
        SeparatorChars(s, i);
      }
    }
    FindIs(s, "://", |scheme|);
  }

  lemma SchemeHasNoSeparator(s: string)
    requires Find(s, "://") != -1
    ensures !Contains(s[..Find(s, "://")], "://")
  {
    hide Find;
    var p := Find(s, "://");
    FindIsFirst(s, "://");
    forall i ensures !At(s[..p], "://", i) {
      if 0 <= i && i + 3 <= p {
        assert s[..p][i..i + 3] == s[i..i + 3];
        assert At(s[..p], "://", i) ==> At(s, "://", i);
      }
    }
    FindIsNot(s[..p], "://");
  }

  lemma FindLastIs(s: string, c: char, k: nat)
    requires k < |s| && s[k] == c && c !in s[k + 1..]
    ensures FindLast(s, c) == k
  {
    hide FindLast;
    FindLastIsLast(s, c);
    assert forall i :: k < i < |s| ==> s[i] == s[k + 1..][i - k - 1];
  }

  // ------------------------------------------ well-formed parts come back

  lemma CutsOfPrinted(authority: string, path: string, query: string)
    requires '/' !in authority
    requires path != "" ==> path[0] == '/' && '?' !in path
    requires path == "" ==> '?' !in authority && '/' !in query
    ensures Cuts(authority + path + (If(query != "", "?") + query)) == Pieces(authority, path, query != "", query)
  {
    hide Cuts;
    if path != "" {
      CutsWithPath(authority, path, query);
    } else {
      CutsWithoutPath(authority, query);
      assert authority + "" + (If(query != "", "?") + query) == authority + (If(query != "", "?") + query);
    }
  }

  lemma CutsWithPath(authority: string, path: string, query: string)
    requires '/' !in authority && path != "" && path[0] == '/' && '?' !in path
    ensures Cuts(authority + path + (If(query != "", "?") + query)) == Pieces(authority, path, query != "", query)
  {
    hide Find;
    var tail := If(query != "", "?") + query;
    var s := authority + path + tail;
    FindChar(authority, '/', path[1..] + tail);
    assert s == authority + ['/'] + (path[1..] + tail);
    assert s[..|authority|] == authority;
    assert s[|authority|..] == path + tail;
    FindChar(path, '?', query);
    if query != "" {
      var tmp := path + ['?'] + query;
      assert path + tail == tmp;
      assert tmp[..|path|] == path && tmp[|path| + 1..] == query;
    } else {
      assert path + tail == path;
    }
  }

  lemma CutsWithoutPath(authority: string, query: string)
    requires '/' !in authority && '?' !in authority && '/' !in query
    ensures Cuts(authority + (If(query != "", "?") + query)) == Pieces(authority, "", query != "", query)
  {
    hide Find;
    var s := authority + (If(query != "", "?") + query);
    FindChar(s, '/', "");
    FindChar(authority, '?', query);
    if query != "" {
      assert s == authority + ['?'] + query;
      assert s[..|authority|] == authority && s[|authority| + 1..] == query;
    } else {
      assert s == authority;
    }
  }

  lemma AuthorityOfPrinted(t: Trace, host: string, port: string)
    requires t.parts.port == ""
    requires if port != "" then ':' !in port && ']' !in port else !SplitsPort(host)
    ensures WithAuthority(t, host + If(port != "", ":") + port).parts == t.parts.(host := host, port := port)
  {
    var authority := host + If(port != "", ":") + port;
    if port != "" {
      hide FindLast;
      assert authority[|host| + 1..] == port && authority[..|host|] == host;
      FindLastIs(authority, ':', |host|);
      FindLastIsLast(authority, ']');
      assert forall i :: |host| < i < |authority| ==> authority[i] == port[i - |host| - 1];
    } else {
      assert authority == host;
    }
  }

  lemma AfterSchemeParts(t: Trace, s: string)
    requires t.parts == NOTHING.parts.(scheme := t.parts.scheme)
    ensures var c := Cuts(s);
      AfterScheme(t, s).parts ==
      WithAuthority(t.(parts := t.parts.(path := c.path)), c.authority).parts.(query := c.query)
  {
    hide Find, WithAuthority;
  }

  lemma LTrimKeeps(s: string)
    requires !StartsBlank(s)
    ensures LTrim(s) == s
  {
  }

  /** Printing well-formed components and parsing the result gives them back. */
  lemma RoundTrip(c: Parts)
    requires WellFormed(c)
    ensures Parsed(Printed(c)) == c
  {
    hide Find, LTrim, AfterScheme, RestPart;
    var t := Trace(c, c.scheme != "", c.port != "", c.query != "");
    var s, rest := Printed(c), RestPart(t);
    var from := NOTHING.(parts := NOTHING.parts.(scheme := c.scheme), hasScheme := c.scheme != "");
    RestOfPrinted(c, from);
    if c.scheme != "" {
      assert s == c.scheme + "://" + rest;
      LTrimKeeps(s);
      FindSeparator(c.scheme, rest);
      assert s[..|c.scheme|] == c.scheme && s[|c.scheme| + 3..] == rest;
    } else {
      assert s == rest;
      LTrimKeeps(s);
    }
  }

  lemma RestOfPrinted(c: Parts, from: Trace)
    requires WellFormed(c) && from.parts == NOTHING.parts.(scheme := c.scheme)
    ensures AfterScheme(from, RestPart(Trace(c, c.scheme != "", c.port != "", c.query != ""))).parts == c
  {
    hide Find, WithAuthority, Cuts, SplitsPort, AfterScheme;
    var authority := c.host + If(c.port != "", ":") + c.port;
    var rest := authority + c.path + (If(c.query != "", "?") + c.query);
    CutsOfPrinted(authority, c.path, c.query);
    AfterSchemeParts(from, rest);
    AuthorityOfPrinted(from.(parts := from.parts.(path := c.path)), c.host, c.port);
  }

  // ------------------------------------------- and only those come back

  lemma CutsShape(s: string)
    ensures var c := Cuts(s);
      && '/' !in c.authority
      && (c.path != "" ==> c.path[0] == '/' && '?' !in c.path)
      && (c.path == "" ==> '?' !in c.authority && '/' !in c.query)
  {
    hide Find;
    FrontHasNone(s, '/');
    var p := Find(s, "/");
    var tmp := if p >= 0 then s[p..] else s;
    FrontHasNone(tmp, '?');
    var q := Find(tmp, "?");
    if p >= 0 {
      assert tmp[0] == '/';
      assert q != 0;
    }
  }

  lemma AuthorityShape(t: Trace, authority: string)
    requires t.parts.port == "" && !t.hasPort && '/' !in authority
    ensures var r := WithAuthority(t, authority);
      && '/' !in r.parts.host && '/' !in r.parts.port
      && ('?' !in authority ==> '?' !in r.parts.host && '?' !in r.parts.port)
      && (if r.hasPort then ':' !in r.parts.port && ']' !in r.parts.port else !SplitsPort(r.parts.host))
  {
    hide FindLast;
    FindLastIsLast(authority, ':');
    FindLastIsLast(authority, ']');
  }

  lemma RestShape(t: Trace, s: string)
    requires t.parts == NOTHING.parts.(scheme := t.parts.scheme) && !t.hasPort && !t.hasQuery
    ensures var r := AfterScheme(t, s); var c := r.parts;
      && '/' !in c.host && '/' !in c.port
      && (c.path != "" ==> c.path[0] == '/' && '?' !in c.path)
      && (c.path == "" ==> '?' !in c.host && '?' !in c.port && '/' !in c.query)
      && (if r.hasPort then ':' !in c.port && ']' !in c.port else !SplitsPort(c.host))
  {
    hide AfterScheme, Cuts, WithAuthority, SplitsPort, AuthorityPart;
    var c := Cuts(s);
    CutsShape(s);
    AfterSchemeParts(t, s);
    AfterSchemeIs(t, s);
    var u := t.(parts := t.parts.(path := c.path));
    AuthorityShape(u, c.authority);
    AuthorityAssembled(u, c.authority);
  }

  lemma TraceShape(url: string)
    ensures var r := Traced(url); var c := r.parts;
      && (if r.hasScheme then !StartsBlank(c.scheme) && !Contains(c.scheme, "://") else !Contains(LTrim(url), "://"))
      && '/' !in c.host && '/' !in c.port
      && (c.path != "" ==> c.path[0] == '/' && '?' !in c.path)
      && (c.path == "" ==> '?' !in c.host && '?' !in c.port && '/' !in c.query)
      && (if r.hasPort then ':' !in c.port && ']' !in c.port else !SplitsPort(c.host))
  {
    hide Find, LTrim, AfterScheme, SplitsPort;
    var s := LTrim(url);
    LTrimDropsBlanks(url);
    var p := Find(s, "://");
    if p >= 0 {
      var t := NOTHING.(parts := NOTHING.parts.(scheme := s[..p]), hasScheme := true);
      SchemeHasNoSeparator(s);
      RestShape(t, s[p + 3..]);
      AfterSchemeKeeps(t, s[p + 3..]);
    } else {
      RestShape(NOTHING, s);
      AfterSchemeKeeps(NOTHING, s);
    }
  }

  /** If parsing gives the parts back, it has met exactly the delimiters that were printed. */
  lemma SameDelimiters(c: Parts)
    requires Parsed(Printed(c)) == c
    ensures Traced(Printed(c)) == Trace(c, c.scheme != "", c.port != "", c.query != "")
    ensures LTrim(Printed(c)) == Printed(c)
  {
    var s, t := Printed(c), Trace(c, c.scheme != "", c.port != "", c.query != "");
    assert s == Assembled(t);
    ParsedIs(s);
    hide Traced, LTrim, Printed, Assembled, Parsed;
    TraceAssembles(s);
    LTrimDropsBlanks(s);
    assert |Assembled(Traced(s))| <= |s|;
    AssembledLength(t);
    AssembledLength(Traced(s));
  }

  lemma AssembledLength(t: Trace)
    ensures |Assembled(t)| ==
      |t.parts.scheme| + |t.parts.host| + |t.parts.port| + |t.parts.path| + |t.parts.query| +
      (if t.hasScheme then 3 else 0) + (if t.hasPort then 1 else 0) + (if t.hasQuery then 1 else 0)
  {
  }

  lemma OnlyWellFormed(c: Parts)
    requires Parsed(Printed(c)) == c
    ensures WellFormed(c)
  {
    hide Traced, Parsed, LTrim, Find, SplitsPort, Printed;
    SameDelimiters(c);
    TraceShape(Printed(c));
    LTrimDropsBlanks(Printed(c));
    assert Parsed(Printed(c)) == Traced(Printed(c)).parts by { ParsedIs(Printed(c)); }
  }

  lemma ParsedIs(url: string)
    ensures Parsed(url) == Traced(url).parts
  {
    hide Traced;
  }

  /** URL round trip: parsing undoes printing exactly on well-formed components. */
  lemma RoundTripIff(c: Parts)
    ensures Parsed(Printed(c)) == c <==> WellFormed(c)
  {
    hide Parsed, Printed, WellFormed;
    if WellFormed(c) { RoundTrip(c); }
    if Parsed(Printed(c)) == c { OnlyWellFormed(c); }
  }

  /** Printing and parsing in full: well-formed components, none of them empty. */
  lemma FullUrl(c: Parts)
    requires c.scheme != "" && c.port != "" && c.path != "" && c.query != ""
    ensures Parsed(c.scheme + "://" + c.host + ":" + c.port + c.path + "?" + c.query) == c <==> WellFormed(c)
  {
    FullyPrinted(c);
    hide Parsed, Printed, WellFormed;
    RoundTripIff(c);
  }

  lemma FullyPrinted(c: Parts)
    requires c.scheme != "" && c.port != "" && c.path != "" && c.query != ""
    ensures Printed(c) == c.scheme + "://" + c.host + ":" + c.port + c.path + "?" + c.query
  {
    var t := Trace(c, true, true, true);
    assert RestPart(t) == c.host + ":" + c.port + c.path + ("?" + c.query);
    assert c.scheme + "://" + (c.host + ":" + c.port + c.path + ("?" + c.query)) ==
           c.scheme + "://" + c.host + ":" + c.port + c.path + "?" + c.query;
  }

  /** A host alone parses as itself, whether it is a name or a bracketed address. */
  lemma HostAlone(host: string)
    requires host != "" && host[0] != ' ' && host[0] != '\t'
    requires '/' !in host && '?' !in host
    requires ':' !in host || host[|host| - 1] == ']'
    ensures Parsed(host) == Parts("", host, "", "", "")
  {
    var c := Parts("", host, "", "", "");
    assert Printed(c) == host;
    NoSlashNoSeparator(host);
    BracketedIsNoPort(host);
    hide Parsed, Printed, Contains, SplitsPort;
    assert WellFormed(c);
    RoundTripIff(c);
  }

  lemma NoSlashNoSeparator(s: string)
    requires '/' !in s
    ensures !Contains(s, "://")
  {
    forall i: nat ensures !At(s, "://", i) {
      if i + 3 <= |s| {
        assert s[i..i + 3][1] == s[i + 1];
      }
    }
    FindIsFirst(s, "://");
  }

  lemma BracketedIsNoPort(host: string)
    requires host != "" && (':' !in host || host[|host| - 1] == ']')
    ensures !SplitsPort(host)
  {
    FindLastIsLast(host, ':');
    FindLastIsLast(host, ']');
  }
}
