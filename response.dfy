/**
 * The web response object (bin/response.py): the status, the header
 * table, the body chunks with their running byte count, an optional file
 * to send after them, and the request environment with the path and
 * cookie it reads on demand and remembers.
 *
 * The WSGI environment is a map of strings; the posted body stream is a
 * byte sequence beside it.  A file handed to the response is the bytes
 * from its cursor to its end.  The clock that stamps a cookie's expiry
 * and the JSON decoding of a posted body are passed in or left to the
 * caller.
 */
module Response {
  import opened Py
  import opened Templates

  /** A header value: text, or the list kept for 'Set-Cookie'. */
  datatype Value = Text(text: string) | Texts(items: seq<string>)

  /** The bytes of an open file from its cursor to its end. */
  datatype File = File(rest: seq<byte>)

  /** What `getJsonPost` finds: nothing posted, or the body to decode. */
  datatype Posted = NoPost | Body(bytes: seq<byte>)

  /** The body chunks of the canned replies (lines 96, 105, 114, 123, 134). */
  const NotFound: seq<byte> := Ascii("404 - Not found; your URL has been fed to the friendly neighborhood grue")
  const Forbidden: seq<byte> := Ascii("403 - Access denied; fortunatly for you the friendly neighbourhood grue is on a diet")
  const Teapot: seq<byte> := Ascii("418 - Due to the extensive use of improbability drives in this galactic neighbourhood at the precise moment you made the request the server was a teapot.")
  const Failed: seq<byte> := Ascii("500 - Internal server error. Sorry about that.")
  const Refreshed: seq<byte> := Ascii("303 - refresh page")

  /** A `b'...'` literal: one byte per character. */
  function Ascii(s: string): (r: seq<byte>)
    ensures |r| == |s| && forall i :: 0 <= i < |s| && s[i] as int < 256 ==> r[i] as int == s[i] as int
  {
    seq(|s|, i requires 0 <= i < |s| => (s[i] as int % 256) as byte)
  }

  /** The one header of a canned reply. */
  const PlainHead: Table<Value> := [("Content-type", Text("text/plain"))]

  /** Size of the pieces a file is sent in (line 235). */
  const Piece := 1024

  // ---------------------------------------------------------------------------
  // Specification

  /** All chunks of `data` one after another. */
  function Flat(data: seq<seq<byte>>): seq<byte> {
    if |data| == 0 then [] else Flat(data[..|data| - 1]) + data[|data| - 1]
  }

  /** Sum of the chunk lengths of `data`. */
  function TotalLen(data: seq<seq<byte>>): nat {
    if |data| == 0 then 0 else TotalLen(data[..|data| - 1]) + |data[|data| - 1]|
  }

  /** Line 48: the terms of a request path. */
  function PathOf(info: string): (r: seq<string>)
    ensures |r| >= 1 && forall k :: 0 <= k < |r| ==> '/' !in r[k]
  {
    SplitChar(StripChar(RStripChar(info, '/'), '/'), '/')
  }

  /** The cookie dictionary so far, and whether every pair so far had an '='. */
  datatype Parsed = Parsed(jar: map<string, string>, whole: bool)

  /**
   * Lines 55-59 over the pairs `ps`, each read by `pair`: stops at the
   * first pair it cannot split.
   */
  function CookieFold(ps: seq<string>, pair: string -> Option<(string, string)>): Parsed {
    if |ps| == 0 then Parsed(map[], true)
    else
      var c := CookieFold(ps[..|ps| - 1], pair);
      if !c.whole then c
      else
        match pair(ps[|ps| - 1])
        case None => Parsed(c.jar, false)
        case Some((k, v)) => Parsed(c.jar[k := v], true)
  }

  /** Lines 58-59: one pair split at its first '=', both sides stripped of whitespace. */
  function Pair(p: string): Option<(string, string)> {
    match SplitOnce(p, "=")
    case None => None
    case Some((k, v)) => Some((Strip(k), Strip(v)))
  }

  /** Line 57: the pairs of a cookie header. */
  function CookiePairs(env: map<string, string>): seq<string> {
    if "HTTP_COOKIE" in env then SplitChar(env["HTTP_COOKIE"], ';') else []
  }

  /** Lines 79-81: the declared length of the posted body, 0 when absent or not a number. */
  function ContentLength(env: map<string, string>): (n: int)
    ensures "CONTENT_LENGTH" !in env ==> n == 0
    ensures "CONTENT_LENGTH" in env && ParseInt(env["CONTENT_LENGTH"]).None? ==> n == 0
    ensures "CONTENT_LENGTH" in env && ParseInt(env["CONTENT_LENGTH"]).Some? ==> n == ParseInt(env["CONTENT_LENGTH"]).value
  {
    var text := if "CONTENT_LENGTH" in env then env["CONTENT_LENGTH"] else "0";
    match ParseInt(text)
    case None => 0
    case Some(n) => n
  }

  /** Line 88: `read(n)` on a stream: all of it for a negative `n`, at most `n` bytes otherwise. */
  function Read(input: seq<byte>, n: int): (r: seq<byte>)
    ensures n < 0 || n >= |input| ==> r == input
    ensures 0 <= n < |input| ==> r == input[..n] && |r| == n
  {
    if n < 0 || n >= |input| then input else input[..n]
  }

  /** Does the header value `w` produce the line value `v`? */
  predicate Carries(w: Value, v: string) {
    match w
    case Text(t) => t == v
    case Texts(items) => v in items
  }

  /** The lines of one header value (lines 210-214). */
  function Lines(k: string, w: Value): (r: seq<(string, string)>)
    ensures forall v :: (k, v) in r <==> Carries(w, v)
    ensures forall j :: 0 <= j < |r| ==> r[j].0 == k
  {
    match w
    case Text(t) => [(k, t)]
    case Texts(items) =>
      var r := seq(|items|, j requires 0 <= j < |items| => (k, items[j]));
      assert forall v :: v in items ==> (k, v) in r by {
        forall v | v in items ensures (k, v) in r {
          var j :| 0 <= j < |items| && items[j] == v;
          assert r[j] == (k, v);
        }
      }
      r
  }

  /** Lines 207-214: one (key, value) line per header, one per element of a list. */
  function Flatten(head: Table<Value>): seq<(string, string)> {
    if |head| == 0 then []
    else
      var n := |head| - 1;
      Flatten(head[..n]) + Lines(head[n].0, head[n].1)
  }

  /** Line 186-188: one Set-Cookie entry. */
  function CookieLine(key: string, value: string, expire: string): (r: string)
    ensures StartsWith(r, key + "=" + value + "; Expire=")
    ensures EndsWith(r, "; Path=/; HttpOnly")
  {
    var r := key + "=" + value + "; Expire=" + expire + ";" + " Path=/; HttpOnly";
    assert r[..|key + "=" + value + "; Expire="|] == key + "=" + value + "; Expire=";
    assert r[|r| - |"; Path=/; HttpOnly"|..] == "; Path=/; HttpOnly";
    r
  }

  /** The cookies set so far. */
  function CookiesSet(head: Table<Value>): seq<string> {
    var w := Lookup(head, "Set-Cookie");
    if w.Some? && w.value.Texts? then w.value.items else []
  }

  /** Lines 234-237: the pieces a file is sent in. */
  function Pieces(rest: seq<byte>): seq<seq<byte>>
    decreases |rest|
  {
    if |rest| == 0 then [] else if |rest| <= Piece then [rest] else [rest[..Piece]] + Pieces(rest[Piece..])
  }

  // ---------------------------------------------------------------------------
  // Lemmas

  /** The running count is the number of bytes the chunks hold. */
  lemma {:induction false} TotalLenFlat(data: seq<seq<byte>>)
    ensures TotalLen(data) == |Flat(data)|
  {
    if |data| > 0 {
      TotalLenFlat(data[..|data| - 1]);
    }
  }

  /** Chunks appended one after the other. */
  lemma {:induction false} FlatAppend(a: seq<seq<byte>>, b: seq<seq<byte>>)
    ensures Flat(a + b) == Flat(a) + Flat(b)
    decreases |b|
  {
    if |b| > 0 {
      var n := |b| - 1;
      assert (a + b)[..|a + b| - 1] == a + b[..n];
      assert (a + b)[|a + b| - 1] == b[n];
      FlatAppend(a, b[..n]);
      calc {
        Flat(a + b);
        Flat(a + b[..n]) + b[n];
        Flat(a) + Flat(b[..n]) + b[n];
        Flat(a) + (Flat(b[..n]) + b[n]);
        Flat(a) + Flat(b);
      }
    } else {
      assert a + b == a;
    }
  }

  /** Sending a file in pieces sends all of it, in order, in pieces of at most 1024 bytes. */
  lemma {:induction false} PiecesWhole(rest: seq<byte>)
    ensures Flat(Pieces(rest)) == rest
    ensures forall j :: 0 <= j < |Pieces(rest)| ==> 0 < |Pieces(rest)[j]| <= Piece
    decreases |rest|
  {
    if |rest| > Piece {
      PiecesWhole(rest[Piece..]);
      FlatAppend([rest[..Piece]], Pieces(rest[Piece..]));
      assert Flat([rest[..Piece]]) == rest[..Piece] by {
        assert [rest[..Piece]][..0] == [];
      }
      assert rest[..Piece] + rest[Piece..] == rest;
    } else if |rest| > 0 {
      assert [rest][..0] == [];
    }
  }

  /**
   * Line 48: the terms joined with '/' give back the path without its
   * leading and trailing slashes, and no term holds a '/'.
   */
  lemma PathRoundTrip(info: string)
    ensures Join(PathOf(info), "/") == StripChar(RStripChar(info, '/'), '/')
    ensures forall k :: 0 <= k < |PathOf(info)| ==> '/' !in PathOf(info)[k]
  {
    JoinSplitChar(StripChar(RStripChar(info, '/'), '/'), '/');
  }

  /** Line 58: the cookie parses whole exactly when every pair splits. */
  lemma {:induction false} CookieWhole(ps: seq<string>, pair: string -> Option<(string, string)>)
    ensures CookieFold(ps, pair).whole <==> forall i :: 0 <= i < |ps| ==> pair(ps[i]).Some?
  {
    if |ps| > 0 {
      var n := |ps| - 1;
      var front := ps[..n];
      CookieWhole(front, pair);
      if CookieFold(ps, pair).whole {
        assert CookieFold(front, pair).whole && pair(ps[n]).Some?;
        forall i | 0 <= i < |ps| ensures pair(ps[i]).Some? {
          if i < n {
            assert front[i] == ps[i];
          }
        }
      } else if CookieFold(front, pair).whole {
        assert pair(ps[n]).None?;
      } else {
        var i :| 0 <= i < n && pair(front[i]).None?;
        assert ps[i] == front[i];
      }
    }
  }

  /** Lines 58-59: a whole cookie holds a key exactly when some pair names it. */
  lemma {:induction false} CookieKeys(ps: seq<string>, key: string, pair: string -> Option<(string, string)>)
    requires CookieFold(ps, pair).whole
    ensures key in CookieFold(ps, pair).jar <==> exists i :: 0 <= i < |ps| && Names(ps[i], key, pair)
  {
    if |ps| > 0 {
      var n := |ps| - 1;
      var front := ps[..n];
      assert CookieFold(front, pair).whole;
      CookieKeys(front, key, pair);
      var last := pair(ps[n]).value;
      assert CookieFold(ps, pair).jar == CookieFold(front, pair).jar[last.0 := last.1];
      if key in CookieFold(ps, pair).jar {
        if key == last.0 {
          assert Names(ps[n], key, pair);
        } else {
          var i :| 0 <= i < n && Names(front[i], key, pair);
          assert ps[i] == front[i];
        }
      } else {
        forall i | 0 <= i < |ps| ensures !Names(ps[i], key, pair) {
          if i < n {
            assert ps[i] == front[i];
          }
        }
      }
    }
  }

  /** Line 58: a pair splits exactly when it holds an '='. */
  lemma PairSplits(p: string)
    ensures Pair(p).Some? <==> Contains(p, "=")
  {
  }

  /** The pair `p` sets the cookie `key`. */
  predicate Names(p: string, key: string, pair: string -> Option<(string, string)>) {
    pair(p).Some? && pair(p).value.0 == key
  }

  /** Line 57: a cookie header that is empty has one empty pair, which raises. */
  lemma EmptyCookie()
    ensures !CookieFold(SplitChar("", ';'), Pair).whole
  {
    assert SplitChar("", ';') == [""];
    CookieWhole([""], Pair);
    PairSplits("");
    assert !Contains("", "=");
  }

  /** Lines 209-214: the lines of the header are exactly the values it carries. */
  lemma {:induction false} FlattenMembers(head: Table<Value>, k: string, v: string)
    ensures (k, v) in Flatten(head) <==> exists i :: 0 <= i < |head| && head[i].0 == k && Carries(head[i].1, v)
  {
    if |head| > 0 {
      var n := |head| - 1;
      FlattenMembers(head[..n], k, v);
      assert forall i :: 0 <= i < n ==> head[..n][i] == head[i];
    }
  }

  /** A header table of plain text values flattens to itself. */
  lemma {:induction false} FlattenText(head: Table<Value>)
    requires forall i :: 0 <= i < |head| ==> head[i].1.Text?
    ensures |Flatten(head)| == |head|
    ensures forall i :: 0 <= i < |head| ==> Flatten(head)[i] == (head[i].0, head[i].1.text)
  {
    if |head| > 0 {
      var n := |head| - 1;
      FlattenText(head[..n]);
    }
  }

  // ---------------------------------------------------------------------------
  // The response object

  class Response {
    var env: map<string, string>
    var input: seq<byte>
    var code: string
    var head: Table<Value>
    var data: seq<seq<byte>>
    var length: int
    var f: Option<File>
    var path: Option<seq<string>>
    var cookie: Option<map<string, string>>

    /** Line 32: `length` counts the bytes of `data`; 'Set-Cookie', when present, is a list. */
    predicate Valid()
      reads this
    {
      length == TotalLen(data) && Unique(head)
      && (Lookup(head, "Set-Cookie").None? || Lookup(head, "Set-Cookie").value.Texts?)
    }

    /** Lines 26-37. */
    constructor(environ: map<string, string>, body: seq<byte>)
      ensures Valid()
      ensures env == environ && input == body
      ensures code == "200 OK" && head == [] && data == [] && length == 0 && f.None?
      ensures path.None? && cookie.None?
    {
      env := environ;
      input := body;
      code := "200 OK";
      head := [];
      data := [];
      length := 0;
      f := None;
      path := None;
      cookie := None;
    }

    /** Lines 45-49: the terms of the path, worked out on the first call and remembered. */
    method GetPath() returns (r: Outcome<seq<string>>)
      modifies this
      ensures old(path).Some? ==> r == Ok(old(path).value) && path == old(path)
      ensures old(path).None? && "PATH_INFO" !in env ==> r == Raise(KeyError) && path.None?
      ensures old(path).None? && "PATH_INFO" in env ==> r == Ok(PathOf(env["PATH_INFO"])) && path == Some(r.value)
      ensures env == old(env) && input == old(input) && code == old(code) && head == old(head)
      ensures data == old(data) && length == old(length) && f == old(f) && cookie == old(cookie)
    {
      if path.None? {
        if "PATH_INFO" !in env {
          return Raise(KeyError);
        }
        path := Some(PathOf(env["PATH_INFO"]));
      }
      return Ok(path.value);
    }

    /**
     * Lines 52-60: the cookie dictionary, worked out on the first call and
     * remembered.  A pair without '=' raises, and the dictionary filled so
     * far is what later calls return.
     */
    method GetCookie() returns (r: Outcome<map<string, string>>)
      modifies this
      ensures old(cookie).Some? ==> r == Ok(old(cookie).value) && cookie == old(cookie)
      ensures old(cookie).None? ==>
        var c := CookieFold(CookiePairs(env), Pair);
        cookie == Some(c.jar) && r == (if c.whole then Ok(c.jar) else Raise(ValueError))
      ensures env == old(env) && input == old(input) && code == old(code) && head == old(head)
      ensures data == old(data) && length == old(length) && f == old(f) && path == old(path)
    {
      if cookie.Some? {
        return Ok(cookie.value);
      }
      var ps := CookiePairs(env);
      var jar: map<string, string> := map[];
      for k := 0 to |ps|
        invariant CookieFold(ps[..k], Pair) == Parsed(jar, true)
      {
        assert ps[..k + 1][..k] == ps[..k];
        match Pair(ps[k])
        case None =>
          CookieStopped(ps, k, Pair);
          cookie := Some(jar);
          return Raise(ValueError);
        case Some((key, value)) =>
          jar := jar[key := value];
      }
      assert ps[..|ps|] == ps;
      cookie := Some(jar);
      return Ok(jar);
    }

    /** Lines 75-89: the posted body, or nothing when the declared length is 0. */
    method GetJsonPost() returns (r: Posted)
      ensures r.NoPost? <==> ContentLength(env) == 0
      ensures r.Body? ==> r.bytes == Read(input, ContentLength(env))
    {
      var n := ContentLength(env);
      if n == 0 {
        return NoPost;
      }
      return Body(Read(input, n));
    }

    /** Lines 92-136: a canned reply with one plain-text chunk. */
    method Canned(status: string, message: seq<byte>)
      modifies this
      ensures Valid()
      ensures code == status && head == PlainHead && data == [message] && length == |message| && f.None?
      ensures env == old(env) && input == old(input) && path == old(path) && cookie == old(cookie)
    {
      code := status;
      head := PlainHead;
      data := [message];
      length := |message|;
      f := None;
      assert [message][..0] == [];
    }

    /** Lines 92-98. */
    method Make404()
      modifies this
      ensures Valid()
      ensures code == "404 NOT FOUND" && head == PlainHead && data == [NotFound] && length == |NotFound| && f.None?
      ensures env == old(env) && input == old(input) && path == old(path) && cookie == old(cookie)
    {
      Canned("404 NOT FOUND", NotFound);
    }

    /** Lines 101-107. */
    method Make403()
      modifies this
      ensures Valid()
      ensures code == "403 FORBIDDEN" && head == PlainHead && data == [Forbidden] && length == |Forbidden| && f.None?
      ensures env == old(env) && input == old(input) && path == old(path) && cookie == old(cookie)
    {
      Canned("403 FORBIDDEN", Forbidden);
    }

    /** Lines 110-116. */
    method Make418()
      modifies this
      ensures Valid()
      ensures code == "418 I'M A TEAPOT" && head == PlainHead && data == [Teapot] && length == |Teapot| && f.None?
      ensures env == old(env) && input == old(input) && path == old(path) && cookie == old(cookie)
    {
      Canned("418 I'M A TEAPOT", Teapot);
    }

    /** Lines 119-125. */
    method Make500()
      modifies this
      ensures Valid()
      ensures code == "500 INTERNAL SERVER ERROR" && head == PlainHead && data == [Failed] && length == |Failed| && f.None?
      ensures env == old(env) && input == old(input) && path == old(path) && cookie == old(cookie)
    {
      Canned("500 INTERNAL SERVER ERROR", Failed);
    }

    /** Lines 128-136: a redirect back to the requested path; a missing path raises before anything changes. */
    method Refresh() returns (r: Outcome<()>)
      modifies this
      ensures "PATH_INFO" !in old(env) ==> r == Raise(KeyError) && unchanged(this)
      ensures "PATH_INFO" in old(env) ==> r == Ok(()) && Redirected(old(env)["PATH_INFO"])
      ensures env == old(env) && input == old(input) && path == old(path) && cookie == old(cookie)
    {
      if "PATH_INFO" !in env {
        return Raise(KeyError);
      }
      Redirect(env["PATH_INFO"]);
      return Ok(());
    }

    /** Lines 131-136: the state of a redirect to `to`. */
    predicate Redirected(to: string)
      reads this
    {
      Valid() && code == "303 REFRESH" && head == PlainHead + [("Location", Text(to))]
      && data == [Refreshed] && length == |Refreshed| && f.None?
    }

    /** Lines 131-136. */
    method Redirect(to: string)
      modifies this
      ensures Redirected(to)
      ensures env == old(env) && input == old(input) && path == old(path) && cookie == old(cookie)
    {
      Canned("303 REFRESH", Refreshed);
      head := head + [("Location", Text(to))];
      assert Lookup(head, "Set-Cookie").None? by {
        assert head[0].0 != "Set-Cookie" && head[1].0 != "Set-Cookie";
      }
    }

    /** Lines 139-171: one of the set* methods, naming the content type. */
    method SetContentType(mime: string)
      requires Valid()
      modifies this
      ensures Valid()
      ensures head == Assign(old(head), "Content-type", Text(mime))
      ensures Lookup(head, "Content-type") == Some(Text(mime))
      ensures forall q :: q != "Content-type" ==> Lookup(head, q) == Lookup(old(head), q)
      ensures code == old(code) && data == old(data) && length == old(length) && f == old(f)
      ensures env == old(env) && input == old(input) && path == old(path) && cookie == old(cookie)
    {
      AssignUnique(head, "Content-type", Text(mime));
      head := Assign(head, "Content-type", Text(mime));
    }

    /** Lines 174-176. */
    method AllowCache(seconds: int)
      requires Valid()
      modifies this
      ensures Valid()
      ensures Lookup(head, "Cache-control") == Some(Text("max-age=" + IntToString(seconds) + ", public"))
      ensures forall q :: q != "Cache-control" ==> Lookup(head, q) == Lookup(old(head), q)
      ensures code == old(code) && data == old(data) && length == old(length) && f == old(f)
      ensures env == old(env) && input == old(input) && path == old(path) && cookie == old(cookie)
    {
      var w := Text("max-age=" + IntToString(seconds) + ", public");
      AssignUnique(head, "Cache-control", w);
      head := Assign(head, "Cache-control", w);
    }

    /** Lines 179-190: one more cookie to set; `expire` is the formatted expiry time. */
    method AddCookie(key: string, value: string, expire: string)
      requires Valid()
      modifies this
      ensures Valid()
      ensures Lookup(head, "Set-Cookie") == Some(Texts(CookiesSet(old(head)) + [CookieLine(key, value, expire)]))
      ensures forall q :: q != "Set-Cookie" ==> Lookup(head, q) == Lookup(old(head), q)
      ensures code == old(code) && data == old(data) && length == old(length) && f == old(f)
      ensures env == old(env) && input == old(input) && path == old(path) && cookie == old(cookie)
    {
      var items: seq<string> := [];
      if Lookup(head, "Set-Cookie").Some? {
        items := Lookup(head, "Set-Cookie").value.items;
      }
      var w := Texts(items + [CookieLine(key, value, expire)]);
      AssignUnique(head, "Set-Cookie", w);
      head := Assign(head, "Set-Cookie", w);
    }

    /** Lines 193-197: more text for the body, counted in UTF-8 bytes. */
    method Append(text: string)
      requires Valid()
      modifies this
      ensures Valid()
      ensures data == old(data) + [Utf8(text)] && length == old(length) + Utf8Length(text)
      ensures Flat(data) == Flat(old(data)) + Utf8(text)
      ensures code == old(code) && head == old(head) && f == old(f)
      ensures env == old(env) && input == old(input) && path == old(path) && cookie == old(cookie)
    {
      var bytes := Utf8(text);
      Utf8HasLength(text);
      assert (data + [bytes])[..|data|] == data;
      length := length + |bytes|;
      data := data + [bytes];
    }

    /** Lines 200-204: a file to send after the body; the one it replaces is closed. */
    method ProvideFile(file: File)
      modifies this
      ensures f == Some(file)
      ensures code == old(code) && head == old(head) && data == old(data) && length == old(length)
      ensures env == old(env) && input == old(input) && path == old(path) && cookie == old(cookie)
    {
      f := Some(file);
    }

    /** Lines 207-214. */
    method Header() returns (lines: seq<(string, string)>)
      ensures lines == Flatten(head)
    {
      lines := [];
      for i := 0 to |head|
        invariant lines == Flatten(head[..i])
      {
        assert head[..i + 1][..i] == head[..i];
        var more := LinesOf(head[i].0, head[i].1);
        lines := lines + more;
      }
      assert head[..|head|] == head;
    }

    /**
     * Lines 217-248: sets Content-length and returns the status, the
     * header lines and the body: the chunks, then the file in pieces.
     * Content-length is the number of bytes of that body.
     */
    method Respond() returns (status: string, lines: seq<(string, string)>, body: seq<seq<byte>>)
      requires Valid()
      modifies this
      ensures Valid()
      ensures status == code && lines == Flatten(head)
      ensures f.None? ==> body == data
      ensures f.Some? ==> body == data + Pieces(f.value.rest)
      ensures Lookup(head, "Content-length") == Some(Text(IntToString(|Flat(body)|)))
      ensures forall q :: q != "Content-length" ==> Lookup(head, q) == Lookup(old(head), q)
      ensures code == old(code) && data == old(data) && length == old(length) && f == old(f)
      ensures env == old(env) && input == old(input) && path == old(path) && cookie == old(cookie)
    {
      var l := length + if f.Some? then |f.value.rest| else 0;
      if f.Some? {
        BodyBytes(data, f.value.rest);
      } else {
        TotalLenFlat(data);
      }
      ghost var whole := if f.Some? then data + Pieces(f.value.rest) else data;
      assert |Flat(whole)| == l;
      SetLength(l);
      status := code;
      lines := Header();
      if f.Some? {
        var pieces := Send(f.value.rest);
        body := data + pieces;
      } else {
        body := data;
      }
      assert body == whole;
    }

    /** Line 227 and line 245: Content-length set to `l`. */
    method SetLength(l: int)
      requires Valid()
      modifies this
      ensures Valid()
      ensures Lookup(head, "Content-length") == Some(Text(IntToString(l)))
      ensures forall q :: q != "Content-length" ==> Lookup(head, q) == Lookup(old(head), q)
      ensures code == old(code) && data == old(data) && length == old(length) && f == old(f)
      ensures env == old(env) && input == old(input) && path == old(path) && cookie == old(cookie)
    {
      var w := Text(IntToString(l));
      AssignUnique(head, "Content-length", w);
      head := Assign(head, "Content-length", w);
    }
  }

  /** The body sent with a file: the chunks, then all of the file. */
  lemma BodyBytes(data: seq<seq<byte>>, rest: seq<byte>)
    ensures |Flat(data + Pieces(rest))| == TotalLen(data) + |rest|
  {
    FlatAppend(data, Pieces(rest));
    PiecesWhole(rest);
    TotalLenFlat(data);
  }

  /** Lines 210-214: the lines of one header. */
  method LinesOf(key: string, w: Value) returns (lines: seq<(string, string)>)
    ensures lines == Lines(key, w)
  {
    match w
    case Text(t) =>
      lines := [(key, t)];
    case Texts(items) =>
      lines := [];
      for j := 0 to |items|
        invariant |lines| == j && forall m :: 0 <= m < j ==> lines[m] == (key, items[m])
      {
        lines := lines + [(key, items[j])];
      }
  }

  /** Lines 234-237: read the file 1024 bytes at a time until a read comes back empty. */
  method Send(rest: seq<byte>) returns (pieces: seq<seq<byte>>)
    ensures pieces == Pieces(rest)
  {
    pieces := [];
    var pos := 0;
    while true
      invariant 0 <= pos <= |rest|
      invariant pieces + Pieces(rest[pos..]) == Pieces(rest)
      decreases |rest| - pos
    {
      var d: seq<byte>;
      if |rest| - pos <= Piece {
        d := rest[pos..];
      } else {
        d := rest[pos..pos + Piece];
        assert rest[pos..][..Piece] == d && rest[pos..][Piece..] == rest[pos + Piece..];
      }
      if |d| == 0 {
        break;
      }
      assert rest[pos + |d|..] == rest[pos..][|d|..];
      pieces := pieces + [d];
      pos := pos + |d|;
    }
    assert rest[pos..] == [];
  }

  /** Once a pair lacks an '=', the cookie stops where it was. */
  lemma {:induction false} CookieStopped(ps: seq<string>, k: nat, pair: string -> Option<(string, string)>)
    requires k < |ps| && CookieFold(ps[..k], pair).whole && pair(ps[k]).None?
    ensures CookieFold(ps, pair) == Parsed(CookieFold(ps[..k], pair).jar, false)
  {
    if |ps| > k + 1 {
      var front := ps[..|ps| - 1];
      assert front[..k] == ps[..k] && front[k] == ps[k];
      CookieStopped(front, k, pair);
    } else {
      assert ps[..k + 1] == ps;
      assert ps[..k + 1][..k] == ps[..k];
    }
  }

}
