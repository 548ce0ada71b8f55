// Presigned URLs as strings: what the middleware reads out of a generated URL (middleware/presign.go), and which paths
// survive the double normalization.
module PresignURL {
  import opened Base
  import opened Decimal
  import opened Presign

  // ---- Reading the query -------------------------------------------------------------------------------------------

  /** What stands behind the first stop character, or nothing. */
  function After(s: string, stop: char): string {
    if s == [] then "" else if s[0] == stop then s[1..] else After(s[1..], stop)
  }

  /** The raw query of a URL: url.Parse cuts the fragment first. */
  function RawQuery(url: string): string {
    After(Before(url, '#'), '?')
  }

  /** The pieces between ampersands; current is the piece read so far. */
  function Pieces(s: string, current: string): seq<string> {
    if s == [] then [current]
    else if s[0] == '&' then [current] + Pieces(s[1..], "")
    else Pieces(s[1..], current + [s[0]])
  }

  /** url.QueryUnescape: a plus is a space; None for an escape without two hex digits. */
  function QueryUnescape(s: string): Option<string> {
    Unescape(Spaced(s))
  }

  function Spaced(s: string): string {
    seq(|s|, i requires 0 <= i < |s| => if s[i] == '+' then ' ' else s[i])
  }

  /** Percent-decoding. */
  function Unescape(s: string): Option<string>
    decreases |s|
  {
    if s == [] then Some("")
    else if s[0] != '%' then
      var rest := Unescape(s[1..]);
      if rest.Some? then Some([s[0]] + rest.value) else None
    else if |s| < 3 || HexVal(s[1]).None? || HexVal(s[2]).None? then None
    else
      var code := HexVal(s[1]).value * 16 + HexVal(s[2]).value;
      var rest := Unescape(s[3..]);
      if rest.Some? && code < 256 then Some([code as char] + rest.value) else None
  }

  /** The value a piece gives the key, if any: url.ParseQuery skips empty pieces, pieces with a semicolon and pieces
      whose key or value cannot be unescaped; a piece without "=" is a key with an empty value. */
  function PieceValue(piece: string, key: string): Option<string> {
    var k, v := QueryUnescape(Before(piece, '=')), QueryUnescape(After(piece, '='));
    if piece == "" || ';' in piece || k.None? || v.None? || k.value != key then None else v
  }

  function FirstValue(pieces: seq<string>, key: string): Option<string> {
    if pieces == [] then None
    else if PieceValue(pieces[0], key).Some? then PieceValue(pieces[0], key)
    else FirstValue(pieces[1..], key)
  }

  /** Query().Get(key), with None where it returns "" because the key is missing. */
  function QueryGet(query: string, key: string): Option<string> {
    FirstValue(Pieces(query, ""), key)
  }

  predicate Free(s: string, c: char) {
    forall i :: 0 <= i < |s| ==> s[i] != c
  }

  lemma {:induction false} BeforeFree(s: string, c: char)
    requires Free(s, c)
    ensures Before(s, c) == s && After(s, c) == ""
  {
    if s != [] {
      BeforeFree(s[1..], c);
    }
  }

  lemma {:induction false} AfterFirst(a: string, stop: char, b: string)
    ensures Free(a, stop) ==> After(a + ([stop] + b), stop) == b
    ensures !Free(a, stop) ==> After(a + b, stop) == After(a, stop) + b
  {
    if a != [] {
      AfterFirst(a[1..], stop, b);
      assert (a + ([stop] + b))[1..] == a[1..] + ([stop] + b);
      assert (a + b)[1..] == a[1..] + b;
      assert a[0] != stop ==> (Free(a, stop) <==> Free(a[1..], stop));
    }
  }

  lemma {:induction false} PieceAlone(s: string, current: string)
    requires Free(s, '&')
    ensures Pieces(s, current) == [current + s]
  {
    if s == [] {
      assert current + s == current;
    } else {
      PieceAlone(s[1..], current + [s[0]]);
      assert current + [s[0]] + s[1..] == current + s;
    }
  }

  lemma {:induction false} PiecesAt(a: string, b: string, current: string)
    ensures Pieces(a + (['&'] + b), current) == Pieces(a, current) + Pieces(b, "")
    decreases |a|
  {
    var s := a + (['&'] + b);
    if a == [] {
      assert s[1..] == b;
    } else {
      assert s[1..] == a[1..] + (['&'] + b);
      PiecesAt(a[1..], b, if a[0] == '&' then "" else current + [a[0]]);
    }
  }

  lemma {:induction false} FirstOfTwo(a: seq<string>, b: seq<string>, key: string)
    ensures FirstValue(a + b, key) == if FirstValue(a, key).Some? then FirstValue(a, key) else FirstValue(b, key)
  {
    if a == [] {
      assert a + b == b;
    } else {
      assert (a + b)[1..] == a[1..] + b;
      FirstOfTwo(a[1..], b, key);
    }
  }

  /** The characters of the values that Generate appends. */
  predicate IsValueChar(c: char) {
    IsDigit(c) || 'a' <= c <= 'f' || c == '-'
  }

  predicate IsValue(s: string) {
    forall i :: 0 <= i < |s| ==> IsValueChar(s[i])
  }

  lemma ValueUnescaped(s: string)
    requires IsValue(s)
    ensures QueryUnescape(s) == Some(s)
  {
    assert Spaced(s) == s;
    UnescapePlain(s);
  }

  /** The piece "key=value" gives the key its value, and no other key any. */
  lemma PieceGives(name: string, value: string, key: string)
    requires name != "" && (forall i :: 0 <= i < |name| ==> 'a' <= name[i] <= 'z') && IsValue(value)
    ensures PieceValue(name + (['='] + value), key) == if key == name then Some(value) else None
    ensures Free(name + (['='] + value), '&')
  {
    var piece := name + (['='] + value);
    BeforeAt(name, '=', value);
    AfterFirst(name, '=', value);
    assert Spaced(name) == name;
    UnescapePlain(name);
    ValueUnescaped(value);
    forall i | 0 <= i < |piece|
      ensures piece[i] != ';' && piece[i] != '&'
    {
    }
  }

  lemma {:induction false} BeforeAt(a: string, stop: char, b: string)
    requires Free(a, stop)
    ensures Before(a + ([stop] + b), stop) == a
  {
    var s := a + ([stop] + b);
    if a != [] {
      assert s[1..] == a[1..] + ([stop] + b);
      BeforeAt(a[1..], stop, b);
    }
  }

  /** The two parameters that Generate appends are read back. */
  lemma SignedParameters(e: string, sig: string, key: string)
    requires IsValue(e) && IsValue(sig) && key in {"exp", "sig"}
    ensures QueryGet("exp=" + e + "&sig=" + sig, key) == Some(if key == "exp" then e else sig)
  {
    var a, b := "exp" + (['='] + e), "sig" + (['='] + sig);
    PieceGives("exp", e, key);
    PieceGives("sig", sig, key);
    TwoParameters(e, sig);
    PiecesAt(a, b, "");
    PieceAlone(a, "");
    PieceAlone(b, "");
    assert "" + a == a && "" + b == b;
    assert ([a] + [b])[1..] == [b] && "exp"[0] != "sig"[0];
    FirstOfTwo([a], [b], key);
  }

  lemma TwoParameters(e: string, sig: string)
    ensures "exp=" + e + "&sig=" + sig == "exp" + (['='] + e) + (['&'] + ("sig" + (['='] + sig)))
  {
    assert "exp=" + e == "exp" + (['='] + e);
    assert "&sig=" + sig == ['&'] + ("sig" + (['='] + sig));
    Assoc("exp=" + e, "&sig=", sig);
  }

  lemma {:induction false} HexIsValue(bytes: seq<Byte>)
    ensures IsValue(HexEncode(bytes))
  {
    if bytes != [] {
      HexIsValue(bytes[1..]);
    }
  }

  lemma PrintIntIsValue(n: int)
    ensures IsValue(PrintInt(n))
  {
    PrintIntSign(n);
    var digits := Print(if n < 0 then -n else n);
    assert forall i :: 0 <= i < |digits| ==> IsDigit(digits[i]);
    if n < 0 {
      assert PrintInt(n) == "-" + digits;
    }
  }

  lemma FreeConcat(a: string, b: string, c: char)
    ensures Free(a + b, c) <==> Free(a, c) && Free(b, c)
  {
    if Free(a + b, c) {
      assert forall i :: 0 <= i < |a| ==> (a + b)[i] == a[i];
      assert forall i :: 0 <= i < |b| ==> (a + b)[|a| + i] == b[i];
    }
  }

  function Parameters(s: Signer, now: int, path: string): string {
    "exp=" + PrintInt(Expiry(s, now)) + "&sig=" + GeneratedSig(s, now, path)
  }

  lemma ParametersFree(s: Signer, now: int, path: string)
    ensures Free(Parameters(s, now, path), '#')
  {
    var e, sig := PrintInt(Expiry(s, now)), GeneratedSig(s, now, path);
    PrintIntIsValue(Expiry(s, now));
    HexIsValue(SignBytes(s, "GET", path, Expiry(s, now)));
    FreeConcat("exp=", e, '#');
    FreeConcat("exp=" + e, "&sig=", '#');
    FreeConcat("exp=" + e + "&sig=", sig, '#');
  }

  /** The query of a generated URL: the two parameters, behind the path's own query if it has one. */
  lemma GeneratedQuery(s: Signer, now: int, path: string)
    requires Free(path, '#')
    ensures var params := Parameters(s, now, path);
            RawQuery(Generate(s, now, path)) == if Free(path, '?') then params else After(path, '?') + (['&'] + params)
  {
    var params := Parameters(s, now, path);
    var sep := if '?' in path then '&' else '?';
    var url := Generate(s, now, path);
    GeneratedShape(s, now, path);
    ParametersFree(s, now, path);
    FreeConcat([sep], params, '#');
    FreeConcat(path, [sep] + params, '#');
    BeforeFree(url, '#');
    if Free(path, '?') {
      AfterFirst(path, '?', params);
    } else {
      AfterFirst(path, '?', ['&'] + params);
    }
  }

  lemma GeneratedShape(s: Signer, now: int, path: string)
    ensures Generate(s, now, path) == path + ([if '?' in path then '&' else '?'] + Parameters(s, now, path))
  {
    var sep := if '?' in path then "&" else "?";
    Regroup(path, sep, "exp=", PrintInt(Expiry(s, now)), "&sig=", GeneratedSig(s, now, path));
  }

  lemma Assoc(a: string, b: string, c: string)
    ensures a + b + c == a + (b + c)
  {
  }

  lemma Regroup(p: string, sep: string, a: string, b: string, c: string, d: string)
    ensures p + sep + a + b + c + d == p + (sep + (a + b + c + d))
  {
    Assoc(p, sep, a);
    Assoc(p, sep + a, b);
    Assoc(p, sep + a + b, c);
    Assoc(p, sep + a + b + c, d);
    Assoc(sep, a, b);
    Assoc(sep, a + b, c);
    Assoc(sep, a + b + c, d);
  }

  /** A generated URL carries its expiry and signature: the middleware reads them back, unless the path it was generated
      for came with a parameter of that name. */
  lemma URLCarries(s: Signer, now: int, path: string, key: string)
    requires Free(path, '#') && key in {"exp", "sig"}
    ensures var own := if key == "exp" then PrintInt(Expiry(s, now)) else GeneratedSig(s, now, path);
            var before := if Free(path, '?') then None else QueryGet(After(path, '?'), key);
            QueryGet(RawQuery(Generate(s, now, path)), key) == if before.Some? then before else Some(own)
  {
    var params := Parameters(s, now, path);
    PrintIntIsValue(Expiry(s, now));
    HexIsValue(SignBytes(s, "GET", path, Expiry(s, now)));
    SignedParameters(PrintInt(Expiry(s, now)), GeneratedSig(s, now, path), key);
    GeneratedQuery(s, now, path);
    if !Free(path, '?') {
      PiecesAt(After(path, '?'), params, "");
      FirstOfTwo(Pieces(After(path, '?'), ""), Pieces(params, ""), key);
    }
  }

  function OrEmpty(v: Option<string>): string {
    if v.Some? then v.value else ""
  }

  /** RequireValidPresign: GET and HEAD only, then the request's method and path against the exp and sig of its URL. */
  predicate Accepted(s: Signer, now: int, method_: string, path: string, url: string) {
    method_ in {"GET", "HEAD"} &&
    ValidateMethod(s, now, method_, path, OrEmpty(QueryGet(RawQuery(url), "exp")),
        OrEmpty(QueryGet(RawQuery(url), "sig")))
  }

  /** How long a URL lives when the configured expiry is this. */
  function Lifetime(expiry: int): int {
    if expiry <= 0 then 3600 else expiry
  }

  /** From one server's signer to another's middleware: a URL generated for path p, which has no query of its own,
      admits a request for path p' exactly when it is a GET or HEAD request, the servers share a secret, the URL has not
      expired and does not expire later than the second server's own would, and p', normalized twice, is p normalized
      once. */
  lemma GeneratedURLAcceptedIff(secret: string, expiry: int, secret': string, expiry': int,
                                mac: (string, string) -> seq<Byte>, urlPath: string -> Option<string>,
                                t: int, t': int, p: string, p': string, m: string)
    requires MacBinds(mac, secret, secret') && t + Lifetime(expiry) + Lifetime(expiry') + 30 <= MAX64
    requires 0 <= t && Int64(t') && Free(p, '?') && Free(p, '#')
    ensures var s := NewSigner(secret', expiry', mac, urlPath);
            Accepted(s, t', m, p', Generate(NewSigner(secret, expiry, mac, urlPath), t, p)) <==>
            && m in {"GET", "HEAD"} && secret == secret' != ""
            && t + Lifetime(expiry) - Lifetime(expiry') - 30 <= t' <= t + Lifetime(expiry)
            && NormalizePath(s, p') != "" && NormalizePath(s, NormalizePath(s, p')) == NormalizePath(s, p)
  {
    var a, s := NewSigner(secret, expiry, mac, urlPath), NewSigner(secret', expiry', mac, urlPath);
    URLCarries(a, t, p, "exp");
    URLCarries(a, t, p, "sig");
    GetIsGet();
    if m in {"GET", "HEAD"} {
      ValidatesForIff(a, s, t, t', p, p', m);
    }
  }

  /** A piece with a semicolon is skipped, whatever it says. */
  lemma SemicolonSkipped(piece: string, rest: string, key: string)
    requires Free(piece, '&') && !Free(piece, ';')
    ensures QueryGet(piece + (['&'] + rest), key) == QueryGet(rest, key)
  {
    PiecesAt(piece, rest, "");
    PieceAlone(piece, "");
    assert "" + piece == piece;
    FirstOfTwo([piece], Pieces(rest, ""), key);
  }

  /** A fragment is no part of the query. */
  lemma FragmentCut(url: string, fragment: string)
    requires Free(url, '#')
    ensures RawQuery(url + (['#'] + fragment)) == RawQuery(url)
  {
    BeforeAt(url, '#', fragment);
    BeforeFree(url, '#');
  }

  /** A plus in a query is a space. */
  lemma PlusIsSpace(a: string, b: string)
    requires Free(a + b, '%') && Free(a + b, '+')
    ensures QueryUnescape(a + (['+'] + b)) == Some(a + ([' '] + b))
  {
    FreeConcat(a, b, '%');
    FreeConcat(a, b, '+');
    assert Spaced(a + (['+'] + b)) == a + ([' '] + b);
    UnescapePlain(a + ([' '] + b));
  }

  // ---- Which paths survive ----------------------------------------------------------------------------------------

  predicate IsControl(c: char) {
    c < ' ' || c == '\U{7F}'
  }

  /** A string that url.Parse takes for a bare path, perhaps with a query: one slash in front, so neither a scheme nor a
      host; no fragment; no control character. */
  predicate IsRooted(s: string) {
    && s != "" && s[0] == '/' && !(|s| > 1 && s[1] == '/')
    && Free(s, '#') && forall i :: 0 <= i < |s| ==> !IsControl(s[i])
  }

  /** The path url.Parse finds there; None for its error. */
  function RootedPath(s: string): Option<string> {
    Unescape(Before(s, '?'))
  }

  /** What is assumed of url.Parse. Of other strings nothing is. */
  ghost predicate ParsesRooted(s: Signer) {
    forall p :: IsRooted(p) ==> s.urlPath(p) == RootedPath(p)
  }

  predicate Plain(s: string) {
    Free(s, '%') && Free(s, '?') && Free(s, '#') && forall i :: 0 <= i < |s| ==> !IsControl(s[i])
  }

  lemma {:induction false} UnescapePlain(s: string)
    requires Free(s, '%')
    ensures Unescape(s) == Some(s)
  {
    if s != [] {
      UnescapePlain(s[1..]);
      assert [s[0]] + s[1..] == s;
    }
  }

  lemma PlainPathStable(s: Signer, p: string)
    requires ParsesRooted(s) && Plain(p) && IsRooted(p)
    ensures NormalizePath(s, p) == p && StablePath(s, p)
  {
    BeforeFree(p, '?');
    UnescapePlain(p);
  }

  /** A query is no part of what is signed. */
  lemma QueryIgnored(s: Signer, p: string, q: string)
    requires ParsesRooted(s) && Free(p, '?') && IsRooted(p) && IsRooted(p + (['?'] + q))
    ensures NormalizePath(s, p + (['?'] + q)) == NormalizePath(s, p)
  {
    BeforeAt(p, '?', q);
    BeforeFree(p, '?');
  }

  /** The paths the local provider signs: stream, poster, backdrop and logo of a media item. */
  function MediaPath(id: string, leaf: string): string {
    "/api/v1/media/" + id + "/" + leaf
  }

  /** A signed media URL admits GET and HEAD requests for its path exactly during its lifetime, at servers with the
      secret it was signed with. */
  lemma MediaURLAcceptedIff(secret: string, secret': string, expiry: int, mac: (string, string) -> seq<Byte>,
                            urlPath: string -> Option<string>,
                            t: int, t': int, id: string, leaf: string, m: string)
    requires var s := NewSigner(secret', expiry, mac, urlPath); ParsesRooted(s)
    requires MacBinds(mac, secret, secret') && t + 2 * Lifetime(expiry) + 30 <= MAX64 && 0 <= t && Int64(t')
    requires Plain(id) && leaf in {"stream", "poster", "backdrop", "logo"}
    ensures var a, s := NewSigner(secret, expiry, mac, urlPath), NewSigner(secret', expiry, mac, urlPath);
            Accepted(s, t', m, MediaPath(id, leaf), Generate(a, t, MediaPath(id, leaf))) <==>
            m in {"GET", "HEAD"} && secret == secret' != "" && t - 30 <= t' <= t + Lifetime(expiry)
  {
    var s := NewSigner(secret', expiry, mac, urlPath);
    var p := MediaPath(id, leaf);
    MediaPathPlain(id, leaf);
    PlainPathStable(s, p);
    GeneratedURLAcceptedIff(secret, expiry, secret', expiry, mac, urlPath, t, t', p, p, m);
  }

  /** The text of a signed media URL. */
  lemma MediaURLText(secret: string, expiry: int, mac: (string, string) -> seq<Byte>,
                     urlPath: string -> Option<string>, t: int, id: string, leaf: string)
    requires ParsesRooted(NewSigner(secret, expiry, mac, urlPath))
    requires 0 <= t && t + Lifetime(expiry) <= MAX64
    requires Plain(id) && leaf in {"stream", "poster", "backdrop", "logo"}
    ensures Generate(NewSigner(secret, expiry, mac, urlPath), t, MediaPath(id, leaf)) ==
            URLText(MediaPath(id, leaf), Print(t + Lifetime(expiry)), mac, secret)
  {
    var s := NewSigner(secret, expiry, mac, urlPath);
    MediaPathPlain(id, leaf);
    PlainPathStable(s, MediaPath(id, leaf));
    assert s.secret == secret && s.mac == mac && s.expirySeconds == Lifetime(expiry);
    StableURLText(s, t, MediaPath(id, leaf));
  }

  function URLText(p: string, exp: string, mac: (string, string) -> seq<Byte>, secret: string): string {
    p + "?exp=" + exp + "&sig=" + HexEncode(mac(secret, "GET\n" + p + "\n" + exp))
  }

  lemma StableURLText(s: Signer, t: int, p: string)
    requires NormalizePath(s, p) == p && Free(p, '?') && 0 <= t && 0 < s.expirySeconds && t + s.expirySeconds <= MAX64
    ensures Generate(s, t, p) == URLText(p, Print(t + s.expirySeconds), s.mac, s.secret)
  {
    GetIsGet();
    WrapId(t + s.expirySeconds);
    var exp := Print(t + s.expirySeconds);
    assert PrintInt(Expiry(s, t)) == exp;
    assert "GET" + "\n" + p == "GET\n" + p;
    assert GeneratedSig(s, t, p) == HexEncode(s.mac(s.secret, "GET\n" + p + "\n" + exp));
    assert p + "?" + "exp=" == p + "?exp=";
  }

  lemma PlainConcat(a: string, b: string)
    requires Plain(a) && Plain(b)
    ensures Plain(a + b)
  {
  }

  lemma LiteralsPlain(leaf: string)
    requires leaf in {"stream", "poster", "backdrop", "logo"}
    ensures Plain("/api/v1/media/") && Plain("/") && Plain(leaf)
  {
  }

  lemma MediaPathPlain(id: string, leaf: string)
    requires Plain(id) && leaf in {"stream", "poster", "backdrop", "logo"}
    ensures Plain(MediaPath(id, leaf)) && IsRooted(MediaPath(id, leaf))
  {
    var head := "/api/v1/media/";
    LiteralsPlain(leaf);
    PlainConcat(head, id);
    PlainConcat(head + id, "/");
    PlainConcat(head + id + "/", leaf);
  }

  const TWICE: string := "/%2525"
  const ONCE: string := "/%25"
  const LAST: string := "/%"

  /** A path that is percent-encoded twice, "/%2525": its URL is refused at every time, for the path as signed and for
      the path a request for that URL has. */
  lemma TwiceEncodedRefused(secret: string, expiry: int, mac: (string, string) -> seq<Byte>,
                            urlPath: string -> Option<string>,
                            t: int, t': int, m: string)
    requires var s := NewSigner(secret, expiry, mac, urlPath); ParsesRooted(s)
    requires MacBinds(mac, secret, secret) && t + 2 * Lifetime(expiry) + 30 <= MAX64 && 0 <= t && Int64(t')
    ensures var s := NewSigner(secret, expiry, mac, urlPath);
            && !Accepted(s, t', m, TWICE, Generate(s, t, TWICE))
            && !Accepted(s, t', m, ONCE, Generate(s, t, TWICE))
  {
    TwiceUnstable(NewSigner(secret, expiry, mac, urlPath));
    GeneratedURLAcceptedIff(secret, expiry, secret, expiry, mac, urlPath, t, t', TWICE, TWICE, m);
    GeneratedURLAcceptedIff(secret, expiry, secret, expiry, mac, urlPath, t, t', TWICE, ONCE, m);
  }

  lemma TwiceIsOnce(s: Signer)
    requires ParsesRooted(s)
    ensures NormalizePath(s, TWICE) == ONCE
  {
    UnescapeTwice();
    WithoutQuery(s, TWICE);
  }

  lemma OnceIsLast(s: Signer)
    requires ParsesRooted(s)
    ensures NormalizePath(s, ONCE) == LAST
  {
    UnescapeOnce();
    WithoutQuery(s, ONCE);
  }

  lemma LastStays(s: Signer)
    requires ParsesRooted(s)
    ensures NormalizePath(s, LAST) == LAST
  {
    UnescapeLast();
    WithoutQuery(s, LAST);
  }

  lemma TwiceUnstable(s: Signer)
    requires ParsesRooted(s)
    ensures NormalizePath(s, NormalizePath(s, TWICE)) != NormalizePath(s, TWICE)
    ensures NormalizePath(s, NormalizePath(s, ONCE)) != NormalizePath(s, TWICE)
  {
    TwiceIsOnce(s);
    OnceIsLast(s);
    LastStays(s);
    assert |ONCE| != |LAST|;
  }

  lemma WithoutQuery(s: Signer, p: string)
    requires ParsesRooted(s) && Free(p, '?') && IsRooted(p)
    ensures NormalizePath(s, p) == if Unescape(p).Some? && Unescape(p).value != "" then Unescape(p).value else p
  {
    BeforeFree(p, '?');
  }

  function Prepend(c: char, s: Option<string>): Option<string> {
    if s.Some? then Some([c] + s.value) else None
  }

  /** One step of the decoding, at position i. */
  lemma UnescapeAt(s: string, i: nat)
    requires i < |s|
    ensures s[i] != '%' ==> Unescape(s[i..]) == Prepend(s[i], Unescape(s[i+1..]))
    ensures s[i] == '%' && i + 3 > |s| ==> Unescape(s[i..]) == None
    ensures s[i] == '%' && i + 3 <= |s| && s[i+1] == '2' && s[i+2] == '5' ==>
              Unescape(s[i..]) == Prepend('%', Unescape(s[i+3..]))
  {
    assert s[i..][1..] == s[i+1..];
    if i + 3 <= |s| {
      assert s[i..][3..] == s[i+3..];
      assert s[i..][1] == s[i+1] && s[i..][2] == s[i+2];
      assert HexVal('2') == Some(2) && HexVal('5') == Some(5) && (37 as char) == '%';
    }
  }

  lemma UnescapeTwice()
    ensures Unescape(TWICE) == Some(ONCE)
  {
    var s := TWICE;
    UnescapeAt(s, 0);
    UnescapeAt(s, 1);
    UnescapeAt(s, 4);
    UnescapeAt(s, 5);
    assert s[6..] == "" && s[0..] == s;
    assert ['/'] + (['%'] + (['2'] + (['5'] + ""))) == ONCE;
  }

  lemma UnescapeOnce()
    ensures Unescape(ONCE) == Some(LAST)
  {
    var s := ONCE;
    UnescapeAt(s, 0);
    UnescapeAt(s, 1);
    assert s[4..] == "" && s[0..] == s;
    assert ['/'] + (['%'] + "") == LAST;
  }

  lemma UnescapeLast()
    ensures Unescape(LAST) == None
  {
    var s := LAST;
    UnescapeAt(s, 0);
    UnescapeAt(s, 1);
    assert s[0..] == s;
  }
}
