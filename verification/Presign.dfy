// Presigned URLs (pkg/presign/presign.go). HMAC-SHA256 (RFC 2104) and net/url's parser are parameters.
module Presign {
  import opened Base
  import opened Decimal
  import opened Names

  const MIN64: int := -0x8000_0000_0000_0000
  const MAX64: int := 0x7FFF_FFFF_FFFF_FFFF
  const DEFAULT_EXPIRY: int := 3600
  const CLOCK_SKEW: int := 30

  /** int64 arithmetic */
  function Wrap(x: int): int {
    (x + 0x8000_0000_0000_0000) % 0x1_0000_0000_0000_0000 - 0x8000_0000_0000_0000
  }

  predicate Int64(x: int) {
    MIN64 <= x <= MAX64
  }

  type Byte = b: nat | b < 256

  // ---- hex -------------------------------------------------------------------------------------------------

  function HexDigit(n: nat): char
    requires n < 16
  {
    if n < 10 then ('0' as int + n) as char else ('a' as int + n - 10) as char
  }

  function HexVal(c: char): Option<nat> {
    if '0' <= c <= '9' then Some(c as int - '0' as int)
    else if 'a' <= c <= 'f' then Some(c as int - 'a' as int + 10)
    else if 'A' <= c <= 'F' then Some(c as int - 'A' as int + 10)
    else None
  }

  function HexEncode(bytes: seq<Byte>): string {
    if bytes == [] then "" else [HexDigit(bytes[0] / 16), HexDigit(bytes[0] % 16)] + HexEncode(bytes[1..])
  }

  function HexDecode(s: string): (r: Option<seq<Byte>>)
    decreases |s|
  {
    if s == [] then Some([])
    else if |s| == 1 || HexVal(s[0]).None? || HexVal(s[1]).None? then None
    else
      var rest := HexDecode(s[2..]);
      var hi, lo := HexVal(s[0]).value, HexVal(s[1]).value;
      if rest.None? || hi * 16 + lo >= 256 then None else Some([hi * 16 + lo] + rest.value)
  }

  lemma HexDigitVal(n: nat)
    requires n < 16
    ensures HexVal(HexDigit(n)) == Some(n)
  {
  }

  lemma {:induction false} HexRoundTrip(bytes: seq<Byte>)
    ensures HexDecode(HexEncode(bytes)) == Some(bytes)
  {
    if bytes != [] {
      var b := bytes[0];
      var s := HexEncode(bytes);
      HexDigitVal(b / 16);
      HexDigitVal(b % 16);
      assert s[0] == HexDigit(b / 16) && s[1] == HexDigit(b % 16);
      assert s[2..] == HexEncode(bytes[1..]);
      HexRoundTrip(bytes[1..]);
      assert bytes == [b] + bytes[1..];
    }
  }

  // ---- the signer --------------------------------------------------------------------------------------------

  /** mac(secret, message) is the HMAC; urlPath is url.Parse's path, None when it errs. */
  datatype Signer = Signer(
    secret: string, expirySeconds: int, clockSkewSeconds: int,
    mac: (string, string) -> seq<Byte>, urlPath: string -> Option<string>)

  function NewSigner(secret: string, expiry: int, mac: (string, string) -> seq<Byte>,
                     urlPath: string -> Option<string>): Signer {
    Signer(secret, if expiry <= 0 then DEFAULT_EXPIRY else expiry, CLOCK_SKEW, mac, urlPath)
  }

  ghost predicate MacInjective(s: Signer) {
    forall a, b :: s.mac(s.secret, a) == s.mac(s.secret, b) ==> a == b
  }

  function Upper(c: char): char {
    if 'a' <= c <= 'z' then (c as int - 32) as char else c
  }

  function ToUpper(s: string): string {
    seq(|s|, i requires 0 <= i < |s| => Upper(s[i]))
  }

  /** Decoding reads upper-case digits as well. */
  lemma {:induction false} HexAnyCase(bytes: seq<Byte>)
    ensures HexDecode(ToUpper(HexEncode(bytes))) == Some(bytes)
  {
    if bytes != [] {
      var b := bytes[0];
      var s := ToUpper(HexEncode(bytes));
      HexAnyCase(bytes[1..]);
      assert HexVal(Upper(HexDigit(b / 16))) == Some(b / 16) && HexVal(Upper(HexDigit(b % 16))) == Some(b % 16);
      assert s[0] == Upper(HexDigit(b / 16)) && s[1] == Upper(HexDigit(b % 16));
      assert s[2..] == ToUpper(HexEncode(bytes[1..]));
      assert bytes == [b] + bytes[1..];
    }
  }

  function NormalizeMethod(method_: string): string {
    var m := ToUpper(TrimSpace(method_));
    if m == "" || m == "GET" || m == "HEAD" then "GET" else m
  }

  /** What stands before the first stop character. */
  function Before(s: string, stop: char): string {
    if s == [] || s[0] == stop then "" else [s[0]] + Before(s[1..], stop)
  }

  function NormalizePath(s: Signer, path: string): string {
    if path == "" then ""
    else
      var parsed := s.urlPath(path);
      if parsed.Some? && parsed.value != "" then parsed.value else Before(path, '?')
  }

  /** %d */
  function PrintInt(n: int): string {
    if n < 0 then "-" + Print(-n) else Print(n)
  }

  function StringToSign(m: string, path: string, exp: int): string {
    m + "\n" + path + "\n" + PrintInt(exp)
  }

  function SignBytes(s: Signer, method_: string, path: string, exp: int): seq<Byte> {
    s.mac(s.secret, StringToSign(NormalizeMethod(method_), NormalizePath(s, path), exp))
  }

  function Sign(s: Signer, method_: string, path: string, exp: int): string {
    HexEncode(SignBytes(s, method_, path, exp))
  }

  function Expiry(s: Signer, now: int): int {
    Wrap(now + s.expirySeconds)
  }

  /** The expiry is a 64-bit number, and the sum but for overflow. */
  lemma ExpiryIsInt64(s: Signer, now: int)
    ensures Int64(Expiry(s, now)) && (Expiry(s, now) - now - s.expirySeconds) % 0x1_0000_0000_0000_0000 == 0
  {
  }

  /** The signature Generate puts into the URL at time now; exp is Expiry(s, now). */
  function GeneratedSig(s: Signer, now: int, basePath: string): string {
    Sign(s, "GET", basePath, Expiry(s, now))
  }

  function Generate(s: Signer, now: int, basePath: string): string {
    basePath + (if '?' in basePath then "&" else "?") + "exp=" + PrintInt(Expiry(s, now)) + "&sig=" + GeneratedSig(s,
    now, basePath)
  }

  /** The two comparisons of ValidateMethod. */
  predicate InWindow(s: Signer, now: int, exp: int) {
    now <= exp && exp <= Wrap(Wrap(now + s.expirySeconds) + s.clockSkewSeconds)
  }

  predicate ValidateMethod(s: Signer, now: int, method_: string, path: string, expStr: string, sig: string) {
    s.secret != "" &&
    var p := NormalizePath(s, path);
    p != "" && ParseInt(expStr).Some? &&
    var exp := ParseInt(expStr).value;
    InWindow(s, now, exp) && HexDecode(sig).Some? && HexDecode(sig).value == SignBytes(s, method_, p, exp)
  }

  // ---- the string that is signed binds its parts ----------------------------------------------------------------

  lemma ParsePrinted(n: int)
    requires Int64(n)
    ensures ParseInt(PrintInt(n)) == Some(n)
  {
    PrintIntSign(n);
    if n < 0 {
      ValPrint(-n);
    } else {
      ValPrint(n);
    }
  }

  lemma PrintIntSign(n: int)
    ensures PrintInt(n) != "" && (PrintInt(n)[0] == '-' <==> n < 0)
    ensures n < 0 ==> PrintInt(n)[1..] == Print(-n)
  {
    assert n >= 0 ==> IsDigit(PrintInt(n)[0]);
  }

  lemma PrintIntInjective(a: int, b: int)
    requires PrintInt(a) == PrintInt(b)
    ensures a == b
  {
    PrintIntSign(a);
    PrintIntSign(b);
    if a < 0 {
      ValPrint(-a);
      ValPrint(-b);
    } else {
      ValPrint(a);
      ValPrint(b);
    }
  }

  predicate NoNewline(s: string) {
    forall i :: 0 <= i < |s| ==> s[i] != '\n'
  }

  lemma PrintIntNoNewline(n: int)
    ensures NoNewline(PrintInt(n)) && PrintInt(n) != ""
  {
  }

  /** What stands before the first newline is determined by the whole. */
  lemma {:induction false} HeadUnique(a: string, x: string, b: string, y: string)
    requires NoNewline(a) && NoNewline(b) && a + (['\n'] + x) == b + (['\n'] + y)
    ensures a == b && x == y
    decreases |a|
  {
    var s := a + (['\n'] + x);
    assert s[0] == if a == [] then '\n' else a[0];
    assert s[0] == if b == [] then '\n' else b[0];
    assert s[1..] == if a == [] then x else a[1..] + (['\n'] + x);
    assert s[1..] == if b == [] then y else b[1..] + (['\n'] + y);
    if a != [] {
      HeadUnique(a[1..], x, b[1..], y);
      assert a == [a[0]] + a[1..] && b == [b[0]] + b[1..];
    }
  }

  /** So is what stands behind the last newline. */
  lemma {:induction false} TailUnique(x: string, a: string, y: string, b: string)
    requires NoNewline(a) && NoNewline(b) && x + ['\n'] + a == y + ['\n'] + b
    ensures a == b && x == y
    decreases |a|
  {
    var s := x + ['\n'] + a;
    var n := |s| - 1;
    assert s[n] == if a == [] then '\n' else a[|a|-1];
    assert s[n] == if b == [] then '\n' else b[|b|-1];
    assert s[..n] == if a == [] then x else x + ['\n'] + a[..|a|-1];
    assert s[..n] == if b == [] then y else y + ['\n'] + b[..|b|-1];
    if a != [] {
      TailUnique(x, a[..|a|-1], y, b[..|b|-1]);
      assert a == a[..|a|-1] + [a[|a|-1]] && b == b[..|b|-1] + [b[|b|-1]];
    }
  }

  /** The first newline ends the method and the last one starts the expiry, whatever the path contains. */
  lemma EncodingInjective(m: string, p: string, e: int, m': string, p': string, e': int)
    requires NoNewline(m) && NoNewline(m')
    requires StringToSign(m, p, e) == StringToSign(m', p', e')
    ensures m == m' && p == p' && e == e'
  {
    var d, d' := PrintInt(e), PrintInt(e');
    var rest, rest' := p + ['\n'] + d, p' + ['\n'] + d';
    assert StringToSign(m, p, e) == m + (['\n'] + rest);
    assert StringToSign(m', p', e') == m' + (['\n'] + rest');
    HeadUnique(m, rest, m', rest');
    PrintIntNoNewline(e);
    PrintIntNoNewline(e');
    TailUnique(p, d, p', d');
    PrintIntInjective(e, e');
  }

  /** tchar of section 5.6.2 of RFC 9110 */
  predicate IsTokenChar(c: char) {
    'a' <= c <= 'z' || 'A' <= c <= 'Z' || '0' <= c <= '9' || c in "!#$%&'*+-.^_`|~"
  }

  /** A method is a token: section 9.1 of RFC 9110. */
  predicate IsToken(s: string) {
    s != "" && forall i :: 0 <= i < |s| ==> IsTokenChar(s[i])
  }

  lemma TokenKeepsSpaceFree(m: string)
    requires IsToken(m)
    ensures TrimSpace(m) == m && NoNewline(NormalizeMethod(m))
  {
    TokenCharIsNoSpace(m[0]);
    TokenCharIsNoSpace(m[|m|-1]);
    assert TrimLeft(m) == m && TrimRight(m) == m;
    forall i | 0 <= i < |m|
      ensures Upper(m[i]) != '\n'
    {
      TokenCharIsNoSpace(m[i]);
    }
  }

  /** m is the upper-case word w in any case. */
  predicate SameWord(m: string, w: string) {
    |m| == |w| && forall i :: 0 <= i < |m| ==> m[i] == w[i] || m[i] as int == w[i] as int + 32
  }

  /** Among tokens exactly the spellings of GET and HEAD share the signature of GET. */
  lemma SharesGetIff(m: string)
    requires IsToken(m)
    ensures NormalizeMethod(m) == "GET" <==> SameWord(m, "GET") || SameWord(m, "HEAD")
  {
    TokenKeepsSpaceFree(m);
    assert NormalizeMethod(m) == "GET" <==> ToUpper(m) in {"GET", "HEAD"} by {
      assert |ToUpper(m)| > 0;
    }
    UpperIff(m, "GET");
    UpperIff(m, "HEAD");
  }

  lemma UpperIff(m: string, w: string)
    requires forall i :: 0 <= i < |w| ==> 'A' <= w[i] <= 'Z'
    ensures ToUpper(m) == w <==> SameWord(m, w)
  {
    if ToUpper(m) == w {
      forall i | 0 <= i < |m|
        ensures m[i] == w[i] || m[i] as int == w[i] as int + 32
      {
        assert Upper(m[i]) == ToUpper(m)[i];
      }
    }
  }

  lemma TokenCharIsNoSpace(c: char)
    requires IsTokenChar(c)
    ensures !IsSpace(c) && Upper(c) != '\n'
  {
  }

  /** A signature issued for one method, path and expiry validates only requests for the same normalized method, the
      same signed path and the same expiry. */
  lemma SignatureBinds(s: Signer, now: int, m0: string, p0: string, exp0: int, m: string, p: string, expStr: string)
    requires MacInjective(s) && IsToken(m0) && IsToken(m)
    ensures ValidateMethod(s, now, m, p, expStr, Sign(s, m0, p0, exp0)) ==>
              && NormalizeMethod(m) == NormalizeMethod(m0)
              && NormalizePath(s, NormalizePath(s, p)) == NormalizePath(s, p0)
              && ParseInt(expStr) == Some(exp0)
  {
    if ValidateMethod(s, now, m, p, expStr, Sign(s, m0, p0, exp0)) {
      HexRoundTrip(SignBytes(s, m0, p0, exp0));
      TokenKeepsSpaceFree(m0);
      TokenKeepsSpaceFree(m);
      var exp := ParseInt(expStr).value;
      EncodingInjective(NormalizeMethod(m), NormalizePath(s, NormalizePath(s, p)), exp,
                        NormalizeMethod(m0), NormalizePath(s, p0), exp0);
    }
  }

  // ---- the window --------------------------------------------------------------------------------------------------

  /** From thirty seconds before it was generated until it expires. */
  predicate WithinLifetime(s: Signer, t: int, t': int) {
    t - 30 <= t' <= t + s.expirySeconds
  }

  lemma WrapId(x: int)
    requires Int64(x)
    ensures Wrap(x) == x
  {
  }

  lemma WrapOver(x: int)
    requires MAX64 < x <= MAX64 + 0x1_0000_0000_0000_0000
    ensures Wrap(x) == x - 0x1_0000_0000_0000_0000
  {
  }

  /** The server s admits what was signed at time t for e seconds from the time on when that lies no more than its own
      expiry and thirty seconds ahead, until it expires. */
  lemma WindowHolds(s: Signer, e: int, t: int, t': int)
    requires s.clockSkewSeconds == 30 && 0 < s.expirySeconds && 0 < e && 0 <= t && Int64(t')
    requires t + e + s.expirySeconds + 30 <= MAX64
    ensures InWindow(s, t', Wrap(t + e)) <==> t + e - s.expirySeconds - 30 <= t' <= t + e
  {
    WrapId(t + e);
    if t' <= t + e {
      WrapId(t' + s.expirySeconds);
      WrapId(t' + s.expirySeconds + s.clockSkewSeconds);
    }
  }

  /** The window is exact for every checking time if and only if the int64 sum at the last valid second does not
      overflow; no realistic expiry comes near that. */
  lemma WindowExactIff(s: Signer, t: int)
    requires s.clockSkewSeconds == 30 && 0 < s.expirySeconds <= MAX64 && 0 <= t <= MAX64
    ensures (forall t' :: Int64(t') ==> (InWindow(s, t', Expiry(s, t)) <==> WithinLifetime(s, t, t')))
            <==> t + 2 * s.expirySeconds + 30 <= MAX64
  {
    var e := s.expirySeconds;
    if t + 2 * e + 30 <= MAX64 {
      forall t' | Int64(t')
        ensures InWindow(s, t', Expiry(s, t)) <==> WithinLifetime(s, t, t')
      {
        WindowHolds(s, e, t, t');
      }
    } else if t + e > MAX64 {
      WrapOver(t + e);
      assert !InWindow(s, t, Expiry(s, t)) && WithinLifetime(s, t, t);
    } else {
      var last := t + e;
      WrapId(last);
      if last + e > MAX64 {
        WrapOver(last + e);
        WrapId(last + e - 0x1_0000_0000_0000_0000 + 30);
      } else {
        WrapId(last + e);
        WrapOver(last + e + 30);
      }
      assert !InWindow(s, last, Expiry(s, t)) && WithinLifetime(s, t, last);
    }
  }

  /** The path is normalized twice on validation and once on generation. */
  predicate StablePath(s: Signer, path: string) {
    NormalizePath(s, path) != "" && NormalizePath(s, NormalizePath(s, path)) == NormalizePath(s, path)
  }

  /** Under the keys k and l, which may be one, equal MACs come from the same key and message. */
  ghost predicate MacBinds(mac: (string, string) -> seq<Byte>, k: string, l: string) {
    forall a, b :: mac(k, a) == mac(l, b) ==> k == l && a == b
  }

  /** exp and sig of a URL that the signer a generated for path p validate a GET or HEAD request for path p' at the
      server s if and only if they share a secret, p', normalized twice, is p normalized once, and the time is right. */
  lemma ValidatesForIff(a: Signer, s: Signer, t: int, t': int, p: string, p': string, m: string)
    requires a.mac == s.mac && a.urlPath == s.urlPath && MacBinds(s.mac, a.secret, s.secret) && s.clockSkewSeconds == 30
    requires 0 < a.expirySeconds && 0 < s.expirySeconds && 0 <= t && Int64(t')
    requires t + a.expirySeconds + s.expirySeconds + 30 <= MAX64 && NormalizeMethod(m) == "GET"
    ensures ValidateMethod(s, t', m, p', PrintInt(Expiry(a, t)), GeneratedSig(a, t, p)) <==>
            && a.secret == s.secret != ""
            && t + a.expirySeconds - s.expirySeconds - 30 <= t' <= t + a.expirySeconds
            && NormalizePath(s, p') != "" && NormalizePath(s, NormalizePath(s, p')) == NormalizePath(s, p)
  {
    var exp := Expiry(a, t);
    assert Int64(exp) by { WrapId(t + a.expirySeconds); }
    ValidateParts(s, t', m, p', exp, SignBytes(a, "GET", p, exp), PrintInt(exp), GeneratedSig(a, t, p));
    Judge(a, s, t, t', p, p', m, exp, ValidateMethod(s, t', m, p', PrintInt(exp), GeneratedSig(a, t, p)));
  }

  lemma Judge(a: Signer, s: Signer, t: int, t': int, p: string, p': string, m: string, exp: int, valid: bool)
    requires a.mac == s.mac && a.urlPath == s.urlPath && MacBinds(s.mac, a.secret, s.secret) && s.clockSkewSeconds == 30
    requires 0 < a.expirySeconds && 0 < s.expirySeconds && 0 <= t && Int64(t')
    requires t + a.expirySeconds + s.expirySeconds + 30 <= MAX64 && NormalizeMethod(m) == "GET"
    requires exp == Wrap(t + a.expirySeconds)
    requires valid <==>
             && s.secret != "" && NormalizePath(s, p') != "" && InWindow(s, t', exp)
             && SignBytes(a, "GET", p, exp) == SignBytes(s, m, NormalizePath(s, p'), exp)
    ensures valid <==>
            && a.secret == s.secret != ""
            && t + a.expirySeconds - s.expirySeconds - 30 <= t' <= t + a.expirySeconds
            && NormalizePath(s, p') != "" && NormalizePath(s, NormalizePath(s, p')) == NormalizePath(s, p)
  {
    WindowHolds(s, a.expirySeconds, t, t');
    SignaturesAgreeIff(a, s, m, NormalizePath(s, p'), p, exp);
  }

  lemma ValidateParts(s: Signer, now: int, m: string, p: string, exp: int, mac: seq<Byte>, expStr: string, sig: string)
    requires Int64(exp) && expStr == PrintInt(exp) && sig == HexEncode(mac)
    ensures ValidateMethod(s, now, m, p, expStr, sig) <==>
            && s.secret != "" && NormalizePath(s, p) != "" && InWindow(s, now, exp)
            && mac == SignBytes(s, m, NormalizePath(s, p), exp)
  {
    ParsePrinted(exp);
    HexRoundTrip(mac);
  }

  lemma SignaturesAgreeIff(a: Signer, s: Signer, m: string, q: string, p: string, exp: int)
    requires a.mac == s.mac && a.urlPath == s.urlPath && MacBinds(s.mac, a.secret, s.secret)
    requires NormalizeMethod(m) == "GET"
    ensures SignBytes(s, m, q, exp) == SignBytes(a, "GET", p, exp) <==>
            s.secret == a.secret && NormalizePath(s, q) == NormalizePath(s, p)
  {
    GetIsGet();
    assert NormalizePath(a, p) == NormalizePath(s, p);
    if SignBytes(s, m, q, exp) == SignBytes(a, "GET", p, exp) {
      EncodingInjective("GET", NormalizePath(s, q), exp, "GET", NormalizePath(a, p), exp);
    }
  }

  /** For the path it was generated for, a URL validates exactly during its lifetime, if and only if the path survives a
      second normalization. */
  lemma GeneratedValidatesIff(s: Signer, t: int, t': int, path: string, m: string)
    requires MacInjective(s) && s.secret != "" && s.clockSkewSeconds == 30
    requires 0 < s.expirySeconds && 0 <= t && Int64(t') && t + 2 * s.expirySeconds + 30 <= MAX64
    requires NormalizeMethod(m) == "GET"
    ensures ValidateMethod(s, t', m, path, PrintInt(Expiry(s, t)), GeneratedSig(s, t, path)) <==>
            WithinLifetime(s, t, t') && StablePath(s, path)
  {
    ValidatesForIff(s, s, t, t', path, path, m);
  }

  lemma GetIsGet()
    ensures NormalizeMethod("GET") == "GET" && NormalizeMethod("HEAD") == "GET" && NormalizeMethod("") == "GET"
  {
    assert TrimSpace("GET") == "GET" && ToUpper("GET") == "GET";
    assert TrimSpace("HEAD") == "HEAD" && ToUpper("HEAD") == "HEAD";
    assert TrimSpace("") == "";
  }
}
