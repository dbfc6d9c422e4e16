/**
 * `JwtStrategy`: which token a request carries (the `access_token` cookie first, then an
 * `Authorization: Bearer` header), how it is checked, and the claims `validate` makes of it.
 *
 * Signature checking is the parameter `decode`, which yields the payload, the key the token
 * was signed with and its expiry; the key must equal the strategy's secret.
 */
module JwtStrategy {
  import opened Wrappers
  import opened Text
  import opened Http
  import Auth

  /** The secret used when `JWT_SECRET` is unset or empty. */
  const FallbackSecret := "your-secret-key-change-in-production"

  /** `configService.get('JWT_SECRET') || fallback`: an empty value falls back as well. */
  function ResolveSecret(configured: Option<string>): (secret: string)
    ensures secret != ""
    ensures configured.Some? && configured.value != "" ==> secret == configured.value
    ensures configured.None? || configured.value == "" ==> secret == FallbackSecret
  {
    if configured.Some? && configured.value != "" then configured.value else FallbackSecret
  }

  /** A value an extractor may return counts only when it is truthy: present and not empty. */
  predicate Truthy(t: Option<string>) {
    t.Some? && t.value != ""
  }

  /** `ExtractJwt.fromExtractors`: the first truthy result, trying the extractors in order. */
  function FromExtractors(extractors: seq<Request -> Option<string>>, req: Request): (r: Option<string>)
    ensures r.None? <==> forall i :: 0 <= i < |extractors| ==> !Truthy(extractors[i](req))
    ensures r.Some? ==> Truthy(r) && exists i :: 0 <= i < |extractors| && extractors[i](req) == r
                                          && forall j :: 0 <= j < i ==> !Truthy(extractors[j](req))
  {
    if extractors == [] then None
    else if Truthy(extractors[0](req)) then extractors[0](req)
    else
      var r := FromExtractors(extractors[1..], req);
      assert forall i :: 0 <= i < |extractors[1..]| ==> extractors[1..][i] == extractors[i + 1];
      r
  }

  /** The first extractor: `request.cookies.access_token`. */
  function CookieToken(req: Request): Option<string> {
    if "access_token" in req.cookies then Some(req.cookies["access_token"]) else None
  }

  /** A non-empty run of characters other than white space. */
  predicate IsWord(w: string) {
    w != [] && forall i :: 0 <= i < |w| ==> !IsJsSpace(w[i])
  }

  predicate AllSpace(s: string) {
    forall i :: 0 <= i < |s| ==> IsJsSpace(s[i])
  }

  /** The length of the run of non-space characters `s` starts with. */
  function WordLength(s: string): (n: nat)
    ensures n <= |s|
    ensures forall i :: 0 <= i < n ==> !IsJsSpace(s[i])
    ensures n == |s| || IsJsSpace(s[n])
  {
    if s == [] || IsJsSpace(s[0]) then 0 else 1 + WordLength(s[1..])
  }

  /** The run of non-space characters `s` starts with. */
  function Word(s: string): (w: string)
    ensures w == s[..WordLength(s)]
    ensures s != [] && !IsJsSpace(s[0]) ==> IsWord(w)
  {
    s[..WordLength(s)]
  }

  /** What follows that run. */
  function AfterWord(s: string): (rest: string)
    ensures rest == s[WordLength(s)..]
  {
    s[WordLength(s)..]
  }

  /** The scheme and the credentials of an `Authorization` header. */
  datatype AuthParams = AuthParams(scheme: string, value: string)

  /**
   * The library's header parsing, the first match of `(\S+)\s+(\S+)`: the first two words of
   * the header, when it has two.
   */
  function ParseAuthHeader(h: string): (r: Option<AuthParams>)
    ensures r.Some? ==> IsWord(r.value.scheme) && IsWord(r.value.value)
  {
    var a := TrimStart(h);
    var c := TrimStart(AfterWord(a));
    if c == [] then None
    else
      assert a != [];
      Some(AuthParams(Word(a), Word(c)))
  }

  /** `h` has two words: a non-space character, later a space, later again a non-space character. */
  predicate TwoWords(h: string) {
    exists i, k, j :: 0 <= i < k < j < |h| && !IsJsSpace(h[i]) && IsJsSpace(h[k]) && !IsJsSpace(h[j])
  }

  /**
   * In `h`, white space up to `i`, then `p.scheme`, then white space up to `j`, then `p.value`,
   * then the end or white space: `p` holds the first two words of `h`.
   */
  predicate FirstTwoWordsAt(h: string, i: nat, j: nat, p: AuthParams) {
    i + |p.scheme| < j && j + |p.value| <= |h|
    && (forall x :: 0 <= x < i ==> IsJsSpace(h[x]))
    && (forall x :: 0 <= x < |p.scheme| ==> h[i + x] == p.scheme[x])
    && (forall x :: i + |p.scheme| <= x < j ==> IsJsSpace(h[x]))
    && (forall x :: 0 <= x < |p.value| ==> h[j + x] == p.value[x])
    && (j + |p.value| == |h| || IsJsSpace(h[j + |p.value|]))
  }

  /** A character of a suffix is the character of the whole at the shifted index. */
  lemma SuffixAt(h: string, a: string, m: nat)
    requires |a| <= |h| && a == h[|h| - |a|..] && m < |a|
    ensures h[|h| - |a| + m] == a[m]
  {
  }

  /** `r` is `s` without its leading white space, as `TrimStart` ensures. */
  predicate TrimmedSuffix(s: string, r: string) {
    |r| <= |s| && r == s[|s| - |r|..] && (forall x :: 0 <= x < |s| - |r| ==> IsJsSpace(s[x]))
    && (r == [] || !IsJsSpace(r[0]))
  }

  /** `a[..n]` is the run of non-space characters `a` starts with and `b` what follows it. */
  predicate WordSplit(a: string, n: nat, b: string) {
    n <= |a| && (forall x :: 0 <= x < n ==> !IsJsSpace(a[x])) && (n == |a| || IsJsSpace(a[n]))
    && b == a[n..]
  }

  /**
   * How a header lies: `a` is `h` without its leading white space, `a[..n]` its first word,
   * `b` what follows that word and `c` that rest without its leading white space.
   */
  predicate HeaderLayout(h: string, a: string, n: nat, b: string, c: string) {
    TrimmedSuffix(h, a) && WordSplit(a, n, b) && TrimmedSuffix(b, c)
  }

  lemma {:induction false} LayoutOfHeader(h: string)
    ensures var a := TrimStart(h); var b := AfterWord(a);
            HeaderLayout(h, a, WordLength(a), b, TrimStart(b))
  {
    var a := TrimStart(h);
    assert TrimmedSuffix(h, a);
    var b := AfterWord(a);
    assert WordSplit(a, WordLength(a), b);
    assert TrimmedSuffix(b, TrimStart(b));
  }

  /** In that layout, a non-empty `c` means two words. */
  lemma {:induction false} LayoutHasTwoWords(h: string, a: string, n: nat, b: string, c: string)
    requires HeaderLayout(h, a, n, b, c) && c != []
    ensures TwoWords(h)
  {
    var i, k, j := |h| - |a|, |h| - |b|, |h| - |c|;
    assert b[0] == a[n];
    assert |c| < |b|;
    SuffixAt(h, a, 0);
    SuffixAt(h, a, n);
    SuffixAt(b, c, 0);
    SuffixAt(a, b, |b| - |c|);
    SuffixAt(h, a, n + |b| - |c|);
    assert 0 <= i < k < j < |h| && !IsJsSpace(h[i]) && IsJsSpace(h[k]) && !IsJsSpace(h[j]);
  }

  /** A header made of white space, one run of other characters, and white space has no two words. */
  lemma NoSecondWord(h: string, p: nat, q: nat)
    requires p <= q <= |h|
    requires forall x :: 0 <= x < p ==> IsJsSpace(h[x])
    requires forall x :: p <= x < q ==> !IsJsSpace(h[x])
    requires forall x :: q <= x < |h| ==> IsJsSpace(h[x])
    ensures !TwoWords(h)
  {
  }

  /** In that layout, an empty `c` means fewer than two words. */
  lemma {:induction false} LayoutLacksTwoWords(h: string, a: string, n: nat, b: string, c: string)
    requires HeaderLayout(h, a, n, b, c) && c == []
    ensures !TwoWords(h)
  {
    var p := |h| - |a|;
    forall x | p <= x < p + n
      ensures !IsJsSpace(h[x])
    {
      SuffixAt(h, a, x - p);
    }
    forall x | p + n <= x < |h|
      ensures IsJsSpace(h[x])
    {
      SuffixAt(h, a, x - p);
      assert a[x - p] == b[x - p - n];
    }
    NoSecondWord(h, p, p + n);
  }

  /** In that layout, `h` holds the first word `a[..n]` from `|h| - |a|`. */
  lemma {:induction false} LayoutScheme(h: string, a: string, n: nat, b: string, c: string)
    requires HeaderLayout(h, a, n, b, c)
    ensures forall x :: 0 <= x < n ==> h[|h| - |a| + x] == a[x]
  {
    forall x | 0 <= x < n
      ensures h[|h| - |a| + x] == a[x]
    {
      SuffixAt(h, a, x);
    }
  }

  /** In that layout, `h` holds only white space from the end of the first word to `|h| - |c|`. */
  lemma {:induction false} LayoutGap(h: string, a: string, n: nat, b: string, c: string)
    requires HeaderLayout(h, a, n, b, c)
    ensures forall x :: |h| - |a| + n <= x < |h| - |c| ==> IsJsSpace(h[x])
  {
    var i := |h| - |a|;
    forall x | i + n <= x < |h| - |c|
      ensures IsJsSpace(h[x])
    {
      SuffixAt(h, a, x - i);
      assert a[x - i] == b[x - i - n];
    }
  }

  /** In that layout, `h` ends with `c`. */
  lemma {:induction false} LayoutRest(h: string, a: string, n: nat, b: string, c: string)
    requires HeaderLayout(h, a, n, b, c)
    ensures forall x :: 0 <= x < |c| ==> h[|h| - |c| + x] == c[x]
  {
    forall x | 0 <= x < |c|
      ensures h[|h| - |c| + x] == c[x]
    {
      SuffixAt(b, c, x);
      SuffixAt(a, b, |b| - |c| + x);
      SuffixAt(h, a, n + |b| - |c| + x);
    }
  }

  /** In that layout, a non-empty `c` puts the first word at `|h| - |a|` and the second at `|h| - |c|`. */
  lemma {:induction false} LayoutWords(h: string, a: string, n: nat, b: string, c: string, m: nat)
    requires HeaderLayout(h, a, n, b, c) && c != []
    requires m <= |c| && (forall x :: 0 <= x < m ==> !IsJsSpace(c[x])) && (m == |c| || IsJsSpace(c[m]))
    ensures FirstTwoWordsAt(h, |h| - |a|, |h| - |c|, AuthParams(a[..n], c[..m]))
  {
    var p := AuthParams(a[..n], c[..m]);
    var i, j := |h| - |a|, |h| - |c|;
    assert b[0] == a[n];
    assert |c| < |b|;
    LayoutScheme(h, a, n, b, c);
    LayoutGap(h, a, n, b, c);
    LayoutRest(h, a, n, b, c);
    assert forall x :: 0 <= x < |p.scheme| ==> h[i + x] == p.scheme[x];
    assert forall x :: 0 <= x < |p.value| ==> h[j + x] == p.value[x];
  }

  /** `(\S+)\s+(\S+)` fails exactly on a header of fewer than two words. */
  lemma {:induction false} ParseAuthHeaderNoneIff(h: string)
    ensures ParseAuthHeader(h).None? <==> !TwoWords(h)
  {
    var a := TrimStart(h);
    var b := AfterWord(a);
    LayoutOfHeader(h);
    if TrimStart(b) == [] {
      LayoutLacksTwoWords(h, a, WordLength(a), b, TrimStart(b));
    } else {
      LayoutHasTwoWords(h, a, WordLength(a), b, TrimStart(b));
    }
  }

  /** A header that parses holds the two parsed words as its first two words. */
  lemma {:induction false} ParsedWordsOfHeader(h: string)
    requires ParseAuthHeader(h).Some?
    ensures exists i: nat, j: nat :: FirstTwoWordsAt(h, i, j, ParseAuthHeader(h).value)
  {
    var a := TrimStart(h);
    var b := AfterWord(a);
    var c := TrimStart(b);
    LayoutOfHeader(h);
    LayoutWords(h, a, WordLength(a), b, c, WordLength(c));
  }

  lemma {:induction false} TrimStartOfSpaces(sp: string, x: string)
    requires AllSpace(sp) && (x == [] || !IsJsSpace(x[0]))
    ensures TrimStart(sp + x) == x
  {
    if sp != [] {
      assert (sp + x)[1..] == sp[1..] + x;
      TrimStartOfSpaces(sp[1..], x);
    }
  }

  lemma {:induction false} WordLengthOf(w: string, x: string)
    requires forall i :: 0 <= i < |w| ==> !IsJsSpace(w[i])
    requires x == [] || IsJsSpace(x[0])
    ensures WordLength(w + x) == |w|
  {
    if w != [] {
      assert (w + x)[1..] == w[1..] + x;
      WordLengthOf(w[1..], x);
    }
  }

  lemma {:induction false} WordOf(w: string, x: string)
    requires IsWord(w)
    requires x == [] || IsJsSpace(x[0])
    ensures Word(w + x) == w && AfterWord(w + x) == x
  {
    WordLengthOf(w, x);
    assert (w + x)[..|w|] == w;
    assert (w + x)[|w|..] == x;
  }

  /**
   * Parsing finds exactly the header's first two words, whatever white space surrounds them
   * and whatever follows the second.
   */
  lemma {:induction false} ParseAuthHeaderOf(lead: string, scheme: string, gap: string, value: string, rest: string)
    requires AllSpace(lead) && IsWord(scheme) && AllSpace(gap) && gap != [] && IsWord(value)
    requires rest == [] || IsJsSpace(rest[0])
    ensures ParseAuthHeader(lead + scheme + gap + value + rest) == Some(AuthParams(scheme, value))
  {
    var h := lead + scheme + gap + value + rest;
    var tail := value + rest;
    var a := scheme + (gap + tail);
    assert h == lead + a;
    TrimStartOfSpaces(lead, a);
    WordOf(scheme, gap + tail);
    TrimStartOfSpaces(gap, tail);
    WordOf(value, rest);
  }

  /** `'bearer' === scheme.toLowerCase()`, letter by letter. */
  predicate IsBearerScheme(scheme: string) {
    |scheme| == 6 && forall i :: 0 <= i < 6 ==> AsciiLower(scheme[i]) == "bearer"[i]
  }

  function AsciiLower(c: char): char {
    if 'A' <= c <= 'Z' then (c as int + 32) as char else c
  }

  /** The second extractor: the credentials of an `Authorization` header with scheme `Bearer`. */
  function BearerToken(req: Request): (r: Option<string>)
    ensures r.Some? ==> IsWord(r.value)
    ensures r.Some? <==> "authorization" in req.headers && ParseAuthHeader(req.headers["authorization"]).Some?
                         && IsBearerScheme(ParseAuthHeader(req.headers["authorization"]).value.scheme)
    ensures r.Some? ==> r.value == ParseAuthHeader(req.headers["authorization"]).value.value
  {
    if "authorization" in req.headers && req.headers["authorization"] != [] then
      match ParseAuthHeader(req.headers["authorization"])
      case Some(p) => if IsBearerScheme(p.scheme) then Some(p.value) else None
      case None => None
    else None
  }

  /** `Authorization: Bearer <token>` yields the token when it is a single word. */
  lemma {:induction false} BearerHeaderYieldsToken(req: Request, token: string)
    requires "authorization" in req.headers && req.headers["authorization"] == "Bearer " + token
    requires IsWord(token)
    ensures BearerToken(req) == Some(token)
  {
    var h := "Bearer " + token;
    assert h == [] + "Bearer" + " " + token + [] by {
      assert [] + "Bearer" + " " == "Bearer ";
    }
    BearerSchemeWord();
    assert AllSpace(" ");
    ParseAuthHeaderOf([], "Bearer", " ", token, []);
  }

  lemma BearerSchemeWord()
    ensures IsWord("Bearer") && IsBearerScheme("Bearer")
  {
  }

  /**
   * The strategy's `jwtFromRequest`: a non-empty `access_token` cookie is the token; without
   * one, the token is the bearer header's, or there is none.
   */
  function JwtFromRequest(req: Request): (r: Option<string>)
    ensures "access_token" in req.cookies && req.cookies["access_token"] != "" ==> r == Some(req.cookies["access_token"])
    ensures "access_token" !in req.cookies || req.cookies["access_token"] == "" ==> r == BearerToken(req)
  {
    var ex := [CookieToken, BearerToken];
    assert ex[0](req) == CookieToken(req);
    assert ex[1..] == [BearerToken] && [BearerToken][1..] == [];
    assert FromExtractors([BearerToken], req) == BearerToken(req);
    FromExtractors(ex, req)
  }

  /** Once a usable cookie is present, the headers do not matter. */
  lemma {:induction false} CookieWins(req: Request, headers: map<string, string>)
    requires "access_token" in req.cookies && req.cookies["access_token"] != ""
    ensures JwtFromRequest(req.(headers := headers)) == JwtFromRequest(req)
  {
  }

  /** What signature checking with `decode` yields: the payload, the signing key and `exp` in seconds. */
  datatype SignedToken = SignedToken(payload: Auth.JwtPayload, key: string, exp: Option<int>)

  /** `ignoreExpiration: false`: a token is refused from the second its `exp` names on. */
  predicate ExpiredAt(exp: Option<int>, nowMs: int) {
    exp.Some? && nowMs / 1000 >= exp.value
  }

  /** `req.user` after authentication: `{ userId, email }`. */
  datatype Claims = Claims(userId: string, email: string)

  /** `validate`: the subject becomes `userId`, the email stays. */
  function Validate(payload: Auth.JwtPayload): (c: Claims)
    ensures c.userId == payload.sub && c.email == payload.email
  {
    Claims(payload.sub, payload.email)
  }

  /** The whole strategy: extract, check signature and expiry, then validate; `None` is a 401. */
  function Authenticate(req: Request, secret: string, decode: string -> Option<SignedToken>, nowMs: int): (r: Option<Claims>)
    ensures r.Some? ==> JwtFromRequest(req).Some?
    ensures r.Some? ==> var t := decode(JwtFromRequest(req).value);
      t.Some? && t.value.key == secret && !ExpiredAt(t.value.exp, nowMs) && r.value == Validate(t.value.payload)
  {
    match JwtFromRequest(req)
    case None => None
    case Some(token) =>
      match decode(token)
      case None => None
      case Some(t) => if t.key == secret && !ExpiredAt(t.exp, nowMs) then Some(Validate(t.payload)) else None
  }

  /** A request without a usable cookie and without a two-word `Authorization` header is not authenticated. */
  lemma {:induction false} NoTokenUnauthenticated(req: Request, secret: string, decode: string -> Option<SignedToken>, nowMs: int)
    requires "access_token" !in req.cookies || req.cookies["access_token"] == ""
    requires "authorization" !in req.headers || !TwoWords(req.headers["authorization"])
    ensures Authenticate(req, secret, decode, nowMs).None?
  {
    if "authorization" in req.headers {
      ParseAuthHeaderNoneIff(req.headers["authorization"]);
    }
  }

  /** A header whose scheme is not `bearer`, in any case, yields no token from it. */
  lemma {:induction false} OtherSchemeUnauthenticated(req: Request, secret: string, decode: string -> Option<SignedToken>, nowMs: int)
    requires "access_token" !in req.cookies || req.cookies["access_token"] == ""
    requires "authorization" in req.headers
    requires var p := ParseAuthHeader(req.headers["authorization"]); p.Some? && !IsBearerScheme(p.value.scheme)
    ensures Authenticate(req, secret, decode, nowMs).None?
  {
  }

  /** An expired token is refused, however well signed. */
  lemma {:induction false} ExpiredRejected(req: Request, secret: string, decode: string -> Option<SignedToken>, nowMs: int)
    requires JwtFromRequest(req).Some?
    requires var t := decode(JwtFromRequest(req).value); t.Some? && ExpiredAt(t.value.exp, nowMs)
    ensures Authenticate(req, secret, decode, nowMs).None?
  {
  }

  /** The token `login` signs for a user authenticates as that user while it has not expired. */
  lemma {:induction false} LoginTokenAuthenticates(req: Request, secret: string, decode: string -> Option<SignedToken>, nowMs: int,
                                userId: string, email: string, exp: Option<int>)
    requires JwtFromRequest(req).Some?
    requires decode(JwtFromRequest(req).value) == Some(SignedToken(Auth.PayloadFor(userId, email), secret, exp))
    requires !ExpiredAt(exp, nowMs)
    ensures Authenticate(req, secret, decode, nowMs) == Some(Claims(userId, email))
  {
  }
}
