/** The principal codec: `authenticateJWT` turns the raw `Authorization`
    header into the request principal. Signature verification is the
    parameter `verified`, the tokens that verify and their payloads; any
    other token is malformed, badly signed or expired. */
module Token {
  import opened Types

  /** Characters removed by JavaScript's `String.prototype.trim`: the
      ECMAScript WhiteSpace production (tab, vertical tab, form feed,
      space, no-break space, byte order mark and the Zs space separators)
      and the LineTerminator production (LF, CR, U+2028, U+2029). */
  predicate IsTrimmed(c: char) {
    || c == '\t' || c == '\U{000B}' || c == '\U{000C}' || c == ' '
    || c == '\U{00A0}' || c == '\U{FEFF}'
    || c == '\U{1680}' || ('\U{2000}' <= c <= '\U{200A}')
    || c == '\U{202F}' || c == '\U{205F}' || c == '\U{3000}'
    || c == '\n' || c == '\r' || c == '\U{2028}' || c == '\U{2029}'
  }

  ghost predicate AllTrimmed(s: string) {
    forall i :: 0 <= i < |s| ==> IsTrimmed(s[i])
  }

  /** `s` with its leading trimmable characters removed. */
  function TrimStart(s: string): (r: string)
    ensures |r| <= |s| && r == s[|s| - |r|..]
    ensures r != [] ==> !IsTrimmed(r[0])
    decreases |s|
  {
    if s != [] && IsTrimmed(s[0]) then TrimStart(s[1..]) else s
  }

  /** `s` with its trailing trimmable characters removed. */
  function TrimEnd(s: string): (r: string)
    ensures |r| <= |s| && r == s[..|r|]
    ensures r != [] ==> !IsTrimmed(r[|r| - 1])
    decreases |s|
  {
    if s != [] && IsTrimmed(s[|s| - 1]) then TrimEnd(s[..|s| - 1]) else s
  }

  /** `String.prototype.trim`. */
  function Trim(s: string): (r: string)
    ensures r != [] ==> !IsTrimmed(r[0]) && !IsTrimmed(r[|r| - 1])
  {
    TrimEnd(TrimStart(s))
  }

  /** Only trimmable characters are dropped from the front. */
  lemma {:induction false} TrimStartDropsWhitespace(s: string)
    ensures AllTrimmed(s[..|s| - |TrimStart(s)|])
    decreases |s|
  {
    if s != [] && IsTrimmed(s[0]) {
      TrimStartDropsWhitespace(s[1..]);
      var r := TrimStart(s[1..]);
      assert s[..|s| - |r|] == [s[0]] + s[1..][..|s| - 1 - |r|];
    }
  }

  /** Only trimmable characters are dropped from the back. */
  lemma {:induction false} TrimEndDropsWhitespace(s: string)
    ensures AllTrimmed(s[|TrimEnd(s)|..])
    decreases |s|
  {
    if s != [] && IsTrimmed(s[|s| - 1]) {
      TrimEndDropsWhitespace(s[..|s| - 1]);
      var r := TrimEnd(s[..|s| - 1]);
      assert s[|r|..] == s[..|s| - 1][|r|..] + [s[|s| - 1]];
    }
  }

  /** What `trim` returns: the infix of `s` left after dropping a prefix
      and a suffix made only of trimmable characters, and which itself
      neither starts nor ends with one. */
  lemma TrimIsInfix(s: string)
    ensures exists i, j :: 0 <= i <= j <= |s| && Trim(s) == s[i..j] && AllTrimmed(s[..i]) && AllTrimmed(s[j..])
  {
    var t := TrimStart(s);
    var r := TrimEnd(t);
    var i := |s| - |t|;
    TrimStartDropsWhitespace(s);
    TrimEndDropsWhitespace(t);
    assert r == s[i..i + |r|];
    assert s[i + |r|..] == t[|r|..];
  }

  /** Whether `h` matches `/^[Bb]earer /`. */
  predicate HasBearerPrefix(h: string) {
    |h| >= 7 && (h[..7] == "Bearer " || h[..7] == "bearer ")
  }

  /** `authHeader.replace(/^[Bb]earer /, "")`: the header is either left
      as it is or is one of the two spellings followed by the result, and
      it is stripped exactly when it starts with one of them. */
  function StripBearer(h: string): (r: string)
    ensures h == "Bearer " + r || h == "bearer " + r || h == r
    ensures r != h <==> HasBearerPrefix(h)
  {
    if HasBearerPrefix(h) then h[7..] else h
  }

  /** The token handed to signature verification: never longer than the
      header, without whitespace at either end, and the whole trimmed
      header when no recognised prefix starts it. */
  function ExtractToken(h: string): (token: string)
    ensures |token| <= |h|
    ensures token != [] ==> !IsTrimmed(token[0]) && !IsTrimmed(token[|token| - 1])
    ensures !HasBearerPrefix(h) ==> token == Trim(h)
  {
    Trim(StripBearer(h))
  }

  /** The tokens that pass signature verification under the server secret
      (well-formed, correctly signed, unexpired), each with its payload. */
  type Verified = map<string, Principal>

  /** `authenticateJWT`: `prior` is `res.locals.user` before the middleware
      runs and `header` is `req.headers.authorization`. An absent or empty
      header skips verification; a verified token replaces the principal;
      a verification failure is swallowed and leaves `prior` in place. The
      middleware always calls `next()` without an error, which is why the
      result is a principal and not an outcome. */
  function AuthenticateJWT(verified: Verified, prior: Option<Principal>, header: Option<string>): (r: Option<Principal>)
    ensures header.None? || header == Some("") ==> r == prior
    ensures header.Some? && header.value != "" && ExtractToken(header.value) in verified
            ==> r == Some(verified[ExtractToken(header.value)])
    ensures header.Some? && ExtractToken(header.value) !in verified ==> r == prior
  {
    match header
    case None => prior
    case Some(h) =>
      if h == "" then prior
      else
        var token := ExtractToken(h);
        if token in verified then Some(verified[token]) else prior
  }

  /** Fail-open: a request that starts anonymous ends anonymous unless the
      header carries a verified token, and then its principal is exactly
      that token's payload; a bad token is never an error. */
  lemma AuthenticateFailsOpen(verified: Verified, header: Option<string>)
    ensures AuthenticateJWT(verified, None, header).Some? <==>
            header.Some? && header.value != "" && ExtractToken(header.value) in verified
    ensures AuthenticateJWT(verified, None, header).Some? ==>
            AuthenticateJWT(verified, None, header).value in verified.Values
  {
  }

  /** Both accepted spellings of the scheme are removed, and what follows is
      trimmed. */
  lemma BearerPrefixStripped(rest: string)
    ensures ExtractToken("Bearer " + rest) == Trim(rest)
    ensures ExtractToken("bearer " + rest) == Trim(rest)
  {
    PrefixStripped("Bearer ", rest);
    PrefixStripped("bearer ", rest);
  }

  lemma PrefixStripped(prefix: string, rest: string)
    requires prefix == "Bearer " || prefix == "bearer "
    ensures StripBearer(prefix + rest) == rest
  {
    assert (prefix + rest)[..7] == prefix;
    assert (prefix + rest)[7..] == rest;
  }

  /** Any other spelling, such as `BEARER `, is not a recognised prefix: the
      whole header, trimmed, reaches verification. */
  lemma OtherSpellingsKept(rest: string)
    ensures ExtractToken("BEARER " + rest) == Trim("BEARER " + rest)
  {
    var h := "BEARER " + rest;
    assert h[..7][1] == 'E';
  }

  /** The prefix is only recognised at the very start: whitespace in front
      of it protects it from stripping, and trimming only comes after, so
      the prefix reaches verification as part of the token. */
  lemma PrefixMustBeLeading(c: char, rest: string)
    requires IsTrimmed(c)
    ensures ExtractToken([c] + "Bearer " + rest) == Trim("Bearer " + rest)
  {
    var h := [c] + "Bearer " + rest;
    assert h[..7][0] == c;
    assert StripBearer(h) == h;
    assert h == [c] + ("Bearer " + rest);
    TrimDropsLeading(c, "Bearer " + rest);
  }

  lemma TrimDropsLeading(c: char, s: string)
    requires IsTrimmed(c)
    ensures Trim([c] + s) == Trim(s)
  {
    assert ([c] + s)[1..] == s;
  }
}
