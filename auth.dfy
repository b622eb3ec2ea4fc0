/**
 * The shared-secret check in front of the sync endpoint (`require_auth`, app.py).
 * The configured secret, the `Authorization` header and the `token` query
 * parameter are plain values; an absent header or parameter reads as "".
 */
module Auth {
  import opened Opt

  const BearerPrefix: string := "Bearer "

  /** The characters Python's `str.isspace` accepts, which `str.strip()` removes. */
  predicate IsSpace(c: char)
  {
    || ('\U{9}' <= c <= '\U{D}')
    || ('\U{1C}' <= c <= '\U{20}')
    || c == '\U{85}' || c == '\U{A0}' || c == '\U{1680}'
    || ('\U{2000}' <= c <= '\U{200A}')
    || c == '\U{2028}' || c == '\U{2029}' || c == '\U{202F}' || c == '\U{205F}' || c == '\U{3000}'
  }

  predicate AllSpace(s: string)
  {
    forall i :: 0 <= i < |s| ==> IsSpace(s[i])
  }

  /** Neither end of `s` is whitespace. */
  predicate Trimmed(s: string)
  {
    s == [] || (!IsSpace(s[0]) && !IsSpace(s[|s| - 1]))
  }

  /** `s.lstrip()`: the longest suffix of `s` not starting with whitespace. */
  function TrimStart(s: string): (r: string)
    ensures |r| <= |s| && r == s[|s| - |r|..]
    ensures r == [] || !IsSpace(r[0])
    ensures AllSpace(s[..|s| - |r|])
  {
    if s != [] && IsSpace(s[0]) then
      var r := TrimStart(s[1..]);
      assert s[..|s| - |r|] == [s[0]] + s[1..][..|s| - 1 - |r|];
      r
    else s
  }

  /** `s.rstrip()`: the longest prefix of `s` not ending with whitespace. */
  function TrimEnd(s: string): (r: string)
    ensures |r| <= |s| && r == s[..|r|]
    ensures r == [] || !IsSpace(r[|r| - 1])
    ensures AllSpace(s[|r|..])
  {
    if s != [] && IsSpace(s[|s| - 1]) then
      var r := TrimEnd(s[..|s| - 1]);
      assert s[|r|..] == s[..|s| - 1][|r|..] + [s[|s| - 1]];
      r
    else s
  }

  /** `s.strip()`: what is left once whitespace is removed from both ends. */
  function Strip(s: string): (r: string)
    ensures Trimmed(r)
    ensures exists i, j :: 0 <= i <= j <= |s| && r == s[i..j] && AllSpace(s[..i]) && AllSpace(s[j..])
  {
    var t := TrimStart(s);
    var r := TrimEnd(t);
    var i := |s| - |t|;
    assert r == s[i..i + |r|];
    assert s[i + |r|..] == t[|r|..];
    r
  }

  /** Stripping whitespace padding around an already trimmed text gives that text back. */
  lemma {:induction false} StripPadded(pre: string, t: string, post: string)
    requires AllSpace(pre) && AllSpace(post) && Trimmed(t)
    ensures Strip(pre + t + post) == t
  {
    if t == [] {
      assert pre + t + post == (pre + post) + [];
      TrimStartPadded(pre + post, []);
    } else {
      assert pre + t + post == pre + (t + post);
      TrimStartPadded(pre, t + post);
      TrimEndPadded(t, post);
    }
  }

  lemma {:induction false} TrimStartPadded(pre: string, rest: string)
    requires AllSpace(pre)
    requires rest == [] || !IsSpace(rest[0])
    ensures TrimStart(pre + rest) == rest
  {
    if pre != [] {
      assert (pre + rest)[1..] == pre[1..] + rest;
      TrimStartPadded(pre[1..], rest);
    }
  }

  lemma {:induction false} TrimEndPadded(t: string, post: string)
    requires AllSpace(post)
    requires t == [] || !IsSpace(t[|t| - 1])
    ensures TrimEnd(t + post) == t
  {
    if post != [] {
      assert (t + post)[..|t + post| - 1] == t + post[..|post| - 1];
      TrimEndPadded(t, post[..|post| - 1]);
    }
  }

  /** `s` begins with `p` (`str.startswith`). */
  predicate StartsWith(s: string, p: string)
  {
    |p| <= |s| && s[..|p|] == p
  }

  /** `p` occurs in `s` at position `i`. */
  predicate OccursAt(s: string, p: string, i: int)
  {
    0 <= i && i + |p| <= |s| && s[i..i + |p|] == p
  }

  /** The position of the leftmost occurrence of `p` in `s` (`str.find`). */
  function Find(s: string, p: string): (r: Option<nat>)
    ensures r.Some? ==> OccursAt(s, p, r.value) && forall j :: 0 <= j < r.value ==> !OccursAt(s, p, j)
    ensures r.None? ==> forall j :: !OccursAt(s, p, j)
    decreases |s|
  {
    if StartsWith(s, p) then Some(0)
    else if |s| <= |p| then None
    else
      var tail := Find(s[1..], p);
      ShiftOccurrence(s, p);
      match tail
      case Some(i) => Some(i + 1)
      case None => None
  }

  /** An occurrence past the first position of `s` is an occurrence in `s[1..]`, one place earlier. */
  lemma ShiftOccurrence(s: string, p: string)
    requires |s| > 0
    ensures forall j :: 1 <= j ==> (OccursAt(s, p, j) <==> OccursAt(s[1..], p, j - 1))
  {
  }

  /** `s.replace(p, q, 1)`: the leftmost occurrence of `p`, if any, becomes `q`. */
  function ReplaceFirst(s: string, p: string, q: string): (r: string)
    ensures (forall j :: !OccursAt(s, p, j)) ==> r == s
    ensures forall i :: OccursAt(s, p, i) && (forall j :: 0 <= j < i ==> !OccursAt(s, p, j)) ==>
      r == s[..i] + q + s[i + |p|..]
  {
    match Find(s, p)
    case Some(i) => s[..i] + q + s[i + |p|..]
    case None => s
  }

  /** Removing the first occurrence of a prefix removes exactly that prefix. */
  lemma ReplacePrefix(s: string, p: string)
    requires StartsWith(s, p)
    ensures ReplaceFirst(s, p, "") == s[|p|..]
  {
  }

  /**
   * The decision of `require_auth`: open access when no secret is configured;
   * otherwise a header starting with "Bearer " must carry the secret (modulo
   * surrounding whitespace), and without such a header the `token` query
   * parameter must equal it.
   */
  function RequireAuth(expected: string, authorization: Option<string>, token: Option<string>): (ok: bool)
    ensures expected == [] ==> ok
    ensures expected != [] && authorization.Some? && StartsWith(authorization.value, BearerPrefix) ==>
      (ok <==> Strip(authorization.value[|BearerPrefix|..]) == expected)
    ensures expected != [] && !(authorization.Some? && StartsWith(authorization.value, BearerPrefix)) ==>
      (ok <==> token == Some(expected))
  {
    if expected == [] then true
    else
      var auth := authorization.GetOr("");
      if StartsWith(auth, BearerPrefix) then
        ReplacePrefix(auth, BearerPrefix);
        Strip(ReplaceFirst(auth, BearerPrefix, "")) == expected
      else
        token.GetOr("") == expected
  }

  /** With a secret configured, a request carrying no credentials at all is refused. */
  lemma NoCredentialsRefused(expected: string)
    requires expected != []
    ensures !RequireAuth(expected, None, None)
  {
  }

  /** A bearer header carrying a trimmed secret, padded with any whitespace, is accepted. */
  lemma {:induction false} PaddedBearerAccepted(expected: string, pre: string, post: string, token: Option<string>)
    requires Trimmed(expected)
    requires AllSpace(pre) && AllSpace(post)
    ensures RequireAuth(expected, Some(BearerPrefix + pre + expected + post), token)
  {
    var h := BearerPrefix + pre + expected + post;
    assert StartsWith(h, BearerPrefix);
    assert h[|BearerPrefix|..] == pre + expected + post;
    StripPadded(pre, expected, post);
  }

  /**
   * A "Bearer " header takes precedence: when its token is wrong, a correct
   * `token` query parameter does not rescue the request.
   */
  lemma BearerHeaderShadowsQuery(expected: string, header: string)
    requires expected != []
    requires StartsWith(header, BearerPrefix)
    requires Strip(header[|BearerPrefix|..]) != expected
    ensures !RequireAuth(expected, Some(header), Some(expected))
  {
  }

  /** A secret with whitespace at either end can never be presented through the header. */
  lemma PaddedSecretNeedsQuery(expected: string, header: string)
    requires expected != [] && !Trimmed(expected)
    requires StartsWith(header, BearerPrefix)
    ensures !RequireAuth(expected, Some(header), Some(expected))
  {
  }
}
