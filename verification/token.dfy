/**
 * How one load-balancer probe is turned into the identity of the container
 * that answered it: the `Host` response header when it is non-empty,
 * otherwise the response body with surrounding white space removed.
 */
module Token {
  import opened Wrappers

  /** Go's `unicode.IsSpace`: the Latin-1 spaces, then the other Unicode White_Space code points. */
  predicate IsSpace(c: char) {
    if c <= '\U{FF}' then
      c == '\t' || c == '\n' || c == '\U{0B}' || c == '\U{0C}' || c == '\r' ||
      c == ' ' || c == '\U{85}' || c == '\U{A0}'
    else
      c == '\U{1680}' || ('\U{2000}' <= c <= '\U{200A}') || c == '\U{2028}' || c == '\U{2029}' ||
      c == '\U{202F}' || c == '\U{205F}' || c == '\U{3000}'
  }

  predicate AllSpace(s: string) {
    forall k :: 0 <= k < |s| ==> IsSpace(s[k])
  }

  /** Neither end of `s` is white space. */
  predicate IsTrimmed(s: string) {
    |s| == 0 || (!IsSpace(s[0]) && !IsSpace(s[|s| - 1]))
  }

  /** `s[i..j]` is what is left of `s` once the white space at both ends is cut off. */
  predicate TrimOf(s: string, i: nat, j: nat) {
    i <= j <= |s| && AllSpace(s[..i]) && AllSpace(s[j..]) && IsTrimmed(s[i..j])
  }

  /** The length of the run of white space at the start of `s`. */
  function LeadingSpace(s: string): (n: nat)
    ensures n <= |s|
    ensures forall k :: 0 <= k < n ==> IsSpace(s[k])
    ensures n < |s| ==> !IsSpace(s[n])
  {
    if |s| == 0 || !IsSpace(s[0]) then 0 else 1 + LeadingSpace(s[1..])
  }

  /** The length of the run of white space at the end of `s`. */
  function TrailingSpace(s: string): (n: nat)
    ensures n <= |s|
    ensures forall k :: |s| - n <= k < |s| ==> IsSpace(s[k])
    ensures n < |s| ==> !IsSpace(s[|s| - 1 - n])
  {
    if |s| == 0 || !IsSpace(s[|s| - 1]) then 0 else 1 + TrailingSpace(s[..|s| - 1])
  }

  /** Go's `strings.TrimSpace` on an already decoded string. */
  function TrimSpace(s: string): (r: string)
    ensures IsTrimmed(r)
    ensures |r| <= |s|
  {
    var i := LeadingSpace(s);
    s[i..|s| - TrailingSpace(s[i..])]
  }

  /** TrimSpace cuts exactly the white space at both ends: any split of `s` into
      white space, a trimmed middle and white space has TrimSpace(s) as its middle. */
  lemma TrimSpaceIsTrimOf(s: string, i: nat, j: nat)
    requires TrimOf(s, i, j)
    ensures TrimSpace(s) == s[i..j]
  {
  }

  /** TrimSpace returns a slice of its input: the middle of a split of `s` into
      white space, a trimmed middle and white space. */
  lemma TrimSpaceSlice(s: string)
    ensures exists i: nat, j: nat :: TrimOf(s, i, j) && TrimSpace(s) == s[i..j]
  {
    var i := LeadingSpace(s);
    var n := TrailingSpace(s[i..]);
    var j := |s| - n;
    assert AllSpace(s[..i]) by {
      forall k | 0 <= k < i ensures IsSpace(s[..i][k]) { assert s[..i][k] == s[k]; }
    }
    assert AllSpace(s[j..]) by {
      forall k | 0 <= k < n ensures IsSpace(s[j..][k]) { assert s[j..][k] == s[i..][|s[i..]| - n + k]; }
    }
    assert TrimOf(s, i, j);
  }

  /** Trimming twice is trimming once. */
  lemma TrimSpaceIdempotent(s: string)
    ensures TrimSpace(TrimSpace(s)) == TrimSpace(s)
  {
  }

  /** What the body read yields: the whole body as text, or a read error. */
  datatype Body = Text(text: string) | ReadFailed

  /** The outcome of one HTTP GET against the published port. A response carries
      its `Host` header value, which is "" when the header is absent. */
  datatype Probe = RequestFailed | Response(host: string, body: Body)

  /** The identity token a probe yields, or None when the probe records nothing.
      The body is only read when the header is empty, so a body that could not
      be read matters only then. */
  function Identity(p: Probe): (token: Option<string>)
    ensures token.None? <==> p.RequestFailed? || (p.host == "" && p.body.ReadFailed?)
    ensures p.Response? && p.host != "" ==> token == Some(p.host)
    ensures p.Response? && p.host == "" && token.Some? ==> IsTrimmed(token.value)
  {
    match p
    case RequestFailed => None
    case Response(host, body) =>
      if host != "" then Some(host)
      else match body
        case ReadFailed => None
        case Text(text) => Some(TrimSpace(text))
  }

  /** With an empty `Host` header, the token is the body with only its
      surrounding white space removed. */
  lemma IdentityFromBody(host: string, text: string, i: nat, j: nat)
    requires host == "" && TrimOf(text, i, j)
    ensures Identity(Response(host, Text(text))) == Some(text[i..j])
  {
  }
}
