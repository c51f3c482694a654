/**
 * The server's request guards: the CSRF and Host checks, the origin check
 * for sensitive actions, the magic-number check on uploaded files, and the
 * URL, e-mail and user-agent heuristics.
 */
module ServerSecurity {
  import opened Wrappers
  import opened Text
  import ClientSecurity

  // ---------------------------------------------------------------------------
  // csrfProtection

  predicate IsSafeMethod(verb: string) {
    verb == "GET" || verb == "HEAD" || verb == "OPTIONS"
  }

  /**
   * `csrfProtection`: GET, HEAD and OPTIONS always pass. Any other method
   * passes exactly when the session holds a non-empty token and the request
   * presents that same token, in the `x-csrf-token` header or, when the
   * header is empty or missing, in the body's `_csrf`.
   */
  function CsrfProtection(verb: string, headerToken: Option<string>, bodyToken: Option<string>,
                          sessionToken: Option<string>): (pass: bool)
    ensures pass <==> IsSafeMethod(verb)
                      || exists t :: t != "" && sessionToken == Some(t)
                                     && (headerToken == Some(t) || (!Truthy(headerToken) && bodyToken == Some(t)))
  {
    if IsSafeMethod(verb) then true
    else
      var token := if Truthy(headerToken) then headerToken else bodyToken;
      if !Truthy(token) || !Truthy(sessionToken) || token != sessionToken then false
      else
        assert sessionToken == Some(sessionToken.value);
        true
  }

  // ---------------------------------------------------------------------------
  // dnsProtection

  /** The permitted `Host` values; `ALLOWED_HOST` adds one when it is set and non-empty. */
  function AllowedHosts(allowedHost: Option<string>): seq<string> {
    ["localhost:3001", "127.0.0.1:3001", if Truthy(allowedHost) then allowedHost.value else "localhost:3001"]
  }

  /** `dnsProtection`: the request goes on exactly when its `Host` header is one of the permitted hosts. */
  function DnsProtection(host: Option<string>, allowedHost: Option<string>): (pass: bool)
    ensures pass <==> host.Some? && (host.value == "localhost:3001" || host.value == "127.0.0.1:3001"
                                     || (Truthy(allowedHost) && host.value == allowedHost.value))
  {
    host.Some? && host.value in AllowedHosts(allowedHost)
  }

  // ---------------------------------------------------------------------------
  // validateRequestOrigin

  /** The accepted origins; `FRONTEND_URL` adds one when it is set and non-empty. */
  function AllowedOrigins(frontendUrl: Option<string>): seq<string> {
    ["http://localhost:3001", "https://localhost:3001", if Truthy(frontendUrl) then frontendUrl.value else "http://localhost:3001"]
  }

  /** `prefixes.some(p => s.startsWith(p))`. */
  function StartsWithAny(s: string, prefixes: seq<string>): (r: bool)
    ensures r <==> exists k :: 0 <= k < |prefixes| && StartsWith(s, prefixes[k])
  {
    if prefixes == [] then false
    else if StartsWith(s, prefixes[0]) then true
    else
      assert forall k :: 1 <= k < |prefixes| ==> prefixes[k] == prefixes[1..][k - 1];
      StartsWithAny(s, prefixes[1..])
  }

  /**
   * `validateRequestOrigin`: the `Origin` header, or the `Referer` when
   * `Origin` is empty or missing, must start with an accepted origin.
   */
  function ValidateRequestOrigin(origin: Option<string>, referer: Option<string>, frontendUrl: Option<string>): (ok: bool)
    ensures var o := if Truthy(origin) then origin else referer;
            ok <==> o.Some? && exists k :: 0 <= k < 3 && StartsWith(o.value, AllowedOrigins(frontendUrl)[k])
  {
    var o := if Truthy(origin) then origin else referer;
    o.Some? && StartsWithAny(o.value, AllowedOrigins(frontendUrl))
  }

  /** Without either header the check fails. */
  lemma NoOriginNoAccess(frontendUrl: Option<string>)
    ensures !ValidateRequestOrigin(None, None, frontendUrl)
  {
  }

  /**
   * The match is on a prefix, not on the origin: anything that starts with
   * `http://localhost:3001`, such as `http://localhost:3001.example.net`,
   * is accepted, whatever `FRONTEND_URL` is.
   */
  lemma PrefixOfAllowedOriginAccepted(rest: string, referer: Option<string>, frontendUrl: Option<string>)
    ensures ValidateRequestOrigin(Some("http://localhost:3001" + rest), referer, frontendUrl)
  {
    var o := "http://localhost:3001" + rest;
    assert StartsWith(o, AllowedOrigins(frontendUrl)[0]) by {
      assert o[..21] == "http://localhost:3001";
    }
  }

  // ---------------------------------------------------------------------------
  // validateFileSignature

  type Byte = b: int | 0 <= b < 256

  /** The magic numbers by MIME type; GIF and plain text have none. */
  function Signature(mime: string): (sig: Option<seq<Byte>>)
    ensures sig.Some? ==> |sig.value| >= 3
  {
    if mime == "image/jpeg" then Some([0xFF, 0xD8, 0xFF])
    else if mime == "image/png" then Some([0x89, 0x50, 0x4E, 0x47])
    else if mime == "application/pdf" then Some([0x25, 0x50, 0x44, 0x46])
    else if mime == "application/msword" then Some([0xD0, 0xCF, 0x11, 0xE0])
    else if mime == "application/vnd.openxmlformats-officedocument.wordprocessingml.document" then Some([0x50, 0x4B, 0x03, 0x04])
    else None
  }

  /** The buffer holds the signature's byte at `index`; past the buffer's end there is no byte. */
  predicate MatchesAt(sig: seq<Byte>, buffer: seq<Byte>, index: int)
    requires 0 <= index < |sig|
  {
    index < |buffer| && buffer[index] == sig[index]
  }

  /** `sig.every((byte, index) => buffer[index] === byte)` from position `i` on. */
  function EveryByteFrom(sig: seq<Byte>, buffer: seq<Byte>, i: nat): (r: bool)
    requires i <= |sig|
    ensures r <==> forall k :: i <= k < |sig| ==> MatchesAt(sig, buffer, k)
    decreases |sig| - i
  {
    if i == |sig| then true
    else if MatchesAt(sig, buffer, i) then EveryByteFrom(sig, buffer, i + 1)
    else false
  }

  /** Matching every signature byte is the same as the buffer starting with the signature. */
  lemma EveryByteIsPrefix(sig: seq<Byte>, buffer: seq<Byte>)
    requires |sig| >= 1
    ensures EveryByteFrom(sig, buffer, 0) <==> |sig| <= |buffer| && buffer[..|sig|] == sig
  {
    if EveryByteFrom(sig, buffer, 0) {
      assert MatchesAt(sig, buffer, |sig| - 1);
      assert forall k :: 0 <= k < |sig| ==> buffer[..|sig|][k] == sig[k] by {
        forall k | 0 <= k < |sig|
          ensures buffer[..|sig|][k] == sig[k]
        {
          assert MatchesAt(sig, buffer, k);
        }
      }
    }
    if |sig| <= |buffer| && buffer[..|sig|] == sig {
      forall k | 0 <= k < |sig|
        ensures MatchesAt(sig, buffer, k)
      {
        assert buffer[..|sig|][k] == buffer[k];
      }
    }
  }

  /**
   * `validateFileSignature`: false for a type without a signature, and
   * otherwise true exactly when the buffer begins with the signature.
   */
  function ValidateFileSignature(buffer: seq<Byte>, mime: string): (ok: bool)
    ensures Signature(mime).None? ==> !ok
    ensures Signature(mime).Some? ==>
              var sig := Signature(mime).value;
              (ok <==> |sig| <= |buffer| && buffer[..|sig|] == sig)
  {
    var sig := Signature(mime);
    if sig.None? then false
    else
      EveryByteIsPrefix(sig.value, buffer);
      EveryByteFrom(sig.value, buffer, 0)
  }

  /** A PNG header passes as a PNG, whatever follows it. */
  lemma PngHeaderAccepted(rest: seq<Byte>)
    ensures ValidateFileSignature([0x89, 0x50, 0x4E, 0x47] + rest, "image/png")
  {
    var buffer: seq<Byte> := [0x89, 0x50, 0x4E, 0x47] + rest;
    assert buffer[..4] == [0x89, 0x50, 0x4E, 0x47];
  }

  /**
   * Of the seven types the client lets through, GIF images and plain text
   * have no signature, so the check refuses every such file whatever its bytes.
   */
  lemma AllowedTypesWithoutSignature(buffer: seq<Byte>)
    ensures forall k :: 0 <= k < |ClientSecurity.AllowedTypes| ==>
              (Signature(ClientSecurity.AllowedTypes[k]).None? <==> k == 2 || k == 6)
    ensures ClientSecurity.AllowedTypes[2] == "image/gif" && ClientSecurity.AllowedTypes[6] == "text/plain"
    ensures !ValidateFileSignature(buffer, "image/gif") && !ValidateFileSignature(buffer, "text/plain")
  {
    var types := ClientSecurity.AllowedTypes;
    assert Signature(types[0]).Some? && Signature(types[1]).Some? && Signature(types[3]).Some?;
    assert Signature(types[4]).Some? && Signature(types[5]).Some?;
    assert Signature(types[2]).None? && Signature(types[6]).None?;
  }

  // ---------------------------------------------------------------------------
  // validateUrl

  /** A URL after `new URL(url)` has parsed it. */
  datatype Url = Url(protocol: string, hostname: string)

  const Shorteners: seq<string> := ["bit.ly", "tinyurl.com", "short.link", "goo.gl", "t.co", "fb.me", "tiny.cc", "is.gd"]

  /** `words.some(w => s.includes(w))`. */
  function ContainsAny(s: string, words: seq<string>): (r: bool)
    ensures r <==> exists k :: 0 <= k < |words| && Contains(s, words[k])
  {
    if words == [] then false
    else if Contains(s, words[0]) then true
    else
      assert forall k :: 1 <= k < |words| ==> words[k] == words[1..][k - 1];
      ContainsAny(s, words[1..])
  }

  /**
   * `validateUrl` as written: `None` is a URL that does not parse. A host
   * name that contains a shortener's name anywhere is refused; any other
   * URL passes exactly when it uses HTTPS.
   */
  function ValidateUrl(url: Option<Url>): (ok: bool)
    ensures ok <==> url.Some? && url.value.protocol == "https:"
                    && forall k :: 0 <= k < |Shorteners| ==> !Contains(url.value.hostname, Shorteners[k])
  {
    url.Some? && !ContainsAny(url.value.hostname, Shorteners) && url.value.protocol == "https:"
  }

  /** Substring matching refuses hosts that merely contain `t.co`, such as microsoft.com. */
  lemma SubstringBlocksUnrelatedHosts()
    ensures !ValidateUrl(Some(Url("https:", "microsoft.com")))
  {
    var host := "microsoft.com";
    assert host[8..12] == "t.co";
    assert OccursAt(host, Shorteners[4], 8);
  }

  predicate EndsWith(s: string, t: string) {
    |t| <= |s| && s[|s| - |t|..] == t
  }

  /** `host` is the domain `d` or one of its subdomains. */
  predicate IsDomainOrSub(host: string, d: string) {
    host == d || EndsWith(host, "." + d)
  }

  /**
   * The check as evidently intended: refuse a shortener's own domain and
   * its subdomains, and nothing else; otherwise require HTTPS.
   */
  function ValidateUrlByDomain(url: Option<Url>): (ok: bool)
    ensures ok <==> url.Some? && url.value.protocol == "https:"
                    && forall k :: 0 <= k < |Shorteners| ==> !IsDomainOrSub(url.value.hostname, Shorteners[k])
  {
    url.Some? && url.value.protocol == "https:" && NoShortenerDomain(url.value.hostname, Shorteners)
  }

  function NoShortenerDomain(host: string, domains: seq<string>): (r: bool)
    ensures r <==> forall k :: 0 <= k < |domains| ==> !IsDomainOrSub(host, domains[k])
  {
    if domains == [] then true
    else
      assert forall k :: 1 <= k < |domains| ==> domains[k] == domains[1..][k - 1];
      !IsDomainOrSub(host, domains[0]) && NoShortenerDomain(host, domains[1..])
  }

  /** A shortener's domain or subdomain contains the shortener's name. */
  lemma DomainIsSubstring(host: string, d: string)
    requires IsDomainOrSub(host, d)
    ensures Contains(host, d)
  {
    if host == d {
      assert OccursAt(host, d, 0);
    } else {
      var i := |host| - |d|;
      assert host[i..] == d by {
        assert host[|host| - |"." + d|..] == "." + d;
      }
      assert OccursAt(host, d, i);
    }
  }

  /** The corrected check is never stricter than the one as written. */
  lemma ByDomainNeverStricter(url: Option<Url>)
    ensures ValidateUrl(url) ==> ValidateUrlByDomain(url)
  {
    if ValidateUrl(url) {
      forall j | 0 <= j < |Shorteners|
        ensures !IsDomainOrSub(url.value.hostname, Shorteners[j])
      {
        if IsDomainOrSub(url.value.hostname, Shorteners[j]) {
          DomainIsSubstring(url.value.hostname, Shorteners[j]);
        }
      }
    }
  }

  /** It still refuses every shortener's domain and any of its subdomains. */
  lemma ByDomainBlocksShorteners(prefix: string, k: int)
    requires 0 <= k < |Shorteners|
    ensures !ValidateUrlByDomain(Some(Url("https:", Shorteners[k])))
    ensures !ValidateUrlByDomain(Some(Url("https:", prefix + "." + Shorteners[k])))
  {
    var sub := prefix + "." + Shorteners[k];
    assert sub[|sub| - |"." + Shorteners[k]|..] == "." + Shorteners[k];
  }

  /** And it accepts microsoft.com over HTTPS, which the check as written refuses. */
  lemma ByDomainAcceptsMicrosoft()
    ensures ValidateUrlByDomain(Some(Url("https:", "microsoft.com")))
  {
    MicrosoftIsNoShortener();
  }

  lemma MicrosoftIsNoShortener()
    ensures forall k :: 0 <= k < |Shorteners| ==> !IsDomainOrSub("microsoft.com", Shorteners[k])
  {
    var host := "microsoft.com";
    forall k | 0 <= k < |Shorteners|
      ensures !IsDomainOrSub(host, Shorteners[k])
    {
      var d := Shorteners[k];
      assert host != d;
      if k == 1 {
        FirstCharDiffers(host, "." + d);
      } else {
        LastCharDiffers(host, "." + d);
      }
    }
  }

  lemma FirstCharDiffers(s: string, t: string)
    requires 1 <= |t| <= |s| && s[|s| - |t|] != t[0]
    ensures !EndsWith(s, t)
  {
    assert s[|s| - |t|..][0] == s[|s| - |t|];
  }

  lemma LastCharDiffers(s: string, t: string)
    requires 1 <= |t| && 1 <= |s| && s[|s| - 1] != t[|t| - 1]
    ensures !EndsWith(s, t)
  {
    if |t| <= |s| {
      assert s[|s| - |t|..][|t| - 1] == s[|s| - 1];
    }
  }

  // ---------------------------------------------------------------------------
  // detectSuspiciousEmail

  /** The characters JavaScript's `.` does not match. */
  predicate IsLineTerminator(c: char) {
    c == '\n' || c == '\r' || c == '\U{2028}' || c == '\U{2029}'
  }

  /** `/[^\x00-\x7F]/` from position `i` on. */
  function NonAsciiFrom(s: string, i: nat): (r: bool)
    requires i <= |s|
    ensures r <==> exists j :: i <= j < |s| && s[j] > '\U{007F}'
    decreases |s| - i
  {
    if i == |s| then false
    else s[i] > '\U{007F}' || NonAsciiFrom(s, i + 1)
  }

  /** Four copies of one character that `.` matches, starting at `j`. */
  predicate RunOfFourAt(s: string, j: int) {
    0 <= j && j + 4 <= |s| && !IsLineTerminator(s[j]) && s[j + 1] == s[j] && s[j + 2] == s[j] && s[j + 3] == s[j]
  }

  /** `/(.)\1{3,}/` from position `i` on. */
  function RepeatFrom(s: string, i: nat): (r: bool)
    requires i <= |s|
    ensures r <==> exists j :: i <= j && RunOfFourAt(s, j)
    decreases |s| - i
  {
    if i + 4 > |s| then false
    else RunOfFourAt(s, i) || RepeatFrom(s, i + 1)
  }

  predicate IsDigitRunAt(s: string, j: int) {
    0 <= j && j + 4 <= |s| && IsAsciiDigit(s[j]) && IsAsciiDigit(s[j + 1]) && IsAsciiDigit(s[j + 2]) && IsAsciiDigit(s[j + 3])
  }

  /** `/[0-9]{4,}/` from position `i` on. */
  function DigitsFrom(s: string, i: nat): (r: bool)
    requires i <= |s|
    ensures r <==> exists j :: i <= j && IsDigitRunAt(s, j)
    decreases |s| - i
  {
    if i + 4 > |s| then false
    else IsDigitRunAt(s, i) || DigitsFrom(s, i + 1)
  }

  /** No line terminator in `s[from..to]`. */
  predicate Unbroken(s: string, from: int, to: int)
    requires 0 <= from <= to <= |s|
  {
    forall k :: from <= k < to ==> !IsLineTerminator(s[k])
  }

  /** `s[j..c]` lies on one line and holds at least `n` dots. */
  predicate LineHasDots(s: string, j: int, c: int, n: nat) {
    0 <= j <= c <= |s| && Unbroken(s, j, c) && multiset(s[j..c])['.'] >= n
  }

  /** At least `n` dots follow position `j` before the line ends: what `.*\.` repeated `n` times needs. */
  function DotsAhead(s: string, j: nat, n: nat): (r: bool)
    requires j <= |s|
    ensures r <==> exists c :: LineHasDots(s, j, c, n)
    decreases |s| - j
  {
    if n == 0 then
      assert s[j..j] == [] && LineHasDots(s, j, j, n);
      true
    else if j == |s| || IsLineTerminator(s[j]) then
      assert forall c :: LineHasDots(s, j, c, n) ==> c == j;
      assert s[j..j] == [];
      false
    else
      var m := if s[j] == '.' then n - 1 else n;
      DotsAheadStep(s, j, j + 1, n, m);
      DotsAhead(s, j + 1, m)
  }

  /** Past a character that is not a line break, `n` dots are needed, one fewer if it is a dot. */
  lemma DotsAheadStep(s: string, j: nat, next: nat, n: nat, m: nat)
    requires j < |s| && next == j + 1 && !IsLineTerminator(s[j]) && n >= 1
    requires m == if s[j] == '.' then n - 1 else n
    ensures (exists c :: LineHasDots(s, j, c, n)) <==> (exists c :: LineHasDots(s, next, c, m))
  {
    if exists c :: LineHasDots(s, next, c, m) {
      var c :| LineHasDots(s, next, c, m);
      SplitHead(s, j, c);
      assert LineHasDots(s, j, c, n);
    }
    if exists c :: LineHasDots(s, j, c, n) {
      var c :| LineHasDots(s, j, c, n);
      assert s[j..j] == [];
      SplitHead(s, j, c);
      assert LineHasDots(s, j + 1, c, m);
    }
  }

  lemma SplitHead(s: string, j: int, c: int)
    requires 0 <= j < |s| && j <= c <= |s|
    ensures j < c ==> multiset(s[j..c])['.'] == multiset(s[j + 1..c])['.'] + (if s[j] == '.' then 1 else 0)
    ensures j < c ==> (Unbroken(s, j, c) <==> !IsLineTerminator(s[j]) && Unbroken(s, j + 1, c))
  {
    if j < c {
      assert s[j..c] == [s[j]] + s[j + 1..c];
    }
  }

  /** The pattern `@.*\..*\..*\..*` from position `i` on: an `@` with three dots after it on the same line. */
  function SubdomainsFrom(s: string, i: nat): (r: bool)
    requires i <= |s|
    ensures r <==> exists a :: i <= a < |s| && s[a] == '@' && DotsAhead(s, a + 1, 3)
    decreases |s| - i
  {
    if i == |s| then false
    else (s[i] == '@' && DotsAhead(s, i + 1, 3)) || SubdomainsFrom(s, i + 1)
  }

  /**
   * `detectSuspiciousEmail`: true exactly when one of the four patterns
   * occurs: a non-ASCII character, one character four times in a row, an
   * `@` followed on its line by three dots, or four digits in a row.
   */
  function DetectSuspiciousEmail(email: string): (suspicious: bool)
    ensures suspicious <==>
              || (exists j :: 0 <= j < |email| && email[j] > '\U{007F}')
              || (exists j :: RunOfFourAt(email, j))
              || (exists a :: 0 <= a < |email| && email[a] == '@' && DotsAhead(email, a + 1, 3))
              || (exists j :: IsDigitRunAt(email, j))
  {
    NonAsciiFrom(email, 0) || RepeatFrom(email, 0) || SubdomainsFrom(email, 0) || DigitsFrom(email, 0)
  }

  // ---------------------------------------------------------------------------
  // validateUserAgent

  const SuspiciousAgents: seq<string> :=
    ["curl", "wget", "python", "bot", "crawler", "spider", "scanner", "probe", "test", "monitor", "device"]

  /**
   * `validateUserAgent`: a missing or empty user agent fails; otherwise it
   * passes exactly when its lower-cased text contains none of the listed words.
   */
  function ValidateUserAgent(userAgent: Option<string>): (ok: bool)
    ensures ok <==> Truthy(userAgent)
                    && forall k :: 0 <= k < |SuspiciousAgents| ==> !Contains(AsciiLower(userAgent.value), SuspiciousAgents[k])
  {
    Truthy(userAgent) && !ContainsAny(AsciiLower(userAgent.value), SuspiciousAgents)
  }

  /** Command-line clients are refused: any user agent that starts with `curl/`, whatever follows. */
  lemma CurlRejected(version: string)
    ensures !ValidateUserAgent(Some("curl/" + version))
  {
    var ua := "curl/" + version;
    var lower := AsciiLower(ua);
    assert ua[0] == 'c' && ua[1] == 'u' && ua[2] == 'r' && ua[3] == 'l';
    assert lower[..4] == "curl";
    assert OccursAt(lower, SuspiciousAgents[0], 0);
  }

  lemma LowerCharIdempotent(c: char)
    ensures LowerChar(LowerChar(c)) == LowerChar(c)
  {
  }

  /** Letter case does not matter: a user agent and its lower-cased form get the same answer. */
  lemma UserAgentCaseInsensitive(ua: string)
    ensures ValidateUserAgent(Some(AsciiLower(ua))) == ValidateUserAgent(Some(ua))
  {
    var lower := AsciiLower(ua);
    forall i | 0 <= i < |ua|
      ensures AsciiLower(lower)[i] == lower[i]
    {
      LowerCharIdempotent(ua[i]);
    }
    assert AsciiLower(lower) == lower;
  }
}
