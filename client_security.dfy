/**
 * The client's input hygiene: the HTML-escape chain, the password rules, the
 * file checks before an upload, the sanitising of a whole form and the
 * "renew soon" test on the session token.
 */
module ClientSecurity {
  import opened Text
  import opened Sequences

  // ---------------------------------------------------------------------------
  // sanitizeInput

  /** A form value: a string, or anything else (a number, a boolean, `null`, an object). */
  datatype Value = Str(s: string) | NonString(tag: int)

  /** The characters the escape chain removes. */
  predicate IsMarkup(c: char) {
    c == '<' || c == '>' || c == '"' || c == '\'' || c == '/'
  }

  predicate NoMarkup(s: string) {
    forall i :: 0 <= i < |s| ==> !IsMarkup(s[i])
  }

  /** The six global `replace` calls, in the source's order: `&` is escaped last. */
  function Escape(s: string): string {
    var lt := ReplaceAll(s, '<', "&lt;");
    var gt := ReplaceAll(lt, '>', "&gt;");
    var quot := ReplaceAll(gt, '"', "&quot;");
    var apos := ReplaceAll(quot, '\'', "&#x27;");
    var slash := ReplaceAll(apos, '/', "&#x2F;");
    ReplaceAll(slash, '&', "&amp;")
  }

  /** `sanitizeInput`: strings are escaped, every other value is returned as it is. */
  function SanitizeInput(v: Value): (r: Value)
    ensures v.NonString? ==> r == v
    ensures v.Str? ==> r.Str? && NoMarkup(r.s) && |r.s| >= |v.s|
  {
    if v.Str? then
      EscapeRemovesMarkup(v.s);
      EscapeNeverShrinks(v.s);
      Str(Escape(v.s))
    else v
  }

  lemma EscapeNeverShrinks(s: string)
    ensures |Escape(s)| >= |s|
  {
    var lt := ReplaceAll(s, '<', "&lt;");
    var gt := ReplaceAll(lt, '>', "&gt;");
    var quot := ReplaceAll(gt, '"', "&quot;");
    var apos := ReplaceAll(quot, '\'', "&#x27;");
    var slash := ReplaceAll(apos, '/', "&#x2F;");
    ReplaceAllLength(s, '<', "&lt;");
    ReplaceAllLength(lt, '>', "&gt;");
    ReplaceAllLength(gt, '"', "&quot;");
    ReplaceAllLength(quot, '\'', "&#x27;");
    ReplaceAllLength(apos, '/', "&#x2F;");
    ReplaceAllLength(slash, '&', "&amp;");
  }

  /** No `<`, `>`, `"`, `'` or `/` survives the chain: each is replaced once and no later entity brings it back. */
  lemma EscapeRemovesMarkup(s: string)
    ensures NoMarkup(Escape(s))
  {
    var e := Escape(s);
    EscapeRemovesAngles(s);
    EscapeRemovesQuotes(s);
    EscapeRemovesSlash(s);
    assert forall i :: 0 <= i < |e| ==> e[i] in e;
  }

  lemma EscapeRemovesAngles(s: string)
    ensures '<' !in Escape(s) && '>' !in Escape(s)
  {
    var lt := ReplaceAll(s, '<', "&lt;");
    var gt := ReplaceAll(lt, '>', "&gt;");
    var quot := ReplaceAll(gt, '"', "&quot;");
    var apos := ReplaceAll(quot, '\'', "&#x27;");
    var slash := ReplaceAll(apos, '/', "&#x2F;");
    ReplaceAllExcludes(s, '<', "&lt;", '<');
    ReplaceAllExcludes(lt, '>', "&gt;", '<');
    ReplaceAllExcludes(gt, '"', "&quot;", '<');
    ReplaceAllExcludes(quot, '\'', "&#x27;", '<');
    ReplaceAllExcludes(apos, '/', "&#x2F;", '<');
    ReplaceAllExcludes(slash, '&', "&amp;", '<');
    ReplaceAllExcludes(lt, '>', "&gt;", '>');
    ReplaceAllExcludes(gt, '"', "&quot;", '>');
    ReplaceAllExcludes(quot, '\'', "&#x27;", '>');
    ReplaceAllExcludes(apos, '/', "&#x2F;", '>');
    ReplaceAllExcludes(slash, '&', "&amp;", '>');
  }

  lemma EscapeRemovesQuotes(s: string)
    ensures '"' !in Escape(s) && '\'' !in Escape(s)
  {
    var lt := ReplaceAll(s, '<', "&lt;");
    var gt := ReplaceAll(lt, '>', "&gt;");
    var quot := ReplaceAll(gt, '"', "&quot;");
    var apos := ReplaceAll(quot, '\'', "&#x27;");
    var slash := ReplaceAll(apos, '/', "&#x2F;");
    ReplaceAllExcludes(gt, '"', "&quot;", '"');
    ReplaceAllExcludes(quot, '\'', "&#x27;", '"');
    ReplaceAllExcludes(apos, '/', "&#x2F;", '"');
    ReplaceAllExcludes(slash, '&', "&amp;", '"');
    ReplaceAllExcludes(quot, '\'', "&#x27;", '\'');
    ReplaceAllExcludes(apos, '/', "&#x2F;", '\'');
    ReplaceAllExcludes(slash, '&', "&amp;", '\'');
  }

  lemma EscapeRemovesSlash(s: string)
    ensures '/' !in Escape(s)
  {
    var lt := ReplaceAll(s, '<', "&lt;");
    var gt := ReplaceAll(lt, '>', "&gt;");
    var quot := ReplaceAll(gt, '"', "&quot;");
    var apos := ReplaceAll(quot, '\'', "&#x27;");
    var slash := ReplaceAll(apos, '/', "&#x2F;");
    ReplaceAllExcludes(apos, '/', "&#x2F;", '/');
    ReplaceAllExcludes(slash, '&', "&amp;", '/');
  }

  /** Text with none of the six special characters passes through unchanged. */
  lemma PlainTextUnchanged(s: string)
    requires forall i :: 0 <= i < |s| ==> !IsMarkup(s[i]) && s[i] != '&'
    ensures Escape(s) == s
  {
    ReplaceAllAbsent(s, '<', "&lt;");
    ReplaceAllAbsent(s, '>', "&gt;");
    ReplaceAllAbsent(s, '"', "&quot;");
    ReplaceAllAbsent(s, '\'', "&#x27;");
    ReplaceAllAbsent(s, '/', "&#x2F;");
    ReplaceAllAbsent(s, '&', "&amp;");
  }

  /** An `&` in the text, or brought by an earlier entity, survives to the end of the chain. */
  lemma AmpersandSurvives(s: string)
    requires exists i :: 0 <= i < |s| && (IsMarkup(s[i]) || s[i] == '&')
    ensures '&' in Escape(s)
  {
    var lt := ReplaceAll(s, '<', "&lt;");
    var gt := ReplaceAll(lt, '>', "&gt;");
    var quot := ReplaceAll(gt, '"', "&quot;");
    var apos := ReplaceAll(quot, '\'', "&#x27;");
    var slash := ReplaceAll(apos, '/', "&#x2F;");
    var i :| 0 <= i < |s| && (IsMarkup(s[i]) || s[i] == '&');
    assert s[i] in s;
    if '<' in s || '&' in s {
      ReplaceAllIncludes(s, '<', "&lt;", '&');
    }
    if '&' in lt || '>' in lt {
      ReplaceAllIncludes(lt, '>', "&gt;", '&');
    } else {
      assert '>' !in s by {
        if '>' in s {
          ReplaceAllIncludes(s, '<', "&lt;", '>');
        }
      }
    }
    if '&' in gt || '"' in gt {
      ReplaceAllIncludes(gt, '"', "&quot;", '&');
    } else {
      assert '"' !in s by {
        if '"' in s {
          ReplaceAllIncludes(s, '<', "&lt;", '"');
          ReplaceAllIncludes(lt, '>', "&gt;", '"');
        }
      }
    }
    if '&' in quot || '\'' in quot {
      ReplaceAllIncludes(quot, '\'', "&#x27;", '&');
    } else {
      assert '\'' !in s by {
        if '\'' in s {
          ReplaceAllIncludes(s, '<', "&lt;", '\'');
          ReplaceAllIncludes(lt, '>', "&gt;", '\'');
          ReplaceAllIncludes(gt, '"', "&quot;", '\'');
        }
      }
    }
    if '&' in apos || '/' in apos {
      ReplaceAllIncludes(apos, '/', "&#x2F;", '&');
    } else {
      assert '/' !in s by {
        if '/' in s {
          ReplaceAllIncludes(s, '<', "&lt;", '/');
          ReplaceAllIncludes(lt, '>', "&gt;", '/');
          ReplaceAllIncludes(gt, '"', "&quot;", '/');
          ReplaceAllIncludes(quot, '\'', "&#x27;", '/');
        }
      }
    }
    ReplaceAllIncludes(slash, '&', "&amp;", '&');
  }

  /**
   * The chain is not idempotent: whenever sanitising changes a text,
   * sanitising the result changes it again, since its `&` is escaped anew.
   */
  lemma SanitizeTwiceDiffers(s: string)
    requires Escape(s) != s
    ensures Escape(Escape(s)) != Escape(s)
  {
    if forall i :: 0 <= i < |s| ==> !IsMarkup(s[i]) && s[i] != '&' {
      PlainTextUnchanged(s);
    }
    AmpersandSurvives(s);
    var e := Escape(s);
    var lt := ReplaceAll(e, '<', "&lt;");
    var gt := ReplaceAll(lt, '>', "&gt;");
    var quot := ReplaceAll(gt, '"', "&quot;");
    var apos := ReplaceAll(quot, '\'', "&#x27;");
    var slash := ReplaceAll(apos, '/', "&#x2F;");
    ReplaceAllIncludes(e, '<', "&lt;", '&');
    ReplaceAllIncludes(lt, '>', "&gt;", '&');
    ReplaceAllIncludes(gt, '"', "&quot;", '&');
    ReplaceAllIncludes(quot, '\'', "&#x27;", '&');
    ReplaceAllIncludes(apos, '/', "&#x2F;", '&');
    ReplaceAllLength(e, '<', "&lt;");
    ReplaceAllLength(lt, '>', "&gt;");
    ReplaceAllLength(gt, '"', "&quot;");
    ReplaceAllLength(quot, '\'', "&#x27;");
    ReplaceAllLength(apos, '/', "&#x2F;");
    ReplaceAllLength(slash, '&', "&amp;");
  }

  /** `<` becomes `&lt;` and then `&amp;lt;`: the ampersand of the first entity is escaped too. */
  lemma LessThanDoubleEncoded()
    ensures SanitizeInput(Str("<")) == Str("&amp;lt;")
  {
    ReplaceOne('<', '<', "&lt;");
    EntityKept('>', "&gt;");
    EntityKept('"', "&quot;");
    EntityKept('\'', "&#x27;");
    EntityKept('/', "&#x2F;");
    AmpersandFirst("lt;");
  }

  lemma EntityKept(c: char, r: string)
    requires c != '&' && c != 'l' && c != 't' && c != ';'
    ensures ReplaceAll("&lt;", c, r) == "&lt;"
  {
    ReplaceAllAbsent("&lt;", c, r);
  }

  lemma ReplaceOne(x: char, c: char, r: string)
    ensures ReplaceAll([x], c, r) == if x == c then r else [x]
  {
    assert [x][1..] == [];
  }

  lemma AmpersandFirst(rest: string)
    requires '&' !in rest
    ensures ReplaceAll("&" + rest, '&', "&amp;") == "&amp;" + rest
  {
    ReplaceAllAppend("&", rest, '&', "&amp;");
    ReplaceOne('&', '&', "&amp;");
    ReplaceAllAbsent(rest, '&', "&amp;");
  }

  // ---------------------------------------------------------------------------
  // validatePassword

  /** The five requirements, in the order `Object.values` lists them. */
  datatype Requirements = Requirements(length: bool, upperCase: bool, lowerCase: bool, numbers: bool, specialChar: bool)

  datatype PasswordReport = PasswordReport(isValid: bool, requirements: Requirements, score: int)

  function Values(q: Requirements): seq<bool> {
    [q.length, q.upperCase, q.lowerCase, q.numbers, q.specialChar]
  }

  function Holds(b: bool): bool {
    b
  }

  /** `/[lo-hi]/.test(p)`. */
  predicate HasCharIn(p: string, lo: char, hi: char) {
    exists i :: 0 <= i < |p| && lo <= p[i] <= hi
  }

  /** The special characters `@$!%*?&`. */
  predicate IsSpecial(c: char) {
    c == '@' || c == '$' || c == '!' || c == '%' || c == '*' || c == '?' || c == '&'
  }

  /** One point per satisfied requirement. */
  function Satisfied(q: Requirements): int {
    (if q.length then 1 else 0) + (if q.upperCase then 1 else 0) + (if q.lowerCase then 1 else 0)
    + (if q.numbers then 1 else 0) + (if q.specialChar then 1 else 0)
  }

  /**
   * `validatePassword`: valid exactly when all five rules hold; the score
   * counts the rules that hold, so it is 5 exactly for a valid password.
   * The length rule counts UTF-16 code units, as a JavaScript string does.
   */
  function ValidatePassword(p: string): (v: PasswordReport)
    ensures v.isValid <==> Utf16Length(p) >= 8 && HasCharIn(p, 'A', 'Z') && HasCharIn(p, 'a', 'z') && HasCharIn(p, '0', '9')
                           && exists i :: 0 <= i < |p| && IsSpecial(p[i])
    ensures v.requirements.length <==> Utf16Length(p) >= 8
    ensures v.requirements.specialChar <==> exists i :: 0 <= i < |p| && IsSpecial(p[i])
    ensures v.score == Satisfied(v.requirements)
    ensures 0 <= v.score <= 5 && (v.score == 5 <==> v.isValid)
  {
    var q := Requirements(Utf16Length(p) >= 8, HasCharIn(p, 'A', 'Z'), HasCharIn(p, 'a', 'z'), HasCharIn(p, '0', '9'),
                          exists i :: 0 <= i < |p| && IsSpecial(p[i]));
    var values := Values(q);
    ScoreCounts(q);
    AllValuesHold(q);
    PasswordReport(forall k :: 0 <= k < |values| ==> values[k], q, |Filter(values, Holds)|)
  }

  /** `filter(req => req).length` over the five values is the number that hold. */
  lemma ScoreCounts(q: Requirements)
    ensures |Filter(Values(q), Holds)| == Satisfied(q)
  {
    FilterHoldsCons(q.specialChar, []);
    FilterHoldsCons(q.numbers, [q.specialChar]);
    FilterHoldsCons(q.lowerCase, [q.numbers, q.specialChar]);
    FilterHoldsCons(q.upperCase, [q.lowerCase, q.numbers, q.specialChar]);
    FilterHoldsCons(q.length, [q.upperCase, q.lowerCase, q.numbers, q.specialChar]);
  }

  /** `every(req => req)` over the five values is their conjunction. */
  lemma AllValuesHold(q: Requirements)
    ensures (forall k :: 0 <= k < |Values(q)| ==> Values(q)[k])
            <==> q.length && q.upperCase && q.lowerCase && q.numbers && q.specialChar
  {
    var v := Values(q);
    assert v[0] == q.length && v[1] == q.upperCase && v[2] == q.lowerCase && v[3] == q.numbers && v[4] == q.specialChar;
  }

  lemma FilterHoldsCons(b: bool, rest: seq<bool>)
    ensures |Filter([b] + rest, Holds)| == (if b then 1 else 0) + |Filter(rest, Holds)|
  {
    assert ([b] + rest)[1..] == rest;
  }

  // ---------------------------------------------------------------------------
  // validateFile

  /** The browser `File`: its MIME type, its size in bytes and its name. */
  datatype File = File(mime: string, size: int, name: string)

  const AllowedTypes: seq<string> := [
    "image/jpeg", "image/png", "image/gif", "application/pdf", "application/msword",
    "application/vnd.openxmlformats-officedocument.wordprocessingml.document", "text/plain"
  ]

  /** 10 MiB. */
  const MaxSize: int := 10 * 1024 * 1024

  predicate IsNameChar(c: char) {
    'a' <= c <= 'z' || 'A' <= c <= 'Z' || '0' <= c <= '9' || c == '.' || c == '_' || c == '-'
  }

  /** `/^[a-zA-Z0-9._-]+$/.test(name)`. */
  predicate SafeName(name: string) {
    |name| >= 1 && forall i :: 0 <= i < |name| ==> IsNameChar(name[i])
  }

  datatype FileReport = FileReport(isValid: bool, validations: seq<(string, bool)>, errors: seq<string>)

  /** `Object.entries(validations).filter(([_, valid]) => !valid).map(([key, _]) => key)`. */
  function FailingKeys(entries: seq<(string, bool)>): (keys: seq<string>)
    ensures (keys == []) <==> forall k :: 0 <= k < |entries| ==> entries[k].1
  {
    if entries == [] then []
    else
      var rest := FailingKeys(entries[1..]);
      assert forall k :: 1 <= k < |entries| ==> entries[k] == entries[1..][k - 1];
      (if entries[0].1 then [] else [entries[0].0]) + rest
  }

  lemma FailingKeysCons(e: (string, bool), rest: seq<(string, bool)>)
    ensures FailingKeys([e] + rest) == (if e.1 then [] else [e.0]) + FailingKeys(rest)
  {
    assert ([e] + rest)[1..] == rest;
  }

  /**
   * `validateFile`: valid exactly when the type is allowed, the size is at
   * most 10 MiB and the name uses only safe characters; `errors` names
   * exactly the failed checks, in the order type, size, name.
   */
  function ValidateFile(f: File): (rep: FileReport)
    ensures rep.isValid <==> f.mime in AllowedTypes && f.size <= MaxSize && SafeName(f.name)
    ensures rep.isValid <==> rep.errors == []
    ensures rep.errors == (if f.mime in AllowedTypes then [] else ["type"])
                          + (if f.size <= MaxSize then [] else ["size"])
                          + (if SafeName(f.name) then [] else ["name"])
  {
    var validations := Checks(f.mime in AllowedTypes, f.size <= MaxSize, SafeName(f.name));
    ChecksReport(f.mime in AllowedTypes, f.size <= MaxSize, SafeName(f.name));
    FileReport(forall k :: 0 <= k < |validations| ==> validations[k].1, validations, FailingKeys(validations))
  }

  /** The `validations` object as its entries. */
  function Checks(typeOk: bool, sizeOk: bool, nameOk: bool): seq<(string, bool)> {
    [("type", typeOk), ("size", sizeOk), ("name", nameOk)]
  }

  lemma ChecksReport(typeOk: bool, sizeOk: bool, nameOk: bool)
    ensures var c := Checks(typeOk, sizeOk, nameOk);
            && ((forall k :: 0 <= k < |c| ==> c[k].1) <==> typeOk && sizeOk && nameOk)
            && FailingKeys(c) == (if typeOk then [] else ["type"]) + (if sizeOk then [] else ["size"])
                                 + (if nameOk then [] else ["name"])
  {
    var c := Checks(typeOk, sizeOk, nameOk);
    FailingKeysCons(c[2], []);
    FailingKeysCons(c[1], [c[2]]);
    FailingKeysCons(c[0], c[1..]);
    assert c[0].1 == typeOk && c[1].1 == sizeOk && c[2].1 == nameOk;
  }

  // ---------------------------------------------------------------------------
  // sanitizeFormData

  /** One field of the form: a string is trimmed and escaped, any other value kept. */
  function SanitizeField(v: Value): (r: Value)
    ensures v.NonString? ==> r == v
    ensures v.Str? ==> r == SanitizeInput(Str(Trim(v.s)))
  {
    if v.Str? then SanitizeInput(Str(Trim(v.s))) else v
  }

  /** The entries of `form` outside `pending` are sanitised into `sanitized`, and no others are there. */
  ghost predicate SanitizedBut(form: map<string, Value>, sanitized: map<string, Value>, pending: set<string>) {
    && pending <= form.Keys
    && (forall key :: key in sanitized <==> key in form && key !in pending)
    && (forall key :: key in sanitized ==> sanitized[key] == SanitizeField(form[key]))
  }

  /** Sanitising one more pending field keeps the invariant with that field no longer pending. */
  lemma SanitizeOneMore(form: map<string, Value>, sanitized: map<string, Value>, pending: set<string>, field: string)
    requires SanitizedBut(form, sanitized, pending) && field in pending
    ensures SanitizedBut(form, sanitized[field := SanitizeField(form[field])], pending - {field})
  {
  }

  /** Nothing pending: the keys are the form's and every value is its sanitised field. */
  lemma SanitizedAll(form: map<string, Value>, sanitized: map<string, Value>)
    requires SanitizedBut(form, sanitized, {})
    ensures sanitized.Keys == form.Keys
    ensures forall key :: key in form ==> sanitized[key] == SanitizeField(form[key])
  {
  }

  /**
   * `sanitizeFormData`: a new object with the same keys, built one entry at
   * a time, each value sanitised as a field.
   */
  method SanitizeFormData(form: map<string, Value>) returns (sanitized: map<string, Value>)
    ensures sanitized.Keys == form.Keys
    ensures forall key :: key in form ==> sanitized[key] == SanitizeField(form[key])
  {
    sanitized := map[];
    var pending := form.Keys;
    while pending != {}
      invariant SanitizedBut(form, sanitized, pending)
      decreases |pending|
    {
      var field :| field in pending;
      SanitizeOneMore(form, sanitized, pending, field);
      var value := form[field];
      if value.Str? {
        var clean := SanitizeInput(Str(Trim(value.s)));
        sanitized := sanitized[field := clean];
      } else {
        sanitized := sanitized[field := value];
      }
      pending := pending - {field};
    }
    SanitizedAll(form, sanitized);
  }

  /** In a sanitised form no string value carries markup, and every other value is the one given. */
  lemma SanitizedFormIsClean(form: map<string, Value>, sanitized: map<string, Value>)
    requires sanitized.Keys == form.Keys
    requires forall key :: key in form ==> sanitized[key] == SanitizeField(form[key])
    ensures forall key :: key in form && form[key].NonString? ==> sanitized[key] == form[key]
    ensures forall key :: key in sanitized && sanitized[key].Str? ==> NoMarkup(sanitized[key].s)
  {
  }

  // ---------------------------------------------------------------------------
  // secureSession.checkTokenExpiry

  /** The `exp` claim: missing, `null` (which subtracts as 0), or a number of seconds. */
  datatype Exp = Absent | Null | Seconds(n: int)

  /** The token's payload: `Undecodable` when splitting, base64 or JSON decoding throws. */
  datatype Payload = Undecodable | Decoded(exp: Exp)

  /**
   * `checkTokenExpiry`: renew when the token expires within an hour of
   * `nowMs` (milliseconds), or when it cannot be decoded. A missing `exp`
   * gives NaN, and NaN is never below 3600.
   */
  function CheckTokenExpiry(payload: Payload, nowMs: int): (renew: bool)
    ensures payload.Undecodable? ==> renew
    ensures payload == Decoded(Absent) ==> !renew
    ensures payload == Decoded(Null) ==> (renew <==> -3_600_000 < nowMs)
    ensures payload.Decoded? && payload.exp.Seconds? ==> (renew <==> payload.exp.n * 1000 - nowMs < 3_600_000)
  {
    match payload
    case Undecodable => true
    case Decoded(exp) =>
      var now := nowMs as real / 1000.0;
      match exp
      case Absent => false
      case Null => 0.0 - now < 3600.0
      case Seconds(n) => n as real - now < 3600.0
  }

  /** Once a token is due for renewal it stays due: the test is monotone in time. */
  lemma RenewalStaysDue(payload: Payload, earlier: int, later: int)
    requires earlier <= later && CheckTokenExpiry(payload, earlier)
    ensures CheckTokenExpiry(payload, later)
  {
  }
}
