/**
 * The Express handlers that change one bill: the edit (`PATCH /api/bills/:id`)
 * and the status change (`PATCH /api/bills/:id/status`), over a store of
 * bills keyed by id. Both answer 400 when the request fails validation and
 * 404 when no bill with that id belongs to the caller.
 */
module BillUpdates {
  import opened Wrappers
  import opened Calendar
  import opened Text
  import opened Bills

  /** The bills collection: documents by id; each names its owner. */
  type Store = map<Id, Bill>

  /** What a handler answers. */
  datatype Reply =
    | Preflight                 // 200 to OPTIONS
    | MethodNotAllowed          // 405
    | Unauthorized              // 401
    | BadRequest                // 400
    | NotFound                  // 404
    | ServerError               // 500
    | Updated(bill: Bill)       // 200 with the stored bill
    | DeletedOk                 // 200 `{ success: true }`

  /** `findOne({ _id: id, user_id: owner })`. */
  function FindOwned(store: Store, id: Id, owner: Id): Option<Bill> {
    if id in store && store[id].owner == owner then Some(store[id]) else None
  }

  // ---------------------------------------------------------------------------
  // Due dates sent as text

  predicate Numeric(s: string) {
    forall i :: 0 <= i < |s| ==> IsAsciiDigit(s[i])
  }

  /**
   * `Number(piece)` for a piece of a split due date, which never holds a `-`:
   * surrounding whitespace is ignored, an empty or blank piece is 0, and
   * decimal digits, after an optional `+`, are their value. Anything else is
   * NaN, here `None`.
   */
  function PartNumber(s: string): (r: Option<nat>)
    decreases |s|
  {
    if s != [] && IsJsWhitespace(s[0]) then PartNumber(s[1..])
    else if s != [] && IsJsWhitespace(s[|s| - 1]) then PartNumber(s[..|s| - 1])
    else if s == [] then Some(0)
    else if Numeric(s) then Some(DigitsValue(s))
    else if s[0] == '+' && |s| > 1 && Numeric(s[1..]) then Some(DigitsValue(s[1..]))
    else None
  }

  /** A run of digits is read as its value. */
  lemma PartNumberOfDigits(s: string)
    requires Numeric(s)
    ensures PartNumber(s) == Some(DigitsValue(s))
  {
    if s != [] {
      assert IsAsciiDigit(s[0]) && IsAsciiDigit(s[|s| - 1]);
    }
  }

  /** Whitespace around a piece is ignored: the piece reads as its trimmed text does. */
  lemma {:induction false} PartNumberOfTrim(s: string)
    ensures PartNumber(s) == PartNumber(Trim(s))
    decreases |s|
  {
    if s != [] && IsJsWhitespace(s[0]) {
      PartNumberOfTrim(s[1..]);
      TrimDropsFirst(s);
    } else if s != [] && IsJsWhitespace(s[|s| - 1]) {
      PartNumberOfTrim(s[..|s| - 1]);
      TrimDropsLast(s);
    } else {
      TrimUnpadded(s);
    }
  }

  lemma TrimDropsFirst(s: string)
    requires s != [] && IsJsWhitespace(s[0])
    ensures Trim(s) == Trim(s[1..])
  {
    assert TrimStart(s) == TrimStart(s[1..]);
  }

  lemma TrimDropsLast(s: string)
    requires s != [] && !IsJsWhitespace(s[0]) && IsJsWhitespace(s[|s| - 1])
    ensures Trim(s) == Trim(s[..|s| - 1])
  {
    var init := s[..|s| - 1];
    assert TrimStart(s) == s;
    assert TrimEnd(s) == TrimEnd(init);
    assert TrimStart(init) == init by {
      if init != [] {
        assert init[0] == s[0];
      }
    }
  }

  /** `new Date(y, m - 1, d)` on the pieces read as numbers. */
  function LocalDate(y: nat, m: nat, d: nat): (r: Date)
    ensures Valid(r)
  {
    NewDate(y, m - 1, d)
  }

  /**
   * `due_date.split('-')` and `new Date(parts[0], parts[1] - 1, parts[2])`.
   * Each of the first three pieces is read as a number; a missing piece, or
   * one that is not a number, makes an invalid `Date`, here `None`.
   */
  function ParseDueDate(s: string): (r: Option<Date>)
    ensures r.Some? ==> Valid(r.value)
  {
    var parts := Split(s, '-');
    if |parts| < 3 then None
    else
      var y, m, d := PartNumber(parts[0]), PartNumber(parts[1]), PartNumber(parts[2]);
      if y.Some? && m.Some? && d.Some? then Some(LocalDate(y.value, m.value, d.value)) else None
  }

  /** `s.padStart(width, '0')`. */
  function PadDigits(s: string, width: nat): (r: string)
    ensures |r| >= |s|
    decreases width - |s|
  {
    if |s| >= width then s else PadDigits("0" + s, width)
  }

  /** Zero-padding keeps a run of digits a run of digits with the same value. */
  lemma {:induction false} PadDigitsValue(s: string, width: nat)
    requires Numeric(s)
    ensures Numeric(PadDigits(s, width)) && DigitsValue(PadDigits(s, width)) == DigitsValue(s)
    decreases width - |s|
  {
    if |s| < width {
      LeadingZero(s);
      assert Numeric("0" + s) by {
        assert forall i :: 1 <= i < |s| + 1 ==> ("0" + s)[i] == s[i - 1];
      }
      PadDigitsValue("0" + s, width);
    }
  }

  /** The day part of `toISOString()`: `YYYY-MM-DD`. */
  function IsoDay(d: Date): string
    requires 0 <= d.year && 1 <= d.month && 1 <= d.day
  {
    PadDigits(NatToString(d.year), 4) + "-" + PadDigits(NatToString(d.month), 2) + "-" + PadDigits(NatToString(d.day), 2)
  }

  /** A printed number, padded, reads back as the number and holds no dash. */
  lemma PaddedNumber(n: nat, width: nat)
    ensures var s := PadDigits(NatToString(n), width);
            Numeric(s) && '-' !in s && DigitsValue(s) == n
  {
    var s := PadDigits(NatToString(n), width);
    PadDigitsValue(NatToString(n), width);
    NatToStringRoundTrip(n);
    assert '-' !in s by {
      forall i | 0 <= i < |s| ensures s[i] != '-' {
        assert IsAsciiDigit(s[i]);
      }
    }
  }

  /** A text that splits into three readable pieces is the local date they name. */
  lemma ParsePieces(s: string, a: string, b: string, c: string)
    requires Split(s, '-') == [a, b, c]
    requires PartNumber(a).Some? && PartNumber(b).Some? && PartNumber(c).Some?
    ensures ParseDueDate(s) == Some(LocalDate(PartNumber(a).value, PartNumber(b).value, PartNumber(c).value))
  {
    var parts := Split(s, '-');
    assert parts[0] == a && parts[1] == b && parts[2] == c;
  }

  /** Three dash-free digit runs joined by dashes parse to the local date they name. */
  lemma ParseThreeParts(a: string, b: string, c: string)
    requires Numeric(a) && Numeric(b) && Numeric(c)
    requires '-' !in a && '-' !in b && '-' !in c
    ensures ParseDueDate(a + "-" + b + "-" + c) == Some(LocalDate(DigitsValue(a), DigitsValue(b), DigitsValue(c)))
  {
    SplitThree(a, b, c, '-');
    PartNumberOfDigits(a);
    PartNumberOfDigits(b);
    PartNumberOfDigits(c);
    ParsePieces(a + "-" + b + "-" + c, a, b, c);
  }

  /**
   * A date sent as `YYYY-MM-DD` is stored as that same local date: for
   * years from 100 on, parsing the printed day gives the day back.
   */
  lemma DueDateRoundTrip(d: Date)
    requires Valid(d) && d.year >= 100
    ensures ParseDueDate(IsoDay(d)) == Some(d)
  {
    PaddedNumber(d.year, 4);
    PaddedNumber(d.month, 2);
    PaddedNumber(d.day, 2);
    ParseThreeParts(PadDigits(NatToString(d.year), 4), PadDigits(NatToString(d.month), 2), PadDigits(NatToString(d.day), 2));
    MakeDateOfValid(d);
  }

  /** Years 0 … 99 are shifted into the 1900s: `0050-01-01` becomes 1 January 1950. */
  lemma TwoDigitYearsShift()
    ensures ParseDueDate("0050-01-01") == Some(Date(1950, 1, 1))
  {
    LiteralDigits();
    ParseThreeParts("0050", "01", "01");
    assert "0050" + "-" + "01" + "-" + "01" == "0050-01-01";
    MakeDateOfValid(Date(1950, 1, 1));
    assert LocalDate(50, 1, 1) == Date(1950, 1, 1);
  }

  /** A worked example of `TrailingWhitespaceIgnored` and `ParseThreeParts`: `"2024-06-10 "` is 10 June 2024. */
  lemma PaddedDateParses()
    ensures ParseDueDate("2024-06-10 ") == Some(Date(2024, 6, 10))
  {
    PaddedLiteral();
    ParseThreeParts("2024", "06", "10");
    TrailingWhitespaceIgnored("2024", "06", "10", ' ');
  }

  /** Helper for the worked example `PaddedDateParses`: the literal's pieces and the date they name. */
  lemma PaddedLiteral()
    ensures "2024" + "-" + "06" + "-" + "10" + [' '] == "2024-06-10 "
    ensures Numeric("2024") && Numeric("06") && Numeric("10") && IsJsWhitespace(' ')
    ensures LocalDate(DigitsValue("2024"), DigitsValue("06"), DigitsValue("10")) == Date(2024, 6, 10)
  {
    var s := "2024-06-10 ";
    assert forall i :: 0 <= i < 4 ==> s[i] == "2024"[i];
    JuneDigits();
    MakeDateOfValid(Date(2024, 6, 10));
  }

  /** Helper for the worked examples: the digit values of the pieces of `"2024-06-10"`. */
  lemma JuneDigits()
    ensures DigitsValue("2024") == 2024 && DigitsValue("06") == 6 && DigitsValue("10") == 10
  {
    assert "2024"[..3] == "202" && "202"[..2] == "20" && "20"[..1] == "2" && "2"[..0] == [];
    assert "06"[..1] == "0" && "0"[..0] == [];
    assert "10"[..1] == "1" && "1"[..0] == [];
  }

  /** Helper for the worked example `TwoDigitYearsShift`: the digit values of `"0050"` and `"01"`. */
  lemma LiteralDigits()
    ensures Numeric("0050") && DigitsValue("0050") == 50
    ensures Numeric("01") && DigitsValue("01") == 1
  {
    assert "0050"[..3] == "005" && "005"[..2] == "00" && "00"[..1] == "0" && "0"[..0] == [];
    assert "01"[..1] == "0";
  }

  /** Whitespace after the last piece is ignored: `"2024-06-10 "` is stored as `"2024-06-10"` is. */
  lemma TrailingWhitespaceIgnored(a: string, b: string, c: string, w: char)
    requires Numeric(a) && Numeric(b) && Numeric(c) && IsJsWhitespace(w)
    ensures ParseDueDate(a + "-" + b + "-" + c + [w]) == ParseDueDate(a + "-" + b + "-" + c)
  {
    NoDash(a);
    NoDash(b);
    NoDash(c);
    ParseThreeParts(a, b, c);
    ParsePaddedParts(a, b, c, w);
  }

  lemma ParsePaddedParts(a: string, b: string, c: string, w: char)
    requires Numeric(a) && Numeric(b) && Numeric(c) && IsJsWhitespace(w)
    requires '-' !in a && '-' !in b && '-' !in c
    ensures ParseDueDate(a + "-" + b + "-" + c + [w]) == Some(LocalDate(DigitsValue(a), DigitsValue(b), DigitsValue(c)))
  {
    var s := a + "-" + b + "-" + (c + [w]);
    assert a + "-" + b + "-" + c + [w] == s;
    assert '-' !in c + [w] by {
      assert forall i :: 0 <= i < |c| ==> (c + [w])[i] == c[i];
    }
    SplitThree(a, b, c + [w], '-');
    PaddedPiece(c, w);
    PartNumberOfDigits(a);
    PartNumberOfDigits(b);
    PartNumberOfDigits(c);
    ParsePieces(s, a, b, c + [w]);
  }

  lemma NoDash(s: string)
    requires Numeric(s)
    ensures '-' !in s
  {
    assert forall i :: 0 <= i < |s| ==> IsAsciiDigit(s[i]);
  }

  lemma PaddedPiece(c: string, w: char)
    requires Numeric(c) && IsJsWhitespace(w)
    ensures PartNumber(c + [w]) == PartNumber(c)
  {
    var s := c + [w];
    assert s[..|s| - 1] == c;
    if c == [] {
      assert s[1..] == [];
    } else {
      assert IsAsciiDigit(c[0]) && s[0] == c[0];
    }
  }

  // ---------------------------------------------------------------------------
  // PATCH /api/bills/:id

  /** The body fields of an edit; a field left out of the request is `None`, a JSON `null` category is `Some(None)`. */
  datatype Edit = Edit(name: Option<string>, category: Option<Option<string>>, amount: Option<int>, dueDate: Option<string>)

  /** The delimiter `isDate()` splits on: the first of `/` and `-` that the text holds. */
  function DateDelimiter(s: string): char {
    if '/' in s then '/' else '-'
  }

  /**
   * `isDate()` with its defaults (format `YYYY/MM/DD`, delimiters `/` and
   * `-`, not strict): split on its delimiter, the text has at least three
   * words, the first three of four, two and two digits, naming a day that
   * exists; any further words are not looked at.
   */
  predicate IsDateText(s: string) {
    var words := Split(s, DateDelimiter(s));
    && |words| >= 3 && |words[0]| == 4 && |words[1]| == 2 && |words[2]| == 2
    && Numeric(words[0]) && Numeric(words[1]) && Numeric(words[2])
    && Valid(Date(DigitsValue(words[0]), DigitsValue(words[1]), DigitsValue(words[2])))
  }

  /**
   * The request validators: a Mongo id; a name, when given, of 1 to 120
   * characters once trimmed; a category, when given and not null, of at most
   * 120; an amount, when given, above zero; a due date, when given, that is a date.
   */
  predicate EditAccepted(id: Id, e: Edit) {
    && IsObjectId(id)
    && (e.name.Some? ==> 1 <= |Trim(e.name.value)| <= 120)
    && (e.category.Some? && e.category.value.Some? ==> |Trim(e.category.value.value)| <= 120)
    && (e.amount.Some? ==> e.amount.value > 0)
    && (e.dueDate.Some? ==> IsDateText(e.dueDate.value))
  }

  /**
   * An accepted due date is read back exactly when it is written with
   * dashes: one written with slashes passes `isDate()`, but `split('-')`
   * leaves its first piece unreadable. A dashed date from year 100 on is
   * stored as the day it names.
   */
  lemma AcceptedDateParses(s: string)
    requires IsDateText(s)
    ensures ParseDueDate(s).Some? <==> '/' !in s
    ensures '/' !in s && DigitsValue(Split(s, '-')[0]) >= 100 ==>
              ParseDueDate(s) == Some(Date(DigitsValue(Split(s, '-')[0]), DigitsValue(Split(s, '-')[1]), DigitsValue(Split(s, '-')[2])))
  {
    var w := Split(s, '-');
    if '/' in s {
      SlashedFirstPiece(s);
      assert ParseDueDate(s).None?;
    } else {
      assert DateDelimiter(s) == '-';
      PartNumberOfDigits(w[0]);
      PartNumberOfDigits(w[1]);
      PartNumberOfDigits(w[2]);
      var d := Date(DigitsValue(w[0]), DigitsValue(w[1]), DigitsValue(w[2]));
      assert ParseDueDate(s) == Some(LocalDate(d.year, d.month, d.day));
      if d.year >= 100 {
        MakeDateOfValid(d);
      }
    }
  }

  /** In a date written with slashes, the text before the first `-` holds the first `/`, so it is not a number. */
  lemma SlashedFirstPiece(s: string)
    requires IsDateText(s) && '/' in s
    ensures PartNumber(Split(s, '-')[0]).None?
  {
    var year := Split(s, '/')[0];
    SplitHead(s, '/');
    assert |year| == 4 && s[..4] == year && s[4] == '/';
    assert forall i :: 0 <= i < 4 ==> IsAsciiDigit(s[i]) by {
      assert forall i :: 0 <= i < 4 ==> s[i] == year[i];
    }
    SplitFirst(s, '-');
    var q := BeforeFirst(s, '-');
    assert |q| > 4 && q[0] == s[0] && q[4] == '/';
    PieceWithSlash(q);
  }

  /** A piece that starts with a digit and holds a `/` is not a number. */
  lemma PieceWithSlash(q: string)
    requires |q| > 4 && IsAsciiDigit(q[0]) && q[4] == '/'
    ensures PartNumber(q).None?
  {
    TrimSlashPiece(q);
    NotANumber(Trim(q));
    PartNumberOfTrim(q);
  }

  lemma TrimSlashPiece(q: string)
    requires |q| > 4 && IsAsciiDigit(q[0]) && q[4] == '/'
    ensures |Trim(q)| > 4 && IsAsciiDigit(Trim(q)[0]) && Trim(q)[4] == '/'
  {
    assert !IsJsWhitespace(q[0]) && !IsJsWhitespace(q[4]);
    assert TrimStart(q) == q;
    var t := TrimEnd(q);
    assert |t| > 4 && t[0] == q[0] && t[4] == q[4];
  }

  lemma NotANumber(t: string)
    requires |t| > 4 && IsAsciiDigit(t[0]) && t[4] == '/' && !IsJsWhitespace(t[|t| - 1])
    ensures PartNumber(t).None?
  {
    assert !Numeric(t) by {
      assert !IsAsciiDigit(t[4]);
    }
  }

  // The validators' sanitisers

  /** The characters validator.js's `escape` replaces by an entity, besides `&`. */
  predicate MarkupFree(s: string) {
    '"' !in s && '\'' !in s && '<' !in s && '>' !in s && '/' !in s && '\\' !in s && '`' !in s
  }

  /** validator.js `escape`: eight global replacements, `&` first, so that no entity is escaped twice. */
  function ValidatorEscape(s: string): string {
    EscapeTail(EscapeHead(s))
  }

  /** Its first four replacements. */
  function EscapeHead(s: string): string {
    var amp := ReplaceAll(s, '&', "&amp;");
    var quot := ReplaceAll(amp, '"', "&quot;");
    var apos := ReplaceAll(quot, '\'', "&#x27;");
    ReplaceAll(apos, '<', "&lt;")
  }

  /** Its last four. */
  function EscapeTail(lt: string): string {
    var gt := ReplaceAll(lt, '>', "&gt;");
    var slash := ReplaceAll(gt, '/', "&#x2F;");
    var backslash := ReplaceAll(slash, '\\', "&#x5C;");
    ReplaceAll(backslash, '`', "&#96;")
  }

  /** A text field's sanitiser chain, `.trim()` then `.escape()`, which rewrites `req.body`. */
  function Sanitized(raw: string): string {
    ValidatorEscape(Trim(raw))
  }

  /** Escaped text holds none of the characters the escape replaces. */
  lemma EscapeRemovesMarkup(s: string)
    ensures MarkupFree(ValidatorEscape(s))
  {
    EscapeHeadRemovesQuotes(s);
    EscapeTailRemovesMarkup(EscapeHead(s));
  }

  lemma EscapeHeadRemovesQuotes(s: string)
    ensures '"' !in EscapeHead(s) && '\'' !in EscapeHead(s) && '<' !in EscapeHead(s)
  {
    var amp := ReplaceAll(s, '&', "&amp;");
    var quot := ReplaceAll(amp, '"', "&quot;");
    var apos := ReplaceAll(quot, '\'', "&#x27;");
    ReplaceAllExcludes(amp, '"', "&quot;", '"');
    ReplaceAllExcludes(quot, '\'', "&#x27;", '"');
    ReplaceAllExcludes(quot, '\'', "&#x27;", '\'');
    ReplaceAllExcludes(apos, '<', "&lt;", '"');
    ReplaceAllExcludes(apos, '<', "&lt;", '\'');
    ReplaceAllExcludes(apos, '<', "&lt;", '<');
  }

  /** The last four replacements keep out what the first four removed and remove the rest. */
  lemma EscapeTailRemovesMarkup(lt: string)
    ensures var e := EscapeTail(lt);
            && ('"' !in lt ==> '"' !in e) && ('\'' !in lt ==> '\'' !in e) && ('<' !in lt ==> '<' !in e)
            && '>' !in e && '/' !in e && '\\' !in e && '`' !in e
  {
    var gt := ReplaceAll(lt, '>', "&gt;");
    var slash := ReplaceAll(gt, '/', "&#x2F;");
    var backslash := ReplaceAll(slash, '\\', "&#x5C;");
    forall d | d in {'"', '\'', '<'} && d !in lt
      ensures d !in ReplaceAll(backslash, '`', "&#96;")
    {
      ReplaceAllExcludes(lt, '>', "&gt;", d);
      ReplaceAllExcludes(gt, '/', "&#x2F;", d);
      ReplaceAllExcludes(slash, '\\', "&#x5C;", d);
      ReplaceAllExcludes(backslash, '`', "&#96;", d);
    }
    ReplaceAllExcludes(lt, '>', "&gt;", '>');
    ReplaceAllExcludes(gt, '/', "&#x2F;", '>');
    ReplaceAllExcludes(slash, '\\', "&#x5C;", '>');
    ReplaceAllExcludes(backslash, '`', "&#96;", '>');
    ReplaceAllExcludes(gt, '/', "&#x2F;", '/');
    ReplaceAllExcludes(slash, '\\', "&#x5C;", '/');
    ReplaceAllExcludes(backslash, '`', "&#96;", '/');
    ReplaceAllExcludes(slash, '\\', "&#x5C;", '\\');
    ReplaceAllExcludes(backslash, '`', "&#96;", '\\');
    ReplaceAllExcludes(backslash, '`', "&#96;", '`');
  }

  /** Text without `&` or any markup character passes through the escape unchanged. */
  lemma EscapeKeepsPlainText(s: string)
    requires '&' !in s && MarkupFree(s)
    ensures ValidatorEscape(s) == s
  {
    ReplaceAllAbsent(s, '&', "&amp;");
    ReplaceAllAbsent(s, '"', "&quot;");
    ReplaceAllAbsent(s, '\'', "&#x27;");
    ReplaceAllAbsent(s, '<', "&lt;");
    ReplaceAllAbsent(s, '>', "&gt;");
    ReplaceAllAbsent(s, '/', "&#x2F;");
    ReplaceAllAbsent(s, '\\', "&#x5C;");
    ReplaceAllAbsent(s, '`', "&#96;");
  }

  /**
   * The escape never shortens a text and lengthens any text holding a `<`,
   * so a name the length validator accepted can be too long for the schema.
   */
  lemma EscapeLengthens(s: string)
    ensures |ValidatorEscape(s)| >= |s|
    ensures '<' in s ==> |ValidatorEscape(s)| > |s|
  {
    var amp := ReplaceAll(s, '&', "&amp;");
    var quot := ReplaceAll(amp, '"', "&quot;");
    var apos := ReplaceAll(quot, '\'', "&#x27;");
    var lt := ReplaceAll(apos, '<', "&lt;");
    var gt := ReplaceAll(lt, '>', "&gt;");
    var slash := ReplaceAll(gt, '/', "&#x2F;");
    var backslash := ReplaceAll(slash, '\\', "&#x5C;");
    ReplaceAllLength(s, '&', "&amp;");
    ReplaceAllLength(amp, '"', "&quot;");
    ReplaceAllLength(quot, '\'', "&#x27;");
    ReplaceAllLength(apos, '<', "&lt;");
    ReplaceAllLength(lt, '>', "&gt;");
    ReplaceAllLength(gt, '/', "&#x2F;");
    ReplaceAllLength(slash, '\\', "&#x5C;");
    ReplaceAllLength(backslash, '`', "&#96;");
    if '<' in s {
      ReplaceAllIncludes(s, '&', "&amp;", '<');
      ReplaceAllIncludes(amp, '"', "&quot;", '<');
      ReplaceAllIncludes(quot, '\'', "&#x27;", '<');
    }
  }

  /** Trimming keeps text free of markup. */
  lemma TrimKeepsMarkupFree(s: string)
    requires MarkupFree(s)
    ensures MarkupFree(Trim(s))
  {
    TrimExcludes(s, '"');
    TrimExcludes(s, '\'');
    TrimExcludes(s, '<');
    TrimExcludes(s, '>');
    TrimExcludes(s, '/');
    TrimExcludes(s, '\\');
    TrimExcludes(s, '`');
  }

  // The edit

  /** The category after its sanitisers; a JSON `null` skips them. */
  function SanitizedCategory(c: Option<string>): Option<string> {
    if c.Some? then Some(Sanitized(c.value)) else None
  }

  /** `x || null`: a falsy value is stored as `null`. */
  function NullIfFalsy(o: Option<string>): (r: Option<string>)
    ensures r.Some? <==> Truthy(o)
    ensures r.Some? ==> r == o
  {
    if Truthy(o) then o else None
  }

  /** A given due date, if any, reads as a date. */
  predicate DueDateReadable(e: Edit) {
    e.dueDate.Some? ==> ParseDueDate(e.dueDate.value).Some?
  }

  /** The name a given name is stored as: sanitised, then trimmed by the schema's setter. */
  function StoredName(raw: string): string {
    Trim(Sanitized(raw))
  }

  /** The category a given category is stored as: sanitised, `|| null`, then trimmed by the setter. */
  function StoredCategory(raw: Option<string>): Option<string> {
    TrimOption(NullIfFalsy(SanitizedCategory(raw)))
  }

  /**
   * `bill.name = name`, … : the given fields, as the sanitisers left them,
   * assigned through the schema's `trim` setters.
   */
  function Assigned(b: Bill, e: Edit): Bill
    requires DueDateReadable(e)
  {
    AssignDue(AssignAmount(AssignCategory(AssignName(b, e), e), e), e)
  }

  /** A given name is assigned through the trim setter (server.js:615). */
  function AssignName(b: Bill, e: Edit): Bill {
    if e.name.Some? then b.(name := StoredName(e.name.value)) else b
  }

  /** A given category is assigned, a falsy one as `null` (server.js:616). */
  function AssignCategory(b: Bill, e: Edit): Bill {
    if e.category.Some? then b.(category := StoredCategory(e.category.value)) else b
  }

  /** A given amount is assigned (server.js:617). */
  function AssignAmount(b: Bill, e: Edit): Bill {
    if e.amount.Some? then b.(amount := e.amount.value) else b
  }

  /** A given due date is assigned as the local date it parses to (server.js:618-621). */
  function AssignDue(b: Bill, e: Edit): Bill
    requires DueDateReadable(e)
  {
    if e.dueDate.Some? then b.(due := ParseDueDate(e.dueDate.value).value) else b
  }

  /** The four assignments, taken together. */
  lemma AssignedFields(b: Bill, e: Edit)
    requires DueDateReadable(e)
    ensures Assigned(b, e) ==
            b.(name := if e.name.Some? then StoredName(e.name.value) else b.name,
               category := if e.category.Some? then StoredCategory(e.category.value) else b.category,
               amount := if e.amount.Some? then e.amount.value else b.amount,
               due := if e.dueDate.Some? then ParseDueDate(e.dueDate.value).value else b.due)
  {
  }

  /** What `save()` stores: the assigned bill, with `updatedAt` stamped when some field changed value. */
  function Edited(b: Bill, e: Edit, now: int): Bill
    requires DueDateReadable(e)
  {
    var a := Assigned(b, e);
    if a != b then a.(updatedAt := now) else b
  }

  /**
   * An edit assigns the fields it names and nothing else: the owner, the
   * status, the payment time and the attachments stay; a given name and a
   * kept category hold no markup character; a blank category becomes `null`;
   * and the bill is either unchanged or stamped with the current time.
   */
  lemma EditTouchesOnlyGivenFields(b: Bill, e: Edit, now: int)
    requires DueDateReadable(e)
    ensures var u := Edited(b, e, now);
            && u.id == b.id && u.owner == b.owner && u.status == b.status && u.paidAt == b.paidAt
            && u.boletoFile == b.boletoFile && u.comprovanteFile == b.comprovanteFile && u.pixInfo == b.pixInfo
            && (e.name.None? ==> u.name == b.name)
            && (e.name.Some? ==> MarkupFree(u.name))
            && (e.category.None? ==> u.category == b.category)
            && (e.category.Some? ==> (u.category.Some? <==> Truthy(SanitizedCategory(e.category.value))))
            && (e.category.Some? && u.category.Some? ==> MarkupFree(u.category.value))
            && (e.amount.None? ==> u.amount == b.amount)
            && (e.dueDate.None? ==> u.due == b.due)
            && (u == b || u.updatedAt == now)
            && (u == b <==> Assigned(b, e) == b)
            && (PaidInvariant(b) ==> PaidInvariant(u))
  {
    AssignedFields(b, e);
    if e.name.Some? {
      EscapeRemovesMarkup(Trim(e.name.value));
      TrimKeepsMarkupFree(Sanitized(e.name.value));
    }
    if e.category.Some? && e.category.value.Some? {
      EscapeRemovesMarkup(Trim(e.category.value.value));
      TrimKeepsMarkupFree(Sanitized(e.category.value.value));
    }
  }

  /**
   * The edit handler. The validators answer 400; the document is loaded; a
   * due date that reads as an invalid `Date` fails the cast on `save()`; the
   * schema validators refuse what breaks the schema; then the timestamps and
   * the pre-save hook run, the latter leaving `paid_at` alone because the
   * status was not modified. Only the caller's bill with that id can change.
   */
  method EditBill(store: Store, id: Id, owner: Id, e: Edit, now: int) returns (reply: Reply, after: Store)
    ensures !EditAccepted(id, e) ==> reply == BadRequest && after == store
    ensures EditAccepted(id, e) && FindOwned(store, id, owner).None? ==> reply == NotFound && after == store
    ensures EditAccepted(id, e) && FindOwned(store, id, owner).Some? && !DueDateReadable(e) ==>
              reply == ServerError && after == store
    ensures EditAccepted(id, e) && FindOwned(store, id, owner).Some? && DueDateReadable(e) ==>
              var u := Edited(store[id], e, now);
              if ValidBill(u) then reply == Updated(u) && after == store[id := u]
              else reply == ServerError && after == store
  {
    if !EditAccepted(id, e) {
      return BadRequest, store;
    }
    var found := FindOwned(store, id, owner);
    if found.None? {
      return NotFound, store;
    }
    if !DueDateReadable(e) {
      return ServerError, store;
    }
    var doc := new BillDocument.Load(found.value);
    AssignFields(doc, e);
    ghost var edited := Edited(found.value, e, now);
    StampKeepsValidity(doc.data, now);
    if !ValidBill(doc.data) {
      return ServerError, store;
    }
    doc.StampUpdatedAt(now);
    assert doc.data == edited;
    doc.PreSave(now);
    return Updated(doc.data), store[id := doc.data];
  }

  /** Stamping the modification time leaves the schema's verdict alone. */
  lemma StampKeepsValidity(b: Bill, now: int)
    ensures ValidBill(b.(updatedAt := now)) == ValidBill(b)
  {
  }

  /** Some given field differs from the stored one. */
  predicate Changes(b: Bill, e: Edit)
    requires DueDateReadable(e)
  {
    || (e.name.Some? && StoredName(e.name.value) != b.name)
    || (e.category.Some? && StoredCategory(e.category.value) != b.category)
    || (e.amount.Some? && e.amount.value != b.amount)
    || (e.dueDate.Some? && ParseDueDate(e.dueDate.value).value != b.due)
  }

  /** The assignments change the bill exactly when some given field differs. */
  lemma AssignedChanges(b: Bill, e: Edit)
    requires DueDateReadable(e)
    ensures Assigned(b, e) != b <==> Changes(b, e)
  {
    var a := Assigned(b, e);
    if !Changes(b, e) {
      assert a.name == b.name && a.category == b.category && a.amount == b.amount && a.due == b.due;
    }
  }

  /** The assignments on the loaded document: a path is marked modified when its value changes; the status path is untouched. */
  method AssignFields(doc: BillDocument, e: Edit)
    requires DueDateReadable(e)
    modifies doc
    ensures doc.data == Assigned(old(doc.data), e)
    ensures doc.modified == (old(doc.modified) || doc.data != old(doc.data))
    ensures doc.statusModified == old(doc.statusModified)
  {
    var u := AssignName(doc.data, e);
    u := AssignCategory(u, e);
    u := AssignAmount(u, e);
    u := AssignDue(u, e);
    doc.modified := doc.modified || u != doc.data;
    doc.data := u;
  }

  // ---------------------------------------------------------------------------
  // PATCH /api/bills/:id/status

  /** `new Date(y, m, d, 23, 59, 59, 999)`: the last millisecond of a local day. */
  function EndOfDay(d: Date): (t: int)
    requires 1 <= d.month <= 12
    ensures Midnight(d) <= t < Midnight(d) + MsPerDay
  {
    Midnight(d) + MsPerDay - 1
  }

  /**
   * The `paid_at` of a status request: absent; refused by `isISO8601()`, as a
   * JSON `null` or an empty string is; accepted but read by `new Date` as an
   * invalid date; or accepted, with the local calendar day `new Date` reads.
   */
  datatype PaidAtField = Omitted | NotIso8601 | UnreadableDate | OnDay(day: Date)

  function PaidDay(f: PaidAtField): Option<Date> {
    if f.OnDay? then Some(f.day) else None
  }

  /**
   * The `paid_at` the status handler writes. `paidDay` is the local calendar
   * day of the `paid_at` the request gives, if it gives one.
   */
  function StatusPaidAt(s: Status, paidDay: Option<Date>, now: int): (r: Option<int>)
    requires paidDay.Some? ==> Valid(paidDay.value)
    ensures r.Some? <==> s == Paid
    ensures s == Paid && paidDay.Some? ==> Midnight(paidDay.value) <= r.value < Midnight(paidDay.value) + MsPerDay
    ensures s == Paid && paidDay.None? ==> r == Some(now)
  {
    match s
    case Paid => if paidDay.Some? then Some(EndOfDay(paidDay.value)) else Some(now)
    case Pending => None
  }

  /** The request passes the validators: a Mongo id, one of the two statuses, and an ISO 8601 `paid_at` if any. */
  predicate StatusAccepted(id: Id, status: string, paidAt: PaidAtField) {
    IsObjectId(id) && ParseStatus(status).Some? && !paidAt.NotIso8601?
  }

  /**
   * The status handler: validate; build `{ status, paid_at }`, where logging
   * an invalid payment date throws (500) before the store is read; then
   * `findOneAndUpdate` the caller's bill with `$set`, to which the timestamps
   * add `updatedAt`. The update bypasses the pre-save hook, so `paid_at` is
   * exactly what the handler computed.
   */
  function ChangeStatus(store: Store, id: Id, owner: Id, status: string, paidAt: PaidAtField, now: int): (res: (Reply, Store))
    requires paidAt.OnDay? ==> Valid(paidAt.day)
    ensures !StatusAccepted(id, status, paidAt) ==> res == (BadRequest, store)
    ensures StatusAccepted(id, status, paidAt) && status == "paid" && paidAt.UnreadableDate? ==> res == (ServerError, store)
    ensures StatusAccepted(id, status, paidAt) && !(status == "paid" && paidAt.UnreadableDate?) && FindOwned(store, id, owner).None? ==>
              res == (NotFound, store)
    ensures !res.0.Updated? ==> res.1 == store
    ensures res.0.Updated? ==>
              var b := res.0.bill;
              && id in store && store[id].owner == owner && res.1 == store[id := b]
              && StatusName(b.status) == status && PaidInvariant(b)
              && b.paidAt == StatusPaidAt(b.status, PaidDay(paidAt), now)
              && b == store[id].(status := b.status, paidAt := b.paidAt, updatedAt := now)
    ensures StatusAccepted(id, status, paidAt) && !(status == "paid" && paidAt.UnreadableDate?) && FindOwned(store, id, owner).Some? ==>
              res.0.Updated?
  {
    if !IsObjectId(id) || paidAt.NotIso8601? then (BadRequest, store)
    else match ParseStatus(status)
      case None => (BadRequest, store)
      case Some(s) =>
        if s == Paid && paidAt.UnreadableDate? then (ServerError, store)
        else
          match FindOwned(store, id, owner)
          case None => (NotFound, store)
          case Some(b) =>
            var u := b.(status := s, paidAt := StatusPaidAt(s, PaidDay(paidAt), now), updatedAt := now);
            (Updated(u), store[id := u])
  }

  /**
   * Unlike the pre-save hook, marking an already paid bill as paid without a
   * `paid_at` replaces its payment time by the current time.
   */
  lemma RepayingRestampsPaidAt(store: Store, id: Id, owner: Id, now: int)
    requires IsObjectId(id) && id in store && store[id].owner == owner
    requires store[id].status == Paid && store[id].paidAt.Some? && store[id].paidAt != Some(now)
    ensures var res := ChangeStatus(store, id, owner, "paid", Omitted, now);
            res.0.Updated? && res.0.bill.paidAt == Some(now)
            && res.0.bill.paidAt != PaidAtAfterSave(true, Paid, store[id].paidAt, now)
  {
  }
}
