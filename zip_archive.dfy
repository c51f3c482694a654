/**
 * The ZIP report's entry names: the report file, then the stored boletos and
 * receipts of the bills, in order, under `anexos/`. The bytes are not
 * modelled.
 */
module ZipArchive {
  import opened Wrappers
  import opened Text
  import opened Bills

  /**
   * The bill name with every UTF-16 code unit outside `[A-Za-z0-9]` replaced
   * by `_`: a character outside the Basic Multilingual Plane is two code
   * units, so it becomes two underscores.
   */
  function SafeName(s: string): (r: string)
    ensures |r| == Utf16Length(s)
  {
    if s == [] then [] else (if IsAlphaNumeric(s[0]) then [s[0]] else if s[0] > '\U{FFFF}' then "__" else "_") + SafeName(s[1..])
  }

  /**
   * Only letters, digits and underscores remain; on a name inside the Basic
   * Multilingual Plane the replacement is character by character.
   */
  lemma {:induction false} SafeNameCharacters(s: string)
    ensures forall i :: 0 <= i < |SafeName(s)| ==> IsAlphaNumeric(SafeName(s)[i]) || SafeName(s)[i] == '_'
    ensures (forall i :: 0 <= i < |s| ==> s[i] <= '\U{FFFF}') ==>
              forall i :: 0 <= i < |s| ==> SafeName(s)[i] == (if IsAlphaNumeric(s[i]) then s[i] else '_')
    decreases |s|
  {
    if s != [] {
      var t := s[1..];
      SafeNameCharacters(t);
      var head := if IsAlphaNumeric(s[0]) then [s[0]] else if s[0] > '\U{FFFF}' then "__" else "_";
      var r, rt := SafeName(s), SafeName(t);
      assert r == head + rt;
      assert forall i :: 0 <= i < |head| ==> IsAlphaNumeric(head[i]) || head[i] == '_';
      assert forall i :: |head| <= i < |r| ==> r[i] == rt[i - |head|];
      if forall i :: 0 <= i < |s| ==> s[i] <= '\U{FFFF}' {
        assert forall i :: 1 <= i < |s| ==> t[i - 1] == s[i];
        assert forall i :: 0 <= i < |t| ==> t[i] <= '\U{FFFF}';
        assert |head| == 1;
      }
    }
  }

  predicate IsAlphaNumeric(c: char) {
    'a' <= c <= 'z' || 'A' <= c <= 'Z' || IsAsciiDigit(c)
  }

  /** A value in a template literal: a missing file name prints as "null". */
  function Printed(o: Option<string>): string {
    if o.Some? then o.value else "null"
  }

  /** `anexos/<kind>-<position>-<safe name>-<original file name>`. */
  function EntryName(kind: string, position: nat, billName: string, fileName: Option<string>): string {
    "anexos/" + kind + "-" + NatToString(position) + "-" + SafeName(billName) + "-" + Printed(fileName)
  }

  /** The attachments of bill number `position` (one-based) that exist on disk: the boleto, then the receipt. */
  function EntriesOf(b: Bill, position: nat, boletos: set<string>, comprovantes: set<string>): (r: seq<string>)
    ensures |r| <= 2
  {
    (if Truthy(b.boletoFile) && b.boletoFile.value in boletos
     then [EntryName("boleto", position, b.name, b.boletoFilename)] else [])
    + (if Truthy(b.comprovanteFile) && b.comprovanteFile.value in comprovantes
       then [EntryName("comprovante", position, b.name, b.comprovanteFilename)] else [])
  }

  /** The attachment entries for all bills, in order. */
  function Attachments(bills: seq<Bill>, boletos: set<string>, comprovantes: set<string>): seq<string> {
    if bills == [] then []
    else Attachments(bills[..|bills| - 1], boletos, comprovantes)
         + EntriesOf(bills[|bills| - 1], |bills|, boletos, comprovantes)
  }

  lemma AttachmentsSnoc(bills: seq<Bill>, boletos: set<string>, comprovantes: set<string>, i: int)
    requires 0 <= i < |bills|
    ensures Attachments(bills[..i + 1], boletos, comprovantes)
            == Attachments(bills[..i], boletos, comprovantes) + EntriesOf(bills[i], i + 1, boletos, comprovantes)
  {
    assert bills[..i + 1][..i] == bills[..i];
  }

  /** One more bill extends the archive by that bill's entries. */
  lemma AttachmentsStep(bills: seq<Bill>, boletos: set<string>, comprovantes: set<string>, i: int,
                        names: seq<string>, reportName: string)
    requires 0 <= i < |bills|
    requires names == [reportName] + Attachments(bills[..i], boletos, comprovantes)
    ensures names + EntriesOf(bills[i], i + 1, boletos, comprovantes)
            == [reportName] + Attachments(bills[..i + 1], boletos, comprovantes)
  {
    AttachmentsSnoc(bills, boletos, comprovantes, i);
  }

  /** The archive: the report file under its base name, then the attachments that exist. */
  method ZipEntries(bills: seq<Bill>, reportName: string, boletos: set<string>, comprovantes: set<string>)
    returns (names: seq<string>)
    ensures names == [reportName] + Attachments(bills, boletos, comprovantes)
  {
    names := [reportName];
    var index := 0;
    while index < |bills|
      invariant 0 <= index <= |bills|
      invariant names == [reportName] + Attachments(bills[..index], boletos, comprovantes)
    {
      AttachmentsStep(bills, boletos, comprovantes, index, names, reportName);
      names := AddEntries(names, bills[index], index + 1, boletos, comprovantes);
      index := index + 1;
    }
    assert bills[..index] == bills;
  }

  /** The two `fs.existsSync` checks of one bill: its boleto, then its receipt, when stored on disk. */
  method AddEntries(names: seq<string>, bill: Bill, position: nat, boletos: set<string>, comprovantes: set<string>)
    returns (out: seq<string>)
    ensures out == names + EntriesOf(bill, position, boletos, comprovantes)
  {
    out := names;
    if Truthy(bill.boletoFile) && bill.boletoFile.value in boletos {
      out := out + [EntryName("boleto", position, bill.name, bill.boletoFilename)];
    }
    if Truthy(bill.comprovanteFile) && bill.comprovanteFile.value in comprovantes {
      out := out + [EntryName("comprovante", position, bill.name, bill.comprovanteFilename)];
    }
  }

  /** At most two attachments per bill, and every one of them lives under `anexos/`. */
  lemma {:induction false} AttachmentsShape(bills: seq<Bill>, boletos: set<string>, comprovantes: set<string>)
    ensures |Attachments(bills, boletos, comprovantes)| <= 2 * |bills|
    ensures forall i :: 0 <= i < |Attachments(bills, boletos, comprovantes)| ==>
              StartsWith(Attachments(bills, boletos, comprovantes)[i], "anexos/")
    decreases |bills|
  {
    if bills != [] {
      var init := bills[..|bills| - 1];
      AttachmentsShape(init, boletos, comprovantes);
      EntriesUnderAnexos(bills[|bills| - 1], |bills|, boletos, comprovantes);
      var a, e := Attachments(init, boletos, comprovantes), EntriesOf(bills[|bills| - 1], |bills|, boletos, comprovantes);
      assert Attachments(bills, boletos, comprovantes) == a + e;
      forall i | 0 <= i < |a + e|
        ensures StartsWith((a + e)[i], "anexos/")
      {
        if i < |a| {
          assert (a + e)[i] == a[i];
        } else {
          assert (a + e)[i] == e[i - |a|];
        }
      }
    }
  }

  /** Every entry of one bill lives under `anexos/`. */
  lemma EntriesUnderAnexos(b: Bill, position: nat, boletos: set<string>, comprovantes: set<string>)
    ensures var e := EntriesOf(b, position, boletos, comprovantes);
            forall i :: 0 <= i < |e| ==> StartsWith(e[i], "anexos/")
  {
    EntryNameUnderAnexos("boleto", position, b.name, b.boletoFilename);
    EntryNameUnderAnexos("comprovante", position, b.name, b.comprovanteFilename);
  }

  lemma EntryNameUnderAnexos(kind: string, position: nat, billName: string, fileName: Option<string>)
    ensures StartsWith(EntryName(kind, position, billName, fileName), "anexos/")
  {
    var tail := kind + "-" + NatToString(position) + "-" + SafeName(billName) + "-" + Printed(fileName);
    assert EntryName(kind, position, billName, fileName) == "anexos/" + tail;
    assert ("anexos/" + tail)[..7] == "anexos/";
  }

  /** Without stored files on disk the archive holds the report alone. */
  lemma {:induction false} NothingOnDisk(bills: seq<Bill>)
    ensures Attachments(bills, {}, {}) == []
    decreases |bills|
  {
    if bills != [] {
      NothingOnDisk(bills[..|bills| - 1]);
    }
  }

  /** The bill's position can be read back from an entry name, so entries of different bills never collide. */
  lemma EntryNamesDiffer(k1: string, p1: nat, n1: string, f1: Option<string>, k2: string, p2: nat, n2: string, f2: Option<string>)
    requires k1 in {"boleto", "comprovante"} && k2 in {"boleto", "comprovante"}
    requires p1 != p2
    ensures EntryName(k1, p1, n1, f1) != EntryName(k2, p2, n2, f2)
  {
    var e1, e2 := EntryName(k1, p1, n1, f1), EntryName(k2, p2, n2, f2);
    if k1 == k2 {
      PositionReadBack(k1, p1, n1, f1);
      PositionReadBack(k2, p2, n2, f2);
    } else {
      assert e1[7] == k1[0] && e2[7] == k2[0];
    }
  }

  /** The digits between the kind and the next dash are the bill's position. */
  lemma PositionReadBack(kind: string, p: nat, billName: string, fileName: Option<string>)
    ensures var e := EntryName(kind, p, billName, fileName);
            |e| > |kind| + 8 &&
            var digits := BeforeFirst(e[|kind| + 8..], '-');
            (forall i :: 0 <= i < |digits| ==> IsAsciiDigit(digits[i])) && DigitsValue(digits) == p
  {
    var rest := SafeName(billName) + "-" + Printed(fileName);
    var head := "anexos/" + kind + "-";
    assert EntryName(kind, p, billName, fileName) == head + (NatToString(p) + "-" + rest);
    DigitsAfter(head, p, rest);
  }

  /** After any head, the digits up to the next dash read back as the number printed there. */
  lemma DigitsAfter(head: string, p: nat, rest: string)
    ensures var e := head + (NatToString(p) + "-" + rest);
            |e| > |head| &&
            var digits := BeforeFirst(e[|head|..], '-');
            (forall i :: 0 <= i < |digits| ==> IsAsciiDigit(digits[i])) && DigitsValue(digits) == p
  {
    var e := head + (NatToString(p) + "-" + rest);
    assert e[|head|..] == NatToString(p) + "-" + rest;
    BeforeFirstDigits(p, rest);
    NatToStringRoundTrip(p);
  }

  /** The digits of a number end at the first dash. */
  lemma BeforeFirstDigits(p: nat, rest: string)
    ensures BeforeFirst(NatToString(p) + "-" + rest, '-') == NatToString(p)
  {
    var digits := NatToString(p);
    assert '-' !in digits by {
      forall i | 0 <= i < |digits| ensures digits[i] != '-' {
        assert IsAsciiDigit(digits[i]);
      }
    }
    BeforeFirstOfPrefix(digits, "-" + rest, '-');
    assert digits + ("-" + rest) == digits + "-" + rest;
  }
}
