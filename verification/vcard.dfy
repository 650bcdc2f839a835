/** The contact-card text of `generateVCard`: ten lines in vCard 3.0 style
    (RFC 2426) separated by a single LF, with no line break after the last
    line and no escaping of ';', ',' or line breaks inside values. */
module VCard {
  import opened Wrappers
  import opened Ascii
  import opened Phone
  import opened Roster
  import opened Slug

  const Header := "BEGIN:VCARD\nVERSION:3.0\n"
  const Footer := "\nEND:VCARD"

  /** The formatted name: first name, one space, last name. */
  function FullName(e: Employee): string
  {
    e.firstName + " " + e.lastName
  }

  /** Lines joined with one LF between neighbours and none at the end. */
  function JoinLines(lines: seq<string>): string
    requires |lines| >= 1
  {
    if |lines| == 1 then lines[0] else lines[0] + "\n" + JoinLines(lines[1..])
  }

  /** The text cut at every LF; the LFs themselves are dropped. */
  function SplitLines(s: string): (lines: seq<string>)
    ensures |lines| >= 1
    ensures forall i :: 0 <= i < |lines| ==> '\n' !in lines[i]
  {
    if s == [] then [""]
    else
      var rest := SplitLines(s[1..]);
      if s[0] == '\n' then [""] + rest
      else [[s[0]] + rest[0]] + rest[1..]
  }

  function NewlineCount(s: string): nat
  {
    if s == [] then 0 else (if s[0] == '\n' then 1 else 0) + NewlineCount(s[1..])
  }

  lemma {:induction false} NewlineCountZero(s: string)
    ensures NewlineCount(s) == 0 <==> '\n' !in s
    decreases |s|
  {
    if s != [] {
      NewlineCountZero(s[1..]);
      assert s == [s[0]] + s[1..];
    }
  }

  lemma {:induction false} NewlineCountConcat(a: string, b: string)
    ensures NewlineCount(a + b) == NewlineCount(a) + NewlineCount(b)
    decreases |a|
  {
    if a == [] {
      assert a + b == b;
    } else {
      assert (a + b)[1..] == a[1..] + b;
      NewlineCountConcat(a[1..], b);
    }
  }

  /** Lower-casing neither adds nor removes line breaks. */
  lemma {:induction false} NewlineCountLower(s: string)
    ensures NewlineCount(Lower(s)) == NewlineCount(s)
    decreases |s|
  {
    if s != [] {
      LowerCharFixes(s[0]);
      assert Lower(s)[1..] == Lower(s[1..]);
      NewlineCountLower(s[1..]);
    }
  }

  /** Splitting yields one more line than there are line breaks. */
  lemma {:induction false} SplitLinesCount(s: string)
    ensures |SplitLines(s)| == NewlineCount(s) + 1
    decreases |s|
  {
    if s != [] {
      SplitLinesCount(s[1..]);
    }
  }

  lemma {:induction false} SplitSingleLine(a: string)
    requires '\n' !in a
    ensures SplitLines(a) == [a]
    decreases |a|
  {
    if a != [] {
      assert a[0] in a;
      assert '\n' !in a[1..] by {
        forall k | 0 <= k < |a[1..]| ensures a[1..][k] != '\n' {
          assert a[1..][k] == a[k + 1];
        }
      }
      SplitSingleLine(a[1..]);
      assert a == [a[0]] + a[1..];
    }
  }

  lemma {:induction false} SplitFirstLine(a: string, rest: string)
    requires '\n' !in a
    ensures SplitLines(a + "\n" + rest) == [a] + SplitLines(rest)
    decreases |a|
  {
    if a == [] {
      assert a + "\n" + rest == "\n" + rest;
      assert ("\n" + rest)[1..] == rest;
    } else {
      var s := a + "\n" + rest;
      assert s[1..] == a[1..] + "\n" + rest;
      assert a[0] in a;
      assert '\n' !in a[1..] by {
        forall k | 0 <= k < |a[1..]| ensures a[1..][k] != '\n' {
          assert a[1..][k] == a[k + 1];
        }
      }
      SplitFirstLine(a[1..], rest);
      assert a == [a[0]] + a[1..];
    }
  }

  /** Splitting undoes joining whenever no line holds a line break. */
  lemma {:induction false} SplitJoinLines(lines: seq<string>)
    requires |lines| >= 1
    requires forall i :: 0 <= i < |lines| ==> '\n' !in lines[i]
    ensures SplitLines(JoinLines(lines)) == lines
    decreases |lines|
  {
    if |lines| == 1 {
      SplitSingleLine(lines[0]);
    } else {
      SplitJoinLines(lines[1..]);
      SplitFirstLine(lines[0], JoinLines(lines[1..]));
      assert lines == [lines[0]] + lines[1..];
    }
  }

  lemma {:induction false} JoinPrependChar(c: char, first: string, rest: seq<string>)
    ensures JoinLines([[c] + first] + rest) == [c] + JoinLines([first] + rest)
  {
    var a, b := [[c] + first] + rest, [first] + rest;
    if |rest| > 0 {
      assert a[1..] == rest && b[1..] == rest;
    }
  }

  /** Joining undoes splitting, for every text. */
  lemma {:induction false} JoinSplitLines(s: string)
    ensures JoinLines(SplitLines(s)) == s
    decreases |s|
  {
    if s != [] {
      var rest := SplitLines(s[1..]);
      JoinSplitLines(s[1..]);
      if s[0] == '\n' {
        assert ([""] + rest)[1..] == rest;
      } else {
        JoinPrependChar(s[0], rest[0], rest[1..]);
        assert rest == [rest[0]] + rest[1..];
      }
    }
  }

  /** Joining can also be read from the end: all but the last line, an LF,
      then the last line. */
  lemma {:induction false} JoinLinesLast(lines: seq<string>)
    requires |lines| >= 2
    ensures JoinLines(lines) == JoinLines(lines[..|lines| - 1]) + "\n" + lines[|lines| - 1]
    decreases |lines|
  {
    if |lines| > 2 {
      JoinLinesLast(lines[1..]);
      assert lines[1..][..|lines| - 2] == lines[..|lines| - 1][1..];
    }
  }

  /** The ten lines of the card, in their fixed order. */
  function CardLines(e: Employee): (lines: seq<string>)
    ensures |lines| == 10
  {
    [ "BEGIN:VCARD",
      "VERSION:3.0",
      "N:" + e.lastName + ";" + e.firstName + ";;;",
      "FN:" + FullName(e),
      "ORG:" + Company,
      TelLine(e.phone),
      "EMAIL;TYPE=WORK:" + e.email,
      "URL;TYPE=WORK:" + e.website,
      "URL;TYPE=PREF:" + ProfileUrl(SlugOf(e)),
      "END:VCARD" ]
  }

  /** Joining at least three lines puts the first two in front, each
      followed by LF. */
  lemma JoinFirstTwo(lines: seq<string>)
    requires |lines| >= 3
    ensures JoinLines(lines) == lines[0] + "\n" + (lines[1] + "\n" + JoinLines(lines[2..]))
  {
    assert lines[1..][0] == lines[1] && lines[1..][1..] == lines[2..];
  }

  // `ConcatRegroup`, `HeaderText` and `FooterText` only help the solver:
  // regrouping concatenations and comparing the literal header and footer
  // are cheap when stated once here over variables, and expensive when
  // left to the solver inside the card proofs.

  /** Concatenation is associative. */
  lemma ConcatRegroup(a: string, b: string, c: string)
    ensures a + (b + c) == a + b + c
  {
  }

  lemma HeaderText(rest: string)
    ensures "BEGIN:VCARD" + "\n" + ("VERSION:3.0" + "\n" + rest) == Header + rest
  {
    var first, second := "BEGIN:VCARD" + "\n", "VERSION:3.0" + "\n";
    assert first + second == Header;
    ConcatRegroup(first, second, rest);
  }

  lemma FooterText()
    ensures "\n" + "END:VCARD" == Footer
  {
  }

  /** The lines BEGIN and VERSION in front join to the header. */
  lemma JoinHeaderLines(rest: seq<string>)
    requires |rest| >= 1
    ensures JoinLines(["BEGIN:VCARD", "VERSION:3.0"] + rest) == Header + JoinLines(rest)
  {
    var lines := ["BEGIN:VCARD", "VERSION:3.0"] + rest;
    JoinFirstTwo(lines);
    assert lines[2..] == rest;
    HeaderText(JoinLines(rest));
  }

  /** A trailing END line joins to the footer. */
  lemma JoinFooterLine(inner: seq<string>)
    requires |inner| >= 1
    ensures JoinLines(inner + ["END:VCARD"]) == JoinLines(inner) + Footer
  {
    var lines := inner + ["END:VCARD"];
    JoinLinesLast(lines);
    assert lines[..|lines| - 1] == inner;
    FooterText();
    ConcatRegroup(JoinLines(inner), "\n", "END:VCARD");
  }

  /** Any card-shaped line sequence joins to the header, the inner lines and
      the footer. */
  lemma CardFrame(inner: seq<string>)
    requires |inner| >= 1
    ensures JoinLines(["BEGIN:VCARD", "VERSION:3.0"] + (inner + ["END:VCARD"]))
            == Header + JoinLines(inner) + Footer
  {
    JoinFooterLine(inner);
    JoinHeaderLines(inner + ["END:VCARD"]);
    ConcatRegroup(Header, JoinLines(inner), Footer);
  }

  /** The card text: the template literal of `generateVCard`, whose ten
      lines are joined by LF with nothing after `END:VCARD`. */
  function GenerateVCard(e: Employee): (card: string)
  {
    JoinLines(CardLines(e))
  }

  /** Every card starts with the BEGIN and VERSION lines, ends with the END
      line, and has no line break after it. */
  lemma CardFramed(e: Employee)
    ensures |GenerateVCard(e)| >= |Header| + |Footer|
    ensures GenerateVCard(e)[..|Header|] == Header
    ensures GenerateVCard(e)[|GenerateVCard(e)| - |Footer|..] == Footer
    ensures GenerateVCard(e)[|GenerateVCard(e)| - 1] != '\n'
  {
    var lines := CardLines(e);
    var inner := lines[2..9];
    assert lines == ["BEGIN:VCARD", "VERSION:3.0"] + (inner + ["END:VCARD"]);
    CardFrame(inner);
  }

  /** No input field that reaches the card holds a line break. */
  predicate NoNewlineFields(e: Employee)
  {
    '\n' !in e.firstName && '\n' !in e.lastName && '\n' !in e.email && '\n' !in e.website
  }

  /** Each line break inside a line adds one to the count; joining adds one
      per gap. The count is the bare minimum exactly when no line holds a
      line break. */
  lemma {:induction false} NewlineCountJoin(lines: seq<string>)
    requires |lines| >= 1
    ensures NewlineCount(JoinLines(lines)) >= |lines| - 1
    ensures NewlineCount(JoinLines(lines)) == |lines| - 1 <==>
              forall i :: 0 <= i < |lines| ==> '\n' !in lines[i]
    decreases |lines|
  {
    NewlineCountZero(lines[0]);
    if |lines| > 1 {
      var rest := lines[1..];
      NewlineCountJoin(rest);
      NewlineCountConcat(lines[0], "\n" + JoinLines(rest));
      NewlineCountConcat("\n", JoinLines(rest));
      assert lines[0] + "\n" + JoinLines(rest) == lines[0] + ("\n" + JoinLines(rest));
      assert forall i :: 1 <= i < |lines| ==> lines[i] == rest[i - 1];
    }
  }

  lemma {:induction false} NewlineInLower(s: string)
    ensures '\n' in Lower(s) <==> '\n' in s
  {
    NewlineCountLower(s);
    NewlineCountZero(s);
    NewlineCountZero(Lower(s));
  }

  /** The profile address holds a line break exactly when a name does. */
  lemma NewlineInProfileUrl(e: Employee)
    ensures '\n' in ProfileUrl(SlugOf(e)) <==> '\n' in e.firstName || '\n' in e.lastName
  {
    var slug := SlugOf(e);
    SlugIsJoinOfLowerNames(e.firstName, e.lastName);
    NewlineInLower(e.firstName);
    NewlineInLower(e.lastName);
    assert slug == Lower(e.firstName) + "-" + Lower(e.lastName);
    assert ProfileUrl(slug) == (BaseUrl + "/") + slug + ".html";
    assert '\n' !in BaseUrl + "/" && '\n' !in ".html";
  }

  /** A line break occurs in a concatenation exactly when it occurs in a
      part. */
  lemma NewlineInConcat(a: string, b: string)
    ensures '\n' in a + b <==> '\n' in a || '\n' in b
  {
    NewlineCountConcat(a, b);
    NewlineCountZero(a);
    NewlineCountZero(b);
    NewlineCountZero(a + b);
  }

  /** The structured name holds a line break exactly when a name does. */
  lemma NewlineInStructuredName(e: Employee)
    ensures '\n' in FieldsOf(e).name <==> '\n' in e.lastName || '\n' in e.firstName
  {
    var l, f := e.lastName, e.firstName;
    NewlineInConcat(l, ";");
    NewlineInConcat(l + ";", f);
    NewlineInConcat(l + ";" + f, ";;;");
  }

  /** No field value of the record holds a line break. */
  predicate FieldsOnOneLine(f: CardFields)
  {
    '\n' !in f.name && '\n' !in f.formattedName && '\n' !in f.org && '\n' !in f.tel
    && '\n' !in f.email && '\n' !in f.workUrl && '\n' !in f.prefUrl
  }

  /** Rendering single-line fields gives single-line card lines. */
  lemma RenderedLinesFreeOfNewlines(f: CardFields)
    requires FieldsOnOneLine(f)
    ensures forall i :: 0 <= i < |RenderLines(f)| ==> '\n' !in RenderLines(f)[i]
  {
    NewlineInConcat(NameKey, f.name);
    NewlineInConcat(FormattedNameKey, f.formattedName);
    NewlineInConcat(OrgKey, f.org);
    NewlineInConcat(TelKey, f.tel);
    NewlineInConcat(EmailKey, f.email);
    NewlineInConcat(WorkUrlKey, f.workUrl);
    NewlineInConcat(PrefUrlKey, f.prefUrl);
  }

  /** The card fields are single-line exactly when the employee fields the
      card uses are. */
  lemma FieldsOfOneLine(e: Employee)
    ensures FieldsOnOneLine(FieldsOf(e)) <==> NoNewlineFields(e)
  {
    var f := FieldsOf(e);
    NewlineInStructuredName(e);
    NewlineInConcat(e.firstName + " ", e.lastName);
    NewlineInConcat(e.firstName, " ");
    NewlineInProfileUrl(e);
    assert '\n' !in Digits(e.phone);
  }

  /** A field value holding a line break carries it into its card line. */
  lemma RenderedLineWithNewline(f: CardFields)
    requires !FieldsOnOneLine(f)
    ensures exists i :: 0 <= i < |RenderLines(f)| && '\n' in RenderLines(f)[i]
  {
    var ls := RenderLines(f);
    if '\n' in f.name {
      NewlineInConcat(NameKey, f.name);
      assert '\n' in ls[2];
    } else if '\n' in f.formattedName {
      NewlineInConcat(FormattedNameKey, f.formattedName);
      assert '\n' in ls[3];
    } else if '\n' in f.org {
      NewlineInConcat(OrgKey, f.org);
      assert '\n' in ls[4];
    } else if '\n' in f.tel {
      NewlineInConcat(TelKey, f.tel);
      assert '\n' in ls[5];
    } else if '\n' in f.email {
      NewlineInConcat(EmailKey, f.email);
      assert '\n' in ls[6];
    } else if '\n' in f.workUrl {
      NewlineInConcat(WorkUrlKey, f.workUrl);
      assert '\n' in ls[7];
    } else {
      NewlineInConcat(PrefUrlKey, f.prefUrl);
      assert '\n' in ls[8];
    }
  }

  lemma CardLinesFreeOfNewlines(e: Employee)
    requires NoNewlineFields(e)
    ensures forall i :: 0 <= i < 10 ==> '\n' !in CardLines(e)[i]
  {
    CardLinesRenderFields(e);
    FieldsOfOneLine(e);
    RenderedLinesFreeOfNewlines(FieldsOf(e));
  }

  lemma FieldNewlineReachesCardLines(e: Employee)
    requires !NoNewlineFields(e)
    ensures exists i :: 0 <= i < 10 && '\n' in CardLines(e)[i]
  {
    CardLinesRenderFields(e);
    FieldsOfOneLine(e);
    RenderedLineWithNewline(FieldsOf(e));
  }

  /** The card lines are free of line breaks exactly when the fields are. */
  lemma CardLinesNewlineFree(e: Employee)
    ensures (forall i :: 0 <= i < 10 ==> '\n' !in CardLines(e)[i]) <==> NoNewlineFields(e)
  {
    if NoNewlineFields(e) {
      CardLinesFreeOfNewlines(e);
    } else {
      FieldNewlineReachesCardLines(e);
    }
  }

  /** The card has exactly ten lines precisely when no field holds a line
      break; then its lines are the ten card lines in order. A line break in
      a field is copied unescaped and yields extra lines. */
  lemma CardLineCount(e: Employee)
    ensures |SplitLines(GenerateVCard(e))| == 10 <==> NoNewlineFields(e)
    ensures NoNewlineFields(e) ==> SplitLines(GenerateVCard(e)) == CardLines(e)
  {
    CardLinesNewlineFree(e);
    SplitLinesCount(GenerateVCard(e));
    NewlineCountJoin(CardLines(e));
    if NoNewlineFields(e) {
      SplitJoinLines(CardLines(e));
    }
  }

  /** The values a card carries, one per content line, as a reader of the
      card sees them. */
  datatype CardFields = CardFields(
    name: string,
    formattedName: string,
    org: string,
    tel: string,
    email: string,
    workUrl: string,
    prefUrl: string)

  /** The fields an employee's card is meant to carry: the structured name
      last name first, the full name, the company, +1 and the phone digits,
      the email, the company website and the profile address. */
  function FieldsOf(e: Employee): CardFields
  {
    CardFields(
      e.lastName + ";" + e.firstName + ";;;",
      FullName(e),
      Company,
      "+1" + Digits(e.phone),
      e.email,
      e.website,
      ProfileUrl(SlugOf(e)))
  }

  /** The value after `key` when the line starts with it. */
  function FieldValue(line: string, key: string): Option<string>
  {
    if |key| <= |line| && line[..|key|] == key then Some(line[|key|..]) else None
  }

  const NameKey := "N:"
  const FormattedNameKey := "FN:"
  const OrgKey := "ORG:"
  const TelKey := "TEL;TYPE=CELL:"
  const EmailKey := "EMAIL;TYPE=WORK:"
  const WorkUrlKey := "URL;TYPE=WORK:"
  const PrefUrlKey := "URL;TYPE=PREF:"

  /** Reads a card back: ten lines, the fixed framing, and each content line
      under its fixed key; None for any other text. */
  function ParseCard(text: string): Option<CardFields>
  {
    var ls := SplitLines(text);
    if |ls| != 10 || ls[0] != "BEGIN:VCARD" || ls[1] != "VERSION:3.0" || ls[9] != "END:VCARD" then None
    else
      var n := FieldValue(ls[2], NameKey);
      var fn := FieldValue(ls[3], FormattedNameKey);
      var org := FieldValue(ls[4], OrgKey);
      var tel := FieldValue(ls[5], TelKey);
      var email := FieldValue(ls[6], EmailKey);
      var work := FieldValue(ls[7], WorkUrlKey);
      var pref := FieldValue(ls[8], PrefUrlKey);
      if n.None? || fn.None? || org.None? || tel.None? || email.None? || work.None? || pref.None? then None
      else Some(CardFields(n.value, fn.value, org.value, tel.value, email.value, work.value, pref.value))
  }

  /** The ten lines that carry the given field values. */
  function RenderLines(f: CardFields): seq<string>
  {
    [ "BEGIN:VCARD",
      "VERSION:3.0",
      NameKey + f.name,
      FormattedNameKey + f.formattedName,
      OrgKey + f.org,
      TelKey + f.tel,
      EmailKey + f.email,
      WorkUrlKey + f.workUrl,
      PrefUrlKey + f.prefUrl,
      "END:VCARD" ]
  }

  lemma FieldValueOfKeyed(key: string, v: string)
    ensures FieldValue(key + v, key) == Some(v)
  {
    assert (key + v)[..|key|] == key && (key + v)[|key|..] == v;
  }

  /** The card lines are the rendering of the employee's fields. */
  lemma CardLinesRenderFields(e: Employee)
    ensures CardLines(e) == RenderLines(FieldsOf(e))
  {
    var f := FieldsOf(e);
    assert "N:" + e.lastName + ";" + e.firstName + ";;;" == NameKey + f.name;
    assert TelLine(e.phone) == TelKey + f.tel;
    assert "URL;TYPE=PREF:" + ProfileUrl(SlugOf(e)) == PrefUrlKey + f.prefUrl;
  }

  /** The card text is the rendering of the employee's fields. */
  lemma CardRendersFields(e: Employee)
    ensures GenerateVCard(e) == JoinLines(RenderLines(FieldsOf(e)))
  {
    CardLinesRenderFields(e);
  }

  /** Round trip: reading a generated card gives back the employee's fields
      exactly when no field holds a line break, and fails otherwise. */
  lemma CardRoundTrip(e: Employee)
    ensures ParseCard(GenerateVCard(e)) == if NoNewlineFields(e) then Some(FieldsOf(e)) else None
  {
    CardLineCount(e);
    if NoNewlineFields(e) {
      var f := FieldsOf(e);
      var ls := SplitLines(GenerateVCard(e));
      CardLinesRenderFields(e);
      assert ls == RenderLines(f);
      FieldValueOfKeyed(NameKey, f.name);
      FieldValueOfKeyed(FormattedNameKey, f.formattedName);
      FieldValueOfKeyed(OrgKey, f.org);
      FieldValueOfKeyed(TelKey, f.tel);
      FieldValueOfKeyed(EmailKey, f.email);
      FieldValueOfKeyed(WorkUrlKey, f.workUrl);
      FieldValueOfKeyed(PrefUrlKey, f.prefUrl);
    }
  }

  /** A reader of the card finds the structured name last name first, the
      full name first name first, the company as organisation, and +1 before
      the phone digits. */
  lemma CardNameFields(e: Employee)
    requires NoNewlineFields(e)
    ensures ParseCard(GenerateVCard(e)).Some?
    ensures ParseCard(GenerateVCard(e)).value.name == e.lastName + ";" + e.firstName + ";;;"
    ensures ParseCard(GenerateVCard(e)).value.formattedName == e.firstName + " " + e.lastName
    ensures ParseCard(GenerateVCard(e)).value.org == Company
    ensures ParseCard(GenerateVCard(e)).value.tel == "+1" + Digits(e.phone)
  {
    CardRoundTrip(e);
  }

  /** Conversely, a text the reader accepts is exactly the rendering of the
      fields it yields: the card grammar admits no other spelling. */
  lemma ParsedCardIsRendered(text: string)
    requires ParseCard(text).Some?
    ensures JoinLines(RenderLines(ParseCard(text).value)) == text
  {
    var ls := SplitLines(text);
    var f := ParseCard(text).value;
    forall i | 2 <= i < 9
      ensures ls[i] == RenderLines(f)[i]
    {
      var key := [NameKey, FormattedNameKey, OrgKey, TelKey, EmailKey, WorkUrlKey, PrefUrlKey][i - 2];
      assert ls[i] == ls[i][..|key|] + ls[i][|key|..];
    }
    assert ls == RenderLines(f);
    JoinSplitLines(text);
  }

  /** The card does not depend on the unused `linkedin` field. */
  lemma CardIgnoresLinkedIn(e: Employee, other: string)
    ensures GenerateVCard(e.(linkedin := other)) == GenerateVCard(e)
  {
  }
}
