/** What the batch produces for the five entries compiled into the
    generator. */
module RosterAssets {
  import opened Wrappers
  import opened Ascii
  import opened Phone
  import opened Roster
  import opened Slug
  import opened VCard
  import opened Assets

  lemma {:induction false} DixonSlugFromNames(first: string, last: string)
    requires first == "John" && last == "Dixon"
    ensures ToSlug(first, last) == "john-dixon"
  {
    assert Lower(first) == "john" && Lower(last) == "dixon";
    SlugIsJoinOfLowerNames(first, last);
  }

  /** The worked example: ("John", "Dixon") gives "john-dixon". */
  lemma JohnDixonSlug()
    ensures SlugOf(Employees[0]) == "john-dixon"
  {
    DixonSlugFromNames(Employees[0].firstName, Employees[0].lastName);
  }

  /** The length of a slug and its first character, read off the names. */
  lemma SlugShape(e: Employee)
    requires |e.firstName| > 0
    ensures |SlugOf(e)| == |e.firstName| + |e.lastName| + 1
    ensures SlugOf(e)[0] == LowerChar(e.firstName[0])
  {
    assert SlugOf(e)[..|e.firstName|][0] == SlugOf(e)[0];
  }

  /** Entries whose name lengths add up differently, or whose first names
      start with different letters (ignoring case), have distinct slugs. */
  lemma DistinctSlugsByShape(roster: seq<Employee>)
    requires forall i :: 0 <= i < |roster| ==> |roster[i].firstName| > 0
    requires forall i, j :: 0 <= i < j < |roster| ==>
               |roster[i].firstName| + |roster[i].lastName| != |roster[j].firstName| + |roster[j].lastName|
               || LowerChar(roster[i].firstName[0]) != LowerChar(roster[j].firstName[0])
    ensures DistinctSlugs(roster)
  {
    forall i, j | 0 <= i < j < |roster|
      ensures SlugOf(roster[i]) != SlugOf(roster[j])
    {
      SlugShape(roster[i]);
      SlugShape(roster[j]);
    }
  }

  /** No two entries of the roster share a slug, so the batch writes ten
      distinct files and overwrites none. */
  lemma RosterWritesTenFiles()
    ensures DistinctSlugs(Employees)
    ensures |GenerateAll(Employees)| == 10
  {
    DistinctSlugsByShape(Employees);
    FileCountMatchesRoster(Employees);
  }

  lemma {:induction false} DixonProfileUrl(slug: string)
    requires slug == "john-dixon"
    ensures ProfileUrl(slug) == "https://cards.shipwright.biz/john-dixon.html"
  {
  }

  /** The QR image of the first entry encodes its profile address. */
  lemma JohnDixonQrPayload()
    ensures QrPayload(Employees[0]) == "https://cards.shipwright.biz/john-dixon.html"
  {
    JohnDixonSlug();
    DixonProfileUrl(SlugOf(Employees[0]));
  }

  /** The field values of the first entry's card. */
  const DixonFields := CardFields(
    "Dixon;John;;;",
    "John Dixon",
    "Shipwright",
    "+19542490127",
    "jdixon@shipwright.biz",
    "https://www.shipwright.biz",
    "https://cards.shipwright.biz/john-dixon.html")

  lemma {:induction false} DixonFieldsFromParts(e: Employee)
    requires e.firstName == "John" && e.lastName == "Dixon"
    requires e.email == "jdixon@shipwright.biz" && e.website == "https://www.shipwright.biz"
    requires Digits(e.phone) == "9542490127"
    requires ProfileUrl(SlugOf(e)) == "https://cards.shipwright.biz/john-dixon.html"
    ensures FieldsOf(e) == DixonFields
  {
    DixonStructuredName(e.firstName, e.lastName);
    DixonFullName(e.firstName, e.lastName);
    DixonTelValue(Digits(e.phone));
  }

  lemma DixonStructuredName(first: string, last: string)
    requires first == "John" && last == "Dixon"
    ensures last + ";" + first + ";;;" == "Dixon;John;;;"
  {
  }

  lemma DixonFullName(first: string, last: string)
    requires first == "John" && last == "Dixon"
    ensures first + " " + last == "John Dixon"
  {
  }

  lemma DixonTelValue(digits: string)
    requires digits == "9542490127"
    ensures "+1" + digits == "+19542490127"
  {
  }

  lemma {:induction false} DixonFieldsHaveNoNewlines(e: Employee)
    requires e.firstName == "John" && e.lastName == "Dixon"
    requires e.email == "jdixon@shipwright.biz" && e.website == "https://www.shipwright.biz"
    ensures NoNewlineFields(e)
  {
  }

  /** The card of the first entry carries exactly the expected values: the
      structured name "Dixon;John;;;", the full name "John Dixon", the cell
      number +19542490127, the work email and the profile address. */
  lemma JohnDixonCard(e: Employee)
    requires e == Employees[0]
    ensures FieldsOf(e) == DixonFields
    ensures ParseCard(GenerateVCard(e)) == Some(DixonFields)
    ensures GenerateVCard(e) == JoinLines(RenderLines(DixonFields))
  {
    JohnDixonQrPayload();
    DigitsOfDashedNumber();
    DixonFieldsFromParts(e);
    DixonFieldsHaveNoNewlines(e);
    CardRoundTrip(e);
    CardRendersFields(e);
  }
}
