/** The naming convention shared by both generated artifacts: the slug, the
    profile URL built from it, and the two output file names. */
module Slug {
  import opened Wrappers
  import opened Ascii
  import opened Roster

  /** `toSlug`: the two names joined by a hyphen, then lower-cased. */
  function ToSlug(first: string, last: string): (slug: string)
    ensures |slug| == |first| + |last| + 1
    ensures slug[..|first|] == Lower(first)
    ensures slug[|first|] == '-'
    ensures slug[|first| + 1..] == Lower(last)
    ensures NoUpper(slug)
  {
    var joined := first + "-" + last;
    assert joined[..|first|] == first && joined[|first| + 1..] == last;
    Lower(joined)
  }

  /** The slug of one employee: used for the file stems and the URL path. */
  function SlugOf(e: Employee): string
  {
    ToSlug(e.firstName, e.lastName)
  }

  /** Lower-casing the slug again changes nothing. */
  lemma SlugIsLowerCase(first: string, last: string)
    ensures Lower(ToSlug(first, last)) == ToSlug(first, last)
  {
    LowerOfNoUpper(ToSlug(first, last));
  }

  /** For names already in lower case the slug is the plain hyphen join. */
  lemma SlugOfLowerCaseNames(first: string, last: string)
    requires NoUpper(first) && NoUpper(last)
    ensures ToSlug(first, last) == first + "-" + last
  {
    LowerOfNoUpper(first);
    LowerOfNoUpper(last);
    var slug := ToSlug(first, last);
    assert slug == slug[..|first|] + [slug[|first|]] + slug[|first| + 1..];
  }

  /** The slug is the lower-cased first name, a hyphen and the lower-cased
      last name. */
  lemma SlugIsJoinOfLowerNames(first: string, last: string)
    ensures ToSlug(first, last) == Lower(first) + "-" + Lower(last)
  {
    var slug := ToSlug(first, last);
    assert slug == slug[..|first|] + [slug[|first|]] + slug[|first| + 1..];
  }

  /** The slug ignores the case of the names. */
  lemma SlugIgnoresCase(first: string, last: string)
    ensures ToSlug(first, last) == ToSlug(Lower(first), Lower(last))
  {
    SlugIsJoinOfLowerNames(first, last);
    SlugIsJoinOfLowerNames(Lower(first), Lower(last));
    LowerIdempotent(first);
    LowerIdempotent(last);
  }

  /** Without a hyphen in the first name, the joining hyphen is the first
      hyphen of the slug. */
  lemma JoiningHyphenIsFirst(first: string, last: string)
    requires '-' !in first
    ensures forall i :: 0 <= i < |first| ==> ToSlug(first, last)[i] != '-'
  {
    forall i | 0 <= i < |first|
      ensures ToSlug(first, last)[i] != '-'
    {
      assert first[i] in first;
      LowerCharFixes(first[i]);
      assert ToSlug(first, last)[i] == Lower(first)[i];
    }
  }

  /** When neither first name contains a hyphen, two slugs coincide exactly
      when the names agree up to case. */
  lemma SlugInjectiveWithoutHyphen(f1: string, l1: string, f2: string, l2: string)
    requires '-' !in f1 && '-' !in f2
    ensures ToSlug(f1, l1) == ToSlug(f2, l2) <==>
              Lower(f1) == Lower(f2) && Lower(l1) == Lower(l2)
  {
    var s1, s2 := ToSlug(f1, l1), ToSlug(f2, l2);
    if s1 == s2 {
      JoiningHyphenIsFirst(f1, l1);
      JoiningHyphenIsFirst(f2, l2);
      assert s1[|f1|] == '-' && s2[|f2|] == '-';
      assert |f1| == |f2|;
    }
    SlugIsJoinOfLowerNames(f1, l1);
    SlugIsJoinOfLowerNames(f2, l2);
  }

  /** A hyphen inside a name lets two different name pairs share a slug, and
      so share both output files. */
  lemma SlugCollision()
    ensures ToSlug("Mary-Ann", "Lee") == ToSlug("Mary", "Ann-Lee") == "mary-ann-lee"
  {
    CollidingJoins();
    CollidingPartsLowered();
    CollidingSlugText();
    LowerOfThreeParts("Mary-", "Ann-", "Lee", "Mary-Ann-Lee", "mary-", "ann-", "lee", "mary-ann-lee");
  }

  /** Lower-casing a string in three parts lower-cases each part. */
  lemma LowerOfThreeParts(a: string, b: string, c: string, whole: string,
                          la: string, lb: string, lc: string, lower: string)
    requires a + b + c == whole && la + lb + lc == lower
    requires Lower(a) == la && Lower(b) == lb && Lower(c) == lc
    ensures Lower(whole) == lower
  {
    LowerConcat(a, b);
    LowerConcat(a + b, c);
  }

  // Small facts about string literals, one per lemma, so that the solver
  // never has to compare long literals in one step; `SlugCollision`
  // combines them through `LowerOfThreeParts`. Both ways of splitting
  // "Mary-Ann-Lee" into names join to the same text.
  lemma CollidingJoins()
    ensures "Mary-Ann" + "-" + "Lee" == "Mary-Ann-Lee"
    ensures "Mary" + "-" + "Ann-Lee" == "Mary-Ann-Lee"
    ensures "Mary-" + "Ann-" + "Lee" == "Mary-Ann-Lee"
  {
  }

  lemma CollidingPartsLowered()
    ensures Lower("Mary-") == "mary-" && Lower("Ann-") == "ann-" && Lower("Lee") == "lee"
  {
  }

  lemma CollidingSlugText()
    ensures "mary-" + "ann-" + "lee" == "mary-ann-lee"
  {
  }

  /** The profile page address: base URL, '/', the slug, ".html". */
  function ProfileUrl(slug: string): string
  {
    BaseUrl + "/" + slug + ".html"
  }

  const UrlPrefix := BaseUrl + "/"
  const UrlSuffix := ".html"

  /** Recovers the slug from a profile address, or None when the address does
      not follow the convention. */
  function SlugOfProfileUrl(url: string): Option<string>
  {
    if |url| >= |UrlPrefix| + |UrlSuffix|
       && url[..|UrlPrefix|] == UrlPrefix
       && url[|url| - |UrlSuffix|..] == UrlSuffix
    then Some(url[|UrlPrefix|..|url| - |UrlSuffix|])
    else None
  }

  /** Round trip: the slug is read back out of its profile address. */
  lemma ProfileUrlRoundTrip(slug: string)
    ensures SlugOfProfileUrl(ProfileUrl(slug)) == Some(slug)
  {
    var url := ProfileUrl(slug);
    assert url == UrlPrefix + slug + UrlSuffix;
    assert url[..|UrlPrefix|] == UrlPrefix;
    assert url[|url| - |UrlSuffix|..] == UrlSuffix;
    assert url[|UrlPrefix|..|url| - |UrlSuffix|] == slug;
  }

  /** Conversely, an address the parser accepts is the profile address of the
      slug it yields: the convention has no other spelling. */
  lemma ProfileUrlOfParsedSlug(url: string)
    requires SlugOfProfileUrl(url).Some?
    ensures ProfileUrl(SlugOfProfileUrl(url).value) == url
  {
    var slug := SlugOfProfileUrl(url).value;
    assert url == url[..|UrlPrefix|] + slug + url[|url| - |UrlSuffix|..];
  }

  /** Name of the QR image inside the qr directory. */
  function QrFileName(slug: string): string
  {
    slug + "-qr.png"
  }

  /** Name of the contact card inside the vcards directory. */
  function VCardFileName(slug: string): string
  {
    slug + ".vcf"
  }

  /** Both file names have the slug as their stem, and each name determines
      the slug: equal names mean equal slugs and vice versa. */
  lemma FileNamesShareStem(slug: string, other: string)
    ensures QrFileName(slug)[..|slug|] == slug && VCardFileName(slug)[..|slug|] == slug
    ensures QrFileName(slug) == QrFileName(other) <==> slug == other
    ensures VCardFileName(slug) == VCardFileName(other) <==> slug == other
  {
    if QrFileName(slug) == QrFileName(other) {
      assert slug == QrFileName(slug)[..|slug|] == QrFileName(other)[..|other|];
    }
    if VCardFileName(slug) == VCardFileName(other) {
      assert slug == VCardFileName(slug)[..|slug|] == VCardFileName(other)[..|other|];
    }
  }
}
