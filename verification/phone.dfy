/** Phone normalisation (`employee.phone.replace(/\D/g, '')`) and the TEL
    line of the contact card built from it. There is no length check: any
    number of digits, zero included, produces a line. */
module Phone {
  import opened Ascii

  /** The phone number with every character other than '0'..'9' removed. */
  function Digits(phone: string): (r: string)
    ensures AllDigits(r)
    ensures |r| <= |phone|
  {
    if phone == [] then []
    else (if IsDigit(phone[0]) then [phone[0]] else []) + Digits(phone[1..])
  }

  /** `sub` can be obtained from `s` by deleting characters, keeping order. */
  predicate IsSubsequence(sub: string, s: string)
  {
    if sub == [] then true
    else if s == [] then false
    else (sub[0] == s[0] && IsSubsequence(sub[1..], s[1..])) || IsSubsequence(sub, s[1..])
  }

  /** The number of positions of `s` holding a digit. */
  function CountDigits(s: string): nat
  {
    if s == [] then 0 else (if IsDigit(s[0]) then 1 else 0) + CountDigits(s[1..])
  }

  /** A digit-only subsequence of `s` is no longer than the digits of `s`. */
  lemma {:induction false} DigitSubsequenceBound(sub: string, s: string)
    requires AllDigits(sub) && IsSubsequence(sub, s)
    ensures |sub| <= CountDigits(s)
    decreases |s|
  {
    if sub == [] {
    } else if sub[0] == s[0] && IsSubsequence(sub[1..], s[1..]) {
      DigitSubsequenceBound(sub[1..], s[1..]);
    } else {
      DigitSubsequenceBound(sub, s[1..]);
    }
  }

  /** `Digits` keeps every digit, in order, and nothing else. */
  lemma {:induction false} DigitsIsFullDigitSubsequence(phone: string)
    ensures IsSubsequence(Digits(phone), phone)
    ensures |Digits(phone)| == CountDigits(phone)
    decreases |phone|
  {
    if phone != [] {
      var rest := phone[1..];
      DigitsIsFullDigitSubsequence(rest);
      if IsDigit(phone[0]) {
        assert Digits(phone) == [phone[0]] + Digits(rest);
        assert Digits(phone)[1..] == Digits(rest);
      } else {
        assert Digits(phone) == Digits(rest);
      }
    }
  }

  /** Any digit-only subsequence of the input that is as long as its digit
      count is the result of `Digits`. */
  lemma {:induction false} FullDigitSubsequenceIsDigits(phone: string, r: string)
    requires AllDigits(r) && IsSubsequence(r, phone) && |r| == CountDigits(phone)
    ensures r == Digits(phone)
    decreases |phone|
  {
    if phone == [] {
    } else {
      var rest := phone[1..];
      if r == [] {
        FullDigitSubsequenceIsDigits(rest, r);
      } else if r[0] == phone[0] && IsSubsequence(r[1..], rest) {
        if IsDigit(phone[0]) {
          FullDigitSubsequenceIsDigits(rest, r[1..]);
          assert r == [r[0]] + r[1..];
        } else {
          assert false;
        }
      } else {
        assert IsSubsequence(r, rest);
        if IsDigit(phone[0]) {
          DigitSubsequenceBound(r, rest);
          assert false;
        } else {
          FullDigitSubsequenceIsDigits(rest, r);
        }
      }
    }
  }

  /** `Digits` is characterised without reference to its definition: its
      result is THE digit-only subsequence of the input that keeps every
      digit. No other string has these three properties. */
  lemma DigitsCharacterised(phone: string, r: string)
    ensures r == Digits(phone) <==>
              AllDigits(r) && IsSubsequence(r, phone) && |r| == CountDigits(phone)
  {
    DigitsIsFullDigitSubsequence(phone);
    if AllDigits(r) && IsSubsequence(r, phone) && |r| == CountDigits(phone) {
      FullDigitSubsequenceIsDigits(phone, r);
    }
  }

  /** Stripping distributes over concatenation. */
  lemma {:induction false} DigitsConcat(a: string, b: string)
    ensures Digits(a + b) == Digits(a) + Digits(b)
    decreases |a|
  {
    if a == [] {
      assert a + b == b;
    } else {
      var head := if IsDigit(a[0]) then [a[0]] else [];
      assert (a + b)[0] == a[0] && (a + b)[1..] == a[1..] + b;
      assert Digits(a + b) == head + Digits(a[1..] + b);
      DigitsConcat(a[1..], b);
      assert Digits(a) == head + Digits(a[1..]);
    }
  }

  /** A string of digits is left unchanged. */
  lemma {:induction false} DigitsOfAllDigits(s: string)
    requires AllDigits(s)
    ensures Digits(s) == s
    decreases |s|
  {
    if s != [] {
      DigitsOfAllDigits(s[1..]);
    }
  }

  /** Stripping twice is the same as stripping once. */
  lemma DigitsIdempotent(phone: string)
    ensures Digits(Digits(phone)) == Digits(phone)
  {
    DigitsOfAllDigits(Digits(phone));
  }

  /** Stripping a string in three parts strips each part. */
  lemma DigitsOfThreeParts(a: string, b: string, c: string, whole: string,
                           da: string, db: string, dc: string, digits: string)
    requires a + b + c == whole && da + db + dc == digits
    requires Digits(a) == da && Digits(b) == db && Digits(c) == dc
    ensures Digits(whole) == digits
  {
    DigitsConcat(a, b);
    DigitsConcat(a + b, c);
  }

  // Small facts about string literals, one per lemma. The solver handles
  // equalities between long literals poorly; stated one at a time over
  // short pieces and combined through `DigitsOfThreeParts`, they stay
  // cheap. The pieces are the groups of the roster's first number.
  lemma DigitsOfDashedAreaCode() ensures Digits("954-") == "954" {}
  lemma DigitsOfBracketedAreaCode() ensures Digits("(954) ") == "954" {}
  lemma DigitsOfExchange() ensures Digits("249-") == "249" {}
  lemma DigitsOfLineNumber() ensures Digits("0127") == "0127" {}
  lemma DashedGroups() ensures "954-" + "249-" + "0127" == "954-249-0127" {}
  lemma BracketedGroups() ensures "(954) " + "249-" + "0127" == "(954) 249-0127" {}
  lemma PlainGroups() ensures "954" + "249" + "0127" == "9542490127" {}
  lemma ShortGroups() ensures Digits("954") == "954" && Digits("249") == "249" {}

  lemma DigitsOfDashedNumber()
    ensures Digits("954-249-0127") == "9542490127"
  {
    DigitsOfDashedAreaCode();
    DigitsOfExchange();
    DigitsOfLineNumber();
    DashedGroups();
    PlainGroups();
    DigitsOfThreeParts("954-", "249-", "0127", "954-249-0127", "954", "249", "0127", "9542490127");
  }

  lemma DigitsOfBracketedNumber()
    ensures Digits("(954) 249-0127") == "9542490127"
  {
    DigitsOfBracketedAreaCode();
    DigitsOfExchange();
    DigitsOfLineNumber();
    BracketedGroups();
    PlainGroups();
    DigitsOfThreeParts("(954) ", "249-", "0127", "(954) 249-0127", "954", "249", "0127", "9542490127");
  }

  lemma DigitsOfPlainNumber()
    ensures Digits("9542490127") == "9542490127"
  {
    DigitsOfLineNumber();
    ShortGroups();
    PlainGroups();
    DigitsOfThreeParts("954", "249", "0127", "9542490127", "954", "249", "0127", "9542490127");
  }

  /** The three spellings of one number in the roster's style normalise alike. */
  lemma DigitsFormatAgnostic()
    ensures Digits("954-249-0127") == "9542490127"
    ensures Digits("(954) 249-0127") == "9542490127"
    ensures Digits("9542490127") == "9542490127"
  {
    DigitsOfDashedNumber();
    DigitsOfBracketedNumber();
    DigitsOfPlainNumber();
  }

  const TelPrefix := "TEL;TYPE=CELL:+1"

  /** The TEL line of the card: a cell-phone entry with the country code +1
      in front of the stripped digits. */
  function TelLine(phone: string): string
  {
    TelPrefix + Digits(phone)
  }

  /** Every phone string yields a TEL line, whatever its digit count; the
      line is the fixed prefix followed by digits only, and its length
      grows with the number of digits in the input. */
  lemma TelLineNoLengthCheck(phone: string)
    ensures |TelLine(phone)| == |TelPrefix| + CountDigits(phone)
    ensures TelLine(phone)[..|TelPrefix|] == TelPrefix
    ensures AllDigits(TelLine(phone)[|TelPrefix|..])
  {
    DigitsIsFullDigitSubsequence(phone);
    assert TelLine(phone)[|TelPrefix|..] == Digits(phone);
  }

  lemma TelTextOfFirstNumber()
    ensures TelPrefix + "9542490127" == "TEL;TYPE=CELL:+19542490127"
  {
  }

  /** The three spellings of the roster's first number give the same TEL
      line. */
  lemma TelLineFormatAgnostic(phone: string)
    requires phone == "954-249-0127" || phone == "(954) 249-0127" || phone == "9542490127"
    ensures TelLine(phone) == "TEL;TYPE=CELL:+19542490127"
  {
    DigitsFormatAgnostic();
    TelTextOfFirstNumber();
  }

  /** A seven-digit number still produces a line: nothing rejects it. */
  lemma TelLineShortNumber()
    ensures TelLine("249-0127") == "TEL;TYPE=CELL:+12490127"
  {
  }
}
