/**
 * The validators and formatters of the identity flow: national-ID and mobile-phone checks,
 * the "09X XXX XXX" display grouping, masking of the middle group, and the 6-digit code check.
 * All are total functions on strings; malformed input gives `false` or the input back.
 */
module Validation {
  import opened Text

  /** The characters `/[\s-]/` matches: whitespace and the dash, and so never a digit. */
  predicate IsSeparator(c: char): (sep: bool)
    ensures c == '-' ==> sep
    ensures sep ==> !IsDigit(c)
  {
    IsWhitespace(c) || c == '-'
  }

  predicate NotSeparator(c: char) {
    !IsSeparator(c)
  }

  /** `s.replace(/[\s-]/g, '')`: the input with every whitespace and dash removed. */
  function Clean(s: string): (c: string)
    ensures forall i :: 0 <= i < |c| ==> !IsSeparator(c[i])
  {
    Keep(s, NotSeparator)
  }

  lemma CleanConcat(a: string, b: string)
    ensures Clean(a + b) == Clean(a) + Clean(b)
  {
    KeepConcat(a, b, NotSeparator);
  }

  /** A string without separators (in particular any string of digits) is already clean. */
  lemma CleanUnchanged(s: string)
    requires forall i :: 0 <= i < |s| ==> !IsSeparator(s[i])
    ensures Clean(s) == s
  {
    KeepAll(s, NotSeparator);
  }

  lemma CleanDigits(s: string)
    requires AllDigits(s)
    ensures Clean(s) == s
  {
    CleanUnchanged(s);
  }

  /** Cleaning is idempotent. */
  lemma CleanClean(s: string)
    ensures Clean(Clean(s)) == Clean(s)
  {
    CleanUnchanged(Clean(s));
  }

  /** `validateUruguayanId`: the cleaned input is exactly 8 ASCII digits. */
  function ValidateId(id: string): (ok: bool)
    ensures ok <==> |Clean(id)| == 8 && AllDigits(Clean(id))
  {
    MatchesDigits(Clean(id), 8)
  }

  /** `validateUruguayanPhone`: the cleaned input is "09" followed by exactly 7 ASCII digits. */
  function ValidatePhone(phone: string): (ok: bool)
    ensures ok <==> var c := Clean(phone);
                    |c| == 9 && c[0] == '0' && c[1] == '9' && AllDigits(c)
  {
    var c := Clean(phone);
    |c| >= 2 && c[0] == '0' && c[1] == '9' && MatchesDigits(c[2..], 7)
  }

  /** Three groups of 3, 3 and 3 characters separated by single spaces. */
  predicate Grouped(s: string) {
    |s| == 11 && s[3] == ' ' && s[7] == ' '
  }

  /**
   * `formatPhoneNumber`: when the cleaned input has 9 characters, it is shown as three groups
   * of three; any other input is returned unchanged. The two inserted spaces are the only
   * difference between the result and the cleaned input.
   */
  function FormatPhone(phone: string): (r: string)
    ensures |Clean(phone)| != 9 ==> r == phone
    ensures |Clean(phone)| == 9 ==> Grouped(r) && r[..3] + r[4..7] + r[8..] == Clean(phone)
  {
    var c := Clean(phone);
    if |c| != 9 then phone
    else
      var r := c[..3] + " " + c[3..6] + " " + c[6..];
      assert r[..3] == c[..3] && r[4..7] == c[3..6] && r[8..] == c[6..];
      assert c == c[..3] + c[3..6] + c[6..];
      r
  }

  /** Formatting only inserts separators, so it never changes the cleaned form. */
  lemma CleanFormat(s: string)
    ensures Clean(FormatPhone(s)) == Clean(s)
  {
    var c := Clean(s);
    if |c| == 9 {
      var a, b, d := c[..3], c[3..6], c[6..];
      assert FormatPhone(s) == a + [' '] + b + [' '] + d;
      assert c == a + b + d;
      KeepJoin3(a, b, d, ' ', NotSeparator);
      CleanUnchanged(a);
      CleanUnchanged(b);
      CleanUnchanged(d);
    }
  }

  /** `format(format(s)) == format(s)`. */
  lemma FormatIdempotent(s: string)
    ensures FormatPhone(FormatPhone(s)) == FormatPhone(s)
  {
    CleanFormat(s);
    var c := Clean(s);
    if |c| == 9 {
      var r := FormatPhone(s);
      assert r == c[..3] + " " + c[3..6] + " " + c[6..];
    }
  }

  /** Formatting never changes whether an input is a valid phone number (nor a valid ID). */
  lemma FormatPreservesValidity(s: string)
    ensures ValidatePhone(FormatPhone(s)) == ValidatePhone(s)
    ensures ValidateId(FormatPhone(s)) == ValidateId(s)
  {
    CleanFormat(s);
  }

  /**
   * `maskPhoneNumber`: when the input splits on ' ' into exactly three groups, the middle
   * group is replaced by "***" and the outer two are kept; any other input is returned unchanged.
   */
  function MaskPhone(phone: string): (r: string)
    ensures |Split(phone, ' ')| != 3 ==> r == phone
    ensures |Split(phone, ' ')| == 3 ==> Split(r, ' ') == Split(phone, ' ')[1 := "***"]
  {
    var parts := Split(phone, ' ');
    if |parts| != 3 then phone
    else
      SplitParts(phone, ' ');
      var r := parts[0] + " *** " + parts[2];
      var masked := [parts[0], "***", parts[2]];
      assert masked[1..] == ["***", parts[2]] && masked[1..][1..] == [parts[2]];
      assert Join(masked[1..], ' ') == "***" + " " + parts[2];
      assert " *** " == " " + "***" + " ";
      assert r == Join(masked, ' ');
      SplitJoin(masked, ' ');
      r
  }

  /** Masking an already masked number changes nothing. */
  lemma MaskIdempotent(s: string)
    ensures MaskPhone(MaskPhone(s)) == MaskPhone(s)
  {
    var parts := Split(s, ' ');
    if |parts| == 3 {
      var r := MaskPhone(s);
      var masked := Split(r, ' ');
      assert MaskPhone(r) == masked[0] + " *** " + masked[2];
      SplitParts(r, ' ');
    }
  }

  /** `validateVerificationCode`: exactly 6 ASCII digits, with no cleaning of the input first. */
  function ValidateCode(code: string): (ok: bool)
    ensures ok <==> |code| == 6 && AllDigits(code)
  {
    MatchesDigits(code, 6)
  }

  /*
   * Examples. Each is stated for a parameter equal to the example string,
   * so that the verifier reasons from the lemmas above instead of evaluating the recursive
   * definitions character by character.
   */

  /** "098765432" is a valid phone number and is shown as "098 765 432", also valid. */
  lemma FormatExample(s: string)
    requires s == "098765432"
    ensures FormatPhone(s) == "098 765 432"
    ensures ValidatePhone(s) && ValidatePhone(FormatPhone(s))
  {
    CleanDigits(s);
    FormatPreservesValidity(s);
  }

  /** "098 765 432" is masked as "098 *** 432". */
  lemma MaskExample(s: string)
    requires s == "098 765 432"
    ensures MaskPhone(s) == "098 *** 432"
  {
    var parts := ["098", "765", "432"];
    assert parts[1..] == ["765", "432"] && parts[1..][1..] == ["432"];
    assert Join(parts, ' ') == s;
    SplitJoin(parts, ' ');
  }

  /** Formatting then masking "098765432" gives "098 *** 432". */
  lemma MaskFormatExample(s: string)
    requires s == "098765432"
    ensures MaskPhone(FormatPhone(s)) == "098 *** 432"
  {
    FormatExample(s);
    MaskExample(FormatPhone(s));
  }

  /** An 8-digit ID is accepted; 7 or 9 digits, or a letter among them, are rejected. */
  lemma IdExamples(s: string)
    requires s == "12345678"
    ensures ValidateId(s)
    ensures !ValidateId(s[..7]) && !ValidateId(s + "9") && !ValidateId(s[..7] + "a")
  {
    assert AllDigits(s);
    CleanDigits(s);
    CleanDigits(s[..7]);
    CleanDigits(s + "9");
    var t := s[..7] + "a";
    CleanUnchanged(t);
    assert !IsDigit(t[7]);
  }

  /** Dashes are removed before the ID is checked. */
  lemma IdDashExample(s: string)
    requires s == "1234-5678"
    ensures ValidateId(s)
  {
    var a, b := s[..4], s[5..];
    assert s == a + "-" + b;
    CleanConcat(a + "-", b);
    CleanConcat(a, "-");
    CleanDigits(a);
    CleanDigits(b);
    assert IsSeparator("-"[0]);
    KeepNone("-", NotSeparator);
  }

  /** A phone number needs the "09" prefix and exactly 9 digits. */
  lemma PhoneExamples(s: string)
    requires s == "098765432"
    ensures ValidatePhone(s)
    ensures !ValidatePhone("01" + s[2..]) && !ValidatePhone(s[..8])
  {
    CleanDigits(s);
    CleanDigits("01" + s[2..]);
    CleanDigits(s[..8]);
  }

  /** A code is checked as typed: surrounding whitespace is not removed. */
  lemma CodeExamples(s: string)
    requires s == "123456"
    ensures ValidateCode(s) && !ValidateCode(" " + s)
    ensures !ValidateCode(s[..5]) && !ValidateCode("abcdef")
  {
  }
}
