/**
 * The method-selection form: the user identifies either by national ID, whose phone number a
 * mock directory supplies, or by typing a mobile number; "send code" then mounts the
 * code-confirmation screen for the masked number.
 */
module Form {
  import opened Wrappers
  import opened Text
  import opened Validation
  import opened CodeScreen

  datatype VerificationMethod = ById | ByPhone

  /** The inline alert of the form. */
  datatype FormError = NoPhoneForId

  /** The toast notifications the form raises. */
  datatype Toast = IdFormatInvalid | PhoneFormatInvalid | CodeSent(maskedPhone: string) | VerificationCompleted

  /** Digits the ID field keeps. */
  const IdLength: nat := 8

  /** Digits the phone field keeps. */
  const PhoneLength: nat := 9

  /** The one ID the mock directory has no phone number for. */
  const UnlinkedId: string := "12345678"

  /** The number the mock directory returns for every other ID. */
  const MockPhone: string := "098 765 432"

  /**
   * `mockRetrievePhoneByID`: no number for the unlinked ID, the mock number for any other
   * (which `MockPhoneFacts` shows to be a valid phone number).
   */
  function LookupPhone(id: string): (r: Option<string>)
    ensures r.None? <==> id == UnlinkedId
    ensures r.Some? ==> r.value == MockPhone
  {
    if id == UnlinkedId then None else Some(MockPhone)
  }

  /** The mock number is a valid, already formatted phone number, masked as "098 *** 432". */
  lemma MockPhoneFacts(p: string)
    requires p == MockPhone
    ensures ValidatePhone(p) && FormatPhone(p) == p && MaskPhone(p) == "098 *** 432"
  {
    FormatExample("098765432");
    FormatIdempotent("098765432");
    MaskExample(p);
  }

  /** The unlinked ID is itself a well-formed ID: the send button is enabled for it. */
  lemma UnlinkedIdFacts(id: string)
    requires id == UnlinkedId
    ensures ValidateId(id) && LookupPhone(id).None?
  {
    assert AllDigits(id);
    CleanDigits(id);
  }

  /**
   * The ID field's sanitiser: the digits typed, cut to the first eight. The result passes the
   * ID check exactly when eight digits were kept.
   */
  function IdDigits(raw: string): (id: string)
    ensures id <= KeepDigits(raw)
    ensures |id| == if |KeepDigits(raw)| <= IdLength then |KeepDigits(raw)| else IdLength
    ensures AllDigits(id)
    ensures ValidateId(id) <==> |id| == IdLength
  {
    var d := KeepDigits(raw);
    var id := Take(d, IdLength);
    assert id == d[..|id|];
    CleanDigits(id);
    id
  }

  /**
   * What the phone field keeps of the typed digits after its "09": the digits after a typed
   * "09", after a lone leading "0", or all of them.
   */
  function AfterPrefix(v: string): string {
    if "09" <= v then v[2..] else if "0" <= v then v[1..] else v
  }

  /**
   * The digits the phone field keeps: when any digit was typed, "09" followed by the first
   * seven of the typed digits after the prefix (a typed "09" or a lone leading "0" is
   * absorbed into it); nothing otherwise. At most nine digits are kept.
   */
  function PhoneDigits(raw: string): (d: string)
    ensures |d| <= PhoneLength && AllDigits(d)
    ensures d != [] ==> |d| >= 2 && d[..2] == "09"
    ensures d == [] <==> KeepDigits(raw) == []
    ensures KeepDigits(raw) != [] ==> d == "09" + Take(AfterPrefix(KeepDigits(raw)), 7)
  {
    var v := KeepDigits(raw);
    var w := if !("09" <= v) && |v| > 0 then "09" + v[(if "0" <= v then 1 else 0)..] else v;
    assert AllDigits(w);
    var d := Take(w, PhoneLength);
    assert d == w[..|d|];
    assert w != [] ==> |w| >= 2 && w[..2] == "09";
    assert v != [] ==> w == "09" + AfterPrefix(v);
    TakeAfter("09", AfterPrefix(v), 7);
    d
  }

  /** Typing a complete number that starts with "09" keeps it as typed. */
  lemma PhoneDigitsComplete(v: string)
    requires AllDigits(v) && |v| == PhoneLength && "09" <= v
    ensures PhoneDigits(v) == v
  {
    KeepDigitsOfDigits(v);
    assert "09" + v[2..] == v;
  }

  /**
   * Seven digits typed without the "09", or after a lone "0", get "09" put in front. The
   * first of them must not be "0" or "9", which would be read as part of the prefix.
   */
  lemma PhoneDigitsPrefixed(v: string)
    requires AllDigits(v) && |v| == 7 && v[0] != '0' && v[0] != '9'
    ensures PhoneDigits(v) == "09" + v
    ensures PhoneDigits("0" + v) == "09" + v
  {
    KeepDigitsOfDigits(v);
    var u := "0" + v;
    assert AllDigits(u);
    KeepDigitsOfDigits(u);
    assert u[1] == v[0] && u[1..] == v;
  }

  /** "098765432" is kept as typed, and so is "8765432" once "09" is put in front. */
  lemma PhoneDigitsExample(s: string)
    requires s == "098765432"
    ensures PhoneDigits(s) == s && PhoneDigits(s[2..]) == s && PhoneDigits("0" + s[2..]) == s
  {
    assert AllDigits(s) && "09" <= s;
    PhoneDigitsComplete(s);
    assert "09" + s[2..] == s;
    PhoneDigitsPrefixed(s[2..]);
  }

  /**
   * What the phone field shows after `handlePhoneChange`: the kept digits, grouped as
   * "09X XXX XXX" once all nine are there. Removing separators gives the digits back, the
   * field is grouped exactly when nine digits were kept, and it passes the phone check
   * exactly then.
   */
  function PhoneField(raw: string): (shown: string)
    ensures Clean(shown) == PhoneDigits(raw)
    ensures Grouped(shown) <==> |PhoneDigits(raw)| == PhoneLength
    ensures |PhoneDigits(raw)| < PhoneLength ==> shown == PhoneDigits(raw)
    ensures ValidatePhone(shown) <==> |PhoneDigits(raw)| == PhoneLength
  {
    var d := PhoneDigits(raw);
    CleanDigits(d);
    CleanFormat(d);
    FormatPhone(d)
  }

  /** Retyping what the ID field shows leaves it as it is. */
  lemma IdFieldStable(raw: string)
    ensures IdDigits(IdDigits(raw)) == IdDigits(raw)
  {
    KeepDigitsOfDigits(IdDigits(raw));
  }

  /** Formatting inserts only spaces, so keeping the digits of a formatted field gives the digits. */
  lemma KeepDigitsOfFormatted(d: string)
    requires AllDigits(d) && |d| == PhoneLength
    ensures KeepDigits(FormatPhone(d)) == d
  {
    CleanDigits(d);
    var a, b, c := d[..3], d[3..6], d[6..];
    assert FormatPhone(d) == a + [' '] + b + [' '] + c;
    assert d == a + b + c;
    KeepJoin3(a, b, c, ' ', IsDigit);
    KeepDigitsOfDigits(a);
    KeepDigitsOfDigits(b);
    KeepDigitsOfDigits(c);
  }

  /** Retyping what the phone field shows leaves it as it is. */
  lemma PhoneFieldStable(raw: string)
    ensures PhoneDigits(PhoneField(raw)) == PhoneDigits(raw)
    ensures PhoneField(PhoneField(raw)) == PhoneField(raw)
  {
    var d := PhoneDigits(raw);
    if |d| == PhoneLength {
      KeepDigitsOfFormatted(d);
    } else {
      KeepDigitsOfDigits(d);
    }
    assert KeepDigits(PhoneField(raw)) == d;
    if d != [] {
      assert "09" <= d;
    }
  }

  /** The method-selection form and, once a code was sent, the code screen it shows. */
  class VerificationForm {
    var verificationMethod: VerificationMethod
    var idNumber: string
    var phoneNumber: string
    var retrievedPhone: string
    var showCodeVerification: bool
    var error: Option<FormError>
    /** The mounted code screen while `showCodeVerification` holds. */
    var screen: CodeVerification?

    ghost predicate Valid()
      reads this, screen
    {
      (showCodeVerification <==> screen != null) &&
      (screen != null ==> screen.Valid() && screen.phoneNumber == MaskPhone(retrievedPhone))
    }

    /** Whether the send button is enabled: the input for the chosen method passes its check. */
    function SendEnabled(): (enabled: bool)
      reads this
      ensures enabled <==> if verificationMethod == ById then ValidateId(idNumber) else ValidatePhone(phoneNumber)
    {
      !((verificationMethod == ById && !ValidateId(idNumber)) || (verificationMethod == ByPhone && !ValidatePhone(phoneNumber)))
    }

    /** The number a code is sent to, when the chosen method yields one. */
    function Target(): Option<string>
      reads this
    {
      if verificationMethod == ById then LookupPhone(idNumber) else Some(phoneNumber)
    }

    constructor ()
      ensures Valid()
      ensures verificationMethod == ById && idNumber == [] && phoneNumber == [] && retrievedPhone == []
      ensures !showCodeVerification && error == None && screen == null
    {
      verificationMethod := ById;
      idNumber := [];
      phoneNumber := [];
      retrievedPhone := [];
      showCodeVerification := false;
      error := None;
      screen := null;
    }

    /** `handleIdChange`: clears the alert and keeps at most eight digits of the input. */
    method HandleIdChange(raw: string)
      requires Valid()
      modifies this`idNumber, this`error
      ensures Valid()
      ensures idNumber == IdDigits(raw) && error == None
    {
      error := None;
      var value := KeepDigits(raw);
      idNumber := Take(value, IdLength);
    }

    /** `handlePhoneChange`: clears the alert and shows the kept digits, grouped when complete. */
    method HandlePhoneChange(raw: string)
      requires Valid()
      modifies this`phoneNumber, this`error
      ensures Valid()
      ensures phoneNumber == PhoneField(raw) && error == None
    {
      error := None;
      var value := KeepDigits(raw);
      if !("09" <= value) && |value| > 0 {
        value := "09" + value[(if "0" <= value then 1 else 0)..];
      }
      value := Take(value, PhoneLength);
      phoneNumber := FormatPhone(value);
    }

    /** The radio group's `onValueChange`: switches method and clears the alert; inputs are kept. */
    method SelectMethod(m: VerificationMethod)
      requires Valid()
      modifies this`verificationMethod, this`error
      ensures Valid()
      ensures verificationMethod == m && error == None
    {
      verificationMethod := m;
      error := None;
    }

    /**
     * `handleSendCode`, reachable from the form while it is shown. An input that fails its
     * check only raises the matching toast. On the ID path an ID without a number only sets
     * the alert. Otherwise the number becomes `retrievedPhone`, the alert is cleared, the
     * "code sent" toast names the masked number, and a freshly mounted code screen is shown.
     */
    method HandleSendCode() returns (toast: Option<Toast>)
      requires Valid() && !showCodeVerification
      modifies this`retrievedPhone, this`error, this`showCodeVerification, this`screen
      ensures Valid()
      ensures !SendEnabled() ==>
        toast == Some(if verificationMethod == ById then IdFormatInvalid else PhoneFormatInvalid) &&
        unchanged(this)
      ensures SendEnabled() && Target().None? ==>
        toast == None && error == Some(NoPhoneForId) &&
        retrievedPhone == old(retrievedPhone) && !showCodeVerification && screen == null
      ensures SendEnabled() && Target().Some? ==>
        retrievedPhone == Target().value && error == None && showCodeVerification &&
        toast == Some(CodeSent(MaskPhone(retrievedPhone))) &&
        screen != null && fresh(screen) && screen.IsInitial() &&
        screen.phoneNumber == MaskPhone(retrievedPhone)
    {
      if verificationMethod == ById {
        if !ValidateId(idNumber) {
          return Some(IdFormatInvalid);
        }
        var phone := LookupPhone(idNumber);
        if phone.None? {
          error := Some(NoPhoneForId);
          return None;
        }
        retrievedPhone := phone.value;
        error := None;
        toast := Some(CodeSent(MaskPhone(phone.value)));
        showCodeVerification := true;
      } else {
        if !ValidatePhone(phoneNumber) {
          return Some(PhoneFormatInvalid);
        }
        retrievedPhone := phoneNumber;
        error := None;
        toast := Some(CodeSent(MaskPhone(phoneNumber)));
        showCodeVerification := true;
      }
      screen := new CodeVerification(MaskPhone(retrievedPhone));
    }

    /** `onBack`: hides (and so unmounts) the code screen; `retrievedPhone` is kept. */
    method Back()
      requires Valid()
      modifies this`showCodeVerification, this`screen
      ensures Valid()
      ensures !showCodeVerification && screen == null
    {
      showCodeVerification := false;
      screen := null;
    }

    /** `handleVerificationComplete`: only raises the completion toast; no state changes. */
    method HandleVerificationComplete() returns (toast: Toast)
      ensures toast == VerificationCompleted
    {
      toast := VerificationCompleted;
    }
  }
}
