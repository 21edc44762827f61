/**
 * PhoneNumberPreference: an editable phone-number setting with a default number. Setting the
 * value to a number equivalent to the default clears the stored value; the summary shows the
 * stored value, else the default, else a fixed "unknown" text.
 */
module PhoneNumberPreference {
  import opened Wrappers

  /**
   * PhoneUtils (per subscription) and BidiFormatter, which are not part of this model:
   * canonicalisation by system locale, formatting for display, left-to-right wrapping, and
   * the "unknown phone number" display string.
   */
  datatype PhoneFormatting = PhoneFormatting(
    canonical: (int, string) -> string,
    formatForDisplay: (int, string) -> string,
    wrapLtr: string -> string,
    unknownPhoneNumber: string)

  /** TextUtils.isEmpty: null or the empty string. */
  predicate IsEmpty(s: Option<string>) {
    s.None? || s.value == []
  }

  /** The text setText stores: cleared when it is canonically the default number. */
  function StoredText(text: string, defaultNumber: Option<string>, subId: int, phone: PhoneFormatting): (r: string)
    ensures r == text || r == ""
    ensures defaultNumber.Some? && phone.canonical(subId, text) == phone.canonical(subId, defaultNumber.value) ==> r == ""
    ensures defaultNumber.None? || phone.canonical(subId, text) != phone.canonical(subId, defaultNumber.value) ==> r == text
  {
    if defaultNumber.Some? && phone.canonical(subId, text) == phone.canonical(subId, defaultNumber.value) then ""
    else text
  }

  class PhoneNumberPreference {
    /** The stored preference value (EditTextPreference's text); null until set. */
    var text: Option<string>
    var defaultPhoneNumber: Option<string>
    var subId: int

    constructor ()
      ensures defaultPhoneNumber == Some("") && text == None && subId == 0
    {
      text := None;
      defaultPhoneNumber := Some("");
      subId := 0;
    }

    /** setDefaultPhoneNumber: the default number and subscription change; the value does not. */
    method SetDefaultPhoneNumber(phoneNumber: Option<string>, subscriptionId: int)
      modifies this`defaultPhoneNumber, this`subId
      ensures defaultPhoneNumber == phoneNumber && subId == subscriptionId
      ensures text == old(text)
    {
      defaultPhoneNumber := phoneNumber;
      subId := subscriptionId;
    }

    /** getSummary: the formatted value, or the formatted default, or "unknown", wrapped left-to-right. */
    function GetSummary(phone: PhoneFormatting): (r: string)
      reads this
      ensures !IsEmpty(text) ==> r == phone.wrapLtr(phone.formatForDisplay(subId, text.value))
      ensures IsEmpty(text) && !IsEmpty(defaultPhoneNumber) ==>
        r == phone.wrapLtr(phone.formatForDisplay(subId, defaultPhoneNumber.value))
      ensures IsEmpty(text) && IsEmpty(defaultPhoneNumber) ==> r == phone.wrapLtr(phone.unknownPhoneNumber)
    {
      var value := if IsEmpty(text) then defaultPhoneNumber else text;
      var displayValue := if !IsEmpty(value) then phone.formatForDisplay(subId, value.value)
                          else phone.unknownPhoneNumber;
      phone.wrapLtr(displayValue)
    }

    /**
     * setText: stores the text, or clears the value when the text is canonically the default;
     * a default-equivalent number is then shown as the formatted default.
     */
    method SetText(newValue: string, phone: PhoneFormatting)
      modifies this`text
      ensures text == Some(StoredText(newValue, defaultPhoneNumber, subId, phone))
      ensures defaultPhoneNumber == old(defaultPhoneNumber) && subId == old(subId)
      ensures defaultPhoneNumber.Some? && defaultPhoneNumber.value != [] &&
              phone.canonical(subId, newValue) == phone.canonical(subId, defaultPhoneNumber.value) ==>
        GetSummary(phone) == phone.wrapLtr(phone.formatForDisplay(subId, defaultPhoneNumber.value))
    {
      var newText := newValue;
      if defaultPhoneNumber.Some? {
        var phoneNumber := phone.canonical(subId, newValue);
        var defaultNumber := phone.canonical(subId, defaultPhoneNumber.value);
        if phoneNumber == defaultNumber {
          newText := "";
        }
      }
      text := Some(newText);
    }
  }
}
