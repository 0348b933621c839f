/**
 * The add-card form: how each field reformats what is typed into it, and
 * what the submit button checks, shows and hands on to be saved.
 */
module CardForm {
  import opened Wrappers
  import opened Seqs
  import opened Text

  // ---------------------------------------------------------------------
  // Field formatting
  // ---------------------------------------------------------------------

  /** The card number as shown: its digits in groups of four, separated by single spaces. */
  function FormatCard(input: string): (r: string)
    ensures RemoveSpaces(r) == Digits(input)
    ensures forall k :: 0 <= k < |r| ==> (r[k] == ' ' <==> k % 5 == 4)
    ensures |r| == if |Digits(input)| == 0 then 0 else |Digits(input)| + (|Digits(input)| - 1) / 4
  {
    var d := Digits(input);
    Group4Length(d);
    assert ' ' !in d by {
      forall k | 0 <= k < |d| ensures d[k] != ' ' {
        assert IsDigit(d[k]);
      }
    }
    RemoveSpacesGroup4(d);
    assert forall k :: 0 <= k < |Group4(d)| ==> (Group4(d)[k] == ' ' <==> k % 5 == 4) by {
      forall k | 0 <= k < |Group4(d)| ensures Group4(d)[k] == ' ' <==> k % 5 == 4 {
        Group4At(d, k);
      }
    }
    Group4(d)
  }

  /** A grouped string of n characters has n plus one space per further group. */
  lemma {:induction false} Group4Length(s: string)
    ensures |Group4(s)| == if |s| == 0 then 0 else |s| + (|s| - 1) / 4
    decreases |s|
  {
    if |s| > 4 {
      Group4Length(s[4..]);
    }
  }

  /** Formatting a shown card number again changes nothing. */
  lemma FormatCardIdempotent(input: string)
    ensures FormatCard(FormatCard(input)) == FormatCard(input)
  {
    DigitsGroup4(Digits(input));
  }

  /** Card number edits of at most 19 characters are reformatted; longer ones are ignored. */
  function EditCardNumber(current: string, input: string): (r: string)
    ensures |input| <= 19 ==> r == FormatCard(input)
    ensures |input| > 19 ==> r == current
  {
    if |input| <= 19 then FormatCard(input) else current
  }

  /** A shown number of up to sixteen digits is at most 19 characters, so it is accepted back unchanged. */
  lemma ShownCardNumberStable(current: string, input: string)
    requires |Digits(input)| <= 16
    ensures |FormatCard(input)| <= 19
    ensures EditCardNumber(current, FormatCard(input)) == FormatCard(input)
  {
    Group4Length(Digits(input));
    FormatCardIdempotent(input);
  }

  /** The expiry as shown: with more than two digits, the first two, a slash and the rest. */
  function FormatExpiry(digits: string): (r: string)
    requires |digits| <= 4
    ensures |r| <= 5
    ensures |r| == 5 <==> |digits| == 4
  {
    if |digits| > 2 then digits[..2] + "/" + digits[2..] else digits
  }

  /** The digits of a shown expiry are the digits it was made from. */
  lemma ExpiryDigits(digits: string)
    requires |digits| <= 4 && AllDigits(digits)
    ensures Digits(FormatExpiry(digits)) == digits
  {
    if |digits| > 2 {
      SlashedDigits(digits[..2], digits[2..]);
      assert digits[..2] + digits[2..] == digits;
    } else {
      DigitsOfDigits(digits);
    }
  }

  /** Dropping the non-digits of two digit runs around a slash joins the runs. */
  lemma SlashedDigits(a: string, b: string)
    requires AllDigits(a) && AllDigits(b)
    ensures Digits(a + "/" + b) == a + b
  {
    assert Digits(a + "/") == a by {
      assert Filter("/", IsDigit) == [] by {
        assert !IsDigit('/');
      }
      FilterConcat(a, "/", IsDigit);
      DigitsOfDigits(a);
    }
    assert Digits(a + "/" + b) == Digits(a + "/") + Digits(b) by {
      FilterConcat(a + "/", b, IsDigit);
    }
    DigitsOfDigits(b);
  }

  /**
   * Expiry edits of at most five characters holding at most four digits
   * are reformatted; anything else is ignored.
   */
  function EditExpiry(current: string, input: string): (r: string)
    ensures |input| <= 5 && |Digits(input)| <= 4 ==> r == FormatExpiry(Digits(input))
    ensures !(|input| <= 5 && |Digits(input)| <= 4) ==> r == current
    ensures |current| <= 5 ==> |r| <= 5
  {
    if |input| <= 5 then
      var d := Digits(input);
      if |d| <= 4 then FormatExpiry(d) else current
    else current
  }

  /** A shown expiry, typed back in, gives itself. */
  lemma ShownExpiryStable(current: string, digits: string)
    requires |digits| <= 4 && AllDigits(digits)
    ensures EditExpiry(current, FormatExpiry(digits)) == FormatExpiry(digits)
  {
    ExpiryDigits(digits);
  }

  /** CVV edits of at most four characters keep their digits; longer ones are ignored. */
  function EditCvv(current: string, input: string): (r: string)
    ensures |input| <= 4 ==> r == Digits(input) && |r| <= 4
    ensures |input| > 4 ==> r == current
  {
    if |input| <= 4 then Digits(input) else current
  }

  /** The holder's name is shown in capitals. */
  function EditHolder(input: string): (r: string)
    ensures |r| == |input|
    ensures forall k :: 0 <= k < |r| ==> !('a' <= r[k] <= 'z')
    ensures IsBlank(r) <==> IsBlank(input)
  {
    UpperIdempotent(input);
    assert forall k :: 0 <= k < |input| ==> (IsWhitespace(Upper(input)[k]) <==> IsWhitespace(input[k]));
    Upper(input)
  }

  // ---------------------------------------------------------------------
  // The form and its submit button
  // ---------------------------------------------------------------------

  const CardNumberMessage := "Please enter a valid 16-digit card number"
  const HolderMessage := "Please enter card holder name"
  const ExpiryMessage := "Please enter a valid expiry date (MM/YY)"
  const CvvMessage := "Please enter a valid CVV"

  /** The four fields and the error shown under each. */
  datatype Form = Form(cardNumber: string, holder: string, expiry: string, cvv: string,
                       cardError: Option<string>, holderError: Option<string>,
                       expiryError: Option<string>, cvvError: Option<string>)

  const EmptyForm := Form("", "", "", "", None, None, None, None)

  predicate CardNumberFails(cardNumber: string) { |RemoveSpaces(cardNumber)| != 16 }
  predicate HolderFails(holder: string) { IsBlank(holder) }
  /** Only the length is checked: no month range, no card checksum. */
  predicate ExpiryFails(expiry: string) { |expiry| != 5 }
  predicate CvvFails(cvv: string) { |cvv| < 3 }

  predicate Valid(f: Form)
  {
    !CardNumberFails(f.cardNumber) && !HolderFails(f.holder) && !ExpiryFails(f.expiry) && !CvvFails(f.cvv)
  }

  /** An accepted edit to a field replaces it and clears that field's error only. */
  function TypeCardNumber(f: Form, input: string): (r: Form)
    ensures |input| <= 19 ==> r == f.(cardNumber := FormatCard(input), cardError := None)
    ensures |input| > 19 ==> r == f
  {
    if |input| <= 19 then f.(cardNumber := EditCardNumber(f.cardNumber, input), cardError := None) else f
  }

  function TypeHolder(f: Form, input: string): (r: Form)
    ensures r == f.(holder := EditHolder(input), holderError := None)
  {
    f.(holder := EditHolder(input), holderError := None)
  }

  function TypeExpiry(f: Form, input: string): (r: Form)
    ensures |input| <= 5 && |Digits(input)| <= 4 ==> r == f.(expiry := FormatExpiry(Digits(input)), expiryError := None)
    ensures !(|input| <= 5 && |Digits(input)| <= 4) ==> r == f
  {
    if |input| <= 5 && |Digits(input)| <= 4 then f.(expiry := EditExpiry(f.expiry, input), expiryError := None) else f
  }

  function TypeCvv(f: Form, input: string): (r: Form)
    ensures |input| <= 4 ==> r == f.(cvv := Digits(input), cvvError := None)
    ensures |input| > 4 ==> r == f
  {
    if |input| <= 4 then f.(cvv := EditCvv(f.cvv, input), cvvError := None) else f
  }

  /** What submit hands to the view model: the number without its spaces. */
  datatype CardSubmission = CardSubmission(userId: string, cardNumber: string, holder: string, expiry: string)

  datatype SubmitResult = SubmitResult(form: Form, saved: Option<CardSubmission>)

  /**
   * Submit: every failing check sets its own message, independently of the
   * others, and no message is cleared; the card is handed on only when all
   * checks pass and a user is signed in.
   */
  function Submit(f: Form, user: Option<string>): (r: SubmitResult)
    ensures r.form.cardNumber == f.cardNumber && r.form.holder == f.holder &&
            r.form.expiry == f.expiry && r.form.cvv == f.cvv
    ensures r.form.cardError == if CardNumberFails(f.cardNumber) then Some(CardNumberMessage) else f.cardError
    ensures r.form.holderError == if HolderFails(f.holder) then Some(HolderMessage) else f.holderError
    ensures r.form.expiryError == if ExpiryFails(f.expiry) then Some(ExpiryMessage) else f.expiryError
    ensures r.form.cvvError == if CvvFails(f.cvv) then Some(CvvMessage) else f.cvvError
    ensures r.saved.Some? <==> Valid(f) && user.Some?
    ensures r.saved.Some? ==> r.saved.value == CardSubmission(user.value, RemoveSpaces(f.cardNumber), f.holder, f.expiry)
  {
    var g := f.(cardError := if CardNumberFails(f.cardNumber) then Some(CardNumberMessage) else f.cardError,
                holderError := if HolderFails(f.holder) then Some(HolderMessage) else f.holderError,
                expiryError := if ExpiryFails(f.expiry) then Some(ExpiryMessage) else f.expiryError,
                cvvError := if CvvFails(f.cvv) then Some(CvvMessage) else f.cvvError);
    SubmitResult(g, if Valid(f) && user.Some? then Some(CardSubmission(user.value, RemoveSpaces(f.cardNumber), f.holder, f.expiry)) else None)
  }

  /** Every error shown belongs to a field that fails its check. */
  predicate ErrorsSound(f: Form)
  {
    (f.cardError.Some? ==> CardNumberFails(f.cardNumber)) && (f.holderError.Some? ==> HolderFails(f.holder)) &&
    (f.expiryError.Some? ==> ExpiryFails(f.expiry)) && (f.cvvError.Some? ==> CvvFails(f.cvv))
  }

  /** Edits keep the shown errors sound, since an edit clears its field's error. */
  lemma EditsKeepErrorsSound(f: Form, input: string)
    requires ErrorsSound(f)
    ensures ErrorsSound(TypeCardNumber(f, input)) && ErrorsSound(TypeHolder(f, input))
    ensures ErrorsSound(TypeExpiry(f, input)) && ErrorsSound(TypeCvv(f, input))
  {
  }

  /** From a sound form, submit shows an error under exactly the failing fields. */
  lemma SubmitShowsExactlyFailures(f: Form, user: Option<string>)
    requires ErrorsSound(f)
    ensures var g := Submit(f, user).form;
            ErrorsSound(g) &&
            (g.cardError.Some? <==> CardNumberFails(f.cardNumber)) && (g.holderError.Some? <==> HolderFails(f.holder)) &&
            (g.expiryError.Some? <==> ExpiryFails(f.expiry)) && (g.cvvError.Some? <==> CvvFails(f.cvv))
  {
  }

  /** Submitting the empty form shows all four messages at once and saves nothing. */
  lemma EmptyFormShowsAllErrors(user: Option<string>)
    ensures var r := Submit(EmptyForm, user);
            r.form.cardError == Some(CardNumberMessage) && r.form.holderError == Some(HolderMessage) &&
            r.form.expiryError == Some(ExpiryMessage) && r.form.cvvError == Some(CvvMessage) && r.saved.None?
  {
    assert RemoveSpaces("") == [];
  }

  /** The expiry check does not look at the month: "13/99" passes. */
  lemma MonthNotChecked()
    ensures !ExpiryFails("13/99")
  {
  }

  /**
   * Typing sixteen digits (in at most 19 characters), four expiry digits,
   * three or four CVV digits and a non-blank name makes a valid form whose
   * card number is handed on as exactly the digits typed.
   */
  lemma TypedFormSubmits(f: Form, card: string, holder: string, expiry: string, cvv: string, user: string)
    requires |card| <= 19 && |Digits(card)| == 16
    requires !IsBlank(holder)
    requires |expiry| <= 5 && |Digits(expiry)| == 4
    requires |cvv| <= 4 && |Digits(cvv)| >= 3
    ensures var g := TypeCvv(TypeExpiry(TypeHolder(TypeCardNumber(f, card), holder), expiry), cvv);
            var r := Submit(g, Some(user));
            r.saved.Some? && r.saved.value.cardNumber == Digits(card)
  {
  }

  /** The submit button is enabled while nothing is loading and no field is blank. */
  predicate SubmitEnabled(isLoading: bool, f: Form)
  {
    !isLoading && !IsBlank(f.cardNumber) && !IsBlank(f.holder) && !IsBlank(f.expiry) && !IsBlank(f.cvv)
  }
}
