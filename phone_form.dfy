/** frontend/src/components/NewConversationModal.tsx: the phone mask applied on
    every keystroke, the two regular expressions that check a phone number, the
    field validator, and the two-step form (details, then confirmation) with its
    loading, error and success state. */
module PhoneForm {
  import opened Text

  const NAME_REQUIRED: string := "Nome do cliente \U{00E9} obrigat\U{00F3}rio"
  const PHONE_FORMAT: string := "Formato: (XX) XXXXX-XXXX"
  const CREATE_FAILED: string := "Erro ao criar conversa. Tente novamente."

  predicate AllDigits(s: string) {
    forall i :: 0 <= i < |s| ==> IsDigit(s[i])
  }

  function Min(a: int, b: int): int {
    if a <= b then a else b
  }

  // ---------------------------------------------------------------------------
  // The mask

  /** The mask `(XX) XXXXX-XXXX` applied to a string of digits, as far as the
      digits go; digits past the eleventh are dropped. */
  function Mask(n: string): string {
    if |n| <= 2 then n
    else if |n| <= 7 then "(" + n[..2] + ") " + n[2..]
    else if |n| <= 11 then "(" + n[..2] + ") " + n[2..7] + "-" + n[7..]
    else "(" + n[..2] + ") " + n[2..7] + "-" + n[7..11]
  }

  /** formatPhoneNumber: drop every non-digit, then apply the mask. */
  function FormatPhone(value: string): string {
    Mask(Digits(value))
  }

  lemma {:induction false} DigitsOfPunctuation(s: string)
    requires forall i :: 0 <= i < |s| ==> !IsDigit(s[i])
    ensures Digits(s) == []
  {
    if s != [] {
      DigitsOfPunctuation(s[1..]);
    }
  }

  /** Appending punctuation adds no digits. */
  lemma DigitsPunctuationAppended(x: string, p: string)
    requires forall i :: 0 <= i < |p| ==> !IsDigit(p[i])
    ensures Digits(x + p) == Digits(x)
  {
    DigitsOfPunctuation(p);
    DigitsAppend(x, p);
    assert Digits(x) + [] == Digits(x);
  }

  /** Appending a run of digits adds exactly those digits. */
  lemma DigitsRunAppended(y: string, d: string)
    requires AllDigits(d)
    ensures Digits(y + d) == Digits(y) + d
  {
    DigitsOfDigits(d);
    DigitsAppend(y, d);
  }

  /** Appending punctuation and then a run of digits adds exactly those digits. */
  lemma DigitsChunk(x: string, p: string, d: string)
    requires forall i :: 0 <= i < |p| ==> !IsDigit(p[i])
    requires AllDigits(d)
    ensures Digits(x + p + d) == Digits(x) + d
  {
    DigitsPunctuationAppended(x, p);
    DigitsRunAppended(x + p, d);
  }

  /** Up to seven digits: the area code in parentheses, then the rest. */
  lemma ShortMaskDigits(n: string)
    requires AllDigits(n) && 2 < |n| <= 7
    ensures Digits(Mask(n)) == n
  {
    var a, b := n[..2], n[2..];
    DigitsChunk("", "(", a);
    assert "" + "(" + a == "(" + a;
    DigitsChunk("(" + a, ") ", b);
    assert a + b == n;
  }

  /** Eight digits or more: area code, five digits, a dash, and at most four more. */
  lemma LongMaskDigits(n: string)
    requires AllDigits(n) && |n| > 7
    ensures Digits(Mask(n)) == n[..Min(|n|, 11)]
  {
    var k := Min(|n|, 11);
    var a, b, c := n[..2], n[2..7], n[7..k];
    DigitsChunk("", "(", a);
    assert "" + "(" + a == "(" + a;
    DigitsChunk("(" + a, ") ", b);
    DigitsChunk("(" + a + ") " + b, "-", c);
    assert a + b + c == n[..k];
    if |n| <= 11 {
      assert c == n[7..];
    }
  }

  /** The mask's digits are the first min(n, 11) input digits, in order. */
  lemma MaskKeepsDigits(n: string)
    requires AllDigits(n)
    ensures Digits(Mask(n)) == n[..Min(|n|, 11)]
  {
    if |n| <= 2 {
      DigitsOfDigits(n);
      assert n[..|n|] == n;
    } else if |n| <= 7 {
      ShortMaskDigits(n);
      assert n[..|n|] == n;
    } else {
      LongMaskDigits(n);
    }
  }

  /** The formatted value keeps exactly the first min(n, 11) digits of the input. */
  lemma FormatKeepsDigits(value: string)
    ensures Digits(FormatPhone(value)) == Digits(value)[..Min(|Digits(value)|, 11)]
  {
    DigitsAreDigits(value);
    MaskKeepsDigits(Digits(value));
  }

  /** Formatting an already formatted value changes nothing, so the handler that
      re-formats the field on every keystroke leaves a typed number stable. */
  lemma FormatIdempotent(value: string)
    ensures FormatPhone(FormatPhone(value)) == FormatPhone(value)
  {
    var n := Digits(value);
    FormatKeepsDigits(value);
    var m := n[..Min(|n|, 11)];
    if |n| > 11 {
      assert m[..2] == n[..2] && m[2..7] == n[2..7] && m[7..] == n[7..11];
    } else {
      assert m == n;
    }
  }

  // ---------------------------------------------------------------------------
  // The two regular expressions

  /** `/^\(\d{2}\) \d{5}-\d{4}$/`: the completed mask. */
  predicate MaskComplete(s: string) {
    && |s| == 15 && s[0] == '(' && AllDigits(s[1..3]) && s[3] == ')' && s[4] == ' '
    && AllDigits(s[5..10]) && s[10] == '-' && AllDigits(s[11..])
  }

  /** The optional separator `[-. ]`. */
  const SEPARATORS: set<char> := {'-', '.', ' '}

  /** Drops the first character when it is one of `tokens`: an optional token. */
  function DropIf(s: string, tokens: set<char>): (r: string)
    ensures |r| <= |s|
  {
    if s != [] && s[0] in tokens then s[1..] else s
  }

  /** The part of the phone expression after the area code and its optional
      `)` and separator: `([0-9]{5})[-. ]?([0-9]{4})$`. */
  predicate SubscriberValid(b: string) {
    && |b| >= 5 && AllDigits(b[..5])
    && var d := DropIf(b[5..], SEPARATORS);
       |d| == 4 && AllDigits(d)
  }

  /** `/^\(?([0-9]{2})\)?[-. ]?([0-9]{5})[-. ]?([0-9]{4})$/`. Every optional
      token is a non-digit followed by a run of digits, so the expression matches
      iff taking each optional token whenever it is there succeeds. */
  predicate PhoneValid(s: string) {
    var a := DropIf(s, {'('});
    && |a| >= 2 && AllDigits(a[..2])
    && SubscriberValid(DropIf(DropIf(a[2..], {')'}), SEPARATORS))
  }

  /** An optional token: present or absent. */
  function Opt(present: bool, c: char): string {
    if present then [c] else []
  }

  /** An optional token is dropped when present and nothing is dropped when it
      is absent, provided what follows does not start with the same token. */
  lemma DropOpt(present: bool, c: char, rest: string, tokens: set<char>)
    requires c in tokens && (rest != [] ==> rest[0] !in tokens)
    ensures DropIf(Opt(present, c) + rest, tokens) == rest
  {
    if present {
      assert (Opt(present, c) + rest)[1..] == rest;
    } else {
      assert Opt(present, c) + rest == rest;
    }
  }

  lemma SubscriberAccepts(s2: string, d5: string, d4: string)
    requires |d5| == 5 && |d4| == 4 && AllDigits(d5) && AllDigits(d4)
    requires |s2| <= 1 && (s2 != [] ==> s2[0] in SEPARATORS)
    ensures SubscriberValid(d5 + s2 + d4)
  {
    var b := d5 + s2 + d4;
    assert b[..5] == d5;
    assert b[5..] == s2 + d4;
    if s2 == [] {
      assert s2 + d4 == d4;
      assert d4[0] !in SEPARATORS;
    } else {
      assert (s2 + d4)[1..] == d4;
    }
  }

  /** After the area code: an optional `)`, an optional separator, then the subscriber number. */
  lemma AfterAreaAccepts(rp: bool, s1: string, tail: string)
    requires SubscriberValid(tail) && IsDigit(tail[0])
    requires |s1| <= 1 && (s1 != [] ==> s1[0] in SEPARATORS)
    ensures SubscriberValid(DropIf(DropIf(Opt(rp, ')') + (s1 + tail), {')'}), SEPARATORS))
  {
    assert (s1 + tail) != [] ==> (s1 + tail)[0] != ')' by {
      if s1 == [] { assert s1 + tail == tail; }
    }
    DropOpt(rp, ')', s1 + tail, {')'});
    if s1 == [] {
      assert s1 + tail == tail;
    } else {
      assert s1 + tail == Opt(true, s1[0]) + tail;
      DropOpt(true, s1[0], tail, SEPARATORS);
    }
  }

  /** The pieces the expression is made of: 2 + 5 + 4 digits and two optional separators. */
  predicate Parts(s1: string, s2: string, d2: string, d5: string, d4: string) {
    && |d2| == 2 && |d5| == 5 && |d4| == 4 && AllDigits(d2) && AllDigits(d5) && AllDigits(d4)
    && |s1| <= 1 && (s1 != [] ==> s1[0] in SEPARATORS)
    && |s2| <= 1 && (s2 != [] ==> s2[0] in SEPARATORS)
  }

  /** The string the expression spells out from its pieces, optional parentheses included or not. */
  function Spelled(lp: bool, rp: bool, s1: string, s2: string, d2: string, d5: string, d4: string): string {
    Opt(lp, '(') + (d2 + (Opt(rp, ')') + (s1 + (d5 + s2 + d4))))
  }

  /** The validation accepts every string the expression describes: optional
      parentheses around the area code, optional separators, 2 + 5 + 4 digits. */
  lemma PhoneValidAccepts(lp: bool, rp: bool, s1: string, s2: string, d2: string, d5: string, d4: string)
    requires Parts(s1, s2, d2, d5, d4)
    ensures PhoneValid(Spelled(lp, rp, s1, s2, d2, d5, d4))
  {
    var tail := d5 + s2 + d4;
    SubscriberAccepts(s2, d5, d4);
    assert tail[0] == d5[0];
    AfterAreaAccepts(rp, s1, tail);
    var rest := Opt(rp, ')') + (s1 + tail);
    var a := d2 + rest;
    DropOpt(lp, '(', a, {'('});
    assert a[..2] == d2 && a[2..] == rest;
  }

  /** A string is its optional leading token followed by what DropIf leaves. */
  lemma DropIfSplit(x: string, tokens: set<char>)
    ensures x != [] && x[0] in tokens ==> x == [x[0]] + DropIf(x, tokens)
    ensures !(x != [] && x[0] in tokens) ==> x == DropIf(x, tokens)
  {
    if x != [] && x[0] in tokens {
      assert x == [x[0]] + x[1..];
    }
  }

  /** The taken token as an optional separator: empty or one separator. */
  function Taken(x: string, tokens: set<char>): (t: string)
    ensures x == t + DropIf(x, tokens)
    ensures |t| <= 1 && (t != [] ==> t[0] in tokens)
  {
    DropIfSplit(x, tokens);
    if x != [] && x[0] in tokens then [x[0]] else []
  }

  /** A subscriber part that passes is five digits, an optional separator and four digits. */
  lemma SubscriberParts(b: string) returns (d5: string, s2: string, d4: string)
    requires SubscriberValid(b)
    ensures b == d5 + s2 + d4
    ensures |d5| == 5 && |d4| == 4 && AllDigits(d5) && AllDigits(d4)
    ensures |s2| <= 1 && (s2 != [] ==> s2[0] in SEPARATORS)
  {
    var c := b[5..];
    d5 := b[..5];
    assert b == d5 + c;
    s2 := Taken(c, SEPARATORS);
    d4 := DropIf(c, SEPARATORS);
  }

  /** Conversely, the validation accepts only strings the expression describes. */
  lemma PhoneValidOnlyRegex(s: string)
    requires PhoneValid(s)
    ensures exists lp, rp, s1, s2, d2, d5, d4 ::
              Parts(s1, s2, d2, d5, d4) && s == Spelled(lp, rp, s1, s2, d2, d5, d4)
  {
    var a := DropIf(s, {'('});
    var lp := s != [] && s[0] == '(';
    DropIfSplit(s, {'('});
    assert s == Opt(lp, '(') + a;
    var d2, r := a[..2], a[2..];
    assert a == d2 + r;
    var rp := r != [] && r[0] == ')';
    var b1 := DropIf(r, {')'});
    DropIfSplit(r, {')'});
    assert r == Opt(rp, ')') + b1;
    var s1 := Taken(b1, SEPARATORS);
    var b := DropIf(b1, SEPARATORS);
    var d5, s2, d4 := SubscriberParts(b);
    assert Parts(s1, s2, d2, d5, d4);
    assert s == Spelled(lp, rp, s1, s2, d2, d5, d4);
  }

  /** Dropping an optional non-digit token keeps the digits. */
  lemma DigitsDropIf(x: string, tokens: set<char>)
    requires x != [] && x[0] in tokens ==> !IsDigit(x[0])
    ensures Digits(DropIf(x, tokens)) == Digits(x)
  {
  }

  lemma DigitsSplit(x: string, k: int)
    requires 0 <= k <= |x| && AllDigits(x[..k])
    ensures Digits(x) == x[..k] + Digits(x[k..])
  {
    assert x == x[..k] + x[k..];
    DigitsAppend(x[..k], x[k..]);
    DigitsOfDigits(x[..k]);
  }

  /** The subscriber part that passes holds nine digits. */
  lemma SubscriberHasNineDigits(b: string)
    requires SubscriberValid(b)
    ensures |Digits(b)| == 9
  {
    DigitsSplit(b, 5);
    var d := DropIf(b[5..], SEPARATORS);
    DigitsDropIf(b[5..], SEPARATORS);
    DigitsOfDigits(d);
  }

  /** Whatever the punctuation, a number that passes holds exactly eleven digits. */
  lemma ValidHasElevenDigits(s: string)
    requires PhoneValid(s)
    ensures |Digits(s)| == 11
  {
    var a := DropIf(s, {'('});
    DigitsDropIf(s, {'('});
    DigitsSplit(a, 2);
    var b1 := DropIf(a[2..], {')'});
    DigitsDropIf(a[2..], {')'});
    var b := DropIf(b1, SEPARATORS);
    DigitsDropIf(b1, SEPARATORS);
    SubscriberHasNineDigits(b);
  }

  /** A completed mask passes the validation: each optional token is there. */
  lemma MaskCompleteIsValid(s: string)
    requires MaskComplete(s)
    ensures PhoneValid(s)
  {
    var a := DropIf(s, {'('});
    assert a == s[1..];
    assert a[..2] == s[1..3] && a[2..] == s[3..];
    assert DropIf(s[3..], {')'}) == s[4..];
    assert DropIf(s[4..], SEPARATORS) == s[5..];
    var b := s[5..];
    assert b[..5] == s[5..10] && b[5..] == s[10..];
    assert DropIf(s[10..], SEPARATORS) == s[11..];
  }

  /** Two, five and four digits laid out as the mask lays them out form a complete mask. */
  lemma MaskShape(a: string, b: string, c: string)
    requires |a| == 2 && |b| == 5 && |c| == 4 && AllDigits(a) && AllDigits(b) && AllDigits(c)
    ensures MaskComplete("(" + a + ") " + b + "-" + c)
  {
    var r := "(" + a + ") " + b + "-" + c;
    assert r[1..3] == a && r[5..10] == b && r[11..] == c;
  }

  /** The mask of a run of digits is complete exactly when there are at least eleven. */
  lemma MaskCompleteIffEleven(n: string)
    requires AllDigits(n)
    ensures MaskComplete(Mask(n)) <==> |n| >= 11
  {
    if |n| >= 11 {
      MaskShape(n[..2], n[2..7], n[7..11]);
    } else {
      assert |Mask(n)| < 15;
    }
  }

  /** The mask is complete exactly when the input holds at least eleven digits;
      eleven digits therefore always format to a number that passes. */
  lemma FormatCompleteIffEleven(value: string)
    ensures MaskComplete(FormatPhone(value)) <==> |Digits(value)| >= 11
    ensures |Digits(value)| >= 11 ==> PhoneValid(FormatPhone(value))
    ensures PhoneValid(value) ==> MaskComplete(FormatPhone(value))
  {
    DigitsAreDigits(value);
    MaskCompleteIffEleven(Digits(value));
    if PhoneValid(value) {
      ValidHasElevenDigits(value);
    }
    if |Digits(value)| >= 11 {
      MaskCompleteIsValid(FormatPhone(value));
    }
  }

  // ---------------------------------------------------------------------------
  // The validator

  /** The error shown under each field; "" for none. */
  datatype Errors = Errors(name: string, phone: string)

  const NoErrors: Errors := Errors("", "")

  /** What validateFields records: each field's error depends on that field alone. */
  function FieldErrors(name: string, phone: string): (e: Errors)
    ensures e.name != "" <==> Blank(name)
    ensures e.phone != "" <==> !PhoneValid(phone)
  {
    Errors(if Blank(name) then NAME_REQUIRED else "", if PhoneValid(phone) then "" else PHONE_FORMAT)
  }

  /** The fields are valid exactly when no error is recorded. */
  lemma ValidIffNoErrors(name: string, phone: string)
    ensures (!AllSpace(name) && PhoneValid(phone)) <==> FieldErrors(name, phone) == NoErrors
  {
    TrimEmptyIffAllSpace(name);
  }

  // ---------------------------------------------------------------------------
  // The form

  /** The component's state: the two fields, the errors, the step (1: details,
      2: confirmation), whether a creation is in flight and whether it succeeded. */
  class Modal {
    var name: string
    var phone: string
    var isLoading: bool
    var errors: Errors
    var step: int
    var success: bool

    ghost predicate Valid()
      reads this
    {
      step == 1 || step == 2
    }

    constructor ()
      ensures Valid()
      ensures name == "" && phone == "" && !isLoading && errors == NoErrors && step == 1 && !success
    {
      name, phone, isLoading, errors, step, success := "", "", false, NoErrors, 1, false;
    }

    /** validateFields: records each field's error and answers whether both pass. */
    method ValidateFields() returns (isValid: bool)
      modifies this
      ensures isValid <==> !Blank(name) && PhoneValid(phone)
      ensures errors == FieldErrors(name, phone)
      ensures name == old(name) && phone == old(phone) && isLoading == old(isLoading)
      ensures step == old(step) && success == old(success)
    {
      var nameBlank, phoneValid := Blank(name), PhoneValid(phone);
      isValid := true;
      var newErrors := NoErrors;
      if nameBlank {
        newErrors := newErrors.(name := NAME_REQUIRED);
        isValid := false;
      }
      if !phoneValid {
        newErrors := newErrors.(phone := PHONE_FORMAT);
        isValid := false;
      }
      assert newErrors == FieldErrors(name, phone);
      errors := newErrors;
    }

    /** handlePhoneChange: store the formatted value; clear a phone error once
        the mask is complete. */
    method HandlePhoneChange(input: string)
      modifies this
      ensures phone == FormatPhone(input)
      ensures errors == if old(errors.phone) != "" && MaskComplete(phone) then old(errors).(phone := "") else old(errors)
      ensures name == old(name) && isLoading == old(isLoading) && step == old(step) && success == old(success)
    {
      phone := FormatPhone(input);
      if errors.phone != "" && MaskComplete(phone) {
        errors := errors.(phone := "");
      }
    }

    /** handleNameChange: store the value; clear a name error once it is not blank. */
    method HandleNameChange(input: string)
      modifies this
      ensures name == input
      ensures errors == if old(errors.name) != "" && !Blank(input) then old(errors).(name := "") else old(errors)
      ensures phone == old(phone) && isLoading == old(isLoading) && step == old(step) && success == old(success)
    {
      name := input;
      if errors.name != "" && !Blank(input) {
        errors := errors.(name := "");
      }
    }

    /** handleSubmit, up to the call: ignored while a creation is in flight;
        otherwise marks loading and answers that onCreateConversation is called. */
    method HandleSubmit() returns (started: bool)
      modifies this
      ensures started <==> !old(isLoading)
      ensures isLoading
      ensures name == old(name) && phone == old(phone) && errors == old(errors)
      ensures step == old(step) && success == old(success)
    {
      if isLoading {
        return false;
      }
      isLoading := true;
      started := true;
    }

    /** handleSubmit, after the call settles: success shows the success screen;
        failure returns to step 1 with an error on the name field. */
    method FinishSubmit(created: bool)
      requires Valid()
      modifies this
      ensures Valid()
      ensures !isLoading
      ensures created ==> success && step == old(step) && errors == old(errors)
      ensures !created ==> success == old(success) && step == 1 && errors == old(errors).(name := CREATE_FAILED)
      ensures name == old(name) && phone == old(phone)
    {
      if created {
        success := true;
      } else {
        errors := errors.(name := CREATE_FAILED);
        step := 1;
      }
      isLoading := false;
    }

    /** handleContinue: validate; from step 1 go to step 2, from step 2 submit.
        Nothing moves unless both fields pass. */
    method HandleContinue() returns (started: bool)
      requires Valid()
      modifies this
      ensures Valid()
      ensures errors == FieldErrors(name, phone)
      ensures var ok := !Blank(old(name)) && PhoneValid(old(phone));
              && step == (if ok && old(step) == 1 then 2 else old(step))
              && (started <==> ok && old(step) == 2 && !old(isLoading))
              && isLoading == (old(isLoading) || started)
      ensures name == old(name) && phone == old(phone) && success == old(success)
    {
      ghost var ok := !Blank(name) && PhoneValid(phone);
      var isValid := ValidateFields();
      assert isValid == ok;
      started := false;
      if isValid {
        if step == 1 {
          step := 2;
        } else {
          started := HandleSubmit();
        }
      }
    }

    /** handleKeyDown of the two fields: Enter continues, any other key does nothing. */
    method HandleKeyDown(key: string) returns (started: bool)
      requires Valid()
      modifies this
      ensures Valid()
      ensures key != "Enter" ==> !started && unchanged(this)
      ensures key == "Enter" ==>
                && errors == FieldErrors(name, phone)
                && var ok := !Blank(old(name)) && PhoneValid(old(phone));
                   && step == (if ok && old(step) == 1 then 2 else old(step))
                   && (started <==> ok && old(step) == 2 && !old(isLoading))
                   && isLoading == (old(isLoading) || started)
                   && name == old(name) && phone == old(phone) && success == old(success)
    {
      started := false;
      if key == "Enter" {
        started := HandleContinue();
      }
    }

    /** The confirmation screen's back button. */
    method GoBack()
      modifies this
      ensures Valid() && step == 1
      ensures name == old(name) && phone == old(phone) && errors == old(errors)
      ensures isLoading == old(isLoading) && success == old(success)
    {
      step := 1;
    }
  }
}
