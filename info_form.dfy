/** The intake form (frontend/src/components/InfoForm.jsx): seven text fields, live
    error messages for the email and the contact number, the digit filter on the
    contact input, and the final check that lets the form advance. */
module InfoForm {
  import opened Wrappers
  import opened JsText

  /** A character that `[^\s@]` matches. */
  predicate IsPartChar(c: char) {
    !IsWhitespace(c) && c != '@'
  }

  /** A string that `[^\s@]+` matches. */
  predicate IsPart(s: string) {
    |s| > 0 && forall i :: 0 <= i < |s| ==> IsPartChar(s[i])
  }

  /** A dot that is neither the first nor the last character. */
  predicate HasInnerDot(d: string) {
    exists j :: 0 < j < |d| - 1 && d[j] == '.'
  }

  /** `emailIsValid`, `/^[^\s@]+@[^\s@]+\.[^\s@]+$/.test(v)`: no white space, a
      single `@` with something before it, and a dot after it with something on
      either side. */
  predicate EmailIsValid(v: string) {
    && (forall i :: 0 <= i < |v| ==> !IsWhitespace(v[i]))
    && '@' in v
    && var at := IndexOf(v, '@');
    && at > 0 && '@' !in v[at + 1..] && HasInnerDot(v[at + 1..])
  }

  /** Every string of the shape `a@b.c` (each part matching `[^\s@]+`) is accepted. */
  lemma EmailOfParts(a: string, b: string, c: string)
    requires IsPart(a) && IsPart(b) && IsPart(c)
    ensures EmailIsValid(a + ['@'] + b + ['.'] + c)
  {
    var v := a + ['@'] + b + ['.'] + c;
    assert v == a + ['@'] + (b + ['.'] + c);
    IndexOfAfter(a, '@', b + ['.'] + c);
    var d := v[|a| + 1..];
    assert d == b + ['.'] + c;
    assert d[|b|] == '.';
    forall i | 0 <= i < |d|
      ensures d[i] != '@'
    {
      if i < |b| { assert d[i] == b[i]; } else if i > |b| { assert d[i] == c[i - |b| - 1]; }
    }
    forall i | 0 <= i < |v|
      ensures !IsWhitespace(v[i])
    {
      if i < |a| {
        assert v[i] == a[i];
      } else if i > |a| {
        var k := i - |a| - 1;
        assert v[i] == d[k];
        if k < |b| {
          assert d[k] == b[k];
        } else if k > |b| {
          assert d[k] == c[k - |b| - 1];
        }
      }
    }
  }

  /** Every accepted string has the shape `a@b.c`. */
  lemma PartsOfEmail(v: string) returns (a: string, b: string, c: string)
    requires EmailIsValid(v)
    ensures IsPart(a) && IsPart(b) && IsPart(c)
    ensures v == a + ['@'] + b + ['.'] + c
  {
    var at := IndexOf(v, '@');
    var d := v[at + 1..];
    var j :| 0 < j < |d| - 1 && d[j] == '.';
    a, b, c := v[..at], d[..j], d[j + 1..];
    forall i | 0 <= i < |a|
      ensures IsPartChar(a[i])
    {
      assert a[i] == v[i];
    }
    forall i | 0 <= i < |d|
      ensures IsPartChar(d[i])
    {
      assert d[i] == v[at + 1 + i];
    }
    assert forall i :: 0 <= i < |b| ==> b[i] == d[i];
    assert forall i :: 0 <= i < |c| ==> c[i] == d[j + 1 + i];
    assert d == b + ['.'] + c;
    assert v == a + ['@'] + d;
  }

  /** `phoneIsValid`, `/^\d{10}$/.test(v)`: exactly ten ASCII digits. */
  predicate PhoneIsValid(v: string) {
    |v| == 10 && AllDigits(v)
  }

  /** `v.replace(/\D/g, "")`: the digits of `v`, in order. */
  function StripNonDigits(v: string): (r: string)
    ensures AllDigits(r) && |r| <= |v|
  {
    if v == [] then []
    else (if IsDigit(v[0]) then [v[0]] else []) + StripNonDigits(v[1..])
  }

  /** Filtering a single character keeps it exactly when it is a digit. */
  lemma StripNonDigitsChar(c: char)
    ensures StripNonDigits([c]) == if IsDigit(c) then [c] else []
  {
    assert [c][1..] == [];
  }

  /** Filtering works piece by piece: the digits of `a + b` are the digits of `a`
      followed by the digits of `b`. With the single-character case this pins the
      result down as the input's digits in their order. */
  lemma {:induction false} StripNonDigitsAppend(a: string, b: string)
    ensures StripNonDigits(a + b) == StripNonDigits(a) + StripNonDigits(b)
  {
    if a != [] {
      assert (a + b)[0] == a[0] && (a + b)[1..] == a[1..] + b;
      StripNonDigitsAppend(a[1..], b);
    } else {
      assert a + b == b;
    }
  }

  /** The number of ASCII digits in a string. */
  function DigitCount(v: string): nat {
    if v == [] then 0 else (if IsDigit(v[0]) then 1 else 0) + DigitCount(v[1..])
  }

  /** Filtering keeps exactly the digits, so a string of digits is left as it is. */
  lemma {:induction false} StripKeepsDigits(v: string)
    ensures |StripNonDigits(v)| == DigitCount(v)
    ensures AllDigits(v) ==> StripNonDigits(v) == v
  {
    if v != [] {
      StripKeepsDigits(v[1..]);
      if AllDigits(v) {
        assert AllDigits(v[1..]) by {
          forall i | 0 <= i < |v[1..]| ensures IsDigit(v[1..][i]) {
            assert v[1..][i] == v[i + 1];
          }
        }
        assert [v[0]] + v[1..] == v;
      }
    }
  }

  /** The filtered contact number is valid exactly when the input had ten digits,
      whatever else it held. */
  lemma PhoneOfFiltered(v: string)
    ensures PhoneIsValid(StripNonDigits(v)) <==> DigitCount(v) == 10
  {
    StripKeepsDigits(v);
  }

  const EmailMessage := "Email is invalid"
  const PhoneMessage := "Phone must be 10 digits"

  /** The live email message: none for an empty or valid value. */
  function EmailError(v: string): (e: string)
    ensures e == "" <==> v == "" || EmailIsValid(v)
    ensures e != "" ==> e == EmailMessage
  {
    if v == "" then "" else if EmailIsValid(v) then "" else EmailMessage
  }

  /** The live contact message: none for an empty or valid value. */
  function ContactError(v: string): (e: string)
    ensures e == "" <==> v == "" || PhoneIsValid(v)
    ensures e != "" ==> e == PhoneMessage
  {
    if v == "" then "" else if PhoneIsValid(v) then "" else PhoneMessage
  }

  /** The form's fields. */
  datatype Field = Name | Email | Contact | Hometown | Gender | Campus | Branch

  /** The form state; every field starts empty. */
  datatype Form = Form(
    name: string, email: string, contact: string, hometown: string,
    gender: string, campus: string, branch: string)
  {
    function Get(k: Field): string {
      match k
      case Name => name
      case Email => email
      case Contact => contact
      case Hometown => hometown
      case Gender => gender
      case Campus => campus
      case Branch => branch
    }

    /** `{ ...s, [k]: v }`. */
    function With(k: Field, v: string): (f: Form)
      ensures f.Get(k) == v
      ensures forall k' :: k' != k ==> f.Get(k') == Get(k')
    {
      match k
      case Name => this.(name := v)
      case Email => this.(email := v)
      case Contact => this.(contact := v)
      case Hometown => this.(hometown := v)
      case Gender => this.(gender := v)
      case Campus => this.(campus := v)
      case Branch => this.(branch := v)
    }
  }

  const EmptyForm := Form("", "", "", "", "", "", "")

  /** The form with its two error messages. */
  class Intake {
    var form: Form
    var emailError: string
    var contactError: string

    /** A message is one of the two texts, and for a non-empty value a message is
        shown exactly when the value is invalid. */
    ghost predicate Valid()
      reads this
    {
      && (emailError == "" || emailError == EmailMessage)
      && (contactError == "" || contactError == PhoneMessage)
      && (form.email != "" ==> (emailError == "" <==> EmailIsValid(form.email)))
      && (form.contact != "" ==> (contactError == "" <==> PhoneIsValid(form.contact)))
    }

    constructor ()
      ensures Valid() && form == EmptyForm && emailError == "" && contactError == ""
    {
      form, emailError, contactError := EmptyForm, "", "";
    }

    /** `handleChange(k, v)`: field k becomes v, and the email or contact message
        is recomputed when that is the field changed. */
    method Change(k: Field, v: string)
      requires Valid()
      modifies this
      ensures Valid()
      ensures form == old(form).With(k, v)
      ensures emailError == if k == Email then EmailError(v) else old(emailError)
      ensures contactError == if k == Contact then ContactError(v) else old(contactError)
    {
      form := form.With(k, v);
      if k == Email {
        emailError := EmailError(v);
      }
      if k == Contact {
        contactError := ContactError(v);
      }
    }

    /** Typing into the contact input stores only the digits typed. */
    method TypeContact(raw: string)
      requires Valid()
      modifies this
      ensures Valid()
      ensures form == old(form).With(Contact, StripNonDigits(raw)) && AllDigits(form.contact)
      ensures emailError == old(emailError) && contactError == ContactError(form.contact)
    {
      Change(Contact, StripNonDigits(raw));
    }

    /** `handleSubmit`: the form goes on exactly when both the email and the
        contact number are valid; an invalid one gets its message. */
    method Submit() returns (next: Option<Form>)
      requires Valid()
      modifies this
      ensures Valid() && form == old(form)
      ensures next.Some? <==> EmailIsValid(form.email) && PhoneIsValid(form.contact)
      ensures next.Some? ==> next.value == form
      ensures emailError == if EmailIsValid(form.email) then old(emailError) else EmailMessage
      ensures contactError == if PhoneIsValid(form.contact) then old(contactError) else PhoneMessage
    {
      var emailBad := !EmailIsValid(form.email);
      var contactBad := !PhoneIsValid(form.contact);
      if emailBad {
        emailError := EmailMessage;
      }
      if contactBad {
        contactError := PhoneMessage;
      }
      if emailBad || contactBad {
        return None;
      }
      next := Some(form);
    }
  }
}
