/** The public contact form: the field rules checked in the browser, the
    e-mail pattern, the body sent to the server, and the loading, success
    and error flags of a submit. */
module SiteContactPage {
  import opened Common
  import opened Text
  import ContactModel

  // ------------------------------------------------------- e-mail pattern

  /** The character classes of `/^[A-Z0-9._%+-]+@[A-Z0-9.-]+\.[A-Z]{2,}$/i`;
      with the `i` flag and no `u` flag a letter class matches ASCII letters
      of either case and nothing else. */
  predicate Letter(c: char) {
    'A' <= c <= 'Z' || 'a' <= c <= 'z'
  }

  predicate Digit(c: char) {
    '0' <= c <= '9'
  }

  predicate LocalChar(c: char) {
    Letter(c) || Digit(c) || c == '.' || c == '_' || c == '%' || c == '+' || c == '-'
  }

  predicate DomainChar(c: char) {
    Letter(c) || Digit(c) || c == '.' || c == '-'
  }

  /** `[A-Z0-9._%+-]+` */
  predicate LocalPart(s: string) {
    |s| > 0 && forall k :: 0 <= k < |s| ==> LocalChar(s[k])
  }

  /** `[A-Z0-9.-]+` */
  predicate DomainPart(s: string) {
    |s| > 0 && forall k :: 0 <= k < |s| ==> DomainChar(s[k])
  }

  /** `[A-Z]{2,}` */
  predicate TopLevel(s: string) {
    |s| >= 2 && forall k :: 0 <= k < |s| ==> Letter(s[k])
  }

  /** The pattern matches with the `@` at `i` and the `\.` at `j`. */
  predicate MatchesAt(s: string, i: nat, j: nat) {
    && i < j < |s| && s[i] == '@' && s[j] == '.'
    && LocalPart(s[..i]) && DomainPart(s[i + 1..j]) && TopLevel(s[j + 1..])
  }

  /** The whole string matches the pattern. */
  ghost predicate EmailPattern(s: string) {
    exists i: nat, j: nat :: MatchesAt(s, i, j)
  }

  function IndexOf(s: string, c: char): (r: Option<nat>)
    ensures r.None? <==> c !in s
    ensures r.Some? ==> r.value < |s| && s[r.value] == c && forall k :: 0 <= k < r.value ==> s[k] != c
  {
    if s == [] then None
    else if s[0] == c then Some(0)
    else
      var r := IndexOf(s[1..], c);
      if r.None? then None else Some(r.value + 1)
  }

  function LastIndexOf(s: string, c: char): (r: Option<nat>)
    ensures r.None? <==> c !in s
    ensures r.Some? ==> r.value < |s| && s[r.value] == c && forall k :: r.value < k < |s| ==> s[k] != c
  {
    if s == [] then None
    else if s[|s| - 1] == c then Some(|s| - 1)
    else
      var r := LastIndexOf(s[..|s| - 1], c);
      if r.None? then None else Some(r.value)
  }

  /** The check as one pass can run it: the `@` is the first one, the dot
      before the top-level part is the last one. */
  function EmailAccepted(s: string): (b: bool)
    ensures b <==> EmailPattern(s)
  {
    var at := IndexOf(s, '@');
    var dot := LastIndexOf(s, '.');
    MatchAtFirstAtLastDot(s);
    at.Some? && dot.Some? && MatchesAt(s, at.value, dot.value)
  }

  /** Any match has its `@` at the first `@` and its dot at the last dot:
      no class before the `@` holds an `@`, and no letter is a dot. */
  lemma MatchAtFirstAtLastDot(s: string)
    ensures (exists i: nat, j: nat :: MatchesAt(s, i, j)) ==>
              IndexOf(s, '@').Some? && LastIndexOf(s, '.').Some?
              && MatchesAt(s, IndexOf(s, '@').value, LastIndexOf(s, '.').value)
  {
    if i: nat, j: nat :| MatchesAt(s, i, j) {
      NoAtBefore(s, i, j);
      NoDotAfter(s, i, j);
    }
  }

  lemma NoAtBefore(s: string, i: nat, j: nat)
    requires MatchesAt(s, i, j)
    ensures IndexOf(s, '@') == Some(i)
  {
    forall k | 0 <= k < i ensures s[k] != '@' {
      assert s[k] == s[..i][k];
    }
  }

  lemma NoDotAfter(s: string, i: nat, j: nat)
    requires MatchesAt(s, i, j)
    ensures LastIndexOf(s, '.') == Some(j)
  {
    forall k | j < k < |s| ensures s[k] != '.' {
      assert s[k] == s[j + 1..][k - j - 1];
    }
  }

  /** An accepted address has exactly one `@`, and ends with a dot followed
      by two or more letters. */
  lemma AcceptedEmailShape(s: string)
    requires EmailAccepted(s)
    ensures var i := IndexOf(s, '@').value;
            forall k :: 0 <= k < |s| && s[k] == '@' ==> k == i
    ensures var j := LastIndexOf(s, '.').value;
            |s| - j - 1 >= 2 && forall k :: j < k < |s| ==> Letter(s[k])
  {
    var i := IndexOf(s, '@').value;
    var j := LastIndexOf(s, '.').value;
    assert MatchesAt(s, i, j);
    OnlyOneAt(s, i, j);
    LettersAfterDot(s, i, j);
  }

  lemma OnlyOneAt(s: string, i: nat, j: nat)
    requires MatchesAt(s, i, j)
    ensures forall k :: 0 <= k < |s| && s[k] == '@' ==> k == i
  {
    forall k | 0 <= k < |s| && k != i ensures s[k] != '@' {
      if k < i {
        assert s[k] == s[..i][k];
      } else if i < k < j {
        assert s[k] == s[i + 1..j][k - i - 1];
      } else if j < k {
        assert s[k] == s[j + 1..][k - j - 1];
      }
    }
  }

  lemma LettersAfterDot(s: string, i: nat, j: nat)
    requires MatchesAt(s, i, j)
    ensures forall k :: j < k < |s| ==> Letter(s[k])
  {
    forall k | j < k < |s| ensures Letter(s[k]) {
      assert s[k] == s[j + 1..][k - j - 1];
    }
  }

  // --------------------------------------------------------------- form

  datatype FormData = FormData(name: string, email: string, phone: string, company: string,
                               service: string, subject: string, message: string)

  /** The form after `reset()`. */
  const EmptyForm := FormData("", "", "", "", "", "", "")

  /** The error shown under each checked field; `None` is no error. */
  datatype FieldErrors = FieldErrors(name: Option<string>, email: Option<string>,
                                     subject: Option<string>, message: Option<string>)

  predicate NoErrors(e: FieldErrors) {
    e.name.None? && e.email.None? && e.subject.None? && e.message.None?
  }

  /** The rules of the form: name, subject and message required (an empty
      text fails), the e-mail required and matching the pattern; phone,
      company and service free. */
  ghost predicate FormAccepted(f: FormData) {
    f.name != "" && f.email != "" && EmailPattern(f.email) && f.subject != "" && f.message != ""
  }

  /** The `register` rules: `required` first, then the e-mail pattern. */
  function Validate(f: FormData): (e: FieldErrors)
    ensures NoErrors(e) <==> FormAccepted(f)
    ensures e.name.Some? <==> f.name == ""
    ensures e.email.Some? <==> !EmailPattern(f.email)
    ensures e.email == Some("E-posta gerekli") <==> f.email == ""
    ensures e.subject.Some? <==> f.subject == ""
    ensures e.message.Some? <==> f.message == ""
  {
    FieldErrors(
      if f.name == "" then Some("Ad soyad gerekli") else None,
      if f.email == "" then Some("E-posta gerekli")
      else if !EmailAccepted(f.email) then Some("Geçersiz e-posta adresi") else None,
      if f.subject == "" then Some("Konu gerekli") else None,
      if f.message == "" then Some("Mesaj gerekli") else None)
  }

  /** Phone, company and service never stop a submit. */
  lemma OptionalFieldsFree(f: FormData, phone: string, company: string, service: string)
    ensures Validate(f.(phone := phone, company := company, service := service)) == Validate(f)
  {
  }

  /** `contactAPI.submit(data)`: every registered field is sent as typed. */
  function BodyOf(f: FormData): (b: ContactModel.ContactBody)
    ensures b.name == Some(f.name) && b.email == Some(f.email) && b.subject == Some(f.subject)
    ensures b.message == Some(f.message) && b.status.None? && b.notes.None?
  {
    ContactModel.ContactBody(Some(f.name), Some(f.email), Some(f.phone), Some(f.company), Some(f.service),
                             Some(f.subject), Some(f.message), None, None)
  }

  /** A form the browser accepts is stored by the server exactly when its
      name is not blank: the server trims the name before its `required`
      check, the browser does not. */
  lemma ServerAcceptsValidForm(f: FormData)
    requires FormAccepted(f)
    ensures ContactModel.BodyAccepted(BodyOf(f)) <==> !IsBlank(f.name)
  {
    AcceptedEmailNotBlank(f.email);
  }

  lemma AcceptedEmailNotBlank(email: string)
    requires EmailPattern(email)
    ensures !IsBlank(ToLower(email))
  {
    var i: nat, j: nat :| MatchesAt(email, i, j);
    var low := ToLower(email);
    assert low[i] == '@';
    NotBlankAt(low, i);
  }

  // -------------------------------------------------------------- submit

  /** The error text of a failed submit. */
  const SendError := "Mesaj gönderilemedi. Lütfen tekrar deneyin."

  class ContactForm {
    var fields: FormData
    var loading: bool
    var success: bool
    var error: string

    /** The success notice and the error text never show together. */
    ghost predicate Valid()
      reads this
    {
      !(success && error != "")
    }

    constructor ()
      ensures Valid() && fields == EmptyForm && !loading && !success && error == ""
    {
      fields := EmptyForm;
      loading := false;
      success := false;
      error := "";
    }

    /** The visitor types into the form. */
    method Edit(f: FormData)
      requires Valid()
      modifies this
      ensures Valid() && fields == f
      ensures loading == old(loading) && success == old(success) && error == old(error)
    {
      fields := f;
    }

    /** The start of `onSubmit`: loading, with both notices cleared. */
    method Begin()
      requires Valid()
      modifies this
      ensures Valid() && loading && !success && error == "" && fields == old(fields)
    {
      loading := true;
      success := false;
      error := "";
    }

    /** The end of `onSubmit`, `ok` being the server's answer: success
      resets the form, failure sets the error text; loading ends either
      way. */
    method Finish(ok: bool)
      requires Valid() && loading && !success && error == ""
      modifies this
      ensures Valid() && !loading
      ensures ok ==> success && error == "" && fields == EmptyForm
      ensures !ok ==> !success && error == SendError && fields == old(fields)
    {
      if ok {
        success := true;
        fields := EmptyForm;
      } else {
        error := SendError;
      }
      loading := false;
    }

    /** `handleSubmit(onSubmit)`: a form with an error sends nothing and
      changes nothing; otherwise the body is sent and the flags run their
      sequence. */
    method Submit(ok: bool) returns (sent: Option<ContactModel.ContactBody>)
      requires Valid()
      modifies this
      ensures Valid()
      ensures !FormAccepted(old(fields)) ==>
                (sent.None? && fields == old(fields) && loading == old(loading)
                 && success == old(success) && error == old(error))
      ensures FormAccepted(old(fields)) ==>
                (&& sent == Some(BodyOf(old(fields))) && !loading
                 && (ok ==> success && error == "" && fields == EmptyForm)
                 && (!ok ==> !success && error == SendError && fields == old(fields)))
    {
      if !NoErrors(Validate(fields)) {
        return None;
      }
      sent := Some(BodyOf(fields));
      Begin();
      Finish(ok);
    }
  }
}
