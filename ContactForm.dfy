/** The contact form's submit handler: a client-side check that name, email
    and message are not blank, then an error or a (simulated) success. */
module ContactForm {

  const ErrorText: string := "Please fill the required fields."
  const SuccessText: string := "Thanks \U{2014} your message was received (demo)."

  /** The characters `String.prototype.trim` removes: ECMAScript WhiteSpace and LineTerminator. */
  predicate IsJsWhitespace(c: char)
  {
    c == '\t' || c == '\n' || c == '\U{B}' || c == '\U{C}' || c == '\r' || c == ' '
    || c == '\U{A0}' || c == '\U{1680}' || ('\U{2000}' <= c <= '\U{200A}')
    || c == '\U{2028}' || c == '\U{2029}' || c == '\U{202F}' || c == '\U{205F}'
    || c == '\U{3000}' || c == '\U{FEFF}'
  }

  ghost predicate AllWhitespace(s: string)
  {
    forall i :: 0 <= i < |s| ==> IsJsWhitespace(s[i])
  }

  /** `s` without its leading whitespace. */
  function TrimStart(s: string): (r: string)
    ensures |r| <= |s| && r == s[|s| - |r|..]
    ensures r == [] || !IsJsWhitespace(r[0])
    ensures forall i :: 0 <= i < |s| - |r| ==> IsJsWhitespace(s[i])
  {
    if |s| > 0 && IsJsWhitespace(s[0]) then
      var rest := s[1..];
      var r := TrimStart(rest);
      assert rest[|rest| - |r|..] == s[|s| - |r|..];
      assert forall i :: 1 <= i < |s| - |r| ==> s[i] == rest[i - 1];
      r
    else s
  }

  /** `s` without its trailing whitespace. */
  function TrimEnd(s: string): (r: string)
    ensures |r| <= |s| && r == s[..|r|]
    ensures r == [] || !IsJsWhitespace(r[|r| - 1])
    ensures forall i :: |r| <= i < |s| ==> IsJsWhitespace(s[i])
  {
    if |s| > 0 && IsJsWhitespace(s[|s| - 1]) then
      var init := s[..|s| - 1];
      var r := TrimEnd(init);
      assert init[..|r|] == s[..|r|];
      assert forall i :: |r| <= i < |s| - 1 ==> s[i] == init[i];
      r
    else s
  }

  /** `r` is the slice of `s` starting at `i`, and everything of `s` outside it is whitespace. */
  ghost predicate CutAt(s: string, r: string, i: nat)
    requires i + |r| <= |s|
  {
    && r == s[i..i + |r|]
    && (forall k :: 0 <= k < i ==> IsJsWhitespace(s[k]))
    && (forall k :: i + |r| <= k < |s| ==> IsJsWhitespace(s[k]))
  }

  /** `s.trim()`: the slice `s[i..i + |r|]` left once only whitespace is
      cut from both ends, which neither starts nor ends with whitespace. */
  function Trim(s: string): (r: string)
    ensures |r| <= |s|
    ensures exists i :: 0 <= i <= |s| - |r| && CutAt(s, r, i)
    ensures r == [] || (!IsJsWhitespace(r[0]) && !IsJsWhitespace(r[|r| - 1]))
  {
    TrimCut(s);
    TrimEnd(TrimStart(s))
  }

  /** A whitespace-only suffix `t` of `s` cut down to a prefix `r` by
      dropping only whitespace leaves `r` as a slice of `s` with nothing
      but whitespace around it. */
  lemma SliceCut(s: string, t: string, r: string)
    requires |t| <= |s| && t == s[|s| - |t|..]
    requires forall k :: 0 <= k < |s| - |t| ==> IsJsWhitespace(s[k])
    requires |r| <= |t| && r == t[..|r|]
    requires forall k :: |r| <= k < |t| ==> IsJsWhitespace(t[k])
    ensures CutAt(s, r, |s| - |t|)
  {
    var i := |s| - |t|;
    assert r == s[i..i + |r|];
    forall k | i + |r| <= k < |s|
      ensures IsJsWhitespace(s[k])
    {
      assert s[k] == t[k - i];
    }
  }

  /** The slice facts for `Trim(s)`, from the contracts of `TrimStart` and `TrimEnd`. */
  lemma TrimCut(s: string)
    ensures CutAt(s, TrimEnd(TrimStart(s)), |s| - |TrimStart(s)|)
  {
    SliceCut(s, TrimStart(s), TrimEnd(TrimStart(s)));
  }

  /** A value is blank after trimming exactly when every character of it is whitespace. */
  lemma TrimEmptyIffWhitespace(s: string)
    ensures Trim(s) == "" <==> AllWhitespace(s)
  {
  }

  datatype Verdict = Rejected | Accepted

  /** The handler's check: the submission is rejected iff one of the three
      required values consists of whitespace only (the empty value included). */
  function Validate(name: string, email: string, message: string): (v: Verdict)
    ensures v == Rejected <==> AllWhitespace(name) || AllWhitespace(email) || AllWhitespace(message)
  {
    TrimEmptyIffWhitespace(name);
    TrimEmptyIffWhitespace(email);
    TrimEmptyIffWhitespace(message);
    if Trim(name) == "" || Trim(email) == "" || Trim(message) == "" then Rejected else Accepted
  }

  /** The `#contact-form` element with its three required inputs and the `#contact-status` element. */
  class Form {
    var name: string
    var email: string
    var message: string
    /** The values `form.reset()` restores. */
    const defaultName: string
    const defaultEmail: string
    const defaultMessage: string
    /** Whether `#contact-status` exists. */
    const hasStatus: bool
    var status: string
    /** Whether the status is shown in the error colour. */
    var statusIsError: bool

    /** The form as the page's markup provides it: default values, whether
        the status element exists, and the status it initially shows. */
    constructor (defaults: (string, string, string), hasStatus: bool, status: string, statusIsError: bool)
      ensures (name, email, message) == defaults
      ensures (defaultName, defaultEmail, defaultMessage) == defaults
      ensures this.hasStatus == hasStatus
      ensures this.status == status && this.statusIsError == statusIsError
    {
      name, email, message := defaults.0, defaults.1, defaults.2;
      defaultName, defaultEmail, defaultMessage := defaults.0, defaults.1, defaults.2;
      this.hasStatus := hasStatus;
      this.status, this.statusIsError := status, statusIsError;
    }

    /** The user types into the three inputs. */
    method Fill(name: string, email: string, message: string)
      modifies this`name, this`email, this`message
      ensures this.name == name && this.email == email && this.message == message
    {
      this.name, this.email, this.message := name, email, message;
    }

    /** The submit handler. It always prevents the page reload first. A
        missing status element makes the first write to it throw, so the
        submission then changes nothing else. */
    method Submit() returns (prevented: bool)
      modifies this
      ensures prevented
      ensures !hasStatus ==> unchanged(this)
      ensures hasStatus && Validate(old(name), old(email), old(message)) == Rejected ==>
        status == ErrorText && statusIsError
        && name == old(name) && email == old(email) && message == old(message)
      ensures hasStatus && Validate(old(name), old(email), old(message)) == Accepted ==>
        status == SuccessText && !statusIsError
        && name == defaultName && email == defaultEmail && message == defaultMessage
    {
      prevented := true;
      if !hasStatus {
        return;
      }
      if Validate(name, email, message) == Rejected {
        status := ErrorText;
        statusIsError := true;
        return;
      }
      statusIsError := false;
      status := SuccessText;
      name, email, message := defaultName, defaultEmail, defaultMessage;
    }
  }
}
