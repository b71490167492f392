/**
 * Client-side validation of the contact form (`validateForm`, app.js lines 72-98).
 *
 * A field read with `formData.get` is `None` when the form has no control of that
 * name (JavaScript's `null`) and `Some(text)` otherwise.
 */
module FormValidation {
  import opened Wrappers
  import opened JsText

  /** The four values the form submits. */
  datatype FormData = FormData(
    name: Option<string>,
    email: Option<string>,
    subject: Option<string>,
    message: Option<string>)

  const NameError := "Please enter a valid name (at least 2 characters)"
  const EmailError := "Please enter a valid email address"
  const SubjectError := "Please enter a subject (at least 3 characters)"
  const MessageError := "Please enter a message (at least 10 characters)"

  /** The four messages in the order the checks run. */
  const Messages: seq<string> := [NameError, EmailError, SubjectError, MessageError]

  // ---------------------------------------------------------------------------
  // The e-mail pattern /^[^\s@]+@[^\s@]+\.[^\s@]+$/
  // ---------------------------------------------------------------------------

  /** A non-empty run of characters from the class `[^\s@]`. */
  predicate Segment(x: string) {
    |x| > 0 && forall t | 0 <= t < |x| :: x[t] != '@' && !IsSpace(x[t])
  }

  /**
   * What the regular expression matches, read structurally: a segment, an `@`,
   * a segment, a `.`, a segment, and nothing else. The regex may choose any `.`
   * after the `@` (the middle class admits dots), so the witness is a pair of
   * positions.
   */
  ghost predicate MatchesEmailPattern(s: string) {
    exists i, j :: 0 <= i < j < |s| && s[i] == '@' && s[j] == '.'
      && Segment(s[..i]) && Segment(s[i + 1..j]) && Segment(s[j + 1..])
  }

  /** Some `.` in `d` has at least one character before it and one after it. */
  predicate HasInnerDot(d: string) {
    exists k | 1 <= k < |d| - 1 :: d[k] == '.'
  }

  /**
   * The e-mail test as the form applies it: no white space anywhere, exactly one
   * `@`, something before it, and a domain after it with a `.` that has a
   * character on each side.
   */
  predicate IsEmailAddress(s: string)
    ensures IsEmailAddress(s) ==> |s| >= 5 && s[0] != '@'
  {
    && NoSpace(s)
    && multiset(s)['@'] == 1
    && var at := IndexOf(s, '@');
       0 < at < |s| && HasInnerDot(s[at + 1..])
  }

  /** Removing one `@` from a string that holds exactly one leaves none. */
  lemma SingleAt(s: string, at: nat)
    requires at < |s| && s[at] == '@'
    ensures multiset(s)['@'] == multiset(s[..at])['@'] + 1 + multiset(s[at + 1..])['@']
  {
    assert s == s[..at] + [s[at]] + s[at + 1..];
  }

  /** Every string the form's e-mail test accepts matches the regular expression. */
  lemma {:induction false} EmailPredicateSound(s: string)
    requires IsEmailAddress(s)
    ensures MatchesEmailPattern(s)
  {
    var at := IndexOf(s, '@');
    var d := s[at + 1..];
    var k :| 1 <= k < |d| - 1 && d[k] == '.';
    var j := at + 1 + k;
    SingleAt(s, at);
    assert '@' !in s[at + 1..] by {
      assert '@' !in multiset(s[at + 1..]);
    }
    assert s[at + 1..j] == d[..k] && s[j + 1..] == d[k + 1..];
    assert Segment(s[..at]);
    assert Segment(s[at + 1..j]);
    assert Segment(s[j + 1..]);
  }

  /** Gluing strings free of white space gives a string free of white space. */
  lemma NoSpaceJoin(a: string, b: string)
    requires NoSpace(a) && NoSpace(b)
    ensures NoSpace(a + b)
  {
    forall t | 0 <= t < |a + b|
      ensures !IsSpace((a + b)[t])
    {
      if t >= |a| { assert (a + b)[t] == b[t - |a|]; }
    }
  }

  /** A segment holds no `@`. */
  lemma SegmentHasNoAt(x: string)
    requires Segment(x)
    ensures '@' !in x && NoSpace(x)
  {
  }

  /** With no `@` on either side, the joined string has exactly one, after `local`. */
  lemma OneAt(local: string, d: string)
    requires '@' !in local && '@' !in d
    ensures multiset(local + ['@'] + d)['@'] == 1
    ensures IndexOf(local + ['@'] + d, '@') == |local|
  {
    var s := local + ['@'] + d;
    assert s[..|local|] == local && s[|local| + 1..] == d;
    SingleAt(s, |local|);
  }

  /** The three segments around `@` and `.` pass the form's e-mail test. */
  lemma EmailFromParts(local: string, host: string, top: string)
    requires Segment(local) && Segment(host) && Segment(top)
    ensures IsEmailAddress(local + ['@'] + (host + ['.'] + top))
  {
    var d := host + ['.'] + top;
    var s := local + ['@'] + d;
    SegmentHasNoAt(local);
    SegmentHasNoAt(host);
    SegmentHasNoAt(top);
    assert '@' !in d;
    NoSpaceJoin(host, ['.']);
    NoSpaceJoin(host + ['.'], top);
    NoSpaceJoin(local, ['@']);
    NoSpaceJoin(local + ['@'], d);
    OneAt(local, d);
    assert s[|local| + 1..] == d;
    assert d[|host|] == '.';
  }

  /** Every string matching the regular expression passes the form's e-mail test. */
  lemma {:induction false} EmailPredicateComplete(s: string)
    requires MatchesEmailPattern(s)
    ensures IsEmailAddress(s)
  {
    var i, j :| 0 <= i < j < |s| && s[i] == '@' && s[j] == '.'
      && Segment(s[..i]) && Segment(s[i + 1..j]) && Segment(s[j + 1..]);
    assert s == s[..i] + ['@'] + (s[i + 1..j] + ['.'] + s[j + 1..]);
    EmailFromParts(s[..i], s[i + 1..j], s[j + 1..]);
  }

  /** The form's e-mail test is exactly the language of the regular expression. */
  lemma EmailPredicateMatchesPattern(s: string)
    ensures IsEmailAddress(s) <==> MatchesEmailPattern(s)
  {
    if IsEmailAddress(s) { EmailPredicateSound(s); }
    if MatchesEmailPattern(s) { EmailPredicateComplete(s); }
  }

  // ---------------------------------------------------------------------------
  // validateForm
  // ---------------------------------------------------------------------------

  /** JavaScript truthiness of a field value: present and not the empty string. */
  predicate Truthy(v: Option<string>) {
    v.Some? && v.value != ""
  }

  /** A missing field reads as the empty string in every rule below. */
  function Text(v: Option<string>): string {
    v.GetOr("")
  }

  /**
   * The four rules, each stated on the trimmed text with `null` read as "";
   * lengths are JavaScript's, in UTF-16 code units.
   */
  predicate NameOk(f: FormData) { Utf16Length(Trim(Text(f.name))) >= 2 }
  predicate EmailOk(f: FormData) { IsEmailAddress(Text(f.email)) }
  predicate SubjectOk(f: FormData) { Utf16Length(Trim(Text(f.subject))) >= 3 }
  predicate MessageOk(f: FormData) { Utf16Length(Trim(Text(f.message))) >= 10 }

  /** The position of a message's field in the order name, e-mail, subject, message. */
  function Rank(e: string): nat {
    if e == NameError then 0
    else if e == EmailError then 1
    else if e == SubjectError then 2
    else 3
  }

  /** `errors` holds configured messages only, each of a later field than the one before. */
  predicate InFieldOrder(errors: seq<string>) {
    && (forall i | 0 <= i < |errors| :: errors[i] in Messages)
    && forall i, j | 0 <= i < j < |errors| :: Rank(errors[i]) < Rank(errors[j])
  }

  /**
   * One trimmed-length rule as written (`!v || v.trim().length < min`): it
   * fails exactly when the trimmed text, with a missing value read as "", is
   * shorter than `min` UTF-16 code units.
   */
  function LengthFails(v: Option<string>, min: nat): (fails: bool)
    requires min > 0
    ensures fails <==> Utf16Length(Trim(Text(v))) < min
  {
    !Truthy(v) || Utf16Length(Trim(v.value)) < min
  }

  /** The e-mail rule as written (`!email || !emailRegex.test(email)`). */
  function EmailFails(v: Option<string>): (fails: bool)
    ensures fails <==> !IsEmailAddress(Text(v))
  {
    assert !IsEmailAddress("");
    !Truthy(v) || !IsEmailAddress(v.value)
  }

  /** The four messages are told apart (by their lengths), so each has its own rank. */
  lemma MessagesDistinct()
    ensures Rank(NameError) == 0 && Rank(EmailError) == 1
    ensures Rank(SubjectError) == 2 && Rank(MessageError) == 3
    ensures NameError != EmailError && NameError != SubjectError && NameError != MessageError
    ensures EmailError != SubjectError && EmailError != MessageError && SubjectError != MessageError
  {
    assert |NameError| == 49 && |EmailError| == 34 && |SubjectError| == 46 && |MessageError| == 47;
  }

  /** `errors.push(msg)` when `fails`. */
  function PushIf(errors: seq<string>, fails: bool, msg: string): (r: seq<string>)
    ensures |r| == |errors| + (if fails then 1 else 0)
    ensures forall m :: m in r <==> m in errors || (fails && m == msg)
  {
    if fails then errors + [msg] else errors
  }

  /** Pushing a message of a later field than every message so far keeps the order. */
  lemma PushKeepsOrder(errors: seq<string>, fails: bool, msg: string)
    requires InFieldOrder(errors) && msg in Messages
    requires forall i | 0 <= i < |errors| :: Rank(errors[i]) < Rank(msg)
    ensures InFieldOrder(PushIf(errors, fails, msg))
  {
  }

  /** The four pushes of `validateForm`, given which rules fail. */
  function Collect(nameFails: bool, emailFails: bool, subjectFails: bool, messageFails: bool): (errors: seq<string>)
    ensures |errors| <= 4
    ensures NameError in errors <==> nameFails
    ensures EmailError in errors <==> emailFails
    ensures SubjectError in errors <==> subjectFails
    ensures MessageError in errors <==> messageFails
    ensures errors == [] <==> !nameFails && !emailFails && !subjectFails && !messageFails
  {
    MessagesDistinct();
    PushIf(PushIf(PushIf(PushIf([], nameFails, NameError), emailFails, EmailError),
                  subjectFails, SubjectError), messageFails, MessageError)
  }

  /** Each push is of a later field than the ones before it, so the order is the fields' order. */
  lemma CollectInFieldOrder(nameFails: bool, emailFails: bool, subjectFails: bool, messageFails: bool)
    ensures InFieldOrder(Collect(nameFails, emailFails, subjectFails, messageFails))
  {
    MessagesDistinct();
    var e1 := PushIf([], nameFails, NameError);
    PushKeepsOrder([], nameFails, NameError);
    var e2 := PushIf(e1, emailFails, EmailError);
    PushKeepsOrder(e1, emailFails, EmailError);
    var e3 := PushIf(e2, subjectFails, SubjectError);
    PushKeepsOrder(e2, subjectFails, SubjectError);
    PushKeepsOrder(e3, messageFails, MessageError);
  }

  /**
   * `validateForm`: every check runs, and each appends its message exactly
   * when its own rule fails; there are no messages exactly when all four rules
   * hold. `ValidateFormInFieldOrder` gives the order of the messages.
   */
  function ValidateForm(f: FormData): (errors: seq<string>)
    ensures |errors| <= 4
    ensures NameError in errors <==> !NameOk(f)
    ensures EmailError in errors <==> !EmailOk(f)
    ensures SubjectError in errors <==> !SubjectOk(f)
    ensures MessageError in errors <==> !MessageOk(f)
    ensures errors == [] <==> NameOk(f) && EmailOk(f) && SubjectOk(f) && MessageOk(f)
  {
    Collect(LengthFails(f.name, 2), EmailFails(f.email), LengthFails(f.subject, 3), LengthFails(f.message, 10))
  }

  /** The messages come in the order name, e-mail, subject, message. */
  lemma ValidateFormInFieldOrder(f: FormData)
    ensures InFieldOrder(ValidateForm(f))
  {
    CollectInFieldOrder(LengthFails(f.name, 2), EmailFails(f.email),
                        LengthFails(f.subject, 3), LengthFails(f.message, 10));
  }

  /**
   * Only the first message is shown: it belongs to the earliest field, in the
   * order name, e-mail, subject, message, whose rule fails.
   */
  lemma FirstErrorIsEarliestField(f: FormData)
    requires ValidateForm(f) != []
    ensures ValidateForm(f)[0] ==
      if !NameOk(f) then NameError
      else if !EmailOk(f) then EmailError
      else if !SubjectOk(f) then SubjectError
      else MessageError
  {
    var errors := ValidateForm(f);
    ValidateFormInFieldOrder(f);
    MessagesDistinct();
    assert errors[0] in Messages;
  }

  /** A form without some control validates like one whose control is empty. */
  lemma MissingFieldIsEmpty(f: FormData)
    ensures ValidateForm(f.(name := None)) == ValidateForm(f.(name := Some("")))
    ensures ValidateForm(f.(email := None)) == ValidateForm(f.(email := Some("")))
    ensures ValidateForm(f.(subject := None)) == ValidateForm(f.(subject := Some("")))
    ensures ValidateForm(f.(message := None)) == ValidateForm(f.(message := Some("")))
  {
  }

  /** Sample addresses: one accepted, four rejected. */
  lemma EmailExamples()
    ensures IsEmailAddress("a@b.co")
    ensures !IsEmailAddress("a@b")
    ensures !IsEmailAddress("a.com")
    ensures !IsEmailAddress("a @b.com")
    ensures !IsEmailAddress("")
  {
    assert "a@b.co"[3] == '.';
    assert multiset("a.com")['@'] == 0;
  }

  /**
   * Lengths are counted as JavaScript counts them: one emoji is two UTF-16
   * code units, so it is a long enough name.
   */
  lemma AstralNameIsLongEnough()
    ensures NameOk(FormData(Some("\U{1F600}"), None, None, None))
  {
    TrimUnpadded("\U{1F600}");
  }

  /** A form failing every rule reports the name first. */
  lemma InvalidFormExample()
    ensures ValidateForm(FormData(Some("A"), Some("bad"), Some("Hi"), Some("short")))[0] == NameError
  {
    FirstErrorIsEarliestField(FormData(Some("A"), Some("bad"), Some("Hi"), Some("short")));
  }

  /** The three segments of the sample address, joined. */
  lemma SampleAddressParts()
    ensures IsEmailAddress("alice" + ['@'] + ("example" + ['.'] + "com"))
  {
    EmailFromParts("alice", "example", "com");
  }

  /** The sample address passes the e-mail test. */
  lemma SampleAddress(s: string)
    requires s == "alice@example.com"
    ensures IsEmailAddress(s)
  {
    SampleAddressParts();
    SampleAddressSplits();
  }

  /** The sample address is its three segments around `@` and `.`. */
  lemma SampleAddressSplits()
    ensures "alice@example.com" == "alice" + ['@'] + ("example" + ['.'] + "com")
  {
  }

  /** A sample form that meets every rule. */
  const SampleForm := FormData(Some("Alice"), Some("alice@example.com"), Some("Hello"),
                               Some("This is a long enough message."))

  /** The sample name is long enough. */
  lemma SampleName()
    ensures NameOk(SampleForm)
  {
    TrimUnpadded("Alice");
  }

  /** The sample subject is long enough. */
  lemma SampleSubject()
    ensures SubjectOk(SampleForm)
  {
    TrimUnpadded("Hello");
  }

  /** The sample message is long enough. */
  lemma SampleMessage()
    ensures MessageOk(SampleForm)
  {
    TrimUnpadded("This is a long enough message.");
  }

  /** The address of the sample form meets the e-mail rule. */
  lemma SampleFormEmail()
    ensures EmailOk(SampleForm)
  {
    SampleAddress(SampleForm.email.value);
  }

  /** A form meeting every rule reports nothing, so the submission goes ahead. */
  lemma ValidFormExample()
    ensures ValidateForm(SampleForm) == []
  {
    SampleName();
    SampleSubject();
    SampleMessage();
    SampleFormEmail();
  }
}
