/**
 * The client-side validation of the contact form (`validate` in
 * src/components/Contact.tsx): three "required" checks on the trimmed fields
 * and a shape check of the untrimmed email against `^\S+@\S+\.\S+$`.
 */
module ContactValidation {
  import opened Wrappers

  /** ECMAScript's WhiteSpace and LineTerminator code points: the set that `\s`
      matches and that `String.prototype.trim` removes. */
  predicate IsWhitespace(c: char) {
    c == '\t' || c == '\n' || c == '\U{000B}' || c == '\U{000C}' || c == '\r' || c == ' '
    || c == '\U{00A0}' || c == '\U{1680}' || ('\U{2000}' <= c <= '\U{200A}')
    || c == '\U{2028}' || c == '\U{2029}' || c == '\U{202F}' || c == '\U{205F}'
    || c == '\U{3000}' || c == '\U{FEFF}'
  }

  /** Every character is white space (the empty string included). */
  predicate Blank(s: string) {
    forall k :: 0 <= k < |s| ==> IsWhitespace(s[k])
  }

  /** No character is white space: what a run of `\S` matches. */
  predicate NoWhitespace(s: string) {
    forall k :: 0 <= k < |s| ==> !IsWhitespace(s[k])
  }

  /** `String.prototype.trim` removes white space from both ends. */
  function TrimStart(s: string): string {
    if s != [] && IsWhitespace(s[0]) then TrimStart(s[1..]) else s
  }

  function TrimEnd(s: string): string {
    if s != [] && IsWhitespace(s[|s| - 1]) then TrimEnd(s[..|s| - 1]) else s
  }

  function Trim(s: string): string {
    TrimEnd(TrimStart(s))
  }

  /** Trimming the start leaves the longest suffix that does not start with
      white space. */
  lemma {:induction false} TrimStartSuffix(s: string)
    ensures |TrimStart(s)| <= |s| && TrimStart(s) == s[|s| - |TrimStart(s)|..]
    ensures forall k :: 0 <= k < |s| - |TrimStart(s)| ==> IsWhitespace(s[k])
    ensures TrimStart(s) == [] || !IsWhitespace(TrimStart(s)[0])
  {
    if s != [] && IsWhitespace(s[0]) {
      TrimStartSuffix(s[1..]);
      assert TrimStart(s) == TrimStart(s[1..]);
      forall k | 0 <= k < |s| - |TrimStart(s)| ensures IsWhitespace(s[k]) {
        if k > 0 {
          assert s[k] == s[1..][k - 1];
        }
      }
    }
  }

  /** Trimming the end leaves the longest prefix that does not end with white
      space. */
  lemma {:induction false} TrimEndPrefix(s: string)
    ensures |TrimEnd(s)| <= |s| && TrimEnd(s) == s[..|TrimEnd(s)|]
    ensures forall k :: |TrimEnd(s)| <= k < |s| ==> IsWhitespace(s[k])
    ensures TrimEnd(s) == [] || !IsWhitespace(TrimEnd(s)[|TrimEnd(s)| - 1])
  {
    if s != [] && IsWhitespace(s[|s| - 1]) {
      TrimEndPrefix(s[..|s| - 1]);
      assert TrimEnd(s) == TrimEnd(s[..|s| - 1]);
      forall k | |TrimEnd(s)| <= k < |s| ensures IsWhitespace(s[k]) {
        if k < |s| - 1 {
          assert s[k] == s[..|s| - 1][k];
        }
      }
    }
  }

  /** `!s.trim()` holds exactly when the string is blank. */
  lemma TrimEmptyIffBlank(s: string)
    ensures Trim(s) == [] <==> Blank(s)
  {
    var r := TrimStart(s);
    TrimStartSuffix(s);
    TrimEndPrefix(r);
    if Trim(s) == [] {
      assert r == [];
    }
  }

  /** The first index at or after `from` that holds `c`. */
  function Find(s: string, c: char, from: nat): Option<nat>
    decreases |s| - from
  {
    if from >= |s| then None
    else if s[from] == c then Some(from)
    else Find(s, c, from + 1)
  }

  /** `Find` returns the first occurrence, or `None` when there is none. */
  lemma {:induction false} FindFirst(s: string, c: char, from: nat)
    ensures Find(s, c, from).Some? ==>
      var r := Find(s, c, from).value;
      from <= r < |s| && s[r] == c && forall k :: from <= k < r ==> s[k] != c
    ensures Find(s, c, from).None? ==> forall k :: from <= k < |s| ==> s[k] != c
    decreases |s| - from
  {
    if from < |s| && s[from] != c {
      FindFirst(s, c, from + 1);
    }
  }

  /** `^\S+@\S+\.\S+$` as the regular expression defines it: the string splits
      into three non-empty runs of non-white-space characters, separated by an
      '@' and then a '.'. */
  ghost predicate MatchesEmailPattern(s: string) {
    exists i, j :: 0 <= i < j < |s| && s[i] == '@' && s[j] == '.'
      && |s[..i]| > 0 && NoWhitespace(s[..i])
      && |s[i + 1..j]| > 0 && NoWhitespace(s[i + 1..j])
      && |s[j + 1..]| > 0 && NoWhitespace(s[j + 1..])
  }

  /** A direct test of the email shape: no white space anywhere, an '@' at some
      index i >= 1 (the first such is best), and a '.' at some index j with
      i + 2 <= j <= |s| - 2. */
  function EmailShapeOk(s: string): bool {
    NoWhitespace(s) &&
    match Find(s, '@', 1)
    case None => false
    case Some(i) =>
      match Find(s, '.', i + 2)
      case None => false
      case Some(j) => j + 2 <= |s|
  }

  /** Every string the direct test accepts matches the regular expression. */
  lemma EmailShapeOkMatches(s: string)
    requires EmailShapeOk(s)
    ensures MatchesEmailPattern(s)
  {
    FindFirst(s, '@', 1);
    var i := Find(s, '@', 1).value;
    FindFirst(s, '.', i + 2);
    var j := Find(s, '.', i + 2).value;
    assert NoWhitespace(s[..i]) && NoWhitespace(s[i + 1..j]) && NoWhitespace(s[j + 1..]);
    assert |s[..i]| > 0 && |s[i + 1..j]| > 0 && |s[j + 1..]| > 0;
  }

  /** A match of the three segments has no white space anywhere. */
  lemma SegmentsNoWhitespace(s: string, i: nat, j: nat)
    requires i < j < |s| && s[i] == '@' && s[j] == '.'
    requires NoWhitespace(s[..i]) && NoWhitespace(s[i + 1..j]) && NoWhitespace(s[j + 1..])
    ensures NoWhitespace(s)
  {
    forall k | 0 <= k < |s| ensures !IsWhitespace(s[k]) {
      if k < i {
        assert s[k] == s[..i][k];
      } else if i < k < j {
        assert s[k] == s[i + 1..j][k - i - 1];
      } else if j < k {
        assert s[k] == s[j + 1..][k - j - 1];
      }
    }
  }

  /** Every string the regular expression matches passes the direct test. */
  lemma PatternPassesEmailShape(s: string)
    requires MatchesEmailPattern(s)
    ensures EmailShapeOk(s)
  {
    var i, j :| 0 <= i < j < |s| && s[i] == '@' && s[j] == '.'
      && |s[..i]| > 0 && NoWhitespace(s[..i])
      && |s[i + 1..j]| > 0 && NoWhitespace(s[i + 1..j])
      && |s[j + 1..]| > 0 && NoWhitespace(s[j + 1..]);
    SegmentsNoWhitespace(s, i, j);
    FindFirst(s, '@', 1);
    var fi := Find(s, '@', 1);
    assert fi.Some? && fi.value <= i;
    FindFirst(s, '.', fi.value + 2);
    var fj := Find(s, '.', fi.value + 2);
    assert fj.Some? && fj.value <= j;
  }

  /** The direct test accepts exactly the strings the regular expression matches. */
  lemma EmailShapeOkIffPattern(s: string)
    ensures EmailShapeOk(s) <==> MatchesEmailPattern(s)
  {
    if EmailShapeOk(s) {
      EmailShapeOkMatches(s);
    }
    if MatchesEmailPattern(s) {
      PatternPassesEmailShape(s);
    }
  }

  /** Because the email is checked untrimmed, white space at either end fails it. */
  lemma PaddedEmailRejected(s: string)
    requires |s| > 0 && (IsWhitespace(s[0]) || IsWhitespace(s[|s| - 1]))
    ensures !MatchesEmailPattern(s)
  {
    EmailShapeOkIffPattern(s);
  }

  datatype FormValues = FormValues(name: string, email: string, message: string)

  /** The four messages `validate` can report. */
  datatype ErrorMessage = NameRequired | EmailRequired | EmailInvalid | MessageRequired {
    /** The text shown under the field. */
    function Text(): string {
      match this
      case NameRequired => "Name is required"
      case EmailRequired => "Email is required"
      case EmailInvalid => "Enter a valid email"
      case MessageRequired => "Message is required"
    }
  }

  /** The error record: an absent key is `None`. */
  datatype FieldErrors = FieldErrors(name: Option<ErrorMessage>, email: Option<ErrorMessage>, message: Option<ErrorMessage>)

  const EmptyForm := FormValues("", "", "")
  const NoErrors := FieldErrors(None, None, None)

  /** `Object.keys(errs).length`. */
  function ErrorCount(e: FieldErrors): (n: nat)
    ensures n <= 3
    ensures n == 0 <==> e == NoErrors
  {
    (if e.name.Some? then 1 else 0) + (if e.email.Some? then 1 else 0) + (if e.message.Some? then 1 else 0)
  }

  /** `validate`: each entry depends on its own field only; the email's format is
      checked only when the email is not blank. */
  function Validate(v: FormValues): (errs: FieldErrors)
    ensures errs.name == (if Blank(v.name) then Some(NameRequired) else None)
    ensures errs.email == (if Blank(v.email) then Some(EmailRequired)
                           else if !MatchesEmailPattern(v.email) then Some(EmailInvalid)
                           else None)
    ensures errs.message == (if Blank(v.message) then Some(MessageRequired) else None)
  {
    TrimEmptyIffBlank(v.name);
    TrimEmptyIffBlank(v.email);
    TrimEmptyIffBlank(v.message);
    EmailShapeOkIffPattern(v.email);
    FieldErrors(
      if Trim(v.name) == "" then Some(NameRequired) else None,
      if Trim(v.email) == "" then Some(EmailRequired)
      else if !EmailShapeOk(v.email) then Some(EmailInvalid)
      else None,
      if Trim(v.message) == "" then Some(MessageRequired) else None)
  }

  /** The form passes exactly when no field is blank and the email matches. */
  lemma ValidateAcceptsExactly(v: FormValues)
    ensures ErrorCount(Validate(v)) == 0 <==>
      !Blank(v.name) && !Blank(v.message) && !Blank(v.email) && MatchesEmailPattern(v.email)
  {
  }

  /** The initial (and the reset) form fails with all three "required" errors. */
  lemma EmptyFormAllRequired()
    ensures Validate(EmptyForm) == FieldErrors(Some(NameRequired), Some(EmailRequired), Some(MessageRequired))
    ensures ErrorCount(Validate(EmptyForm)) == 3
  {
  }
}
