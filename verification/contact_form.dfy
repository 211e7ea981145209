/** The `validate` function of the contact form: a map from each field that
    fails its check to the message shown under it. The email check is the
    pattern `^[A-Z0-9._%+-]+@[A-Z0-9.-]+\.[A-Z]{2,4}$` with the `i` flag; it
    is a plausibility filter, not the address grammar of any standard. */
module ContactForm {

  import opened Wrappers

  datatype Field = Name | Email | Message

  /** The submitted values; a field never touched is `undefined` (`None`). */
  datatype FormValues = FormValues(name: Option<string>, email: Option<string>, message: Option<string>)

  const NameRequired: string := "请输入姓名"
  const EmailRequired: string := "请输入邮箱"
  const EmailInvalid: string := "无效的邮箱格式"
  const MessageRequired: string := "请输入留言内容"

  /** `!value` for a form value: missing or the empty string. */
  predicate Falsy(v: Option<string>)
  {
    v.None? || v.value == ""
  }

  // ----- Character classes of the pattern -----

  /** `[A-Z]` under the `i` flag. Without the `u` flag, case folding never
      maps a non-ASCII character to an ASCII one (`ı`, `ſ`), so exactly the
      52 ASCII letters match. */
  predicate Letter(c: char)
  {
    'A' <= c <= 'Z' || 'a' <= c <= 'z'
  }

  predicate Digit(c: char)
  {
    '0' <= c <= '9'
  }

  /** `[A-Z0-9._%+-]`, the characters before the `@`. */
  predicate LocalChar(c: char)
  {
    Letter(c) || Digit(c) || c == '.' || c == '_' || c == '%' || c == '+' || c == '-'
  }

  /** `[A-Z0-9.-]`, the characters of the domain. */
  predicate DomainChar(c: char)
  {
    Letter(c) || Digit(c) || c == '.' || c == '-'
  }

  predicate AllLocal(s: string)
  {
    forall i :: 0 <= i < |s| ==> LocalChar(s[i])
  }

  predicate AllDomain(s: string)
  {
    forall i :: 0 <= i < |s| ==> DomainChar(s[i])
  }

  predicate AllLetters(s: string)
  {
    forall i :: 0 <= i < |s| ==> Letter(s[i])
  }

  // ----- Searching a string -----

  /** The number of occurrences of `c` in `s`. */
  function Count(s: string, c: char): (n: nat)
    ensures n <= |s|
    ensures n == 0 <==> c !in s
  {
    if |s| == 0 then 0 else (if s[0] == c then 1 else 0) + Count(s[1..], c)
  }

  /** The first index of `c` in `s`, or `|s|` when there is none. */
  function IndexOf(s: string, c: char): (i: nat)
    ensures i <= |s|
    ensures i < |s| ==> s[i] == c
    ensures forall j :: 0 <= j < i ==> s[j] != c
  {
    if |s| == 0 || s[0] == c then 0 else 1 + IndexOf(s[1..], c)
  }

  /** The last index of `c` in `s`, or -1 when there is none. */
  function LastIndexOf(s: string, c: char): (i: int)
    ensures -1 <= i < |s|
    ensures i >= 0 ==> s[i] == c
    ensures forall j :: i < j < |s| ==> s[j] != c
    decreases |s|
  {
    if |s| == 0 then -1
    else if s[|s| - 1] == c then |s| - 1
    else LastIndexOf(s[..|s| - 1], c)
  }

  lemma {:induction false} CountAppend(a: string, b: string, c: char)
    ensures Count(a + b, c) == Count(a, c) + Count(b, c)
    decreases |a|
  {
    if |a| == 0 {
      assert a + b == b;
    } else {
      assert (a + b)[1..] == a[1..] + b;
      CountAppend(a[1..], b, c);
    }
  }

  // ----- The email pattern -----

  /** The domain after the `@`: domain characters only, and a last `.` with
      something before it and two to four letters after it. */
  predicate ValidDomain(d: string)
  {
    && AllDomain(d)
    && var k := LastIndexOf(d, '.');
       k >= 1 && 2 <= |d| - k - 1 <= 4 && AllLetters(d[k + 1..])
  }

  /** The email check as a direct test: exactly one `@`, a non-empty local
      part of local characters before it, a valid domain after it. An
      accepted address has at least six characters (`a@b.cd`), starts with a
      local character and ends with two letters. */
  predicate IsValidEmail(s: string)
    ensures IsValidEmail(s) ==> 6 <= |s| && LocalChar(s[0]) && Letter(s[|s| - 2]) && Letter(s[|s| - 1])
  {
    && Count(s, '@') == 1
    && var at := IndexOf(s, '@');
       at >= 1 && AllLocal(s[..at]) && ValidDomain(s[at + 1..])
  }

  /** The pattern read atom by atom: `s` matches with its `@` at `at` and the
      `.` before the final letters at `dot`. */
  ghost predicate MatchesAt(s: string, at: int, dot: int)
  {
    && 0 < at < dot < |s|
    && AllLocal(s[..at])
    && s[at] == '@'
    && at + 1 < dot && AllDomain(s[at + 1..dot])
    && s[dot] == '.'
    && 2 <= |s| - (dot + 1) <= 4 && AllLetters(s[dot + 1..])
  }

  /** `s` matches the whole pattern for some choice of the two positions. */
  ghost predicate MatchesPattern(s: string)
  {
    exists at, dot :: MatchesAt(s, at, dot)
  }

  lemma ValidEmailMatches(s: string)
    requires IsValidEmail(s)
    ensures MatchesAt(s, IndexOf(s, '@'), IndexOf(s, '@') + 1 + LastIndexOf(s[IndexOf(s, '@') + 1..], '.'))
  {
  }

  /** The `@` of a match is the only one in the string. */
  lemma MatchHasOneAt(s: string, at: int, dot: int)
    requires MatchesAt(s, at, dot)
    ensures Count(s, '@') == 1 && IndexOf(s, '@') == at
  {
    var local, rest := s[..at], s[at + 1..];
    assert s == local + ([s[at]] + rest);
    assert '@' !in local by {
      forall i | 0 <= i < |local| ensures local[i] != '@' { assert LocalChar(local[i]); }
    }
    assert '@' !in rest by {
      forall i | 0 <= i < |rest| ensures rest[i] != '@' {
        if i < dot - at - 1 {
          assert rest[i] == s[at + 1..dot][i];
          assert DomainChar(s[at + 1..dot][i]);
        } else if i > dot - at - 1 {
          assert rest[i] == s[dot + 1..][i - (dot - at)];
          assert Letter(s[dot + 1..][i - (dot - at)]);
        }
      }
    }
    CountAppend(local, [s[at]] + rest, '@');
    CountAppend([s[at]], rest, '@');
    assert Count([s[at]], '@') == 1;
    assert forall j :: 0 <= j < at ==> s[j] != '@' by {
      forall j | 0 <= j < at ensures s[j] != '@' { assert s[j] == local[j]; }
    }
  }

  /** What follows the `@` of a match is a valid domain. */
  lemma MatchHasValidDomain(s: string, at: int, dot: int)
    requires MatchesAt(s, at, dot)
    ensures ValidDomain(s[at + 1..])
  {
  }

  lemma MatchIsValidEmail(s: string, at: int, dot: int)
    requires MatchesAt(s, at, dot)
    ensures IsValidEmail(s)
  {
    MatchHasOneAt(s, at, dot);
    MatchHasValidDomain(s, at, dot);
  }

  /** The direct test and the pattern accept exactly the same strings. */
  lemma EmailCheckIsPattern(s: string)
    ensures IsValidEmail(s) <==> MatchesPattern(s)
  {
    if IsValidEmail(s) {
      ValidEmailMatches(s);
    }
    if MatchesPattern(s) {
      var at, dot :| MatchesAt(s, at, dot);
      MatchIsValidEmail(s, at, dot);
    }
  }

  // ----- Case insensitivity -----

  /** ASCII upper-casing, the case folding the `i` flag applies here. */
  function FoldCase(c: char): char
  {
    if 'a' <= c <= 'z' then (c as int - 'a' as int + 'A' as int) as char else c
  }

  /** `s` and `t` differ at most in the case of their ASCII letters. */
  predicate SameIgnoringCase(s: string, t: string)
  {
    |s| == |t| && forall i :: 0 <= i < |s| ==> FoldCase(s[i]) == FoldCase(t[i])
  }

  lemma FoldCaseKeepsClasses(a: char, b: char)
    requires FoldCase(a) == FoldCase(b)
    ensures Letter(a) == Letter(b) && LocalChar(a) == LocalChar(b) && DomainChar(a) == DomainChar(b)
    ensures (a == '@') == (b == '@') && (a == '.') == (b == '.')
  {
  }

  lemma ClassesIgnoreCase(a: string, b: string)
    requires SameIgnoringCase(a, b)
    ensures AllLocal(a) ==> AllLocal(b)
    ensures AllDomain(a) ==> AllDomain(b)
    ensures AllLetters(a) ==> AllLetters(b)
  {
  }

  lemma SliceIgnoresCase(s: string, t: string, lo: int, hi: int)
    requires SameIgnoringCase(s, t)
    requires 0 <= lo <= hi <= |s|
    ensures SameIgnoringCase(s[lo..hi], t[lo..hi])
  {
  }

  lemma MatchIgnoresCase(s: string, t: string, at: int, dot: int)
    requires SameIgnoringCase(s, t)
    requires MatchesAt(s, at, dot)
    ensures MatchesAt(t, at, dot)
  {
    FoldCaseKeepsClasses(s[at], t[at]);
    FoldCaseKeepsClasses(s[dot], t[dot]);
    SliceIgnoresCase(s, t, 0, at);
    ClassesIgnoreCase(s[0..at], t[0..at]);
    assert s[0..at] == s[..at] && t[0..at] == t[..at];
    SliceIgnoresCase(s, t, at + 1, dot);
    ClassesIgnoreCase(s[at + 1..dot], t[at + 1..dot]);
    SliceIgnoresCase(s, t, dot + 1, |s|);
    ClassesIgnoreCase(s[dot + 1..|s|], t[dot + 1..|t|]);
    assert s[dot + 1..|s|] == s[dot + 1..] && t[dot + 1..|t|] == t[dot + 1..];
  }

  /** Changing the case of ASCII letters never changes the verdict. */
  lemma EmailCheckIgnoresCase(s: string, t: string)
    requires SameIgnoringCase(s, t)
    ensures IsValidEmail(s) == IsValidEmail(t)
  {
    EmailCheckIsPattern(s);
    EmailCheckIsPattern(t);
    if MatchesPattern(s) {
      var at, dot :| MatchesAt(s, at, dot);
      MatchIgnoresCase(s, t, at, dot);
    }
    if MatchesPattern(t) {
      var at, dot :| MatchesAt(t, at, dot);
      assert SameIgnoringCase(t, s);
      MatchIgnoresCase(t, s, at, dot);
    }
  }

  // ----- The validator -----

  /** `validate`: the name, email and message checks, each on its own field.
      An email that is missing gets the "required" message and is not
      matched against the pattern. */
  function Validate(v: FormValues): (errors: map<Field, string>)
    ensures Name in errors <==> Falsy(v.name)
    ensures Name in errors ==> errors[Name] == NameRequired
    ensures Email in errors <==> Falsy(v.email) || !MatchesPattern(v.email.value)
    ensures Falsy(v.email) ==> Email in errors && errors[Email] == EmailRequired
    ensures !Falsy(v.email) && !MatchesPattern(v.email.value) ==> Email in errors && errors[Email] == EmailInvalid
    ensures Message in errors <==> Falsy(v.message)
    ensures Message in errors ==> errors[Message] == MessageRequired
  {
    var withName: map<Field, string> := if Falsy(v.name) then map[Name := NameRequired] else map[];
    var withEmail :=
      if Falsy(v.email) then withName[Email := EmailRequired]
      else if !IsValidEmail(v.email.value) then withName[Email := EmailInvalid]
      else withName;
    var errors := if Falsy(v.message) then withEmail[Message := MessageRequired] else withEmail;
    if v.email.Some? then EmailCheckIsPattern(v.email.value); errors else errors
  }

  /** The form passes exactly when all three fields are filled in and the
      email matches the pattern. */
  lemma ValidateEmptyIff(v: FormValues)
    ensures Validate(v) == map[]
        <==> !Falsy(v.name) && !Falsy(v.message) && !Falsy(v.email) && MatchesPattern(v.email.value)
  {
    var e := Validate(v);
    if !Falsy(v.name) && !Falsy(v.message) && !Falsy(v.email) && MatchesPattern(v.email.value) {
      assert forall f: Field :: f !in e;
    }
  }

  /** Each field's entry depends on that field's value alone. */
  lemma ValidateFieldsIndependent(v: FormValues, w: FormValues)
    ensures v.name == w.name ==> (Name in Validate(v) <==> Name in Validate(w))
    ensures v.email == w.email ==>
      (Email in Validate(v) <==> Email in Validate(w))
      && (Email in Validate(v) ==> Validate(v)[Email] == Validate(w)[Email])
    ensures v.message == w.message ==> (Message in Validate(v) <==> Message in Validate(w))
  {
  }
}
