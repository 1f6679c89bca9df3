/**
 * The form-field validators of the planner page (class DataValidator in
 * app.js): a numeric range check, username and password shape checks, and a
 * string cleaner. Each returns a result value and never fails.
 */
module Validation {
  import opened Wrappers

  /** Why a numeric field was refused; the bounds are those the message names. */
  datatype NumericError = NotANumber | BelowMin(min: real) | AboveMax(max: real)

  /** The result of the numeric check: the parsed number, or the reason it was refused. */
  datatype NumericResult = NumberOk(value: real) | NumberRefused(error: NumericError)

  /** The lower bound used when the caller gives none. */
  const DefaultMin: real := 0.0

  /**
   * Checks a numeric field. `parsed` is what parsing the field's text gave
   * (None when it is not a number); `max` is None for "no upper bound".
   */
  function ValidateNumericInput(parsed: Option<real>, min: real := DefaultMin, max: Option<real> := None): (r: NumericResult)
    ensures r.NumberOk? <==> parsed.Some? && min <= parsed.value && (max.Some? ==> parsed.value <= max.value)
    ensures r.NumberOk? ==> r.value == parsed.value
    ensures r == NumberRefused(NotANumber) <==> parsed.None?
    ensures r == NumberRefused(BelowMin(min)) <==> parsed.Some? && parsed.value < min
    ensures (r.NumberRefused? && r.error.AboveMax?) <==>
              parsed.Some? && min <= parsed.value && max.Some? && parsed.value > max.value
    ensures r.NumberRefused? && r.error.AboveMax? ==> r.error.max == max.value
  {
    match parsed
    case None => NumberRefused(NotANumber)
    case Some(num) =>
      if num < min then NumberRefused(BelowMin(min))
      else if max.Some? && num > max.value then NumberRefused(AboveMax(max.value))
      else NumberOk(num)
  }

  /** Why a username or password was refused, one case per message. */
  datatype FieldError =
    | UsernameTooShort | UsernameBadCharacter
    | PasswordTooShort | PasswordNoUppercase | PasswordNoLowercase | PasswordNoDigit | PasswordNoSpecial

  /** The result of a username or password check. */
  datatype Verdict = Valid | Invalid(error: FieldError)

  /** The characters a username may hold: ASCII letters, digits and underscore. */
  predicate IsWordChar(c: char)
  {
    'a' <= c <= 'z' || 'A' <= c <= 'Z' || '0' <= c <= '9' || c == '_'
  }

  /** Whether every character of `s` may appear in a username. */
  predicate AllWordChars(s: string)
  {
    forall i :: 0 <= i < |s| ==> IsWordChar(s[i])
  }

  /** Checks a username; None stands for a missing value (null or undefined). */
  function ValidateUsername(username: Option<string>): (r: Verdict)
    ensures r == Valid <==> username.Some? && |username.value| >= 3 && AllWordChars(username.value)
    ensures r == Invalid(UsernameTooShort) <==> username.None? || |username.value| < 3
    ensures r == Invalid(UsernameBadCharacter) <==>
              username.Some? && |username.value| >= 3 && exists i :: 0 <= i < |username.value| && !IsWordChar(username.value[i])
  {
    if username.None? || |username.value| < 3 then Invalid(UsernameTooShort)
    else if !AllWordChars(username.value) then Invalid(UsernameBadCharacter)
    else Valid
  }

  /** The symbols a password must contain one of. */
  const Specials: string := "!@#$%^&*(),.?\":{}|<>"

  predicate HasUppercase(s: string) { exists i :: 0 <= i < |s| && 'A' <= s[i] <= 'Z' }
  predicate HasLowercase(s: string) { exists i :: 0 <= i < |s| && 'a' <= s[i] <= 'z' }
  predicate HasDigit(s: string) { exists i :: 0 <= i < |s| && '0' <= s[i] <= '9' }
  predicate HasSpecial(s: string) { exists i :: 0 <= i < |s| && s[i] in Specials }

  /**
   * Checks a password. The checks run in a fixed order (length, uppercase,
   * lowercase, digit, symbol) and the first one that fails names the error.
   */
  function ValidatePassword(password: string): (r: Verdict)
    ensures r == Valid <==>
              |password| >= 8 && HasUppercase(password) && HasLowercase(password) && HasDigit(password) && HasSpecial(password)
    ensures r == Invalid(PasswordTooShort) <==> |password| < 8
    ensures r == Invalid(PasswordNoUppercase) <==> |password| >= 8 && !HasUppercase(password)
    ensures r == Invalid(PasswordNoLowercase) <==> |password| >= 8 && HasUppercase(password) && !HasLowercase(password)
    ensures r == Invalid(PasswordNoDigit) <==>
              |password| >= 8 && HasUppercase(password) && HasLowercase(password) && !HasDigit(password)
    ensures r == Invalid(PasswordNoSpecial) <==>
              |password| >= 8 && HasUppercase(password) && HasLowercase(password) && HasDigit(password) && !HasSpecial(password)
    ensures r.Invalid? ==> r.error in {PasswordTooShort, PasswordNoUppercase, PasswordNoLowercase, PasswordNoDigit, PasswordNoSpecial}
  {
    if |password| < 8 then Invalid(PasswordTooShort)
    else if !HasUppercase(password) then Invalid(PasswordNoUppercase)
    else if !HasLowercase(password) then Invalid(PasswordNoLowercase)
    else if !HasDigit(password) then Invalid(PasswordNoDigit)
    else if !HasSpecial(password) then Invalid(PasswordNoSpecial)
    else Valid
  }

  /*
   * Subsequences. `IsSubsequence(a, b)` holds when `a` can be had from `b` by
   * deleting characters; it matches each character of `a` at the first place
   * it can.
   */
  predicate IsSubsequence(a: string, b: string)
    decreases |b|
  {
    if a == [] then true
    else if b == [] then false
    else if a[0] == b[0] then IsSubsequence(a[1..], b[1..])
    else IsSubsequence(a, b[1..])
  }

  /** A string is a subsequence of itself. */
  lemma {:induction false} SubsequenceReflexive(a: string)
    ensures IsSubsequence(a, a)
  {
    if a != [] {
      SubsequenceReflexive(a[1..]);
    }
  }

  /** A subsequence of `b` without its first character is a subsequence of `b`. */
  lemma {:induction false} SubsequenceOfTail(a: string, b: string)
    requires b != [] && IsSubsequence(a, b[1..])
    ensures IsSubsequence(a, b)
    decreases |b|, 0
  {
    if a != [] && a[0] == b[0] {
      SubsequenceDropFirst(a, b[1..]);
    }
  }

  /** Dropping the first character of a subsequence leaves a subsequence. */
  lemma {:induction false} SubsequenceDropFirst(a: string, b: string)
    requires a != [] && IsSubsequence(a, b)
    ensures IsSubsequence(a[1..], b)
    decreases |b|, 1
  {
    if a[0] == b[0] {
      SubsequenceOfTail(a[1..], b);
    } else {
      SubsequenceDropFirst(a, b[1..]);
      SubsequenceOfTail(a[1..], b);
    }
  }

  /** A subsequence of `b` is a subsequence of `b` with a character added at the end. */
  lemma {:induction false} SubsequenceExtend(a: string, b: string, c: char)
    requires IsSubsequence(a, b)
    ensures IsSubsequence(a, b + [c])
    decreases |b|
  {
    if a != [] {
      assert (b + [c])[1..] == b[1..] + [c];
      if a[0] == b[0] {
        SubsequenceExtend(a[1..], b[1..], c);
      } else {
        SubsequenceExtend(a, b[1..], c);
      }
    }
  }

  /** Being a subsequence is transitive. */
  lemma {:induction false} SubsequenceTransitive(a: string, b: string, c: string)
    requires IsSubsequence(a, b) && IsSubsequence(b, c)
    ensures IsSubsequence(a, c)
    decreases |c|
  {
    if a != [] {
      if b[0] == c[0] {
        if a[0] == b[0] {
          SubsequenceTransitive(a[1..], b[1..], c[1..]);
        } else {
          SubsequenceTransitive(a, b[1..], c[1..]);
          SubsequenceOfTail(a, c);
        }
      } else {
        SubsequenceTransitive(a, b, c[1..]);
        SubsequenceOfTail(a, c);
      }
    }
  }

  /** `s` with every character of `cs` deleted, the rest kept in order. */
  function RemoveAll(s: string, cs: string): (r: string)
    ensures forall i :: 0 <= i < |r| ==> r[i] !in cs
    ensures forall c :: c !in cs ==> multiset(r)[c] == multiset(s)[c]
    ensures IsSubsequence(r, s)
    ensures (forall i :: 0 <= i < |s| ==> s[i] !in cs) ==> r == s
  {
    if s == [] then []
    else
      var rest := RemoveAll(s[1..], cs);
      assert s == [s[0]] + s[1..];
      assert multiset(s) == multiset([s[0]]) + multiset(s[1..]);
      assert (forall i :: 0 <= i < |s| ==> s[i] !in cs) ==> forall i :: 0 <= i < |s| - 1 ==> s[1..][i] !in cs;
      if s[0] in cs then
        SubsequenceOfTail(rest, s);
        rest
      else
        var r := [s[0]] + rest;
        assert r[1..] == rest;
        assert multiset(r) == multiset([s[0]]) + multiset(rest);
        r
  }

  /** Deleting the characters of `a` and then those of `b` deletes the characters of both in one pass. */
  lemma {:induction false} RemoveAllTwice(s: string, a: string, b: string)
    ensures RemoveAll(RemoveAll(s, a), b) == RemoveAll(s, a + b)
  {
    if s != [] {
      RemoveAllTwice(s[1..], a, b);
      if s[0] !in a {
        assert RemoveAll(s, a)[1..] == RemoveAll(s[1..], a);
      }
    }
  }

  /** The characters JavaScript's `trim` removes: ECMAScript white space and line terminators. */
  predicate IsTrimmed(c: char)
  {
    c == '\t' || c == '\n' || c == '\U{B}' || c == '\U{C}' || c == '\r' || c == ' ' || c == '\U{A0}'
    || c == '\U{1680}' || ('\U{2000}' <= c <= '\U{200A}') || c == '\U{2028}' || c == '\U{2029}'
    || c == '\U{202F}' || c == '\U{205F}' || c == '\U{3000}' || c == '\U{FEFF}'
  }

  /** `s` without its leading white space. */
  function TrimStart(s: string): (r: string)
    ensures |r| <= |s| && r == s[|s| - |r|..]
    ensures forall k {:trigger IsTrimmed(s[k])} :: 0 <= k < |s| - |r| ==> IsTrimmed(s[k])
    ensures r != [] ==> !IsTrimmed(r[0])
  {
    if s != [] && IsTrimmed(s[0]) then TrimStart(s[1..]) else s
  }

  /** `s` without its trailing white space. */
  function TrimEnd(s: string): (r: string)
    ensures |r| <= |s| && r == s[..|r|]
    ensures forall k {:trigger IsTrimmed(s[k])} :: |r| <= k < |s| ==> IsTrimmed(s[k])
    ensures r != [] ==> !IsTrimmed(r[|r| - 1])
  {
    if s != [] && IsTrimmed(s[|s| - 1]) then TrimEnd(s[..|s| - 1]) else s
  }

  /** `s` without leading and trailing white space, as JavaScript's `trim`. */
  function Trim(s: string): string
  {
    TrimEnd(TrimStart(s))
  }

  /**
   * `Trim` cuts `s` to the slice between its first and last characters that
   * are not white space: everything cut off is white space, and the result
   * neither starts nor ends with it.
   */
  lemma TrimSlice(s: string)
    ensures Trim(s) == s[|s| - |TrimStart(s)|..][..|Trim(s)|]
    ensures forall k {:trigger IsTrimmed(s[k])} :: 0 <= k < |s| - |TrimStart(s)| ==> IsTrimmed(s[k])
    ensures forall k {:trigger IsTrimmed(s[k])} :: |s| - |TrimStart(s)| + |Trim(s)| <= k < |s| ==> IsTrimmed(s[k])
    ensures Trim(s) != [] ==> !IsTrimmed(Trim(s)[0]) && !IsTrimmed(Trim(s)[|Trim(s)| - 1])
  {
    TrimCutsTrailing(s);
    TrimEnds(s);
  }

  /** Everything `Trim` cuts after the kept slice is white space. */
  lemma TrimCutsTrailing(s: string)
    ensures forall k {:trigger IsTrimmed(s[k])} :: |s| - |TrimStart(s)| + |Trim(s)| <= k < |s| ==> IsTrimmed(s[k])
  {
    var t := TrimStart(s);
    TrimEndOfSuffix(s, t, TrimEnd(t), |s| - |t|);
  }

  /** A non-empty trimmed string neither starts nor ends with white space. */
  lemma TrimEnds(s: string)
    ensures Trim(s) != [] ==> !IsTrimmed(Trim(s)[0]) && !IsTrimmed(Trim(s)[|Trim(s)| - 1])
  {
    var t := TrimStart(s);
    TrimEndOfSuffix(s, t, TrimEnd(t), |s| - |t|);
  }

  /** Cutting trailing white space from a suffix of `s` cuts trailing white space of `s`. */
  lemma TrimEndOfSuffix(s: string, t: string, r: string, i: nat)
    requires i <= |s| && t == s[i..]
    requires t != [] ==> !IsTrimmed(t[0])
    requires |r| <= |t| && r == t[..|r|]
    requires forall k {:trigger IsTrimmed(t[k])} :: |r| <= k < |t| ==> IsTrimmed(t[k])
    requires r != [] ==> !IsTrimmed(r[|r| - 1])
    ensures forall k {:trigger IsTrimmed(s[k])} :: i + |r| <= k < |s| ==> IsTrimmed(s[k])
    ensures r != [] ==> !IsTrimmed(r[0]) && !IsTrimmed(r[|r| - 1])
  {
    TrimTail(s, t, r, i);
    if r != [] {
      assert r[0] == t[0];
    }
  }

  /** The white space `TrimEnd` cuts from the trimmed start is trailing white space of `s`. */
  lemma TrimTail(s: string, t: string, r: string, i: nat)
    requires i <= |s| && t == s[i..]
    requires |r| <= |t|
    requires forall k {:trigger IsTrimmed(t[k])} :: |r| <= k < |t| ==> IsTrimmed(t[k])
    ensures forall k {:trigger IsTrimmed(s[k])} :: i + |r| <= k < |s| ==> IsTrimmed(s[k])
  {
    forall k | i + |r| <= k < |s|
      ensures IsTrimmed(s[k])
    {
      assert s[k] == t[k - i];
    }
  }

  /** A string made only of white space holds no other character. */
  lemma NoneOutsideWhiteSpace(x: string, c: char)
    requires forall k {:trigger IsTrimmed(x[k])} :: 0 <= k < |x| ==> IsTrimmed(x[k])
    requires !IsTrimmed(c)
    ensures multiset(x)[c] == 0
  {
    assert c !in x;
  }

  /** Around a middle part, white space on both sides adds no other character. */
  lemma CountBetweenWhiteSpace(pre: string, mid: string, post: string, c: char)
    requires forall k {:trigger IsTrimmed(pre[k])} :: 0 <= k < |pre| ==> IsTrimmed(pre[k])
    requires forall k {:trigger IsTrimmed(post[k])} :: 0 <= k < |post| ==> IsTrimmed(post[k])
    requires !IsTrimmed(c)
    ensures multiset(pre + mid + post)[c] == multiset(mid)[c]
  {
    assert multiset(pre + mid + post) == multiset(pre) + multiset(mid) + multiset(post);
    NoneOutsideWhiteSpace(pre, c);
    NoneOutsideWhiteSpace(post, c);
  }

  /** A slice with only white space cut off on either side keeps every other character. */
  lemma SliceKeepsContent(s: string, i: nat, m: nat, c: char)
    requires i + m <= |s|
    requires forall k {:trigger IsTrimmed(s[k])} :: 0 <= k < i ==> IsTrimmed(s[k])
    requires forall k {:trigger IsTrimmed(s[k])} :: i + m <= k < |s| ==> IsTrimmed(s[k])
    requires !IsTrimmed(c)
    ensures multiset(s[i..][..m])[c] == multiset(s)[c]
  {
    var pre, mid, post := s[..i], s[i..][..m], s[i + m..];
    assert s == pre + mid + post;
    forall k | 0 <= k < |pre|
      ensures IsTrimmed(pre[k])
    {
      assert pre[k] == s[k];
    }
    forall k | 0 <= k < |post|
      ensures IsTrimmed(post[k])
    {
      assert post[k] == s[i + m + k];
    }
    CountBetweenWhiteSpace(pre, mid, post, c);
  }

  /** Trimming keeps every character that is not white space, as often as the input has it. */
  lemma TrimKeepsContent(s: string)
    ensures forall c :: !IsTrimmed(c) ==> multiset(Trim(s))[c] == multiset(s)[c]
  {
    TrimSlice(s);
    forall c | !IsTrimmed(c)
      ensures multiset(Trim(s))[c] == multiset(s)[c]
    {
      SliceKeepsContent(s, |s| - |TrimStart(s)|, |Trim(s)|, c);
    }
  }

  /** A string with no white space at either end is its own trim. */
  lemma TrimFixed(s: string)
    requires s == [] || (!IsTrimmed(s[0]) && !IsTrimmed(s[|s| - 1]))
    ensures Trim(s) == s
  {
  }

  /** Trimming keeps a subsequence. */
  lemma {:induction false} TrimSubsequence(s: string)
    ensures IsSubsequence(Trim(s), s)
  {
    TrimStartSubsequence(s);
    TrimEndSubsequence(TrimStart(s));
    SubsequenceTransitive(Trim(s), TrimStart(s), s);
  }

  lemma {:induction false} TrimStartSubsequence(s: string)
    ensures IsSubsequence(TrimStart(s), s)
  {
    if s != [] && IsTrimmed(s[0]) {
      TrimStartSubsequence(s[1..]);
      SubsequenceOfTail(TrimStart(s), s);
    } else {
      SubsequenceReflexive(s);
    }
  }

  lemma {:induction false} TrimEndSubsequence(s: string)
    ensures IsSubsequence(TrimEnd(s), s)
  {
    if s != [] && IsTrimmed(s[|s| - 1]) {
      var init := s[..|s| - 1];
      TrimEndSubsequence(init);
      SubsequenceExtend(TrimEnd(init), init, s[|s| - 1]);
      assert init + [s[|s| - 1]] == s;
    } else {
      SubsequenceReflexive(s);
    }
  }

  /** The characters deleted as possible HTML tag delimiters. */
  const AngleBrackets: string := "<>"

  /** The quote characters deleted. */
  const QuoteChars: string := "'\""

  /** Whether `c` is one of the characters the cleaner deletes. */
  predicate IsUnsafe(c: char)
  {
    c in AngleBrackets || c in QuoteChars
  }

  /** Trimming a string that holds none of `cs` leaves a string that holds none of them. */
  lemma TrimKeepsOut(u: string, cs: string)
    requires forall i :: 0 <= i < |u| ==> u[i] !in cs
    ensures forall i :: 0 <= i < |Trim(u)| ==> Trim(u)[i] !in cs
  {
    var t := TrimStart(u);
    var start := |u| - |t|;
    assert t == u[start..];
    forall i | 0 <= i < |Trim(u)| ensures Trim(u)[i] !in cs {
      assert Trim(u)[i] == t[i] == u[start + i];
    }
  }

  /**
   * What cleaning in one pass gives: deleting the unsafe characters and
   * trimming keeps no unsafe character, leaves no white space at either end,
   * is a subsequence of the input, and keeps every other character that is
   * not white space as often as the input has it.
   */
  lemma CleanedText(s: string)
    ensures var r := Trim(RemoveAll(s, AngleBrackets + QuoteChars));
      && (forall i :: 0 <= i < |r| ==> !IsUnsafe(r[i]))
      && (r != [] ==> !IsTrimmed(r[0]) && !IsTrimmed(r[|r| - 1]))
      && IsSubsequence(r, s)
      && (forall c :: !IsUnsafe(c) && !IsTrimmed(c) ==> multiset(r)[c] == multiset(s)[c])
  {
    var cs := AngleBrackets + QuoteChars;
    var u := RemoveAll(s, cs);
    var r := Trim(u);
    assert forall c :: IsUnsafe(c) <==> c in cs;
    TrimKeepsOut(u, cs);
    TrimSlice(u);
    TrimSubsequence(u);
    SubsequenceTransitive(r, u, s);
    TrimKeepsContent(u);
  }

  /**
   * Cleans a text field: deletes angle brackets, then quotes, then trims.
   * The result is the input with the unsafe characters deleted and trimmed:
   * it holds none of those characters, has no white space at either end, is
   * a subsequence of the input and keeps every other character that is not
   * white space.
   */
  function Sanitize(s: string): (r: string)
    ensures r == Trim(RemoveAll(s, AngleBrackets + QuoteChars))
    ensures forall i :: 0 <= i < |r| ==> !IsUnsafe(r[i])
    ensures r != [] ==> !IsTrimmed(r[0]) && !IsTrimmed(r[|r| - 1])
    ensures IsSubsequence(r, s)
    ensures forall c :: !IsUnsafe(c) && !IsTrimmed(c) ==> multiset(r)[c] == multiset(s)[c]
  {
    RemoveAllTwice(s, AngleBrackets, QuoteChars);
    CleanedText(s);
    Trim(RemoveAll(RemoveAll(s, AngleBrackets), QuoteChars))
  }

  /** Cleaning twice is cleaning once. */
  lemma SanitizeIdempotent(s: string)
    ensures Sanitize(Sanitize(s)) == Sanitize(s)
  {
    var t := Sanitize(s);
    var cs := AngleBrackets + QuoteChars;
    forall i | 0 <= i < |t|
      ensures t[i] !in cs
    {
      assert !IsUnsafe(t[i]);
    }
    assert RemoveAll(t, cs) == t;
    TrimFixed(t);
  }

  /** A value handed to the cleaner: text, or anything else (passed through). */
  datatype Input<T> = Text(s: string) | Other(v: T)

  /** Cleans text input and returns any other input unchanged. */
  function SanitizeInput<T>(input: Input<T>): (r: Input<T>)
    ensures input.Other? ==> r == input
    ensures input.Text? ==> r.Text? && IsSubsequence(r.s, input.s)
    ensures input.Text? ==> forall i :: 0 <= i < |r.s| ==> !IsUnsafe(r.s[i])
    ensures input.Text? ==> r.s != [] ==> !IsTrimmed(r.s[0]) && !IsTrimmed(r.s[|r.s| - 1])
    ensures input.Text? ==> forall c :: !IsUnsafe(c) && !IsTrimmed(c) ==> multiset(r.s)[c] == multiset(input.s)[c]
    ensures input.Text? ==> r.s == Trim(RemoveAll(input.s, AngleBrackets + QuoteChars))
  {
    match input
    case Text(s) =>
      var r := Sanitize(s);
      Text(r)
    case Other(_) => input
  }

  /** Cleaning any input twice is cleaning it once. */
  lemma SanitizeInputIdempotent<T>(input: Input<T>)
    ensures SanitizeInput(SanitizeInput(input)) == SanitizeInput(input)
  {
    if input.Text? {
      SanitizeIdempotent(input.s);
    }
  }
}
