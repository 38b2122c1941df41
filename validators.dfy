/**
 * The e-mail validator of the settings window: an empty value is accepted,
 * any other value must match `^[\w.-]+@[\w.-]+\.\w+$` under `re.match`,
 * where `$` also matches just before one final newline.
 */
module Validators {
  import opened Wrappers
  import opened Strings

  /** `\w`, restricted to ASCII: letters, digits and `_`. */
  predicate WordChar(c: char) {
    IsAsciiLetter(c) || IsDigit(c) || c == '_'
  }

  /** `[\w.-]` */
  predicate EmailChar(c: char) {
    WordChar(c) || c == '.' || c == '-'
  }

  /** Every character of `s[i..j]` is an `EmailChar`. */
  predicate EmailRun(s: string, i: nat, j: nat)
    requires i <= j <= |s|
  {
    forall k :: i <= k < j ==> EmailChar(s[k])
  }

  /** Every character of `s[i..j]` is a `WordChar`. */
  predicate WordRun(s: string, i: nat, j: nat)
    requires i <= j <= |s|
  {
    forall k :: i <= k < j ==> WordChar(s[k])
  }

  /**
   * `s` is `[\w.-]+ @ [\w.-]+ \. \w+` with the `@` at `at` and the final
   * dot at `dot`.
   */
  predicate PatternSplit(s: string, at: nat, dot: nat) {
    && 0 < at && at + 1 < dot && dot + 1 < |s|
    && s[at] == '@' && s[dot] == '.'
    && EmailRun(s, 0, at) && EmailRun(s, at + 1, dot) && WordRun(s, dot + 1, |s|)
  }

  /** The language of the pattern between `^` and `$`. */
  ghost predicate InPattern(s: string) {
    exists at: nat, dot: nat :: PatternSplit(s, at, dot)
  }

  /** Decides the pattern: the `@` must be the first one and the dot the last one. */
  function Matches(s: string): bool {
    match IndexOf(s, '@')
    case None => false
    case Some(at) =>
      match LastIndexOf(s, '.')
      case None => false
      case Some(dot) =>
        0 < at && at + 1 < dot && dot + 1 < |s|
        && EmailRun(s, 0, at) && EmailRun(s, at + 1, dot) && WordRun(s, dot + 1, |s|)
  }

  /** `re.match(pattern, value)` succeeds: the value, or the value without one final newline, is in the pattern. */
  function RegexMatches(value: string): bool {
    Matches(value) || (|value| > 0 && value[|value| - 1] == '\n' && Matches(value[..|value| - 1]))
  }

  /** `validate_email`: `Failure` is the `ValueError` it raises. */
  function ValidateEmail(value: string): (r: Result<(), string>)
    ensures r.Failure? ==> r.error == "Invalid email address format."
    ensures value == "" ==> r.Success?
  {
    if value == "" then Success(())
    else if RegexMatches(value) then Success(())
    else Failure("Invalid email address format.")
  }

  // Properties

  /** The decision procedure accepts exactly the pattern's language. */
  lemma MatchesIsPattern(s: string)
    ensures Matches(s) <==> InPattern(s)
  {
    if Matches(s) {
      var at := IndexOf(s, '@').value;
      var dot := LastIndexOf(s, '.').value;
      assert PatternSplit(s, at, dot);
    }
    if InPattern(s) {
      var at: nat, dot: nat :| PatternSplit(s, at, dot);
      SplitIsFirstAndLast(s, at, dot);
    }
  }

  /**
   * In a split the `@` is the only one and the dot is the last dot: no
   * character before the `@` or in the domain is an `@`, and none after the
   * dot is a dot.
   */
  lemma SplitIsFirstAndLast(s: string, at: nat, dot: nat)
    requires PatternSplit(s, at, dot)
    ensures IndexOf(s, '@') == Some(at) && LastIndexOf(s, '.') == Some(dot)
    ensures forall k :: 0 <= k < |s| && s[k] == '@' ==> k == at
  {
    forall k | 0 <= k < |s| && k != at
      ensures s[k] != '@'
    {
      if k < at {
        assert EmailChar(s[k]);
      } else if at < k < dot {
        assert EmailChar(s[k]);
      } else if dot < k {
        assert WordChar(s[k]);
      }
    }
    forall k | dot < k < |s|
      ensures s[k] != '.'
    {
      assert WordChar(s[k]);
    }
  }

  /** A value passes exactly when it is empty or `re.match` finds the pattern, as the regular expression defines it. */
  lemma ValidateEmailMeans(value: string)
    ensures ValidateEmail(value).Success? <==>
              || value == ""
              || InPattern(value)
              || (|value| > 0 && value[|value| - 1] == '\n' && InPattern(value[..|value| - 1]))
  {
    MatchesIsPattern(value);
    if |value| > 0 {
      MatchesIsPattern(value[..|value| - 1]);
    }
  }

  /**
   * A non-empty accepted value holds exactly one `@`, preceded by a
   * non-empty run of `[\w.-]`; the domain has a non-empty part before its
   * last dot and a non-empty suffix of word characters after it; the only
   * character outside `[\w.@-]` it may hold is one final newline.
   */
  lemma AcceptedShape(value: string)
    requires value != "" && ValidateEmail(value).Success?
    ensures var s := if value[|value| - 1] == '\n' then value[..|value| - 1] else value;
            exists at: nat, dot: nat :: PatternSplit(s, at, dot)
              && (forall k :: 0 <= k < |s| && s[k] == '@' ==> k == at)
              && (forall k :: dot < k < |s| ==> s[k] != '.')
  {
    var s := if value[|value| - 1] == '\n' then value[..|value| - 1] else value;
    if value[|value| - 1] == '\n' {
      assert !WordChar(value[|value| - 1]);
    }
    assert Matches(s);
    MatchesIsPattern(s);
    var at: nat, dot: nat :| PatternSplit(s, at, dot);
    SplitIsFirstAndLast(s, at, dot);
  }

  /** A non-empty value without `@`, without a dot, or starting with `@` is refused, with the source's message. */
  lemma Refused(value: string)
    requires value != ""
    requires (forall k :: 0 <= k < |value| ==> value[k] != '@') || (forall k :: 0 <= k < |value| ==> value[k] != '.')
             || value[0] == '@'
    ensures ValidateEmail(value) == Failure("Invalid email address format.")
  {
    assert forall k :: 0 <= k < |value| - 1 ==> value[..|value| - 1][k] == value[k];
  }
}
