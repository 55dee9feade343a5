/** The contact form's e-mail regular expression, anchored at both ends and
    case-insensitive: a local part, an at sign, a domain, a dot and a top-level
    domain of at least two letters, covering the whole string. */
module EmailPattern {
  import opened Wrappers

  predicate IsLetter(ch: char) {
    'A' <= ch <= 'Z' || 'a' <= ch <= 'z'
  }

  predicate IsDigit(ch: char) {
    '0' <= ch <= '9'
  }

  /** The local part's class: letters of either case, digits, and `. _ % + -`. */
  predicate IsLocalChar(ch: char) {
    IsLetter(ch) || IsDigit(ch) || ch == '.' || ch == '_' || ch == '%' || ch == '+' || ch == '-'
  }

  /** The domain's class: letters of either case, digits, dot and hyphen. */
  predicate IsDomainChar(ch: char) {
    IsLetter(ch) || IsDigit(ch) || ch == '.' || ch == '-'
  }

  /** The pattern matches `s` with its `@` at index `at` and its literal dot at index `dot`. */
  predicate MatchesWith(s: string, at: int, dot: int) {
    && 0 < at && at + 1 < dot && dot + 2 < |s|
    && s[at] == '@' && s[dot] == '.'
    && (forall i :: 0 <= i < at ==> IsLocalChar(s[i]))
    && (forall i :: at < i < dot ==> IsDomainChar(s[i]))
    && (forall i :: dot < i < |s| ==> IsLetter(s[i]))
  }

  /** The regular expression's meaning: some way of splitting the string fits the pattern. */
  ghost predicate PatternMatches(s: string) {
    exists at, dot :: MatchesWith(s, at, dot)
  }

  /** Index of the first occurrence of `ch`. */
  function FirstIndex(s: string, ch: char): (r: Option<nat>)
    ensures r.Some? ==> r.value < |s| && s[r.value] == ch
    ensures r.Some? ==> forall i :: 0 <= i < r.value ==> s[i] != ch
    ensures r.None? ==> forall i :: 0 <= i < |s| ==> s[i] != ch
  {
    if |s| == 0 then None
    else if s[0] == ch then Some(0)
    else
      match FirstIndex(s[1..], ch)
      case None => None
      case Some(k) => Some(k + 1)
  }

  /** Index of the last occurrence of `ch`. */
  function LastIndex(s: string, ch: char): (r: Option<nat>)
    ensures r.Some? ==> r.value < |s| && s[r.value] == ch
    ensures r.Some? ==> forall i :: r.value < i < |s| ==> s[i] != ch
    ensures r.None? ==> forall i :: 0 <= i < |s| ==> s[i] != ch
  {
    if |s| == 0 then None
    else if s[|s| - 1] == ch then Some(|s| - 1)
    else LastIndex(s[..|s| - 1], ch)
  }

  /** A direct matcher: since neither the local part nor the domain may hold an
      `@`, and the top-level domain holds no dot, the only candidate split is
      at the first `@` and the last dot. */
  predicate IsEmail(s: string) {
    match FirstIndex(s, '@')
    case None => false
    case Some(at) =>
      match LastIndex(s, '.')
      case None => false
      case Some(dot) => MatchesWith(s, at, dot)
  }

  /** The direct matcher accepts exactly the strings the pattern matches. */
  lemma IsEmailCorrect(s: string)
    ensures IsEmail(s) <==> PatternMatches(s)
  {
    if PatternMatches(s) {
      var at, dot :| MatchesWith(s, at, dot);
      var a := FirstIndex(s, '@');
      assert a == Some(at) by {
        assert !IsLocalChar('@');
        assert a.Some?;
      }
      var d := LastIndex(s, '.');
      assert d == Some(dot) by {
        assert !IsLetter('.');
        assert d.Some?;
      }
    }
  }
}
