/** The e-mail rule shared by the assessment form and the sign-in form:
    `/^[A-Z0-9._%+-]+@[A-Z0-9.-]+\.[A-Z]{2,}$/i`. Without the `u` flag the
    `i` flag folds case for ASCII letters only, so the classes below are
    ASCII classes. */
module EmailPattern {
  import opened Wrappers

  predicate IsLetter(c: char) {
    'A' <= c <= 'Z' || 'a' <= c <= 'z'
  }

  predicate IsDigit(c: char) {
    '0' <= c <= '9'
  }

  /** `[A-Z0-9._%+-]` */
  predicate IsLocalChar(c: char) {
    IsLetter(c) || IsDigit(c) || c == '.' || c == '_' || c == '%' || c == '+' || c == '-'
  }

  /** `[A-Z0-9.-]` */
  predicate IsDomainChar(c: char) {
    IsLetter(c) || IsDigit(c) || c == '.' || c == '-'
  }

  /** `s[lo..hi]` is made of local-part characters. */
  predicate LocalRun(s: string, lo: int, hi: int)
    requires 0 <= lo <= hi <= |s|
  {
    forall i :: lo <= i < hi ==> IsLocalChar(s[i])
  }

  predicate DomainRun(s: string, lo: int, hi: int)
    requires 0 <= lo <= hi <= |s|
  {
    forall i :: lo <= i < hi ==> IsDomainChar(s[i])
  }

  predicate LetterRun(s: string, lo: int, hi: int)
    requires 0 <= lo <= hi <= |s|
  {
    forall i :: lo <= i < hi ==> IsLetter(s[i])
  }

  /** The regular expression matches with its `@` at `at` and its `\.` at
      `dot`: a non-empty local part, a non-empty domain, and a top-level
      part of two or more letters running to the end. */
  predicate SplitsAt(s: string, at: int, dot: int) {
    && 0 < at && at + 1 < dot && dot + 3 <= |s|
    && s[at] == '@' && s[dot] == '.'
    && LocalRun(s, 0, at) && DomainRun(s, at + 1, dot) && LetterRun(s, dot + 1, |s|)
  }

  /** The pattern's meaning: some choice of the two split points works. */
  ghost predicate MatchesPattern(s: string) {
    exists at, dot :: SplitsAt(s, at, dot)
  }

  /** The position of the first `c` in `s`. */
  function FirstIndexOf(s: string, c: char): (r: Option<nat>)
    ensures r.Some? ==> r.value < |s| && s[r.value] == c
    ensures r.Some? ==> forall i :: 0 <= i < r.value ==> s[i] != c
    ensures r.None? ==> forall i :: 0 <= i < |s| ==> s[i] != c
  {
    if |s| == 0 then None
    else if s[0] == c then Some(0)
    else
      match FirstIndexOf(s[1..], c)
      case None => None
      case Some(k) => Some(k + 1)
  }

  /** The position of the last `c` in `s`. */
  function LastIndexOf(s: string, c: char): (r: Option<nat>)
    ensures r.Some? ==> r.value < |s| && s[r.value] == c
    ensures r.Some? ==> forall i :: r.value < i < |s| ==> s[i] != c
    ensures r.None? ==> forall i :: 0 <= i < |s| ==> s[i] != c
  {
    if |s| == 0 then None
    else if s[|s| - 1] == c then Some(|s| - 1)
    else LastIndexOf(s[..|s| - 1], c)
  }

  /** The check as a single pass would do it: split at the first `@` and the
      last `.`, then test the three parts. */
  function IsValidEmail(s: string): (ok: bool)
    ensures ok ==> MatchesPattern(s)
  {
    match (FirstIndexOf(s, '@'), LastIndexOf(s, '.'))
    case (Some(at), Some(dot)) =>
      if SplitsAt(s, at, dot) then
        assert SplitsAt(s, at, dot);
        true
      else false
    case _ => false
  }

  /** The check accepts everything the pattern matches: in any match the
      `@` is the first one (the local part has none) and the `.` is the last
      one (the top-level part is letters). */
  lemma MatchIsAccepted(s: string)
    requires MatchesPattern(s)
    ensures IsValidEmail(s)
  {
    var at, dot :| SplitsAt(s, at, dot);
    forall i | 0 <= i < at ensures s[i] != '@' {
      assert IsLocalChar(s[i]);
    }
    forall i | dot < i < |s| ensures s[i] != '.' {
      assert IsLetter(s[i]);
    }
    assert FirstIndexOf(s, '@') == Some(at);
    assert LastIndexOf(s, '.') == Some(dot);
  }

  /** The check and the pattern agree on every string. */
  lemma IsValidEmailMeansMatch(s: string)
    ensures IsValidEmail(s) <==> MatchesPattern(s)
  {
    if MatchesPattern(s) {
      MatchIsAccepted(s);
    }
  }

  /** An accepted address contains exactly one `@`. */
  lemma AcceptedHasOneAt(s: string)
    requires MatchesPattern(s)
    ensures |set i | 0 <= i < |s| && s[i] == '@'| == 1
  {
    var at, dot :| SplitsAt(s, at, dot);
    var ats := set i | 0 <= i < |s| && s[i] == '@';
    forall i | 0 <= i < |s| && i != at ensures s[i] != '@' {
      if i < at {
        assert IsLocalChar(s[i]);
      } else if at < i < dot {
        assert IsDomainChar(s[i]);
      } else if dot < i {
        assert IsLetter(s[i]);
      }
    }
    assert ats == {at};
  }
}
