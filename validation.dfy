/**
 * Credential validation (lib/utils/validation.ts): the e-mail and password
 * predicates and the two early-return check chains used by the login and
 * registration forms. Everything here is a pure function of its input.
 */
module Validation {
  import opened Results
  import opened Errors
  import opened Types

  // ---------------------------------------------------------------------------
  // Whitespace and trim()
  // ---------------------------------------------------------------------------

  /**
   * JavaScript's white space and line terminators: the characters of the regex
   * class `\s`, which are also the ones `String.prototype.trim` removes.
   */
  predicate IsWhitespace(c: char) {
    c == ' ' || c == '\t' || c == '\n' || c == '\U{B}' || c == '\U{C}' || c == '\r'
    || c == '\U{A0}' || c == '\U{1680}' || ('\U{2000}' <= c <= '\U{200A}')
    || c == '\U{2028}' || c == '\U{2029}' || c == '\U{202F}' || c == '\U{205F}'
    || c == '\U{3000}' || c == '\U{FEFF}'
  }

  predicate AllWhitespace(s: string) {
    forall i :: 0 <= i < |s| ==> IsWhitespace(s[i])
  }

  /** The number of whitespace characters `s` starts with. */
  function LeadingSpace(s: string): (n: nat)
    ensures n <= |s|
    ensures forall i :: 0 <= i < n ==> IsWhitespace(s[i])
    ensures n < |s| ==> !IsWhitespace(s[n])
  {
    if s != [] && IsWhitespace(s[0]) then
      var n := 1 + LeadingSpace(s[1..]);
      assert forall i :: 1 <= i < n ==> s[i] == s[1..][i - 1];
      n
    else 0
  }

  /** The number of whitespace characters `s[lo..]` ends with. */
  function TrailingSpace(s: string, lo: nat): (n: nat)
    requires lo <= |s|
    ensures n <= |s| - lo
    ensures forall i :: |s| - n <= i < |s| ==> IsWhitespace(s[i])
    ensures n < |s| - lo ==> !IsWhitespace(s[|s| - n - 1])
  {
    if |s| > lo && IsWhitespace(s[|s| - 1]) then
      var n := 1 + TrailingSpace(s[..|s| - 1], lo);
      assert forall i :: |s| - n <= i < |s| - 1 ==> s[i] == s[..|s| - 1][i];
      n
    else 0
  }

  /**
   * `s.trim()`: the slice of `s` left after removing its leading and trailing
   * whitespace, which neither starts nor ends with whitespace.
   */
  function Trim(s: string): (r: string)
    ensures |r| <= |s|
    ensures r == [] || (!IsWhitespace(r[0]) && !IsWhitespace(r[|r| - 1]))
    ensures exists i :: 0 <= i <= |s| - |r| && r == s[i..i + |r|]
                        && AllWhitespace(s[..i]) && AllWhitespace(s[i + |r|..])
  {
    var a := LeadingSpace(s);
    var b := TrailingSpace(s, a);
    TrimmedSlice(s, a, b);
    s[a..|s| - b]
  }

  /**
   * With `a` leading and `b` trailing whitespace characters counted as `Trim`
   * does, the slice between them has whitespace-only margins and neither starts
   * nor ends with whitespace.
   */
  lemma TrimmedSlice(s: string, a: nat, b: nat)
    requires a <= |s| && b <= |s| - a
    requires forall i :: 0 <= i < a ==> IsWhitespace(s[i])
    requires a < |s| ==> !IsWhitespace(s[a])
    requires forall i :: |s| - b <= i < |s| ==> IsWhitespace(s[i])
    requires b < |s| - a ==> !IsWhitespace(s[|s| - b - 1])
    ensures var r := s[a..|s| - b];
      && (r == [] || (!IsWhitespace(r[0]) && !IsWhitespace(r[|r| - 1])))
      && (exists i :: 0 <= i <= |s| - |r| && r == s[i..i + |r|]
                      && AllWhitespace(s[..i]) && AllWhitespace(s[i + |r|..]))
  {
    var r := s[a..|s| - b];
    assert forall i :: 0 <= i < a ==> s[..a][i] == s[i];
    var tail := s[|s| - b..];
    assert forall j :: 0 <= j < |tail| ==> tail[j] == s[|s| - b + j];
    assert AllWhitespace(s[..a]) && AllWhitespace(s[a + |r|..]);
  }

  /** Trimming leaves nothing exactly when every character is whitespace. */
  lemma {:induction false} TrimEmptyIffAllWhitespace(s: string)
    ensures Trim(s) == [] <==> AllWhitespace(s)
  {
    var a := LeadingSpace(s);
    var b := TrailingSpace(s, a);
    assert Trim(s) == s[a..|s| - b];
  }

  /** `!s.trim()`: the trimmed string is the empty, falsy string; that is, `s` is all whitespace. */
  predicate IsBlank(s: string): (b: bool)
    ensures b <==> AllWhitespace(s)
  {
    TrimEmptyIffAllWhitespace(s);
    Trim(s) == []
  }

  // ---------------------------------------------------------------------------
  // E-mail format
  // ---------------------------------------------------------------------------

  /** A character of the class `[^\s@]`. */
  predicate IsAtomChar(c: char) {
    !IsWhitespace(c) && c != '@'
  }

  /** A match of `[^\s@]+`. */
  predicate IsAtom(s: string) {
    |s| > 0 && forall i :: 0 <= i < |s| ==> IsAtomChar(s[i])
  }

  /**
   * The anchored regular expression `/^[^\s@]+@[^\s@]+\.[^\s@]+$/`, read as a way
   * of cutting the whole string into a local part, '@', a first domain segment,
   * '.', and a last segment. The regex engine may pick any '.' after the '@'.
   */
  ghost predicate MatchesEmailRegex(s: string) {
    exists at, dot ::
      0 <= at < dot < |s| && s[at] == '@' && s[dot] == '.'
      && IsAtom(s[..at]) && IsAtom(s[at + 1..dot]) && IsAtom(s[dot + 1..])
  }

  /** The position of the first `c` in `s`, or `|s|` when there is none. */
  function IndexOf(s: string, c: char): (k: nat)
    ensures k <= |s|
    ensures k < |s| ==> s[k] == c
    ensures forall i :: 0 <= i < k ==> s[i] != c
  {
    if s == [] then 0
    else if s[0] == c then 0
    else 1 + IndexOf(s[1..], c)
  }

  /** A '.' that has at least one character on each side. */
  predicate HasInnerDot(d: string) {
    |d| >= 3 && '.' in d[1..|d| - 1]
  }

  /**
   * The decision procedure for the regular expression: cut at the first '@', then
   * ask for an atom before it and an atom with an inner '.' after it.
   */
  predicate FirstAtSplit(email: string) {
    var at := IndexOf(email, '@');
    at < |email| && IsAtom(email[..at]) && IsAtom(email[at + 1..]) && HasInnerDot(email[at + 1..])
  }

  /** Every string the decision procedure accepts is matched by the regular expression. */
  lemma {:induction false} SplitMatchesRegex(s: string)
    requires FirstAtSplit(s)
    ensures MatchesEmailRegex(s)
  {
    var at := IndexOf(s, '@');
    var d := s[at + 1..];
    var inner := d[1..|d| - 1];
    var j :| 0 <= j < |inner| && inner[j] == '.';
    var dot := at + 2 + j;
    assert s[dot] == '.';
    assert s[at + 1..dot] == d[..j + 1];
    assert s[dot + 1..] == d[j + 2..];
    assert IsAtom(s[at + 1..dot]);
    assert IsAtom(s[dot + 1..]);
  }

  /** The first occurrence of `c` is the position before which `c` does not occur. */
  lemma {:induction false} IndexOfIsFirst(s: string, c: char, k: nat)
    requires k < |s| && s[k] == c
    requires forall i :: 0 <= i < k ==> s[i] != c
    ensures IndexOf(s, c) == k
  {
    if k > 0 {
      IndexOfIsFirst(s[1..], c, k - 1);
    }
  }

  /** A string cut by an inner '.' into two atoms is itself an atom with an inner dot. */
  lemma AtomsAroundDot(d: string, k: nat)
    requires 0 < k < |d| - 1 && d[k] == '.'
    requires IsAtom(d[..k]) && IsAtom(d[k + 1..])
    ensures IsAtom(d) && HasInnerDot(d)
  {
    forall i | 0 <= i < |d| ensures IsAtomChar(d[i]) {
      if i < k {
        assert d[i] == d[..k][i];
      } else if i > k {
        assert d[i] == d[k + 1..][i - k - 1];
      }
    }
    assert d[1..|d| - 1][k - 1] == '.';
  }

  /** A cut of the regular expression at `a` and `dot` makes `a` the first '@'. */
  lemma CutIsFirstAtSplit(s: string, a: nat, dot: nat)
    requires a < dot < |s| && s[a] == '@' && s[dot] == '.'
    requires IsAtom(s[..a]) && IsAtom(s[a + 1..dot]) && IsAtom(s[dot + 1..])
    ensures FirstAtSplit(s)
  {
    forall i | 0 <= i < a ensures s[i] != '@' {
      assert s[i] == s[..a][i];
    }
    IndexOfIsFirst(s, '@', a);
    var d := s[a + 1..];
    var k := dot - a - 1;
    assert d[..k] == s[a + 1..dot];
    assert d[k + 1..] == s[dot + 1..];
    AtomsAroundDot(d, k);
  }

  /** Every string the regular expression matches is accepted by the decision procedure. */
  lemma RegexMatchSplits(s: string)
    requires MatchesEmailRegex(s)
    ensures FirstAtSplit(s)
  {
    var a, dot :| 0 <= a < dot < |s| && s[a] == '@' && s[dot] == '.'
      && IsAtom(s[..a]) && IsAtom(s[a + 1..dot]) && IsAtom(s[dot + 1..]);
    CutIsFirstAtSplit(s, a, dot);
  }

  /** The decision procedure accepts exactly the strings the regular expression matches. */
  lemma FirstAtSplitDecidesRegex(s: string)
    ensures FirstAtSplit(s) <==> MatchesEmailRegex(s)
  {
    if FirstAtSplit(s) {
      SplitMatchesRegex(s);
    }
    if MatchesEmailRegex(s) {
      RegexMatchSplits(s);
    }
  }

  /** `validateEmail(email)`: the test of the anchored regular expression. */
  predicate ValidateEmail(email: string): (b: bool)
    ensures b <==> MatchesEmailRegex(email)
  {
    FirstAtSplitDecidesRegex(email);
    FirstAtSplit(email)
  }

  /** The number of occurrences of `c` in `s`. */
  function Count(s: string, c: char): nat {
    if s == [] then 0 else (if s[0] == c then 1 else 0) + Count(s[1..], c)
  }

  lemma {:induction false} CountZero(s: string, c: char)
    ensures Count(s, c) == 0 <==> forall i :: 0 <= i < |s| ==> s[i] != c
  {
    if s != [] {
      CountZero(s[1..], c);
      assert forall i :: 1 <= i < |s| ==> s[i] == s[1..][i - 1];
    }
  }

  lemma {:induction false} CountSplit(s: string, k: nat, c: char)
    requires k <= |s|
    ensures Count(s, c) == Count(s[..k], c) + Count(s[k..], c)
  {
    if k > 0 {
      CountSplit(s[1..], k - 1, c);
      assert s[1..][..k - 1] == s[..k][1..];
      assert s[1..][k - 1..] == s[k..];
    }
  }

  /** The shape the format check demands, stated without the regex. */
  ghost predicate WellFormedEmail(s: string) {
    && (forall i :: 0 <= i < |s| ==> !IsWhitespace(s[i]))
    && Count(s, '@') == 1
    && exists at :: 0 < at < |s| && s[at] == '@' && HasInnerDot(s[at + 1..])
  }

  /** Counting '@' around its first occurrence: one there, none before it. */
  lemma CountAroundFirstAt(s: string, at: nat)
    requires at == IndexOf(s, '@') < |s|
    ensures Count(s, '@') == 1 + Count(s[at + 1..], '@')
  {
    CountSplit(s, at, '@');
    CountSplit(s[at..], 1, '@');
    assert s[at..][..1] == [s[at]];
    assert s[at..][1..] == s[at + 1..];
    assert Count([s[at]], '@') == 1;
    CountZero(s[..at], '@');
  }

  /** What the first-'@' cut accepts has the well-formed shape. */
  lemma SplitIsWellFormed(s: string)
    requires FirstAtSplit(s)
    ensures WellFormedEmail(s)
  {
    var at := IndexOf(s, '@');
    CountAroundFirstAt(s, at);
    CountZero(s[at + 1..], '@');
    forall i | 0 <= i < |s| ensures !IsWhitespace(s[i]) {
      if i < at {
        assert s[i] == s[..at][i];
      } else if i > at {
        assert s[i] == s[at + 1..][i - at - 1];
      }
    }
  }

  /** A well-formed address is accepted by the first-'@' cut. */
  lemma WellFormedIsSplit(s: string)
    requires WellFormedEmail(s)
    ensures FirstAtSplit(s)
  {
    var a :| 0 < a < |s| && s[a] == '@' && HasInnerDot(s[a + 1..]);
    var at := IndexOf(s, '@');
    assert at <= a;
    CountAroundFirstAt(s, at);
    if at < a {
      assert s[at + 1..][a - at - 1] == '@';
      CountZero(s[at + 1..], '@');
    }
    assert at == a;
    forall i | 0 <= i < at ensures IsAtomChar(s[..at][i]) {
      assert s[..at][i] == s[i];
    }
    var d := s[at + 1..];
    CountZero(d, '@');
    forall i | 0 <= i < |d| ensures IsAtomChar(d[i]) {
      assert d[i] == s[at + 1 + i];
    }
  }

  /**
   * An e-mail passes the format check exactly when it has one '@', no whitespace,
   * a non-empty local part, and a domain holding a '.' with text on both sides.
   */
  lemma ValidateEmailCharacterised(s: string)
    ensures ValidateEmail(s) <==> WellFormedEmail(s)
  {
    if FirstAtSplit(s) {
      SplitIsWellFormed(s);
    }
    if WellFormedEmail(s) {
      WellFormedIsSplit(s);
    }
  }

  /** `c` does not occur in `s`: the search runs off the end. */
  lemma {:induction false} IndexOfAbsent(s: string, c: char)
    requires forall i :: 0 <= i < |s| ==> s[i] != c
    ensures IndexOf(s, c) == |s|
  {
    if s != [] {
      IndexOfAbsent(s[1..], c);
    }
  }

  /** An address made of three atoms around its '@' and a '.' passes the check. */
  lemma AcceptedSample(local: string, first: string, last: string)
    requires IsAtom(local) && IsAtom(first) && IsAtom(last)
    ensures ValidateEmail(local + "@" + first + "." + last)
  {
    var s := local + "@" + first + "." + last;
    assert s[..|local|] == local;
    assert s[|local| + 1..|local| + 1 + |first|] == first;
    assert s[|local| + 2 + |first|..] == last;
    CutIsFirstAtSplit(s, |local|, |local| + 1 + |first|);
  }

  // Sample addresses of the unit tests, accepted and rejected. An accepted address
  // is written as its local part, '@', the domain up to a '.', '.', and the rest.

  lemma AcceptsPlainAddress()
    ensures ValidateEmail("test" + "@" + "example" + "." + "com")
  {
    AcceptedSample("test", "example", "com");
  }

  lemma AcceptsDottedLocalPart()
    ensures ValidateEmail("user.name" + "@" + "domain" + "." + "co.jp")
  {
    AcceptedSample("user.name", "domain", "co.jp");
  }

  lemma AcceptsPlusInLocalPart()
    ensures ValidateEmail("firstname+lastname" + "@" + "company" + "." + "org")
  {
    AcceptedSample("firstname+lastname", "company", "org");
  }

  lemma AcceptsHyphenInDomain()
    ensures ValidateEmail("test123" + "@" + "test-domain" + "." + "com")
  {
    AcceptedSample("test123", "test-domain", "com");
  }

  lemma RejectsAddressWithoutAt()
    ensures !ValidateEmail("invalid-email")
  {
    var s := "invalid-email";
    forall i | 0 <= i < |s| ensures s[i] != '@' {
    }
    IndexOfAbsent(s, '@');
  }

  lemma RejectsDotsWithoutAt()
    ensures !ValidateEmail("test.domain.com")
  {
    var s := "test.domain.com";
    forall i | 0 <= i < |s| ensures s[i] != '@' {
    }
    IndexOfAbsent(s, '@');
  }

  lemma RejectsEmptyAddress()
    ensures !ValidateEmail("")
  {
  }

  lemma RejectsEmptyLocalPart()
    ensures !ValidateEmail("@domain.com")
  {
    IndexOfIsFirst("@domain.com", '@', 0);
  }

  lemma RejectsEmptyDomain()
    ensures !ValidateEmail("test@")
  {
    IndexOfIsFirst("test@", '@', 4);
  }

  lemma RejectsDomainWithoutDot()
    ensures !ValidateEmail("test@domain")
  {
    var s := "test@domain";
    IndexOfIsFirst(s, '@', 4);
    assert forall i :: 5 <= i < |s| ==> s[i] != '.';
  }

  lemma RejectsSpaceInLocalPart()
    ensures !ValidateEmail("test @domain.com")
  {
    IndexOfIsFirst("test @domain.com", '@', 5);
    assert "test @domain.com"[..5][4] == ' ';
  }

  // ---------------------------------------------------------------------------
  // Password
  // ---------------------------------------------------------------------------

  const MinPasswordLength: nat := 6

  /** A character JavaScript stores in one UTF-16 code unit. */
  predicate InBasicPlane(c: char) {
    c <= '\U{FFFF}'
  }

  /**
   * `s.length` in JavaScript: the number of UTF-16 code units, two for each
   * character beyond the basic multilingual plane.
   */
  function Utf16Length(s: string): (n: nat)
    ensures |s| <= n <= 2 * |s|
    ensures n == |s| <==> forall i :: 0 <= i < |s| ==> InBasicPlane(s[i])
  {
    if s == [] then 0
    else
      var n := (if InBasicPlane(s[0]) then 1 else 2) + Utf16Length(s[1..]);
      assert forall i :: 1 <= i < |s| ==> s[i] == s[1..][i - 1];
      n
  }

  /** One character is one code unit in the basic plane and a surrogate pair beyond it. */
  lemma Utf16LengthOfChar(c: char)
    ensures Utf16Length([c]) == if InBasicPlane(c) then 1 else 2
  {
  }

  /** Code units add up over concatenation, so the count is the sum over the characters. */
  lemma {:induction false} Utf16LengthConcat(a: string, b: string)
    ensures Utf16Length(a + b) == Utf16Length(a) + Utf16Length(b)
  {
    if a == [] {
      assert a + b == b;
    } else {
      assert (a + b)[0] == a[0];
      assert (a + b)[1..] == a[1..] + b;
      Utf16LengthConcat(a[1..], b);
    }
  }

  /**
   * `validatePassword(password)`: a `length` of at least six. Six characters
   * always suffice, three beyond the basic plane already do, and for text within
   * the basic plane the rule is six characters.
   */
  predicate ValidatePassword(password: string): (b: bool)
    ensures |password| >= MinPasswordLength ==> b
    ensures b ==> 2 * |password| >= MinPasswordLength
    ensures (forall i :: 0 <= i < |password| ==> InBasicPlane(password[i]))
            ==> (b <==> |password| >= MinPasswordLength)
    ensures b <==> Utf16Length(password) >= MinPasswordLength
  {
    Utf16Length(password) >= MinPasswordLength
  }

  // ---------------------------------------------------------------------------
  // The check chains
  // ---------------------------------------------------------------------------

  const MsgEmailRequired := "メールアドレスを入力してください"
  const MsgEmailFormat := "メールアドレスの形式が正しくありません"
  const MsgPasswordRequired := "パスワードを入力してください"
  const MsgPasswordTooShort := "パスワードは6文字以上で入力してください"
  const MsgPasswordMismatch := "パスワードが一致しません"

  function Invalid(message: string): (e: AppError)
    ensures e.code == ValidationError && e.message == message && e.details == Undefined
  {
    CreateError(ValidationError, message)
  }

  /**
   * `validateLoginCredentials(credentials)`: blank e-mail, then e-mail format,
   * then empty password; the first failing check decides the error.
   */
  function ValidateLoginCredentials(credentials: LoginCredentials): (r: Result<LoginCredentials, AppError>)
    ensures r.Ok? <==> !IsBlank(credentials.email) && ValidateEmail(credentials.email) && credentials.password != []
    ensures r.Ok? ==> r.value == credentials
    ensures IsBlank(credentials.email) ==> r == Err(Invalid(MsgEmailRequired))
    ensures !IsBlank(credentials.email) && !ValidateEmail(credentials.email) ==> r == Err(Invalid(MsgEmailFormat))
    ensures (!IsBlank(credentials.email) && ValidateEmail(credentials.email) && credentials.password == [])
            ==> r == Err(Invalid(MsgPasswordRequired))
    ensures r.Err? ==> r.error.code == ValidationError && r.error.details == Undefined
    ensures r.Err? ==> r.error.message in {MsgEmailRequired, MsgEmailFormat, MsgPasswordRequired}
  {
    if IsBlank(credentials.email) then Err(Invalid(MsgEmailRequired))
    else if !ValidateEmail(credentials.email) then Err(Invalid(MsgEmailFormat))
    else if credentials.password == [] then Err(Invalid(MsgPasswordRequired))
    else Ok(credentials)
  }

  /**
   * `validateRegisterCredentials(credentials)`: the login checks, then password
   * length, then password confirmation.
   */
  function ValidateRegisterCredentials(credentials: RegisterCredentials): (r: Result<RegisterCredentials, AppError>)
    ensures r.Ok? <==> !IsBlank(credentials.email) && ValidateEmail(credentials.email)
                       && ValidatePassword(credentials.password)
                       && credentials.password == credentials.confirmPassword
    ensures r.Ok? ==> r.value == credentials
    ensures r.Err? ==> r.error.code == ValidationError && r.error.details == Undefined
    ensures r.Err? ==> r.error.message in {MsgEmailRequired, MsgEmailFormat, MsgPasswordRequired,
                                           MsgPasswordTooShort, MsgPasswordMismatch}
    ensures IsBlank(credentials.email) ==> r == Err(Invalid(MsgEmailRequired))
    ensures !IsBlank(credentials.email) && !ValidateEmail(credentials.email) ==> r == Err(Invalid(MsgEmailFormat))
    ensures (!IsBlank(credentials.email) && ValidateEmail(credentials.email) && credentials.password == [])
            ==> r == Err(Invalid(MsgPasswordRequired))
    ensures (!IsBlank(credentials.email) && ValidateEmail(credentials.email) && credentials.password != []
             && !ValidatePassword(credentials.password)) ==> r == Err(Invalid(MsgPasswordTooShort))
    ensures (!IsBlank(credentials.email) && ValidateEmail(credentials.email) && ValidatePassword(credentials.password)
             && credentials.password != credentials.confirmPassword) ==> r == Err(Invalid(MsgPasswordMismatch))
  {
    if IsBlank(credentials.email) then Err(Invalid(MsgEmailRequired))
    else if !ValidateEmail(credentials.email) then Err(Invalid(MsgEmailFormat))
    else if credentials.password == [] then Err(Invalid(MsgPasswordRequired))
    else if !ValidatePassword(credentials.password) then Err(Invalid(MsgPasswordTooShort))
    else if credentials.password != credentials.confirmPassword then Err(Invalid(MsgPasswordMismatch))
    else Ok(credentials)
  }

  /** A blank e-mail never has the e-mail shape, so the blank check only chooses the message. */
  lemma BlankIsNotEmail(s: string)
    requires IsBlank(s)
    ensures !ValidateEmail(s)
  {
  }

  /** A whitespace-only e-mail reports the "required" message, never the format message. */
  lemma WhitespaceEmailIsRequired(email: string, password: string)
    requires AllWhitespace(email)
    ensures ValidateLoginCredentials(LoginCredentials(email, password)) == Err(Invalid(MsgEmailRequired))
  {
  }

  /**
   * Only the first failing check is reported: when the e-mail fails, the password
   * plays no part in the login result.
   */
  lemma LoginEmailFailureIgnoresPassword(email: string, p1: string, p2: string)
    requires IsBlank(email) || !ValidateEmail(email)
    ensures ValidateLoginCredentials(LoginCredentials(email, p1))
         == ValidateLoginCredentials(LoginCredentials(email, p2))
  {
  }

  /** Login validation never checks the password's length: one character is enough. */
  lemma LoginIgnoresPasswordLength(email: string, password: string)
    requires ValidateEmail(email) && |password| >= 1
    ensures ValidateLoginCredentials(LoginCredentials(email, password)) == Ok(LoginCredentials(email, password))
  {
    if IsBlank(email) {
      BlankIsNotEmail(email);
    }
  }

  /**
   * Registration rejects an empty password with the "required" message, before
   * the length and confirmation checks run.
   */
  lemma RegisterEmptyPasswordIsRequired(email: string, confirm: string)
    requires !IsBlank(email) && ValidateEmail(email)
    ensures ValidateRegisterCredentials(RegisterCredentials(email, "", confirm)) == Err(Invalid(MsgPasswordRequired))
  {
  }

  /** Registration reports a short non-empty password before comparing it with its confirmation. */
  lemma RegisterShortPasswordReported(email: string, password: string, confirm: string)
    requires !IsBlank(email) && ValidateEmail(email) && password != [] && !ValidatePassword(password)
    ensures ValidateRegisterCredentials(RegisterCredentials(email, password, confirm)) == Err(Invalid(MsgPasswordTooShort))
  {
  }

  /** Six characters is the boundary: "123456" passes and "12345" fails. */
  lemma PasswordBoundary()
    ensures ValidatePassword("123456") && !ValidatePassword("12345")
  {
    var short := "12345";
    assert forall i :: 0 <= i < |short| ==> InBasicPlane(short[i]);
  }

  /**
   * Length is counted in UTF-16 code units: three characters beyond the basic
   * plane make a password of length six, while three basic-plane characters are
   * too short.
   */
  lemma SupplementaryPasswordLength()
    ensures ValidatePassword("\U{20BB7}\U{20BB7}\U{20BB7}") && !ValidatePassword("abc")
  {
    var p := "\U{20BB7}\U{20BB7}\U{20BB7}";
    assert Utf16Length(p[3..]) == 0;
    assert Utf16Length(p[2..]) == 2 + Utf16Length(p[3..]);
    assert Utf16Length(p[1..]) == 2 + Utf16Length(p[2..]);
    assert Utf16Length(p) == 2 + Utf16Length(p[1..]);
    var short := "abc";
    assert forall i :: 0 <= i < |short| ==> InBasicPlane(short[i]);
  }

  /**
   * Four characters of which two lie beyond the basic plane have length six and
   * pass, although a four-character basic-plane password does not.
   */
  lemma MixedPasswordLength()
    ensures ValidatePassword("ab\U{20BB7}\U{20BB7}") && !ValidatePassword("abcd")
  {
    var p := "ab\U{20BB7}\U{20BB7}";
    Utf16LengthConcat(p[..2], p[2..]);
    assert p[..2] + p[2..] == p;
    Utf16LengthConcat(p[2..3], p[3..]);
    assert p[2..3] + p[3..] == p[2..];
    Utf16LengthOfChar(p[2]);
    Utf16LengthOfChar(p[3]);
    assert p[2..3] == [p[2]] && p[3..] == [p[3]];
    var short := "abcd";
    assert forall i :: 0 <= i < |short| ==> InBasicPlane(short[i]);
  }

  /** Registration accepts a confirmed password of three supplementary-plane characters. */
  lemma RegisterAcceptsSupplementaryPassword(email: string, password: string)
    requires !IsBlank(email) && ValidateEmail(email)
    requires password == "\U{20BB7}\U{20BB7}\U{20BB7}"
    ensures ValidateRegisterCredentials(RegisterCredentials(email, password, password))
         == Ok(RegisterCredentials(email, password, password))
  {
    SupplementaryPasswordLength();
  }

  /** An address without '@' passes the blank check and fails the format check. */
  lemma RejectsMalformedLoginEmail()
    ensures ValidateLoginCredentials(LoginCredentials("invalid-email", "password123")) == Err(Invalid(MsgEmailFormat))
  {
    assert !IsWhitespace("invalid-email"[0]);
    RejectsAddressWithoutAt();
  }

  /** Once the address is well formed, an empty password reports the password as missing. */
  lemma EmptyLoginPasswordIsRequired(email: string)
    requires ValidateEmail(email)
    ensures ValidateLoginCredentials(LoginCredentials(email, "")) == Err(Invalid(MsgPasswordRequired))
  {
    if IsBlank(email) {
      BlankIsNotEmail(email);
    }
  }

  /** A valid address with an empty password reports the password as missing. */
  lemma RejectsEmptyLoginPassword()
    ensures ValidateLoginCredentials(LoginCredentials("test" + "@" + "example" + "." + "com", ""))
         == Err(Invalid(MsgPasswordRequired))
  {
    AcceptsPlainAddress();
    EmptyLoginPasswordIsRequired("test" + "@" + "example" + "." + "com");
  }

  /** Credentials that pass registration also pass login validation. */
  lemma RegisterStricterThanLogin(c: RegisterCredentials)
    requires ValidateRegisterCredentials(c).Ok?
    ensures ValidateLoginCredentials(LoginCredentials(c.email, c.password)).Ok?
  {
  }
}
