/**
 * The application's error taxonomy (lib/errors/index.ts): a closed enumeration of
 * error codes, the AppError record and its constructor, and the structural type
 * guard that recognises an AppError among arbitrary JavaScript values.
 */
module Errors {
  import opened Results

  /** The eleven members of the `ErrorCode` string enum. */
  datatype ErrorCode =
    | Unauthorized
    | NotFound
    | ValidationError
    | FirebaseError
    | NetworkError
    | InvalidCredentials
    | UserNotFound
    | EmailAlreadyInUse
    | WeakPassword
    | InvalidEmail
    | TooManyRequests

  /** The enum members in declaration order. */
  const AllCodes: seq<ErrorCode> := [
    Unauthorized, NotFound, ValidationError, FirebaseError, NetworkError,
    InvalidCredentials, UserNotFound, EmailAlreadyInUse, WeakPassword,
    InvalidEmail, TooManyRequests
  ]

  /** The string value of each enum member; in the source every value is spelled as its member name. */
  function CodeValue(c: ErrorCode): string {
    match c
    case Unauthorized => "UNAUTHORIZED"
    case NotFound => "NOT_FOUND"
    case ValidationError => "VALIDATION_ERROR"
    case FirebaseError => "FIREBASE_ERROR"
    case NetworkError => "NETWORK_ERROR"
    case InvalidCredentials => "INVALID_CREDENTIALS"
    case UserNotFound => "USER_NOT_FOUND"
    case EmailAlreadyInUse => "EMAIL_ALREADY_IN_USE"
    case WeakPassword => "WEAK_PASSWORD"
    case InvalidEmail => "INVALID_EMAIL"
    case TooManyRequests => "TOO_MANY_REQUESTS"
  }

  /**
   * `Object.values(ErrorCode)`: eleven distinct strings, which are exactly the
   * strings that name a member.
   */
  function CodeValues(): (vs: seq<string>)
    ensures |vs| == 11
    ensures forall i, j :: 0 <= i < j < |vs| ==> vs[i] != vs[j]
    ensures forall s :: s in vs <==> ParseCode(s).Some?
  {
    var vs := seq(|AllCodes|, i requires 0 <= i < |AllCodes| => CodeValue(AllCodes[i]));
    ValuesOfAllCodes(vs);
    vs
  }

  /** The enum member whose value is `s`, if there is one. */
  function ParseCode(s: string): (r: Option<ErrorCode>)
    ensures r.Some? ==> CodeValue(r.value) == s
    ensures r.None? ==> forall c :: CodeValue(c) != s
  {
    if s == "UNAUTHORIZED" then Some(Unauthorized)
    else if s == "NOT_FOUND" then Some(NotFound)
    else if s == "VALIDATION_ERROR" then Some(ValidationError)
    else if s == "FIREBASE_ERROR" then Some(FirebaseError)
    else if s == "NETWORK_ERROR" then Some(NetworkError)
    else if s == "INVALID_CREDENTIALS" then Some(InvalidCredentials)
    else if s == "USER_NOT_FOUND" then Some(UserNotFound)
    else if s == "EMAIL_ALREADY_IN_USE" then Some(EmailAlreadyInUse)
    else if s == "WEAK_PASSWORD" then Some(WeakPassword)
    else if s == "INVALID_EMAIL" then Some(InvalidEmail)
    else if s == "TOO_MANY_REQUESTS" then Some(TooManyRequests)
    else None
  }

  /** The enumeration is closed: it has exactly eleven distinct members, and each is listed. */
  lemma CodesAreClosed()
    ensures |AllCodes| == 11
    ensures forall c: ErrorCode :: c in AllCodes
    ensures forall i, j :: 0 <= i < j < |AllCodes| ==> AllCodes[i] != AllCodes[j]
  {
    forall c: ErrorCode ensures c in AllCodes {
      match c
      case Unauthorized => assert AllCodes[0] == c;
      case NotFound => assert AllCodes[1] == c;
      case ValidationError => assert AllCodes[2] == c;
      case FirebaseError => assert AllCodes[3] == c;
      case NetworkError => assert AllCodes[4] == c;
      case InvalidCredentials => assert AllCodes[5] == c;
      case UserNotFound => assert AllCodes[6] == c;
      case EmailAlreadyInUse => assert AllCodes[7] == c;
      case WeakPassword => assert AllCodes[8] == c;
      case InvalidEmail => assert AllCodes[9] == c;
      case TooManyRequests => assert AllCodes[10] == c;
    }
  }

  /** Parsing a member's string value gives that member back. */
  lemma CodeValueRoundTrip(c: ErrorCode)
    ensures ParseCode(CodeValue(c)) == Some(c)
  {
    match c
    case Unauthorized =>
    case NotFound =>
    case ValidationError =>
    case FirebaseError =>
    case NetworkError =>
    case InvalidCredentials =>
    case UserNotFound =>
    case EmailAlreadyInUse =>
    case WeakPassword =>
    case InvalidEmail =>
    case TooManyRequests =>
  }

  /** No two members share a string value, so a value names its member uniquely. */
  lemma CodeValueInjective(a: ErrorCode, b: ErrorCode)
    ensures CodeValue(a) == CodeValue(b) ==> a == b
  {
    CodeValueRoundTrip(a);
    CodeValueRoundTrip(b);
  }

  /** The values of the listed members, in order, are distinct and are exactly the strings that name a member. */
  lemma {:induction false} ValuesOfAllCodes(vs: seq<string>)
    requires |vs| == |AllCodes|
    requires forall i :: 0 <= i < |AllCodes| ==> vs[i] == CodeValue(AllCodes[i])
    ensures |vs| == 11
    ensures forall i, j :: 0 <= i < j < |vs| ==> vs[i] != vs[j]
    ensures forall s :: s in vs <==> ParseCode(s).Some?
  {
    CodesAreClosed();
    forall i, j | 0 <= i < j < |vs| ensures vs[i] != vs[j] {
      CodeValueInjective(AllCodes[i], AllCodes[j]);
    }
    forall s ensures s in vs <==> ParseCode(s).Some? {
      if s in vs {
        var i :| 0 <= i < |vs| && vs[i] == s;
        CodeValueRoundTrip(AllCodes[i]);
      }
      if ParseCode(s).Some? {
        var c := ParseCode(s).value;
        assert c in AllCodes;
        var i :| 0 <= i < |AllCodes| && AllCodes[i] == c;
        assert vs[i] == s;
      }
    }
  }

  /**
   * A JavaScript value, as far as the error guard and the opaque `details` of an
   * error need one: numbers are abstracted to integers and arrays are objects
   * given by their own properties; functions (whose `typeof` is not 'object') are
   * not represented.
   */
  datatype Dyn =
    | Undefined
    | Null
    | Bool(b: bool)
    | Number(n: int)
    | Str(s: string)
    | Object(fields: map<string, Dyn>)

  /** `typeof v === 'object'`, which also holds of `null`. */
  predicate TypeofObject(v: Dyn) {
    v.Null? || v.Object?
  }

  /** The AppError record; `details` is `Undefined` when it was not given. */
  datatype AppError = AppError(code: ErrorCode, message: string, details: Dyn)

  /** `createError(code, message, details)`; an omitted `details` is undefined. */
  function CreateError(code: ErrorCode, message: string, details: Dyn := Undefined): (e: AppError)
    ensures e.code == code && e.message == message && e.details == details
  {
    AppError(code, message, details)
  }

  /**
   * The object literal `{ code, message, details }` that createError builds: all three
   * properties are present, `details` possibly with the value undefined.
   */
  function ToDyn(e: AppError): Dyn {
    Object(map["code" := Str(CodeValue(e.code)), "message" := Str(e.message), "details" := e.details])
  }

  /** `Object.values(ErrorCode).includes(x)`: only a string equal to an enum value is included. */
  predicate IncludesCode(x: Dyn) {
    x.Str? && x.s in CodeValues()
  }

  /**
   * `isAppError(v)`: an object other than null that has a `code` and a `message`
   * property and whose `code` is one of the enum values. The `message` property is
   * only required to be present.
   */
  predicate IsAppError(v: Dyn): (b: bool)
    ensures b <==> v.Object? && "code" in v.fields && "message" in v.fields
                   && v.fields["code"].Str? && ParseCode(v.fields["code"].s).Some?
  {
    TypeofObject(v) && v != Null && "code" in v.fields && "message" in v.fields
    && IncludesCode(v.fields["code"])
  }

  /** Every error createError builds passes the guard, whatever its code, message and details. */
  lemma CreatedErrorsAreAppErrors(c: ErrorCode, m: string, d: Dyn)
    ensures IsAppError(ToDyn(CreateError(c, m, d)))
    ensures ToDyn(CreateError(c, m)).fields["details"] == Undefined
  {
    CodeValueRoundTrip(c);
  }

  /** The guard rejects null and every value that is not an object. */
  lemma NonObjectsAreNotAppErrors(v: Dyn)
    requires !v.Object?
    ensures !IsAppError(v)
  {
  }

  /** The guard rejects objects lacking `code` or `message`, and those whose `code` is not an enum value. */
  lemma MalformedObjectsAreNotAppErrors(fields: map<string, Dyn>)
    requires "code" !in fields || "message" !in fields
             || !fields["code"].Str? || ParseCode(fields["code"].s).None?
    ensures !IsAppError(Object(fields))
  {
  }

  /** A value the guard accepts names exactly one member of the enumeration in its `code`. */
  lemma GuardedCodeIsAMember(v: Dyn)
    requires IsAppError(v)
    ensures ParseCode(v.fields["code"].s).Some?
  {
  }
}
