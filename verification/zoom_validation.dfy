/** The request validators that run before the signature and registrant handlers.
    Each runs its checks in a fixed order and answers the first failure with 400. */
module ZoomValidation {
  import opened Js
  import opened Http

  const MeetingNumberMessage := "Meeting number is required"
  const RoleMessage := "Role must be 0 or 1"
  const MeetingIdMessage := "Meeting ID is required"
  const EmailMessage := "Email is required"
  const FirstNameMessage := "First name is required"
  const EmailFormatMessage := "Invalid email format"

  /** `validateSignature` */
  function ValidateSignature(f: SignatureForm): (r: Gate)
    ensures r.Halt? ==> r.response.status == 400 && !r.response.body.success
    ensures r == Next <==> Truthy(f.meetingNumber) && NumberIsZeroOrOne(f.role)
    ensures !Truthy(f.meetingNumber) ==> r == Halt(Rejection(400, MeetingNumberMessage))
    ensures Truthy(f.meetingNumber) && !NumberIsZeroOrOne(f.role) ==> r == Halt(Rejection(400, RoleMessage))
  {
    if !Truthy(f.meetingNumber) then Halt(Rejection(400, MeetingNumberMessage))
    else if f.role == Undefined || !NumberIsZeroOrOne(f.role) then Halt(Rejection(400, RoleMessage))
    else Next
  }

  /** The role values `validateSignature` lets through, by kind: the numbers 0 and 1,
      `null`, both booleans, numeric strings denoting 0 or 1, and arrays whose text is
      such a string (so `[]`, `[0]` and `["1"]`); never `undefined` or a non-array
      object. */
  lemma RolesAccepted(mn: Value, role: Value)
    requires Truthy(mn)
    ensures role.Num? ==> (ValidateSignature(SignatureForm(mn, role)) == Next <==> role.n == 0 || role.n == 1)
    ensures role.Null? || role.Bool? ==> ValidateSignature(SignatureForm(mn, role)) == Next
    ensures role.Undefined? || role.Obj? ==> ValidateSignature(SignatureForm(mn, role)) == Halt(Rejection(400, RoleMessage))
    ensures role.Str? ==>
              var t := TrimEnd(TrimStart(role.s));
              (ValidateSignature(SignatureForm(mn, role)) == Next <==> AllDigits(t) && (AllZeros(t) || ZerosThenOne(t)))
    ensures role.Arr? ==>
              var t := TrimEnd(TrimStart(ToText(role)));
              (ValidateSignature(SignatureForm(mn, role)) == Next <==> AllDigits(t) && (AllZeros(t) || ZerosThenOne(t)))
  {
    if role.Str? {
      RoleTextAccepted(role.s);
    } else if role.Arr? {
      ArrayRoleAccepted(mn, role);
    }
  }

  lemma ArrayRoleAccepted(mn: Value, role: Value)
    requires Truthy(mn) && role.Arr?
    ensures var t := TrimEnd(TrimStart(ToText(role)));
            ValidateSignature(SignatureForm(mn, role)) == Next <==> AllDigits(t) && (AllZeros(t) || ZerosThenOne(t))
  {
    ArrayRoleTextAccepted(role);
  }

  // ---------------------------------------------------------------------------
  // The email pattern /^[^\s@]+@[^\s@]+\.[^\s@]+$/

  /** `[^\s@]+` */
  predicate Segment(t: string)
  {
    |t| > 0 && forall k :: 0 <= k < |t| ==> !IsWhitespace(t[k]) && t[k] != '@'
  }

  /** The regular expression, read directly: three `[^\s@]+` runs separated by an '@'
      and a '.'. */
  predicate MatchesEmailPattern(s: string)
  {
    exists i, j :: 0 < i < j < |s| && s[i] == '@' && s[j] == '.'
                   && Segment(s[..i]) && Segment(s[i + 1..j]) && Segment(s[j + 1..])
  }

  /** The same language described by its parts: no whitespace, exactly one '@' with a
      non-empty part before it, and a '.' inside the part after it with at least one
      character on each side. */
  predicate EmailShape(s: string)
  {
    && (forall k :: 0 <= k < |s| ==> !IsWhitespace(s[k]))
    && '@' in s
    && var i := IndexOf(s, '@');
       && i > 0
       && '@' !in s[i + 1..]
       && exists k :: i + 1 < k < |s| - 1 && s[k] == '.'
  }

  lemma EmailPatternFromShape(s: string)
    requires EmailShape(s)
    ensures MatchesEmailPattern(s)
  {
    var i := IndexOf(s, '@');
    var j :| i + 1 < j < |s| - 1 && s[j] == '.';
    forall k | i + 1 <= k < |s|
      ensures s[k] != '@'
    {
      assert s[k] == s[i + 1..][k - i - 1];
    }
    assert Segment(s[..i]);
    assert Segment(s[i + 1..j]);
    assert Segment(s[j + 1..]);
  }

  /** The pattern matched with its '@' at `i` and its '.' at `j`. */
  predicate MatchAt(s: string, i: nat, j: nat)
  {
    && 0 < i < j < |s| && s[i] == '@' && s[j] == '.'
    && Segment(s[..i]) && Segment(s[i + 1..j]) && Segment(s[j + 1..])
  }

  lemma MatchHasNoWhitespace(s: string, i: nat, j: nat)
    requires MatchAt(s, i, j)
    ensures forall k :: 0 <= k < |s| ==> !IsWhitespace(s[k])
  {
    forall k | 0 <= k < |s|
      ensures !IsWhitespace(s[k])
    {
      if k < i {
        assert s[k] == s[..i][k];
      } else if i < k < j {
        assert s[k] == s[i + 1..j][k - i - 1];
      } else if k > j {
        assert s[k] == s[j + 1..][k - j - 1];
      }
    }
  }

  lemma MatchHasOneAt(s: string, i: nat, j: nat)
    requires MatchAt(s, i, j)
    ensures '@' !in s[..i] && '@' !in s[i + 1..]
  {
    forall k | i < k < |s|
      ensures s[k] != '@'
    {
      if k < j {
        assert s[k] == s[i + 1..j][k - i - 1];
      } else if k > j {
        assert s[k] == s[j + 1..][k - j - 1];
      }
    }
  }

  lemma EmailShapeFromPattern(s: string)
    requires MatchesEmailPattern(s)
    ensures EmailShape(s)
  {
    var i, j :| 0 < i < j < |s| && s[i] == '@' && s[j] == '.'
                && Segment(s[..i]) && Segment(s[i + 1..j]) && Segment(s[j + 1..]);
    assert MatchAt(s, i, j);
    MatchHasNoWhitespace(s, i, j);
    MatchHasOneAt(s, i, j);
    IndexOfFirst(s, '@', i);
  }

  /** The regular expression accepts exactly the strings of `EmailShape`. */
  lemma EmailPatternIff(s: string)
    ensures MatchesEmailPattern(s) <==> EmailShape(s)
  {
    if MatchesEmailPattern(s) {
      EmailShapeFromPattern(s);
    }
    if EmailShape(s) {
      EmailPatternFromShape(s);
    }
  }

  /** `emailRegex.test(email)` coerces `email` to a string first. */
  predicate EmailFormatOk(email: Value)
  {
    MatchesEmailPattern(ToText(email))
  }

  /** The decimal text of an integer has no '@'. */
  lemma NoAtInIntText(n: int)
    ensures forall k :: 0 <= k < |IntText(n)| ==> IntText(n)[k] != '@'
  {
    if n < 0 {
      var d := NatText(-n);
      assert IntText(n) == "-" + d;
      forall k | 0 <= k < |IntText(n)|
        ensures IntText(n)[k] != '@'
      {
        if k > 0 {
          assert IntText(n)[k] == d[k - 1];
          assert IsDigit(d[k - 1]);
        }
      }
    } else {
      assert AllDigits(IntText(n));
    }
  }

  /** The text of a value that is neither a string nor an array has no '@'. */
  lemma NoAtInText(v: Value)
    requires !v.Str? && !v.Arr?
    ensures forall k :: 0 <= k < |ToText(v)| ==> ToText(v)[k] != '@'
  {
    if v.Num? {
      NoAtInIntText(v.n);
    }
  }

  /** Only a string or an array can pass the format check: the text of `undefined`,
      `null`, a number, a boolean or a plain object has no '@'. */
  lemma OnlyStringsAndArraysPassEmailFormat(email: Value)
    ensures EmailFormatOk(email) ==> email.Str? || email.Arr?
  {
    if !email.Str? && !email.Arr? {
      NoAtInText(email);
    }
  }

  /** An array holding one string passes the format check exactly when the string
      does, since `String([e])` is `e`. */
  lemma ArrayEmailReadsAsItsElement(e: string)
    ensures EmailFormatOk(Arr([Str(e)])) <==> EmailFormatOk(Str(e))
  {
    SingletonArrayText(Str(e));
  }

  /** `validateRegistrant`: `lastName` is never inspected. */
  function ValidateRegistrant(f: RegistrantForm): (r: Gate)
    ensures r.Halt? ==> r.response.status == 400 && !r.response.body.success
    ensures r == Next <==>
              Truthy(f.meetingId) && Truthy(f.email) && Truthy(f.firstName) && EmailFormatOk(f.email)
    ensures !Truthy(f.meetingId) ==> r == Halt(Rejection(400, MeetingIdMessage))
    ensures Truthy(f.meetingId) && !Truthy(f.email) ==> r == Halt(Rejection(400, EmailMessage))
    ensures Truthy(f.meetingId) && Truthy(f.email) && !Truthy(f.firstName) ==> r == Halt(Rejection(400, FirstNameMessage))
    ensures Truthy(f.meetingId) && Truthy(f.email) && Truthy(f.firstName) && !EmailFormatOk(f.email) ==>
              r == Halt(Rejection(400, EmailFormatMessage))
  {
    if !Truthy(f.meetingId) then Halt(Rejection(400, MeetingIdMessage))
    else if !Truthy(f.email) then Halt(Rejection(400, EmailMessage))
    else if !Truthy(f.firstName) then Halt(Rejection(400, FirstNameMessage))
    else if !EmailFormatOk(f.email) then Halt(Rejection(400, EmailFormatMessage))
    else Next
  }
}
