/**
 * The validation and derived fields of the marketplace's Django models: the
 * seller age check, the phone number pattern, the user-creation guards, the
 * full name, the category slug default and an order line's subtotal. Today's
 * date, `slugify` and `normalize_email` are inputs.
 */
module SiteModels {
  import opened Wrappers
  import opened Text

  datatype Date = Date(year: int, month: int, day: int)

  /** `(a.month, a.day) < (b.month, b.day)` as Python compares tuples. */
  predicate MonthDayBefore(a: Date, b: Date) {
    a.month < b.month || (a.month == b.month && a.day < b.day)
  }

  /** Completed years: the year difference, less one before this year's birthday. */
  function Age(dob: Date, today: Date): int {
    today.year - dob.year - (if MonthDayBefore(today, dob) then 1 else 0)
  }

  const MinimumAge := 18
  const TooYoung := "You must be at least 18 years old."

  function ValidateAge(dob: Date, today: Date): (r: Result<(), string>)
    ensures r.Failure? <==> Age(dob, today) < MinimumAge
    ensures r.Failure? ==> r.error == TooYoung
  {
    if Age(dob, today) < MinimumAge then Failure(TooYoung) else Success(())
  }

  /** The `n`th birthday is the date with the year moved on by `n`. */
  predicate BirthdayReached(dob: Date, n: int, today: Date) {
    dob.year + n < today.year
    || (dob.year + n == today.year && !MonthDayBefore(today, dob))
  }

  /** The age is at least `n` exactly when the `n`th birthday has come, so the
      check accepts a person from their 18th birthday on. */
  lemma AgeIsBirthdaysReached(dob: Date, today: Date, n: int)
    ensures Age(dob, today) >= n <==> BirthdayReached(dob, n, today)
  {
  }

  lemma EighteenTodayAccepted(today: Date)
    ensures ValidateAge(Date(today.year - 18, today.month, today.day), today).Success?
    ensures ValidateAge(Date(today.year - 18, today.month, today.day + 1), today).Failure?
  {
  }

  // ---------------------------------------------------------------------
  // Phone numbers: ^\+?1?\d{9,15}$
  // ---------------------------------------------------------------------

  const PhoneMaxLength := 17

  /** `s` splits at `a <= b <= e` into an optional '+', an optional '1', 9 to 15
      digits and what `$` lets through at the end: nothing or one newline. */
  predicate PhoneShape(s: string, a: int, b: int, e: int) {
    0 <= a <= b <= e <= |s|
    && a <= 1 && (a == 1 ==> s[0] == '+')
    && b - a <= 1 && (b - a == 1 ==> s[a] == '1')
    && AllDigits(s[b..e]) && 9 <= e - b <= 15
    && (e == |s| || (e == |s| - 1 && s[e] == '\n'))
  }

  /** The regular expression accepts `s`: some way of reading it fits the shape. */
  predicate PhoneMatchesPattern(s: string) {
    exists a, b, e :: 0 <= a <= b <= e <= |s| && PhoneShape(s, a, b, e)
  }

  /** Digits counted from `b` to the end, without a final newline. */
  predicate DigitRun(s: string, b: int) {
    0 <= b <= |s|
    && var e := if |s| > b && s[|s| - 1] == '\n' then |s| - 1 else |s|;
    AllDigits(s[b..e]) && 9 <= e - b <= 15
  }

  /** A direct check, reading the optional parts greedily and then backing off the '1'. */
  function PhoneValid(s: string): bool {
    var a := if |s| > 0 && s[0] == '+' then 1 else 0;
    DigitRun(s, a) || (|s| > a && s[a] == '1' && DigitRun(s, a + 1))
  }

  /** The direct check accepts exactly what the pattern accepts. */
  lemma PhoneValidIff(s: string)
    ensures PhoneValid(s) <==> PhoneMatchesPattern(s)
  {
    var a := if |s| > 0 && s[0] == '+' then 1 else 0;
    var e := if |s| > a && s[|s| - 1] == '\n' then |s| - 1 else |s|;
    if PhoneValid(s) {
      if DigitRun(s, a) {
        assert PhoneShape(s, a, a, e);
      } else {
        var e' := if |s| > a + 1 && s[|s| - 1] == '\n' then |s| - 1 else |s|;
        assert PhoneShape(s, a, a + 1, e');
      }
    }
    if PhoneMatchesPattern(s) {
      var a0, b0, e0 :| 0 <= a0 <= b0 <= e0 <= |s| && PhoneShape(s, a0, b0, e0);
      ShapeEnds(s, a0, b0, e0);
      if b0 == a {
        assert DigitRun(s, a);
      } else {
        assert DigitRun(s, a + 1);
      }
    }
  }

  /** The digit run starts and ends with a digit. */
  lemma ShapeDigitEnds(s: string, a: int, b: int, e: int)
    requires PhoneShape(s, a, b, e)
    ensures b < e && IsDigit(s[b]) && IsDigit(s[e - 1])
  {
    var digits := s[b..e];
    assert digits[0] == s[b] && digits[|digits| - 1] == s[e - 1];
  }

  /** A match reads the '+' exactly when there is one, and stops before a final
      newline exactly when there is one. */
  lemma ShapeEnds(s: string, a: int, b: int, e: int)
    requires PhoneShape(s, a, b, e)
    ensures a == (if |s| > 0 && s[0] == '+' then 1 else 0)
    ensures e == (if |s| > b && s[|s| - 1] == '\n' then |s| - 1 else |s|)
  {
    ShapeDigitEnds(s, a, b, e);
  }

  /** Every number the pattern accepts, without a trailing newline, fits the
      17-character column. */
  lemma AcceptedPhoneFitsColumn(s: string)
    requires PhoneMatchesPattern(s) && (|s| == 0 || s[|s| - 1] != '\n')
    ensures |s| <= PhoneMaxLength
  {
  }

  // ---------------------------------------------------------------------
  // Users, categories, order lines
  // ---------------------------------------------------------------------

  datatype NewUser = NewUser(email: string, username: string)

  /** `create_user`: both the email and the username are required. */
  function CreateUser(email: Option<string>, username: Option<string>, normalize: string -> string): (r: Result<NewUser, string>)
    ensures (email.None? || email.value == []) ==> r == Failure("Email is required")
    ensures email.Some? && email.value != [] && (username.None? || username.value == []) ==> r == Failure("Username is required")
    ensures r.Success? <==> email.Some? && email.value != [] && username.Some? && username.value != []
    ensures r.Success? ==> r.value == NewUser(normalize(email.value), username.value)
  {
    if email.None? || email.value == [] then Failure("Email is required")
    else if username.None? || username.value == [] then Failure("Username is required")
    else Success(NewUser(normalize(email.value), username.value))
  }

  function FullName(firstName: string, lastName: string): string {
    firstName + " " + lastName
  }

  /** The full name keeps both parts around one space, so they can be read back. */
  lemma FullNameParts(firstName: string, lastName: string)
    ensures |FullName(firstName, lastName)| == |firstName| + 1 + |lastName|
    ensures FullName(firstName, lastName)[..|firstName|] == firstName
    ensures FullName(firstName, lastName)[|firstName|] == ' '
    ensures FullName(firstName, lastName)[|firstName| + 1..] == lastName
  {
  }

  /** `Category.save`: the slug is derived from the name only when it is empty. */
  function SaveSlug(slug: string, name: string, slugify: string -> string): (r: string)
    ensures slug != [] ==> r == slug
  {
    if slug == [] then slugify(name) else slug
  }

  /** Saving again never changes the slug a save produced. */
  lemma SaveSlugIdempotent(slug: string, name: string, slugify: string -> string)
    ensures SaveSlug(SaveSlug(slug, name, slugify), name, slugify) == SaveSlug(slug, name, slugify)
  {
  }

  /** `quantity * unit_price`, prices in cents (two decimal places). */
  function Subtotal(quantity: nat, unitPriceCents: int): int {
    quantity * unitPriceCents
  }

  /** The price added once per unit. */
  function RepeatedSum(quantity: nat, unitPriceCents: int): int {
    if quantity == 0 then 0 else RepeatedSum(quantity - 1, unitPriceCents) + unitPriceCents
  }

  lemma {:induction false} SubtotalIsRepeatedSum(quantity: nat, unitPriceCents: int)
    ensures Subtotal(quantity, unitPriceCents) == RepeatedSum(quantity, unitPriceCents)
  {
    if quantity > 0 {
      SubtotalIsRepeatedSum(quantity - 1, unitPriceCents);
      assert quantity * unitPriceCents == (quantity - 1) * unitPriceCents + unitPriceCents;
    }
  }
}
