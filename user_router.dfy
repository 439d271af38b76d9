/**
 * The password rule of the sign-up procedure (backend/src/router/user.ts:12-44):
 * `z.string().min(2)` followed by a `superRefine` that sorts every character
 * into the first class it matches ("number", then A-Z, then a-z) and adds one
 * custom issue unless each of the three counts is at least 1.
 *
 * A JavaScript string is a sequence of UTF-16 code units: `length`, `charAt` and
 * the regular expressions all work on code units, so the rule is stated on them.
 */
module UserRouter {
  import opened Wrappers

  newtype CodeUnit = x: int | 0 <= x < 0x1_0000

  type JsString = seq<CodeUnit>

  /** The UTF-16 encoding of a string of Unicode scalar values. */
  function Utf16(s: string): JsString
  {
    if s == [] then [] else CodeUnits(s[0]) + Utf16(s[1..])
  }

  function CodeUnits(c: char): seq<CodeUnit>
  {
    var v := c as int;
    if v < 0x1_0000 then [v as CodeUnit]
    else [(0xD800 + (v - 0x1_0000) / 0x400) as CodeUnit, (0xDC00 + (v - 0x1_0000) % 0x400) as CodeUnit]
  }

  const MIN_LENGTH: nat := 2

  const MESSAGE := "Password must have at least 1 lowercase, 1 uppercase and 1 number."

  /** The issues the schema can report on a password. */
  datatype Issue = TooSmall(minimum: nat) | Custom(message: string)

  /** The characters ECMAScript's StringToNumber trims: WhiteSpace and LineTerminator. */
  predicate IsJsWhiteSpace(u: CodeUnit)
  {
    u == 0x09 || u == 0x0A || u == 0x0B || u == 0x0C || u == 0x0D || u == 0x20 || u == 0xA0 ||
    u == 0x1680 || (0x2000 <= u <= 0x200A) || u == 0x2028 || u == 0x2029 || u == 0x202F ||
    u == 0x205F || u == 0x3000 || u == 0xFEFF
  }

  predicate IsDigit(u: CodeUnit) { 0x30 <= u <= 0x39 }

  /** `+ch` for a one-code-unit string: a digit is its value, a string that is only
      white space is 0, and everything else is NaN (None). */
  function ToNumber(u: CodeUnit): (n: Option<int>)
    ensures n.Some? <==> IsDigit(u) || IsJsWhiteSpace(u)
    ensures IsJsWhiteSpace(u) ==> n == Some(0)
    ensures IsDigit(u) ==> n == Some(u as int - 0x30)
  {
    if IsJsWhiteSpace(u) then Some(0)
    else if IsDigit(u) then Some(u as int - 0x30)
    else None
  }

  /** `!isNaN(+ch)`. */
  predicate IsNumber(u: CodeUnit) { ToNumber(u).Some? }

  /** `/[A-Z]/.test(ch)`. */
  predicate IsUpperCase(u: CodeUnit) { 0x41 <= u <= 0x5A }

  /** `/[a-z]/.test(ch)`. */
  predicate IsLowerCase(u: CodeUnit) { 0x61 <= u <= 0x7A }

  /** The counters the loop keeps. */
  datatype Counts = Counts(upper: nat, lower: nat, numbers: nat)

  /** The counters after the loop has seen `s`, one character at a time, each counted
      at most once, in the first class it belongs to. */
  function Tally(s: JsString): Counts
  {
    if s == [] then Counts(0, 0, 0)
    else
      var c := Tally(s[..|s| - 1]);
      var ch := s[|s| - 1];
      if IsNumber(ch) then c.(numbers := c.numbers + 1)
      else if IsUpperCase(ch) then c.(upper := c.upper + 1)
      else if IsLowerCase(ch) then c.(lower := c.lower + 1)
      else c
  }

  predicate HasNumber(s: JsString) { exists i :: 0 <= i < |s| && IsNumber(s[i]) }

  predicate HasUpperCase(s: JsString) { exists i :: 0 <= i < |s| && IsUpperCase(s[i]) }

  predicate HasLowerCase(s: JsString) { exists i :: 0 <= i < |s| && IsLowerCase(s[i]) }

  /** The rule the schema enforces, stated without the loop. */
  predicate Acceptable(password: JsString)
  {
    |password| >= MIN_LENGTH && HasNumber(password) && HasUpperCase(password) && HasLowerCase(password)
  }

  /** Each character adds to at most one counter. */
  lemma {:induction false} TallyBounded(s: JsString)
    ensures Tally(s).upper + Tally(s).lower + Tally(s).numbers <= |s|
  {
    if s != [] {
      TallyBounded(s[..|s| - 1]);
    }
  }

  /** A counter is positive exactly when some character is in its class. The classes
      are disjoint, so testing "number" first loses no letter. */
  lemma {:induction false} TallyPositive(s: JsString)
    ensures Tally(s).numbers > 0 <==> HasNumber(s)
    ensures Tally(s).upper > 0 <==> HasUpperCase(s)
    ensures Tally(s).lower > 0 <==> HasLowerCase(s)
  {
    if s != [] {
      var init := s[..|s| - 1];
      TallyPositive(init);
      assert forall i :: 0 <= i < |init| ==> init[i] == s[i];
      assert HasNumber(s) <==> HasNumber(init) || IsNumber(s[|s| - 1]);
      assert HasUpperCase(s) <==> HasUpperCase(init) || IsUpperCase(s[|s| - 1]);
      assert HasLowerCase(s) <==> HasLowerCase(init) || IsLowerCase(s[|s| - 1]);
    }
  }

  /** The `superRefine` callback: count, then add the custom issue when a class is missing. */
  method SuperRefine(password: JsString) returns (issue: Option<Issue>)
    ensures issue.None? <==> HasNumber(password) && HasUpperCase(password) && HasLowerCase(password)
    ensures issue.Some? ==> issue.value == Custom(MESSAGE)
  {
    var countOfUpperCase, countOfLowerCase, countOfNumbers := 0, 0, 0;
    for i := 0 to |password|
      invariant Counts(countOfUpperCase, countOfLowerCase, countOfNumbers) == Tally(password[..i])
    {
      var ch := password[i];
      assert password[..i + 1][..i] == password[..i];
      if IsNumber(ch) {
        countOfNumbers := countOfNumbers + 1;
      } else if IsUpperCase(ch) {
        countOfUpperCase := countOfUpperCase + 1;
      } else if IsLowerCase(ch) {
        countOfLowerCase := countOfLowerCase + 1;
      }
    }
    assert password[..|password|] == password;
    TallyPositive(password);
    if countOfLowerCase < 1 || countOfUpperCase < 1 || countOfNumbers < 1 {
      issue := Some(Custom(MESSAGE));
    } else {
      issue := None;
    }
  }

  /** The whole password schema. A failed `min(2)` does not stop the refinement, so a
      short password can carry both issues. */
  method ValidatePassword(password: JsString) returns (issues: seq<Issue>)
    ensures issues == [] <==> Acceptable(password)
    ensures TooSmall(MIN_LENGTH) in issues <==> |password| < MIN_LENGTH
    ensures Custom(MESSAGE) in issues <==> !(HasNumber(password) && HasUpperCase(password) && HasLowerCase(password))
    ensures |issues| <= 2
  {
    issues := [];
    if |password| < MIN_LENGTH {
      issues := issues + [TooSmall(MIN_LENGTH)];
    }
    var refined := SuperRefine(password);
    if refined.Some? {
      issues := issues + [refined.value];
    }
  }

  /** The password the router tests use, "test", has no upper-case letter and no number. */
  lemma TestIsRejected()
    ensures !Acceptable(Utf16("test")) && !HasUpperCase(Utf16("test")) && !HasNumber(Utf16("test"))
  {
  }

  lemma SmallestAcceptable()
    ensures Acceptable(Utf16("aA1"))
  {
    var s := Utf16("aA1");
    assert s == [0x61, 0x41, 0x31];
    assert IsLowerCase(s[0]) && IsUpperCase(s[1]) && IsNumber(s[2]);
  }

  /** A space is a "number": its numeric value is 0. */
  lemma SpaceCountsAsNumber()
    ensures ToNumber(0x20) == Some(0)
    ensures Acceptable(Utf16("aA "))
  {
    var s := Utf16("aA ");
    assert s == [0x61, 0x41, 0x20];
    assert IsLowerCase(s[0]) && IsUpperCase(s[1]) && IsNumber(s[2]);
  }

  /** One character is too short, even "1". */
  lemma OneCharacterRejected(u: CodeUnit)
    ensures !Acceptable([u])
  {
  }
}
