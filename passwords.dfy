/** The password rule applied at signup (`validate_password`). */
module Passwords {
  import opened Documents

  /** The character classes the rule searches for with `re.search`. */
  datatype CharClass = Whitespace | LowerLetter | UpperLetter | Digit

  /** `\s` on a Python string: the characters `str.isspace` accepts. */
  predicate IsSpace(c: char)
  {
    var n := c as int;
    n == 0x20 || 0x09 <= n <= 0x0D || 0x1C <= n <= 0x1F || n == 0x85 || n == 0xA0 ||
    n == 0x1680 || 0x2000 <= n <= 0x200A || n == 0x2028 || n == 0x2029 ||
    n == 0x202F || n == 0x205F || n == 0x3000
  }

  predicate InClass(c: char, cls: CharClass)
  {
    match cls
    case Whitespace => IsSpace(c)
    case LowerLetter => 'a' <= c <= 'z'
    case UpperLetter => 'A' <= c <= 'Z'
    case Digit => '0' <= c <= '9'
  }

  /** `re.search(cls, s)` succeeds: scan left to right for a character of the class. */
  predicate Search(cls: CharClass, s: string)
  {
    s != [] && (InClass(s[0], cls) || Search(cls, s[1..]))
  }

  /** `validate_password`, with its two tests in the source's order. */
  predicate ValidatePassword(p: string)
  {
    if |p| < 8 || Search(Whitespace, p) then false
    else if !(Search(LowerLetter, p) && Search(UpperLetter, p) && Search(Digit, p)) then false
    else true
  }

  /** The rule in words: eight characters or more, no whitespace, and at least
      one lower-case letter, one upper-case letter and one digit. */
  ghost predicate PasswordRule(p: string)
  {
    && |p| >= 8
    && (forall i :: 0 <= i < |p| ==> !IsSpace(p[i]))
    && (exists i :: 0 <= i < |p| && 'a' <= p[i] <= 'z')
    && (exists i :: 0 <= i < |p| && 'A' <= p[i] <= 'Z')
    && (exists i :: 0 <= i < |p| && '0' <= p[i] <= '9')
  }

  /** A search succeeds exactly when some character of the string is in the class. */
  lemma {:induction false} SearchFinds(cls: CharClass, s: string)
    ensures Search(cls, s) <==> exists i :: 0 <= i < |s| && InClass(s[i], cls)
  {
    if s != [] {
      SearchFinds(cls, s[1..]);
      if !InClass(s[0], cls) && exists i :: 0 <= i < |s| && InClass(s[i], cls) {
        var i :| 0 <= i < |s| && InClass(s[i], cls);
        assert s[1..][i - 1] == s[i];
      }
      if exists i :: 0 <= i < |s[1..]| && InClass(s[1..][i], cls) {
        var i :| 0 <= i < |s[1..]| && InClass(s[1..][i], cls);
        assert s[i + 1] == s[1..][i];
      }
    }
  }

  /** `validate_password` accepts exactly the passwords that meet the rule;
      in particular it asks for no special character. */
  lemma ValidatePasswordMeaning(p: string)
    ensures ValidatePassword(p) <==> PasswordRule(p)
  {
    SearchFinds(Whitespace, p);
    SearchFinds(LowerLetter, p);
    SearchFinds(UpperLetter, p);
    SearchFinds(Digit, p);
  }

  /** A password with no `_`, `@` or `$` is accepted. */
  lemma NoSpecialCharacterNeeded()
    ensures ValidatePassword("Abcdefg1")
    ensures forall i :: 0 <= i < |"Abcdefg1"| ==> "Abcdefg1"[i] !in {'_', '@', '$'}
  {
    assert "Abcdefg1"[0] == 'A' && "Abcdefg1"[1] == 'b' && "Abcdefg1"[7] == '1';
    ValidatePasswordMeaning("Abcdefg1");
  }

  /** Outcome of `validate_password(data["password"])` for any JSON value. */
  datatype Verdict = Accepted | Rejected | Raised(error: Exception)

  /** A non-string password reaches `len` first: a list or object shorter than
      eight is rejected by the length test, anything else raises. */
  function CheckPassword(v: Value): (r: Verdict)
    ensures r == Accepted <==> v.Str? && PasswordRule(v.s)
    ensures r == Rejected <==> (v.Str? && !PasswordRule(v.s)) || (v.List? && |v.items| < 8) || (v.Object? && |v.entries| < 8)
    ensures r.Raised? ==> r.error == TypeError
  {
    ValidatePasswordMeaning(if v.Str? then v.s else "");
    match v
    case Str(s) => if ValidatePassword(s) then Accepted else Rejected
    case List(xs) => if |xs| < 8 then Rejected else Raised(TypeError)
    case Object(es) => if |es| < 8 then Rejected else Raised(TypeError)
    case _ => Raised(TypeError)
  }
}
