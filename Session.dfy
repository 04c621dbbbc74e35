/**
 * The login gate: blank-field validation (blank meaning empty once the
 * JavaScript whitespace is trimmed off both ends) followed by an exact,
 * case-sensitive look-up in a fixed list of demo credentials.
 */
module Session {
  import opened Wrappers

  /** A demo account. The role is looked up but never shown. */
  datatype Credential = Credential(username: string, password: string, role: string)

  const Users: seq<Credential> := [
    Credential("admin", "admin123", "Admin"),
    Credential("staff", "staff123", "Employee")
  ]

  /** Why a login attempt failed, or the role of the account it matched. */
  datatype LoginOutcome = SignedIn(role: string) | MissingCredentials | InvalidCredentials

  const MissingCredentialsMessage: string := "Please enter both username and password"
  const InvalidCredentialsMessage: string := "Invalid username or password"

  /**
   * The code points String.prototype.trim strips: the ECMAScript WhiteSpace
   * set (tab, vertical tab, form feed, no-break space, byte order mark and the
   * Unicode space separators) and the four line terminators.
   */
  predicate IsWhitespace(ch: char) {
    var n := ch as int;
    n == 0x09 || n == 0x0A || n == 0x0B || n == 0x0C || n == 0x0D
    || n == 0x20 || n == 0xA0 || n == 0x1680 || (0x2000 <= n <= 0x200A)
    || n == 0x2028 || n == 0x2029 || n == 0x202F || n == 0x205F
    || n == 0x3000 || n == 0xFEFF
  }

  /** The length of the run of whitespace at the start of s. */
  function LeadingWhitespace(s: string): (n: nat)
    ensures n <= |s|
    ensures forall k :: 0 <= k < n ==> IsWhitespace(s[k])
    ensures n < |s| ==> !IsWhitespace(s[n])
  {
    if s != [] && IsWhitespace(s[0]) then
      var n := 1 + LeadingWhitespace(s[1..]);
      assert forall k :: 1 <= k < n ==> s[k] == s[1..][k - 1];
      n
    else 0
  }

  /** The length of the run of whitespace at the end of s. */
  function TrailingWhitespace(s: string): (n: nat)
    ensures n <= |s|
    ensures forall k :: |s| - n <= k < |s| ==> IsWhitespace(s[k])
    ensures n < |s| ==> !IsWhitespace(s[|s| - n - 1])
  {
    if s != [] && IsWhitespace(s[|s| - 1]) then
      var init := s[..|s| - 1];
      var n := 1 + TrailingWhitespace(init);
      assert forall k :: |s| - n <= k < |s| - 1 ==> s[k] == init[k];
      n
    else 0
  }

  /** Where the trimmed string ends: past it there is only whitespace. */
  function TrimEnd(s: string): (j: nat)
    ensures LeadingWhitespace(s) <= j <= |s|
    ensures forall k :: j <= k < |s| ==> IsWhitespace(s[k])
    ensures LeadingWhitespace(s) < j ==> !IsWhitespace(s[j - 1])
  {
    var i := LeadingWhitespace(s);
    var rest := s[i..];
    var j := i + (|rest| - TrailingWhitespace(rest));
    assert forall k :: j <= k < |s| ==> s[k] == rest[k - i];
    j
  }

  /**
   * The string with whitespace stripped from both ends: the part between the
   * leading and the trailing run of whitespace, which starts and ends with a
   * character that is not whitespace.
   */
  function Trim(s: string): (r: string)
    ensures |r| <= |s|
    ensures r != [] ==> !IsWhitespace(r[0]) && !IsWhitespace(r[|r| - 1])
    ensures exists i, j :: 0 <= i <= j <= |s| && r == s[i..j] && IsBlank(s[..i]) && IsBlank(s[j..])
  {
    assert IsBlank(s[..LeadingWhitespace(s)]);
    assert IsBlank(s[TrimEnd(s)..]);
    s[LeadingWhitespace(s)..TrimEnd(s)]
  }

  /** Every character of the field is whitespace (so is the empty field). */
  predicate IsBlank(s: string) {
    forall k :: 0 <= k < |s| ==> IsWhitespace(s[k])
  }

  /** Trimming leaves nothing, so the login handler's emptiness test fails, exactly when the field is blank. */
  lemma TrimEmptyIffBlank(s: string)
    ensures Trim(s) == "" <==> IsBlank(s)
  {
    var i, j := LeadingWhitespace(s), TrimEnd(s);
    if forall k :: 0 <= k < |s| ==> IsWhitespace(s[k]) {
      assert i == |s|;
    } else {
      var k :| 0 <= k < |s| && !IsWhitespace(s[k]);
      assert i <= k < j;
      assert Trim(s)[k - i] == s[k];
    }
  }

  predicate Matches(c: Credential, username: string, password: string) {
    c.username == username && c.password == password
  }

  /** Some demo account has exactly this username and password. */
  predicate IsAccount(username: string, password: string) {
    exists i :: 0 <= i < |Users| && Matches(Users[i], username, password)
  }

  /** An account whose username and password both equal the input exactly, searched from the front. */
  function FindUser(users: seq<Credential>, username: string, password: string): (r: Option<Credential>)
    ensures r.Some? <==> exists i :: 0 <= i < |users| && Matches(users[i], username, password)
    ensures r.Some? ==> r.value in users && Matches(r.value, username, password)
  {
    if users == [] then None
    else if Matches(users[0], username, password) then Some(users[0])
    else
      var rest := users[1..];
      assert forall i :: 1 <= i < |users| ==> users[i] == rest[i - 1];
      FindUser(rest, username, password)
  }

  /** The account found is the first one that matches. */
  lemma {:induction false} FindUserFirst(users: seq<Credential>, username: string, password: string, j: int)
    requires 0 <= j < |users| && Matches(users[j], username, password)
    requires forall i :: 0 <= i < j ==> !Matches(users[i], username, password)
    ensures FindUser(users, username, password) == Some(users[j])
  {
    if j > 0 {
      var rest := users[1..];
      assert forall i :: 0 <= i < j - 1 ==> rest[i] == users[i + 1];
      FindUserFirst(rest, username, password, j - 1);
    }
  }

  /**
   * The outcome of pressing "Login": missing credentials when either field is
   * blank, otherwise the role of the first account matching both fields
   * exactly as typed, otherwise invalid credentials.
   */
  function Authenticate(username: string, password: string): (r: LoginOutcome)
  {
    if IsBlank(username) || IsBlank(password) then MissingCredentials
    else
      match FindUser(Users, username, password)
      case Some(user) => SignedIn(user.role)
      case None => InvalidCredentials
  }

  /**
   * The login decision, stated on JavaScript's trim and the account list:
   * missing credentials exactly when a field trims to nothing, sign-in
   * exactly when both fields are filled and an account matches them as typed,
   * and invalid credentials in the remaining case.
   */
  lemma AuthenticateSpec(u: string, p: string)
    ensures Authenticate(u, p) == MissingCredentials <==> Trim(u) == "" || Trim(p) == ""
    ensures Authenticate(u, p).SignedIn? <==> Trim(u) != "" && Trim(p) != "" && IsAccount(u, p)
    ensures Authenticate(u, p) == InvalidCredentials <==> Trim(u) != "" && Trim(p) != "" && !IsAccount(u, p)
    ensures Authenticate(u, p).SignedIn? ==> Credential(u, p, Authenticate(u, p).role) in Users
  {
    TrimEmptyIffBlank(u);
    TrimEmptyIffBlank(p);
  }

  /** The administrator account signs in with its role. */
  lemma AdminSignsIn()
    ensures Authenticate("admin", "admin123") == SignedIn("Admin")
  {
    NotBlank("admin", 0);
    NotBlank("admin123", 0);
    assert Matches(Users[0], "admin", "admin123");
    assert FindUser(Users, "admin", "admin123") == Some(Users[0]);
  }

  /** The staff account signs in with its role. */
  lemma StaffSignsIn()
    ensures Authenticate("staff", "staff123") == SignedIn("Employee")
  {
    NotBlank("staff", 0);
    NotBlank("staff123", 0);
    assert !Matches(Users[0], "staff", "staff123") by {
      assert Users[0].username[0] != 's';
    }
    assert Matches(Users[1], "staff", "staff123");
    assert FindUser(Users[1..], "staff", "staff123") == Some(Users[1]);
  }

  /** A field with a character that is not whitespace is not blank. */
  lemma NotBlank(s: string, k: int)
    requires 0 <= k < |s| && !IsWhitespace(s[k])
    ensures !IsBlank(s)
  {
  }

  /** The look-up is case-sensitive: "Admin" is not "admin". */
  lemma LookupIsCaseSensitive()
    ensures Authenticate("Admin", "admin123") == InvalidCredentials
  {
    NotBlank("Admin", 0);
    NotBlank("admin123", 0);
    forall i | 0 <= i < |Users| ensures !Matches(Users[i], "Admin", "admin123") {
      assert Users[i].username[0] != 'A';
    }
  }

  /** The look-up uses the field as typed: a leading space the blank check ignores still fails. */
  lemma LookupIsUntrimmed()
    ensures Authenticate(" admin", "admin123") == InvalidCredentials
  {
    NotBlank(" admin", 1);
    NotBlank("admin123", 0);
    forall i | 0 <= i < |Users| ensures !Matches(Users[i], " admin", "admin123") {
      assert Users[i].username[0] != ' ';
    }
  }

  /** A username of spaces counts as missing, whatever the password. */
  lemma SpacesAreMissing(password: string)
    ensures Authenticate("   ", password) == MissingCredentials
  {
    assert forall k :: 0 <= k < 3 ==> "   "[k] == ' ';
  }
}
