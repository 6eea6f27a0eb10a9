/** The domain value objects. Each is a one-field datatype; the subset type is the set
    of instances its constructor lets through, so an instance never holds a rejected
    value and, being a datatype, never changes after construction. The `New...`
    functions are the constructors: `Err` is the Error they throw. */
module ValueObjects {
  import opened Wrappers
  import opened Text

  /** What a template literal prints for any of these objects: none defines
      `toString`, so interpolation gives `Object.prototype.toString`'s text. */
  const ObjectText: string := "[object Object]"

  // ---------------------------------------------------------------- FileName

  datatype FileNameValue = FileNameValue(value: string) {
    function GetValue(): string { value }
  }
  type FileName = f: FileNameValue | f.value != "" witness FileNameValue("file")

  const FileNameEmpty := "File name cannot be empty."

  function NewFileName(value: string): (r: Result<FileName>)
    ensures r.Ok? <==> value != ""
    ensures r.Ok? ==> r.value.GetValue() == value
    ensures r.Err? ==> r.message == FileNameEmpty
  {
    if value == "" then Err(FileNameEmpty) else Ok(FileNameValue(value))
  }

  // ----------------------------------------------------------- FileExtension

  datatype FileExtensionValue = FileExtensionValue(value: string) {
    function GetValue(): string { value }
  }
  type FileExtension = f: FileExtensionValue | f.value != "" witness FileExtensionValue("txt")

  const FileExtensionEmpty := "File extension cannot be empty."

  /** Accepts any non-empty text verbatim; a leading dot is kept. */
  function NewFileExtension(value: string): (r: Result<FileExtension>)
    ensures r.Ok? <==> value != ""
    ensures r.Ok? ==> r.value.GetValue() == value
    ensures r.Err? ==> r.message == FileExtensionEmpty
  {
    if value == "" then Err(FileExtensionEmpty) else Ok(FileExtensionValue(value))
  }

  // ------------------------------------------------------------- ContentType

  datatype ContentTypeValue = ContentTypeValue(value: string) {
    function GetValue(): string { value }
  }
  type ContentType = c: ContentTypeValue | c.value != "" witness ContentTypeValue("text/plain")

  const ContentTypeEmpty := "Content type cannot be empty."

  function NewContentType(value: string): (r: Result<ContentType>)
    ensures r.Ok? <==> value != ""
    ensures r.Ok? ==> r.value.GetValue() == value
    ensures r.Err? ==> r.message == ContentTypeEmpty
  {
    if value == "" then Err(ContentTypeEmpty) else Ok(ContentTypeValue(value))
  }

  // ---------------------------------------------------------------- FilePath

  datatype FilePathValue = FilePathValue(value: string) {
    function GetValue(): string { value }
  }
  type FilePath = p: FilePathValue | p.value != "" witness FilePathValue("uploads/file")

  const FilePathEmpty := "File path cannot be empty."

  /** Its check is truthiness alone, which for a string is the same as non-empty. */
  function NewFilePath(value: string): (r: Result<FilePath>)
    ensures r.Ok? <==> value != ""
    ensures r.Ok? ==> r.value.GetValue() == value
    ensures r.Err? ==> r.message == FilePathEmpty
  {
    if value == "" then Err(FilePathEmpty) else Ok(FilePathValue(value))
  }

  /** The four file value objects give back exactly the text they were built from. */
  lemma FileValuesRoundTrip(n: FileName, e: FileExtension, c: ContentType, p: FilePath)
    ensures NewFileName(n.GetValue()) == Ok(n)
    ensures NewFileExtension(e.GetValue()) == Ok(e)
    ensures NewContentType(c.GetValue()) == Ok(c)
    ensures NewFilePath(p.GetValue()) == Ok(p)
  {
  }

  // ---------------------------------------------------------------- Username

  datatype UsernameValue = UsernameValue(value: string) {
    function GetValue(): string { value }
    /** Exact, case-sensitive comparison. */
    predicate Equals(other: UsernameValue)
      ensures Equals(other) <==> this == other
    { value == other.value }
  }
  type Username = u: UsernameValue | u.value != "" witness UsernameValue("user")

  const UsernameEmpty := "Username cannot be empty."

  /** Any non-empty text is a username, white space only included. */
  function NewUsername(value: string): (r: Result<Username>)
    ensures r.Ok? <==> value != ""
    ensures r.Ok? ==> r.value.GetValue() == value
    ensures r.Err? ==> r.message == UsernameEmpty
  {
    if value == "" then Err(UsernameEmpty) else Ok(UsernameValue(value))
  }

  // ------------------------------------------------------------------- Email

  /** A character `[^\s@]` matches. */
  predicate EmailChar(c: char) { !IsWhiteSpace(c) && c != '@' }

  /** Every character matches `[^\s@]`. */
  predicate Plain(s: string) { forall k :: 0 <= k < |s| ==> EmailChar(s[k]) }

  /** The language of `^[^\s@]+@[^\s@]+\.[^\s@]+$`: the text splits as
      `s[..i] + "@" + s[i+1..j] + "." + s[j+1..]` with three non-empty plain parts. */
  ghost predicate MatchesEmailPattern(s: string) {
    exists i, j :: 1 <= i && i + 2 <= j && j + 2 <= |s| && s[i] == '@' && s[j] == '.'
      && Plain(s[..i]) && Plain(s[i + 1..j]) && Plain(s[j + 1..])
  }

  /** The domain part `[^\s@]+\.[^\s@]+`: plain, with a dot that is neither its
      first nor its last character. */
  predicate EmailDomain(d: string) {
    Plain(d) && |d| >= 3 && '.' in d[1..|d| - 1]
  }

  /** The check `emailRegex.test(value)`, as a direct scan. */
  predicate IsValidEmail(s: string) {
    var at := IndexOf(s, '@');
    at >= 1 && Plain(s[..at]) && EmailDomain(s[at + 1..])
  }

  lemma PlainSlice(s: string, a: int, b: int)
    requires Plain(s) && 0 <= a <= b <= |s|
    ensures Plain(s[a..b])
  {
    forall k | 0 <= k < b - a ensures EmailChar(s[a..b][k]) { assert s[a..b][k] == s[a + k]; }
  }

  lemma PlainDot(x: string, y: string)
    requires Plain(x) && Plain(y)
    ensures Plain(x + ['.'] + y)
  {
    var z := x + ['.'] + y;
    assert EmailChar('.');
    forall k | 0 <= k < |z| ensures EmailChar(z[k]) {
      if k < |x| { assert z[k] == x[k]; }
      else if k > |x| { assert z[k] == y[k - |x| - 1]; }
    }
  }

  lemma NoAtBefore(s: string, i: int)
    requires 0 <= i <= |s| && Plain(s[..i])
    ensures forall k :: 0 <= k < i ==> s[k] != '@'
  {
    forall k | 0 <= k < i ensures s[k] != '@' { assert s[..i][k] == s[k]; }
  }

  /** Every string the scan accepts matches the regular expression. */
  lemma EmailCheckSound(s: string)
    requires IsValidEmail(s)
    ensures MatchesEmailPattern(s)
  {
    var i := IndexOf(s, '@');
    var d := s[i + 1..];
    var inner := d[1..|d| - 1];
    var k :| 0 <= k < |inner| && inner[k] == '.';
    var j := i + 2 + k;
    assert s[j] == inner[k];
    PlainSlice(d, 0, k + 1);
    PlainSlice(d, k + 2, |d|);
    assert s[i + 1..j] == d[0..k + 1];
    assert s[j + 1..] == d[k + 2..|d|];
    assert 1 <= i && i + 2 <= j && j + 2 <= |s| && s[i] == '@' && s[j] == '.'
      && Plain(s[..i]) && Plain(s[i + 1..j]) && Plain(s[j + 1..]);
  }

  lemma DomainFromParts(b: string, c: string)
    requires Plain(b) && Plain(c) && |b| >= 1 && |c| >= 1
    ensures EmailDomain(b + ['.'] + c)
  {
    var d := b + ['.'] + c;
    PlainDot(b, c);
    assert d[1..|d| - 1][|b| - 1] == '.';
  }

  lemma IndexOfFirst(s: string, i: int)
    requires 0 <= i < |s| && s[i] == '@' && forall k :: 0 <= k < i ==> s[k] != '@'
    ensures IndexOf(s, '@') == i
  {
  }

  /** Every string the regular expression matches is accepted by the scan. */
  lemma EmailCheckComplete(s: string)
    requires MatchesEmailPattern(s)
    ensures IsValidEmail(s)
  {
    var i, j :| 1 <= i && i + 2 <= j && j + 2 <= |s| && s[i] == '@' && s[j] == '.'
      && Plain(s[..i]) && Plain(s[i + 1..j]) && Plain(s[j + 1..]);
    EmailParts(s, i, j);
  }

  lemma EmailParts(s: string, i: int, j: int)
    requires 1 <= i && i + 2 <= j && j + 2 <= |s| && s[i] == '@' && s[j] == '.'
    requires Plain(s[..i]) && Plain(s[i + 1..j]) && Plain(s[j + 1..])
    ensures IsValidEmail(s)
  {
    NoAtBefore(s, i);
    IndexOfFirst(s, i);
    assert s[i + 1..] == s[i + 1..j] + ['.'] + s[j + 1..];
    DomainFromParts(s[i + 1..j], s[j + 1..]);
  }

  /** The scan accepts exactly the strings the regular expression matches. */
  lemma EmailCheckMatchesPattern(s: string)
    ensures IsValidEmail(s) <==> MatchesEmailPattern(s)
  {
    if IsValidEmail(s) { EmailCheckSound(s); }
    if MatchesEmailPattern(s) { EmailCheckComplete(s); }
  }

  /** An accepted address holds no white space and exactly one '@'. */
  lemma EmailShape(s: string)
    requires IsValidEmail(s)
    ensures forall k :: 0 <= k < |s| ==> !IsWhiteSpace(s[k])
    ensures var at := IndexOf(s, '@'); 0 < at && forall k :: 0 <= k < |s| && s[k] == '@' ==> k == at
  {
    var at := IndexOf(s, '@');
    var d := s[at + 1..];
    forall k | 0 <= k < |s| ensures EmailChar(s[k]) || k == at {
      if k < at { assert s[k] == s[..at][k]; }
      else if k > at { assert s[k] == d[k - at - 1]; }
    }
  }

  lemma EmailWitness()
    ensures IsValidEmail("a@b.c")
  {
    var s := "a@b.c";
    assert s[1] == '@' && s[0] != '@';
    assert IndexOf(s, '@') == 1;
    assert s[..1] == "a";
    assert EmailChar('a');
    assert s[2..] == "b.c";
    assert EmailChar('b') && EmailChar('.') && EmailChar('c');
    assert "b.c"[1..2][0] == '.';
  }

  datatype EmailValue = EmailValue(value: string) {
    function GetValue(): string { value }
    /** Exact comparison: no case folding. */
    predicate Equals(other: EmailValue)
      ensures Equals(other) <==> this == other
    { value == other.value }
  }
  type Email = e: EmailValue | IsValidEmail(e.value) witness (EmailWitness(); EmailValue("a@b.c"))

  const EmailInvalid := "Invalid email format."

  /** Keeps the text exactly as given (no lower-casing, no trimming). */
  function NewEmail(value: string): (r: Result<Email>)
    ensures r.Ok? <==> MatchesEmailPattern(value)
    ensures r.Ok? ==> r.value.GetValue() == value
    ensures r.Err? ==> r.message == EmailInvalid
  {
    EmailCheckMatchesPattern(value);
    if IsValidEmail(value) then Ok(EmailValue(value)) else Err(EmailInvalid)
  }

  // -------------------------------------------------------------------- Role

  const AllowedRoles: seq<string> := ["User", "Admin"]

  datatype RoleValue = RoleValue(value: string) {
    function GetValue(): string { value }
    predicate Equals(other: RoleValue)
      ensures Equals(other) <==> this == other
    { value == other.value }
  }
  type Role = r: RoleValue | r.value in AllowedRoles witness RoleValue("User")

  /** The message lists `AllowedRoles` joined by ", ". */
  const RoleInvalid := "Invalid role. Allowed values: User, Admin"

  /** Exact, case-sensitive membership in `AllowedRoles`. */
  function NewRole(value: string): (r: Result<Role>)
    ensures r.Ok? <==> value == "User" || value == "Admin"
    ensures r.Ok? ==> r.value.GetValue() == value
    ensures r.Err? ==> r.message == RoleInvalid
  {
    if value in AllowedRoles then Ok(RoleValue(value)) else Err(RoleInvalid)
  }

  const UserRole: Role := RoleValue("User")
  const AdminRole: Role := RoleValue("Admin")

  // ------------------------------------------------------------ UserPassword

  /** The one-way hash (`bcrypt.hash`) and its check (`bcrypt.compare`), taken as given. */
  datatype Hasher = Hasher(hash: string -> string, compare: (string, string) -> bool)

  /** A password checks against its own hash. */
  ghost predicate SoundHasher(h: Hasher) {
    forall p :: h.compare(p, h.hash(p))
  }

  /** Holds only the hash. */
  datatype UserPassword = UserPassword(hashed: string) {
    function GetHashed(): string { hashed }
  }

  const PasswordTooShort := "Password must be at least 6 characters long."

  /** `UserPassword.create`: length in UTF-16 code units, as `.length` counts. */
  function CreatePassword(password: string, h: Hasher): (r: Result<UserPassword>)
    ensures r.Ok? <==> Utf16Length(password) >= 6
    ensures r.Ok? ==> r.value.GetHashed() == h.hash(password)
    ensures r.Err? ==> r.message == PasswordTooShort
  {
    if Utf16Length(password) < 6 then Err(PasswordTooShort)
    else Ok(UserPassword(h.hash(password)))
  }

  /** `UserPassword.fromHashed`: the argument is stored as it is, without any check. */
  function FromHashed(hashed: string): (p: UserPassword)
    ensures p.GetHashed() == hashed
  {
    UserPassword(hashed)
  }

  /** `compare`: the plain text against the stored hash. */
  predicate Compare(p: UserPassword, password: string, h: Hasher) {
    h.compare(password, p.hashed)
  }

  /** A password created from `pw` checks against `pw` when the hasher is sound. */
  lemma CreatedPasswordMatches(pw: string, h: Hasher)
    requires SoundHasher(h) && Utf16Length(pw) >= 6
    ensures CreatePassword(pw, h).Ok? && Compare(CreatePassword(pw, h).value, pw, h)
  {
  }
}
