/**
 * User records and the registration rules every version of the controllers
 * shares: the MongoDB ObjectID identifiers, the stored user record, the
 * registration request, and the three local checks on a request.
 */
module Users {
  import opened Common
  import opened GoStrings

  /** A MongoDB ObjectID, written as its 24 lower-case hexadecimal digits. */
  datatype ObjectId = ObjectId(hex: string)

  /** `primitive.NilObjectID`. */
  const NilObjectId: ObjectId := ObjectId("000000000000000000000000")

  /** `ObjectID.Hex()`. */
  function Hex(id: ObjectId): string { id.hex }

  /** `ObjectID.String()`: the hex digits wrapped as `ObjectID("...")`. */
  function IdString(id: ObjectId): (s: string)
    ensures s == "ObjectID(\"" + Hex(id) + "\")"
  {
    "ObjectID(\"" + id.hex + "\")"
  }

  predicate IsHexDigit(c: char)
  {
    '0' <= c <= '9' || 'a' <= c <= 'f' || 'A' <= c <= 'F'
  }

  const MsgInvalidHex: string := "the provided hex string is not a valid ObjectID"
  /** Index of the first character that is not a hexadecimal digit. */
  function FirstNonHex(s: string): (r: Option<nat>)
    ensures r.Some? ==> r.value < |s| && !IsHexDigit(s[r.value])
    ensures r.Some? ==> forall j :: 0 <= j < r.value ==> IsHexDigit(s[j])
    ensures r.None? <==> forall j :: 0 <= j < |s| ==> IsHexDigit(s[j])
  {
    if s == [] then None
    else if !IsHexDigit(s[0]) then Some(0)
    else match FirstNonHex(s[1..])
      case None => None
      case Some(k) => Some(k + 1)
  }

  function UpperHexDigit(d: nat): char
    requires d < 16
  {
    if d < 10 then ('0' as int + d) as char else ('A' as int + d - 10) as char
  }

  /** `strconv.IsPrint` on a rune below 0x100: ASCII space to `~`, and 0xA1 to 0xFF except the soft hyphen. */
  predicate IsPrintLatin1(b: nat)
  {
    0x20 <= b <= 0x7E || (0xA1 <= b <= 0xFF && b != 0xAD)
  }

  /**
   * `hex.InvalidByteError(b).Error()`: the byte written with `%#U`, that is
   * "U+" and four upper-case hex digits, then the character in quotes when it
   * is printable.
   */
  function InvalidByteMessage(b: nat): (m: string)
    requires b < 0x100
    ensures |m| == 34 || |m| == 38
    ensures |m| == 38 <==> IsPrintLatin1(b)
  {
    "encoding/hex: invalid byte: U+00" + [UpperHexDigit(b / 16), UpperHexDigit(b % 16)]
    + (if IsPrintLatin1(b) then " '" + [b as char] + "'" else "")
  }

  /**
   * `primitive.ObjectIDFromHex(s)`: the length is checked in bytes first, then
   * every character must be a hexadecimal digit; upper-case digits are accepted.
   * `hex.Decode` reports the first byte that is not a digit, which is the lead
   * byte of the first character that is not one.
   */
  function ObjectIdFromHex(s: string): (r: Result<ObjectId>)
    ensures r.Ok? <==> |s| == 24 && forall i :: 0 <= i < |s| ==> IsHexDigit(s[i])
    ensures r.Ok? ==> r.value.hex == ToLower(s)
    ensures Utf8Len(s) != 24 ==> r == Err(MsgInvalidHex)
    ensures Utf8Len(s) == 24 && FirstNonHex(s).Some? ==>
      r == Err(InvalidByteMessage(LeadByte(s[FirstNonHex(s).value])))
  {
    Utf8LenBounds(s);
    if Utf8Len(s) != 24 then Err(MsgInvalidHex)
    else if FirstNonHex(s).Some? then Err(InvalidByteMessage(LeadByte(s[FirstNonHex(s).value])))
    else
      assert forall i :: 0 <= i < |s| ==> s[i] as int < 0x80;
      Ok(ObjectId(ToLower(s)))
  }

  /** A non-hex ASCII letter is reported with its code point and the letter itself. */
  lemma {:induction false} InvalidLetterMessage(digits: string)
    requires |digits| == 23 && forall i :: 0 <= i < |digits| ==> IsHexDigit(digits[i])
    ensures ObjectIdFromHex("g" + digits) == Err("encoding/hex: invalid byte: U+0067 'g'")
  {
    var s := "g" + digits;
    assert forall i :: 0 <= i < |s| ==> s[i] as int < 0x80;
    Utf8LenAscii(s);
    assert FirstNonHex(s) == Some(0);
  }

  /** A control character is reported with its code point only, since it is not printable. */
  lemma {:induction false} InvalidControlMessage(digits: string)
    requires |digits| == 23 && forall i :: 0 <= i < |digits| ==> IsHexDigit(digits[i])
    ensures ObjectIdFromHex(digits + "\n") == Err("encoding/hex: invalid byte: U+000A")
  {
    var s := digits + "\n";
    assert forall i :: 0 <= i < |s| ==> s[i] as int < 0x80;
    Utf8LenAscii(s);
    assert forall j :: 0 <= j < 23 ==> IsHexDigit(s[j]);
    assert !IsHexDigit(s[23]);
  }

  /** A two-byte character is reported by its lead byte, printed as a Latin-1 character. */
  lemma {:induction false} InvalidMultiByteMessage(digits: string)
    requires |digits| == 22 && forall i :: 0 <= i < |digits| ==> IsHexDigit(digits[i])
    ensures ObjectIdFromHex("\U{e9}" + digits) == Err("encoding/hex: invalid byte: U+00C3 '\U{c3}'")
  {
    var s := "\U{e9}" + digits;
    assert s[1..] == digits;
    assert forall i :: 0 <= i < |digits| ==> digits[i] as int < 0x80;
    Utf8LenAscii(digits);
    assert Utf8Len(s) == 2 + Utf8Len(s[1..]);
    assert FirstNonHex(s) == Some(0);
  }

  /** Reading back the hex form of a well-formed identifier gives the identifier. */
  lemma HexRoundTrip(id: ObjectId)
    requires |id.hex| == 24
    requires forall i :: 0 <= i < 24 ==> '0' <= id.hex[i] <= '9' || 'a' <= id.hex[i] <= 'f'
    ensures ObjectIdFromHex(Hex(id)) == Ok(id)
  {
    assert ToLower(id.hex) == id.hex;
  }

  /** A stored user document (`models.User`, `domain.User`). */
  datatype User = User(id: ObjectId, name: string, email: string, password: string, role: string)

  /** A registration request (`models.NewUser`). */
  datatype NewUser = NewUser(name: string, email: string, password: string, role: string)

  /** A login request (`models.LoginData`). */
  datatype LoginData = LoginData(email: string, password: string)

  const RoleAdmin: string := "ADMIN"
  const RoleUser: string := "USER"

  const MsgShortPassword: string := "password must be atleast 6 characters long"
  const MsgInvalidRole: string := "invalid user role, user role is either 'USER' or 'ADMIN'"
  const MsgEmptyName: string := "empty name field not allowed"
  const MsgAdminBootstrap: string := "admin can only be registered if no users exist"

  /**
   * The checks every `ValidateUserInfo` makes before anything else, in their
   * order: a password of at least 6 bytes, a role that is exactly USER or
   * ADMIN, a non-empty name.
   */
  function LocalChecks(name: string, password: string, role: string): (err: Option<string>)
    ensures err.None? <==> Utf8Len(password) >= 6 && (role == RoleAdmin || role == RoleUser) && |name| > 0
    ensures Utf8Len(password) < 6 ==> err == Some(MsgShortPassword)
    ensures Utf8Len(password) >= 6 && role != RoleAdmin && role != RoleUser ==> err == Some(MsgInvalidRole)
    ensures Utf8Len(password) >= 6 && (role == RoleAdmin || role == RoleUser) && |name| == 0
      ==> err == Some(MsgEmptyName)
  {
    if Utf8Len(password) < 6 then Some(MsgShortPassword)
    else if role != RoleAdmin && role != RoleUser then Some(MsgInvalidRole)
    else if |name| == 0 then Some(MsgEmptyName)
    else None
  }

  /** A password of fewer than six characters is rejected whatever the other fields hold. */
  lemma ShortPasswordAlwaysRejected(name: string, password: string, role: string)
    requires |password| < 6 && forall i :: 0 <= i < |password| ==> password[i] as int < 0x80
    ensures LocalChecks(name, password, role) == Some(MsgShortPassword)
  {
    Utf8LenBounds(password);
  }

  /** Go counts bytes: six characters always pass the length check, and fewer characters may pass it too. */
  lemma SixCharactersSuffice(name: string, password: string, role: string)
    requires |password| >= 6
    ensures LocalChecks(name, password, role) != Some(MsgShortPassword)
  {
    Utf8LenBounds(password);
  }

  /** Three two-byte characters make a password long enough. */
  lemma MultiByteShortPasswordAccepted()
    ensures LocalChecks("A", "ééé", RoleUser) == None
  {
    assert "ééé"[1..] == "éé";
    assert "éé"[1..] == "é";
    assert "é"[1..] == "";
  }

  /** The bootstrap rule: ADMIN may only be requested while the directory is empty. */
  function BootstrapCheck(role: string, usersExist: bool): (err: Option<string>)
    ensures err.Some? <==> role == RoleAdmin && usersExist
    ensures err.Some? ==> err.value == MsgAdminBootstrap
  {
    if role == RoleAdmin && usersExist then Some(MsgAdminBootstrap) else None
  }

  /**
   * `ValidateUserInfo` of the versions with the bootstrap rule, given what the
   * user count returned: the local checks, then the count's error as it is,
   * then the bootstrap rule.
   */
  function ValidateUserInfo(u: NewUser, usersExist: Result<bool>): (err: Option<string>)
    ensures LocalChecks(u.name, u.password, u.role).Some? ==> err == LocalChecks(u.name, u.password, u.role)
    ensures LocalChecks(u.name, u.password, u.role).None? && usersExist.Err? ==> err == Some(usersExist.error)
    ensures LocalChecks(u.name, u.password, u.role).None? && usersExist.Ok? ==>
      (err.Some? <==> u.role == RoleAdmin && usersExist.value)
    ensures err.None? <==>
      LocalChecks(u.name, u.password, u.role).None? && usersExist.Ok? && !(u.role == RoleAdmin && usersExist.value)
  {
    var local := LocalChecks(u.name, u.password, u.role);
    if local.Some? then local
    else match usersExist
      case Err(e) => Some(e)
      case Ok(b) => BootstrapCheck(u.role, b)
  }

  /** A request that fails a local check gets the same answer whatever the count would report: the count is not needed. */
  lemma LocalChecksFirst(u: NewUser, r1: Result<bool>, r2: Result<bool>)
    requires LocalChecks(u.name, u.password, u.role).Some?
    ensures ValidateUserInfo(u, r1) == ValidateUserInfo(u, r2) == LocalChecks(u.name, u.password, u.role)
  {
  }

  /** The validation a registration handler runs, given what `AreThereAnyUsers` returned. */
  function Validator(usersExist: Result<bool>): NewUser -> Option<string>
  {
    (u: NewUser) => ValidateUserInfo(u, usersExist)
  }

  /** A USER request passes whenever its fields do and the count succeeds; an ADMIN one only while no user exists. */
  lemma OnlyFirstAdmin(u: NewUser, usersExist: bool)
    requires LocalChecks(u.name, u.password, u.role).None?
    ensures u.role == RoleUser ==> ValidateUserInfo(u, Ok(usersExist)) == None
    ensures u.role == RoleAdmin ==>
      ValidateUserInfo(u, Ok(usersExist)) == if usersExist then Some(MsgAdminBootstrap) else None
  {
  }
}
