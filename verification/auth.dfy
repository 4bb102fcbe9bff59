/**
 * Credential handling (lib/auth.ts): the hex rendering of a password digest,
 * sign-up against the `users` table and login over a snapshot of it.
 * SHA-256 is a parameter `sha` returning a 32-byte digest; the `users` table is
 * a sequence of rows whose CNICs the store keeps unique.
 */
module Auth {
  import opened Types
  import Seqs

  newtype Byte = x: int | 0 <= x < 256

  /** A SHA-256 digest: 32 bytes. */
  type Digest = d: seq<Byte> | |d| == 32 witness seq(32, _ => 0 as Byte)

  const HexDigits := "0123456789abcdef"
  const InvalidCredentials := "Invalid credentials"
  /** The error the store reports when an insert would repeat an existing CNIC. */
  const DuplicateCnic := "duplicate key value violates unique constraint"

  // ---------------------------------------------------------------------------
  // Hex encoding of the digest

  /** `n.toString(16)` for a non-negative integer. */
  function Radix16(n: nat): (r: string)
    decreases n
  {
    if n < 16 then [HexDigits[n]] else Radix16(n / 16) + [HexDigits[n % 16]]
  }

  /** `s.padStart(width, fill)` for a one-character fill. */
  function PadStart(s: string, width: nat, fill: char): (r: string)
    ensures |r| == if |s| >= width then |s| else width
    ensures r[|r| - |s|..] == s
    ensures forall i :: 0 <= i < |r| - |s| ==> r[i] == fill
  {
    if |s| >= width then s else seq(width - |s|, _ => fill) + s
  }

  /** `b.toString(16).padStart(2, "0")` */
  function ByteHex(b: Byte): string
  {
    PadStart(Radix16(b as nat), 2, '0')
  }

  /** Each byte becomes exactly two lowercase hex digits, high nibble first. */
  lemma ByteHexDigits(b: Byte)
    ensures ByteHex(b) == [HexDigits[b as int / 16], HexDigits[b as int % 16]]
  {
    var n := b as int;
    if n < 16 {
      assert Radix16(n) == [HexDigits[n]];
    } else {
      assert Radix16(n / 16) == [HexDigits[n / 16]];
    }
  }

  /** `Array.from(bytes).map(b => b.toString(16).padStart(2, "0")).join("")` */
  function Hex(bytes: seq<Byte>): (h: string)
    ensures |h| == 2 * |bytes|
    ensures forall i :: 0 <= i < |h| ==> h[i] in HexDigits
    decreases |bytes|
  {
    if bytes == [] then ""
    else
      ByteHexDigits(bytes[0]);
      ByteHex(bytes[0]) + Hex(bytes[1..])
  }

  /** The value of a lowercase hex digit; other characters read as 0. */
  function HexValue(c: char): (v: nat)
    ensures v < 16
  {
    if '0' <= c <= '9' then c as int - '0' as int
    else if 'a' <= c <= 'f' then c as int - 'a' as int + 10
    else 0
  }

  /** Reads a hex string back two digits at a time. */
  function Unhex(h: string): seq<Byte>
    decreases |h|
  {
    if |h| < 2 then [] else [(HexValue(h[0]) * 16 + HexValue(h[1])) as Byte] + Unhex(h[2..])
  }

  lemma HexValueOfDigit(k: nat)
    requires k < 16
    ensures HexValue(HexDigits[k]) == k
  {
  }

  /** The two digits of a byte have the values of its high and low nibble. */
  lemma ByteOfDigits(b: Byte)
    ensures (HexValue(HexDigits[b as int / 16]) * 16 + HexValue(HexDigits[b as int % 16])) as Byte == b
  {
    HexValueOfDigit(b as int / 16);
    HexValueOfDigit(b as int % 16);
  }

  /** One step of `Unhex`: the first two digits give the first byte. */
  lemma {:induction false} UnhexCons(h: string)
    requires |h| >= 2
    ensures Unhex(h) == [(HexValue(h[0]) * 16 + HexValue(h[1])) as Byte] + Unhex(h[2..])
  {
  }

  /** The two digits of a byte are read back as that byte, whatever follows them. */
  lemma UnhexByte(b: Byte, rest: string)
    ensures Unhex(ByteHex(b) + rest) == [b] + Unhex(rest)
  {
    var hi, lo := HexDigits[b as int / 16], HexDigits[b as int % 16];
    ByteHexDigits(b);
    ByteOfDigits(b);
    var h := [hi, lo] + rest;
    assert h[2..] == rest;
    UnhexCons(h);
  }

  /** Reading the hex rendering back gives the digest bytes. */
  lemma {:induction false} HexRoundTrip(bytes: seq<Byte>)
    ensures Unhex(Hex(bytes)) == bytes
    decreases |bytes|
  {
    if bytes != [] {
      UnhexByte(bytes[0], Hex(bytes[1..]));
      HexRoundTrip(bytes[1..]);
      assert bytes == [bytes[0]] + bytes[1..];
    }
  }

  /** Distinct digests have distinct hex renderings. */
  lemma HexInjective(a: seq<Byte>, b: seq<Byte>)
    ensures Hex(a) == Hex(b) ==> a == b
  {
    HexRoundTrip(a);
    HexRoundTrip(b);
  }

  /** `sha256(password)`: the hex rendering of the password's digest, 64 characters. */
  function PasswordHash(password: string, sha: string -> Digest): (h: string)
    ensures |h| == 64
    ensures forall i :: 0 <= i < |h| ==> h[i] in HexDigits
  {
    Hex(sha(password))
  }

  // ---------------------------------------------------------------------------
  // The users table

  /** A row of the `users` table; only the digest of the password is stored. */
  datatype UserRow = UserRow(
    id: string,
    name: string,
    cnic: string,
    phone: string,
    email: Option<string>,
    passwordHash: string,
    createdAt: string)

  datatype SignUpData = SignUpData(
    name: string,
    cnic: string,
    phone: string,
    email: Option<string>,
    password: string)

  /** The `{ user, error }` object both operations return. */
  datatype AuthResult<U> = AuthResult(user: Option<U>, error: Option<string>)

  predicate CnicTaken(rows: seq<UserRow>, cnic: string)
  {
    exists row :: row in rows && row.cnic == cnic
  }

  ghost predicate UniqueCnics(rows: seq<UserRow>)
  {
    forall i, j :: 0 <= i < j < |rows| ==> rows[i].cnic != rows[j].cnic
  }

  /** The row sign-up inserts; `id` and `createdAt` are the values the store generates. */
  function NewUserRow(data: SignUpData, sha: string -> Digest, id: string, createdAt: string): (row: UserRow)
    ensures row.passwordHash == PasswordHash(data.password, sha)
    ensures row.name == data.name && row.cnic == data.cnic && row.phone == data.phone && row.email == data.email
    ensures row.id == id && row.createdAt == createdAt
  {
    UserRow(id, data.name, data.cnic, data.phone, data.email, PasswordHash(data.password, sha), createdAt)
  }

  class UsersTable {
    var rows: seq<UserRow>

    ghost predicate Valid()
      reads this
    {
      UniqueCnics(rows)
    }

    constructor (initial: seq<UserRow>)
      requires UniqueCnics(initial)
      ensures Valid() && rows == initial
    {
      rows := initial;
    }

    /**
     * Inserts a row unless the store fails (`fault`, its message) or the CNIC is
     * already taken; in both cases the table is unchanged and an error is returned.
     */
    method Insert(row: UserRow, fault: Option<string>) returns (error: Option<string>)
      requires Valid()
      modifies this
      ensures Valid()
      ensures fault.Some? ==> error == fault && rows == old(rows)
      ensures fault.None? && CnicTaken(old(rows), row.cnic) ==> error == Some(DuplicateCnic) && rows == old(rows)
      ensures fault.None? && !CnicTaken(old(rows), row.cnic) ==> error == None && rows == old(rows) + [row]
    {
      if fault.Some? {
        return fault;
      }
      if CnicTaken(rows, row.cnic) {
        return Some(DuplicateCnic);
      }
      forall i | 0 <= i < |rows| ensures rows[i].cnic != row.cnic {
        assert rows[i] in rows;
      }
      rows := rows + [row];
      error := None;
    }
  }

  /**
   * `signUp`: stores the row with the password's digest (never the password) and
   * returns the stored row, or returns the store's error with no user.
   */
  method SignUp(table: UsersTable, data: SignUpData, sha: string -> Digest, id: string, createdAt: string,
                fault: Option<string>)
    returns (result: AuthResult<UserRow>)
    requires table.Valid()
    modifies table
    ensures table.Valid()
    ensures result.user.Some? != result.error.Some?
    ensures result.user.Some? <==> fault.None? && !CnicTaken(old(table.rows), data.cnic)
    ensures result.user.Some? ==>
              && result.user.value == NewUserRow(data, sha, id, createdAt)
              && table.rows == old(table.rows) + [NewUserRow(data, sha, id, createdAt)]
    ensures result.error.Some? ==> table.rows == old(table.rows)
  {
    var row := NewUserRow(data, sha, id, createdAt);
    var error := table.Insert(row, fault);
    if error.Some? {
      return AuthResult(None, error);
    }
    return AuthResult(Some(row), None);
  }

  // ---------------------------------------------------------------------------
  // Login

  /** The profile handed back on login: every column except `password_hash`. */
  function Profile(row: UserRow): (u: User)
    ensures u.id == row.id && u.name == row.name && u.cnic == row.cnic
    ensures u.phone == row.phone && u.email == row.email && u.createdAt == row.createdAt
  {
    User(row.id, row.name, row.cnic, row.phone, row.email, row.createdAt)
  }

  /**
   * `login` over a snapshot of the table. The lookup by CNIC uses `.single()`, so it
   * fails unless exactly one row matches; `fault` is a failing lookup.
   */
  function Login(rows: seq<UserRow>, cnic: string, password: string, sha: string -> Digest, fault: bool)
    : (r: AuthResult<User>)
    ensures r.user.Some? != r.error.Some?
    ensures r.error.Some? ==> r.error.value == InvalidCredentials
    ensures r.user.Some? ==>
              && !fault
              && exists row :: row in rows && row.cnic == cnic
                               && row.passwordHash == PasswordHash(password, sha) && r.user.value == Profile(row)
  {
    var matches := Seqs.Filter(rows, (row: UserRow) => row.cnic == cnic);
    if fault || |matches| != 1 then AuthResult(None, Some(InvalidCredentials))
    else if PasswordHash(password, sha) != matches[0].passwordHash then AuthResult(None, Some(InvalidCredentials))
    else
      assert matches[0] in matches;
      AuthResult(Some(Profile(matches[0])), None)
  }

  /**
   * An unknown CNIC, a wrong password and a failing lookup all give the same error,
   * and no user.
   */
  lemma LoginRejectsUniformly(rows: seq<UserRow>, cnic: string, password: string, sha: string -> Digest, fault: bool)
    requires fault || forall row :: row in rows && row.cnic == cnic ==> row.passwordHash != PasswordHash(password, sha)
    ensures Login(rows, cnic, password, sha, fault) == AuthResult(None, Some(InvalidCredentials))
  {
  }

  /** In a table with unique CNICs, the lookup by a stored row's CNIC finds that row alone. */
  lemma {:induction false} OnlyMatch(rows: seq<UserRow>, row: UserRow)
    requires UniqueCnics(rows) && row in rows
    ensures Seqs.Filter(rows, (r: UserRow) => r.cnic == row.cnic) == [row]
    decreases |rows|
  {
    var sameCnic := (r: UserRow) => r.cnic == row.cnic;
    var tail := rows[1..];
    if rows[0] == row {
      forall x | x in tail ensures !sameCnic(x) {
        var j :| 0 <= j < |tail| && tail[j] == x;
        assert rows[j + 1] == x;
      }
      Seqs.FilterNone(tail, sameCnic);
    } else {
      var i :| 0 <= i < |rows| && rows[i] == row;
      assert rows[0].cnic != row.cnic;
      assert tail[i - 1] == row;
      OnlyMatch(tail, row);
    }
  }

  /**
   * On a table with unique CNICs and a lookup that does not fail, the CNIC and password
   * of any stored row log in to that row's profile.
   */
  lemma LoginSucceeds(rows: seq<UserRow>, row: UserRow, password: string, sha: string -> Digest)
    requires UniqueCnics(rows) && row in rows && row.passwordHash == PasswordHash(password, sha)
    ensures Login(rows, row.cnic, password, sha, false) == AuthResult(Some(Profile(row)), None)
  {
    OnlyMatch(rows, row);
  }

  /**
   * Round trip: after signing up with a CNIC not yet in the table, logging in with the
   * same CNIC and password returns the new user's profile.
   */
  lemma LoginAfterSignUp(rows: seq<UserRow>, data: SignUpData, sha: string -> Digest, id: string, createdAt: string)
    requires !CnicTaken(rows, data.cnic)
    ensures Login(rows + [NewUserRow(data, sha, id, createdAt)], data.cnic, data.password, sha, false)
         == AuthResult(Some(User(id, data.name, data.cnic, data.phone, data.email, createdAt)), None)
  {
    var row := NewUserRow(data, sha, id, createdAt);
    var sameCnic := (r: UserRow) => r.cnic == data.cnic;
    Seqs.FilterAppend(rows, [row], sameCnic);
    Seqs.FilterNone(rows, sameCnic);
    assert Seqs.Filter([row], sameCnic) == [row];
  }
}
