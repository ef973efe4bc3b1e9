/**
 * The `users` table and the `User` model class over it. The table is a map
 * from id to row with an auto-increment counter; SQL text, timestamps
 * (`created_at`, `updated_at`) and the driver's result objects are not
 * modelled. `outage` stands for the database being unreachable: while it
 * is set, every statement rejects with that fault and changes nothing.
 */
module Users {
  import opened Common

  /**
   * A bcrypt digest seen abstractly: the password it was computed from and
   * the salt drawn for it. Nothing in the model reads `source` except
   * `VerifyPassword`, which is bcrypt's comparison.
   */
  datatype Digest = Digest(source: string, salt: nat)

  /** bcrypt keys its hash with at most this many bytes of the password and ignores the rest. */
  const KeyLength: nat := 72

  /** The part of a password bcrypt uses (one byte per character). */
  function Key(password: string): string {
    if |password| <= KeyLength then password else password[..KeyLength]
  }

  /** `bcrypt.hash(password, 10)` with the random salt as a parameter. */
  function Hash(password: string, salt: nat): (d: Digest)
    ensures forall other :: VerifyPassword(other, d) <==> Key(other) == Key(password)
  {
    Digest(password, salt)
  }

  /** `User.verifyPassword`, i.e. `bcrypt.compare(password, digest)`. */
  predicate VerifyPassword(password: string, d: Digest) {
    Key(password) == Key(d.source)
  }

  /** Up to 72 characters, a digest accepts its own password and no other. */
  lemma ShortPasswordsExact(password: string, other: string, salt: nat)
    requires |password| <= KeyLength && |other| <= KeyLength
    ensures VerifyPassword(other, Hash(password, salt)) <==> other == password
  {
  }

  /**
   * Beyond 72 characters the rest is ignored: two passwords that share
   * their first 72 characters verify against each other's digest.
   */
  lemma LongPasswordsShareDigest(prefix: string, tail1: string, tail2: string, salt: nat)
    requires |prefix| == KeyLength
    ensures VerifyPassword(prefix + tail2, Hash(prefix + tail1, salt))
  {
    assert (prefix + tail1)[..KeyLength] == prefix;
    assert (prefix + tail2)[..KeyLength] == prefix;
  }

  /** Two hashes of the same password under different salts differ. */
  lemma HashIsSalted(password: string, salt1: nat, salt2: nat)
    requires salt1 != salt2
    ensures Hash(password, salt1) != Hash(password, salt2)
    ensures VerifyPassword(password, Hash(password, salt1)) && VerifyPassword(password, Hash(password, salt2))
  {
  }

  /** A stored row: the `password` column holds a digest, never the plaintext. */
  datatype Row = Row(name: string, email: string, digest: Digest, role: Role)

  /** What `findById` and `findAll` select: every column except `password`. */
  datatype Profile = Profile(id: int, name: string, email: string, role: Role)

  /** What `findByEmail` selects (`SELECT *`): the password digest included. */
  datatype Account = Account(id: int, name: string, email: string, digest: Digest, role: Role)

  function ProfileOf(id: int, row: Row): Profile {
    Profile(id, row.name, row.email, row.role)
  }

  function AccountOf(id: int, row: Row): Account {
    Account(id, row.name, row.email, row.digest, row.role)
  }

  /** The `Profile` of an `Account`: the same row with the password dropped. */
  function AccountProfile(a: Account): Profile {
    Profile(a.id, a.name, a.email, a.role)
  }

  /** No two rows share an email address. */
  ghost predicate EmailsUnique(rows: map<int, Row>) {
    forall i, j :: i in rows && j in rows && rows[i].email == rows[j].email ==> i == j
  }

  predicate EmailTaken(rows: map<int, Row>, email: string) {
    exists id :: id in rows && rows[id].email == email
  }

  /** The profiles of the rows with id below `n`, by ascending id (`ORDER BY id`). */
  function Listing(rows: map<int, Row>, n: nat): seq<Profile>
    decreases n
  {
    if n == 0 then []
    else Listing(rows, n - 1) + (if n - 1 in rows then [ProfileOf(n - 1, rows[n - 1])] else [])
  }

  /** A listing holds exactly the profiles of the rows below `n`. */
  lemma {:induction false} ListingMembers(rows: map<int, Row>, n: nat, p: Profile)
    ensures p in Listing(rows, n) <==> 0 <= p.id < n && p.id in rows && p == ProfileOf(p.id, rows[p.id])
  {
    if n > 0 {
      ListingMembers(rows, n - 1, p);
    }
  }

  /** A listing is strictly ascending by id, so it has no duplicates. */
  lemma {:induction false} ListingAscending(rows: map<int, Row>, n: nat)
    ensures forall i, j :: 0 <= i < j < |Listing(rows, n)| ==> Listing(rows, n)[i].id < Listing(rows, n)[j].id
  {
    if n > 0 {
      ListingAscending(rows, n - 1);
      var prefix := Listing(rows, n - 1);
      forall i | 0 <= i < |prefix|
        ensures prefix[i].id < n - 1
      {
        ListingMembers(rows, n - 1, prefix[i]);
      }
    }
  }

  class UserTable {
    var rows: map<int, Row>
    var nextId: int
    var outage: Option<Fault>

    /** Ids are handed out by auto-increment from 1 and never reused. */
    ghost predicate Valid()
      reads this
    {
      1 <= nextId && forall id :: id in rows ==> 1 <= id < nextId
    }

    constructor (outage: Option<Fault>)
      ensures Valid()
      ensures rows == map[] && nextId == 1 && this.outage == outage
    {
      rows := map[];
      nextId := 1;
      this.outage := outage;
    }

    /** `User.findById`: the row without its password, or nothing. */
    method FindById(id: int) returns (r: Result<Option<Profile>, Fault>)
      ensures outage.Some? ==> r == Err(outage.value)
      ensures outage.None? ==> r.Ok?
      ensures r.Ok? ==> (r.value.Some? <==> id in rows)
      ensures r.Ok? && r.value.Some? ==> id in rows && r.value.value == ProfileOf(id, rows[id])
    {
      if outage.Some? {
        return Err(outage.value);
      }
      if id in rows {
        r := Ok(Some(ProfileOf(id, rows[id])));
      } else {
        r := Ok(None);
      }
    }

    /** `User.findByEmail`: a whole row, password digest included, with that email. */
    method FindByEmail(email: string) returns (r: Result<Option<Account>, Fault>)
      ensures outage.Some? ==> r == Err(outage.value)
      ensures outage.None? ==> r.Ok?
      ensures r.Ok? ==> (r.value.Some? <==> EmailTaken(rows, email))
      ensures r.Ok? && r.value.Some? ==>
        r.value.value.id in rows && r.value.value == AccountOf(r.value.value.id, rows[r.value.value.id])
        && r.value.value.email == email
    {
      if outage.Some? {
        return Err(outage.value);
      }
      if exists id :: id in rows && rows[id].email == email {
        var id :| id in rows && rows[id].email == email;
        r := Ok(Some(AccountOf(id, rows[id])));
      } else {
        r := Ok(None);
      }
    }

    /** `User.findAll`: every row without its password, by ascending id. */
    method FindAll() returns (r: Result<seq<Profile>, Fault>)
      requires Valid()
      ensures outage.Some? ==> r == Err(outage.value)
      ensures outage.None? ==> r.Ok?
      ensures r.Ok? ==> forall p :: p in r.value <==> p.id in rows && p == ProfileOf(p.id, rows[p.id])
      ensures r.Ok? ==> forall i, j :: 0 <= i < j < |r.value| ==> r.value[i].id < r.value[j].id
    {
      if outage.Some? {
        return Err(outage.value);
      }
      var listing := Listing(rows, nextId);
      forall p
        ensures p in listing <==> p.id in rows && p == ProfileOf(p.id, rows[p.id])
      {
        ListingMembers(rows, nextId, p);
      }
      ListingAscending(rows, nextId);
      r := Ok(listing);
    }

    /**
     * `User.create`: inserts a row with the next id, the password hashed and
     * the role defaulting to `user`, and returns that row as `findById`
     * reads it back.
     */
    method Create(name: string, email: string, password: string, role: Option<Role>, salt: nat)
      returns (r: Result<Profile, Fault>)
      requires Valid()
      modifies this
      ensures Valid() && outage == old(outage)
      ensures old(outage).Some? ==> r == Err(old(outage).value) && rows == old(rows) && nextId == old(nextId)
      ensures old(outage).None? ==>
        && nextId == old(nextId) + 1
        && old(nextId) !in old(rows)
        && rows == old(rows)[old(nextId) := Row(name, email, Hash(password, salt), role.GetOr(User))]
        && r == Ok(Profile(old(nextId), name, email, role.GetOr(User)))
    {
      if outage.Some? {
        return Err(outage.value);
      }
      var id := nextId;
      var row := Row(name, email, Hash(password, salt), role.GetOr(User));
      rows := rows[id := row];
      nextId := nextId + 1;
      r := Ok(ProfileOf(id, row));
    }

    /**
     * `User.update`: overwrites name, email and role, and the password only
     * when a non-empty one is given; then reads the row back. The statement
     * binds all three of name, email and role, and the driver refuses an
     * `undefined` bind value, so an absent one of them fails the call.
     */
    method Update(id: int, name: Option<string>, email: Option<string>, password: Option<string>,
                  role: Option<Role>, salt: nat)
      returns (r: Result<Option<Profile>, Fault>)
      requires Valid()
      modifies this
      ensures Valid() && outage == old(outage) && nextId == old(nextId)
      ensures r.Err? ==> rows == old(rows)
      ensures old(outage).Some? ==> r == Err(old(outage).value)
      ensures old(outage).None? && (name.None? || email.None? || role.None?) ==> r == Err(UndefinedBind)
      ensures old(outage).None? && name.Some? && email.Some? && role.Some? ==>
        if id in old(rows) then
          var digest := if Truthy(password) then Hash(password.value, salt) else old(rows)[id].digest;
          && rows == old(rows)[id := Row(name.value, email.value, digest, role.value)]
          && r == Ok(Some(Profile(id, name.value, email.value, role.value)))
        else
          rows == old(rows) && r == Ok(None)
    {
      if outage.Some? {
        return Err(outage.value);
      }
      if name.None? || email.None? || role.None? {
        return Err(UndefinedBind);
      }
      if id in rows {
        var digest := if Truthy(password) then Hash(password.value, salt) else rows[id].digest;
        rows := rows[id := Row(name.value, email.value, digest, role.value)];
      }
      r := FindById(id);
    }

    /** `User.delete`: whether a row was removed. */
    method Delete(id: int) returns (r: Result<bool, Fault>)
      requires Valid()
      modifies this
      ensures Valid() && outage == old(outage) && nextId == old(nextId)
      ensures old(outage).Some? ==> r == Err(old(outage).value) && rows == old(rows)
      ensures old(outage).None? ==> r == Ok(id in old(rows)) && rows == old(rows) - {id}
    {
      if outage.Some? {
        return Err(outage.value);
      }
      r := Ok(id in rows);
      rows := rows - {id};
    }
  }

  /** JavaScript truthiness of an optional string: present and non-empty. */
  predicate Truthy(s: Option<string>) {
    s.Some? && s.value != ""
  }

  /** The error the driver raises for an `undefined` bind value; it has no `code`. */
  const UndefinedBind: Fault :=
    Fault(None, "Bind parameters must not contain undefined. To pass SQL NULL specify JS null")

  /** Deleting the same id twice reports a removal, then none. */
  method DeleteTwice(table: UserTable, id: int) returns (first: Result<bool, Fault>, second: Result<bool, Fault>)
    requires table.Valid() && table.outage.None? && id in table.rows
    modifies table
    ensures first == Ok(true) && second == Ok(false)
    ensures table.rows == old(table.rows) - {id}
  {
    first := table.Delete(id);
    second := table.Delete(id);
  }

  /** An update without a password keeps the stored digest, so the old password still logs in. */
  method UpdateKeepsPassword(table: UserTable, id: int, name: string, email: string, role: Role, password: string, salt: nat)
    returns (r: Result<Option<Profile>, Fault>)
    requires table.Valid() && table.outage.None? && id in table.rows
    requires VerifyPassword(password, table.rows[id].digest)
    modifies table
    ensures r == Ok(Some(Profile(id, name, email, role)))
    ensures id in table.rows && VerifyPassword(password, table.rows[id].digest)
  {
    r := table.Update(id, Some(name), Some(email), None, Some(role), salt);
  }
}
