/**
 * The user model: the user table (standing in for the MySQL table), the
 * sign store (standing in for Redis), `FindUser`, the sign-link key scheme,
 * `getSignedURL` and `DecodeSignURL`.
 */
module Models {
  import opened Wrappers

  /** A row of the user table; `emailVerifiedAt` holds a clock reading when set. */
  datatype User = User(
    id: nat,
    name: string,
    email: string,
    password: string,
    avatar: string,
    token: string,
    emailVerifiedAt: Option<int>)

  /** The columns the handlers look users up by. */
  datatype Column = NameColumn | EmailColumn | IdColumn

  function DigitChar(d: nat): char
    requires d < 10
  {
    "0123456789"[d]
  }

  /** The decimal text of an id, as compared with the `userId` string of the request context. */
  function Decimal(n: nat): (s: string)
    ensures |s| > 0
    ensures forall i :: 0 <= i < |s| ==> '0' <= s[i] <= '9'
    ensures |s| > 1 ==> s[0] != '0'
  {
    if n < 10 then [DigitChar(n)] else Decimal(n / 10) + [DigitChar(n % 10)]
  }

  /** An id of two or more digits: its text is the text of `n / 10` followed by the last digit. */
  lemma {:induction false} DecimalStep(n: nat)
    requires n >= 10
    ensures Decimal(n) == Decimal(n / 10) + [DigitChar(n % 10)]
    ensures |Decimal(n)| > 1
  {
  }

  lemma {:induction false} DigitCharInjective(a: nat, b: nat)
    requires a < 10 && b < 10 && DigitChar(a) == DigitChar(b)
    ensures a == b
  {
  }

  lemma {:induction false} LastDigitSplit(a: string, b: string, x: char, y: char)
    requires a + [x] == b + [y]
    ensures a == b && x == y
  {
    assert a == (a + [x])[..|a|];
    assert b == (b + [y])[..|b|];
    assert x == (a + [x])[|a|];
    assert y == (b + [y])[|b|];
  }

  /** Distinct ids have distinct decimal texts. */
  lemma {:induction false} DecimalInjective(m: nat, n: nat)
    requires Decimal(m) == Decimal(n)
    ensures m == n
  {
    if m < 10 && n < 10 {
      assert Decimal(m)[0] == DigitChar(m) && Decimal(n)[0] == DigitChar(n);
      DigitCharInjective(m, n);
    } else if m >= 10 && n >= 10 {
      DecimalStep(m);
      DecimalStep(n);
      LastDigitSplit(Decimal(m / 10), Decimal(n / 10), DigitChar(m % 10), DigitChar(n % 10));
      DigitCharInjective(m % 10, n % 10);
      DecimalInjective(m / 10, n / 10);
    } else if m < 10 {
      DecimalStep(n);
      assert false;
    } else {
      DecimalStep(m);
      assert false;
    }
  }

  function ColumnValue(u: User, c: Column): string
  {
    match c
    case NameColumn => u.name
    case EmailColumn => u.email
    case IdColumn => Decimal(u.id)
  }

  /** No row before index `i` has `value` in column `c`. */
  ghost predicate NoMatchBefore(users: seq<User>, c: Column, value: string, i: int)
    requires 0 <= i <= |users|
  {
    forall j :: 0 <= j < i ==> ColumnValue(users[j], c) != value
  }

  /**
   * `FindUser(key, value)`: the first row whose column equals `value`, or
   * `None` when there is none. It only reads the table.
   */
  function FindUser(users: seq<User>, c: Column, value: string): (r: Option<User>)
    ensures r.None? <==> forall u :: u in users ==> ColumnValue(u, c) != value
    ensures r.Some? ==> exists i :: 0 <= i < |users| && users[i] == r.value
                                    && ColumnValue(users[i], c) == value && NoMatchBefore(users, c, value, i)
  {
    if |users| == 0 then None
    else if ColumnValue(users[0], c) == value then
      assert NoMatchBefore(users, c, value, 0);
      Some(users[0])
    else
      var r := FindUser(users[1..], c, value);
      assert forall u :: u in users[1..] ==> u in users;
      if r.Some? then
        assert exists i :: 1 <= i < |users| && users[i] == r.value
                           && ColumnValue(users[i], c) == value && NoMatchBefore(users, c, value, i) by {
          var k :| 0 <= k < |users[1..]| && users[1..][k] == r.value
                   && ColumnValue(users[1..][k], c) == value && NoMatchBefore(users[1..], c, value, k);
          assert users[k + 1] == users[1..][k];
          forall j | 0 <= j < k + 1 ensures ColumnValue(users[j], c) != value {
            if j > 0 { assert users[j] == users[1..][j - 1]; }
          }
        }
        r
      else
        r
  }

  /** Ids are positive, strictly increasing along the table and below the next auto-increment value. */
  ghost predicate IdsOrdered(users: seq<User>, nextId: nat)
  {
    && nextId > 0
    && (forall i :: 0 <= i < |users| ==> 0 < users[i].id < nextId)
    && (forall i, j :: 0 <= i < j < |users| ==> users[i].id < users[j].id)
  }

  /**
   * gorm's `First` orders by primary key; on an ordered table the first row
   * in sequence is the matching row with the least id.
   */
  lemma {:induction false} FindUserLeastId(users: seq<User>, nextId: nat, c: Column, value: string, v: User)
    requires IdsOrdered(users, nextId)
    requires v in users && ColumnValue(v, c) == value
    ensures FindUser(users, c, value).Some?
    ensures FindUser(users, c, value).value.id <= v.id
  {
    var r := FindUser(users, c, value);
    var i :| 0 <= i < |users| && users[i] == r.value && ColumnValue(users[i], c) == value && NoMatchBefore(users, c, value, i);
    var j :| 0 <= j < |users| && users[j] == v;
    if j < i {
      assert ColumnValue(users[j], c) != value;
    }
  }

  /**
   * `FindUser("id", text)` on an ordered table: the decimal text of a row's
   * id finds exactly that row, because ids are distinct and so are their texts.
   */
  lemma {:induction false} IdLookupFindsRow(users: seq<User>, nextId: nat, u: User)
    requires IdsOrdered(users, nextId)
    requires u in users
    ensures FindUser(users, IdColumn, Decimal(u.id)) == Some(u)
  {
    var r := FindUser(users, IdColumn, Decimal(u.id));
    var i :| 0 <= i < |users| && users[i] == r.value && Decimal(users[i].id) == Decimal(u.id);
    var j :| 0 <= j < |users| && users[j] == u;
    DecimalInjective(users[i].id, u.id);
  }

  /**
   * The table after gorm's `Save(u)` of a loaded row: the row with `u`'s id
   * replaced by `u`. Ids keep their places, so the table stays ordered; the
   * saved row is in the table when its id was, and no other row appears.
   */
  function Updated(users: seq<User>, u: User): (r: seq<User>)
    ensures |r| == |users|
    ensures forall n :: IdsOrdered(users, n) ==> IdsOrdered(r, n)
    ensures (exists i :: 0 <= i < |users| && users[i].id == u.id) ==> u in r
    ensures forall v :: v in r ==> v == u || v in users
  {
    var r := seq(|users|, i requires 0 <= i < |users| => if users[i].id == u.id then u else users[i]);
    assert forall i :: 0 <= i < |users| && users[i].id == u.id ==> r[i] == u && r[i] in r;
    r
  }

  /** The first matching index determines `FindUser`'s answer. */
  lemma {:induction false} FindUserAt(users: seq<User>, c: Column, value: string, i: nat)
    requires i < |users| && ColumnValue(users[i], c) == value && NoMatchBefore(users, c, value, i)
    ensures FindUser(users, c, value) == Some(users[i])
  {
    if i > 0 {
      assert ColumnValue(users[0], c) != value;
      forall j | 0 <= j < i - 1 ensures ColumnValue(users[1..][j], c) != value {
        assert users[1..][j] == users[j + 1];
      }
      FindUserAt(users[1..], c, value, i - 1);
    }
  }

  /**
   * Saving a changed copy of a found row that keeps its id, name and email:
   * the same lookup by name or email now returns the changed copy.
   */
  lemma {:induction false} UpdatedLookup(users: seq<User>, nextId: nat, c: Column, value: string, u: User, u': User)
    requires IdsOrdered(users, nextId)
    requires c != IdColumn
    requires FindUser(users, c, value) == Some(u)
    requires u'.id == u.id && u'.name == u.name && u'.email == u.email
    ensures FindUser(Updated(users, u'), c, value) == Some(u')
  {
    var r := Updated(users, u');
    var i :| 0 <= i < |users| && users[i] == u && ColumnValue(users[i], c) == value && NoMatchBefore(users, c, value, i);
    assert r[i] == u';
    assert ColumnValue(u', c) == ColumnValue(u, c);
    forall j | 0 <= j < i ensures ColumnValue(r[j], c) != value {
      assert users[j].id < users[i].id;
      assert r[j] == users[j];
    }
    FindUserAt(r, c, value, i);
  }

  /** Saving the row just inserted at the end replaces that last row only. */
  lemma {:induction false} UpdatedLast(users: seq<User>, u0: User, u: User)
    requires forall x :: x in users ==> x.id != u.id
    requires u0.id == u.id
    ensures Updated(users + [u0], u) == users + [u]
  {
    var r := Updated(users + [u0], u);
    forall j | 0 <= j < |users| ensures r[j] == (users + [u])[j] {
      assert (users + [u0])[j] == users[j];
      assert users[j] in users;
    }
  }

  /**
   * Inserting a row with a fresh name and email under the next id, then
   * saving a copy of it: the table ends with that copy, ids stay ordered and
   * names and emails stay unique.
   */
  lemma {:induction false} InsertThenSave(users: seq<User>, nextId: nat, u0: User, u: User)
    requires IdsOrdered(users, nextId) && u0.id == nextId && u.id == nextId
    requires FindUser(users, NameColumn, u.name).None? && FindUser(users, EmailColumn, u.email).None?
    ensures Updated(users + [u0], u) == users + [u]
    ensures IdsOrdered(users + [u], nextId + 1)
    ensures UniqueNamesAndEmails(users) ==> UniqueNamesAndEmails(users + [u])
  {
    forall x | x in users ensures x.id != u.id {
      var i :| 0 <= i < |users| && users[i] == x;
    }
    UpdatedLast(users, u0, u);
    if UniqueNamesAndEmails(users) {
      var r := users + [u];
      forall i, j | 0 <= i < j < |r| ensures r[i].name != r[j].name && r[i].email != r[j].email {
        if j == |users| {
          assert r[i] in users && r[j] == u;
        } else {
          assert r[i] == users[i] && r[j] == users[j];
        }
      }
    }
  }

  /** No two rows share a name, nor an email. */
  ghost predicate UniqueNamesAndEmails(users: seq<User>)
  {
    forall i, j :: 0 <= i < j < |users| ==> users[i].name != users[j].name && users[i].email != users[j].email
  }

  /** Saving a copy of a row that keeps its name and email keeps names and emails unique. */
  lemma {:induction false} UpdatedKeepsUnique(users: seq<User>, nextId: nat, u: User)
    requires IdsOrdered(users, nextId) && UniqueNamesAndEmails(users)
    requires exists i :: 0 <= i < |users| && users[i].id == u.id && users[i].name == u.name && users[i].email == u.email
    ensures UniqueNamesAndEmails(Updated(users, u))
  {
    var k :| 0 <= k < |users| && users[k].id == u.id && users[k].name == u.name && users[k].email == u.email;
    var r := Updated(users, u);
    forall i, j | 0 <= i < j < |r| ensures r[i].name != r[j].name && r[i].email != r[j].email {
      if users[i].id == u.id {
        assert i == k;
      }
      if users[j].id == u.id {
        assert j == k;
      }
    }
  }

  const KeySignPrefix := "user:sign:"
  const TypeReset := "reset"
  const TypeVerify := "verify"

  /** `fmt.Sprintf("user:sign:%s:%s", t, sign)`. */
  function SignKey(t: string, sign: string): string
  {
    KeySignPrefix + t + ":" + sign
  }

  /** Reset keys and verify keys never coincide: they differ right after the prefix. */
  lemma {:induction false} SignKeysDisjoint(a: string, b: string)
    ensures SignKey(TypeReset, a) != SignKey(TypeVerify, b)
  {
    assert SignKey(TypeReset, a)[10] == 'r';
    assert SignKey(TypeVerify, b)[10] == 'v';
  }

  /** Within one type, the key determines the sign. */
  lemma {:induction false} SignKeyInjective(t: string, a: string, b: string)
    requires SignKey(t, a) == SignKey(t, b)
    ensures a == b
  {
    var n := |KeySignPrefix + t + ":"|;
    assert SignKey(t, a)[n..] == a;
    assert SignKey(t, b)[n..] == b;
  }

  const LinkError := "链接错误"
  const SignMissing := "签名不存在或过期~链接错误"
  const SignFailed := "签名失败"

  /**
   * `DecodeSignURL(t, sign)`: reject an unknown type before reading the
   * store, then look the key up and find the user whose email it holds.
   * It only reads the store, so a link stays usable.
   */
  function DecodeSignURL(users: seq<User>, signs: map<string, string>, t: string, sign: string): (r: Result<User, string>)
    ensures t != TypeReset && t != TypeVerify ==> r == Failure(LinkError)
    ensures (t == TypeReset || t == TypeVerify) && r.Failure? ==> r.error == SignMissing
    ensures r.Success? <==> && (t == TypeReset || t == TypeVerify)
                            && SignKey(t, sign) in signs
                            && exists u :: u in users && u.email == signs[SignKey(t, sign)]
    ensures r.Success? ==> && r.value in users && r.value.email == signs[SignKey(t, sign)]
                           && FindUser(users, EmailColumn, signs[SignKey(t, sign)]) == Some(r.value)
  {
    if t != TypeReset && t != TypeVerify then Failure(LinkError)
    else
      var key := SignKey(t, sign);
      if key !in signs then Failure(SignMissing)
      else match FindUser(users, EmailColumn, signs[key])
        case None => Failure(SignMissing)
        case Some(u) => Success(u)
  }

  /**
   * Round trip: once `getSignedURL(t)` has stored its key for a registered
   * user, decoding that user's sign under the same type yields a user with
   * the same email.
   */
  lemma {:induction false} SignRoundTrip(users: seq<User>, signs: map<string, string>, md5: string -> string, t: string, u: User)
    requires t == TypeReset || t == TypeVerify
    requires u in users
    ensures var r := DecodeSignURL(users, signs[SignKey(t, md5(u.email)) := u.email], t, md5(u.email));
            r.Success? && r.value.email == u.email && r == Success(FindUser(users, EmailColumn, u.email).value)
  {
    var signs' := signs[SignKey(t, md5(u.email)) := u.email];
    assert signs'[SignKey(t, md5(u.email))] == u.email;
  }

  /** Writing a verify key does not change how any reset sign decodes. */
  lemma {:induction false} VerifyKeyInvisibleToReset(users: seq<User>, signs: map<string, string>, a: string, e: string, sign: string)
    ensures DecodeSignURL(users, signs[SignKey(TypeVerify, a) := e], TypeReset, sign) == DecodeSignURL(users, signs, TypeReset, sign)
  {
    SignKeysDisjoint(sign, a);
  }

  /** Writing a reset key does not change how any verify sign decodes. */
  lemma {:induction false} ResetKeyInvisibleToVerify(users: seq<User>, signs: map<string, string>, a: string, e: string, sign: string)
    ensures DecodeSignURL(users, signs[SignKey(TypeReset, a) := e], TypeVerify, sign) == DecodeSignURL(users, signs, TypeVerify, sign)
  {
    SignKeysDisjoint(a, sign);
  }

  /** Once a sign's key has expired, its link fails with "签名不存在或过期~链接错误". */
  lemma {:induction false} ExpiredSignFails(users: seq<User>, signs: map<string, string>, t: string, sign: string)
    requires t == TypeReset || t == TypeVerify
    ensures DecodeSignURL(users, signs - {SignKey(t, sign)}, t, sign) == Failure(SignMissing)
  {
  }

  /** A signed link: the path it points at and its query parameters (`url.Values`). */
  datatype Link = Link(path: string, query: map<string, string>)

  /** The database and the sign store, with the model methods that write them. */
  class Db {
    var users: seq<User>
    var signs: map<string, string>
    /** The next auto-increment id. */
    var nextId: nat
    /** `helper.Md5`, left uninterpreted. */
    const md5: string -> string
    /** The configured `app.url`. */
    const appUrl: string

    ghost predicate Valid()
      reads this
    {
      IdsOrdered(users, nextId)
    }

    constructor (md5: string -> string, appUrl: string)
      ensures Valid() && users == [] && signs == map[] && nextId == 1
      ensures this.md5 == md5 && this.appUrl == appUrl
    {
      users, signs, nextId := [], map[], 1;
      this.md5, this.appUrl := md5, appUrl;
    }

    /** `New`: gorm's `Create` gives the row the next id and inserts it. */
    method New(u: User) returns (id: nat)
      requires Valid()
      modifies this
      ensures Valid()
      ensures id == old(nextId) && users == old(users) + [u.(id := id)]
      ensures nextId == old(nextId) + 1 && signs == old(signs)
    {
      id := nextId;
      users := users + [u.(id := id)];
      nextId := nextId + 1;
    }

    /** `Save` of a loaded row: every field of the row with `u`'s id takes `u`'s value. */
    method Save(u: User)
      requires Valid()
      requires exists i :: 0 <= i < |users| && users[i].id == u.id
      modifies this
      ensures Valid()
      ensures users == Updated(old(users), u) && signs == old(signs) && nextId == old(nextId)
    {
      users := Updated(users, u);
    }

    /**
     * `getSignedURL(t)`: for `reset` or `verify`, build the link and store
     * the key for `Md5(u.Email)` with the email as value; for any other type
     * fail with "签名失败" and write nothing.
     */
    method GetSignedURL(u: User, t: string) returns (r: Result<Link, string>)
      requires Valid()
      modifies this
      ensures Valid() && users == old(users) && nextId == old(nextId)
      ensures t != TypeReset && t != TypeVerify ==> r == Failure(SignFailed) && signs == old(signs)
      ensures t == TypeReset ==>
        r == Success(Link(appUrl + "/password/reset", map["email" := u.email, "sign" := md5(u.email)]))
      ensures t == TypeVerify ==>
        r == Success(Link(appUrl + "/verification", map["sign" := md5(u.email)]))
      ensures t == TypeReset || t == TypeVerify ==> signs == old(signs)[SignKey(t, md5(u.email)) := u.email]
    {
      var host := appUrl;
      var sign := md5(u.email);
      var values: map<string, string> := map[];
      var key := SignKey(t, sign);
      if t == TypeReset {
        host := host + "/password/reset";
        values := values["email" := u.email];
      } else if t == TypeVerify {
        host := host + "/verification";
      } else {
        return Failure(SignFailed);
      }
      values := values["sign" := sign];
      signs := signs[key := u.email];
      r := Success(Link(host, values));
    }

    /** The 30-minute expiry: Redis may drop a key at any time. */
    method Expire(key: string)
      modifies this
      ensures signs == old(signs) - {key} && users == old(users) && nextId == old(nextId)
    {
      signs := signs - {key};
    }
  }
}
