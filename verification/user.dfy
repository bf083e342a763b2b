/** The rules of the User entity: its attribute declarations, the public
    projection that hides credentials and role flags, the password-hashing
    hooks, password verification, the sign-out-all watermark and the unique
    e-mail constraint. The hashing primitive, its comparison and the e-mail
    syntax rule are parameters. */
module UserModel {
  import opened JsValue
  import opened Schema
  import Projection

  /** Attributes `toJSON` never exposes. */
  const IGNORE_ATTRIBUTES: seq<string> := ["password", "updatedAt", "createdAt", "seller", "admin", "acceptTokenAfter"]

  const HIDDEN: set<string> := set a | a in IGNORE_ATTRIBUTES

  /** The attribute declarations, in declaration order. */
  const USER_COLUMNS: seq<Column> := [
    Column("email", false, [IsEmail], None),
    Column("password", false, [], None),
    Column("fullName", false, [], None),
    Column("seller", true, [], None),
    Column("admin", true, [], None),
    Column("acceptTokenAfter", true, [], None)
  ]

  /** The names of the declared user attributes. */
  const USER_NAMES: set<string> := set c | c in USER_COLUMNS :: c.name

  /** The validation errors of a user instance; they only ever name a
      declared user attribute. */
  function UserViolations(user: Record, isEmail: string -> bool): (errs: set<Violation>)
    ensures forall e :: e in errs ==> e.attr in USER_NAMES
  {
    ViolationsNameDeclared(USER_COLUMNS, user, isEmail, USER_NAMES);
    Violations(USER_COLUMNS, user, isEmail)
  }

  /** What a valid user is, written out attribute by attribute. */
  predicate ValidUser(user: Record, isEmail: string -> bool) {
    var email := Get(user, "email");
    && email.Str? && isEmail(email.s)
    && !IsNullish(Get(user, "password"))
    && !IsNullish(Get(user, "fullName"))
  }

  lemma AllColumnsOkIff(user: Record, isEmail: string -> bool)
    ensures (forall i :: 0 <= i < |USER_COLUMNS| ==> ColumnOk(USER_COLUMNS[i], user, isEmail))
        <==> ValidUser(user, isEmail)
  {
    var cs := USER_COLUMNS;
    ColumnOkIff(cs[0], user, isEmail);
    ColumnOkIff(cs[1], user, isEmail);
    ColumnOkIff(cs[2], user, isEmail);
    ColumnOkIff(cs[3], user, isEmail);
    ColumnOkIff(cs[4], user, isEmail);
    ColumnOkIff(cs[5], user, isEmail);
    if ValidUser(user, isEmail) {
      forall i | 0 <= i < |cs| ensures ColumnOk(cs[i], user, isEmail) {
        assert i in {0, 1, 2, 3, 4, 5};
      }
    }
  }

  /** The declared constraints accept exactly the valid users. */
  lemma UserValidIff(user: Record, isEmail: string -> bool)
    ensures UserViolations(user, isEmail) == {} <==> ValidUser(user, isEmail)
  {
    NoViolationsIffEachColumn(USER_COLUMNS, user, isEmail);
    AllColumnsOkIff(user, isEmail);
  }

  /** The public representation: the user without credentials, timestamps,
      role flags and the token watermark, and with every other attribute as
      it is. */
  function PublicView(user: Record): (r: Record)
    ensures "password" !in r && "updatedAt" !in r && "createdAt" !in r
    ensures "seller" !in r && "admin" !in r && "acceptTokenAfter" !in r
    ensures forall k :: k in user && k !in HIDDEN ==> k in r && r[k] == user[k]
    ensures r.Keys <= user.Keys
  {
    Projection.Omit(user, HIDDEN)
  }

  lemma PublicViewIdempotent(user: Record)
    ensures PublicView(PublicView(user)) == PublicView(user)
  {
  }

  /** Hashing the password attribute and storing the hash in its place; the
      primitive refuses a password that is not a string. */
  function HashPassword(user: Record, hash: string -> string): (r: Option<Record>)
    ensures r.Some? <==> Get(user, "password").Str?
    ensures r.Some? ==> Get(r.value, "password") == Str(hash(Get(user, "password").s))
    ensures r.Some? ==> r.value.Keys == user.Keys + {"password"}
    ensures r.Some? ==> forall k :: k in user && k != "password" ==> r.value[k] == user[k]
  {
    match Get(user, "password")
    case Str(plain) => Some(user["password" := Str(hash(plain))])
    case _ => None
  }

  /** What `beforeUpdate` does to the dictionary: re-hash only a password that
      differs from the persisted one. The stored password therefore changes
      only through `hash`. */
  function RehashIfChanged(user: Record, persisted: Record, hash: string -> string): (r: Option<Record>)
    ensures r.Some? <==> Get(user, "password") == Get(persisted, "password") || Get(user, "password").Str?
    ensures r.Some? && Get(user, "password") == Get(persisted, "password") ==> r.value == user
    ensures r.Some? && Get(user, "password") != Get(persisted, "password") ==>
      Get(r.value, "password") == Str(hash(Get(user, "password").s))
    ensures r.Some? ==> forall k :: k != "password" ==> Get(r.value, k) == Get(user, k)
  {
    if Get(user, "password") == Get(persisted, "password") then Some(user) else HashPassword(user, hash)
  }

  /** Password verification: compare the input with the stored hash. The
      comparison refuses an input or a stored hash that is missing or is not
      a string. */
  function VerifyPassword(user: Record, compare: (string, string) -> bool, input: Value): (r: Option<bool>)
    ensures r.Some? <==> input.Str? && Get(user, "password").Str?
    ensures r.Some? ==> r.value == compare(input.s, Get(user, "password").s)
  {
    match (input, Get(user, "password"))
    case (Str(plain), Str(stored)) => Some(compare(plain, stored))
    case _ => None
  }

  /** Given `compare(p, hash(p))` for every `p`, a user created with plain
      text `p` verifies `p`. */
  lemma VerifyAfterCreate(user: Record, p: string, hash: string -> string, compare: (string, string) -> bool)
    requires Get(user, "password") == Str(p)
    requires forall q :: compare(q, hash(q))
    ensures HashPassword(user, hash).Some?
    ensures VerifyPassword(HashPassword(user, hash).value, compare, Str(p)) == Some(true)
  {
  }

  /** Given the same axiom, a user whose password was changed to `p` verifies
      `p` after `beforeUpdate`. */
  lemma VerifyAfterUpdate(user: Record, persisted: Record, p: string, hash: string -> string,
                          compare: (string, string) -> bool)
    requires forall q :: compare(q, hash(q))
    requires Get(user, "password") == Str(p) != Get(persisted, "password")
    ensures RehashIfChanged(user, persisted, hash).Some?
    ensures VerifyPassword(RehashIfChanged(user, persisted, hash).value, compare, Str(p)) == Some(true)
  {
  }

  /** A user whose password was not changed keeps its stored hash, so it
      verifies exactly what it verified before `beforeUpdate`. */
  lemma VerifyUnchangedPassword(user: Record, persisted: Record, p: Value, hash: string -> string,
                                compare: (string, string) -> bool)
    requires Get(user, "password") == Get(persisted, "password")
    ensures RehashIfChanged(user, persisted, hash) == Some(user)
    ensures VerifyPassword(RehashIfChanged(user, persisted, hash).value, compare, p) == VerifyPassword(user, compare, p)
  {
  }

  /** A user instance: its current attribute values and the values last
      persisted, which tell which attributes have changed. */
  class User {
    var dataValues: Record
    var previousDataValues: Record

    /** A new, not yet persisted, instance. */
    constructor Build(attrs: Record)
      ensures dataValues == attrs && previousDataValues == map[]
    {
      dataValues := attrs;
      previousDataValues := map[];
    }

    /** An instance loaded from a stored row. */
    constructor Restore(row: Record)
      ensures dataValues == row && previousDataValues == row
    {
      dataValues := row;
      previousDataValues := row;
    }

    /** Whether an attribute differs from its persisted value. Only an
        attribute that is present can have changed, and an instance that
        matches its persisted values has no change. */
    predicate Changed(key: string)
      reads this
      ensures Changed(key) ==> key in dataValues || key in previousDataValues
      ensures dataValues == previousDataValues ==> !Changed(key)
    {
      Get(dataValues, key) != Get(previousDataValues, key)
    }

    /** Before creation: always replace the password with its hash; a
        password the primitive refuses fails the hook and changes nothing. */
    method BeforeCreate(hash: string -> string) returns (ok: bool)
      modifies this
      ensures ok <==> old(Get(dataValues, "password")).Str?
      ensures ok ==> Get(dataValues, "password") == Str(hash(old(Get(dataValues, "password")).s))
      ensures ok ==> dataValues == HashPassword(old(dataValues), hash).value
      ensures !ok ==> dataValues == old(dataValues)
      ensures previousDataValues == old(previousDataValues)
    {
      var hashed := HashPassword(dataValues, hash);
      ok := hashed.Some?;
      if ok {
        dataValues := hashed.value;
      }
    }

    /** Before an update: re-hash only when the password changed. */
    method BeforeUpdate(hash: string -> string) returns (ok: bool)
      modifies this
      ensures !old(Changed("password")) ==> ok && dataValues == old(dataValues)
      ensures old(Changed("password")) ==>
        && (ok <==> old(Get(dataValues, "password")).Str?)
        && (ok ==> Get(dataValues, "password") == Str(hash(old(Get(dataValues, "password")).s)))
        && (!ok ==> dataValues == old(dataValues))
      ensures ok ==> dataValues == RehashIfChanged(old(dataValues), old(previousDataValues), hash).value
      ensures previousDataValues == old(previousDataValues)
    {
      if !Changed("password") {
        return true;
      }
      var hashed := HashPassword(dataValues, hash);
      ok := hashed.Some?;
      if ok {
        dataValues := hashed.value;
      }
    }

    /** Signing out everywhere: persist the token watermark `acceptTokenAfter`
        as the given time; nothing else changes. */
    method SignOutAll(now: int)
      modifies this
      ensures dataValues == old(dataValues)["acceptTokenAfter" := Date(now)]
      ensures previousDataValues == old(previousDataValues)["acceptTokenAfter" := Date(now)]
      ensures forall k :: k != "acceptTokenAfter" ==> Get(dataValues, k) == old(Get(dataValues, k))
    {
      dataValues := dataValues["acceptTokenAfter" := Date(now)];
      previousDataValues := previousDataValues["acceptTokenAfter" := Date(now)];
    }

    /** The JSON form: delete each ignored attribute from a copy of the
        attribute dictionary. */
    method ToJSON() returns (values: Record)
      ensures forall k :: k in HIDDEN ==> k !in values
      ensures forall k :: k in dataValues && k !in HIDDEN ==> k in values && values[k] == dataValues[k]
      ensures values.Keys <= dataValues.Keys
      ensures values == PublicView(dataValues)
    {
      values := Projection.DeleteEach(dataValues, IGNORE_ATTRIBUTES);
      assert (set a | a in IGNORE_ATTRIBUTES) == HIDDEN;
    }
  }

  /** A user signs up with plain text `p`, is stored, is loaded again and
      signs out everywhere (an update that does not touch the password):
      `p` still verifies, given `compare(q, hash(q))` for every `q`. */
  method SignUpThenSignOutAll(attrs: Record, p: string, now: int, hash: string -> string,
                              compare: (string, string) -> bool) returns (verified: Option<bool>)
    requires Get(attrs, "password") == Str(p)
    requires forall q :: compare(q, hash(q))
    ensures verified == Some(true)
  {
    var user := new User.Build(attrs);
    var created := user.BeforeCreate(hash);
    var stored := new User.Restore(user.dataValues);
    stored.SignOutAll(now);
    var updated := stored.BeforeUpdate(hash);
    verified := VerifyPassword(stored.dataValues, compare, Str(p));
    assert compare(p, hash(p));
  }

  datatype CreateResult =
    | Created(row: Record)
    | Invalid(errors: set<Violation>)
    | HashRejected
    | DuplicateEmail

  /** The stored users, with the declared constraints every row satisfies. */
  class UserTable {
    const isEmail: string -> bool
    var rows: seq<Record>

    ghost predicate Valid()
      reads this
    {
      && (forall i :: 0 <= i < |rows| ==> ValidUser(rows[i], isEmail))
      && (forall i, j :: 0 <= i < j < |rows| ==> Get(rows[i], "email") != Get(rows[j], "email"))
    }

    constructor (isEmail: string -> bool)
      ensures Valid() && rows == [] && this.isEmail == isEmail
    {
      this.isEmail := isEmail;
      rows := [];
    }

    /** Whether a stored user already has this e-mail. */
    predicate EmailTaken(email: Value)
      reads this
    {
      exists i :: 0 <= i < |rows| && Get(rows[i], "email") == email
    }

    /** Creating a user: validate, run the before-creation hook, then insert,
        refusing an e-mail that is already stored. */
    method Create(attrs: Record, hash: string -> string) returns (r: CreateResult)
      requires Valid()
      modifies this
      ensures Valid()
      ensures r.Invalid? <==> UserViolations(attrs, isEmail) != {}
      ensures r.Invalid? ==> r.errors == UserViolations(attrs, isEmail)
      ensures r.HashRejected? <==> UserViolations(attrs, isEmail) == {} && HashPassword(attrs, hash).None?
      ensures r.DuplicateEmail? <==>
        UserViolations(attrs, isEmail) == {} && HashPassword(attrs, hash).Some? && old(EmailTaken(Get(attrs, "email")))
      ensures r.Created? ==> r.row == HashPassword(attrs, hash).value && rows == old(rows) + [r.row]
      ensures !r.Created? ==> rows == old(rows)
    {
      var errs := UserViolations(attrs, isEmail);
      if errs != {} {
        return Invalid(errs);
      }
      var hashed := HashPassword(attrs, hash);
      if hashed.None? {
        return HashRejected;
      }
      if exists i :: 0 <= i < |rows| && Get(rows[i], "email") == Get(attrs, "email") {
        return DuplicateEmail;
      }
      UserValidIff(attrs, isEmail);
      assert ValidUser(hashed.value, isEmail);
      rows := rows + [hashed.value];
      r := Created(hashed.value);
    }
  }
}
