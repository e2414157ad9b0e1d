/** The user record, the e-mail domain rule and the account manager
    (core/users/models.py). The user table is a `UserStore`: a map from
    e-mail address, the login field, to the user row. */
module UserModels {
  import opened Common

  const RequiredEmailDomain: string := "@diu.edu.bd"

  /** What `set_password` leaves in the row: `None` makes the password
      unusable. Hashing is not modelled; the secret stands for its hash. */
  datatype Password = Unusable | Hashed(secret: string)

  datatype User = User(
    email: string,
    password: Password,
    isEmailVerified: bool,
    otp: Option<string>,
    isActive: bool,
    isStaff: bool,
    isSuperuser: bool,
    examAttempted: bool,
    examMarks: int,
    examAnswers: Json)

  /** `validate_diu_email`: true when it returns, false when it raises. */
  function ValidateDiuEmail(email: Option<string>): (ok: bool)
    ensures ok <==> email.Some? && EndsWith(email.value, RequiredEmailDomain)
    ensures ok ==> Present(email) && |email.value| >= |RequiredEmailDomain|
  {
    !(!Present(email) || !EndsWith(email.value, RequiredEmailDomain))
  }

  /** An empty or missing address is always rejected. */
  lemma EmptyEmailRejected()
    ensures !ValidateDiuEmail(None) && !ValidateDiuEmail(Some(""))
  {
  }

  /** An address made of any local part followed by the domain is accepted. */
  lemma DomainSuffixAccepted(local: string)
    ensures ValidateDiuEmail(Some(local + RequiredEmailDomain))
  {
    var e := local + RequiredEmailDomain;
    assert e[|e| - |RequiredEmailDomain|..] == RequiredEmailDomain;
  }

  // ---------------------------------------------------------------------
  // CustomUserManager

  datatype ManagerError =
    | EmailRequired | InvalidEmailDomain | UnexpectedKeyword | InvalidFieldValue | EmailTaken
    | NotStaff | NotSuperuser

  /** The keyword arguments `self.model(...)` stores in the record. */
  const StoredKeywords: set<string> :=
    {"is_email_verified", "otp", "is_active", "is_staff", "is_superuser", "exam_attempted", "exam_marks", "exam_answers"}

  /** The other model fields a keyword may name; their values are not part
      of the record. */
  const OtherKeywords: set<string> := {"id", "full_name", "whatsapp_number", "student_id", "date_joined", "last_login"}

  /** `extra_fields.setdefault(key, v)` */
  function SetDefault(fields: map<string, Json>, key: string, v: Json): (r: map<string, Json>)
    ensures r.Keys == fields.Keys + {key}
    ensures r[key] == (if key in fields then fields[key] else v)
    ensures forall k :: k in fields ==> r[k] == fields[k]
  {
    if key in fields then fields else fields[key := v]
  }

  /** What a `BooleanField` stores for a keyword value, or `None` when the
      save refuses it: `True`, `False` and the values Python counts equal
      to them, and the texts `t`, `True`, `1`, `f`, `False`, `0`. */
  function BoolValue(v: Json): (r: Option<bool>)
    ensures r == Some(true) <==> v in {JBool(true), JInt(1), JFloat(1.0), JStr("t"), JStr("True"), JStr("1")}
    ensures r == Some(false) <==> v in {JBool(false), JInt(0), JFloat(0.0), JStr("f"), JStr("False"), JStr("0")}
  {
    match v
    case JBool(b) => Some(b)
    case JInt(i) => if i == 1 then Some(true) else if i == 0 then Some(false) else None
    case JFloat(f) => if f == 1.0 then Some(true) else if f == 0.0 then Some(false) else None
    case JStr(t) =>
      if t == "t" || t == "True" || t == "1" then Some(true)
      else if t == "f" || t == "False" || t == "0" then Some(false)
      else None
    case _ => None
  }

  /** What the `IntegerField` `exam_marks` stores for a keyword value:
      `int(value)` on a number or a boolean. */
  function IntValue(v: Json): (r: Option<int>)
    ensures v.JInt? ==> r == Some(v.i)
    ensures v.JBool? ==> r == Some(if v.b then 1 else 0)
    ensures r.Some? ==> v.JInt? || v.JBool? || v.JFloat?
  {
    match v
    case JInt(i) => Some(i)
    case JBool(b) => Some(if b then 1 else 0)
    case JFloat(f) => Some(if f >= 0.0 then f.Floor else -((-f).Floor))
    case _ => None
  }

  /** What the nullable `CharField` `otp` stores: a text, or null. */
  function OtpValue(v: Json): (r: Option<Option<string>>)
    ensures r.Some? <==> v.JNull? || v.JStr?
    ensures v.JStr? ==> r == Some(Some(v.s))
    ensures v.JNull? ==> r == Some(None)
  {
    match v
    case JNull => Some(None)
    case JStr(t) => Some(Some(t))
    case _ => None
  }

  /** Every stored keyword holds a value its field accepts; `exam_answers`
      is a non-null text column. */
  predicate ValuesConvert(fields: map<string, Json>) {
    && (forall k :: k in fields && k in {"is_email_verified", "is_active", "is_staff", "is_superuser", "exam_attempted"} ==>
          BoolValue(fields[k]).Some?)
    && ("exam_marks" in fields ==> IntValue(fields["exam_marks"]).Some?)
    && ("otp" in fields ==> OtpValue(fields["otp"]).Some?)
    && ("exam_answers" in fields ==> !fields["exam_answers"].JNull?)
  }

  /** A boolean field of the new record: the converted keyword value, or
      the field default. */
  function BoolField(fields: map<string, Json>, key: string, default: bool): (r: bool)
    requires key in fields ==> BoolValue(fields[key]).Some?
    ensures key !in fields ==> r == default
    ensures key in fields && fields[key].JBool? ==> r == fields[key].b
    ensures key in fields ==> Some(r) == BoolValue(fields[key])
  {
    if key in fields then BoolValue(fields[key]).value else default
  }

  /** `self.model(email=email, **extra_fields)` followed by `set_password`:
      each stored keyword overrides its field's default. */
  function NewUser(email: string, password: Option<string>, fields: map<string, Json>): User
    requires ValuesConvert(fields)
  {
    User(email, if password.Some? then Hashed(password.value) else Unusable,
         BoolField(fields, "is_email_verified", false),
         if "otp" in fields then OtpValue(fields["otp"]).value else None,
         BoolField(fields, "is_active", true),
         BoolField(fields, "is_staff", false),
         BoolField(fields, "is_superuser", false),
         BoolField(fields, "exam_attempted", false),
         if "exam_marks" in fields then IntValue(fields["exam_marks"]).value else 0,
         if "exam_answers" in fields then fields["exam_answers"] else JList([]))
  }

  /** `_create_user` on a table: presence check, then the domain check on
      the normalised address, then building the record (a keyword naming
      no model field raises), then the insert (which refuses a value its
      column cannot hold, and a taken address, the column being unique).
      `normalize` is Django's `normalize_email`, whose definition is not
      part of this model. */
  function CreateUserOutcome(users: map<string, User>, email: Option<string>, password: Option<string>,
                             fields: map<string, Json>, normalize: string -> string)
    : (out: (Result<User, ManagerError>, map<string, User>))
    ensures !Present(email) ==> out.0 == Err(EmailRequired)
    ensures out.0 == Err(InvalidEmailDomain) <==> Present(email) && !ValidateDiuEmail(Some(normalize(email.value)))
    ensures out.0 == Err(UnexpectedKeyword) <==>
      Present(email) && ValidateDiuEmail(Some(normalize(email.value))) && !(fields.Keys <= StoredKeywords + OtherKeywords)
    ensures out.0 == Err(InvalidFieldValue) <==>
      Present(email) && ValidateDiuEmail(Some(normalize(email.value)))
      && fields.Keys <= StoredKeywords + OtherKeywords && !ValuesConvert(fields)
    ensures out.0 == Err(EmailTaken) <==>
      Present(email) && ValidateDiuEmail(Some(normalize(email.value)))
      && fields.Keys <= StoredKeywords + OtherKeywords && ValuesConvert(fields)
      && normalize(email.value) in users
    ensures out.0.Err? ==> out.1 == users
    ensures out.0.Ok? ==>
      && Present(email) && out.0.value.email == normalize(email.value)
      && EndsWith(out.0.value.email, RequiredEmailDomain)
      && out.0.value.email !in users
      && fields.Keys <= StoredKeywords + OtherKeywords && ValuesConvert(fields)
      && out.1 == users[out.0.value.email := out.0.value]
    ensures out.0.Ok? ==>
      && out.0.value.isEmailVerified == BoolField(fields, "is_email_verified", false)
      && out.0.value.isActive == BoolField(fields, "is_active", true)
      && out.0.value.isStaff == BoolField(fields, "is_staff", false)
      && out.0.value.isSuperuser == BoolField(fields, "is_superuser", false)
      && out.0.value.examAttempted == BoolField(fields, "exam_attempted", false)
    ensures out.0.Ok? ==>
      && ("otp" !in fields ==> out.0.value.otp == None)
      && ("exam_marks" !in fields ==> out.0.value.examMarks == 0)
      && ("exam_answers" !in fields ==> out.0.value.examAnswers == JList([]))
    ensures out.0.Ok? ==>
      && ("otp" in fields ==> OtpValue(fields["otp"]) == Some(out.0.value.otp))
      && ("exam_marks" in fields ==> IntValue(fields["exam_marks"]) == Some(out.0.value.examMarks))
      && ("exam_answers" in fields ==> out.0.value.examAnswers == fields["exam_answers"])
    ensures out.0.Ok? ==>
      && (password.Some? ==> out.0.value.password == Hashed(password.value))
      && (password.None? ==> out.0.value.password == Unusable)
    ensures out.0.Ok? <==>
      Present(email) && ValidateDiuEmail(Some(normalize(email.value)))
      && fields.Keys <= StoredKeywords + OtherKeywords && ValuesConvert(fields)
      && normalize(email.value) !in users
  {
    if !Present(email) then (Err(EmailRequired), users)
    else
      var normalized := normalize(email.value);
      if !ValidateDiuEmail(Some(normalized)) then (Err(InvalidEmailDomain), users)
      else if !(fields.Keys <= StoredKeywords + OtherKeywords) then (Err(UnexpectedKeyword), users)
      else if !ValuesConvert(fields) then (Err(InvalidFieldValue), users)
      else if normalized in users then (Err(EmailTaken), users)
      else
        var user := NewUser(normalized, password, fields);
        (Ok(user), users[normalized := user])
  }

  /** The keywords `create_user` passes on. */
  function UserFlags(fields: map<string, Json>): (r: map<string, Json>)
    ensures r.Keys == fields.Keys + {"is_staff", "is_superuser"}
    ensures r["is_staff"] == (if "is_staff" in fields then fields["is_staff"] else JBool(false))
    ensures r["is_superuser"] == (if "is_superuser" in fields then fields["is_superuser"] else JBool(false))
    ensures forall k :: k in fields ==> r[k] == fields[k]
  {
    SetDefault(SetDefault(fields, "is_staff", JBool(false)), "is_superuser", JBool(false))
  }

  /** The keywords `create_superuser` passes on, or the error it raises:
      each flag, defaulted to `True`, must then be `True` itself. */
  function SuperuserFlags(fields: map<string, Json>): (r: Result<map<string, Json>, ManagerError>)
    ensures r == Err(NotStaff) <==> "is_staff" in fields && fields["is_staff"] != JBool(true)
    ensures r == Err(NotSuperuser) <==>
      ("is_staff" !in fields || fields["is_staff"] == JBool(true))
      && "is_superuser" in fields && fields["is_superuser"] != JBool(true)
    ensures r.Ok? ==>
      && r.value == fields["is_staff" := JBool(true)]["is_superuser" := JBool(true)]
    ensures r.Ok? || r == Err(NotStaff) || r == Err(NotSuperuser)
  {
    var f := SetDefault(SetDefault(fields, "is_staff", JBool(true)), "is_superuser", JBool(true));
    if f["is_staff"] != JBool(true) then Err(NotStaff)
    else if f["is_superuser"] != JBool(true) then Err(NotSuperuser)
    else Ok(f)
  }

  /** `create_user` builds a non-staff, non-superuser account unless the
      caller passes the flags explicitly, and one given as a boolean is
      stored as given. */
  lemma CreateUserFlags(users: map<string, User>, email: Option<string>, password: Option<string>,
                        fields: map<string, Json>, normalize: string -> string)
    requires CreateUserOutcome(users, email, password, UserFlags(fields), normalize).0.Ok?
    ensures var u := CreateUserOutcome(users, email, password, UserFlags(fields), normalize).0.value;
      && ("is_staff" !in fields ==> !u.isStaff)
      && ("is_superuser" !in fields ==> !u.isSuperuser)
      && ("is_staff" in fields && fields["is_staff"].JBool? ==> u.isStaff == fields["is_staff"].b)
      && ("is_superuser" in fields && fields["is_superuser"].JBool? ==> u.isSuperuser == fields["is_superuser"].b)
  {
  }

  /** An account built by `create_superuser` has both flags set. */
  lemma SuperuserIsStaffAndSuperuser(users: map<string, User>, email: Option<string>, password: Option<string>,
                                     fields: map<string, Json>, normalize: string -> string)
    requires SuperuserFlags(fields).Ok?
    requires CreateUserOutcome(users, email, password, SuperuserFlags(fields).value, normalize).0.Ok?
    ensures var u := CreateUserOutcome(users, email, password, SuperuserFlags(fields).value, normalize).0.value;
      u.isStaff && u.isSuperuser
  {
  }

  /** A flag given as a value merely equal to `True`, such as `1`, is
      refused by `create_superuser`, although `create_user` would store it
      as true. */
  lemma SuperuserNeedsTrueItself()
    ensures SuperuserFlags(map["is_staff" := JInt(1)]) == Err(NotStaff)
    ensures SuperuserFlags(map["is_superuser" := JStr("True")]) == Err(NotSuperuser)
    ensures BoolValue(JInt(1)) == Some(true)
  {
  }

  class UserStore {
    /** The user table, keyed by the unique e-mail address. */
    var users: map<string, User>

    ghost predicate Valid()
      reads this
    {
      forall e :: e in users ==> users[e].email == e
    }

    constructor ()
      ensures Valid() && users == map[]
    {
      users := map[];
    }

    /** `CustomUserManager._create_user` */
    method CreateUserRecord(email: Option<string>, password: Option<string>, fields: map<string, Json>,
                            normalize: string -> string) returns (r: Result<User, ManagerError>)
      requires Valid()
      modifies this
      ensures Valid()
      ensures (r, users) == CreateUserOutcome(old(users), email, password, fields, normalize)
    {
      if !Present(email) {
        return Err(EmailRequired);
      }
      var normalized := normalize(email.value);
      if !ValidateDiuEmail(Some(normalized)) {
        return Err(InvalidEmailDomain);
      }
      if !(fields.Keys <= StoredKeywords + OtherKeywords) {
        return Err(UnexpectedKeyword);
      }
      if !ValuesConvert(fields) {
        return Err(InvalidFieldValue);
      }
      if normalized in users {
        return Err(EmailTaken);
      }
      var user := NewUser(normalized, password, fields);
      users := users[normalized := user];
      r := Ok(user);
    }

    /** `CustomUserManager.create_user` */
    method CreateUser(email: Option<string>, password: Option<string>, fields: map<string, Json>,
                      normalize: string -> string) returns (r: Result<User, ManagerError>)
      requires Valid()
      modifies this
      ensures Valid()
      ensures (r, users) == CreateUserOutcome(old(users), email, password, UserFlags(fields), normalize)
      ensures r.Ok? && "is_staff" !in fields ==> !r.value.isStaff
      ensures r.Ok? && "is_superuser" !in fields ==> !r.value.isSuperuser
    {
      r := CreateUserRecord(email, password, UserFlags(fields), normalize);
    }

    /** `CustomUserManager.create_superuser`: the flag checks come first. */
    method CreateSuperuser(email: Option<string>, password: Option<string>, fields: map<string, Json>,
                           normalize: string -> string) returns (r: Result<User, ManagerError>)
      requires Valid()
      modifies this
      ensures Valid()
      ensures SuperuserFlags(fields).Err? ==> r == Err(SuperuserFlags(fields).error) && users == old(users)
      ensures SuperuserFlags(fields).Ok? ==>
        (r, users) == CreateUserOutcome(old(users), email, password, SuperuserFlags(fields).value, normalize)
      ensures r.Ok? ==> r.value.isStaff && r.value.isSuperuser
    {
      match SuperuserFlags(fields)
      case Err(e) =>
        r := Err(e);
      case Ok(f) =>
        r := CreateUserRecord(email, password, f, normalize);
    }
  }
}
