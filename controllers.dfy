/**
 * The `User` controller: each handler binds its request, runs its chain of
 * early returns against the user table and the sign store, and answers.
 */
module Controllers {
  import opened Wrappers
  import opened Models

  datatype RegisterRequest = RegisterRequest(name: string, email: string, password: string)
  datatype LoginRequest = LoginRequest(email: string, password: string)
  datatype EmailRequest = EmailRequest(email: string)
  datatype ResetPasswordRequest = ResetPasswordRequest(email: string, sign: string, password: string)
  datatype SignRequest = SignRequest(sign: string)

  /** The validator's `min=lo,max=hi` on a string: its length in characters lies in lo..hi. */
  predicate LengthWithin(s: string, lo: nat, hi: nat)
  {
    lo <= |s| <= hi
  }

  /** The validator's `required` on a string: it is not empty. */
  predicate Required(s: string)
  {
    s != ""
  }

  /** What a handler writes back. */
  datatype Reply =
    | Json(user: User)                    // RespondWithJSON(c, 200, user)
    | Done                                // SuccessResponse(c)
    | BindError                           // ErrValidateResponse: the request broke a binding tag
    | CustomError(message: string)        // ErrCustomValidateResponse
    | HttpError(status: nat, message: string)  // ErrResponse
    | Unauthorized                        // ErrResponse(c, 401, errModelNotFound)

  /** A message handed to the mail service: recipient, subject and the signed link inside it. */
  datatype Mail = Mail(to: string, subject: string, link: Link)

  const UserExists := "该用户已存在"
  const EmailTaken := "该邮箱已被注册"
  const NoSuchEmailUser := "该邮箱用户不存在"
  const WrongPassword := "密码不正确"
  const EmailNotRegistered := "该邮箱未注册"
  const ResetSubject := "重置密码"
  const VerifySubject := "验证邮箱"

  class UserController {
    const db: Db
    /** `helper.BuildToken`, left uninterpreted; its error result is ignored by the handlers. */
    const buildToken: nat -> string
    /** The validator's `email` tag, left uninterpreted. */
    const isEmail: string -> bool

    ghost predicate Valid()
      reads this, db
    {
      db.Valid()
    }

    constructor (db: Db, buildToken: nat -> string, isEmail: string -> bool)
      ensures this.db == db && this.buildToken == buildToken && this.isEmail == isEmail
    {
      this.db, this.buildToken, this.isEmail := db, buildToken, isEmail;
    }

    predicate RegisterBinds(req: RegisterRequest)
    {
      LengthWithin(req.name, 3, 15) && isEmail(req.email) && LengthWithin(req.password, 6, 15)
    }

    predicate LoginBinds(req: LoginRequest)
    {
      isEmail(req.email) && LengthWithin(req.password, 6, 15)
    }

    predicate ResetBinds(req: ResetPasswordRequest)
    {
      isEmail(req.email) && Required(req.sign) && LengthWithin(req.password, 6, 15)
    }

    /** The check `Login` makes: a user with this email exists and its stored digest is `Md5(password)`. */
    predicate PasswordCheckPasses(users: seq<User>, email: string, password: string)
    {
      var found := FindUser(users, EmailColumn, email);
      found.Some? && found.value.password == db.md5(password)
    }

    /**
     * `Register`: bind, reject a taken name before a taken email, then
     * insert one row holding the digest of the password and set its token.
     */
    method Register(req: RegisterRequest) returns (reply: Reply)
      requires Valid()
      modifies db
      ensures Valid()
      ensures !RegisterBinds(req) ==> reply == BindError && unchanged(db)
      ensures RegisterBinds(req) && FindUser(old(db.users), NameColumn, req.name).Some? ==>
        reply == CustomError(UserExists) && unchanged(db)
      ensures && RegisterBinds(req) && FindUser(old(db.users), NameColumn, req.name).None?
              && FindUser(old(db.users), EmailColumn, req.email).Some?
              ==> reply == CustomError(EmailTaken) && unchanged(db)
      ensures && RegisterBinds(req) && FindUser(old(db.users), NameColumn, req.name).None?
              && FindUser(old(db.users), EmailColumn, req.email).None?
              ==> var u := User(old(db.nextId), req.name, req.email, db.md5(req.password), "", buildToken(old(db.nextId)), None);
                  && reply == Json(u) && db.users == old(db.users) + [u]
                  && db.nextId == old(db.nextId) + 1 && db.signs == old(db.signs)
      ensures UniqueNamesAndEmails(old(db.users)) ==> UniqueNamesAndEmails(db.users)
    {
      if !RegisterBinds(req) {
        return BindError;
      }
      if FindUser(db.users, NameColumn, req.name).Some? {
        return CustomError(UserExists);
      }
      if FindUser(db.users, EmailColumn, req.email).Some? {
        return CustomError(EmailTaken);
      }
      ghost var before := db.users;
      var user := User(0, req.name, req.email, db.md5(req.password), "", "", None);
      var id := db.New(user);
      user := user.(id := id);
      user := user.(token := buildToken(user.id));
      InsertThenSave(before, id, user.(token := ""), user);
      assert db.users[|db.users| - 1].id == user.id;
      db.Save(user);
      reply := Json(user);
    }

    /** `Login`: unknown email, then wrong password; otherwise only the user's token changes. */
    method Login(req: LoginRequest) returns (reply: Reply)
      requires Valid()
      modifies db
      ensures Valid()
      ensures !LoginBinds(req) ==> reply == BindError && unchanged(db)
      ensures LoginBinds(req) && FindUser(old(db.users), EmailColumn, req.email).None? ==>
        reply == CustomError(NoSuchEmailUser) && unchanged(db)
      ensures && LoginBinds(req) && FindUser(old(db.users), EmailColumn, req.email).Some?
              && !PasswordCheckPasses(old(db.users), req.email, req.password)
              ==> reply == CustomError(WrongPassword) && unchanged(db)
      ensures LoginBinds(req) && PasswordCheckPasses(old(db.users), req.email, req.password) ==>
        var u := FindUser(old(db.users), EmailColumn, req.email).value.(token := buildToken(FindUser(old(db.users), EmailColumn, req.email).value.id));
        && reply == Json(u) && db.users == Updated(old(db.users), u)
        && db.signs == old(db.signs) && db.nextId == old(db.nextId)
      ensures UniqueNamesAndEmails(old(db.users)) ==> UniqueNamesAndEmails(db.users)
    {
      if !LoginBinds(req) {
        return BindError;
      }
      var found := FindUser(db.users, EmailColumn, req.email);
      if found.None? {
        return CustomError(NoSuchEmailUser);
      }
      var user := found.value;
      if user.password != db.md5(req.password) {
        return CustomError(WrongPassword);
      }
      user := user.(token := buildToken(user.id));
      SaveLoaded(found.value, user);
      reply := Json(user);
    }

    /**
     * Save `user`, a changed copy of the loaded row `loaded` that keeps its
     * id, name and email (the shared tail of the handlers below).
     */
    method SaveLoaded(loaded: User, user: User)
      requires Valid()
      requires loaded in db.users
      requires user.id == loaded.id && user.name == loaded.name && user.email == loaded.email
      modifies db
      ensures Valid()
      ensures db.users == Updated(old(db.users), user) && db.signs == old(db.signs) && db.nextId == old(db.nextId)
      ensures UniqueNamesAndEmails(old(db.users)) ==> UniqueNamesAndEmails(db.users)
    {
      ghost var before := db.users;
      if UniqueNamesAndEmails(before) {
        UpdatedKeepsUnique(before, db.nextId, user);
      }
      db.Save(user);
    }

    /**
     * `SendResetEmail`: an unregistered email fails without writing a sign;
     * otherwise store the reset sign and mail the reset link.
     * `mailError` is the mail service's answer (`None` when it accepted the mail).
     */
    method SendResetEmail(req: EmailRequest, mailError: Option<string>) returns (reply: Reply, mail: Option<Mail>)
      requires Valid()
      modifies db
      ensures Valid() && db.users == old(db.users) && db.nextId == old(db.nextId)
      ensures !isEmail(req.email) ==> reply == BindError && mail == None && unchanged(db)
      ensures isEmail(req.email) && FindUser(old(db.users), EmailColumn, req.email).None? ==>
        reply == CustomError(EmailNotRegistered) && mail == None && unchanged(db)
      ensures isEmail(req.email) && FindUser(old(db.users), EmailColumn, req.email).Some? ==>
        && db.signs == old(db.signs)[SignKey(TypeReset, db.md5(req.email)) := req.email]
        && mail.Some? && mail.value.to == req.email && mail.value.subject == ResetSubject
        && mail.value.link.path == db.appUrl + "/password/reset"
        && mail.value.link.query == map["email" := req.email, "sign" := db.md5(req.email)]
        && reply == (if mailError.None? then Done else HttpError(500, mailError.value))
      ensures mail.Some? ==> DecodeSignURL(db.users, db.signs, TypeReset, mail.value.link.query["sign"]) ==
                             Success(FindUser(db.users, EmailColumn, req.email).value)
    {
      mail := None;
      if !isEmail(req.email) {
        return BindError, mail;
      }
      var found := FindUser(db.users, EmailColumn, req.email);
      if found.None? {
        return CustomError(EmailNotRegistered), mail;
      }
      var user := found.value;
      // getSignedURL fails only for an unknown type; url.Parse and Redis errors are not modelled
      var link := db.GetSignedURL(user, TypeReset);
      mail := Some(Mail(user.email, ResetSubject, link.value));
      reply := if mailError.None? then Done else HttpError(500, mailError.value);
    }

    /**
     * `ResetPassword`: decode the sign as a reset sign, insist that it belongs
     * to the request's email, then store the digest of the new password.
     */
    method ResetPassword(req: ResetPasswordRequest) returns (reply: Reply)
      requires Valid()
      modifies db
      ensures Valid() && db.signs == old(db.signs) && db.nextId == old(db.nextId)
      ensures !ResetBinds(req) ==> reply == BindError && unchanged(db)
      ensures ResetBinds(req) && DecodeSignURL(old(db.users), old(db.signs), TypeReset, req.sign).Failure? ==>
        reply == HttpError(400, DecodeSignURL(old(db.users), old(db.signs), TypeReset, req.sign).error) && unchanged(db)
      ensures && ResetBinds(req) && DecodeSignURL(old(db.users), old(db.signs), TypeReset, req.sign).Success?
              && DecodeSignURL(old(db.users), old(db.signs), TypeReset, req.sign).value.email != req.email
              ==> reply == HttpError(400, LinkError) && unchanged(db)
      ensures && ResetBinds(req) && DecodeSignURL(old(db.users), old(db.signs), TypeReset, req.sign).Success?
              && DecodeSignURL(old(db.users), old(db.signs), TypeReset, req.sign).value.email == req.email
              ==> var u := DecodeSignURL(old(db.users), old(db.signs), TypeReset, req.sign).value;
                  && reply == Done && db.users == Updated(old(db.users), u.(password := db.md5(req.password)))
                  && PasswordCheckPasses(db.users, req.email, req.password)
                  && DecodeSignURL(db.users, db.signs, TypeReset, req.sign) == Success(u.(password := db.md5(req.password)))
      ensures UniqueNamesAndEmails(old(db.users)) ==> UniqueNamesAndEmails(db.users)
    {
      if !ResetBinds(req) {
        return BindError;
      }
      var decoded := DecodeSignURL(db.users, db.signs, TypeReset, req.sign);
      if decoded.Failure? {
        return HttpError(400, decoded.error);
      }
      var user := decoded.value;
      if user.email != req.email {
        return HttpError(400, LinkError);
      }
      assert FindUser(db.users, EmailColumn, req.email) == Some(user);
      UpdatedLookup(db.users, db.nextId, EmailColumn, req.email, user, user.(password := db.md5(req.password)));
      SaveLoaded(user, user.(password := db.md5(req.password)));
      reply := Done;
    }

    /**
     * `SendVerifyEmail`: the logged-in user (by the context's `userId`) gets
     * a verify sign stored and the verification link mailed.
     */
    method SendVerifyEmail(userId: string, mailError: Option<string>) returns (reply: Reply, mail: Option<Mail>)
      requires Valid()
      modifies db
      ensures Valid() && db.users == old(db.users) && db.nextId == old(db.nextId)
      ensures FindUser(old(db.users), IdColumn, userId).None? ==> reply == Unauthorized && mail == None && unchanged(db)
      ensures FindUser(old(db.users), IdColumn, userId).Some? ==>
        var u := FindUser(old(db.users), IdColumn, userId).value;
        && db.signs == old(db.signs)[SignKey(TypeVerify, db.md5(u.email)) := u.email]
        && mail.Some? && mail.value.to == u.email && mail.value.subject == VerifySubject
        && mail.value.link.path == db.appUrl + "/verification"
        && mail.value.link.query == map["sign" := db.md5(u.email)]
        && reply == (if mailError.None? then Done else HttpError(500, mailError.value))
      ensures mail.Some? ==> && FindUser(db.users, EmailColumn, mail.value.to).Some?
                             && DecodeSignURL(db.users, db.signs, TypeVerify, mail.value.link.query["sign"]) ==
                                Success(FindUser(db.users, EmailColumn, mail.value.to).value)
    {
      mail := None;
      var found := FindUser(db.users, IdColumn, userId);
      if found.None? {
        return Unauthorized, mail;
      }
      var user := found.value;
      // getSignedURL fails only for an unknown type; url.Parse and Redis errors are not modelled
      ghost var signsBefore := db.signs;
      var link := db.GetSignedURL(user, TypeVerify);
      SignRoundTrip(db.users, signsBefore, db.md5, TypeVerify, user);
      mail := Some(Mail(user.email, VerifySubject, link.value));
      assert mail.value.link.query["sign"] == db.md5(user.email);
      reply := if mailError.None? then Done else HttpError(500, mailError.value);
    }

    /** `VerifyEmail`: decode the sign as a verify sign and stamp only that user's `EmailVerifiedAt`. */
    method VerifyEmail(req: SignRequest, now: int) returns (reply: Reply)
      requires Valid()
      modifies db
      ensures Valid() && db.signs == old(db.signs) && db.nextId == old(db.nextId)
      ensures !Required(req.sign) ==> reply == BindError && unchanged(db)
      ensures Required(req.sign) && DecodeSignURL(old(db.users), old(db.signs), TypeVerify, req.sign).Failure? ==>
        reply == HttpError(500, DecodeSignURL(old(db.users), old(db.signs), TypeVerify, req.sign).error) && unchanged(db)
      ensures Required(req.sign) && DecodeSignURL(old(db.users), old(db.signs), TypeVerify, req.sign).Success? ==>
        var u := DecodeSignURL(old(db.users), old(db.signs), TypeVerify, req.sign).value;
        reply == Done && db.users == Updated(old(db.users), u.(emailVerifiedAt := Some(now)))
      ensures UniqueNamesAndEmails(old(db.users)) ==> UniqueNamesAndEmails(db.users)
    {
      if !Required(req.sign) {
        return BindError;
      }
      var decoded := DecodeSignURL(db.users, db.signs, TypeVerify, req.sign);
      if decoded.Failure? {
        return HttpError(500, decoded.error);
      }
      var user := decoded.value;
      SaveLoaded(user, user.(emailVerifiedAt := Some(now)));
      reply := Done;
    }

    /** `GetProfile`: the logged-in user's row, or 401 when the context's id matches none. */
    method GetProfile(userId: string) returns (reply: Reply)
      requires Valid()
      ensures reply.Json? <==> exists u :: u in db.users && Decimal(u.id) == userId
      ensures reply.Json? ==> reply.user in db.users && Decimal(reply.user.id) == userId
      ensures !reply.Json? ==> reply == Unauthorized
      ensures reply.Json? ==> forall u :: u in db.users && Decimal(u.id) == userId ==> u == reply.user
    {
      var found := FindUser(db.users, IdColumn, userId);
      if found.None? {
        return Unauthorized;
      }
      reply := Json(found.value);
      forall u | u in db.users && Decimal(u.id) == userId
        ensures u == reply.user
      {
        IdLookupFindsRow(db.users, db.nextId, u);
      }
    }
  }
}
