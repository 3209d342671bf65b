/** The phone and email sign-in handlers of server/controllers/authController.js. bcrypt is
    outside the model: `hashed` is the hash `User.hashPassword` would produce and
    `matches(plain, hash)` is `bcrypt.compare`. Token signing is left out; a successful login
    reports the user it signs in. */
module AuthController {
  import opened Common
  import opened Users
  import opened VerificationCode

  // ---------------------------------------------------------------------------------------
  // Input shapes

  predicate IsAsciiDigit(c: char) { '0' <= c <= '9' }

  /** `/^1[3-9]\d{9}$/.test(phone)`: `\d` is an ASCII digit and `$` is the end of the input. */
  predicate PhoneValid(p: string)
  {
    |p| == 11 && p[0] == '1' && '3' <= p[1] <= '9' && forall i :: 2 <= i < 11 ==> IsAsciiDigit(p[i])
  }

  predicate AllDigits(s: string)
  {
    forall i :: 0 <= i < |s| ==> IsAsciiDigit(s[i])
  }

  /** The regular expression read as a grammar: "1", one of 3..9, then nine digits. */
  lemma PhoneValidIffPattern(p: string)
    ensures PhoneValid(p) <==>
            exists d: char, rest: string :: '3' <= d <= '9' && |rest| == 9 && AllDigits(rest) && p == ['1', d] + rest
  {
    if PhoneValid(p) {
      var rest := p[2..];
      forall i | 0 <= i < |rest| ensures IsAsciiDigit(rest[i]) {
        assert rest[i] == p[i + 2];
      }
      assert p == ['1', p[1]] + rest;
    }
    if exists d: char, rest: string :: '3' <= d <= '9' && |rest| == 9 && AllDigits(rest) && p == ['1', d] + rest {
      var d: char, rest: string :| '3' <= d <= '9' && |rest| == 9 && AllDigits(rest) && p == ['1', d] + rest;
      forall i | 2 <= i < 11 ensures IsAsciiDigit(p[i]) {
        assert p[i] == rest[i - 2];
      }
    }
  }

  function IsAt(): char -> bool { (c: char) => c == '@' }
  function IsDot(): char -> bool { (c: char) => c == '.' }

  /** `[^\s@]+` without the `+`: no white space and no '@'. */
  predicate Plain(s: string)
  {
    forall i :: 0 <= i < |s| ==> s[i] != '@' && !IsSpace(s[i])
  }

  /** The email check as the handler runs it: the first '@' is not the first character, no other
      '@' and no white space follow, and a '.' sits strictly inside the part after the '@'. */
  predicate EmailValid(e: string)
  {
    var at := IndexWhere(e, IsAt());
    at > 0 && at + 3 < |e| && Plain(e[..at]) && Plain(e[at + 1..]) &&
    IndexWhere(e[at + 2..|e| - 1], IsDot()) >= 0
  }

  /** `/^[^\s@]+@[^\s@]+\.[^\s@]+$/` read as a grammar. */
  ghost predicate EmailPattern(e: string)
  {
    exists local: string, host: string, tld: string ::
      |local| > 0 && |host| > 0 && |tld| > 0 && Plain(local) && Plain(host) && Plain(tld) &&
      e == local + "@" + host + "." + tld
  }

  lemma EmailValidIffPattern(e: string)
    ensures EmailValid(e) <==> EmailPattern(e)
  {
    if EmailValid(e) {
      EmailValidHasPattern(e);
    }
    if EmailPattern(e) {
      var local: string, host: string, tld: string :|
        |local| > 0 && |host| > 0 && |tld| > 0 && Plain(local) && Plain(host) && Plain(tld) &&
        e == local + "@" + host + "." + tld;
      EmailPatternIsValid(e, local, host, tld);
    }
  }

  lemma EmailValidHasPattern(e: string)
    requires EmailValid(e)
    ensures EmailPattern(e)
  {
    var at := IndexWhere(e, IsAt());
    var mid := e[at + 2..|e| - 1];
    var j := IndexWhere(mid, IsDot());
    assert e[at + 2 + j] == mid[j];
    EmailPieces(e, at, at + 2 + j);
  }

  /** An '@' after a plain first part and a '.' at least one character later, not at the end,
      cut the string into the three parts of the pattern. */
  lemma EmailPieces(e: string, at: int, dot: int)
    requires 0 < at && at + 1 < dot < |e| - 1
    requires e[at] == '@' && e[dot] == '.'
    requires Plain(e[..at]) && Plain(e[at + 1..])
    ensures EmailPattern(e)
  {
    var domain := e[at + 1..];
    var local, host, tld := e[..at], e[at + 1..dot], e[dot + 1..];
    assert host == domain[..dot - at - 1];
    assert tld == domain[dot - at..];
    PlainSlice(domain, 0, dot - at - 1);
    PlainSlice(domain, dot - at, |domain|);
    SplitAround(e, at, dot);
    assert [e[at]] == "@" && [e[dot]] == ".";
    assert e == local + "@" + host + "." + tld;
  }

  lemma PlainSlice(s: string, i: int, j: int)
    requires Plain(s) && 0 <= i <= j <= |s|
    ensures Plain(s[i..j])
  {
    forall k | 0 <= k < j - i ensures s[i..j][k] != '@' && !IsSpace(s[i..j][k]) {
      assert s[i..j][k] == s[i + k];
    }
  }

  /** A string is its pieces around two positions. */
  lemma SplitAround(e: string, a: int, b: int)
    requires 0 <= a < b < |e|
    ensures e == e[..a] + [e[a]] + e[a + 1..b] + [e[b]] + e[b + 1..]
  {
    assert e == e[..a] + e[a..];
    assert e[a..] == [e[a]] + e[a + 1..];
    assert e[a + 1..] == e[a + 1..b] + e[b..];
    assert e[b..] == [e[b]] + e[b + 1..];
  }

  lemma EmailPatternIsValid(e: string, local: string, host: string, tld: string)
    requires |local| > 0 && |host| > 0 && |tld| > 0 && Plain(local) && Plain(host) && Plain(tld)
    requires e == local + "@" + host + "." + tld
    ensures EmailValid(e)
  {
    var at := |local|;
    assert e[at] == '@';
    forall i | 0 <= i < at ensures !IsAt()(e[i]) {
      assert e[i] == local[i];
    }
    IndexWhereFirst(e, IsAt(), at);
    assert e[..at] == local;
    var domain := e[at + 1..];
    assert domain == host + "." + tld;
    PlainJoin(host, tld, domain);
    var mid := e[at + 2..|e| - 1];
    assert mid[|host| - 1] == '.';
    assert IndexWhere(mid, IsDot()) >= 0;
  }

  /** Two plain parts joined by a '.' are plain. */
  lemma PlainJoin(a: string, b: string, joined: string)
    requires Plain(a) && Plain(b) && joined == a + "." + b
    ensures Plain(joined)
  {
    forall i | 0 <= i < |joined| ensures joined[i] != '@' && !IsSpace(joined[i]) {
      if i < |a| {
        assert joined[i] == a[i];
      } else if i > |a| {
        assert joined[i] == b[i - |a| - 1];
      }
    }
  }

  /** A position whose element satisfies `p` with none before it is what `findIndex` returns. */
  lemma {:induction false} IndexWhereFirst<T>(s: seq<T>, p: T -> bool, k: int)
    requires 0 <= k < |s| && p(s[k]) && forall i :: 0 <= i < k ==> !p(s[i])
    ensures IndexWhere(s, p) == k
  {
    var r := IndexWhere(s, p);
    assert r != -1;
    assert !(r < k) && !(r > k);
  }

  // ---------------------------------------------------------------------------------------
  // Phone sign-in

  /** The phone a request may ask a code for. */
  predicate PhoneAccepted(phone: Option<string>)
  {
    Present(phone) && PhoneValid(phone.value)
  }

  /** `sendVerificationCode`: 400 unless the phone is well-formed; otherwise a code is issued for
      it (and, in this demo server, returned). */
  method SendVerificationCode(codes: CodeStore, phone: Option<string>, code: string, now: int)
    returns (resp: Response, sent: Option<string>)
    modifies codes
    ensures !PhoneAccepted(phone) ==>
              resp == Response(400, "请输入有效的手机号") && sent == None && codes.codes == old(codes.codes)
    ensures PhoneAccepted(phone) ==>
              resp == Response(200, "验证码已发送") && sent == Some(code) &&
              codes.codes == old(codes.codes)[phone.value := Issued(code, now)]
  {
    if !Present(phone) || !PhoneValid(phone.value) {
      return Response(400, "请输入有效的手机号"), None;
    }
    var c := codes.Generate(phone.value, code, now);
    resp, sent := Response(200, "验证码已发送"), Some(c);
  }

  /** The user `loginWithPhone` creates for an unknown phone. */
  function PhoneUser(phone: string, id: string, nicknameSuffix: string, now: int): User
  {
    NewUser(id, UserData(Some(phone), None, None, None, None, Some("phone"), None, None, None, true), nicknameSuffix, now)
  }

  /** The store after the find-or-create step of `loginWithPhone`. */
  function FindOrCreate(users: seq<User>, phone: string, id: string, nicknameSuffix: string, now: int): seq<User>
  {
    if Find(users, HasPhone(phone)).Some? then users
    else UpsertBy(users, PhoneUser(phone, id, nicknameSuffix, now), UserId)
  }

  /** The user signed in by the find-or-create step. */
  function SignedIn(users: seq<User>, phone: string, id: string, nicknameSuffix: string, now: int): User
  {
    match Find(users, HasPhone(phone))
    case Some(u) => u
    case None => PhoneUser(phone, id, nicknameSuffix, now)
  }

  /** Find-or-create keeps a known phone's store as it is, and for an unknown phone adds one
      verified phone user (appended when its id is new); afterwards the signed-in user has that
      phone and is stored. */
  lemma FindOrCreateFacts(users: seq<User>, phone: string, id: string, nicknameSuffix: string, now: int)
    requires phone != ""
    ensures var after := FindOrCreate(users, phone, id, nicknameSuffix, now);
            var u := SignedIn(users, phone, id, nicknameSuffix, now);
            u in after && u.phone == Some(phone) &&
            ((exists v :: v in users && v.phone == Some(phone)) ==> after == users) &&
            ((forall v :: v in users ==> v.phone != Some(phone)) ==>
               u.loginType == "phone" && u.isVerified && u.id == id &&
               ((forall v :: v in users ==> v.id != id) ==> after == users + [u] && Count(after, HasPhone(phone)) == 1))
  {
    var u := SignedIn(users, phone, id, nicknameSuffix, now);
    UpsertByFacts(users, PhoneUser(phone, id, nicknameSuffix, now), UserId);
    if Find(users, HasPhone(phone)).None? {
      if forall v :: v in users ==> v.id != id {
        FilterNone(users, HasPhone(phone));
        FilterAppend(users, [u], HasPhone(phone));
        assert Filter([u], HasPhone(phone)) == [u] by {
          assert [u][1..] == [];
        }
      }
    }
  }

  /** Signing in twice with one phone creates at most one user: the second find-or-create finds
      the first one's user and changes nothing. */
  lemma {:induction false} FindOrCreateIdempotent(users: seq<User>, phone: string, id1: string, id2: string,
                                                  suffix1: string, suffix2: string, now1: int, now2: int)
    requires phone != ""
    ensures var once := FindOrCreate(users, phone, id1, suffix1, now1);
            FindOrCreate(once, phone, id2, suffix2, now2) == once &&
            SignedIn(once, phone, id2, suffix2, now2).phone == Some(phone)
  {
    FindOrCreateFacts(users, phone, id1, suffix1, now1);
    var once := FindOrCreate(users, phone, id1, suffix1, now1);
    assert SignedIn(users, phone, id1, suffix1, now1) in once;
  }

  /** `loginWithPhone`: 400 without phone or code; 400 with the verifier's message when the code is
      refused; otherwise the phone's user is found or created and signed in. */
  method LoginWithPhone(codes: CodeStore, store: UserStore, phone: Option<string>, code: Option<string>,
                        id: string, nicknameSuffix: string, now: int)
    returns (resp: Response, user: Option<PublicUser>)
    modifies codes, store
    ensures !Present(phone) || !Present(code) ==>
              resp == Response(400, "手机号和验证码不能为空") && user == None &&
              codes.codes == old(codes.codes) && store.users == old(store.users)
    ensures Present(phone) && Present(code) ==>
              var v := VerifyStep(RecordOf(old(codes.codes), phone.value), code.value, now);
              codes.codes == Store(old(codes.codes), phone.value, v.1) &&
              (v.0 != Verified ==> resp == Response(400, Message(v.0)) && user == None && store.users == old(store.users)) &&
              (v.0 == Verified ==>
                 resp == Response(200, "登录成功") &&
                 store.users == FindOrCreate(old(store.users), phone.value, id, nicknameSuffix, now) &&
                 user == Some(ToJSON(SignedIn(old(store.users), phone.value, id, nicknameSuffix, now))))
  {
    if !Present(phone) || !Present(code) {
      return Response(400, "手机号和验证码不能为空"), None;
    }
    var success, message := codes.Verify(phone.value, code.value, now);
    if !success {
      return Response(400, message), None;
    }
    var found := store.FindByPhone(phone.value);
    var u: User;
    if found.None? {
      u := PhoneUser(phone.value, id, nicknameSuffix, now);
      store.Save(u);
    } else {
      u := found.value;
    }
    resp, user := Response(200, "登录成功"), Some(ToJSON(u));
  }

  // ---------------------------------------------------------------------------------------
  // Email registration and sign-in

  /** The first check `registerWithEmail` fails, in the handler's order, or `None`. */
  function RegisterCheck(email: Option<string>, password: Option<string>, confirmPassword: Option<string>,
                         emailTaken: bool): Option<Response>
  {
    if !Present(email) || !Present(password) || !Present(confirmPassword) then
      Some(Response(400, "邮箱、密码和确认密码不能为空"))
    else if !EmailValid(email.value) then Some(Response(400, "请输入有效的邮箱地址"))
    else if |password.value| < 6 then Some(Response(400, "密码长度至少为6个字符"))
    else if password.value != confirmPassword.value then Some(Response(400, "两次输入的密码不一致"))
    else if emailTaken then Some(Response(400, "该邮箱已被注册"))
    else None
  }

  /** Each refusal happens exactly when every earlier check passed and its own fails; an accepted
      request passed them all. */
  lemma RegisterCheckOrder(email: Option<string>, password: Option<string>, confirmPassword: Option<string>, taken: bool)
    ensures var r := RegisterCheck(email, password, confirmPassword, taken);
            var filled := Present(email) && Present(password) && Present(confirmPassword);
            (r == Some(Response(400, "邮箱、密码和确认密码不能为空")) <==> !filled) &&
            (r == Some(Response(400, "请输入有效的邮箱地址")) <==> filled && !EmailValid(email.value)) &&
            (r == Some(Response(400, "密码长度至少为6个字符")) <==>
               filled && EmailValid(email.value) && |password.value| < 6) &&
            (r == Some(Response(400, "两次输入的密码不一致")) <==>
               filled && EmailValid(email.value) && |password.value| >= 6 && password.value != confirmPassword.value) &&
            (r == Some(Response(400, "该邮箱已被注册")) <==>
               filled && EmailValid(email.value) && |password.value| >= 6 && password.value == confirmPassword.value && taken) &&
            (r == None <==>
               filled && EmailValid(email.value) && |password.value| >= 6 && password.value == confirmPassword.value && !taken)
  {
  }

  /** The user a successful registration creates. */
  function EmailUser(email: string, hashed: string, nickname: Option<string>, id: string, now: int): User
  {
    NewUser(id, UserData(None, Some(email), Some(hashed), Some(StrOr(nickname, "用户")), None, Some("email"),
                         None, None, None, true), "", now)
  }

  /** `registerWithEmail`. */
  method RegisterWithEmail(store: UserStore, email: Option<string>, password: Option<string>,
                           confirmPassword: Option<string>, nickname: Option<string>,
                           hashed: string, id: string, now: int)
    returns (resp: Response, user: Option<PublicUser>)
    modifies store
    ensures var taken := Present(email) && Find(old(store.users), HasEmail(email.value)).Some?;
            var check := RegisterCheck(email, password, confirmPassword, taken);
            (check.Some? ==> resp == check.value && user == None && store.users == old(store.users)) &&
            (check.None? ==>
               resp == Response(201, "注册成功") &&
               store.users == UpsertBy(old(store.users), EmailUser(email.value, hashed, nickname, id, now), UserId) &&
               user == Some(ToJSON(EmailUser(email.value, hashed, nickname, id, now))))
  {
    var taken := Present(email) && store.FindByEmail(email.value).Some?;
    var check := RegisterCheck(email, password, confirmPassword, taken);
    if check.Some? {
      return check.value, None;
    }
    var u := EmailUser(email.value, hashed, nickname, id, now);
    store.Save(u);
    resp, user := Response(201, "注册成功"), Some(ToJSON(u));
  }

  /** A registration that passes the checks leaves exactly one user with that email: the new one,
      an email user whose nickname defaults to '用户' (given a fresh id). */
  lemma RegisterAddsOne(users: seq<User>, email: string, hashed: string, nickname: Option<string>, id: string, now: int)
    requires email != "" && hashed != ""
    requires forall v :: v in users ==> v.email != Some(email) && v.id != id
    ensures var u := EmailUser(email, hashed, nickname, id, now);
            var after := UpsertBy(users, u, UserId);
            after == users + [u] && Filter(after, HasEmail(email)) == [u] &&
            u.loginType == "email" && u.isVerified && u.phone == None && u.password == Some(hashed) &&
            u.nickname == (if Present(nickname) then nickname.value else "用户")
  {
    var u := EmailUser(email, hashed, nickname, id, now);
    UpsertByFacts(users, u, UserId);
    FilterNone(users, HasEmail(email));
    FilterAppend(users, [u], HasEmail(email));
    assert Filter([u], HasEmail(email)) == [u] by {
      assert [u][1..] == [];
    }
  }

  /** A response and the user it signs in, if any. */
  datatype Outcome = Outcome(resp: Response, user: Option<User>)

  /** `loginWithEmail`. A stored user without a password makes `bcrypt.compare` throw: 500. */
  function LoginWithEmail(users: seq<User>, email: Option<string>, password: Option<string>,
                          matches: (string, string) -> bool): Outcome
  {
    if !Present(email) || !Present(password) then Outcome(Response(400, "邮箱和密码不能为空"), None)
    else match Find(users, HasEmail(email.value))
      case None => Outcome(Response(401, "邮箱或密码错误"), None)
      case Some(u) =>
        if u.password.None? then Outcome(Response(500, "登录失败"), None)
        else if !matches(password.value, u.password.value) then Outcome(Response(401, "邮箱或密码错误"), None)
        else Outcome(Response(200, "登录成功"), Some(u))
  }

  /** An unknown email and a wrong password get the identical 401, so the answer does not reveal
      which one was wrong; success needs a stored user whose hash matches. */
  lemma EmailLoginSymmetric(users: seq<User>, email: string, password: string, matches: (string, string) -> bool)
    requires email != "" && password != ""
    ensures var r := LoginWithEmail(users, Some(email), Some(password), matches);
            var found := Find(users, HasEmail(email));
            ((found.None? || (found.value.password.Some? && !matches(password, found.value.password.value))) <==>
               r == Outcome(Response(401, "邮箱或密码错误"), None)) &&
            (r.resp.status == 200 <==>
               found.Some? && found.value.password.Some? && matches(password, found.value.password.value)) &&
            (r.user.Some? ==> r.user.value in users && r.user.value.email == Some(email))
  {
  }

  /** `getCurrentUser`: 404 for a caller id with no stored user, else the caller's public view. */
  function GetCurrentUser(users: UserStore, callerId: string): (r: (Response, Option<PublicUser>))
    reads users
    ensures r.1.None? <==> forall u :: u in users.users ==> u.id != callerId
    ensures r.1.None? ==> r.0 == Response(404, "用户不存在")
    ensures r.1.Some? ==> r.0.status == 200 &&
                          exists u :: u in users.users && u.id == callerId && r.1.value == ToJSON(u)
  {
    match users.FindById(callerId)
    case None => (Response(404, "用户不存在"), None)
    case Some(u) => (Response(200, ""), Some(ToJSON(u)))
  }

  /** The outcome of `changePassword` before the store is touched: 200 means the password is
      replaced. The old password is checked only when one is set; an absent value that reaches
      bcrypt makes it throw (500). */
  function ChangePasswordCheck(user: Option<User>, oldPassword: Option<string>, newPassword: Option<string>,
                               confirmPassword: Option<string>, matches: (string, string) -> bool): Response
  {
    if user.None? then Response(404, "用户不存在")
    else if user.value.password.Some? && oldPassword.None? then Response(500, "修改密码失败")
    else if user.value.password.Some? && !matches(oldPassword.value, user.value.password.value) then
      Response(401, "原密码错误")
    else if newPassword != confirmPassword then Response(400, "两次输入的新密码不一致")
    else if newPassword.None? then Response(500, "修改密码失败")
    else Response(200, "密码修改成功")
  }

  /** A user without a password (a phone user) is never asked for the old one; a mismatching
      confirmation is refused whenever the old password passed; success needs both. */
  lemma ChangePasswordRules(user: Option<User>, oldPassword: Option<string>, newPassword: Option<string>,
                            confirmPassword: Option<string>, matches: (string, string) -> bool)
    ensures var r := ChangePasswordCheck(user, oldPassword, newPassword, confirmPassword, matches);
            (user.Some? && user.value.password.None? ==> r.status != 401) &&
            ((user.Some? && newPassword != confirmPassword &&
              (user.value.password.None? || (oldPassword.Some? && matches(oldPassword.value, user.value.password.value)))) ==>
               r == Response(400, "两次输入的新密码不一致")) &&
            (r.status == 200 <==>
               user.Some? && newPassword.Some? && newPassword == confirmPassword &&
               (user.value.password.None? || (oldPassword.Some? && matches(oldPassword.value, user.value.password.value))))
  {
  }

  /** `changePassword` for the signed-in user `callerId`. */
  method ChangePassword(store: UserStore, callerId: string, oldPassword: Option<string>, newPassword: Option<string>,
                        confirmPassword: Option<string>, hashed: string, matches: (string, string) -> bool)
    returns (resp: Response)
    modifies store
    ensures resp == ChangePasswordCheck(Find(old(store.users), HasId(callerId)), oldPassword, newPassword, confirmPassword, matches)
    ensures resp.status != 200 ==> store.users == old(store.users)
    ensures resp.status == 200 ==>
              store.users == UpsertBy(old(store.users), Find(old(store.users), HasId(callerId)).value.(password := Some(hashed)), UserId)
  {
    var user := store.FindById(callerId);
    resp := ChangePasswordCheck(user, oldPassword, newPassword, confirmPassword, matches);
    if resp.status == 200 {
      store.Save(user.value.(password := Some(hashed)));
    }
  }
}
