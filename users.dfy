/** The user store of server/models/User.js. Ids, the clock and the random nickname suffix are
    parameters; password hashing is outside the model (a stored password is an opaque hash). */
module Users {
  import opened Common

  const DefaultAvatar: string := "https://via.placeholder.com/150"

  datatype User = User(id: string, phone: Option<string>, email: Option<string>, password: Option<string>,
                       nickname: string, avatar: string, loginType: string,
                       qqId: Option<string>, qqNickname: Option<string>, qqAvatar: Option<string>,
                       isVerified: bool, createdAt: int, updatedAt: int)

  /** What `toJSON` returns: every field but `password`. */
  datatype PublicUser = PublicUser(id: string, phone: Option<string>, email: Option<string>,
                                   nickname: string, avatar: string, loginType: string,
                                   qqId: Option<string>, qqNickname: Option<string>, qqAvatar: Option<string>,
                                   isVerified: bool, createdAt: int, updatedAt: int)

  /** The `data` object handed to `new User(data)`; an absent key is `None`. */
  datatype UserData = UserData(phone: Option<string>, email: Option<string>, password: Option<string>,
                               nickname: Option<string>, avatar: Option<string>, loginType: Option<string>,
                               qqId: Option<string>, qqNickname: Option<string>, qqAvatar: Option<string>,
                               isVerified: bool)

  /** `data.field || null`: a falsy string becomes null. */
  function OrNull(field: Option<string>): Option<string>
  {
    if Present(field) then field else None
  }

  /** A `data.field || null` field: the sent value when it is a non-empty string, null otherwise. */
  ghost predicate SentOrNull(stored: Option<string>, sent: Option<string>)
  {
    (Present(sent) ==> stored == sent) && (!Present(sent) ==> stored == None)
  }

  /** `new User(data)`: falsy fields fall back to null, a random `用户…` nickname, the placeholder
      avatar, login type 'phone' and not verified. */
  function NewUser(id: string, data: UserData, nicknameSuffix: string, now: int): (u: User)
    ensures u.id == id && u.createdAt == now && u.updatedAt == now
    ensures SentOrNull(u.phone, data.phone) && SentOrNull(u.email, data.email)
    ensures SentOrNull(u.password, data.password)
    ensures SentOrNull(u.qqId, data.qqId) && SentOrNull(u.qqNickname, data.qqNickname)
    ensures SentOrNull(u.qqAvatar, data.qqAvatar)
    ensures u.phone.Some? <==> Present(data.phone)
    ensures u.email.Some? <==> Present(data.email)
    ensures u.password.Some? <==> Present(data.password)
    ensures u.avatar == if Present(data.avatar) then data.avatar.value else DefaultAvatar
    ensures u.loginType == if Present(data.loginType) then data.loginType.value else "phone"
    ensures u.nickname == if Present(data.nickname) then data.nickname.value else "用户" + nicknameSuffix
    ensures u.isVerified == data.isVerified
  {
    User(id, OrNull(data.phone), OrNull(data.email), OrNull(data.password),
         StrOr(data.nickname, "用户" + nicknameSuffix), StrOr(data.avatar, DefaultAvatar),
         StrOr(data.loginType, "phone"), OrNull(data.qqId), OrNull(data.qqNickname), OrNull(data.qqAvatar),
         data.isVerified, now, now)
  }

  function UserId(u: User): string { u.id }

  /** `toJSON()`. */
  function ToJSON(u: User): PublicUser
  {
    PublicUser(u.id, u.phone, u.email, u.nickname, u.avatar, u.loginType, u.qqId, u.qqNickname, u.qqAvatar,
               u.isVerified, u.createdAt, u.updatedAt)
  }

  /** The public view never depends on the password and loses nothing else. */
  lemma ToJSONHidesOnlyPassword(u: User, v: User)
    ensures ToJSON(u) == ToJSON(u.(password := v.password))
    ensures ToJSON(u) == ToJSON(v) <==> u == v.(password := u.password)
  {
  }

  /** The users that `find(u => u.field === value)` can return. */
  function HasId(id: string): User -> bool { (u: User) => u.id == id }
  function HasPhone(phone: string): User -> bool { (u: User) => u.phone == Some(phone) }
  function HasEmail(email: string): User -> bool { (u: User) => u.email == Some(email) }
  function HasQQId(qqId: string): User -> bool { (u: User) => u.qqId == Some(qqId) }

  class UserStore {
    var users: seq<User>

    constructor ()
      ensures users == []
    {
      users := [];
    }

    /** `save()`: overwrite the user with the same id in place, or append. */
    method Save(u: User)
      modifies this
      ensures users == UpsertBy(old(users), u, UserId)
      ensures (exists v :: v in old(users) && v.id == u.id) ==> |users| == |old(users)|
      ensures (forall v :: v in old(users) ==> v.id != u.id) ==> users == old(users) + [u]
      ensures FindById(u.id) == Some(u)
    {
      UpsertByFacts(users, u, UserId);
      UpsertThenFind(users, u, UserId);
      IndexWhereCongruent(UpsertBy(users, u, UserId), SameKey(UserId, u), HasId(u.id));
      users := UpsertBy(users, u, UserId);
    }

    /** `findById(id)`: the first user with that id. */
    function FindById(id: string): (r: Option<User>)
      reads this
      ensures r.Some? ==> r.value in users && r.value.id == id
      ensures r.None? <==> forall u :: u in users ==> u.id != id
    {
      Find(users, HasId(id))
    }

    /** `findByPhone(phone)`: the first user with that phone. */
    function FindByPhone(phone: string): (r: Option<User>)
      reads this
      ensures r.Some? ==> r.value in users && r.value.phone == Some(phone)
      ensures r.None? <==> forall u :: u in users ==> u.phone != Some(phone)
    {
      Find(users, HasPhone(phone))
    }

    /** `findByEmail(email)`: the first user with that email. */
    function FindByEmail(email: string): (r: Option<User>)
      reads this
      ensures r.Some? ==> r.value in users && r.value.email == Some(email)
      ensures r.None? <==> forall u :: u in users ==> u.email != Some(email)
    {
      Find(users, HasEmail(email))
    }

    /** `findByQQId(qqId)`: the first user with that QQ id. */
    function FindByQQId(qqId: string): (r: Option<User>)
      reads this
      ensures r.Some? ==> r.value in users && r.value.qqId == Some(qqId)
      ensures r.None? <==> forall u :: u in users ==> u.qqId != Some(qqId)
    {
      Find(users, HasQQId(qqId))
    }

    /** `delete(id)`. */
    method Delete(id: string)
      modifies this
      ensures users == Filter(old(users), (u: User) => u.id != id)
      ensures forall u :: u in users <==> u in old(users) && u.id != id
    {
      forall u ensures u in Filter(users, (u: User) => u.id != id) <==> u in users && u.id != id {
        FilterMember(users, (u: User) => u.id != id, u);
      }
      users := Filter(users, (u: User) => u.id != id);
    }
  }
}
