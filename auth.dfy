/** The authentication callbacks: the sign-in decision for credentials with
    email verification and one-time two-factor confirmations, the JWT refresh
    from the user table, the session built from the token, and the
    `linkAccount` event. The user, account and confirmation tables are fields
    of a store; the token and the session user are objects the callbacks
    update field by field. */
module Auth {
  import opened Common

  datatype User = User(
    id: string,
    name: Option<string>,
    email: Option<string>,
    emailVerified: Option<int>,
    image: Option<string>,
    role: Role,
    isTwoFactorEnabled: bool)

  /** `getUserById`: the user with that id, if any. */
  function FindUser(users: seq<User>, id: string): (u: Option<User>)
    ensures u.None? <==> forall k :: 0 <= k < |users| ==> users[k].id != id
    ensures u.Some? ==> u.value in users && u.value.id == id
  {
    var i := IndexOfUser(users, id);
    if i == -1 then None else Some(users[i])
  }

  /** The confirmations left after `twoFactorConfirmation.delete({ where: { userId } })`. */
  function WithoutConfirmation(confirmations: seq<string>, userId: string): (r: seq<string>)
    ensures userId !in r
    ensures forall c :: c in r <==> c in confirmations && c != userId
  {
    if confirmations == [] then []
    else if confirmations[0] == userId then WithoutConfirmation(confirmations[1..], userId)
    else [confirmations[0]] + WithoutConfirmation(confirmations[1..], userId)
  }

  /** The `signIn` callback's answer and the confirmations it leaves behind.
      `provider` is `account?.provider`. */
  function SignInDecision(users: seq<User>, confirmations: seq<string>,
                          provider: Option<string>, userId: Option<string>): (r: (bool, seq<string>))
    ensures provider != Some("credentials") ==> r == (true, confirmations)
    ensures provider == Some("credentials") && !Truthy(userId) ==> r == (false, confirmations)
    ensures provider == Some("credentials") && Truthy(userId) ==>
      var u := FindUser(users, userId.value);
      && (u.None? || u.value.emailVerified.None? ==> r == (false, confirmations))
      && (u.Some? && u.value.emailVerified.Some? && !u.value.isTwoFactorEnabled ==> r == (true, confirmations))
      && (u.Some? && u.value.emailVerified.Some? && u.value.isTwoFactorEnabled ==>
            r == if u.value.id in confirmations then (true, WithoutConfirmation(confirmations, u.value.id))
                 else (false, confirmations))
  {
    if provider != Some("credentials") then (true, confirmations)
    else if !Truthy(userId) then (false, confirmations)
    else
      match FindUser(users, userId.value)
      case None => (false, confirmations)
      case Some(u) =>
        if u.emailVerified.None? then (false, confirmations)
        else if !u.isTwoFactorEnabled then (true, confirmations)
        else if u.id !in confirmations then (false, confirmations)
        else (true, WithoutConfirmation(confirmations, u.id))
  }

  /** A two-factor confirmation admits one sign-in: a second credentials
      sign-in straight after an admitted one is denied. */
  lemma ConfirmationIsSpent(users: seq<User>, confirmations: seq<string>, userId: string)
    requires var u := FindUser(users, userId); u.Some? && u.value.isTwoFactorEnabled
    requires SignInDecision(users, confirmations, Some("credentials"), Some(userId)).0
    ensures var after := SignInDecision(users, confirmations, Some("credentials"), Some(userId)).1;
      !SignInDecision(users, after, Some("credentials"), Some(userId)).0
  { }

  /** Only a two-factor sign-in changes the confirmations, and only by
      removing the user's own. */
  lemma SignInKeepsOthers(users: seq<User>, confirmations: seq<string>,
                          provider: Option<string>, userId: Option<string>, other: string)
    requires Truthy(userId) ==> other != userId.value
    ensures var after := SignInDecision(users, confirmations, provider, userId).1;
      other in after <==> other in confirmations
  {
  }

  /** `(token.picture || token.image || null)`. */
  function ImageOf(picture: Option<string>, image: Option<string>): (r: Option<string>)
    ensures Truthy(picture) ==> r == picture
    ensures !Truthy(picture) && Truthy(image) ==> r == image
    ensures !Truthy(picture) && !Truthy(image) ==> r.None?
  {
    if Truthy(picture) then picture else if Truthy(image) then image else None
  }

  /** The JWT's claims. */
  class Token {
    var sub: Option<string>
    var name: Option<string>
    var email: Option<string>
    var role: Option<Role>
    var isTwoFactorEnabled: Option<bool>
    var isOAuth: Option<bool>
    var picture: Option<string>
    var image: Option<string>

    constructor (sub: Option<string>)
      ensures this.sub == sub
      ensures name.None? && email.None? && role.None? && isTwoFactorEnabled.None?
      ensures isOAuth.None? && picture.None? && image.None?
    {
      this.sub := sub;
      name := None;
      email := None;
      role := None;
      isTwoFactorEnabled := None;
      isOAuth := None;
      picture := None;
      image := None;
    }
  }

  /** The `session.user` object the session callback fills in. */
  class SessionUser {
    var id: Option<string>
    var role: Option<Role>
    var isTwoFactorEnabled: bool
    var name: Option<string>
    var email: Option<string>
    var isOAuth: bool
    var image: Option<string>

    constructor ()
      ensures id.None? && role.None? && !isTwoFactorEnabled && name.None? && email.None?
      ensures !isOAuth && image.None?
    {
      id := None;
      role := None;
      isTwoFactorEnabled := false;
      name := None;
      email := None;
      isOAuth := false;
      image := None;
    }
  }

  /** The `session` callback on a session that has a user: the id and role
      when the token has them, the flags as booleans, the name and email, and
      the image from the picture or else the image claim. */
  method SessionCallback(token: Token, user: SessionUser)
    modifies user
    ensures Truthy(token.sub) ==> user.id == token.sub
    ensures !Truthy(token.sub) ==> user.id == old(user.id)
    ensures token.role.Some? ==> user.role == token.role
    ensures token.role.None? ==> user.role == old(user.role)
    ensures user.isTwoFactorEnabled == (token.isTwoFactorEnabled == Some(true))
    ensures user.isOAuth == (token.isOAuth == Some(true))
    ensures user.name == token.name && user.email == token.email
    ensures user.image == ImageOf(token.picture, token.image)
  {
    if Truthy(token.sub) {
      user.id := token.sub;
    }
    if token.role.Some? {
      user.role := token.role;
    }
    user.isTwoFactorEnabled := token.isTwoFactorEnabled == Some(true);
    user.name := token.name;
    user.email := token.email;
    user.isOAuth := token.isOAuth == Some(true);
    user.image := ImageOf(token.picture, token.image);
  }

  /** The user and account tables and the two-factor confirmations (one per
      user at most, by user id). */
  class AuthStore {
    var users: seq<User>
    var accounts: seq<string>
    var confirmations: seq<string>

    ghost predicate Valid()
      reads this
    {
      forall i, j :: 0 <= i < j < |users| ==> users[i].id != users[j].id
    }

    constructor (users: seq<User>, accounts: seq<string>, confirmations: seq<string>)
      requires forall i, j :: 0 <= i < j < |users| ==> users[i].id != users[j].id
      ensures Valid()
      ensures this.users == users && this.accounts == accounts && this.confirmations == confirmations
    {
      this.users := users;
      this.accounts := accounts;
      this.confirmations := confirmations;
    }

    /** The `signIn` callback. Only an admitted two-factor sign-in changes the
        store: it deletes that user's confirmation. */
    method SignIn(provider: Option<string>, userId: Option<string>) returns (allowed: bool)
      requires Valid()
      modifies this
      ensures Valid()
      ensures (allowed, confirmations) == SignInDecision(old(users), old(confirmations), provider, userId)
      ensures users == old(users) && accounts == old(accounts)
    {
      if provider != Some("credentials") {
        return true;
      }
      if !Truthy(userId) {
        return false;
      }
      var existing := FindUser(users, userId.value);
      if existing.None? || existing.value.emailVerified.None? {
        return false;
      }
      if existing.value.isTwoFactorEnabled {
        if existing.value.id !in confirmations {
          return false;
        }
        confirmations := WithoutConfirmation(confirmations, existing.value.id);
      }
      return true;
    }

    /** The `jwt` callback. An update with a session image sets the picture,
        a signing-in user sets the image claim; then, when `sub` names a
        stored user, the claims are refreshed from that user. */
    method Jwt(token: Token, signingIn: Option<User>, trigger: Option<string>, sessionImage: Option<string>)
      modifies token
      ensures trigger == Some("update") && Truthy(sessionImage) ==> token.picture == sessionImage
      ensures !(trigger == Some("update") && Truthy(sessionImage)) ==> token.picture == old(token.picture)
      ensures signingIn.Some? ==> token.image == signingIn.value.image
      ensures signingIn.None? ==> token.image == old(token.image)
      ensures token.sub == old(token.sub)
      ensures var u := if Truthy(old(token.sub)) then FindUser(users, old(token.sub).value) else None;
        && (u.None? ==>
              && token.name == old(token.name) && token.email == old(token.email)
              && token.role == old(token.role) && token.isTwoFactorEnabled == old(token.isTwoFactorEnabled)
              && token.isOAuth == old(token.isOAuth))
        && (u.Some? ==>
              && token.name == u.value.name && token.email == u.value.email
              && token.role == Some(u.value.role)
              && token.isTwoFactorEnabled == Some(u.value.isTwoFactorEnabled)
              && token.isOAuth == Some(u.value.id in accounts))
    {
      if trigger == Some("update") && Truthy(sessionImage) {
        token.picture := sessionImage;
      }
      if signingIn.Some? {
        token.image := signingIn.value.image;
      }
      if !Truthy(token.sub) {
        return;
      }
      var existing := FindUser(users, token.sub.value);
      if existing.None? {
        return;
      }
      token.isOAuth := Some(existing.value.id in accounts);
      token.name := existing.value.name;
      token.email := existing.value.email;
      token.role := Some(existing.value.role);
      token.isTwoFactorEnabled := Some(existing.value.isTwoFactorEnabled);
    }

    /** The `linkAccount` event: the user's email becomes verified at `now`;
        updating a user that does not exist throws and changes nothing. */
    method LinkAccount(userId: string, now: int) returns (r: Result<User>)
      requires Valid()
      modifies this
      ensures Valid()
      ensures FindUser(old(users), userId).None? ==> r == Err(OtherException) && users == old(users)
      ensures FindUser(old(users), userId).Some? ==>
        && r == Ok(FindUser(old(users), userId).value.(emailVerified := Some(now)))
        && |users| == |old(users)|
        && forall k :: 0 <= k < |users| ==>
             users[k] == if old(users)[k].id == userId then old(users)[k].(emailVerified := Some(now)) else old(users)[k]
      ensures accounts == old(accounts) && confirmations == old(confirmations)
    {
      var i := IndexOfUser(users, userId);
      if i == -1 {
        return Err(OtherException);
      }
      var updated := users[i].(emailVerified := Some(now));
      UniqueUser(users, userId, i);
      users := users[i := updated];
      r := Ok(updated);
    }
  }

  /** The position of the user with id `id`, or -1. */
  function IndexOfUser(users: seq<User>, id: string): (i: int)
    ensures -1 <= i < |users|
    ensures i == -1 <==> forall k :: 0 <= k < |users| ==> users[k].id != id
    ensures i >= 0 ==> users[i].id == id
  {
    LastWhere(users, (u: User) => u.id == id)
  }

  /** With distinct ids, the user found by id is the one at its position. */
  lemma {:induction false} UniqueUser(users: seq<User>, id: string, i: nat)
    requires forall a, b :: 0 <= a < b < |users| ==> users[a].id != users[b].id
    requires i < |users| && users[i].id == id
    ensures FindUser(users, id) == Some(users[i])
  {
    if i > 0 {
      assert users[0].id != id;
      UniqueUser(users[1..], id, i - 1);
    }
  }
}
