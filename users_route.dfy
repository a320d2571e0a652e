/** The admin-user endpoints over the user collection: the list and lookup
    with a made-up last login and status, creation with a unique username
    and a default role, partial update of the fields the body sets, and
    deletion. The random day count is an input (a draw in [0, 1) per user),
    and days are whole day numbers. */
module UsersRoute {
  import opened Common
  import opened Store

  /** A stored user. `role` is what was given to the model; a user
      created without one (as the seeding script does) has none here. */
  datatype User = User(username: string, password: string, role: Option<string>)

  /** A user as the list and lookup send it. The type has no password:
      `{password: 0}` leaves it out. */
  datatype UserView = UserView(id: Id, username: string, role: Option<string>, lastLogin: int, status: string)

  /** The body of POST and PUT: each field as sent, if sent. */
  datatype UserBody = UserBody(username: Option<string>, password: Option<string>, role: Option<string>)

  const NotFoundMessage: string := "User not found"
  const TakenMessage: string := "Username already exists"

  /** `Math.floor(Math.random() * 30)`. */
  function DaysAgo(draw: real): (d: nat)
    requires 0.0 <= draw < 1.0
    ensures d <= 29
  {
    (draw * 30.0).Floor
  }

  /** The decoration of one user: last login `DaysAgo` days before today,
      and active exactly when that is at most seven days. */
  function Decorate(e: Entry<User>, today: int, draw: real): (v: UserView)
    requires 0.0 <= draw < 1.0
    ensures v.id == e.id && v.username == e.doc.username && v.role == e.doc.role
    ensures today - 29 <= v.lastLogin <= today && v.lastLogin == today - DaysAgo(draw)
    ensures v.status == "active" <==> today - v.lastLogin <= 7
    ensures v.status == "active" || v.status == "inactive"
  {
    var days := DaysAgo(draw);
    UserView(e.id, e.doc.username, e.doc.role, today - days, if days <= 7 then "active" else "inactive")
  }

  /** The view ignores the stored password: two users that differ only in
      it look the same. */
  lemma DecorateHidesPassword(id: Id, u: User, password: string, today: int, draw: real)
    requires 0.0 <= draw < 1.0
    ensures Decorate(Entry(id, u), today, draw) == Decorate(Entry(id, u.(password := password)), today, draw)
  {
  }

  predicate HasName(name: string, u: User) {
    u.username == name
  }

  /** No two stored users share a username. */
  ghost predicate UniqueNames(t: Table<User>) {
    forall a, b :: a in t.docs && b in t.docs && t.docs[a].username == t.docs[b].username ==> a == b
  }

  /** A user as create and update send it back: no password. */
  datatype PublicUser = PublicUser(id: Id, username: string, role: Option<string>)

  datatype CreateReply = UserCreated(user: PublicUser) | UsernameTaken | CreateFailed

  /** PUT reply: the updated user, 404, or the 400 of an update that
      throws (a validator, a duplicate key or a malformed id). */
  datatype UpdateReply = UserUpdated(user: PublicUser) | UpdateMissing | UpdateFailed

  /** GET /:id reply: the decorated user, 404, or the 500 of a lookup that
      throws. */
  datatype GetReply = Found(view: UserView) | Missing | GetFailed

  /** DELETE reply: done, 404, or the 500 of a delete that throws. */
  datatype DeleteReply = Deleted | DeleteMissing | DeleteFailed

  /** `if (x) updateData.x = x`: a field the body sets to a non-empty value
      replaces the stored one. */
  function Apply(u: User, b: UserBody): (r: User)
    ensures r.username == OrElse(b.username, u.username)
    ensures r.password == OrElse(b.password, u.password)
    ensures r.role == if Truthy(b.role) then b.role else u.role
  {
    User(if Truthy(b.username) then b.username.value else u.username,
         if Truthy(b.password) then b.password.value else u.password,
         if Truthy(b.role) then b.role else u.role)
  }

  /** A body with nothing truthy changes nothing, and applying the same
      body twice is applying it once. */
  lemma ApplyProperties(u: User, b: UserBody)
    ensures !Truthy(b.username) && !Truthy(b.password) && !Truthy(b.role) ==> Apply(u, b) == u
    ensures Apply(Apply(u, b), b) == Apply(u, b)
  {
  }

  class UsersRouter {
    var users: Table<User>

    ghost predicate Valid()
      reads this
    {
      users.Valid()
    }

    constructor ()
      ensures Valid() && users.docs == map[]
    {
      users := Empty();
    }

    /** GET /: every user, in store order, each with its own draw.
        `fails` stands for a store fault, answered with 500. */
    method List(today: int, draws: seq<real>, fails: bool) returns (r: Result<seq<UserView>, string>)
      requires Valid()
      requires |draws| == |users.order|
      requires forall k :: 0 <= k < |draws| ==> 0.0 <= draws[k] < 1.0
      ensures r.Err? <==> fails
      ensures r.Err? ==> r.error == "Failed to fetch users"
      ensures r.Ok? ==> |r.value| == |users.order|
      ensures r.Ok? ==> forall k :: 0 <= k < |r.value| ==>
        r.value[k] == Decorate(Entry(users.order[k], users.docs[users.order[k]]), today, draws[k])
    {
      if fails {
        return Err("Failed to fetch users");
      }
      var es := Entries(users);
      r := Ok(seq(|es|, k requires 0 <= k < |es| => Decorate(es[k], today, draws[k])));
    }

    /** GET /:id. `fails` stands for an id that does not cast or a store
        fault, answered with 500. */
    method Get(id: Id, today: int, draw: real, fails: bool) returns (r: GetReply)
      requires Valid() && 0.0 <= draw < 1.0
      ensures r.GetFailed? <==> fails
      ensures r.Found? <==> !fails && id in users.docs
      ensures r.Found? ==> r.view == Decorate(Entry(id, users.docs[id]), today, draw)
    {
      if fails {
        r := GetFailed;
      } else if id in users.docs {
        r := Found(Decorate(Entry(id, users.docs[id]), today, draw));
      } else {
        r := Missing;
      }
    }

    /** POST /. `lookupFails` is a store fault during the username lookup,
        answered with 400. A taken username is refused before anything is
        stored. A body without a username or password, or a store fault,
        fails the save (`saveFails`; the user model's own rules are not
        part of this model). The role defaults to `admin`. */
    method Create(b: UserBody, lookupFails: bool, saveFails: bool) returns (r: CreateReply)
      requires Valid()
      modifies this
      ensures Valid()
      ensures lookupFails ==> r == CreateFailed
      ensures !lookupFails && b.username.Some? && FindOne(old(users), u => HasName(b.username.value, u)).Some? ==>
        r == UsernameTaken && users == old(users)
      ensures r.UsernameTaken? ==> b.username.Some? && exists id :: id in old(users.docs) && old(users.docs)[id].username == b.username.value
      ensures r.CreateFailed? ==> users == old(users)
      ensures b.username.Some? && b.password.Some? && !lookupFails && !saveFails && FindOne(old(users), u => HasName(b.username.value, u)).None? ==>
        r.UserCreated?
      ensures r.UserCreated? ==>
        && b.username.Some? && b.password.Some? && !lookupFails && !saveFails
        && var u := User(b.username.value, b.password.value, Some(OrElse(b.role, "admin")));
        && r.user == PublicUser(r.user.id, u.username, u.role)
        && r.user.id !in old(users.docs)
        && users.docs == old(users.docs)[r.user.id := u]
      ensures UniqueNames(old(users)) ==> UniqueNames(users)
    {
      if lookupFails {
        return CreateFailed;
      }
      if b.username.Some? && FindOne(users, u => HasName(b.username.value, u)).Some? {
        return UsernameTaken;
      }
      if b.username.None? || b.password.None? || saveFails {
        return CreateFailed;
      }
      var role := OrElse(b.role, "admin");
      var u := User(b.username.value, b.password.value, Some(role));
      var (t, id) := Insert(users, u);
      users := t;
      r := UserCreated(PublicUser(id, u.username, u.role));
    }

    /** PUT /:id: only the truthy fields change; the reply has no password.
        `saveFails` stands for any error the update throws (the user
        model's validators, a duplicate key, an id that does not cast),
        which the handler answers with 400 before any 404. */
    method Update(id: Id, b: UserBody, saveFails: bool) returns (r: UpdateReply)
      requires Valid()
      modifies this
      ensures Valid()
      ensures saveFails ==> r == UpdateFailed && users == old(users)
      ensures r.UpdateFailed? ==> saveFails
      ensures r.UpdateMissing? <==> !saveFails && id !in old(users.docs)
      ensures r.UpdateMissing? ==> users == old(users)
      ensures !saveFails && id in old(users.docs) ==> r.UserUpdated?
      ensures r.UserUpdated? ==>
        && var u := Apply(old(users.docs)[id], b);
        && users.docs == old(users.docs)[id := u]
        && users.order == old(users.order)
        && r.user == PublicUser(id, u.username, u.role)
    {
      if saveFails {
        return UpdateFailed;
      }
      if id !in users.docs {
        return UpdateMissing;
      }
      var u := Apply(users.docs[id], b);
      users := Replace(users, id, u);
      r := UserUpdated(PublicUser(id, u.username, u.role));
    }

    /** DELETE /:id. `fails` stands for an id that does not cast or a
        store fault, answered with 500. */
    method Delete(id: Id, fails: bool) returns (r: DeleteReply)
      requires Valid()
      modifies this
      ensures Valid()
      ensures r == DeleteFailed <==> fails
      ensures r == Deleted <==> !fails && id in old(users.docs)
      ensures r == Deleted ==> users == Remove(old(users), id) && users.docs == old(users.docs) - {id}
      ensures r != Deleted ==> users == old(users)
    {
      if fails {
        r := DeleteFailed;
      } else if id in users.docs {
        users := Remove(users, id);
        r := Deleted;
      } else {
        r := DeleteMissing;
      }
    }
  }
}
