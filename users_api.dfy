/** `POST /api/users`: find-or-create of a customer keyed by phone number,
    over the module-level array of users. The random id and the creation
    time of a new user are inputs. */
module UsersApi {

  import opened Wrappers
  import Lists
  import Js

  /** A stored user; name and phone number are kept as they came in the body. */
  datatype User = User(id: string, name: Js.Value, phoneNumber: Js.Value, createdAt: string)

  datatype Response =
    | UserResponse(user: User)
    | ErrorResponse(status: int, error: string)

  const Required := "Name and phone number are required"
  const CreateFailed := "Failed to create user"

  /** `mockUsers.find(user => user.phoneNumber === phoneNumber)` */
  function FindByPhone(users: seq<User>, phone: Js.Value): (r: Option<nat>)
    ensures r.Some? ==> r.value < |users| && Js.StrictEquals(users[r.value].phoneNumber, phone)
    ensures r.Some? ==> forall j :: 0 <= j < r.value ==> !Js.StrictEquals(users[j].phoneNumber, phone)
    ensures r.None? ==> forall i :: 0 <= i < |users| ==> !Js.StrictEquals(users[i].phoneNumber, phone)
  {
    Lists.FindIndex(users, (u: User) => Js.StrictEquals(u.phoneNumber, phone))
  }

  /** The reference behaviour of one request against the store `users`:
      `body` is `None` when the request body is not JSON. */
  function Post(users: seq<User>, body: Option<Js.Value>, newId: string, now: string): (seq<User>, Response) {
    if body.None? || Js.Field(body.value, "name").None? then (users, ErrorResponse(500, CreateFailed))
    else
      var name := Js.Field(body.value, "name").value;
      var phone := Js.Field(body.value, "phoneNumber").value;
      if !Js.Truthy(name) || !Js.Truthy(phone) then (users, ErrorResponse(400, Required))
      else
        match FindByPhone(users, phone)
        case Some(i) => (users, UserResponse(users[i]))
        case None =>
          var u := User(newId, name, phone, now);
          (users + [u], UserResponse(u))
  }

  /** No two stored users have strictly equal phone numbers. */
  ghost predicate DistinctPhones(users: seq<User>) {
    forall i, j :: 0 <= i < j < |users| ==> !Js.StrictEquals(users[i].phoneNumber, users[j].phoneNumber)
  }

  /** A body that is not JSON, or is `null`, is a 500 and a missing or falsy
      name or phone number a 400; neither touches the store. */
  lemma PostRejects(users: seq<User>, body: Option<Js.Value>, newId: string, now: string)
    ensures var (after, resp) := Post(users, body, newId, now);
      && (body.None? || body.value.Null? ==> after == users && resp == ErrorResponse(500, CreateFailed))
      && (body.Some? && !body.value.Null? && !body.value.Undefined? &&
          (!Js.Truthy(Js.Field(body.value, "name").value) || !Js.Truthy(Js.Field(body.value, "phoneNumber").value))
          ==> after == users && resp == ErrorResponse(400, Required))
  {
  }

  /** A known phone number returns the first user holding it, whatever the
      name in the request, and adds nothing; an unknown one appends exactly
      one user with the given fields and returns it. */
  lemma PostFindOrCreate(users: seq<User>, fields: map<string, Js.Value>, newId: string, now: string)
    requires "name" in fields && "phoneNumber" in fields
    requires Js.Truthy(fields["name"]) && Js.Truthy(fields["phoneNumber"])
    ensures var (after, resp) := Post(users, Some(Js.Obj(fields)), newId, now);
      var phone := fields["phoneNumber"];
      if exists i :: 0 <= i < |users| && Js.StrictEquals(users[i].phoneNumber, phone) then
        && after == users && resp.UserResponse?
        && (exists i :: 0 <= i < |users| && resp.user == users[i]
                        && Js.StrictEquals(users[i].phoneNumber, phone)
                        && forall j :: 0 <= j < i ==> !Js.StrictEquals(users[j].phoneNumber, phone))
      else
        after == users + [User(newId, fields["name"], phone, now)] && resp == UserResponse(after[|users|])
  {
    var phone := fields["phoneNumber"];
    match FindByPhone(users, phone)
    case Some(i) =>
      assert Lists.FindIndex(users, (u: User) => Js.StrictEquals(u.phoneNumber, phone)) == Some(i);
    case None =>
  }

  /** Every request keeps the phone numbers distinct, never changes or
      reorders a stored user, and adds at most one. */
  lemma PostPreserves(users: seq<User>, body: Option<Js.Value>, newId: string, now: string)
    requires DistinctPhones(users)
    ensures var (after, _) := Post(users, body, newId, now);
      && DistinctPhones(after)
      && |users| <= |after| <= |users| + 1
      && after[..|users|] == users
  {
    var (after, _) := Post(users, body, newId, now);
    if |after| > |users| {
      var phone := after[|users|].phoneNumber;
      assert FindByPhone(users, phone).None?;
      assert after[..|users|] == users;
    }
  }

  /** The module-level array behind the route. */
  class UserStore {
    var users: seq<User>

    constructor()
      ensures users == []
    {
      users := [];
    }

    /** The route handler: parse, validate, find, and push only when the
        phone number is new. */
    method HandlePost(body: Option<Js.Value>, newId: string, now: string) returns (resp: Response)
      modifies this`users
      ensures (users, resp) == Post(old(users), body, newId, now)
    {
      if body.None? {
        resp := ErrorResponse(500, CreateFailed);
        return;
      }
      var name := Js.Field(body.value, "name");
      var phoneNumber := Js.Field(body.value, "phoneNumber");
      if name.None? {
        resp := ErrorResponse(500, CreateFailed);
        return;
      }
      if !Js.Truthy(name.value) || !Js.Truthy(phoneNumber.value) {
        resp := ErrorResponse(400, Required);
        return;
      }
      var existing := FindByPhone(users, phoneNumber.value);
      if existing.Some? {
        resp := UserResponse(users[existing.value]);
        return;
      }
      var newUser := User(newId, name.value, phoneNumber.value, now);
      users := users + [newUser];
      resp := UserResponse(newUser);
    }
  }
}
