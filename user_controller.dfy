/** The user endpoints (server/Controller/userController.js) over the User
    collection: signup, login, the customer list, deletion and the admin's
    status switch. */
module UserController {
  import opened Wrappers
  import opened Records

  /** `findOneAndUpdate({email}, {$set: {status: 'active'}})`; with unique
      emails exactly the one user with that email changes. */
  function Activate(us: seq<User>, email: string): (r: seq<User>)
    ensures |r| == |us|
  {
    seq(|us|, i requires 0 <= i < |us| => if us[i].email == email then us[i].(status := Active) else us[i])
  }

  /** `findByIdAndUpdate(id, {status})`. */
  function SetUserStatus(us: seq<User>, id: Id, st: UserStatus): (r: seq<User>)
    ensures |r| == |us|
  {
    seq(|us|, i requires 0 <= i < |us| => if us[i].id == id then us[i].(status := st) else us[i])
  }

  /** A status change touches only the status of the one user named, and keeps
      both unique indexes. */
  lemma SetUserStatusEffect(us: seq<User>, id: Id, st: UserStatus)
    requires UserIdsUnique(us) && EmailsUnique(us)
    ensures var r := SetUserStatus(us, id, st);
      UserIdsUnique(r) && EmailsUnique(r) &&
      (forall i :: 0 <= i < |us| && us[i].id != id ==> r[i] == us[i]) &&
      (forall i :: 0 <= i < |us| && us[i].id == id ==> r[i].status == st && r[i].(status := us[i].status) == us[i])
  {
    var r := SetUserStatus(us, id, st);
    forall i, j | 0 <= i < j < |r| ensures r[i].id != r[j].id && r[i].email != r[j].email {
      assert UserId(us[i]) != UserId(us[j]) && UserEmail(us[i]) != UserEmail(us[j]);
    }
  }

  /** Logging in changes the status of the one user with the email and nothing else. */
  lemma ActivateEffect(us: seq<User>, email: string)
    requires UserIdsUnique(us) && EmailsUnique(us)
    ensures var r := Activate(us, email);
      UserIdsUnique(r) && EmailsUnique(r) &&
      (forall i :: 0 <= i < |us| && us[i].email != email ==> r[i] == us[i]) &&
      (forall i :: 0 <= i < |us| && us[i].email == email ==> r[i] == us[i].(status := Active))
  {
    var r := Activate(us, email);
    forall i, j | 0 <= i < j < |r| ensures r[i].id != r[j].id && r[i].email != r[j].email {
      assert UserId(us[i]) != UserId(us[j]) && UserEmail(us[i]) != UserEmail(us[j]);
    }
  }

  class UserStore {
    var users: seq<User>

    /** The store's unique index on email and the uniqueness of `_id`. */
    ghost predicate Valid()
      reads this
    {
      UserIdsUnique(users) && EmailsUnique(users)
    }

    constructor ()
      ensures Valid() && users == []
    {
      users := [];
    }

    /** `User.findOne({email})`. */
    function FindByEmail(email: string): (r: Option<User>)
      reads this
      ensures r.Some? ==> r.value in users && r.value.email == email
      ensures r.None? <==> forall u :: u in users ==> u.email != email
    {
      FindBy(users, UserEmail, email)
    }

    /** signup: a second account for an email is refused; otherwise the user is
        stored as an inactive customer with the hashed password. `id`, `salt` and
        `now` stand for the store's fresh `_id`, bcrypt's salt and the clock. */
    method Signup(id: Id, name: string, email: string, password: string, salt: string, now: int)
      returns (r: Reply<User>)
      requires Valid()
      requires forall u :: u in users ==> u.id != id
      modifies this
      ensures Valid()
      ensures (exists u :: u in old(users) && u.email == email) ==>
        r == Failure("User already exists with this email") && users == old(users)
      ensures (forall u :: u in old(users) ==> u.email != email) ==>
        r == Success("User registered successfully",
                     User(id, name, email, Hash(password, salt), "customer", Inactive, now)) &&
        users == old(users) + [r.data]
    {
      var existing := FindByEmail(email);
      if existing.Some? {
        r := Failure("User already exists with this email");
        return;
      }
      var u := User(id, name, email, Hash(password, salt), "customer", Inactive, now);
      ghost var before := users;
      users := users + [u];
      forall i, j | 0 <= i < j < |users| ensures users[i].id != users[j].id && users[i].email != users[j].email {
        if j < |before| {
          assert UserId(before[i]) != UserId(before[j]) && UserEmail(before[i]) != UserEmail(before[j]);
        } else {
          assert before[i] in before;
        }
      }
      r := Success("User registered successfully", u);
    }

    /** login: an unknown email and a wrong password get the same answer; a
        match marks the user active and returns the updated user. */
    method Login(email: string, password: string) returns (r: Reply<User>)
      requires Valid()
      modifies this
      ensures Valid()
      ensures r.Success? <==> exists u :: u in old(users) && u.email == email && Compare(password, u.password)
      ensures r.Failure? ==> r.message == "Invalid email or password" && users == old(users)
      ensures r.Success? ==>
        r.message == "Login successful" && users == Activate(old(users), email) &&
        r.data in users && r.data.status == Active &&
        exists u :: u in old(users) && u.email == email && r.data == u.(status := Active)
    {
      var found := FindByEmail(email);
      if found.None? {
        r := Failure("Invalid email or password");
        return;
      }
      var u := found.value;
      if !Compare(password, u.password) {
        forall v | v in users && v.email == email ensures v == u {
          SameKeySameElement(users, UserEmail, u, v);
        }
        r := Failure("Invalid email or password");
        return;
      }
      ghost var before := users;
      ActivateEffect(users, email);
      users := Activate(users, email);
      ghost var k :| 0 <= k < |before| && before[k] == u;
      assert users[k] == u.(status := Active);
      r := Success("Login successful", u.(status := Active));
    }

    /** getUsers: the customers only, in table order. */
    function GetUsers(): (r: seq<User>)
      reads this
      ensures forall u :: u in r <==> u in users && u.role == "customer"
    {
      Customers(users)
    }

    /** deleteUser: removes the user with `id`, if any, and always reports success. */
    method DeleteUser(id: Id) returns (r: Reply<()>)
      requires Valid()
      modifies this
      ensures Valid()
      ensures r == Success("User deleted successfully", ())
      ensures users == Filter(old(users), (u: User) => u.id != id)
    {
      FilterKeepsKeysUnique(users, (u: User) => u.id != id, UserId);
      FilterKeepsKeysUnique(users, (u: User) => u.id != id, UserEmail);
      users := Filter(users, (u: User) => u.id != id);
      r := Success("User deleted successfully", ());
    }

    /** updateUserStatus: only `active` and `inactive` are accepted; the reply
        carries the updated user, or nothing when no user has the id. */
    method UpdateUserStatus(id: Id, status: string) returns (r: Reply<Option<User>>)
      requires Valid()
      modifies this
      ensures Valid()
      ensures ParseUserStatus(status).None? ==>
        r == Failure("Invalid status value") && users == old(users)
      ensures ParseUserStatus(status).Some? ==>
        r.Success? && r.message == "Status updated successfully" &&
        users == SetUserStatus(old(users), id, ParseUserStatus(status).value) &&
        r.data == FindBy(users, UserId, id)
    {
      var st := ParseUserStatus(status);
      if st.None? {
        r := Failure("Invalid status value");
        return;
      }
      SetUserStatusEffect(users, id, st.value);
      users := SetUserStatus(users, id, st.value);
      r := Success("Status updated successfully", FindBy(users, UserId, id));
    }
  }
}
