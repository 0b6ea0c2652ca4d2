/** Account rules shared by `signup` (user/views.py) and `distributor_signup` /
    `distributor_login` (distibutor/views.py): the four signup rejections, the
    uniqueness the User table keeps, and the e-mail-then-phone account lookup. */
module Accounts {
  import opened Common
  import opened Models

  /** The fields both signup forms submit. */
  datatype SignupForm = SignupForm(username: string, email: string, phone: string, password: string, confirmPassword: string)

  /** `len(phone) == 10 and phone.isdigit()`, for ASCII digits. */
  predicate IsMobileNumber(phone: string)
  {
    |phone| == 10 && forall i :: 0 <= i < |phone| ==> '0' <= phone[i] <= '9'
  }

  predicate EmailRegistered(users: map<UserId, User>, email: string)
  {
    exists id :: id in users && users[id].email == email
  }

  predicate PhoneRegistered(users: map<UserId, User>, phone: string)
  {
    exists id :: id in users && users[id].phone == phone
  }

  predicate UsernameRegistered(users: map<UserId, User>, username: string)
  {
    exists id :: id in users && users[id].username == username
  }

  /** The User table: ids below the next id to hand out; username, e-mail and
      phone each unique (the `unique=True` columns). */
  ghost predicate AccountsValid(users: map<UserId, User>, nextId: nat)
  {
    && (forall id :: id in users ==> id < nextId)
    && (forall a, b :: a in users && b in users && a != b ==>
          users[a].username != users[b].username
          && users[a].email != users[b].email
          && users[a].phone != users[b].phone)
  }

  /** The validation both signup views run, in their order: passwords, phone
      format, e-mail, phone. `None` means the form is accepted. */
  function SignupCheck(users: map<UserId, User>, form: SignupForm): (r: Option<Failure>)
    ensures r == None <==>
      form.password == form.confirmPassword && IsMobileNumber(form.phone)
      && !EmailRegistered(users, form.email) && !PhoneRegistered(users, form.phone)
    ensures r == Some(PasswordMismatch) <==> form.password != form.confirmPassword
    ensures r == Some(InvalidPhone) <==> form.password == form.confirmPassword && !IsMobileNumber(form.phone)
    ensures r == Some(EmailTaken) ==> EmailRegistered(users, form.email)
    ensures r == Some(PhoneTaken) ==> PhoneRegistered(users, form.phone) && !EmailRegistered(users, form.email)
    ensures r.Some? ==> r.value == PasswordMismatch || r.value == InvalidPhone || r.value == EmailTaken || r.value == PhoneTaken
  {
    if form.password != form.confirmPassword then Some(PasswordMismatch)
    else if !IsMobileNumber(form.phone) then Some(InvalidPhone)
    else if EmailRegistered(users, form.email) then Some(EmailTaken)
    else if PhoneRegistered(users, form.phone) then Some(PhoneTaken)
    else None
  }

  /** The row `create_user` inserts for an accepted form. */
  function NewAccount(form: SignupForm, userType: string): (u: User)
  {
    User(form.username, form.email, form.phone, userType)
  }

  /** An accepted signup whose username is free keeps every account identity unique. */
  lemma SignupKeepsAccountsUnique(users: map<UserId, User>, nextId: nat, form: SignupForm, userType: string)
    requires AccountsValid(users, nextId)
    requires SignupCheck(users, form) == None && !UsernameRegistered(users, form.username)
    ensures AccountsValid(users[nextId := NewAccount(form, userType)], nextId + 1)
  {
    var users' := users[nextId := NewAccount(form, userType)];
    forall a, b | a in users' && b in users' && a != b
      ensures users'[a].username != users'[b].username
      ensures users'[a].email != users'[b].email
      ensures users'[a].phone != users'[b].phone
    {
      if a == nextId {
        assert b in users;
      } else if b == nextId {
        assert a in users;
      }
    }
  }

  /** The lookup both login views make: `User.objects.get(email=key)`, and only
      when no e-mail matches, `User.objects.get(phone=key)`. */
  method FindAccount(users: map<UserId, User>, key: string) returns (r: Option<UserId>)
    ensures r.None? <==> !EmailRegistered(users, key) && !PhoneRegistered(users, key)
    ensures r.Some? ==> r.value in users
    ensures EmailRegistered(users, key) ==> r.Some? && users[r.value].email == key
    ensures r.Some? && !EmailRegistered(users, key) ==> users[r.value].phone == key
  {
    if exists id :: id in users && users[id].email == key {
      var id :| id in users && users[id].email == key;
      r := Some(id);
    } else if exists id :: id in users && users[id].phone == key {
      var id :| id in users && users[id].phone == key;
      r := Some(id);
    } else {
      r := None;
    }
  }
}
