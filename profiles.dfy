/** The User table row (a CampusEaters profile) that the profile routes, the
    session helper and the views share. */
module Profiles {
  import opened Util

  datatype Role = USER | ADMIN | RESTAURANT

  /** One row of the User table; `phoneNumber` and `restaurantId` are nullable. */
  datatype User = User(
    id: string,
    email: string,
    firstName: string,
    lastName: string,
    phoneNumber: Option<string>,
    role: Role,
    restaurantId: Option<string>)

  /** No two rows share an email: the column is unique. */
  ghost predicate UniqueEmails(users: seq<User>) {
    forall i, j :: 0 <= i < j < |users| ==> users[i].email != users[j].email
  }

  /** `findUnique({ where: { email } })`. */
  function FindByEmail(users: seq<User>, email: string): (r: Option<User>)
    ensures r.None? <==> forall u :: u in users ==> u.email != email
    ensures r.Some? ==> r.value in users && r.value.email == email
  {
    if users == [] then None
    else if users[0].email == email then Some(users[0])
    else
      assert forall u :: u in users ==> u == users[0] || u in users[1..];
      FindByEmail(users[1..], email)
  }

  /** With unique emails the row found is the only row with that email. */
  lemma FindByEmailUnique(users: seq<User>, email: string, i: nat)
    requires UniqueEmails(users)
    requires i < |users| && users[i].email == email
    ensures FindByEmail(users, email) == Some(users[i])
  {
    var r := FindByEmail(users, email);
    assert users[i] in users;
    var j :| 0 <= j < |users| && users[j] == r.value;
  }
}
