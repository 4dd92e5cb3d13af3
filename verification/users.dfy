/**
  The User model: its schema constraints, its default projection and the lookup by e-mail.
 */
module Users {
  import opened Common
  import opened Text

  /** `fullname.firstname` and `fullname.lastname`; either may be absent from a request. */
  datatype Fullname = Fullname(firstname: Option<string>, lastname: Option<string>)

  /** A stored user. `password` holds the bcrypt digest. */
  datatype User = User(fullname: Fullname, email: string, password: string)

  /** A user document as handlers see and serialise it. `password` is `None` when the
      default projection (`select: false`) left it out. */
  datatype UserDoc = UserDoc(id: Id, fullname: Fullname, email: string, password: Option<string>)

  /** `findById` and other default reads: the password field is not selected. */
  function Read(id: Id, u: User): (d: UserDoc)
    ensures d.password.None?
    ensures d.id == id && d.fullname == u.fullname && d.email == u.email
  {
    UserDoc(id, u.fullname, u.email, None)
  }

  /** A read with `.select("+password")`, or the document `create` returns. */
  function ReadWithPassword(id: Id, u: User): (d: UserDoc)
    ensures d.password == Some(u.password)
    ensures d.id == id && d.fullname == u.fullname && d.email == u.email
  {
    UserDoc(id, u.fullname, u.email, Some(u.password))
  }

  /** `minlength: 3` on both name parts. */
  const NameMinLength: nat := 3

  /** The `minlength` validator: an absent value is not checked, a present one must be long
      enough. */
  predicate LongEnough(name: Option<string>) {
    name.None? || JsLength(name.value) >= NameMinLength
  }

  /** The schema's validators. The first name's `required` key is misspelled `requried`, so
      neither name part is required; `email` and `password` are required, which for a string
      means non-empty. */
  predicate MeetsSchema(u: User) {
    && LongEnough(u.fullname.firstname)
    && LongEnough(u.fullname.lastname)
    && u.email != ""
    && u.password != ""
  }

  /** A user without any name passes validation: the misspelled key makes nothing required. */
  lemma NamesAreOptional(email: string, digest: string)
    requires email != "" && digest != ""
    ensures MeetsSchema(User(Fullname(None, None), email, digest))
  {
  }

  /** The unique index on `email`: no two stored users share an address. */
  ghost predicate UniqueEmails(users: map<Id, User>) {
    forall a, b :: a in users && b in users && users[a].email == users[b].email ==> a == b
  }

  /** `findOne({email})`: the first user, in scan order, with that exact address. */
  function FindByEmail(users: map<Id, User>, order: seq<Id>, email: string): (r: Option<Id>)
    ensures r.Some? ==> r.value in users && users[r.value].email == email && r.value in order
    ensures r.None? ==> forall i :: 0 <= i < |order| && order[i] in users ==> users[order[i]].email != email
  {
    if order == [] then None
    else if order[0] in users && users[order[0]].email == email then Some(order[0])
    else FindByEmail(users, order[1..], email)
  }

  /** Under the unique index, the lookup finds exactly the user holding the address. */
  lemma FindByEmailExact(users: map<Id, User>, order: seq<Id>, id: Id)
    requires Enumerates(order, users)
    requires UniqueEmails(users)
    requires id in users
    ensures FindByEmail(users, order, users[id].email) == Some(id)
  {
    var k :| 0 <= k < |order| && order[k] == id;
  }

  /** The lookup fails exactly when no stored user has the address. */
  lemma FindByEmailAbsent(users: map<Id, User>, order: seq<Id>, email: string)
    requires Enumerates(order, users)
    ensures FindByEmail(users, order, email).None? <==> forall id :: id in users ==> users[id].email != email
  {
    if FindByEmail(users, order, email).None? {
      forall id | id in users
        ensures users[id].email != email
      {
        var k :| 0 <= k < |order| && order[k] == id;
      }
    }
  }
}
