/** The user management page: its user list, the add-user form and the
    marker of the row whose type is being edited, with the add, change-type
    and remove handlers. */
module Users {

  import opened Wrappers
  import opened Text
  import Lists
  import FreshIds

  datatype UserType = Admin | Operator
  datatype UserStatus = Active | Inactive

  datatype User = User(id: string, name: string, email: string,
                       userType: UserType, status: UserStatus, lastLogin: string)

  /** The add-user form. */
  datatype Form = Form(email: string, userType: UserType)

  /** The page state: users, form, and the id being edited (`null` is
      `None`). */
  datatype Page = Page(users: seq<User>, form: Form, editing: Option<string>)

  const EmptyForm: Form := Form("", Operator)

  /** The ids, in list order. */
  function Ids(users: seq<User>): seq<string> {
    Lists.Map(users, (x: User) => x.id)
  }

  /** `U${String(n).padStart(3, "0")}`. */
  function UserId(n: nat): string {
    "U" + PadStart(NatToDecimal(n), 3, '0')
  }

  /** The number a user id was made from. */
  function UserNumber(id: string): nat {
    if |id| >= 1 then ParseDecimal(id[1..]) else 0
  }

  /** A user id reads back as the number it was made from. */
  lemma UserNumberOfId(n: nat)
    ensures UserNumber(UserId(n)) == n
  {
    assert UserId(n)[1..] == PadStart(NatToDecimal(n), 3, '0');
    PaddedDecimalValue(n, 3);
  }

  /** A user id is `U` followed by at least three digits. */
  lemma UserIdShape(n: nat)
    ensures |UserId(n)| >= 4 && UserId(n)[0] == 'U'
    ensures var digits := UserId(n)[1..];
      forall i :: 0 <= i < |digits| ==> IsDigit(digits[i])
  {
    assert UserId(n)[1..] == PadStart(NatToDecimal(n), 3, '0');
    PaddedDigits(NatToDecimal(n), 3);
  }

  /** `email.split("@")[0]`: the email up to its first `@`, all of it when
      there is none. */
  function NameFromEmail(email: string): (name: string)
    ensures name == email[..IndexOf(email, '@')]
    ensures '@' !in name
  {
    SplitFirst(email, '@');
    Split(email, '@')[0]
  }

  /** The name is the local part of an address. */
  lemma NameIsLocalPart(local: string, domain: string)
    requires '@' !in local
    ensures NameFromEmail(local + "@" + domain) == local
  {
    SplitCons(local, domain, '@');
  }

  /** The user `handleAddUser` appends for a non-empty email, numbered
      `n`. */
  function NewUser(n: nat, form: Form): User {
    User(UserId(n), NameFromEmail(form.email), form.email, form.userType, Active, "Never")
  }

  /** Adding the user numbered `n`: with an empty email nothing happens.
      Otherwise one user is appended, with the id `U` and `n` padded to
      three digits, named after the address, active, never logged in, and
      the form is cleared. */
  function AddNumbered(page: Page, n: nat): (r: Page)
    ensures page.form.email == "" ==> r == page
    ensures page.form.email != "" ==>
      && |r.users| == |page.users| + 1
      && r.users[..|page.users|] == page.users
      && r.users[|page.users|].id == UserId(n)
      && UserNumber(r.users[|page.users|].id) == n
      && r.users[|page.users|].email == page.form.email
      && r.users[|page.users|].name == page.form.email[..IndexOf(page.form.email, '@')]
      && r.users[|page.users|].userType == page.form.userType
      && r.users[|page.users|].status == Active
      && r.users[|page.users|].lastLogin == "Never"
      && r.form == EmptyForm
      && r.editing == page.editing
  {
    if page.form.email == "" then page
    else
      UserNumberOfId(n);
      var r := page.(users := page.users + [NewUser(n, page.form)], form := EmptyForm);
      assert r.users[..|page.users|] == page.users;
      r
  }

  /** `handleAddUser`: the new user is numbered one past the current
      count. */
  function AddUser(page: Page): (r: Page)
    ensures page.form.email == "" ==> r == page
    ensures page.form.email != "" ==>
      && |r.users| == |page.users| + 1
      && r.users[..|page.users|] == page.users
      && r.users[|page.users|].id == UserId(|page.users| + 1)
      && UserNumber(r.users[|page.users|].id) == |page.users| + 1
  {
    AddNumbered(page, |page.users| + 1)
  }

  /** `handleUpdateUserType`: every user with this id gets the new type,
      nothing else about the users changes, and the editing marker is
      cleared. */
  function UpdateUserType(page: Page, id: string, t: UserType): (r: Page)
    ensures |r.users| == |page.users|
    ensures forall i :: 0 <= i < |page.users| && page.users[i].id != id ==> r.users[i] == page.users[i]
    ensures forall i :: 0 <= i < |page.users| && page.users[i].id == id ==>
      r.users[i] == page.users[i].(userType := t)
    ensures r.editing == None && r.form == page.form
  {
    page.(users := Lists.MapWhere(page.users, (u: User) => u.id == id, (u: User) => u.(userType := t)),
          editing := None)
  }

  /** `handleRemoveUser`: every user with this id goes, the others stay in
      order. */
  function RemoveUser(page: Page, id: string): (r: Page)
    ensures forall u :: u in r.users <==> u in page.users && u.id != id
    ensures forall u ::
      Lists.Occurrences(r.users, u) == if u.id != id then Lists.Occurrences(page.users, u) else 0
    ensures Lists.IsSubsequence(r.users, page.users)
    ensures r.form == page.form && r.editing == page.editing
  {
    page.(users := Lists.Filter(page.users, (u: User) => u.id != id))
  }

  /** The new id depends on the number of users only, not on the ids they
      carry. */
  lemma NewIdDependsOnCountOnly(p1: Page, p2: Page)
    requires |p1.users| == |p2.users|
    requires p1.form.email != "" && p2.form.email != ""
    ensures AddUser(p1).users[|p1.users|].id == AddUser(p2).users[|p2.users|].id
  {
  }

  // ---------------------------------------------------------------------
  // Numbering by count reuses ids after a removal

  /** The three users the page starts with. */
  const Seed: seq<User> := [
    User("U001", "John Doe", "john.doe@microgrid.com", Admin, Active, "2 hours ago"),
    User("U002", "Jane Smith", "jane.smith@microgrid.com", Operator, Active, "1 day ago"),
    User("U003", "Mike Johnson", "mike.johnson@microgrid.com", Operator, Inactive, "1 week ago")]

  /** The third id is `U003`. */
  lemma ThirdId()
    ensures UserId(3) == "U003"
  {
    assert NatToDecimal(3) == "3";
    assert Repeat('0', 2) == "00";
  }

  /** Removing `U001` from the starting list leaves the other two. */
  lemma RemoveFirstSeed(form: Form)
    ensures RemoveUser(Page(Seed, form, None), "U001").users == [Seed[1], Seed[2]]
  {
    var keep := (u: User) => u.id != "U001";
    assert !keep(Seed[0]) && keep(Seed[1]) && keep(Seed[2]);
    assert Seed[1..][1..] == [Seed[2]];
    assert Lists.Filter(Seed[1..][1..], keep) == [Seed[2]];
  }

  /** Removing `U003` after the add deletes both users carrying it. */
  lemma RemoveDuplicated(page: Page)
    requires var users := page.users;
      |users| == 3 && users[0] == Seed[1] && users[1].id == "U003" && users[2].id == "U003"
    ensures RemoveUser(page, "U003").users == [Seed[1]]
  {
    var users := page.users;
    var keep := (u: User) => u.id != "U003";
    assert keep(users[0]) && !keep(users[1]) && !keep(users[2]);
    assert users[1..][1..] == [users[2]];
    assert Lists.Filter(users[1..][1..], keep) == [];
  }

  /** The starting page with an address typed into the form. */
  const SeedPage: Page := Page(Seed, Form("ops@microgrid.com", Operator), None)

  /** Adding to a list of two appends the user numbered 3. */
  lemma AddToTwo(page: Page)
    requires page.users == [Seed[1], Seed[2]] && page.form.email != ""
    ensures AddUser(page).users == [Seed[1], Seed[2], NewUser(3, page.form)]
    ensures NewUser(3, page.form).id == "U003"
  {
    ThirdId();
    assert AddUser(page).users[..2] == page.users;
  }

  /** Removing `U001` from the starting list and adding a user gives the
      new user the id `U003`, which `Mike Johnson` still has. */
  lemma AddAfterRemoveDuplicatesId()
    ensures var added := AddUser(RemoveUser(SeedPage, "U001")).users;
      |added| == 3 && added[1].id == "U003" && added[2].id == "U003"
  {
    RemoveFirstSeed(SeedPage.form);
    AddToTwo(RemoveUser(SeedPage, "U001"));
  }

  /** After that add, removing `U003` deletes both users carrying it. */
  lemma RemoveAfterDuplicateDeletesBoth()
    ensures RemoveUser(AddUser(RemoveUser(SeedPage, "U001")), "U003").users == [Seed[1]]
  {
    RemoveFirstSeed(SeedPage.form);
    AddToTwo(RemoveUser(SeedPage, "U001"));
    RemoveDuplicated(AddUser(RemoveUser(SeedPage, "U001")));
  }

  /** Numbering that never reuses an id: the least number from one past
      the count whose id is free. It agrees with `AddUser` whenever that
      one's id is free, and otherwise skips to the next free number. */
  method AddUserFreshId(page: Page) returns (r: Page, n: nat)
    ensures r == AddNumbered(page, n)
    ensures n >= |page.users| + 1
    ensures UserId(n) !in Ids(page.users)
    ensures forall k :: |page.users| + 1 <= k < n ==> UserId(k) in Ids(page.users)
    ensures UserId(|page.users| + 1) !in Ids(page.users) ==> r == AddUser(page)
    ensures Lists.Distinct(Ids(page.users)) ==> Lists.Distinct(Ids(r.users))
  {
    forall k: nat ensures UserNumber(UserId(k)) == k {
      UserNumberOfId(k);
    }
    n := FreshIds.LeastFree(Ids(page.users), UserId, UserNumber, |page.users| + 1);
    r := AddNumbered(page, n);
    AddNumberedKeepsDistinct(page, n);
  }

  /** Adding under a number whose id is free keeps distinct ids
      distinct. */
  lemma AddNumberedKeepsDistinct(page: Page, n: nat)
    ensures Lists.Distinct(Ids(page.users)) && UserId(n) !in Ids(page.users) ==>
      Lists.Distinct(Ids(AddNumbered(page, n).users))
  {
    if page.form.email != "" && Lists.Distinct(Ids(page.users)) && UserId(n) !in Ids(page.users) {
      FreshIdKeepsIdsDistinct(page, AddNumbered(page, n));
    }
  }

  /** With fresh numbering, the ids of the list stay distinct. */
  lemma FreshIdKeepsIdsDistinct(page: Page, r: Page)
    requires Lists.Distinct(Ids(page.users))
    requires |r.users| == |page.users| + 1 && r.users[..|page.users|] == page.users
    requires r.users[|page.users|].id !in Ids(page.users)
    ensures Lists.Distinct(Ids(r.users))
  {
    var before, after := Ids(page.users), Ids(r.users);
    forall i, j | 0 <= i < j < |after| ensures after[i] != after[j] {
      assert r.users[i] == page.users[i];
      assert after[i] == before[i];
      if j < |page.users| {
        assert r.users[j] == page.users[j];
      }
    }
  }
}
