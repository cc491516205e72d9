/** The user workflow: registration guarded by a duplicate-email check, and
    lookup by email, over an in-memory user table. */
module UserWorkflow {
  import opened Wrappers
  import opened Domain

  const UserAlreadyExists := "Usuário já existente"

  /** No two users share an email. */
  ghost predicate UniqueEmails(users: seq<User>)
  {
    forall i, j | 0 <= i < |users| && 0 <= j < |users| && i != j :: users[i].email != users[j].email
  }

  /** The first user, in table order, with that email. */
  function FirstWithEmail(users: seq<User>, email: string): (r: Option<User>)
    ensures r.None? <==> forall i | 0 <= i < |users| :: users[i].email != email
    ensures r.Some? ==> r.value in users && r.value.email == email
    decreases |users|
  {
    if users == [] then None
    else if users[0].email == email then Some(users[0])
    else FirstWithEmail(users[1..], email)
  }

  /** Adding a user whose email no stored user has keeps emails unique. */
  lemma AppendNewEmail(users: seq<User>, u: User)
    requires UniqueEmails(users)
    requires FirstWithEmail(users, u.email).None?
    ensures UniqueEmails(users + [u])
  {
  }

  /** The user store the workflows consume. Its database has no unique
      constraint on email: create inserts whatever it is given. */
  class UserRepository {
    var users: seq<User>
    var nextId: nat

    ghost predicate Valid()
      reads this
    {
      && UniqueUserIds(users)
      && (forall i | 0 <= i < |users| :: |users[i].id| <= nextId)
    }

    constructor()
      ensures Valid() && users == []
    {
      users := [];
      nextId := 0;
    }

    /** The user with that email, or null; exact, case-sensitive match. */
    function FindByEmail(email: string): (r: Option<User>)
      reads this
      ensures r.None? <==> forall i | 0 <= i < |users| :: users[i].email != email
      ensures r.Some? ==> r.value in users && r.value.email == email
    {
      FirstWithEmail(users, email)
    }

    /** Inserts one user under a fresh id. */
    method Create(name: string, email: string) returns (u: User)
      requires Valid()
      modifies this
      ensures Valid()
      ensures u == User(GeneratedId(old(nextId)), name, email)
      ensures users == old(users) + [u]
    {
      u := User(GeneratedId(nextId), name, email);
      users := users + [u];
      nextId := nextId + 1;
    }
  }

  class UserUseCase {
    const userRepository: UserRepository

    constructor(repository: UserRepository)
      ensures userRepository == repository
    {
      userRepository := repository;
    }

    /** Registers a user unless one with that email already exists; the check
        comes before the insert, so the table changes only on success. */
    method Create(name: string, email: string) returns (r: Result<User>)
      requires userRepository.Valid()
      modifies userRepository
      ensures userRepository.Valid()
      ensures old(userRepository.FindByEmail(email)).Some? ==>
        r == Err(UserAlreadyExists) && userRepository.users == old(userRepository.users)
      ensures old(userRepository.FindByEmail(email)).None? ==>
        && r.Ok? && r.value.name == name && r.value.email == email
        && userRepository.users == old(userRepository.users) + [r.value]
      ensures old(UniqueEmails(userRepository.users)) ==> UniqueEmails(userRepository.users)
    {
      var existing := userRepository.FindByEmail(email);
      if existing.Some? {
        return Err(UserAlreadyExists);
      }
      ghost var before := userRepository.users;
      var u := userRepository.Create(name, email);
      if UniqueEmails(before) {
        AppendNewEmail(before, u);
      }
      r := Ok(u);
    }

    /** Exactly what the store returns for that email. */
    function FindByEmail(email: string): (r: Option<User>)
      reads userRepository
      ensures r == userRepository.FindByEmail(email)
    {
      userRepository.FindByEmail(email)
    }
  }
}
