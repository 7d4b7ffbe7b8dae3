/**
 * The relational store behind the TypeORM repositories: the users table and
 * the ideas table (with its follower join rows), held in insertion order, and
 * the `findOneBy` lookups the services run against them. A lookup returns the
 * first row that matches; under the table constraints that is the only one.
 */
module Db {
  import opened Wrappers
  import opened Errors
  import opened UserEntity
  import opened IdeaEntity

  /**
   * `findOneBy` on one column: the index of the first row whose `key` is `k`,
   * None when no row has it.
   */
  function FirstIndex<T, K(==)>(rows: seq<T>, key: T -> K, k: K): (r: Option<nat>)
    ensures r.Some? ==> r.value < |rows| && key(rows[r.value]) == k
    ensures r.Some? ==> forall j :: 0 <= j < r.value ==> key(rows[j]) != k
    ensures r.None? ==> forall j :: 0 <= j < |rows| ==> key(rows[j]) != k
  {
    if rows == [] then None
    else if key(rows[0]) == k then Some(0)
    else match FirstIndex(rows[1..], key, k)
      case Some(i) => Some(i + 1)
      case None => None
  }

  /** `findOneBy({ id })` on the users table, as the index of the row found. */
  function IndexOfId(users: seq<User>, id: UserId): (r: Option<nat>)
    ensures r.Some? ==> r.value < |users| && users[r.value].id == id
    ensures r.Some? ==> forall j :: 0 <= j < r.value ==> users[j].id != id
    ensures r.None? ==> forall j :: 0 <= j < |users| ==> users[j].id != id
  {
    FirstIndex(users, (u: User) => u.id, id)
  }

  /** `findOneBy({ email })` on the users table, as the index of the row found. */
  function IndexOfEmail(users: seq<User>, email: string): (r: Option<nat>)
    ensures r.Some? ==> r.value < |users| && users[r.value].email == email
    ensures r.Some? ==> forall j :: 0 <= j < r.value ==> users[j].email != email
    ensures r.None? ==> forall j :: 0 <= j < |users| ==> users[j].email != email
  {
    FirstIndex(users, (u: User) => u.email, email)
  }

  /** `findOneBy({ id })` on the ideas table, as the index of the row found. */
  function IndexOfIdea(ideas: seq<Idea>, id: IdeaId): (r: Option<nat>)
    ensures r.Some? ==> r.value < |ideas| && ideas[r.value].id == id
    ensures r.Some? ==> forall j :: 0 <= j < r.value ==> ideas[j].id != id
    ensures r.None? ==> forall j :: 0 <= j < |ideas| ==> ideas[j].id != id
  {
    FirstIndex(ideas, (i: Idea) => i.id, id)
  }

  /** `findOneBy({ creator, name })` on the ideas table, as the index of the row found. */
  function IndexOfNamedIdea(ideas: seq<Idea>, creator: UserId, name: string): (r: Option<nat>)
    ensures r.Some? ==> r.value < |ideas| && ideas[r.value].creator == creator && ideas[r.value].name == name
    ensures r.None? ==> forall j :: 0 <= j < |ideas| ==> ideas[j].creator != creator || ideas[j].name != name
  {
    FirstIndex(ideas, (i: Idea) => (i.creator, i.name), (creator, name))
  }

  /** Every creator and every follower of an idea is a row of the users table. */
  ghost predicate ForeignKeys(users: seq<User>, ideas: seq<Idea>)
  {
    forall i :: 0 <= i < |ideas| ==>
      IndexOfId(users, ideas[i].creator).Some?
      && forall f :: f in ideas[i].followers ==> IndexOfId(users, f).Some?
  }

  /** All constraints the schema declares, over both tables. */
  ghost predicate Consistent(users: seq<User>, ideas: seq<Idea>)
  {
    UniqueUsers(users) && UniqueIdeas(ideas) && ForeignKeys(users, ideas)
  }

  /** Tables whose ids agree row by row answer every id lookup alike. */
  lemma {:induction false} SameIdsSameLookup(u1: seq<User>, u2: seq<User>, x: UserId)
    requires |u1| == |u2| && forall k :: 0 <= k < |u1| ==> u1[k].id == u2[k].id
    ensures IndexOfId(u1, x) == IndexOfId(u2, x)
  {
    if u1 != [] && u1[0].id != x {
      assert forall k :: 0 <= k < |u1| - 1 ==> u1[1..][k].id == u1[k + 1].id;
      SameIdsSameLookup(u1[1..], u2[1..], x);
    }
  }

  /** Appending a row keeps every row that was found. */
  lemma AppendKeepsLookup(users: seq<User>, u: User)
    ensures forall x :: IndexOfId(users, x).Some? ==> IndexOfId(users + [u], x) == IndexOfId(users, x)
  {
    forall x | IndexOfId(users, x).Some? ensures IndexOfId(users + [u], x) == IndexOfId(users, x) {
      var k := IndexOfId(users, x).value;
      assert (users + [u])[k].id == x;
    }
  }

  /** The ideas' references survive any change to the users table that keeps every id. */
  lemma ForeignKeysKept(u1: seq<User>, u2: seq<User>, ideas: seq<Idea>)
    requires ForeignKeys(u1, ideas)
    requires forall x :: IndexOfId(u1, x).Some? ==> IndexOfId(u2, x).Some?
    ensures ForeignKeys(u2, ideas)
  {
  }

  /** Adding a row with a fresh id and a fresh email keeps every constraint. */
  lemma InsertKeepsConsistent(users: seq<User>, ideas: seq<Idea>, u: User)
    requires Consistent(users, ideas)
    requires IndexOfId(users, u.id).None? && IndexOfEmail(users, u.email).None?
    ensures Consistent(users + [u], ideas)
  {
    AppendKeepsLookup(users, u);
    ForeignKeysKept(users, users + [u], ideas);
  }

  /**
   * Adding an idea with a fresh id, a name its creator has not used and that
   * fits the column, an existing creator and no followers keeps every constraint.
   */
  lemma InsertIdeaKeepsConsistent(users: seq<User>, ideas: seq<Idea>, idea: Idea)
    requires Consistent(users, ideas)
    requires IndexOfIdea(ideas, idea.id).None? && IndexOfNamedIdea(ideas, idea.creator, idea.name).None?
    requires |idea.name| <= NameColumnLength && idea.followers == []
    requires IndexOfId(users, idea.creator).Some?
    ensures Consistent(users, ideas + [idea])
  {
    AppendUniqueIdea(ideas, idea);
    AppendIdeaForeignKeys(users, ideas, idea);
  }

  lemma AppendUniqueIdea(ideas: seq<Idea>, idea: Idea)
    requires UniqueIdeas(ideas)
    requires IndexOfIdea(ideas, idea.id).None? && IndexOfNamedIdea(ideas, idea.creator, idea.name).None?
    requires |idea.name| <= NameColumnLength && idea.followers == []
    ensures UniqueIdeas(ideas + [idea])
  {
    var after := ideas + [idea];
    assert forall i :: 0 <= i < |ideas| ==> after[i] == ideas[i];
    assert after[|ideas|] == idea;
  }

  lemma AppendIdeaForeignKeys(users: seq<User>, ideas: seq<Idea>, idea: Idea)
    requires ForeignKeys(users, ideas)
    requires IndexOfId(users, idea.creator).Some? && idea.followers == []
    ensures ForeignKeys(users, ideas + [idea])
  {
    var after := ideas + [idea];
    assert forall i :: 0 <= i < |ideas| ==> after[i] == ideas[i];
    assert after[|ideas|] == idea;
  }

  /** A write to one row that keeps its id and the unique emails keeps every constraint. */
  lemma RowUpdateKeepsConsistent(users: seq<User>, ideas: seq<Idea>, i: nat, u: User)
    requires Consistent(users, ideas) && i < |users| && u.id == users[i].id
    requires UniqueUsers(users[i := u])
    ensures Consistent(users[i := u], ideas)
  {
    forall x ensures IndexOfId(users, x) == IndexOfId(users[i := u], x) {
      SameIdsSameLookup(users, users[i := u], x);
    }
    ForeignKeysKept(users, users[i := u], ideas);
  }

  /** Some row other than row `i` already holds `email`. */
  predicate EmailHeldByOther(users: seq<User>, i: nat, email: string)
  {
    exists j :: 0 <= j < |users| && j != i && users[j].email == email
  }

  /**
   * `Object.assign(row, attrs)` followed by `save(row)`: the write goes through
   * unless it would give the row an email another row holds, which the unique
   * index refuses.
   */
  function SaveAssigned(users: seq<User>, i: nat, a: UserAttrs): (r: Result<seq<User>, HttpError>)
    requires i < |users|
    ensures r.Err? <==> a.email.Some? && EmailHeldByOther(users, i, a.email.value)
    ensures r.Err? ==> r.error == QueryFailed
    ensures r.Ok? ==> r.value == users[i := Assign(users[i], a)]
    ensures r.Ok? && UniqueUsers(users) ==> UniqueUsers(r.value)
  {
    if a.email.Some? && EmailHeldByOther(users, i, a.email.value) then Err(QueryFailed)
    else Ok(users[i := Assign(users[i], a)])
  }

  /** The database: both tables, updated in place by the services. */
  class Database {
    var users: seq<User>
    var ideas: seq<Idea>

    ghost predicate Valid()
      reads this
    {
      Consistent(users, ideas)
    }

    constructor ()
      ensures Valid() && users == [] && ideas == []
    {
      users, ideas := [], [];
    }
  }
}
