/**
 * `IdeasService`: creating ideas, listing them, and following and
 * unfollowing them. The follower list of an idea is its rows in the join
 * table; follow appends without duplicates, unfollow filters.
 */
module Ideas {
  import opened Wrappers
  import opened Errors
  import opened UserEntity
  import opened IdeaEntity
  import opened Db
  import CreateIdeaDto

  const IdeaExists := "Idea already exists"

  // ---------------------------------------------------------------------------
  // Follower lists
  // ---------------------------------------------------------------------------

  /**
   * `if (!followers.some(f => f.id === uid)) followers.push(user)`: `uid`
   * becomes a follower, everyone already there stays in place, and a repeat
   * follow changes nothing.
   */
  function AddFollower(followers: seq<UserId>, uid: UserId): (r: seq<UserId>)
    ensures forall x :: x in r <==> x in followers || x == uid
    ensures followers <= r && |r| <= |followers| + 1
    ensures uid in followers ==> r == followers
    ensures Distinct(followers) ==> Distinct(r)
  {
    if uid in followers then followers else followers + [uid]
  }

  /**
   * `followers.filter(f => f.id !== uid)`: every occurrence of `uid` goes,
   * every other follower stays with its multiplicity, and the list of a
   * non-follower is returned unchanged.
   */
  function RemoveFollower(followers: seq<UserId>, uid: UserId): (r: seq<UserId>)
    ensures multiset(r) == multiset(followers)[uid := 0]
    ensures forall x :: x in r <==> x in followers && x != uid
    ensures uid !in followers ==> r == followers
  {
    if followers == [] then []
    else
      var rest := RemoveFollower(followers[1..], uid);
      assert followers == [followers[0]] + followers[1..];
      if followers[0] == uid then rest else [followers[0]] + rest
  }

  /** Filtering never introduces a duplicate, so the join rows stay unique. */
  lemma {:induction false} RemoveFollowerKeepsDistinct(followers: seq<UserId>, uid: UserId)
    requires Distinct(followers)
    ensures Distinct(RemoveFollower(followers, uid))
  {
    if followers != [] {
      var tail := followers[1..];
      assert Distinct(tail) by {
        forall a, b | 0 <= a < b < |tail| ensures tail[a] != tail[b] {
          assert tail[a] == followers[a + 1] && tail[b] == followers[b + 1];
        }
      }
      RemoveFollowerKeepsDistinct(tail, uid);
      assert followers[0] !in tail by {
        forall k | 0 <= k < |tail| ensures tail[k] != followers[0] {
          assert tail[k] == followers[k + 1];
        }
      }
      var rest := RemoveFollower(tail, uid);
      if followers[0] != uid {
        assert followers[0] !in rest;
        var r := [followers[0]] + rest;
        forall a, b | 0 <= a < b < |r| ensures r[a] != r[b] {
          if a == 0 {
            assert r[b] == rest[b - 1];
          } else {
            assert r[a] == rest[a - 1] && r[b] == rest[b - 1];
          }
        }
      }
    }
  }

  /** Filtering distributes over concatenation, which is what keeps the order. */
  lemma {:induction false} RemoveFollowerDistributes(f1: seq<UserId>, f2: seq<UserId>, uid: UserId)
    ensures RemoveFollower(f1 + f2, uid) == RemoveFollower(f1, uid) + RemoveFollower(f2, uid)
  {
    if f1 == [] {
      assert f1 + f2 == f2;
    } else {
      assert (f1 + f2)[0] == f1[0];
      assert (f1 + f2)[1..] == f1[1..] + f2;
      RemoveFollowerDistributes(f1[1..], f2, uid);
    }
  }

  /** Following and then unfollowing an idea one did not follow restores its follower list. */
  lemma FollowUnfollowRoundTrip(followers: seq<UserId>, uid: UserId)
    requires uid !in followers
    ensures RemoveFollower(AddFollower(followers, uid), uid) == followers
  {
    RemoveFollowerDistributes(followers, [uid], uid);
    assert RemoveFollower([uid], uid) == [];
  }

  /** Unfollowing twice is unfollowing once. */
  lemma UnfollowIdempotent(followers: seq<UserId>, uid: UserId)
    ensures RemoveFollower(RemoveFollower(followers, uid), uid) == RemoveFollower(followers, uid)
  {
  }

  /** Ideas row `i` with its follower list replaced. */
  function WithFollowers(ideas: seq<Idea>, i: nat, followers: seq<UserId>): (r: seq<Idea>)
    requires i < |ideas|
    ensures |r| == |ideas| && r[i] == ideas[i].(followers := followers)
    ensures forall j :: 0 <= j < |ideas| && j != i ==> r[j] == ideas[j]
  {
    ideas[i := ideas[i].(followers := followers)]
  }

  /** After a follow, the idea is among the user's followed ideas, the inverse side of the relation. */
  lemma FollowShowsOnInverseSide(ideas: seq<Idea>, i: nat, uid: UserId)
    requires i < |ideas|
    ensures ideas[i].id in FollowedIdeas(WithFollowers(ideas, i, AddFollower(ideas[i].followers, uid)), uid)
  {
    var after := WithFollowers(ideas, i, AddFollower(ideas[i].followers, uid));
    assert uid in after[i].followers;
  }

  /** After an unfollow, the idea is no longer among the user's followed ideas. */
  lemma UnfollowLeavesInverseSide(ideas: seq<Idea>, i: nat, uid: UserId)
    requires UniqueIdeas(ideas) && i < |ideas|
    ensures ideas[i].id !in FollowedIdeas(WithFollowers(ideas, i, RemoveFollower(ideas[i].followers, uid)), uid)
  {
    var after := WithFollowers(ideas, i, RemoveFollower(ideas[i].followers, uid));
    forall j | 0 <= j < |after| && after[j].id == ideas[i].id ensures uid !in after[j].followers {
      assert j == i;
    }
  }

  /** Replacing a follower list by one of existing, distinct users keeps every constraint. */
  lemma FollowersUpdateKeepsConsistent(users: seq<User>, ideas: seq<Idea>, i: nat, followers: seq<UserId>)
    requires Consistent(users, ideas) && i < |ideas|
    requires Distinct(followers) && forall f :: f in followers ==> IndexOfId(users, f).Some?
    ensures Consistent(users, WithFollowers(ideas, i, followers))
  {
  }

  // ---------------------------------------------------------------------------
  // What the service hands back
  // ---------------------------------------------------------------------------

  /** An idea as listed: ids and usernames only. Timestamps are not modelled. */
  datatype IdeaSummary = IdeaSummary(id: IdeaId, name: string, description: string, creator: UserRef)

  /** An idea as `findAll` lists it, with its followers. */
  datatype IdeaListing = IdeaListing(
    id: IdeaId, name: string, description: string, creator: UserRef, followers: seq<UserRef>)

  /** The entity `save` returns from create: the creator is the whole user row. */
  datatype CreatedIdea = CreatedIdea(id: IdeaId, name: string, description: string, creator: User)

  /** The entity unfollow returns, relations loaded: creator and followers are whole user rows. */
  datatype LoadedIdea = LoadedIdea(id: IdeaId, name: string, description: string, creator: User, followers: seq<User>)

  /** The user row a foreign key refers to. */
  function RowOf(users: seq<User>, uid: UserId): (u: User)
    requires IndexOfId(users, uid).Some?
    ensures u in users && u.id == uid
  {
    users[IndexOfId(users, uid).value]
  }

  /** A user projected to `{ id, username }`. */
  function RefOf(u: User): (r: UserRef)
    ensures r.id == u.id && r.username == u.username
  {
    UserRef(u.id, u.username)
  }

  /** An idea with its creator projected to `{ id, username }` and no followers. */
  function Summary(users: seq<User>, idea: Idea): (s: IdeaSummary)
    requires IndexOfId(users, idea.creator).Some?
    ensures s.id == idea.id && s.name == idea.name && s.description == idea.description
    ensures s.creator.id == idea.creator && s.creator.username == RowOf(users, idea.creator).username
  {
    IdeaSummary(idea.id, idea.name, idea.description, RefOf(RowOf(users, idea.creator)))
  }

  /** The ideas created by `uid`, in table order, each as often as the table holds it. */
  function CreatedBy(ideas: seq<Idea>, uid: UserId): (r: seq<Idea>)
    ensures forall x :: x in r <==> x in ideas && x.creator == uid
    ensures forall x :: multiset(r)[x] == if x.creator == uid then multiset(ideas)[x] else 0
  {
    if ideas == [] then []
    else
      assert ideas == [ideas[0]] + ideas[1..];
      (if ideas[0].creator == uid then [ideas[0]] else []) + CreatedBy(ideas[1..], uid)
  }

  /** The summaries of the ideas `uid` created, in table order. */
  function SummariesOf(users: seq<User>, ideas: seq<Idea>, uid: UserId): (r: seq<IdeaSummary>)
    requires IndexOfId(users, uid).Some?
    ensures |r| == |CreatedBy(ideas, uid)|
    ensures forall k :: 0 <= k < |r| ==> r[k] == Summary(users, CreatedBy(ideas, uid)[k])
  {
    var mine := CreatedBy(ideas, uid);
    var me := RefOf(RowOf(users, uid));
    seq(|mine|, k requires 0 <= k < |mine| => IdeaSummary(mine[k].id, mine[k].name, mine[k].description, me))
  }

  lemma SummariesMembers(users: seq<User>, ideas: seq<Idea>, uid: UserId)
    requires IndexOfId(users, uid).Some?
    ensures forall s :: s in SummariesOf(users, ideas, uid) <==>
              exists idea :: idea in ideas && idea.creator == uid && s == Summary(users, idea)
    ensures forall s :: s in SummariesOf(users, ideas, uid) ==> s.creator.id == uid
  {
    var mine, result := CreatedBy(ideas, uid), SummariesOf(users, ideas, uid);
    forall s | s in result
      ensures exists idea :: idea in ideas && idea.creator == uid && s == Summary(users, idea)
    {
      var k :| 0 <= k < |result| && result[k] == s;
      assert mine[k] in mine;
    }
    forall idea | idea in ideas && idea.creator == uid ensures Summary(users, idea) in result {
      var k :| 0 <= k < |mine| && mine[k] == idea;
      assert result[k] == Summary(users, idea);
    }
  }

  class IdeasService {
    const db: Database

    constructor (db: Database)
      ensures this.db == db
    {
      this.db := db;
    }

    /**
     * `create(userId, dto)`: 404 for an unknown creator, 409 when that creator
     * already has an idea of that name, the database's refusal for a name
     * longer than its column; otherwise a new idea with no followers, returned
     * with the creator's whole row.
     */
    method Create(userId: UserId, dto: CreateIdeaDto.IdeaDto, newId: IdeaId) returns (r: Outcome<CreatedIdea>)
      requires db.Valid() && IndexOfIdea(db.ideas, newId).None?  // the generated primary key is fresh
      modifies db
      ensures db.Valid() && db.users == old(db.users)
      ensures IndexOfId(db.users, userId).None? ==> r == Err(NotFound(UserNotFound)) && db.ideas == old(db.ideas)
      ensures IndexOfId(db.users, userId).Some? && IndexOfNamedIdea(old(db.ideas), userId, dto.name).Some? ==>
                r == Err(Conflict(IdeaExists)) && db.ideas == old(db.ideas)
      ensures IndexOfId(db.users, userId).Some? && IndexOfNamedIdea(old(db.ideas), userId, dto.name).None?
              && |dto.name| > NameColumnLength ==>
                r == Err(QueryFailed) && db.ideas == old(db.ideas)
      ensures IndexOfId(db.users, userId).Some? && IndexOfNamedIdea(old(db.ideas), userId, dto.name).None?
              && |dto.name| <= NameColumnLength ==>
                && db.ideas == old(db.ideas) + [Idea(newId, userId, dto.name, dto.description, [])]
                && r == Ok(CreatedIdea(newId, dto.name, dto.description, RowOf(db.users, userId)))
    {
      if IndexOfId(db.users, userId).None? {
        return Err(NotFound(UserNotFound));
      }
      if IndexOfNamedIdea(db.ideas, userId, dto.name).Some? {
        return Err(Conflict(IdeaExists));
      }
      if |dto.name| > NameColumnLength {
        return Err(QueryFailed);
      }
      var idea := Idea(newId, userId, dto.name, dto.description, []);
      InsertIdeaKeepsConsistent(db.users, db.ideas, idea);
      db.ideas := db.ideas + [idea];
      r := Ok(CreatedIdea(newId, dto.name, dto.description, RowOf(db.users, userId)));
    }

    /**
     * `findAllUserIdeas(userId)`: 404 for an unknown user; otherwise exactly
     * the ideas that user created, each with its creator as `{ id, username }`.
     */
    function FindAllUserIdeas(userId: UserId): (r: Outcome<seq<IdeaSummary>>)
      requires db.Valid()
      reads db
      ensures r.Err? <==> IndexOfId(db.users, userId).None?
      ensures r.Err? ==> r.error == NotFound(UserNotFound)
      ensures r.Ok? ==> forall s :: s in r.value <==>
                exists idea :: idea in db.ideas && idea.creator == userId && s == Summary(db.users, idea)
      ensures r.Ok? ==> forall s :: s in r.value ==> s.creator.id == userId
      ensures r.Ok? ==> var mine := CreatedBy(db.ideas, userId);
                        && |r.value| == |mine|
                        && forall k :: 0 <= k < |mine| ==> r.value[k] == Summary(db.users, mine[k])
    {
      if IndexOfId(db.users, userId).None? then Err(NotFound(UserNotFound))
      else
        SummariesMembers(db.users, db.ideas, userId);
        Ok(SummariesOf(db.users, db.ideas, userId))
    }

    /**
     * `findAll()`: one listing per idea in table order, the creator and each
     * follower projected to `{ id, username }`, followers in order and in
     * number.
     */
    function FindAll(): (r: seq<IdeaListing>)
      requires db.Valid()
      reads db
      ensures |r| == |db.ideas|
      ensures forall i :: 0 <= i < |r| ==>
                && r[i].id == db.ideas[i].id && r[i].name == db.ideas[i].name
                && r[i].description == db.ideas[i].description
                && r[i].creator == RefOf(RowOf(db.users, db.ideas[i].creator))
                && |r[i].followers| == |db.ideas[i].followers|
                && forall k :: 0 <= k < |r[i].followers| ==>
                     r[i].followers[k] == RefOf(RowOf(db.users, db.ideas[i].followers[k]))
    {
      var users, ideas := db.users, db.ideas;
      seq(|ideas|, i requires 0 <= i < |ideas| =>
        var f := ideas[i].followers;
        IdeaListing(ideas[i].id, ideas[i].name, ideas[i].description, RefOf(RowOf(users, ideas[i].creator)),
                    seq(|f|, k requires 0 <= k < |f| => RefOf(RowOf(users, f[k])))))
    }

    /**
     * `follow(id, userId)`: the user is checked first, then the idea (both
     * answer 404 "User not found"); the user joins the followers unless
     * already there, and the idea comes back as a summary.
     */
    method Follow(ideaId: IdeaId, userId: UserId) returns (r: Outcome<IdeaSummary>)
      requires db.Valid()
      modifies db
      ensures db.Valid() && db.users == old(db.users)
      ensures IndexOfId(db.users, userId).None? ==> r == Err(NotFound(UserNotFound)) && db.ideas == old(db.ideas)
      ensures IndexOfId(db.users, userId).Some? && IndexOfIdea(old(db.ideas), ideaId).None? ==>
                r == Err(NotFound(UserNotFound)) && db.ideas == old(db.ideas)
      ensures IndexOfId(db.users, userId).Some? && IndexOfIdea(old(db.ideas), ideaId).Some? ==>
                var i := IndexOfIdea(old(db.ideas), ideaId).value;
                && db.ideas == WithFollowers(old(db.ideas), i, AddFollower(old(db.ideas)[i].followers, userId))
                && r == Ok(Summary(db.users, old(db.ideas)[i]))
    {
      var found := IndexOfIdea(db.ideas, ideaId);
      if IndexOfId(db.users, userId).None? {
        return Err(NotFound(UserNotFound));
      }
      if found.None? {
        return Err(NotFound(UserNotFound));
      }
      var i := found.value;
      var idea := db.ideas[i];
      if userId !in idea.followers {
        FollowersUpdateKeepsConsistent(db.users, db.ideas, i, idea.followers + [userId]);
        db.ideas := WithFollowers(db.ideas, i, idea.followers + [userId]);
      } else {
        assert WithFollowers(db.ideas, i, idea.followers) == db.ideas;
      }
      r := Ok(Summary(db.users, idea));
    }

    /**
     * `unfollow(id, userId)`: 404 "User not found" for an unknown idea; else
     * every follower entry with that id is removed (none for a non-follower)
     * and the idea comes back with its creator and remaining followers as
     * whole user rows.
     */
    method Unfollow(ideaId: IdeaId, userId: UserId) returns (r: Outcome<LoadedIdea>)
      requires db.Valid()
      modifies db
      ensures db.Valid() && db.users == old(db.users)
      ensures IndexOfIdea(old(db.ideas), ideaId).None? ==> r == Err(NotFound(UserNotFound)) && db.ideas == old(db.ideas)
      ensures IndexOfIdea(old(db.ideas), ideaId).Some? ==>
                var i := IndexOfIdea(old(db.ideas), ideaId).value;
                var f := RemoveFollower(old(db.ideas)[i].followers, userId);
                && db.ideas == WithFollowers(old(db.ideas), i, f)
                && r.Ok? && r.value.id == ideaId && r.value.name == old(db.ideas)[i].name
                && r.value.description == old(db.ideas)[i].description
                && r.value.creator == RowOf(db.users, old(db.ideas)[i].creator)
                && |r.value.followers| == |f|
                && forall k :: 0 <= k < |f| ==> r.value.followers[k] == RowOf(db.users, f[k])
    {
      var found := IndexOfIdea(db.ideas, ideaId);
      if found.None? {
        return Err(NotFound(UserNotFound));
      }
      var i := found.value;
      var idea := db.ideas[i];
      var f := RemoveFollower(idea.followers, userId);
      RemoveFollowerKeepsDistinct(idea.followers, userId);
      FollowersUpdateKeepsConsistent(db.users, db.ideas, i, f);
      db.ideas := WithFollowers(db.ideas, i, f);
      var users := db.users;
      r := Ok(LoadedIdea(idea.id, idea.name, idea.description, RowOf(users, idea.creator),
                         seq(|f|, k requires 0 <= k < |f| => RowOf(users, f[k]))));
    }
  }
}
