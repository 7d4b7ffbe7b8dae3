/**
 * The `Idea` entity: one row of the ideas table together with its rows in the
 * follower join table.
 */
module IdeaEntity {
  import opened UserEntity

  type IdeaId = string

  /** `name` is a `varchar(200)` column. */
  const NameColumnLength: nat := 200

  /**
   * An idea row. `creator` is the foreign key of the many-to-one relation to
   * User; `followers` lists, in join-table order, the ids of the users that
   * follow the idea. The follower relation is stored on this side only: a
   * user's `followedIdeas` is its inverse (FollowedIdeas below).
   */
  datatype Idea = Idea(
    id: IdeaId,
    creator: UserId,
    name: string,
    description: string,
    followers: seq<UserId>)

  /** No id appears twice: the join table's primary key is (userId, ideaId). */
  ghost predicate Distinct(ids: seq<UserId>)
  {
    forall a, b :: 0 <= a < b < |ids| ==> ids[a] != ids[b]
  }

  /**
   * The table constraints: `id` is the primary key, `@Unique(['name',
   * 'creator'])`, the name fits its column, and the follower join rows are
   * duplicate-free.
   */
  ghost predicate UniqueIdeas(ideas: seq<Idea>)
  {
    && (forall i, j :: 0 <= i < j < |ideas| ==>
          ideas[i].id != ideas[j].id
          && (ideas[i].creator != ideas[j].creator || ideas[i].name != ideas[j].name))
    && (forall i :: 0 <= i < |ideas| ==>
          |ideas[i].name| <= NameColumnLength && Distinct(ideas[i].followers))
  }

  /**
   * `User.followedIdeas`, the inverse side of the many-to-many relation: the
   * ids of the ideas that list `uid` among their followers, in table order.
   */
  function FollowedIdeas(ideas: seq<Idea>, uid: UserId): (r: seq<IdeaId>)
    ensures forall x :: x in r <==> exists i :: 0 <= i < |ideas| && ideas[i].id == x && uid in ideas[i].followers
  {
    if ideas == [] then []
    else
      var rest := FollowedIdeas(ideas[1..], uid);
      assert forall i :: 1 <= i < |ideas| ==> ideas[i] == ideas[1..][i - 1];
      if uid in ideas[0].followers then [ideas[0].id] + rest else rest
  }
}
