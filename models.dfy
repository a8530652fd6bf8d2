/**
 * The documents the handlers read and write, and the store that holds them:
 * users by id, and the profile and post collections in insertion order.
 * `findOne` without a sort promises no order; taking the first match in
 * insertion order is a modelling choice, and with at most one profile per
 * user at most one profile can match.
 */
module Models {
  import opened Http
  import opened JsArray

  /**
   * Ids in their canonical spelling (lower-case 24-digit hex), compared as
   * strings; the store's cast of other spellings to an ObjectId is not modelled.
   */
  type UserId = string
  type PostId = string
  type EntryId = string

  /** The fields of a user record that the handlers read. */
  datatype User = User(name: string, avatar: string)

  datatype Social = Social(
    youtube: Option<string>,
    facebook: Option<string>,
    twitter: Option<string>,
    instagram: Option<string>,
    linkedin: Option<string>)

  /** An entry of `profile.experience`; `id` is the entry's own generated id. */
  datatype Experience = Experience(
    id: EntryId,
    title: Option<string>,
    company: Option<string>,
    location: Option<string>,
    from: Option<string>,
    to: Option<string>,
    current: Option<string>,
    description: Option<string>)

  /** An entry of `profile.education`; `id` is the entry's own generated id. */
  datatype Education = Education(
    id: EntryId,
    school: Option<string>,
    degree: Option<string>,
    fieldofstudy: Option<string>,
    from: Option<string>,
    to: Option<string>,
    current: Option<string>,
    description: Option<string>)

  datatype Profile = Profile(
    user: UserId,
    company: Option<string>,
    website: Option<string>,
    location: Option<string>,
    bio: Option<string>,
    status: Option<string>,
    githubusername: Option<string>,
    skills: seq<string>,
    social: Social,
    experience: seq<Experience>,
    education: seq<Education>)

  datatype Post = Post(id: PostId, user: UserId, text: string, name: string, avatar: string, date: int)

  /** The position `Profile.findOne({ user })` finds, or -1. */
  function ProfileIndex(ps: seq<Profile>, user: UserId): (i: int)
    ensures -1 <= i < |ps|
    ensures i == -1 <==> forall k | 0 <= k < |ps| :: ps[k].user != user
    ensures 0 <= i ==> ps[i].user == user && forall k | 0 <= k < i :: ps[k].user != user
  {
    var us := Map(ps, (p: Profile) => p.user);
    var i := IndexOf(us, user);
    assert 0 <= i ==> forall k | 0 <= k < i :: us[..i][k] == ps[k].user;
    assert i == -1 ==> forall k | 0 <= k < |ps| :: us[k] != user;
    i
  }

  /** `Profile.findOne({ user })`: the first profile of `user`, if any. */
  function FindProfile(ps: seq<Profile>, user: UserId): (r: Option<Profile>)
    ensures r.Some? <==> exists k | 0 <= k < |ps| :: ps[k].user == user
    ensures r.Some? ==> r.value in ps && r.value.user == user
  {
    var i := ProfileIndex(ps, user);
    if i < 0 then None else Some(ps[i])
  }

  /** Any first profile of `user` is the one `findOne` finds. */
  lemma ProfileIndexIs(ps: seq<Profile>, user: UserId, i: int)
    requires 0 <= i < |ps| && ps[i].user == user
    requires forall k | 0 <= k < i :: ps[k].user != user
    ensures ProfileIndex(ps, user) == i
  {
  }

  /** Removing the profile at `i` keeps users unique and leaves none for its owner. */
  lemma RemoveProfileAt(ps: seq<Profile>, i: int)
    requires OneProfilePerUser(ps) && 0 <= i < |ps|
    ensures OneProfilePerUser(ps[..i] + ps[i + 1..])
    ensures ProfileIndex(ps[..i] + ps[i + 1..], ps[i].user) == -1
  {
    var qs := ps[..i] + ps[i + 1..];
    assert forall k | 0 <= k < |qs| :: qs[k] == if k < i then ps[k] else ps[k + 1];
    assert forall k | 0 <= k < |qs| :: qs[k].user != ps[i].user;
  }

  /** The position `Post.findById(id)` finds, or -1. */
  function PostIndex(ps: seq<Post>, id: PostId): (i: int)
    ensures -1 <= i < |ps|
    ensures i == -1 <==> forall k | 0 <= k < |ps| :: ps[k].id != id
    ensures 0 <= i ==> ps[i].id == id && forall k | 0 <= k < i :: ps[k].id != id
  {
    var ids := Map(ps, (p: Post) => p.id);
    var i := IndexOf(ids, id);
    assert 0 <= i ==> forall k | 0 <= k < i :: ids[..i][k] == ps[k].id;
    assert i == -1 ==> forall k | 0 <= k < |ps| :: ids[k] != id;
    i
  }

  /** At most one profile per user: what the create-or-update handler maintains. */
  ghost predicate OneProfilePerUser(ps: seq<Profile>)
  {
    forall i, j | 0 <= i < j < |ps| :: ps[i].user != ps[j].user
  }

  /** Post ids are unique, as the store's primary key enforces. */
  ghost predicate UniquePostIds(ps: seq<Post>)
  {
    forall i, j | 0 <= i < j < |ps| :: ps[i].id != ps[j].id
  }

  /** The document store the handlers share. */
  class Db {
    var users: map<UserId, User>
    var profiles: seq<Profile>
    var posts: seq<Post>

    ghost predicate Valid()
      reads this
    {
      OneProfilePerUser(profiles) && UniquePostIds(posts)
    }

    constructor (users: map<UserId, User>)
      ensures Valid()
      ensures this.users == users && profiles == [] && posts == []
    {
      this.users := users;
      profiles := [];
      posts := [];
    }
  }
}
