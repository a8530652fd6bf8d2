/**
 * The handlers of routes/api/profile.js, each run after the auth middleware
 * has set `req.user` (except the two public GETs): building the profile
 * fields from a request body, create-or-update keyed by the caller's id,
 * adding and removing experience and education entries, and the lookups.
 */
module ProfileRoutes {
  import opened Http
  import opened JsString
  import opened JsArray
  import opened Models

  const ProfileRules := [Rule("status", "Status is required"), Rule("skills", "Skills is required")]
  const ExperienceRules := [
    Rule("title", "Title is required"),
    Rule("company", "Company is required"),
    Rule("from", "From date is required")]
  const EducationRules := [
    Rule("school", "School is required"),
    Rule("degree", "Degree is required"),
    Rule("fieldofstudy", "Field of study is required"),
    Rule("from", "From date is required")]

  const NoProfileMsg := "There is no profile for this user"
  const NoProfileText := "No profile for this user"

  /** The `profileFields` object: what `$set` writes, or what a new profile starts from. */
  datatype ProfileFields = ProfileFields(
    user: UserId,
    company: Option<string>,
    website: Option<string>,
    location: Option<string>,
    bio: Option<string>,
    status: Option<string>,
    githubusername: Option<string>,
    skills: Option<seq<string>>,
    social: Social)

  /**
   * `skills.split(',').map(skill => skill.trim())`: one skill per
   * comma-separated piece, in input order, each trimmed.
   */
  function ParseSkills(csv: string): (skills: seq<string>)
    ensures |skills| == Count(csv, ',') + 1
    ensures forall k | 0 <= k < |skills| :: skills[k] == Trim(Split(csv, ',')[k])
    ensures forall k | 0 <= k < |skills| :: IsTrimmed(skills[k]) && ',' !in skills[k]
  {
    var pieces := Split(csv, ',');
    seq(|pieces|, k requires 0 <= k < |pieces| => Trim(pieces[k]))
  }

  /** A skill list written out as "a, b, c" (any whitespace around the commas) parses back to itself. */
  lemma {:induction false} ParseSkillsOfJoined(skills: seq<string>, padded: seq<string>)
    requires |skills| >= 1 && |padded| == |skills|
    requires forall k | 0 <= k < |skills| :: IsTrimmed(skills[k])
    requires forall k | 0 <= k < |padded| :: ',' !in padded[k] && Trim(padded[k]) == skills[k]
    ensures ParseSkills(Join(padded, ',')) == skills
  {
    SplitJoin(padded, ',');
  }

  /** No field is set to the empty string, nor to an empty skill list (which `split` never produces). */
  predicate NoFalsyValues(f: ProfileFields)
  {
    && (f.company.Some? ==> f.company.value != "")
    && (f.website.Some? ==> f.website.value != "")
    && (f.location.Some? ==> f.location.value != "")
    && (f.bio.Some? ==> f.bio.value != "")
    && (f.status.Some? ==> f.status.value != "")
    && (f.githubusername.Some? ==> f.githubusername.value != "")
    && (f.skills.Some? ==> f.skills.value != [])
    && (f.social.youtube.Some? ==> f.social.youtube.value != "")
    && (f.social.facebook.Some? ==> f.social.facebook.value != "")
    && (f.social.twitter.Some? ==> f.social.twitter.value != "")
    && (f.social.instagram.Some? ==> f.social.instagram.value != "")
    && (f.social.linkedin.Some? ==> f.social.linkedin.value != "")
  }

  /**
   * The specification of the fields built from a request body: they belong
   * to the caller, a falsy body value is never copied, and the skills are
   * set exactly when the body's skills string is truthy.
   */
  function ProfileFieldsOf(user: UserId, body: Body): (f: ProfileFields)
    ensures f.user == user
    ensures NoFalsyValues(f)
    ensures f.skills.Some? <==> Truthy(body, "skills")
  {
    ProfileFields(
      user,
      Field(body, "company"),
      Field(body, "website"),
      Field(body, "location"),
      Field(body, "bio"),
      Field(body, "status"),
      Field(body, "githubusername"),
      if Truthy(body, "skills") then Some(ParseSkills(body["skills"])) else None,
      Social(
        Field(body, "youtube"),
        Field(body, "facebook"),
        Field(body, "twitter"),
        Field(body, "instagram"),
        Field(body, "linkedin")))
  }

  /** One `if (value) profileFields.key = value` step: the value when it is truthy, unset otherwise. */
  method CopyIfSet(body: Body, key: string) returns (v: Option<string>)
    ensures v == Field(body, key)
  {
    v := None;
    if Truthy(body, key) {
      v := Some(body[key]);
    }
  }

  /**
   * Building `profileFields` one conditional assignment at a time. `user` is
   * always the caller; each optional field is set exactly when its body value
   * is truthy, to that value (see `Field`); `skills` is the parsed list;
   * `social` is always there and holds exactly the truthy links.
   */
  method BuildProfileFields(user: UserId, body: Body) returns (f: ProfileFields)
    ensures f.user == user
    ensures f.company == Field(body, "company") && f.website == Field(body, "website")
    ensures f.location == Field(body, "location") && f.bio == Field(body, "bio")
    ensures f.status == Field(body, "status") && f.githubusername == Field(body, "githubusername")
    ensures f.skills.Some? <==> Truthy(body, "skills")
    ensures f.skills.Some? ==> f.skills.value == ParseSkills(body["skills"])
    ensures f.social == Social(
      Field(body, "youtube"), Field(body, "facebook"), Field(body, "twitter"),
      Field(body, "instagram"), Field(body, "linkedin"))
    ensures f == ProfileFieldsOf(user, body)
  {
    var company := CopyIfSet(body, "company");
    var website := CopyIfSet(body, "website");
    var location := CopyIfSet(body, "location");
    var bio := CopyIfSet(body, "bio");
    var status := CopyIfSet(body, "status");
    var githubusername := CopyIfSet(body, "githubusername");
    var skills := None;
    if Truthy(body, "skills") { skills := Some(ParseSkills(body["skills"])); }
    var youtube := CopyIfSet(body, "youtube");
    var facebook := CopyIfSet(body, "facebook");
    var twitter := CopyIfSet(body, "twitter");
    var instagram := CopyIfSet(body, "instagram");
    var linkedin := CopyIfSet(body, "linkedin");
    f := ProfileFields(
      user, company, website, location, bio, status, githubusername, skills,
      Social(youtube, facebook, twitter, instagram, linkedin));
  }

  /** The profile rules report a missing status before a missing skills list, one error each. */
  lemma ProfileRulesErrors(body: Body)
    ensures Validate(body, ProfileRules) ==
      (if Truthy(body, "status") then [] else [ValidationError("status", "Status is required")]) +
      (if Truthy(body, "skills") then [] else [ValidationError("skills", "Skills is required")])
  {
    assert ProfileRules == [ProfileRules[0]] + [ProfileRules[1]];
    ValidateConcat(body, [ProfileRules[0]], [ProfileRules[1]]);
    ValidateOne(body, ProfileRules[0]);
    ValidateOne(body, ProfileRules[1]);
  }

  /** A body that passes validation always yields a status and at least one skill. */
  lemma ValidBodyHasStatusAndSkills(user: UserId, body: Body)
    requires Validate(body, ProfileRules) == []
    ensures ProfileFieldsOf(user, body).status == Some(body["status"])
    ensures ProfileFieldsOf(user, body).skills.Some? && |ProfileFieldsOf(user, body).skills.value| >= 1
  {
    assert ProfileRules[0].param == "status" && ProfileRules[1].param == "skills";
  }

  /** A document with only its owner set: what the schema gives a new profile before any field. */
  function Blank(user: UserId): Profile
  {
    Profile(user, None, None, None, None, None, None, [], Social(None, None, None, None, None), [], [])
  }

  /**
   * `new Profile(profileFields)`: a profile of the fields' user with the
   * fields' social links and no experience or education yet.
   */
  function Create(f: ProfileFields): (p: Profile)
    ensures p.user == f.user && p.social == f.social
    ensures p.experience == [] && p.education == []
  {
    Profile(
      f.user, f.company, f.website, f.location, f.bio, f.status, f.githubusername,
      if f.skills.Some? then f.skills.value else [],
      f.social, [], [])
  }

  function Override(given: Option<string>, current: Option<string>): Option<string>
  {
    if given.Some? then given else current
  }

  /**
   * `$set: profileFields` on a stored profile: the fields present overwrite,
   * the absent ones keep their value, `social` is replaced as a whole, and
   * the experience and education lists are not touched.
   */
  function ApplySet(p: Profile, f: ProfileFields): (r: Profile)
    ensures r.user == f.user && r.social == f.social
    ensures r.experience == p.experience && r.education == p.education
  {
    Profile(
      f.user,
      Override(f.company, p.company),
      Override(f.website, p.website),
      Override(f.location, p.location),
      Override(f.bio, p.bio),
      Override(f.status, p.status),
      Override(f.githubusername, p.githubusername),
      if f.skills.Some? then f.skills.value else p.skills,
      f.social,
      p.experience,
      p.education)
  }

  /** A new document is the blank one with the fields set on it. */
  lemma CreateIsSetOnBlank(f: ProfileFields)
    ensures Create(f) == ApplySet(Blank(f.user), f)
  {
  }

  /** Setting the same fields twice is setting them once. */
  lemma ApplySetIdempotent(p: Profile, f: ProfileFields)
    ensures ApplySet(ApplySet(p, f), f) == ApplySet(p, f)
  {
  }

  /**
   * An update from a request body: a field sent truthy takes the sent value
   * and one left out or empty keeps the stored value, but a social link left
   * out is cleared, because `social` is written as a whole.
   */
  lemma ApplySetFromBody(p: Profile, user: UserId, body: Body)
    ensures var r := ApplySet(p, ProfileFieldsOf(user, body));
      && r.status == (if Truthy(body, "status") then Some(body["status"]) else p.status)
      && r.company == (if Truthy(body, "company") then Some(body["company"]) else p.company)
      && r.website == (if Truthy(body, "website") then Some(body["website"]) else p.website)
      && r.location == (if Truthy(body, "location") then Some(body["location"]) else p.location)
      && r.bio == (if Truthy(body, "bio") then Some(body["bio"]) else p.bio)
      && r.githubusername == (if Truthy(body, "githubusername") then Some(body["githubusername"]) else p.githubusername)
      && r.skills == (if Truthy(body, "skills") then ParseSkills(body["skills"]) else p.skills)
      && r.social.youtube == Field(body, "youtube")
      && r.social.facebook == Field(body, "facebook")
      && r.social.twitter == Field(body, "twitter")
      && r.social.instagram == Field(body, "instagram")
      && r.social.linkedin == Field(body, "linkedin")
  {
  }

  /** The profile create-or-update answers with. */
  function Upserted(ps: seq<Profile>, f: ProfileFields): (r: Profile)
    ensures r.user == f.user
    ensures ProfileIndex(ps, f.user) < 0 ==> r.experience == [] && r.education == []
    ensures ProfileIndex(ps, f.user) >= 0 ==>
      r.experience == ps[ProfileIndex(ps, f.user)].experience && r.education == ps[ProfileIndex(ps, f.user)].education
  {
    var i := ProfileIndex(ps, f.user);
    if i < 0 then Create(f) else ApplySet(ps[i], f)
  }

  /**
   * The profile collection after create-or-update: one profile more when the
   * caller had none, the same number otherwise, and every profile of another
   * user stays at its position.
   */
  function Upsert(ps: seq<Profile>, f: ProfileFields): (qs: seq<Profile>)
    ensures |qs| == if ProfileIndex(ps, f.user) < 0 then |ps| + 1 else |ps|
    ensures forall k | 0 <= k < |ps| && ps[k].user != f.user :: qs[k] == ps[k]
  {
    var i := ProfileIndex(ps, f.user);
    if i < 0 then ps + [Create(f)] else ps[i := ApplySet(ps[i], f)]
  }

  /**
   * Create-or-update leaves exactly one profile for the caller, the one it
   * answers with, and still at most one profile per user.
   */
  lemma UpsertKeepsOneProfilePerUser(ps: seq<Profile>, f: ProfileFields)
    requires OneProfilePerUser(ps)
    ensures OneProfilePerUser(Upsert(ps, f))
    ensures FindProfile(Upsert(ps, f), f.user) == Some(Upserted(ps, f))
    ensures forall k | 0 <= k < |Upsert(ps, f)| && Upsert(ps, f)[k].user == f.user :: Upsert(ps, f)[k] == Upserted(ps, f)
  {
    var i := ProfileIndex(ps, f.user);
    var qs := Upsert(ps, f);
    if i < 0 {
      ProfileIndexIs(qs, f.user, |ps|);
    } else {
      ProfileIndexIs(qs, f.user, i);
    }
  }

  /** Create-or-update does not change what any other user's lookup finds. */
  lemma UpsertLeavesOthers(ps: seq<Profile>, f: ProfileFields, other: UserId)
    requires other != f.user
    ensures FindProfile(Upsert(ps, f), other) == FindProfile(ps, other)
  {
    var i := ProfileIndex(ps, f.user);
    var j := ProfileIndex(ps, other);
    var qs := Upsert(ps, f);
    if j < 0 {
      assert forall k | 0 <= k < |qs| :: qs[k].user != other;
    } else {
      ProfileIndexIs(qs, other, j);
    }
  }

  /** Sending the same create-or-update twice has the effect of sending it once. */
  lemma UpsertIdempotent(ps: seq<Profile>, f: ProfileFields)
    requires OneProfilePerUser(ps)
    ensures Upsert(Upsert(ps, f), f) == Upsert(ps, f)
  {
    var qs := Upsert(ps, f);
    UpsertKeepsOneProfilePerUser(ps, f);
    var i := ProfileIndex(qs, f.user);
    assert qs[i] == Upserted(ps, f);
    assert ApplySet(qs[i], f) == qs[i];
    assert qs[i := qs[i]] == qs;
  }

  /** An entry built from the destructured body of PUT /experience. */
  function NewExperience(id: EntryId, body: Body): (e: Experience)
    ensures e.id == id
    ensures e.to.Some? <==> "to" in body
  {
    Experience(
      id, Get(body, "title"), Get(body, "company"), Get(body, "location"), Get(body, "from"),
      Get(body, "to"), Get(body, "current"), Get(body, "description"))
  }

  /** An entry built from the destructured body of PUT /education. */
  function NewEducation(id: EntryId, body: Body): (e: Education)
    ensures e.id == id
    ensures e.to.Some? <==> "to" in body
  {
    Education(
      id, Get(body, "school"), Get(body, "degree"), Get(body, "fieldofstudy"), Get(body, "from"),
      Get(body, "to"), Get(body, "current"), Get(body, "description"))
  }

  /** An experience entry that passed validation has a non-empty title, company and start date. */
  lemma ValidExperienceEntry(id: EntryId, body: Body)
    requires Validate(body, ExperienceRules) == []
    ensures var e := NewExperience(id, body);
      && e.title.Some? && e.title.value != ""
      && e.company.Some? && e.company.value != ""
      && e.from.Some? && e.from.value != ""
  {
    assert Truthy(body, ExperienceRules[0].param);
    assert Truthy(body, ExperienceRules[1].param);
    assert Truthy(body, ExperienceRules[2].param);
  }

  /** An education entry that passed validation has a non-empty school, degree, field of study and start date. */
  lemma ValidEducationEntry(id: EntryId, body: Body)
    requires Validate(body, EducationRules) == []
    ensures var e := NewEducation(id, body);
      && e.school.Some? && e.school.value != ""
      && e.degree.Some? && e.degree.value != ""
      && e.fieldofstudy.Some? && e.fieldofstudy.value != ""
      && e.from.Some? && e.from.value != ""
  {
    assert Truthy(body, EducationRules[0].param);
    assert Truthy(body, EducationRules[1].param);
    assert Truthy(body, EducationRules[2].param);
    assert Truthy(body, EducationRules[3].param);
  }

  /** GET /me: the caller's profile, or 400 when there is none. */
  method GetCurrentProfile(db: Db, caller: UserId) returns (res: Response<Profile>)
    ensures res.status == StatusOk <==> exists k | 0 <= k < |db.profiles| :: db.profiles[k].user == caller
    ensures res.status != StatusOk ==> res == Response(StatusBadRequest, Msg(NoProfileMsg))
    ensures res.status == StatusOk ==> res.reply.One? && res.reply.doc in db.profiles && res.reply.doc.user == caller
  {
    var profile := FindProfile(db.profiles, caller);
    if profile.None? {
      return Response(StatusBadRequest, Msg(NoProfileMsg));
    }
    res := Response(StatusOk, One(profile.value));
  }

  /**
   * POST /: a body without `status` or `skills` is refused with every
   * validation error and the store unchanged; otherwise the fields are built
   * and the caller's profile is updated with them, or created from them.
   */
  method CreateOrUpdateProfile(db: Db, caller: UserId, body: Body) returns (res: Response<Profile>)
    requires db.Valid()
    modifies db`profiles
    ensures db.Valid()
    ensures Validate(body, ProfileRules) != [] ==>
      res == Response(StatusBadRequest, Errors(Validate(body, ProfileRules))) && db.profiles == old(db.profiles)
    ensures Validate(body, ProfileRules) == [] ==>
      var f := ProfileFieldsOf(caller, body);
      db.profiles == Upsert(old(db.profiles), f) && res == Response(StatusOk, One(Upserted(old(db.profiles), f)))
  {
    var errs := Validate(body, ProfileRules);
    if errs != [] {
      return Response(StatusBadRequest, Errors(errs));
    }
    var fields := BuildProfileFields(caller, body);
    UpsertKeepsOneProfilePerUser(db.profiles, fields);
    var i := ProfileIndex(db.profiles, caller);
    if i >= 0 {
      var updated := ApplySet(db.profiles[i], fields);
      db.profiles := db.profiles[i := updated];
      return Response(StatusOk, One(updated));
    }
    var created := Create(fields);
    db.profiles := db.profiles + [created];
    res := Response(StatusOk, One(created));
  }

  /** GET /: every stored profile, in collection order. */
  method GetAllProfiles(db: Db) returns (res: Response<Profile>)
    ensures res.status == StatusOk && res.reply.Many? && res.reply.docs == db.profiles
  {
    res := Response(StatusOk, Many(db.profiles));
  }

  /**
   * GET /user/:id: a malformed id is answered 404 before any lookup, an
   * absent profile 400, and a present one with that profile.
   */
  method GetProfileByUserId(db: Db, id: string, isValidId: string -> bool) returns (res: Response<Profile>)
    ensures !isValidId(id) ==> res == Response(StatusNotFound, Text(NoProfileText))
    ensures isValidId(id) ==>
      (res.status == StatusOk <==> exists k | 0 <= k < |db.profiles| :: db.profiles[k].user == id)
    ensures isValidId(id) && res.status != StatusOk ==> res == Response(StatusBadRequest, Text(NoProfileText))
    ensures res.status == StatusOk ==> res.reply.One? && res.reply.doc in db.profiles && res.reply.doc.user == id
  {
    if !isValidId(id) {
      return Response(StatusNotFound, Text(NoProfileText));
    }
    var profile := FindProfile(db.profiles, id);
    if profile.None? {
      return Response(StatusBadRequest, Text(NoProfileText));
    }
    res := Response(StatusOk, One(profile.value));
  }

  /** `Profile.findOneAndRemove({ user })`: the first profile of `user` goes, the rest stay in order. */
  function RemoveProfileOf(ps: seq<Profile>, user: UserId): (qs: seq<Profile>)
    ensures |qs| == if ProfileIndex(ps, user) < 0 then |ps| else |ps| - 1
    ensures forall q | q in qs :: q in ps
  {
    var i := ProfileIndex(ps, user);
    if i < 0 then ps else ps[..i] + ps[i + 1..]
  }

  /** With one profile per user, removing the caller's leaves none for the caller and keeps uniqueness. */
  lemma RemoveProfileOfLeavesNone(ps: seq<Profile>, user: UserId)
    requires OneProfilePerUser(ps)
    ensures OneProfilePerUser(RemoveProfileOf(ps, user))
    ensures FindProfile(RemoveProfileOf(ps, user), user) == None
  {
    var i := ProfileIndex(ps, user);
    if i >= 0 {
      RemoveProfileAt(ps, i);
      assert RemoveProfileOf(ps, user) == ps[..i] + ps[i + 1..];
    } else {
      assert RemoveProfileOf(ps, user) == ps;
    }
  }

  /** Removing one user's profile does not change what another user's lookup finds. */
  lemma RemoveProfileOfLeavesOthers(ps: seq<Profile>, user: UserId, other: UserId)
    requires other != user
    ensures FindProfile(RemoveProfileOf(ps, user), other) == FindProfile(ps, other)
  {
    var i := ProfileIndex(ps, user);
    if i >= 0 {
      var qs := ps[..i] + ps[i + 1..];
      assert RemoveProfileOf(ps, user) == qs;
      RemoveAtLeavesOthers(ps, i, other);
    } else {
      assert RemoveProfileOf(ps, user) == ps;
    }
  }

  /** Removing the profile at `i` does not change the lookup of a user it does not belong to. */
  lemma RemoveAtLeavesOthers(ps: seq<Profile>, i: int, other: UserId)
    requires 0 <= i < |ps| && ps[i].user != other
    ensures FindProfile(ps[..i] + ps[i + 1..], other) == FindProfile(ps, other)
  {
    var j := ProfileIndex(ps, other);
    if j < 0 {
      RemoveAtKeepsMissing(ps, i, other);
    } else if j < i {
      RemoveAtKeepsEarlier(ps, i, j, other);
    } else {
      RemoveAtShiftsLater(ps, i, j, other);
    }
  }

  /** A user with no profile still has none after a removal. */
  lemma RemoveAtKeepsMissing(ps: seq<Profile>, i: int, other: UserId)
    requires 0 <= i < |ps| && ProfileIndex(ps, other) < 0
    ensures FindProfile(ps[..i] + ps[i + 1..], other) == None == FindProfile(ps, other)
  {
    var qs := ps[..i] + ps[i + 1..];
    forall k | 0 <= k < |qs|
      ensures qs[k].user != other
    {
      if k < i { assert qs[k] == ps[k]; } else { assert qs[k] == ps[k + 1]; }
    }
    assert ProfileIndex(qs, other) < 0;
  }

  /** A first match before the removed position stays where it is. */
  lemma RemoveAtKeepsEarlier(ps: seq<Profile>, i: int, j: int, other: UserId)
    requires 0 <= j < i < |ps| && ProfileIndex(ps, other) == j
    ensures FindProfile(ps[..i] + ps[i + 1..], other) == Some(ps[j]) == FindProfile(ps, other)
  {
    var qs := ps[..i] + ps[i + 1..];
    assert qs[..j + 1] == ps[..j + 1];
    ProfileIndexIs(qs, other, j);
  }

  /** A first match after the removed position moves up by one, and is still first. */
  lemma RemoveAtShiftsLater(ps: seq<Profile>, i: int, j: int, other: UserId)
    requires 0 <= i < j < |ps| && ProfileIndex(ps, other) == j
    ensures FindProfile(ps[..i] + ps[i + 1..], other) == Some(ps[j]) == FindProfile(ps, other)
  {
    var qs := ps[..i] + ps[i + 1..];
    forall k | 0 <= k < j - 1
      ensures qs[k].user != other
    {
      if k < i { assert qs[k] == ps[k]; } else { assert qs[k] == ps[k + 1]; }
    }
    assert qs[j - 1] == ps[j];
    ProfileIndexIs(qs, other, j - 1);
  }

  /** DELETE /: removes the caller's profile and user record; posts stay. */
  method DeleteAccount(db: Db, caller: UserId) returns (res: Response<Profile>)
    requires db.Valid()
    modifies db`profiles, db`users
    ensures db.Valid()
    ensures db.profiles == RemoveProfileOf(old(db.profiles), caller)
    ensures FindProfile(db.profiles, caller) == None
    ensures db.users == old(db.users) - {caller}
    ensures res == Response(StatusOk, Msg("Users deleted"))
  {
    RemoveProfileOfLeavesNone(db.profiles, caller);
    db.profiles := RemoveProfileOf(db.profiles, caller);
    db.users := db.users - {caller};
    res := Response(StatusOk, Msg("Users deleted"));
  }

  /**
   * PUT /experience: an incomplete entry is refused with every validation
   * error; a caller without a profile gets 500 (the handler dereferences the
   * missing profile) and nothing is saved; otherwise the new entry becomes the
   * first of the caller's experience list, ahead of the old entries in order.
   */
  method AddExperience(db: Db, caller: UserId, body: Body, newId: EntryId) returns (res: Response<Profile>)
    requires db.Valid()
    modifies db`profiles
    ensures db.Valid()
    ensures Validate(body, ExperienceRules) != [] ==>
      res == Response(StatusBadRequest, Errors(Validate(body, ExperienceRules))) && db.profiles == old(db.profiles)
    ensures Validate(body, ExperienceRules) == [] && ProfileIndex(old(db.profiles), caller) < 0 ==>
      res == Response(StatusServerError, Text("server error")) && db.profiles == old(db.profiles)
    ensures Validate(body, ExperienceRules) == [] && ProfileIndex(old(db.profiles), caller) >= 0 ==>
      var i := ProfileIndex(old(db.profiles), caller);
      var p := old(db.profiles)[i];
      var q := p.(experience := [NewExperience(newId, body)] + p.experience);
      db.profiles == old(db.profiles)[i := q] && res == Response(StatusOk, One(q))
  {
    var errs := Validate(body, ExperienceRules);
    if errs != [] {
      return Response(StatusBadRequest, Errors(errs));
    }
    var i := ProfileIndex(db.profiles, caller);
    if i < 0 {
      return Response(StatusServerError, Text("server error"));
    }
    var p := db.profiles[i];
    p := p.(experience := [NewExperience(newId, body)] + p.experience);
    db.profiles := db.profiles[i := p];
    res := Response(StatusOk, One(p));
  }

  /**
   * DELETE /experience/:id: without a profile the handler fails and answers
   * 401 "Error"; otherwise it splices out the entry at the index `indexOf`
   * reports. The first entry with the id goes and the others keep their
   * order; when no entry has the id, `indexOf` gives -1 and the last entry
   * goes; an empty list stays empty.
   */
  method DeleteExperience(db: Db, caller: UserId, entryId: EntryId) returns (res: Response<Profile>)
    requires db.Valid()
    modifies db`profiles
    ensures db.Valid()
    ensures ProfileIndex(old(db.profiles), caller) < 0 ==>
      res == Response(StatusUnauthorized, Text("Error")) && db.profiles == old(db.profiles)
    ensures ProfileIndex(old(db.profiles), caller) >= 0 ==>
      var i := ProfileIndex(old(db.profiles), caller);
      var p := old(db.profiles)[i];
      var ids := Map(p.experience, (e: Experience) => e.id);
      var q := p.(experience := SpliceOne(p.experience, IndexOf(ids, entryId)));
      && db.profiles == old(db.profiles)[i := q]
      && res == Response(StatusOk, One(q))
      && (entryId in ids ==> q.experience == RemoveFirst(p.experience, ids, entryId))
      && (entryId !in ids && p.experience != [] ==> q.experience == p.experience[..|p.experience| - 1])
      && (p.experience == [] ==> q.experience == [])
  {
    var i := ProfileIndex(db.profiles, caller);
    if i < 0 {
      return Response(StatusUnauthorized, Text("Error"));
    }
    var p := db.profiles[i];
    var ids := Map(p.experience, (e: Experience) => e.id);
    var removeIndex := IndexOf(ids, entryId);
    if entryId in ids {
      RemoveByIndexOfFound(p.experience, ids, entryId);
    } else {
      RemoveByIndexOfMissing(p.experience, ids, entryId);
    }
    p := p.(experience := SpliceOne(p.experience, removeIndex));
    db.profiles := db.profiles[i := p];
    res := Response(StatusOk, One(p));
  }

  /**
   * PUT /education: as PUT /experience, for the education list: validation
   * first, 500 without a profile, otherwise the new entry goes first.
   */
  method AddEducation(db: Db, caller: UserId, body: Body, newId: EntryId) returns (res: Response<Profile>)
    requires db.Valid()
    modifies db`profiles
    ensures db.Valid()
    ensures Validate(body, EducationRules) != [] ==>
      res == Response(StatusBadRequest, Errors(Validate(body, EducationRules))) && db.profiles == old(db.profiles)
    ensures Validate(body, EducationRules) == [] && ProfileIndex(old(db.profiles), caller) < 0 ==>
      res == Response(StatusServerError, Text("server error")) && db.profiles == old(db.profiles)
    ensures Validate(body, EducationRules) == [] && ProfileIndex(old(db.profiles), caller) >= 0 ==>
      var i := ProfileIndex(old(db.profiles), caller);
      var p := old(db.profiles)[i];
      var q := p.(education := [NewEducation(newId, body)] + p.education);
      db.profiles == old(db.profiles)[i := q] && res == Response(StatusOk, One(q))
  {
    var errs := Validate(body, EducationRules);
    if errs != [] {
      return Response(StatusBadRequest, Errors(errs));
    }
    var i := ProfileIndex(db.profiles, caller);
    if i < 0 {
      return Response(StatusServerError, Text("server error"));
    }
    var p := db.profiles[i];
    p := p.(education := [NewEducation(newId, body)] + p.education);
    db.profiles := db.profiles[i := p];
    res := Response(StatusOk, One(p));
  }

  /**
   * DELETE /education/:id: as DELETE /experience/:id, for the education
   * list, including the removal of the last entry when the id is absent.
   */
  method DeleteEducation(db: Db, caller: UserId, entryId: EntryId) returns (res: Response<Profile>)
    requires db.Valid()
    modifies db`profiles
    ensures db.Valid()
    ensures ProfileIndex(old(db.profiles), caller) < 0 ==>
      res == Response(StatusUnauthorized, Text("Error")) && db.profiles == old(db.profiles)
    ensures ProfileIndex(old(db.profiles), caller) >= 0 ==>
      var i := ProfileIndex(old(db.profiles), caller);
      var p := old(db.profiles)[i];
      var ids := Map(p.education, (e: Education) => e.id);
      var q := p.(education := SpliceOne(p.education, IndexOf(ids, entryId)));
      && db.profiles == old(db.profiles)[i := q]
      && res == Response(StatusOk, One(q))
      && (entryId in ids ==> q.education == RemoveFirst(p.education, ids, entryId))
      && (entryId !in ids && p.education != [] ==> q.education == p.education[..|p.education| - 1])
      && (p.education == [] ==> q.education == [])
  {
    var i := ProfileIndex(db.profiles, caller);
    if i < 0 {
      return Response(StatusUnauthorized, Text("Error"));
    }
    var p := db.profiles[i];
    var ids := Map(p.education, (e: Education) => e.id);
    var removeIndex := IndexOf(ids, entryId);
    if entryId in ids {
      RemoveByIndexOfFound(p.education, ids, entryId);
    } else {
      RemoveByIndexOfMissing(p.education, ids, entryId);
    }
    p := p.(education := SpliceOne(p.education, removeIndex));
    db.profiles := db.profiles[i := p];
    res := Response(StatusOk, One(p));
  }
}
