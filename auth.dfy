/** Login: the record a first-time user gets, the PKCE helpers of the
    identity-provider login, and where a login redirects to. The provider
    round-trip itself (authorization page, form post, token and user-info
    requests) is outside the model; its outcome is a parameter. */
module Auth {
  import opened Common
  import opened Store

  /** One entry of the provider's `groups`; `None` is a key the entry lacks. */
  datatype Group = Group(course: Option<int>, facultyName: Option<string>)

  /** The provider's user info; `None` is a key it lacks, missing `groups` is `[]`. */
  datatype UserInfo = UserInfo(isu: int, gender: Option<string>, birthdate: Option<string>, groups: seq<Group>)

  /** The key `max` ranks groups by: the course, 0 when absent. */
  function CourseKey(g: Group): int {
    g.course.GetOr(0)
  }

  /** `max(groups, key=..., default=None)`: the first group with the largest
      course, or none when there are no groups. */
  function SelectGroup(groups: seq<Group>): (r: Option<nat>)
    ensures r.None? <==> groups == []
    ensures r.Some? ==> r.value < |groups|
    ensures r.Some? ==> forall j :: 0 <= j < |groups| ==> CourseKey(groups[j]) <= CourseKey(groups[r.value])
    ensures r.Some? ==> forall j :: 0 <= j < r.value ==> CourseKey(groups[j]) < CourseKey(groups[r.value])
  {
    if groups == [] then None
    else
      var last := |groups| - 1;
      var best := SelectGroup(groups[..last]);
      assert forall j :: 0 <= j < last ==> groups[..last][j] == groups[j];
      if best.None? || CourseKey(groups[last]) > CourseKey(groups[best.value]) then Some(last) else best
  }

  /** The icons of `mainFeatures`, position by position. The profile-details
      route writes height, zodiac sign and weight by these positions. */
  const FeatureIcons: seq<string> := ["height", "zodiac_sign", "weight", "gender", "birthdate"]

  /** The `itmo` faculty text of a new user: the faculty name of the group
      `SelectGroup` picks, empty when there is no group or it has no name. */
  function FacultyText(info: UserInfo): (text: string)
    ensures info.groups == [] ==> text == ""
    ensures info.groups != [] ==> text == info.groups[SelectGroup(info.groups).value].facultyName.GetOr("")
  {
    var g := SelectGroup(info.groups);
    if g.None? then "" else info.groups[g.value].facultyName.GetOr("")
  }

  /** The `itmo` course text of a new user: empty exactly when there is no
      group or the selected group's course is absent or zero; otherwise it is
      the course's decimal text, which reads back as the course. */
  function CourseText(info: UserInfo): (text: string)
    ensures text == "" <==> info.groups == [] || CourseKey(info.groups[SelectGroup(info.groups).value]) == 0
    ensures text != "" && StrFits(CourseKey(info.groups[SelectGroup(info.groups).value])) ==> ParseInt(text) == Some(CourseKey(info.groups[SelectGroup(info.groups).value]))
  {
    var g := SelectGroup(info.groups);
    if g.None? then ""
    else
      var course := info.groups[g.value].course;
      if course.Some? && course.value != 0 then
        (if StrFits(course.value) then IntToStringRoundTrip(course.value); IntToString(course.value) else IntToString(course.value))
      else ""
  }

  /** The document `fill_user_info` inserts for a first-time user. */
  function NewUser(info: UserInfo): (u: UserDoc)
    ensures u.isu == info.isu
    ensures u.username == Some("") && u.bio == Some("") && u.logo == Some("") && u.photos == Some([])
    ensures u.interests == Some([]) && u.genderPreferences == Some([]) && u.relationshipPreferences == Some([])
    ensures u.isStudent == Some(true)
    ensures u.mainFeatures.Some? && |u.mainFeatures.value| == |FeatureIcons|
    ensures forall i :: 0 <= i < |FeatureIcons| ==>
              u.mainFeatures.value[i].icon == FeatureIcons[i] && u.mainFeatures.value[i].id.None?
    ensures forall i :: 0 <= i < 3 ==> u.mainFeatures.value[i].text == ""
    ensures u.mainFeatures.value[3].text == info.gender.GetOr("")
    ensures u.mainFeatures.value[4].text == info.birthdate.GetOr("")
    ensures u.itmo == Some([Entry(None, FacultyText(info), "faculty"), Entry(None, CourseText(info), "course")])
  {
    var features := [
      Entry(None, "", "height"),
      Entry(None, "", "zodiac_sign"),
      Entry(None, "", "weight"),
      Entry(None, info.gender.GetOr(""), "gender"),
      Entry(None, info.birthdate.GetOr(""), "birthdate")];
    UserDoc(info.isu, Some(""), Some(""), Some(""), Some([]), Some(features), Some([]),
            Some([Entry(None, FacultyText(info), "faculty"), Entry(None, CourseText(info), "course")]),
            Some([]), Some([]), Some(true))
  }

  /** `fill_user_info`: inserts the new user's document. */
  method FillUserInfo(db: Database, info: UserInfo)
    modifies db
    ensures db.users == old(db.users) + [NewUser(info)]
    ensures db.likes == old(db.likes) && db.chats == old(db.chats) && db.results == old(db.results)
  {
    db.InsertUser(NewUser(info));
  }

  // ---------------------------------------------------------------------------
  // PKCE (section 4 of RFC 7636)

  predicate IsAsciiAlnum(c: char) {
    'a' <= c <= 'z' || 'A' <= c <= 'Z' || '0' <= c <= '9'
  }

  predicate NotPadding(c: char) {
    c != '='
  }

  /** `generate_code_verifier` given the URL-safe base64 text of its random
      bytes: every character outside `[a-zA-Z0-9]` is dropped. */
  function CodeVerifier(encodedRandom: string): (r: string)
    ensures forall i :: 0 <= i < |r| ==> IsAsciiAlnum(r[i])
    ensures forall c :: c in r <==> c in encodedRandom && IsAsciiAlnum(c)
    ensures |r| <= |encodedRandom|
  {
    Keep(encodedRandom, IsAsciiAlnum)
  }

  /** `get_code_challenge` given the URL-safe base64 text of the SHA-256
      digest: the `=` padding is removed. */
  function CodeChallenge(encodedDigest: string): (r: string)
    ensures '=' !in r
    ensures forall c :: c in r <==> c in encodedDigest && c != '='
  {
    Keep(encodedDigest, NotPadding)
  }

  /** A 32-byte digest encodes to 43 characters and one `=`; the challenge is
      the 43 characters. */
  lemma ChallengeOfDigest(encodedDigest: string)
    requires |encodedDigest| == 44 && encodedDigest[43] == '='
    requires '=' !in encodedDigest[..43]
    ensures CodeChallenge(encodedDigest) == encodedDigest[..43]
  {
    var body := encodedDigest[..43];
    assert encodedDigest == body + ['='];
    KeepConcat(body, ['='], NotPadding);
    KeepUnchanged(body, NotPadding);
  }

  // ---------------------------------------------------------------------------
  // POST /login_with_password

  datatype Redirect = Redirect(redirect: string, isu: int)

  const SelectUsernamePath := "/auth/register/select_username"
  const DashboardPath := "/auth/dashboard"

  /** The mock user info of the test-account shortcut. */
  const TestUser := UserInfo(999999, Some("other"), Some("2000-01-01"), [Group(Some(4), Some("Test Faculty"))])

  predicate IsTestLogin(username: string, password: string) {
    username == "999999" && password == "test"
  }

  /** The login route. `provider` is the outcome of the identity-provider
      round-trip: the user info, or the HTTP error it ended with. A user the
      store does not know yet is created and sent to pick a username. */
  method LoginWithPassword(db: Database, username: string, password: string, provider: Result<UserInfo>)
    returns (r: Result<Redirect>)
    modifies db
    ensures db.likes == old(db.likes) && db.chats == old(db.chats) && db.results == old(db.results)
    ensures IsTestLogin(username, password) ==>
              && r == Ok(Redirect(SelectUsernamePath, 999999))
              && db.users == (if old(db.HasUser(999999)) then old(db.users) else old(db.users) + [NewUser(TestUser)])
    ensures !IsTestLogin(username, password) && provider.Err? ==>
              r == Err(provider.error) && db.users == old(db.users)
    ensures !IsTestLogin(username, password) && provider.Ok? && old(db.HasUser(provider.value.isu)) ==>
              r == Ok(Redirect(DashboardPath, provider.value.isu)) && db.users == old(db.users)
    ensures !IsTestLogin(username, password) && provider.Ok? && !old(db.HasUser(provider.value.isu)) ==>
              r == Ok(Redirect(SelectUsernamePath, provider.value.isu))
              && db.users == old(db.users) + [NewUser(provider.value)]
  {
    if IsTestLogin(username, password) {
      var existing := db.HasUser(TestUser.isu);
      if !existing {
        FillUserInfo(db, TestUser);
      }
      return Ok(Redirect(SelectUsernamePath, TestUser.isu));
    }
    if provider.Err? {
      return Err(provider.error);
    }
    var info := provider.value;
    var existing := db.HasUser(info.isu);
    if existing {
      r := Ok(Redirect(DashboardPath, info.isu));
    } else {
      FillUserInfo(db, info);
      r := Ok(Redirect(SelectUsernamePath, info.isu));
    }
  }
}
