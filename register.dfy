/** The registration routes. Each one validates its request, computes the
    `$set` it sends with `update_one({"isu": isu}, ...)`, and answers 404 when
    the store reports that nothing was modified. The update itself is the
    document store's business: its `modified_count` is a parameter. */
module Register {
  import opened Common
  import opened Store
  import Auth

  /** A record of the `tags` collection; `id` is the canonical text of its ObjectId. */
  datatype Tag = Tag(id: string, name: string, isSpecial: int)

  /** The `$set` document of one route. `SetFields` maps dotted paths to texts. */
  datatype UserUpdate =
    | SetUsername(username: string)
    | SetGenderPreferences(genderPrefs: seq<Entry>)
    | SetInterests(interests: seq<Entry>)
    | SetLogo(logo: string)
    | SetPhotos(photos: seq<string>)
    | SetRelationshipPreferences(relationshipPrefs: seq<Entry>)
    | SetFields(fields: map<string, string>)

  datatype UpdateOne = UpdateOne(isu: int, change: UserUpdate)

  datatype Reply = Reply(message: string, urls: seq<string>)

  /** What a route does: the update it sends (`None` when it stops before
      updating) and its answer. */
  datatype RouteResult = RouteResult(update: Option<UpdateOne>, response: Result<Reply>)

  function Rejected(e: HttpError): RouteResult {
    RouteResult(None, Err(e))
  }

  /** The answer once `update_one` has reported `modifiedCount`. */
  function UpdateReply(modifiedCount: nat, reply: Reply, notUpdated: string): (r: Result<Reply>)
    ensures r.Err? <==> modifiedCount == 0
    ensures r.Err? ==> r.error == HttpError(404, notUpdated)
    ensures r.Ok? ==> r.value == reply
  {
    if modifiedCount == 0 then Err(HttpError(404, notUpdated)) else Ok(reply)
  }

  function Updated(isu: int, change: UserUpdate, modifiedCount: nat, reply: Reply, notUpdated: string): RouteResult {
    RouteResult(Some(UpdateOne(isu, change)), UpdateReply(modifiedCount, reply, notUpdated))
  }

  // ---------------------------------------------------------------------------
  // POST /register/select_username and /register/select_preferences

  const UsernameNotUpdated := HttpError(404, "User not found or username not updated")
  const PreferenceNotUpdated := HttpError(404, "User not found or preference not updated")

  function SelectUsername(isu: int, username: string, modifiedCount: nat): (r: RouteResult)
    ensures r.update == Some(UpdateOne(isu, SetUsername(username)))
    ensures modifiedCount == 0 ==> r.response == Err(UsernameNotUpdated)
    ensures modifiedCount != 0 ==> r.response == Ok(Reply("Username updated successfully", []))
  {
    Updated(isu, SetUsername(username), modifiedCount,
            Reply("Username updated successfully", []), UsernameNotUpdated.detail)
  }

  function SelectPreferences(isu: int, genderPreference: string, modifiedCount: nat): (r: RouteResult)
    ensures r.update.Some? && r.update.value.isu == isu && r.update.value.change.SetGenderPreferences?
    ensures r.update.value.change.genderPrefs == [Entry(None, genderPreference, "gender_preferences")]
    ensures modifiedCount == 0 ==> r.response == Err(PreferenceNotUpdated)
    ensures modifiedCount != 0 ==> r.response == Ok(Reply("Gender preference updated successfully", []))
  {
    Updated(isu, SetGenderPreferences([Entry(None, genderPreference, "gender_preferences")]), modifiedCount,
            Reply("Gender preference updated successfully", []), PreferenceNotUpdated.detail)
  }

  // ---------------------------------------------------------------------------
  // Tag lookups

  /** `[ObjectId(t) for t in ids]`, or `None` when one of them is not an ObjectId. */
  function ParseIds(ids: seq<string>): (r: Option<seq<string>>)
    ensures r.Some? <==> forall i :: 0 <= i < |ids| ==> ParseObjectId(ids[i]).Some?
    ensures r.Some? ==> |r.value| == |ids|
    ensures r.Some? ==> forall i :: 0 <= i < |ids| ==> r.value[i] == ParseObjectId(ids[i]).value
  {
    if ids == [] then Some([])
    else
      var head := ParseObjectId(ids[0]);
      var rest := ParseIds(ids[1..]);
      assert forall i :: 1 <= i < |ids| ==> ids[i] == ids[1..][i - 1];
      if head.None? || rest.None? then None else Some([head.value] + rest.value)
  }

  predicate Selected(t: Tag, ids: seq<string>, specialOnly: bool) {
    t.id in ids && (specialOnly ==> t.isSpecial == 1)
  }

  /** `tags.find({"_id": {"$in": ids}})`, with `"is_special": 1` added to the
      filter when `specialOnly`; collection order. */
  function FindTags(tags: seq<Tag>, ids: seq<string>, specialOnly: bool): (r: seq<Tag>)
    ensures |r| <= |tags|
    ensures forall t :: t in r <==> t in tags && Selected(t, ids, specialOnly)
  {
    if tags == [] then []
    else
      var rest := FindTags(tags[1..], ids, specialOnly);
      assert forall t :: t in tags <==> t == tags[0] || t in tags[1..];
      if Selected(tags[0], ids, specialOnly) then [tags[0]] + rest else rest
  }

  /** The lookup keeps collection order: looking through two stretches of the
      collection finds the first stretch's tags, then the second's. */
  lemma {:induction false} FindTagsConcat(a: seq<Tag>, b: seq<Tag>, ids: seq<string>, specialOnly: bool)
    ensures FindTags(a + b, ids, specialOnly) == FindTags(a, ids, specialOnly) + FindTags(b, ids, specialOnly)
  {
    if a == [] {
      assert a + b == b;
    } else {
      assert (a + b)[1..] == a[1..] + b;
      FindTagsConcat(a[1..], b, ids, specialOnly);
    }
  }

  /** A one-tag collection gives that tag exactly when it is selected. */
  lemma FindTagsOne(t: Tag, ids: seq<string>, specialOnly: bool)
    ensures FindTags([t], ids, specialOnly) == if Selected(t, ids, specialOnly) then [t] else []
  {
    assert [t][1..] == [];
  }

  /** Ids are unique in the collection (they are `_id`s). */
  predicate DistinctIds(tags: seq<Tag>) {
    forall i, j :: 0 <= i < j < |tags| ==> tags[i].id != tags[j].id
  }

  ghost function SelectedIds(tags: seq<Tag>, ids: seq<string>, specialOnly: bool): set<string> {
    set t | t in tags && Selected(t, ids, specialOnly) :: t.id
  }

  /** The ids selected from a non-empty collection: its first tag's, if
      selected, and those of the rest. */
  lemma SelectedIdsCons(tags: seq<Tag>, ids: seq<string>, specialOnly: bool)
    requires tags != []
    ensures SelectedIds(tags, ids, specialOnly) ==
              (if Selected(tags[0], ids, specialOnly) then {tags[0].id} else {})
              + SelectedIds(tags[1..], ids, specialOnly)
  {
    assert forall t :: t in tags <==> t == tags[0] || t in tags[1..];
  }

  /** Past the first tag, ids stay unique and none repeats the first one. */
  lemma DistinctTail(tags: seq<Tag>, ids: seq<string>, specialOnly: bool)
    requires tags != [] && DistinctIds(tags)
    ensures DistinctIds(tags[1..])
    ensures tags[0].id !in SelectedIds(tags[1..], ids, specialOnly)
  {
    var rest := tags[1..];
    forall i, j | 0 <= i < j < |rest| ensures rest[i].id != rest[j].id {
      assert rest[i] == tags[i + 1] && rest[j] == tags[j + 1];
    }
    forall t | t in rest ensures t.id != tags[0].id {
      var j :| 0 <= j < |rest| && rest[j] == t;
      assert tags[j + 1] == t;
    }
  }

  /** With unique `_id`s, the lookup finds one document per matching id. */
  lemma {:induction false} FindTagsCount(tags: seq<Tag>, ids: seq<string>, specialOnly: bool)
    requires DistinctIds(tags)
    ensures |FindTags(tags, ids, specialOnly)| == |SelectedIds(tags, ids, specialOnly)|
  {
    if tags != [] {
      DistinctTail(tags, ids, specialOnly);
      FindTagsCount(tags[1..], ids, specialOnly);
      SelectedIdsCons(tags, ids, specialOnly);
    }
  }

  /** A list has at most as many distinct elements as entries. */
  lemma {:induction false} DistinctAtMostLength(ids: seq<string>)
    ensures |set x | x in ids| <= |ids|
  {
    if ids != [] {
      DistinctAtMostLength(ids[1..]);
      assert (set x | x in ids) == {ids[0]} + (set x | x in ids[1..]);
    }
  }

  /** The lookup finds fewer documents than ids were requested as soon as one
      requested id is not found, or the same id is requested twice. */
  lemma FindTagsShort(tags: seq<Tag>, ids: seq<string>, specialOnly: bool, missing: string)
    requires DistinctIds(tags)
    requires missing in ids
    requires forall t :: t in tags && t.id == missing ==> !Selected(t, ids, specialOnly)
    ensures |FindTags(tags, ids, specialOnly)| < |ids|
  {
    FindTagsCount(tags, ids, specialOnly);
    DistinctAtMostLength(ids);
    var found := SelectedIds(tags, ids, specialOnly);
    var all := set x | x in ids;
    assert found <= all - {missing};
    assert |all - {missing}| == |all| - 1;
    SubsetCardinality(found, all - {missing});
  }

  lemma {:induction false} SubsetCardinality(a: set<string>, b: set<string>)
    requires a <= b
    ensures |a| <= |b|
  {
    if a != {} {
      var x :| x in a;
      SubsetCardinality(a - {x}, b - {x});
    }
  }

  // ---------------------------------------------------------------------------
  // POST /register/select_tags

  /** The interests written: the found tags with `is_special == 0`, in found
      order, each with icon `tag`. */
  function Interests(found: seq<Tag>): (r: seq<Entry>)
    ensures |r| <= |found|
    ensures forall i :: 0 <= i < |r| ==> r[i].icon == "tag" && r[i].id.None?
    ensures forall t :: t in found && t.isSpecial == 0 ==> Entry(None, t.name, "tag") in r
    ensures forall e :: e in r ==> exists t :: t in found && t.isSpecial == 0 && e == Entry(None, t.name, "tag")
    ensures (forall t :: t in found ==> t.isSpecial != 0) ==> r == []
  {
    if found == [] then []
    else
      var rest := Interests(found[1..]);
      assert forall t :: t in found <==> t == found[0] || t in found[1..];
      if found[0].isSpecial == 0 then [Entry(None, found[0].name, "tag")] + rest else rest
  }

  /** The interests keep the found order, one entry per non-special tag:
      the entries of two stretches are those of the first, then the second's. */
  lemma {:induction false} InterestsConcat(a: seq<Tag>, b: seq<Tag>)
    ensures Interests(a + b) == Interests(a) + Interests(b)
  {
    if a == [] {
      assert a + b == b;
    } else {
      assert (a + b)[1..] == a[1..] + b;
      InterestsConcat(a[1..], b);
    }
  }

  /** A single found tag gives its entry when it is an ordinary tag, and
      nothing when it is special. */
  lemma InterestsOne(t: Tag)
    ensures Interests([t]) == if t.isSpecial == 0 then [Entry(None, t.name, "tag")] else []
  {
    assert [t][1..] == [];
  }

  const InvalidTagId := HttpError(400, "Invalid tag ID format")
  const MissingTags := HttpError(404, "Some tags do not exist")
  const TagsNotUpdated := HttpError(404, "User not found or tags not updated")

  /** `select_tags` over the `tags` collection `tags`. */
  function SelectTags(isu: int, tagIds: seq<string>, tags: seq<Tag>, modifiedCount: nat): (r: RouteResult)
    ensures ParseIds(tagIds).None? ==> r == Rejected(InvalidTagId)
    ensures ParseIds(tagIds).Some? && |FindTags(tags, ParseIds(tagIds).value, false)| != |tagIds| ==>
              r == Rejected(MissingTags)
    ensures r.update.Some? <==>
              ParseIds(tagIds).Some? && |FindTags(tags, ParseIds(tagIds).value, false)| == |tagIds|
    ensures r.update.Some? ==>
              && r.update.value == UpdateOne(isu, SetInterests(Interests(FindTags(tags, ParseIds(tagIds).value, false))))
              && (modifiedCount == 0 ==> r.response == Err(TagsNotUpdated))
              && (modifiedCount != 0 ==>
                    r.response == Ok(Reply("Tags selected successfully, proceed to the next step", [])))
  {
    var ids := ParseIds(tagIds);
    if ids.None? then Rejected(InvalidTagId)
    else
      var found := FindTags(tags, ids.value, false);
      if |found| != |ids.value| then Rejected(MissingTags)
      else Updated(isu, SetInterests(Interests(found)), modifiedCount,
                   Reply("Tags selected successfully, proceed to the next step", []),
                   TagsNotUpdated.detail)
  }

  // ---------------------------------------------------------------------------
  // POST /register/select_relationship

  function RelationshipEntries(found: seq<Tag>): (r: seq<Entry>)
    ensures |r| == |found|
    ensures forall i :: 0 <= i < |found| ==> r[i] == Entry(Some(found[i].id), found[i].name, "relationship_preferences")
  {
    seq(|found|, i requires 0 <= i < |found| => Entry(Some(found[i].id), found[i].name, "relationship_preferences"))
  }

  const InvalidPreferenceId := HttpError(400, "Invalid preference ID format")
  const MissingPreferences := HttpError(404, "Some preferences do not exist")
  const PreferencesNotUpdated := HttpError(404, "User not found or preferences not updated")

  function SelectRelationship(isu: int, preferenceIds: seq<string>, tags: seq<Tag>, modifiedCount: nat): (r: RouteResult)
    ensures ParseIds(preferenceIds).None? ==> r == Rejected(InvalidPreferenceId)
    ensures ParseIds(preferenceIds).Some? && |FindTags(tags, ParseIds(preferenceIds).value, true)| != |preferenceIds| ==>
              r == Rejected(MissingPreferences)
    ensures r.update.Some? <==>
              ParseIds(preferenceIds).Some? && |FindTags(tags, ParseIds(preferenceIds).value, true)| == |preferenceIds|
    ensures r.update.Some? ==>
              && r.update.value == UpdateOne(isu, SetRelationshipPreferences(
                   RelationshipEntries(FindTags(tags, ParseIds(preferenceIds).value, true))))
              && (modifiedCount == 0 ==> r.response == Err(PreferencesNotUpdated))
              && (modifiedCount != 0 ==> r.response == Ok(Reply(
                    "Relationship preferences selected successfully, proceed to the next step", [])))
  {
    var ids := ParseIds(preferenceIds);
    if ids.None? then Rejected(InvalidPreferenceId)
    else
      var found := FindTags(tags, ids.value, true);
      if |found| != |ids.value| then Rejected(MissingPreferences)
      else Updated(isu, SetRelationshipPreferences(RelationshipEntries(found)), modifiedCount,
                   Reply("Relationship preferences selected successfully, proceed to the next step", []),
                   PreferencesNotUpdated.detail)
  }

  /** Asking for an ordinary (non-special) tag as a relationship preference
      always ends in 404, whatever else is asked for. */
  lemma NonSpecialPreferenceRejected(isu: int, preferenceIds: seq<string>, tags: seq<Tag>, modifiedCount: nat, t: Tag)
    requires DistinctIds(tags)
    requires ParseIds(preferenceIds).Some?
    requires t in tags && t.id in ParseIds(preferenceIds).value && t.isSpecial != 1
    ensures SelectRelationship(isu, preferenceIds, tags, modifiedCount) == Rejected(MissingPreferences)
  {
    var ids := ParseIds(preferenceIds).value;
    forall u | u in tags && u.id == t.id ensures !Selected(u, ids, true) {
      var i :| 0 <= i < |tags| && tags[i] == u;
      var j :| 0 <= j < |tags| && tags[j] == t;
      assert i == j;
    }
    FindTagsShort(tags, ids, true, t.id);
  }

  /** A list with a repeated entry has fewer distinct elements than entries. */
  lemma RepeatShrinks(ids: seq<string>, i: nat, j: nat)
    requires i < j < |ids| && ids[i] == ids[j]
    ensures |set x | x in ids| < |ids|
  {
    var rest := ids[..j] + ids[j + 1..];
    assert ids == ids[..j] + [ids[j]] + ids[j + 1..];
    assert ids[i] == rest[i];
    assert (set x | x in ids) == set x | x in rest;
    DistinctAtMostLength(rest);
  }

  /** Asking for the same tag twice ends in 404, as the lookup finds it once. */
  lemma DuplicateTagRejected(isu: int, tagIds: seq<string>, tags: seq<Tag>, modifiedCount: nat, i: nat, j: nat)
    requires DistinctIds(tags)
    requires ParseIds(tagIds).Some?
    requires i < j < |tagIds| && ParseIds(tagIds).value[i] == ParseIds(tagIds).value[j]
    ensures SelectTags(isu, tagIds, tags, modifiedCount) == Rejected(MissingTags)
  {
    var ids := ParseIds(tagIds).value;
    RepeatShrinks(ids, i, j);
    FindTagsCount(tags, ids, false);
    SubsetCardinality(SelectedIds(tags, ids, false), set x | x in ids);
  }

  // ---------------------------------------------------------------------------
  // POST /register/profile_details

  const HeightPath := "mainFeatures.0.text"
  const ZodiacPath := "mainFeatures.1.text"
  const WeightPath := "mainFeatures.2.text"

  /** A number the request carries that Python finds true: present and non-zero. */
  predicate Given(x: Option<real>) {
    x.Some? && x.value != 0.0
  }

  predicate GivenText(s: Option<string>) {
    s.Some? && s.value != ""
  }

  /** The `$set` of `add_profile_details`: `show` is Python's text of a float.
      Every empty value is dropped, so it never overwrites stored data. */
  function DetailsUpdate(bio: Option<string>, height: Option<real>, weight: Option<real>,
                         zodiacSign: Option<string>, show: real -> string): (r: map<string, string>)
    ensures r.Keys <= {"bio", HeightPath, ZodiacPath, WeightPath}
    ensures forall k :: k in r ==> r[k] != ""
    ensures "bio" in r <==> GivenText(bio)
    ensures "bio" in r ==> r["bio"] == bio.value
    ensures HeightPath in r <==> Given(height)
    ensures HeightPath in r ==> r[HeightPath] == show(height.value) + " cm"
    ensures WeightPath in r <==> Given(weight)
    ensures WeightPath in r ==> r[WeightPath] == show(weight.value) + " kg"
    ensures ZodiacPath in r <==> GivenText(zodiacSign)
    ensures ZodiacPath in r ==> r[ZodiacPath] == zodiacSign.value
  {
    var data := map[
      "bio" := bio.GetOr(""),
      HeightPath := if Given(height) then show(height.value) + " cm" else "",
      WeightPath := if Given(weight) then show(weight.value) + " kg" else "",
      ZodiacPath := if GivenText(zodiacSign) then zodiacSign.value else ""];
    map k | k in data && data[k] != "" :: data[k]
  }

  const DetailsNotUpdated := HttpError(404, "User not found or profile details not updated")

  function ProfileDetails(isu: int, bio: Option<string>, height: Option<real>, weight: Option<real>,
                          zodiacSign: Option<string>, show: real -> string, modifiedCount: nat): (r: RouteResult)
    ensures r.update == Some(UpdateOne(isu, SetFields(DetailsUpdate(bio, height, weight, zodiacSign, show))))
    ensures modifiedCount == 0 ==> r.response == Err(DetailsNotUpdated)
    ensures modifiedCount != 0 ==> r.response == Ok(Reply("Profile details updated successfully", []))
  {
    Updated(isu, SetFields(DetailsUpdate(bio, height, weight, zodiacSign, show)), modifiedCount,
            Reply("Profile details updated successfully", []), DetailsNotUpdated.detail)
  }

  /** What the three `mainFeatures.N.text` paths of a `$set` do to a feature
      list that has those positions. */
  function ApplyFeatureTexts(features: seq<Entry>, fields: map<string, string>): (r: seq<Entry>)
    requires |features| >= 3
    ensures |r| == |features|
  {
    var withHeight := if HeightPath in fields then features[0 := features[0].(text := fields[HeightPath])] else features;
    var withZodiac := if ZodiacPath in fields then withHeight[1 := withHeight[1].(text := fields[ZodiacPath])] else withHeight;
    if WeightPath in fields then withZodiac[2 := withZodiac[2].(text := fields[WeightPath])] else withZodiac
  }

  /** The positions the details route writes agree with the layout a new user
      gets at login: height lands on the `height` entry, the zodiac sign on
      `zodiac_sign`, weight on `weight`, and gender and birthdate are kept. */
  lemma DetailsMatchNewUserLayout(info: Auth.UserInfo, bio: Option<string>, height: Option<real>,
                                  weight: Option<real>, zodiacSign: Option<string>, show: real -> string)
    ensures var before := Auth.NewUser(info).mainFeatures.value;
            var after := ApplyFeatureTexts(before, DetailsUpdate(bio, height, weight, zodiacSign, show));
            && after[0].icon == "height" && after[1].icon == "zodiac_sign" && after[2].icon == "weight"
            && (Given(height) ==> after[0].text == show(height.value) + " cm")
            && (GivenText(zodiacSign) ==> after[1].text == zodiacSign.value)
            && (Given(weight) ==> after[2].text == show(weight.value) + " kg")
            && (!Given(height) ==> after[0] == before[0])
            && (!GivenText(zodiacSign) ==> after[1] == before[1])
            && (!Given(weight) ==> after[2] == before[2])
            && after[3..] == before[3..]
  {
    var before := Auth.NewUser(info).mainFeatures.value;
    assert before[0].icon == Auth.FeatureIcons[0] && before[1].icon == Auth.FeatureIcons[1];
    assert before[2].icon == Auth.FeatureIcons[2];
  }

  // ---------------------------------------------------------------------------
  // POST /register/upload_logo and /register/upload_carousel

  /** `filename.split(".")[-1]`: the text after the last dot, or the whole
      name when it has none. */
  function Extension(filename: string): (ext: string)
    ensures '.' !in ext && |ext| <= |filename|
  {
    if filename == [] then []
    else if filename[|filename| - 1] == '.' then []
    else Extension(filename[..|filename| - 1]) + [filename[|filename| - 1]]
  }

  /** The extension is the part of the name after its last dot: a suffix of
      the name, preceded by a dot exactly when the name has one. */
  lemma {:induction false} ExtensionIsLastSegment(filename: string)
    ensures var ext := Extension(filename);
            && ext == filename[|filename| - |ext|..]
            && ('.' in filename <==> |ext| < |filename|)
            && (|ext| < |filename| ==> filename[|filename| - |ext| - 1] == '.')
  {
    if filename != [] && filename[|filename| - 1] != '.' {
      var init := filename[..|filename| - 1];
      ExtensionIsLastSegment(init);
      assert filename == init + [filename[|filename| - 1]];
      assert forall c :: c in filename <==> c in init || c == filename[|filename| - 1];
    }
  }

  /** The extension of a name that ends in a dot and a dot-free text is that text. */
  lemma {:induction false} ExtensionAfterDot(prefix: string, ext: string)
    requires '.' !in ext
    ensures Extension(prefix + "." + ext) == ext
  {
    if ext != [] {
      var init := ext[..|ext| - 1];
      assert prefix + "." + ext == (prefix + "." + init) + [ext[|ext| - 1]];
      assert '.' !in init by { assert forall c :: c in init ==> c in ext; }
      ExtensionAfterDot(prefix, init);
      assert (prefix + "." + ext)[..|prefix + "." + ext| - 1] == prefix + "." + init;
      assert ext == init + [ext[|ext| - 1]];
    }
  }

  lemma PrefixOfAppend(a: string, b: string)
    ensures a <= a + b
  {
    assert (a + b)[..|a|] == a;
  }

  /** The MinIO object name of an upload, `<folder>/<isu>_<uuid>.<ext>`: it
      lives under its folder and keeps the uploaded file's extension. */
  function ObjectName(folder: string, isu: int, uuid: string, filename: string): (name: string)
    ensures folder + "/" <= name
    ensures Extension(name) == Extension(filename)
  {
    var dir := folder + "/";
    var stem := dir + IntToString(isu) + "_" + uuid;
    var ext := Extension(filename);
    ExtensionAfterDot(stem, ext);
    PrefixOfAppend(dir, IntToString(isu) + "_" + uuid + "." + ext);
    assert stem + "." + ext == dir + (IntToString(isu) + "_" + uuid + "." + ext);
    stem + "." + ext
  }

  const LogoNotUploaded := HttpError(404, "User not found or logo not uploaded")
  const CarouselNotUpdated := HttpError(404, "User not found or carousel photos not updated")

  /** `upload_logo`: `uuid` is the `uuid4` text, `upload` stores an object
      under the given name and returns its URL. */
  function UploadLogo(isu: int, filename: string, uuid: string, upload: string -> string, modifiedCount: nat): (r: RouteResult)
    ensures r.update == Some(UpdateOne(isu, SetLogo(upload(ObjectName("logos", isu, uuid, filename)))))
    ensures modifiedCount == 0 ==> r.response == Err(LogoNotUploaded)
    ensures modifiedCount != 0 ==>
              r.response == Ok(Reply("Avatar uploaded successfully", [upload(ObjectName("logos", isu, uuid, filename))]))
  {
    var url := upload(ObjectName("logos", isu, uuid, filename));
    Updated(isu, SetLogo(url), modifiedCount, Reply("Avatar uploaded successfully", [url]), LogoNotUploaded.detail)
  }

  /** `upload_carousel`: uploads the files one by one (`uuid(i)` is the
      `uuid4` text drawn for the i-th file) and stores the URLs in order. */
  method UploadCarousel(isu: int, filenames: seq<string>, uuid: nat -> string, upload: string -> string,
                        modifiedCount: nat) returns (r: RouteResult)
    ensures r.update.Some? && r.update.value.isu == isu && r.update.value.change.SetPhotos?
    ensures var urls := r.update.value.change.photos;
            && |urls| == |filenames|
            && forall i :: 0 <= i < |filenames| ==> urls[i] == upload(ObjectName("carousel", isu, uuid(i), filenames[i]))
    ensures modifiedCount == 0 ==> r.response == Err(CarouselNotUpdated)
    ensures modifiedCount != 0 ==>
              r.response == Ok(Reply("Carousel photos uploaded successfully", r.update.value.change.photos))
  {
    var carouselUrls: seq<string> := [];
    var i := 0;
    while i < |filenames|
      invariant 0 <= i <= |filenames|
      invariant |carouselUrls| == i
      invariant forall j :: 0 <= j < i ==> carouselUrls[j] == upload(ObjectName("carousel", isu, uuid(j), filenames[j]))
    {
      var fileUrl := upload(ObjectName("carousel", isu, uuid(i), filenames[i]));
      ghost var uploaded := carouselUrls;
      carouselUrls := carouselUrls + [fileUrl];
      assert forall j :: 0 <= j < i ==> carouselUrls[j] == uploaded[j];
      i := i + 1;
    }
    var reply := Reply("Carousel photos uploaded successfully", carouselUrls);
    r := RouteResult(Some(UpdateOne(isu, SetPhotos(carouselUrls))),
                     UpdateReply(modifiedCount, reply, CarouselNotUpdated.detail));
  }
}
