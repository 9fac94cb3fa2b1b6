/**
 * The record schema of `tweet_harvest/models.py`: pydantic models in which
 * almost every field is `Optional` with a default. `model_validate` is a
 * total function from a decoded JSON value to a record or a validation
 * error. Unknown keys are ignored (pydantic's default), aliased fields are
 * read under their alias only, an explicit `null` gives None rather than the
 * default, and a value of the wrong JSON type is an error.
 */
module Models {
  import opened Values

  /** The outcome of `Model.model_validate(data)`. */
  datatype Validated<+T> = Ok(value: T) | ValidationError
  {
    predicate IsFailure() { ValidationError? }

    function PropagateFailure<U>(): Validated<U>
      requires ValidationError?
    {
      ValidationError
    }

    function Extract(): T
      requires Ok?
    {
      value
    }
  }

  // ---------------------------------------------------------------------------
  // Field validators (pydantic v2, lax mode, Python input)
  // ---------------------------------------------------------------------------

  /** An `Optional[str]` field with a default. */
  function StrField(m: map<string, Json>, key: string, default: Option<string>): Validated<Option<string>>
  {
    if key !in m then Ok(default)
    else match m[key]
      case JNull => Ok(None)
      case JStr(s) => Ok(Some(s))
      case _ => ValidationError
  }

  /** An `Optional[int]` field with a default; lax mode also takes a bool as 0 or 1. */
  function IntField(m: map<string, Json>, key: string, default: Option<int>): Validated<Option<int>>
  {
    if key !in m then Ok(default)
    else match m[key]
      case JNull => Ok(None)
      case JInt(n) => Ok(Some(n))
      case JBool(b) => Ok(Some(if b then 1 else 0))
      case _ => ValidationError
  }

  /** An `Optional[dict]` field with a default. */
  function DictField(m: map<string, Json>, key: string, default: Option<map<string, Json>>): Validated<Option<map<string, Json>>>
  {
    if key !in m then Ok(default)
    else match m[key]
      case JNull => Ok(None)
      case JObj(o) => Ok(Some(o))
      case _ => ValidationError
  }

  /** The key is absent or holds a value an `Optional[str]` field accepts. */
  predicate StrOk(m: map<string, Json>, key: string)
  {
    key !in m || m[key].JNull? || m[key].JStr?
  }

  /** The key is absent or holds a value an `Optional[int]` field accepts. */
  predicate IntOk(m: map<string, Json>, key: string)
  {
    key !in m || m[key].JNull? || m[key].JInt? || m[key].JBool?
  }

  /** The key is absent or holds a value an `Optional[dict]` field accepts. */
  predicate DictOk(m: map<string, Json>, key: string)
  {
    key !in m || m[key].JNull? || m[key].JObj?
  }

  // ---------------------------------------------------------------------------
  // Author records
  // ---------------------------------------------------------------------------

  datatype UserCore = UserCore(name: Option<string>, screenName: Option<string>)

  function ValidateUserCore(j: Json): Validated<UserCore>
  {
    if !j.JObj? then ValidationError
    else
      var name :- StrField(j.obj, "name", Some(""));
      var screenName :- StrField(j.obj, "screen_name", Some(""));
      Ok(UserCore(name, screenName))
  }

  datatype Location = Location(location: Option<string>)

  function ValidateLocation(j: Json): Validated<Location>
  {
    if !j.JObj? then ValidationError
    else
      var location :- StrField(j.obj, "location", Some(""));
      Ok(Location(location))
  }

  datatype UserLegacy = UserLegacy(
    createdAt: Option<string>,
    description: Option<string>,
    followersCount: Option<int>,
    friendsCount: Option<int>,
    mediaCount: Option<int>,
    statusesCount: Option<int>,
    profileImageUrlHttps: Option<string>)

  function ValidateUserLegacy(j: Json): Validated<UserLegacy>
  {
    if !j.JObj? then ValidationError
    else
      var m := j.obj;
      var createdAt :- StrField(m, "created_at", Some(""));
      var description :- StrField(m, "description", Some(""));
      var followersCount :- IntField(m, "followers_count", Some(0));
      var friendsCount :- IntField(m, "friends_count", Some(0));
      var mediaCount :- IntField(m, "media_count", Some(0));
      var statusesCount :- IntField(m, "statuses_count", Some(0));
      var profileImageUrlHttps :- StrField(m, "profile_image_url_https", Some(""));
      Ok(UserLegacy(createdAt, description, followersCount, friendsCount, mediaCount, statusesCount, profileImageUrlHttps))
  }

  datatype User = User(legacy: Option<UserLegacy>, core: Option<UserCore>, location: Option<Location>)

  /** An `Optional[Model] = None` field: absent or null gives None, anything else is validated. */
  function ModelField<T>(m: map<string, Json>, key: string, validate: Json -> Validated<T>): Validated<Option<T>>
  {
    if key !in m || m[key] == JNull then Ok(None)
    else
      var v :- validate(m[key]);
      Ok(Some(v))
  }

  function ValidateUser(j: Json): Validated<User>
  {
    if !j.JObj? then ValidationError
    else
      var legacy :- ModelField(j.obj, "legacy", ValidateUserLegacy);
      var core :- ModelField(j.obj, "core", ValidateUserCore);
      var location :- ModelField(j.obj, "location", ValidateLocation);
      Ok(User(legacy, core, location))
  }

  // ---------------------------------------------------------------------------
  // Post records
  // ---------------------------------------------------------------------------

  datatype TweetLegacy = TweetLegacy(
    createdAt: Option<string>,
    conversationIdStr: Option<string>,
    fullText: Option<string>,
    favoriteCount: Option<int>,
    quoteCount: Option<int>,
    replyCount: Option<int>,
    retweetCount: Option<int>,
    lang: Option<string>,
    idStr: string,
    userIdStr: Option<string>,
    inReplyToScreenName: Option<string>,
    entities: Option<map<string, Json>>)

  /** `id_str: str` is the one required field: it must be present and a string (possibly empty). */
  function IdStrField(m: map<string, Json>): Validated<string>
  {
    if "id_str" in m && m["id_str"].JStr? then Ok(m["id_str"].s) else ValidationError
  }

  function ValidateTweetLegacy(j: Json): Validated<TweetLegacy>
  {
    if !j.JObj? then ValidationError
    else
      var m := j.obj;
      var createdAt :- StrField(m, "created_at", Some(""));
      var conversationIdStr :- StrField(m, "conversation_id_str", Some(""));
      var fullText :- StrField(m, "full_text", Some(""));
      var favoriteCount :- IntField(m, "favorite_count", Some(0));
      var quoteCount :- IntField(m, "quote_count", Some(0));
      var replyCount :- IntField(m, "reply_count", Some(0));
      var retweetCount :- IntField(m, "retweet_count", Some(0));
      var lang :- StrField(m, "lang", Some(""));
      var idStr :- IdStrField(m);
      var userIdStr :- StrField(m, "user_id_str", Some(""));
      var inReplyToScreenName :- StrField(m, "in_reply_to_screen_name", None);
      var entities :- DictField(m, "entities", Some(map[]));
      Ok(TweetLegacy(createdAt, conversationIdStr, fullText, favoriteCount, quoteCount, replyCount,
                     retweetCount, lang, idStr, userIdStr, inReplyToScreenName, entities))
  }

  datatype TweetResult = TweetResult(restId: Option<string>, legacy: Option<TweetLegacy>, core: Option<map<string, Json>>)

  function ValidateTweetResult(j: Json): Validated<TweetResult>
  {
    if !j.JObj? then ValidationError
    else
      var restId :- StrField(j.obj, "rest_id", Some(""));
      var legacy :- ModelField(j.obj, "legacy", ValidateTweetLegacy);
      var core :- DictField(j.obj, "core", Some(map[]));
      Ok(TweetResult(restId, legacy, core))
  }

  // ---------------------------------------------------------------------------
  // Timeline entries
  // ---------------------------------------------------------------------------

  datatype TweetItem = TweetItem(itemContent: Option<map<string, Json>>)

  /** `item_content` is read from the alias `itemContent` only. */
  function ValidateTweetItem(j: Json): Validated<TweetItem>
  {
    if !j.JObj? then ValidationError
    else
      var itemContent :- DictField(j.obj, "itemContent", None);
      Ok(TweetItem(itemContent))
  }

  /** `List[TweetItem]`: every element must validate. */
  function ValidateItems(items: seq<Json>): (r: Validated<seq<TweetItem>>)
    ensures r.Ok? ==> |r.value| == |items|
    ensures r.Ok? <==> forall i :: 0 <= i < |items| ==> ValidateTweetItem(items[i]).Ok?
    ensures r.Ok? ==> forall i :: 0 <= i < |items| ==> ValidateTweetItem(items[i]) == Ok(r.value[i])
  {
    if items == [] then Ok([])
    else
      var first :- ValidateTweetItem(items[0]);
      var rest :- ValidateItems(items[1..]);
      Ok([first] + rest)
  }

  datatype EntryContent = EntryContent(itemContent: Option<map<string, Json>>, items: Option<seq<TweetItem>>)

  function ValidateEntryContent(j: Json): Validated<EntryContent>
  {
    if !j.JObj? then ValidationError
    else
      var itemContent :- DictField(j.obj, "itemContent", None);
      var items :-
        if "items" !in j.obj || j.obj["items"] == JNull then Ok(None)
        else if j.obj["items"].JArr? then
          var list :- ValidateItems(j.obj["items"].items);
          Ok(Some(list))
        else ValidationError;
      Ok(EntryContent(itemContent, items))
  }

  datatype Entry = Entry(entryId: string, content: Option<EntryContent>)

  /** `entry_id: str = Field(..., alias='entryId')`: required, read from `entryId`. */
  function ValidateEntry(j: Json): Validated<Entry>
  {
    if !j.JObj? then ValidationError
    else if !("entryId" in j.obj && j.obj["entryId"].JStr?) then ValidationError
    else
      var content :- ModelField(j.obj, "content", ValidateEntryContent);
      Ok(Entry(j.obj["entryId"].s, content))
  }

  // ---------------------------------------------------------------------------
  // Serialisation (`model_dump` by alias), the inverse of validation
  // ---------------------------------------------------------------------------

  function StrJson(o: Option<string>): Json
  {
    match o
    case None => JNull
    case Some(s) => JStr(s)
  }

  function IntJson(o: Option<int>): Json
  {
    match o
    case None => JNull
    case Some(n) => JInt(n)
  }

  function DictJson(o: Option<map<string, Json>>): Json
  {
    match o
    case None => JNull
    case Some(d) => JObj(d)
  }

  function UserCoreJson(u: UserCore): Json
  {
    JObj(map["name" := StrJson(u.name), "screen_name" := StrJson(u.screenName)])
  }

  function LocationJson(l: Location): Json
  {
    JObj(map["location" := StrJson(l.location)])
  }

  function UserLegacyJson(u: UserLegacy): Json
  {
    JObj(map[
      "created_at" := StrJson(u.createdAt),
      "description" := StrJson(u.description),
      "followers_count" := IntJson(u.followersCount),
      "friends_count" := IntJson(u.friendsCount),
      "media_count" := IntJson(u.mediaCount),
      "statuses_count" := IntJson(u.statusesCount),
      "profile_image_url_https" := StrJson(u.profileImageUrlHttps)])
  }

  function OptJson<T>(o: Option<T>, encode: T -> Json): Json
  {
    match o
    case None => JNull
    case Some(v) => encode(v)
  }

  function UserJson(u: User): Json
  {
    JObj(map[
      "legacy" := OptJson(u.legacy, UserLegacyJson),
      "core" := OptJson(u.core, UserCoreJson),
      "location" := OptJson(u.location, LocationJson)])
  }

  function TweetLegacyJson(t: TweetLegacy): Json
  {
    JObj(map[
      "created_at" := StrJson(t.createdAt),
      "conversation_id_str" := StrJson(t.conversationIdStr),
      "full_text" := StrJson(t.fullText),
      "favorite_count" := IntJson(t.favoriteCount),
      "quote_count" := IntJson(t.quoteCount),
      "reply_count" := IntJson(t.replyCount),
      "retweet_count" := IntJson(t.retweetCount),
      "lang" := StrJson(t.lang),
      "id_str" := JStr(t.idStr),
      "user_id_str" := StrJson(t.userIdStr),
      "in_reply_to_screen_name" := StrJson(t.inReplyToScreenName),
      "entities" := DictJson(t.entities)])
  }

  function TweetResultJson(t: TweetResult): Json
  {
    JObj(map[
      "rest_id" := StrJson(t.restId),
      "legacy" := OptJson(t.legacy, TweetLegacyJson),
      "core" := DictJson(t.core)])
  }

  // ---------------------------------------------------------------------------
  // Properties of the schema
  // ---------------------------------------------------------------------------

  /** Validating what a record serialises to gives the record back. */
  lemma UserRoundTrip(u: User)
    ensures ValidateUser(UserJson(u)) == Ok(u)
  {
    var m := UserJson(u).obj;
    assert ModelField(m, "legacy", ValidateUserLegacy) == Ok(u.legacy) by {
      if u.legacy.Some? { UserLegacyRoundTrip(u.legacy.value); }
      ModelFieldRoundTrip(m, "legacy", ValidateUserLegacy, UserLegacyJson, u.legacy);
    }
    assert ModelField(m, "core", ValidateUserCore) == Ok(u.core) by {
      if u.core.Some? { UserCoreRoundTrip(u.core.value); }
      ModelFieldRoundTrip(m, "core", ValidateUserCore, UserCoreJson, u.core);
    }
    assert ModelField(m, "location", ValidateLocation) == Ok(u.location) by {
      if u.location.Some? { LocationRoundTrip(u.location.value); }
      ModelFieldRoundTrip(m, "location", ValidateLocation, LocationJson, u.location);
    }
  }

  lemma UserCoreRoundTrip(u: UserCore)
    ensures ValidateUserCore(UserCoreJson(u)) == Ok(u)
  {
    var m := UserCoreJson(u).obj;
    StrFieldRoundTrip(m, "name", u.name, Some(""));
    StrFieldRoundTrip(m, "screen_name", u.screenName, Some(""));
  }

  lemma LocationRoundTrip(l: Location)
    ensures ValidateLocation(LocationJson(l)) == Ok(l)
  {
    StrFieldRoundTrip(LocationJson(l).obj, "location", l.location, Some(""));
  }

  lemma UserLegacyRoundTrip(u: UserLegacy)
    ensures ValidateUserLegacy(UserLegacyJson(u)) == Ok(u)
  {
    var m := UserLegacyJson(u).obj;
    assert StrField(m, "created_at", Some("")) == Ok(u.createdAt) by { StrFieldRoundTrip(m, "created_at", u.createdAt, Some("")); }
    assert StrField(m, "description", Some("")) == Ok(u.description) by { StrFieldRoundTrip(m, "description", u.description, Some("")); }
    assert IntField(m, "followers_count", Some(0)) == Ok(u.followersCount) by { IntFieldRoundTrip(m, "followers_count", u.followersCount, Some(0)); }
    assert IntField(m, "friends_count", Some(0)) == Ok(u.friendsCount) by { IntFieldRoundTrip(m, "friends_count", u.friendsCount, Some(0)); }
    assert IntField(m, "media_count", Some(0)) == Ok(u.mediaCount) by { IntFieldRoundTrip(m, "media_count", u.mediaCount, Some(0)); }
    assert IntField(m, "statuses_count", Some(0)) == Ok(u.statusesCount) by { IntFieldRoundTrip(m, "statuses_count", u.statusesCount, Some(0)); }
    assert StrField(m, "profile_image_url_https", Some("")) == Ok(u.profileImageUrlHttps) by {
      StrFieldRoundTrip(m, "profile_image_url_https", u.profileImageUrlHttps, Some(""));
    }
  }

  /** A nested record serialised under `key` (or null) validates back through `ModelField`. */
  lemma ModelFieldRoundTrip<T>(m: map<string, Json>, key: string, validate: Json -> Validated<T>, encode: T -> Json, o: Option<T>)
    requires key in m && m[key] == OptJson(o, encode)
    requires o.Some? ==> encode(o.value).JObj? && validate(encode(o.value)) == Ok(o.value)
    ensures ModelField(m, key, validate) == Ok(o)
  {
  }

  /** Validating what a post serialises to gives the post back. */
  lemma TweetLegacyRoundTrip(t: TweetLegacy)
    ensures ValidateTweetLegacy(TweetLegacyJson(t)) == Ok(t)
  {
    TweetLegacyTextFields(t);
    TweetLegacyCountFields(t);
    TweetLegacyOtherFields(t);
  }

  /** The text fields of a serialised post validate back. */
  lemma TweetLegacyTextFields(t: TweetLegacy)
    ensures var m := TweetLegacyJson(t).obj;
      && StrField(m, "created_at", Some("")) == Ok(t.createdAt)
      && StrField(m, "conversation_id_str", Some("")) == Ok(t.conversationIdStr)
      && StrField(m, "full_text", Some("")) == Ok(t.fullText)
      && StrField(m, "lang", Some("")) == Ok(t.lang)
  {
    var m := TweetLegacyJson(t).obj;
    StrFieldRoundTrip(m, "created_at", t.createdAt, Some(""));
    StrFieldRoundTrip(m, "conversation_id_str", t.conversationIdStr, Some(""));
    StrFieldRoundTrip(m, "full_text", t.fullText, Some(""));
    StrFieldRoundTrip(m, "lang", t.lang, Some(""));
  }

  /** The counters of a serialised post validate back. */
  lemma TweetLegacyCountFields(t: TweetLegacy)
    ensures var m := TweetLegacyJson(t).obj;
      && IntField(m, "favorite_count", Some(0)) == Ok(t.favoriteCount)
      && IntField(m, "quote_count", Some(0)) == Ok(t.quoteCount)
      && IntField(m, "reply_count", Some(0)) == Ok(t.replyCount)
      && IntField(m, "retweet_count", Some(0)) == Ok(t.retweetCount)
  {
    var m := TweetLegacyJson(t).obj;
    IntFieldRoundTrip(m, "favorite_count", t.favoriteCount, Some(0));
    IntFieldRoundTrip(m, "quote_count", t.quoteCount, Some(0));
    IntFieldRoundTrip(m, "reply_count", t.replyCount, Some(0));
    IntFieldRoundTrip(m, "retweet_count", t.retweetCount, Some(0));
  }

  /** The id, the author fields and the entities of a serialised post validate back. */
  lemma TweetLegacyOtherFields(t: TweetLegacy)
    ensures var m := TweetLegacyJson(t).obj;
      && IdStrField(m) == Ok(t.idStr)
      && StrField(m, "user_id_str", Some("")) == Ok(t.userIdStr)
      && StrField(m, "in_reply_to_screen_name", None) == Ok(t.inReplyToScreenName)
      && DictField(m, "entities", Some(map[])) == Ok(t.entities)
  {
    var m := TweetLegacyJson(t).obj;
    assert "id_str" in m && m["id_str"] == JStr(t.idStr);
    StrFieldRoundTrip(m, "user_id_str", t.userIdStr, Some(""));
    StrFieldRoundTrip(m, "in_reply_to_screen_name", t.inReplyToScreenName, None);
    DictFieldRoundTrip(m, "entities", t.entities, Some(map[]));
  }

  lemma StrFieldRoundTrip(m: map<string, Json>, key: string, o: Option<string>, default: Option<string>)
    requires key in m && m[key] == StrJson(o)
    ensures StrField(m, key, default) == Ok(o)
  {
  }

  lemma IntFieldRoundTrip(m: map<string, Json>, key: string, o: Option<int>, default: Option<int>)
    requires key in m && m[key] == IntJson(o)
    ensures IntField(m, key, default) == Ok(o)
  {
  }

  lemma DictFieldRoundTrip(m: map<string, Json>, key: string, o: Option<map<string, Json>>, default: Option<map<string, Json>>)
    requires key in m && m[key] == DictJson(o)
    ensures DictField(m, key, default) == Ok(o)
  {
  }

  /** The same for the outer post record. */
  lemma TweetResultRoundTrip(t: TweetResult)
    ensures ValidateTweetResult(TweetResultJson(t)) == Ok(t)
  {
    var m := TweetResultJson(t).obj;
    assert StrField(m, "rest_id", Some("")) == Ok(t.restId) by { StrFieldRoundTrip(m, "rest_id", t.restId, Some("")); }
    assert ModelField(m, "legacy", ValidateTweetLegacy) == Ok(t.legacy) by {
      if t.legacy.Some? { TweetLegacyRoundTrip(t.legacy.value); }
      ModelFieldRoundTrip(m, "legacy", ValidateTweetLegacy, TweetLegacyJson, t.legacy);
    }
    assert DictField(m, "core", Some(map[])) == Ok(t.core) by { DictFieldRoundTrip(m, "core", t.core, Some(map[])); }
  }

  /** Every optional field of a post holds a value of an accepted type (or is absent). */
  predicate TweetLegacyOptionalsOk(m: map<string, Json>)
  {
    StrOk(m, "created_at") && StrOk(m, "conversation_id_str") && StrOk(m, "full_text")
    && IntOk(m, "favorite_count") && IntOk(m, "quote_count") && IntOk(m, "reply_count")
    && IntOk(m, "retweet_count") && StrOk(m, "lang") && StrOk(m, "user_id_str")
    && StrOk(m, "in_reply_to_screen_name") && DictOk(m, "entities")
  }

  /**
   * `id_str` is required: a well-typed object validates exactly when it has
   * an `id_str` that is a string, and the empty string is accepted.
   */
  lemma TweetLegacyRequiresId(m: map<string, Json>)
    requires TweetLegacyOptionalsOk(m)
    ensures ValidateTweetLegacy(JObj(m)).Ok? <==> "id_str" in m && m["id_str"].JStr?
    ensures ValidateTweetLegacy(JObj(m)).Ok? ==> ValidateTweetLegacy(JObj(m)).value.idStr == m["id_str"].s
  {
  }

  /** A post validates exactly when it is an object with well-typed fields and a string `id_str`. */
  lemma TweetLegacyValidIff(j: Json)
    ensures ValidateTweetLegacy(j).Ok? <==>
      j.JObj? && TweetLegacyOptionalsOk(j.obj) && "id_str" in j.obj && j.obj["id_str"].JStr?
  {
  }

  /** With only `id_str` given, every other field takes its declared default. */
  lemma TweetLegacyDefaults(id: string)
    ensures ValidateTweetLegacy(JObj(map["id_str" := JStr(id)])) ==
      Ok(TweetLegacy(Some(""), Some(""), Some(""), Some(0), Some(0), Some(0), Some(0),
                     Some(""), id, Some(""), None, Some(map[])))
  {
  }

  /** An explicit null validates to None, not to the default. */
  lemma TweetLegacyExplicitNull(m: map<string, Json>)
    requires ValidateTweetLegacy(JObj(m)).Ok?
    ensures var t := ValidateTweetLegacy(JObj(m)).value;
      && ("created_at" in m && m["created_at"] == JNull ==> t.createdAt == None)
      && ("conversation_id_str" in m && m["conversation_id_str"] == JNull ==> t.conversationIdStr == None)
      && ("full_text" in m && m["full_text"] == JNull ==> t.fullText == None)
      && ("favorite_count" in m && m["favorite_count"] == JNull ==> t.favoriteCount == None)
      && ("quote_count" in m && m["quote_count"] == JNull ==> t.quoteCount == None)
      && ("reply_count" in m && m["reply_count"] == JNull ==> t.replyCount == None)
      && ("retweet_count" in m && m["retweet_count"] == JNull ==> t.retweetCount == None)
      && ("lang" in m && m["lang"] == JNull ==> t.lang == None)
      && ("user_id_str" in m && m["user_id_str"] == JNull ==> t.userIdStr == None)
      && ("entities" in m && m["entities"] == JNull ==> t.entities == None)
  {
  }

  /** The keys `TweetLegacy` declares. */
  const TweetLegacyKeys: set<string> := {
    "created_at", "conversation_id_str", "full_text", "favorite_count", "quote_count",
    "reply_count", "retweet_count", "lang", "id_str", "user_id_str",
    "in_reply_to_screen_name", "entities"}

  /** Keys the model does not declare are ignored. */
  lemma TweetLegacyIgnoresUnknownKeys(m: map<string, Json>, k: string, v: Json)
    requires k !in TweetLegacyKeys
    ensures ValidateTweetLegacy(JObj(m[k := v])) == ValidateTweetLegacy(JObj(m))
  {
    var m2 := m[k := v];
    assert StrField(m2, "created_at", Some("")) == StrField(m, "created_at", Some("")) by { assert k != "created_at"; }
    assert StrField(m2, "conversation_id_str", Some("")) == StrField(m, "conversation_id_str", Some("")) by { assert k != "conversation_id_str"; }
    assert StrField(m2, "full_text", Some("")) == StrField(m, "full_text", Some("")) by { assert k != "full_text"; }
    assert IntField(m2, "favorite_count", Some(0)) == IntField(m, "favorite_count", Some(0)) by { assert k != "favorite_count"; }
    assert IntField(m2, "quote_count", Some(0)) == IntField(m, "quote_count", Some(0)) by { assert k != "quote_count"; }
    assert IntField(m2, "reply_count", Some(0)) == IntField(m, "reply_count", Some(0)) by { assert k != "reply_count"; }
    assert IntField(m2, "retweet_count", Some(0)) == IntField(m, "retweet_count", Some(0)) by { assert k != "retweet_count"; }
    assert StrField(m2, "lang", Some("")) == StrField(m, "lang", Some("")) by { assert k != "lang"; }
    assert IdStrField(m2) == IdStrField(m) by { assert k != "id_str"; }
    assert StrField(m2, "user_id_str", Some("")) == StrField(m, "user_id_str", Some("")) by { assert k != "user_id_str"; }
    assert StrField(m2, "in_reply_to_screen_name", None) == StrField(m, "in_reply_to_screen_name", None) by { assert k != "in_reply_to_screen_name"; }
    assert DictField(m2, "entities", Some(map[])) == DictField(m, "entities", Some(map[])) by { assert k != "entities"; }
  }

  /** `UserCore`, `Location` and `UserLegacy` have no required field: an empty object gives the defaults. */
  lemma UserSubRecordDefaults()
    ensures ValidateUserCore(EmptyObj) == Ok(UserCore(Some(""), Some("")))
    ensures ValidateLocation(EmptyObj) == Ok(Location(Some("")))
    ensures ValidateUserLegacy(EmptyObj) == Ok(UserLegacy(Some(""), Some(""), Some(0), Some(0), Some(0), Some(0), Some("")))
  {
  }

  /** The user sub-records fail only on a field of the wrong type, never on a missing key. */
  lemma UserSubRecordsValidIff(j: Json)
    ensures ValidateUserCore(j).Ok? <==> j.JObj? && StrOk(j.obj, "name") && StrOk(j.obj, "screen_name")
    ensures ValidateLocation(j).Ok? <==> j.JObj? && StrOk(j.obj, "location")
    ensures ValidateUserLegacy(j).Ok? <==>
      j.JObj? && StrOk(j.obj, "created_at") && StrOk(j.obj, "description")
      && IntOk(j.obj, "followers_count") && IntOk(j.obj, "friends_count")
      && IntOk(j.obj, "media_count") && IntOk(j.obj, "statuses_count")
      && StrOk(j.obj, "profile_image_url_https")
  {
  }

  /** A `User` never fails on missing keys: all three parts default to None. */
  lemma UserMissingKeys(m: map<string, Json>)
    requires "legacy" !in m && "core" !in m && "location" !in m
    ensures ValidateUser(JObj(m)) == Ok(User(None, None, None))
  {
  }

  /** A `TweetResult` defaults `rest_id` to "", `legacy` to None and `core` to {}, and validates without `legacy`. */
  lemma TweetResultDefaults(m: map<string, Json>)
    requires "rest_id" !in m && "legacy" !in m && "core" !in m
    ensures ValidateTweetResult(JObj(m)) == Ok(TweetResult(Some(""), None, Some(map[])))
  {
  }

  /** `entryId` is required and read under its alias; the Python name `entry_id` is not accepted. */
  lemma EntryRequiresAlias(m: map<string, Json>)
    ensures ValidateEntry(JObj(m)).Ok? ==> "entryId" in m && m["entryId"].JStr? && ValidateEntry(JObj(m)).value.entryId == m["entryId"].s
    ensures "entryId" !in m ==> ValidateEntry(JObj(m)) == ValidationError
    ensures ValidateEntry(JObj(map["entry_id" := JStr("tweet-1")])) == ValidationError
    ensures ValidateEntry(JObj(map["entryId" := JStr("tweet-1")])) == Ok(Entry("tweet-1", None))
  {
  }

  /** `EntryContent` reads `itemContent` (not `item_content`) and validates every element of `items`. */
  lemma EntryContentFields(m: map<string, Json>)
    ensures ValidateEntryContent(JObj(m)).Ok? ==>
      ValidateEntryContent(JObj(m)).value.itemContent ==
        (if "itemContent" in m && m["itemContent"].JObj? then Some(m["itemContent"].obj) else None)
    ensures ValidateEntryContent(JObj(map["item_content" := JObj(map["k" := JNull])])) == Ok(EntryContent(None, None))
    ensures "items" in m && m["items"].JArr? && ValidateEntryContent(JObj(m)).Ok? ==>
      ValidateEntryContent(JObj(m)).value.items.Some?
      && |ValidateEntryContent(JObj(m)).value.items.value| == |m["items"].items|
  {
  }
}
