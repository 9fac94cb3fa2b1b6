/**
 * The per-entry half of `TwitterCrawler._parse_and_save` and the row builder
 * `_prepare_csv_row` (`tweet_harvest/crawler.py`): each raw timeline entry
 * is validated, filtered and turned into one CSV row.
 *
 * An entry has one of three fates. It is skipped (a `continue`, or a
 * `ValidationError` caught by the per-entry `except`), it emits a row, or
 * it crashes: any other exception (`AttributeError`, `TypeError`,
 * `IndexError`, `KeyError`) escapes the loop and abandons the rest of the
 * payload.
 */
module Rows {
  import opened Values
  import opened Text
  import opened Models

  /** One CSV row. `image_url` is whatever JSON value the media item holds. */
  datatype Row = Row(
    createdAt: Option<string>,
    idStr: string,
    fullText: string,
    quoteCount: Option<int>,
    replyCount: Option<int>,
    retweetCount: Option<int>,
    favoriteCount: Option<int>,
    lang: Option<string>,
    userIdStr: Option<string>,
    conversationIdStr: Option<string>,
    username: Option<string>,
    tweetUrl: string,
    imageUrl: Json,
    location: Option<string>,
    inReplyToScreenName: Option<string>)

  /** The CSV header, `FILTERED_FIELDS` in `tweet_harvest/constants.py`. */
  const FilteredFields: seq<string> := [
    "created_at", "id_str", "full_text", "quote_count", "reply_count", "retweet_count",
    "favorite_count", "lang", "user_id_str", "conversation_id_str", "username",
    "tweet_url", "image_url", "location", "in_reply_to_screen_name"]

  function StrCell(o: Option<string>): Json
  {
    match o
    case None => JNull
    case Some(s) => JStr(s)
  }

  function IntCell(o: Option<int>): Json
  {
    match o
    case None => JNull
    case Some(n) => JInt(n)
  }

  /** The row as the dict handed to `csv.DictWriter`, as (key, value) pairs in insertion order. */
  function RowCells(row: Row): (cells: seq<(string, Json)>)
    ensures |cells| == |FilteredFields|
    ensures forall i :: 0 <= i < |cells| ==> cells[i].0 == FilteredFields[i]
  {
    [("created_at", StrCell(row.createdAt)),
     ("id_str", JStr(row.idStr)),
     ("full_text", JStr(row.fullText)),
     ("quote_count", IntCell(row.quoteCount)),
     ("reply_count", IntCell(row.replyCount)),
     ("retweet_count", IntCell(row.retweetCount)),
     ("favorite_count", IntCell(row.favoriteCount)),
     ("lang", StrCell(row.lang)),
     ("user_id_str", StrCell(row.userIdStr)),
     ("conversation_id_str", StrCell(row.conversationIdStr)),
     ("username", StrCell(row.username)),
     ("tweet_url", JStr(row.tweetUrl)),
     ("image_url", row.imageUrl),
     ("location", StrCell(row.location)),
     ("in_reply_to_screen_name", StrCell(row.inReplyToScreenName))]
  }

  /** `"https://x.com/{username}/status/{id_str}"`. */
  function TweetUrl(username: Option<string>, idStr: string): string
  {
    "https://x.com/" + Display(username) + "/status/" + idStr
  }

  /**
   * `entities.get("media", [{}])[0].get("media_url_https", "")`, or None
   * when that raises: no first element (`IndexError`), a first element
   * that is not a dict (`AttributeError`), or a `media` value that cannot
   * be indexed by 0 (`KeyError`, `TypeError`).
   */
  function ImageUrl(entities: map<string, Json>): (r: Option<Json>)
    ensures "media" !in entities ==> r == Some(JStr(""))
    ensures r.Some? ==> "media" !in entities || (entities["media"].JArr? && entities["media"].items != [])
    ensures "media" in entities && entities["media"].JArr? && entities["media"].items != [] && entities["media"].items[0].JObj? ==>
      r == Some(Get(entities["media"].items[0].obj, "media_url_https", JStr("")))
    ensures "media" in entities && !(entities["media"].JArr? && entities["media"].items != [] && entities["media"].items[0].JObj?) ==>
      r.None?
  {
    match Get(entities, "media", JArr([EmptyObj]))
    case JArr(media) =>
      if media != [] && media[0].JObj? then Some(Get(media[0].obj, "media_url_https", JStr(""))) else None
    case _ => None
  }

  /**
   * `_prepare_csv_row(tweet, user)`, or None when it raises: no `legacy`
   * (`AttributeError`), a null `full_text` (`TypeError` in `re.sub`), a
   * null `entities`, or a media list without a first dict.
   */
  function PrepareRow(tweet: TweetResult, user: User): (r: Option<Row>)
    ensures r.Some? <==>
      tweet.legacy.Some? && tweet.legacy.value.fullText.Some? && tweet.legacy.value.entities.Some?
      && ImageUrl(tweet.legacy.value.entities.value).Some?
    ensures r.Some? ==> r.value.idStr == tweet.legacy.value.idStr
    ensures r.Some? ==> r.value.tweetUrl == TweetUrl(r.value.username, r.value.idStr)
    ensures r.Some? ==> r.value.username == (if user.core.Some? then user.core.value.screenName else Some(""))
    ensures r.Some? ==> r.value.location == (if user.location.Some? then user.location.value.location else Some(""))
    ensures r.Some? ==> r.value.fullText == CleanText(tweet.legacy.value.fullText.value)
    ensures r.Some? ==> ImageUrl(tweet.legacy.value.entities.value) == Some(r.value.imageUrl)
    ensures r.Some? ==> r.value.createdAt == tweet.legacy.value.createdAt && r.value.lang == tweet.legacy.value.lang
    ensures r.Some? ==> r.value.quoteCount == tweet.legacy.value.quoteCount && r.value.replyCount == tweet.legacy.value.replyCount
    ensures r.Some? ==> r.value.retweetCount == tweet.legacy.value.retweetCount && r.value.favoriteCount == tweet.legacy.value.favoriteCount
    ensures r.Some? ==> r.value.userIdStr == tweet.legacy.value.userIdStr && r.value.conversationIdStr == tweet.legacy.value.conversationIdStr
    ensures r.Some? ==> r.value.inReplyToScreenName == tweet.legacy.value.inReplyToScreenName
  {
    if tweet.legacy.None? || tweet.legacy.value.fullText.None? then None
    else
      var legacy := tweet.legacy.value;
      var cleanText := CleanText(legacy.fullText.value);
      var username := if user.core.Some? then user.core.value.screenName else Some("");
      var location := if user.location.Some? then user.location.value.location else Some("");
      if legacy.entities.None? then None
      else
        match ImageUrl(legacy.entities.value)
        case None => None
        case Some(imageUrl) =>
          Some(Row(legacy.createdAt, legacy.idStr, cleanText, legacy.quoteCount, legacy.replyCount,
                   legacy.retweetCount, legacy.favoriteCount, legacy.lang, legacy.userIdStr,
                   legacy.conversationIdStr, username, TweetUrl(username, legacy.idStr), imageUrl,
                   location, legacy.inReplyToScreenName))
  }

  /** The fate of one raw entry. */
  datatype Verdict = Skip | Emit(row: Row) | Crash

  /** `if entry.content and entry.content.item_content`: a content record holding a non-empty dict. */
  predicate HasItemContent(entry: Entry)
  {
    entry.content.Some? && entry.content.value.itemContent.Some? && entry.content.value.itemContent.value != map[]
  }

  /** `self.lang_filter and tweet.legacy and tweet.legacy.lang != self.lang_filter`. */
  predicate LanguageRejects(langFilter: Option<string>, tweet: TweetResult)
  {
    Present(langFilter) && tweet.legacy.Some? && tweet.legacy.value.lang != langFilter
  }

  /** The body of the per-entry loop, lines 100-126. */
  function ProcessEntry(raw: Json, langFilter: Option<string>): Verdict
  {
    match ValidateEntry(raw)
    case ValidationError => Skip
    case Ok(entry) =>
      if !Contains(entry.entryId, "tweet") || !HasItemContent(entry) then Skip
      else
        var results := Get(entry.content.value.itemContent.value, "tweet_results", EmptyObj);
        if !results.JObj? then Crash
        else
          var tweetData := Get(results.obj, "result", EmptyObj);
          if !Truthy(tweetData) then Skip
          else if !tweetData.JObj? then Crash
          else
            var core := Get(tweetData.obj, "core", EmptyObj);
            if !core.JObj? then Crash
            else
              var userResults := Get(core.obj, "user_results", EmptyObj);
              if !userResults.JObj? then Crash
              else
                var userData := Get(userResults.obj, "result", EmptyObj);
                if !Truthy(userData) then Skip
                else
                  match ValidateTweetResult(tweetData)
                  case ValidationError => Skip
                  case Ok(tweet) =>
                    match ValidateUser(userData)
                    case ValidationError => Skip
                    case Ok(user) =>
                      if LanguageRejects(langFilter, tweet) then Skip
                      else
                        match PrepareRow(tweet, user)
                        case None => Crash
                        case Some(row) => Emit(row)
  }

  // ---------------------------------------------------------------------------
  // Properties
  // ---------------------------------------------------------------------------

  /**
   * The filters, stated as conditions on the entry: a row comes out only
   * for an entry whose id mentions "tweet", whose `itemContent` is
   * non-empty, whose tweet and user results are non-empty and validate,
   * and that passes the language filter; the row is built from those
   * validated records.
   */
  lemma EmitRequiresFilters(raw: Json, langFilter: Option<string>)
    requires ProcessEntry(raw, langFilter).Emit?
    ensures ValidateEntry(raw).Ok?
    ensures var entry := ValidateEntry(raw).value;
      && Contains(entry.entryId, "tweet")
      && HasItemContent(entry)
      && var results := Get(entry.content.value.itemContent.value, "tweet_results", EmptyObj);
      && results.JObj?
      && var tweetData := Get(results.obj, "result", EmptyObj);
      && tweetData.JObj? && tweetData.obj != map[]
      && var userData := Get(Get(Get(tweetData.obj, "core", EmptyObj).obj, "user_results", EmptyObj).obj, "result", EmptyObj);
      && Truthy(userData)
      && ValidateTweetResult(tweetData).Ok?
      && ValidateUser(userData).Ok?
      && !LanguageRejects(langFilter, ValidateTweetResult(tweetData).value)
      && PrepareRow(ValidateTweetResult(tweetData).value, ValidateUser(userData).value)
         == Some(ProcessEntry(raw, langFilter).row)
  {
  }

  /** An entry whose id does not mention "tweet" (a cursor, a module) is skipped, whatever else it holds. */
  lemma NonTweetIdSkipped(raw: map<string, Json>, langFilter: Option<string>)
    requires "entryId" in raw && raw["entryId"].JStr? && !Contains(raw["entryId"].s, "tweet")
    ensures ProcessEntry(JObj(raw), langFilter) == Skip
  {
  }

  /** A raw entry that is not a dict fails validation and is skipped (this covers the strings a string or dict yields when iterated). */
  lemma NonObjectSkipped(raw: Json, langFilter: Option<string>)
    requires !raw.JObj?
    ensures ProcessEntry(raw, langFilter) == Skip
  {
  }

  /**
   * The language filter drops exactly the posts whose `legacy.lang` differs
   * from a non-empty filter: every other verdict is the unfiltered one.
   */
  lemma LanguageFilter(raw: Json, langFilter: Option<string>)
    ensures ProcessEntry(raw, langFilter).Emit? && Present(langFilter) && ProcessEntry(raw, langFilter).row.lang != langFilter
      ==> false
    ensures !Present(langFilter) ==> ProcessEntry(raw, langFilter) == ProcessEntry(raw, None)
    ensures Present(langFilter) ==> ProcessEntry(raw, langFilter) == Skip || ProcessEntry(raw, langFilter) == ProcessEntry(raw, None)
    ensures Present(langFilter) && ProcessEntry(raw, None).Emit? ==>
      (ProcessEntry(raw, langFilter) == ProcessEntry(raw, None) <==> ProcessEntry(raw, None).row.lang == langFilter)
  {
    if ProcessEntry(raw, None).Emit? {
      EmitRequiresFilters(raw, None);
    }
  }

  /** An emitted row's URL and text: the URL ends with the post id, the text is cleaned. */
  lemma EmittedRowShape(raw: Json, langFilter: Option<string>)
    requires ProcessEntry(raw, langFilter).Emit?
    ensures var row := ProcessEntry(raw, langFilter).row;
      && row.tweetUrl == "https://x.com/" + Display(row.username) + "/status/" + row.idStr
      && |row.tweetUrl| >= |row.idStr|
      && row.tweetUrl[|row.tweetUrl| - |row.idStr|..] == row.idStr
      && (row.fullText == [] || (!IsSpace(row.fullText[0]) && !IsSpace(row.fullText[|row.fullText| - 1])))
      && (forall i :: 0 <= i < |row.fullText| && IsSpace(row.fullText[i]) ==> row.fullText[i] == ' ')
      && (forall i :: 0 <= i < |row.fullText| ==> !UrlAt(row.fullText[i..]))
  {
    EmitRequiresFilters(raw, langFilter);
    var row := ProcessEntry(raw, langFilter).row;
    var prefix := "https://x.com/" + Display(row.username) + "/status/";
    assert row.tweetUrl == prefix + row.idStr;
    assert row.tweetUrl[|prefix|..] == row.idStr;
  }

  /** Without `legacy` a validated post crashes the payload in the row builder. */
  lemma MissingLegacyCrashes(tweet: TweetResult, user: User)
    requires tweet.legacy.None?
    ensures PrepareRow(tweet, user).None?
  {
  }

  /** The defaults of the row builder: no `media` key gives an empty image URL; no core or location gives "". */
  lemma RowDefaults(legacy: TweetLegacy)
    requires legacy.fullText.Some? && legacy.entities == Some(map[])
    ensures var r := PrepareRow(TweetResult(Some(""), Some(legacy), Some(map[])), User(None, None, None));
      && r.Some?
      && r.value.imageUrl == JStr("")
      && r.value.username == Some("") && r.value.location == Some("")
      && r.value.tweetUrl == "https://x.com//status/" + legacy.idStr
  {
    var user := User(None, None, None);
    var tweet := TweetResult(Some(""), Some(legacy), Some(map[]));
    var none: map<string, Json> := map[];
    assert "media" !in none;
    var r := PrepareRow(tweet, user);
    assert r.Some? && r.value.username == Some("") && r.value.idStr == legacy.idStr;
    EmptyUserTweetUrl(legacy.idStr);
  }

  /** With an empty username the URL has an empty path segment. */
  lemma EmptyUserTweetUrl(idStr: string)
    ensures TweetUrl(Some(""), idStr) == "https://x.com//status/" + idStr
  {
    assert Display(Some("")) == "";
    assert "https://x.com/" + "" + "/status/" == "https://x.com//status/";
  }

  /** An empty media list raises `IndexError`: the payload crashes. */
  lemma EmptyMediaCrashes(legacy: TweetLegacy, user: User)
    requires legacy.fullText.Some? && legacy.entities == Some(map["media" := JArr([])])
    ensures PrepareRow(TweetResult(Some(""), Some(legacy), Some(map[])), user).None?
  {
  }
}
