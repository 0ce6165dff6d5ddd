/**
 * The user record of `twitter_functions.py` and its builder: a fixed
 * projection of twenty named keys out of the raw key/value object that the
 * remote lookup returns.
 */
module UserRecords {
  import opened Wrappers

  /** A scalar of the raw JSON object. */
  datatype Value = Null | Bool(b: bool) | Num(n: int) | Str(s: string)

  /** One raw user object as the remote service returns it. */
  type Raw = map<string, Value>

  /** The twenty-field record, in the order the source declares its fields. */
  datatype UserRecord = UserRecord(
    id: Value, idStr: Value, name: Value, screenName: Value, location: Value,
    followersCount: Value, friendsCount: Value, favouritesCount: Value,
    description: Value, geoEnabled: Value, lang: Value, statusesCount: Value,
    timeZone: Value, createdAt: Value, verified: Value, utcOffset: Value,
    contributorsEnabled: Value, listedCount: Value, protected: Value, url: Value)

  /** The keys the builder reads, spelt as in the raw object. */
  const FieldNames: set<string> := {
    "id", "id_str", "name", "screen_name", "location",
    "followers_count", "friends_count", "favourites_count",
    "description", "geo_enabled", "lang", "statuses_count",
    "time_zone", "created_at", "verified", "utc_offset",
    "contributors_enabled", "listed_count", "protected", "url"}

  /** The field of `rec` that carries the raw key `key`. */
  function Field(rec: UserRecord, key: string): Value
    requires key in FieldNames
  {
    match key
    case "id" => rec.id
    case "id_str" => rec.idStr
    case "name" => rec.name
    case "screen_name" => rec.screenName
    case "location" => rec.location
    case "followers_count" => rec.followersCount
    case "friends_count" => rec.friendsCount
    case "favourites_count" => rec.favouritesCount
    case "description" => rec.description
    case "geo_enabled" => rec.geoEnabled
    case "lang" => rec.lang
    case "statuses_count" => rec.statusesCount
    case "time_zone" => rec.timeZone
    case "created_at" => rec.createdAt
    case "verified" => rec.verified
    case "utc_offset" => rec.utcOffset
    case "contributors_enabled" => rec.contributorsEnabled
    case "listed_count" => rec.listedCount
    case "protected" => rec.protected
    case "url" => rec.url
  }

  /** The raw object a record reads back as: its twenty keys and nothing else. */
  function ToRaw(rec: UserRecord): Raw
  {
    map key | key in FieldNames :: Field(rec, key)
  }

  /**
   * `build_user_record`: reads the twenty keys out of `obj`; a missing key
   * raises, which is `None` here. Every field is the value under its key.
   */
  function BuildUserRecord(obj: Raw): (r: Option<UserRecord>)
    ensures r.Some? <==> FieldNames <= obj.Keys
    ensures r.Some? ==> forall key {:trigger Field(r.value, key)} :: key in FieldNames ==> Field(r.value, key) == obj[key]
    ensures r.Some? ==> "id" in obj && r.value.id == obj["id"]
  {
    if FieldNames <= obj.Keys then
      Some(UserRecord(
        obj["id"], obj["id_str"], obj["name"], obj["screen_name"], obj["location"],
        obj["followers_count"], obj["friends_count"], obj["favourites_count"],
        obj["description"], obj["geo_enabled"], obj["lang"], obj["statuses_count"],
        obj["time_zone"], obj["created_at"], obj["verified"], obj["utc_offset"],
        obj["contributors_enabled"], obj["listed_count"], obj["protected"], obj["url"]))
    else
      None
  }

  /** Building from a record's own raw form gives the record back. */
  lemma BuildToRaw(rec: UserRecord)
    ensures BuildUserRecord(ToRaw(rec)) == Some(rec)
  {
    var obj := ToRaw(rec);
    forall key | key in FieldNames ensures key in obj && obj[key] == Field(rec, key) { }
    BuildFromFields(obj, rec);
  }

  /** An object whose twenty keys carry a record's fields builds that record. */
  lemma BuildFromFields(obj: Raw, rec: UserRecord)
    requires forall key :: key in FieldNames ==> key in obj && obj[key] == Field(rec, key)
    ensures BuildUserRecord(obj) == Some(rec)
  {
    assert FieldNames <= obj.Keys;
    var r := BuildUserRecord(obj).value;
    forall key | key in FieldNames ensures Field(r, key) == Field(rec, key) { }
    FieldsDetermineRecord(r, rec);
  }

  /** Records that agree on every field are equal. */
  lemma FieldsDetermineRecord(a: UserRecord, b: UserRecord)
    requires forall key :: key in FieldNames ==> Field(a, key) == Field(b, key)
    ensures a == b
  {
    assert Field(a, "id") == Field(b, "id");
    assert Field(a, "id_str") == Field(b, "id_str");
    assert Field(a, "name") == Field(b, "name");
    assert Field(a, "screen_name") == Field(b, "screen_name");
    assert Field(a, "location") == Field(b, "location");
    assert Field(a, "followers_count") == Field(b, "followers_count");
    assert Field(a, "friends_count") == Field(b, "friends_count");
    assert Field(a, "favourites_count") == Field(b, "favourites_count");
    assert Field(a, "description") == Field(b, "description");
    assert Field(a, "geo_enabled") == Field(b, "geo_enabled");
    assert Field(a, "lang") == Field(b, "lang");
    assert Field(a, "statuses_count") == Field(b, "statuses_count");
    assert Field(a, "time_zone") == Field(b, "time_zone");
    assert Field(a, "created_at") == Field(b, "created_at");
    assert Field(a, "verified") == Field(b, "verified");
    assert Field(a, "utc_offset") == Field(b, "utc_offset");
    assert Field(a, "contributors_enabled") == Field(b, "contributors_enabled");
    assert Field(a, "listed_count") == Field(b, "listed_count");
    assert Field(a, "protected") == Field(b, "protected");
    assert Field(a, "url") == Field(b, "url");
  }

  /**
   * Building is a projection: the record reads back as the input restricted
   * to the twenty keys, so keys outside them are ignored.
   */
  lemma ToRawBuild(obj: Raw)
    requires FieldNames <= obj.Keys
    ensures ToRaw(BuildUserRecord(obj).value) == map key | key in FieldNames :: obj[key]
  {
  }

  /**
   * The record depends on nothing but the twenty keys: two objects that agree
   * on them build equal records, so building twice from one object agrees too.
   */
  lemma BuildDeterminedByFields(a: Raw, b: Raw)
    requires forall key :: key in FieldNames ==> (key in a <==> key in b)
    requires forall key :: key in FieldNames && key in a ==> a[key] == b[key]
    ensures BuildUserRecord(a) == BuildUserRecord(b)
  {
  }
}
