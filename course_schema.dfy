/**
 * The course record and its validation rule (`courseSchema`): five
 * non-empty strings, two numeric lower bounds and three closed
 * enumerations. Parsing a JSON value keeps exactly the ten schema fields.
 */
module CourseSchema {

  import opened Wrappers
  import opened Json

  const CourseCategories: seq<string> := [
    "Development",
    "Business",
    "Finance",
    "IT & Software",
    "Office Productivity",
    "Personal Development",
    "Design",
    "Marketing",
    "Health & Fitness",
    "Music",
    "Teaching & Academics"
  ]

  const Levels: seq<string> := ["BEGINNER", "INTERMEDIATE", "ADVANCED"]

  const CourseStatuses: seq<string> := ["DRAFT", "PUBLISHED", "ARCHIVED"]

  /** The names of the schema's fields: the only keys a parsed course keeps. */
  const CourseKeys: set<string> := {
    "title", "description", "fileKey", "price", "duration",
    "level", "category", "smallDescription", "slug", "courseStatus"
  }

  /** A course record with the schema's field types. `level`, `category` and `courseStatus` are strings whose membership `ValidCourse` checks. */
  datatype Course = Course(
    title: string,
    description: string,
    fileKey: string,
    price: real,
    duration: real,
    level: string,
    category: string,
    smallDescription: string,
    slug: string,
    courseStatus: string)

  /** The schema's value checks: `min(1)` on strings, `min(0)` on price, `min(1)` on duration, `enum` on the three lists. */
  predicate ValidCourse(c: Course)
  {
    && |c.title| >= 1
    && |c.description| >= 1
    && |c.fileKey| >= 1
    && c.price >= 0.0
    && c.duration >= 1.0
    && c.level in Levels
    && c.category in CourseCategories
    && |c.smallDescription| >= 1
    && |c.slug| >= 1
    && c.courseStatus in CourseStatuses
  }

  /** The JSON object a course record is sent as. */
  function Encode(c: Course): (v: Value)
    ensures v.Obj? && v.fields.Keys == CourseKeys
  {
    Obj(map[
      "title" := Str(c.title),
      "description" := Str(c.description),
      "fileKey" := Str(c.fileKey),
      "price" := Num(c.price),
      "duration" := Num(c.duration),
      "level" := Str(c.level),
      "category" := Str(c.category),
      "smallDescription" := Str(c.smallDescription),
      "slug" := Str(c.slug),
      "courseStatus" := Str(c.courseStatus)
    ])
  }

  /**
   * The type-level part of `z.object(...)`: the input is an object and
   * every schema field is present with the schema's JSON type. Other keys
   * are dropped.
   */
  function Decode(v: Value): (r: Option<Course>)
    ensures r.Some? ==> v.Obj? && forall k :: k in CourseKeys ==> k in v.fields && v.fields[k] == Encode(r.value).fields[k]
  {
    if !v.Obj? then None
    else
      var m := v.fields;
      if && StringAt(m, "title").Some?
         && StringAt(m, "description").Some?
         && StringAt(m, "fileKey").Some?
         && NumberAt(m, "price").Some?
         && NumberAt(m, "duration").Some?
         && StringAt(m, "level").Some?
         && StringAt(m, "category").Some?
         && StringAt(m, "smallDescription").Some?
         && StringAt(m, "slug").Some?
         && StringAt(m, "courseStatus").Some?
      then
        Some(Course(
          m["title"].s, m["description"].s, m["fileKey"].s,
          m["price"].n, m["duration"].n,
          m["level"].s, m["category"].s, m["smallDescription"].s,
          m["slug"].s, m["courseStatus"].s))
      else None
  }

  /** `courseSchema.safeParse`: the parsed record when the shape and every value check pass. */
  function SafeParse(v: Value): (r: Option<Course>)
    ensures r.Some? ==> ValidCourse(r.value) && Decode(v) == r
    ensures r.None? ==> Decode(v).None? || !ValidCourse(Decode(v).value)
  {
    var d := Decode(v);
    if d.Some? && ValidCourse(d.value) then d else None
  }

  /** Round trip: decoding the JSON form of any record gives that record back. */
  lemma DecodeEncode(c: Course)
    ensures Decode(Encode(c)) == Some(c)
  {
  }

  /** Sending a record and parsing it accepts exactly the valid records, unchanged. */
  lemma SafeParseEncode(c: Course)
    ensures SafeParse(Encode(c)) == if ValidCourse(c) then Some(c) else None
  {
    DecodeEncode(c);
  }

  /** Keys outside the schema make no difference to the parse. */
  lemma UnknownKeysIgnored(c: Course, extra: map<string, Value>)
    requires extra.Keys !! CourseKeys
    ensures SafeParse(Obj(Encode(c).fields + extra)) == SafeParse(Encode(c))
  {
    var m := Encode(c).fields + extra;
    forall k | k in CourseKeys
      ensures k in m && m[k] == Encode(c).fields[k]
    {
    }
    DecodeEncode(c);
  }

  /** A body missing any schema field (an object with `status` but no `courseStatus`, say) is rejected. */
  lemma MissingFieldRejected(v: Value, k: string)
    requires v.Obj? && k in CourseKeys && k !in v.fields
    ensures SafeParse(v) == None
  {
  }

  /** The five string fields the schema requires to be non-empty. */
  datatype StringField = Title | Description | FileKey | SmallDescription | Slug

  function WithString(c: Course, f: StringField, s: string): Course
  {
    match f
    case Title => c.(title := s)
    case Description => c.(description := s)
    case FileKey => c.(fileKey := s)
    case SmallDescription => c.(smallDescription := s)
    case Slug => c.(slug := s)
  }

  /** Changing one string field of a valid record keeps it valid exactly when the new string is non-empty. */
  lemma StringFieldRule(c: Course, f: StringField, s: string)
    requires ValidCourse(c)
    ensures ValidCourse(WithString(c, f, s)) <==> s != ""
    ensures !ValidCourse(WithString(c, f, ""))
  {
  }

  /** Price is bounded below by 0 inclusive, whatever the message says about "positive". */
  lemma PriceRule(c: Course, p: real)
    requires ValidCourse(c)
    ensures ValidCourse(c.(price := p)) <==> p >= 0.0
    ensures ValidCourse(c.(price := 0.0))
  {
  }

  /** Duration is bounded below by 1: 0 is rejected and 1 accepted. */
  lemma DurationRule(c: Course, d: real)
    requires ValidCourse(c)
    ensures ValidCourse(c.(duration := d)) <==> d >= 1.0
    ensures !ValidCourse(c.(duration := 0.0)) && ValidCourse(c.(duration := 1.0))
  {
  }

  /** Each enumerated field accepts exactly the members of its list. */
  lemma EnumerationRule(c: Course, s: string)
    requires ValidCourse(c)
    ensures ValidCourse(c.(level := s)) <==> s in Levels
    ensures ValidCourse(c.(category := s)) <==> s in CourseCategories
    ensures ValidCourse(c.(courseStatus := s)) <==> s in CourseStatuses
  {
  }

  predicate Distinct(s: seq<string>)
  {
    forall i, j :: 0 <= i < j < |s| ==> s[i] != s[j]
  }

  /** The three lists have 11, 3 and 3 entries, none repeated; spellings are case-sensitive. */
  lemma EnumerationsExact()
    ensures |CourseCategories| == 11 && |Levels| == 3 && |CourseStatuses| == 3
    ensures Distinct(CourseCategories) && Distinct(Levels) && Distinct(CourseStatuses)
    ensures "beginner" !in Levels && "Draft" !in CourseStatuses && "IT and Software" !in CourseCategories
  {
  }

  /** A record that passes every check, so none of the rules above is vacuous. */
  lemma SomeCourseValid()
    ensures ValidCourse(Course("T", "D", "k", 0.0, 1.0, "BEGINNER", "Development", "S", "t", "DRAFT"))
  {
  }
}
