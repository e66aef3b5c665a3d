/**
 * The create-course page: its form values and defaults, the Generate-Slug
 * button, and the handling of the server action's outcome on submit.
 * Notices (toasts) and navigation are recorded as sequences.
 */
module CreateCoursePage {

  import opened Wrappers
  import opened Json
  import opened CourseSchema
  import opened Slug
  import opened CourseActions

  /** The form's values, named as the page registers its fields; the status select is registered as `status`. */
  datatype FormValues = FormValues(
    title: string,
    description: string,
    fileKey: string,
    price: real,
    duration: real,
    level: string,
    category: string,
    smallDescription: string,
    slug: string,
    status: string)

  /** The form's `defaultValues`. */
  function DefaultValues(): FormValues
  {
    FormValues("", "", "", 0.0, 0.0, "BEGINNER", "Development", "", "", "DRAFT")
  }

  /** The course record the form stands for, taking the status select as the course status. */
  function AsCourse(f: FormValues): Course
  {
    Course(f.title, f.description, f.fileKey, f.price, f.duration,
           f.level, f.category, f.smallDescription, f.slug, f.status)
  }

  /** As written: the object the schema resolver validates, with the status under the key `status`. */
  function SubmittedAsWritten(f: FormValues): (v: Value)
    ensures v.Obj? && "courseStatus" !in v.fields
  {
    Obj(map[
      "title" := Str(f.title),
      "description" := Str(f.description),
      "fileKey" := Str(f.fileKey),
      "price" := Num(f.price),
      "duration" := Num(f.duration),
      "level" := Str(f.level),
      "category" := Str(f.category),
      "smallDescription" := Str(f.smallDescription),
      "slug" := Str(f.slug),
      "status" := Str(f.status)
    ])
  }

  /** As written, no form state ever passes the resolver, so the submit handler is never reached. */
  lemma AsWrittenNeverValidates(f: FormValues)
    ensures SafeParse(SubmittedAsWritten(f)) == None
  {
    MissingFieldRejected(SubmittedAsWritten(f), "courseStatus");
  }

  /** Corrected: the status select bound to `courseStatus`, so the resolver sees the course record itself. */
  function Submitted(f: FormValues): (v: Value)
    ensures v.Obj? && "courseStatus" in v.fields && v.fields["courseStatus"] == Str(f.status)
  {
    Encode(AsCourse(f))
  }

  /** With the correction, a form passes the resolver exactly when its record is valid, and the handler gets that record. */
  lemma SubmittedValidatesIff(f: FormValues)
    ensures SafeParse(Submitted(f)) == if ValidCourse(AsCourse(f)) then Some(AsCourse(f)) else None
  {
    SafeParseEncode(AsCourse(f));
  }

  /** The defaults are not a valid course: the empty file key and the zero duration are each enough to reject a form. */
  lemma DefaultsRejected(f: FormValues)
    ensures !ValidCourse(AsCourse(DefaultValues()))
    ensures SafeParse(Submitted(DefaultValues())) == None
    ensures f.fileKey == DefaultValues().fileKey || f.duration == DefaultValues().duration ==> SafeParse(Submitted(f)) == None
  {
    SubmittedValidatesIff(DefaultValues());
    SubmittedValidatesIff(f);
  }

  /** A number input's `valueAsNumber`: None stands for NaN (an empty or unparsable input), which the page stores as 0. */
  function FromNumberInput(parsed: Option<real>): (r: real)
    ensures parsed.None? ==> r == 0.0
    ensures parsed.Some? ==> r == parsed.value
  {
    if parsed.None? then 0.0 else parsed.value
  }

  /** Clearing the duration input stores 0, which the schema rejects; clearing the price input stores 0, which it accepts. */
  lemma ClearedNumberInputs(f: FormValues)
    requires ValidCourse(AsCourse(f))
    ensures !ValidCourse(AsCourse(f.(duration := FromNumberInput(None))))
    ensures ValidCourse(AsCourse(f.(price := FromNumberInput(None))))
  {
  }

  /** How the call to the server action settled: it threw, or it returned a response. */
  datatype CallOutcome = Threw | Returned(response: ApiResponse)

  datatype Notice = SuccessNotice(text: string) | ErrorNotice(text: string)

  /** What the submit handler does with an outcome: a notice, whether the form is reset, where the router goes. */
  datatype Effect = Effect(notice: Option<Notice>, reset: bool, redirect: Option<string>)

  const CoursesRoute := "/admin/courses"

  /** The three-way case split of the submit handler. */
  function Dispatch(outcome: CallOutcome): (e: Effect)
    ensures e.reset <==> e.redirect.Some?
    ensures e.reset <==> outcome.Returned? && outcome.response.status == "success"
    ensures e.redirect.Some? ==> e.redirect.value == CoursesRoute
    ensures e.notice.Some? && e.notice.value.SuccessNotice? <==> e.reset
    ensures e.notice.None? <==> outcome.Returned? && outcome.response.status !in {"success", "error"}
  {
    match outcome
    case Threw => Effect(Some(ErrorNotice("Failed to create course. Please try again.")), false, None)
    case Returned(r) =>
      if r.status == "success" then
        Effect(Some(SuccessNotice("Course created successfully!")), true, Some(CoursesRoute))
      else if r.status == "error" then
        Effect(Some(ErrorNotice("Failed to create course: " + r.message)), false, None)
      else
        Effect(None, false, None)
  }

  /** The texts of the notices; an error response's own message is carried in its notice. */
  lemma DispatchNotices(outcome: CallOutcome)
    ensures outcome.Threw? ==> Dispatch(outcome).notice == Some(ErrorNotice("Failed to create course. Please try again."))
    ensures outcome.Returned? && outcome.response.status == "success" ==>
              Dispatch(outcome).notice == Some(SuccessNotice("Course created successfully!"))
    ensures outcome.Returned? && outcome.response.status == "error" ==>
              Dispatch(outcome).notice == Some(ErrorNotice("Failed to create course: " + outcome.response.message))
  {
  }

  /** Each response the create action can give leads to one of the two notified branches, never to silence. */
  lemma ActionResponsesAlwaysNotify(r: ApiResponse)
    requires r in {InvalidData, Created, CreateFailed}
    ensures Dispatch(Returned(r)).notice.Some?
    ensures Dispatch(Returned(r)).reset <==> r == Created
  {
  }

  function Notices(e: Effect): seq<Notice>
  {
    if e.notice.Some? then [e.notice.value] else []
  }

  function Routes(e: Effect): seq<string>
  {
    if e.redirect.Some? then [e.redirect.value] else []
  }

  /** The page's form state together with the notices shown and the routes pushed so far. */
  class CoursePage {
    var values: FormValues
    var notices: seq<Notice>
    var visited: seq<string>

    constructor ()
      ensures values == DefaultValues() && notices == [] && visited == []
    {
      values := DefaultValues();
      notices := [];
      visited := [];
    }

    /** Generate Slug: writes the slug derived from the current title and nothing else. */
    method GenerateSlug()
      modifies this
      ensures values == old(values).(slug := Slugify(old(values).title))
      ensures values.title == old(values).title
      ensures IsSlugString(values.slug) && |values.slug| <= |values.title|
      ensures notices == old(notices) && visited == old(visited)
    {
      var slug := Slugify(values.title);
      SlugAlphabet(values.title);
      SlugNoLonger(values.title);
      values := values.(slug := slug);
    }

    /** The submit handler, given how the server action call settled. */
    method OnSubmit(outcome: CallOutcome)
      modifies this
      ensures values == if Dispatch(outcome).reset then DefaultValues() else old(values)
      ensures notices == old(notices) + Notices(Dispatch(outcome))
      ensures visited == old(visited) + Routes(Dispatch(outcome))
    {
      match outcome {
        case Threw =>
          notices := notices + [ErrorNotice("Failed to create course. Please try again.")];
          return;
        case Returned(result) =>
          if result.status == "success" {
            notices := notices + [SuccessNotice("Course created successfully!")];
            values := DefaultValues();
            visited := visited + [CoursesRoute];
          } else if result.status == "error" {
            notices := notices + [ErrorNotice("Failed to create course: " + result.message)];
          }
      }
    }

    /**
     * Submitting the form: the schema resolver runs first and, when it
     * rejects, the handler is not called and nothing here changes. Uses the
     * corrected binding of the status field (`Submitted`).
     */
    method HandleSubmit(outcome: CallOutcome)
      modifies this
      ensures !ValidCourse(AsCourse(old(values))) ==>
                values == old(values) && notices == old(notices) && visited == old(visited)
      ensures ValidCourse(AsCourse(old(values))) ==>
                && values == (if Dispatch(outcome).reset then DefaultValues() else old(values))
                && notices == old(notices) + Notices(Dispatch(outcome))
                && visited == old(visited) + Routes(Dispatch(outcome))
    {
      SubmittedValidatesIff(values);
      if SafeParse(Submitted(values)).None? {
        return;
      }
      OnSubmit(outcome);
    }
  }
}
