/**
 * The evaluation orchestrator (`analyze_resume`): checks the parser's
 * outcome, then levels the candidate, classifies the field, recommends
 * courses, scans the sections and picks tip videos, and assembles the report.
 */
module Analyzer {
  import opened Common
  import opened Text
  import opened Leveler
  import opened FieldClassifier
  import opened SectionScanner
  import opened Recommendations

  /** The fields the structured-field extractor may return; each may be missing. */
  datatype ResumeData = ResumeData(
    name: Option<string>,
    email: Option<string>,
    mobileNumber: Option<string>,
    skills: Option<seq<string>>,
    noOfPages: Option<int>)

  /** What the structured-field extractor did: raised, returned nothing usable, or returned a record. */
  datatype ParseOutcome = ParserRaised(message: string) | NoData | Parsed(data: ResumeData)

  /** What the text extractor did: raised, or returned the résumé's text. */
  datatype Extraction = ExtractionRaised(message: string) | Extracted(text: string)

  /** The report returned on success. */
  datatype AnalysisResult = AnalysisResult(
    name: Option<string>,
    email: Option<string>,
    mobileNumber: Option<string>,
    skills: Option<seq<string>>,
    noOfPages: int,
    candidateLevel: string,
    predictedField: string,
    recommendedSkills: seq<string>,
    recommendedCourses: seq<CourseRecord>,
    resumeScore: int,
    scoreBreakdown: map<string, bool>,
    resumeVideoRec: Option<string>,
    interviewVideoRec: Option<string>,
    timestamp: string)

  /**
   * The outcome of one analysis: a report, an `{"error": ...}` answer, or an
   * exception that leaves the function unhandled.
   */
  datatype Analysis = Report(result: AnalysisResult) | ErrorReport(error: string) | Raised(message: string)

  const ParserErrorPrefix: string := "Error parsing resume with pyresparser: "
  const NoDataError: string := "Could not extract any data from the resume. Is it a valid resume format?"

  /**
   * The two early exits: a parser exception becomes an error whose text ends
   * with the exception's message; an empty parse becomes a fixed error.
   */
  function CheckParse(parsed: ParseOutcome): (r: Result<ResumeData>)
    ensures r.Ok? <==> parsed.Parsed?
    ensures parsed.Parsed? ==> r.value == parsed.data
    ensures parsed.ParserRaised? ==>
              r.Err? && |r.error| == |ParserErrorPrefix| + |parsed.message|
              && r.error[..|ParserErrorPrefix|] == ParserErrorPrefix
              && r.error[|ParserErrorPrefix|..] == parsed.message
    ensures parsed.NoData? ==> r == Err(NoDataError)
  {
    match parsed
    case ParserRaised(message) => Err(ParserErrorPrefix + message)
    case NoData => Err(NoDataError)
    case Parsed(data) => Ok(data)
  }

  /**
   * The module-level course lists and video pools. Each course list is a
   * separate list that the course recommender shuffles in place.
   */
  class Catalog {
    const dsCourse: array<Entry>
    const webCourse: array<Entry>
    const androidCourse: array<Entry>
    const iosCourse: array<Entry>
    const uiuxCourse: array<Entry>
    const resumeVideos: seq<string>
    const interviewVideos: seq<string>

    /** The five course lists are five different lists. */
    ghost predicate Valid() {
      && dsCourse != webCourse && dsCourse != androidCourse && dsCourse != iosCourse && dsCourse != uiuxCourse
      && webCourse != androidCourse && webCourse != iosCourse && webCourse != uiuxCourse
      && androidCourse != iosCourse && androidCourse != uiuxCourse
      && iosCourse != uiuxCourse
    }

    /** The course list of a field (the field `Other` has none). */
    function CourseList(f: Field): array<Entry>
      requires f != Other
    {
      match f
      case DataScience => dsCourse
      case WebDevelopment => webCourse
      case AndroidDevelopment => androidCourse
      case IosDevelopment => iosCourse
      case UiUxDevelopment => uiuxCourse
    }

    /** Loads the catalog from the given course lists and video pools. */
    constructor (ds: seq<Entry>, web: seq<Entry>, android: seq<Entry>, ios: seq<Entry>, uiux: seq<Entry>,
                 resumePool: seq<string>, interviewPool: seq<string>)
      ensures Valid()
      ensures fresh(dsCourse) && fresh(webCourse) && fresh(androidCourse) && fresh(iosCourse) && fresh(uiuxCourse)
      ensures dsCourse[..] == ds && webCourse[..] == web && androidCourse[..] == android
      ensures iosCourse[..] == ios && uiuxCourse[..] == uiux
      ensures resumeVideos == resumePool && interviewVideos == interviewPool
    {
      dsCourse := new Entry[|ds|](i requires 0 <= i < |ds| => ds[i]);
      webCourse := new Entry[|web|](i requires 0 <= i < |web| => web[i]);
      androidCourse := new Entry[|android|](i requires 0 <= i < |android| => android[i]);
      iosCourse := new Entry[|ios|](i requires 0 <= i < |ios| => ios[i]);
      uiuxCourse := new Entry[|uiux|](i requires 0 <= i < |uiux| => uiux[i]);
      resumeVideos := resumePool;
      interviewVideos := interviewPool;
    }
  }

  /** The field predicted for a parsed record: its skills (none when missing), lower-cased, classified. */
  function FieldOf(data: ResumeData): Field {
    Classify(LowerSkills(data.skills.GetOr([])))
  }

  /** A record's field is `Other` exactly when none of its skills, lower-cased, is a keyword of any field. */
  lemma FieldOfOtherIff(data: ResumeData)
    ensures FieldOf(data) == Other <==> forall k :: k in data.skills.GetOr([]) ==> Lower(k) !in AllKeywords()
  {
    OtherIffNoKeyword(LowerSkills(data.skills.GetOr([])));
  }

  /** In a valid catalog two fields share a course list only when they are the same field. */
  lemma CourseListsDistinct(c: Catalog, f: Field, g: Field)
    requires c.Valid() && f != Other && g != Other
    ensures c.CourseList(f) == c.CourseList(g) <==> f == g
  {
  }

  /** The course list untouched by a call: every list except possibly that of `f`. */
  twostate predicate OtherListsUnchanged(catalog: Catalog, f: Field)
    reads catalog.dsCourse, catalog.webCourse, catalog.androidCourse, catalog.iosCourse, catalog.uiuxCourse
  {
    forall g :: g != Other && g != f ==> catalog.CourseList(g)[..] == old(catalog.CourseList(g)[..])
  }

  /**
   * What the course step did: `Other` recommends nothing; any other field's
   * list is permuted and its first entries are reported; no other list changes.
   */
  twostate predicate IsCourseStepFor(catalog: Catalog, f: Field, courses: seq<CourseRecord>)
    reads catalog.dsCourse, catalog.webCourse, catalog.androidCourse, catalog.iosCourse, catalog.uiuxCourse
  {
    && (f == Other ==> courses == [])
    && (f != Other ==>
          && multiset(catalog.CourseList(f)[..]) == old(multiset(catalog.CourseList(f)[..]))
          && |courses| == Min(MaxCourses, catalog.CourseList(f).Length)
          && forall k :: 0 <= k < |courses| ==> courses[k] == RecordOf(catalog.CourseList(f)[k]))
    && OtherListsUnchanged(catalog, f)
  }

  /**
   * The branch of the if/elif chain that calls the course recommender on the
   * predicted field's list; `Other` recommends nothing.
   */
  method RecommendForField(catalog: Catalog, f: Field) returns (courses: seq<CourseRecord>)
    requires catalog.Valid()
    modifies catalog.dsCourse, catalog.webCourse, catalog.androidCourse, catalog.iosCourse, catalog.uiuxCourse
    ensures IsCourseStepFor(catalog, f, courses)
  {
    courses := [];
    if f != Other {
      courses := RecommendCourses(catalog.CourseList(f));
    }
  }

  /**
   * What a report on a parsed record and its text says, and what the
   * recommendation step did to the catalog.
   */
  twostate predicate IsReportFor(catalog: Catalog, data: ResumeData, text: string, timestamp: string, r: AnalysisResult)
    requires catalog.Valid()
    reads catalog.dsCourse, catalog.webCourse, catalog.androidCourse, catalog.iosCourse, catalog.uiuxCourse
  {
    var f := FieldOf(data);
    // Pass-through fields, page count and level.
    && r.name == data.name && r.email == data.email && r.mobileNumber == data.mobileNumber
    && r.skills == data.skills && r.timestamp == timestamp
    && r.noOfPages == PageCount(data.noOfPages)
    && r.candidateLevel == LevelOf(PageCount(data.noOfPages)).Label()
    // Field, skills and courses.
    && r.predictedField == f.Name()
    && r.recommendedSkills == RecommendedSkills(f)
    && IsCourseStepFor(catalog, f, r.recommendedCourses)
    // Section score.
    && IsScanOf(SectionTable, Lower(text), r.resumeScore, r.scoreBreakdown)
    && r.resumeScore in {0, 20, 40, 60, 80, 100}
    // Videos.
    && (r.resumeVideoRec.None? <==> catalog.resumeVideos == [])
    && (r.resumeVideoRec.Some? ==> r.resumeVideoRec.value in catalog.resumeVideos)
    && (r.interviewVideoRec.None? <==> catalog.interviewVideos == [])
    && (r.interviewVideoRec.Some? ==> r.interviewVideoRec.value in catalog.interviewVideos)
  }

  /** The part of `analyze_resume` after both extractors have succeeded. */
  method Evaluate(catalog: Catalog, data: ResumeData, text: string, timestamp: string) returns (r: AnalysisResult)
    requires catalog.Valid()
    modifies catalog.dsCourse, catalog.webCourse, catalog.androidCourse, catalog.iosCourse, catalog.uiuxCourse
    ensures IsReportFor(catalog, data, text, timestamp, r)
  {
    var textLower := Lower(text);

    var pageCount := PageCount(data.noOfPages);
    var level := LevelOf(pageCount);

    var field := FieldOf(data);
    var courses := RecommendForField(catalog, field);

    SectionTableShape();
    var score, breakdown := ScanSections(SectionTable, textLower);
    SourceScoreValues(textLower, score, breakdown);

    var resumeVideo := ChooseVideo(catalog.resumeVideos);
    var interviewVideo := ChooseVideo(catalog.interviewVideos);

    r := AnalysisResult(
      data.name, data.email, data.mobileNumber, data.skills, pageCount, level.Label(),
      field.Name(), RecommendedSkills(field), courses, score, breakdown,
      resumeVideo, interviewVideo, timestamp);
  }

  /**
   * `analyze_resume`: the parser's outcome and the text extractor's outcome
   * are inputs, and so is the time of the analysis. The text is consulted
   * only once the parse succeeded.
   */
  method AnalyzeResume(catalog: Catalog, parsed: ParseOutcome, pdf: Extraction, timestamp: string)
    returns (out: Analysis)
    requires catalog.Valid()
    modifies catalog.dsCourse, catalog.webCourse, catalog.androidCourse, catalog.iosCourse, catalog.uiuxCourse
    // A failed parse is reported whatever the text extractor would do, and nothing is shuffled.
    ensures !parsed.Parsed? ==> out == ErrorReport(CheckParse(parsed).error)
    ensures !parsed.Parsed? || pdf.ExtractionRaised? ==> OtherListsUnchanged(catalog, Other)
    // An exception from the text extractor is not caught here.
    ensures parsed.Parsed? && pdf.ExtractionRaised? ==> out == Raised(pdf.message)
    // Otherwise a full report.
    ensures parsed.Parsed? && pdf.Extracted? ==>
              out.Report? && IsReportFor(catalog, parsed.data, pdf.text, timestamp, out.result)
  {
    var checked := CheckParse(parsed);
    if checked.Err? {
      return ErrorReport(checked.error);
    }
    if pdf.ExtractionRaised? {
      return Raised(pdf.message);
    }
    var report := Evaluate(catalog, checked.value, pdf.text, timestamp);
    out := Report(report);
  }

  /**
   * Worked example: skills "python" and "tensorflow" and one page give a
   * Data Science fresher.
   */
  lemma ExampleDataScienceFresher()
    ensures FieldOf(ResumeData(None, None, None, Some(["python", "tensorflow"]), Some(1))).Name() == "Data Science"
    ensures LevelOf(PageCount(Some(1))).Label() == "Fresher"
  {
    assert Lower("python") == "python" by {
      LowerOfLowerCase("python");
    }
    ClassifyIgnoresCase(["python", "tensorflow"], "python");
  }

  /**
   * Worked example: a five-page record whose lone skill "Excel" no field
   * lists is an experienced candidate in the field `Other`, with no
   * recommended skills (and, by `RecommendForField`, no courses).
   */
  lemma ExampleOtherExperienced()
    ensures FieldOf(ResumeData(None, None, None, Some(["Excel"]), Some(5))) == Other
    ensures Other.Name() == "Other" && RecommendedSkills(Other) == []
    ensures LevelOf(PageCount(Some(5))).Label() == "Experienced"
  {
    LowerCapitalised("Excel", "excel");
    assert LowerSkills(["Excel"]) == {"excel"};
    assert "excel" !in AllKeywords();
    UnlistedSkillIsOther("excel");
  }
}
