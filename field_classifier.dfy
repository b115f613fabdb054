/**
 * Field classifier: predicts one professional field from the extracted
 * skills. Skills are lower-cased into a set; each field has a fixed keyword
 * list; the fields are tried in a fixed order and the first one whose list
 * contains one of the skills (exact, whole-string membership) wins.
 */
module FieldClassifier {
  import opened Text

  datatype Field = DataScience | WebDevelopment | AndroidDevelopment | IosDevelopment | UiUxDevelopment | Other {

    /** The exact string the report carries as `predicted_field`. */
    function Name(): string {
      match this
      case DataScience => "Data Science"
      case WebDevelopment => "Web Development"
      case AndroidDevelopment => "Android Development"
      case IosDevelopment => "IOS Development"
      case UiUxDevelopment => "UI-UX Development"
      case Other => "Other"
    }
  }

  const DsKeywords: seq<string> :=
    ["tensorflow", "keras", "pytorch", "machine learning", "deep learning", "flask", "streamlit", "python"]
  const WebKeywords: seq<string> :=
    ["react", "django", "node js", "react js", "php", "laravel", "magento", "wordpress", "javascript", "angular js", "c#", "flask"]
  const AndroidKeywords: seq<string> :=
    ["android", "android development", "flutter", "kotlin", "xml", "kivy", "java"]
  const IosKeywords: seq<string> :=
    ["ios", "ios development", "swift", "cocoa", "cocoa touch", "xcode"]
  const UiUxKeywords: seq<string> :=
    ["ux", "adobe xd", "figma", "zeplin", "balsamiq", "ui", "prototyping", "wireframe", "photoshop", "illustrator"]

  /** The indicator keywords of a field; `Other` has none. */
  function Keywords(f: Field): seq<string> {
    match f
    case DataScience => DsKeywords
    case WebDevelopment => WebKeywords
    case AndroidDevelopment => AndroidKeywords
    case IosDevelopment => IosKeywords
    case UiUxDevelopment => UiUxKeywords
    case Other => []
  }

  /** The skills suggested to a candidate of the field, in the report's order. */
  function RecommendedSkills(f: Field): seq<string> {
    match f
    case DataScience =>
      ["Data Visualization", "Predictive Analysis", "Statistical Modeling", "Data Mining", "Clustering & Classification",
       "Data Analytics", "Quantitative Analysis", "Web Scraping", "ML Algorithms", "Keras", "Pytorch", "Probability",
       "Scikit-learn", "Tensorflow", "Flask", "Streamlit"]
    case WebDevelopment =>
      ["React", "Django", "Node JS", "React JS", "php", "laravel", "Magento", "wordpress", "Javascript", "Angular JS",
       "c#", "Flask", "SDK"]
    case AndroidDevelopment =>
      ["Android", "Android development", "Flutter", "Kotlin", "XML", "Java", "Kivy", "GIT", "SDK", "SQLite"]
    case IosDevelopment =>
      ["IOS", "IOS Development", "Swift", "Cocoa", "Cocoa Touch", "Xcode", "Objective-C", "SQLite", "Plist", "StoreKit",
       "UI-Kit", "AV Foundation", "Auto-Layout"]
    case UiUxDevelopment =>
      ["UI", "User Experience", "Adobe XD", "Figma", "Zeplin", "Balsamiq", "Prototyping", "Wireframes", "Storyframes",
       "Adobe Photoshop", "Editing", "Illustrator", "After Effects", "Premier Pro", "Indesign"]
    case Other => []
  }

  /** The precedence in which the fields are tried. */
  const Precedence: seq<Field> := [DataScience, WebDevelopment, AndroidDevelopment, IosDevelopment, UiUxDevelopment]

  /** `{skill.lower() for skill in skills}`. */
  function LowerSkills(skills: seq<string>): set<string> {
    set k | k in skills :: Lower(k)
  }

  /** `any(i in keywords for i in skillsLower)`. */
  predicate AnyIn(skillsLower: set<string>, keywords: seq<string>) {
    exists s :: s in skillsLower && s in keywords
  }

  /** The if/elif chain of the source, in its order. */
  function Classify(skillsLower: set<string>): Field {
    if AnyIn(skillsLower, DsKeywords) then DataScience
    else if AnyIn(skillsLower, WebKeywords) then WebDevelopment
    else if AnyIn(skillsLower, AndroidKeywords) then AndroidDevelopment
    else if AnyIn(skillsLower, IosKeywords) then IosDevelopment
    else if AnyIn(skillsLower, UiUxKeywords) then UiUxDevelopment
    else Other
  }

  /** Reference definition: walk an ordered list of fields and stop at the first that matches. */
  function FirstMatch(order: seq<Field>, skillsLower: set<string>): Field {
    if order == [] then Other
    else if AnyIn(skillsLower, Keywords(order[0])) then order[0]
    else FirstMatch(order[1..], skillsLower)
  }

  /** What first-match means: the result is the earliest matching field of the order, or `Other` when none matches. */
  lemma {:induction false} FirstMatchIsEarliest(order: seq<Field>, skillsLower: set<string>)
    requires Other !in order
    ensures FirstMatch(order, skillsLower) == Other <==>
              forall j :: 0 <= j < |order| ==> !AnyIn(skillsLower, Keywords(order[j]))
    ensures FirstMatch(order, skillsLower) != Other ==>
              exists i :: 0 <= i < |order| && order[i] == FirstMatch(order, skillsLower)
                          && AnyIn(skillsLower, Keywords(order[i]))
                          && forall j :: 0 <= j < i ==> !AnyIn(skillsLower, Keywords(order[j]))
  {
    if order != [] {
      FirstMatchIsEarliest(order[1..], skillsLower);
      if !AnyIn(skillsLower, Keywords(order[0])) {
        var r := FirstMatch(order, skillsLower);
        if r != Other {
          var i :| 0 <= i < |order[1..]| && order[1..][i] == r
                   && AnyIn(skillsLower, Keywords(order[1..][i]))
                   && forall j :: 0 <= j < i ==> !AnyIn(skillsLower, Keywords(order[1..][j]));
          assert order[i + 1] == r && AnyIn(skillsLower, Keywords(order[i + 1]));
          forall j | 0 <= j < i + 1
            ensures !AnyIn(skillsLower, Keywords(order[j]))
          {
            if j > 0 { assert order[j] == order[1..][j - 1]; }
          }
        } else {
          forall j | 0 <= j < |order|
            ensures !AnyIn(skillsLower, Keywords(order[j]))
          {
            if j > 0 { assert order[j] == order[1..][j - 1]; }
          }
        }
      }
    }
  }

  /** The source's if/elif chain is first-match over the fixed precedence order. */
  lemma ClassifyIsFirstMatch(skillsLower: set<string>)
    ensures Classify(skillsLower) == FirstMatch(Precedence, skillsLower)
  {
    var s := skillsLower;
    var o4: seq<Field> := [UiUxDevelopment];
    var o3 := [IosDevelopment] + o4;
    var o2 := [AndroidDevelopment] + o3;
    var o1 := [WebDevelopment] + o2;
    assert o4[1..] == [];
    assert FirstMatch(o4, s) == if AnyIn(s, UiUxKeywords) then UiUxDevelopment else Other;
    assert o3[1..] == o4;
    assert FirstMatch(o3, s) == if AnyIn(s, IosKeywords) then IosDevelopment else FirstMatch(o4, s);
    assert o2[1..] == o3;
    assert FirstMatch(o2, s) == if AnyIn(s, AndroidKeywords) then AndroidDevelopment else FirstMatch(o3, s);
    assert o1[1..] == o2;
    assert FirstMatch(o1, s) == if AnyIn(s, WebKeywords) then WebDevelopment else FirstMatch(o2, s);
    assert Precedence == [DataScience] + o1 && Precedence[1..] == o1;
  }

  /**
   * The classification is the first field in precedence order whose keyword
   * list meets the skills: it matches, and every field before it does not.
   */
  lemma ClassifyPicksFirstMatching(skillsLower: set<string>)
    ensures Classify(skillsLower) != Other ==>
              exists i :: 0 <= i < |Precedence| && Precedence[i] == Classify(skillsLower)
                          && AnyIn(skillsLower, Keywords(Precedence[i]))
                          && forall j :: 0 <= j < i ==> !AnyIn(skillsLower, Keywords(Precedence[j]))
  {
    ClassifyIsFirstMatch(skillsLower);
    FirstMatchIsEarliest(Precedence, skillsLower);
  }

  /** Every keyword of every field. */
  function AllKeywords(): (all: seq<string>)
    ensures forall f :: f in Precedence ==> forall k :: k in Keywords(f) ==> k in all
  {
    DsKeywords + WebKeywords + AndroidKeywords + IosKeywords + UiUxKeywords
  }

  /**
   * `Other` (with no recommended skills) exactly when no lower-cased skill is
   * equal to any keyword of any field.
   */
  lemma OtherIffNoKeyword(skillsLower: set<string>)
    ensures Classify(skillsLower) == Other <==> forall s :: s in skillsLower ==> s !in AllKeywords()
    ensures Classify(skillsLower) == Other <==> RecommendedSkills(Classify(skillsLower)) == []
  {
    if Classify(skillsLower) != Other {
      var f := Classify(skillsLower);
      var s :| s in skillsLower && s in Keywords(f);
      assert s in AllKeywords();
    }
  }

  /** A lone skill that no field lists is classified `Other`. */
  lemma UnlistedSkillIsOther(skill: string)
    requires skill !in AllKeywords()
    ensures Classify({skill}) == Other
  {
    OtherIffNoKeyword({skill});
  }

  /** "flask" is a web keyword too, but Data Science is tried first and wins. */
  lemma FlaskIsDataScience(skillsLower: set<string>)
    requires "flask" in skillsLower
    ensures "flask" in WebKeywords
    ensures Classify(skillsLower) == DataScience
  {
    assert "flask" in DsKeywords;
  }

  /** Matching is whole-string: a skill that merely contains a keyword ("reactive") does not match it. */
  lemma MatchIsExact()
    ensures Classify({"reactive programming"}) == Other
  {
    assert forall s :: s in {"reactive programming"} ==> s !in AllKeywords();
    OtherIffNoKeyword({"reactive programming"});
  }

  /** Upper-case spellings in the extracted skills are matched after lower-casing. */
  lemma ClassifyIgnoresCase(skills: seq<string>, k: string)
    requires k in skills
    requires Lower(k) == "python"
    ensures Classify(LowerSkills(skills)) == DataScience
  {
    assert "python" in DsKeywords;
  }
}
