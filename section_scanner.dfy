/**
 * Section scanner: decides, for each of five résumé sections, whether the
 * lower-cased résumé text mentions it (any of its keywords occurs as a
 * substring), and scores 20 points per section found.
 */
module SectionScanner {
  import opened Text

  /** A section table: section names with their detection keywords, in scanning order. */
  type Table = seq<(string, seq<string>)>

  /** The sections in the order the source's dictionary lists them, each with its detection keywords. */
  const SectionTable: Table := [
    ("objective", ["objective", "summary"]),
    ("declaration", ["declaration"]),
    ("hobbies", ["hobbies", "interests"]),
    ("achievements", ["achievements", "awards", "certifications"]),
    ("projects", ["projects", "experience", "work experience"])
  ]

  const SectionNames: set<string> := {"objective", "declaration", "hobbies", "achievements", "projects"}

  /** Points a present section adds to the score. */
  const SectionPoints: int := 20

  /** A dictionary's keys are distinct. */
  predicate DistinctNames(table: Table) {
    forall i, j :: 0 <= i < j < |table| ==> table[i].0 != table[j].0
  }

  function Names(table: Table): set<string> {
    set i | 0 <= i < |table| :: table[i].0
  }

  /** `any(keyword in textLower for keyword in keywords)`. */
  predicate SectionPresent(keywords: seq<string>, textLower: string) {
    exists k :: k in keywords && Occurs(k, textLower)
  }

  /** The breakdown keys that are set to true. */
  function TrueKeys(breakdown: map<string, bool>): set<string> {
    set k | k in breakdown && breakdown[k]
  }

  /**
   * What a completed scan returns: exactly the table's section keys, each
   * true iff one of its keywords occurs in the text, and 20 points per true key.
   */
  ghost predicate IsScanOf(table: Table, textLower: string, score: int, breakdown: map<string, bool>) {
    && breakdown.Keys == Names(table)
    && (forall i :: 0 <= i < |table| ==> breakdown[table[i].0] == SectionPresent(table[i].1, textLower))
    && score == SectionPoints * |TrueKeys(breakdown)|
  }

  lemma TrueKeysAdd(m: map<string, bool>, k: string, b: bool)
    requires k !in m
    ensures TrueKeys(m[k := b]) == if b then TrueKeys(m) + {k} else TrueKeys(m)
    ensures k !in TrueKeys(m)
  {
  }

  /** The source's section table has five distinct names. */
  lemma SectionTableShape()
    ensures |SectionTable| == 5
    ensures DistinctNames(SectionTable)
    ensures Names(SectionTable) == SectionNames
  {
    var t := SectionTable;
    assert t[0].0 == "objective" && t[1].0 == "declaration" && t[2].0 == "hobbies";
    assert t[3].0 == "achievements" && t[4].0 == "projects";
    assert Names(t) == {t[0].0, t[1].0, t[2].0, t[3].0, t[4].0} by {
      forall n | n in Names(t) ensures n in {t[0].0, t[1].0, t[2].0, t[3].0, t[4].0} {
        var i :| 0 <= i < |t| && t[i].0 == n;
      }
    }
  }

  /** The loop's invariant: the first `n` sections have been scanned. */
  ghost predicate ScannedUpTo(table: Table, n: int, textLower: string, score: int, breakdown: map<string, bool>) {
    && 0 <= n <= |table|
    && breakdown.Keys == Names(table[..n])
    && (forall j :: 0 <= j < n ==> breakdown[table[j].0] == SectionPresent(table[j].1, textLower))
    && score == SectionPoints * |TrueKeys(breakdown)|
  }

  /** Extending a prefix of a table by one entry adds that entry's name, which is new when names are distinct. */
  lemma NamesOfLongerPrefix(table: Table, n: int)
    requires DistinctNames(table) && 0 <= n < |table|
    ensures Names(table[..n + 1]) == Names(table[..n]) + {table[n].0}
    ensures table[n].0 !in Names(table[..n])
  {
    var section := table[n].0;
    forall j | 0 <= j < n ensures table[..n][j].0 != section {
      assert table[..n][j] == table[j];
    }
    assert table[..n + 1][n] == table[n];
    forall m | m in Names(table[..n + 1]) ensures m in Names(table[..n]) + {section} {
      var j :| 0 <= j < n + 1 && table[..n + 1][j].0 == m;
      if j < n { assert table[..n][j] == table[j]; }
    }
    forall m | m in Names(table[..n]) ensures m in Names(table[..n + 1]) {
      var j :| 0 <= j < n && table[..n][j].0 == m;
      assert table[..n + 1][j] == table[j];
    }
  }

  /** One iteration of the scan keeps the invariant. */
  lemma ScanStep(table: Table, n: int, textLower: string, score: int, breakdown: map<string, bool>)
    requires DistinctNames(table)
    requires ScannedUpTo(table, n, textLower, score, breakdown) && n < |table|
    ensures var present := SectionPresent(table[n].1, textLower);
            ScannedUpTo(table, n + 1, textLower, if present then score + SectionPoints else score,
                        breakdown[table[n].0 := present])
  {
    var section := table[n].0;
    var present := SectionPresent(table[n].1, textLower);
    NamesOfLongerPrefix(table, n);
    TrueKeysAdd(breakdown, section, present);
  }

  /**
   * The loop over the section table (`for section, keywords in
   * sections_to_check.items()`), adding 20 to the score and recording true or
   * false in the breakdown for each section.
   */
  method ScanSections(table: Table, textLower: string) returns (score: int, breakdown: map<string, bool>)
    requires DistinctNames(table)
    ensures IsScanOf(table, textLower, score, breakdown)
    ensures score % SectionPoints == 0 && 0 <= score <= |table| * SectionPoints
  {
    score := 0;
    breakdown := map[];
    var i := 0;
    while i < |table|
      invariant ScannedUpTo(table, i, textLower, score, breakdown)
    {
      var (section, keywords) := table[i];
      ScanStep(table, i, textLower, score, breakdown);
      var present := SectionPresent(keywords, textLower);
      if present {
        score := score + SectionPoints;
      }
      breakdown := breakdown[section := present];
      i := i + 1;
    }
    assert table[..i] == table;
    ScoreIsBounded(table, textLower, score, breakdown);
  }

  /** A scan's score is a multiple of 20 and at most 20 points per section of the table. */
  lemma ScoreIsBounded(table: Table, textLower: string, score: int, breakdown: map<string, bool>)
    requires DistinctNames(table)
    requires IsScanOf(table, textLower, score, breakdown)
    ensures score % SectionPoints == 0 && 0 <= score <= |table| * SectionPoints
  {
    NamesCardinality(table);
    SubsetCardinality(TrueKeys(breakdown), Names(table));
  }

  /** With the source's table the score is one of 0, 20, 40, 60, 80 or 100. */
  lemma SourceScoreValues(textLower: string, score: int, breakdown: map<string, bool>)
    requires IsScanOf(SectionTable, textLower, score, breakdown)
    ensures breakdown.Keys == SectionNames
    ensures score in {0, 20, 40, 60, 80, 100}
  {
    SectionTableShape();
    SubsetCardinality(TrueKeys(breakdown), SectionNames);
    var n := |TrueKeys(breakdown)|;
    assert n <= 5 by { NamesCardinality(SectionTable); }
    assert n == 0 || n == 1 || n == 2 || n == 3 || n == 4 || n == 5;
  }

  lemma {:induction false} NamesCardinality(table: Table)
    requires DistinctNames(table)
    ensures |Names(table)| == |table|
  {
    if table != [] {
      var last := |table| - 1;
      var front := table[..last];
      assert DistinctNames(front) by {
        forall i, j | 0 <= i < j < |front| ensures front[i].0 != front[j].0 {
          assert front[i] == table[i] && front[j] == table[j];
        }
      }
      NamesCardinality(front);
      assert Names(table) == Names(front) + {table[last].0} by {
        forall n | n in Names(table) ensures n in Names(front) + {table[last].0} {
          var j :| 0 <= j < |table| && table[j].0 == n;
          if j < last { assert front[j] == table[j]; }
        }
      }
      assert table[last].0 !in Names(front) by {
        forall j | 0 <= j < |front| ensures front[j].0 != table[last].0 {
          assert front[j] == table[j];
        }
      }
    }
  }

  lemma SubsetCardinality(a: set<string>, b: set<string>)
    requires a <= b
    ensures |a| <= |b|
  {
    assert b == a + (b - a);
  }

  /** A text with none of the keywords scores 0 with every section false. */
  lemma NoKeywordsScoresZero(table: Table, textLower: string, score: int, breakdown: map<string, bool>)
    requires IsScanOf(table, textLower, score, breakdown)
    requires forall i, k :: 0 <= i < |table| && k in table[i].1 ==> !Occurs(k, textLower)
    ensures score == 0
    ensures forall s :: s in breakdown ==> !breakdown[s]
  {
    forall s | s in breakdown
      ensures !breakdown[s]
    {
      var i :| 0 <= i < |table| && table[i].0 == s;
      assert !SectionPresent(table[i].1, textLower);
    }
    assert TrueKeys(breakdown) == {};
  }

  /**
   * Worked example: a résumé text with the headings "Projects" and
   * "Certifications", and no objective, declaration or hobbies keyword in any
   * casing, scores 40 once its lower-cased form is scanned.
   */
  lemma ExampleProjectsAndCertifications(text: string, score: int, breakdown: map<string, bool>)
    requires Occurs("Projects", text) && Occurs("Certifications", text)
    requires forall k :: k in ["objective", "summary", "declaration", "hobbies", "interests"] ==> !Occurs(k, Lower(text))
    requires IsScanOf(SectionTable, Lower(text), score, breakdown)
    ensures breakdown == map["objective" := false, "declaration" := false, "hobbies" := false,
                             "achievements" := true, "projects" := true]
    ensures score == 40
  {
    HeadingsLowered(text);
    ExampleLowered(Lower(text), score, breakdown);
  }

  /** The example's two capitalised headings are found, lower-cased, in the lower-cased text. */
  lemma HeadingsLowered(text: string)
    requires Occurs("Projects", text) && Occurs("Certifications", text)
    ensures Occurs("projects", Lower(text)) && Occurs("certifications", Lower(text))
  {
    LowerProjects();
    LowerCertifications();
    LowerKeepsOccurrence("Projects", text);
    LowerKeepsOccurrence("Certifications", text);
  }

  lemma LowerProjects()
    ensures Lower("Projects") == "projects"
  {
    LowerCapitalised("Projects", "projects");
  }

  lemma LowerCertifications()
    ensures Lower("Certifications") == "certifications"
  {
    LowerCapitalised("Certifications", "certifications");
  }

  /** The example on the already lower-cased text the scan receives. */
  lemma ExampleLowered(t: string, score: int, breakdown: map<string, bool>)
    requires Occurs("projects", t) && Occurs("certifications", t)
    requires forall k :: k in ["objective", "summary", "declaration", "hobbies", "interests"] ==> !Occurs(k, t)
    requires IsScanOf(SectionTable, t, score, breakdown)
    ensures breakdown == map["objective" := false, "declaration" := false, "hobbies" := false,
                             "achievements" := true, "projects" := true]
    ensures score == 40
  {
    ExampleEntries(t, score, breakdown);
    assert TrueKeys(breakdown) == {"achievements", "projects"};
  }

  lemma ExampleEntries(t: string, score: int, breakdown: map<string, bool>)
    requires Occurs("projects", t) && Occurs("certifications", t)
    requires forall k :: k in ["objective", "summary", "declaration", "hobbies", "interests"] ==> !Occurs(k, t)
    requires IsScanOf(SectionTable, t, score, breakdown)
    ensures breakdown.Keys == SectionNames
    ensures "achievements" in breakdown && breakdown["achievements"]
    ensures "projects" in breakdown && breakdown["projects"]
    ensures "objective" in breakdown && !breakdown["objective"]
    ensures "declaration" in breakdown && !breakdown["declaration"]
    ensures "hobbies" in breakdown && !breakdown["hobbies"]
  {
    SectionTableShape();
    var absent := ["objective", "summary", "declaration", "hobbies", "interests"];
    assert "certifications" in SectionTable[3].1;
    assert "projects" in SectionTable[4].1;
    assert forall k :: k in SectionTable[0].1 ==> k in absent;
    assert forall k :: k in SectionTable[1].1 ==> k in absent;
    assert forall k :: k in SectionTable[2].1 ==> k in absent;
  }
}
