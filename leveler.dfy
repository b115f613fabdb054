/** Candidate leveler: maps the résumé's page count to a seniority tier. */
module Leveler {
  import opened Common

  /** The tiers; `Unknown` is the source's empty string. */
  datatype Level = Unknown | Fresher | Intermediate | Experienced {

    /** The exact string the report carries as `candidate_level`. */
    function Label(): string {
      match this
      case Unknown => ""
      case Fresher => "Fresher"
      case Intermediate => "Intermediate"
      case Experienced => "Experienced"
    }

    /** Seniority order: Unknown < Fresher < Intermediate < Experienced. */
    function Rank(): nat {
      match this
      case Unknown => 0
      case Fresher => 1
      case Intermediate => 2
      case Experienced => 3
    }
  }

  /** `resume_data.get('no_of_pages', 0)`: a missing page count reads as 0. */
  function PageCount(noOfPages: Option<int>): int {
    noOfPages.GetOr(0)
  }

  /** The if/elif chain over the page count. */
  function LevelOf(pages: int): Level {
    if pages == 1 then Fresher
    else if pages == 2 then Intermediate
    else if pages >= 3 then Experienced
    else Unknown
  }

  /** The tier's rank is the page count clamped to 0..3 (non-positive counts give the unknown tier). */
  lemma LevelRankIsClampedPages(pages: int)
    ensures LevelOf(pages).Rank() == if pages <= 0 then 0 else Min(pages, 3)
  {
  }

  /** A record without a page count is treated as zero pages: the unknown tier, labelled "". */
  lemma MissingPageCountIsUnknown()
    ensures LevelOf(PageCount(None)) == Unknown && LevelOf(PageCount(None)).Label() == ""
  {
  }

  /** A longer résumé never yields a lower tier. */
  lemma LevelMonotone(p: int, q: int)
    requires p <= q
    ensures LevelOf(p).Rank() <= LevelOf(q).Rank()
  {
    LevelRankIsClampedPages(p);
    LevelRankIsClampedPages(q);
  }

  /** The label is empty exactly when the page count is below one, and distinct tiers have distinct labels. */
  lemma LabelEmptyIffNoPages(pages: int)
    ensures LevelOf(pages).Label() == "" <==> pages < 1
    ensures LevelOf(pages).Label() == "Fresher" <==> pages == 1
    ensures LevelOf(pages).Label() == "Intermediate" <==> pages == 2
    ensures LevelOf(pages).Label() == "Experienced" <==> pages >= 3
  {
  }
}
