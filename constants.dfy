/** The fixed post categories and brand lists, and their membership validators. */
module Constants {
  import opened Text

  const POST_TYPE_CHOICES: seq<string> := [
    "РМП_чай_ДО",
    "РМП_чай_ПОСЛЕ",
    "РМП_кофе_ДО",
    "РМП_кофе_ПОСЛЕ",
    "ДМП_ОРИМИ КР",
    "ДМП_конкурент"
  ]

  const ORIMI_BRANDS: seq<string> := ["Tess", "Гринф", "ЖН", "Шах"]

  const COMPETITOR_BRANDS: seq<string> := ["Beta", "Пиала", "Ахмад", "Jacobs", "Nestle"]

  predicate ValidatePostType(postType: string) {
    postType in POST_TYPE_CHOICES
  }

  predicate ValidateOrimiBrand(brand: string) {
    brand in ORIMI_BRANDS
  }

  predicate ValidateCompetitorBrand(brand: string) {
    brand in COMPETITOR_BRANDS
  }

  predicate NoDuplicates(s: seq<string>) {
    forall i, j :: 0 <= i < j < |s| ==> s[i] != s[j]
  }

  /** The three lists have 6, 4 and 5 entries, none repeated. */
  lemma ListsAreSets()
    ensures |POST_TYPE_CHOICES| == 6 && NoDuplicates(POST_TYPE_CHOICES)
    ensures |ORIMI_BRANDS| == 4 && NoDuplicates(ORIMI_BRANDS)
    ensures |COMPETITOR_BRANDS| == 5 && NoDuplicates(COMPETITOR_BRANDS)
  {
  }

  /** validate_post_type accepts exactly the six labels. */
  lemma PostTypesAreTheSixLabels(t: string)
    ensures ValidatePostType(t) <==>
      t == "РМП_чай_ДО" || t == "РМП_чай_ПОСЛЕ" || t == "РМП_кофе_ДО" ||
      t == "РМП_кофе_ПОСЛЕ" || t == "ДМП_ОРИМИ КР" || t == "ДМП_конкурент"
  {
  }

  /** No brand is both an ORIMI brand and a competitor brand. */
  lemma BrandListsDisjoint(b: string)
    ensures !(ValidateOrimiBrand(b) && ValidateCompetitorBrand(b))
  {
  }
}
