/** The category step of the upload dialogue: `handle_type_photo` stores whatever text
    arrives and picks the next state by substring tests, never consulting the list of
    post types. The lemmas show where each of the six real labels leads. */
module Categories {
  import opened Text
  import opened Fsm
  import opened Constants

  const DMP_MARK: string := "ДМП"
  const COMPETITOR_MARK: string := "конкурент"

  /** The state after a category text: "ДМП" with "конкурент" asks for a competitor
      brand, "ДМП" alone for an ORIMI brand, anything else goes straight to the photo. */
  function CategoryTarget(typePhoto: string): (s: UserState)
    ensures s in {WaitingForCompetitorBrand, WaitingForDmpBrand, WaitingForPhoto}
  {
    if Contains(typePhoto, DMP_MARK) then
      if Contains(typePhoto, COMPETITOR_MARK) then WaitingForCompetitorBrand else WaitingForDmpBrand
    else WaitingForPhoto
  }

  /** The branch rule in terms of substrings, both directions. */
  lemma CategoryTargetCases(typePhoto: string)
    ensures CategoryTarget(typePhoto) == WaitingForCompetitorBrand
            <==> Contains(typePhoto, DMP_MARK) && Contains(typePhoto, COMPETITOR_MARK)
    ensures CategoryTarget(typePhoto) == WaitingForDmpBrand
            <==> Contains(typePhoto, DMP_MARK) && !Contains(typePhoto, COMPETITOR_MARK)
    ensures CategoryTarget(typePhoto) == WaitingForPhoto <==> !Contains(typePhoto, DMP_MARK)
  {
  }

  /** "ДМП_конкурент" holds both marks. */
  lemma CompetitorLabelHasBothMarks()
    ensures Contains("ДМП_конкурент", DMP_MARK) && Contains("ДМП_конкурент", COMPETITOR_MARK)
  {
    var s := "ДМП_конкурент";
    assert StartsWith(s, DMP_MARK);
    assert s == "ДМП_" + COMPETITOR_MARK;
    assert s[4..4 + |COMPETITOR_MARK|] == COMPETITOR_MARK;
    assert OccursAt(s, COMPETITOR_MARK, 4);
    ContainsIffOccurs(s, COMPETITOR_MARK);
  }

  /** "ДМП_ОРИМИ КР" holds "ДМП" but not "конкурент" (its capitals are not the lower-case
      letters the test looks for). */
  lemma OrimiLabelHasOnlyDmpMark()
    ensures Contains("ДМП_ОРИМИ КР", DMP_MARK) && !Contains("ДМП_ОРИМИ КР", COMPETITOR_MARK)
  {
    var s := "ДМП_ОРИМИ КР";
    assert StartsWith(s, DMP_MARK);
    assert s + [] == s;
    NotContainsSplit(s, [], COMPETITOR_MARK);
  }

  lemma TeaBeforeHasNoDmpMark()
    ensures !Contains("РМП_чай_ДО", DMP_MARK)
  {
    assert "РМП_чай_" + "ДО" == "РМП_чай_ДО";
    NotContainsSplit("РМП_чай_", "ДО", DMP_MARK);
  }

  lemma TeaAfterHasNoDmpMark()
    ensures !Contains("РМП_чай_ПОСЛЕ", DMP_MARK)
  {
    assert "РМП_чай_ПОСЛЕ" + [] == "РМП_чай_ПОСЛЕ";
    NotContainsSplit("РМП_чай_ПОСЛЕ", [], DMP_MARK);
  }

  lemma CoffeeBeforeHasNoDmpMark()
    ensures !Contains("РМП_кофе_ДО", DMP_MARK)
  {
    assert "РМП_кофе_" + "ДО" == "РМП_кофе_ДО";
    NotContainsSplit("РМП_кофе_", "ДО", DMP_MARK);
  }

  lemma CoffeeAfterHasNoDmpMark()
    ensures !Contains("РМП_кофе_ПОСЛЕ", DMP_MARK)
  {
    assert "РМП_кофе_ПОСЛЕ" + [] == "РМП_кофе_ПОСЛЕ";
    NotContainsSplit("РМП_кофе_ПОСЛЕ", [], DMP_MARK);
  }

  /** Of the six post types, "ДМП_конкурент" leads to the competitor brand, "ДМП_ОРИМИ КР"
      to the ORIMI brand and the four "РМП_" labels straight to the photo. */
  lemma PostTypesRouteByLabel(t: string)
    requires ValidatePostType(t)
    ensures CategoryTarget(t) == (if t == "ДМП_конкурент" then WaitingForCompetitorBrand
                                  else if t == "ДМП_ОРИМИ КР" then WaitingForDmpBrand
                                  else WaitingForPhoto)
  {
    if t == "ДМП_конкурент" {
      CompetitorLabelHasBothMarks();
    } else if t == "ДМП_ОРИМИ КР" {
      OrimiLabelHasOnlyDmpMark();
    } else if t == "РМП_чай_ДО" {
      TeaBeforeHasNoDmpMark();
    } else if t == "РМП_чай_ПОСЛЕ" {
      TeaAfterHasNoDmpMark();
    } else if t == "РМП_кофе_ДО" {
      CoffeeBeforeHasNoDmpMark();
    } else {
      assert t == "РМП_кофе_ПОСЛЕ";
      CoffeeAfterHasNoDmpMark();
    }
  }

  /** Exactly one post type leads to each brand state. */
  lemma OneLabelPerBrandState(t: string, u: string)
    requires ValidatePostType(t) && ValidatePostType(u)
    ensures CategoryTarget(t) == CategoryTarget(u) == WaitingForCompetitorBrand ==> t == u
    ensures CategoryTarget(t) == CategoryTarget(u) == WaitingForDmpBrand ==> t == u
  {
    PostTypesRouteByLabel(t);
    PostTypesRouteByLabel(u);
  }
}
