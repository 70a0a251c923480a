/** How what a product needs depends on what is known of it. */
module Requirements {
  import opened Options
  import opened Text
  import opened CitationRegistry

  /** The other product is for children that are no older, and has every other property of the first. */
  predicate AtLeastAsStrict(profile: Profile, other: Profile) {
    && Lower(other.productCategory) == Lower(profile.productCategory)
    && (profile.isToy ==> other.isToy) && (profile.isChildcare ==> other.isChildcare)
    && (profile.ageMonths.Some? ==> other.ageMonths.Some? && other.ageMonths.value <= profile.ageMonths.value)
  }

  /** A falling age, and one property more, never removes a requirement. */
  lemma StricterNeedsMore(profile: Profile, other: Profile)
    requires AtLeastAsStrict(profile, other)
    ensures Required(profile) <= Required(other)
  {
    forall id | id in Required(profile) ensures id in Required(other) { NeedGrows(profile, other, id); }
  }

  lemma NeedGrows(profile: Profile, other: Profile, id: string)
    requires AtLeastAsStrict(profile, other) && Needs(profile, id)
    ensures Needs(other, id)
  {
  }

  /** Profiles that differ in one property differ in one requirement at most. */
  lemma AgeDecidesSmallParts(profile: Profile, age: Option<int>)
    ensures var other := profile.(ageMonths := age);
            Required(other) - {"16 CFR Part 1501"} == Required(profile) - {"16 CFR Part 1501"}
    ensures "16 CFR Part 1501" in Required(profile.(ageMonths := age)) <==> age.Some? && age.value <= 3 * 12 - 1
  {
  }

  lemma PlayDecidesPhthalates(profile: Profile, toy: bool, childcare: bool)
    ensures var other := profile.(isToy := toy, isChildcare := childcare);
            Required(other) - {"16 CFR Part 1307"} == Required(profile) - {"16 CFR Part 1307"}
    ensures "16 CFR Part 1307" in Required(profile.(isToy := toy, isChildcare := childcare)) <==> toy || childcare
  {
  }

  lemma CategoryDecidesStability(profile: Profile, category: string)
    ensures var other := profile.(productCategory := category);
            Required(other) - {"16 CFR Part 1261"} == Required(profile) - {"16 CFR Part 1261"}
    ensures "16 CFR Part 1261" in Required(profile.(productCategory := category))
            <==> Lower(category) == "dresser" || Lower(category) == "clothing_storage_unit"
  {
  }

  /** Lead paint and lead content are asked of every product. */
  lemma AlwaysNeeded(profile: Profile)
    ensures {"16 CFR Part 1303", "15 U.S.C. 1278a"} <= Required(profile)
    ensures Required(profile)
            <= {"16 CFR Part 1303", "15 U.S.C. 1278a", "16 CFR Part 1261", "16 CFR Part 1501", "16 CFR Part 1307"}
  {
  }
}
