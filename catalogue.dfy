/**
 * The public course catalogue: the store query that lists published
 * courses, optionally of one sector, in `sort_order`; the search box that
 * narrows that list by title or description; and the level and sector
 * labels printed on each card.
 */
module Catalogue {
  import opened Wrappers
  import opened Strings
  import opened Seqs
  import opened Records

  /** `sectorLabels`. */
  const SectorLabels: map<string, string> := map[
    "education" := "Éducation", "commerce" := "Commerce", "sante" := "Santé",
    "artisanat" := "Artisanat", "eglise" := "Églises", "association" := "Associations",
    "entreprise" := "Entreprises", "freelance" := "Freelances", "agriculture" := "Agriculture",
    "cyber_imprimerie" := "Cyber & Imprimerie", "etudiant" := "Étudiants"]

  /** `levelLabels`. */
  const LevelLabels: map<string, string> := map[
    "debutant" := "Débutant", "intermediaire" := "Intermédiaire", "avance" := "Avancé"]

  /** `table[key] || raw`: the mapped label, or the raw value when there is none. */
  function LabelOr(table: map<string, string>, key: string): (r: string)
    ensures key in table && table[key] != "" ==> r == table[key]
    ensures key !in table ==> r == key
  {
    if key in table && table[key] != "" then table[key] else key
  }

  /** The level badge shows the level's label, or the stored level itself when it has none. */
  function LevelLabel(level: string): (r: string)
    ensures level in LevelLabels ==> r == LevelLabels[level]
    ensures level !in LevelLabels ==> r == level
    ensures level != "" ==> r != ""
  {
    LabelOr(LevelLabels, level)
  }

  /**
   * The sector line: nothing for a missing or empty sector, otherwise the
   * sector's label or the stored sector itself.
   */
  function SectorLabel(sector: Option<string>): (r: Option<string>)
    ensures r.Some? <==> Truthy(sector)
    ensures Truthy(sector) && sector.value in SectorLabels ==> r == Some(SectorLabels[sector.value])
    ensures Truthy(sector) && sector.value !in SectorLabels ==> r == sector
    ensures r.Some? ==> r.value != ""
  {
    if Truthy(sector) then Some(LabelOr(SectorLabels, sector.value)) else None
  }

  /** The query's filters: published, and of the chosen sector unless the choice is "". */
  predicate Listed(c: CourseRow, sectorFilter: string) {
    c.isPublished && (sectorFilter == "" || c.sector == Some(sectorFilter))
  }

  predicate HasOrder(c: CourseRow) {
    c.sortOrder.Some?
  }

  predicate NoOrder(c: CourseRow) {
    c.sortOrder.None?
  }

  function OrderKey(c: CourseRow): int {
    c.sortOrder.GetOr(0)
  }

  /**
   * The rows the catalogue query returns: the listed courses, ascending by
   * `sort_order` with null orders last (the store's ascending default).
   */
  function Query(table: seq<CourseRow>, sectorFilter: string): (r: seq<CourseRow>)
    ensures |r| <= |table|
  {
    var listed := Filter(table, c => Listed(c, sectorFilter));
    FilterSplits(listed, HasOrder, NoOrder);
    SortBy(Filter(listed, HasOrder), OrderKey) + Filter(listed, NoOrder)
  }

  /** The query returns exactly the published courses of the chosen sector ("" for all sectors). */
  lemma QueryMembers(table: seq<CourseRow>, sectorFilter: string)
    ensures forall c :: c in Query(table, sectorFilter) <==> c in table && Listed(c, sectorFilter)
  {
    var listed := Filter(table, c => Listed(c, sectorFilter));
    var ordered := Filter(listed, HasOrder);
    FilterMembers(table, c => Listed(c, sectorFilter));
    FilterMembers(listed, HasOrder);
    FilterMembers(listed, NoOrder);
    forall c ensures c in SortBy(ordered, OrderKey) <==> c in ordered {
      SortByMembership(ordered, OrderKey, c);
    }
  }

  /** Each listed row is returned as often as it is stored: nothing is duplicated or lost. */
  lemma QueryPermutes(table: seq<CourseRow>, sectorFilter: string)
    ensures multiset(Query(table, sectorFilter)) == multiset(Filter(table, c => Listed(c, sectorFilter)))
  {
    var listed := Filter(table, c => Listed(c, sectorFilter));
    FilterSplits(listed, HasOrder, NoOrder);
    SortByPermutes(Filter(listed, HasOrder), OrderKey);
  }

  /** Rows come in ascending `sort_order`, and those without one come after all others. */
  lemma QueryOrdered(table: seq<CourseRow>, sectorFilter: string)
    ensures var r := Query(table, sectorFilter);
      forall i, j :: 0 <= i < j < |r| && HasOrder(r[j]) ==>
        HasOrder(r[i]) && r[i].sortOrder.value <= r[j].sortOrder.value
  {
    var listed := Filter(table, c => Listed(c, sectorFilter));
    var ordered := Filter(listed, HasOrder);
    var a := SortBy(ordered, OrderKey);
    var b := Filter(listed, NoOrder);
    var r := Query(table, sectorFilter);
    assert r == a + b;
    SortBySorted(ordered, OrderKey);
    FilterMembers(listed, HasOrder);
    FilterMembers(listed, NoOrder);
    forall i | 0 <= i < |a| ensures HasOrder(a[i]) {
      SortByMembership(ordered, OrderKey, a[i]);
    }
    forall i, j | 0 <= i < j < |r| && HasOrder(r[j])
      ensures HasOrder(r[i]) && r[i].sortOrder.value <= r[j].sortOrder.value
    {
      assert j < |a|;
      assert r[i] == a[i] && r[j] == a[j];
    }
  }

  /**
   * The search test: the lower-cased title includes the lower-cased search,
   * or there is a description and its lower-cased form includes it.
   */
  predicate Matches(c: CourseRow, search: string) {
    Contains(Lower(c.title), Lower(search))
    || (c.description.Some? && Contains(Lower(c.description.value), Lower(search)))
  }

  /** `filtered`: the fetched courses that match the search, in their order. */
  function Filtered(courses: seq<CourseRow>, search: string): (r: seq<CourseRow>)
    ensures |r| <= |courses|
  {
    Filter(courses, c => Matches(c, search))
  }

  /** A course is shown exactly when it was fetched and it matches. */
  lemma FilteredMembers(courses: seq<CourseRow>, search: string)
    ensures forall c :: c in Filtered(courses, search) <==> c in courses && Matches(c, search)
  {
    FilterMembers(courses, c => Matches(c, search));
  }

  /** The shown courses keep the fetched order. */
  lemma FilteredKeepsOrder(courses: seq<CourseRow>, search: string)
    ensures IsSubsequence(Filtered(courses, search), courses)
  {
    FilterIsSubsequence(courses, c => Matches(c, search));
  }

  /** An empty search shows every fetched course. */
  lemma EmptySearchShowsAll(courses: seq<CourseRow>)
    ensures Filtered(courses, "") == courses
  {
    forall i | 0 <= i < |courses| ensures Matches(courses[i], "") {
      ContainsEmpty(Lower(courses[i].title));
    }
    FilterKeepsAll(courses, c => Matches(c, ""));
  }

  /** Without a description only the title is searched. */
  lemma NoDescriptionSearchesTitle(c: CourseRow, search: string)
    requires c.description.None?
    ensures Matches(c, search) <==> Contains(Lower(c.title), Lower(search))
  {
  }

  /** The search ignores the case of what is typed. */
  lemma SearchIgnoresCase(courses: seq<CourseRow>, search: string)
    ensures Filtered(courses, Lower(search)) == Filtered(courses, search)
  {
    LowerIdempotent(search);
    FilterCongruent(courses, c => Matches(c, Lower(search)), c => Matches(c, search));
  }

  /** Searching for a course's own title finds it. */
  lemma TitleFindsCourse(courses: seq<CourseRow>, c: CourseRow)
    requires c in courses
    ensures c in Filtered(courses, c.title)
  {
    ContainsSelf(Lower(c.title));
    FilteredMembers(courses, c.title);
  }

  /** Typing more characters never brings back a course the shorter search hid. */
  lemma LongerSearchNarrows(courses: seq<CourseRow>, search: string, more: string)
    ensures forall c :: c in Filtered(courses, search + more) ==> c in Filtered(courses, search)
  {
    FilteredMembers(courses, search + more);
    FilteredMembers(courses, search);
    LowerAppend(search, more);
    forall c | Matches(c, search + more) ensures Matches(c, search) {
      if Contains(Lower(c.title), Lower(search) + Lower(more)) {
        ContainsPrefixOf(Lower(c.title), Lower(search), Lower(more));
      } else {
        ContainsPrefixOf(Lower(c.description.value), Lower(search), Lower(more));
      }
    }
  }

  /** The cards shown: the query's rows narrowed by the search (a null answer is an empty list). */
  function Shown(answer: Option<seq<CourseRow>>, search: string): (r: seq<CourseRow>)
    ensures |r| <= |answer.GetOr([])|
    ensures search == "" ==> r == answer.GetOr([])
  {
    EmptySearchShowsAll(answer.GetOr([]));
    Filtered(answer.GetOr([]), search)
  }
}
