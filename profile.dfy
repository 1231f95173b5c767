/** The profile page (src/profile.ts): the Airtable formulas that fetch an
    employee's linked records, the skill badges with their fallbacks, the date and
    year cells of the experience and client sections, the record a new experience
    creates, and the quick-search target. Dates, the current year and
    `encodeURIComponent` are inputs. */
module Profile {
  import opened Wrappers
  import opened Text
  import opened Json
  import Dictionary

  // ---------------------------------------------------------------------------
  // Formulas

  const ClausePrefix := "RECORD_ID()='"

  /** `` `RECORD_ID()='${id}'` `` */
  function Clause(id: string): string {
    ClausePrefix + id + "'"
  }

  function Clauses(ids: seq<string>): (r: seq<string>)
    ensures |r| == |ids|
    ensures forall i :: 0 <= i < |ids| ==> r[i] == Clause(ids[i])
  {
    seq(|ids|, i requires 0 <= i < |ids| => Clause(ids[i]))
  }

  /** `` `OR(${ids.map(id => `RECORD_ID()='${id}'`).join(',')})` `` */
  function RecordIdFormula(ids: seq<string>): string {
    "OR(" + Join(Clauses(ids), ",") + ")"
  }

  /** Reading the ids back out of a formula: the clauses between "OR(" and ")",
      each without its "RECORD_ID()='" and closing quote. */
  function FormulaIds(f: string): seq<string> {
    var inner := if |f| >= 4 then f[3..|f| - 1] else "";
    var cs := Split(inner, ',');
    seq(|cs|, i requires 0 <= i < |cs| => if |cs[i]| >= 14 then cs[i][13..|cs[i]| - 1] else cs[i])
  }

  /** The formula lists the ids, in order: reading it back gives them again (for ids
      without commas, which Airtable record ids never contain). */
  lemma FormulaRoundTrip(ids: seq<string>)
    requires ids != []
    requires forall i :: 0 <= i < |ids| ==> ',' !in ids[i]
    ensures FormulaIds(RecordIdFormula(ids)) == ids
  {
    var cs := Clauses(ids);
    var j := Join(cs, ",");
    var f := RecordIdFormula(ids);
    assert f[3..|f| - 1] == j;
    forall i | 0 <= i < |cs| ensures ',' !in cs[i] {
      assert cs[i] == ClausePrefix + ids[i] + "'";
    }
    SplitJoin(cs, ',');
    forall i | 0 <= i < |ids| ensures Clause(ids[i])[13..|Clause(ids[i])| - 1] == ids[i] {
    }
  }

  /** A linked-records query is made only for a non-empty list (`ids?.length`). */
  function LinkedQuery(ids: Option<seq<string>>): (q: Option<string>)
    ensures q.Some? <==> ids.Some? && ids.value != []
    ensures q.Some? ==> q.value == RecordIdFormula(ids.value)
  {
    if ids.Some? && |ids.value| > 0 then Some(RecordIdFormula(ids.value)) else None
  }

  /** `` `{Employee}='${REC_ID}'` ``: the Skill Levels of this employee. */
  function EmployeeFormula(recId: string): string {
    "{Employee}='" + recId + "'"
  }

  // ---------------------------------------------------------------------------
  // Skills

  /** A 'Skill Levels' record: its 'Skill' links and its 'Level'. */
  datatype SkillLevel = SkillLevel(skill: Option<seq<string>>, level: Option<string>)

  /** `r.fields['Skill']?.[0]`. */
  function FirstSkill(r: SkillLevel): Option<string> {
    if r.skill.Some? && |r.skill.value| > 0 then Some(r.skill.value[0]) else None
  }

  /** `records.map(r => r.fields['Skill']?.[0]).filter(Boolean)`. */
  function SkillIds(levels: seq<SkillLevel>): (r: seq<string>)
    ensures |r| <= |levels|
    ensures forall x :: x in r <==> x != "" && exists i :: 0 <= i < |levels| && FirstSkill(levels[i]) == Some(x)
  {
    if levels == [] then []
    else
      var rest := SkillIds(levels[..|levels| - 1]);
      var last := FirstSkill(levels[|levels| - 1]);
      assert forall i :: 0 <= i < |levels| - 1 ==> levels[..|levels| - 1][i] == levels[i];
      if last.Some? && last.value != "" then rest + [last.value] else rest
  }

  /** One record contributes its first 'Skill' link when that is truthy, else nothing. */
  lemma SkillIdsOne(r: SkillLevel)
    ensures SkillIds([r]) == if FirstSkill(r).Some? && FirstSkill(r).value != "" then [FirstSkill(r).value] else []
  {
    assert [r][..0] == [];
  }

  /** The ids of two runs of records are the ids of the first followed by those of the
      second: the links keep the records' order and each record gives at most one. */
  lemma {:induction false} SkillIdsAppend(a: seq<SkillLevel>, b: seq<SkillLevel>)
    ensures SkillIds(a + b) == SkillIds(a) + SkillIds(b)
  {
    if b == [] {
      assert a + b == a;
    } else {
      var b' := b[..|b| - 1];
      assert (a + b)[..|a + b| - 1] == a + b';
      assert (a + b)[|a + b| - 1] == b[|b| - 1];
      SkillIdsAppend(a, b');
    }
  }

  /** The skills query is made only when some record links a skill. */
  function SkillsQuery(levels: seq<SkillLevel>): (q: Option<string>)
    ensures q.Some? <==> exists i :: 0 <= i < |levels| && FirstSkill(levels[i]).Some? && FirstSkill(levels[i]).value != ""
  {
    var ids := SkillIds(levels);
    if |ids| > 0 then
      assert ids[0] in ids;
      Some(RecordIdFormula(ids))
    else
      assert forall i :: 0 <= i < |levels| && FirstSkill(levels[i]).Some? ==> FirstSkill(levels[i]).value !in ids;
      None
  }

  /** The skills query asks for exactly the skill ids, in the records' order. */
  lemma SkillsQueryListsIds(levels: seq<SkillLevel>)
    requires forall i :: 0 <= i < |levels| && FirstSkill(levels[i]).Some? ==> ',' !in FirstSkill(levels[i]).value
    ensures SkillsQuery(levels).Some? ==> FormulaIds(SkillsQuery(levels).value) == SkillIds(levels)
  {
    var ids := SkillIds(levels);
    if ids != [] {
      forall i | 0 <= i < |ids| ensures ',' !in ids[i] {
        assert ids[i] in ids;
      }
      FormulaRoundTrip(ids);
    }
  }

  /** A 'Skills' record: its id and its 'Skill Name'. */
  datatype Skill = Skill(id: string, name: Option<string>)

  /** `skillsMap[r.id] = r.fields['Skill Name']` for each record. */
  function SkillPairs(skills: seq<Skill>): (r: seq<(string, Option<string>)>)
    ensures |r| == |skills|
    ensures forall i :: 0 <= i < |skills| ==> r[i] == (skills[i].id, skills[i].name)
  {
    seq(|skills|, i requires 0 <= i < |skills| => (skills[i].id, skills[i].name))
  }

  /** The dictionary the skills answer fills holds exactly the returned ids, and an id
      maps to the 'Skill Name' of its last record. */
  lemma SkillsMapLookup(skills: seq<Skill>, id: string)
    ensures var m := Dictionary.Assigned(map[], SkillPairs(skills));
      && (id in m <==> exists j :: 0 <= j < |skills| && skills[j].id == id)
      && forall j :: 0 <= j < |skills| && skills[j].id == id && (forall k :: j < k < |skills| ==> skills[k].id != id)
           ==> id in m && m[id] == skills[j].name
  {
    var pairs := SkillPairs(skills);
    Dictionary.AssignedKeys(map[], pairs, id);
    assert (exists i :: 0 <= i < |pairs| && pairs[i].0 == id) <==> exists j :: 0 <= j < |skills| && skills[j].id == id;
    forall j | 0 <= j < |skills| && skills[j].id == id && (forall k :: j < k < |skills| ==> skills[k].id != id)
      ensures id in Dictionary.Assigned(map[], pairs) && Dictionary.Assigned(map[], pairs)[id] == skills[j].name
    {
      Dictionary.AssignedLast(map[], pairs, id, j);
    }
  }

  /** A badge's two parts: the skill name and the level in parentheses. */
  datatype Badge = Badge(name: string, level: string)

  /** `skillsMap[skillId] || 'Unknown'` and `r.fields['Level'] || ''`. A missing
      skill id indexes the dictionary with the key "undefined". */
  function BadgeOf(skillsMap: map<string, Option<string>>, r: SkillLevel): (b: Badge)
    ensures b.level == (if r.level.Some? then r.level.value else "")
    ensures b.name == "Unknown" <==>
      var key := FirstSkill(r).GetOr("undefined");
      key !in skillsMap || skillsMap[key].None? || skillsMap[key].value in {"", "Unknown"}
    ensures var key := FirstSkill(r).GetOr("undefined");
      key in skillsMap && skillsMap[key].Some? && skillsMap[key].value != "" ==> b.name == skillsMap[key].value
    ensures b.name != "Unknown" ==>
      var key := FirstSkill(r).GetOr("undefined");
      key in skillsMap && skillsMap[key] == Some(b.name)
  {
    var key := FirstSkill(r).GetOr("undefined");
    var name := if key in skillsMap && skillsMap[key].Some? && skillsMap[key].value != "" then skillsMap[key].value
                else "Unknown";
    Badge(name, r.level.GetOr(""))
  }

  /** The skill section of the page. `skills` is the answer to the skills query,
      which is only sent when there are skill ids. */
  method SkillBadges(levels: seq<SkillLevel>, skills: seq<Skill>) returns (badges: seq<Badge>)
    ensures |badges| == |levels|
    ensures var m := if SkillIds(levels) != [] then Dictionary.Assigned(map[], SkillPairs(skills)) else map[];
      forall i :: 0 <= i < |levels| ==> badges[i] == BadgeOf(m, levels[i])
  {
    var skillIds := SkillIds(levels);
    var skillsMap: map<string, Option<string>> := map[];
    if |skillIds| > 0 {
      skillsMap := Dictionary.Fill(skillsMap, SkillPairs(skills));
    }
    badges := [];
    for i := 0 to |levels|
      invariant |badges| == i
      invariant forall k :: 0 <= k < i ==> badges[k] == BadgeOf(skillsMap, levels[k])
    {
      badges := badges + [BadgeOf(skillsMap, levels[i])];
    }
  }

  // ---------------------------------------------------------------------------
  // Dates and years

  /** `s.slice(0, n)` for `n >= 0`. */
  function Prefix(s: string, n: nat): (r: string)
    ensures |r| == if |s| < n then |s| else n
    ensures r == s[..|r|]
  {
    if |s| < n then s else s[..n]
  }

  /** `` `${start?.slice(0,7)} – ${end?.slice(0,7) || 'Present'}` ``: an absent start
      prints as "undefined". */
  function DateLine(start: Option<string>, end: Option<string>): string {
    (if start.Some? then Prefix(start.value, 7) else "undefined")
    + " \U{2013} "
    + (if end.Some? && end.value != "" then Prefix(end.value, 7) else "Present")
  }

  /** The end of the line is "Present" for an absent or empty end date, and otherwise
      the year and month of the end date. */
  lemma DateLineEnd(start: Option<string>, end: Option<string>)
    ensures var line := DateLine(start, end);
      && (end.None? || end.value == "" ==> EndsWith(line, " \U{2013} Present"))
      && (end.Some? && |end.value| >= 7 ==> EndsWith(line, " \U{2013} " + end.value[..7]))
      && (start.Some? && |start.value| >= 7 ==> StartsWith(line, start.value[..7] + " \U{2013} "))
      && (end.Some? && end.value != "" ==> EndsWith(line, " \U{2013} " + Prefix(end.value, 7)))
      && (start.Some? ==> StartsWith(line, Prefix(start.value, 7) + " \U{2013} "))
      && (start.None? ==> StartsWith(line, "undefined \U{2013} "))
  {
    var a := if start.Some? then Prefix(start.value, 7) else "undefined";
    var b := if end.Some? && end.value != "" then Prefix(end.value, 7) else "Present";
    assert DateLine(start, end) == a + " \U{2013} " + b;
    JoinedEnds(a, " \U{2013} ", b);
    if end.None? || end.value == "" {
      assert " \U{2013} " + b == " \U{2013} Present";
    }
  }

  lemma JoinedEnds(a: string, m: string, b: string)
    ensures StartsWith(a + m + b, a + m) && EndsWith(a + m + b, m + b)
  {
    assert (a + m + b)[..|a + m|] == a + m;
    assert (a + m + b)[|a|..] == m + b;
  }

  /** The years cell of a client row: the 'Years Experience' value when truthy, else
      the difference of the years, else empty. */
  datatype YearsCell = Given(v: Value) | Difference(years: int) | NoYears

  /** A 'Client Experience' row's date fields; `yearOf` is `new Date(s).getFullYear()`. */
  function ClientYears(yearsExperience: Option<Value>, startDate: Option<string>, endDate: Option<string>,
                       yearOf: string -> int, nowYear: int): YearsCell
  {
    if yearsExperience.Some? && Truthy(yearsExperience.value) then Given(yearsExperience.value)
    else if startDate.Some? && startDate.value != "" then
      var end := if endDate.Some? && endDate.value != "" then yearOf(endDate.value) else nowYear;
      Difference(end - yearOf(startDate.value))
    else NoYears
  }

  /** A truthy 'Years Experience' is shown as it is, whatever the dates say. */
  lemma GivenYearsWin(v: Value, startDate: Option<string>, endDate: Option<string>,
                      yearOf: string -> int, nowYear: int)
    requires Truthy(v)
    ensures ClientYears(Some(v), startDate, endDate, yearOf, nowYear) == Given(v)
    ensures forall s, e :: ClientYears(Some(v), s, e, yearOf, nowYear) == ClientYears(Some(v), startDate, endDate, yearOf, nowYear)
  {
  }

  /** Without a truthy 'Years Experience', a row with a start but no end counts up to
      the current year, and a row with both dates counts between their years. */
  lemma OpenEndedCountsToNow(years: Option<Value>, startDate: string, endDate: Option<string>,
                             yearOf: string -> int, nowYear: int)
    requires years.None? || !Truthy(years.value)
    requires startDate != ""
    ensures endDate.None? || endDate.value == "" ==>
      ClientYears(years, Some(startDate), endDate, yearOf, nowYear) == Difference(nowYear - yearOf(startDate))
    ensures endDate.Some? && endDate.value != "" ==>
      ClientYears(years, Some(startDate), endDate, yearOf, nowYear) == Difference(yearOf(endDate.value) - yearOf(startDate))
  {
  }

  /** Without a truthy 'Years Experience' or a start date the cell is empty, and the
      current year plays no part. */
  lemma NoStartNoYears(years: Option<Value>, startDate: Option<string>, endDate: Option<string>,
                       yearOf: string -> int, nowYear: int)
    requires years.None? || !Truthy(years.value)
    requires startDate.None? || startDate.value == ""
    ensures ClientYears(years, startDate, endDate, yearOf, nowYear) == NoYears
  {
  }

  /** The last-year cell: the first four characters of 'End Date', else the current
      year. */
  function LastYear(endDate: Option<string>, nowYear: nat): (s: string)
    ensures endDate.Some? && endDate.value != "" ==> s == Prefix(endDate.value, 4)
    ensures !(endDate.Some? && endDate.value != "") ==> DecimalValue(s) == nowYear
  {
    if endDate.Some? && endDate.value != "" then Prefix(endDate.value, 4)
    else
      NatToStringRoundTrip(nowYear);
      NatToString(nowYear)
  }

  // ---------------------------------------------------------------------------
  // New experience, quick search

  /** The fields of the record the Add button posts; `iso` is
      `new Date(value).toISOString()`. */
  datatype NewExperience = NewExperience(
    company: string, role: string, startDate: Option<string>, endDate: Option<string>,
    description: string, employeeCode: seq<string>)

  function NewExperienceRecord(company: string, role: string, start: string, end: string, description: string,
                               recId: string, iso: string -> string): (r: NewExperience)
    ensures r.startDate.Some? <==> start != ""
    ensures r.endDate.Some? <==> end != ""
    ensures r.startDate.Some? ==> r.startDate.value == iso(start)
    ensures r.endDate.Some? ==> r.endDate.value == iso(end)
    ensures r.company == company && r.role == role && r.description == description
    ensures r.employeeCode == [recId]
  {
    NewExperience(company, role, if start != "" then Some(iso(start)) else None,
      if end != "" then Some(iso(end)) else None, description, [recId])
  }

  /** Where Enter in the quick-search box goes. */
  function QuickSearchUrl(input: string, encode: string -> string): (url: string)
    ensures Trim(input) == "" ==> url == "search.html"
    ensures Trim(input) != "" ==> url == "search.html?q=" + encode(Trim(input))
  {
    var term := Trim(input);
    if term != "" then "search.html?q=" + encode(term) else "search.html"
  }

  /** Surrounding white space does not change the target. */
  lemma QuickSearchIgnoresPadding(input: string, encode: string -> string)
    ensures QuickSearchUrl(Trim(input), encode) == QuickSearchUrl(input, encode)
  {
    TrimIdempotent(input);
  }
}
