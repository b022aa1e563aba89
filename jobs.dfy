/**
 * What the page does with each extracted job (main.py): it reads the role,
 * description, experience and skills with defaults for missing keys, and it
 * adds the chosen tone and call-to-action to the record sent to the email
 * writer.
 */
module Jobs {
  import opened Wrappers
  import opened Exceptions
  import opened Json
  import opened Skills
  import opened Text

  const DefaultRole: string := "Software Engineer"
  const DefaultDescription: string := ""
  const DefaultExperience: string := "N/A"

  /** The fields the page shows for one job. */
  datatype JobView = JobView(role: Json, description: Json, experience: Json, skills: seq<string>)

  /** `d.get(key, default)` */
  function GetOr(fields: seq<Member>, key: string, default: Json): (r: Json)
    ensures key in Keys(fields) ==> Member(key, r) in fields
    ensures key !in Keys(fields) ==> r == default
  {
    Get(fields, key).GetOr(default)
  }

  /** How `normalize_skills` sees `job.get("skills", [])`: a missing key is
      the empty list, a list carries the `str()` of each element. */
  function SkillsInput(v: Option<Json>, showContainer: Json -> string): (r: RawSkills)
    ensures v.None? ==> r == List([])
    ensures v.Some? && v.value.JStr? ==> r == Str(v.value.s)
    ensures v.Some? && v.value.JArr? ==>
      && r.List? && |r.items| == |v.value.items|
      && forall i :: 0 <= i < |r.items| ==> r.items[i] == ToStr(v.value.items[i], showContainer)
    ensures v.Some? && !v.value.JStr? && !v.value.JArr? ==> r == Other(ToStr(v.value, showContainer))
  {
    match v
    case None => List([])
    case Some(JStr(s)) => Str(s)
    case Some(JArr(items)) => List(seq(|items|, i requires 0 <= i < |items| => ToStr(items[i], showContainer)))
    case Some(other) => Other(ToStr(other, showContainer))
  }

  /** The message of the `AttributeError` that `job.get` raises when the job
      is not a dict. */
  function NoGetMessage(job: Json): string {
    "'" + TypeName(job) + "' object has no attribute 'get'"
  }

  /** The four reads of one job (main.py:317-320). */
  function ReadJob(job: Json, showContainer: Json -> string): (r: Result<JobView, PyError>)
    ensures r.Err? <==> !job.JObj?
    ensures r.Err? ==> r.error == AttributeError(NoGetMessage(job))
    ensures r.Ok? ==> "role" !in Keys(job.fields) ==> r.value.role == JStr(DefaultRole)
    ensures r.Ok? ==> "description" !in Keys(job.fields) ==> r.value.description == JStr(DefaultDescription)
    ensures r.Ok? ==> "experience" !in Keys(job.fields) ==> r.value.experience == JStr(DefaultExperience)
    ensures r.Ok? ==> "role" in Keys(job.fields) ==> Member("role", r.value.role) in job.fields
    ensures r.Ok? ==> "description" in Keys(job.fields) ==> Member("description", r.value.description) in job.fields
    ensures r.Ok? ==> "experience" in Keys(job.fields) ==> Member("experience", r.value.experience) in job.fields
    ensures r.Ok? ==> "skills" !in Keys(job.fields) ==> r.value.skills == []
    ensures r.Ok? ==> r.value.skills == NormalizeSkills(SkillsInput(Get(job.fields, "skills"), showContainer))
  {
    match job
    case JObj(fields) =>
      Ok(JobView(
        GetOr(fields, "role", JStr(DefaultRole)),
        GetOr(fields, "description", JStr(DefaultDescription)),
        GetOr(fields, "experience", JStr(DefaultExperience)),
        NormalizeSkills(SkillsInput(Get(fields, "skills"), showContainer))))
    case _ => Err(AttributeError(NoGetMessage(job)))
  }

  /** A job whose skills are a string shows that string's comma-separated
      pieces, stripped, blank ones dropped, in order. */
  lemma StringSkillsShown(fields: seq<Member>, s: string, showContainer: Json -> string)
    requires Get(fields, "skills") == Some(JStr(s))
    ensures Selects(Split(s, ','), ReadJob(JObj(fields), showContainer).value.skills)
    ensures forall k :: 0 <= k < |ReadJob(JObj(fields), showContainer).value.skills| ==>
              ',' !in ReadJob(JObj(fields), showContainer).value.skills[k]
  {
    var skills := ReadJob(JObj(fields), showContainer).value.skills;
    assert SkillsInput(Get(fields, "skills"), showContainer) == Str(s);
    assert skills == NormalizeSkills(Str(s)) == KeepNonBlank(Split(s, ','));
    KeepNonBlankSelects(Split(s, ','));
  }

  /** `{**job, "tone": tone, "cta": cta}`: a copy of the job with the two
      choices set; existing keys keep their place, new ones go last. */
  function WithPrefs(fields: seq<Member>, tone: string, cta: string): (r: seq<Member>)
    ensures Keys(r) == Keys(fields)
                       + (if "tone" in Keys(fields) then [] else ["tone"])
                       + (if "cta" in Keys(fields) then [] else ["cta"])
    ensures UniqueKeys(fields) ==> UniqueKeys(r)
  {
    var withTone := Put(fields, "tone", JStr(tone));
    assert "cta" in Keys(withTone) <==> "cta" in Keys(fields);
    Put(withTone, "cta", JStr(cta))
  }

  /** The merged record holds the two choices, and every other key holds
      exactly what the job held. */
  lemma WithPrefsGet(fields: seq<Member>, tone: string, cta: string, k: string)
    ensures Get(WithPrefs(fields, tone, cta), k)
         == if k == "cta" then Some(JStr(cta))
            else if k == "tone" then Some(JStr(tone))
            else Get(fields, k)
  {
    PutGet(Put(fields, "tone", JStr(tone)), "cta", JStr(cta), k);
    PutGet(fields, "tone", JStr(tone), k);
  }

  /** Merging the choices does not change what the page reads from the job. */
  lemma WithPrefsKeepsView(fields: seq<Member>, tone: string, cta: string, showContainer: Json -> string)
    ensures ReadJob(JObj(WithPrefs(fields, tone, cta)), showContainer) == ReadJob(JObj(fields), showContainer)
  {
    var merged := WithPrefs(fields, tone, cta);
    WithPrefsGet(fields, tone, cta, "role");
    WithPrefsGet(fields, tone, cta, "description");
    WithPrefsGet(fields, tone, cta, "experience");
    WithPrefsGet(fields, tone, cta, "skills");
  }

  /** Choosing again replaces the earlier choices: only the last tone and
      call-to-action are visible. */
  lemma WithPrefsLastWins(fields: seq<Member>, tone1: string, cta1: string, tone2: string, cta2: string, k: string)
    ensures Get(WithPrefs(WithPrefs(fields, tone1, cta1), tone2, cta2), k)
         == Get(WithPrefs(fields, tone2, cta2), k)
  {
    WithPrefsGet(WithPrefs(fields, tone1, cta1), tone2, cta2, k);
    WithPrefsGet(fields, tone1, cta1, k);
    WithPrefsGet(fields, tone2, cta2, k);
  }
}
