/** Normalisation of the technical skills an extraction reports. */
module Skills {
  import opened Base
  import opened Text

  function Alias(key: string): Option<string> {
    match key
    case "golang" => Some("Go")
    case "go programming" => Some("Go")
    case "postgres" => Some("PostgreSQL")
    case "postgresql" => Some("PostgreSQL")
    case "postgres sql" => Some("PostgreSQL")
    case "javascript" => Some("JavaScript")
    case "java script" => Some("JavaScript")
    case "typescript" => Some("TypeScript")
    case "react.js" => Some("React")
    case "reactjs" => Some("React")
    case "node" => Some("Node.js")
    case "nodejs" => Some("Node.js")
    case "node.js" => Some("Node.js")
    case "k8s" => Some("Kubernetes")
    case "kubernetes" => Some("Kubernetes")
    case "amazon web services" => Some("AWS")
    case "aws" => Some("AWS")
    case "google cloud platform" => Some("GCP")
    case "gcp" => Some("GCP")
    case "microsoft azure" => Some("Azure")
    case "azure" => Some("Azure")
    case "c plus plus" => Some("C++")
    case "c++" => Some("C++")
    case "c sharp" => Some("C#")
    case "c#" => Some("C#")
    case _ => None
  }

  predicate IsHumanLanguage(key: string) {
    key in {"english", "hindi", "kannada", "tamil", "telugu", "malayalam", "marathi", "bengali", "gujarati", "punjabi", "urdu",
            "french", "german", "spanish", "italian", "portuguese", "japanese", "korean", "mandarin", "chinese", "arabic", "russian"}
  }

  /** White space runs become one blank each. */
  function Squeezed(s: string): string { Join(Fields(s), ' ') }

  function UpperFirst(s: string): string { if s == "" then "" else [UpperChar(s[0])] + s[1..] }

  /** One skill under its canonical name; None for a blank and for a human language. */
  function NormalizeSkill(raw: string): Option<string> {
    var skill := Trim(raw);
    var key := ToLower(Squeezed(skill));
    if skill == "" || IsHumanLanguage(key) then None
    else if Alias(key).Some? then Alias(key)
    else Some(UpperFirst(Squeezed(skill)))
  }

  predicate Repeats(out: seq<string>, skill: string) {
    exists i :: 0 <= i < |out| && ToLower(out[i]) == ToLower(skill)
  }

  /** The skills in order, each under its canonical name, the first of each spelling. */
  function NormalizeSkills(skills: seq<string>): seq<string>
    decreases skills
  {
    if skills == [] then []
    else
      var out, skill := NormalizeSkills(skills[..|skills| - 1]), NormalizeSkill(skills[|skills| - 1]);
      if skill.None? || Repeats(out, skill.value) then out else out + [skill.value]
  }

  function Keys(out: seq<string>): set<string> { set k | 0 <= k < |out| :: ToLower(out[k]) }

  lemma KeysOfMore(out: seq<string>, skill: string)
    ensures Keys(out + [skill]) == Keys(out) + {ToLower(skill)}
    ensures ToLower(skill) in Keys(out) <==> Repeats(out, skill)
  {
    hide ToLower;
    var more := out + [skill];
    assert more[|out|] == skill && forall k :: 0 <= k < |out| ==> more[k] == out[k];
  }

  method NormalizeTechnicalSkills(skills: seq<string>) returns (out: seq<string>)
    ensures out == NormalizeSkills(skills)
  {
    hide Alias, IsHumanLanguage, Squeezed, UpperFirst, ToLower, Trim;
    out := [];
    var seen: set<string> := {};
    for i := 0 to |skills|
      invariant out == NormalizeSkills(skills[..i])
      invariant seen == Keys(out)
    {
      assert skills[..i + 1][..i] == skills[..i];
      var skill := Trim(skills[i]);
      if skill == "" { continue; }
      var key := ToLower(Squeezed(skill));
      if IsHumanLanguage(key) { continue; }
      var canonical := Alias(key);
      if canonical.Some? {
        skill := canonical.value;
      } else {
        skill := UpperFirst(Squeezed(skill));
      }
      key := ToLower(skill);
      KeysOfMore(out, skill);
      if key !in seen {
        seen := seen + {key};
        out := out + [skill];
      }
    }
    assert skills[..|skills|] == skills;
  }

  // ---- What the result is ----

  ghost predicate Distinct(out: seq<string>) {
    forall i, j :: 0 <= i < j < |out| ==> ToLower(out[i]) != ToLower(out[j])
  }

  /** Already under its canonical name. */
  predicate Normal(skill: string) { NormalizeSkill(skill) == Some(skill) }

  ghost predicate AllNormal(out: seq<string>) { forall i :: 0 <= i < |out| ==> Normal(out[i]) }

  /** No two skills of the result differ in case alone. */
  lemma {:induction false} SkillsAreDistinct(skills: seq<string>)
    ensures Distinct(NormalizeSkills(skills))
    decreases skills
  {
    hide NormalizeSkill, ToLower;
    if skills != [] { SkillsAreDistinct(skills[..|skills| - 1]); }
  }

  /** Nothing is lost: every skill that is neither blank nor a human language is there, up to case, under its
      canonical name; and nothing is invented. */
  lemma {:induction false} SkillsAreComplete(skills: seq<string>)
    ensures forall i :: 0 <= i < |skills| && NormalizeSkill(skills[i]).Some? ==>
              Repeats(NormalizeSkills(skills), NormalizeSkill(skills[i]).value)
    ensures forall v :: v in NormalizeSkills(skills) ==> exists i :: 0 <= i < |skills| && NormalizeSkill(skills[i]) == Some(v)
    decreases skills
  {
    hide NormalizeSkill, ToLower;
    if skills != [] {
      var n := |skills| - 1;
      var init, out := NormalizeSkills(skills[..n]), NormalizeSkills(skills);
      SkillsAreComplete(skills[..n]);
      forall v | Repeats(init, v) ensures Repeats(out, v) {
        var k :| 0 <= k < |init| && ToLower(init[k]) == ToLower(v);
        assert out[k] == init[k];
      }
      if NormalizeSkill(skills[n]).Some? && out != init { assert out[|init|] == NormalizeSkill(skills[n]).value; }
      forall i | 0 <= i < |skills| && NormalizeSkill(skills[i]).Some? ensures Repeats(out, NormalizeSkill(skills[i]).value) {
        assert i < n ==> skills[..n][i] == skills[i];
      }
      forall v | v in out ensures exists i :: 0 <= i < |skills| && NormalizeSkill(skills[i]) == Some(v) {
        if v in init {
          var i :| 0 <= i < |skills[..n]| && NormalizeSkill(skills[..n][i]) == Some(v);
          assert skills[i] == skills[..n][i];
        }
      }
    }
  }

  /** A list of distinct canonical names is left as it is. */
  lemma {:induction false} NormalSkillsStay(out: seq<string>)
    requires Distinct(out) && AllNormal(out)
    ensures NormalizeSkills(out) == out
    decreases out
  {
    hide NormalizeSkill, ToLower;
    if out != [] {
      var n := |out| - 1;
      NormalSkillsStay(out[..n]);
      assert Normal(out[n]);
      assert out == out[..n] + [out[n]];
    }
  }

  // ---- Canonical names are their own canonical names ----

  /** A name without blanks that its own lower-case form leads back to. */
  ghost predicate Closed(name: string) {
    name != "" && FreeOf(name, SPACES) && !IsHumanLanguage(ToLower(name))
    && (Alias(ToLower(name)) == Some(name) || (Alias(ToLower(name)).None? && UpperFirst(name) == name))
  }

  lemma OneField(name: string)
    requires name != "" && FreeOf(name, SPACES)
    ensures Trim(name) == name && Squeezed(name) == name
  {
    TrimIsStable(name);
    assert AreFields([name], SPACES);
    assert Join([name], ' ') == name;
    FieldsOfJoin([name], ' ', SPACES);
  }

  lemma ClosedIsNormal(name: string)
    requires Closed(name)
    ensures Normal(name)
  {
    OneField(name);
    hide Squeezed, Trim, ToLower, Alias, IsHumanLanguage;
  }

  lemma LowerOf(name: string, lower: string)
    requires |name| == |lower| && forall i :: 0 <= i < |name| ==> LowerChar(name[i]) == lower[i]
    ensures ToLower(name) == lower
  {}

  lemma GoIsClosed()
    ensures Closed("Go")
  {
    LowerOf("Go", "go");
  }

  lemma PostgreSQLIsClosed()
    ensures Closed("PostgreSQL")
  {
    LowerOf("PostgreSQL", "postgresql");
  }

  lemma JavaScriptIsClosed()
    ensures Closed("JavaScript")
  {
    LowerOf("JavaScript", "javascript");
  }

  lemma TypeScriptIsClosed()
    ensures Closed("TypeScript")
  {
    LowerOf("TypeScript", "typescript");
  }

  lemma ReactIsClosed()
    ensures Closed("React")
  {
    LowerOf("React", "react");
  }

  lemma NodeJsIsClosed()
    ensures Closed("Node.js")
  {
    LowerOf("Node.js", "node.js");
  }

  lemma KubernetesIsClosed()
    ensures Closed("Kubernetes")
  {
    LowerOf("Kubernetes", "kubernetes");
  }

  lemma AWSIsClosed()
    ensures Closed("AWS")
  {
    LowerOf("AWS", "aws");
  }

  lemma GCPIsClosed()
    ensures Closed("GCP")
  {
    LowerOf("GCP", "gcp");
  }

  lemma AzureIsClosed()
    ensures Closed("Azure")
  {
    LowerOf("Azure", "azure");
  }

  lemma CPlusPlusIsClosed()
    ensures Closed("C++")
  {
    LowerOf("C++", "c++");
  }

  lemma CSharpIsClosed()
    ensures Closed("C#")
  {
    LowerOf("C#", "c#");
  }

  /** The alias table is closed under its own canonical names. */
  lemma AliasesAreClosed(key: string)
    requires Alias(key).Some?
    ensures Closed(Alias(key).value)
  {
    GoIsClosed();
    PostgreSQLIsClosed();
    JavaScriptIsClosed();
    TypeScriptIsClosed();
    ReactIsClosed();
    NodeJsIsClosed();
    KubernetesIsClosed();
    AWSIsClosed();
    GCPIsClosed();
    AzureIsClosed();
    CPlusPlusIsClosed();
    CSharpIsClosed();
    hide Closed;
  }

  // ---- So are the names made from the input ----

  lemma {:induction false} JoinEnds(parts: seq<string>)
    requires parts != [] && AreFields(parts, SPACES)
    ensures var j := Join(parts, ' '); j != "" && j[0] == parts[0][0] && j[0] !in SPACES && j[|j| - 1] !in SPACES
  {
    if |parts| > 1 { JoinEnds(parts[1..]); }
  }

  function UpperHead(parts: seq<string>): seq<string>
    requires parts != []
  {
    [UpperFirst(parts[0])] + parts[1..]
  }

  lemma UpperHeadFields(parts: seq<string>)
    requires parts != [] && AreFields(parts, SPACES)
    ensures AreFields(UpperHead(parts), SPACES)
    ensures Join(UpperHead(parts), ' ') == UpperFirst(Join(parts, ' '))
  {}

  lemma LowerOfUpper(s: string)
    ensures ToLower(UpperFirst(s)) == ToLower(s)
  {}

  lemma TrimmedHasFields(raw: string)
    requires Trim(raw) != ""
    ensures Fields(Trim(raw)) != [] && AreFields(Fields(Trim(raw)), SPACES)
  {
    TrimFacts(raw);
    FieldsAreFields(Trim(raw), SPACES);
    hide Trim;
  }

  lemma NewNameIsNormal(raw: string)
    requires Trim(raw) != "" && !IsHumanLanguage(ToLower(Squeezed(Trim(raw)))) && Alias(ToLower(Squeezed(Trim(raw)))).None?
    ensures Normal(UpperFirst(Squeezed(Trim(raw))))
  {
    var parts := Fields(Trim(raw));
    var name := UpperFirst(Squeezed(Trim(raw)));
    TrimmedHasFields(raw);
    UpperHeadFields(parts);
    var upper := UpperHead(parts);
    JoinEnds(upper);
    LowerOfUpper(Squeezed(Trim(raw)));
    FieldsOfJoin(upper, ' ', SPACES);
    assert Squeezed(name) == name;
    hide Squeezed, UpperFirst, ToLower, Alias, IsHumanLanguage, AreFields, UpperHead, Fields, Join;
    TrimIsStable(name);
  }

  /** Normalising a skill gives its canonical name once and for all. */
  lemma NormalizingIsFinal(raw: string)
    requires NormalizeSkill(raw).Some?
    ensures Normal(NormalizeSkill(raw).value)
  {
    hide Squeezed, UpperFirst, ToLower, Trim, IsHumanLanguage, Alias, Normal, Closed;
    var key := ToLower(Squeezed(Trim(raw)));
    if Alias(key).Some? {
      AliasesAreClosed(key);
      ClosedIsNormal(Alias(key).value);
    } else {
      NewNameIsNormal(raw);
    }
  }

  lemma ResultIsNormal(skills: seq<string>)
    ensures AllNormal(NormalizeSkills(skills))
  {
    SkillsAreComplete(skills);
    hide NormalizeSkills, NormalizeSkill, Normal;
    var out := NormalizeSkills(skills);
    forall k | 0 <= k < |out| ensures Normal(out[k]) {
      assert out[k] in out;
      var i :| 0 <= i < |skills| && NormalizeSkill(skills[i]) == Some(out[k]);
      NormalizingIsFinal(skills[i]);
    }
  }

  /** Normalising a second time changes nothing. */
  lemma NormalizeSkillsTwice(skills: seq<string>)
    ensures NormalizeSkills(NormalizeSkills(skills)) == NormalizeSkills(skills)
  {
    SkillsAreDistinct(skills);
    ResultIsNormal(skills);
    NormalSkillsStay(NormalizeSkills(skills));
  }

  // ---- Order and names ----

  /** The skill at this place has this name, and none before it has the name in any spelling. */
  ghost predicate FirstAt(skills: seq<string>, name: string, i: int) {
    && 0 <= i < |skills| && NormalizeSkill(skills[i]) == Some(name)
    && forall j :: 0 <= j < i && NormalizeSkill(skills[j]).Some? ==> ToLower(NormalizeSkill(skills[j]).value) != ToLower(name)
  }

  ghost predicate InPlace(skills: seq<string>, out: seq<string>, at: seq<int>) {
    && |at| == |out| && (forall k :: 0 <= k < |at| ==> FirstAt(skills, out[k], at[k]))
    && forall k, l :: 0 <= k < l < |at| ==> at[k] < at[l]
  }

  lemma FirstAtMore(skills: seq<string>, more: string, name: string, i: int)
    requires FirstAt(skills, name, i)
    ensures FirstAt(skills + [more], name, i)
  {
    hide NormalizeSkill, ToLower;
    assert forall j :: 0 <= j < |skills| ==> (skills + [more])[j] == skills[j];
  }

  lemma LastIsFirst(skills: seq<string>, more: string)
    requires NormalizeSkill(more).Some? && !Repeats(NormalizeSkills(skills), NormalizeSkill(more).value)
    ensures FirstAt(skills + [more], NormalizeSkill(more).value, |skills|)
  {
    SkillsAreComplete(skills);
    hide NormalizeSkill, ToLower, NormalizeSkills;
    var all, out := skills + [more], NormalizeSkills(skills);
    forall j | 0 <= j < |skills| && NormalizeSkill(all[j]).Some? ensures ToLower(NormalizeSkill(all[j]).value) != ToLower(NormalizeSkill(more).value) {
      assert all[j] == skills[j];
      var i :| 0 <= i < |out| && ToLower(out[i]) == ToLower(NormalizeSkill(skills[j]).value);
    }
  }

  /** Each result stands where its spelling first occurs, and the results keep the order of those places. */
  lemma {:induction false} SkillsKeepOrder(skills: seq<string>) returns (at: seq<int>)
    ensures InPlace(skills, NormalizeSkills(skills), at)
    decreases skills
  {
    at := [];
    if skills != [] {
      var n := |skills| - 1;
      var init, last, out := skills[..n], skills[n], NormalizeSkills(skills[..n]);
      at := SkillsKeepOrder(init);
      assert skills == init + [last];
      var skill := NormalizeSkill(last);
      hide NormalizeSkill, ToLower;
      forall k | 0 <= k < |at| ensures FirstAt(skills, out[k], at[k]) { FirstAtMore(init, last, out[k], at[k]); }
      if skill.Some? && !Repeats(out, skill.value) {
        LastIsFirst(init, last);
        assert forall k :: 0 <= k < |at| ==> at[k] < n by { assert forall k :: 0 <= k < |at| ==> FirstAt(init, out[k], at[k]); }
        hide FirstAt, Repeats;
        at := at + [n];
      }
    }
  }

  /** The names an alias stands for. */
  lemma LanguageAliases()
    ensures Alias("golang") == Some("Go") && Alias("go programming") == Some("Go")
    ensures Alias("javascript") == Some("JavaScript") && Alias("java script") == Some("JavaScript") && Alias("typescript") == Some("TypeScript")
    ensures Alias("c plus plus") == Some("C++") && Alias("c++") == Some("C++") && Alias("c sharp") == Some("C#") && Alias("c#") == Some("C#")
  {}

  lemma ToolAliases()
    ensures Alias("postgres") == Some("PostgreSQL") && Alias("postgresql") == Some("PostgreSQL") && Alias("postgres sql") == Some("PostgreSQL")
    ensures Alias("react.js") == Some("React") && Alias("reactjs") == Some("React")
    ensures Alias("node") == Some("Node.js") && Alias("nodejs") == Some("Node.js") && Alias("node.js") == Some("Node.js")
  {}

  lemma PlatformAliases()
    ensures Alias("k8s") == Some("Kubernetes") && Alias("kubernetes") == Some("Kubernetes")
    ensures Alias("amazon web services") == Some("AWS") && Alias("aws") == Some("AWS")
    ensures Alias("google cloud platform") == Some("GCP") && Alias("gcp") == Some("GCP")
    ensures Alias("microsoft azure") == Some("Azure") && Alias("azure") == Some("Azure")
  {}

  /** A skill that is neither blank nor a human language goes under its alias' name where it has one, and otherwise
      under its own words with one blank between them and the first letter in upper case. */
  lemma SkillOutcome(raw: string)
    ensures var words := Join(Fields(Trim(raw)), ' ');
            var name := NormalizeSkill(raw);
            && (name.None? <==> Trim(raw) == "" || IsHumanLanguage(ToLower(words)))
            && (name.Some? && Alias(ToLower(words)).Some? ==> name == Alias(ToLower(words)))
            && (name.Some? && Alias(ToLower(words)).None? ==>
                  |name.value| == |words| && (words != "" ==> name.value[1..] == words[1..] && name.value[0] == UpperChar(words[0])))
  {
    hide Alias, IsHumanLanguage, Trim, ToLower, FieldsBy, Join;
  }
}
