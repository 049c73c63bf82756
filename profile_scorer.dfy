/**
  `GMBClient.get_business_profile_analysis`: a fixed rubric of eight weighted
  profile fields, each granting its weight and a strength, or recording an
  issue, or (a short description) nothing at all.
*/
module ProfileScorer {
  import opened Wrappers
  import opened PyValues
  import opened ProfileFields

  /** The label the messages show. */
  function Label(f: Field): string {
    match f
    case Title => "Nombre del negocio"
    case Type => "Categoría del negocio"
    case Description => "Descripción completa"
    case PhoneNumber => "Número de teléfono"
    case WebsiteUrl => "Sitio web"
    case Address => "Dirección completa"
    case BusinessHours => "Horarios de atención"
    case Photos => "Fotos del negocio"
  }

  /** The points the entry grants. */
  function Weight(f: Field): nat {
    match f
    case Description => 15
    case Address => 15
    case _ => 10
  }

  /** The rubric, in evaluation order. Its weights add up to 90, not to the cap of 100. */
  const Rubric: seq<Field> := [Title, Type, Description, PhoneNumber, WebsiteUrl, Address, BusinessHours, Photos]

  const MaxScore: nat := 100

  function DetailedMessage(name: string): string { "✅ " + name + ": Completa y detallada" }
  function EnoughPhotosMessage(name: string): string { "✅ " + name + ": Hay suficientes fotos" }
  function CompletedMessage(name: string): string { "✅ " + name + ": Completado" }
  function MorePhotosMessage(name: string): string { "⚠️ " + name + ": Se recomienda agregar más fotos" }
  function MissingMessage(name: string): string { "❌ " + name + ": Falta completar" }

  /** `field in profile and profile[field]`. */
  predicate Filled(profile: Dict, f: Field) {
    Get(profile, f.Key()).Some? && Truthy(Get(profile, f.Key()).value)
  }

  /** What one rubric entry records. */
  datatype Verdict = Strength(message: string, points: nat) | Issue(message: string) | Silent

  /** The body of the rubric loop for one entry, branch for branch; `len()` is
      taken of the description only, and raises when it has no length. */
  function Judge(profile: Dict, c: Field): Result<Verdict, PyError> {
    if !Filled(profile, c) then Success(Issue(MissingMessage(Label(c))))
    else
      var v := Get(profile, c.Key()).value;
      if c == Description && PyLen(v).None? then Failure(TypeError)
      else if c == Description && PyLen(v).value > 100 then
        Success(Strength(DetailedMessage(Label(c)), Weight(c)))
      else if c == Photos && v.JList? && |v.items| >= 5 then
        Success(Strength(EnoughPhotosMessage(Label(c)), Weight(c)))
      else if c != Description && c != Photos then
        Success(Strength(CompletedMessage(Label(c)), Weight(c)))
      else if c == Photos then Success(Issue(MorePhotosMessage(Label(c))))
      else Success(Silent)
  }

  /** The verdicts of the entries in order, or the exception that stopped the loop. */
  function Judgements(profile: Dict, fields: seq<Field>): Result<seq<Verdict>, PyError> {
    if fields == [] then Success([])
    else
      var before := Judgements(profile, fields[..|fields| - 1]);
      var last := Judge(profile, fields[|fields| - 1]);
      if before.Failure? then before
      else if last.Failure? then Failure(last.error)
      else Success(before.value + [last.value])
  }

  function Points(vs: seq<Verdict>): nat {
    if vs == [] then 0
    else Points(vs[..|vs| - 1]) + (if vs[|vs| - 1].Strength? then vs[|vs| - 1].points else 0)
  }

  function Strengths(vs: seq<Verdict>): seq<string> {
    if vs == [] then []
    else Strengths(vs[..|vs| - 1]) + (if vs[|vs| - 1].Strength? then [vs[|vs| - 1].message] else [])
  }

  function Issues(vs: seq<Verdict>): seq<string> {
    if vs == [] then []
    else Issues(vs[..|vs| - 1]) + (if vs[|vs| - 1].Issue? then [vs[|vs| - 1].message] else [])
  }

  /** The separate `issues_count` counter the source keeps beside the list. */
  function IssueTally(vs: seq<Verdict>): nat {
    if vs == [] then 0 else IssueTally(vs[..|vs| - 1]) + (if vs[|vs| - 1].Issue? then 1 else 0)
  }

  function SilentCount(vs: seq<Verdict>): nat {
    if vs == [] then 0 else SilentCount(vs[..|vs| - 1]) + (if vs[|vs| - 1].Silent? then 1 else 0)
  }

  function Min(a: int, b: int): int { if a < b then a else b }

  /** The returned dict: `completeness_score`, `issues`, `strengths`, `issues_count`. */
  datatype Analysis = Analysis(completenessScore: int, issues: seq<string>, strengths: seq<string>, issuesCount: int)

  function ProfileAnalysis(profile: Dict): Result<Analysis, PyError> {
    match Judgements(profile, Rubric)
    case Failure(e) => Failure(e)
    case Success(vs) => Success(Analysis(Min(Points(vs), MaxScore), Issues(vs), Strengths(vs), IssueTally(vs)))
  }

  /** The rubric loop as the source runs it: running score, issue counter and
      the two message lists, updated entry by entry. */
  method AnalyzeProfile(profile: Dict) returns (r: Result<Analysis, PyError>)
    ensures r == ProfileAnalysis(profile)
    ensures r.Success? ==> r.value.issuesCount == |r.value.issues|
    ensures r.Success? ==> 0 <= r.value.completenessScore <= 90
  {
    var score: nat := 0;
    var issuesCount: nat := 0;
    var issues: seq<string> := [];
    var strengths: seq<string> := [];
    ghost var verdicts: seq<Verdict> := [];
    var i := 0;
    while i < |Rubric|
      invariant 0 <= i <= |Rubric|
      invariant Judgements(profile, Rubric[..i]) == Success(verdicts)
      invariant score == Points(verdicts)
      invariant issuesCount == IssueTally(verdicts)
      invariant issues == Issues(verdicts)
      invariant strengths == Strengths(verdicts)
    {
      var field := Rubric[i];
      JudgeBranches(profile, field);
      ghost var verdict: Verdict;
      var value := Get(profile, field.Key());
      if value.Some? && Truthy(value.value) {
        var v := value.value;
        if field == Description && PyLen(v).None? {
          RaisesAt(profile, Rubric[..i], i);
          return Failure(TypeError);
        }
        if field == Description && PyLen(v).value > 100 {
          verdict := Strength(DetailedMessage(Label(field)), Weight(field));
          score := score + Weight(field);
          strengths := strengths + [DetailedMessage(Label(field))];
        } else if field == Photos && v.JList? && |v.items| >= 5 {
          verdict := Strength(EnoughPhotosMessage(Label(field)), Weight(field));
          score := score + Weight(field);
          strengths := strengths + [EnoughPhotosMessage(Label(field))];
        } else if field != Description && field != Photos {
          verdict := Strength(CompletedMessage(Label(field)), Weight(field));
          score := score + Weight(field);
          strengths := strengths + [CompletedMessage(Label(field))];
        } else if field == Photos {
          verdict := Issue(MorePhotosMessage(Label(field)));
          issues := issues + [MorePhotosMessage(Label(field))];
          issuesCount := issuesCount + 1;
        } else {
          verdict := Silent;
        }
      } else {
        verdict := Issue(MissingMessage(Label(field)));
        issues := issues + [MissingMessage(Label(field))];
        issuesCount := issuesCount + 1;
      }
      assert Judge(profile, field) == Success(verdict);
      Extended(profile, i, verdicts, verdict);
      verdicts := verdicts + [verdict];
      i := i + 1;
    }
    assert Rubric[..|Rubric|] == Rubric;
    r := Success(Analysis(Min(score, MaxScore), issues, strengths, issuesCount));
    AnalysisCounts(profile);
    ScoreIsGrantedWeight(profile);
  }

  /** The entry at `i` contributing `verdict`. */
  lemma Extended(profile: Dict, i: nat, verdicts: seq<Verdict>, verdict: Verdict)
    requires i < |Rubric|
    requires Judgements(profile, Rubric[..i]) == Success(verdicts)
    requires Judge(profile, Rubric[i]) == Success(verdict)
    ensures Judgements(profile, Rubric[..i + 1]) == Success(verdicts + [verdict])
    ensures Points(verdicts + [verdict]) == Points(verdicts) + (if verdict.Strength? then verdict.points else 0)
    ensures Strengths(verdicts + [verdict]) == Strengths(verdicts) + (if verdict.Strength? then [verdict.message] else [])
    ensures Issues(verdicts + [verdict]) == Issues(verdicts) + (if verdict.Issue? then [verdict.message] else [])
    ensures IssueTally(verdicts + [verdict]) == IssueTally(verdicts) + (if verdict.Issue? then 1 else 0)
  {
    JudgementsExtend(profile, Rubric, i);
    AppendVerdict(verdicts, verdict);
  }

  /** The entry at `i` raising makes the whole analysis raise a TypeError. */
  lemma RaisesAt(profile: Dict, done: seq<Field>, i: nat)
    requires i < |Rubric| && done == Rubric[..i]
    requires Judgements(profile, done).Success?
    requires Judge(profile, Rubric[i]).Failure?
    ensures ProfileAnalysis(profile) == Failure(TypeError)
  {
    JudgementsExtend(profile, Rubric, i);
    JudgementsFailurePersists(profile, Rubric, i + 1);
    FailureIsTypeError(profile, Rubric);
  }

  /** `Judge`, branch by branch, in the terms the loop tests. */
  lemma JudgeBranches(profile: Dict, f: Field)
    ensures var value := Get(profile, f.Key());
            && (!(value.Some? && Truthy(value.value)) ==> Judge(profile, f) == Success(Issue(MissingMessage(Label(f)))))
            && (value.Some? && Truthy(value.value) ==>
                var v := value.value;
                && (f == Description && PyLen(v).None? ==> Judge(profile, f) == Failure(TypeError))
                && (f == Description && PyLen(v).Some? && PyLen(v).value > 100 ==>
                      Judge(profile, f) == Success(Strength(DetailedMessage(Label(f)), Weight(f))))
                && (f == Photos && v.JList? && |v.items| >= 5 ==>
                      Judge(profile, f) == Success(Strength(EnoughPhotosMessage(Label(f)), Weight(f))))
                && (f != Description && f != Photos ==>
                      Judge(profile, f) == Success(Strength(CompletedMessage(Label(f)), Weight(f))))
                && (f == Photos && !(v.JList? && |v.items| >= 5) ==>
                      Judge(profile, f) == Success(Issue(MorePhotosMessage(Label(f)))))
                && (f == Description && PyLen(v).Some? && PyLen(v).value <= 100 ==>
                      Judge(profile, f) == Success(Silent)))
  {
  }

  /** Once an entry raises, the whole analysis raises, with that exception. */
  lemma {:induction false} JudgementsFailurePersists(profile: Dict, fields: seq<Field>, i: nat)
    requires i <= |fields|
    requires Judgements(profile, fields[..i]).Failure?
    ensures Judgements(profile, fields) == Judgements(profile, fields[..i])
  {
    if i < |fields| {
      var p := fields[..|fields| - 1];
      assert p[..i] == fields[..i];
      JudgementsFailurePersists(profile, p, i);
    } else {
      assert fields[..i] == fields;
    }
  }

  /** One more entry extends the verdicts by its own verdict. */
  lemma JudgementsExtend(profile: Dict, fields: seq<Field>, i: nat)
    requires i < |fields|
    ensures Judgements(profile, fields[..i + 1]) ==
            if Judgements(profile, fields[..i]).Failure? then Judgements(profile, fields[..i])
            else if Judge(profile, fields[i]).Failure? then Failure(Judge(profile, fields[i]).error)
            else Success(Judgements(profile, fields[..i]).value + [Judge(profile, fields[i]).value])
  {
    assert fields[..i + 1][..i] == fields[..i];
  }

  /** The tallies of a verdict sequence grow by the last verdict's share. */
  lemma AppendVerdict(vs: seq<Verdict>, v: Verdict)
    ensures Points(vs + [v]) == Points(vs) + (if v.Strength? then v.points else 0)
    ensures Strengths(vs + [v]) == Strengths(vs) + (if v.Strength? then [v.message] else [])
    ensures Issues(vs + [v]) == Issues(vs) + (if v.Issue? then [v.message] else [])
    ensures IssueTally(vs + [v]) == IssueTally(vs) + (if v.Issue? then 1 else 0)
    ensures SilentCount(vs + [v]) == SilentCount(vs) + (if v.Silent? then 1 else 0)
  {
    assert (vs + [v])[..|vs|] == vs;
  }

  // ---------------------------------------------------------------------------
  // What the analysis promises

  /** The value stored under the entry's key; only meaningful when `Filled`. */
  function FieldValue(profile: Dict, f: Field): Json {
    GetOr(profile, f.Key(), JNull)
  }

  /** An entry grants its weight: the field is filled, a description is more
      than 100 long, photos are a list of at least five. */
  predicate Grants(profile: Dict, c: Field) {
    && Filled(profile, c)
    && (c == Description ==>
          PyLen(FieldValue(profile, c)).Some? && PyLen(FieldValue(profile, c)).value > 100)
    && (c == Photos ==>
          FieldValue(profile, c).JList? && |FieldValue(profile, c).items| >= 5)
  }

  /** The description is filled, has a length, and is at most 100 long. */
  predicate ShortDescription(profile: Dict) {
    && Filled(profile, Description)
    && PyLen(FieldValue(profile, Description)).Some?
    && PyLen(FieldValue(profile, Description)).value <= 100
  }

  /** The description is filled but `len()` of it raises. */
  predicate UnsizedDescription(profile: Dict) {
    Filled(profile, Description) && PyLen(FieldValue(profile, Description)).None?
  }

  function TotalWeight(fields: seq<Field>): nat {
    if fields == [] then 0 else TotalWeight(fields[..|fields| - 1]) + Weight(fields[|fields| - 1])
  }

  /** The sum of the weights of the entries that grant them. */
  function GrantedWeight(profile: Dict, fields: seq<Field>): nat {
    if fields == [] then 0
    else
      GrantedWeight(profile, fields[..|fields| - 1])
      + (if Grants(profile, fields[|fields| - 1]) then Weight(fields[|fields| - 1]) else 0)
  }

  lemma TotalWeightStep(fields: seq<Field>, i: nat)
    requires i < |fields|
    ensures TotalWeight(fields[..i + 1]) == TotalWeight(fields[..i]) + Weight(fields[i])
  {
    assert fields[..i + 1][..i] == fields[..i];
  }

  lemma RubricWeighsNinety()
    ensures TotalWeight(Rubric) == 90
  {
    assert TotalWeight(Rubric[..0]) == 0;
    TotalWeightStep(Rubric, 0);
    TotalWeightStep(Rubric, 1);
    TotalWeightStep(Rubric, 2);
    TotalWeightStep(Rubric, 3);
    TotalWeightStep(Rubric, 4);
    TotalWeightStep(Rubric, 5);
    TotalWeightStep(Rubric, 6);
    TotalWeightStep(Rubric, 7);
    assert Rubric[..8] == Rubric;
  }

  /** One entry: it raises only for an unsized description, is silent only for
      a short one, and records a strength exactly when it grants its weight. */
  lemma JudgeCases(profile: Dict, c: Field)
    ensures Judge(profile, c).Failure? <==> c == Description && UnsizedDescription(profile)
    ensures Judge(profile, c) == Success(Silent) <==> c == Description && ShortDescription(profile)
    ensures Judge(profile, c).Success? ==>
              (Judge(profile, c).value.Strength? <==> Grants(profile, c))
    ensures Judge(profile, c).Success? && Judge(profile, c).value.Strength? ==>
              Judge(profile, c).value.points == Weight(c)
  {
  }

  /** What the verdict sequence says about the fold over it. */
  lemma {:induction false} JudgementsShape(profile: Dict, fields: seq<Field>)
    requires Judgements(profile, fields).Success?
    ensures |Judgements(profile, fields).value| == |fields|
    ensures forall k :: 0 <= k < |fields| ==>
              Judge(profile, fields[k]) == Success(Judgements(profile, fields).value[k])
    ensures Points(Judgements(profile, fields).value) == GrantedWeight(profile, fields) <= TotalWeight(fields)
    ensures IssueTally(Judgements(profile, fields).value) == |Issues(Judgements(profile, fields).value)|
    ensures |Strengths(Judgements(profile, fields).value)| + |Issues(Judgements(profile, fields).value)|
            + SilentCount(Judgements(profile, fields).value) == |fields|
  {
    if fields != [] {
      var n := |fields| - 1;
      var p := fields[..n];
      JudgementsExtend(profile, fields, n);
      assert fields[..n + 1] == fields;
      JudgementsShape(profile, p);
      var before := Judgements(profile, p).value;
      var last := Judge(profile, fields[n]).value;
      AppendVerdict(before, last);
      JudgeCases(profile, fields[n]);
      IndexAppend(profile, fields, before, last);
    }
  }

  lemma IndexAppend(profile: Dict, fields: seq<Field>, before: seq<Verdict>, last: Verdict)
    requires fields != [] && |before| == |fields| - 1
    requires forall k :: 0 <= k < |before| ==> Judge(profile, fields[..|fields| - 1][k]) == Success(before[k])
    requires Judge(profile, fields[|fields| - 1]) == Success(last)
    ensures forall k :: 0 <= k < |fields| ==> Judge(profile, fields[k]) == Success((before + [last])[k])
  {
    forall k | 0 <= k < |fields|
      ensures Judge(profile, fields[k]) == Success((before + [last])[k])
    {
      if k < |before| {
        assert fields[..|fields| - 1][k] == fields[k];
      }
    }
  }

  /** The analysis runs to the end unless an entry raises. */
  lemma {:induction false} JudgementsSucceed(profile: Dict, fields: seq<Field>)
    requires forall k :: 0 <= k < |fields| ==> Judge(profile, fields[k]).Success?
    ensures Judgements(profile, fields).Success?
  {
    if fields != [] {
      var p := fields[..|fields| - 1];
      assert forall k :: 0 <= k < |p| ==> p[k] == fields[k];
      JudgementsSucceed(profile, p);
    }
  }

  lemma {:induction false} StrengthsContain(vs: seq<Verdict>, k: nat)
    requires k < |vs| && vs[k].Strength?
    ensures vs[k].message in Strengths(vs)
  {
    if k < |vs| - 1 {
      StrengthsContain(vs[..|vs| - 1], k);
    }
  }

  lemma {:induction false} IssuesContain(vs: seq<Verdict>, k: nat)
    requires k < |vs| && vs[k].Issue?
    ensures vs[k].message in Issues(vs)
  {
    if k < |vs| - 1 {
      IssuesContain(vs[..|vs| - 1], k);
    }
  }

  lemma {:induction false} SilentCountOf(vs: seq<Verdict>, j: int)
    requires forall k :: 0 <= k < |vs| && k != j ==> !vs[k].Silent?
    ensures SilentCount(vs) == if 0 <= j < |vs| && vs[j].Silent? then 1 else 0
  {
    if vs != [] {
      SilentCountOf(vs[..|vs| - 1], j);
    }
  }

  lemma {:induction false} AllIssues(vs: seq<Verdict>)
    requires forall k :: 0 <= k < |vs| ==> vs[k].Issue?
    ensures Strengths(vs) == [] && Points(vs) == 0
    ensures |Issues(vs)| == |vs|
    ensures forall k :: 0 <= k < |vs| ==> Issues(vs)[k] == vs[k].message
  {
    if vs != [] {
      var p := vs[..|vs| - 1];
      assert forall k :: 0 <= k < |p| ==> p[k] == vs[k];
      AllIssues(p);
    }
  }

  lemma {:induction false} AllStrengths(vs: seq<Verdict>)
    requires forall k :: 0 <= k < |vs| ==> vs[k].Strength?
    ensures Issues(vs) == [] && |Strengths(vs)| == |vs|
  {
    if vs != [] {
      AllStrengths(vs[..|vs| - 1]);
    }
  }

  /** Only the description entry can raise or stay silent. */
  lemma RubricFields()
    ensures |Rubric| == 8
    ensures forall k :: 0 <= k < |Rubric| ==> (Rubric[k] == Description <==> k == 2)
    ensures Rubric[2] == Description && Rubric[7] == Photos
  {
  }

  /** The analysis raises, a TypeError, exactly when the description is filled
      with a value that has no length. */
  lemma AnalysisFailsIff(profile: Dict)
    ensures ProfileAnalysis(profile).Failure? <==> UnsizedDescription(profile)
    ensures ProfileAnalysis(profile).Failure? ==> ProfileAnalysis(profile).error == TypeError
  {
    RubricFields();
    forall k | 0 <= k < |Rubric|
      ensures Judge(profile, Rubric[k]).Failure? <==> k == 2 && UnsizedDescription(profile)
    {
      JudgeCases(profile, Rubric[k]);
    }
    if UnsizedDescription(profile) {
      assert Judge(profile, Rubric[2]).Failure?;
      if Judgements(profile, Rubric).Success? {
        JudgementsShape(profile, Rubric);
      }
      FailureIsTypeError(profile, Rubric);
    } else {
      JudgementsSucceed(profile, Rubric);
    }
  }

  lemma {:induction false} FailureIsTypeError(profile: Dict, fields: seq<Field>)
    ensures Judgements(profile, fields).Failure? ==> Judgements(profile, fields).error == TypeError
  {
    if fields != [] {
      FailureIsTypeError(profile, fields[..|fields| - 1]);
    }
  }

  /** The score is the sum of the granted weights, capped at 100, and so never
      above the rubric's total of 90. */
  lemma ScoreIsGrantedWeight(profile: Dict)
    requires ProfileAnalysis(profile).Success?
    ensures ProfileAnalysis(profile).value.completenessScore == Min(GrantedWeight(profile, Rubric), MaxScore)
    ensures ProfileAnalysis(profile).value.completenessScore == GrantedWeight(profile, Rubric) <= 90
  {
    JudgementsShape(profile, Rubric);
    RubricWeighsNinety();
  }

  /** `issues_count` is the length of `issues`; every entry leaves exactly one
      message, except a short description, which leaves none. */
  lemma AnalysisCounts(profile: Dict)
    requires ProfileAnalysis(profile).Success?
    ensures ProfileAnalysis(profile).value.issuesCount == |ProfileAnalysis(profile).value.issues|
    ensures |ProfileAnalysis(profile).value.strengths| + |ProfileAnalysis(profile).value.issues|
            == if ShortDescription(profile) then 7 else 8
  {
    JudgementsShape(profile, Rubric);
    RubricFields();
    var vs := Judgements(profile, Rubric).value;
    forall k | 0 <= k < |vs| && k != 2
      ensures !vs[k].Silent?
    {
      JudgeCases(profile, Rubric[k]);
    }
    JudgeCases(profile, Rubric[2]);
    SilentCountOf(vs, 2);
  }

  /** A message an entry records appears in the analysis. */
  lemma VerdictRecorded(profile: Dict, k: nat)
    requires ProfileAnalysis(profile).Success? && k < |Rubric|
    ensures Judge(profile, Rubric[k]).Success?
    ensures Judge(profile, Rubric[k]).value.Strength? ==>
              Judge(profile, Rubric[k]).value.message in ProfileAnalysis(profile).value.strengths
    ensures Judge(profile, Rubric[k]).value.Issue? ==>
              Judge(profile, Rubric[k]).value.message in ProfileAnalysis(profile).value.issues
  {
    JudgementsShape(profile, Rubric);
    var vs := Judgements(profile, Rubric).value;
    if vs[k].Strength? {
      StrengthsContain(vs, k);
    }
    if vs[k].Issue? {
      IssuesContain(vs, k);
    }
  }

  /** Nothing filled in: score 0, the eight "missing" issues in rubric order,
      no strengths. */
  lemma EmptyProfile(profile: Dict)
    requires forall c :: c in Rubric ==> !Filled(profile, c)
    ensures ProfileAnalysis(profile).Success?
    ensures ProfileAnalysis(profile).value.completenessScore == 0
    ensures ProfileAnalysis(profile).value.strengths == []
    ensures ProfileAnalysis(profile).value.issuesCount == |ProfileAnalysis(profile).value.issues| == 8
    ensures forall k :: 0 <= k < 8 ==> ProfileAnalysis(profile).value.issues[k] == MissingMessage(Label(Rubric[k]))
  {
    RubricFields();
    AnalysisFailsIff(profile);
    JudgementsShape(profile, Rubric);
    var vs := Judgements(profile, Rubric).value;
    forall k | 0 <= k < 8
      ensures vs[k] == Issue(MissingMessage(Label(Rubric[k])))
    {
      assert !Filled(profile, Rubric[k]);
    }
    AllIssues(vs);
  }

  /** Every field filled, a description over 100 long, at least five photos:
      score 90 (not 100), eight strengths, no issues. */
  lemma CompleteProfile(profile: Dict)
    requires forall c :: c in Rubric ==> Grants(profile, c)
    ensures ProfileAnalysis(profile).Success?
    ensures ProfileAnalysis(profile).value.completenessScore == 90
    ensures ProfileAnalysis(profile).value.issues == [] && ProfileAnalysis(profile).value.issuesCount == 0
    ensures |ProfileAnalysis(profile).value.strengths| == 8
  {
    RubricFields();
    assert !UnsizedDescription(profile) by {
      assert Grants(profile, Rubric[2]);
    }
    AnalysisFailsIff(profile);
    JudgementsShape(profile, Rubric);
    var vs := Judgements(profile, Rubric).value;
    forall k | 0 <= k < 8
      ensures vs[k].Strength?
    {
      JudgeCases(profile, Rubric[k]);
      assert Grants(profile, Rubric[k]);
    }
    AllStrengths(vs);
    GrantedAll(profile, Rubric);
    RubricWeighsNinety();
  }

  lemma {:induction false} GrantedAll(profile: Dict, fields: seq<Field>)
    requires forall c :: c in fields ==> Grants(profile, c)
    ensures GrantedWeight(profile, fields) == TotalWeight(fields)
  {
    if fields != [] {
      var p := fields[..|fields| - 1];
      assert forall c :: c in p ==> c in fields;
      GrantedAll(profile, p);
    }
  }

  /** A description over 100 long grants 15 and a strength; one of at most 100
      grants nothing and records nothing. */
  lemma DescriptionRule(profile: Dict)
    requires Filled(profile, Description) && PyLen(FieldValue(profile, Description)).Some?
    ensures ProfileAnalysis(profile).Success?
    ensures PyLen(FieldValue(profile, Description)).value > 100 ==>
              Grants(profile, Rubric[2]) &&
              DetailedMessage(Label(Description)) in ProfileAnalysis(profile).value.strengths
    ensures PyLen(FieldValue(profile, Description)).value <= 100 ==>
              !Grants(profile, Rubric[2]) && Judge(profile, Rubric[2]) == Success(Silent) &&
              |ProfileAnalysis(profile).value.strengths| + |ProfileAnalysis(profile).value.issues| == 7
  {
    RubricFields();
    AnalysisFailsIff(profile);
    JudgeCases(profile, Rubric[2]);
    VerdictRecorded(profile, 2);
    AnalysisCounts(profile);
  }

  /** At least five photos in a list grant 10 and a strength; photos present
      but fewer, or not a list, record the "add photos" issue and grant nothing. */
  lemma PhotosRule(profile: Dict)
    requires !UnsizedDescription(profile)
    requires Filled(profile, Photos)
    ensures ProfileAnalysis(profile).Success?
    ensures FieldValue(profile, Photos).JList? && |FieldValue(profile, Photos).items| >= 5 ==>
              Grants(profile, Rubric[7]) &&
              EnoughPhotosMessage(Label(Photos)) in ProfileAnalysis(profile).value.strengths
    ensures !(FieldValue(profile, Photos).JList? && |FieldValue(profile, Photos).items| >= 5) ==>
              !Grants(profile, Rubric[7]) &&
              MorePhotosMessage(Label(Photos)) in ProfileAnalysis(profile).value.issues
  {
    RubricFields();
    AnalysisFailsIff(profile);
    JudgeCases(profile, Rubric[7]);
    VerdictRecorded(profile, 7);
  }

  /** Every other field: filled grants its weight and a "completed" strength,
      missing or falsy records a "missing" issue. */
  lemma PlainFieldRule(profile: Dict, k: nat)
    requires !UnsizedDescription(profile)
    requires k < |Rubric| && Rubric[k] != Description && Rubric[k] != Photos
    ensures ProfileAnalysis(profile).Success?
    ensures Filled(profile, Rubric[k]) ==>
              Grants(profile, Rubric[k]) &&
              CompletedMessage(Label(Rubric[k])) in ProfileAnalysis(profile).value.strengths
    ensures !Filled(profile, Rubric[k]) ==>
              !Grants(profile, Rubric[k]) &&
              MissingMessage(Label(Rubric[k])) in ProfileAnalysis(profile).value.issues
  {
    AnalysisFailsIff(profile);
    JudgeCases(profile, Rubric[k]);
    VerdictRecorded(profile, k);
  }

  /** Any rubric field absent or falsy, the description and the photos among
      them, grants nothing and records its "missing" issue. */
  lemma MissingFieldRule(profile: Dict, k: nat)
    requires !UnsizedDescription(profile)
    requires k < |Rubric| && !Filled(profile, Rubric[k])
    ensures ProfileAnalysis(profile).Success?
    ensures !Grants(profile, Rubric[k])
    ensures Judge(profile, Rubric[k]) == Success(Issue(MissingMessage(Label(Rubric[k]))))
    ensures MissingMessage(Label(Rubric[k])) in ProfileAnalysis(profile).value.issues
  {
    AnalysisFailsIff(profile);
    JudgeCases(profile, Rubric[k]);
    VerdictRecorded(profile, k);
  }
}
