/** compute_reco: the training recommendation the service returns after a
    profile is saved, chosen from the goal and the biotype by substring
    tests on their lower-cased text. */
module Reco {
  import opened Wrappers
  import opened Text

  datatype Goal = Hypertrophy | Cutting | Maintenance

  datatype Biotype = Ecto | Endo | Meso | Unknown

  /** `(x or "").lower()`: a missing text reads as "". */
  function LowerOrEmpty(x: Option<string>): string {
    if x.None? then "" else Lower(x.value)
  }

  /** The goal branch: "hiper" or "massa" first, then "emag", "defin" or
      "cut", else the default plan. */
  function GoalOf(goal: Option<string>): (g: Goal)
    ensures var t := LowerOrEmpty(goal);
            && (g == Hypertrophy <==> Contains(t, "hiper") || Contains(t, "massa"))
            && (g == Cutting <==>
                  (!Contains(t, "hiper") && !Contains(t, "massa")
                   && (Contains(t, "emag") || Contains(t, "defin") || Contains(t, "cut"))))
  {
    var t := LowerOrEmpty(goal);
    if Contains(t, "hiper") || Contains(t, "massa") then Hypertrophy
    else if Contains(t, "emag") || Contains(t, "defin") || Contains(t, "cut") then Cutting
    else Maintenance
  }

  /** The biotype branch: "ecto", then "endo", then "meso", else the
      generic note. */
  function BiotypeOf(biotype: Option<string>): (b: Biotype)
    ensures var t := LowerOrEmpty(biotype);
            && (b == Ecto <==> Contains(t, "ecto"))
            && (b == Endo <==> !Contains(t, "ecto") && Contains(t, "endo"))
            && (b == Meso <==> !Contains(t, "ecto") && !Contains(t, "endo") && Contains(t, "meso"))
  {
    var t := LowerOrEmpty(biotype);
    if Contains(t, "ecto") then Ecto
    else if Contains(t, "endo") then Endo
    else if Contains(t, "meso") then Meso
    else Unknown
  }

  datatype Recommendation = Recommendation(treino: string, repeticoes: string, cardio: string, notaBiotipo: string)

  /** The response body: the body-mass index, absent when the height is
      not positive, and the four texts. */
  datatype RecoResult = RecoResult(bmi: Option<real>, recommendation: Recommendation)

  /** The three texts of each plan, and the four biotype notes. */
  const BulkTraining := "4–6x/semana (Upper/Lower ou Push/Pull/Legs) + progressão de carga"
  const BulkReps := "6–12 (principais) e 12–20 (acessórios)"
  const BulkCardio := "2x leve/semana (saúde), sem exagerar"
  const CutTraining := "3–5x/semana (Full body ou Upper/Lower) + consistência"
  const CutReps := "8–15 com volume moderado"
  const CutCardio := "2–4x/semana (20–35min) + passos/dia"
  const KeepTraining := "3–4x/semana (Full body ou Upper/Lower), técnica perfeita"
  const KeepReps := "8–12 (padrão)"
  const KeepCardio := "2x leve/semana"
  const EctoNote := "Foco em comer suficiente + força/básicos. Cardio baixo."
  const EndoNote := "Foco em déficit leve/moderado, passos/dia e sono."
  const MesoNote := "Responde bem a volume + progressão. Recuperação manda."
  const GenericNote := "Biotipo é referência. O que manda é consistência + progressão + dieta."

  function PlanTexts(g: Goal): (string, string, string) {
    match g
    case Hypertrophy => (BulkTraining, BulkReps, BulkCardio)
    case Cutting => (CutTraining, CutReps, CutCardio)
    case Maintenance => (KeepTraining, KeepReps, KeepCardio)
  }

  function BiotypeTip(b: Biotype): string {
    match b
    case Ecto => EctoNote
    case Endo => EndoNote
    case Meso => MesoNote
    case Unknown => GenericNote
  }

  /** compute_reco. Heights and weights are exact reals here. */
  function ComputeReco(heightCm: real, weightKg: real, biotype: Option<string>, goal: Option<string>): (r: RecoResult)
    ensures r.bmi.None? <==> heightCm <= 0.0
    ensures r.bmi.Some? ==> r.bmi.value * ((heightCm / 100.0) * (heightCm / 100.0)) == weightKg
    ensures (r.recommendation.treino, r.recommendation.repeticoes, r.recommendation.cardio) == PlanTexts(GoalOf(goal))
    ensures r.recommendation.notaBiotipo == BiotypeTip(BiotypeOf(biotype))
  {
    var bmi := Bmi(heightCm, weightKg);
    var plan := PlanTexts(GoalOf(goal));
    RecoResult(bmi, Recommendation(plan.0, plan.1, plan.2, BiotypeTip(BiotypeOf(biotype))))
  }

  /** `weight_kg / (h_m * h_m)` when `h_m > 0`, with `h_m` the height in
      metres. */
  function Bmi(heightCm: real, weightKg: real): (bmi: Option<real>)
    ensures bmi.None? <==> heightCm <= 0.0
    ensures bmi.Some? ==> bmi.value * ((heightCm / 100.0) * (heightCm / 100.0)) == weightKg
  {
    var hm := heightCm / 100.0;
    if hm > 0.0 then
      SquarePositive(hm);
      Some(weightKg / (hm * hm))
    else None
  }

  lemma SquarePositive(x: real)
    requires x > 0.0
    ensures x * x > 0.0
  {
    if x >= 1.0 {
      assert x * x >= x * 1.0;
    }
  }

  /** A missing goal or biotype is the empty one. */
  lemma NoneIsEmpty(heightCm: real, weightKg: real, biotype: Option<string>, goal: Option<string>)
    ensures ComputeReco(heightCm, weightKg, None, goal) == ComputeReco(heightCm, weightKg, Some(""), goal)
    ensures ComputeReco(heightCm, weightKg, biotype, None) == ComputeReco(heightCm, weightKg, biotype, Some(""))
    ensures GoalOf(None) == Maintenance && BiotypeOf(None) == Unknown
  {
    assert Lower("") == "";
    assert !Contains("", "hiper") && !Contains("", "massa") && !Contains("", "emag");
    assert !Contains("", "defin") && !Contains("", "cut");
    assert !Contains("", "ecto") && !Contains("", "endo") && !Contains("", "meso");
  }

  /** Capitals do not matter: the lower-cased texts give the same result. */
  lemma CaseInsensitive(heightCm: real, weightKg: real, biotype: string, goal: string)
    ensures ComputeReco(heightCm, weightKg, Some(Lower(biotype)), Some(Lower(goal)))
         == ComputeReco(heightCm, weightKg, Some(biotype), Some(goal))
  {
    LowerIsLowerCase(biotype);
    LowerIsLowerCase(goal);
  }

  /** A goal naming both bulking and cutting gets the bulking plan, and a
      biotype naming both ecto and endo gets the ecto note. */
  lemma FirstTestWins(goal: string, biotype: string)
    requires Contains(Lower(goal), "massa") && Contains(Lower(goal), "cut")
    requires Contains(Lower(biotype), "ecto") && Contains(Lower(biotype), "endo")
    ensures GoalOf(Some(goal)) == Hypertrophy && BiotypeOf(Some(biotype)) == Ecto
  {
  }
}
