/**
  The intake form `user_input_features` (app.py:40-58) as data: five integer sliders with
  fixed bounds and defaults and three selectors with closed option lists. With these
  the encoder's one-hot columns of different options never collide, and the
  recommendation engine always finds both counts it reads.
 */
module Intake {
  import opened Sanitizer
  import opened Encoder
  import opened Recommendation

  /** A slider: the input key it fills, its inclusive bounds and its default. */
  datatype Slider = Slider(key: string, lo: int, hi: int, default: int)

  const Sliders: seq<Slider> := [
    Slider("number_inpatient", 0, 10, 0),
    Slider("time_in_hospital", 1, 14, 3),
    Slider("num_lab_procedures", 0, 100, 40),
    Slider("num_medications", 0, 50, 15),
    Slider("number_diagnoses", 0, 16, 5)
  ]

  const AgeOptions: seq<string> := [
    "[0-10)", "[10-20)", "[20-30)", "[30-40)", "[40-50)",
    "[50-60)", "[60-70)", "[70-80)", "[80-90)", "[90-100)"
  ]
  const InsulinOptions: seq<string> := ["No", "Steady", "Up", "Down"]
  const DiabetesMedOptions: seq<string> := ["Yes", "No"]

  /** True iff `inputs` holds every slider's key with a value within its bounds. */
  predicate ValidInputs(inputs: map<string, int>) {
    forall k :: 0 <= k < |Sliders| ==>
      Sliders[k].key in inputs && Sliders[k].lo <= inputs[Sliders[k].key] <= Sliders[k].hi
  }

  /** The inputs of a fresh form: the five slider keys, each at its default. */
  function DefaultInputs(): (m: map<string, int>)
    ensures ValidInputs(m)
    ensures |m| == |Sliders|
    ensures forall k :: 0 <= k < |Sliders| ==> m[Sliders[k].key] == Sliders[k].default
  {
    map["number_inpatient" := 0, "time_in_hospital" := 3, "num_lab_procedures" := 40,
        "num_medications" := 15, "number_diagnoses" := 5]
  }

  /** Inputs from the form always carry both counts the rules read, so the `KeyError`
      path of the recommendation engine is never taken from the dashboard. */
  lemma FormInputsAlwaysRecommend(p: real, inputs: map<string, int>)
    requires ValidInputs(inputs)
    ensures RecommendFor(p, inputs).Actions?
    ensures 0 <= inputs[InpatientKey] <= 10 && 0 <= inputs[MedicationsKey] <= 50
  {
    assert Sliders[0].key == InpatientKey;
    assert Sliders[3].key == MedicationsKey;
  }

  /** Different age brackets give different age columns: the sanitised names differ in
      the first digit of the bracket. */
  lemma AgeColumnsDistinct(i: int, j: int)
    requires 0 <= i < |AgeOptions| && 0 <= j < |AgeOptions| && i != j
    ensures ColumnName(Age, AgeOptions[i]) != ColumnName(Age, AgeOptions[j])
  {
    var a := AgeOptions[i];
    var b := AgeOptions[j];
    assert forall k :: 0 <= k < |AgeOptions| ==> |AgeOptions[k]| >= 2 && AgeOptions[k][1] == '0' + k as char;
    assert IsWordChar(a[1]) && IsWordChar(b[1]);
    assert ColumnName(Age, a)[|Age.Prefix()| + 1] == Sanitize(a)[1] == a[1];
    assert ColumnName(Age, b)[|Age.Prefix()| + 1] == Sanitize(b)[1] == b[1];
  }

  /** The insulin and diabetes-medication options are already word strings, so their
      columns are the prefix followed by the option text. */
  lemma WordOptionColumns(cat: Category, option: string)
    requires cat == Insulin ==> option in InsulinOptions
    requires cat == DiabetesMed ==> option in DiabetesMedOptions
    requires cat != Age
    ensures ColumnName(cat, option) == cat.Prefix() + option
  {
    assert IsWordString(option);
    WordStringIsFixed(option);
  }

  /** The one-hot columns the end-to-end selections name. */
  const ScenarioOneHot: set<string> := {"age__40_50_", "insulin_No", "diabetesMed_No"}

  /** The one-hot columns of the selections age 40-50, insulin "No" and medication "No". */
  lemma ScenarioColumns()
    ensures ColumnName(Age, "[40-50)") == "age__40_50_"
    ensures ColumnName(Insulin, "No") == "insulin_No"
    ensures ColumnName(DiabetesMed, "No") == "diabetesMed_No"
  {
    var s := Sanitize("[40-50)");
    assert forall k :: 0 <= k < 7 ==> s[k] == "_40_50_"[k];
    assert s == "_40_50_";
    WordOptionColumns(Insulin, "No");
    WordOptionColumns(DiabetesMed, "No");
  }

  /** The end-to-end case: default counts, age 40-50, no insulin, no diabetes medication,
      against any schema. A count column echoes its slider's default, each of the columns
      `age__40_50_`, `insulin_No` and `diabetesMed_No` holds 1 when the schema has it, and
      every other column is 0. */
  lemma ScenarioEncoding(names: seq<string>, i: int)
    requires 0 <= i < |names|
    ensures var row := Encode(DefaultInputs(), "[40-50)", "No", "No", names);
            && (names[i] == "number_inpatient" ==> row[i] == 0)
            && (names[i] == "time_in_hospital" ==> row[i] == 3)
            && (names[i] == "num_lab_procedures" ==> row[i] == 40)
            && (names[i] == "num_medications" ==> row[i] == 15)
            && (names[i] == "number_diagnoses" ==> row[i] == 5)
            && (names[i] in ScenarioOneHot ==> row[i] == 1)
            && (names[i] !in ScenarioOneHot && names[i] !in DefaultInputs() ==> row[i] == 0)
  {
    ScenarioColumns();
    assert forall n :: IsSelectedColumn(n, "[40-50)", "No", "No") <==> n in ScenarioOneHot;
    assert forall n :: n in ScenarioOneHot ==> n !in DefaultInputs();
  }
}

