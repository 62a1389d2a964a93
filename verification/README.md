# Readmission risk dashboard: encoder, rules and analyze flag

A Dafny model of the logic of the readmission-risk dashboard `app.py`. The dashboard
takes a clinician's intake form and encodes it into the feature row a pretrained
classifier expects. It colours the predicted 30-day readmission probability and lists
rule-based discharge actions. Results are shown only after the user has pressed
"Analyze" since the last change to the form.

Modules:

- `Sanitizer` (`sanitize.dfy`): the column-name sanitiser `re.sub(r'[^\w]', '_', ...)`.
  It works character by character over an ASCII word-character predicate.
- `Encoder` (`encoder.dfy`): `preprocess_input`. A zero row is aligned with the feature
  names. Scalar inputs are copied into the columns of the same name. Then the three
  categorical selections (`age_`, `insulin_`, `diabetesMed_`) each set their sanitised
  one-hot column to 1 when the schema has it. The source's loop over the input dictionary
  is the method `ApplyScalars`. It is proved equal to the column-wise `CopyScalars`, which
  the pure `Encode` uses.
- `Recommendation` (`recommendation.dfy`): `get_recommendation` and the colour of the
  probability display. The probability is a `real`. The action texts are an enumeration.
- `Session` (`session.dfy`): the `analyzed` flag across script reruns. Each rerun runs
  the `on_change` reset callback, then initialises the flag if absent, then applies the
  button. The module also holds the results panel the flag guards.
- `Intake` (`intake.dfy`): the slider bounds and defaults and the selector option lists
  of the intake form. It also holds the end-to-end encoding case.

The classifier's probability is an input of the model (`p: real`). Its value, the SHAP
explanation and all rendering belong to external libraries.

Two behaviours of the code are easy to miss. The model follows the code in both:

- The categorical steps run after the scalar copy. A selected one-hot column therefore
  holds 1 even when an input key names the same column.
- Before the first script run the session holds no flag at all. A reset callback can
  write `False` before the initialisation at app.py:117-118 runs, and the initialisation
  then leaves it alone.

## Model

| member | source | states |
|---|---|---|
| Sanitizer.Sanitize | app.py:71 | the sanitised name has the same length, keeps every word character in place, puts `_` wherever the input has a non-word character, and consists only of word characters |
| Sanitizer.WordStringIsFixed | app.py:71 | a name made only of word characters is left unchanged |
| Sanitizer.SanitizeIdempotent | app.py:71 | sanitising an already sanitised name changes nothing |
| Sanitizer.SanitizeConcat | app.py:70-71 | sanitising `prefix + raw` equals sanitising each part and concatenating |
| Sanitizer.WordPrefixKept | app.py:70-71 | a word-character prefix such as `age_` survives in front of the sanitised raw text |
| Sanitizer.SanitizeCanMerge | app.py:71 | two different raw texts (`[40-50)` and `(40-50]`) give the same sanitised name |
| Encoder.ColumnName | app.py:70-71 | the one-hot column name is the category prefix followed by the sanitised selection, has the combined length, and is made only of word characters |
| Encoder.ColumnNamesOfCategoriesDiffer | app.py:70-83 | the age, insulin and diabetes-medication columns never coincide, and a column of one category never carries another category's prefix |
| Encoder.Zeros | app.py:64 | the starting row has one zero per feature name |
| Encoder.SetColumn | app.py:68 | assigning a column sets every entry labelled with that name and leaves the other entries and the width unchanged |
| Encoder.CopyScalars | app.py:66-68 | after the scalar copy, a column named like an input key holds that key's value and every other column keeps its value |
| Encoder.ApplyScalars | app.py:66-68 | the loop over the input dictionary, in any key order, skipping keys that name no column, yields the column-wise scalar copy |
| Encoder.OneHot | app.py:72-73 | a categorical step sets exactly its sanitised column to 1, leaves all others as they were, and leaves the row unchanged if the column is missing |
| Encoder.Encode | app.py:63-85 | the encoded row has one entry per feature name in the same order; each selected one-hot column holds 1, any other column named like an input holds that input, and every remaining column is 0 |
| Encoder.EncodeValues | app.py:63-85 | every entry of the encoded row is 0, 1 or one of the input values |
| Encoder.EncodeOneHot | app.py:70-83 | with distinct feature names, at most one non-scalar column with a category's prefix holds 1 |
| Encoder.UnmatchedAgeIsDropped | app.py:70-73 | an age selection whose column is not in the schema is dropped silently: the row is the same as for any other unmatched age |
| Encoder.UnknownKeyIgnored | app.py:66-68 | adding an input whose key names no column does not change the row |
| Recommendation.Recommend | app.py:90-108 | the list has 1 to 4 actions; it opens with two urgent actions above 0.6, two watch actions in (0.3, 0.6] and the standard action otherwise; it contains the frequent-flyer action iff inpatient visits exceed 1 and the polypharmacy action iff medications exceed 20; the actions appear in the fixed order without repeats |
| Recommendation.RecommendFor | app.py:90-108 | the rules succeed iff both counts are present; a missing inpatient count raises `KeyError` for that key first, then a missing medication count does |
| Recommendation.TierOf | app.py:93-100 | exactly one tier applies: urgent iff p > 0.6, watch iff 0.3 < p <= 0.6, standard iff p <= 0.3 |
| Recommendation.TierBoundaries | app.py:93-100 | 0.3 gives the standard tier, 0.30001 watch, 0.6 watch and 0.60001 urgent |
| Recommendation.TierMonotone | app.py:93-100 | a higher probability never gives a less severe tier |
| Recommendation.HighRiskExample | app.py:93-106 | p = 0.75 with 2 inpatient visits and 25 medications gives the two urgent actions, then frequent flyer, then polypharmacy |
| Recommendation.DisplayColour | app.py:132-134 | the colour is green, orange or red exactly when the recommendation tier is standard, watch or urgent |
| Recommendation.ColourBands | app.py:132-134 | green up to 0.3, orange in (0.3, 0.6], red above 0.6 |
| Session.ScriptRun | app.py:117-123 | after one rerun (reset callback of app.py:34-35, then initialisation, then the button) the flag is false if an input changed, true if the button was pressed, and otherwise true only if it was already stored as true (an absent flag initialises to false) |
| Session.Transitions | app.py:34-123 | a fresh session shows nothing, any input change leaves nothing shown, and pressing the button shows results |
| Session.Run | app.py:34-123 | across reruns from a fresh session the stored flag is absent only before the first run, false right after an input change, true right after the button, and carried over by any other rerun (absent becoming false) |
| Session.ResultsShown | app.py:126 | results are shown iff the stored flag is true; never in a fresh session or right after an input change, always right after the button |
| Session.ShownIffAnalyzedSinceLastChange | app.py:122-126 | results are shown after a sequence of reruns iff the button was pressed at some rerun with no input change after it |
| Session.Panel | app.py:126-158 | a report exists iff the flag is true; it carries the display colour of p and exactly the outcome of `get_recommendation` for p and the inputs (the action list, or the `KeyError`), and the colour and the first action come from the same tier |
| Session.NoReportAfterChange | app.py:126 | right after an input change no report is produced |
| Intake.DefaultInputs | app.py:44-48 | the fresh form holds the five slider keys, each at its default and within its bounds |
| Intake.FormInputsAlwaysRecommend | app.py:44-48 | inputs within the slider bounds always carry both counts, so the rules never raise `KeyError` and the counts stay within their slider ranges |
| Intake.AgeColumnsDistinct | app.py:50-52 | different age brackets give different sanitised age columns |
| Intake.WordOptionColumns | app.py:54-56 | each insulin and diabetes-medication option gives the prefix followed by the option text unchanged |
| Intake.ScenarioColumns | app.py:70-83 | the selections `[40-50)`, `No`, `No` give the columns `age__40_50_`, `insulin_No` and `diabetesMed_No` |
| Intake.ScenarioEncoding | app.py:63-85 | with the default counts and those selections, over any schema, the count columns echo the defaults, the three selected columns hold 1, and every other column is 0 |

## Left out

- Sanitizer.IsWordChar: word characters are the ASCII letters, ASCII digits and `_`. Python's `\w` on `str` also matches non-ASCII letters, digits and connector characters, which the model turns into `_`. All the option texts of the form are ASCII.
- Encoder.Encode: entries are unbounded integers. The source's row is a float frame built from `np.zeros`, and the slider values are small integers.
- Encoder.EncodeOneHot: assumes the feature names are distinct. The other encoder members do not. Like a pandas column assignment, `SetColumn` sets every column with the given label.
- Asset loading (`joblib.load`, the `FileNotFoundError` path and `st.stop()`, app.py:19-30) is file I/O. The feature names are a parameter of the encoder.
- The classifier call `model.predict_proba` (app.py:127) is an external LightGBM model with floating-point numerics. Its probability is the input `p`.
- The SHAP explanation, its list-or-array shape handling and the force plot (app.py:13-16, 143-154) are calls into foreign libraries and plotting.
- Streamlit rendering, page layout, the percentage formatting `{prob*100:.1f}%` and the static "Key Risk Drivers" text (app.py:9-10, 111-114, 129-131, 135-141, 156-157, 159-183) are user-interface output.
- The widgets themselves (app.py:40-58) are only modelled as data: slider bounds and defaults, and option lists. Streamlit's guarantee that a slider yields a value within its bounds is the `ValidInputs` predicate, not something the model enforces.
- Session.ScriptRun: one rerun carries at most one interaction (an input change or a button press). Streamlit's scheduling of reruns is not modelled.
