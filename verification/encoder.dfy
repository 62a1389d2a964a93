/**
  The feature encoder `preprocess_input` (app.py:63-85): it turns the intake form into
  one row aligned with the model's feature names. The row starts as all zeros, scalar
  inputs are copied into the columns of the same name, and then each of the three
  categorical selections sets its own sanitised one-hot column to 1 when that column
  exists. Rows are `seq<int>` indexed like the feature-name list.
 */
module Encoder {
  import opened Sanitizer

  /** The three categorical selections of the intake form. */
  datatype Category = Age | Insulin | DiabetesMed {
    /** The text put in front of the raw selection to form a column name. */
    function Prefix(): string {
      match this
      case Age => "age_"
      case Insulin => "insulin_"
      case DiabetesMed => "diabetesMed_"
    }
  }

  /** True iff `name` starts with the prefix of `cat`. */
  predicate HasPrefix(name: string, cat: Category) {
    |cat.Prefix()| <= |name| && name[..|cat.Prefix()|] == cat.Prefix()
  }

  /** The one-hot column name of a selection: `re.sub(r'[^\w]', '_', prefix + raw)`. */
  function ColumnName(cat: Category, raw: string): (c: string)
    ensures |c| == |cat.Prefix()| + |raw|
    ensures HasPrefix(c, cat)
    ensures c[|cat.Prefix()|..] == Sanitize(raw)
    ensures IsWordString(c)
  {
    WordPrefixKept(cat.Prefix(), raw);
    Sanitize(cat.Prefix() + raw)
  }

  /** The column names of two different categories never coincide, whatever was selected:
      the prefixes already differ in their first character. */
  lemma ColumnNamesOfCategoriesDiffer(c1: Category, r1: string, c2: Category, r2: string)
    requires c1 != c2
    ensures ColumnName(c1, r1) != ColumnName(c2, r2)
    ensures !HasPrefix(ColumnName(c1, r1), c2)
  {
  }

  /** True iff no feature name appears twice (a pandas frame could hold duplicates;
      the model's schema does not). */
  predicate Distinct(names: seq<string>) {
    forall i, j :: 0 <= i < |names| && 0 <= j < |names| && i != j ==> names[i] != names[j]
  }

  /** The starting row `np.zeros((1, len(names)))`. */
  function Zeros(n: nat): (row: seq<int>)
    ensures |row| == n
    ensures forall i :: 0 <= i < n ==> row[i] == 0
  {
    seq(n, _ => 0)
  }

  /** `df[col] = v`: every column labelled `col` takes `v`, the others keep their value. */
  function SetColumn(row: seq<int>, names: seq<string>, col: string, v: int): (r: seq<int>)
    requires |row| == |names|
    ensures |r| == |row|
    ensures forall i :: 0 <= i < |r| && names[i] == col ==> r[i] == v
    ensures forall i :: 0 <= i < |r| && names[i] != col ==> r[i] == row[i]
  {
    if |row| == 0 then []
    else [if names[0] == col then v else row[0]] + SetColumn(row[1..], names[1..], col, v)
  }

  /** The outcome of the scalar loop, column by column: a column named like an input key
      holds that input's value, every other column keeps its value. */
  function CopyScalars(row: seq<int>, names: seq<string>, inputs: map<string, int>): (r: seq<int>)
    requires |row| == |names|
    ensures |r| == |row|
    ensures forall i :: 0 <= i < |r| && names[i] in inputs ==> r[i] == inputs[names[i]]
    ensures forall i :: 0 <= i < |r| && names[i] !in inputs ==> r[i] == row[i]
  {
    if |row| == 0 then []
    else
      [if names[0] in inputs then inputs[names[0]] else row[0]]
      + CopyScalars(row[1..], names[1..], inputs)
  }

  /** The scalar loop as the source runs it: for each input key, in whatever order the
      dictionary yields them, overwrite the column of that name if there is one and skip
      the key otherwise. The order does not matter: the result is the column-wise copy. */
  method ApplyScalars(row: seq<int>, names: seq<string>, inputs: map<string, int>)
    returns (out: seq<int>)
    requires |row| == |names|
    ensures |out| == |row|
    ensures out == CopyScalars(row, names, inputs)
  {
    out := row;
    var pending := inputs.Keys;
    while pending != {}
      invariant pending <= inputs.Keys
      invariant |out| == |row|
      invariant forall i :: 0 <= i < |out| && names[i] in inputs && names[i] !in pending ==>
                  out[i] == inputs[names[i]]
      invariant forall i :: 0 <= i < |out| && (names[i] !in inputs || names[i] in pending) ==>
                  out[i] == row[i]
      decreases pending
    {
      var key :| key in pending;
      if key in names {
        out := SetColumn(out, names, key, inputs[key]);
      }
      pending := pending - {key};
    }
  }

  /** One categorical step: set the sanitised column of the selection to 1 if it exists,
      and otherwise leave the row exactly as it was (no error is raised). */
  function OneHot(row: seq<int>, names: seq<string>, cat: Category, raw: string): (r: seq<int>)
    requires |row| == |names|
    ensures |r| == |row|
    ensures forall i :: 0 <= i < |r| && names[i] == ColumnName(cat, raw) ==> r[i] == 1
    ensures forall i :: 0 <= i < |r| && names[i] != ColumnName(cat, raw) ==> r[i] == row[i]
    ensures ColumnName(cat, raw) !in names ==> r == row
  {
    var col := ColumnName(cat, raw);
    if col in names then SetColumn(row, names, col, 1) else row
  }

  /** True iff `name` is the one-hot column of one of the three selections. */
  predicate IsSelectedColumn(name: string, age: string, insulin: string, med: string) {
    || name == ColumnName(Age, age)
    || name == ColumnName(Insulin, insulin)
    || name == ColumnName(DiabetesMed, med)
  }

  /** `preprocess_input(inputs, age, insulin, med, names)`. The row has one entry per
      feature name, in the same order; a selected one-hot column holds 1 (the categorical
      steps run after the scalar copy and win over it); any other column named like an
      input key holds that input; every remaining column is 0. */
  function Encode(inputs: map<string, int>, age: string, insulin: string, med: string,
                  names: seq<string>): (row: seq<int>)
    ensures |row| == |names|
    ensures forall i :: 0 <= i < |names| && IsSelectedColumn(names[i], age, insulin, med) ==>
              row[i] == 1
    ensures forall i :: (0 <= i < |names| && !IsSelectedColumn(names[i], age, insulin, med)
                         && names[i] in inputs) ==> row[i] == inputs[names[i]]
    ensures forall i :: (0 <= i < |names| && !IsSelectedColumn(names[i], age, insulin, med)
                         && names[i] !in inputs) ==> row[i] == 0
  {
    var scalars := CopyScalars(Zeros(|names|), names, inputs);
    var withAge := OneHot(scalars, names, Age, age);
    var withInsulin := OneHot(withAge, names, Insulin, insulin);
    OneHot(withInsulin, names, DiabetesMed, med)
  }

  /** Every entry of the row is 0, 1 or the value of some input. */
  lemma EncodeValues(inputs: map<string, int>, age: string, insulin: string, med: string,
                     names: seq<string>, i: int)
    requires 0 <= i < |names|
    ensures var v := Encode(inputs, age, insulin, med, names)[i];
            v == 0 || v == 1 || v in inputs.Values
  {
    var row := Encode(inputs, age, insulin, med, names);
    if !IsSelectedColumn(names[i], age, insulin, med) && names[i] in inputs {
      assert row[i] == inputs[names[i]];
    }
  }

  /** One-hot invariant: among the columns carrying a category's prefix that are not
      scalar columns, at most one holds 1 - the column of the current selection. */
  lemma EncodeOneHot(inputs: map<string, int>, age: string, insulin: string, med: string,
                     names: seq<string>, cat: Category, i: int, j: int)
    requires Distinct(names)
    requires 0 <= i < |names| && 0 <= j < |names|
    requires HasPrefix(names[i], cat) && HasPrefix(names[j], cat)
    requires names[i] !in inputs && names[j] !in inputs
    requires Encode(inputs, age, insulin, med, names)[i] == 1
    requires Encode(inputs, age, insulin, med, names)[j] == 1
    ensures i == j
  {
  }

  /** A selection whose sanitised column is not in the schema is dropped silently: the row
      is the same as for any other unmatched selection of that category. */
  lemma UnmatchedAgeIsDropped(inputs: map<string, int>, a1: string, a2: string,
                              insulin: string, med: string, names: seq<string>)
    requires ColumnName(Age, a1) !in names && ColumnName(Age, a2) !in names
    ensures Encode(inputs, a1, insulin, med, names) == Encode(inputs, a2, insulin, med, names)
  {
    var r1 := Encode(inputs, a1, insulin, med, names);
    var r2 := Encode(inputs, a2, insulin, med, names);
    forall i | 0 <= i < |names| ensures r1[i] == r2[i] {
      assert names[i] != ColumnName(Age, a1) && names[i] != ColumnName(Age, a2);
    }
  }

  /** An input key that names no column is ignored: adding it changes nothing. */
  lemma UnknownKeyIgnored(inputs: map<string, int>, key: string, v: int, age: string,
                          insulin: string, med: string, names: seq<string>)
    requires key !in names
    ensures Encode(inputs[key := v], age, insulin, med, names)
         == Encode(inputs, age, insulin, med, names)
  {
    var r1 := Encode(inputs[key := v], age, insulin, med, names);
    var r2 := Encode(inputs, age, insulin, med, names);
    forall i | 0 <= i < |names| ensures r1[i] == r2[i] {
      assert names[i] != key;
    }
  }
}
