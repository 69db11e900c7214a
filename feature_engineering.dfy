/** The feature transformation of model-api/application/feature_engineering.py:
    cleanup of the currency and percentage columns, the split of the numeric
    columns into empty and informative ones, the (abstract) imputation and
    standardisation, one-hot encoding, and alignment with the model's
    25-feature schema. */
module FeatureEngineering {
  import opened Frames
  import opened Strings
  import opened Decimal

  // ---------------------------------------------------------------------
  // data_cleanup: the string rewrites of x12 and x63
  // ---------------------------------------------------------------------

  /** The `x12` rewrite: delete '$', ',' and ')', then turn '(' into '-',
      in that order. */
  function CurrencyText(s: string): string {
    ReplaceChar(DeleteChar(DeleteChar(DeleteChar(s, '$'), ','), ')'), '(', '-')
  }

  /** The `x63` rewrite: delete '%' and nothing else. */
  function PercentText(s: string): string {
    DeleteChar(s, '%')
  }

  /** What the currency rewrite does to one character on its own. */
  function CurrencyChar(c: char): string {
    if c == '$' || c == ',' || c == ')' then ""
    else if c == '(' then "-"
    else [c]
  }

  /** The currency rewrite as one left-to-right pass over the characters. */
  function CurrencyPass(s: string): string
    decreases |s|
  {
    if s == [] then "" else CurrencyChar(s[0]) + CurrencyPass(s[1..])
  }

  lemma CurrencyTextConcat(a: string, b: string)
    ensures CurrencyText(a + b) == CurrencyText(a) + CurrencyText(b)
  {
    DeleteCharConcat(a, b, '$');
    var a1, b1 := DeleteChar(a, '$'), DeleteChar(b, '$');
    DeleteCharConcat(a1, b1, ',');
    var a2, b2 := DeleteChar(a1, ','), DeleteChar(b1, ',');
    DeleteCharConcat(a2, b2, ')');
    var a3, b3 := DeleteChar(a2, ')'), DeleteChar(b2, ')');
    ReplaceCharConcat(a3, b3, '(', '-');
  }

  /** The four chained replacements act character by character: '$', ','
      and ')' vanish, each '(' becomes '-', every other character stays in
      place. */
  lemma {:induction false} CurrencyTextIsOnePass(s: string)
    ensures CurrencyText(s) == CurrencyPass(s)
    decreases |s|
  {
    if s != [] {
      assert s == [s[0]] + s[1..];
      CurrencyTextConcat([s[0]], s[1..]);
      CurrencyTextIsOnePass(s[1..]);
      CurrencyTextChar(s[0]);
    }
  }

  lemma CurrencyTextChar(c: char)
    ensures CurrencyText([c]) == CurrencyChar(c)
  {
    DeleteCharSingle(c, '$');
    DeleteCharSingle(c, ',');
    DeleteCharSingle(c, ')');
    if c != '$' && c != ',' && c != ')' {
      assert [c][1..] == [];
    }
  }

  /** A rewritten currency text holds none of '$', ',', '(' and ')'. */
  lemma CurrencyTextClean(s: string)
    ensures var r := CurrencyText(s); '$' !in r && ',' !in r && '(' !in r && ')' !in r
  {
    var r1 := DeleteChar(s, '$');
    var r2 := DeleteChar(r1, ',');
    var r3 := DeleteChar(r2, ')');
    DeleteCharSpec(s, '$');
    DeleteCharSpec(r1, ',');
    DeleteCharSpec(r2, ')');
    assert '$' !in r3 && ',' !in r3 && ')' !in r3;
    var r := CurrencyText(s);
    forall i | 0 <= i < |r|
      ensures r[i] != '$' && r[i] != ',' && r[i] != '(' && r[i] != ')'
    {
      assert r3[i] in r3;
    }
  }

  /** A text without the four special characters is left as it is. */
  lemma CurrencyTextUnchanged(d: string)
    requires '$' !in d && ',' !in d && '(' !in d && ')' !in d
    ensures CurrencyText(d) == d
  {
    DeleteCharAbsent(d, '$');
    DeleteCharAbsent(d, ',');
    DeleteCharAbsent(d, ')');
    ReplaceCharAbsent(d, '(', '-');
  }

  /** An accounting-style negative `(d)` rewrites to `-d`. */
  lemma ParenthesisedRewrite(d: string)
    requires '$' !in d && ',' !in d && '(' !in d && ')' !in d
    ensures CurrencyText("(" + d + ")") == "-" + d
  {
    CurrencyTextConcat("(" + d, ")");
    CurrencyTextConcat("(", d);
    CurrencyTextUnchanged(d);
  }

  /** A currency text without parentheses only loses its '$' and ','. */
  lemma UnparenthesisedRewrite(s: string)
    requires '(' !in s && ')' !in s
    ensures CurrencyText(s) == DeleteChar(DeleteChar(s, '$'), ',')
  {
    var r1 := DeleteChar(s, '$');
    var r2 := DeleteChar(r1, ',');
    DeleteCharSpec(s, '$');
    DeleteCharSpec(r1, ',');
    DeleteCharAbsent(r2, ')');
    ReplaceCharAbsent(r2, '(', '-');
  }

  /** `(d)` reads as the negation of the amount `d` denotes. */
  lemma ParenthesisedAmountNegates(d: string)
    requires ParseUnsigned(d).Some?
    ensures ParseDecimal(CurrencyText("(" + d + ")")) == Some(-ParseUnsigned(d).value)
  {
    UnsignedCharacters(d);
    assert '$' !in d && ',' !in d && '(' !in d && ')' !in d by {
      forall i | 0 <= i < |d| ensures d[i] != '$' && d[i] != ',' && d[i] != '(' && d[i] != ')' { }
    }
    ParenthesisedRewrite(d);
    NegatedParse(d);
  }

  /** A percentage keeps its magnitude: `d%` reads as `d`, not `d / 100`. */
  lemma PercentKeepsMagnitude(d: string)
    requires '%' !in d
    ensures PercentText(d + "%") == d
    ensures ParseDecimal(PercentText(d + "%")) == ParseDecimal(d)
  {
    DeleteCharConcat(d, "%", '%');
    DeleteCharAbsent(d, '%');
  }

  /** Which of the two rewrites a column goes through. */
  datatype Rewrite = Currency | Percent

  function Rewritten(rw: Rewrite, s: string): string {
    match rw
    case Currency => CurrencyText(s)
    case Percent => PercentText(s)
  }

  /** A value of `x12` or `x63` after `.str.replace(...).astype(float)`, in
      a column that holds some text: a text is rewritten and parsed; NaN
      stays NaN; a non-text value becomes NaN, as pandas' string methods
      give NaN for it. */
  function CleanedValue(v: Value, rw: Rewrite): Result<Value> {
    match v
    case Text(s) =>
      (match ParseDecimal(Rewritten(rw, s))
       case Some(x) => Ok(Num(x))
       case None => Err(ParseError(Rewritten(rw, s))))
    case _ => Ok(Missing)
  }

  /** A whole column through the rewrite: it fails as soon as one value
      does not parse, and otherwise gives one cleaned value per input
      value. */
  function ParseColumn(vals: seq<Value>, rw: Rewrite): (r: Result<seq<Value>>)
    ensures r.Ok? <==> forall i :: 0 <= i < |vals| ==> CleanedValue(vals[i], rw).Ok?
    ensures r.Ok? ==> |r.value| == |vals|
    ensures r.Ok? ==> forall i :: 0 <= i < |vals| ==> r.value[i] == CleanedValue(vals[i], rw).value
    ensures r.Err? ==> exists i :: 0 <= i < |vals| && CleanedValue(vals[i], rw) == Err(r.error)
    decreases |vals|
  {
    if vals == [] then Ok([])
    else
      match CleanedValue(vals[0], rw)
      case Err(e) => Err(e)
      case Ok(v) =>
        match ParseColumn(vals[1..], rw)
        case Err(e) => Err(e)
        case Ok(rest) => Ok([v] + rest)
  }

  /** `df[name] = df[name]...astype(float)` as a value: a KeyError when the
      column is absent, the `.str` accessor's error when the column holds no
      text (pandas then gives it a non-string dtype), a parse error from the
      column, or the frame with that column overwritten. */
  function CleanColumn(f: Frame, name: string, rw: Rewrite): Result<Frame> {
    if name !in Names(f.columns) then Err(KeyError(name))
    else if !HasText(ValuesOf(f, name)) then Err(NotText(name))
    else
      match ParseColumn(ValuesOf(f, name), rw)
      case Err(e) => Err(e)
      case Ok(vals) => Ok(Frame(f.height, Assigned(f.columns, name, vals)))
  }

  /** What data_cleanup returns: `x12` cleaned first, then `x63`. */
  function Cleanup(f: Frame): Result<Frame> {
    match CleanColumn(f, "x12", Currency)
    case Err(e) => Err(e)
    case Ok(g) => CleanColumn(g, "x63", Percent)
  }

  /** The state data_cleanup leaves its argument in, also when it raises:
      a failure on `x63` leaves `x12` already overwritten. */
  function CleanupState(f: Frame): Frame {
    match CleanColumn(f, "x12", Currency)
    case Err(_) => f
    case Ok(g) =>
      match CleanColumn(g, "x63", Percent)
      case Err(_) => g
      case Ok(h) => h
  }

  /** Cleaning a column succeeds exactly when the column exists, holds some
      text and every cell converts; otherwise the error is the KeyError, the
      accessor's error, or a cell's parse error, in that order. */
  lemma CleanColumnOutcome(f: Frame, name: string, rw: Rewrite)
    ensures CleanColumn(f, name, rw).Ok? <==>
      name in Names(f.columns) && HasText(ValuesOf(f, name)) &&
      forall i :: 0 <= i < |ValuesOf(f, name)| ==> CleanedValue(ValuesOf(f, name)[i], rw).Ok?
    ensures name !in Names(f.columns) ==> CleanColumn(f, name, rw) == Err(KeyError(name))
    ensures name in Names(f.columns) && !HasText(ValuesOf(f, name)) ==>
      CleanColumn(f, name, rw) == Err(NotText(name))
    ensures name in Names(f.columns) && HasText(ValuesOf(f, name)) && CleanColumn(f, name, rw).Err? ==>
      exists i :: 0 <= i < |ValuesOf(f, name)| && CleanedValue(ValuesOf(f, name)[i], rw) == Err(CleanColumn(f, name, rw).error)
  {
  }

  /** A cleaned column holds the converted values; the frame's names and
      height and the other columns' values stay. */
  lemma CleanColumnFrame(f: Frame, name: string, rw: Rewrite)
    requires CleanColumn(f, name, rw).Ok?
    ensures var g := CleanColumn(f, name, rw).value;
      && g.height == f.height
      && name in Names(f.columns) && ParseColumn(ValuesOf(f, name), rw).Ok?
      && Names(g.columns) == Names(f.columns)
      && ValuesOf(g, name) == ParseColumn(ValuesOf(f, name), rw).value
      && (forall n :: n in Names(f.columns) && n != name ==> ValuesOf(g, n) == ValuesOf(f, n))
      && (WellFormed(f) ==> WellFormed(g))
  {
    var vals := ParseColumn(ValuesOf(f, name), rw).value;
    var g := Frame(f.height, Assigned(f.columns, name, vals));
    assert CleanColumn(f, name, rw).value == g;
    assert Names(g.columns) == Names(f.columns) && ValuesOf(g, name) == vals
      && (forall n :: n in Names(f.columns) && n != name ==> ValuesOf(g, n) == ValuesOf(f, n)) by {
      AssignedLookup(f, name, vals);
    }
    if WellFormed(f) {
      assert |vals| == f.height by { ValuesOfWellFormed(f, name); }
    }
  }

  /** data_cleanup's result: `x12` and `x63` hold their converted values,
      every other column, the names and the row count stay. */
  lemma CleanupFrame(f: Frame)
    requires Cleanup(f).Ok?
    ensures var g := Cleanup(f).value;
      && g.height == f.height
      && Names(g.columns) == Names(f.columns)
      && "x12" in Names(f.columns) && "x63" in Names(f.columns)
      && HasText(ValuesOf(f, "x12")) && HasText(ValuesOf(f, "x63"))
      && ParseColumn(ValuesOf(f, "x12"), Currency).Ok? && ParseColumn(ValuesOf(f, "x63"), Percent).Ok?
      && ValuesOf(g, "x12") == ParseColumn(ValuesOf(f, "x12"), Currency).value
      && ValuesOf(g, "x63") == ParseColumn(ValuesOf(f, "x63"), Percent).value
      && (forall n :: n in Names(f.columns) && n != "x12" && n != "x63" ==> ValuesOf(g, n) == ValuesOf(f, n))
      && (WellFormed(f) ==> WellFormed(g))
  {
    CleanColumnFrame(f, "x12", Currency);
    CleanColumnFrame(CleanColumn(f, "x12", Currency).value, "x63", Percent);
  }

  /** data_cleanup: overwrites `x12` and `x63` of its argument in place. */
  method DataCleanup(raw: DataFrame) returns (res: Outcome)
    modifies raw
    ensures raw.Value() == CleanupState(old(raw.Value()))
    ensures res.Pass? <==> Cleanup(old(raw.Value())).Ok?
    ensures res.Pass? ==> Cleanup(old(raw.Value())) == Ok(raw.Value())
    ensures res.Fail? ==> Cleanup(old(raw.Value())) == Err(res.error)
  {
    if "x12" !in Names(raw.columns) {
      return Fail(KeyError("x12"));
    }
    if !HasText(ValuesOf(raw.Value(), "x12")) {
      return Fail(NotText("x12"));
    }
    var x12 := ParseColumn(ValuesOf(raw.Value(), "x12"), Currency);
    if x12.Err? {
      return Fail(x12.error);
    }
    raw.Assign("x12", x12.value);
    if "x63" !in Names(raw.columns) {
      return Fail(KeyError("x63"));
    }
    if !HasText(ValuesOf(raw.Value(), "x63")) {
      return Fail(NotText("x63"));
    }
    var x63 := ParseColumn(ValuesOf(raw.Value(), "x63"), Percent);
    if x63.Err? {
      return Fail(x63.error);
    }
    raw.Assign("x63", x63.value);
    return Pass;
  }

  // ---------------------------------------------------------------------
  // imputation_and_standardization: dropping the passthrough columns and
  // splitting the rest into empty and informative columns
  // ---------------------------------------------------------------------

  /** `column.any()`: some value is truthy. */
  predicate AnyTruthy(vals: seq<Value>) {
    exists i :: 0 <= i < |vals| && Truthy(vals[i])
  }

  /** Every value is NaN. */
  predicate AllMissing(vals: seq<Value>) {
    forall i :: 0 <= i < |vals| ==> vals[i].Missing?
  }

  /** `df.drop(columns=names)`: a KeyError names the first listed column
      that is absent; otherwise every column of a listed name goes. */
  function Drop(f: Frame, names: seq<string>): Result<Frame> {
    if forall n :: n in names ==> n in Names(f.columns) then
      Ok(Frame(f.height, Without(f.columns, names)))
    else Err(KeyError(FirstAbsent(names, Names(f.columns))))
  }

  /** `df.loc[:, ~df.any()]`, the structurally empty columns. */
  function EmptyFeatures(cols: seq<Column>): seq<Column> {
    Filter(cols, (c: Column) => !AnyTruthy(c.values))
  }

  /** `df.loc[:, df.any()]`, the informative columns. */
  function NonEmptyFeatures(cols: seq<Column>): seq<Column> {
    Filter(cols, (c: Column) => AnyTruthy(c.values))
  }

  /** Dropping succeeds exactly when every listed column is present, and
      then no listed column remains while every other column stays, in
      order; otherwise the KeyError names a listed, absent column. */
  lemma DropRemovesListed(f: Frame, names: seq<string>)
    ensures Drop(f, names).Ok? <==> forall n :: n in names ==> n in Names(f.columns)
    ensures Drop(f, names).Err? ==>
      Drop(f, names).error.KeyError? && Drop(f, names).error.key in names &&
      Drop(f, names).error.key !in Names(f.columns)
    ensures Drop(f, names).Ok? ==>
      var g := Drop(f, names).value;
      && g.height == f.height
      && (forall c :: c in g.columns ==> c.name !in names)
      && (forall c :: c in f.columns && c.name !in names ==> c in g.columns)
      && IsSubsequence(g.columns, f.columns)
  {
    FilterIsSubsequence(f.columns, (c: Column) => c.name !in names);
    WithoutMembers(f.columns, names);
  }

  /** The two column sets after the drop are disjoint; together they are
      exactly the remaining columns; each keeps the columns' relative order;
      and the empty ones are the columns with no truthy value. */
  lemma PartitionExact(cols: seq<Column>)
    ensures var e, ne := EmptyFeatures(cols), NonEmptyFeatures(cols);
      && (forall c :: c in e ==> c !in ne)
      && multiset(e) + multiset(ne) == multiset(cols)
      && IsSubsequence(e, cols) && IsSubsequence(ne, cols)
      && (forall c :: c in e <==> c in cols && !AnyTruthy(c.values))
      && (forall c :: c in ne <==> c in cols && AnyTruthy(c.values))
  {
    FilterSplit(cols, (c: Column) => !AnyTruthy(c.values), (c: Column) => AnyTruthy(c.values));
    FilterIsSubsequence(cols, (c: Column) => !AnyTruthy(c.values));
    FilterIsSubsequence(cols, (c: Column) => AnyTruthy(c.values));
    FilterMembers(cols, (c: Column) => !AnyTruthy(c.values));
    FilterMembers(cols, (c: Column) => AnyTruthy(c.values));
  }

  // ---------------------------------------------------------------------
  // imputation_and_standardization: the numeric step, kept abstract
  // ---------------------------------------------------------------------

  /** The batch-relative numeric work of SimpleImputer and StandardScaler:
      each gives the new value of row `i` of a column from the whole column,
      so the statistics are those of the current batch. */
  datatype Numerics = Numerics(impute: (seq<Value>, nat) -> Value, scale: (seq<Value>, nat) -> Value)

  function Transform(fn: (seq<Value>, nat) -> Value, vals: seq<Value>, h: nat): seq<Value> {
    seq(h, (i: nat) => fn(vals, i))
  }

  /** The columns SimpleImputer keeps: it silently drops the all-NaN ones. */
  function ImputerKept(cols: seq<Column>): seq<Column> {
    Filter(cols, (c: Column) => !AllMissing(c.values))
  }

  /** imputation_and_standardization: drop the passthrough columns; the
      mean imputer refuses a text cell anywhere in what is left, and an
      input with no row or no column; impute every
      column the imputer keeps and label the result positionally with the
      informative columns' names (pandas raises when the two widths differ),
      append the empty columns, then scale everything. */
  function ImputationAndStandardization(cleaned: Frame, nonImputed: seq<string>, nx: Numerics): Result<Frame> {
    match Drop(cleaned, nonImputed)
    case Err(e) => Err(e)
    case Ok(d) =>
      if HoldsText(d.columns) then Err(NonNumeric)
      else if d.height == 0 || d.columns == [] then Err(EmptyInput)
      else
      var empty := EmptyFeatures(d.columns);
      var nonEmpty := NonEmptyFeatures(d.columns);
      var kept := ImputerKept(d.columns);
      if |kept| != |nonEmpty| then Err(ShapeMismatch(|kept|, |nonEmpty|))
      else
        var imputed := seq(|kept|, i requires 0 <= i < |kept| =>
          Column(nonEmpty[i].name, Transform(nx.impute, kept[i].values, d.height)));
        var combined := imputed + empty;
        Ok(Frame(d.height, seq(|combined|, i requires 0 <= i < |combined| =>
          Column(combined[i].name, Transform(nx.scale, combined[i].values, d.height)))))
  }

  /** On success the columns are the informative ones followed by the empty
      ones, and the row count is the batch's. */
  lemma ImputationColumnOrder(cleaned: Frame, nonImputed: seq<string>, nx: Numerics)
    requires ImputationAndStandardization(cleaned, nonImputed, nx).Ok?
    ensures var r := ImputationAndStandardization(cleaned, nonImputed, nx).value;
      var d := Drop(cleaned, nonImputed).value;
      && Names(r.columns) == Names(NonEmptyFeatures(d.columns)) + Names(EmptyFeatures(d.columns))
      && r.height == cleaned.height
      && WellFormed(r)
  {
    var d := Drop(cleaned, nonImputed).value;
    var nonEmpty := NonEmptyFeatures(d.columns);
    var empty := EmptyFeatures(d.columns);
    var r := ImputationAndStandardization(cleaned, nonImputed, nx).value;
    assert |r.columns| == |nonEmpty| + |empty|;
    forall i | 0 <= i < |r.columns|
      ensures Names(r.columns)[i] == (Names(nonEmpty) + Names(empty))[i]
    {
    }
  }

  /** After the drop, the step fails with the imputer's ValueError exactly
      when some remaining column holds a text cell, and otherwise with its
      empty-input ValueError exactly when no row or no column is left. With
      neither, it fails exactly when some column is falsy throughout without
      being NaN throughout (an all-zero column, say), and then with the width
      mismatch of line 36. */
  lemma ShapeMismatchExactly(cleaned: Frame, nonImputed: seq<string>, nx: Numerics)
    requires Drop(cleaned, nonImputed).Ok?
    ensures var d, r := Drop(cleaned, nonImputed).value, ImputationAndStandardization(cleaned, nonImputed, nx);
      && (r == Err(NonNumeric) <==> HoldsText(d.columns))
      && (r == Err(EmptyInput) <==> !HoldsText(d.columns) && (d.height == 0 || d.columns == []))
      && (!HoldsText(d.columns) && d.height > 0 && d.columns != [] ==>
            (r.Err? <==> exists c :: c in d.columns && !AnyTruthy(c.values) && !AllMissing(c.values)))
      && (!HoldsText(d.columns) && d.height > 0 && d.columns != [] && r.Err? ==> r.error.ShapeMismatch?)
  {
    var d := Drop(cleaned, nonImputed).value;
    if !HoldsText(d.columns) && d.height > 0 && d.columns != [] {
      var p := (c: Column) => AnyTruthy(c.values);
      var q := (c: Column) => !AllMissing(c.values);
      forall c | c in d.columns && p(c)
        ensures q(c)
      {
        var i :| 0 <= i < |c.values| && Truthy(c.values[i]);
      }
      FilterCountMonotone(d.columns, p, q);
    }
  }

  // ---------------------------------------------------------------------
  // create_dummies: pd.get_dummies(columns, drop_first=True, dummy_na=True,
  // prefix=<column>, prefix_sep='_')
  // ---------------------------------------------------------------------

  /** Strictly increasing in Python's string order. */
  predicate StrictlySorted(s: seq<string>) {
    forall i :: 0 <= i < |s| - 1 ==> Le(s[i], s[i + 1]) && s[i] != s[i + 1]
  }

  /** Put `x` into a strictly sorted list unless it is already there. */
  function InsertUnique(x: string, s: seq<string>): seq<string>
    decreases |s|
  {
    if s == [] then [x]
    else if x == s[0] then s
    else if Le(x, s[0]) then [x] + s
    else [s[0]] + InsertUnique(x, s[1..])
  }

  /** The distinct values of `xs` in ascending order. */
  function SortedUnique(xs: seq<string>): seq<string>
    decreases |xs|
  {
    if xs == [] then [] else InsertUnique(xs[0], SortedUnique(xs[1..]))
  }

  lemma {:induction false} InsertUniqueSorted(x: string, s: seq<string>)
    requires StrictlySorted(s)
    ensures var r := InsertUnique(x, s);
      && StrictlySorted(r)
      && (forall y :: y in r <==> y == x || y in s)
      && r != []
      && r[0] == (if s == [] || Le(x, s[0]) then x else s[0])
    decreases |s|
  {
    if s != [] && x != s[0] && !Le(x, s[0]) {
      InsertUniqueSorted(x, s[1..]);
      LeTotal(x, s[0]);
    }
  }

  /** The sorted distinct values: strictly ascending, the same values as the
      input, and the first of them no greater than any value of the input. */
  lemma {:induction false} SortedUniqueSpec(xs: seq<string>)
    ensures var r := SortedUnique(xs);
      && StrictlySorted(r)
      && (forall y :: y in r <==> y in xs)
      && (r != [] ==> forall y :: y in xs ==> Le(r[0], y))
      && (r == [] <==> xs == [])
    decreases |xs|
  {
    if xs != [] {
      SortedUniqueSpec(xs[1..]);
      InsertUniqueSorted(xs[0], SortedUnique(xs[1..]));
      var r := SortedUnique(xs);
      forall y | y in xs
        ensures Le(r[0], y)
      {
        SortedHeadLeast(r, y);
      }
    }
  }

  lemma {:induction false} SortedHeadLeast(r: seq<string>, y: string)
    requires StrictlySorted(r) && y in r
    ensures Le(r[0], y)
    decreases |r|
  {
    if r[0] != y {
      assert y in r[1..];
      SortedHeadLeast(r[1..], y);
      LeTransitive(r[0], r[1], y);
    } else {
      LeTotal(y, y);
    }
  }

  /** The text values of a column, in row order. */
  function TextsOf(vals: seq<Value>): (r: seq<string>)
    ensures forall x :: x in r <==> Text(x) in vals
    decreases |vals|
  {
    if vals == [] then []
    else (if vals[0].Text? then [vals[0].s] else []) + TextsOf(vals[1..])
  }

  /** The observed categories, lowest first. Numeric values are not read as
      categories. */
  function Categories(vals: seq<Value>): seq<string> {
    SortedUnique(TextsOf(vals))
  }

  /** The indicator of one category: 1 on the rows holding it, 0 elsewhere. */
  function Indicator(vals: seq<Value>, cat: string): seq<Value> {
    seq(|vals|, i requires 0 <= i < |vals| => if vals[i] == Text(cat) then Num(1.0) else Num(0.0))
  }

  /** The `dummy_na` indicator: 1 on the rows with no category. */
  function NaIndicator(vals: seq<Value>): seq<Value> {
    seq(|vals|, i requires 0 <= i < |vals| => if vals[i].Text? then Num(0.0) else Num(1.0))
  }

  /** The indicator columns of one encoded column. The levels are the sorted
      categories followed by a NaN level; drop_first removes the first level,
      so with no category at all the NaN level is the one removed. */
  function Dummies(name: string, vals: seq<Value>): seq<Column> {
    var cats := Categories(vals);
    if cats == [] then []
    else
      seq(|cats| - 1, k requires 0 <= k < |cats| - 1 =>
        Column(name + "_" + cats[k + 1], Indicator(vals, cats[k + 1])))
      + [Column(name + "_nan", NaIndicator(vals))]
  }

  /** Every indicator column is named `<name>_<suffix>`. */
  lemma DummiesPrefixed(name: string, vals: seq<Value>)
    ensures forall c :: c in Dummies(name, vals) ==>
      |c.name| > |name| && c.name[..|name| + 1] == name + "_"
  {
    var cats, D := Categories(vals), Dummies(name, vals);
    if cats != [] {
      forall i | 0 <= i < |D|
        ensures |D[i].name| > |name| && D[i].name[..|name| + 1] == name + "_"
      {
        if i == |D| - 1 {
          assert D[i].name == name + "_" + "nan";
          PrefixedName(name, "nan");
        } else {
          assert D[i].name == name + "_" + cats[i + 1];
          PrefixedName(name, cats[i + 1]);
        }
      }
      forall c | c in D
        ensures |c.name| > |name| && c.name[..|name| + 1] == name + "_"
      {
        var i :| 0 <= i < |D| && D[i] == c;
      }
    }
  }

  lemma PrefixedName(p: string, x: string)
    ensures |p + "_" + x| > |p| && (p + "_" + x)[..|p| + 1] == p + "_"
  {
  }

  /** The positions of the indicator columns: one per category after the
      first, then the NaN indicator. */
  lemma DummiesLayout(name: string, vals: seq<Value>)
    requires Categories(vals) != []
    ensures var cats, D := Categories(vals), Dummies(name, vals);
      && |D| == |cats|
      && D[|D| - 1] == Column(name + "_nan", NaIndicator(vals))
      && (forall k :: 1 <= k < |cats| ==> D[k - 1] == Column(name + "_" + cats[k], Indicator(vals, cats[k])))
  {
  }

  lemma DummiesEmpty(name: string, vals: seq<Value>)
    ensures Dummies(name, vals) == [] <==> forall i :: 0 <= i < |vals| ==> !vals[i].Text?
  {
    var texts := TextsOf(vals);
    SortedUniqueSpec(texts);
    var D := Dummies(name, vals);
    if Categories(vals) != [] {
      DummiesLayout(name, vals);
      assert texts != [];
      assert Text(texts[0]) in vals;
    } else {
      assert D == [];
    }
  }

  /** Drop-first with a missing-value indicator: with no category observed
      there are no columns; otherwise the lowest category gets no indicator,
      every other observed category gets `<name>_<category>`, and
      `<name>_nan` is emitted whether or not a value is missing. */
  lemma DropFirstWithNaIndicator(name: string, vals: seq<Value>)
    ensures var cats, D := Categories(vals), Dummies(name, vals);
      && (D == [] <==> forall i :: 0 <= i < |vals| ==> !vals[i].Text?)
      && (D != [] ==>
          && |D| == |cats|
          && Column(name + "_nan", NaIndicator(vals)) in D
          && (forall x :: Text(x) in vals ==> Le(cats[0], x))
          && (forall x :: Text(x) in vals && x != cats[0] ==>
                Column(name + "_" + x, Indicator(vals, x)) in D)
          && (cats[0] != "nan" ==> name + "_" + cats[0] !in Names(D)))
  {
    DummiesEmpty(name, vals);
    SortedUniqueSpec(TextsOf(vals));
    var cats, D := Categories(vals), Dummies(name, vals);
    if D != [] {
      DummiesLayout(name, vals);
      forall x | Text(x) in vals && x != cats[0]
        ensures Column(name + "_" + x, Indicator(vals, x)) in D
      {
        var j :| 0 <= j < |cats| && cats[j] == x;
        assert D[j - 1] == Column(name + "_" + cats[j], Indicator(vals, cats[j]));
      }
      if cats[0] != "nan" {
        FirstCategoryUnnamed(name, vals);
      }
    }
  }

  lemma FirstCategoryUnnamed(name: string, vals: seq<Value>)
    requires Categories(vals) != [] && Categories(vals)[0] != "nan"
    ensures name + "_" + Categories(vals)[0] !in Names(Dummies(name, vals))
  {
    var cats, D, p := Categories(vals), Dummies(name, vals), name + "_";
    assert StrictlySorted(cats) by {
      SortedUniqueSpec(TextsOf(vals));
    }
    assert |D| == |cats| && D[|D| - 1].name == p + "nan"
        && forall k :: 1 <= k < |cats| ==> D[k - 1].name == p + cats[k] by {
      DummiesLayout(name, vals);
      assert name + "_nan" == p + "nan";
    }
    FirstNameAbsent(p, cats, D);
  }

  /** Columns named `p` + each category after the first, then `p` + "nan",
      bear no name `p` + the first category. */
  lemma FirstNameAbsent(p: string, cats: seq<string>, D: seq<Column>)
    requires StrictlySorted(cats) && cats != [] && cats[0] != "nan"
    requires |D| == |cats| && D[|D| - 1].name == p + "nan"
    requires forall k :: 1 <= k < |cats| ==> D[k - 1].name == p + cats[k]
    ensures p + cats[0] !in Names(D)
  {
    forall j | 0 <= j < |D|
      ensures Names(D)[j] != p + cats[0]
    {
      if j < |D| - 1 {
        assert D[j].name == p + cats[j + 1];
        NotHeadAfterwards(cats, j + 1);
        PrefixCancel(p, cats[j + 1], cats[0]);
      } else {
        PrefixCancel(p, "nan", cats[0]);
      }
    }
  }

  /** Two texts with one prefix are equal only when what follows it is. */
  lemma PrefixCancel(p: string, x: string, y: string)
    ensures p + x == p + y <==> x == y
  {
    if p + x == p + y {
      assert (p + x)[|p|..] == x;
      assert (p + y)[|p|..] == y;
    }
  }

  lemma NotHeadAfterwards(cats: seq<string>, j: nat)
    requires StrictlySorted(cats) && 0 < j < |cats|
    ensures cats[j] != cats[0]
  {
    if cats[j] == cats[0] {
      assert cats[j] in cats[1..] by { assert cats[1..][j - 1] == cats[j]; }
      SortedHeadLeast(cats[1..], cats[j]);
      LeAntisymmetric(cats[0], cats[1]);
    }
  }

  /** The indicator columns of the present column `n`. */
  function DummiesOf(f: Frame, n: string): seq<Column>
    requires n in Names(f.columns)
  {
    Dummies(n, ValuesOf(f, n))
  }

  /** The dummies of every listed column, in the list's order. */
  function AllDummies(f: Frame, oneHot: seq<string>): seq<Column>
    requires forall n :: n in oneHot ==> n in Names(f.columns)
    decreases |oneHot|
  {
    if oneHot == [] then []
    else DummiesOf(f, oneHot[0]) + AllDummies(f, oneHot[1..])
  }

  /** create_dummies: the columns that are not encoded, in their order,
      followed by the indicator columns of each encoded column in turn; a
      KeyError when an encoded column is absent. */
  function CreateDummies(f: Frame, oneHot: seq<string>): Result<Frame> {
    if forall n :: n in oneHot ==> n in Names(f.columns) then
      Ok(Frame(f.height, Without(f.columns, oneHot) + AllDummies(f, oneHot)))
    else Err(KeyError(FirstAbsent(oneHot, Names(f.columns))))
  }

  /** Every indicator column comes from one listed column, and every listed
      column's indicators are all there. */
  lemma {:induction false} AllDummiesSpec(f: Frame, oneHot: seq<string>)
    requires forall n :: n in oneHot ==> n in Names(f.columns)
    ensures forall n, c :: n in oneHot && c in DummiesOf(f, n) ==> c in AllDummies(f, oneHot)
    ensures forall c :: c in AllDummies(f, oneHot) ==> exists n :: n in oneHot && c in DummiesOf(f, n)
    decreases |oneHot|
  {
    if oneHot != [] {
      AllDummiesSpec(f, oneHot[1..]);
      assert forall n :: n in oneHot ==> n == oneHot[0] || n in oneHot[1..];
    }
  }

  lemma DummiesHeight(name: string, vals: seq<Value>)
    ensures forall c :: c in Dummies(name, vals) ==> |c.values| == |vals|
  {
    var D := Dummies(name, vals);
    if Categories(vals) != [] {
      DummiesLayout(name, vals);
      forall j | 0 <= j < |D|
        ensures |D[j].values| == |vals|
      {
      }
    }
  }

  /** Every column that is not encoded passes through unchanged and in its
      order at the front, each encoded column's indicators all appear, and
      the row count is kept. */
  lemma CreateDummiesPassThrough(f: Frame, oneHot: seq<string>)
    requires CreateDummies(f, oneHot).Ok?
    ensures var r := CreateDummies(f, oneHot).value;
      var kept := Without(f.columns, oneHot);
      && r.height == f.height
      && r.columns[..|kept|] == kept
      && (forall c :: c in f.columns && c.name !in oneHot ==> c in r.columns)
      && (forall n, c :: n in oneHot && c in DummiesOf(f, n) ==> c in r.columns)
  {
    var r := CreateDummies(f, oneHot).value;
    var kept := Without(f.columns, oneHot);
    AllDummiesSpec(f, oneHot);
    WithoutMembers(f.columns, oneHot);
    assert r.columns[..|kept|] == kept;
  }

  /** When no encoded name contains '_', no column of an encoded name is
      left: the originals are gone and no indicator takes their names. */
  lemma CreateDummiesRemovesEncoded(f: Frame, oneHot: seq<string>)
    requires CreateDummies(f, oneHot).Ok?
    requires forall n :: n in oneHot ==> '_' !in n
    ensures forall c :: c in CreateDummies(f, oneHot).value.columns ==> c.name !in oneHot
  {
    var r := CreateDummies(f, oneHot).value;
    var kept, all := Without(f.columns, oneHot), AllDummies(f, oneHot);
    assert forall c :: c in all ==> exists n :: n in oneHot && c in DummiesOf(f, n) by {
      AllDummiesSpec(f, oneHot);
    }
    assert forall c :: c in kept ==> c.name !in oneHot by {
      WithoutMembers(f.columns, oneHot);
    }
    forall c | c in r.columns
      ensures c.name !in oneHot
    {
      assert c in kept || c in all;
      if c in all {
        var n :| n in oneHot && c in DummiesOf(f, n);
        assert '_' in c.name by {
          DummiesPrefixed(n, ValuesOf(f, n));
          UnderscoreAfterPrefix(c.name, n);
        }
      }
    }
  }

  lemma UnderscoreAfterPrefix(s: string, n: string)
    requires |s| > |n| && s[..|n| + 1] == n + "_"
    ensures '_' in s
  {
    assert s[|n|] == s[..|n| + 1][|n|];
  }

  lemma CreateDummiesWellFormed(f: Frame, oneHot: seq<string>)
    requires CreateDummies(f, oneHot).Ok? && WellFormed(f)
    ensures WellFormed(CreateDummies(f, oneHot).value)
  {
    var r := CreateDummies(f, oneHot).value;
    var kept := Without(f.columns, oneHot);
    var all := AllDummies(f, oneHot);
    AllDummiesSpec(f, oneHot);
    WithoutMembers(f.columns, oneHot);
    forall i | 0 <= i < |r.columns|
      ensures |r.columns[i].values| == r.height
    {
      if i < |kept| {
        assert r.columns[i] in f.columns;
      } else {
        assert r.columns[i] in all;
        var n :| n in oneHot && r.columns[i] in DummiesOf(f, n);
        DummiesHeight(n, ValuesOf(f, n));
      }
    }
  }

  // ---------------------------------------------------------------------
  // fill_missing_data: align with the model's feature schema
  // ---------------------------------------------------------------------

  /** The frame the loop of fill_missing_data leaves behind: each listed name
      still absent at its turn gets a zero column appended. */
  function ZeroFill(f: Frame, colList: seq<string>): Frame
    decreases |colList|
  {
    if colList == [] then f
    else
      var g := if colList[0] in Names(f.columns) then f
               else Frame(f.height, Assigned(f.columns, colList[0], Zeros(f.height)));
      ZeroFill(g, colList[1..])
  }

  /** `df[colList]`: the listed columns in the list's order. */
  function Project(f: Frame, colList: seq<string>): Frame
    requires forall n :: n in colList ==> n in Names(f.columns)
  {
    Frame(f.height, seq(|colList|, k requires 0 <= k < |colList| =>
      Column(colList[k], ValuesOf(f, colList[k]))))
  }

  /** The alignment fill_missing_data is meant to perform, stated on its
      own: one column per listed name, in the list's order, holding the
      input's values where it has that column and zeros where it does not. */
  function Align(f: Frame, colList: seq<string>): Frame {
    Frame(f.height, seq(|colList|, k requires 0 <= k < |colList| =>
      Column(colList[k], if colList[k] in Names(f.columns) then ValuesOf(f, colList[k]) else Zeros(f.height))))
  }

  /** What the loop does: every listed name is then present, every column
      the input had reads as before, every listed name the input lacked
      reads as zeros, and the row count stays. */
  lemma {:induction false} ZeroFillSpec(f: Frame, colList: seq<string>)
    ensures var g := ZeroFill(f, colList);
      && g.height == f.height
      && (forall n :: n in colList ==> n in Names(g.columns))
      && (forall n :: n in Names(f.columns) ==> n in Names(g.columns) && ValuesOf(g, n) == ValuesOf(f, n))
      && (forall n :: n in colList && n !in Names(f.columns) ==> ValuesOf(g, n) == Zeros(f.height))
      && (WellFormed(f) ==> WellFormed(g))
    decreases |colList|
  {
    if colList != [] {
      var n0 := colList[0];
      var g := if n0 in Names(f.columns) then f
               else Frame(f.height, Assigned(f.columns, n0, Zeros(f.height)));
      if n0 !in Names(f.columns) {
        AssignedLookup(f, n0, Zeros(f.height));
        assert WellFormed(f) ==> WellFormed(g) by {
          if WellFormed(f) {
            NamesConcat(f.columns, [Column(n0, Zeros(f.height))]);
          }
        }
      }
      ZeroFillSpec(g, colList[1..]);
      assert forall n :: n in colList ==> n == n0 || n in colList[1..];
    }
  }

  /** Projecting the zero-filled frame onto the list is the alignment. */
  lemma FillThenProjectIsAlign(f: Frame, colList: seq<string>)
    ensures forall n :: n in colList ==> n in Names(ZeroFill(f, colList).columns)
    ensures Project(ZeroFill(f, colList), colList) == Align(f, colList)
  {
    ZeroFillSpec(f, colList);
  }

  /** fill_missing_data: appends a zero column to its argument, in place, for
      every listed name it lacks, then returns the projection onto the list. */
  method FillMissingData(dummies: DataFrame, colList: seq<string>) returns (r: Frame)
    modifies dummies
    ensures dummies.Value() == ZeroFill(old(dummies.Value()), colList)
    ensures r == Align(old(dummies.Value()), colList)
  {
    var i := 0;
    while i < |colList|
      invariant 0 <= i <= |colList|
      invariant ZeroFill(dummies.Value(), colList[i..]) == ZeroFill(old(dummies.Value()), colList)
    {
      var feat := colList[i];
      if feat !in Names(dummies.columns) {
        dummies.Assign(feat, Zeros(dummies.height));
      }
      assert colList[i..][1..] == colList[i + 1..];
      i := i + 1;
    }
    FillThenProjectIsAlign(old(dummies.Value()), colList);
    r := Project(dummies.Value(), colList);
  }

  /** The aligned frame has exactly the listed columns, in order, and the
      input's row count; a listed name reads the input's values when the
      input has it and zeros otherwise; extra columns are gone. */
  lemma AlignSchema(f: Frame, colList: seq<string>)
    ensures var g := Align(f, colList);
      && Names(g.columns) == colList
      && g.height == f.height
      && (forall n :: n in colList ==>
            ValuesOf(g, n) == if n in Names(f.columns) then ValuesOf(f, n) else Zeros(f.height))
      && (WellFormed(f) ==> WellFormed(g))
  {
    var g := Align(f, colList);
    assert Names(g.columns) == colList;
    forall n | n in colList
      ensures ValuesOf(g, n) == if n in Names(f.columns) then ValuesOf(f, n) else Zeros(f.height)
    {
      var k := IndexOf(Names(g.columns), n);
      assert g.columns[k] == Column(n, if n in Names(f.columns) then ValuesOf(f, n) else Zeros(f.height));
    }
  }

  /** Aligning an aligned frame again changes nothing. */
  lemma AlignIdempotent(f: Frame, colList: seq<string>)
    ensures Align(Align(f, colList), colList) == Align(f, colList)
  {
    var g := Align(f, colList);
    AlignSchema(f, colList);
    assert forall k :: 0 <= k < |colList| ==> Align(g, colList).columns[k] == g.columns[k];
  }

  /** The loop adds each name at most once and never touches the columns
      already there, so running fill_missing_data on its own output gives
      the same result. */
  lemma FillMissingDataIdempotent(f: Frame, colList: seq<string>)
    ensures Align(ZeroFill(f, colList), colList) == Align(f, colList)
  {
    ZeroFillSpec(f, colList);
    var g := ZeroFill(f, colList);
    forall k | 0 <= k < |colList|
      ensures Align(g, colList).columns[k] == Align(f, colList).columns[k]
    {
    }
  }

  // ---------------------------------------------------------------------
  // feature_preprocessing: the whole transformation
  // ---------------------------------------------------------------------

  /** The encoded columns and the columns kept out of imputation: the
      defaults of feature_preprocessing, the only values the service uses. */
  const OneHotColumns: seq<string> := ["x5", "x31", "x81", "x82"]
  const NonImputedColumns: seq<string> := ["x5", "x31", "x81", "x82"]

  /** The categorical columns put back in front before encoding. */
  const CategoricalColumns: seq<string> := ["x5", "x31", "x81", "x82"]

  /** The model's 25 features, in the order it was trained on. */
  const SelectedFeatures: seq<string> := [
    "x5_saturday", "x81_July", "x81_December", "x31_japan", "x81_October",
    "x5_sunday", "x31_asia", "x81_February", "x91", "x81_May",
    "x5_monday", "x81_September", "x81_March", "x53", "x81_November",
    "x44", "x81_June", "x12", "x5_tuesday", "x81_August",
    "x81_January", "x62", "x31_germany", "x58", "x56"]

  /** `df[names]` with a KeyError for the first absent name. */
  function SelectColumns(f: Frame, names: seq<string>): Result<Frame> {
    if forall n :: n in names ==> n in Names(f.columns) then Ok(Project(f, names))
    else Err(KeyError(FirstAbsent(names, Names(f.columns))))
  }

  /** feature_preprocessing: cleanup, imputation and standardisation, the
      categorical columns put back in front, one-hot encoding, alignment. */
  function Preprocess(data: Frame, nx: Numerics): Result<Frame> {
    match Cleanup(data)
    case Err(e) => Err(e)
    case Ok(cleaned) =>
      match ImputationAndStandardization(cleaned, NonImputedColumns, nx)
      case Err(e) => Err(e)
      case Ok(imputed) =>
        match SelectColumns(cleaned, CategoricalColumns)
        case Err(e) => Err(e)
        case Ok(categorical) =>
          match CreateDummies(Concat(categorical, imputed), OneHotColumns)
          case Err(e) => Err(e)
          case Ok(dummies) => Ok(Align(dummies, SelectedFeatures))
  }

  /** feature_preprocessing works on a deep copy, so the caller's frame is
      never modified (the method has no modifies clause). */
  method FeaturePreprocessing(data: DataFrame, nx: Numerics) returns (r: Result<Frame>)
    ensures r == Preprocess(data.Value(), nx)
  {
    var copy := new DataFrame(data.Value());
    var cleanup := DataCleanup(copy);
    if cleanup.Fail? {
      return Err(cleanup.error);
    }
    var cleaned := copy.Value();
    var imputed := ImputationAndStandardization(cleaned, NonImputedColumns, nx);
    if imputed.Err? {
      return Err(imputed.error);
    }
    var categorical := SelectColumns(cleaned, CategoricalColumns);
    if categorical.Err? {
      return Err(categorical.error);
    }
    var dummies := CreateDummies(Concat(categorical.value, imputed.value), OneHotColumns);
    if dummies.Err? {
      return Err(dummies.error);
    }
    var aligned := FillFresh(dummies.value, SelectedFeatures);
    return Ok(aligned);
  }

  /** fill_missing_data run on a frame of its own, which nobody else sees. */
  method FillFresh(f: Frame, colList: seq<string>) returns (r: Frame)
    ensures r == Align(f, colList)
  {
    var encoded := new DataFrame(f);
    r := FillMissingData(encoded, colList);
  }

  /** A successful selection has exactly the asked-for columns, in order,
      with the frame's row count. */
  lemma SelectColumnsSchema(f: Frame, names: seq<string>)
    requires SelectColumns(f, names).Ok?
    ensures var r := SelectColumns(f, names).value;
      && Names(r.columns) == names
      && r.height == f.height
      && (forall n :: n in names ==> ValuesOf(r, n) == ValuesOf(f, n))
      && (WellFormed(f) ==> WellFormed(r))
  {
    var r := SelectColumns(f, names).value;
    assert Names(r.columns) == names;
    forall n | n in names
      ensures ValuesOf(r, n) == ValuesOf(f, n)
    {
      var k := IndexOf(names, n);
      assert r.columns[k] == Column(n, ValuesOf(f, n));
    }
    if WellFormed(f) {
      forall k | 0 <= k < |r.columns|
        ensures |r.columns[k].values| == r.height
      {
        ValuesOfWellFormed(f, names[k]);
      }
    }
  }

  /** The stages of a successful preprocessing, each one successful. */
  lemma PreprocessStages(data: Frame, nx: Numerics)
    requires Preprocess(data, nx).Ok?
    ensures Cleanup(data).Ok?
    ensures ImputationAndStandardization(Cleanup(data).value, NonImputedColumns, nx).Ok?
    ensures SelectColumns(Cleanup(data).value, CategoricalColumns).Ok?
    ensures var combined := Concat(SelectColumns(Cleanup(data).value, CategoricalColumns).value,
                                   ImputationAndStandardization(Cleanup(data).value, NonImputedColumns, nx).value);
      && CreateDummies(combined, OneHotColumns).Ok?
      && Preprocess(data, nx) == Ok(Align(CreateDummies(combined, OneHotColumns).value, SelectedFeatures))
  {
  }

  /** On success the output has exactly the 25 model features in schema
      order and one row per input row. */
  lemma PreprocessSchema(data: Frame, nx: Numerics)
    requires Preprocess(data, nx).Ok?
    ensures var r := Preprocess(data, nx).value;
      && Names(r.columns) == SelectedFeatures
      && |r.columns| == 25
      && r.height == data.height
      && (WellFormed(data) ==> WellFormed(r))
  {
    PreprocessStages(data, nx);
    var cleaned := Cleanup(data).value;
    CleanupFrame(data);
    var imputed := ImputationAndStandardization(cleaned, NonImputedColumns, nx).value;
    ImputationColumnOrder(cleaned, NonImputedColumns, nx);
    var categorical := SelectColumns(cleaned, CategoricalColumns).value;
    SelectColumnsSchema(cleaned, CategoricalColumns);
    var combined := Concat(categorical, imputed);
    var dummies := CreateDummies(combined, OneHotColumns).value;
    CreateDummiesPassThrough(combined, OneHotColumns);
    AlignSchema(dummies, SelectedFeatures);
    if WellFormed(data) {
      ConcatSameHeight(categorical, imputed);
      CreateDummiesWellFormed(combined, OneHotColumns);
    }
  }

  /** The service's gate does not check `x63`: a batch whose `x12` cleans
      but that has no `x63` column fails with KeyError('x63'). */
  lemma MissingX63Fails(data: Frame, nx: Numerics)
    requires CleanColumn(data, "x12", Currency).Ok?
    requires "x63" !in Names(data.columns)
    ensures Preprocess(data, nx) == Err(KeyError("x63"))
  {
    CleanColumnFrame(data, "x12", Currency);
  }

  /** Nor does it check `x82`: a batch that cleans, has the other three
      categorical columns and lacks `x82` fails with KeyError('x82'). */
  lemma MissingX82Fails(data: Frame, nx: Numerics)
    requires Cleanup(data).Ok?
    requires "x5" in Names(data.columns) && "x31" in Names(data.columns) && "x81" in Names(data.columns)
    requires "x82" !in Names(data.columns)
    ensures Preprocess(data, nx) == Err(KeyError("x82"))
  {
    var cleaned := Cleanup(data).value;
    var names := Names(cleaned.columns);
    assert names == Names(data.columns) by { CleanupFrame(data); }
    assert FirstAbsent(NonImputedColumns, names) == "x82" by { X82FirstAbsent(names); }
    assert ImputationAndStandardization(cleaned, NonImputedColumns, nx) == Err(KeyError("x82"));
  }

  lemma X82FirstAbsent(present: seq<string>)
    requires "x5" in present && "x31" in present && "x81" in present && "x82" !in present
    ensures FirstAbsent(NonImputedColumns, present) == "x82"
  {
    var w := NonImputedColumns;
    assert w[1..] == ["x31", "x81", "x82"] && w[1..][1..] == ["x81", "x82"] && w[1..][1..][1..] == ["x82"];
  }

  /** A column that is falsy throughout without being NaN throughout, such
      as an all-zero column, makes the batch fail: with the width mismatch
      when the batch has rows and no column left for imputation holds text,
      else with one of the imputer's ValueErrors. */
  lemma FalsyColumnFails(data: Frame, nx: Numerics, c: Column)
    requires Cleanup(data).Ok?
    requires forall n :: n in NonImputedColumns ==> n in Names(data.columns)
    requires c in Cleanup(data).value.columns && c.name !in NonImputedColumns
    requires !AnyTruthy(c.values) && !AllMissing(c.values)
    ensures Preprocess(data, nx).Err?
    ensures Preprocess(data, nx).error.ShapeMismatch? || Preprocess(data, nx).error in {NonNumeric, EmptyInput}
    ensures (data.height > 0 &&
             forall d :: d in Cleanup(data).value.columns && d.name !in NonImputedColumns ==> !HasText(d.values)) ==>
      Preprocess(data, nx).error.ShapeMismatch?
  {
    var cleaned := Cleanup(data).value;
    assert Names(cleaned.columns) == Names(data.columns) by { CleanupFrame(data); }
    assert Drop(cleaned, NonImputedColumns).Ok?;
    var d := Drop(cleaned, NonImputedColumns).value;
    assert forall e :: e in d.columns <==> e in cleaned.columns && e.name !in NonImputedColumns by {
      WithoutMembers(cleaned.columns, NonImputedColumns);
    }
    var r := ImputationAndStandardization(cleaned, NonImputedColumns, nx);
    assert d.height == data.height by { CleanupFrame(data); }
    assert r.Err? && (r.error.ShapeMismatch? || r.error in {NonNumeric, EmptyInput})
      && (!HoldsText(d.columns) && d.height > 0 ==> r.error.ShapeMismatch?) by {
      assert c in d.columns;
      ShapeMismatchExactly(cleaned, NonImputedColumns, nx);
    }
    assert Preprocess(data, nx) == r;
  }
}
