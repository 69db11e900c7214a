/** The `/predict` endpoint: the decision logic that checks a request and
    either rejects it with status 415 or runs the scoring pipeline on it. */
module App {
  import opened Frames
  import opened Strings
  import opened Decimal
  import opened FeatureEngineering
  import opened PredictionsAndPostprocessing

  /** The columns a request must carry, in declaration order. */
  const RequiredColumns: seq<string> := ["x5", "x81", "x31", "x91", "x53", "x44", "x12", "x62", "x58", "x56"]

  const InvalidDataPrefix: string := "Invalid data, input data should contain the following columns "

  /** The description of the rejection for a batch that lacks a required column. */
  const InvalidDataMessage: string := InvalidDataPrefix + "[" + Join(RequiredColumns, ',') + "]"

  /** A POST: its Content-Type is not JSON, or its JSON records already
      read into a frame. */
  datatype Request = NonJson | Json(records: Frame)

  /** What the endpoint answers: the postprocessed frame (serialised to JSON
      records by the framework), an abort with a status and a description, or
      an exception escaping the pipeline (an internal server error). */
  datatype Response = Success(body: Frame) | Abort(status: nat, description: string) | ServerError(error: Error)

  /** The gate: every required column is among the batch's columns. Other
      columns may be present too. */
  predicate Admits(f: Frame) {
    forall n :: n in RequiredColumns ==> n in Names(f.columns)
  }

  /** return_predictions, with the fitted model and the numeric transforms
      as parameters. */
  function ReturnPredictions(req: Request, model: Model, nx: Numerics): Response {
    match req
    case NonJson => Abort(415, "Not Valid JSON")
    case Json(orig) =>
      if Admits(orig) then
        match Preprocess(orig, nx)
        case Err(e) => ServerError(e)
        case Ok(processed) =>
          match PostprocessedPredictionsOf(model, orig, processed)
          case Err(e) => ServerError(e)
          case Ok(out) => Success(out)
      else Abort(415, InvalidDataMessage)
  }

  /** A request whose Content-Type is not JSON is refused with 415 "Not Valid JSON". */
  lemma NonJsonRejected(model: Model, nx: Numerics)
    ensures ReturnPredictions(NonJson, model, nx) == Abort(415, "Not Valid JSON")
  {
  }

  /** A batch missing any required column is refused with 415 and the
      message listing the required columns, before any processing. */
  lemma MissingColumnRejected(f: Frame, missing: string, model: Model, nx: Numerics)
    requires missing in RequiredColumns && missing !in Names(f.columns)
    ensures ReturnPredictions(Json(f), model, nx) == Abort(415, InvalidDataMessage)
  {
  }

  /** Removing one required column from an admitted batch gets it refused. */
  lemma DroppingRequiredColumnRejected(f: Frame, n: string, model: Model, nx: Numerics)
    requires Admits(f) && n in RequiredColumns
    ensures ReturnPredictions(Json(Frame(f.height, Without(f.columns, [n]))), model, nx) == Abort(415, InvalidDataMessage)
  {
    var g := Frame(f.height, Without(f.columns, [n]));
    WithoutMembers(f.columns, [n]);
    forall i | 0 <= i < |g.columns|
      ensures Names(g.columns)[i] != n
    {
      assert g.columns[i] in g.columns;
    }
  }

  /** The gate is a subset test: adding columns to an admitted batch keeps
      it admitted, and the verdict depends on nothing but the column names. */
  lemma ExtraColumnsAccepted(f: Frame, extra: seq<Column>, model: Model, nx: Numerics)
    requires Admits(f)
    ensures Admits(Frame(f.height, f.columns + extra))
    ensures !ReturnPredictions(Json(Frame(f.height, f.columns + extra)), model, nx).Abort?
  {
    NamesConcat(f.columns, extra);
  }

  /** The message reads the prefix, then the ten required names separated by
      commas, in declaration order, inside square brackets. */
  lemma InvalidDataMessageLists()
    ensures |InvalidDataMessage| > |InvalidDataPrefix| + 1
    ensures InvalidDataMessage[..|InvalidDataPrefix|] == InvalidDataPrefix
    ensures InvalidDataMessage[|InvalidDataPrefix|] == '['
    ensures InvalidDataMessage[|InvalidDataMessage| - 1] == ']'
    ensures Split(InvalidDataMessage[|InvalidDataPrefix| + 1..|InvalidDataMessage| - 1], ',') == RequiredColumns
  {
    var body := Join(RequiredColumns, ',');
    Bracketed(InvalidDataPrefix, body);
    assert forall i :: 0 <= i < |RequiredColumns| ==> ',' !in RequiredColumns[i] by {
      RequiredNamesPlain();
    }
    SplitJoin(RequiredColumns, ',');
  }

  /** No required name holds a comma or a bracket. */
  lemma RequiredNamesPlain()
    ensures forall i :: 0 <= i < |RequiredColumns| ==>
      ',' !in RequiredColumns[i] && '[' !in RequiredColumns[i] && ']' !in RequiredColumns[i]
  {
    forall i | 0 <= i < |RequiredColumns|
      ensures ',' !in RequiredColumns[i] && '[' !in RequiredColumns[i] && ']' !in RequiredColumns[i]
    {
      var n := RequiredColumns[i];
      assert |n| == 2 || |n| == 3;
      assert forall j :: 0 <= j < |n| ==> n[j] == 'x' || '0' <= n[j] <= '9';
    }
  }

  /** Where the pieces of `p[body]` sit. */
  lemma Bracketed(p: string, body: string)
    ensures var m := p + "[" + body + "]";
      && |m| == |p| + |body| + 2
      && m[..|p|] == p
      && m[|p|] == '['
      && m[|m| - 1] == ']'
      && m[|p| + 1..|m| - 1] == body
  {
  }

  /** An admitted batch that preprocesses is answered with the postprocessed
      predictions of its preprocessed form and nothing else; for a model that
      scores every row of the processed batch, that answer always exists. */
  lemma SuccessIsPostprocessedPredictions(f: Frame, model: Model, nx: Numerics)
    requires WellFormed(f) && Admits(f) && Preprocess(f, nx).Ok?
    requires |model(Preprocess(f, nx).value)| == f.height
    ensures ReturnPredictions(Json(f), model, nx) == Success(PostprocessedPredictionsOf(model, f, Preprocess(f, nx).value).value)
    ensures var out := ReturnPredictions(Json(f), model, nx).body;
      Names(out.columns) == Names(SortByName(f.columns)) + ["phat", "business_outcome"]
  {
    PostprocessColumns(model, f, Preprocess(f, nx).value);
  }

  /** Any admitted batch without `x63` whose `x12` cleans is answered with
      the KeyError('x63') escaping the pipeline, not with a 415. */
  lemma AdmittedWithoutX63Fails(f: Frame, model: Model, nx: Numerics)
    requires Admits(f) && "x63" !in Names(f.columns)
    requires CleanColumn(f, "x12", Currency).Ok?
    ensures ReturnPredictions(Json(f), model, nx) == ServerError(KeyError("x63"))
  {
    MissingX63Fails(f, nx);
  }

  /** An admitted batch whose `x12` holds no text at all is answered with
      the `.str` accessor's error from cleanup, not with a 415. */
  lemma AdmittedWithoutTextX12Fails(f: Frame, model: Model, nx: Numerics)
    requires Admits(f) && "x12" in Names(f.columns) && !HasText(ValuesOf(f, "x12"))
    ensures ReturnPredictions(Json(f), model, nx) == ServerError(NotText("x12"))
  {
  }

  /** A one-row batch holding the ten required columns: `x12` holds the
      amount "$1" (a text, as the dollar sign keeps it one), every other
      cell is NaN. */
  const GateOnlyBatch: Frame :=
    Frame(1, seq(10, k requires 0 <= k < 10 => Column(RequiredColumns[k], if k == 6 then [Text("$1")] else [Missing])))

  /** Passing the gate does not mean the pipeline can run: the gate never
      asks for `x63`, which cleanup needs, so a batch holding exactly the
      required columns passes it and then fails with KeyError('x63'). */
  lemma GateDoesNotImplySuccess(model: Model, nx: Numerics)
    ensures Admits(GateOnlyBatch)
    ensures ReturnPredictions(Json(GateOnlyBatch), model, nx) == ServerError(KeyError("x63"))
  {
    GateOnlyBatchPasses();
    AdmittedWithoutX63Fails(GateOnlyBatch, model, nx);
  }

  /** The batch passes the gate, lacks `x63`, and its `x12` cleans. */
  lemma GateOnlyBatchPasses()
    ensures Admits(GateOnlyBatch) && "x63" !in Names(GateOnlyBatch.columns)
    ensures CleanColumn(GateOnlyBatch, "x12", Currency).Ok?
  {
    var f := GateOnlyBatch;
    assert Names(f.columns) == RequiredColumns by { GateOnlyBatchNames(); }
    assert Admits(f) && "x63" !in Names(f.columns) by { X63NotRequired(); }
    assert CleanColumn(f, "x12", Currency).Ok? by {
      assert ValuesOf(f, "x12") == [Text("$1")] by { X12Position(); }
      assert HasText([Text("$1")]) by { assert [Text("$1")][0].Text?; }
      assert ParseColumn([Text("$1")], Currency).Ok? by { OneCleans(); }
    }
  }

  /** The amount "$1" cleans to the number 1. */
  lemma OneCleans()
    ensures ParseColumn([Text("$1")], Currency) == Ok([Num(1.0)])
  {
    assert CurrencyText("$1") == "1" by {
      assert "$1" == ['$'] + ['1'];
      CurrencyTextConcat(['$'], ['1']);
      CurrencyTextChar('$');
      CurrencyTextChar('1');
    }
    assert "1"[..0] == [] && DigitsValue("1") == 1;
    DigitsParse("1");
    assert CleanedValue(Text("$1"), Currency) == Ok(Num(1.0));
    var r := ParseColumn([Text("$1")], Currency);
    assert r.Ok? && |r.value| == 1 && r.value[0] == Num(1.0);
    assert r.value == [Num(1.0)];
  }

  lemma GateOnlyBatchNames()
    ensures Names(GateOnlyBatch.columns) == RequiredColumns
  {
  }

  lemma X63NotRequired()
    ensures "x63" !in RequiredColumns
  {
    forall i | 0 <= i < |RequiredColumns|
      ensures RequiredColumns[i] != "x63"
    {
    }
  }

  lemma X12Position()
    ensures "x12" in RequiredColumns && IndexOf(RequiredColumns, "x12") == 6
  {
    forall j | 0 <= j < 6
      ensures RequiredColumns[j] != "x12"
    {
      assert |RequiredColumns[j]| == 2 || RequiredColumns[j][1..] != "12";
    }
    FirstIndexOf(RequiredColumns, "x12", 6);
  }
}
