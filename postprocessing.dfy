/** Scoring and postprocessing: the model's probabilities as a `phat`
    column, the business label that thresholds them, and the response frame
    that puts the caller's columns, sorted by name, in front of both. */
module PredictionsAndPostprocessing {
  import opened Frames
  import opened Strings

  /** The fitted model's `predict`: one probability per row of the frame it
      is given. It stays abstract. */
  type Model = Frame -> seq<real>

  /** The cut-off the business partners chose; it counts as an event. */
  const Cutoff: real := 0.75

  /** predictions: the model's output as a frame with one column, `phat`. */
  function Predictions(model: Model, processed: Frame): (r: Frame)
    ensures Names(r.columns) == ["phat"]
    ensures r.height == |model(processed)| && WellFormed(r)
    ensures forall i :: 0 <= i < r.height ==> ValuesOf(r, "phat")[i] == Num(model(processed)[i])
  {
    var p := model(processed);
    Frame(|p|, [Column("phat", seq(|p|, i requires 0 <= i < |p| => Num(p[i])))])
  }

  // ---------------------------------------------------------------------
  // The two .loc assignments
  // ---------------------------------------------------------------------

  /** The rows where `phat` compares with the cut-off as `event` asks: at or
      above it for an event, below it otherwise. NaN compares false both ways. */
  function Mask(f: Frame, event: bool): seq<bool>
    requires "phat" in Names(f.columns)
  {
    var p := ValuesOf(f, "phat");
    seq(f.height, i requires 0 <= i < f.height =>
      i < |p| && p[i].Num? && (if event then p[i].r >= Cutoff else p[i].r < Cutoff))
  }

  /** The column `df.loc[mask, name] = v` leaves: the masked rows take
      `v`, the others keep what `name` held, or NaN when it is new. */
  function LocValues(f: Frame, mask: seq<bool>, name: string, v: Value): seq<Value>
    requires |mask| == f.height
  {
    var before := if name in Names(f.columns) then ValuesOf(f, name) else [];
    seq(f.height, i requires 0 <= i < f.height =>
      if mask[i] then v else if i < |before| then before[i] else Missing)
  }

  /** `df.loc[mask, name] = v` as a whole-frame update. */
  function LocSet(f: Frame, mask: seq<bool>, name: string, v: Value): Frame
    requires |mask| == f.height
  {
    Frame(f.height, Assigned(f.columns, name, LocValues(f, mask, name, v)))
  }

  /** The predictions frame after lines 27 and 28 of postprocessing. */
  function Labelled(f: Frame): Frame
    requires "phat" in Names(f.columns)
  {
    var g := LocSet(f, Mask(f, true), "business_outcome", Text("Event"));
    AssignedLookup(f, "business_outcome", LocValues(f, Mask(f, true), "business_outcome", Text("Event")));
    LocSet(g, Mask(g, false), "business_outcome", Text("Non-Event"))
  }

  /** The label the two assignments leave in one row, given the row's `phat`
      and what `business_outcome` held before. */
  function Label(phat: Value, before: Value): Value {
    if phat.Num? && phat.r >= Cutoff then Text("Event")
    else if phat.Num? then Text("Non-Event")
    else before
  }

  /** Labelling leaves `phat` and every other column as it was, keeps the
      row count, and gives each row `Label` of its own `phat`: "Event" at or
      above 0.75, "Non-Event" below, and no label change where `phat` is NaN. */
  lemma LabelledSpec(f: Frame)
    requires WellFormed(f) && "phat" in Names(f.columns)
    ensures var g := Labelled(f);
      && g.height == f.height
      && WellFormed(g)
      && "business_outcome" in Names(g.columns)
      && (forall n :: n in Names(f.columns) && n != "business_outcome" ==> n in Names(g.columns) && ValuesOf(g, n) == ValuesOf(f, n))
      && Names(g.columns) == (if "business_outcome" in Names(f.columns) then Names(f.columns) else Names(f.columns) + ["business_outcome"])
      && (forall i :: 0 <= i < f.height ==>
            ValuesOf(g, "business_outcome")[i] ==
              Label(ValuesOf(f, "phat")[i],
                    if "business_outcome" in Names(f.columns) then ValuesOf(f, "business_outcome")[i] else Missing))
  {
    var bo := "business_outcome";
    var m1 := Mask(f, true);
    var g1 := LocSet(f, m1, bo, Text("Event"));
    LocSetSpec(f, m1, bo, Text("Event"));
    assert |ValuesOf(f, "phat")| == f.height by { ValuesOfWellFormed(f, "phat"); }
    assert ValuesOf(g1, "phat") == ValuesOf(f, "phat");
    var m2 := Mask(g1, false);
    var g := LocSet(g1, m2, bo, Text("Non-Event"));
    assert Labelled(f) == g;
    LocSetSpec(g1, m2, bo, Text("Non-Event"));
    forall i | 0 <= i < f.height
      ensures ValuesOf(g, bo)[i] ==
        Label(ValuesOf(f, "phat")[i], if bo in Names(f.columns) then ValuesOf(f, bo)[i] else Missing)
    {
      assert ValuesOf(g, bo)[i] == if m2[i] then Text("Non-Event") else ValuesOf(g1, bo)[i];
      assert ValuesOf(g1, bo)[i] == if m1[i] then Text("Event")
        else if bo in Names(f.columns) then ValuesOf(f, bo)[i] else Missing;
    }
  }

  /** One `df.loc[mask, name] = v`: `name` reads the masked update of what
      it held, every other column stays, and the frame stays well formed. */
  lemma LocSetSpec(f: Frame, mask: seq<bool>, name: string, v: Value)
    requires WellFormed(f) && |mask| == f.height
    ensures var g := LocSet(f, mask, name, v);
      && g.height == f.height
      && WellFormed(g)
      && name in Names(g.columns)
      && (forall n :: n in Names(f.columns) && n != name ==> n in Names(g.columns) && ValuesOf(g, n) == ValuesOf(f, n))
      && Names(g.columns) == (if name in Names(f.columns) then Names(f.columns) else Names(f.columns) + [name])
      && |ValuesOf(g, name)| == f.height
      && (forall i :: 0 <= i < f.height ==>
            ValuesOf(g, name)[i] ==
              if mask[i] then v else if name in Names(f.columns) then ValuesOf(f, name)[i] else Missing)
  {
    var vals := LocValues(f, mask, name, v);
    AssignedLookup(f, name, vals);
    if name in Names(f.columns) {
      ValuesOfWellFormed(f, name);
    } else {
      NamesConcat(f.columns, [Column(name, vals)]);
    }
  }

  /** Every row of a predictions frame gets a label, and it is "Event"
      exactly when the predicted probability is at least 0.75. */
  lemma ThresholdLaw(model: Model, processed: Frame)
    ensures var g := Labelled(Predictions(model, processed));
      && "business_outcome" in Names(g.columns)
      && forall i :: 0 <= i < |model(processed)| ==>
           ValuesOf(g, "business_outcome")[i] == if model(processed)[i] >= 0.75 then Text("Event") else Text("Non-Event")
  {
    LabelledSpec(Predictions(model, processed));
  }

  // ---------------------------------------------------------------------
  // sort_index(axis=1): the caller's columns in name order
  // ---------------------------------------------------------------------

  /** The columns are in ascending name order. */
  predicate NamesSorted(s: seq<Column>) {
    forall i, j :: 0 <= i < j < |s| ==> Le(s[i].name, s[j].name)
  }

  /** `c` put in front of the first column whose name is not below its own. */
  function InsertByName(c: Column, s: seq<Column>): seq<Column>
    decreases |s|
  {
    if s == [] then [c]
    else if Le(c.name, s[0].name) then [c] + s
    else [s[0]] + InsertByName(c, s[1..])
  }

  /** A stable sort of the columns by name. */
  function SortByName(s: seq<Column>): seq<Column>
    decreases |s|
  {
    if s == [] then [] else InsertByName(s[0], SortByName(s[1..]))
  }

  /** Insertion adds `c` and loses nothing. */
  lemma {:induction false} InsertByNamePermutes(c: Column, s: seq<Column>)
    ensures multiset(InsertByName(c, s)) == multiset{c} + multiset(s)
    decreases |s|
  {
    if s != [] && !Le(c.name, s[0].name) {
      InsertByNamePermutes(c, s[1..]);
      assert s == [s[0]] + s[1..];
    }
  }

  /** Insertion into a name-sorted list keeps it sorted. */
  lemma {:induction false} InsertByNameSorted(c: Column, s: seq<Column>)
    requires NamesSorted(s)
    ensures NamesSorted(InsertByName(c, s))
    decreases |s|
  {
    if s == [] {
    } else if Le(c.name, s[0].name) {
      assert forall j :: 0 <= j < |s| ==> Le(c.name, s[j].name) by {
        forall j | 0 <= j < |s|
          ensures Le(c.name, s[j].name)
        {
          if j > 0 {
            LeTransitive(c.name, s[0].name, s[j].name);
          }
        }
      }
      SortedCons(c, s);
    } else {
      var t := InsertByName(c, s[1..]);
      assert NamesSorted(s[1..]);
      InsertByNameSorted(c, s[1..]);
      assert forall j :: 0 <= j < |t| ==> Le(s[0].name, t[j].name) by {
        LeTotal(c.name, s[0].name);
        InsertByNamePermutes(c, s[1..]);
        forall j | 0 <= j < |t|
          ensures Le(s[0].name, t[j].name)
        {
          assert t[j] in multiset{c} + multiset(s[1..]) by {
            assert t[j] in multiset(t);
          }
        }
      }
      SortedCons(s[0], t);
    }
  }

  /** A column no greater by name than any of a sorted list can go in front. */
  lemma SortedCons(c: Column, s: seq<Column>)
    requires NamesSorted(s)
    requires forall j :: 0 <= j < |s| ==> Le(c.name, s[j].name)
    ensures NamesSorted([c] + s)
  {
    var r := [c] + s;
    forall i, j | 0 <= i < j < |r|
      ensures Le(r[i].name, r[j].name)
    {
      if i > 0 {
        assert r[i] == s[i - 1] && r[j] == s[j - 1];
      } else {
        assert r[j] == s[j - 1];
      }
    }
  }

  /** The sorted columns are in name order and are the same columns, each
      as often as before. */
  lemma {:induction false} SortByNameSpec(s: seq<Column>)
    ensures NamesSorted(SortByName(s))
    ensures multiset(SortByName(s)) == multiset(s)
    decreases |s|
  {
    if s != [] {
      var t := SortByName(s[1..]);
      assert NamesSorted(t) && multiset(t) == multiset(s[1..]) by {
        SortByNameSpec(s[1..]);
      }
      assert SortByName(s) == InsertByName(s[0], t);
      assert NamesSorted(InsertByName(s[0], t)) by {
        InsertByNameSorted(s[0], t);
      }
      assert multiset(InsertByName(s[0], t)) == multiset{s[0]} + multiset(t) by {
        InsertByNamePermutes(s[0], t);
      }
      assert s == [s[0]] + s[1..];
    }
  }

  /** Sorting keeps the set of column names. */
  lemma SortKeepsNames(s: seq<Column>)
    ensures forall n :: n in Names(SortByName(s)) <==> n in Names(s)
    ensures |SortByName(s)| == |s|
  {
    SortByNameSpec(s);
    var t := SortByName(s);
    assert |t| == |multiset(t)| == |multiset(s)| == |s|;
    forall n
      ensures n in Names(t) <==> n in Names(s)
    {
      if n in Names(t) {
        var i :| 0 <= i < |t| && Names(t)[i] == n;
        assert t[i] in multiset(s);
        NamesMember(s, t[i]);
      }
      if n in Names(s) {
        var i :| 0 <= i < |s| && Names(s)[i] == n;
        assert s[i] in multiset(t);
        NamesMember(t, s[i]);
      }
    }
  }

  // ---------------------------------------------------------------------
  // postprocessing and postprocessed_predictions
  // ---------------------------------------------------------------------

  /** The frame postprocessing returns: the caller's columns in name order,
      then the labelled predictions, joined on the row index. */
  function Postprocess(orig: Frame, results: Frame): Result<Frame> {
    if "phat" !in Names(results.columns) then Err(KeyError("phat"))
    else Ok(Concat(Frame(orig.height, SortByName(orig.columns)), Labelled(results)))
  }

  /** postprocessing: labels the predictions frame in place, sorts the
      caller's columns in place, and returns their concatenation. A frame
      without `phat` raises KeyError before anything changes. */
  method Postprocessing(orig: DataFrame, results: DataFrame) returns (r: Result<Frame>)
    requires orig != results
    modifies orig, results
    ensures r == Postprocess(old(orig.Value()), old(results.Value()))
    ensures r.Ok? ==> orig.Value() == Frame(old(orig.height), SortByName(old(orig.columns)))
    ensures r.Ok? ==> results.Value() == Labelled(old(results.Value()))
    ensures r.Err? ==> orig.Value() == old(orig.Value()) && results.Value() == old(results.Value())
  {
    if "phat" !in Names(results.columns) {
      return Err(KeyError("phat"));
    }
    var before := results.Value();
    results.Assign("business_outcome", LocValues(before, Mask(before, true), "business_outcome", Text("Event")));
    AssignedLookup(before, "business_outcome", LocValues(before, Mask(before, true), "business_outcome", Text("Event")));
    var events := results.Value();
    results.Assign("business_outcome", LocValues(events, Mask(events, false), "business_outcome", Text("Non-Event")));
    orig.columns := SortByName(orig.columns);
    r := Ok(Concat(orig.Value(), results.Value()));
  }

  /** The response postprocessed_predictions produces. */
  function PostprocessedPredictionsOf(model: Model, orig: Frame, processed: Frame): Result<Frame> {
    Postprocess(orig, Predictions(model, processed))
  }

  /** postprocessed_predictions: predict, then postprocess; the caller's
      frame ends up sorted by column name. */
  method PostprocessedPredictions(model: Model, orig: DataFrame, processed: Frame) returns (r: Frame)
    modifies orig
    ensures Ok(r) == PostprocessedPredictionsOf(model, old(orig.Value()), processed)
    ensures orig.Value() == Frame(old(orig.height), SortByName(old(orig.columns)))
  {
    var pred := new DataFrame(Predictions(model, processed));
    var res := Postprocessing(orig, pred);
    r := res.value;
  }

  /** For a model that scores every row: the response holds the caller's
      columns sorted by name, with the same names and values, then `phat`
      and `business_outcome`, one row per input row. */
  lemma PostprocessColumns(model: Model, orig: Frame, processed: Frame)
    requires WellFormed(orig)
    requires |model(processed)| == orig.height
    ensures var res := PostprocessedPredictionsOf(model, orig, processed);
      && res.Ok?
      && var out := res.value;
      && var sorted := SortByName(orig.columns);
      && out == Frame(orig.height, sorted + Labelled(Predictions(model, processed)).columns)
      && Names(out.columns) == Names(sorted) + ["phat", "business_outcome"]
      && NamesSorted(sorted)
      && multiset(sorted) == multiset(orig.columns)
      && (forall n :: n in Names(sorted) <==> n in Names(orig.columns))
      && WellFormed(out)
  {
    var p := Predictions(model, processed);
    var sorted := SortByName(orig.columns);
    assert NamesSorted(sorted) && multiset(sorted) == multiset(orig.columns) by {
      SortByNameSpec(orig.columns);
    }
    assert forall n :: n in Names(sorted) <==> n in Names(orig.columns) by {
      SortKeepsNames(orig.columns);
    }
    var g := Labelled(p);
    assert g.height == orig.height && WellFormed(g) && Names(g.columns) == ["phat", "business_outcome"] by {
      LabelledSpec(p);
    }
    var a := Frame(orig.height, sorted);
    assert WellFormed(a) by {
      forall i | 0 <= i < |sorted|
        ensures |sorted[i].values| == orig.height
      {
        assert sorted[i] in multiset(orig.columns);
      }
    }
    assert Concat(a, g) == Frame(orig.height, sorted + g.columns) && WellFormed(Concat(a, g)) by {
      ConcatSameHeight(a, g);
    }
    NamesConcat(sorted, g.columns);
  }
}
