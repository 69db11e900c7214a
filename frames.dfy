/** The data-frame model every stage works on: an ordered sequence of named
    columns, each one value per row. Column names may repeat, as in pandas;
    looking a name up finds its first column. */
module Frames {

  /** One cell: NaN/None, a number, or a text. */
  datatype Value = Missing | Num(r: real) | Text(s: string)

  /** The truth value `DataFrame.any()` gives a cell: NaN is skipped, zero
      and the empty text are false. */
  predicate Truthy(v: Value) {
    match v
    case Missing => false
    case Num(r) => r != 0.0
    case Text(s) => s != ""
  }

  datatype Column = Column(name: string, values: seq<Value>)

  datatype Frame = Frame(height: nat, columns: seq<Column>)

  /** The exceptions the pipeline can raise. */
  datatype Error =
    | KeyError(key: string)      // a column the code indexes is absent
    | ParseError(text: string)   // `astype(float)` rejects a rewritten text
    | ShapeMismatch(given: nat, labels: nat)  // imputer output and column labels differ in width
    | NotText(column: string)    // `.str` on a column without strings (AttributeError)
    | NonNumeric                 // the mean imputer meets a text cell (ValueError)
    | EmptyInput                 // the imputer is given no row or no column (ValueError)

  datatype Result<T> = Ok(value: T) | Err(error: Error)

  datatype Outcome = Pass | Fail(error: Error)

  /** Some cell is a text. */
  predicate HasText(vals: seq<Value>) {
    exists i :: 0 <= i < |vals| && vals[i].Text?
  }

  /** Some column holds a text cell. */
  predicate HoldsText(cols: seq<Column>) {
    exists c :: c in cols && HasText(c.values)
  }

  /** Every column has one value per row. */
  predicate WellFormed(f: Frame) {
    forall i :: 0 <= i < |f.columns| ==> |f.columns[i].values| == f.height
  }

  function Names(cols: seq<Column>): seq<string> {
    seq(|cols|, i requires 0 <= i < |cols| => cols[i].name)
  }

  lemma NamesConcat(a: seq<Column>, b: seq<Column>)
    ensures Names(a + b) == Names(a) + Names(b)
  {
  }

  lemma NamesMember(cols: seq<Column>, c: Column)
    requires c in cols
    ensures c.name in Names(cols)
  {
    var i :| 0 <= i < |cols| && cols[i] == c;
    assert Names(cols)[i] == c.name;
  }

  /** Position of the first occurrence of `n`. */
  function IndexOf(names: seq<string>, n: string): (k: nat)
    requires n in names
    ensures k < |names| && names[k] == n
    ensures forall j :: 0 <= j < k ==> names[j] != n
    decreases |names|
  {
    if names[0] == n then 0 else 1 + IndexOf(names[1..], n)
  }

  /** `df[n]` for a present column: the values of its first column. */
  function ValuesOf(f: Frame, n: string): seq<Value>
    requires n in Names(f.columns)
  {
    f.columns[IndexOf(Names(f.columns), n)].values
  }

  lemma ValuesOfWellFormed(f: Frame, n: string)
    requires WellFormed(f) && n in Names(f.columns)
    ensures |ValuesOf(f, n)| == f.height
  {
  }

  /** A column of zeros, as `df[name] = 0` broadcasts it. */
  function Zeros(h: nat): (r: seq<Value>)
    ensures |r| == h && forall i :: 0 <= i < h ==> r[i] == Num(0.0)
  {
    seq(h, i => Num(0.0))
  }

  /** The columns after `df[name] = vals`: every column of that name is
      overwritten in place, or a new column is appended when none exists. */
  function Assigned(cols: seq<Column>, name: string, vals: seq<Value>): seq<Column> {
    if name in Names(cols) then
      seq(|cols|, i requires 0 <= i < |cols| =>
        if cols[i].name == name then Column(name, vals) else cols[i])
    else cols + [Column(name, vals)]
  }

  /** After `df[name] = vals`, `df[name]` reads `vals`, every other name reads
      what it read before, and the column names are the old ones with `name`
      appended when it was new. */
  lemma AssignedLookup(f: Frame, name: string, vals: seq<Value>)
    ensures var g := Frame(f.height, Assigned(f.columns, name, vals));
      && name in Names(g.columns)
      && ValuesOf(g, name) == vals
      && (forall n :: n in Names(f.columns) && n != name ==> n in Names(g.columns) && ValuesOf(g, n) == ValuesOf(f, n))
      && Names(g.columns) == (if name in Names(f.columns) then Names(f.columns) else Names(f.columns) + [name])
  {
    var g := Frame(f.height, Assigned(f.columns, name, vals));
    if name in Names(f.columns) {
      assert Names(g.columns) == Names(f.columns);
      var k := IndexOf(Names(f.columns), name);
      assert IndexOf(Names(g.columns), name) == k by { IndexOfSame(Names(g.columns), Names(f.columns), name); }
      forall n | n in Names(f.columns) && n != name
        ensures ValuesOf(g, n) == ValuesOf(f, n)
      {
        IndexOfSame(Names(g.columns), Names(f.columns), n);
      }
    } else {
      NamesConcat(f.columns, [Column(name, vals)]);
      assert Names(g.columns) == Names(f.columns) + [name];
      IndexOfAppend(Names(f.columns), name);
      forall n | n in Names(f.columns)
        ensures ValuesOf(g, n) == ValuesOf(f, n)
      {
        IndexOfPrefix(Names(f.columns), [name], n);
      }
    }
  }

  /** The first occurrence of `n` is at `k` when `k` holds `n` and no
      earlier position does. */
  lemma FirstIndexOf(names: seq<string>, n: string, k: nat)
    requires k < |names| && names[k] == n
    requires forall j :: 0 <= j < k ==> names[j] != n
    ensures IndexOf(names, n) == k
  {
  }

  lemma IndexOfSame(a: seq<string>, b: seq<string>, n: string)
    requires a == b && n in a
    ensures IndexOf(a, n) == IndexOf(b, n)
  {
  }

  lemma IndexOfAppend(a: seq<string>, n: string)
    requires n !in a
    ensures IndexOf(a + [n], n) == |a|
  {
    var k := IndexOf(a + [n], n);
  }

  lemma IndexOfPrefix(a: seq<string>, b: seq<string>, n: string)
    requires n in a
    ensures IndexOf(a + b, n) == IndexOf(a, n)
  {
    var k := IndexOf(a, n);
    var j := IndexOf(a + b, n);
    assert (a + b)[k] == n;
  }

  /** The elements of `s` that satisfy `p`, in their original order. */
  function Filter(s: seq<Column>, p: Column -> bool): seq<Column>
    decreases |s|
  {
    if s == [] then []
    else (if p(s[0]) then [s[0]] else []) + Filter(s[1..], p)
  }

  /** The kept columns are exactly those of `s` that satisfy `p`, and there
      are no more of them than of `s`. */
  lemma {:induction false} FilterMembers(s: seq<Column>, p: Column -> bool)
    ensures forall x :: x in Filter(s, p) <==> x in s && p(x)
    ensures |Filter(s, p)| <= |s|
    decreases |s|
  {
    if s != [] {
      FilterMembers(s[1..], p);
      assert forall x :: x in s <==> x == s[0] || x in s[1..];
    }
  }

  /** `a` is `s` with some elements left out and the rest in their order. */
  predicate IsSubsequence(a: seq<Column>, s: seq<Column>)
    decreases |s|
  {
    if a == [] then true
    else if s == [] then false
    else if a[0] == s[0] then IsSubsequence(a[1..], s[1..])
    else IsSubsequence(a, s[1..])
  }

  lemma {:induction false} FilterIsSubsequence(s: seq<Column>, p: Column -> bool)
    ensures IsSubsequence(Filter(s, p), s)
    decreases |s|
  {
    if s != [] {
      FilterIsSubsequence(s[1..], p);
      if p(s[0]) {
        assert Filter(s, p)[1..] == Filter(s[1..], p);
      } else {
        assert Filter(s, p) == Filter(s[1..], p);
        SubsequenceOfTail(Filter(s, p), s);
      }
    }
  }

  lemma {:induction false} SubsequenceOfTail(a: seq<Column>, s: seq<Column>)
    requires s != [] && IsSubsequence(a, s[1..])
    ensures IsSubsequence(a, s)
    decreases |s|, |a|
  {
    if a != [] && a[0] == s[0] {
      SubsequenceDropHead(a, s[1..]);
    }
  }

  lemma {:induction false} SubsequenceDropHead(a: seq<Column>, s: seq<Column>)
    requires a != [] && IsSubsequence(a, s)
    ensures IsSubsequence(a[1..], s)
    decreases |s|, |a|
  {
    if a[1..] != [] {
      if a[0] == s[0] {
        SubsequenceOfTail(a[1..], s);
      } else {
        SubsequenceDropHead(a, s[1..]);
        SubsequenceOfTail(a[1..], s);
      }
    }
  }

  /** Splitting by `p` and by its negation `q` loses and duplicates nothing. */
  lemma {:induction false} FilterSplit(s: seq<Column>, p: Column -> bool, q: Column -> bool)
    requires forall x :: q(x) == !p(x)
    ensures multiset(Filter(s, p)) + multiset(Filter(s, q)) == multiset(s)
    decreases |s|
  {
    if s != [] {
      var fp, fq := Filter(s[1..], p), Filter(s[1..], q);
      assert multiset(fp) + multiset(fq) == multiset(s[1..]) by {
        FilterSplit(s[1..], p, q);
      }
      assert s == [s[0]] + s[1..];
      if p(s[0]) {
        assert Filter(s, p) == [s[0]] + fp && Filter(s, q) == fq;
      } else {
        assert Filter(s, p) == fp && Filter(s, q) == [s[0]] + fq;
      }
    }
  }

  /** When `p` implies `q`, `q` keeps at least as many elements, and exactly
      as many only when no element satisfies `q` without `p`. */
  lemma {:induction false} FilterCountMonotone(s: seq<Column>, p: Column -> bool, q: Column -> bool)
    requires forall x :: x in s && p(x) ==> q(x)
    ensures |Filter(s, p)| <= |Filter(s, q)|
    ensures |Filter(s, p)| == |Filter(s, q)| <==> forall x :: x in s && q(x) ==> p(x)
    decreases |s|
  {
    if s != [] {
      FilterCountMonotone(s[1..], p, q);
      assert forall x :: x in s ==> x == s[0] || x in s[1..];
    }
  }

  /** `df.drop(columns=names)` once every name is known to be present. */
  function Without(cols: seq<Column>, names: seq<string>): seq<Column> {
    Filter(cols, (c: Column) => c.name !in names)
  }

  /** The columns left by the drop are those whose name is not listed. */
  lemma WithoutMembers(cols: seq<Column>, names: seq<string>)
    ensures forall c :: c in Without(cols, names) <==> c in cols && c.name !in names
  {
    FilterMembers(cols, (c: Column) => c.name !in names);
  }

  /** The first name of `wanted` that is not among `present`. */
  function FirstAbsent(wanted: seq<string>, present: seq<string>): (n: string)
    requires exists w :: w in wanted && w !in present
    ensures n in wanted && n !in present
    decreases |wanted|
  {
    if wanted[0] !in present then wanted[0] else FirstAbsent(wanted[1..], present)
  }

  /** `pd.concat([a, b], axis=1)` on two frames indexed 0..height-1: the
      columns of `a` then those of `b`; an outer join on the row index pads
      the shorter frame's columns with NaN. */
  function Concat(a: Frame, b: Frame): Frame {
    var h := if a.height < b.height then b.height else a.height;
    Frame(h, Pad(a, h) + Pad(b, h))
  }

  function Pad(f: Frame, h: nat): seq<Column>
    requires f.height <= h
  {
    seq(|f.columns|, i requires 0 <= i < |f.columns| =>
      Column(f.columns[i].name,
             var v := f.columns[i].values;
             if |v| >= h then v[..h] else v + seq(h - |v|, _ => Missing)))
  }

  /** Two well-formed frames of one height concatenate without padding: the
      result keeps every column of both, in order, and their row count. */
  lemma ConcatSameHeight(a: Frame, b: Frame)
    requires WellFormed(a) && WellFormed(b) && a.height == b.height
    ensures Concat(a, b) == Frame(a.height, a.columns + b.columns)
    ensures WellFormed(Concat(a, b))
  {
    PadExact(a);
    PadExact(b);
  }

  lemma PadExact(f: Frame)
    requires WellFormed(f)
    ensures Pad(f, f.height) == f.columns
  {
    forall i | 0 <= i < |f.columns|
      ensures Pad(f, f.height)[i] == f.columns[i]
    {
      var v := f.columns[i].values;
      assert v[..|v|] == v;
    }
  }

  /** The concatenation has the taller frame's row count and the columns of
      `a` then those of `b`, names kept; row `r` of a column reads the
      original's row `r`, or NaN where the original has no such row. */
  lemma ConcatWellFormed(a: Frame, b: Frame)
    ensures var g := Concat(a, b);
      && g.height == (if a.height < b.height then b.height else a.height)
      && WellFormed(g)
      && |g.columns| == |a.columns| + |b.columns|
      && (forall i, r :: 0 <= i < |a.columns| && 0 <= r < g.height ==>
            g.columns[i].name == a.columns[i].name &&
            g.columns[i].values[r] == PaddedAt(a.columns[i].values, r))
      && (forall i, r :: 0 <= i < |b.columns| && 0 <= r < g.height ==>
            g.columns[|a.columns| + i].name == b.columns[i].name &&
            g.columns[|a.columns| + i].values[r] == PaddedAt(b.columns[i].values, r))
  {
    var g := Concat(a, b);
    PadSpec(a, g.height);
    PadSpec(b, g.height);
  }

  /** Row `r` of a column after padding with NaN. */
  function PaddedAt(v: seq<Value>, r: nat): Value {
    if r < |v| then v[r] else Missing
  }

  lemma PadSpec(f: Frame, h: nat)
    requires f.height <= h
    ensures |Pad(f, h)| == |f.columns|
    ensures forall i, r :: 0 <= i < |f.columns| && 0 <= r < h ==>
      |Pad(f, h)[i].values| == h &&
      Pad(f, h)[i].name == f.columns[i].name &&
      Pad(f, h)[i].values[r] == PaddedAt(f.columns[i].values, r)
  {
  }

  /** A pandas DataFrame whose columns the code overwrites in place. */
  class DataFrame {
    var height: nat
    var columns: seq<Column>

    function Value(): Frame
      reads this
    {
      Frame(height, columns)
    }

    constructor (f: Frame)
      ensures Value() == f
    {
      height := f.height;
      columns := f.columns;
    }

    /** `df[name] = vals`. */
    method Assign(name: string, vals: seq<Value>)
      modifies this
      ensures Value() == Frame(old(height), Assigned(old(columns), name, vals))
    {
      columns := Assigned(columns, name, vals);
    }
  }
}
