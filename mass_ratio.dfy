/** `calc_mass_ratio` (penguin_analysis.py:57-84): the mean of
    mass / (bill length x flipper length) over one species' usable rows. */
module MassRatio {
  import opened Wrappers
  import opened Seqs
  import opened Text
  import opened Dicts
  import opened Loader

  /** `d[species_name]` on a species the table lacks, and `float()` on a
      cell that is not a number (the offending text is kept). */
  datatype RatioError = KeyNotFound(species: string) | BadNumber(text: string)

  /** The three cells of one row that the ratio reads. */
  datatype Measurement = Measurement(mass: string, bill: string, flipper: string)

  /** Row i of a species' record, as lines 67-69 index it. */
  function Measurements(rec: Record): seq<Measurement>
    requires rec.Aligned()
  {
    seq(|rec.masses|, i requires 0 <= i < |rec.masses| => Measurement(rec.masses[i], rec.bills[i], rec.flippers[i]))
  }

  /** What one row does to the running mean: nothing, abort on a cell that
      does not parse, or contribute one ratio. */
  datatype Outcome = Skipped | Unparsable(text: string) | Ratio(value: real)

  /** Lines 71-82 for one row, on its three cells once normalised: a
      missing marker in any of them skips the row before anything is
      parsed, the three are parsed in the order mass, bill, flipper, and a
      zero bill or flipper skips the row after parsing. `num` stands for
      `float()`. */
  function Judge(m: string, b: string, f: string, num: string -> Option<real>): Outcome
  {
    if IsMissing(m) || IsMissing(b) || IsMissing(f) then Skipped
    else if num(m).None? then Unparsable(m)
    else if num(b).None? then Unparsable(b)
    else if num(f).None? then Unparsable(f)
    else if num(b).value == 0.0 || num(f).value == 0.0 then Skipped
    else
      RatioTimesDenominator(num(m).value, num(b).value, num(f).value);
      Ratio(num(m).value / (num(b).value * num(f).value))
  }

  /** A row contributes exactly when none of its three cells is missing,
      all three parse, and neither the bill nor the flipper is zero; what
      it contributes times bill times flipper is its mass. */
  lemma JudgeRatio(m: string, b: string, f: string, num: string -> Option<real>)
    ensures Judge(m, b, f, num).Ratio? <==>
      && !IsMissing(m) && !IsMissing(b) && !IsMissing(f)
      && num(m).Some? && num(b).Some? && num(f).Some?
      && num(b).value != 0.0 && num(f).value != 0.0
    ensures Judge(m, b, f, num).Ratio? ==>
      Judge(m, b, f, num).value * (num(b).value * num(f).value) == num(m).value
  {
    if Judge(m, b, f, num).Ratio? {
      RatioTimesDenominator(num(m).value, num(b).value, num(f).value);
    }
  }

  /** A row aborts the computation exactly when none of its cells is
      missing and one of them does not parse; the error names the first of
      mass, bill and flipper that does not. */
  lemma JudgeUnparsable(m: string, b: string, f: string, num: string -> Option<real>)
    ensures Judge(m, b, f, num).Unparsable? <==>
      !IsMissing(m) && !IsMissing(b) && !IsMissing(f) && (num(m).None? || num(b).None? || num(f).None?)
    ensures Judge(m, b, f, num).Unparsable? ==>
      Judge(m, b, f, num).text == (if num(m).None? then m else if num(b).None? then b else f)
  {
  }

  /** Lines 67-82 for one row: the stored cells are normalised again. */
  function Assess(x: Measurement, num: string -> Option<real>): Outcome
  {
    Judge(Normalize(x.mass), Normalize(x.bill), Normalize(x.flipper), num)
  }

  lemma RatioTimesDenominator(m: real, b: real, f: real)
    requires b != 0.0 && f != 0.0
    ensures b * f != 0.0 && m / (b * f) * (b * f) == m
  {
  }

  /** The ratios of the rows that survive, in row order. */
  function Ratios(xs: seq<Measurement>, num: string -> Option<real>): seq<real>
  {
    if xs == [] then []
    else
      var last := Assess(xs[|xs| - 1], num);
      Ratios(xs[..|xs| - 1], num) + (if last.Ratio? then [last.value] else [])
  }

  /** The cell of the first row whose parse fails, if any row's does. */
  function FirstUnparsable(xs: seq<Measurement>, num: string -> Option<real>): Option<string>
  {
    if xs == [] then None
    else
      match FirstUnparsable(xs[..|xs| - 1], num)
      case Some(t) => Some(t)
      case None =>
        var last := Assess(xs[|xs| - 1], num);
        if last.Unparsable? then Some(last.text) else None
  }

  /** The result over a species' rows: the first unparsable cell aborts,
      otherwise the mean of the surviving ratios, or 0.0 if none survives. */
  function RatioOver(xs: seq<Measurement>, num: string -> Option<real>): Result<real, RatioError>
  {
    match FirstUnparsable(xs, num)
    case Some(t) => Err(BadNumber(t))
    case None => Ok(MeanOrZero(Ratios(xs, num)))
  }

  /** What `calc_mass_ratio(d, species)` returns or raises. */
  function MassRatio(d: Table, species: string, num: string -> Option<real>): (r: Result<real, RatioError>)
    requires species in d.values ==> d.values[species].Aligned()
    ensures r == Err(KeyNotFound(species)) <==> species !in d.values
  {
    if species !in d.values then Err(KeyNotFound(species))
    else RatioOver(Measurements(d.values[species]), num)
  }

  /** Lines 57-84: look the species up, then walk its rows accumulating
      `total_ratio` and `count`, and divide at the end unless nothing
      was counted. */
  method CalcMassRatio(d: Table, species: string, num: string -> Option<real>) returns (r: Result<real, RatioError>)
    requires species in d.values ==> d.values[species].Aligned()
    ensures r == MassRatio(d, species, num)
  {
    if species !in d.values {
      return Err(KeyNotFound(species));
    }
    var rec := d.values[species];
    var masses, bills, flippers := rec.masses, rec.bills, rec.flippers;
    ghost var xs := Measurements(rec);
    var total := 0.0;
    var count := 0;
    var i := 0;
    while i < |masses|
      invariant 0 <= i <= |masses|
      invariant FirstUnparsable(xs[..i], num) == None
      invariant total == Sum(Ratios(xs[..i], num)) && count == |Ratios(xs[..i], num)|
    {
      assert xs[i] == Measurement(masses[i], bills[i], flippers[i]);
      var out := AssessRow(masses[i], bills[i], flippers[i], num);
      Accumulate(xs, i, num, total, count, out);
      match out {
        case Skipped =>
        case Unparsable(t) =>
          return Err(BadNumber(t));
        case Ratio(ratio) =>
          total := total + ratio;
          count := count + 1;
      }
      i := i + 1;
    }
    TakeAll(xs);
    if count != 0 {
      r := Ok(total / count as real);
    } else {
      r := Ok(0.0);
    }
    MeanAtEnd(xs, num, total, count, r);
  }

  /** Line 84: dividing the accumulators, or 0.0 when nothing was counted,
      gives the mean of the surviving ratios. */
  lemma MeanAtEnd(xs: seq<Measurement>, num: string -> Option<real>, total: real, count: int, r: Result<real, RatioError>)
    requires FirstUnparsable(xs, num) == None
    requires total == Sum(Ratios(xs, num)) && count == |Ratios(xs, num)|
    requires r == if count != 0 then Ok(total / count as real) else Ok(0.0)
    ensures r == RatioOver(xs, num)
  {
  }

  /** Lines 67-82 for one row: normalise the three cells, then judge them. */
  method AssessRow(mass: string, bill: string, flipper: string, num: string -> Option<real>) returns (out: Outcome)
    ensures out == Assess(Measurement(mass, bill, flipper), num)
  {
    var m := Normalize(mass);
    var b := Normalize(bill);
    var f := Normalize(flipper);
    out := JudgeRow(m, b, f, num);
  }

  /** Lines 71-82 on one row's normalised cells, step by step: the
      missing-marker test, the three parses in order, the zero guard and
      the division. */
  method JudgeRow(m: string, b: string, f: string, num: string -> Option<real>) returns (out: Outcome)
    ensures out == Judge(m, b, f, num)
  {
    if IsMissing(m) || IsMissing(b) || IsMissing(f) {
      return Skipped;
    }
    var mv := num(m);
    if mv.None? {
      return Unparsable(m);
    }
    var bv := num(b);
    if bv.None? {
      return Unparsable(b);
    }
    var fv := num(f);
    if fv.None? {
      return Unparsable(f);
    }
    if bv.value == 0.0 || fv.value == 0.0 {
      return Skipped;
    }
    RatioTimesDenominator(mv.value, bv.value, fv.value);
    out := Ratio(mv.value / (bv.value * fv.value));
  }

  /** One row of the loop at lines 66-82: the accumulators and the
      failure search after row i, given what the row came to. */
  lemma Accumulate(xs: seq<Measurement>, i: nat, num: string -> Option<real>, total: real, count: int, out: Outcome)
    requires i < |xs| && out == Assess(xs[i], num)
    requires FirstUnparsable(xs[..i], num) == None
    requires total == Sum(Ratios(xs[..i], num)) && count == |Ratios(xs[..i], num)|
    ensures out.Unparsable? ==> FirstUnparsable(xs, num) == Some(out.text)
    ensures !out.Unparsable? ==> FirstUnparsable(xs[..i + 1], num) == None
    ensures out.Ratio? ==> total + out.value == Sum(Ratios(xs[..i + 1], num)) && count + 1 == |Ratios(xs[..i + 1], num)|
    ensures out.Skipped? ==> total == Sum(Ratios(xs[..i + 1], num)) && count == |Ratios(xs[..i + 1], num)|
  {
    PrefixStep(xs, i, num);
    if out.Ratio? {
      SumSnoc(Ratios(xs[..i], num), out.value);
    } else if out.Unparsable? {
      UnparsableSticks(xs, i + 1, num);
    }
  }

  /** One more row extends the ratios and the failure search by that row. */
  lemma PrefixStep(xs: seq<Measurement>, i: nat, num: string -> Option<real>)
    requires i < |xs|
    ensures var out := Assess(xs[i], num);
      out.Ratio? ==> Ratios(xs[..i + 1], num) == Ratios(xs[..i], num) + [out.value]
    ensures !Assess(xs[i], num).Ratio? ==> Ratios(xs[..i + 1], num) == Ratios(xs[..i], num)
    ensures var out := Assess(xs[i], num);
      FirstUnparsable(xs[..i + 1], num) ==
        if FirstUnparsable(xs[..i], num).Some? then FirstUnparsable(xs[..i], num)
        else if out.Unparsable? then Some(out.text) else None
  {
    assert xs[..i + 1][..i] == xs[..i];
    assert Ratios(xs[..i], num) + [] == Ratios(xs[..i], num);
  }

  /** Rows after the first unparsable one cannot change the error. */
  lemma UnparsableSticks(xs: seq<Measurement>, k: nat, num: string -> Option<real>)
    requires k <= |xs| && FirstUnparsable(xs[..k], num).Some?
    ensures FirstUnparsable(xs, num) == FirstUnparsable(xs[..k], num)
  {
    assert xs == xs[..k] + xs[k..];
    FirstUnparsableAppend(xs[..k], xs[k..], num);
  }

  /** The failure search over two stretches of rows: the first stretch's
      failure wins, otherwise the second's. */
  lemma {:induction false} FirstUnparsableAppend(a: seq<Measurement>, b: seq<Measurement>, num: string -> Option<real>)
    ensures FirstUnparsable(a + b, num) == if FirstUnparsable(a, num).Some? then FirstUnparsable(a, num) else FirstUnparsable(b, num)
  {
    if b == [] {
      assert a + b == a;
    } else {
      assert (a + b)[..|a + b| - 1] == a + b[..|b| - 1];
      FirstUnparsableAppend(a, b[..|b| - 1], num);
    }
  }

  /** The surviving ratios of two stretches of rows, one after the other. */
  lemma {:induction false} RatiosAppend(a: seq<Measurement>, b: seq<Measurement>, num: string -> Option<real>)
    ensures Ratios(a + b, num) == Ratios(a, num) + Ratios(b, num)
  {
    if b == [] {
      assert a + b == a;
    } else {
      assert (a + b)[..|a + b| - 1] == a + b[..|b| - 1];
      RatiosAppend(a, b[..|b| - 1], num);
    }
  }

  /** One row on its own. */
  lemma OneRow(x: Measurement, num: string -> Option<real>)
    ensures var out := Assess(x, num);
      Ratios([x], num) == (if out.Ratio? then [out.value] else [])
    ensures var out := Assess(x, num);
      FirstUnparsable([x], num) == (if out.Unparsable? then Some(out.text) else None)
  {
    assert [x][..0] == [];
  }

  /** The surviving ratios of rows a, then x, then b. */
  lemma RatiosAround(a: seq<Measurement>, x: Measurement, b: seq<Measurement>, num: string -> Option<real>)
    ensures var out := Assess(x, num);
      Ratios(a + [x] + b, num) == Ratios(a, num) + (if out.Ratio? then [out.value] else []) + Ratios(b, num)
  {
    RatiosAppend(a + [x], b, num);
    RatiosAppend(a, [x], num);
    OneRow(x, num);
  }

  /** The failure search over rows a, then x, then b. */
  lemma FirstUnparsableAround(a: seq<Measurement>, x: Measurement, b: seq<Measurement>, num: string -> Option<real>)
    ensures var out := Assess(x, num);
      FirstUnparsable(a + [x] + b, num) ==
        if FirstUnparsable(a, num).Some? then FirstUnparsable(a, num)
        else if out.Unparsable? then Some(out.text)
        else FirstUnparsable(b, num)
  {
    FirstUnparsableAppend(a + [x], b, num);
    FirstUnparsableAppend(a, [x], num);
    OneRow(x, num);
  }

  /** Lines 72-73 and 80-81: a row with a missing cell, or with a zero bill
      or flipper, leaves the result as if it were not there. */
  lemma SkippedRowIsInvisible(a: seq<Measurement>, x: Measurement, b: seq<Measurement>, num: string -> Option<real>)
    requires Assess(x, num).Skipped?
    ensures RatioOver(a + [x] + b, num) == RatioOver(a + b, num)
  {
    SkippedRowAddsNoRatio(a, x, b, num);
    SkippedRowAddsNoFailure(a, x, b, num);
  }

  lemma SkippedRowAddsNoRatio(a: seq<Measurement>, x: Measurement, b: seq<Measurement>, num: string -> Option<real>)
    requires Assess(x, num).Skipped?
    ensures Ratios(a + [x] + b, num) == Ratios(a + b, num)
  {
    RatiosAround(a, x, b, num);
    RatiosAppend(a, b, num);
    NothingBetween(Ratios(a, num), Ratios(b, num));
  }

  lemma SkippedRowAddsNoFailure(a: seq<Measurement>, x: Measurement, b: seq<Measurement>, num: string -> Option<real>)
    requires Assess(x, num).Skipped?
    ensures FirstUnparsable(a + [x] + b, num) == FirstUnparsable(a + b, num)
  {
    FirstUnparsableAround(a, x, b, num);
    FirstUnparsableAppend(a, b, num);
  }

  /** Lines 74-78: the first row with a cell that does not parse aborts the
      whole computation with that cell, whatever rows follow it. */
  lemma UnparsableRowAborts(a: seq<Measurement>, x: Measurement, b: seq<Measurement>, num: string -> Option<real>)
    requires FirstUnparsable(a, num) == None && Assess(x, num).Unparsable?
    ensures RatioOver(a + [x] + b, num) == Err(BadNumber(Assess(x, num).text))
  {
    FirstUnparsableAround(a, x, b, num);
  }

  /** Line 82: a usable row puts its ratio into the pool that is averaged,
      between those of the rows before and after it. */
  lemma UsableRowCounts(a: seq<Measurement>, x: Measurement, b: seq<Measurement>, num: string -> Option<real>)
    requires Assess(x, num).Ratio?
    ensures Ratios(a + [x] + b, num) == Ratios(a, num) + [Assess(x, num).value] + Ratios(b, num)
  {
    RatiosAround(a, x, b, num);
  }

  /** Line 84: when every row is skipped the result is 0.0, not a division
      by zero. */
  lemma {:induction false} NothingUsable(xs: seq<Measurement>, num: string -> Option<real>)
    requires forall i :: 0 <= i < |xs| ==> Assess(xs[i], num).Skipped?
    ensures Ratios(xs, num) == [] && FirstUnparsable(xs, num) == None
    ensures RatioOver(xs, num) == Ok(0.0)
  {
    if xs != [] {
      var init := xs[..|xs| - 1];
      assert forall i :: 0 <= i < |init| ==> init[i] == xs[i];
      NothingUsable(init, num);
    }
  }

  /** A row whose mass is "NA" is left out of both the sum and the count:
      with the other row alone the mean is 4000 / (40 x 200). */
  lemma MissingMassExample(num: string -> Option<real>)
    requires num("4000") == Some(4000.0) && num("40.0") == Some(40.0) && num("200") == Some(200.0)
    ensures var rec := Record(["NA", "4000"], ["40.0", "40.0"], ["200", "200"], ["18.0", "18.0"], ["Dream", "Dream"], ["male", "male"]);
      var d := Dict(["Adelie"], map["Adelie" := rec]);
      MassRatio(d, "Adelie", num) == Ok(4000.0 / (40.0 * 200.0))
  {
    var rec := Record(["NA", "4000"], ["40.0", "40.0"], ["200", "200"], ["18.0", "18.0"], ["Dream", "Dream"], ["male", "male"]);
    assert Measurements(rec) == [Measurement("NA", "40.0", "200"), Measurement("4000", "40.0", "200")];
    ExampleRatioOver(num);
  }

  lemma ExampleRatioOver(num: string -> Option<real>)
    requires num("4000") == Some(4000.0) && num("40.0") == Some(40.0) && num("200") == Some(200.0)
    ensures RatioOver([Measurement("NA", "40.0", "200"), Measurement("4000", "40.0", "200")], num) == Ok(4000.0 / (40.0 * 200.0))
  {
    ExampleAssess(num);
    SkippedThenUsable(Measurement("NA", "40.0", "200"), Measurement("4000", "40.0", "200"), num);
  }

  /** A skipped row followed by a usable one gives the usable row's ratio. */
  lemma SkippedThenUsable(x: Measurement, y: Measurement, num: string -> Option<real>)
    requires Assess(x, num).Skipped? && Assess(y, num).Ratio?
    ensures RatioOver([x, y], num) == Ok(Assess(y, num).value)
  {
    SkippedFirstRow(x, [y], num);
    SingleUsableRow(y, num);
    assert [x] + [y] == [x, y];
  }

  /** A skipped first row changes nothing. */
  lemma SkippedFirstRow(x: Measurement, rest: seq<Measurement>, num: string -> Option<real>)
    requires Assess(x, num).Skipped?
    ensures RatioOver([x] + rest, num) == RatioOver(rest, num)
  {
    SkippedRowIsInvisible([], x, rest, num);
    NothingBefore(x, rest);
  }

  /** A single usable row is its own mean. */
  lemma SingleUsableRow(y: Measurement, num: string -> Option<real>)
    requires Assess(y, num).Ratio?
    ensures RatioOver([y], num) == Ok(Assess(y, num).value)
  {
    OneRow(y, num);
    var v := Assess(y, num).value;
    assert Sum([v]) == v by {
      assert [v][..0] == [];
    }
    assert MeanOrZero([v]) == v;
  }

  lemma ExampleAssess(num: string -> Option<real>)
    requires num("4000") == Some(4000.0) && num("40.0") == Some(40.0) && num("200") == Some(200.0)
    ensures Assess(Measurement("NA", "40.0", "200"), num) == Skipped
    ensures Assess(Measurement("4000", "40.0", "200"), num) == Ratio(4000.0 / (40.0 * 200.0))
  {
    NormalizeKeepsClean("NA");
    NormalizeKeepsClean("40.0");
    NormalizeKeepsClean("200");
    NormalizeKeepsClean("4000");
  }
}
